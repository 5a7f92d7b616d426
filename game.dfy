/** The per-tick view of the game the bot decides from, and what it decides. */
module Game {
  import opened Vectors
  import opened Wrappers

  /** The bot's own car. `boost` is the integer boost amount (0 to 100). */
  datatype Car = Car(location: Vec, forward: Vec, boost: int, airborne: bool)

  datatype Ball = Ball(location: Vec, velocity: Vec)

  datatype BoostPad = BoostPad(location: Vec, active: bool)

  /** One entry of the ball prediction: the absolute game time and where the ball is then. */
  datatype Slice = Slice(gameSeconds: real, location: Vec)

  /**
   * The agent's state at one tick: its car, the ball, the two goal locations,
   * the boost pads in the engine's order, the current game time and the
   * kickoff flag.
   */
  datatype World = World(
    me: Car,
    ball: Ball,
    friendGoal: Vec,
    foeGoal: Vec,
    boosts: seq<BoostPad>,
    time: real,
    kickoffFlag: bool)

  /**
   * The shot routines. Jump and aerial shots carry the predicted ball
   * location, the absolute intercept time, the shot direction and the
   * alignment ratio; a short shot carries only its target.
   */
  datatype Shot =
    | JumpShot(ballLocation: Vec, interceptTime: real, shotVector: Vec, ratio: real, direction: int)
    | AerialShot(ballLocation: Vec, interceptTime: real, shotVector: Vec, ratio: real)
    | ShortShot(target: Vec)
  {
    /** Whether the routine has a `ball_location` attribute. */
    predicate HasBallLocation() {
      JumpShot? || AerialShot?
    }
  }

  /** What the bot pushes onto its action stack. */
  datatype Action =
    | Kickoff
    | TakeShot(shot: Shot)
    | GotoBoost(pad: BoostPad, waypoint: Option<Vec>)
    | Goto(target: Vec, vector: Vec)
}
