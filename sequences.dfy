/**
 * Generic sequence operations the bot's list handling rests on: keeping the
 * elements that pass a test (a list built by a filtering loop), and Python's
 * stable ascending sort by a key, with its head characterised as the earliest
 * element of least key.
 */
module Sequences {

  /** The elements of `s` that satisfy `p`, in their original order. */
  function Filter<T(!new)>(p: T -> bool, s: seq<T>): (r: seq<T>)
    ensures |r| <= |s|
    ensures forall x :: x in r <==> x in s && p(x)
  {
    if s == [] then [] else (if p(s[0]) then [s[0]] else []) + Filter(p, s[1..])
  }

  lemma {:induction false} FilterConcat<T(!new)>(p: T -> bool, a: seq<T>, b: seq<T>)
    ensures Filter(p, a + b) == Filter(p, a) + Filter(p, b)
  {
    if a == [] {
      assert a + b == b;
    } else {
      assert (a + b)[0] == a[0];
      assert (a + b)[1..] == a[1..] + b;
      FilterConcat(p, a[1..], b);
    }
  }

  /** Filtering a prefix one element longer appends that element when it passes. */
  lemma FilterSnoc<T(!new)>(p: T -> bool, s: seq<T>, j: nat)
    requires j < |s|
    ensures Filter(p, s[..j + 1]) == Filter(p, s[..j]) + (if p(s[j]) then [s[j]] else [])
  {
    assert s[..j + 1] == s[..j] + [s[j]];
    FilterConcat(p, s[..j], [s[j]]);
  }

  /** `a` can be obtained from `b` by deleting elements, keeping the order. */
  ghost predicate IsSubsequence<T>(a: seq<T>, b: seq<T>)
    decreases |b|
  {
    a == [] || (b != [] && ((a[0] == b[0] && IsSubsequence(a[1..], b[1..])) || IsSubsequence(a, b[1..])))
  }

  lemma {:induction false} FilterIsSubsequence<T(!new)>(p: T -> bool, s: seq<T>)
    ensures IsSubsequence(Filter(p, s), s)
  {
    if s != [] {
      FilterIsSubsequence(p, s[1..]);
      if p(s[0]) {
        assert Filter(p, s) == [s[0]] + Filter(p, s[1..]);
        assert Filter(p, s)[1..] == Filter(p, s[1..]);
      } else {
        assert Filter(p, s) == Filter(p, s[1..]);
      }
    }
  }

  ghost predicate SortedBy<T>(s: seq<T>, key: T -> real) {
    forall i, j :: 0 <= i < j < |s| ==> key(s[i]) <= key(s[j])
  }

  /**
   * Inserts `x` in front of the first element whose key is not below its own,
   * so `x` stays ahead of the elements with an equal key.
   */
  function Insert<T>(x: T, s: seq<T>, key: T -> real): (r: seq<T>)
    ensures |r| == |s| + 1
    ensures multiset(r) == multiset(s) + multiset{x}
    ensures r[0] == x || (s != [] && r[0] == s[0])
  {
    if s == [] || key(x) <= key(s[0]) then [x] + s
    else
      assert s == [s[0]] + s[1..];
      [s[0]] + Insert(x, s[1..], key)
  }

  /** The stable ascending sort of `s` by `key` (the order Python's `list.sort(key=...)` gives). */
  function InsertionSort<T>(s: seq<T>, key: T -> real): (r: seq<T>)
    ensures |r| == |s|
    ensures multiset(r) == multiset(s)
  {
    if s == [] then []
    else
      assert s == [s[0]] + s[1..];
      Insert(s[0], InsertionSort(s[1..], key), key)
  }

  lemma {:induction false} InsertKeepsSorted<T>(x: T, s: seq<T>, key: T -> real)
    requires SortedBy(s, key)
    ensures SortedBy(Insert(x, s, key), key)
  {
    if s != [] && key(s[0]) < key(x) {
      InsertKeepsSorted(x, s[1..], key);
      var t := Insert(x, s[1..], key);
      assert key(s[0]) <= key(t[0]);
      assert Insert(x, s, key) == [s[0]] + t;
    }
  }

  /** The sort is ascending by key (and, by its contract, a permutation of its input). */
  lemma {:induction false} InsertionSortIsSorted<T>(s: seq<T>, key: T -> real)
    ensures SortedBy(InsertionSort(s, key), key)
  {
    if s != [] {
      InsertionSortIsSorted(s[1..], key);
      InsertKeepsSorted(s[0], InsertionSort(s[1..], key), key);
    }
  }

  /** The index of the earliest element of `s` whose key is least. */
  function ArgMin<T>(s: seq<T>, key: T -> real): (k: nat)
    requires s != []
    ensures k < |s|
    ensures forall j :: 0 <= j < |s| ==> key(s[k]) <= key(s[j])
    ensures forall j :: 0 <= j < k ==> key(s[k]) < key(s[j])
  {
    if |s| == 1 then 0
    else
      var m := ArgMin(s[1..], key);
      if key(s[0]) <= key(s[1..][m]) then 0 else m + 1
  }

  /** The head of the stable ascending sort is the earliest element of least key. */
  lemma {:induction false} SortHeadIsArgMin<T>(s: seq<T>, key: T -> real)
    requires s != []
    ensures InsertionSort(s, key)[0] == s[ArgMin(s, key)]
  {
    if |s| > 1 {
      SortHeadIsArgMin(s[1..], key);
    }
  }

  /** The earliest index whose key is greatest. */
  function ArgMax<T>(s: seq<T>, key: T -> real): (k: nat)
    requires s != []
    ensures k < |s|
    ensures forall j :: 0 <= j < |s| ==> key(s[j]) <= key(s[k])
    ensures forall j :: 0 <= j < k ==> key(s[j]) < key(s[k])
  {
    if |s| == 1 then 0
    else
      var m := ArgMax(s[1..], key);
      if key(s[1..][m]) <= key(s[0]) then 0 else m + 1
  }

  /** The key that turns a stable ascending sort into a stable descending one. */
  function Negated<T>(key: T -> real): T -> real
  {
    (x: T) => -key(x)
  }

  /** The head of the stable descending sort is the earliest element of greatest key. */
  lemma DescendingSortHeadIsArgMax<T>(s: seq<T>, key: T -> real)
    requires s != []
    ensures InsertionSort(s, Negated(key))[0] == s[ArgMax(s, key)]
  {
    SortHeadIsArgMin(s, Negated(key));
  }
}
