/**
 * `entries.sort((a, b) => b[1] - a[1])`: the stable sort by a numeric key,
 * largest first, that the dashboard and the profile apply to record entries.
 * It is modelled as an insertion sort, which is stable like the engine's.
 */
module Sorting {

  predicate SortedDesc<T>(xs: seq<T>, key: T -> real) {
    forall i, j :: 0 <= i < j < |xs| ==> key(xs[i]) >= key(xs[j])
  }

  /** Puts `x` before the first element whose key is not larger than its own. */
  function InsertDesc<T(==)>(x: T, ys: seq<T>, key: T -> real): (r: seq<T>)
    ensures multiset(r) == multiset(ys) + multiset{x}
  {
    if ys == [] || key(ys[0]) <= key(x) then [x] + ys
    else
      assert ys == [ys[0]] + ys[1..];
      [ys[0]] + InsertDesc(x, ys[1..], key)
  }

  lemma {:induction false} InsertDescSorted<T>(x: T, ys: seq<T>, key: T -> real)
    requires SortedDesc(ys, key)
    ensures SortedDesc(InsertDesc(x, ys, key), key)
  {
    if ys != [] && key(ys[0]) > key(x) {
      var rest := InsertDesc(x, ys[1..], key);
      InsertDescSorted(x, ys[1..], key);
      assert ys == [ys[0]] + ys[1..];
      forall k | 0 <= k < |rest| ensures key(rest[k]) <= key(ys[0]) {
        assert rest[k] in multiset(rest);
        if rest[k] != x {
          assert rest[k] in multiset(ys[1..]);
          var m :| 0 <= m < |ys[1..]| && ys[1..][m] == rest[k];
          assert ys[m + 1] == rest[k];
        }
      }
    }
  }

  function SortDesc<T(==)>(xs: seq<T>, key: T -> real): (r: seq<T>)
    ensures multiset(r) == multiset(xs)
    ensures SortedDesc(r, key)
  {
    if xs == [] then []
    else
      assert xs == [xs[0]] + xs[1..];
      InsertDescSorted(xs[0], SortDesc(xs[1..], key), key);
      InsertDesc(xs[0], SortDesc(xs[1..], key), key)
  }

  /** `xs[i]` has the largest key, and every earlier element a smaller one. */
  predicate IsFirstMax<T>(xs: seq<T>, key: T -> real, i: int) {
    0 <= i < |xs|
    && (forall j :: 0 <= j < |xs| ==> key(xs[j]) <= key(xs[i]))
    && (forall j :: 0 <= j < i ==> key(xs[j]) < key(xs[i]))
  }

  /** The first element of the sorted sequence has the largest key. */
  lemma SortHeadIsMax<T>(xs: seq<T>, key: T -> real)
    requires xs != []
    ensures |SortDesc(xs, key)| == |xs|
    ensures forall j :: 0 <= j < |xs| ==> key(xs[j]) <= key(SortDesc(xs, key)[0])
  {
    var s := SortDesc(xs, key);
    assert |s| == |multiset(s)| == |multiset(xs)| == |xs|;
    forall j | 0 <= j < |xs| ensures key(xs[j]) <= key(s[0]) {
      assert xs[j] in multiset(xs);
      var k :| 0 <= k < |s| && s[k] == xs[j];
    }
  }

  /**
   * `sorted[0]` is the earliest element of the input with the largest key:
   * ties keep their input order. The lemma returns its position.
   */
  lemma {:induction false} SortHeadIsFirstMax<T>(xs: seq<T>, key: T -> real) returns (i: nat)
    requires xs != []
    ensures IsFirstMax(xs, key, i) && xs[i] == SortDesc(xs, key)[0]
  {
    var tail := xs[1..];
    var s := SortDesc(tail, key);
    assert SortDesc(xs, key) == InsertDesc(xs[0], s, key);
    if s == [] || key(s[0]) <= key(xs[0]) {
      if tail != [] {
        SortHeadIsMax(tail, key);
      }
      HeadIsFirstMax(xs, key);
      i := 0;
    } else {
      var i' := SortHeadIsFirstMax(tail, key);
      ShiftFirstMax(xs, key, i');
      i := i' + 1;
    }
  }

  /** The head is the first maximum when no later key exceeds its own. */
  lemma HeadIsFirstMax<T>(xs: seq<T>, key: T -> real)
    requires xs != []
    requires forall j :: 0 <= j < |xs[1..]| ==> key(xs[1..][j]) <= key(xs[0])
    ensures IsFirstMax(xs, key, 0)
  {
    forall j | 1 <= j < |xs| ensures key(xs[j]) <= key(xs[0]) {
      assert xs[j] == xs[1..][j - 1];
    }
  }

  /** A first maximum of the tail whose key beats the head's is the first maximum of the whole. */
  lemma ShiftFirstMax<T>(xs: seq<T>, key: T -> real, i: nat)
    requires xs != [] && IsFirstMax(xs[1..], key, i)
    requires key(xs[0]) < key(xs[1..][i])
    ensures IsFirstMax(xs, key, i + 1)
  {
    forall j | 1 <= j < |xs| ensures xs[j] == xs[1..][j - 1] {}
  }
}
