/**
 * Sequence facts used by the record-building loops of the views: occurrence
 * counts, first occurrences, the key order a JavaScript object keeps when keys
 * are added one by one, and the running maximum `if (w > max) max = w`.
 */
module Seqs {

  predicate Distinct<T(==)>(xs: seq<T>) {
    forall i, j :: 0 <= i < j < |xs| ==> xs[i] != xs[j]
  }

  /** Number of occurrences of `x` in `xs`. */
  function Count<T(==)>(xs: seq<T>, x: T): (r: nat)
    ensures r <= |xs|
    ensures r == 0 <==> x !in xs
  {
    if xs == [] then 0
    else Count(xs[..|xs| - 1], x) + (if xs[|xs| - 1] == x then 1 else 0)
  }

  lemma CountSnoc<T>(xs: seq<T>, y: T, x: T)
    ensures Count(xs + [y], x) == Count(xs, x) + (if y == x then 1 else 0)
  {
    assert (xs + [y])[..|xs|] == xs;
  }

  /** Index of the first occurrence of `x` in `xs`. */
  function FirstIndex<T(==)>(xs: seq<T>, x: T): (r: nat)
    requires x in xs
    ensures r < |xs| && xs[r] == x
    ensures forall j :: 0 <= j < r ==> xs[j] != x
  {
    if xs[0] == x then 0 else 1 + FirstIndex(xs[1..], x)
  }

  lemma {:induction false} FirstIndexSnoc<T>(xs: seq<T>, y: T, x: T)
    requires x in xs
    ensures FirstIndex(xs + [y], x) == FirstIndex(xs, x)
  {
    var i := FirstIndex(xs, x);
    var k := FirstIndex(xs + [y], x);
    assert (xs + [y])[i] == x;
    assert k <= i;
    assert xs[k] == x;
  }

  /**
   * The keys of an object to which the elements of `xs` are added as keys in
   * turn: each distinct element once, in order of first occurrence.
   */
  function Dedup<T(==,!new)>(xs: seq<T>): (r: seq<T>)
    ensures Distinct(r)
    ensures forall x :: x in r <==> x in xs
    ensures |r| <= |xs|
  {
    if xs == [] then []
    else
      var prev := Dedup(xs[..|xs| - 1]);
      var last := xs[|xs| - 1];
      assert forall x :: x in xs <==> x in xs[..|xs| - 1] || x == last;
      if last in prev then prev else prev + [last]
  }

  /** Adding one more element adds it as a key unless it is one already. */
  lemma DedupSnoc<T(!new)>(xs: seq<T>, x: T)
    ensures Dedup(xs + [x]) == if x in Dedup(xs) then Dedup(xs) else Dedup(xs) + [x]
  {
    assert (xs + [x])[..|xs|] == xs;
  }

  /** The keys come out in the order in which they first occur. */
  lemma {:induction false} DedupFirstOccurrenceOrder<T(!new)>(xs: seq<T>)
    ensures forall i, j :: 0 <= i < j < |Dedup(xs)| ==>
      FirstIndex(xs, Dedup(xs)[i]) < FirstIndex(xs, Dedup(xs)[j])
  {
    if xs != [] {
      var init, last := xs[..|xs| - 1], xs[|xs| - 1];
      assert xs == init + [last];
      DedupFirstOccurrenceOrder(init);
      var d := Dedup(init);
      forall y | y in init ensures FirstIndex(xs, y) == FirstIndex(init, y) {
        FirstIndexSnoc(init, last, y);
      }
      if last !in d {
        assert FirstIndex(xs, last) == |init|;
      }
    }
  }

  /** The running maximum `m := start; for w in ws: if w > m then m := w`. */
  function MaxFrom(start: real, ws: seq<real>): (m: real)
    ensures m >= start
    ensures forall i :: 0 <= i < |ws| ==> ws[i] <= m
    ensures m == start || exists i :: 0 <= i < |ws| && ws[i] == m
  {
    if ws == [] then start
    else
      var prev := MaxFrom(start, ws[..|ws| - 1]);
      var w := ws[|ws| - 1];
      assert forall i :: 0 <= i < |ws| - 1 ==> ws[..|ws| - 1][i] == ws[i];
      if w > prev then w else prev
  }

  lemma MaxFromSnoc(start: real, ws: seq<real>, w: real)
    ensures MaxFrom(start, ws + [w]) == if w > MaxFrom(start, ws) then w else MaxFrom(start, ws)
  {
    assert (ws + [w])[..|ws|] == ws;
  }

  /** A sequence without repeats holds each value at most once. */
  lemma {:induction false} DistinctMultiplicity<T>(xs: seq<T>)
    requires Distinct(xs)
    ensures forall x :: multiset(xs)[x] <= 1
  {
    if xs != [] {
      var init := xs[..|xs| - 1];
      assert xs == init + [xs[|xs| - 1]];
      DistinctMultiplicity(init);
      assert xs[|xs| - 1] !in init;
    }
  }

  /** Reordering a sequence without repeats gives one without repeats. */
  lemma PermutationKeepsDistinct<T>(xs: seq<T>, ys: seq<T>)
    requires Distinct(xs) && multiset(xs) == multiset(ys)
    ensures Distinct(ys)
  {
    DistinctMultiplicity(xs);
    forall i, j | 0 <= i < j < |ys| ensures ys[i] != ys[j] {
      assert ys == ys[..j] + [ys[j]] + ys[j + 1..];
      assert multiset(ys)[ys[i]] >= multiset(ys[..j])[ys[i]] + (if ys[i] == ys[j] then 1 else 0);
      assert ys[i] in ys[..j];
    }
  }

  /** The running maximum over `a + b` continues the one over `a`. */
  lemma {:induction false} MaxFromAppend(start: real, a: seq<real>, b: seq<real>)
    ensures MaxFrom(start, a + b) == MaxFrom(MaxFrom(start, a), b)
  {
    if b == [] {
      assert a + b == a;
    } else {
      var init, last := b[..|b| - 1], b[|b| - 1];
      assert a + b == (a + init) + [last];
      MaxFromAppend(start, a, init);
      MaxFromSnoc(start, a + init, last);
      MaxFromSnoc(MaxFrom(start, a), init, last);
    }
  }

  /** The occurrences in `xs` of each element of `keys`, added up. */
  function CountSum<T(==)>(xs: seq<T>, keys: seq<T>): nat {
    if keys == [] then 0 else CountSum(xs, keys[..|keys| - 1]) + Count(xs, keys[|keys| - 1])
  }

  lemma {:induction false} CountSumSnoc<T>(xs: seq<T>, x: T, keys: seq<T>)
    ensures CountSum(xs + [x], keys) == CountSum(xs, keys) + Count(keys, x)
  {
    if keys != [] {
      var init, k := keys[..|keys| - 1], keys[|keys| - 1];
      CountSumSnoc(xs, x, init);
      CountSnoc(xs, x, k);
      CountSnoc(init, k, x);
      assert keys == init + [k];
    }
  }

  lemma {:induction false} DistinctCountOne<T>(xs: seq<T>, x: T)
    requires Distinct(xs) && x in xs
    ensures Count(xs, x) == 1
  {
    var init, last := xs[..|xs| - 1], xs[|xs| - 1];
    assert xs == init + [last];
    if x == last {
      assert x !in init;
    } else {
      DistinctCountOne(init, x);
    }
  }

  /** Counting each distinct element once and adding up the counts gives the length. */
  lemma {:induction false} DedupCountSum<T(!new)>(xs: seq<T>)
    ensures CountSum(xs, Dedup(xs)) == |xs|
  {
    if xs != [] {
      var init, x := xs[..|xs| - 1], xs[|xs| - 1];
      DedupCountSum(init);
      assert xs == init + [x];
      DedupCountSumStep(init, x);
    }
  }

  lemma DedupCountSumStep<T(!new)>(xs: seq<T>, x: T)
    ensures CountSum(xs + [x], Dedup(xs + [x])) == CountSum(xs, Dedup(xs)) + 1
  {
    if x in Dedup(xs) {
      KnownKeyCount(xs, x);
    } else {
      NewKeyCount(xs, x);
    }
  }

  lemma KnownKeyCount<T(!new)>(xs: seq<T>, x: T)
    requires x in Dedup(xs)
    ensures CountSum(xs + [x], Dedup(xs + [x])) == CountSum(xs, Dedup(xs)) + 1
  {
    DedupSnoc(xs, x);
    CountSumSnoc(xs, x, Dedup(xs));
    DistinctCountOne(Dedup(xs), x);
  }

  lemma NewKeyCount<T(!new)>(xs: seq<T>, x: T)
    requires x !in Dedup(xs)
    ensures CountSum(xs + [x], Dedup(xs + [x])) == CountSum(xs, Dedup(xs)) + 1
  {
    var keys := Dedup(xs);
    DedupSnoc(xs, x);
    assert (keys + [x])[..|keys|] == keys;
    CountSumSnoc(xs, x, keys);
    CountSnoc(xs, x, x);
  }
}
