/**
 * Insertion-ordered sets: what `Array.from(new Set(xs))` and a `Set` filled by
 * `forEach` produce, as a duplicate-free sequence in first-occurrence order.
 */
module Collections {

  predicate Distinct<T(==)>(s: seq<T>) {
    forall i, j :: 0 <= i < j < |s| ==> s[i] != s[j]
  }

  /** `Array.from(new Set(xs))`: each element of `xs` once, in first-occurrence order. */
  function Dedup<T(==,!new)>(xs: seq<T>): (r: seq<T>)
    ensures Distinct(r)
    ensures forall x :: x in r <==> x in xs
    ensures |r| <= |xs|
  {
    if xs == [] then []
    else
      var d := Dedup(xs[..|xs| - 1]);
      var x := xs[|xs| - 1];
      assert xs == xs[..|xs| - 1] + [x];
      if x in d then d else d + [x]
  }

  /** The elements of `Dedup(xs)` appear in the order of their first occurrences in `xs`. */
  lemma DedupFirstOccurrenceOrder<T(!new)>(xs: seq<T>)
    ensures var r := Dedup(xs);
            forall i, j :: 0 <= i < j < |r| ==> IndexOf(xs, r[i]) < IndexOf(xs, r[j])
  {
    forall i, j | 0 <= i < j < |Dedup(xs)| ensures IndexOf(xs, Dedup(xs)[i]) < IndexOf(xs, Dedup(xs)[j]) {
      DedupOrderAt(xs, i, j);
    }
  }

  lemma {:induction false} DedupOrderAt<T(!new)>(xs: seq<T>, i: nat, j: nat)
    requires i < j < |Dedup(xs)|
    ensures IndexOf(xs, Dedup(xs)[i]) < IndexOf(xs, Dedup(xs)[j])
  {
    var p := xs[..|xs| - 1];
    var x := xs[|xs| - 1];
    assert xs == p + [x];
    IndexOfSnoc(p, x);
    var d := Dedup(p);
    var r := Dedup(xs);
    assert r == if x in d then d else d + [x];
    assert r[i] == d[i] && d[i] in p;
    assert IndexOf(xs, r[i]) == IndexOf(p, d[i]) < |p|;
    if j < |d| {
      assert r[j] == d[j] && d[j] in p;
      DedupOrderAt(p, i, j);
    } else {
      assert r[j] == x && x !in p;
    }
  }

  /** Appending an element keeps the first positions of the elements already present, and puts a new one last. */
  lemma {:induction false} IndexOfSnoc<T>(p: seq<T>, x: T)
    ensures forall y :: y in p ==> IndexOf(p + [x], y) == IndexOf(p, y)
    ensures x !in p ==> IndexOf(p + [x], x) == |p|
  {
    if p != [] {
      assert (p + [x])[1..] == p[1..] + [x];
      IndexOfSnoc(p[1..], x);
    }
  }

  /** Adding `x` to an insertion-ordered set: the step of the `forEach` loops. */
  lemma DedupSnoc<T(!new)>(xs: seq<T>, x: T)
    ensures Dedup(xs + [x]) == if x in Dedup(xs) then Dedup(xs) else Dedup(xs) + [x]
  {
    assert (xs + [x])[..|xs|] == xs;
  }

  /** A sequence that already has no duplicates is its own insertion-ordered set. */
  lemma {:induction false} DedupOfDistinct<T(!new)>(xs: seq<T>)
    requires Distinct(xs)
    ensures Dedup(xs) == xs
  {
    if xs != [] {
      var p := xs[..|xs| - 1];
      assert Distinct(p);
      DedupOfDistinct(p);
      var x := xs[|xs| - 1];
      assert x !in p;
      assert xs == p + [x];
      assert xs[..|xs| - 1] == p;
      assert Dedup(xs) == Dedup(p) + [x];
    }
  }

  lemma ConcatAssoc<T>(a: seq<T>, b: seq<T>, c: seq<T>)
    ensures a + (b + c) == (a + b) + c
  {
  }

  /** The concatenation of a sequence of sequences, e.g. of request batches. */
  function Flatten<T>(ss: seq<seq<T>>): (r: seq<T>)
    ensures |ss| == 0 ==> r == []
  {
    if ss == [] then [] else Flatten(ss[..|ss| - 1]) + ss[|ss| - 1]
  }

  lemma FlattenSnoc<T>(ss: seq<seq<T>>, s: seq<T>)
    ensures Flatten(ss + [s]) == Flatten(ss) + s
  {
    assert (ss + [s])[..|ss|] == ss;
  }

  /** `xs.findIndex(y => y === x)`: the first position of `x`, or -1 when absent. */
  function IndexOf<T(==)>(xs: seq<T>, x: T): (i: int)
    ensures -1 <= i < |xs|
    ensures i < 0 <==> x !in xs
    ensures 0 <= i ==> xs[i] == x && x !in xs[..i]
  {
    if xs == [] then -1
    else if xs[0] == x then 0
    else
      var i := IndexOf(xs[1..], x);
      if i < 0 then -1
      else
        assert xs[..i + 1] == [xs[0]] + xs[1..][..i];
        i + 1
  }
}
