/** The System.Linq operators the election service is built from, over
    sequences: FirstOrDefault (with None for the default null) and Distinct. */
module Linq {
  import opened Wrappers

  /** Position of the first element satisfying `p`, or |xs| when none does. */
  function FirstIndex<T>(xs: seq<T>, p: T -> bool): (k: nat)
    ensures k <= |xs|
    ensures forall j :: 0 <= j < k ==> !p(xs[j])
    ensures k < |xs| ==> p(xs[k])
  {
    if xs == [] then 0
    else if p(xs[0]) then 0
    else 1 + FirstIndex(xs[1..], p)
  }

  /** Enumerable.FirstOrDefault(xs, p): the first element satisfying `p`. */
  function FirstOrDefault<T>(xs: seq<T>, p: T -> bool): (r: Option<T>)
    ensures r.None? <==> forall i :: 0 <= i < |xs| ==> !p(xs[i])
    ensures r.Some? ==> exists k :: 0 <= k < |xs| && xs[k] == r.value && p(xs[k]) &&
                                    forall j :: 0 <= j < k ==> !p(xs[j])
  {
    var k := FirstIndex(xs, p);
    if k < |xs| then Some(xs[k]) else None
  }

  /** FirstOrDefault depends only on the values its predicate takes. */
  lemma FirstOrDefaultCongruent<T>(xs: seq<T>, p: T -> bool, q: T -> bool)
    requires forall x :: p(x) == q(x)
    ensures FirstOrDefault(xs, p) == FirstOrDefault(xs, q)
  {
  }

  /** When the last element does not satisfy `p`, dropping it leaves the
      first match unchanged. */
  lemma FirstOrDefaultDropLast<T>(xs: seq<T>, p: T -> bool)
    requires xs != [] && !p(xs[|xs| - 1])
    ensures FirstOrDefault(xs, p) == FirstOrDefault(xs[..|xs| - 1], p)
  {
    var k, k0 := FirstIndex(xs, p), FirstIndex(xs[..|xs| - 1], p);
    assert k0 < |xs| - 1 ==> k <= k0;
    assert k < |xs| - 1 ==> k0 <= k;
  }

  /** A match before the last element is found before the last element. */
  lemma FirstOrDefaultKeepsEarlyMatch<T>(xs: seq<T>, p: T -> bool, j: nat)
    requires j < |xs| - 1 && p(xs[j])
    ensures FirstOrDefault(xs, p) == FirstOrDefault(xs[..|xs| - 1], p)
  {
    var k, k0 := FirstIndex(xs, p), FirstIndex(xs[..|xs| - 1], p);
    assert k <= j && k0 <= j;
    assert k <= k0 && k0 <= k;
  }

  /** Position of the first occurrence of `x`. */
  function IndexOf<T(==)>(xs: seq<T>, x: T): (k: nat)
    requires x in xs
    ensures k < |xs| && xs[k] == x && x !in xs[..k]
  {
    if xs[0] == x then 0 else 1 + IndexOf(xs[1..], x)
  }

  /** Appending an element leaves first occurrences of earlier elements in place. */
  lemma {:induction false} IndexOfAppend<T>(xs: seq<T>, y: T, x: T)
    requires x in xs
    ensures IndexOf(xs + [y], x) == IndexOf(xs, x)
  {
    if xs[0] != x {
      assert (xs + [y])[1..] == xs[1..] + [y];
      IndexOfAppend(xs[1..], y, x);
    }
  }

  /** Enumerable.Distinct(xs): each value once, in the order of first occurrence.
      The three clauses together determine the result uniquely. */
  function Distinct<T(==)>(xs: seq<T>): (r: seq<T>)
    ensures forall i :: 0 <= i < |r| ==> r[i] in xs
    ensures forall i :: 0 <= i < |xs| ==> xs[i] in r
    ensures forall i, j :: 0 <= i < j < |r| ==> r[i] != r[j]
    ensures forall i, j :: 0 <= i < j < |r| ==> IndexOf(xs, r[i]) < IndexOf(xs, r[j])
  {
    if xs == [] then []
    else
      var init, x := xs[..|xs| - 1], xs[|xs| - 1];
      assert xs == init + [x];
      var d := Distinct(init);
      DistinctAppendKeepsOrder(init, x, d);
      if x in d then d else d + [x]
  }

  lemma DistinctAppendKeepsOrder<T>(init: seq<T>, x: T, d: seq<T>)
    requires forall i :: 0 <= i < |d| ==> d[i] in init
    requires forall i, j :: 0 <= i < j < |d| ==> IndexOf(init, d[i]) < IndexOf(init, d[j])
    ensures forall i :: 0 <= i < |d| ==> IndexOf(init + [x], d[i]) == IndexOf(init, d[i]) < |init|
    ensures x !in init ==> IndexOf(init + [x], x) == |init|
    ensures forall i, j :: 0 <= i < j < |d| ==> IndexOf(init + [x], d[i]) < IndexOf(init + [x], d[j])
  {
    forall i | 0 <= i < |d| ensures IndexOf(init + [x], d[i]) == IndexOf(init, d[i]) < |init| {
      IndexOfAppend(init, x, d[i]);
    }
    if x !in init {
      IndexOfAppendNew(init, x);
    }
  }

  /** An element appended to a sequence without it first occurs at the end. */
  lemma {:induction false} IndexOfAppendNew<T>(xs: seq<T>, x: T)
    requires x !in xs
    ensures IndexOf(xs + [x], x) == |xs|
  {
    if xs != [] {
      assert (xs + [x])[1..] == xs[1..] + [x];
      IndexOfAppendNew(xs[1..], x);
    }
  }

}
