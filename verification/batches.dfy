/** Batching of the file indices (create_cube.py:232-235).

    `np.array_split(range(nFiles), number_of_parts)` cuts the indices into
    `number_of_parts` contiguous sections: with `q, r = divmod(n, k)` the first
    `r` sections hold `q + 1` items and the others `q`, and the section
    boundaries are the running sums of those sizes.  `k == 0` raises
    ValueError.  `Pool.map` returns the results in the order of its input,
    so it is modelled as a sequential map.
 */
module Batches {
  import opened Outcomes

  /** Size of section `b` of `n` items cut into `k` sections. */
  function SectionSize(n: nat, k: nat, b: nat): nat
    requires k > 0
  {
    n / k + (if b < n % k then 1 else 0)
  }

  /** Start of section `b`: the running sum of the sizes before it (numpy's `div_points`). */
  function Boundary(n: nat, k: nat, b: nat): nat
    requires k > 0
  {
    if b == 0 then 0 else Boundary(n, k, b - 1) + SectionSize(n, k, b - 1)
  }

  /** The running sum in closed form. */
  lemma {:induction false} BoundaryFormula(n: nat, k: nat, b: nat)
    requires k > 0
    ensures Boundary(n, k, b) == b * (n / k) + Min(b, n % k)
  {
    if b > 0 {
      BoundaryFormula(n, k, b - 1);
      assert b * (n / k) == (b - 1) * (n / k) + n / k;
    }
  }

  /** The sections end exactly at the end of the input. */
  lemma BoundaryEnd(n: nat, k: nat)
    requires k > 0
    ensures Boundary(n, k, k) == n
  {
    BoundaryFormula(n, k, k);
    assert n == k * (n / k) + n % k;
  }

  /** The boundaries never decrease. */
  lemma {:induction false} BoundaryMonotone(n: nat, k: nat, a: nat, b: nat)
    requires k > 0 && a <= b
    decreases b - a
    ensures Boundary(n, k, a) <= Boundary(n, k, b)
  {
    if a < b {
      BoundaryMonotone(n, k, a, b - 1);
    }
  }

  /** No boundary of a section lies past the end of the input. */
  lemma BoundaryWithin(n: nat, k: nat, b: nat)
    requires 0 < k && b <= k
    ensures Boundary(n, k, b) <= n
  {
    BoundaryMonotone(n, k, b, k);
    BoundaryEnd(n, k);
  }

  /** Section `b` of `xs`: the items from its boundary to the next one. */
  function Section<T>(xs: seq<T>, k: nat, b: nat): (s: seq<T>)
    requires b < k
    ensures Boundary(|xs|, k, b + 1) <= |xs|
    ensures |s| == SectionSize(|xs|, k, b)
    ensures forall t :: 0 <= t < |s| ==> s[t] == xs[Boundary(|xs|, k, b) + t]
  {
    BoundaryWithin(|xs|, k, b + 1);
    xs[Boundary(|xs|, k, b) .. Boundary(|xs|, k, b + 1)]
  }

  /** `np.array_split(xs, k)`. */
  function ArraySplit<T>(xs: seq<T>, k: nat): (r: Result<seq<seq<T>>>)
    ensures r.Err? <==> k == 0
    ensures r.Err? ==> r.fault == ValueError
    ensures r.Ok? ==> |r.value| == k
  {
    if k == 0 then Err(ValueError)  // "number sections must be larger than 0."
    else Ok(seq(k, b requires 0 <= b < k => Section(xs, k, b)))
  }

  /** The sections one after the other. */
  function Concat<T>(ss: seq<seq<T>>): seq<T>
  {
    if ss == [] then [] else ss[0] + Concat(ss[1..])
  }

  lemma {:induction false} ConcatSections<T>(xs: seq<T>, k: nat, b: nat)
    requires 0 < k && b <= k
    decreases k - b
    ensures Boundary(|xs|, k, b) <= |xs|
    ensures Concat(ArraySplit(xs, k).value[b..]) == xs[Boundary(|xs|, k, b) ..]
  {
    BoundaryWithin(|xs|, k, b);
    var r := ArraySplit(xs, k).value;
    if b == k {
      BoundaryEnd(|xs|, k);
    } else {
      ConcatSections(xs, k, b + 1);
      assert r[b..][1..] == r[b + 1..];
      var lo := Boundary(|xs|, k, b);
      var mid := Boundary(|xs|, k, b + 1);
      assert r[b] == xs[lo .. mid];
      assert xs[lo ..] == xs[lo .. mid] + xs[mid ..];
    }
  }

  /** Nothing is lost, duplicated or reordered: the sections concatenate to the input. */
  lemma ArraySplitConcat<T>(xs: seq<T>, k: nat)
    requires k > 0
    ensures ArraySplit(xs, k).Ok?
    ensures Concat(ArraySplit(xs, k).value) == xs
  {
    ConcatSections(xs, k, 0);
    assert ArraySplit(xs, k).value[0..] == ArraySplit(xs, k).value;
  }

  /** The sections differ in size by at most one, the larger ones first. */
  lemma ArraySplitSizes<T>(xs: seq<T>, k: nat)
    requires k > 0
    ensures ArraySplit(xs, k).Ok?
    ensures forall b :: 0 <= b < k ==>
      |ArraySplit(xs, k).value[b]| == (if b < |xs| % k then |xs| / k + 1 else |xs| / k)
  {
  }

  /** `range(n)`. */
  function Range(n: nat): (r: seq<nat>)
    ensures |r| == n && forall t :: 0 <= t < n ==> r[t] == t
  {
    seq(n, t => t)
  }

  /** Splitting `range(n)`: section `b` is the run of consecutive indices
      starting at its boundary, so within a non-empty section `s` the index
      `i` sits at position `i - s[0]`. */
  lemma SplitRange(n: nat, k: nat)
    requires k > 0
    ensures ArraySplit(Range(n), k).Ok?
    ensures forall b, t :: 0 <= b < k && 0 <= t < |ArraySplit(Range(n), k).value[b]| ==>
      ArraySplit(Range(n), k).value[b][t] == Boundary(n, k, b) + t
  {
  }

  /** `res[i - liste[0]]` (create_cube.py:237) is in bounds for every `i` of the
      batch and picks the result computed for `i`. */
  lemma BatchLookup<R>(n: nat, k: nat, b: nat, res: seq<R>, i: nat)
    requires k > 0 && b < k
    requires ArraySplit(Range(n), k).Ok?
    requires |res| == |ArraySplit(Range(n), k).value[b]|
    requires i in ArraySplit(Range(n), k).value[b]
    ensures var s := ArraySplit(Range(n), k).value[b];
      && |s| > 0 && s[0] <= i
      && i - s[0] < |res|
      && s[i - s[0]] == i
  {
    SplitRange(n, k);
    var s := ArraySplit(Range(n), k).value[b];
    var t :| 0 <= t < |s| && s[t] == i;
    assert s[0] == Boundary(n, k, b);
  }

  /** `Pool.map(f, xs)`: results in input order; a task that raises makes the
      whole call raise. */
  function MapInOrder<A, B>(f: A -> Result<B>, xs: seq<A>): (r: Result<seq<B>>)
    ensures r.Ok? <==> forall t :: 0 <= t < |xs| ==> f(xs[t]).Ok?
    ensures r.Ok? ==> |r.value| == |xs| && forall t :: 0 <= t < |xs| ==> r.value[t] == f(xs[t]).value
    ensures r.Err? ==> exists t :: 0 <= t < |xs| && f(xs[t]) == Err(r.fault)
  {
    if xs == [] then Ok([])
    else
      match f(xs[0])
      case Err(e) => Err(e)
      case Ok(y) =>
        match MapInOrder(f, xs[1..])
        case Err(e) =>
          assert exists t :: 0 <= t < |xs| - 1 && f(xs[1..][t]) == Err(e);
          var t :| 0 <= t < |xs| - 1 && f(xs[1..][t]) == Err(e);
          assert f(xs[t + 1]) == Err(e);
          Err(e)
        case Ok(ys) => Ok([y] + ys)
  }
}
