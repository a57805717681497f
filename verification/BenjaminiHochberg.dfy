/** est_benjamini_hochberg against the definition of the procedure: with R the largest r such that
    at least r of the n p-values are at most r*q/n, index i survives when p[i] <= R*q/n. */
module BenjaminiHochberg {
  import opened IndexSort

  // ---------------------------------------------------------------- specification

  function UpTo(p: seq<real>, x: real): set<nat> {
    set i: nat | i < |p| && p[i] <= x
  }

  function Cut(q: real, n: nat, r: nat): real
    requires n > 0
  {
    r as real * q / n as real
  }

  predicate Enough(p: seq<real>, q: real, r: nat)
    requires p != []
  {
    |UpTo(p, Cut(q, |p|, r))| >= r
  }

  /** The largest r <= bound that has enough p-values below its cut, or 0. */
  function Largest(p: seq<real>, q: real, bound: nat): (r: nat)
    requires p != []
    ensures r <= bound
    ensures r > 0 ==> Enough(p, q, r)
    ensures forall s {:trigger Enough(p, q, s)} :: r < s <= bound ==> !Enough(p, q, s)
  {
    if bound == 0 then 0 else if Enough(p, q, bound) then bound else Largest(p, q, bound - 1)
  }

  /** How many survive. */
  function Survivors(p: seq<real>, q: real): (r: nat)
    ensures r <= |p|
  {
    if p == [] then 0 else Largest(p, q, |p|)
  }

  predicate Survives(p: seq<real>, q: real, i: nat)
    requires i < |p|
  {
    Survivors(p, q) >= 1 && p[i] <= Cut(q, |p|, Survivors(p, q))
  }

  // ---------------------------------------------------------------- the sorted view

  predicate Qualifies(p: seq<real>, q: real, s: seq<nat>, k: nat)
    requires p != [] && k < |s| && s[k] < |p|
  {
    p[s[k]] <= Cut(q, |p|, k + 1)
  }

  /** The k-th sorted p-value is at most x exactly when at least k + 1 of the p-values are. */
  lemma SortedCount(p: seq<real>, s: seq<nat>, k: nat, x: real)
    requires SortedPermutation(p, s) && k < |s|
    ensures p[s[k]] <= x <==> |UpTo(p, x)| >= k + 1
  {
    if p[s[k]] <= x {
      FirstAreBelow(p, s, k, x);
    } else {
      RestAreAbove(p, s, k, x);
    }
  }

  lemma FirstAreBelow(p: seq<real>, s: seq<nat>, k: nat, x: real)
    requires SortedPermutation(p, s) && k < |s| && p[s[k]] <= x
    ensures Image(s, 0, k + 1) <= UpTo(p, x) && |UpTo(p, x)| >= k + 1
  {
    forall i | i in Image(s, 0, k + 1) ensures i in UpTo(p, x) {
      InImage(s, 0, k + 1, i);
    }
    ImageSize(s, 0, k + 1);
    Nested(Image(s, 0, k + 1), UpTo(p, x));
  }

  lemma RestAreAbove(p: seq<real>, s: seq<nat>, k: nat, x: real)
    requires SortedPermutation(p, s) && k < |s| && p[s[k]] > x
    ensures UpTo(p, x) <= Image(s, 0, k) && |UpTo(p, x)| <= k
  {
    forall i | i in UpTo(p, x) ensures i in Image(s, 0, k) {
      Reaches(s, i);
      InImage(s, 0, k, i);
    }
    ImageSize(s, 0, k);
    Nested(UpTo(p, x), Image(s, 0, k));
  }

  /** The last qualifying sorted position is the number of survivors, whatever order the sort gave
      to equal p-values. */
  lemma LastQualifying(p: seq<real>, q: real, s: seq<nat>, kmax: int)
    requires SortedPermutation(p, s) && p != [] && -1 <= kmax < |s|
    requires kmax >= 0 ==> Qualifies(p, q, s, kmax)
    requires forall k {:trigger Qualifies(p, q, s, k)} :: kmax < k < |s| ==> !Qualifies(p, q, s, k)
    ensures kmax + 1 == Survivors(p, q)
  {
    var r := Survivors(p, q);
    if r > 0 { SortedCount(p, s, r - 1, Cut(q, |p|, r)); assert Qualifies(p, q, s, r - 1); }
    if kmax >= 0 { SortedCount(p, s, kmax, Cut(q, |p|, kmax + 1)); assert Enough(p, q, kmax + 1); }
  }

  lemma CutGrows(q: real, n: nat, r: nat)
    requires n > 0 && q >= 0.0
    ensures Cut(q, n, r) <= Cut(q, n, r + 1)
  {
    assert (r + 1) as real * q == r as real * q + q;
  }

  lemma NegativeCutAdmitsNone(p: seq<real>, q: real, r: nat)
    requires p != [] && q < 0.0 && r > 0 && forall i :: 0 <= i < |p| ==> p[i] >= 0.0
    ensures !Enough(p, q, r)
  {
    assert r as real * q < 0.0;
    assert UpTo(p, Cut(q, |p|, r)) == {};
  }

  /** For a rate that is not negative, and for p-values that are not negative, no more than R
      p-values lie below the cut of R, so the first R sorted ones are all of them. */
  lemma CutIsTight(p: seq<real>, q: real)
    requires p != [] && (q >= 0.0 || forall i :: 0 <= i < |p| ==> p[i] >= 0.0)
    ensures Survivors(p, q) >= 1 ==> |UpTo(p, Cut(q, |p|, Survivors(p, q)))| == Survivors(p, q)
  {
    var r := Survivors(p, q);
    if q < 0.0 {
      assert r == 0 by { if r > 0 { NegativeCutAdmitsNone(p, q, r); } }
    } else if 1 <= r < |p| {
      CutGrows(q, |p|, r);
      assert UpTo(p, Cut(q, |p|, r)) <= UpTo(p, Cut(q, |p|, r + 1));
      Nested(UpTo(p, Cut(q, |p|, r)), UpTo(p, Cut(q, |p|, r + 1)));
      assert !Enough(p, q, r + 1);
    } else if r == |p| {
      assert UpTo(p, Cut(q, |p|, r)) <= Upto(|p|);
      Nested(UpTo(p, Cut(q, |p|, r)), Upto(|p|));
    }
  }

  ghost predicate MarksSurvivors(p: seq<real>, q: real, marked: set<nat>) {
    forall i: nat {:trigger i in marked} :: i < |p| ==> (i in marked <==> Survives(p, q, i))
  }

  lemma MarksAreTheCut(p: seq<real>, q: real, marked: set<nat>)
    requires p != [] && Survivors(p, q) >= 1
    requires marked <= UpTo(p, Cut(q, |p|, Survivors(p, q)))
    ensures MarksSurvivors(p, q, marked) <==> marked == UpTo(p, Cut(q, |p|, Survivors(p, q)))
  {
    var U := UpTo(p, Cut(q, |p|, Survivors(p, q)));
    forall i: nat | i < |p| ensures i in U <==> Survives(p, q, i) {
    }
    if MarksSurvivors(p, q, marked) {
      forall i | i in U ensures i in marked {
        assert Survives(p, q, i);
        assert i in marked <==> Survives(p, q, i);
      }
    }
  }

  /** The first R sorted indices are the survivors exactly when R is 0 or the cut is tight. */
  lemma MarksAreSurvivors(p: seq<real>, q: real, s: seq<nat>)
    requires SortedPermutation(p, s) && p != []
    ensures var R := Survivors(p, q);
      MarksSurvivors(p, q, Image(s, 0, R)) <==> R == 0 || |UpTo(p, Cut(q, |p|, R))| == R
  {
    var R := Survivors(p, q);
    if R >= 1 {
      var x := Cut(q, |p|, R);
      SortedCount(p, s, R - 1, x);
      FirstAreBelow(p, s, R - 1, x);
      ImageSize(s, 0, R);
      MarksAreTheCut(p, q, Image(s, 0, R));
      if |UpTo(p, x)| == R { SubsetOfSameSize(Image(s, 0, R), UpTo(p, x)); }
    }
  }

  /** With a negative rate the code can part from the definition: here one p-value survives by the
      definition's count, both lie below its cut, and which one is marked depends on the sort. */
  lemma NegativeRateDependsOnTheSort()
    ensures var p, q := [-1.5, -1.5], -2.0;
      && SortedPermutation(p, [0, 1]) && SortedPermutation(p, [1, 0])
      && Survivors(p, q) == 1
      && Survives(p, q, 0) && Survives(p, q, 1)
      && Image([0, 1], 0, 1) == {0} && Image([1, 0], 0, 1) == {1}
  {
    var p, q := [-1.5, -1.5], -2.0;
    assert UpTo(p, Cut(q, 2, 2)) == {};
    assert UpTo(p, Cut(q, 2, 1)) == {0, 1};
    assert !Enough(p, q, 2) && Enough(p, q, 1);
    assert Image([0, 1], 0, 0) == {} && Image([1, 0], 0, 0) == {};
  }

  // ---------------------------------------------------------------- the program

  /** The last sorted position whose p-value is below its own cut, or -1. */
  method LastBelowCut(p: array<real>, n: nat, q: real, ord: array<nat>) returns (kmax: int)
    requires 0 < n <= p.Length && n <= ord.Length
    requires SortedPermutation(p[..n], ord[..n])
    ensures -1 <= kmax < n && kmax + 1 == Survivors(p[..n], q)
  {
    ghost var v, s := p[..n], ord[..n];
    kmax := -1;
    for k := 0 to n
      invariant -1 <= kmax < k
      invariant kmax >= 0 ==> Qualifies(v, q, s, kmax)
      invariant forall j {:trigger Qualifies(v, q, s, j)} :: kmax < j < k ==> !Qualifies(v, q, s, j)
    {
      assert s[k] == ord[k];
      assert Qualifies(v, q, s, k) <==> p[ord[k]] <= (k + 1) as real * q / n as real;
      if p[ord[k]] <= (k + 1) as real * q / n as real { kmax := k; }
    }
    LastQualifying(v, q, s, kmax);
  }

  method MarkFirst(ord: array<nat>, n: nat, count: nat, sig: array<int>)
    requires n <= ord.Length && n <= sig.Length && count <= n && Permutation(ord[..n])
    requires forall i :: 0 <= i < n ==> sig[i] == 0
    modifies sig
    ensures forall i :: 0 <= i < n ==> sig[i] == if i in Image(ord[..n], 0, count) then 1 else 0
    ensures forall i :: n <= i < sig.Length ==> sig[i] == old(sig[i])
  {
    ghost var s := ord[..n];
    for k := 0 to count
      invariant forall i :: 0 <= i < n ==> sig[i] == if i in Image(s, 0, k) then 1 else 0
      invariant forall i :: n <= i < sig.Length ==> sig[i] == old(sig[i])
    {
      assert s[k] == ord[k];
      sig[ord[k]] := 1;
    }
  }

  /** Marks in sig the indices that survive at the rate q; `noMemory` is the failure of malloc.
      Exactly R indices are marked, all of them survivors, and every survivor is marked when the
      rate or the p-values are not negative. */
  method Mark(p: array<real>, n: int, q: real, sig: array<int>, noMemory: bool)
    requires n <= p.Length && n <= sig.Length
    modifies sig
    ensures forall i :: 0 <= i < sig.Length && n <= i ==> sig[i] == old(sig[i])
    ensures noMemory ==> forall i :: 0 <= i < n ==> sig[i] == 0
    ensures !noMemory && n > 0 ==>
      exists s {:trigger SortedPermutation(p[..n], s)} :: SortedPermutation(p[..n], s) &&
        forall i :: 0 <= i < n ==> sig[i] == if i in Image(s, 0, Survivors(p[..n], q)) then 1 else 0
    ensures !noMemory && (q >= 0.0 || forall i :: 0 <= i < n ==> p[i] >= 0.0) ==>
      forall i :: 0 <= i < n ==> sig[i] == if Survives(p[..n], q, i) then 1 else 0
  {
    if n <= 0 { return; }
    for k := 0 to n
      invariant forall i :: 0 <= i < k ==> sig[i] == 0
      invariant forall i :: n <= i < sig.Length ==> sig[i] == old(sig[i])
    {
      sig[k] := 0;
    }
    if noMemory { return; }
    var ord := new nat[n];
    SortIndices(p, n, ord);
    var kmax := LastBelowCut(p, n, q, ord);
    MarkFirst(ord, n, kmax + 1, sig);
    ghost var v := p[..n];
    if q >= 0.0 || forall i :: 0 <= i < n ==> p[i] >= 0.0 {
      CutIsTight(v, q);
      MarksAreSurvivors(v, q, ord[..n]);
    }
  }

  /** Two sorts of the same p-values mark the same indices. */
  lemma MarksDoNotDependOnTheSort(p: seq<real>, q: real, s: seq<nat>, t: seq<nat>)
    requires SortedPermutation(p, s) && SortedPermutation(p, t) && p != []
    requires q >= 0.0 || forall i :: 0 <= i < |p| ==> p[i] >= 0.0
    ensures Image(s, 0, Survivors(p, q)) == Image(t, 0, Survivors(p, q))
  {
    var R := Survivors(p, q);
    CutIsTight(p, q);
    MarksAreSurvivors(p, q, s);
    MarksAreSurvivors(p, q, t);
    ImageInRange(s, 0, R);
    ImageInRange(t, 0, R);
  }
}
