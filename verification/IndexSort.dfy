/** Sorting indices by the values they point at, as both statistics do. */
module IndexSort {

  ghost predicate SortedPermutation(a: seq<real>, p: seq<nat>) {
    Permutation(p) && |p| == |a| && forall s, t :: 0 <= s < t < |p| ==> a[p[s]] <= a[p[t]]
  }

  ghost predicate Permutation(p: seq<nat>) {
    && (forall t :: 0 <= t < |p| ==> p[t] < |p|)
    && (forall s, t :: 0 <= s < t < |p| ==> p[s] != p[t])
  }

  function Image(p: seq<nat>, lo: nat, hi: nat): set<nat>
    requires lo <= hi <= |p|
    decreases hi
  {
    if lo == hi then {} else Image(p, lo, hi - 1) + {p[hi - 1]}
  }

  lemma {:induction false} InImage(p: seq<nat>, lo: nat, hi: nat, k: nat)
    requires lo <= hi <= |p|
    ensures k in Image(p, lo, hi) <==> exists t :: lo <= t < hi && p[t] == k
    decreases hi
  {
    if lo < hi { InImage(p, lo, hi - 1, k); }
  }

  lemma {:induction false} ImageSize(p: seq<nat>, lo: nat, hi: nat)
    requires Permutation(p) && lo <= hi <= |p|
    ensures |Image(p, lo, hi)| == hi - lo
    decreases hi
  {
    if lo < hi {
      ImageSize(p, lo, hi - 1);
      InImage(p, lo, hi - 1, p[hi - 1]);
    }
  }

  function Upto(m: nat): (S: set<nat>)
    ensures |S| == m && forall k: nat {:trigger k in S} :: k in S <==> k < m
  {
    if m == 0 then {} else Upto(m - 1) + {m - 1}
  }

  lemma SubsetOfSameSize<T>(A: set<T>, B: set<T>)
    requires A <= B && |A| == |B|
    ensures A == B
  {
    assert B == A + (B - A);
  }

  lemma Nested<T>(A: set<T>, B: set<T>)
    requires A <= B
    ensures |A| <= |B|
  {
    assert B == A + (B - A);
  }

  /** A permutation reaches every index. */
  lemma Reaches(p: seq<nat>, k: nat)
    requires Permutation(p) && k < |p|
    ensures exists t :: 0 <= t < |p| && p[t] == k
  {
    ImageSize(p, 0, |p|);
    forall j | j in Image(p, 0, |p|) ensures j in Upto(|p|) {
      InImage(p, 0, |p|, j);
    }
    SubsetOfSameSize(Image(p, 0, |p|), Upto(|p|));
    InImage(p, 0, |p|, k);
  }

  lemma ImageInRange(p: seq<nat>, lo: nat, hi: nat)
    requires Permutation(p) && lo <= hi <= |p|
    ensures forall k {:trigger k in Image(p, lo, hi)} :: k in Image(p, lo, hi) ==> k < |p|
  {
    forall k | k in Image(p, lo, hi) ensures k < |p| {
      InImage(p, lo, hi, k);
    }
  }

  lemma SwapPermutes(p: seq<nat>, i: nat, j: nat)
    requires Permutation(p) && i < |p| && j < |p|
    ensures Permutation(p[i := p[j]][j := p[i]])
  {
  }

  ghost predicate SortedUpto(a: seq<real>, p: seq<nat>, n: nat) {
    && n <= |p|
    && (forall t :: 0 <= t < n ==> p[t] < |a|)
    && (forall s, t :: 0 <= s < t < n ==> a[p[s]] <= a[p[t]])
  }

  /** Everything but the hole `h` is sorted up to `i`, and what is past the hole exceeds `x`. */
  ghost predicate SortedAround(a: seq<real>, p: seq<nat>, x: real, h: nat, i: nat) {
    && i < |p|
    && (forall t :: 0 <= t < |p| ==> p[t] < |a|)
    && (forall s, t :: 0 <= s < t <= i && s != h && t != h ==> a[p[s]] <= a[p[t]])
    && (forall t :: h < t <= i ==> x < a[p[t]])
  }

  lemma ShiftKeepsSorted(a: seq<real>, p: seq<nat>, x: real, h: nat, i: nat)
    requires 0 < h <= i && SortedAround(a, p, x, h, i) && a[p[h - 1]] > x
    ensures SortedAround(a, p[h := p[h - 1]], x, h - 1, i)
  {
  }

  /** One shift moves the hole at `h` down: filling it with `x` would still give a permutation. */
  lemma ShiftStep(a: seq<real>, p: seq<nat>, q: seq<nat>, x: nat, h: nat, i: nat)
    requires 0 < h <= i < |p| && x < |a| && SortedAround(a, p, a[x], h, i) && a[p[h - 1]] > a[x]
    requires Permutation(p[h := x]) && q == p[h := p[h - 1]]
    ensures Permutation(q[h - 1 := x]) && SortedAround(a, q, a[x], h - 1, i)
  {
    SwapPermutes(p[h := x], h, h - 1);
    ShiftKeepsSorted(a, p, a[x], h, i);
    assert q[h - 1 := x] == p[h := x][h := p[h - 1]][h - 1 := x];
  }

  lemma DropInKeepsSorted(a: seq<real>, p: seq<nat>, q: seq<nat>, x: nat, h: nat, i: nat)
    requires h <= i && x < |a| && SortedAround(a, p, a[x], h, i) && (h > 0 ==> a[p[h - 1]] <= a[x])
    requires q == p[h := x]
    ensures SortedUpto(a, q, i + 1)
  {
  }

  /** Insertion of idx[i] into the sorted prefix before it. */
  method Insert(a: array<real>, m: nat, idx: array<nat>, i: nat)
    requires m <= a.Length && 0 < i < m <= idx.Length
    requires Permutation(idx[..m])
    requires SortedUpto(a[..m], idx[..m], i)
    modifies idx
    ensures Permutation(idx[..m])
    ensures SortedUpto(a[..m], idx[..m], i + 1)
  {
    ghost var v, p: seq<nat> := a[..m], idx[..m];
    var x: nat := idx[i];
    var j: int := i - 1;
    assert p[i := x] == p;
    while j >= 0 && a[idx[j]] > a[x]
      invariant -1 <= j < i && x < m
      invariant p == idx[..m]
      invariant Permutation(p[j + 1 := x])
      invariant SortedAround(v, p, v[x], j + 1, i)
    {
      idx[j + 1] := idx[j];
      ghost var q := p[j + 1 := p[j]];
      assert idx[..m] == q;
      ShiftStep(v, p, q, x, j + 1, i);
      p := q;
      j := j - 1;
    }
    idx[j + 1] := x;
    assert idx[..m] == p[j + 1 := x];
    DropInKeepsSorted(v, p, p[j + 1 := x], x, j + 1, i);
  }

  /** Leaves in idx[..m] the indices of a[..m] in ascending order of their values. Callers may rely on
      nothing about the order of equal values. */
  method SortIndices(a: array<real>, m: nat, idx: array<nat>)
    requires m <= a.Length && m <= idx.Length
    modifies idx
    ensures SortedPermutation(a[..m], idx[..m])
  {
    for i := 0 to m
      invariant forall t :: 0 <= t < i ==> idx[t] == t
    {
      idx[i] := i;
    }
    var i := 1;
    while i < m
      invariant 1 <= i
      invariant Permutation(idx[..m])
      invariant i <= m || m == 0
      invariant m > 0 ==> SortedUpto(a[..m], idx[..m], i)
    {
      Insert(a, m, idx, i);
      i := i + 1;
    }
  }
}
