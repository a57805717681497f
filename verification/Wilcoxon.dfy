/** est_wilcoxon_p over exact arithmetic: the sample is filtered, sorted by magnitude, ranked with
    ties, and the exact two-sided p comes from a table filled in place. The specification is
    PValue, which counts sign assignments and mentions neither the sort nor the table. */
module Wilcoxon {
  import opened IndexSort
  import opened SignedRanks

  const MAX_SAMPLES: int := 64
  const EPSILON: real := 0.000000000001

  function Abs(x: real): real {
    if x < 0.0 then -x else x
  }

  // ---------------------------------------------------------------- specification

  /** The samples the program looks at: the first `n`, but never more than 64. */
  function Sample(d: seq<real>, n: int): seq<real>
    requires n <= |d| || MAX_SAMPLES <= |d|
  {
    if n <= 0 then [] else d[..if n > MAX_SAMPLES then MAX_SAMPLES else n]
  }

  /** Null differences are dropped. */
  function Kept(d: seq<real>): (x: seq<real>)
    ensures |x| <= |d|
  {
    if d == [] then [] else
    var x := Kept(d[..|d| - 1]);
    if Abs(d[|d| - 1]) < EPSILON then x else x + [d[|d| - 1]]
  }

  function Magnitudes(x: seq<real>): (a: seq<real>)
    ensures |a| == |x|
  {
    seq(|x|, i requires 0 <= i < |x| => Abs(x[i]))
  }

  function Signs(x: seq<real>): (p: Sign)
    ensures |p| == |x|
  {
    seq(|x|, i requires 0 <= i < |x| => x[i] > 0.0)
  }

  function Min(x: nat, y: nat): nat {
    if x < y then x else y
  }

  /** Twice the smaller tail of the distribution at the sum `w`, over all the cases, capped at 1. */
  function TwoSided(r: seq<nat>, w: nat): real {
    var p := 2.0 * Min(|AtMost(r, w)|, |AtLeast(r, w)|) as real / Pow2(|r|) as real;
    if p > 1.0 then 1.0 else p
  }

  /** The exact p of the differences `x`. */
  function PValue(x: seq<real>): real {
    if x == [] then 1.0 else
    var r := Ranks(Magnitudes(x));
    TwoSided(r, PlusSum(r, Signs(x)))
  }

  // ---------------------------------------------------------------- what the p means

  function Negated(d: seq<real>): (e: seq<real>)
    ensures |e| == |d|
  {
    seq(|d|, i requires 0 <= i < |d| => -d[i])
  }

  lemma {:induction false} KeptNegated(d: seq<real>)
    ensures Kept(Negated(d)) == Negated(Kept(d))
  {
    if d != [] {
      KeptNegated(d[..|d| - 1]);
      assert Negated(d)[..|d| - 1] == Negated(d[..|d| - 1]);
      assert Negated(Kept(d[..|d| - 1]) + [d[|d| - 1]]) == Negated(Kept(d[..|d| - 1])) + [-d[|d| - 1]];
    }
  }

  lemma {:induction false} KeptIsAway(d: seq<real>)
    ensures forall i {:trigger Kept(d)[i]} :: 0 <= i < |Kept(d)| ==> Abs(Kept(d)[i]) >= EPSILON
  {
    if d != [] { KeptIsAway(d[..|d| - 1]); }
  }

  lemma TwoSidedMirrors(r: seq<nat>, w: nat)
    requires w <= Sum(r)
    ensures TwoSided(r, Sum(r) - w) == TwoSided(r, w)
  {
    hide AtMost, AtLeast, Sum;
    TailsMirror(r, w);
    TailsMirror(r, Sum(r) - w);
  }

  lemma NegatedSigns(x: seq<real>)
    requires forall i {:trigger x[i]} :: 0 <= i < |x| ==> Abs(x[i]) >= EPSILON
    ensures Magnitudes(Negated(x)) == Magnitudes(x) && Signs(Negated(x)) == Flip(Signs(x))
  {
  }

  /** Swapping "before" and "after" in every pair leaves the p unchanged. */
  lemma NegationKeepsP(d: seq<real>)
    ensures PValue(Kept(Negated(d))) == PValue(Kept(d))
  {
    hide TwoSided, PlusSum, Ranks, Magnitudes, Signs, Kept, Flip, Sum;
    var x := Kept(d);
    KeptNegated(d);
    KeptIsAway(d);
    if x != [] {
      var r := Ranks(Magnitudes(x));
      NegatedSigns(x);
      PlusSumFlip(r, Signs(x));
      TwoSidedMirrors(r, PlusSum(r, Signs(x)));
    }
  }

  lemma ObservedIsInBothTails(r: seq<nat>, x: Sign)
    requires |r| == |x|
    ensures |AtMost(r, PlusSum(r, x))| > 0 && |AtLeast(r, PlusSum(r, x))| > 0 && |Exactly(r, PlusSum(r, x))| > 0
  {
    AssignmentsAre(|r|, x);
    assert x in AtMost(r, PlusSum(r, x)) && x in AtLeast(r, PlusSum(r, x)) && x in Exactly(r, PlusSum(r, x));
  }

  lemma PIsAProbability(x: seq<real>)
    ensures 0.0 < PValue(x) <= 1.0
  {
    if x != [] { ObservedIsInBothTails(Ranks(Magnitudes(x)), Signs(x)); }
  }

  lemma TailsNest(r: seq<nat>, s: int, t: int)
    requires s <= t
    ensures |AtMost(r, s)| <= |AtMost(r, t)|
    ensures s < t ==> |AtMost(r, s)| + |AtLeast(r, t)| <= Pow2(|r|)
  {
    Nested(AtMost(r, s), AtMost(r, t));
    BothTails(r, t);
    if s < t {
      AtMostGrows(r, t);
      WaysCountAssignments(r, t);
      Nested(AtMost(r, s), AtMost(r, t - 1));
    }
  }

  lemma CapAtTheMiddle(r: seq<nat>, w: nat)
    requires 2 * w == Sum(r) && |Exactly(r, w)| > 0
    ensures |AtMost(r, w)| == |AtLeast(r, w)| && 2 * |AtMost(r, w)| > Pow2(|r|)
  {
    hide *;
    TailsMirror(r, w);
    BothTails(r, w);
  }

  lemma NoCapBelow(r: seq<nat>, w: nat)
    requires 2 * w < Sum(r)
    ensures 2 * |AtMost(r, w)| <= Pow2(|r|)
  {
    hide *;
    TailsMirror(r, Sum(r) - w);
    TailsNest(r, w, Sum(r) - w);
  }

  lemma NoCapAbove(r: seq<nat>, w: nat)
    requires 2 * w > Sum(r)
    ensures 2 * |AtLeast(r, w)| <= Pow2(|r|)
  {
    hide *;
    TailsMirror(r, w);
    TailsNest(r, Sum(r) - w, w);
  }

  /** Twice the smaller tail exceeds all the cases exactly when the observed sum is the middle of
      the distribution: that is when the program has to cap p at 1. */
  lemma CapOnlyAtTheMiddle(r: seq<nat>, x: Sign)
    requires |r| == |x|
    ensures var w := PlusSum(r, x);
      2 * Min(|AtMost(r, w)|, |AtLeast(r, w)|) > Pow2(|r|) <==> 2 * w == Sum(r)
  {
    var w := PlusSum(r, x);
    if 2 * w < Sum(r) {
      NoCapBelow(r, w);
    } else if 2 * w > Sum(r) {
      NoCapAbove(r, w);
    } else {
      ObservedIsInBothTails(r, x);
      CapAtTheMiddle(r, w);
    }
  }

  // ---------------------------------------------------------------- groups of ties

  lemma GroupMember(a: seq<real>, p: seq<nat>, i: nat, j: nat, k: nat)
    requires SortedPermutation(a, p) && i <= j < |p| && k < |p|
    requires a[p[i]] == a[p[j]]
    requires i > 0 ==> a[p[i - 1]] < a[p[i]]
    requires j + 1 < |p| ==> a[p[j]] < a[p[j + 1]]
    ensures a[k] < a[p[i]] <==> k in Image(p, 0, i)
    ensures a[k] == a[p[i]] <==> k in Image(p, i, j + 1)
  {
    Reaches(p, k);
    var t :| 0 <= t < |p| && p[t] == k;
    InImage(p, 0, i, k);
    InImage(p, i, j + 1, k);
    assert t < i ==> a[p[t]] <= a[p[i - 1]];
    assert j < t ==> a[p[j + 1]] <= a[p[t]];
  }

  /** Sorted positions i to j hold one group of ties. */
  ghost predicate Group(a: seq<real>, p: seq<nat>, i: nat, j: nat) {
    && SortedPermutation(a, p) && i <= j < |p|
    && a[p[i]] == a[p[j]]
    && (i > 0 ==> a[p[i - 1]] < a[p[i]])
    && (j + 1 < |p| ==> a[p[j]] < a[p[j + 1]])
  }

  lemma BelowGroup(a: seq<real>, p: seq<nat>, i: nat, j: nat)
    requires Group(a, p, i, j)
    ensures |Below(a, a[p[i]])| == i
  {
    forall k: nat | k < |a| ensures a[k] < a[p[i]] <==> k in Image(p, 0, i) {
      GroupMember(a, p, i, j, k);
    }
    ImageInRange(p, 0, i);
    assert Below(a, a[p[i]]) == Image(p, 0, i);
    ImageSize(p, 0, i);
  }

  lemma TiesOfGroup(a: seq<real>, p: seq<nat>, i: nat, j: nat)
    requires Group(a, p, i, j)
    ensures |Ties(a, a[p[i]])| == j + 1 - i
  {
    forall k: nat | k < |a| ensures a[k] == a[p[i]] <==> k in Image(p, i, j + 1) {
      GroupMember(a, p, i, j, k);
    }
    ImageInRange(p, i, j + 1);
    assert Ties(a, a[p[i]]) == Image(p, i, j + 1);
    ImageSize(p, i, j + 1);
  }

  /** The group of ties at sorted positions i to j takes the doubled rank i + j + 2. */
  lemma GroupRank(a: seq<real>, p: seq<nat>, i: nat, j: nat)
    requires Group(a, p, i, j)
    ensures Rank2(a, a[p[i]]) == i + j + 2
  {
    BelowGroup(a, p, i, j);
    TiesOfGroup(a, p, i, j);
  }

  // ---------------------------------------------------------------- the program

  /** Drops the null differences, and keeps the magnitude and the sign of the others. */
  method Filter(d: array<real>, n: nat, a: array<real>, pos: array<bool>) returns (m: nat)
    requires n <= d.Length && n <= a.Length && n <= pos.Length
    requires d != a
    modifies a, pos
    ensures m == |Kept(d[..n])| <= n
    ensures a[..m] == Magnitudes(Kept(d[..n])) && pos[..m] == Signs(Kept(d[..n]))
  {
    m := 0;
    assert d[..0] == [];
    for i := 0 to n
      invariant m == |Kept(d[..i])| <= i
      invariant a[..m] == Magnitudes(Kept(d[..i])) && pos[..m] == Signs(Kept(d[..i]))
    {
      assert d[..i + 1] == d[..i] + [d[i]];
      assert d[..i + 1][..i] == d[..i];
      if Abs(d[i]) < EPSILON { continue; }
      a[m] := Abs(d[i]);
      pos[m] := d[i] > 0.0;
      m := m + 1;
      assert a[..m] == a[..m - 1] + [Abs(d[i])];
      assert pos[..m] == pos[..m - 1] + [d[i] > 0.0];
    }
  }

  /** Writes the doubled rank of one group of ties. */
  method FillGroup(p: array<nat>, m: nat, r2: array<nat>, i: nat, j: nat)
    requires m <= p.Length && m <= r2.Length && i <= j < m && p != r2
    requires Permutation(p[..m])
    modifies r2
    ensures forall t :: i <= t <= j ==> p[..m][t] < m && r2[p[..m][t]] == i + j + 2
    ensures forall t :: 0 <= t < m && !(i <= t <= j) ==> p[..m][t] < m && r2[p[..m][t]] == old(r2[p[..m][t]])
  {
    ghost var q := p[..m];
    for t := i to j + 1
      invariant forall s :: i <= s < t ==> r2[q[s]] == i + j + 2
      invariant forall s :: 0 <= s < m && !(i <= s < t) ==> r2[q[s]] == old(r2[q[s]])
    {
      assert q[t] == p[t];
      r2[p[t]] := i + j + 2;
    }
  }

  /** Gives each value the mean of the ranks its group of ties takes, doubled. */
  method RankTies(a: array<real>, m: nat, idx: array<nat>, r2: array<nat>)
    requires m <= a.Length && m <= idx.Length && m <= r2.Length
    requires idx != r2 && SortedPermutation(a[..m], idx[..m])
    modifies r2
    ensures r2[..m] == Ranks(a[..m])
  {
    ghost var v, p := a[..m], idx[..m];
    var i := 0;
    while i < m
      invariant 0 <= i <= m
      invariant 0 < i < m ==> v[p[i - 1]] < v[p[i]]
      invariant forall t :: 0 <= t < i ==> r2[p[t]] == Rank2(v, v[p[t]])
    {
      assert p[i] == idx[i];
      var j := i;
      while j + 1 < m && a[idx[j + 1]] == a[idx[i]]
        invariant i <= j < m
        invariant v[p[j]] == v[p[i]]
      {
        assert p[j + 1] == idx[j + 1];
        j := j + 1;
      }
      assert j + 1 < m ==> p[j + 1] == idx[j + 1];
      GroupRank(v, p, i, j);
      FillGroup(idx, m, r2, i, j);
      assert forall t :: i <= t <= j ==> v[p[t]] == v[p[i]];
      i := j + 1;
    }
    forall k: nat | k < m ensures r2[k] == Rank2(v, v[k]) {
      Reaches(p, k);
    }
  }

  /** The total of the ranks and the observed sum of the positive ones. */
  method Totals(r2: array<nat>, pos: array<bool>, m: nat) returns (total: nat, plus: nat)
    requires m <= r2.Length && m <= pos.Length
    ensures total == Sum(r2[..m]) && plus == PlusSum(r2[..m], pos[..m])
  {
    total, plus := 0, 0;
    for i := 0 to m
      invariant total == Sum(r2[..i]) && plus == PlusSum(r2[..i], pos[..i])
    {
      assert r2[..i + 1][..i] == r2[..i] && pos[..i + 1][..i] == pos[..i];
      total := total + r2[i];
      if pos[i] { plus := plus + r2[i]; }
    }
  }

  /** The table after every rank has been let in with either sign, computed in place. */
  method Distribution(r2: array<nat>, m: nat, total: nat, cnt: array<nat>)
    requires m <= r2.Length && total < cnt.Length && r2 != cnt
    modifies cnt
    ensures forall s :: 0 <= s <= total ==> cnt[s] == |Exactly(r2[..m], s)|
  {
    for s := 0 to total + 1
      invariant forall u :: 0 <= u < s ==> cnt[u] == 0
    {
      cnt[s] := 0;
    }
    cnt[0] := 1;
    assert r2[..0] == [];
    for i := 0 to m
      invariant forall s :: 0 <= s <= total ==> cnt[s] == Ways(r2[..i], s)
    {
      ghost var q := r2[..i];
      assert r2[..i + 1] == q + [r2[i]];
      assert r2[..i + 1][..i] == q;
      var s := total;
      while s >= r2[i]
        invariant -1 <= s <= total
        invariant forall u :: s < u <= total ==> cnt[u] == Ways(r2[..i + 1], u)
        invariant forall u :: 0 <= u <= s ==> cnt[u] == Ways(q, u)
      {
        cnt[s] := cnt[s] + cnt[s - r2[i]];
        s := s - 1;
      }
      forall u | 0 <= u <= s ensures Ways(r2[..i + 1], u) == Ways(q, u) {
        NegativeHasNoWays(q, u - r2[i]);
      }
    }
    forall s | 0 <= s <= total ensures Ways(r2[..m], s) == |Exactly(r2[..m], s)| {
      WaysCountAssignments(r2[..m], s);
    }
  }

  lemma NothingOutside(r: seq<nat>)
    ensures |AtMost(r, -1)| == 0 && |AtLeast(r, Sum(r) + 1)| == 0
  {
    assert AtMost(r, -1) == {};
    TailsMirror(r, Sum(r) + 1);
  }

  /** Both tails of the table at the observed sum. */
  method Tails(cnt: array<nat>, r2: array<nat>, m: nat, total: nat, plus: nat) returns (le: nat, ge: nat)
    requires m <= r2.Length && total < cnt.Length && total == Sum(r2[..m]) && plus <= total
    requires forall s :: 0 <= s <= total ==> cnt[s] == |Exactly(r2[..m], s)|
    ensures le == |AtMost(r2[..m], plus)| && ge == |AtLeast(r2[..m], plus)|
  {
    ghost var r := r2[..m];
    le, ge := 0, 0;
    NothingOutside(r);
    for s := 0 to total + 1
      invariant le == |AtMost(r, if s <= plus then s - 1 else plus)|
      invariant s <= plus ==> ge == 0
      invariant s > plus ==> ge + |AtLeast(r, s)| == |AtLeast(r, plus)|
    {
      WaysCountAssignments(r, s);
      AtMostGrows(r, s);
      AtLeastShrinks(r, s);
      if s <= plus { le := le + cnt[s]; }
      if s >= plus { ge := ge + cnt[s]; }
    }
  }

  method PowerOfTwo(m: nat) returns (p: nat)
    ensures p == Pow2(m)
  {
    p := 1;
    for i := 0 to m
      invariant p == Pow2(i)
    {
      p := 2 * p;
    }
  }

  /** The second half of the program: the table, its two tails and the capped quotient. */
  method ExactP(r2: array<nat>, m: nat, total: nat, plus: nat) returns (p: real)
    requires m <= r2.Length && total == Sum(r2[..m]) <= MAX_SAMPLES * (MAX_SAMPLES + 1) && plus <= total
    ensures p == TwoSided(r2[..m], plus)
  {
    var cnt := new nat[MAX_SAMPLES * (MAX_SAMPLES + 1) + 1];
    Distribution(r2, m, total, cnt);
    var le, ge := Tails(cnt, r2, m, total, plus);
    var cases := PowerOfTwo(m);
    p := 2.0 * Min(le, ge) as real / cases as real;
    p := if p > 1.0 then 1.0 else p;
  }

  /** The middle of the program: the doubled ranks, their total and the observed sum. */
  method RankSums(a: array<real>, pos: array<bool>, m: nat, r2: array<nat>) returns (total: nat, plus: nat)
    requires m <= a.Length && m <= pos.Length && m <= MAX_SAMPLES && m <= r2.Length
    modifies r2
    ensures r2[..m] == Ranks(a[..m]) && plus == PlusSum(r2[..m], pos[..m])
    ensures plus <= total == Sum(r2[..m]) <= MAX_SAMPLES * (MAX_SAMPLES + 1)
  {
    var idx := new nat[MAX_SAMPLES];
    SortIndices(a, m, idx);
    RankTies(a, m, idx, r2);
    total, plus := Totals(r2, pos, m);
    RanksSum(a[..m]);
    TableFits(m);
    PlusSumFlip(r2[..m], pos[..m]);
  }

  /** est_wilcoxon_p computes the exact p, for every sample and every pattern of ties, and its
      table of 64*65 + 1 counts is never overrun. */
  method Wilcoxon(d: array<real>, n: int) returns (p: real)
    requires n <= d.Length || MAX_SAMPLES <= d.Length
    ensures p == PValue(Kept(Sample(d[..], n)))
  {
    var size := if n > MAX_SAMPLES then MAX_SAMPLES else if n < 0 then 0 else n;
    assert d[..size] == Sample(d[..], n);
    var a, pos := new real[MAX_SAMPLES], new bool[MAX_SAMPLES];
    var m := Filter(d, size, a, pos);
    if m == 0 { return 1.0; }

    var r2 := new nat[MAX_SAMPLES];
    var total, plus := RankSums(a, pos, m, r2);
    p := ExactP(r2, m, total, plus);
  }

  lemma TableFits(m: nat)
    requires m <= MAX_SAMPLES
    ensures m * (m + 1) <= MAX_SAMPLES * (MAX_SAMPLES + 1)
  {
    assert m * (m + 1) <= m * (MAX_SAMPLES + 1) <= MAX_SAMPLES * (MAX_SAMPLES + 1);
  }
}
