/** The exact distribution that the signed-rank test of est_wilcoxon_p is defined by: doubled
    mid-ranks with ties, and the number of sign assignments that reach each rank sum. */
module SignedRanks {

  // ---------------------------------------------------------------- doubled mid-ranks

  function Below(a: seq<real>, x: real): set<nat> {
    set k: nat | k < |a| && a[k] < x
  }

  function Ties(a: seq<real>, x: real): set<nat> {
    set k: nat | k < |a| && a[k] == x
  }

  function Above(a: seq<real>, x: real): set<nat> {
    set k: nat | k < |a| && a[k] > x
  }

  /** Twice the mean of the ranks that the values tied with `x` would take. */
  function Rank2(a: seq<real>, x: real): nat {
    2 * |Below(a, x)| + |Ties(a, x)| + 1
  }

  function Ranks(a: seq<real>): (r: seq<nat>)
    ensures |r| == |a|
  {
    seq(|a|, i requires 0 <= i < |a| => Rank2(a, a[i]))
  }

  function Sum(r: seq<nat>): nat {
    if r == [] then 0 else Sum(r[..|r| - 1]) + r[|r| - 1]
  }

  lemma BelowSnoc(a: seq<real>, y: real, x: real)
    ensures |Below(a + [y], x)| == |Below(a, x)| + (if y < x then 1 else 0)
  {
    assert Below(a + [y], x) == if y < x then Below(a, x) + {|a|} else Below(a, x);
  }

  lemma TiesSnoc(a: seq<real>, y: real, x: real)
    ensures |Ties(a + [y], x)| == |Ties(a, x)| + (if y == x then 1 else 0)
  {
    assert Ties(a + [y], x) == if y == x then Ties(a, x) + {|a|} else Ties(a, x);
  }

  lemma AboveSnoc(a: seq<real>, y: real, x: real)
    ensures |Above(a + [y], x)| == |Above(a, x)| + (if y > x then 1 else 0)
  {
    assert Above(a + [y], x) == if y > x then Above(a, x) + {|a|} else Above(a, x);
  }

  lemma CountsSnoc(a: seq<real>, y: real, x: real)
    ensures |Below(a + [y], x)| == |Below(a, x)| + (if y < x then 1 else 0)
    ensures |Ties(a + [y], x)| == |Ties(a, x)| + (if y == x then 1 else 0)
    ensures |Above(a + [y], x)| == |Above(a, x)| + (if y > x then 1 else 0)
  {
    BelowSnoc(a, y, x);
    TiesSnoc(a, y, x);
    AboveSnoc(a, y, x);
  }

  lemma {:induction false} Trichotomy(a: seq<real>, x: real)
    ensures |Below(a, x)| + |Ties(a, x)| + |Above(a, x)| == |a|
  {
    if a != [] {
      var b, y := a[..|a| - 1], a[|a| - 1];
      assert a == b + [y];
      Trichotomy(b, x);
      CountsSnoc(b, y, x);
    }
  }

  /** The ranks of the values `v` among the values `a`. */
  function RanksIn(a: seq<real>, v: seq<real>): (r: seq<nat>)
    ensures |r| == |v|
  {
    seq(|v|, i requires 0 <= i < |v| => Rank2(a, v[i]))
  }

  /** One more value in the reference lifts the ranks above it by two and its ties by one. */
  lemma {:induction false} OneMoreReference(a: seq<real>, y: real, v: seq<real>)
    ensures Sum(RanksIn(a + [y], v)) == Sum(RanksIn(a, v)) + 2 * |Above(v, y)| + |Ties(v, y)|
  {
    if v != [] {
      var w, x := v[..|v| - 1], v[|v| - 1];
      assert v == w + [x];
      assert RanksIn(a, v)[..|w|] == RanksIn(a, w);
      assert RanksIn(a + [y], v)[..|w|] == RanksIn(a + [y], w);
      OneMoreReference(a, y, w);
      CountsSnoc(a, y, x);
      CountsSnoc(w, x, y);
    }
  }

  /** Ties or not, the doubled ranks of m values always sum to m(m+1). */
  lemma {:induction false} RanksSum(a: seq<real>)
    ensures Sum(Ranks(a)) == |a| * (|a| + 1)
  {
    if a != [] {
      var b, y := a[..|a| - 1], a[|a| - 1];
      assert a == b + [y];
      RanksSum(b);
      OneMoreReference(b, y, b);
      assert RanksIn(b, b) == Ranks(b);
      assert Ranks(a)[..|b|] == RanksIn(a, b);
      CountsSnoc(b, y, y);
      Trichotomy(b, y);
      NextProduct(|b|);
    }
  }

  lemma NextProduct(m: nat)
    ensures (m + 1) * (m + 2) == m * (m + 1) + 2 * m + 2
  {
  }

  // ---------------------------------------------------------------- sign assignments

  type Sign = seq<bool>

  function Pow2(m: nat): (p: nat)
    ensures p > 0
  {
    if m == 0 then 1 else 2 * Pow2(m - 1)
  }

  function Snoc(S: set<Sign>, b: bool): set<Sign> {
    set x | x in S :: x + [b]
  }

  /** Every way to give each of `m` ranks a sign. */
  function Assignments(m: nat): set<Sign> {
    if m == 0 then {[]} else Snoc(Assignments(m - 1), false) + Snoc(Assignments(m - 1), true)
  }

  /** The sum of the ranks with a plus sign. */
  function PlusSum(r: seq<nat>, x: Sign): nat
    requires |r| == |x|
  {
    if r == [] then 0 else
    PlusSum(r[..|r| - 1], x[..|x| - 1]) + if x[|x| - 1] then r[|r| - 1] else 0
  }

  lemma {:induction false} SnocSize(S: set<Sign>, b: bool)
    ensures |Snoc(S, b)| == |S|
    decreases S
  {
    if S != {} {
      var x :| x in S;
      SnocSize(S - {x}, b);
      forall y | y in S - {x} ensures y + [b] != x + [b] {
        assert (y + [b])[..|y|] == y && (x + [b])[..|x|] == x;
      }
      assert Snoc(S, b) == Snoc(S - {x}, b) + {x + [b]};
    }
  }

  lemma SnocsApart(S: set<Sign>, T: set<Sign>)
    ensures Snoc(S, false) !! Snoc(T, true)
    ensures |Snoc(S, false) + Snoc(T, true)| == |S| + |T|
  {
    forall z | z in Snoc(S, false) ensures z !in Snoc(T, true) {
      assert !z[|z| - 1];
    }
    SnocSize(S, false);
    SnocSize(T, true);
  }

  lemma SplitSize(m: nat, E: set<Sign>, S: set<Sign>, T: set<Sign>)
    requires forall x {:trigger x in E} :: x in E ==> |x| == m + 1
    requires forall y {:trigger y in S} :: y in S ==> |y| == m
    requires forall y {:trigger y in T} :: y in T ==> |y| == m
    requires forall y: Sign, b: bool {:trigger y + [b]} :: |y| == m ==> (y + [b] in E <==> y in if b then T else S)
    ensures |E| == |S| + |T|
  {
    forall x | x in E ensures x in Snoc(S, false) + Snoc(T, true) {
      var y, b := x[..m], x[m];
      assert x == y + [b];
      assert y in if b then T else S;
    }
    assert E == Snoc(S, false) + Snoc(T, true);
    SnocsApart(S, T);
  }

  lemma {:induction false} AssignmentsAre(m: nat, x: Sign)
    ensures x in Assignments(m) <==> |x| == m
  {
    if m > 0 {
      if x != [] {
        var y, b := x[..|x| - 1], x[|x| - 1];
        assert x == y + [b];
        AssignmentsAre(m - 1, y);
      }
      if x in Assignments(m) {
        var b := x in Snoc(Assignments(m - 1), true);
        var y :| y in Assignments(m - 1) && x == y + [b];
        AssignmentsAre(m - 1, y);
      }
    } else {
      assert |x| == 0 ==> x == [];
    }
  }

  lemma {:induction false} AssignmentCount(m: nat)
    ensures |Assignments(m)| == Pow2(m)
  {
    if m > 0 {
      AssignmentCount(m - 1);
      SnocsApart(Assignments(m - 1), Assignments(m - 1));
    }
  }

  /** The assignments whose rank sum is exactly, at most, and at least `s`. */
  function Exactly(r: seq<nat>, s: int): set<Sign> {
    Summing(Assignments(|r|), r, s)
  }

  function Summing(A: set<Sign>, r: seq<nat>, s: int): set<Sign> {
    set x | x in A && |x| == |r| && PlusSum(r, x) == s
  }

  function AtMost(r: seq<nat>, s: int): set<Sign> {
    set x | x in Assignments(|r|) && |x| == |r| && PlusSum(r, x) <= s
  }

  function AtLeast(r: seq<nat>, s: int): set<Sign> {
    set x | x in Assignments(|r|) && |x| == |r| && PlusSum(r, x) >= s
  }

  /** The recurrence the table is filled by. */
  function Ways(r: seq<nat>, s: int): nat {
    if r == [] then (if s == 0 then 1 else 0)
    else if s < 0 then 0
    else Ways(r[..|r| - 1], s) + Ways(r[..|r| - 1], s - r[|r| - 1])
  }

  lemma {:induction false} NegativeHasNoWays(r: seq<nat>, s: int)
    requires s < 0
    ensures Ways(r, s) == 0
  {
  }

  lemma PlusSumSnoc(r: seq<nat>, x: Sign, b: bool)
    requires |r| == |x| + 1
    ensures PlusSum(r, x + [b]) == PlusSum(r[..|x|], x) + if b then r[|x|] else 0
  {
    assert (x + [b])[..|x|] == x;
  }

  lemma SummingAdds(A: set<Sign>, B: set<Sign>, r: seq<nat>, s: int)
    requires r != []
    requires forall x {:trigger x in A} :: x in A <==> |x| == |r|
    requires forall x {:trigger x in B} :: x in B <==> |x| == |r| - 1
    ensures var q, k := r[..|r| - 1], r[|r| - 1];
      |Summing(A, r, s)| == |Summing(B, q, s)| + |Summing(B, q, s - k)|
  {
    var q, k := r[..|r| - 1], r[|r| - 1];
    var E, S, T := Summing(A, r, s), Summing(B, q, s), Summing(B, q, s - k);
    forall y: Sign, b: bool | |y| == |q| ensures y + [b] in E <==> y in if b then T else S {
      PlusSumSnoc(r, y, b);
    }
    SplitSize(|q|, E, S, T);
  }

  lemma ExactlyAdds(r: seq<nat>, s: int)
    requires r != []
    ensures var q, k := r[..|r| - 1], r[|r| - 1];
      |Exactly(r, s)| == |Exactly(q, s)| + |Exactly(q, s - k)|
  {
    forall x ensures (x in Assignments(|r|) <==> |x| == |r|) && (x in Assignments(|r| - 1) <==> |x| == |r| - 1) {
      AssignmentsAre(|r|, x);
      AssignmentsAre(|r| - 1, x);
    }
    SummingAdds(Assignments(|r|), Assignments(|r| - 1), r, s);
  }

  lemma NothingToSign(s: int)
    ensures |Exactly([], s)| == if s == 0 then 1 else 0
  {
    assert PlusSum([], []) == 0;
    assert Exactly([], s) == if s == 0 then {[]} else {};
  }

  /** The recurrence counts sign assignments. */
  lemma {:induction false} WaysCountAssignments(r: seq<nat>, s: int)
    ensures Ways(r, s) == |Exactly(r, s)|
  {
    if r == [] {
      NothingToSign(s);
    } else {
      var q, k := r[..|r| - 1], r[|r| - 1];
      WaysCountAssignments(q, s);
      WaysCountAssignments(q, s - k);
      ExactlyAdds(r, s);
      if s < 0 {
        NegativeHasNoWays(q, s);
        NegativeHasNoWays(q, s - k);
      }
    }
  }

  lemma AtMostGrows(r: seq<nat>, s: int)
    ensures |AtMost(r, s)| == |AtMost(r, s - 1)| + Ways(r, s)
  {
    WaysCountAssignments(r, s);
    assert AtMost(r, s) == AtMost(r, s - 1) + Exactly(r, s);
    assert AtMost(r, s - 1) !! Exactly(r, s);
  }

  lemma AtLeastShrinks(r: seq<nat>, s: int)
    ensures |AtLeast(r, s)| == |AtLeast(r, s + 1)| + Ways(r, s)
  {
    WaysCountAssignments(r, s);
    assert AtLeast(r, s) == AtLeast(r, s + 1) + Exactly(r, s);
    assert AtLeast(r, s + 1) !! Exactly(r, s);
  }

  lemma BothTails(r: seq<nat>, s: int)
    ensures |AtMost(r, s)| + |AtLeast(r, s)| == Pow2(|r|) + |Exactly(r, s)|
  {
    AssignmentCount(|r|);
    forall x | x in Assignments(|r|) ensures |x| == |r| {
      AssignmentsAre(|r|, x);
    }
    assert AtMost(r, s) + AtLeast(r, s) == Assignments(|r|);
    assert AtMost(r, s) * AtLeast(r, s) == Exactly(r, s);
  }

  // ---------------------------------------------------------------- symmetry

  function Flip(x: Sign): (y: Sign)
    ensures |y| == |x|
  {
    seq(|x|, i requires 0 <= i < |x| => !x[i])
  }

  lemma {:induction false} PlusSumFlip(r: seq<nat>, x: Sign)
    requires |r| == |x|
    ensures PlusSum(r, x) + PlusSum(r, Flip(x)) == Sum(r)
    ensures PlusSum(r, x) <= Sum(r)
  {
    if r != [] {
      PlusSumFlip(r[..|r| - 1], x[..|x| - 1]);
      assert Flip(x)[..|x| - 1] == Flip(x[..|x| - 1]);
    }
  }

  function FlipAll(S: set<Sign>): set<Sign> {
    set x | x in S :: Flip(x)
  }

  lemma FlipTwice(x: Sign)
    ensures Flip(Flip(x)) == x
  {
  }

  lemma {:induction false} FlipAllSize(S: set<Sign>)
    ensures |FlipAll(S)| == |S|
    decreases S
  {
    if S != {} {
      var x :| x in S;
      FlipAllSize(S - {x});
      forall y | y in S - {x} ensures Flip(y) != Flip(x) {
        FlipTwice(x);
        FlipTwice(y);
      }
      assert FlipAll(S) == FlipAll(S - {x}) + {Flip(x)};
    }
  }

  lemma MirrorMember(r: seq<nat>, s: int, x: Sign)
    requires |x| == |r|
    ensures Flip(Flip(x)) == x
    ensures x in AtMost(r, Sum(r) - s) <==> Flip(x) in AtLeast(r, s)
  {
    hide Assignments, Sum, PlusSum, Flip;
    FlipTwice(x);
    PlusSumFlip(r, x);
    AssignmentsAre(|r|, x);
    AssignmentsAre(|r|, Flip(x));
  }

  /** Flipping every sign swaps the two tails. */
  lemma TailsMirror(r: seq<nat>, s: int)
    ensures |AtMost(r, Sum(r) - s)| == |AtLeast(r, s)|
  {
    var A, B := AtMost(r, Sum(r) - s), FlipAll(AtLeast(r, s));
    FlipAllSize(AtLeast(r, s));
    forall x | x in A ensures x in B {
      MirrorMember(r, s, x);
    }
    forall x | x in B ensures x in A {
      var y :| y in AtLeast(r, s) && x == Flip(y);
      FlipTwice(y);
      MirrorMember(r, s, x);
    }
    assert A == B;
  }

  /** The distribution is symmetric about half of the total. */
  lemma WaysAreSymmetric(r: seq<nat>, s: int)
    ensures Ways(r, s) == Ways(r, Sum(r) - s)
  {
    TailsMirror(r, s);
    TailsMirror(r, s + 1);
    AtLeastShrinks(r, s);
    AtMostGrows(r, Sum(r) - s);
  }

  /** The counts of the sums 0 to `s`, added up. */
  function WaysUpTo(r: seq<nat>, s: int): nat
    decreases s + 1
  {
    if s < 0 then 0 else WaysUpTo(r, s - 1) + Ways(r, s)
  }

  lemma {:induction false} WaysAddUp(r: seq<nat>, s: int)
    ensures WaysUpTo(r, s) == |AtMost(r, s)|
    decreases s + 1
  {
    if s < 0 {
      forall x | x in Assignments(|r|) && |x| == |r| ensures PlusSum(r, x) >= 0 {
      }
      assert AtMost(r, s) == {};
    } else {
      WaysAddUp(r, s - 1);
      AtMostGrows(r, s);
    }
  }

  lemma AllAtMostTotal(r: seq<nat>)
    ensures |AtMost(r, Sum(r))| == Pow2(|r|)
  {
    AssignmentCount(|r|);
    forall x | x in Assignments(|r|) ensures |x| == |r| && PlusSum(r, x) <= Sum(r) {
      AssignmentsAre(|r|, x);
      PlusSumFlip(r, x);
    }
    assert AtMost(r, Sum(r)) == Assignments(|r|);
  }

  /** The counts over all the sums, from zero to the total, add up to every assignment. */
  lemma CountsTotal(r: seq<nat>)
    ensures WaysUpTo(r, Sum(r)) == Pow2(|r|)
  {
    WaysAddUp(r, Sum(r));
    AllAtMostTotal(r);
  }
}
