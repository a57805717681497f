/** The pool's split pending counters: one integer per shard and per worker. A task may be
    counted in one of them and uncounted in another, so only their sum means anything. */
module Accounting {

  function Sum(s: seq<int>): int {
    if s == [] then 0 else s[0] + Sum(s[1..])
  }

  lemma {:induction false} SumUpdate(s: seq<int>, i: nat, v: int)
    requires i < |s|
    ensures Sum(s[i := v]) == Sum(s) - s[i] + v
  {
    if i == 0 {
      assert s[0 := v][1..] == s[1..];
    } else {
      assert s[i := v][1..] == s[1..][i - 1 := v];
      SumUpdate(s[1..], i - 1, v);
    }
  }

  lemma {:induction false} SumMonotone(s: seq<int>, r: seq<int>)
    requires |s| == |r| && forall i {:trigger s[i]} {:trigger r[i]} :: 0 <= i < |s| ==> s[i] <= r[i]
    ensures Sum(s) <= Sum(r)
  {
    if s != [] {
      SumMonotone(s[1..], r[1..]);
    }
  }

  /** `open` is history: the tasks counted and not yet uncounted. */
  datatype Ledger = Ledger(ctrs: seq<int>, open: set<nat>)

  predicate Balanced(l: Ledger) {
    Sum(l.ctrs) == |l.open|
  }

  function Inc(l: Ledger, i: nat, t: nat): Ledger
    requires i < |l.ctrs|
  {
    Ledger(l.ctrs[i := l.ctrs[i] + 1], l.open + {t})
  }

  function Dec(l: Ledger, i: nat, t: nat): Ledger
    requires i < |l.ctrs|
  {
    Ledger(l.ctrs[i := l.ctrs[i] - 1], l.open - {t})
  }

  lemma IncKeepsBalance(l: Ledger, i: nat, t: nat)
    requires Balanced(l) && i < |l.ctrs| && t !in l.open
    ensures Balanced(Inc(l, i, t))
  {
    SumUpdate(l.ctrs, i, l.ctrs[i] + 1);
  }

  /** The counter that goes down need not be the one that went up. */
  lemma DecKeepsBalance(l: Ledger, i: nat, t: nat)
    requires Balanced(l) && i < |l.ctrs| && t in l.open
    ensures Balanced(Dec(l, i, t))
  {
    SumUpdate(l.ctrs, i, l.ctrs[i] - 1);
  }

  // ---------------------------------------------------------------- scanning a run

  /** One step of the pool, as the counters see it. */
  ghost predicate Step(l: Ledger, l': Ledger) {
    || l' == l
    || (exists i, t {:trigger Inc(l, i, t)} :: 0 <= i < |l.ctrs| && 0 <= t && t !in l.open && l' == Inc(l, i, t))
    || (exists i, t {:trigger Dec(l, i, t)} :: 0 <= i < |l.ctrs| && t in l.open && l' == Dec(l, i, t))
  }

  ghost predicate Trace(tr: seq<Ledger>) {
    && tr != []
    && Balanced(tr[0])
    && (forall j {:trigger tr[j]} :: 0 <= j < |tr| ==> |tr[j].ctrs| == |tr[0].ctrs|)
    && (forall j {:trigger StepAt(tr, j)} :: 0 <= j < |tr| - 1 ==> StepAt(tr, j))
  }

  ghost predicate StepAt(tr: seq<Ledger>, j: nat)
    requires j + 1 < |tr|
  {
    Step(tr[j], tr[j + 1])
  }

  /** A scan reads counter k of the state at time `at[k]`, one counter after the other. */
  ghost predicate Scan(tr: seq<Ledger>, at: seq<nat>) {
    && tr != [] && |at| == |tr[0].ctrs| > 0
    && (forall k {:trigger at[k]} :: 0 <= k < |at| ==> at[k] < |tr|)
    && (forall j, k {:trigger at[j], at[k]} :: 0 <= j < k < |at| ==> at[j] <= at[k])
  }

  ghost function Reads(tr: seq<Ledger>, at: seq<nat>): (r: seq<int>)
    requires Trace(tr) && Scan(tr, at)
    ensures |r| == |at| && forall k {:trigger r[k]} :: 0 <= k < |at| ==> r[k] == tr[at[k]].ctrs[k]
  {
    seq(|at|, k requires 0 <= k < |at| => tr[at[k]].ctrs[k])
  }

  /** No counter goes up while the scan is under way. */
  ghost predicate NoneGoesUp(tr: seq<Ledger>, lo: nat, hi: nat)
    requires Trace(tr) && hi < |tr|
  {
    forall j, k {:trigger tr[j].ctrs[k]} :: lo <= j < hi && 0 <= k < |tr[0].ctrs| ==> tr[j + 1].ctrs[k] <= tr[j].ctrs[k]
  }

  lemma {:induction false} BalancedAlong(tr: seq<Ledger>, j: nat)
    requires Trace(tr) && j < |tr|
    ensures Balanced(tr[j])
  {
    if j > 0 {
      BalancedAlong(tr, j - 1);
      var l, l' := tr[j - 1], tr[j];
      assert StepAt(tr, j - 1);
      if l' != l {
        if i, t :| 0 <= i < |l.ctrs| && 0 <= t && t !in l.open && l' == Inc(l, i, t) {
          IncKeepsBalance(l, i, t);
        } else {
          var i, t :| 0 <= i < |l.ctrs| && t in l.open && l' == Dec(l, i, t);
          DecKeepsBalance(l, i, t);
        }
      }
    }
  }

  lemma {:induction false} CounterFalls(tr: seq<Ledger>, lo: nat, hi: nat, j: nat, k: nat)
    requires Trace(tr) && lo <= j <= hi < |tr| && k < |tr[0].ctrs| && NoneGoesUp(tr, lo, hi)
    ensures tr[hi].ctrs[k] <= tr[j].ctrs[k]
    decreases hi - j
  {
    if j < hi {
      assert tr[j + 1].ctrs[k] <= tr[j].ctrs[k];
      CounterFalls(tr, lo, hi, j + 1, k);
    }
  }

  /** A scan that adds up to nothing, with no counter going up meanwhile, proves that at its end
      no task is outstanding, although it is not an atomic snapshot. PoolWitness has a run that
      misleads the scan without that hypothesis. */
  lemma ScanIsSound(tr: seq<Ledger>, at: seq<nat>)
    requires Trace(tr) && Scan(tr, at)
    requires NoneGoesUp(tr, at[0], at[|at| - 1])
    requires Sum(Reads(tr, at)) <= 0
    ensures tr[at[|at| - 1]].open == {}
  {
    var hi := at[|at| - 1];
    var r := Reads(tr, at);
    BalancedAlong(tr, hi);
    forall k | 0 <= k < |at| ensures tr[hi].ctrs[k] <= r[k] {
      assert at[0] <= at[k] <= hi;
      CounterFalls(tr, at[0], hi, at[k], k);
    }
    SumMonotone(tr[hi].ctrs, r);
  }

  lemma {:induction false} SameAlong(tr: seq<Ledger>, lo: nat, j: nat)
    requires lo <= j < |tr| && forall i {:trigger tr[i]} :: lo < i <= j ==> tr[i] == tr[i - 1]
    ensures tr[j] == tr[lo]
  {
    if lo < j {
      assert tr[j] == tr[j - 1];
      SameAlong(tr, lo, j - 1);
    }
  }

  /** A scan during which nothing is counted is exact, so an idle pool is found idle. */
  lemma QuietScanIsExact(tr: seq<Ledger>, at: seq<nat>)
    requires Trace(tr) && Scan(tr, at)
    requires forall j {:trigger tr[j]} :: at[0] < j <= at[|at| - 1] ==> tr[j] == tr[j - 1]
    ensures Sum(Reads(tr, at)) == |tr[at[|at| - 1]].open|
  {
    var lo, hi, r := at[0], at[|at| - 1], Reads(tr, at);
    BalancedAlong(tr, hi);
    SameAlong(tr, lo, hi);
    forall k | 0 <= k < |at| ensures r[k] == tr[hi].ctrs[k] {
      assert lo <= at[k] <= hi;
      SameAlong(tr, lo, at[k]);
    }
    assert r == tr[hi].ctrs;
  }

  lemma SumOfThree(a: int, b: int, c: int)
    ensures Sum([a, b, c]) == a + b + c
  {
    assert [a, b, c][1..] == [b, c] && [b, c][1..] == [c] && [c][1..] == [];
    assert Sum([c]) == c && Sum([b, c]) == b + c;
  }
}
