/** What the pool guarantees over every run: no lost wake-up, conservation of tasks, at most one
    start per task, and counters that tell the truth. */
module PoolTheorems {
  import opened RingSpec
  import Accounting
  import opened PoolModel
  import opened PoolControl
  import opened PoolWake
  import opened PoolTasks

  /** Who steps, and how the model's choices fall. */
  datatype Move = Work(w: nat, pick: Pick) | Outside(x: nat, pick: Pick)

  predicate MoveOk(g: Config, st: State, mv: Move) {
    match mv
    case Work(w, _) => w < g.nTotal
    case Outside(x, _) => x < |st.ext|
  }

  function Next(g: Config, st: State, mv: Move): State
    requires Shape(g, st) && MoveOk(g, st, mv)
  {
    match mv
    case Work(w, pick) => WorkerNext(g, st, w, pick)
    case Outside(x, pick) => ExtNext(g, st, x, pick)
  }

  ghost predicate Inv(g: Config, st: State) {
    CtlInv(g, st) && WakeInv(g, st) && TaskInv(g, st)
  }

  lemma NextKeepsInv(g: Config, st: State, mv: Move)
    requires Inv(g, st) && MoveOk(g, st, mv)
    ensures Inv(g, Next(g, st, mv))
  {
    match mv {
      case Work(w, pick) =>
        WorkerKeepsCtl(g, st, w, pick);
        WorkerKeepsWake(g, st, w, pick);
        WorkerKeepsTasks(g, st, w, pick);
      case Outside(x, pick) =>
        ExtKeepsCtl(g, st, x, pick);
        ExtKeepsWake(g, st, x, pick);
        ExtKeepsTasks(g, st, x, pick);
    }
  }

  /** The states of a run, one per moment. */
  ghost predicate IsRun(g: Config, tr: seq<State>, mvs: seq<Move>) {
    && |tr| == |mvs| + 1
    && Init(g, tr[0])
    && (forall j {:trigger Follows(g, tr, mvs, j)} :: 0 <= j < |mvs| ==> Follows(g, tr, mvs, j))
  }

  ghost predicate Follows(g: Config, tr: seq<State>, mvs: seq<Move>, j: nat)
    requires j < |mvs| && j + 1 < |tr|
  {
    Shape(g, tr[j]) && MoveOk(g, tr[j], mvs[j]) && tr[j + 1] == Next(g, tr[j], mvs[j])
  }

  lemma {:induction false} RunKeepsInv(g: Config, tr: seq<State>, mvs: seq<Move>, j: nat)
    requires IsRun(g, tr, mvs) && j < |tr|
    ensures Inv(g, tr[j])
  {
    if j == 0 {
      InitCtl(g, tr[0]);
      InitWake(g, tr[0]);
      InitTasks(g, tr[0]);
    } else {
      RunKeepsInv(g, tr, mvs, j - 1);
      assert Follows(g, tr, mvs, j - 1);
      NextKeepsInv(g, tr[j - 1], mvs[j - 1]);
    }
  }

  // ---------------------------------------------------------------- no lost wake-up

  /** Every worker is blocked: in its sleep, with its wait word clear. */
  predicate AllAsleep(g: Config, st: State)
    requires Shape(g, st)
  {
    forall w {:trigger st.ctl[w]} :: 0 <= w < g.nTotal ==> st.ctl[w].pc == Sleep && !st.ctl[w].signal
  }

  /** No submission and no configuration call is in progress. */
  predicate QuietOutside(st: State) {
    forall x {:trigger st.ext[x]} :: 0 <= x < |st.ext| ==> st.ext[x] == Away
  }

  predicate NothingQueued(g: Config, st: State)
    requires Shape(g, st)
  {
    && (forall s {:trigger st.rings[s]} :: 0 <= s < g.nShards ==> st.rings[s].head == |st.rings[s].log|)
    && (forall w {:trigger st.dat[w]} :: 0 <= w < g.nTotal ==> HoldsNothing(st.dat[w]))
  }

  lemma NobodyComes(g: Config, st: State, s: nat, head: nat)
    requires Shape(g, st) && AllAsleep(g, st) && QuietOutside(st)
    ensures !Covered(g, st.ctl, st.ext, s, head)
    ensures forall x: nat :: x < |st.ext| ==> !Publishes(st.ext[x], s, head)
  {
  }

  lemma AsleepMeansDrained(g: Config, st: State)
    requires Inv(g, st) && AllAsleep(g, st) && QuietOutside(st)
    ensures NothingQueued(g, st)
  {
    forall s | 0 <= s < g.nShards ensures st.rings[s].head == |st.rings[s].log| {
      assert RingOk(st.rings[s], s, st.ext);
      NobodyComes(g, st, s, st.rings[s].head);
    }
    forall w | 0 <= w < g.nTotal ensures HoldsNothing(st.dat[w]) {
      assert st.ctl[w].pc == Sleep;
      assert DatOk(st.ctl[w].pc, st.dat[w]);
    }
  }

  /** In every reachable state with nothing in progress outside, if every worker (core, reserve and
      elastic) is blocked in its sleep, then every shard, deque, LIFO slot and batch buffer is
      empty: no task waits for a time-out. */
  lemma NoLostWakeUp(g: Config, tr: seq<State>, mvs: seq<Move>, j: nat)
    requires IsRun(g, tr, mvs) && j < |tr|
    ensures Shape(g, tr[j])
    ensures AllAsleep(g, tr[j]) && QuietOutside(tr[j]) ==> NothingQueued(g, tr[j])
  {
    RunKeepsInv(g, tr, mvs, j);
    if AllAsleep(g, tr[j]) && QuietOutside(tr[j]) { AsleepMeansDrained(g, tr[j]); }
  }

  // ---------------------------------------------------------------- conservation

  /** Every task ever submitted is found exactly once, in exactly one place, and has been started
      at most once: exactly when it is running or done. */
  lemma TaskIsInOnePlace(g: Config, tr: seq<State>, mvs: seq<Move>, j: nat, t: Task)
    requires IsRun(g, tr, mvs) && j < |tr| && t < |tr[j].place|
    ensures exists pl: Place ::
      && Bag(tr[j], pl)[t] == 1
      && (forall other: Place {:trigger Bag(tr[j], other)} :: other != pl ==> Bag(tr[j], other)[t] == 0)
      && tr[j].started[t] == (if pl.Running? || pl.Done? then 1 else 0)
  {
    RunKeepsInv(g, tr, mvs, j);
    var pl := tr[j].place[t];
    assert Bag(tr[j], pl)[t] == 1;
    forall other: Place {:trigger Bag(tr[j], other)} | other != pl ensures Bag(tr[j], other)[t] == 0 {
    }
    assert tr[j].started[t] == if pl.Running? || pl.Done? then 1 else 0;
  }

  /** A batch claim always finds the batch buffer empty, and a worker whose try fails holds nothing
      in its deque, its buffer and its LIFO slot. */
  lemma BuffersAreRespected(g: Config, tr: seq<State>, mvs: seq<Move>, j: nat, w: nat, pick: Pick)
    requires IsRun(g, tr, mvs) && j < |tr| && w < g.nTotal
    ensures Shape(g, tr[j])
    ensures ActOf(g, tr[j], w, pick).ClaimShard? ==> tr[j].dat[w].pend == []
    ensures var pc := tr[j].ctl[w].pc;
      pc.Try? && pc.ph.LastLifo? && !ActOf(g, tr[j], w, pick).FromLifo? ==> HoldsNothing(tr[j].dat[w])
  {
    var st := tr[j];
    RunKeepsInv(g, tr, mvs, j);
    assert WorkerOk(g, st.rings, w, st.ctl[w]) && DatOk(st.ctl[w].pc, st.dat[w]);
    ActFitsDat(g, st, w, pick);
  }

  // ---------------------------------------------------------------- counters

  ghost function Ledgers(tr: seq<State>): (l: seq<Accounting.Ledger>)
    ensures |l| == |tr| && forall j {:trigger l[j]} :: 0 <= j < |tr| ==> l[j] == tr[j].ledger
  {
    seq(|tr|, j requires 0 <= j < |tr| => tr[j].ledger)
  }

  lemma RunIsLedgerTrace(g: Config, tr: seq<State>, mvs: seq<Move>)
    requires IsRun(g, tr, mvs)
    ensures Accounting.Trace(Ledgers(tr))
  {
    var l := Ledgers(tr);
    forall j | 0 <= j < |tr|
      ensures Accounting.Balanced(l[j]) && |l[j].ctrs| == g.nShards + g.nTotal
    {
      RunKeepsInv(g, tr, mvs, j);
    }
    forall j | 0 <= j < |l| - 1 ensures Accounting.StepAt(l, j) {
      RunKeepsInv(g, tr, mvs, j);
      assert Follows(g, tr, mvs, j);
      match mvs[j] {
        case Work(w, pick) => WorkerKeepsLedger(g, tr[j], w, pick);
        case Outside(x, pick) => ExtKeepsLedger(g, tr[j], x, pick);
      }
    }
  }

  /** pool_total_pending, read counter by counter along a run: if it adds up to nothing and no
      counter went up while it was read, then at its end no counted task is unfinished. */
  lemma IdleScanIsSound(g: Config, tr: seq<State>, mvs: seq<Move>, at: seq<nat>, t: Task)
    requires IsRun(g, tr, mvs)
    requires Accounting.Trace(Ledgers(tr)) && Accounting.Scan(Ledgers(tr), at)
    requires Accounting.NoneGoesUp(Ledgers(tr), at[0], at[|at| - 1])
    requires Accounting.Sum(Accounting.Reads(Ledgers(tr), at)) <= 0
    ensures !Outstanding(tr[at[|at| - 1]], t)
  {
    Accounting.ScanIsSound(Ledgers(tr), at);
    var e := at[|at| - 1];
    RunKeepsInv(g, tr, mvs, e);
    assert t in tr[e].ledger.open <==> Outstanding(tr[e], t);
  }
}
