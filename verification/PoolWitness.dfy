/** A run of the pool that misleads the scan of its pending counters: while the scan is under way, a
    task is submitted to a shard already read and finishes on a worker not yet read, and so hides a
    task that waits in another shard the whole time. */
module PoolWitness {
  import opened RingSpec
  import Accounting
  import opened PoolModel
  import opened PoolTasks
  import opened PoolTheorems

  /** One worker, two shards, batches of one. */
  const ONE: Config := Config(1, 1, 1, 2, 1, 4, 4)

  /** A run that passes through `mid` at time `m` and ends in `st`. */
  ghost predicate Passes(tr: seq<State>, mvs: seq<Move>, m: nat, mid: State, st: State) {
    IsRun(ONE, tr, mvs) && m < |tr| && tr[m] == mid && tr[|tr| - 1] == st
  }

  ghost predicate Reaches(mid: State, st: State) {
    exists tr: seq<State>, mvs: seq<Move>, m: nat :: Passes(tr, mvs, m, mid, st)
  }

  lemma Extend(tr: seq<State>, mvs: seq<Move>, m: nat, mid: State, st: State, mv: Move)
    requires Passes(tr, mvs, m, mid, st) && Shape(ONE, st) && MoveOk(ONE, st, mv)
    ensures Passes(tr + [Next(ONE, st, mv)], mvs + [mv], m, mid, Next(ONE, st, mv))
  {
    hide Init, Next, Shape, MoveOk;
    var tr', mvs' := tr + [Next(ONE, st, mv)], mvs + [mv];
    forall j | 0 <= j < |mvs'| ensures Follows(ONE, tr', mvs', j) {
      if j < |mvs| { assert Follows(ONE, tr, mvs, j); }
    }
  }

  /** The state with one worker, its words, two outside threads and what they hold. */
  function At(rings: seq<Shard<Task>>, pc: PC, d: Dat, ext: seq<ExtPC>, hands: seq<Option<Task>>,
              ledger: Accounting.Ledger, place: seq<Place>, started: multiset<Task>, done: multiset<Task>): State {
    State(rings, [Ctl(pc, false, false, 0, 0)], [d], ext, hands, 0, 0, ledger, place, started, done)
  }

  predicate SameState(a: State, b: State) {
    && a.rings == b.rings && a.ctl == b.ctl && a.dat == b.dat && a.ext == b.ext && a.extHand == b.extHand
    && a.nParked == b.nParked && a.nSpinning == b.nSpinning
    && a.ledger.ctrs == b.ledger.ctrs && a.ledger.open == b.ledger.open
    && a.place == b.place && a.started == b.started && a.done == b.done
  }

  lemma Step(mid: State, st: State, mv: Move, st': State)
    requires Reaches(mid, st) && Shape(ONE, st) && MoveOk(ONE, st, mv) && SameState(st', Next(ONE, st, mv))
    ensures Reaches(mid, st')
  {
    hide Init, Next, IsRun, Shape;
    var tr: seq<State>, mvs: seq<Move>, m: nat :| Passes(tr, mvs, m, mid, st);
    Extend(tr, mvs, m, mid, st, mv);
  }

  const NONE: Option<Task> := None
  const FREE: Dat := Dat(None, 0, [], [], None, [])
  const EMPTY: Shard<Task> := Shard(0, [], {})
  const A_QUEUED: Shard<Task> := Shard(0, [0], {0})
  const B_QUEUED: Shard<Task> := Shard(0, [1], {0})
  const LOOP: PC := Try(Top, Lifo)
  const ALERT: ExtPC := Alerting(1, AskParked)
  const ALERTED: seq<ExtPC> := [ALERT, Alerting(0, AskParked)]

  function Fresh(): State {
    At([EMPTY, EMPTY], LOOP, FREE, [Away, Away], [NONE, NONE], Accounting.Ledger([0, 0, 0], {}), [], multiset{}, multiset{})
  }

  /** Task 0 waits in shard 1. */
  function Before(): State {
    At([EMPTY, A_QUEUED], LOOP, FREE, [ALERT, Away], [NONE, NONE], Accounting.Ledger([0, 1, 0], {0}), [InShard(1)], multiset{}, multiset{})
  }

  /** Task 1 has been submitted to shard 0 as well. */
  function Both(): State {
    At([B_QUEUED, A_QUEUED], LOOP, FREE, ALERTED, [NONE, NONE], Accounting.Ledger([1, 1, 0], {0, 1}),
       [InShard(1), InShard(0)], multiset{}, multiset{})
  }

  /** Task 1 has run and finished. */
  function After(): State {
    At([Shard(1, [1], {0}), A_QUEUED], LOOP, FREE, ALERTED, [NONE, NONE], Accounting.Ledger([1, 1, -1], {0}),
       [InShard(1), Done], multiset{1}, multiset{1})
  }

  lemma Starts()
    ensures Reaches(Fresh(), Fresh())
  {
    assert Passes([Fresh()], [], 0, Fresh(), Fresh());
  }

  /** Thread 0 submits task 0 to shard 1. */
  lemma SubmitFirst(mid: State)
    requires Reaches(mid, Fresh())
    ensures Reaches(mid, Before())
  {
    hide Reaches;
    var go := Outside(0, Pick(true, 1));
    var l := Accounting.Ledger([0, 1, 0], {0});
    var s0 := Fresh();
    var s1 := s0.(ext := [Counting(1), Away], extHand := [Some(0), NONE], place := [AtSubmitter(0)]);
    var s2 := s1.(ext := [Reserving(1), Away], ledger := l);
    var s3 := s2.(ext := [Publishing(1, 0), Away], extHand := [NONE, NONE], rings := [EMPTY, Shard(0, [0], {})], place := [InShard(1)]);
    Step(mid, s0, go, s1);
    Step(mid, s1, go, s2);
    assert Reserve(EMPTY, 0) == Shard(0, [0], {}) && Publish(Shard(0, [0], {}), 0) == A_QUEUED;
    Step(mid, s2, go, s3);
    Step(mid, s3, go, Before());
  }

  /** Thread 1 submits task 1 to shard 0. */
  lemma SubmitSecond(mid: State)
    requires Reaches(mid, Before())
    ensures Reaches(mid, Both())
  {
    hide Reaches;
    var go := Outside(1, Pick(true, 0));
    var l := Accounting.Ledger([1, 1, 0], {0, 1});
    var s0 := Before();
    var s1 := s0.(ext := [ALERT, Counting(0)], extHand := [NONE, Some(1)], place := [InShard(1), AtSubmitter(1)]);
    var s2 := s1.(ext := [ALERT, Reserving(0)], ledger := l);
    var s3 := s2.(ext := [ALERT, Publishing(0, 0)], extHand := [NONE, NONE], rings := [Shard(0, [1], {}), A_QUEUED], place := [InShard(1), InShard(0)]);
    assert Reserve(EMPTY, 1) == Shard(0, [1], {}) && Publish(Shard(0, [1], {}), 0) == B_QUEUED;
    Step(mid, s0, go, s1);
    Step(mid, s1, go, s2);
    Step(mid, s2, go, s3);
    Step(mid, s3, go, Both());
  }

  function With(st: State, pc: PC, d: Dat): State {
    st.(ctl := [Ctl(pc, false, false, 0, 0)], dat := [d])
  }

  /** The worker finds nothing of its own and sees task 1 at the head of shard 0. */
  lemma FindSecond(mid: State)
    requires Reaches(mid, Both())
    ensures Reaches(mid, With(Both(), Try(Top, Cas(0, 0, 1)), FREE))
  {
    hide Reaches;
    var go := Work(0, Pick(false, 0));
    var s := Both();
    Step(mid, s, go, With(s, Try(Top, Own), FREE));
    Step(mid, With(s, Try(Top, Own), FREE), go, With(s, Try(Top, Buffer), FREE));
    Step(mid, With(s, Try(Top, Buffer), FREE), go, With(s, Try(Top, Head(0)), FREE));
    Step(mid, With(s, Try(Top, Head(0)), FREE), go, With(s, Try(Top, Test(0, 0, 0)), FREE));
    Step(mid, With(s, Try(Top, Test(0, 0, 0)), FREE), go, With(s, Try(Top, Cas(0, 0, 1)), FREE));
  }

  /** The shards once task 1 is claimed. */
  function Claimed(place: Place): State {
    Both().(rings := [Shard(1, [1], {0}), A_QUEUED], place := [InShard(1), place])
  }

  lemma ClaimSecond(mid: State)
    requires Reaches(mid, With(Both(), Try(Top, Cas(0, 0, 1)), FREE))
    ensures Reaches(mid, With(Claimed(InBuffer(0)), Try(Top, Buffer), FREE.(pend := [1])))
  {
    hide Reaches, MovedAll, Moved;
    assert B_QUEUED.log[0..1] == [1];
    OneMoves();
    Step(mid, With(Both(), Try(Top, Cas(0, 0, 1)), FREE), Work(0, Pick(false, 0)),
         With(Claimed(InBuffer(0)), Try(Top, Buffer), FREE.(pend := [1])));
  }

  lemma OneMoves()
    ensures MovedAll([InShard(1), InShard(0)], [1], InBuffer(0)) == [InShard(1), InBuffer(0)]
  {
  }

  lemma TakeSecond(mid: State)
    requires Reaches(mid, With(Claimed(InBuffer(0)), Try(Top, Buffer), FREE.(pend := [1])))
    ensures Reaches(mid, With(Claimed(InHand(0)), Start, FREE.(hand := Some(1))))
  {
    hide Reaches, MovedAll;
    assert [1][1..] == FREE.pend;
    Step(mid, With(Claimed(InBuffer(0)), Try(Top, Buffer), FREE.(pend := [1])), Work(0, Pick(false, 0)),
         With(Claimed(InHand(0)), Start, FREE.(hand := Some(1))));
  }

  function Started(): State {
    Claimed(Running(0)).(started := multiset{1})
  }

  const BUSY: Dat := Dat(None, 0, [], [], None, [1])

  lemma StartSecond(mid: State)
    requires Reaches(mid, With(Claimed(InHand(0)), Start, FREE.(hand := Some(1))))
    ensures Reaches(mid, With(Started(), Body, BUSY))
  {
    hide Reaches;
    assert FREE.stack + [1] == [1];
    Step(mid, With(Claimed(InHand(0)), Start, FREE.(hand := Some(1))), Work(0, Pick(false, 0)), With(Started(), Body, BUSY));
  }

  lemma UncountSecond(mid: State)
    requires Reaches(mid, With(Started(), Body, BUSY))
    ensures Reaches(mid, With(Started(), Dec2(0), BUSY))
  {
    hide Reaches;
    var go := Work(0, Pick(false, 0));
    Step(mid, With(Started(), Body, BUSY), go, With(Started(), Dec1, BUSY));
    Step(mid, With(Started(), Dec1, BUSY), go, With(Started(), Dec2(0), BUSY));
  }

  lemma FinishSecond(mid: State)
    requires Reaches(mid, With(Started(), Dec2(0), BUSY))
    ensures Reaches(mid, After())
  {
    hide Reaches;
    assert [1][..0] == FREE.stack;
    Step(mid, With(Started(), Dec2(0), BUSY), Work(0, Pick(false, 0)), After());
  }

  lemma Restart(st: State)
    requires Reaches(Fresh(), st)
    ensures Reaches(st, st)
  {
    var tr: seq<State>, mvs: seq<Move>, m: nat :| Passes(tr, mvs, m, Fresh(), st);
    assert Passes(tr, mvs, |tr| - 1, st, st);
  }

  lemma MisledRun()
    ensures Reaches(Before(), After())
  {
    hide Reaches;
    Starts();
    SubmitFirst(Fresh());
    Restart(Before());
    SubmitSecond(Before());
    FindSecond(Before());
    ClaimSecond(Before());
    TakeSecond(Before());
    StartSecond(Before());
    UncountSecond(Before());
    FinishSecond(Before());
  }

  /** The scan of pool_total_pending, along a run of the pool: the counters read add up to nothing
      although one task is outstanding when it begins and when it ends. */
  lemma ScanCanBeMisled()
    ensures exists tr: seq<State>, mvs: seq<Move>, at: seq<nat>, t: Task {:trigger IsRun(ONE, tr, mvs), Outstanding(tr[at[0]], t)} ::
      && IsRun(ONE, tr, mvs)
      && Accounting.Trace(Ledgers(tr)) && Accounting.Scan(Ledgers(tr), at)
      && Accounting.Sum(Accounting.Reads(Ledgers(tr), at)) == 0
      && Outstanding(tr[at[0]], t) && Outstanding(tr[at[|at| - 1]], t)
  {
    hide Init, IsRun, Outstanding;
    MisledRun();
    var tr: seq<State>, mvs: seq<Move>, m: nat :| Passes(tr, mvs, m, Before(), After());
    RunIsLedgerTrace(ONE, tr, mvs) by { assert IsRun(ONE, tr, mvs); }
    var e := |tr| - 1;
    var at := [m, e, e];
    assert |Ledgers(tr)[m].ctrs| == 3;
    assert Accounting.Scan(Ledgers(tr), at);
    assert Accounting.Reads(Ledgers(tr), at) == [0, 1, -1];
    Accounting.SumOfThree(0, 1, -1);
    OpenIsOutstanding(tr, mvs, m);
    OpenIsOutstanding(tr, mvs, e);
    assert Outstanding(tr[at[0]], 0);
  }

  lemma OpenIsOutstanding(tr: seq<State>, mvs: seq<Move>, j: nat)
    requires IsRun(ONE, tr, mvs) && j < |tr|
    ensures forall t: Task {:trigger t in tr[j].ledger.open} :: t in tr[j].ledger.open ==> Outstanding(tr[j], t)
  {
    RunKeepsInv(ONE, tr, mvs, j);
  }
}
