/** The limit of the producer's sign test is met: a run from the initial ring, with every step fresh,
    after which one producer lags 2^31 - 1 positions behind and is misled. */
module WrapWitness {
  import opened Slots
  import opened Words32
  import opened BatchRing
  import opened WrapRing

  /** A schedule of fresh steps leads from `c` to `d`. */
  ghost predicate Leads(c: State, sched: seq<(nat, Call)>, d: State) {
    Shape(c.r) && Schedule(c, sched) && FreshRun(c, sched) && Run(c, sched) == d
  }

  ghost predicate Reaches(c: State, d: State) {
    exists sched: seq<(nat, Call)> :: Leads(c, sched, d)
  }

  lemma {:induction false} Append(c: State, sched: seq<(nat, Call)>, d: State, i: nat, call: Call)
    requires Leads(c, sched, d) && Shape(d.r) && i < |d.threads| && Fresh(d.r, d.threads[i])
    ensures Leads(c, sched + [(i, call)], Next(d, i, call))
    decreases |sched|
  {
    var longer := sched + [(i, call)];
    if sched == [] {
      assert longer[0] == (i, call) && longer[1..] == [];
      assert Schedule(c, longer);
      assert Schedule(Next(c, i, call), []);
    } else {
      var c' := Next(c, sched[0].0, sched[0].1);
      Append(c', sched[1..], d, i, call);
      assert longer[0] == sched[0] && longer[1..] == sched[1..] + [(i, call)];
      ScheduleStep(c, sched[0], longer[1..]);
      assert longer == [sched[0]] + longer[1..];
    }
  }

  lemma ScheduleStep(c: State, x: (nat, Call), rest: seq<(nat, Call)>)
    requires Shape(c.r) && x.0 < |c.threads| && Schedule(Next(c, x.0, x.1), rest)
    ensures Schedule(c, [x] + rest)
  {
    var all := [x] + rest;
    forall k | 0 <= k < |all| ensures all[k].0 < |c.threads| {
      if k > 0 { assert all[k] == rest[k - 1]; }
    }
  }

  lemma Step(c: State, d: State, i: nat, call: Call)
    requires Reaches(c, d) && Shape(d.r) && i < |d.threads| && Fresh(d.r, d.threads[i])
    ensures Reaches(c, Next(d, i, call))
  {
    var sched: seq<(nat, Call)> :| Leads(c, sched, d);
    Append(c, sched, d, i, call);
  }

  /** Where a ring of two cells stands, around position `n`, and thread 1 with it. */
  predicate On(c: State, n: nat, head: nat, tail: nat, seqno: nat, l: Local) {
    && Shape(c.r) && c.r.cap == 2 && c.r.head == head && c.r.tail == tail
    && c.r.cells[Slot(2, n)].seqno == seqno && c.r.cells[Slot(2, n + 1)].seqno == n + 1
    && |c.threads| == 2 && c.threads[1] == l
  }

  /** `n` tasks have passed, the ring is empty again and thread 1 is idle. */
  predicate Drained(c: State, n: nat) {
    On(c, n, n, n, n, Idle)
  }

  lemma TwoSlots(n: nat)
    ensures Slot(2, n) != Slot(2, n + 1) && Slot(2, n + 2) == Slot(2, n)
  {
    SlotInjective(2, n, n + 1);
    NextLap(2, n);
  }

  lemma StepOf1(c0: State, c: State, l: Local, call: Call) returns (d: State)
    requires Reaches(c0, c) && Shape(c.r) && |c.threads| == 2 && c.threads[1] == l && Fresh(c.r, l)
    ensures Reaches(c0, d) && d.threads == [c.threads[0], Goto(c.r, l, call)] && d.r == Apply(c.r, EffectOf(c.r, l))
  {
    Step(c0, c, 1, call);
    d := Next(c, 1, call);
  }

  lemma Reserve(c0: State, c: State, n: nat, t: Task) returns (d: State)
    requires Reaches(c0, c) && Drained(c, n)
    ensures Reaches(c0, d) && On(d, n, n, n + 1, n, PushFn(t, n)) && d.threads[0] == c.threads[0]
  {
    hide Reaches, Slots.Slot, Slots.Reduce;
    d := StepOf1(c0, c, Idle, Push(t));
    d := StepOf1(c0, d, PushLoad(t), Pop(0));
    d := StepOf1(c0, d, PushSeq(t, n), Pop(0));
    d := StepOf1(c0, d, PushCas(t, n), Pop(0));
  }

  lemma Fill(c0: State, c: State, n: nat, t: Task) returns (d: State)
    requires Reaches(c0, c) && On(c, n, n, n + 1, n, PushFn(t, n))
    ensures Reaches(c0, d) && On(d, n, n, n + 1, n + 1, Idle) && d.threads[0] == c.threads[0]
  {
    hide Reaches, Slots.Slot, Slots.Reduce;
    TwoSlots(n);
    d := StepOf1(c0, c, PushFn(t, n), Pop(0));
    d := StepOf1(c0, d, PushArg(t, n), Pop(0));
    d := StepOf1(c0, d, PushPublish(t, n), Pop(0));
  }

  lemma Claim(c0: State, c: State, n: nat) returns (d: State)
    requires Reaches(c0, c) && On(c, n, n, n + 1, n + 1, Idle)
    ensures Reaches(c0, d) && On(d, n, n + 1, n + 1, n + 1, PopFn(n, 1, [])) && d.threads[0] == c.threads[0]
  {
    hide Reaches, Slots.Slot, Slots.Reduce;
    d := StepOf1(c0, c, Idle, Pop(1));
    d := StepOf1(c0, d, PopLoad(1), Pop(0));
    d := StepOf1(c0, d, PopSeq(1, n, 0), Pop(0));
    d := StepOf1(c0, d, PopCas(1, n, 1), Pop(0));
  }

  lemma Deliver(c0: State, c: State, n: nat) returns (d: State)
    requires Reaches(c0, c) && On(c, n, n + 1, n + 1, n + 1, PopFn(n, 1, []))
    ensures Reaches(c0, d) && Drained(d, n + 1) && d.threads[0] == c.threads[0]
  {
    hide Reaches, Slots.Slot, Slots.Reduce;
    TwoSlots(n);
    d := StepOf1(c0, c, PopFn(n, 1, []), Pop(0));
    var fn := d.threads[1].fn;
    d := StepOf1(c0, d, PopArg(n, 1, [], fn), Pop(0));
    var out := d.threads[1].out;
    assert |out| == 1;
    d := StepOf1(c0, d, PopRecycle(n, 1, out), Pop(0));
  }

  lemma {:induction false} Forward(c0: State, c: State, n: nat, m: nat, t: Task) returns (d: State)
    requires Reaches(c0, c) && Drained(c, n) && n <= m
    ensures Reaches(c0, d) && Drained(d, m) && d.threads[0] == c.threads[0]
    decreases m - n
  {
    if n == m {
      d := c;
    } else {
      d := Reserve(c0, c, n, t);
      d := Fill(c0, d, n, t);
      d := Claim(c0, d, n);
      d := Deliver(c0, d, n);
      d := Forward(c0, d, n + 1, m, t);
    }
  }

  function Start(): State {
    State(Ring(2, 0, 0, [Cell(0, 0, 0), Cell(1, 0, 0)], []), [Idle, Idle], multiset{})
  }

  lemma StartIsInitial()
    ensures Init(Start()) && GoodCap(Start().r.cap) && Reaches(Start(), Start()) && Drained(Start(), 0)
  {
    assert Laps(2, TWO31);
    assert Leads(Start(), [], Start());
  }

  lemma StepOf0(c0: State, c: State, l: Local, call: Call) returns (d: State)
    requires Reaches(c0, c) && Shape(c.r) && |c.threads| == 2 && c.threads[0] == l && Fresh(c.r, l)
    ensures Reaches(c0, d) && d.threads == [Goto(c.r, l, call), c.threads[1]] && d.r == Apply(c.r, EffectOf(c.r, l))
  {
    Step(c0, c, 0, call);
    d := Next(c, 0, call);
  }

  /** The sleeper: thread 0 loads the tail when it is 1, and wakes up at `m`. */
  lemma SleeperReached(t: Task, m: nat) returns (d: State)
    requires m >= 1
    ensures Reaches(Start(), d) && Drained(d, m) && d.threads[0] == PushSeq(t, 1)
  {
    hide Reaches, Slots.Slot, Slots.Reduce;
    StartIsInitial();
    d := Forward(Start(), Start(), 0, 1, t);
    d := StepOf0(Start(), d, Idle, Push(t));
    d := StepOf0(Start(), d, PushLoad(t), Pop(0));
    d := Forward(Start(), d, 1, m, t);
  }

  /** The slot of position 1 now shows a seqno 2^31 ahead of it. */
  lemma SleeperIsMisled(d: State, t: Task)
    requires Drained(d, TWO31) && d.threads[0] == PushSeq(t, 1)
    ensures Next(d, 0, Pop(0)).threads[0] == PushLoad(t)
    ensures Next32(WrapState(d), 0, Pop(0)).threads[0] == Idle
  {
    hide Slots.Slot, Slots.Reduce, Words32.W, Words32.Dif32;
    SlotIsRemainder(2, 1);
    SlotIsRemainder(2, TWO31 + 1);
    assert At(d.r, 1).seqno == TWO31 + 1;
    assert GoodCap(2) by { assert Laps(2, TWO31); }
    WrappedCell(d.r, 1);
    SignTest(TWO31 + 1, 1);
    assert WrapState(d).threads[0] == PushSeq(t, W(1));
  }

  /** A lag under 2^31 is not enough for a producer: there is a run from the initial ring, taken alike
      by the unbounded and the 32-bit ring, after which a producer 2^31 - 1 behind an empty ring
      retries by its true position and gives up by its 32-bit one. */
  lemma HalfRangeLagMisleads(t: Task)
    ensures exists c: State, sched: seq<(nat, Call)>, d: State {:trigger Leads(c, sched, d)} ::
      && Init(c) && GoodCap(c.r.cap) && Leads(c, sched, d)
      && Shape32(WrapState(c).r) && Schedule32(WrapState(c), sched) && Run32(WrapState(c), sched) == WrapState(d)
      && |d.threads| == 2 && Shape(d.r)
      && d.r.head == d.r.tail == TWO31 && d.threads[0] == PushSeq(t, 1)
      && Next(d, 0, Pop(0)).threads[0] == PushLoad(t)
      && Next32(WrapState(d), 0, Pop(0)).threads[0] == Idle
  {
    hide Slots.Slot, Slots.Reduce, Words32.W, Words32.Dif32;
    var c := Start();
    var d := SleeperReached(t, TWO31);
    StartIsInitial();
    InitInv(c);
    var sched: seq<(nat, Call)> :| Leads(c, sched, d);
    RunWraps(c, sched);
    SleeperIsMisled(d, t);
  }
}
