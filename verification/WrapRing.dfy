/** The shard ring as the program runs it: 32-bit positions, modular additions, and the sign of a
    32-bit difference. It takes the same steps as BatchRing, position for position, as long as no
    producer sleeps on a position for almost half the 32-bit range, and no consumer for almost all
    of it. */
module WrapRing {
  import opened Slots
  import opened Words32
  import opened BatchRing

  /** No history here: just the words of the program. */
  datatype Ring32 = Ring32(cap: nat, head: nat, tail: nat, cells: seq<Cell>)

  predicate Shape32(r: Ring32) {
    r.cap >= 2 && |r.cells| == r.cap
  }

  function At32(r: Ring32, p: nat): Cell
    requires Shape32(r)
  {
    r.cells[Slot(r.cap, p)]
  }

  function Put32(r: Ring32, p: nat, x: Cell): Ring32
    requires Shape32(r)
  {
    r.(cells := r.cells[Slot(r.cap, p) := x])
  }

  function Ring32After(r: Ring32, l: Local): Ring32
    requires Shape32(r)
  {
    match l
    case PushCas(_, pos) => if r.tail == pos then r.(tail := W(pos + 1)) else r
    case PushFn(t, pos) => Put32(r, pos, At32(r, pos).(fn := t.fn))
    case PushArg(t, pos) => Put32(r, pos, At32(r, pos).(arg := t.arg))
    case PushPublish(_, pos) => Put32(r, pos, At32(r, pos).(seqno := W(pos + 1)))
    case PopCas(_, pos, n) => if r.head == pos then r.(head := W(pos + n)) else r
    case PopRecycle(pos, _, out) =>
      if out == [] then r else
      var q := W(pos + |out| - 1);
      Put32(r, q, At32(r, q).(seqno := W(q + r.cap)))
    case _ => r
  }

  function Goto32(r: Ring32, l: Local, call: Call): Local
    requires Shape32(r)
  {
    match l
    case Idle =>
      (match call
       case Push(t) => PushLoad(t)
       case Pop(max) => if max > 0 then PopLoad(max) else Idle)
    case PushLoad(t) => PushSeq(t, r.tail)
    case PushSeq(t, pos) =>
      var dif := Dif32(At32(r, pos).seqno, pos);
      if dif == 0 then PushCas(t, pos) else if dif < 0 then Idle else PushLoad(t)
    case PushCas(t, pos) => if r.tail == pos then PushFn(t, pos) else PushLoad(t)
    case PushFn(t, pos) => PushArg(t, pos)
    case PushArg(t, pos) => PushPublish(t, pos)
    case PushPublish(_, _) => Idle
    case PopLoad(max) => PopSeq(max, r.head, 0)
    case PopSeq(max, pos, n) =>
      AfterScan(max, pos, n, Dif32(At32(r, W(pos + n)).seqno, W(pos + n + 1)) == 0)
    case PopCas(max, pos, n) => if r.head == pos then PopFn(pos, n, []) else PopLoad(max)
    case PopFn(pos, n, out) => PopArg(pos, n, out, At32(r, W(pos + |out|)).fn)
    case PopArg(pos, n, out, fn) => PopRecycle(pos, n, out + [Task(fn, At32(r, W(pos + |out|)).arg)])
    case PopRecycle(pos, n, out) => if |out| < n then PopFn(pos, n, out) else Idle
  }

  // ---------------------------------------------------------------- the wrapped image

  function WrapCell(x: Cell): Cell {
    x.(seqno := W(x.seqno))
  }

  function WrapCells(cells: seq<Cell>): (w: seq<Cell>)
    ensures |w| == |cells|
    ensures forall i {:trigger w[i]} :: 0 <= i < |cells| ==> w[i] == WrapCell(cells[i])
  {
    seq(|cells|, i requires 0 <= i < |cells| => WrapCell(cells[i]))
  }

  function Wrap(r: Ring): Ring32 {
    Ring32(r.cap, W(r.head), W(r.tail), WrapCells(r.cells))
  }

  function WrapLocal(l: Local): Local {
    match l
    case Idle => l
    case PushLoad(_) => l
    case PopLoad(_) => l
    case PushSeq(t, pos) => PushSeq(t, W(pos))
    case PushCas(t, pos) => PushCas(t, W(pos))
    case PushFn(t, pos) => PushFn(t, W(pos))
    case PushArg(t, pos) => PushArg(t, W(pos))
    case PushPublish(t, pos) => PushPublish(t, W(pos))
    case PopSeq(max, pos, n) => PopSeq(max, W(pos), n)
    case PopCas(max, pos, n) => PopCas(max, W(pos), n)
    case PopFn(pos, n, out) => PopFn(W(pos), n, out)
    case PopArg(pos, n, out, fn) => PopArg(W(pos), n, out, fn)
    case PopRecycle(pos, n, out) => PopRecycle(W(pos), n, out)
  }

  lemma WrappedCell(r: Ring, p: nat)
    requires Shape(r) && GoodCap(r.cap)
    ensures At32(Wrap(r), W(p)) == WrapCell(At(r, p))
  {
    WrapKeepsSlot(r.cap, p);
  }

  lemma WrappedPut(r: Ring, p: nat, x: Cell)
    requires Shape(r) && GoodCap(r.cap)
    ensures Put32(Wrap(r), W(p), WrapCell(x)) == Wrap(Put(r, p, x))
  {
    WrapKeepsSlot(r.cap, p);
    assert WrapCells(r.cells)[Slot(r.cap, p) := WrapCell(x)] == WrapCells(r.cells[Slot(r.cap, p) := x]);
  }

  // ---------------------------------------------------------------- how far positions drift

  /** How far the position a thread holds has fallen behind. */
  function Staleness(r: Ring, l: Local): int {
    match l
    case PushSeq(_, pos) => r.tail - pos
    case PushCas(_, pos) => r.tail - pos
    case PopSeq(_, pos, _) => r.head - pos
    case PopCas(_, pos, _) => r.head - pos
    case _ => 0
  }

  /** Recent enough for the comparison the thread is about to make: a producer's sign test needs
      half of the range, a consumer's equality test and the two CAS nearly all of it. */
  predicate Fresh(r: Ring, l: Local) {
    match l
    case PushSeq(_, _) => Staleness(r, l) <= TWO31 - r.cap
    case PopSeq(max, _, _) => Staleness(r, l) <= TWO32 - r.cap && max <= r.cap
    case _ => Staleness(r, l) < TWO32
  }

  lemma {:induction false} SeqnoAbove(r: Ring, p: nat)
    requires Shape(r) && Window(r) && p < r.head + r.cap
    ensures At(r, p).seqno > p - r.cap - 1
  {
    if p < r.tail {
      PassedPositionIsReserved(r, p);
    } else {
      assert r.cells[Slot(r.cap, p)].seqno >= p - r.cap;
    }
  }

  lemma {:induction false} SeqnoBelow(r: Ring, p: nat)
    requires Shape(r) && Window(r) && p < r.head + r.cap
    ensures At(r, p).seqno < r.tail + r.cap && At(r, p).seqno <= r.head + r.cap
    decreases r.head + r.cap - p
  {
    if p < r.head {
      NextLap(r.cap, p);
      SeqnoBelow(r, p + r.cap);
    } else {
      assert r.cells[Slot(r.cap, p)].seqno <= p + 1;
    }
  }

  // ---------------------------------------------------------------- one step

  lemma PushSeqWraps(r: Ring, t: Task, pos: nat)
    requires Shape(r) && Window(r) && GoodCap(r.cap) && pos <= r.tail
    requires At(r, pos).seqno - pos < TWO31
    ensures Goto32(Wrap(r), PushSeq(t, W(pos)), Pop(0)) == WrapLocal(Goto(r, PushSeq(t, pos), Pop(0)))
  {
    WrappedCell(r, pos);
    if pos < r.tail { PassedPositionIsReserved(r, pos); } else { FreeCellsOfFirstLap(r); FullTail(r); }
    Dif32IsExact(At(r, pos).seqno, pos);
  }

  lemma FullTail(r: Ring)
    requires Shape(r) && Window(r)
    ensures At(r, r.tail).seqno >= r.tail - r.cap
  {
    NextLap(r.cap, r.head);
    FreeCellsOfFirstLap(r);
  }

  lemma PushSeqIsNear(r: Ring, pos: nat)
    requires Shape(r) && Window(r) && pos <= r.tail && r.tail - pos <= TWO31 - r.cap
    ensures At(r, pos).seqno - pos < TWO31
  {
    if pos < r.head + r.cap { SeqnoBelow(r, pos); } else { NextLap(r.cap, r.head); SeqnoBelow(r, r.head); }
  }

  lemma PopSeqIsNear(r: Ring, max: nat, pos: nat, n: nat)
    requires Shape(r) && Window(r) && r.cap <= 0x4000_0000
    requires pos <= r.head && n < max && Fresh(r, PopSeq(max, pos, n))
    ensures -TWO32 < At(r, pos + n).seqno - (pos + n + 1) < TWO32
  {
    SeqnoAbove(r, pos + n);
    SeqnoBelow(r, pos + n);
  }

  lemma ScanTestWraps(r: Ring, pos: nat, n: nat)
    requires Shape(r) && GoodCap(r.cap)
    requires -TWO32 < At(r, pos + n).seqno - (pos + n + 1) < TWO32
    ensures Dif32(At32(Wrap(r), W(W(pos) + n)).seqno, W(W(pos) + n + 1)) == 0 <==> At(r, pos + n).seqno == pos + n + 1
  {
    WrapAdds(pos, n);
    WrapAdds(pos, n + 1);
    WrappedCell(r, pos + n);
    WrapIsInjectiveNearby(At(r, pos + n).seqno, pos + n + 1);
    ZeroDif(At(r, pos + n).seqno, pos + n + 1);
  }

  lemma PopSeqWraps(r: Ring, max: nat, pos: nat, n: nat)
    requires Shape(r) && GoodCap(r.cap)
    requires -TWO32 < At(r, pos + n).seqno - (pos + n + 1) < TWO32
    ensures Goto32(Wrap(r), PopSeq(max, W(pos), n), Pop(0)) == WrapLocal(Goto(r, PopSeq(max, pos, n), Pop(0)))
  {
    ScanTestWraps(r, pos, n);
  }

  lemma CopyWraps(r: Ring, l: Local)
    requires Shape(r) && GoodCap(r.cap) && (l.PopFn? || l.PopArg?)
    ensures Goto32(Wrap(r), WrapLocal(l), Pop(0)) == WrapLocal(Goto(r, l, Pop(0)))
  {
    WrapAdds(l.pos, |l.out|);
    WrappedCell(r, l.pos + |l.out|);
  }

  lemma LoadsWrap(r: Ring, l: Local, call: Call)
    requires Shape(r) && GoodCap(r.cap) && 0 <= Staleness(r, l) < TWO32
    requires !l.PushSeq? && !l.PopSeq? && !l.PopFn? && !l.PopArg?
    ensures Goto32(Wrap(r), WrapLocal(l), call) == WrapLocal(Goto(r, l, call))
  {
    if l.PushCas? { WrapIsInjectiveNearby(r.tail, l.pos); }
    if l.PopCas? { WrapIsInjectiveNearby(r.head, l.pos); }
  }

  lemma NotAhead(r: Ring, l: Local)
    requires Shape(r) && ThreadOk(r, l)
    ensures Staleness(r, l) >= 0
  {
  }

  /** The decision and the next place of every step coincide. */
  lemma GotoWraps(r: Ring, l: Local, call: Call)
    requires Shape(r) && Window(r) && GoodCap(r.cap) && ThreadOk(r, l) && Fresh(r, l)
    ensures Goto32(Wrap(r), WrapLocal(l), call) == WrapLocal(Goto(r, l, call))
  {
    NotAhead(r, l);
    match l {
      case PushSeq(t, pos) => PushSeqIsNear(r, pos); PushSeqWraps(r, t, pos);
      case PopSeq(max, pos, n) => PopSeqIsNear(r, max, pos, n); PopSeqWraps(r, max, pos, n);
      case PopFn(_, _, _) => CopyWraps(r, l);
      case PopArg(_, _, _, _) => CopyWraps(r, l);
      case _ => LoadsWrap(r, l, call);
    }
  }

  lemma FillWraps(r: Ring, l: Local)
    requires Shape(r) && GoodCap(r.cap) && (l.PushFn? || l.PushArg? || l.PushPublish?)
    ensures Ring32After(Wrap(r), WrapLocal(l)) == Wrap(Apply(r, EffectOf(r, l)))
  {
    WrapAdds(l.pos, 1);
    WrappedCell(r, l.pos);
    WrappedPut(r, l.pos, EffectOf(r, l).x);
  }

  lemma RecycleWraps(r: Ring, l: Local)
    requires Shape(r) && GoodCap(r.cap) && l.PopRecycle? && l.out != []
    ensures Ring32After(Wrap(r), WrapLocal(l)) == Wrap(Apply(r, EffectOf(r, l)))
  {
    var q := l.pos + |l.out| - 1;
    WrapAdds(l.pos, |l.out| - 1);
    WrapAdds(q, r.cap);
    WrappedCell(r, q);
    WrappedPut(r, q, EffectOf(r, l).x);
  }

  lemma CasWraps(r: Ring, l: Local)
    requires Shape(r) && GoodCap(r.cap) && 0 <= Staleness(r, l) < TWO32 && (l.PushCas? || l.PopCas?)
    ensures Ring32After(Wrap(r), WrapLocal(l)) == Wrap(Apply(r, EffectOf(r, l)))
  {
    if l.PushCas? {
      WrapIsInjectiveNearby(r.tail, l.pos);
      WrapAdds(l.pos, 1);
    } else {
      WrapIsInjectiveNearby(r.head, l.pos);
      WrapAdds(l.pos, l.n);
    }
  }

  /** So does the shared word that the step writes. */
  lemma EffectWraps(r: Ring, l: Local)
    requires Shape(r) && GoodCap(r.cap) && ThreadOk(r, l) && Fresh(r, l)
    ensures Ring32After(Wrap(r), WrapLocal(l)) == Wrap(Apply(r, EffectOf(r, l)))
  {
    NotAhead(r, l);
    if l.PushFn? || l.PushArg? || l.PushPublish? {
      FillWraps(r, l);
    } else if l.PopRecycle? {
      RecycleWraps(r, l);
    } else if l.PushCas? || l.PopCas? {
      CasWraps(r, l);
    }
  }

  // ---------------------------------------------------------------- whole runs

  datatype State32 = State32(r: Ring32, threads: seq<Local>)

  function Next32(c: State32, i: nat, call: Call): State32
    requires Shape32(c.r) && i < |c.threads|
  {
    State32(Ring32After(c.r, c.threads[i]), c.threads[i := Goto32(c.r, c.threads[i], call)])
  }

  function WrapThreads(ts: seq<Local>): (w: seq<Local>)
    ensures |w| == |ts|
    ensures forall i {:trigger w[i]} :: 0 <= i < |ts| ==> w[i] == WrapLocal(ts[i])
  {
    seq(|ts|, i requires 0 <= i < |ts| => WrapLocal(ts[i]))
  }

  function WrapState(c: State): State32 {
    State32(Wrap(c.r), WrapThreads(c.threads))
  }

  lemma StepWraps(c: State, i: nat, call: Call)
    requires Inv(c) && GoodCap(c.r.cap) && i < |c.threads| && Fresh(c.r, c.threads[i])
    ensures Next32(WrapState(c), i, call) == WrapState(Next(c, i, call))
  {
    var l := c.threads[i];
    assert ThreadOk(c.r, l);
    GotoWraps(c.r, l, call);
    EffectWraps(c.r, l);
    assert WrapThreads(c.threads)[i := WrapLocal(Goto(c.r, l, call))] == WrapThreads(c.threads[i := Goto(c.r, l, call)]);
  }

  ghost predicate Schedule32(c: State32, sched: seq<(nat, Call)>) {
    forall k {:trigger sched[k]} :: 0 <= k < |sched| ==> sched[k].0 < |c.threads|
  }

  ghost function Run32(c: State32, sched: seq<(nat, Call)>): State32
    requires Shape32(c.r) && Schedule32(c, sched)
    decreases |sched|
  {
    if sched == [] then c else
    var c' := Next32(c, sched[0].0, sched[0].1);
    assert Schedule32(c', sched[1..]);
    Run32(c', sched[1..])
  }

  /** Every thread that steps along the run holds a fresh enough position when it does. */
  ghost predicate FreshRun(c: State, sched: seq<(nat, Call)>)
    requires Shape(c.r) && Schedule(c, sched)
    decreases |sched|
  {
    sched == [] ||
    (var c' := Next(c, sched[0].0, sched[0].1);
     Fresh(c.r, c.threads[sched[0].0]) && Schedule(c', sched[1..]) && FreshRun(c', sched[1..]))
  }

  /** The 32-bit ring and the unbounded one stay in step through whole runs. */
  lemma {:induction false} RunWraps(c: State, sched: seq<(nat, Call)>)
    requires Inv(c) && GoodCap(c.r.cap) && Schedule(c, sched) && FreshRun(c, sched)
    ensures Shape32(WrapState(c).r) && Schedule32(WrapState(c), sched)
    ensures Run32(WrapState(c), sched) == WrapState(Run(c, sched))
    decreases |sched|
  {
    if sched != [] {
      NextKeepsInv(c, sched[0].0, sched[0].1);
      StepWraps(c, sched[0].0, sched[0].1);
      RunWraps(Next(c, sched[0].0, sched[0].1), sched[1..]);
    }
  }

  // ---------------------------------------------------------------- the exact limits

  /** A consumer tests for equality only, so a batch scan sees through wrapping exactly when the
      seqno it read is not some whole ranges away from the one it expects. */
  lemma ScanDecisionAgreesExactlyOffTheAlias(r: Ring, max: nat, pos: nat, n: nat)
    requires Shape(r) && GoodCap(r.cap) && n < max
    ensures var d := At(r, pos + n).seqno - (pos + n + 1);
      Goto32(Wrap(r), PopSeq(max, W(pos), n), Pop(0)) == WrapLocal(Goto(r, PopSeq(max, pos, n), Pop(0)))
      <==> d == 0 || d % TWO32 != 0
  {
    hide Words32.W, Words32.Dif32, Slots.Slot;
    WrapAdds(pos, n);
    WrapAdds(pos, n + 1);
    WrappedCell(r, pos + n);
    SameWord(At(r, pos + n).seqno, pos + n + 1);
    ZeroDif(At(r, pos + n).seqno, pos + n + 1);
  }

  /** A producer's full / free / retry decision survives wrapping exactly when the seqno it read is
      not ahead of its position, or ahead by less than 2^31 over whole ranges. */
  lemma PushDecisionAgreesExactlyBelowHalf(r: Ring, t: Task, pos: nat)
    requires Shape(r) && Window(r) && GoodCap(r.cap) && pos <= r.tail
    ensures var d := At(r, pos).seqno - pos;
      Goto32(Wrap(r), PushSeq(t, W(pos)), Pop(0)) == WrapLocal(Goto(r, PushSeq(t, pos), Pop(0)))
      <==> d <= 0 || 0 < d % TWO32 < TWO31
  {
    hide Words32.W, Words32.Dif32, Slots.Slot;
    if At(r, pos).seqno < pos {
      PushSeqWraps(r, t, pos);
    } else {
      WrappedCell(r, pos);
      SignTest(At(r, pos).seqno, pos);
    }
  }
}
