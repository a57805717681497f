/** The generic ring as the program runs it: 32-bit positions, modular additions, the sign of a
    32-bit difference in push_mp and pop_mc, and the equality tests of peek. It takes the same steps
    as PeekRing, position for position, as long as no thread sleeps too long on a position it has
    loaded: half of the 32-bit range before a sign test, all of it before an equality test. */
module WrapPeek {
  import opened Slots
  import opened Words32
  import opened PeekRing

  /** No history here: just the words of the program. */
  datatype Ring32 = Ring32(cap: nat, width: nat, head: nat, tail: nat,
                           seqno: seq<nat>, guard: seq<int>, items: seq<Item>)

  predicate Shape32(r: Ring32) {
    r.cap >= 1 && r.width >= 1 && |r.seqno| == |r.guard| == |r.items| == r.cap
  }

  function Seq32(r: Ring32, p: nat): nat
    requires Shape32(r)
  {
    r.seqno[Slot(r.cap, p)]
  }

  function Guard32(r: Ring32, p: nat): int
    requires Shape32(r)
  {
    r.guard[Slot(r.cap, p)]
  }

  function Item32(r: Ring32, p: nat): Item
    requires Shape32(r)
  {
    r.items[Slot(r.cap, p)]
  }

  function WithGuard(r: Ring32, p: nat, v: int): Ring32
    requires Shape32(r)
  {
    r.(guard := r.guard[Slot(r.cap, p) := v])
  }

  function WithSeq(r: Ring32, p: nat, v: nat): Ring32
    requires Shape32(r)
  {
    r.(seqno := r.seqno[Slot(r.cap, p) := v])
  }

  function Ring32After(r: Ring32, l: Local): Ring32
    requires Shape32(r)
  {
    match l
    case PushCas(_, pos) => if r.tail == pos then r.(tail := W(pos + 1)) else r
    case PushLock(_, pos) => if Guard32(r, pos) == 0 then WithGuard(r, pos, -1) else r
    case PushCopy(x, pos, k) =>
      var cur := Item32(r, pos);
      if k < |x| && k < |cur| then r.(items := r.items[Slot(r.cap, pos) := cur[k := x[k]]]) else r
    case PushUnlock(_, pos) => WithGuard(r, pos, 0)
    case PushPublish(_, pos) => WithSeq(r, pos, W(pos + 1))
    case PopCas(pos) => if r.head == pos then r.(head := W(pos + 1)) else r
    case PopRecycle(pos, _) => WithSeq(r, pos, W(pos + r.cap))
    case PeekLock(_, pos, seen) => if Guard32(r, pos) == seen then WithGuard(r, pos, seen + 1) else r
    case PeekUnlock(_, pos, _, _) => WithGuard(r, pos, Guard32(r, pos) - 1)
    case _ => r
  }

  function Push32(r: Ring32, l: Local): Local
    requires Shape32(r)
  {
    match l
    case PushLoad(x) => PushSeq(x, r.tail)
    case PushSeq(x, pos) =>
      var diff := Dif32(Seq32(r, pos), pos);
      if diff == 0 then PushCas(x, pos) else if diff < 0 then Idle else PushLoad(x)
    case PushCas(x, pos) => if r.tail == pos then PushLock(x, pos) else PushLoad(x)
    case PushLock(x, pos) => if Guard32(r, pos) == 0 then PushCopy(x, pos, 0) else l
    case PushCopy(x, pos, k) => if k + 1 < r.width then PushCopy(x, pos, k + 1) else PushUnlock(x, pos)
    case PushUnlock(x, pos) => PushPublish(x, pos)
    case _ => Idle
  }

  function Pop32(r: Ring32, l: Local): Local
    requires Shape32(r)
  {
    match l
    case PopLoad => PopSeq(r.head)
    case PopSeq(pos) =>
      var diff := Dif32(Seq32(r, pos), W(pos + 1));
      if diff == 0 then PopCas(pos) else if diff < 0 then Idle else PopLoad
    case PopCas(pos) => if r.head == pos then PopCopy(pos, []) else PopLoad
    case PopCopy(pos, out) =>
      var out' := out + [Word(Item32(r, pos), |out|)];
      if |out'| < r.width then PopCopy(pos, out') else PopRecycle(pos, out')
    case _ => Idle
  }

  function Peek32(r: Ring32, l: Local): Local
    requires Shape32(r)
  {
    match l
    case PeekLoad(tries) => PeekSeq(tries, r.head)
    case PeekSeq(tries, pos) => if Seq32(r, pos) != W(pos + 1) then Idle else PeekGuard(tries, pos)
    case PeekGuard(tries, pos) => TryLock(tries, pos, Guard32(r, pos))
    case PeekLock(tries, pos, seen) =>
      if Guard32(r, pos) == seen then PeekHead(tries, pos) else TryLock(tries, pos, Guard32(r, pos))
    case PeekHead(tries, pos) => if r.head == pos then PeekSeq2(tries, pos) else PeekUnlock(tries, pos, false, [])
    case PeekSeq2(tries, pos) => if Seq32(r, pos) == W(pos + 1) then PeekCopy(pos, []) else PeekUnlock(tries, pos, false, [])
    case PeekCopy(pos, out) =>
      var out' := out + [Word(Item32(r, pos), |out|)];
      if |out'| < r.width then PeekCopy(pos, out') else PeekUnlock(0, pos, true, out')
    case PeekUnlock(tries, _, ok, _) => if ok then Idle else Retry(tries)
    case _ => Idle
  }

  predicate Pushing(l: Local) {
    l.PushLoad? || l.PushSeq? || l.PushCas? || l.PushLock? || l.PushCopy? || l.PushUnlock? || l.PushPublish?
  }

  predicate Popping(l: Local) {
    l.PopLoad? || l.PopSeq? || l.PopCas? || l.PopCopy? || l.PopRecycle?
  }

  function Goto32(r: Ring32, l: Local, call: Call): Local
    requires Shape32(r)
  {
    if l.Idle? then
      match call
      case Push(x) => if |x| == r.width then PushLoad(x) else Idle
      case Pop => PopLoad
      case Peek => PeekLoad(0)
    else if Pushing(l) then Push32(r, l)
    else if Popping(l) then Pop32(r, l)
    else Peek32(r, l)
  }

  // ---------------------------------------------------------------- the wrapped image

  function WrapWords(s: seq<nat>): (w: seq<nat>)
    ensures |w| == |s|
    ensures forall i {:trigger w[i]} :: 0 <= i < |s| ==> w[i] == W(s[i])
  {
    seq(|s|, i requires 0 <= i < |s| => W(s[i]))
  }

  function Wrap(r: Ring): Ring32 {
    Ring32(r.cap, r.width, W(r.head), W(r.tail), WrapWords(r.seqno), r.guard, r.items)
  }

  function WrapLocal(l: Local): Local {
    match l
    case Idle => l
    case PushLoad(_) => l
    case PopLoad => l
    case PeekLoad(_) => l
    case PushSeq(x, pos) => PushSeq(x, W(pos))
    case PushCas(x, pos) => PushCas(x, W(pos))
    case PushLock(x, pos) => PushLock(x, W(pos))
    case PushCopy(x, pos, k) => PushCopy(x, W(pos), k)
    case PushUnlock(x, pos) => PushUnlock(x, W(pos))
    case PushPublish(x, pos) => PushPublish(x, W(pos))
    case PopSeq(pos) => PopSeq(W(pos))
    case PopCas(pos) => PopCas(W(pos))
    case PopCopy(pos, out) => PopCopy(W(pos), out)
    case PopRecycle(pos, out) => PopRecycle(W(pos), out)
    case PeekSeq(tries, pos) => PeekSeq(tries, W(pos))
    case PeekGuard(tries, pos) => PeekGuard(tries, W(pos))
    case PeekLock(tries, pos, seen) => PeekLock(tries, W(pos), seen)
    case PeekHead(tries, pos) => PeekHead(tries, W(pos))
    case PeekSeq2(tries, pos) => PeekSeq2(tries, W(pos))
    case PeekCopy(pos, out) => PeekCopy(W(pos), out)
    case PeekUnlock(tries, pos, ok, out) => PeekUnlock(tries, W(pos), ok, out)
  }

  lemma WrappedWords(r: Ring, p: nat)
    requires Shape(r) && GoodCap(r.cap)
    ensures Seq32(Wrap(r), W(p)) == W(SeqAt(r, p))
    ensures Guard32(Wrap(r), W(p)) == GuardAt(r, p) && Item32(Wrap(r), W(p)) == ItemAt(r, p)
  {
    WrapKeepsSlot(r.cap, p);
  }

  lemma WrappedSeq(r: Ring, p: nat, v: nat)
    requires Shape(r) && GoodCap(r.cap)
    ensures WithSeq(Wrap(r), W(p), W(v)) == Wrap(r.(seqno := r.seqno[Slot(r.cap, p) := v]))
  {
    WrapKeepsSlot(r.cap, p);
    assert WrapWords(r.seqno)[Slot(r.cap, p) := W(v)] == WrapWords(r.seqno[Slot(r.cap, p) := v]);
  }

  // ---------------------------------------------------------------- how far positions drift

  /** How far the position a thread holds has fallen behind. */
  function Staleness(r: Ring, l: Local): int {
    match l
    case PushSeq(_, pos) => r.tail - pos
    case PushCas(_, pos) => r.tail - pos
    case PopSeq(pos) => r.head - pos
    case PopCas(pos) => r.head - pos
    case PeekSeq(_, pos) => r.head - pos
    case PeekHead(_, pos) => r.head - pos
    case PeekSeq2(_, pos) => r.head - pos
    case _ => 0
  }

  /** Recent enough for the comparison the thread is about to make: a sign test needs half of the
      range, an equality test and a CAS all of it but a lap. */
  predicate Fresh(r: Ring, l: Local) {
    if l.PushSeq? || l.PopSeq? then Staleness(r, l) <= TWO31 - r.cap
    else if l.PeekSeq? || l.PeekSeq2? then Staleness(r, l) <= TWO32 - r.cap
    else Staleness(r, l) < TWO32
  }

  lemma {:induction false} SeqnoBelow(r: Ring, p: nat)
    requires Shape(r) && Window(r) && p < r.head + r.cap
    ensures SeqAt(r, p) <= r.head + r.cap && SeqAt(r, p) < r.tail + r.cap
    decreases r.head + r.cap - p
  {
    if p < r.head {
      NextLap(r.cap, p);
      SeqnoBelow(r, p + r.cap);
    } else {
      assert r.seqno[Slot(r.cap, p)] <= p + 1;
    }
  }

  lemma SeqnoAbove(r: Ring, p: nat)
    requires Shape(r) && Window(r) && p <= r.tail
    ensures SeqAt(r, p) >= p - r.cap
  {
    if p < r.tail {
      PassedPositionIsReserved(r, p);
    } else {
      NextLap(r.cap, r.head);
    }
  }

  /** The seqno of a stale position is at most a lap past the staleness away. */
  lemma PushSeqIsNear(r: Ring, pos: nat)
    requires Shape(r) && Window(r) && pos <= r.tail
    ensures pos <= SeqAt(r, pos) + r.cap && SeqAt(r, pos) < r.tail + r.cap
  {
    SeqnoAbove(r, pos);
    if pos < r.head + r.cap { SeqnoBelow(r, pos); } else { NextLap(r.cap, r.head); SeqnoBelow(r, r.head); }
  }

  lemma PopSeqIsNear(r: Ring, pos: nat)
    requires Shape(r) && Window(r) && pos <= r.head
    ensures pos + 1 <= SeqAt(r, pos) + r.cap && SeqAt(r, pos) <= r.head + r.cap
  {
    if pos < r.head {
      ClaimedWasPublished(r, pos);
    } else if pos < r.tail {
      PassedPositionIsReserved(r, pos);
    } else {
      assert r.seqno[Slot(r.cap, pos)] >= pos - r.cap + 1;
    }
    SeqnoBelow(r, pos);
  }

  // ---------------------------------------------------------------- one step

  lemma PushSeqWraps(r: Ring, x: Item, pos: nat)
    requires Shape(r) && GoodCap(r.cap) && -TWO31 <= SeqAt(r, pos) - pos < TWO31
    ensures Push32(Wrap(r), PushSeq(x, W(pos))) == WrapLocal(Goto(r, PushSeq(x, pos), Pop))
  {
    hide Words32.W, Words32.Dif32, Slots.Slot;
    WrappedWords(r, pos);
    Dif32IsExact(SeqAt(r, pos), pos);
  }

  lemma PopSeqWraps(r: Ring, pos: nat)
    requires Shape(r) && GoodCap(r.cap) && -TWO31 <= SeqAt(r, pos) - (pos + 1) < TWO31
    ensures Pop32(Wrap(r), PopSeq(W(pos))) == WrapLocal(Goto(r, PopSeq(pos), Pop))
  {
    hide Words32.W, Words32.Dif32, Slots.Slot;
    WrappedWords(r, pos);
    WrapAdds(pos, 1);
    Dif32IsExact(SeqAt(r, pos), pos + 1);
  }

  lemma PushGotoWraps(r: Ring, l: Local)
    requires Shape(r) && Window(r) && GoodCap(r.cap) && ThreadOk(r, l) && Fresh(r, l) && Pushing(l)
    ensures Push32(Wrap(r), WrapLocal(l)) == WrapLocal(Goto(r, l, Pop))
  {
    hide Words32.W, Words32.Dif32, Slots.Slot, Window;
    if l.PushSeq? {
      PushSeqIsNear(r, l.pos);
      PushSeqWraps(r, l.x, l.pos);
    } else if l.PushCas? {
      WrapIsInjectiveNearby(r.tail, l.pos);
    } else if !l.PushLoad? {
      WrappedWords(r, l.pos);
    }
  }

  lemma PopGotoWraps(r: Ring, l: Local)
    requires Shape(r) && Window(r) && GoodCap(r.cap) && ThreadOk(r, l) && Fresh(r, l) && Popping(l)
    ensures Pop32(Wrap(r), WrapLocal(l)) == WrapLocal(Goto(r, l, Pop))
  {
    hide Words32.W, Words32.Dif32, Slots.Slot, Window;
    if l.PopSeq? {
      PopSeqIsNear(r, l.pos);
      PopSeqWraps(r, l.pos);
    } else if l.PopCas? {
      WrapIsInjectiveNearby(r.head, l.pos);
    } else if !l.PopLoad? {
      WrappedWords(r, l.pos);
    }
  }

  lemma PeekTestWraps(r: Ring, pos: nat)
    requires Shape(r) && GoodCap(r.cap) && -TWO32 < SeqAt(r, pos) - (pos + 1) < TWO32
    ensures Seq32(Wrap(r), W(pos)) == W(W(pos) + 1) <==> SeqAt(r, pos) == pos + 1
  {
    WrappedWords(r, pos);
    WrapAdds(pos, 1);
    WrapIsInjectiveNearby(SeqAt(r, pos), pos + 1);
  }

  lemma PeekTestGotoWraps(r: Ring, l: Local)
    requires Shape(r) && Window(r) && GoodCap(r.cap) && ThreadOk(r, l) && Fresh(r, l)
    requires l.PeekSeq? || l.PeekSeq2? || l.PeekHead?
    ensures Peek32(Wrap(r), WrapLocal(l)) == WrapLocal(Goto(r, l, Pop))
  {
    hide Words32.W, Words32.Dif32, Slots.Slot, Window;
    if l.PeekHead? {
      WrapIsInjectiveNearby(r.head, l.pos);
    } else {
      PopSeqIsNear(r, l.pos);
      PeekTestWraps(r, l.pos);
    }
  }

  lemma PeekSlotGotoWraps(r: Ring, l: Local)
    requires Shape(r) && GoodCap(r.cap)
    requires l.PeekLoad? || l.PeekGuard? || l.PeekLock? || l.PeekCopy? || l.PeekUnlock?
    ensures Peek32(Wrap(r), WrapLocal(l)) == WrapLocal(Goto(r, l, Pop))
  {
    hide Words32.W, Words32.Dif32, Slots.Slot, Window, TryLock;
    if !l.PeekLoad? { WrappedWords(r, l.pos); }
    if l.PeekGuard? || l.PeekLock? { TryLockWraps(l.tries, l.pos, GuardAt(r, l.pos)); }
  }

  lemma TryLockWraps(tries: nat, pos: nat, seen: int)
    ensures TryLock(tries, W(pos), seen) == WrapLocal(TryLock(tries, pos, seen))
  {
    hide Words32.W;
  }

  /** The decision and the next place of every step coincide. */
  lemma GotoWraps(r: Ring, l: Local, call: Call)
    requires Shape(r) && Window(r) && GoodCap(r.cap) && ThreadOk(r, l) && Fresh(r, l)
    ensures Goto32(Wrap(r), WrapLocal(l), call) == WrapLocal(Goto(r, l, call))
  {
    hide Words32.W, Words32.Dif32, Slots.Slot, Window, Fresh, ThreadOk, Push32, Pop32, Peek32;
    if Pushing(l) {
      PushGotoWraps(r, l);
    } else if Popping(l) {
      PopGotoWraps(r, l);
    } else if l.PeekSeq? || l.PeekSeq2? || l.PeekHead? {
      PeekTestGotoWraps(r, l);
    } else if !l.Idle? {
      PeekSlotGotoWraps(r, l);
    }
  }

  lemma CasWraps(r: Ring, l: Local)
    requires Shape(r) && GoodCap(r.cap) && 0 <= Staleness(r, l) < TWO32 && (l.PushCas? || l.PopCas?)
    ensures Ring32After(Wrap(r), WrapLocal(l)) == Wrap(Apply(r, EffectOf(r, l)))
  {
    hide Words32.W, Slots.Slot;
    WrapIsInjectiveNearby(if l.PushCas? then r.tail else r.head, l.pos);
    WrapAdds(l.pos, 1);
  }

  lemma SeqnoStoreWraps(r: Ring, l: Local)
    requires Shape(r) && GoodCap(r.cap) && (l.PushPublish? || l.PopRecycle?)
    ensures Ring32After(Wrap(r), WrapLocal(l)) == Wrap(Apply(r, EffectOf(r, l)))
  {
    hide Words32.W, Slots.Slot;
    var lap := if l.PushPublish? then 1 else r.cap;
    WrapAdds(l.pos, lap);
    WrappedSeq(r, l.pos, l.pos + lap);
  }

  lemma SlotStoreWraps(r: Ring, l: Local)
    requires Shape(r) && GoodCap(r.cap)
    requires l.PushLock? || l.PushCopy? || l.PushUnlock? || l.PeekLock? || l.PeekUnlock?
    ensures Ring32After(Wrap(r), WrapLocal(l)) == Wrap(Apply(r, EffectOf(r, l)))
  {
    hide Words32.W, Slots.Slot;
    WrapKeepsSlot(r.cap, l.pos);
  }

  /** So does the shared word that the step writes. */
  lemma EffectWraps(r: Ring, l: Local)
    requires Shape(r) && GoodCap(r.cap) && ThreadOk(r, l) && Fresh(r, l)
    ensures Ring32After(Wrap(r), WrapLocal(l)) == Wrap(Apply(r, EffectOf(r, l)))
  {
    hide Words32.W, Slots.Slot;
    if l.PushCas? || l.PopCas? {
      CasWraps(r, l);
    } else if l.PushPublish? || l.PopRecycle? {
      SeqnoStoreWraps(r, l);
    } else if l.PushLock? || l.PushCopy? || l.PushUnlock? || l.PeekLock? || l.PeekUnlock? {
      SlotStoreWraps(r, l);
    }
  }

  // ---------------------------------------------------------------- whole runs

  datatype State32 = State32(r: Ring32, threads: seq<Local>)

  function Next32(c: State32, i: nat, call: Call): State32
    requires Shape32(c.r) && i < |c.threads|
  {
    State32(Ring32After(c.r, c.threads[i]), c.threads[i := Goto32(c.r, c.threads[i], call)])
  }

  function WrapThreads(ts: seq<Local>): (w: seq<Local>)
    ensures |w| == |ts|
    ensures forall i {:trigger w[i]} :: 0 <= i < |ts| ==> w[i] == WrapLocal(ts[i])
  {
    seq(|ts|, i requires 0 <= i < |ts| => WrapLocal(ts[i]))
  }

  function WrapState(c: State): State32 {
    State32(Wrap(c.r), WrapThreads(c.threads))
  }

  lemma StepWraps(c: State, i: nat, call: Call)
    requires Inv(c) && GoodCap(c.r.cap) && i < |c.threads| && Fresh(c.r, c.threads[i])
    ensures Next32(WrapState(c), i, call) == WrapState(Next(c, i, call))
  {
    hide Words32.W, Slots.Slot, Window, ThreadOk, Goto, Goto32, Guarded, Exclusive;
    var l := c.threads[i];
    assert ThreadOk(c.r, l);
    GotoWraps(c.r, l, call);
    EffectWraps(c.r, l);
    assert WrapThreads(c.threads)[i := WrapLocal(Goto(c.r, l, call))] == WrapThreads(c.threads[i := Goto(c.r, l, call)]);
  }

  ghost predicate Schedule32(c: State32, sched: seq<(nat, Call)>) {
    forall k {:trigger sched[k]} :: 0 <= k < |sched| ==> sched[k].0 < |c.threads|
  }

  ghost function Run32(c: State32, sched: seq<(nat, Call)>): State32
    requires Shape32(c.r) && Schedule32(c, sched)
    decreases |sched|
  {
    if sched == [] then c else
    var c' := Next32(c, sched[0].0, sched[0].1);
    assert Schedule32(c', sched[1..]);
    Run32(c', sched[1..])
  }

  /** Every thread that steps along the run holds a fresh enough position when it does. */
  ghost predicate FreshRun(c: State, sched: seq<(nat, Call)>)
    requires Shape(c.r) && Schedule(c, sched)
    decreases |sched|
  {
    sched == [] ||
    (var c' := Next(c, sched[0].0, sched[0].1);
     Fresh(c.r, c.threads[sched[0].0]) && Schedule(c', sched[1..]) && FreshRun(c', sched[1..]))
  }

  /** The 32-bit ring and the unbounded one stay in step through whole runs. */
  lemma {:induction false} RunWraps(c: State, sched: seq<(nat, Call)>)
    requires Inv(c) && GoodCap(c.r.cap) && Schedule(c, sched) && FreshRun(c, sched)
    ensures Shape32(WrapState(c).r) && Schedule32(WrapState(c), sched)
    ensures Run32(WrapState(c), sched) == WrapState(Run(c, sched))
    decreases |sched|
  {
    hide Words32.W, Window, ThreadOk, Goto, Goto32, Guarded, Exclusive, Ring32After;
    if sched != [] {
      NextKeepsInv(c, sched[0].0, sched[0].1);
      StepWraps(c, sched[0].0, sched[0].1);
      RunWraps(Next(c, sched[0].0, sched[0].1), sched[1..]);
    }
  }

  // ---------------------------------------------------------------- what callers of the program see

  /** On the words of the program, over every fresh run: a finished pop and a successful peek hold,
      whole, an item that was pushed at a position with the word they were working on. */
  lemma WholeItemsOnWords(c: State, sched: seq<(nat, Call)>, i: nat)
    requires Init(c) && GoodCap(c.r.cap) && Schedule(c, sched) && FreshRun(c, sched) && i < |c.threads|
    ensures Shape32(WrapState(c).r) && Schedule32(WrapState(c), sched)
    ensures var e, d := Run32(WrapState(c), sched), Run(c, sched);
      && i < |e.threads|
      && (var l := e.threads[i];
          l.PopRecycle? || (l.PeekUnlock? && l.ok) ==>
            exists p: nat {:trigger W(p)} :: p < |d.r.log| && l.pos == W(p) && l.out == d.r.log[p])
  {
    hide Words32.W, Goto, Goto32, Ring32After, Run, Run32;
    InitInv(c);
    RunWraps(c, sched);
    PeekAndPopReturnWholeItems(c, sched, i);
    var l := Run(c, sched).threads[i];
    if l.PopRecycle? || l.PeekUnlock? { assert WrapLocal(l).pos == W(l.pos); }
  }

  /** pop_mc, on its 32-bit words and from wherever it is, ends with an item or, when the slot of the
      head word does not show a published item, with nothing. */
  lemma PopFailsOnlyWhenNothingPublishedOnWords(c: State, i: nat, call: Call)
    requires Inv(c) && GoodCap(c.r.cap) && i < |c.threads| && InPop(c.threads[i]) && Fresh(c.r, c.threads[i])
    ensures var e := WrapState(c); var n := Next32(e, i, call);
      !InPop(n.threads[i]) ==>
        && n.threads[i] == Idle
        && (e.threads[i].PopRecycle? || (n.r == e.r && Seq32(e.r, e.r.head) != W(e.r.head + 1)))
  {
    hide Words32.W, Words32.Dif32, Slots.Slot, Window, ThreadOk, Guarded, Exclusive, Goto32, Ring32After;
    StepWraps(c, i, call);
    PopFailsOnlyWhenNothingPublished(c, i, call);
    HeadIsNear(c);
    PeekTestWraps(c.r, c.r.head);
  }

  lemma HeadIsNear(c: State)
    requires Inv(c) && c.r.cap <= 0x4000_0000
    ensures -TWO32 < SeqAt(c.r, c.r.head) - (c.r.head + 1) < TWO32
  {
    PopSeqIsNear(c.r, c.r.head);
  }

  /** push_mp, on its 32-bit words and from wherever it is, ends by publishing or, when the slot of
      the tail word shows a position of the previous lap, without a trace. */
  lemma PushFailsOnlyWhenFullOnWords(c: State, i: nat, call: Call)
    requires Inv(c) && GoodCap(c.r.cap) && i < |c.threads| && InPush(c.threads[i]) && Fresh(c.r, c.threads[i])
    ensures var e := WrapState(c); var n := Next32(e, i, call);
      !InPush(n.threads[i]) ==>
        && n.threads[i] == Idle
        && (e.threads[i].PushPublish?
            || (n.r == e.r && c.r.tail >= c.r.cap
                && (Seq32(e.r, e.r.tail) == W(c.r.tail - c.r.cap) || Seq32(e.r, e.r.tail) == W(c.r.tail - c.r.cap + 1))))
  {
    hide Words32.W, Words32.Dif32, Slots.Slot, Window, ThreadOk, Guarded, Exclusive, Goto32, Ring32After;
    StepWraps(c, i, call);
    PushFailsOnlyWhenFull(c, i, call);
    WrappedWords(c.r, c.r.tail);
  }

  /** The word a peek finds unchanged in head is that of the true head, and what it then copies from
      is the item pushed at that position. */
  lemma PeekedWordWasHead(c: State, i: nat, call: Call)
    requires Inv(c) && GoodCap(c.r.cap) && i < |c.threads| && Fresh(c.r, c.threads[i])
    requires c.threads[i].PeekHead? || c.threads[i].PeekSeq2?
    ensures var e, pos := WrapState(c), c.threads[i].pos;
      var l' := Next32(e, i, call).threads[i];
      && (l'.PeekSeq2? ==> pos == c.r.head && l'.pos == e.r.head)
      && (l'.PeekCopy? ==>
            && pos < c.r.tail && SeqAt(c.r, pos) == pos + 1 && pos < |c.r.log|
            && l'.pos == W(pos) && Item32(e.r, l'.pos) == c.r.log[pos])
  {
    hide Words32.W, Words32.Dif32, Slots.Slot, Guarded, Exclusive, Goto32, Ring32After, Fresh, Apply, EffectOf;
    StepWraps(c, i, call);
    PeekedPositionWasHead(c, i, call);
    WrappedWords(c.r, c.threads[i].pos);
  }

  // ---------------------------------------------------------------- the exact limits

  /** push_mp's full / free / retry decision survives wrapping exactly when the seqno it read is not
      ahead of its position, or ahead by less than 2^31 over whole ranges. */
  lemma PushDecisionAgreesExactlyBelowHalf(r: Ring, x: Item, pos: nat)
    requires Shape(r) && Window(r) && GoodCap(r.cap) && pos <= r.tail
    ensures var d := SeqAt(r, pos) - pos;
      Push32(Wrap(r), PushSeq(x, W(pos))) == WrapLocal(Goto(r, PushSeq(x, pos), Pop))
      <==> d <= 0 || 0 < d % TWO32 < TWO31
  {
    hide Words32.W, Words32.Dif32, Slots.Slot, Window;
    if SeqAt(r, pos) < pos {
      PushSeqIsNear(r, pos);
      PushSeqWraps(r, x, pos);
    } else {
      WrappedWords(r, pos);
      SignTest(SeqAt(r, pos), pos);
    }
  }

  /** pop_mc's, with the seqno it expects in the place of its position. */
  lemma PopDecisionAgreesExactlyBelowHalf(r: Ring, pos: nat)
    requires Shape(r) && Window(r) && GoodCap(r.cap) && pos <= r.head
    ensures var d := SeqAt(r, pos) - (pos + 1);
      Pop32(Wrap(r), PopSeq(W(pos))) == WrapLocal(Goto(r, PopSeq(pos), Pop))
      <==> d <= 0 || 0 < d % TWO32 < TWO31
  {
    hide Words32.W, Words32.Dif32, Slots.Slot, Window;
    if SeqAt(r, pos) < pos + 1 {
      PopSeqIsNear(r, pos);
      PopSeqWraps(r, pos);
    } else {
      WrappedWords(r, pos);
      WrapAdds(pos, 1);
      SignTest(SeqAt(r, pos), pos + 1);
    }
  }

  /** Peek tests for equality only: both seqno tests survive wrapping exactly when the seqno is not
      some whole ranges away from the one expected. */
  lemma PeekTestsAgreeExactlyOffTheAlias(r: Ring, tries: nat, pos: nat)
    requires Shape(r) && GoodCap(r.cap)
    ensures var d := SeqAt(r, pos) - (pos + 1);
      && (Peek32(Wrap(r), PeekSeq(tries, W(pos))) == WrapLocal(Goto(r, PeekSeq(tries, pos), Pop))
          <==> d == 0 || d % TWO32 != 0)
      && (Peek32(Wrap(r), PeekSeq2(tries, W(pos))) == WrapLocal(Goto(r, PeekSeq2(tries, pos), Pop))
          <==> d == 0 || d % TWO32 != 0)
  {
    hide Words32.W, Words32.Dif32, Slots.Slot;
    WrappedWords(r, pos);
    WrapAdds(pos, 1);
    SameWord(SeqAt(r, pos), pos + 1);
  }

  /** And its second look at the head exactly when the head has not moved by whole ranges. */
  lemma PeekHeadAgreesExactlyOffTheAlias(r: Ring, tries: nat, pos: nat)
    requires Shape(r)
    ensures Peek32(Wrap(r), PeekHead(tries, W(pos))) == WrapLocal(Goto(r, PeekHead(tries, pos), Pop))
       <==> r.head == pos || (r.head - pos) % TWO32 != 0
  {
    hide Words32.W, Words32.Dif32, Slots.Slot;
    SameWord(r.head, pos);
  }
}
