/** Where the tasks of the pool are: every task ever submitted is at each moment in exactly one
    place, is started at most once, and is counted exactly while it is outstanding. */
module PoolTasks {
  import opened RingSpec
  import DequeSpec
  import Accounting
  import opened PoolModel
  import opened PoolControl

  // ---------------------------------------------------------------- what a worker can hold where

  /** A task is in transit in the worker's hand. */
  predicate HandFull(pc: PC) {
    match pc
    case SpinEnd(found) => found
    case ChainBack(_) => true
    case ChainFront(_, _) => true
    case Unpark1(found) => found
    case Unpark2(found) => found
    case Start => true
    case Count => true
    case Place => true
    case Spill => true
    case Waking(_, start) => start
    case _ => false
  }

  /** A task is running on the worker (Start may or may not be nested). */
  predicate InTask(pc: PC) {
    match pc
    case Body => true
    case Count => true
    case Place => true
    case Spill => true
    case Waking(_, start) => !start
    case Dec1 => true
    case Dec2(_) => true
    case _ => false
  }

  /** Reached only through a try that found nothing, and before the next one. */
  predicate Idle(pc: PC) {
    match pc
    case Prepare => true
    case SpinStart => true
    case SpinEnd(found) => !found
    case Announce1 => true
    case Announce2 => true
    case Sleep => true
    case Woke => true
    case Unpark1(found) => !found
    case Unpark2(found) => !found
    case Elastic0 => true
    case Elastic1 => true
    case Elastic2 => true
    case Elastic3 => true
    case _ => false
  }

  predicate PastOwn(ph: Phase) {
    !ph.Lifo? && !ph.Own?
  }

  predicate PastBuffer(ph: Phase) {
    PastOwn(ph) && !ph.Buffer?
  }

  predicate HoldsNothing(d: Dat) {
    d.lifo.None? && d.deque == [] && d.pend == []
  }

  predicate DatOk(pc: PC, d: Dat) {
    && (d.hand.Some? <==> HandFull(pc))
    && (InTask(pc) ==> d.stack != [])
    && (!InTask(pc) && pc != Start ==> d.stack == [])
    && (Idle(pc) ==> HoldsNothing(d))
    && (pc.Try? && PastOwn(pc.ph) ==> d.deque == [])
    && (pc.Try? && PastBuffer(pc.ph) ==> d.pend == [])
    && (pc == Spill ==> d.lifo.Some?)
  }

  ghost predicate DatInv(g: Config, st: State) {
    && Shape(g, st)
    && (forall w {:trigger st.dat[w]} :: 0 <= w < g.nTotal ==> DatOk(st.ctl[w].pc, st.dat[w]))
    && (forall w {:trigger st.ctl[w]} :: 0 <= w < g.nTotal && st.ctl[w].pc.Dec2? ==>
          st.ctl[w].pc.v == st.ledger.ctrs[g.nShards + w])
  }

  lemma TryKeepsOwnDat(g: Config, st: State, w: nat, pick: Pick)
    requires Shape(g, st) && w < g.nTotal && st.ctl[w].pc.Try? && WorkerOk(g, st.rings, w, st.ctl[w])
    requires DatOk(st.ctl[w].pc, st.dat[w])
    ensures var a := TryAct(g, st, w, pick); DatOk(a.next, DatAfter(st, w, a)[w])
  {
    TryActOk(g, st, w, pick);
  }

  predicate Runs(pc: PC) {
    pc.Start? || pc.Body? || pc.Count? || pc.Place? || pc.Spill? || pc.Dec1? || pc.Dec2?
  }

  lemma RunKeepsOwnDat(g: Config, st: State, w: nat, pick: Pick)
    requires Shape(g, st) && w < g.nTotal && Runs(st.ctl[w].pc) && DatOk(st.ctl[w].pc, st.dat[w])
    ensures var a := ActOf(g, st, w, pick); DatOk(a.next, DatAfter(st, w, a)[w])
  {
    if st.ctl[w].pc.Place? || st.ctl[w].pc.Spill? || st.ctl[w].pc.Count? {
      SubmitKeepsOwnDat(g, st, w, pick);
    } else {
      BodyKeepsOwnDat(g, st, w, pick);
    }
  }

  lemma SubmitKeepsOwnDat(g: Config, st: State, w: nat, pick: Pick)
    requires Shape(g, st) && w < g.nTotal && DatOk(st.ctl[w].pc, st.dat[w])
    requires st.ctl[w].pc.Place? || st.ctl[w].pc.Spill? || st.ctl[w].pc.Count?
    ensures var a := ActOf(g, st, w, pick); DatOk(a.next, DatAfter(st, w, a)[w])
  {
  }

  lemma BodyKeepsOwnDat(g: Config, st: State, w: nat, pick: Pick)
    requires Shape(g, st) && w < g.nTotal && DatOk(st.ctl[w].pc, st.dat[w])
    requires st.ctl[w].pc.Start? || st.ctl[w].pc.Body? || st.ctl[w].pc.Dec1? || st.ctl[w].pc.Dec2?
    ensures var a := ActOf(g, st, w, pick); DatOk(a.next, DatAfter(st, w, a)[w])
  {
  }

  lemma WakingKeepsOwnDat(g: Config, st: State, w: nat, pick: Pick)
    requires Shape(g, st) && w < g.nTotal && st.ctl[w].pc.Waking? && DatOk(st.ctl[w].pc, st.dat[w])
    ensures var a := ActOf(g, st, w, pick); DatOk(a.next, DatAfter(st, w, a)[w])
  {
    var a := ActOf(g, st, w, pick);
    assert DatAfter(st, w, a) == st.dat;
  }

  lemma ParkKeepsOwnDat(g: Config, st: State, w: nat, pick: Pick)
    requires Shape(g, st) && w < g.nTotal && DatOk(st.ctl[w].pc, st.dat[w])
    requires !st.ctl[w].pc.Try? && !st.ctl[w].pc.Waking? && !Runs(st.ctl[w].pc)
    ensures var a := ActOf(g, st, w, pick); DatOk(a.next, DatAfter(st, w, a)[w])
  {
    var a := ActOf(g, st, w, pick);
    assert DatAfter(st, w, a) == st.dat;
  }

  lemma OtherKeepsOwnDat(g: Config, st: State, w: nat, pick: Pick)
    requires Shape(g, st) && w < g.nTotal && !st.ctl[w].pc.Try? && DatOk(st.ctl[w].pc, st.dat[w])
    ensures var a := ActOf(g, st, w, pick); DatOk(a.next, DatAfter(st, w, a)[w])
  {
    if Runs(st.ctl[w].pc) {
      RunKeepsOwnDat(g, st, w, pick);
    } else if st.ctl[w].pc.Waking? {
      WakingKeepsOwnDat(g, st, w, pick);
    } else {
      ParkKeepsOwnDat(g, st, w, pick);
    }
  }

  /** A step of worker `w` leaves another worker's things alone, except that it may steal the
      front of its deque. */
  lemma DatOfOthers(g: Config, st: State, w: nat, pick: Pick, v: nat)
    requires Shape(g, st) && w < g.nTotal && v < g.nTotal && v != w
    ensures var d, d' := st.dat[v], WorkerNext(g, st, w, pick).dat[v];
      d' == d || (d.deque != [] && d' == d.(deque := d.deque[1..]))
  {
  }

  lemma WorkerKeepsDat(g: Config, st: State, w: nat, pick: Pick)
    requires CtlInv(g, st) && DatInv(g, st) && w < g.nTotal
    ensures DatInv(g, WorkerNext(g, st, w, pick))
  {
    var st' := WorkerNext(g, st, w, pick);
    assert WorkerOk(g, st.rings, w, st.ctl[w]);
    forall v | 0 <= v < g.nTotal ensures DatOk(st'.ctl[v].pc, st'.dat[v]) {
      assert DatOk(st.ctl[v].pc, st.dat[v]);
      if v != w {
        DatOfOthers(g, st, w, pick, v);
        OtherWorkerOk(g, st, w, pick, v);
      } else if st.ctl[w].pc.Try? {
        TryKeepsOwnDat(g, st, w, pick);
      } else {
        OtherKeepsOwnDat(g, st, w, pick);
      }
    }
    forall v | 0 <= v < g.nTotal && st'.ctl[v].pc.Dec2?
      ensures st'.ctl[v].pc.v == st'.ledger.ctrs[g.nShards + v]
    {
      CtrsOfOthers(g, st, w, pick, v);
    }
  }

  /** Only worker w writes the counter of worker w. */
  lemma CtrsOfOthers(g: Config, st: State, w: nat, pick: Pick, v: nat)
    requires CtlInv(g, st) && DatInv(g, st) && w < g.nTotal && v < g.nTotal
    ensures var st' := WorkerNext(g, st, w, pick);
      st'.ctl[v].pc.Dec2? ==> st'.ctl[v].pc.v == st'.ledger.ctrs[g.nShards + v]
  {
    var st' := WorkerNext(g, st, w, pick);
    if v != w {
      OtherWorkerOk(g, st, w, pick, v);
    } else if st.ctl[w].pc.Try? {
      TryNeverCounts(g, st, w, pick);
    }
  }

  lemma TryNeverCounts(g: Config, st: State, w: nat, pick: Pick)
    requires Shape(g, st) && w < g.nTotal && st.ctl[w].pc.Try?
    ensures !TryAct(g, st, w, pick).next.Dec2?
  {
  }

  lemma ExtKeepsDat(g: Config, st: State, x: nat, pick: Pick)
    requires DatInv(g, st) && x < |st.ext|
    ensures DatInv(g, ExtNext(g, st, x, pick))
  {
    var st' := ExtNext(g, st, x, pick);
    ExtKeepsPCs(g, st, x, pick);
    assert st'.dat == st.dat;
    assert forall i | g.nShards <= i < g.nShards + g.nTotal :: st'.ledger.ctrs[i] == st.ledger.ctrs[i];
  }

  // ---------------------------------------------------------------- every task has one place

  function Bag1(o: Option<Task>): multiset<Task> {
    match o case None => multiset{} case Some(t) => multiset{t}
  }

  /** The tasks actually found at a place. */
  function Bag(st: State, pl: Place): multiset<Task> {
    match pl
    case InShard(s) =>
      if s < |st.rings| && st.rings[s].head <= |st.rings[s].log| then multiset(st.rings[s].log[st.rings[s].head..]) else multiset{}
    case InBuffer(w) => if w < |st.dat| then multiset(st.dat[w].pend) else multiset{}
    case InDeque(w) => if w < |st.dat| then multiset(st.dat[w].deque) else multiset{}
    case InLifo(w) => if w < |st.dat| then Bag1(st.dat[w].lifo) else multiset{}
    case InHand(w) => if w < |st.dat| then Bag1(st.dat[w].hand) else multiset{}
    case Running(w) => if w < |st.dat| then multiset(st.dat[w].stack) else multiset{}
    case AtSubmitter(x) => if x < |st.extHand| then Bag1(st.extHand[x]) else multiset{}
    case Done => st.done
  }

  /** The places agree with the history: task t is found once where `place` says, nowhere else. */
  ghost predicate Placed(st: State) {
    forall pl: Place, t: Task {:trigger Bag(st, pl)[t]} ::
      Bag(st, pl)[t] == if t < |st.place| && st.place[t] == pl then 1 else 0
  }

  /** Started once if running or done, not at all before. */
  ghost predicate StartedOnce(st: State) {
    forall t: Task {:trigger st.started[t]} ::
      st.started[t] == if t < |st.place| && (st.place[t].Running? || st.place[t].Done?) then 1 else 0
  }

  ghost predicate Transfer(st: State, st': State, t0: Task, from: Place, to: Place) {
    && from != to
    && t0 in Bag(st, from)
    && Bag(st', from) == Bag(st, from) - multiset{t0}
    && Bag(st', to) == Bag(st, to) + multiset{t0}
    && (forall pl {:trigger Bag(st', pl)} :: pl != from && pl != to ==> Bag(st', pl) == Bag(st, pl))
    && st'.place == Moved(st.place, t0, to)
  }

  lemma TransferKeepsPlaced(st: State, st': State, t0: Task, from: Place, to: Place)
    requires Placed(st) && Transfer(st, st', t0, from, to)
    ensures Placed(st') && t0 < |st.place| && st.place[t0] == from
  {
    hide Bag;
    assert Bag(st, from)[t0] >= 1;
    assert Bag(st, from)[t0] == if t0 < |st.place| && st.place[t0] == from then 1 else 0;
    forall pl: Place, t: Task
      ensures Bag(st', pl)[t] == if t < |st'.place| && st'.place[t] == pl then 1 else 0
    {
      assert Bag(st, pl)[t] == if t < |st.place| && st.place[t] == pl then 1 else 0;
    }
  }

  // ---------------------------------------------------------------- moves of one worker

  predicate OnlyDat(st: State, st': State, w: nat, d': Dat) {
    && w < |st.dat| && st'.dat == st.dat[w := d']
    && st'.rings == st.rings && st'.extHand == st.extHand
  }

  predicate Concerns(pl: Place, w: nat) {
    pl == InBuffer(w) || pl == InDeque(w) || pl == InLifo(w) || pl == InHand(w) || pl == Running(w)
  }

  /** Changing what one worker holds changes no other bag. */
  lemma OtherBags(st: State, st': State, w: nat, d': Dat, pl: Place)
    requires OnlyDat(st, st', w, d') && !Concerns(pl, w) && pl != Done
    ensures Bag(st', pl) == Bag(st, pl)
  {
  }

  lemma OnlyTwoBags(st: State, st': State, w: nat, d': Dat, from: Place, to: Place)
    requires OnlyDat(st, st', w, d') && st'.done == st.done
    requires forall pl :: Concerns(pl, w) && pl != from && pl != to ==> Bag(st', pl) == Bag(st, pl)
    ensures forall pl {:trigger Bag(st', pl)} :: pl != from && pl != to ==> Bag(st', pl) == Bag(st, pl)
  {
    forall pl {:trigger Bag(st', pl)} | pl != from && pl != to ensures Bag(st', pl) == Bag(st, pl) {
      if !Concerns(pl, w) && pl != Done { OtherBags(st, st', w, d', pl); }
    }
  }

  lemma BagsOfWorker(st: State, w: nat)
    requires w < |st.dat|
    ensures var d := st.dat[w];
      && Bag(st, InBuffer(w)) == multiset(d.pend) && Bag(st, InDeque(w)) == multiset(d.deque)
      && Bag(st, InLifo(w)) == Bag1(d.lifo) && Bag(st, InHand(w)) == Bag1(d.hand)
      && Bag(st, Running(w)) == multiset(d.stack)
  {
  }

  lemma LifoToHand(st: State, st': State, w: nat, d': Dat)
    requires OnlyDat(st, st', w, d') && st.dat[w].lifo.Some? && st.dat[w].hand.None?
    requires d'.lifo.None? && d'.hand == st.dat[w].lifo
    requires d'.deque == st.dat[w].deque && d'.pend == st.dat[w].pend && d'.stack == st.dat[w].stack
    requires st'.done == st.done && st'.place == Moved(st.place, st.dat[w].lifo.value, InHand(w))
    ensures Transfer(st, st', st.dat[w].lifo.value, InLifo(w), InHand(w))
  {
    hide Bag;
    BagsOfWorker(st, w);
    BagsOfWorker(st', w);
    OnlyTwoBags(st, st', w, d', InLifo(w), InHand(w));
  }

  lemma MultisetEnds(s: seq<Task>)
    requires s != []
    ensures multiset(s[..|s| - 1]) == multiset(s) - multiset{s[|s| - 1]}
    ensures multiset(s[1..]) == multiset(s) - multiset{s[0]}
    ensures s[|s| - 1] in multiset(s) && s[0] in multiset(s)
  {
    assert s == s[..|s| - 1] + [s[|s| - 1]];
    assert s == [s[0]] + s[1..];
  }

  lemma DequeToHand(st: State, st': State, w: nat, d': Dat, t: Task)
    requires OnlyDat(st, st', w, d') && st.dat[w].hand.None?
    requires st.dat[w].deque == d'.deque + [t] && d'.hand == Some(t)
    requires d'.lifo == st.dat[w].lifo && d'.pend == st.dat[w].pend && d'.stack == st.dat[w].stack
    requires st'.done == st.done && st'.place == Moved(st.place, t, InHand(w))
    ensures Transfer(st, st', t, InDeque(w), InHand(w))
  {
    hide Bag;
    BagsOfWorker(st, w);
    BagsOfWorker(st', w);
    OnlyTwoBags(st, st', w, d', InDeque(w), InHand(w));
  }

  lemma BufferToHand(st: State, st': State, w: nat, d': Dat, t: Task)
    requires OnlyDat(st, st', w, d') && st.dat[w].hand.None?
    requires st.dat[w].pend == [t] + d'.pend && d'.hand == Some(t)
    requires d'.lifo == st.dat[w].lifo && d'.deque == st.dat[w].deque && d'.stack == st.dat[w].stack
    requires st'.done == st.done && st'.place == Moved(st.place, t, InHand(w))
    ensures Transfer(st, st', t, InBuffer(w), InHand(w))
  {
    hide Bag;
    BagsOfWorker(st, w);
    BagsOfWorker(st', w);
    OnlyTwoBags(st, st', w, d', InBuffer(w), InHand(w));
  }

  lemma HandToStack(st: State, st': State, w: nat, d': Dat)
    requires OnlyDat(st, st', w, d') && st.dat[w].hand.Some?
    requires d'.hand.None? && d'.stack == st.dat[w].stack + [st.dat[w].hand.value]
    requires d'.lifo == st.dat[w].lifo && d'.deque == st.dat[w].deque && d'.pend == st.dat[w].pend
    requires st'.done == st.done && st'.place == Moved(st.place, st.dat[w].hand.value, Running(w))
    ensures Transfer(st, st', st.dat[w].hand.value, InHand(w), Running(w))
  {
    hide Bag;
    BagsOfWorker(st, w);
    BagsOfWorker(st', w);
    OnlyTwoBags(st, st', w, d', InHand(w), Running(w));
  }

  lemma HandToLifo(st: State, st': State, w: nat, d': Dat)
    requires OnlyDat(st, st', w, d') && st.dat[w].hand.Some? && st.dat[w].lifo.None?
    requires d'.hand.None? && d'.lifo == st.dat[w].hand
    requires d'.deque == st.dat[w].deque && d'.pend == st.dat[w].pend && d'.stack == st.dat[w].stack
    requires st'.done == st.done && st'.place == Moved(st.place, st.dat[w].hand.value, InLifo(w))
    ensures Transfer(st, st', st.dat[w].hand.value, InHand(w), InLifo(w))
  {
    hide Bag;
    BagsOfWorker(st, w);
    BagsOfWorker(st', w);
    OnlyTwoBags(st, st', w, d', InHand(w), InLifo(w));
  }

  lemma HandToDeque(st: State, st': State, w: nat, d': Dat)
    requires OnlyDat(st, st', w, d') && st.dat[w].hand.Some?
    requires d'.hand.None? && d'.deque == st.dat[w].deque + [st.dat[w].hand.value]
    requires d'.lifo == st.dat[w].lifo && d'.pend == st.dat[w].pend && d'.stack == st.dat[w].stack
    requires st'.done == st.done && st'.place == Moved(st.place, st.dat[w].hand.value, InDeque(w))
    ensures Transfer(st, st', st.dat[w].hand.value, InHand(w), InDeque(w))
  {
    hide Bag;
    BagsOfWorker(st, w);
    BagsOfWorker(st', w);
    OnlyTwoBags(st, st', w, d', InHand(w), InDeque(w));
  }

  lemma StackToDone(st: State, st': State, w: nat, d': Dat, t: Task)
    requires OnlyDat(st, st', w, d') && st.dat[w].stack == d'.stack + [t]
    requires d'.hand == st.dat[w].hand && d'.lifo == st.dat[w].lifo && d'.deque == st.dat[w].deque && d'.pend == st.dat[w].pend
    requires st'.done == st.done + multiset{t} && st'.place == Moved(st.place, t, Done)
    ensures Transfer(st, st', t, Running(w), Done)
  {
    hide Bag;
    BagsOfWorker(st, w);
    BagsOfWorker(st', w);
    BagOfDone(st);
    BagOfDone(st');
    forall pl {:trigger Bag(st', pl)} | pl != Running(w) && pl != Done ensures Bag(st', pl) == Bag(st, pl) {
      if !Concerns(pl, w) { OtherBags(st, st', w, d', pl); }
    }
  }

  lemma BagOfDone(st: State)
    ensures Bag(st, Done) == st.done
  {
  }

  lemma DequeOnly(st: State, st': State, w: nat, d': Dat)
    requires OnlyDat(st, st', w, d') && st'.done == st.done && d'.(deque := []) == st.dat[w].(deque := [])
    ensures forall pl {:trigger Bag(st', pl)} :: pl != InDeque(w) ==> Bag(st', pl) == Bag(st, pl)
  {
    OnlyTwoBags(st, st', w, d', InDeque(w), InDeque(w));
  }

  lemma HandOnly(st: State, st': State, w: nat, d': Dat)
    requires OnlyDat(st, st', w, d') && st'.done == st.done
    requires d'.(hand := None, streak := 0) == st.dat[w].(hand := None, streak := 0)
    ensures forall pl {:trigger Bag(st', pl)} :: pl != InHand(w) ==> Bag(st', pl) == Bag(st, pl)
  {
    OnlyTwoBags(st, st', w, d', InHand(w), InHand(w));
  }

  lemma VictimToHand(st: State, st': State, w: nat, v: nat, dv: Dat, d': Dat)
    requires w < |st.dat| && v < |st.dat| && v != w && st'.dat == st.dat[v := dv][w := d']
    requires st'.rings == st.rings && st'.extHand == st.extHand && st'.done == st.done
    requires st.dat[v].deque != [] && st.dat[w].hand.None?
    requires dv == st.dat[v].(deque := st.dat[v].deque[1..])
    requires d'.hand == Some(st.dat[v].deque[0]) && d'.(hand := None, streak := 0) == st.dat[w].(hand := None, streak := 0)
    requires st'.place == Moved(st.place, st.dat[v].deque[0], InHand(w))
    ensures Transfer(st, st', st.dat[v].deque[0], InDeque(v), InHand(w))
  {
    MultisetEnds(st.dat[v].deque);
    var mid := st.(dat := st.dat[v := dv]);
    DequeOnly(st, mid, v, dv);
    HandOnly(mid, st', w, d');
    forall pl {:trigger Bag(st', pl)} | pl != InDeque(v) && pl != InHand(w) ensures Bag(st', pl) == Bag(st, pl) {
      assert Bag(mid, pl) == Bag(st, pl);
    }
  }

  // ---------------------------------------------------------------- moves of several tasks

  lemma ClaimedBag(st: State, s: nat, n: nat)
    requires s < |st.rings| && st.rings[s].head + n <= |st.rings[s].log|
    ensures var r := st.rings[s];
      multiset(r.log[r.head..]) == multiset(r.log[r.head..r.head + n]) + multiset(r.log[r.head + n..])
  {
    var r := st.rings[s];
    assert r.log[r.head..] == r.log[r.head..r.head + n] + r.log[r.head + n..];
  }

  lemma ClaimBags(st: State, st': State, w: nat, s: nat, n: nat, d': Dat, pl: Place)
    requires w < |st.dat| && s < |st.rings| && st.rings[s].head + n <= |st.rings[s].log|
    requires st'.rings == st.rings[s := Claim(st.rings[s], n)] && st'.extHand == st.extHand && st'.done == st.done
    requires st'.dat == st.dat[w := d'] && d'.(pend := []) == st.dat[w].(pend := [])
    requires pl != InShard(s) && pl != InBuffer(w)
    ensures Bag(st', pl) == Bag(st, pl)
  {
  }

  /** A claim moves a whole run of tasks from a shard into the empty batch buffer. */
  lemma ClaimKeepsPlaced(st: State, st': State, w: nat, s: nat, n: nat, d': Dat)
    requires Placed(st) && w < |st.dat| && s < |st.rings| && st.rings[s].head + n <= |st.rings[s].log|
    requires st.dat[w].pend == []
    requires st'.rings == st.rings[s := Claim(st.rings[s], n)] && st'.extHand == st.extHand && st'.done == st.done
    requires st'.dat == st.dat[w := d'] && d'.(pend := []) == st.dat[w].(pend := [])
    requires d'.pend == st.rings[s].log[st.rings[s].head..st.rings[s].head + n]
    requires st'.place == MovedAll(st.place, d'.pend, InBuffer(w))
    ensures Placed(st')
    ensures forall t: nat :: t < |st.place| && st'.place[t] != st.place[t] ==> st.place[t] == InShard(s)
  {
    ClaimedBag(st, s, n);
    var moved := multiset(d'.pend);
    var rest := multiset(st.rings[s].log[st.rings[s].head + n..]);
    assert Bag(st, InShard(s)) == moved + rest && Bag(st', InShard(s)) == rest && Bag(st', InBuffer(w)) == moved;
    forall pl: Place, t: Task
      ensures Bag(st', pl)[t] == if t < |st'.place| && st'.place[t] == pl then 1 else 0
    {
      assert t in d'.pend <==> moved[t] > 0;
      assert Bag(st, InShard(s))[t] == if t < |st.place| && st.place[t] == InShard(s) then 1 else 0;
      assert Bag(st, InBuffer(w))[t] == if t < |st.place| && st.place[t] == InBuffer(w) then 1 else 0;
      if pl != InShard(s) && pl != InBuffer(w) {
        ClaimBags(st, st', w, s, n, d', pl);
        assert Bag(st, pl)[t] == if t < |st.place| && st.place[t] == pl then 1 else 0;
      }
    }
    forall t: nat | t < |st.place| && st'.place[t] != st.place[t] ensures st.place[t] == InShard(s) {
      assert moved[t] > 0;
      assert Bag(st, InShard(s))[t] > 0;
    }
  }

  /** The displaced task leaves the LIFO slot as the new one enters it. */
  lemma SwapKeepsPlaced(st: State, st': State, w: nat, d': Dat)
    requires Placed(st) && OnlyDat(st, st', w, d') && st'.done == st.done
    requires st.dat[w].lifo.Some? && st.dat[w].hand.Some?
    requires d' == st.dat[w].(lifo := st.dat[w].hand, hand := st.dat[w].lifo)
    requires st'.place == Moved(Moved(st.place, st.dat[w].hand.value, InLifo(w)), st.dat[w].lifo.value, InHand(w))
    ensures Placed(st')
    ensures forall t: nat :: t < |st.place| && st'.place[t] != st.place[t] ==>
              (st.place[t] == InHand(w) || st.place[t] == InLifo(w)) && (st'.place[t] == InHand(w) || st'.place[t] == InLifo(w))
  {
    var a, b := st.dat[w].hand.value, st.dat[w].lifo.value;
    OnlyTwoBags(st, st', w, d', InHand(w), InLifo(w));
    assert Bag(st, InHand(w))[a] == 1 && Bag(st, InLifo(w))[b] == 1;
    forall pl: Place, t: Task
      ensures Bag(st', pl)[t] == if t < |st'.place| && st'.place[t] == pl then 1 else 0
    {
      assert Bag(st, pl)[t] == if t < |st.place| && st.place[t] == pl then 1 else 0;
    }
  }

  /** A new submission starts in its submitter's hand. */
  lemma NewTaskKeepsPlaced(st: State, st': State, home: Place)
    requires Placed(st) && st'.place == st.place + [home]
    requires Bag(st, home) == multiset{} && Bag(st', home) == multiset{|st.place|}
    requires forall pl {:trigger Bag(st', pl)} :: pl != home ==> Bag(st', pl) == Bag(st, pl)
    ensures Placed(st')
  {
    forall pl: Place, t: Task
      ensures Bag(st', pl)[t] == if t < |st'.place| && st'.place[t] == pl then 1 else 0
    {
      assert Bag(st, pl)[t] == if t < |st.place| && st.place[t] == pl then 1 else 0;
    }
  }

  lemma SameBagsKeepPlaced(st: State, st': State)
    requires Placed(st) && st'.place == st.place
    requires st'.rings == st.rings && st'.dat == st.dat && st'.extHand == st.extHand && st'.done == st.done
    ensures Placed(st')
  {
    forall pl: Place, t: Task
      ensures Bag(st', pl)[t] == if t < |st'.place| && st'.place[t] == pl then 1 else 0
    {
      assert Bag(st, pl)[t] == if t < |st.place| && st.place[t] == pl then 1 else 0;
    }
  }

  // ---------------------------------------------------------------- one step of a worker

  /** Each act finds what it needs: an empty hand before it takes, a task before it gives, and an
      empty batch buffer before it is refilled. */
  predicate ActFits(g: Config, st: State, w: nat, a: Act)
    requires Shape(g, st) && w < g.nTotal
  {
    var d := st.dat[w];
    match a
    case FromLifo(_, _) => d.lifo.Some? && d.hand.None?
    case FromDeque(_) => d.deque != [] && d.hand.None?
    case FromBuffer(_) => d.pend != [] && d.hand.None?
    case ClaimShard(s, n, _) => d.pend == [] && s < g.nShards && st.rings[s].head + n <= |st.rings[s].log|
    case FromVictim(v, _) => v < g.nTotal && v != w && st.dat[v].deque != [] && d.hand.None?
    case Begin(_) => d.hand.Some?
    case Create(_) => d.hand.None?
    case CountOwn(_) => d.hand.Some?
    case ToLifo(_) => d.hand.Some? && d.lifo.None?
    case SwapLifo(_) => d.hand.Some? && d.lifo.Some?
    case ToDeque(_) => d.hand.Some?
    case Finish(_) => d.stack != [] && st.ctl[w].pc.Dec2?
    case _ => true
  }

  lemma ActFitsDat(g: Config, st: State, w: nat, pick: Pick)
    requires Shape(g, st) && w < g.nTotal && WorkerOk(g, st.rings, w, st.ctl[w]) && DatOk(st.ctl[w].pc, st.dat[w])
    ensures ActFits(g, st, w, ActOf(g, st, w, pick))
  {
    ActIsOk(g, st, w, pick);
  }

  /** One task going from one place to another. */
  datatype Trip = Trip(t: Task, from: Place, to: Place)

  /** The trip a step makes, if it makes exactly one. */
  function TripOf(st: State, w: nat, a: Act): Option<Trip>
    requires w < |st.dat|
  {
    var d := st.dat[w];
    match a
    case FromLifo(_, _) => if d.lifo.Some? then Some(Trip(d.lifo.value, InLifo(w), InHand(w))) else None
    case FromDeque(_) => if d.deque != [] then Some(Trip(d.deque[|d.deque| - 1], InDeque(w), InHand(w))) else None
    case FromBuffer(_) => if d.pend != [] then Some(Trip(d.pend[0], InBuffer(w), InHand(w))) else None
    case FromVictim(v, _) =>
      if v < |st.dat| && st.dat[v].deque != [] then Some(Trip(st.dat[v].deque[0], InDeque(v), InHand(w))) else None
    case Begin(_) => if d.hand.Some? then Some(Trip(d.hand.value, InHand(w), Running(w))) else None
    case ToLifo(_) => if d.hand.Some? then Some(Trip(d.hand.value, InHand(w), InLifo(w))) else None
    case ToDeque(_) => if d.hand.Some? then Some(Trip(d.hand.value, InHand(w), InDeque(w))) else None
    case Finish(_) => if d.stack != [] then Some(Trip(d.stack[|d.stack| - 1], Running(w), Done)) else None
    case _ => None
  }

  function Last(s: seq<Task>): (t: Task)
    requires s != []
    ensures s == s[..|s| - 1] + [t]
  {
    s[|s| - 1]
  }

  lemma TripIsTransfer(g: Config, st: State, w: nat, pick: Pick)
    requires Shape(g, st) && w < g.nTotal
    requires var a := ActOf(g, st, w, pick); ActFits(g, st, w, a) && TripOf(st, w, a).Some?
    ensures var m := TripOf(st, w, ActOf(g, st, w, pick)).value;
      Transfer(st, WorkerNext(g, st, w, pick), m.t, m.from, m.to)
  {
    var st' := WorkerNext(g, st, w, pick);
    var d' := st'.dat[w];
    var a := ActOf(g, st, w, pick);
    match a {
      case FromLifo(_, _) => LifoToHand(st, st', w, d');
      case FromDeque(_) => DequeToHand(st, st', w, d', Last(st.dat[w].deque));
      case FromBuffer(_) => BufferToHand(st, st', w, d', st.dat[w].pend[0]);
      case FromVictim(v, _) => VictimToHand(st, st', w, v, st'.dat[v], d');
      case Begin(_) => HandToStack(st, st', w, d');
      case ToLifo(_) => HandToLifo(st, st', w, d');
      case ToDeque(_) => HandToDeque(st, st', w, d');
      case Finish(_) => StackToDone(st, st', w, d', Last(st.dat[w].stack));
      case _ =>
    }
  }

  /** The new task is in the hand of the worker whose running task submits it. */
  lemma CreateKeepsPlaced(g: Config, st: State, w: nat, pick: Pick)
    requires Shape(g, st) && w < g.nTotal && Placed(st)
    requires var a := ActOf(g, st, w, pick); ActFits(g, st, w, a) && a.Create?
    ensures Placed(WorkerNext(g, st, w, pick))
  {
    var st' := WorkerNext(g, st, w, pick);
    HandOnly(st, st', w, st'.dat[w]);
    NewTaskKeepsPlaced(st, st', InHand(w));
  }

  lemma QuietKeepsPlaced(g: Config, st: State, w: nat, pick: Pick)
    requires Shape(g, st) && w < g.nTotal && Placed(st)
    requires var a := ActOf(g, st, w, pick);
      ActFits(g, st, w, a) && TripOf(st, w, a).None? && !a.ClaimShard? && !a.SwapLifo? && !a.Create?
    ensures Placed(WorkerNext(g, st, w, pick))
    ensures WorkerNext(g, st, w, pick).place == st.place
  {
    SameBagsKeepPlaced(st, WorkerNext(g, st, w, pick));
  }

  lemma WorkerKeepsPlaced(g: Config, st: State, w: nat, pick: Pick)
    requires CtlInv(g, st) && DatInv(g, st) && Placed(st) && w < g.nTotal
    ensures Placed(WorkerNext(g, st, w, pick))
  {
    var st' := WorkerNext(g, st, w, pick);
    var a := ActOf(g, st, w, pick);
    assert WorkerOk(g, st.rings, w, st.ctl[w]) && DatOk(st.ctl[w].pc, st.dat[w]);
    ActFitsDat(g, st, w, pick);
    if TripOf(st, w, a).Some? {
      TripIsTransfer(g, st, w, pick);
      var m := TripOf(st, w, a).value;
      TransferKeepsPlaced(st, st', m.t, m.from, m.to);
    } else if a.ClaimShard? {
      ClaimKeepsPlaced(st, st', w, a.s, a.n, st'.dat[w]);
    } else if a.SwapLifo? {
      SwapKeepsPlaced(st, st', w, st'.dat[w]);
    } else if a.Create? {
      CreateKeepsPlaced(g, st, w, pick);
    } else {
      QuietKeepsPlaced(g, st, w, pick);
    }
  }

  // ---------------------------------------------------------------- how a step changes places

  predicate Ran(pl: Place) {
    pl.Running? || pl.Done?
  }

  lemma TripEnds(st: State, w: nat, a: Act)
    requires w < |st.dat| && TripOf(st, w, a).Some?
    ensures var m := TripOf(st, w, a).value;
      if a.Begin? then Some(m.t) == st.dat[w].hand && !Ran(m.from) && Ran(m.to) else Ran(m.from) <==> Ran(m.to)
  {
  }

  lemma TripRuns(g: Config, st: State, w: nat, pick: Pick, t: Task)
    requires Shape(g, st) && Placed(st) && w < g.nTotal && t < |st.place|
    requires var a := ActOf(g, st, w, pick); ActFits(g, st, w, a) && TripOf(st, w, a).Some?
    ensures var st', a := WorkerNext(g, st, w, pick), ActOf(g, st, w, pick);
      && |st'.place| == |st.place|
      && (Ran(st'.place[t]) <==> Ran(st.place[t]) || (a.Begin? && st.dat[w].hand == Some(t)))
      && (a.Begin? && st.dat[w].hand == Some(t) ==> !Ran(st.place[t]))
  {
    var a := ActOf(g, st, w, pick);
    var m := TripOf(st, w, a).value;
    TripIsTransfer(g, st, w, pick);
    TransferKeepsPlaced(st, WorkerNext(g, st, w, pick), m.t, m.from, m.to);
    TripEnds(st, w, a);
  }

  lemma OthersRun(g: Config, st: State, w: nat, pick: Pick, t: Task)
    requires Shape(g, st) && Placed(st) && w < g.nTotal && t < |st.place|
    requires var a := ActOf(g, st, w, pick); ActFits(g, st, w, a) && TripOf(st, w, a).None?
    ensures var st', a := WorkerNext(g, st, w, pick), ActOf(g, st, w, pick);
      && !a.Begin? && |st'.place| >= |st.place| && (Ran(st'.place[t]) <==> Ran(st.place[t]))
  {
    var st' := WorkerNext(g, st, w, pick);
    var a := ActOf(g, st, w, pick);
    if a.ClaimShard? {
      ClaimKeepsPlaced(st, st', w, a.s, a.n, st'.dat[w]);
    } else if a.SwapLifo? {
      SwapKeepsPlaced(st, st', w, st'.dat[w]);
    } else if !a.Create? {
      QuietKeepsPlaced(g, st, w, pick);
    }
  }

  /** Only Begin makes a task run, and it was not running before. */
  lemma WhatRuns(g: Config, st: State, w: nat, pick: Pick, t: Task)
    requires CtlInv(g, st) && DatInv(g, st) && Placed(st) && w < g.nTotal && t < |st.place|
    ensures var st', a := WorkerNext(g, st, w, pick), ActOf(g, st, w, pick);
      && |st'.place| >= |st.place|
      && (Ran(st'.place[t]) <==> Ran(st.place[t]) || (a.Begin? && st.dat[w].hand == Some(t)))
      && (a.Begin? && st.dat[w].hand == Some(t) ==> !Ran(st.place[t]))
  {
    assert WorkerOk(g, st.rings, w, st.ctl[w]) && DatOk(st.ctl[w].pc, st.dat[w]);
    ActFitsDat(g, st, w, pick);
    if TripOf(st, w, ActOf(g, st, w, pick)).Some? {
      TripRuns(g, st, w, pick, t);
    } else {
      OthersRun(g, st, w, pick, t);
    }
  }

  lemma NewTasksAreFresh(g: Config, st: State, w: nat, pick: Pick)
    requires Shape(g, st) && w < g.nTotal
    ensures var st' := WorkerNext(g, st, w, pick);
      |st.place| <= |st'.place| && forall t: nat :: |st.place| <= t < |st'.place| ==> st'.place[t] == InHand(w)
  {
  }

  lemma HandIsSubmitted(st: State, w: nat)
    requires Placed(st) && w < |st.dat| && st.dat[w].hand.Some?
    ensures st.dat[w].hand.value < |st.place|
  {
    assert Bag(st, InHand(w))[st.dat[w].hand.value] == 1;
  }

  lemma WorkerKeepsStartedOnce(g: Config, st: State, w: nat, pick: Pick)
    requires CtlInv(g, st) && DatInv(g, st) && Placed(st) && StartedOnce(st) && w < g.nTotal
    ensures StartedOnce(WorkerNext(g, st, w, pick))
  {
    var st' := WorkerNext(g, st, w, pick);
    NewTasksAreFresh(g, st, w, pick);
    if st.dat[w].hand.Some? { HandIsSubmitted(st, w); }
    forall t: Task
      ensures st'.started[t] == if t < |st'.place| && (st'.place[t].Running? || st'.place[t].Done?) then 1 else 0
    {
      assert st.started[t] == if t < |st.place| && (st.place[t].Running? || st.place[t].Done?) then 1 else 0;
      if t < |st.place| { WhatRuns(g, st, w, pick, t); }
    }
  }

  // ---------------------------------------------------------------- counters

  /** Submitted, but its submitter has not incremented a counter for it (or has taken it back). */
  predicate Uncounted(st: State, pl: Place) {
    match pl
    case InHand(w) => w < |st.ctl| && st.ctl[w].pc == Count
    case AtSubmitter(x) => x < |st.ext| && st.ext[x].Counting?
    case _ => false
  }

  predicate Outstanding(st: State, t: Task) {
    t < |st.place| && st.place[t] != Done && !Uncounted(st, st.place[t])
  }

  /** The counters add up to the number of tasks counted and not yet finished. */
  ghost predicate LedgerInv(st: State) {
    && Accounting.Balanced(st.ledger)
    && (forall t: Task {:trigger t in st.ledger.open} :: t in st.ledger.open <==> Outstanding(st, t))
  }

  lemma CountPc(g: Config, st: State, w: nat, pick: Pick)
    requires Shape(g, st) && w < g.nTotal
    ensures var a := ActOf(g, st, w, pick);
      && (st.ctl[w].pc == Count <==> a.CountOwn?)
      && (a.next == Count <==> a.Create?)
  {
    if st.ctl[w].pc.Try? { TryNeverCreates(g, st, w, pick); }
  }

  lemma TryNeverCreates(g: Config, st: State, w: nat, pick: Pick)
    requires Shape(g, st) && w < g.nTotal && st.ctl[w].pc.Try?
    ensures var a := TryAct(g, st, w, pick); !a.CountOwn? && !a.Create? && a.next != Count
  {
  }

  lemma InHandMeansHand(st: State, w: nat, t: Task)
    requires Placed(st) && w < |st.dat| && t < |st.place|
    ensures st.place[t] == InHand(w) <==> st.dat[w].hand == Some(t)
  {
    assert Bag(st, InHand(w))[t] == if t < |st.place| && st.place[t] == InHand(w) then 1 else 0;
  }

  lemma OtherPcs(g: Config, st: State, w: nat, pick: Pick)
    requires Shape(g, st) && w < g.nTotal
    ensures var st' := WorkerNext(g, st, w, pick);
      && |st'.ctl| == |st.ctl| && st'.ext == st.ext
      && st'.ctl[w].pc == ActOf(g, st, w, pick).next
      && (forall v {:trigger st'.ctl[v]} :: 0 <= v < g.nTotal && v != w ==> st'.ctl[v].pc == st.ctl[v].pc)
  {
  }

  /** Unless a new task is created or counted, no place becomes counted or uncounted. */
  lemma UncountedStays(g: Config, st: State, w: nat, pick: Pick, pl: Place)
    requires Shape(g, st) && w < g.nTotal
    requires var a := ActOf(g, st, w, pick); !a.CountOwn? && !a.Create?
    ensures Uncounted(WorkerNext(g, st, w, pick), pl) <==> Uncounted(st, pl)
    ensures !Uncounted(st, InHand(w))
  {
    CountPc(g, st, w, pick);
    OtherPcs(g, st, w, pick);
  }

  lemma TripEndsAreCounted(st: State, w: nat, a: Act)
    requires w < |st.dat| && TripOf(st, w, a).Some?
    ensures var m := TripOf(st, w, a).value;
      && !a.CountOwn? && !a.Create? && m.from != Done && (m.to == Done <==> a.Finish?)
      && (Uncounted(st, m.from) || Uncounted(st, m.to) ==> Uncounted(st, InHand(w)))
  {
  }

  /** Which old tasks a step makes outstanding or finished. */
  lemma TripOutstanding(g: Config, st: State, w: nat, pick: Pick, t: Task)
    requires Shape(g, st) && Placed(st) && w < g.nTotal && t < |st.place|
    requires var a := ActOf(g, st, w, pick); ActFits(g, st, w, a) && TripOf(st, w, a).Some?
    ensures var st', a := WorkerNext(g, st, w, pick), ActOf(g, st, w, pick);
      && |st'.place| == |st.place|
      && (Outstanding(st', t) <==> Outstanding(st, t) && !(a.Finish? && t == TripOf(st, w, a).value.t))
      && (a.Finish? && t == TripOf(st, w, a).value.t ==> Outstanding(st, t))
  {
    var a := ActOf(g, st, w, pick);
    var m := TripOf(st, w, a).value;
    TripPlaces(g, st, w, pick);
    TripEndsAreCounted(st, w, a);
    UncountedStays(g, st, w, pick, m.to);
    UncountedStays(g, st, w, pick, st.place[t]);
  }

  lemma TripPlaces(g: Config, st: State, w: nat, pick: Pick)
    requires Shape(g, st) && Placed(st) && w < g.nTotal
    requires var a := ActOf(g, st, w, pick); ActFits(g, st, w, a) && TripOf(st, w, a).Some?
    ensures var m := TripOf(st, w, ActOf(g, st, w, pick)).value;
      m.t < |st.place| && st.place[m.t] == m.from && WorkerNext(g, st, w, pick).place == st.place[m.t := m.to]
  {
    var m := TripOf(st, w, ActOf(g, st, w, pick)).value;
    TripIsTransfer(g, st, w, pick);
    TransferKeepsPlaced(st, WorkerNext(g, st, w, pick), m.t, m.from, m.to);
  }

  lemma OtherOutstanding(g: Config, st: State, w: nat, pick: Pick, t: Task)
    requires Shape(g, st) && Placed(st) && w < g.nTotal && t < |st.place|
    requires var a := ActOf(g, st, w, pick); ActFits(g, st, w, a) && TripOf(st, w, a).None?
    ensures var st', a := WorkerNext(g, st, w, pick), ActOf(g, st, w, pick);
      && |st'.place| >= |st.place| && !a.Finish?
      && (Outstanding(st', t) <==> Outstanding(st, t) || (a.CountOwn? && st.dat[w].hand == Some(t)))
      && (a.CountOwn? && st.dat[w].hand == Some(t) ==> !Outstanding(st, t))
  {
    var a := ActOf(g, st, w, pick);
    var st' := WorkerNext(g, st, w, pick);
    CountPc(g, st, w, pick);
    OtherPcs(g, st, w, pick);
    InHandMeansHand(st, w, t);
    if a.ClaimShard? {
      ClaimKeepsPlaced(st, st', w, a.s, a.n, st'.dat[w]);
    } else if a.SwapLifo? {
      SwapKeepsPlaced(st, st', w, st'.dat[w]);
    } else if !a.Create? {
      QuietKeepsPlaced(g, st, w, pick);
    }
  }

  lemma NewIsNotOutstanding(g: Config, st: State, w: nat, pick: Pick, t: Task)
    requires Shape(g, st) && w < g.nTotal && |st.place| <= t
    ensures !Outstanding(WorkerNext(g, st, w, pick), t)
  {
    CountPc(g, st, w, pick);
    OtherPcs(g, st, w, pick);
  }

  lemma FinishIsDec(g: Config, st: State, w: nat, pick: Pick)
    requires CtlInv(g, st) && DatInv(g, st) && w < g.nTotal && ActOf(g, st, w, pick).Finish?
    ensures st.dat[w].stack != []
    ensures WorkerNext(g, st, w, pick).ledger ==
            Accounting.Dec(st.ledger, g.nShards + w, st.dat[w].stack[|st.dat[w].stack| - 1])
  {
    assert WorkerOk(g, st.rings, w, st.ctl[w]) && DatOk(st.ctl[w].pc, st.dat[w]);
    ActFitsDat(g, st, w, pick);
  }

  lemma LedgerOf(g: Config, st: State, w: nat, pick: Pick)
    requires Shape(g, st) && w < g.nTotal
    ensures var a, n := ActOf(g, st, w, pick), WorkerNext(g, st, w, pick).ledger;
      && (a.CountOwn? && st.dat[w].hand.Some? ==> n == Accounting.Inc(st.ledger, g.nShards + w, st.dat[w].hand.value))
      && (!a.CountOwn? && !a.Finish? ==> n == st.ledger)
  {
    hide ActOf;
  }

  lemma StaysUnsubmitted(st: State, t: Task)
    requires |st.place| <= t
    ensures !Outstanding(st, t)
  {
  }

  lemma OpenIsOutstanding(g: Config, st: State, w: nat, pick: Pick, t: Task)
    requires CtlInv(g, st) && DatInv(g, st) && Placed(st) && LedgerInv(st) && w < g.nTotal
    ensures var st' := WorkerNext(g, st, w, pick); t in st'.ledger.open <==> Outstanding(st', t)
  {
    hide WorkerNext, Outstanding, TryAct, Placed;
    var a := ActOf(g, st, w, pick);
    LedgerOf(g, st, w, pick);
    assert WorkerOk(g, st.rings, w, st.ctl[w]) && DatOk(st.ctl[w].pc, st.dat[w]);
    ActFitsDat(g, st, w, pick);
    if a.CountOwn? { HandIsSubmitted(st, w); }
    if a.Finish? { FinishIsDec(g, st, w, pick); }
    assert t in st.ledger.open <==> Outstanding(st, t);
    if t >= |st.place| {
      StaysUnsubmitted(st, t);
      NewIsNotOutstanding(g, st, w, pick, t);
      if a.Finish? { TripPlaces(g, st, w, pick); }
    } else if TripOf(st, w, a).Some? {
      TripOutstanding(g, st, w, pick, t);
    } else {
      OtherOutstanding(g, st, w, pick, t);
    }
  }

  /** Each step of a worker counts one task, uncounts one, or leaves the counters alone. */
  lemma WorkerKeepsLedger(g: Config, st: State, w: nat, pick: Pick)
    requires CtlInv(g, st) && DatInv(g, st) && Placed(st) && LedgerInv(st) && w < g.nTotal
    ensures LedgerInv(WorkerNext(g, st, w, pick))
    ensures Accounting.Step(st.ledger, WorkerNext(g, st, w, pick).ledger)
  {
    hide WorkerNext, Outstanding, TryAct, Placed;
    var st' := WorkerNext(g, st, w, pick);
    var a := ActOf(g, st, w, pick);
    LedgerOf(g, st, w, pick);
    assert WorkerOk(g, st.rings, w, st.ctl[w]) && DatOk(st.ctl[w].pc, st.dat[w]);
    ActFitsDat(g, st, w, pick);
    var i := g.nShards + w;
    if a.CountOwn? {
      var t := st.dat[w].hand.value;
      HandIsSubmitted(st, w);
      OtherOutstanding(g, st, w, pick, t);
      Accounting.IncKeepsBalance(st.ledger, i, t);
    } else if a.Finish? {
      FinishIsDec(g, st, w, pick);
      TripPlaces(g, st, w, pick);
      TripOutstanding(g, st, w, pick, TripOf(st, w, a).value.t);
      Accounting.DecKeepsBalance(st.ledger, i, st.dat[w].stack[|st.dat[w].stack| - 1]);
    }
    forall t: Task ensures t in st'.ledger.open <==> Outstanding(st', t) {
      OpenIsOutstanding(g, st, w, pick, t);
    }
  }

  // ---------------------------------------------------------------- one step outside the pool

  lemma ExtShape(g: Config, st: State, x: nat, pick: Pick)
    requires Shape(g, st) && x < |st.ext|
    ensures var st' := ExtNext(g, st, x, pick);
      && st'.dat == st.dat && st'.done == st.done && st'.started == st.started && |st'.extHand| == |st.extHand|
  {
  }

  lemma ReserveBags(st: State, st': State, x: nat, s: nat, t: Task)
    requires x < |st.extHand| && s < |st.rings| && st.rings[s].head <= |st.rings[s].log|
    requires st.extHand[x] == Some(t) && st'.extHand == st.extHand[x := None]
    requires st'.rings == st.rings[s := Reserve(st.rings[s], t)]
    requires st'.dat == st.dat && st'.done == st.done && st'.place == Moved(st.place, t, InShard(s))
    ensures Transfer(st, st', t, AtSubmitter(x), InShard(s))
  {
    var r := st.rings[s];
    assert (r.log + [t])[r.head..] == r.log[r.head..] + [t];
  }

  lemma ExtKeepsPlaced(g: Config, st: State, x: nat, pick: Pick)
    requires CtlInv(g, st) && Placed(st) && x < |st.ext|
    ensures Placed(ExtNext(g, st, x, pick))
  {
    var st' := ExtNext(g, st, x, pick);
    var e := st.ext[x];
    assert ExtOk(g, st.rings, e, st.extHand[x]);
    ExtShape(g, st, x, pick);
    if e.Away? && pick.yes {
      NewTaskKeepsPlaced(st, st', AtSubmitter(x));
    } else if e.Reserving? && pick.yes {
      assert RingOk(st.rings[e.s], e.s, st.ext);
      ReserveBags(st, st', x, e.s, st.extHand[x].value);
      TransferKeepsPlaced(st, st', st.extHand[x].value, AtSubmitter(x), InShard(e.s));
    } else {
      PublishingMovesNothing(g, st, x, pick);
    }
  }

  lemma SameQueuesKeepPlaced(st: State, st': State)
    requires Placed(st) && st'.place == st.place
    requires st'.dat == st.dat && st'.extHand == st.extHand && st'.done == st.done && |st'.rings| == |st.rings|
    requires forall s {:trigger st'.rings[s]} :: 0 <= s < |st.rings| ==>
               st'.rings[s].log == st.rings[s].log && st'.rings[s].head == st.rings[s].head
    ensures Placed(st')
  {
    forall pl: Place, t: Task
      ensures Bag(st', pl)[t] == if t < |st'.place| && st'.place[t] == pl then 1 else 0
    {
      assert Bag(st', pl) == Bag(st, pl);
    }
  }

  lemma PublishingMovesNothing(g: Config, st: State, x: nat, pick: Pick)
    requires Shape(g, st) && Placed(st) && x < |st.ext|
    requires !(st.ext[x].Away? && pick.yes) && !(st.ext[x].Reserving? && pick.yes)
    ensures Placed(ExtNext(g, st, x, pick)) && ExtNext(g, st, x, pick).place == st.place
  {
    SameQueuesKeepPlaced(st, ExtNext(g, st, x, pick));
  }

  /** The only task an outside thread moves or counts is the one in its own hand. */
  lemma ExtPlaces(g: Config, st: State, x: nat, pick: Pick, t: Task)
    requires CtlInv(g, st) && Placed(st) && x < |st.ext|
    ensures var st' := ExtNext(g, st, x, pick);
      && |st.place| <= |st'.place|
      && (|st.place| <= t < |st'.place| ==> st'.place[t] == AtSubmitter(x) && st'.ext[x].Counting?)
      && (t < |st.place| && st'.place[t] != st.place[t] ==>
            st.place[t] == AtSubmitter(x) && st.extHand[x] == Some(t) && st.ext[x].Reserving? && st'.place[t].InShard?)
      && (t < |st.place| && st.place[t] == AtSubmitter(x) ==> st.extHand[x] == Some(t))
      && (st.extHand[x] == Some(t) ==> t < |st.place| && st.place[t] == AtSubmitter(x))
  {
    assert ExtOk(g, st.rings, st.ext[x], st.extHand[x]);
    assert Bag(st, AtSubmitter(x))[t] == if t < |st.place| && st.place[t] == AtSubmitter(x) then 1 else 0;
  }

  lemma ExtKeepsStartedOnce(g: Config, st: State, x: nat, pick: Pick)
    requires CtlInv(g, st) && Placed(st) && StartedOnce(st) && x < |st.ext|
    ensures StartedOnce(ExtNext(g, st, x, pick))
  {
    var st' := ExtNext(g, st, x, pick);
    ExtShape(g, st, x, pick);
    forall t: Task
      ensures st'.started[t] == if t < |st'.place| && (st'.place[t].Running? || st'.place[t].Done?) then 1 else 0
    {
      assert st.started[t] == if t < |st.place| && (st.place[t].Running? || st.place[t].Done?) then 1 else 0;
      ExtPlaces(g, st, x, pick, t);
    }
  }

  /** What the step does to the task in the outsider's hand decides the counters. */
  lemma ExtOutstanding(g: Config, st: State, x: nat, pick: Pick, t: Task)
    requires CtlInv(g, st) && Placed(st) && x < |st.ext|
    ensures var st' := ExtNext(g, st, x, pick);
      Outstanding(st', t) <==>
        if st.extHand[x] == Some(t) && st.ext[x].Counting? then true
        else if st.extHand[x] == Some(t) && st.ext[x].Undoing? then false
        else Outstanding(st, t)
  {
    var st' := ExtNext(g, st, x, pick);
    ExtPlaces(g, st, x, pick, t);
    ExtKeepsPCs(g, st, x, pick);
    assert ExtOk(g, st.rings, st.ext[x], st.extHand[x]);
    ExtStages(g, st, x, pick);
  }

  lemma ExtStages(g: Config, st: State, x: nat, pick: Pick)
    requires Shape(g, st) && x < |st.ext| && ExtOk(g, st.rings, st.ext[x], st.extHand[x])
    ensures var st' := ExtNext(g, st, x, pick);
      && (st.ext[x].Counting? ==> st'.ext[x].Reserving?)
      && (st.ext[x].Undoing? ==> st'.ext[x].Counting?)
      && (st'.ext[x].Counting? ==> st.ext[x].Undoing? || (st.ext[x].Away? && st.extHand[x].None?))
  {
  }

  lemma ExtLedger(g: Config, st: State, x: nat, pick: Pick)
    requires Shape(g, st) && x < |st.ext| && ExtOk(g, st.rings, st.ext[x], st.extHand[x])
    ensures var st' := ExtNext(g, st, x, pick);
      st'.ledger == match st.ext[x]
        case Counting(s) => Accounting.Inc(st.ledger, s, st.extHand[x].value)
        case Undoing(s) => Accounting.Dec(st.ledger, s, st.extHand[x].value)
        case _ => st.ledger
  {
  }

  lemma ExtKeepsLedger(g: Config, st: State, x: nat, pick: Pick)
    requires CtlInv(g, st) && Placed(st) && LedgerInv(st) && x < |st.ext|
    ensures LedgerInv(ExtNext(g, st, x, pick))
    ensures Accounting.Step(st.ledger, ExtNext(g, st, x, pick).ledger)
  {
    var st' := ExtNext(g, st, x, pick);
    var e := st.ext[x];
    assert ExtOk(g, st.rings, e, st.extHand[x]);
    ExtLedger(g, st, x, pick);
    if e.Counting? || e.Undoing? {
      var t := st.extHand[x].value;
      ExtPlaces(g, st, x, pick, t);
      assert t in st.ledger.open <==> Outstanding(st, t);
      if e.Counting? {
        Accounting.IncKeepsBalance(st.ledger, e.s, t);
      } else {
        Accounting.DecKeepsBalance(st.ledger, e.s, t);
      }
    }
    forall t: Task ensures t in st'.ledger.open <==> Outstanding(st', t) {
      assert t in st.ledger.open <==> Outstanding(st, t);
      ExtOutstanding(g, st, x, pick, t);
    }
  }

  // ---------------------------------------------------------------- all of it together

  ghost predicate TaskInv(g: Config, st: State) {
    DatInv(g, st) && Placed(st) && StartedOnce(st) && LedgerInv(st)
  }

  lemma {:induction false} SumOfZeros(s: seq<int>)
    requires forall i {:trigger s[i]} :: 0 <= i < |s| ==> s[i] == 0
    ensures Accounting.Sum(s) == 0
  {
    if s != [] { SumOfZeros(s[1..]); }
  }

  lemma InitTasks(g: Config, st: State)
    requires Init(g, st)
    ensures TaskInv(g, st)
  {
    SumOfZeros(st.ledger.ctrs);
  }

  lemma WorkerKeepsTasks(g: Config, st: State, w: nat, pick: Pick)
    requires CtlInv(g, st) && TaskInv(g, st) && w < g.nTotal
    ensures TaskInv(g, WorkerNext(g, st, w, pick))
  {
    WorkerKeepsDat(g, st, w, pick);
    WorkerKeepsPlaced(g, st, w, pick);
    WorkerKeepsStartedOnce(g, st, w, pick);
    WorkerKeepsLedger(g, st, w, pick);
  }

  lemma ExtKeepsTasks(g: Config, st: State, x: nat, pick: Pick)
    requires CtlInv(g, st) && TaskInv(g, st) && x < |st.ext|
    ensures TaskInv(g, ExtNext(g, st, x, pick))
  {
    ExtKeepsDat(g, st, x, pick);
    ExtKeepsPlaced(g, st, x, pick);
    ExtKeepsStartedOnce(g, st, x, pick);
    ExtKeepsLedger(g, st, x, pick);
  }
}
