/** The words do not stand still: every access of a thread to the words of rings and deques is a step
    of the abstract pool by that very thread, or one of a bounded number of accesses before its next. */
module PoolAdvance {
  import opened RingSpec
  import BatchRing
  import Deque
  import RingAlone
  import opened PoolModel
  import opened PoolTheorems
  import R = PoolOnRings
  import D = PoolOnDeques

  // ---------------------------------------------------------------- how much is left of a call

  /** What a thief still does before the steal is decided. */
  function StealLeft(th: Deque.Thief): nat {
    match th
    case Away => 5
    case StealBottom(_) => 4
    case StealFn(_) => 3
    case StealArg(_, _) => 2
    case StealCas(_, _) => 1
  }

  /** What an owner still does before its push or take is decided, or after. */
  function OwnerLeft(pc: PC, o: Deque.Owner): nat {
    match o
    case Rest => if pc.Spill? then 5 else if D.Taking(pc) then 7 else 0
    case PushTop(_, _) => 4
    case PushFn(_, _) => 3
    case PushArg(_, _) => 2
    case PushPublish(_, _) => 1
    case TakeTop(_) => 6
    case TakeDown(_) => 5
    case TakeTop2(_) => 4
    case ReadFn(_, _) => 3
    case ReadArg(_, _, _) => 2
    case TakeCas(_, _) => 1
    case TakeFix(_, _, _) => 1
  }

  /** What a consumer still does before it looks, or after its claim. */
  function PopLeft(l: BatchRing.Local): nat {
    match l
    case Idle => 1
    case PopFn(_, n, out) => if |out| <= n then 3 * (n - |out|) + 3 else 0
    case PopArg(_, n, out, _) => if |out| <= n then 3 * (n - |out|) + 2 else 0
    case PopRecycle(_, n, out) => if |out| <= n then 3 * (n - |out|) + 4 else 0
    case _ => 0
  }

  /** What a producer still does before it reserves or publishes, if nobody else reserves meanwhile. */
  function PushLeft(l: BatchRing.Local, tail: nat): nat {
    match l
    case Idle => 6
    case PushLoad(_) => 3
    case PushSeq(_, pos) => if pos == tail then 2 else 5
    case PushCas(_, pos) => if pos == tail then 1 else 4
    case PushFn(_, _) => 3
    case PushArg(_, _) => 2
    case PushPublish(_, _) => 1
    case _ => 0
  }

  function RingLeft(g: Config, p: R.Pool, w: nat): nat
    requires R.Shapes(g, p) && w < g.nTotal
  {
    if R.Inside(g, p, w) then PopLeft(p.rings[R.ShardOf(g, p.a.ctl[w])].threads[w]) else 0
  }

  function OutLeft(g: Config, p: R.Pool, x: nat): nat
    requires R.Shapes(g, p) && x < |p.a.ext|
  {
    if R.Pushing(g, p, x) then
      var s := p.a.ext[x].s;
      PushLeft(p.rings[s].threads[g.nTotal + x], p.rings[s].r.tail)
    else 0
  }

  function WorkLeft(g: Config, c: D.Full, w: nat): nat
    requires D.Shapes(g, c) && w < g.nTotal
  {
    var ct := c.p.a.ctl[w];
    var v := D.VictimOf(g, w, ct);
    OwnerLeft(ct.pc, c.deques[w].o) + RingLeft(g, c.p, w)
    + if v.Some? && v.value < g.nTotal then StealLeft(c.deques[v.value].thieves[w]) else 0
  }

  // ---------------------------------------------------------------- on the rings

  ghost predicate Visible(g: Config, a: State, b: State, w: nat)
    requires Shape(g, a) && w < g.nTotal
  {
    exists pick: Pick {:trigger WorkerNext(g, a, w, pick)} :: b == WorkerNext(g, a, w, pick)
  }

  ghost predicate VisibleOut(g: Config, a: State, b: State, x: nat)
    requires Shape(g, a) && x < |a.ext|
  {
    exists pick: Pick {:trigger ExtNext(g, a, x, pick)} :: b == ExtNext(g, a, x, pick)
  }

  lemma CopyLeft(pay: R.Payload, r: BatchRing.State, w: nat, pend: seq<Task>, call: BatchRing.Call)
    requires BatchRing.Inv(r) && w < |r.threads| && R.Copying(pay, r.threads[w], pend, r.r.log)
    ensures BatchRing.Shape(r.r)
    ensures var l, l' := r.threads[w], BatchRing.Goto(r.r, r.threads[w], call);
      l' == BatchRing.Idle || PopLeft(l') < PopLeft(l)
    ensures PopLeft(r.threads[w]) > 0
  {
    hide BatchRing.Window, BatchRing.Exclusive, BatchRing.Once;
    assert BatchRing.ThreadOk(r.r, r.threads[w]);
  }

  lemma InRing(g: Config, pay: R.Payload, c: R.Pool, w: nat, s: nat)
    requires R.Agree(g, pay, c) && w < g.nTotal && s < g.nShards
    ensures BatchRing.Inv(c.rings[s])
    ensures R.WorkerAt(g, pay, c.a.ctl[w].pc, c.a.ctl[w].cursor, c.a.dat[w].pend, s, c.rings[s].r.log, c.rings[s].threads[w])
  {
    hide Inv, BatchRing.Inv, R.WorkerAt, R.OutsideAt;
    assert R.ShardAgrees(g, pay, c.a, s, c.rings[s]);
  }

  lemma CopyAdvances(g: Config, pay: R.Payload, c: R.Pool, w: nat, pick: Pick)
    requires R.Agree(g, pay, c) && w < g.nTotal && c.a.ctl[w].pc.Try? && c.a.ctl[w].pc.ph.Buffer? && R.Inside(g, c, w)
    ensures var n := R.WorkStep(g, c, w, pick); R.Shapes(g, n) && n.a == c.a && RingLeft(g, n, w) < RingLeft(g, c, w)
  {
    hide R.ShardAgrees, Inv, R.Copying, BatchRing.Inv, PopLeft, BatchRing.Goto;
    var s := c.a.ctl[w].cursor;
    InRing(g, pay, c, w, s);
    R.CopyStep(g, pay, c, w, pick);
    CopyLeft(pay, c.rings[s], w, c.a.dat[w].pend, BatchRing.Pop(g.batch));
  }

  lemma EnterAdvances(g: Config, pay: R.Payload, c: R.Pool, w: nat, pick: Pick)
    requires R.Agree(g, pay, c) && w < g.nTotal && c.a.ctl[w].pc.Try? && R.Scanning(c.a.ctl[w].pc.ph)
    requires R.ShardOf(g, c.a.ctl[w]) < g.nShards && c.rings[R.ShardOf(g, c.a.ctl[w])].threads[w] == BatchRing.Idle
    ensures var n := R.WorkStep(g, c, w, pick); R.Shapes(g, n) && n.a == c.a && RingLeft(g, n, w) < RingLeft(g, c, w)
  {
    hide R.ShardAgrees, Inv, Perform;
    R.ScanIndex(g, c.a, w);
    R.EnterStep(g, pay, c, w, pick);
  }

  lemma RingWorkAdvances(g: Config, pay: R.Payload, c: R.Pool, w: nat, pick: Pick)
    requires R.Agree(g, pay, c) && w < g.nTotal
    ensures var n := R.WorkStep(g, c, w, pick);
      && R.Shapes(g, n)
      && (Visible(g, c.a, n.a, w) || (n.a == c.a && RingLeft(g, n, w) < RingLeft(g, c, w)))
  {
    hide R.WorkStep, WorkerNext, RingLeft, R.ShardAgrees, Inv;
    if !R.Inside(g, c, w) {
      R.OtherStep(g, pay, c, w, pick);
    } else if c.a.ctl[w].pc.ph.Buffer? {
      CopyAdvances(g, pay, c, w, pick);
    } else {
      var r := c.rings[R.ShardOf(g, c.a.ctl[w])];
      if r.threads[w] == BatchRing.Idle {
        EnterAdvances(g, pay, c, w, pick);
      } else if r.threads[w].PopCas? && r.r.head == r.threads[w].pos {
        R.ClaimStep(g, pay, c, w, pick);
      } else {
        R.LookStep(g, pay, c, w, pick);
      }
    }
  }

  lemma PushNearer(r: BatchRing.Ring, l: BatchRing.Local, call: BatchRing.Call)
    requires BatchRing.Shape(r) && BatchRing.Window(r)
    requires l.PushLoad? || l.PushSeq? || l.PushCas? || l.PushFn? || l.PushArg? || l.PushPublish? || (l.Idle? && call.Push?)
    ensures var l' := BatchRing.Goto(r, l, call);
      if l.PushCas? && l'.PushFn? then true
      else l' == BatchRing.Idle || (!l'.PushFn? && PushLeft(l', r.tail) < PushLeft(l, r.tail) && BatchRing.Apply(r, BatchRing.EffectOf(r, l)).tail == r.tail)
  {
    RingAlone.FreeOrFull(r);
  }

  lemma OutThread(g: Config, pay: R.Payload, c: R.Pool, x: nat)
    requires R.Agree(g, pay, c) && x < |c.a.ext| && R.Pushing(g, c, x)
    ensures var s, i := c.a.ext[x].s, g.nTotal + x;
      && BatchRing.Shape(c.rings[s].r) && BatchRing.Window(c.rings[s].r)
      && R.OutsideAt(pay, c.a.ext[x], c.a.extHand[x], s, c.rings[s].threads[i])
  {
    hide Inv, R.OutsideAt, BatchRing.Window;
    R.OutsideElsewhere(g, pay, c, x, c.a.ext[x].s);
    assert R.ShardAgrees(g, pay, c.a, c.a.ext[x].s, c.rings[c.a.ext[x].s]);
  }

  lemma RingOutAdvances(g: Config, pay: R.Payload, c: R.Pool, x: nat, pick: Pick)
    requires R.Agree(g, pay, c) && x < |c.a.ext|
    ensures var n := R.OutStep(g, pay, c, x, pick);
      && R.Shapes(g, n) && |n.a.ext| == |c.a.ext|
      && (VisibleOut(g, c.a, n.a, x) || (n.a == c.a && OutLeft(g, n, x) < OutLeft(g, c, x)))
  {
    hide Inv, R.ShardAgrees, ExtNext, BatchRing.Goto, BatchRing.EffectOf, BatchRing.Apply, BatchRing.Window, PushLeft;
    if !R.Pushing(g, c, x) {
      R.AwayStep(g, pay, c, x, pick);
      R.ExtOnly(g, c.a, x, pick);
    } else {
      OutThread(g, pay, c, x);
      R.OutRefines(g, pay, c, x, pick);
      R.ExtOnly(g, c.a, x, Pick(true, pick.n));
      R.ExtOnly(g, c.a, x, Pick(false, pick.n));
      var s, i := c.a.ext[x].s, g.nTotal + x;
      var call := if c.a.extHand[x].Some? then BatchRing.Push(pay(c.a.extHand[x].value)) else BatchRing.Pop(0);
      var l := c.rings[s].threads[i];
      assert l.Idle? ==> c.a.ext[x].Reserving? && call.Push?;
      PushNearer(c.rings[s].r, l, call);
    }
  }

  // ---------------------------------------------------------------- on the deques

  /** An access of the owner before its call is decided, or after. */
  lemma OwnerNearer(carry: D.Payload, pc: PC, hand: Option<Task>, d: Deque.State, call: Deque.Call)
    requires Deque.Inv(d) && D.OwnerAt(carry, pc, hand, d.m, d.o)
    requires D.Taking(pc) || pc.Spill? || d.o != Deque.Rest
    requires call.Push? <==> pc.Spill?
    requires D.Taking(pc) || pc.Spill? ==> D.Verdict(d.m, d.o).None?
    ensures OwnerLeft(pc, Deque.OwnerGoto(d.m, d.o, call)) < OwnerLeft(pc, d.o)
  {
    hide Deque.Contents, D.InHand;
    assert Deque.OwnerOk(d.m, d.o);
  }

  lemma ThiefNearer(m: Deque.Mem, th: Deque.Thief)
    requires Deque.Shape(m) && D.Loot(m, th).None?
    ensures StealLeft(Deque.ThiefGoto(m, th)) < StealLeft(th)
  {
  }

  lemma OwnDeque(g: Config, pay: R.Payload, carry: D.Payload, c: D.Full, w: nat)
    requires D.Agree(g, pay, carry, c) && w < g.nTotal
    ensures Deque.Inv(c.deques[w]) && D.OwnerAt(carry, c.p.a.ctl[w].pc, c.p.a.dat[w].hand, c.deques[w].m, c.deques[w].o)
  {
    hide R.Agree, D.OwnerAt, Deque.Inv;
    assert D.DequeAgrees(g, carry, c.p.a, w, c.deques[w]);
  }

  /** The verdict of an owner or a thief is a step of the abstract pool. */
  lemma Decided(g: Config, pay: R.Payload, p: R.Pool, w: nat, pick: Pick)
    requires R.Agree(g, pay, p) && w < g.nTotal && !R.Inside(g, p, w)
    ensures var n := R.WorkStep(g, p, w, pick); R.Shapes(g, n) && Visible(g, p.a, n.a, w)
  {
    hide Inv, R.ShardAgrees, WorkerNext, R.WorkStep;
    R.OtherStep(g, pay, p, w, pick);
  }

  lemma OwnerAdvances(g: Config, pay: R.Payload, carry: D.Payload, c: D.Full, w: nat, pick: Pick)
    requires D.Agree(g, pay, carry, c) && w < g.nTotal && D.Owning(g, c, w)
    ensures var n := D.WorkStep(g, carry, c, w, pick);
      && D.Shapes(g, n)
      && (Visible(g, c.p.a, n.p.a, w) || (n.p.a == c.p.a && WorkLeft(g, n, w) < WorkLeft(g, c, w)))
  {
    hide R.Agree, D.DequeAgrees, D.OwnerAt, D.Verdict, R.WorkStep, Perform, Visible, Deque.Inv;
    var d, pc := c.deques[w], c.p.a.ctl[w].pc;
    var hand := c.p.a.dat[w].hand;
    var call := if pc.Spill? && hand.Some? then Deque.Push(carry(hand.value)) else Deque.Take;
    D.OwnerRefines(g, pay, carry, c, w, pick);
    OwnDeque(g, pay, carry, c, w);
    if D.Verdict(d.m, d.o).Some? && (D.Taking(pc) || pc.Spill?) {
      var act := D.OwnerAct(pc, D.Verdict(d.m, d.o).value);
      D.PerformMoves(g, c.p.a, w, act);
      assert act.next != pc;
      Decided(g, pay, c.p, w, pick);
    } else {
      if pc.Spill? { D.SpillHolds(g, pay, c.p, w); }
      OwnerNearer(carry, pc, hand, d, call);
    }
  }

  lemma ThiefAdvances(g: Config, pay: R.Payload, carry: D.Payload, c: D.Full, w: nat, pick: Pick)
    requires D.Agree(g, pay, carry, c) && w < g.nTotal && !D.Owning(g, c, w) && D.VictimOf(g, w, c.p.a.ctl[w]).Some?
    ensures var n := D.WorkStep(g, carry, c, w, pick);
      && D.Shapes(g, n)
      && (Visible(g, c.p.a, n.p.a, w) || (n.p.a == c.p.a && WorkLeft(g, n, w) < WorkLeft(g, c, w)))
  {
    hide R.Agree, D.DequeAgrees, D.Loot, R.WorkStep, Perform, Visible, VictimAt;
    D.VictimIs(g, w, c.p.a.ctl[w]);
    var ct := c.p.a.ctl[w];
    var v := D.VictimOf(g, w, ct).value;
    var d := c.deques[v];
    D.StealAgrees(g, pay, carry, c, w, v);
    var loot := D.Loot(d.m, d.thieves[w]);
    if loot.Some? {
      var act := D.ThiefAct(ct.pc, v, loot.value);
      D.PerformMoves(g, c.p.a, w, act);
      assert act.next != ct.pc;
      Decided(g, pay, c.p, w, Pick(loot == Some(true), 0));
    } else {
      ThiefNearer(d.m, d.thieves[w]);
    }
  }

  lemma BelowAdvances(g: Config, pay: R.Payload, carry: D.Payload, c: D.Full, w: nat, pick: Pick)
    requires D.Agree(g, pay, carry, c) && w < g.nTotal && !D.Owning(g, c, w) && D.VictimOf(g, w, c.p.a.ctl[w]).None?
    ensures var n := D.WorkStep(g, carry, c, w, pick);
      && D.Shapes(g, n)
      && (Visible(g, c.p.a, n.p.a, w) || (n.p.a == c.p.a && WorkLeft(g, n, w) < WorkLeft(g, c, w)))
  {
    hide R.Agree, D.DequeAgrees, R.WorkStep, Visible, D.VictimOf, OwnerLeft, RingLeft;
    D.BelowAgrees(g, pay, carry, c, w, pick);
    RingWorkAdvances(g, pay, c.p, w, pick);
  }

  /** Who steps. */
  predicate SameThread(mv: Move, k: Move) {
    (mv.Work? && k.Work? && k.w == mv.w) || (mv.Outside? && k.Outside? && k.x == mv.x)
  }

  /** The accesses a thread has left before its next step of the abstract pool, if nobody else reserves
      a position meanwhile. */
  function Left(g: Config, c: D.Full, mv: Move): nat
    requires D.Shapes(g, c) && MoveOk(g, c.p.a, mv)
  {
    match mv
    case Work(w, _) => WorkLeft(g, c, w)
    case Outside(x, _) => OutLeft(g, c.p, x)
  }

  /** Every access of every thread to the words of rings and deques is a step of the abstract pool by
      that thread, or leaves it fewer accesses before its next one. */
  lemma EveryAccessAdvances(g: Config, pay: R.Payload, carry: D.Payload, c: D.Full, mv: Move)
    requires D.Agree(g, pay, carry, c) && MoveOk(g, c.p.a, mv)
    ensures var n := D.Step(g, pay, carry, c, mv);
      || (exists k: Move {:trigger MoveOk(g, c.p.a, k)} :: MoveOk(g, c.p.a, k) && SameThread(mv, k) && n.p.a == Next(g, c.p.a, k))
      || (D.Shapes(g, n) && n.p.a == c.p.a && Left(g, n, mv) < Left(g, c, mv))
  {
    hide R.Agree, D.DequeAgrees, D.WorkStep, R.OutStep, WorkLeft, OutLeft, D.VictimOf, D.Owning, WorkerNext, ExtNext;
    match mv {
      case Outside(x, pick) =>
        RingOutAdvances(g, pay, c.p, x, pick);
        D.OutsideAgrees(g, pay, carry, c, x, pick);
        var b := R.OutStep(g, pay, c.p, x, pick).a;
        if VisibleOut(g, c.p.a, b, x) {
          var p: Pick :| b == ExtNext(g, c.p.a, x, p);
          assert MoveOk(g, c.p.a, Outside(x, p)) && SameThread(mv, Outside(x, p));
        }
      case Work(w, pick) =>
        if D.Owning(g, c, w) {
          OwnerAdvances(g, pay, carry, c, w, pick);
        } else if D.VictimOf(g, w, c.p.a.ctl[w]).Some? {
          ThiefAdvances(g, pay, carry, c, w, pick);
        } else {
          BelowAdvances(g, pay, carry, c, w, pick);
        }
        var b := D.WorkStep(g, carry, c, w, pick).p.a;
        if Visible(g, c.p.a, b, w) {
          var p: Pick :| b == WorkerNext(g, c.p.a, w, p);
          assert MoveOk(g, c.p.a, Work(w, p)) && SameThread(mv, Work(w, p));
        }
    }
  }
}
