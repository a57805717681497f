/** The typed Vyukov ring of the pool's shards, one atomic access per step, for any number of
    producers and batch consumers. Positions are unbounded here; WrapRing relates them to the
    32-bit positions of the program. */
module BatchRing {
  import opened Slots
  import RingSpec

  datatype Task = Task(fn: int, arg: int)

  datatype Cell = Cell(seqno: nat, fn: int, arg: int)

  /** Where one thread is inside pool_ring_push or pool_ring_pop_batch. */
  datatype Local =
    | Idle
    | PushLoad(t: Task)                                 // about to load tail
    | PushSeq(t: Task, pos: nat)                        // about to load the cell's seqno
    | PushCas(t: Task, pos: nat)                        // about to CAS tail
    | PushFn(t: Task, pos: nat)                         // owns the cell, about to write fn
    | PushArg(t: Task, pos: nat)                        // about to write arg
    | PushPublish(t: Task, pos: nat)                    // about to store seqno = pos + 1
    | PopLoad(max: nat)                                 // about to load head
    | PopSeq(max: nat, pos: nat, n: nat)                // about to load the seqno of pos + n
    | PopCas(max: nat, pos: nat, n: nat)                // about to CAS head to pos + n
    | PopFn(pos: nat, n: nat, out: seq<Task>)           // about to read fn of pos + |out|
    | PopArg(pos: nat, n: nat, out: seq<Task>, fn: int) // about to read arg
    | PopRecycle(pos: nat, n: nat, out: seq<Task>)      // about to recycle pos + |out| - 1

  /** The shared words of one ring. `log` is history: the task reserved at each position. */
  datatype Ring = Ring(cap: nat, head: nat, tail: nat, cells: seq<Cell>, log: seq<Task>)

  /** `delivered` is history: how many times each position has been copied out. */
  datatype State = State(r: Ring, threads: seq<Local>, delivered: multiset<nat>)

  /** What an idle thread decides to do. */
  datatype Call = Push(t: Task) | Pop(max: nat)

  predicate Shape(r: Ring) {
    r.cap >= 2 && |r.cells| == r.cap
  }

  function At(r: Ring, p: nat): Cell
    requires Shape(r)
  {
    r.cells[Slot(r.cap, p)]
  }

  predicate Carries(x: Cell, t: Task) {
    x.fn == t.fn && x.arg == t.arg
  }

  function Put(r: Ring, p: nat, x: Cell): Ring
    requires Shape(r)
  {
    r.(cells := r.cells[Slot(r.cap, p) := x])
  }

  /** After the inner scan loop tested one more position: try the next one, claim, or give up. */
  function AfterScan(max: nat, pos: nat, n: nat, ready: bool): Local {
    if ready && n + 1 < max then PopSeq(max, pos, n + 1)
    else if ready then PopCas(max, pos, n + 1)
    else if n > 0 then PopCas(max, pos, n)
    else Idle
  }

  /** The shared word one step writes, if any. */
  datatype Effect =
    | Quiet
    | Reserve(t: Task)              // tail: pos -> pos + 1
    | Fill(p: nat, x: Cell)         // the producer of p writes its cell
    | Claim(n: nat)                 // head: pos -> pos + n
    | Recycle(p: nat, x: Cell)      // the consumer of p stores the seqno of the next lap

  function EffectOf(r: Ring, l: Local): Effect
    requires Shape(r)
  {
    match l
    case PushCas(t, pos) => if r.tail == pos then Reserve(t) else Quiet
    case PushFn(t, pos) => Fill(pos, At(r, pos).(fn := t.fn))
    case PushArg(t, pos) => Fill(pos, At(r, pos).(arg := t.arg))
    case PushPublish(_, pos) => Fill(pos, At(r, pos).(seqno := pos + 1))
    case PopCas(_, pos, n) => if r.head == pos then Claim(n) else Quiet
    case PopRecycle(pos, _, out) =>
      if out == [] then Quiet else
      var q := pos + |out| - 1;
      Recycle(q, At(r, q).(seqno := q + r.cap))
    case _ => Quiet
  }

  function Apply(r: Ring, e: Effect): Ring
    requires Shape(r)
  {
    match e
    case Quiet => r
    case Reserve(t) => r.(tail := r.tail + 1, log := r.log + [t])
    case Fill(p, x) => Put(r, p, x)
    case Claim(n) => r.(head := r.head + n)
    case Recycle(p, x) => Put(r, p, x)
  }

  /** Where the thread goes next; `call` is used only when it is idle. */
  function Goto(r: Ring, l: Local, call: Call): Local
    requires Shape(r)
  {
    match l
    case Idle =>
      (match call
       case Push(t) => PushLoad(t)
       case Pop(max) => if max > 0 then PopLoad(max) else Idle)
    case PushLoad(t) => PushSeq(t, r.tail)
    case PushSeq(t, pos) =>
      var dif := At(r, pos).seqno - pos;
      if dif == 0 then PushCas(t, pos) else if dif < 0 then Idle else PushLoad(t)
    case PushCas(t, pos) => if r.tail == pos then PushFn(t, pos) else PushLoad(t)
    case PushFn(t, pos) => PushArg(t, pos)
    case PushArg(t, pos) => PushPublish(t, pos)
    case PushPublish(_, _) => Idle
    case PopLoad(max) => PopSeq(max, r.head, 0)
    case PopSeq(max, pos, n) => AfterScan(max, pos, n, At(r, pos + n).seqno == pos + n + 1)
    case PopCas(max, pos, n) => if r.head == pos then PopFn(pos, n, []) else PopLoad(max)
    case PopFn(pos, n, out) => PopArg(pos, n, out, At(r, pos + |out|).fn)
    case PopArg(pos, n, out, fn) => PopRecycle(pos, n, out + [Task(fn, At(r, pos + |out|).arg)])
    case PopRecycle(pos, n, out) => if |out| < n then PopFn(pos, n, out) else Idle
  }

  /** One atomic access of thread `i`. */
  function Next(c: State, i: nat, call: Call): State
    requires Shape(c.r) && i < |c.threads|
  {
    var l := c.threads[i];
    State(Apply(c.r, EffectOf(c.r, l)), c.threads[i := Goto(c.r, l, call)],
          if l.PopArg? then c.delivered + multiset{l.pos + |l.out|} else c.delivered)
  }

  // ---------------------------------------------------------------- invariant

  /** Thread `l` has claimed position `p` and not yet recycled its cell. */
  predicate Holds(l: Local, p: nat) {
    match l
    case PopFn(pos, n, out) => pos + |out| <= p < pos + n
    case PopArg(pos, n, out, _) => pos + |out| <= p < pos + n
    case PopRecycle(pos, n, out) => pos + |out| - 1 <= p < pos + n
    case _ => false
  }

  /** Thread `l` has claimed position `p` and not yet copied it. */
  predicate Uncopied(l: Local, p: nat) {
    Holds(l, p) && (l.PopRecycle? ==> l.pos + |l.out| <= p)
  }

  /** Thread `l` is filling position `p`. */
  predicate Fills(l: Local, p: nat) {
    (l.PushFn? || l.PushArg? || l.PushPublish?) && l.pos == p
  }

  /** head <= tail <= head + cap, and what each seqno of the current lap can be. */
  ghost predicate Window(r: Ring)
    requires Shape(r)
  {
    && r.head <= r.tail <= r.head + r.cap
    && |r.log| == r.tail
    && (forall p: nat {:trigger Slot(r.cap, p)} :: r.head <= p < r.tail ==>
          var x := r.cells[Slot(r.cap, p)];
          (x.seqno == p || x.seqno == p + 1) && (x.seqno == p + 1 ==> Carries(x, r.log[p])))
    && (forall p: nat {:trigger Slot(r.cap, p)} :: r.tail <= p < r.head + r.cap ==>
          var x := r.cells[Slot(r.cap, p)];
          x.seqno == p || (p >= r.cap && x.seqno == p - r.cap + 1))
  }

  /** The published prefix a scanner at `pos` has seen, valid while head has not moved. */
  ghost predicate Scanned(r: Ring, pos: nat, n: nat)
    requires Shape(r)
  {
    && pos <= r.head
    && (r.head == pos ==>
          && pos + n <= r.tail
          && forall p: nat {:trigger Slot(r.cap, p)} :: pos <= p < pos + n ==> r.cells[Slot(r.cap, p)].seqno == p + 1)
  }

  ghost predicate Copying(r: Ring, l: Local, pos: nat, n: nat, out: seq<Task>)
    requires Shape(r)
  {
    && |out| <= n
    && pos + n <= r.head
    && pos + n <= |r.log|
    && out == r.log[pos..pos + |out|]
    && (forall p: nat {:trigger Slot(r.cap, p)} :: Holds(l, p) ==>
          var x := r.cells[Slot(r.cap, p)];
          x.seqno == p + 1 && r.tail <= p + r.cap && p < |r.log| && Carries(x, r.log[p]))
  }

  ghost predicate Filling(r: Ring, t: Task, pos: nat)
    requires Shape(r)
  {
    r.head <= pos < r.tail && At(r, pos).seqno == pos && pos < |r.log| && r.log[pos] == t
  }

  ghost predicate ThreadOk(r: Ring, l: Local)
    requires Shape(r)
  {
    match l
    case Idle => true
    case PushLoad(_) => true
    case PushSeq(_, pos) => pos <= r.tail
    case PushCas(_, pos) => pos <= r.tail && (pos == r.tail ==> At(r, pos).seqno == pos)
    case PushFn(t, pos) => Filling(r, t, pos)
    case PushArg(t, pos) => Filling(r, t, pos) && At(r, pos).fn == t.fn
    case PushPublish(t, pos) => Filling(r, t, pos) && Carries(At(r, pos), t)
    case PopLoad(max) => max > 0
    case PopSeq(max, pos, n) => n < max && Scanned(r, pos, n)
    case PopCas(max, pos, n) => 0 < n <= max && Scanned(r, pos, n)
    case PopFn(pos, n, out) => |out| < n && Copying(r, l, pos, n, out)
    case PopArg(pos, n, out, fn) => |out| < n && Copying(r, l, pos, n, out) && fn == r.log[pos + |out|].fn
    case PopRecycle(pos, n, out) => 0 < |out| && Copying(r, l, pos, n, out)
  }

  /** No two threads work on the same position. */
  ghost predicate Exclusive(ts: seq<Local>) {
    && (forall i, j, p: nat {:trigger Holds(ts[i], p), Holds(ts[j], p)} ::
          0 <= i < j < |ts| ==> !(Holds(ts[i], p) && Holds(ts[j], p)))
    && (forall i, j, p: nat {:trigger Fills(ts[i], p), Fills(ts[j], p)} ::
          0 <= i < j < |ts| ==> !(Fills(ts[i], p) && Fills(ts[j], p)))
  }

  /** Every copied position was copied once, and is not waiting to be copied again. */
  ghost predicate Once(c: State) {
    forall p: nat {:trigger c.delivered[p]} :: c.delivered[p] > 0 ==>
      && c.delivered[p] == 1
      && p < c.r.head
      && forall i {:trigger c.threads[i]} :: 0 <= i < |c.threads| ==> !Uncopied(c.threads[i], p)
  }

  ghost predicate Inv(c: State) {
    && Shape(c.r)
    && Window(c.r)
    && (forall i {:trigger c.threads[i]} :: 0 <= i < |c.threads| ==> ThreadOk(c.r, c.threads[i]))
    && Exclusive(c.threads)
    && Once(c)
  }

  // ---------------------------------------------------------------- effects

  /** What the invariant promises about every effect before it happens. */
  ghost predicate Legal(r: Ring, e: Effect)
    requires Shape(r)
  {
    match e
    case Quiet => true
    case Reserve(_) => At(r, r.tail).seqno == r.tail
    case Fill(p, x) =>
      && r.head <= p < r.tail == |r.log|
      && At(r, p).seqno == p
      && (x.seqno == p || (x.seqno == p + 1 && Carries(x, r.log[p])))
    case Claim(n) => Scanned(r, r.head, n)
    case Recycle(p, x) => p < r.head && r.tail <= p + r.cap && At(r, p).seqno == p + 1 && x.seqno == p + r.cap
  }

  /** Thread `o` is not the one entitled to the cell that `e` writes. */
  predicate Bystander(o: Local, e: Effect) {
    match e
    case Fill(p, _) => !Fills(o, p)
    case Recycle(p, _) => !Holds(o, p)
    case _ => true
  }

  /** A reservable tail is a free position: a full ring would show the head's seqno there. */
  lemma RoomAtTail(r: Ring)
    requires Shape(r) && Window(r) && At(r, r.tail).seqno == r.tail
    ensures r.tail < r.head + r.cap
  {
    NextLap(r.cap, r.head);
  }

  lemma ReserveKeepsWindow(r: Ring, t: Task)
    requires Shape(r) && Window(r) && Legal(r, Reserve(t))
    ensures Window(Apply(r, Reserve(t)))
  {
    RoomAtTail(r);
  }

  /** Claiming published positions keeps the window: their cells now belong to the next lap. */
  lemma ClaimKeepsWindow(r: Ring, n: nat)
    requires Shape(r) && Window(r) && Scanned(r, r.head, n)
    ensures Window(Apply(r, Claim(n)))
  {
    var r' := Apply(r, Claim(n));
    forall p: nat | r'.tail <= p < r'.head + r'.cap
      ensures var x := r'.cells[Slot(r'.cap, p)]; x.seqno == p || (p >= r'.cap && x.seqno == p - r'.cap + 1)
    {
      if r.head + r.cap <= p {
        NextLap(r.cap, p - r.cap);
      }
    }
  }

  lemma FillKeepsWindow(r: Ring, p: nat, x: Cell)
    requires Shape(r) && Window(r) && Legal(r, Fill(p, x))
    ensures Window(Put(r, p, x))
  {
    OneLap(r.cap, p);
  }

  lemma RecycleKeepsWindow(r: Ring, p: nat, x: Cell)
    requires Shape(r) && Window(r) && Legal(r, Recycle(p, x))
    ensures Window(Put(r, p, x))
  {
    hide Carries;
    OneLap(r.cap, p + r.cap);
    NextLap(r.cap, p);
  }

  lemma EffectKeepsWindow(r: Ring, e: Effect)
    requires Shape(r) && Window(r) && Legal(r, e)
    ensures Shape(Apply(r, e)) && Window(Apply(r, e))
  {
    match e {
      case Quiet =>
      case Reserve(t) => ReserveKeepsWindow(r, t);
      case Fill(p, x) => FillKeepsWindow(r, p, x);
      case Claim(n) => ClaimKeepsWindow(r, n);
      case Recycle(p, x) => RecycleKeepsWindow(r, p, x);
    }
  }

  // ------------------------------------------------ what the other threads rely on

  /** The cell of a position in use or in the window is not the one a fill of `p` writes. */
  lemma FillMisses(r: Ring, p: nat, x: Cell, q: nat)
    requires Shape(r) && Window(r) && Legal(r, Fill(p, x))
    requires r.tail <= q + r.cap && q < r.head + r.cap
    requires q != p && (q < r.head ==> At(r, q).seqno == q + 1)
    ensures Slot(r.cap, q) != Slot(r.cap, p)
  {
    if p < q {
      SlotInjective(r.cap, p, q);
    } else if p < q + r.cap {
      SlotInjective(r.cap, q, p);
    } else {
      NextLap(r.cap, q);
      assert false;
    }
  }

  lemma RecycleMisses(r: Ring, p: nat, x: Cell, q: nat)
    requires Shape(r) && Window(r) && Legal(r, Recycle(p, x))
    requires r.tail <= q + r.cap && q < r.head + r.cap
    requires q != p && q != p + r.cap
    ensures Slot(r.cap, q) != Slot(r.cap, p)
  {
    if q < p {
      SlotInjective(r.cap, q, p);
    } else if q < p + r.cap {
      SlotInjective(r.cap, p, q);
    } else {
      NextLap(r.cap, p);
      SlotInjective(r.cap, p + r.cap, q);
    }
  }

  /** The positions whose cells the promise of thread `o` speaks about. */
  predicate Relies(r: Ring, o: Local, q: nat) {
    match o
    case PushCas(_, pos) => q == pos == r.tail
    case PushFn(_, pos) => q == pos
    case PushArg(_, pos) => q == pos
    case PushPublish(_, pos) => q == pos
    case PopSeq(_, pos, n) => r.head == pos && pos <= q < pos + n
    case PopCas(_, pos, n) => r.head == pos && pos <= q < pos + n
    case _ => Holds(o, q)
  }

  /** Where a relied-on position lies, and what its seqno says. */
  lemma RelianceFacts(r: Ring, o: Local, q: nat)
    requires Shape(r) && Window(r) && ThreadOk(r, o) && Relies(r, o, q)
    ensures r.tail <= q + r.cap && q < r.head + r.cap
    ensures Fills(o, q) || (o.PushCas? && q == r.tail) || At(r, q).seqno == q + 1
    ensures q < r.head ==> Holds(o, q)
    ensures Holds(o, q) ==> q < r.head
  {
    var s := Slot(r.cap, q);
    if o.PushCas? { RoomAtTail(r); }
  }

  lemma ScanFrame(r: Ring, p: nat, x: Cell, pos: nat, n: nat)
    requires Shape(r) && Scanned(r, pos, n)
    requires r.head == pos ==>
               forall q: nat {:trigger Slot(r.cap, q)} :: pos <= q < pos + n ==> Slot(r.cap, q) != Slot(r.cap, p)
    ensures Scanned(Put(r, p, x), pos, n)
  {
  }

  lemma CopyFrame(r: Ring, p: nat, x: Cell, l: Local, pos: nat, n: nat, out: seq<Task>)
    requires Shape(r) && Copying(r, l, pos, n, out)
    requires forall q: nat {:trigger Slot(r.cap, q)} :: Holds(l, q) ==> Slot(r.cap, q) != Slot(r.cap, p)
    ensures Copying(Put(r, p, x), l, pos, n, out)
  {
  }

  /** Writing a cell that thread `o` does not rely on keeps its promise. */
  lemma CellFrame(r: Ring, p: nat, x: Cell, o: Local)
    requires Shape(r) && ThreadOk(r, o)
    requires forall q: nat {:trigger Slot(r.cap, q)} :: Relies(r, o, q) ==> Slot(r.cap, q) != Slot(r.cap, p)
    ensures ThreadOk(Put(r, p, x), o)
  {
    match o {
      case PushCas(_, pos) => assert pos == r.tail ==> Slot(r.cap, pos) != Slot(r.cap, p);
      case PushFn(_, pos) => assert Slot(r.cap, pos) != Slot(r.cap, p);
      case PushArg(_, pos) => assert Slot(r.cap, pos) != Slot(r.cap, p);
      case PushPublish(_, pos) => assert Slot(r.cap, pos) != Slot(r.cap, p);
      case PopSeq(_, pos, n) => ScanFrame(r, p, x, pos, n);
      case PopCas(_, pos, n) => ScanFrame(r, p, x, pos, n);
      case PopFn(pos, n, out) => CopyFrame(r, p, x, o, pos, n, out);
      case PopArg(pos, n, out, _) => CopyFrame(r, p, x, o, pos, n, out);
      case PopRecycle(pos, n, out) => CopyFrame(r, p, x, o, pos, n, out);
      case _ =>
    }
  }

  lemma FillKeepsOther(r: Ring, p: nat, x: Cell, o: Local)
    requires Shape(r) && Window(r) && Legal(r, Fill(p, x)) && ThreadOk(r, o) && !Fills(o, p)
    ensures ThreadOk(Put(r, p, x), o)
  {
    forall q: nat | Relies(r, o, q) ensures Slot(r.cap, q) != Slot(r.cap, p) {
      RelianceFacts(r, o, q);
      FillMisses(r, p, x, q);
    }
    CellFrame(r, p, x, o);
  }

  lemma RecycleKeepsOther(r: Ring, p: nat, x: Cell, o: Local)
    requires Shape(r) && Window(r) && Legal(r, Recycle(p, x)) && ThreadOk(r, o) && !Holds(o, p)
    ensures ThreadOk(Put(r, p, x), o)
  {
    forall q: nat | Relies(r, o, q) ensures Slot(r.cap, q) != Slot(r.cap, p) {
      RelianceFacts(r, o, q);
      NextLap(r.cap, p);
      RecycleMisses(r, p, x, q);
    }
    CellFrame(r, p, x, o);
  }

  lemma ReserveKeepsCopying(r: Ring, t: Task, l: Local, pos: nat, n: nat, out: seq<Task>)
    requires Shape(r) && Window(r) && Legal(r, Reserve(t)) && Copying(r, l, pos, n, out)
    ensures Copying(Apply(r, Reserve(t)), l, pos, n, out)
  {
    var r' := Apply(r, Reserve(t));
    forall p: nat | Holds(l, p)
      ensures r'.tail <= p + r.cap && Slot(r.cap, p) >= 0
    {
      NextLap(r.cap, p);
      assert r.cells[Slot(r.cap, p)].seqno == p + 1;
    }
    assert r'.log[pos..pos + |out|] == r.log[pos..pos + |out|];
  }

  lemma ReserveKeepsOther(r: Ring, t: Task, o: Local)
    requires Shape(r) && Window(r) && Legal(r, Reserve(t)) && ThreadOk(r, o)
    ensures ThreadOk(Apply(r, Reserve(t)), o)
  {
    match o {
      case PopFn(pos, n, out) => ReserveKeepsCopying(r, t, o, pos, n, out);
      case PopArg(pos, n, out, _) => ReserveKeepsCopying(r, t, o, pos, n, out);
      case PopRecycle(pos, n, out) => ReserveKeepsCopying(r, t, o, pos, n, out);
      case _ =>
    }
  }

  lemma ClaimKeepsOther(r: Ring, n: nat, o: Local)
    requires Shape(r) && Window(r) && Scanned(r, r.head, n) && ThreadOk(r, o)
    ensures ThreadOk(Apply(r, Claim(n)), o)
  {
    if o.PushFn? || o.PushArg? || o.PushPublish? {
      assert At(r, o.pos).seqno == o.pos;
    }
  }

  /** A step of one thread never breaks the promise of another. */
  lemma EffectKeepsOther(r: Ring, e: Effect, o: Local)
    requires Shape(r) && Window(r) && Legal(r, e) && ThreadOk(r, o) && Bystander(o, e)
    ensures Shape(Apply(r, e)) && ThreadOk(Apply(r, e), o)
  {
    match e {
      case Quiet =>
      case Reserve(t) => ReserveKeepsOther(r, t, o);
      case Fill(p, x) => FillKeepsOther(r, p, x, o);
      case Claim(n) => ClaimKeepsOther(r, n, o);
      case Recycle(p, x) => RecycleKeepsOther(r, p, x, o);
    }
  }

  // ---------------------------------------------------------------- the acting thread

  lemma EffectIsLegal(r: Ring, l: Local)
    requires Shape(r) && Window(r) && ThreadOk(r, l)
    ensures Legal(r, EffectOf(r, l))
  {
    if l.PopRecycle? {
      var q := l.pos + |l.out| - 1;
      assert Holds(l, q) && r.cells[Slot(r.cap, q)].seqno == q + 1;
    }
  }

  lemma ScanOne(r: Ring, pos: nat, n: nat)
    requires Shape(r) && Window(r) && Scanned(r, pos, n) && At(r, pos + n).seqno == pos + n + 1
    ensures Scanned(r, pos, n + 1)
  {
    NextLap(r.cap, r.head);
  }

  lemma ClaimOk(r: Ring, n: nat)
    requires Shape(r) && Window(r) && Scanned(r, r.head, n) && n > 0
    ensures Copying(Apply(r, Claim(n)), PopFn(r.head, n, []), r.head, n, [])
  {
    assert r.log[r.head..r.head] == [];
  }

  lemma OneMore(log: seq<Task>, i: nat, p: nat)
    requires i <= p < |log|
    ensures log[i..p + 1] == log[i..p] + [log[p]]
  {
  }

  lemma CopyOne(r: Ring, l: Local)
    requires Shape(r) && Window(r) && l.PopArg? && ThreadOk(r, l)
    ensures ThreadOk(r, Goto(r, l, Pop(0)))
  {
    var p, l' := l.pos + |l.out|, Goto(r, l, Pop(0));
    assert Holds(l, p) && Carries(r.cells[Slot(r.cap, p)], r.log[p]);
    OneMore(r.log, l.pos, p);
    forall q: nat | Holds(l', q)
      ensures var x := r.cells[Slot(r.cap, q)]; x.seqno == q + 1 && r.tail <= q + r.cap && q < |r.log| && Carries(x, r.log[q])
    {
      assert Holds(l, q);
    }
  }

  lemma RecycleOne(r: Ring, l: Local)
    requires Shape(r) && Window(r) && l.PopRecycle? && ThreadOk(r, l)
    ensures ThreadOk(Apply(r, EffectOf(r, l)), Goto(r, l, Pop(0)))
  {
    if |l.out| < l.n {
      var l' := PopFn(l.pos, l.n, l.out);
      assert ThreadOk(r, l') by { assert Copying(r, l, l.pos, l.n, l.out); }
      EffectIsLegal(r, l);
      EffectKeepsOther(r, EffectOf(r, l), l');
    }
  }

  lemma FillOne(r: Ring, l: Local)
    requires Shape(r) && Window(r) && ThreadOk(r, l)
    requires l.PushFn? || l.PushArg? || l.PushPublish?
    ensures ThreadOk(Apply(r, EffectOf(r, l)), Goto(r, l, Pop(0)))
  {
    EffectIsLegal(r, l);
    assert At(Apply(r, EffectOf(r, l)), l.pos) == EffectOf(r, l).x;
  }

  lemma ReserveOne(r: Ring, l: Local)
    requires Shape(r) && Window(r) && ThreadOk(r, l) && l.PushCas?
    ensures ThreadOk(Apply(r, EffectOf(r, l)), Goto(r, l, Pop(0)))
  {
  }

  lemma LoadOne(r: Ring, l: Local, call: Call)
    requires Shape(r) && Window(r) && ThreadOk(r, l)
    requires l.Idle? || l.PushLoad? || l.PushSeq? || l.PopLoad? || l.PopFn?
    ensures ThreadOk(Apply(r, EffectOf(r, l)), Goto(r, l, call))
  {
    if l.PopFn? {
      var p := l.pos + |l.out|;
      assert Holds(l, p) && Carries(r.cells[Slot(r.cap, p)], r.log[p]);
      assert Copying(r, PopArg(l.pos, l.n, l.out, r.log[p].fn), l.pos, l.n, l.out);
    }
  }

  lemma ScanOrClaimOne(r: Ring, l: Local)
    requires Shape(r) && Window(r) && ThreadOk(r, l) && (l.PopSeq? || l.PopCas?)
    ensures ThreadOk(Apply(r, EffectOf(r, l)), Goto(r, l, Pop(0)))
  {
    if l.PopSeq? {
      if At(r, l.pos + l.n).seqno == l.pos + l.n + 1 { ScanOne(r, l.pos, l.n); }
    } else if r.head == l.pos {
      ClaimOk(r, l.n);
    }
  }

  /** After its own step the acting thread's promise holds at its new place. */
  lemma ActorOk(r: Ring, l: Local, call: Call)
    requires Shape(r) && Window(r) && ThreadOk(r, l)
    ensures ThreadOk(Apply(r, EffectOf(r, l)), Goto(r, l, call))
  {
    match l {
      case PushCas(_, _) => ReserveOne(r, l);
      case PushFn(_, _) => FillOne(r, l);
      case PushArg(_, _) => FillOne(r, l);
      case PushPublish(_, _) => FillOne(r, l);
      case PopSeq(_, _, _) => ScanOrClaimOne(r, l);
      case PopCas(_, _, _) => ScanOrClaimOne(r, l);
      case PopArg(_, _, _, _) => CopyOne(r, l);
      case PopRecycle(_, _, _) => RecycleOne(r, l);
      case _ => LoadOne(r, l, call);
    }
  }

  // ---------------------------------------------------------------- every step, every run

  predicate Init(c: State) {
    && Shape(c.r)
    && c.r.head == 0 && c.r.tail == 0 && c.r.log == []
    && (forall i {:trigger c.r.cells[i]} :: 0 <= i < c.r.cap ==> c.r.cells[i].seqno == i)
    && (forall i {:trigger c.threads[i]} :: 0 <= i < |c.threads| ==> c.threads[i] == Idle)
    && c.delivered == multiset{}
  }

  lemma InitInv(c: State)
    requires Init(c)
    ensures Inv(c)
  {
  }

  /** The positions a step adds to the acting thread are ones no thread worked on. */
  lemma NewWork(r: Ring, l: Local, call: Call, p: nat)
    requires Shape(r) && Window(r) && ThreadOk(r, l)
    ensures Holds(Goto(r, l, call), p) ==> Holds(l, p) || r.head <= p
    ensures Uncopied(Goto(r, l, call), p) ==> Uncopied(l, p) || r.head <= p
    ensures Fills(Goto(r, l, call), p) ==> Fills(l, p) || p == r.tail
    ensures l.PopArg? ==> Uncopied(l, l.pos + |l.out|) && !Uncopied(Goto(r, l, call), l.pos + |l.out|)
  {
  }

  lemma OldWork(r: Ring, o: Local, p: nat)
    requires Shape(r) && ThreadOk(r, o)
    ensures Holds(o, p) ==> p < r.head
    ensures Fills(o, p) ==> p < r.tail
  {
  }

  lemma PairStaysApart(c: State, i: nat, call: Call, a: nat, b: nat, p: nat)
    requires Inv(c) && Shape(c.r) && i < |c.threads| && a < b < |c.threads|
    ensures var ts := Next(c, i, call).threads;
            !(Holds(ts[a], p) && Holds(ts[b], p)) && !(Fills(ts[a], p) && Fills(ts[b], p))
  {
    var ts := c.threads;
    assert !(Holds(ts[a], p) && Holds(ts[b], p)) && !(Fills(ts[a], p) && Fills(ts[b], p));
    if i == a {
      NewWork(c.r, ts[a], call, p);
      OldWork(c.r, ts[b], p);
    } else if i == b {
      NewWork(c.r, ts[b], call, p);
      OldWork(c.r, ts[a], p);
    }
  }

  lemma NextKeepsExclusive(c: State, i: nat, call: Call)
    requires Inv(c) && Shape(c.r) && i < |c.threads|
    ensures Exclusive(Next(c, i, call).threads)
  {
    hide Inv, Holds, Fills, Goto, Apply, EffectOf;
    var ts' := Next(c, i, call).threads;
    forall a, b, p: nat | 0 <= a < b < |ts'|
      ensures !(Holds(ts'[a], p) && Holds(ts'[b], p)) && !(Fills(ts'[a], p) && Fills(ts'[b], p))
    {
      PairStaysApart(c, i, call, a, b, p);
    }
  }

  lemma NextKeepsOnce(c: State, i: nat, call: Call)
    requires Inv(c) && i < |c.threads|
    ensures Once(Next(c, i, call))
  {
    var c' := Next(c, i, call);
    var l := c.threads[i];
    EffectIsLegal(c.r, l);
    forall p: nat | c'.delivered[p] > 0
      ensures c'.delivered[p] == 1 && p < c'.r.head
      ensures forall j {:trigger c'.threads[j]} :: 0 <= j < |c'.threads| ==> !Uncopied(c'.threads[j], p)
    {
      NewWork(c.r, l, call, p);
      OldWork(c.r, l, p);
      if l.PopArg? && p == l.pos + |l.out| {
        assert Uncopied(c.threads[i], p);
        forall j | 0 <= j < |c.threads| && j != i ensures !Holds(c.threads[j], p) {
          assert Holds(c.threads[i], p);
        }
      } else {
        assert c.delivered[p] > 0;
      }
    }
  }

  /** The invariant is kept by every step of every thread. */
  lemma NextKeepsInv(c: State, i: nat, call: Call)
    requires Inv(c) && i < |c.threads|
    ensures Inv(Next(c, i, call))
  {
    var c' := Next(c, i, call);
    var l := c.threads[i];
    var e := EffectOf(c.r, l);
    EffectIsLegal(c.r, l);
    EffectKeepsWindow(c.r, e);
    ActorOk(c.r, l, call);
    forall j | 0 <= j < |c.threads| && j != i ensures ThreadOk(c'.r, c.threads[j]) {
      BystanderOk(c, i, j);
      EffectKeepsOther(c.r, e, c.threads[j]);
    }
    NextKeepsExclusive(c, i, call);
    NextKeepsOnce(c, i, call);
  }

  lemma BystanderOk(c: State, i: nat, j: nat)
    requires Inv(c) && i < |c.threads| && j < |c.threads| && i != j
    ensures Bystander(c.threads[j], EffectOf(c.r, c.threads[i]))
  {
    var l := c.threads[i];
    if l.PopRecycle? { assert Holds(l, l.pos + |l.out| - 1); }
    if l.PushFn? || l.PushArg? || l.PushPublish? { assert Fills(l, l.pos); }
  }

  /** A run: the thread that steps at each moment, and what it calls when it is idle. */
  ghost predicate Schedule(c: State, sched: seq<(nat, Call)>) {
    forall k {:trigger sched[k]} :: 0 <= k < |sched| ==> sched[k].0 < |c.threads|
  }

  ghost function Run(c: State, sched: seq<(nat, Call)>): State
    requires Shape(c.r) && Schedule(c, sched)
    decreases |sched|
  {
    if sched == [] then c else
    var c' := Next(c, sched[0].0, sched[0].1);
    assert Schedule(c', sched[1..]);
    Run(c', sched[1..])
  }

  lemma {:induction false} RunKeepsInv(c: State, sched: seq<(nat, Call)>)
    requires Inv(c) && Schedule(c, sched)
    ensures Inv(Run(c, sched))
    decreases |sched|
  {
    if sched != [] {
      NextKeepsInv(c, sched[0].0, sched[0].1);
      RunKeepsInv(Next(c, sched[0].0, sched[0].1), sched[1..]);
    }
  }

  // ---------------------------------------------------------------- what the program relies on

  /** Safety over every run, for any number of threads: the ring is never over-full, nothing is
      copied twice, a position waiting to be copied still carries the task pushed there, and a
      batch pop has copied exactly the tasks pushed at the positions it claimed. */
  lemma RunIsSafe(c: State, sched: seq<(nat, Call)>, i: nat, p: nat)
    requires Init(c) && Schedule(c, sched) && i < |c.threads|
    ensures var d := Run(c, sched);
      && Inv(d) && i < |d.threads|
      && d.r.head <= d.r.tail <= d.r.head + d.r.cap
      && d.delivered[p] <= 1
      && (Uncopied(d.threads[i], p) ==> p < d.r.head && Carries(At(d.r, p), d.r.log[p]))
      && (var l := d.threads[i]; l.PopRecycle? && |l.out| == l.n ==> l.out == d.r.log[l.pos..l.pos + l.n])
  {
    InitInv(c);
    RunKeepsInv(c, sched);
    RunKeepsThreads(c, sched);
    var d := Run(c, sched);
    assert ThreadOk(d.r, d.threads[i]);
    if Uncopied(d.threads[i], p) {
      assert Carries(d.r.cells[Slot(d.r.cap, p)], d.r.log[p]);
    }
  }

  lemma {:induction false} RunKeepsThreads(c: State, sched: seq<(nat, Call)>)
    requires Shape(c.r) && Schedule(c, sched)
    ensures |Run(c, sched).threads| == |c.threads|
    decreases |sched|
  {
    if sched != [] {
      assert Schedule(Next(c, sched[0].0, sched[0].1), sched[1..]);
      RunKeepsThreads(Next(c, sched[0].0, sched[0].1), sched[1..]);
    }
  }

  predicate InPush(l: Local) {
    l.PushLoad? || l.PushSeq? || l.PushCas? || l.PushFn? || l.PushArg? || l.PushPublish?
  }

  predicate InPop(l: Local) {
    l.PopLoad? || l.PopSeq? || l.PopCas? || l.PopFn? || l.PopArg? || l.PopRecycle?
  }

  /** The cell of the tail still belongs to the previous lap: it is unpublished, unclaimed or not yet
      recycled. */
  predicate FullNow(r: Ring)
    requires Shape(r)
  {
    r.tail >= r.cap && (At(r, r.tail).seqno == r.tail - r.cap || At(r, r.tail).seqno == r.tail - r.cap + 1)
  }

  /** From wherever it is, a push goes on with its task or ends, and it ends only by publishing the
      task or, at an instant when the ring is full, without a trace. */
  lemma PushFailsOnlyWhenFull(c: State, i: nat, call: Call)
    requires Inv(c) && i < |c.threads| && InPush(c.threads[i])
    ensures Shape(Next(c, i, call).r)
    ensures var l, n := c.threads[i], Next(c, i, call);
      && (InPush(n.threads[i]) ==> n.threads[i].t == l.t)
      && (!InPush(n.threads[i]) ==>
            && n.threads[i] == Idle
            && (if l.PushPublish? then
                  l.pos < |n.r.log| && n.r.log[l.pos] == l.t && Carries(At(n.r, l.pos), l.t) && At(n.r, l.pos).seqno == l.pos + 1
                else n.r == c.r && FullNow(c.r)))
  {
    var r, l := c.r, c.threads[i];
    assert ThreadOk(r, l);
    if l.PushSeq? && At(r, l.pos).seqno < l.pos {
      if l.pos < r.tail {
        PassedPositionIsReserved(r, l.pos);
      } else {
        FreeCellsOfFirstLap(r);
        NextLap(r.cap, r.head);
      }
    }
  }

  /** So does a batch pop: it ends with the tasks of everything it claimed, or with nothing after it
      saw its first position unpublished, and then the head, if it has not moved on, is unpublished. */
  lemma PopFailsOnlyAtAnUnpublishedPosition(c: State, i: nat, call: Call)
    requires Inv(c) && i < |c.threads| && InPop(c.threads[i])
    ensures Shape(Next(c, i, call).r)
    ensures var l, n := c.threads[i], Next(c, i, call);
      && (!InPop(n.threads[i]) ==>
            && n.threads[i] == Idle
            && (if l.PopRecycle? then l.pos + l.n <= |n.r.log| && l.out == n.r.log[l.pos..l.pos + l.n]
                else l.PopSeq? && l.n == 0 && n.r == c.r && At(c.r, l.pos).seqno != l.pos + 1 && l.pos <= c.r.head))
      && (l.PopRecycle? && InPop(n.threads[i]) ==> n.threads[i].PopFn? && n.threads[i].pos == l.pos && n.threads[i].n == l.n && n.threads[i].out == l.out)
  {
    assert ThreadOk(c.r, c.threads[i]);
    EffectIsLegal(c.r, c.threads[i]);
  }

  /** A position below the tail has been reserved: its cell never shows an older lap again. */
  lemma {:induction false} PassedPositionIsReserved(r: Ring, pos: nat)
    requires Shape(r) && Window(r) && pos < r.tail
    ensures At(r, pos).seqno >= pos
    decreases r.head + r.cap - pos
  {
    if pos < r.head {
      if pos + r.cap < r.tail {
        PassedPositionIsReserved(r, pos + r.cap);
      } else {
        assert r.tail <= pos + r.cap < r.head + r.cap;
        assert r.cells[Slot(r.cap, pos + r.cap)].seqno >= pos;
      }
      NextLap(r.cap, pos);
    }
  }

  lemma FreeCellsOfFirstLap(r: Ring)
    requires Shape(r) && Window(r)
    ensures r.tail == r.head + r.cap || At(r, r.tail).seqno == r.tail
            || (r.tail >= r.cap && At(r, r.tail).seqno == r.tail - r.cap + 1)
  {
  }

  // ---------------------------------------------------------------- refinement

  predicate Published(r: Ring, p: nat)
    requires Shape(r)
  {
    p < r.tail && (p < r.head || r.cells[Slot(r.cap, p)].seqno == p + 1)
  }

  /** The abstract shard a concrete ring stands for. */
  function Abs(r: Ring): RingSpec.Shard<Task>
    requires Shape(r)
  {
    RingSpec.Shard(r.head, r.log, set p: nat | p < r.tail && Published(r, p))
  }

  /** Every step of the ring is one operation of the abstract shard, or invisible to it; and
      what a consumer concludes from a seqno is what the abstract shard lets it conclude. */
  lemma StepRefinesShard(c: State, i: nat, call: Call)
    requires Inv(c) && i < |c.threads|
    ensures
      var r, l := c.r, c.threads[i];
      var a, a' := Abs(r), Abs(Apply(r, EffectOf(r, l)));
      && RingSpec.Valid(a)
      && (match EffectOf(r, l)
          case Quiet => a' == a
          case Reserve(t) => a' == RingSpec.Reserve(a, t)
          case Fill(p, x) => a' == if l.PushPublish? then RingSpec.Publish(a, p) else a
          case Claim(n) => RingSpec.Claimable(a, l.pos, n) && a' == RingSpec.Claim(a, n)
          case Recycle(_, _) => a' == a)
      && (l.PopSeq? ==> RingSpec.MaySee(a, l.pos + l.n, At(r, l.pos + l.n).seqno == l.pos + l.n + 1))
  {
    var r, l := c.r, c.threads[i];
    assert ThreadOk(r, l);
    EffectIsLegal(r, l);
    match EffectOf(r, l) {
      case Quiet =>
      case Reserve(t) => ReserveRefines(r, t);
      case Fill(p, x) => FillRefines(r, p, x);
      case Claim(n) => ClaimRefines(r, n);
      case Recycle(p, x) => RecycleRefines(r, p, x);
    }
    if l.PopSeq? { SeenRefines(r, l.pos + l.n); }
  }

  lemma ReserveRefines(r: Ring, t: Task)
    requires Shape(r) && Window(r) && Legal(r, Reserve(t))
    ensures Abs(Apply(r, Reserve(t))) == RingSpec.Reserve(Abs(r), t)
  {
    var r' := Apply(r, Reserve(t));
    RoomAtTail(r);
    forall p: nat ensures Published(r', p) <==> Published(r, p) {
    }
    assert Abs(r').pub == Abs(r).pub;
  }

  lemma FillRefines(r: Ring, p: nat, x: Cell)
    requires Shape(r) && Window(r) && Legal(r, Fill(p, x))
    ensures Abs(Put(r, p, x)) == if x.seqno == p + 1 then RingSpec.Publish(Abs(r), p) else Abs(r)
  {
    var r' := Put(r, p, x);
    forall q: nat ensures Published(r', q) <==> Published(r, q) || (q == p && x.seqno == p + 1) {
      if r.head <= q < r.tail && q != p { FillMissesWindow(r, p, q); }
    }
    assert Abs(r').pub == if x.seqno == p + 1 then Abs(r).pub + {p} else Abs(r).pub;
  }

  lemma FillMissesWindow(r: Ring, p: nat, q: nat)
    requires Shape(r) && Window(r) && r.head <= p < r.tail && r.head <= q < r.tail && p != q
    ensures Slot(r.cap, p) != Slot(r.cap, q)
  {
    if p < q { SlotInjective(r.cap, p, q); } else { SlotInjective(r.cap, q, p); }
  }

  lemma ClaimRefines(r: Ring, n: nat)
    requires Shape(r) && Window(r) && Scanned(r, r.head, n)
    ensures RingSpec.Claimable(Abs(r), r.head, n)
    ensures Abs(Apply(r, Claim(n))) == RingSpec.Claim(Abs(r), n)
  {
    var r' := Apply(r, Claim(n));
    forall p: nat ensures Published(r', p) <==> Published(r, p) {
      var s := Slot(r.cap, p);
    }
    assert Abs(r').pub == Abs(r).pub;
  }

  lemma RecycleRefines(r: Ring, p: nat, x: Cell)
    requires Shape(r) && Window(r) && Legal(r, Recycle(p, x))
    ensures Abs(Put(r, p, x)) == Abs(r)
  {
    var r' := Put(r, p, x);
    forall q: nat ensures Published(r', q) <==> Published(r, q) {
      if r.head <= q < r.tail { RecycleMisses(r, p, x, q); }
    }
    assert Abs(r').pub == Abs(r).pub;
  }

  /** From the head on, a seqno of p + 1 says exactly that p is published. */
  lemma SeenRefines(r: Ring, p: nat)
    requires Shape(r) && Window(r)
    ensures RingSpec.MaySee(Abs(r), p, At(r, p).seqno == p + 1)
  {
    if p >= r.tail && At(r, p).seqno == p + 1 {
      BeyondTheTail(r, p);
    }
  }

  /** No cell carries the seqno of a publication that has not happened. */
  lemma {:induction false} BeyondTheTail(r: Ring, p: nat)
    requires Shape(r) && Window(r) && p >= r.tail
    ensures At(r, p).seqno <= p
    decreases p
  {
    if p >= r.head + r.cap {
      NextLap(r.cap, p - r.cap);
      if p - r.cap >= r.tail {
        BeyondTheTail(r, p - r.cap);
      } else {
        assert r.cells[Slot(r.cap, p - r.cap)].seqno <= p;
      }
    }
  }
}
