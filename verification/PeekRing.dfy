/** The generic multi-producer multi-consumer ring with its peek guard, one atomic access or one
    copied word per step, for any number of threads that push, pop and peek. Items are copied
    word by word, so a reader could see a torn item if nothing prevented it. */
module PeekRing {
  import opened Slots

  type Item = seq<int>

  const MAX_READERS: int := 0x7FFF_FFFF

  datatype Local =
    | Idle
    | PushLoad(x: Item)                          // about to load tail
    | PushSeq(x: Item, pos: nat)                 // about to load the slot's seqno
    | PushCas(x: Item, pos: nat)                 // about to CAS tail
    | PushLock(x: Item, pos: nat)                // ring_writer_lock: about to CAS the guard 0 -> -1
    | PushCopy(x: Item, pos: nat, k: nat)        // about to write word k
    | PushUnlock(x: Item, pos: nat)              // about to reset the guard
    | PushPublish(x: Item, pos: nat)             // about to store seqno = pos + 1
    | PopLoad                                    // about to load head
    | PopSeq(pos: nat)
    | PopCas(pos: nat)
    | PopCopy(pos: nat, out: Item)               // about to read word |out|
    | PopRecycle(pos: nat, out: Item)            // about to store seqno = pos + cap
    | PeekLoad(tries: nat)                       // about to load head
    | PeekSeq(tries: nat, pos: nat)              // first seqno check
    | PeekGuard(tries: nat, pos: nat)            // ring_reader_lock: about to load the guard
    | PeekLock(tries: nat, pos: nat, seen: int)  // about to CAS the guard seen -> seen + 1
    | PeekHead(tries: nat, pos: nat)             // holds the guard, about to re-read head
    | PeekSeq2(tries: nat, pos: nat)             // about to re-read the seqno
    | PeekCopy(pos: nat, out: Item)              // about to read word |out|
    | PeekUnlock(tries: nat, pos: nat, ok: bool, out: Item)

  /** `log` is history: the item whose producer reserved each position. */
  datatype Ring = Ring(cap: nat, width: nat, head: nat, tail: nat,
                       seqno: seq<nat>, guard: seq<int>, items: seq<Item>, log: seq<Item>)

  datatype State = State(r: Ring, threads: seq<Local>)

  datatype Call = Push(x: Item) | Pop | Peek

  predicate Shape(r: Ring) {
    r.cap >= 1 && r.width >= 1 && |r.seqno| == |r.guard| == |r.items| == r.cap
  }

  function SeqAt(r: Ring, p: nat): nat
    requires Shape(r)
  {
    r.seqno[Slot(r.cap, p)]
  }

  function GuardAt(r: Ring, p: nat): int
    requires Shape(r)
  {
    r.guard[Slot(r.cap, p)]
  }

  function ItemAt(r: Ring, p: nat): Item
    requires Shape(r)
  {
    r.items[Slot(r.cap, p)]
  }

  datatype Effect =
    | Quiet
    | Reserve(x: Item)
    | SetGuard(p: nat, v: int)
    | Write(p: nat, x: Item)           // the slot's item after one more word
    | Publish(p: nat)
    | Claim
    | Recycle(p: nat)

  function EffectOf(r: Ring, l: Local): Effect
    requires Shape(r)
  {
    match l
    case PushCas(x, pos) => if r.tail == pos then Reserve(x) else Quiet
    case PushLock(_, pos) => if GuardAt(r, pos) == 0 then SetGuard(pos, -1) else Quiet
    case PushCopy(x, pos, k) =>
      var cur := ItemAt(r, pos);
      if k < |x| && k < |cur| then Write(pos, cur[k := x[k]]) else Quiet
    case PushUnlock(_, pos) => SetGuard(pos, 0)
    case PushPublish(_, pos) => Publish(pos)
    case PopCas(pos) => if r.head == pos then Claim else Quiet
    case PopRecycle(pos, _) => Recycle(pos)
    case PeekLock(_, pos, seen) => if GuardAt(r, pos) == seen then SetGuard(pos, seen + 1) else Quiet
    case PeekUnlock(_, pos, _, _) => SetGuard(pos, GuardAt(r, pos) - 1)
    case _ => Quiet
  }

  function Apply(r: Ring, e: Effect): Ring
    requires Shape(r)
  {
    match e
    case Quiet => r
    case Reserve(x) => r.(tail := r.tail + 1, log := r.log + [x])
    case SetGuard(p, v) => r.(guard := r.guard[Slot(r.cap, p) := v])
    case Write(p, x) => r.(items := r.items[Slot(r.cap, p) := x])
    case Publish(p) => r.(seqno := r.seqno[Slot(r.cap, p) := p + 1])
    case Claim => r.(head := r.head + 1)
    case Recycle(p) => r.(seqno := r.seqno[Slot(r.cap, p) := p + r.cap])
  }

  /** ring_reader_lock gave up: the peek tries again, four times in all. */
  function Retry(tries: nat): Local {
    if tries + 1 < 4 then PeekLoad(tries + 1) else Idle
  }

  function TryLock(tries: nat, pos: nat, seen: int): Local {
    if seen < 0 || seen == MAX_READERS then Retry(tries) else PeekLock(tries, pos, seen)
  }

  function Word(x: Item, k: nat): int {
    if k < |x| then x[k] else 0
  }

  function Goto(r: Ring, l: Local, call: Call): Local
    requires Shape(r)
  {
    match l
    case Idle =>
      (match call
       case Push(x) => if |x| == r.width then PushLoad(x) else Idle
       case Pop => PopLoad
       case Peek => PeekLoad(0))
    case PushLoad(x) => PushSeq(x, r.tail)
    case PushSeq(x, pos) =>
      var diff := SeqAt(r, pos) - pos;
      if diff == 0 then PushCas(x, pos) else if diff < 0 then Idle else PushLoad(x)
    case PushCas(x, pos) => if r.tail == pos then PushLock(x, pos) else PushLoad(x)
    case PushLock(x, pos) => if GuardAt(r, pos) == 0 then PushCopy(x, pos, 0) else l
    case PushCopy(x, pos, k) => if k + 1 < r.width then PushCopy(x, pos, k + 1) else PushUnlock(x, pos)
    case PushUnlock(x, pos) => PushPublish(x, pos)
    case PushPublish(_, _) => Idle
    case PopLoad => PopSeq(r.head)
    case PopSeq(pos) =>
      var diff := SeqAt(r, pos) - (pos + 1);
      if diff == 0 then PopCas(pos) else if diff < 0 then Idle else PopLoad
    case PopCas(pos) => if r.head == pos then PopCopy(pos, []) else PopLoad
    case PopCopy(pos, out) =>
      var out' := out + [Word(ItemAt(r, pos), |out|)];
      if |out'| < r.width then PopCopy(pos, out') else PopRecycle(pos, out')
    case PopRecycle(_, _) => Idle
    case PeekLoad(tries) => PeekSeq(tries, r.head)
    case PeekSeq(tries, pos) => if SeqAt(r, pos) != pos + 1 then Idle else PeekGuard(tries, pos)
    case PeekGuard(tries, pos) => TryLock(tries, pos, GuardAt(r, pos))
    case PeekLock(tries, pos, seen) =>
      if GuardAt(r, pos) == seen then PeekHead(tries, pos) else TryLock(tries, pos, GuardAt(r, pos))
    case PeekHead(tries, pos) => if r.head == pos then PeekSeq2(tries, pos) else PeekUnlock(tries, pos, false, [])
    case PeekSeq2(tries, pos) => if SeqAt(r, pos) == pos + 1 then PeekCopy(pos, []) else PeekUnlock(tries, pos, false, [])
    case PeekCopy(pos, out) =>
      var out' := out + [Word(ItemAt(r, pos), |out|)];
      if |out'| < r.width then PeekCopy(pos, out') else PeekUnlock(0, pos, true, out')
    case PeekUnlock(tries, _, ok, _) => if ok then Idle else Retry(tries)
  }

  function Next(c: State, i: nat, call: Call): State
    requires Shape(c.r) && i < |c.threads|
  {
    var l := c.threads[i];
    State(Apply(c.r, EffectOf(c.r, l)), c.threads[i := Goto(c.r, l, call)])
  }

  // ---------------------------------------------------------------- invariant

  predicate Fills(l: Local, p: nat) {
    (l.PushLock? || l.PushCopy? || l.PushUnlock? || l.PushPublish?) && l.pos == p
  }

  predicate Takes(l: Local, p: nat) {
    (l.PopCopy? || l.PopRecycle?) && l.pos == p
  }

  /** Inside the writer lock, or inside the reader lock, of slot `i`. */
  predicate Writing(cap: nat, l: Local, i: nat)
    requires cap > 0
  {
    (l.PushCopy? || l.PushUnlock?) && Slot(cap, l.pos) == i
  }

  predicate Reading(cap: nat, l: Local, i: nat)
    requires cap > 0
  {
    (l.PeekHead? || l.PeekSeq2? || l.PeekCopy? || l.PeekUnlock?) && Slot(cap, l.pos) == i
  }

  function ReadersIn(cap: nat, ts: seq<Local>, i: nat, n: nat): nat
    requires cap > 0 && n <= |ts|
  {
    if n == 0 then 0 else ReadersIn(cap, ts, i, n - 1) + if Reading(cap, ts[n - 1], i) then 1 else 0
  }

  /** What each seqno of the current lap can be, and which item a published slot carries. */
  ghost predicate Window(r: Ring)
    requires Shape(r)
  {
    && r.cap >= 2
    && r.head <= r.tail <= r.head + r.cap
    && |r.log| == r.tail
    && (forall i {:trigger r.items[i]} :: 0 <= i < r.cap ==> |r.items[i]| == r.width)
    && (forall p: nat {:trigger Slot(r.cap, p)} :: r.head <= p < r.tail ==>
          var s := r.seqno[Slot(r.cap, p)];
          (s == p || s == p + 1) && (s == p + 1 ==> r.items[Slot(r.cap, p)] == r.log[p]))
    && (forall p: nat {:trigger Slot(r.cap, p)} :: r.tail <= p < r.head + r.cap ==>
          var s := r.seqno[Slot(r.cap, p)];
          s == p || (p >= r.cap && s == p - r.cap + 1 && r.items[Slot(r.cap, p)] == r.log[p - r.cap]))
  }

  predicate Filling(r: Ring, x: Item, pos: nat)
    requires Shape(r)
  {
    r.head <= pos < r.tail && SeqAt(r, pos) == pos && pos < |r.log| && r.log[pos] == x && |x| == r.width
  }

  predicate Taking(r: Ring, pos: nat)
    requires Shape(r)
  {
    pos < r.head && SeqAt(r, pos) == pos + 1 && r.tail <= pos + r.cap && pos < |r.log| && ItemAt(r, pos) == r.log[pos]
    && |r.log[pos]| == r.width
  }

  predicate ThreadOk(r: Ring, l: Local)
    requires Shape(r)
  {
    match l
    case Idle => true
    case PushLoad(x) => |x| == r.width
    case PushSeq(x, pos) => |x| == r.width && pos <= r.tail
    case PushCas(x, pos) => |x| == r.width && pos <= r.tail && (pos == r.tail ==> SeqAt(r, pos) == pos)
    case PushLock(x, pos) => Filling(r, x, pos)
    case PushCopy(x, pos, k) => Filling(r, x, pos) && k < r.width && |ItemAt(r, pos)| == r.width && ItemAt(r, pos)[..k] == x[..k]
    case PushUnlock(x, pos) => Filling(r, x, pos) && ItemAt(r, pos) == x
    case PushPublish(x, pos) => Filling(r, x, pos) && ItemAt(r, pos) == x
    case PopLoad => true
    case PopSeq(pos) => pos <= r.head
    case PopCas(pos) => pos <= r.head && (pos == r.head ==> pos < r.tail && SeqAt(r, pos) == pos + 1)
    case PopCopy(pos, out) => Taking(r, pos) && |out| < r.width && out == r.log[pos][..|out|]
    case PopRecycle(pos, out) => Taking(r, pos) && out == r.log[pos]
    case PeekLoad(_) => true
    case PeekSeq(_, pos) => pos <= r.head
    case PeekGuard(_, pos) => pos <= r.head
    case PeekLock(_, pos, seen) => pos <= r.head && seen >= 0
    case PeekHead(_, pos) => pos <= r.head
    case PeekSeq2(_, pos) => pos <= r.head
    case PeekCopy(pos, out) =>
      pos < |r.log| && ItemAt(r, pos) == r.log[pos] && |r.log[pos]| == r.width && |out| < r.width && out == r.log[pos][..|out|]
    case PeekUnlock(_, pos, ok, out) => ok ==> pos < |r.log| && out == r.log[pos]
  }

  /** The guard word counts the readers inside, or is -1 with a writer inside and no reader. */
  ghost predicate Guarded(c: State)
    requires Shape(c.r)
  {
    && (forall i {:trigger c.r.guard[i]} :: 0 <= i < c.r.cap ==>
          && c.r.guard[i] >= -1
          && ReadersIn(c.r.cap, c.threads, i, |c.threads|) == (if c.r.guard[i] < 0 then 0 else c.r.guard[i]))
    && (forall t {:trigger c.threads[t]} :: 0 <= t < |c.threads| ==>
          var l := c.threads[t]; (l.PushCopy? || l.PushUnlock?) ==> GuardAt(c.r, l.pos) == -1)
  }

  predicate Apart(a: Local, b: Local, p: nat) {
    !(Takes(a, p) && Takes(b, p)) && !(Fills(a, p) && Fills(b, p))
  }

  /** No two threads work on the same position. */
  ghost predicate Exclusive(ts: seq<Local>) {
    forall i, j, p: nat {:trigger Apart(ts[i], ts[j], p)} ::
      0 <= i < |ts| && 0 <= j < |ts| && i != j ==> Apart(ts[i], ts[j], p)
  }

  ghost predicate Inv(c: State) {
    && Shape(c.r)
    && Window(c.r)
    && (forall i {:trigger c.threads[i]} :: 0 <= i < |c.threads| ==> ThreadOk(c.r, c.threads[i]))
    && Exclusive(c.threads)
    && Guarded(c)
  }

  // ---------------------------------------------------------------- effects on the window

  ghost predicate Legal(r: Ring, e: Effect)
    requires Shape(r)
  {
    match e
    case Quiet => true
    case Reserve(x) => SeqAt(r, r.tail) == r.tail
    case SetGuard(_, _) => true
    case Write(p, x) => r.head <= p < r.tail && SeqAt(r, p) == p && |x| == r.width
    case Publish(p) => r.head <= p < r.tail == |r.log| && SeqAt(r, p) == p && ItemAt(r, p) == r.log[p]
    case Claim => r.head < r.tail && SeqAt(r, r.head) == r.head + 1
    case Recycle(p) => p < r.head && r.tail <= p + r.cap && SeqAt(r, p) == p + 1
  }

  /** A reservable tail is a free position: a full ring would show the head's seqno there. */
  lemma RoomAtTail(r: Ring)
    requires Shape(r) && Window(r) && SeqAt(r, r.tail) == r.tail
    ensures r.tail < r.head + r.cap
  {
    NextLap(r.cap, r.head);
  }

  lemma ClaimKeepsWindow(r: Ring)
    requires Shape(r) && Window(r) && Legal(r, Claim)
    ensures Window(Apply(r, Claim))
  {
    NextLap(r.cap, r.head);
  }

  lemma PublishKeepsWindow(r: Ring, p: nat)
    requires Shape(r) && Window(r) && Legal(r, Publish(p))
    ensures Window(Apply(r, Publish(p)))
  {
    OneLap(r.cap, p);
  }

  lemma WriteKeepsWindow(r: Ring, p: nat, x: Item)
    requires Shape(r) && Window(r) && Legal(r, Write(p, x))
    ensures Window(Apply(r, Write(p, x)))
  {
    OneLap(r.cap, p);
  }

  lemma RecycleKeepsWindow(r: Ring, p: nat)
    requires Shape(r) && Window(r) && Legal(r, Recycle(p))
    ensures Window(Apply(r, Recycle(p)))
  {
    NextLap(r.cap, p);
    OneLap(r.cap, p + r.cap);
  }

  lemma EffectKeepsWindow(r: Ring, e: Effect)
    requires Shape(r) && Window(r) && Legal(r, e)
    ensures Shape(Apply(r, e)) && Window(Apply(r, e))
  {
    match e {
      case Quiet =>
      case Reserve(_) => RoomAtTail(r);
      case SetGuard(_, _) =>
      case Write(p, x) => WriteKeepsWindow(r, p, x);
      case Publish(p) => PublishKeepsWindow(r, p);
      case Claim => ClaimKeepsWindow(r);
      case Recycle(p) => RecycleKeepsWindow(r, p);
    }
  }

  // ---------------------------------------------------------------- effects on other threads

  /** The slot an effect writes is not one that thread `o` is entitled to, nor being peeked at. */
  predicate Bystander(r: Ring, o: Local, e: Effect)
    requires Shape(r)
  {
    match e
    case Write(p, _) => !Fills(o, p) && (o.PeekCopy? ==> Slot(r.cap, o.pos) != Slot(r.cap, p))
    case Publish(p) => !Fills(o, p)
    case Recycle(p) => !Takes(o, p)
    case _ => true
  }

  /** Thread `o` has made up its mind about the slot of its position. */
  predicate Engaged(r: Ring, o: Local) {
    || (o.PushCas? && o.pos == r.tail)
    || o.PushLock? || o.PushCopy? || o.PushUnlock? || o.PushPublish?
    || (o.PopCas? && o.pos == r.head)
    || o.PopCopy? || o.PopRecycle?
  }

  /** The slot that is being filled or published is not the one an engaged bystander counts on. */
  lemma FillMisses(r: Ring, p: nat, o: Local)
    requires Shape(r) && Window(r) && ThreadOk(r, o) && Engaged(r, o) && !Fills(o, p)
    requires r.head <= p < r.tail && SeqAt(r, p) == p
    ensures Slot(r.cap, o.pos) != Slot(r.cap, p)
  {
    if o.PushCas? { RoomAtTail(r); }
    if o.pos < p {
      SlotInjective(r.cap, o.pos, p);
    } else if p < o.pos {
      SlotInjective(r.cap, p, o.pos);
    }
  }

  lemma RecycleMisses(r: Ring, p: nat, o: Local)
    requires Shape(r) && Window(r) && ThreadOk(r, o) && Engaged(r, o) && !Takes(o, p)
    requires Legal(r, Recycle(p))
    ensures Slot(r.cap, o.pos) != Slot(r.cap, p)
  {
    if o.PushCas? { RoomAtTail(r); }
    NextLap(r.cap, p);
    if o.pos < p {
      SlotInjective(r.cap, o.pos, p);
    } else if p < o.pos < p + r.cap {
      SlotInjective(r.cap, p, o.pos);
    }
  }

  lemma ReserveKeepsTaking(r: Ring, x: Item, pos: nat)
    requires Shape(r) && r.cap >= 2 && Legal(r, Reserve(x)) && Taking(r, pos)
    ensures Taking(Apply(r, Reserve(x)), pos)
  {
    NextLap(r.cap, pos);
  }

  lemma ReserveKeepsOther(r: Ring, x: Item, o: Local)
    requires Shape(r) && Window(r) && Legal(r, Reserve(x)) && ThreadOk(r, o)
    ensures ThreadOk(Apply(r, Reserve(x)), o)
  {
    if o.PopCopy? || o.PopRecycle? { ReserveKeepsTaking(r, x, o.pos); }
  }

  lemma ClaimKeepsOther(r: Ring, o: Local)
    requires Shape(r) && Window(r) && Legal(r, Claim) && ThreadOk(r, o)
    ensures ThreadOk(Apply(r, Claim), o)
  {
  }

  lemma WriteKeepsOther(r: Ring, p: nat, x: Item, o: Local)
    requires Shape(r) && Window(r) && Legal(r, Write(p, x)) && ThreadOk(r, o) && Bystander(r, o, Write(p, x))
    ensures ThreadOk(Apply(r, Write(p, x)), o)
  {
    if Engaged(r, o) { FillMisses(r, p, o); }
  }

  lemma PublishKeepsOther(r: Ring, p: nat, o: Local)
    requires Shape(r) && Window(r) && Legal(r, Publish(p)) && ThreadOk(r, o) && Bystander(r, o, Publish(p))
    ensures ThreadOk(Apply(r, Publish(p)), o)
  {
    if Engaged(r, o) { FillMisses(r, p, o); }
  }

  lemma RecycleKeepsOther(r: Ring, p: nat, o: Local)
    requires Shape(r) && Window(r) && Legal(r, Recycle(p)) && ThreadOk(r, o) && Bystander(r, o, Recycle(p))
    ensures ThreadOk(Apply(r, Recycle(p)), o)
  {
    if Engaged(r, o) { RecycleMisses(r, p, o); }
  }

  lemma EffectKeepsOther(r: Ring, e: Effect, o: Local)
    requires Shape(r) && Window(r) && Legal(r, e) && ThreadOk(r, o) && Bystander(r, o, e)
    ensures Shape(Apply(r, e)) && ThreadOk(Apply(r, e), o)
  {
    match e {
      case Quiet =>
      case Reserve(x) => ReserveKeepsOther(r, x, o);
      case SetGuard(_, _) =>
      case Write(p, x) => WriteKeepsOther(r, p, x, o);
      case Publish(p) => PublishKeepsOther(r, p, o);
      case Claim => ClaimKeepsOther(r, o);
      case Recycle(p) => RecycleKeepsOther(r, p, o);
    }
  }

  // ---------------------------------------------------------------- the acting thread

  lemma EffectIsLegal(r: Ring, l: Local)
    requires Shape(r) && Window(r) && ThreadOk(r, l)
    ensures Legal(r, EffectOf(r, l))
  {
  }

  lemma {:induction false} PassedPositionIsReserved(r: Ring, pos: nat)
    requires Shape(r) && Window(r) && pos < r.tail
    ensures SeqAt(r, pos) >= pos
    decreases r.head + r.cap - pos
  {
    if pos < r.head {
      if pos + r.cap < r.tail {
        PassedPositionIsReserved(r, pos + r.cap);
      } else {
        assert r.seqno[Slot(r.cap, pos + r.cap)] >= pos;
      }
      NextLap(r.cap, pos);
    }
  }

  /** A slot whose seqno says "position pos is published" carries the item pushed at pos, even if
      other threads have claimed it meanwhile. */
  lemma PublishedCarries(r: Ring, pos: nat)
    requires Shape(r) && Window(r) && pos <= r.head && SeqAt(r, pos) == pos + 1
    ensures pos < r.tail && ItemAt(r, pos) == r.log[pos] && |r.log[pos]| == r.width
  {
    NextLap(r.cap, pos);
    NextLap(r.cap, r.head);
    if pos < r.head && pos + r.cap < r.tail {
      PassedPositionIsReserved(r, pos + r.cap);
    } else if pos < r.head {
      assert r.items[Slot(r.cap, pos + r.cap)] == r.log[pos];
    }
  }

  lemma WriteOne(r: Ring, l: Local)
    requires Shape(r) && Window(r) && ThreadOk(r, l) && l.PushCopy?
    ensures ThreadOk(Apply(r, EffectOf(r, l)), Goto(r, l, Pop))
  {
    var cur := ItemAt(r, l.pos);
    assert cur[l.k := l.x[l.k]][..l.k + 1] == l.x[..l.k] + [l.x[l.k]];
    assert l.x[..l.k + 1] == l.x[..l.k] + [l.x[l.k]];
    if l.k + 1 == r.width { assert cur[l.k := l.x[l.k]] == l.x by { assert cur[l.k := l.x[l.k]][..r.width] == l.x[..r.width]; } }
  }

  lemma CopyOne(r: Ring, l: Local)
    requires Shape(r) && Window(r) && ThreadOk(r, l) && (l.PopCopy? || l.PeekCopy?)
    ensures ThreadOk(r, Goto(r, l, Pop))
  {
    var x := r.log[l.pos];
    assert x[..|l.out| + 1] == x[..|l.out|] + [x[|l.out|]];
    assert x[..r.width] == x;
  }

  lemma PushOne(r: Ring, l: Local, call: Call)
    requires Shape(r) && Window(r) && ThreadOk(r, l)
    requires l.Idle? || l.PushLoad? || l.PushSeq? || l.PushCas? || l.PushLock? || l.PushUnlock? || l.PushPublish?
    ensures ThreadOk(Apply(r, EffectOf(r, l)), Goto(r, l, call))
  {
    if l.PushLock? { assert ItemAt(r, l.pos)[..0] == l.x[..0]; }
  }

  lemma PopOne(r: Ring, l: Local)
    requires Shape(r) && Window(r) && ThreadOk(r, l)
    requires l.PopLoad? || l.PopSeq? || l.PopCas? || l.PopRecycle?
    ensures ThreadOk(Apply(r, EffectOf(r, l)), Goto(r, l, Pop))
  {
    if SeqAt(r, r.head) == r.head + 1 { PublishedCarries(r, r.head); }
  }

  lemma PeekOne(r: Ring, l: Local)
    requires Shape(r) && Window(r) && ThreadOk(r, l)
    requires l.PeekLoad? || l.PeekSeq? || l.PeekGuard? || l.PeekLock? || l.PeekHead? || l.PeekSeq2? || l.PeekUnlock?
    ensures ThreadOk(Apply(r, EffectOf(r, l)), Goto(r, l, Pop))
  {
    if l.PeekSeq2? && SeqAt(r, l.pos) == l.pos + 1 { PublishedCarries(r, l.pos); }
  }

  lemma ActorOk(r: Ring, l: Local, call: Call)
    requires Shape(r) && Window(r) && ThreadOk(r, l)
    ensures ThreadOk(Apply(r, EffectOf(r, l)), Goto(r, l, call))
  {
    match l {
      case PushCopy(_, _, _) => WriteOne(r, l);
      case PopCopy(_, _) => CopyOne(r, l);
      case PeekCopy(_, _) => CopyOne(r, l);
      case PopLoad => PopOne(r, l);
      case PopSeq(_) => PopOne(r, l);
      case PopCas(_) => PopOne(r, l);
      case PopRecycle(_, _) => PopOne(r, l);
      case PeekLoad(_) => PeekOne(r, l);
      case PeekSeq(_, _) => PeekOne(r, l);
      case PeekGuard(_, _) => PeekOne(r, l);
      case PeekLock(_, _, _) => PeekOne(r, l);
      case PeekHead(_, _) => PeekOne(r, l);
      case PeekSeq2(_, _) => PeekOne(r, l);
      case PeekUnlock(_, _, _, _) => PeekOne(r, l);
      case _ => PushOne(r, l, call);
    }
  }

  // ---------------------------------------------------------------- the guard

  lemma {:induction false} ReadersUpdate(cap: nat, ts: seq<Local>, w: nat, l: Local, i: nat, n: nat)
    requires cap > 0 && w < |ts| && n <= |ts|
    ensures ReadersIn(cap, ts[w := l], i, n) - ReadersIn(cap, ts, i, n) ==
            if w < n then (if Reading(cap, l, i) then 1 else 0) - (if Reading(cap, ts[w], i) then 1 else 0) else 0
  {
    if n > 0 { ReadersUpdate(cap, ts, w, l, i, n - 1); }
  }

  lemma {:induction false} ReaderIsCounted(cap: nat, ts: seq<Local>, t: nat, i: nat, n: nat)
    requires cap > 0 && t < n <= |ts| && Reading(cap, ts[t], i)
    ensures ReadersIn(cap, ts, i, n) > 0
  {
    if t < n - 1 { ReaderIsCounted(cap, ts, t, i, n - 1); }
  }

  /** A reader inside the guard of a slot keeps every writer out of it. */
  lemma ReaderExcludesWriter(c: State, t: nat, u: nat, s: nat)
    requires Shape(c.r) && Guarded(c) && t < |c.threads| && u < |c.threads| && s < c.r.cap
    requires Reading(c.r.cap, c.threads[t], s)
    ensures !Writing(c.r.cap, c.threads[u], s)
  {
    ReaderIsCounted(c.r.cap, c.threads, t, s, |c.threads|);
    assert c.r.guard[s] > 0;
  }

  lemma BystanderOk(c: State, i: nat, j: nat)
    requires Inv(c) && i < |c.threads| && j < |c.threads| && i != j
    ensures Bystander(c.r, c.threads[j], EffectOf(c.r, c.threads[i]))
  {
    var l, o := c.threads[i], c.threads[j];
    if l.PushCopy? || l.PushPublish? || l.PopRecycle? { assert Apart(l, o, l.pos); }
    if l.PushCopy? && o.PeekCopy? { ReaderExcludesWriter(c, j, i, Slot(c.r.cap, o.pos)); }
  }

  function Count(b: bool): int {
    if b then 1 else 0
  }

  /** The guard word of slot `s` and the number of readers of one thread move together. */
  ghost predicate GuardMoves(r: Ring, l: Local, call: Call, s: nat)
    requires Shape(r) && s < r.cap
  {
    var g, g' := r.guard[s], Apply(r, EffectOf(r, l)).guard;
    var d := Count(Reading(r.cap, Goto(r, l, call), s)) - Count(Reading(r.cap, l, s));
    && |g'| == r.cap
    && (d != 0 ==> g >= 0 && g'[s] == g + d)
    && (d == 0 ==> g'[s] == g || (g == 0 && g'[s] == -1) || (g == -1 && g'[s] == 0))
    && (g == -1 && g'[s] == 0 ==> Writing(r.cap, l, s))
    && (Writing(r.cap, Goto(r, l, call), s) ==> (Writing(r.cap, l, s) && g'[s] == g) || g'[s] == -1)
  }

  /** What thread `l` knows about the guard word of slot `s`. */
  predicate Knows(r: Ring, l: Local, s: nat)
    requires Shape(r) && s < r.cap
  {
    (Reading(r.cap, l, s) ==> r.guard[s] > 0) && (Writing(r.cap, l, s) ==> r.guard[s] == -1)
  }

  lemma ThreadKnows(c: State, t: nat, s: nat)
    requires Shape(c.r) && Guarded(c) && t < |c.threads| && s < c.r.cap
    ensures Knows(c.r, c.threads[t], s)
  {
    assert c.r.guard[s] >= -1;
    if Reading(c.r.cap, c.threads[t], s) { ReaderIsCounted(c.r.cap, c.threads, t, s, |c.threads|); }
  }

  lemma PushMovesGuard(r: Ring, l: Local, call: Call, s: nat)
    requires Shape(r) && s < r.cap && ThreadOk(r, l) && Knows(r, l, s)
    requires l.PushLock? || l.PushCopy? || l.PushUnlock?
    ensures GuardMoves(r, l, call, s)
  {
  }

  lemma LockMovesGuard(r: Ring, l: Local, s: nat)
    requires Shape(r) && s < r.cap && ThreadOk(r, l) && l.PeekLock?
    ensures GuardMoves(r, l, Pop, s)
  {
  }

  lemma UnlockMovesGuard(r: Ring, l: Local, s: nat)
    requires Shape(r) && s < r.cap && Knows(r, l, s) && l.PeekUnlock?
    ensures GuardMoves(r, l, Pop, s)
  {
  }

  lemma ReaderStays(r: Ring, l: Local, s: nat)
    requires Shape(r) && s < r.cap && (l.PeekHead? || l.PeekSeq2? || l.PeekCopy?)
    ensures GuardMoves(r, l, Pop, s)
  {
    var l' := Goto(r, l, Pop);
    assert (l'.PeekSeq2? || l'.PeekCopy? || l'.PeekUnlock?) && l'.pos == l.pos;
  }

  lemma PushersLeaveGuard(r: Ring, l: Local, call: Call, s: nat)
    requires Shape(r) && s < r.cap
    requires l.Idle? || l.PushLoad? || l.PushSeq? || l.PushCas? || l.PushPublish?
    ensures GuardMoves(r, l, call, s)
  {
    var l' := Goto(r, l, call);
    assert Apply(r, EffectOf(r, l)).guard == r.guard;
    assert l'.Idle? || l'.PushLoad? || l'.PushSeq? || l'.PushCas? || l'.PushLock? || l'.PopLoad? || l'.PeekLoad?;
    hide Goto, Apply, EffectOf;
  }

  lemma PoppersLeaveGuard(r: Ring, l: Local, call: Call, s: nat)
    requires Shape(r) && s < r.cap
    requires l.PopLoad? || l.PopSeq? || l.PopCas? || l.PopCopy? || l.PopRecycle?
    ensures GuardMoves(r, l, call, s)
  {
    var l' := Goto(r, l, call);
    assert Apply(r, EffectOf(r, l)).guard == r.guard;
    assert l'.Idle? || l'.PopLoad? || l'.PopSeq? || l'.PopCas? || l'.PopCopy? || l'.PopRecycle?;
    hide Goto, Apply, EffectOf;
  }

  lemma PeekersLeaveGuard(r: Ring, l: Local, call: Call, s: nat)
    requires Shape(r) && s < r.cap && (l.PeekLoad? || l.PeekSeq? || l.PeekGuard?)
    ensures GuardMoves(r, l, call, s)
  {
  }

  lemma StepMovesGuard(r: Ring, l: Local, call: Call, s: nat)
    requires Shape(r) && s < r.cap && ThreadOk(r, l) && Knows(r, l, s)
    ensures GuardMoves(r, l, call, s)
  {
    if l.PushLock? || l.PushCopy? || l.PushUnlock? {
      PushMovesGuard(r, l, call, s);
    } else if l.PeekLock? {
      LockMovesGuard(r, l, s);
    } else if l.PeekUnlock? {
      UnlockMovesGuard(r, l, s);
    } else if l.PeekHead? || l.PeekSeq2? || l.PeekCopy? {
      ReaderStays(r, l, s);
    } else if l.Idle? || l.PushLoad? || l.PushSeq? || l.PushCas? || l.PushPublish? {
      PushersLeaveGuard(r, l, call, s);
    } else if l.PeekLoad? || l.PeekSeq? || l.PeekGuard? {
      PeekersLeaveGuard(r, l, call, s);
    } else {
      PoppersLeaveGuard(r, l, call, s);
    }
  }

  lemma SlotKeepsGuarded(c: State, i: nat, call: Call, s: nat)
    requires Shape(c.r) && Guarded(c) && i < |c.threads| && s < c.r.cap
    requires GuardMoves(c.r, c.threads[i], call, s)
    ensures var c' := Next(c, i, call);
      && |c'.r.guard| == c.r.cap && c'.r.cap == c.r.cap
      && c'.r.guard[s] >= -1
      && ReadersIn(c'.r.cap, c'.threads, s, |c'.threads|) == (if c'.r.guard[s] < 0 then 0 else c'.r.guard[s])
  {
    ReadersUpdate(c.r.cap, c.threads, i, Goto(c.r, c.threads[i], call), s, |c.threads|);
    assert c.r.guard[s] >= -1;
  }

  /** Two threads that fill positions are never in the same slot. */
  lemma TwoFillers(c: State, i: nat, j: nat, s: nat)
    requires Inv(c) && i < |c.threads| && j < |c.threads| && i != j && s < c.r.cap
    requires Writing(c.r.cap, c.threads[i], s)
    ensures !Writing(c.r.cap, c.threads[j], s)
  {
    var l, o := c.threads[i], c.threads[j];
    assert ThreadOk(c.r, l) && ThreadOk(c.r, o) && Fills(l, l.pos);
    if Writing(c.r.cap, o, s) {
      assert Apart(l, o, l.pos);
      FillMisses(c.r, l.pos, o);
    }
  }

  lemma WriterKeepsGuard(c: State, i: nat, call: Call, t: nat, s: nat)
    requires Inv(c) && i < |c.threads| && t < |c.threads| && s < c.r.cap
    requires GuardMoves(c.r, c.threads[i], call, s)
    requires Writing(c.r.cap, Next(c, i, call).threads[t], s)
    ensures Next(c, i, call).r.guard[s] == -1
  {
    ThreadKnows(c, t, s);
    ThreadKnows(c, i, s);
    if t != i && Writing(c.r.cap, c.threads[i], s) { TwoFillers(c, i, t, s); }
  }

  lemma NextKeepsGuarded(c: State, i: nat, call: Call)
    requires Inv(c) && i < |c.threads| && Shape(Next(c, i, call).r)
    ensures Guarded(Next(c, i, call))
  {
    var c' := Next(c, i, call);
    forall s | 0 <= s < c.r.cap
      ensures c'.r.guard[s] >= -1
      ensures ReadersIn(c'.r.cap, c'.threads, s, |c'.threads|) == (if c'.r.guard[s] < 0 then 0 else c'.r.guard[s])
    {
      ThreadKnows(c, i, s);
      StepMovesGuard(c.r, c.threads[i], call, s);
      SlotKeepsGuarded(c, i, call, s);
    }
    forall t | 0 <= t < |c'.threads| && (c'.threads[t].PushCopy? || c'.threads[t].PushUnlock?)
      ensures GuardAt(c'.r, c'.threads[t].pos) == -1
    {
      var s := Slot(c.r.cap, c'.threads[t].pos);
      ThreadKnows(c, i, s);
      StepMovesGuard(c.r, c.threads[i], call, s);
      WriterKeepsGuard(c, i, call, t, s);
    }
  }

  // ---------------------------------------------------------------- every step, every run

  predicate Init(c: State) {
    && Shape(c.r)
    && c.r.head == 0 && c.r.tail == 0 && c.r.log == []
    && (forall i {:trigger c.r.seqno[i]} :: 0 <= i < c.r.cap ==> c.r.seqno[i] == i)
    && (forall i {:trigger c.r.guard[i]} :: 0 <= i < c.r.cap ==> c.r.guard[i] == 0)
    && (forall i {:trigger c.r.items[i]} :: 0 <= i < c.r.cap ==> |c.r.items[i]| == c.r.width)
    && (forall i {:trigger c.threads[i]} :: 0 <= i < |c.threads| ==> c.threads[i] == Idle)
  }

  lemma {:induction false} NoReaders(cap: nat, ts: seq<Local>, i: nat, n: nat)
    requires cap > 0 && n <= |ts| && forall t {:trigger ts[t]} :: 0 <= t < |ts| ==> ts[t] == Idle
    ensures ReadersIn(cap, ts, i, n) == 0
  {
    if n > 0 { NoReaders(cap, ts, i, n - 1); }
  }

  lemma InitInv(c: State)
    requires Init(c) && c.r.cap >= 2
    ensures Inv(c)
  {
    forall i | 0 <= i < c.r.cap ensures ReadersIn(c.r.cap, c.threads, i, |c.threads|) == 0 {
      NoReaders(c.r.cap, c.threads, i, |c.threads|);
    }
  }

  lemma NewWork(r: Ring, l: Local, call: Call, p: nat)
    requires Shape(r) && ThreadOk(r, l)
    ensures Takes(Goto(r, l, call), p) ==> Takes(l, p) || p == r.head
    ensures Fills(Goto(r, l, call), p) ==> Fills(l, p) || p == r.tail
  {
  }

  lemma OldWork(r: Ring, o: Local, p: nat)
    requires Shape(r) && ThreadOk(r, o)
    ensures Takes(o, p) ==> p < r.head
    ensures Fills(o, p) ==> p < r.tail
  {
  }

  /** A position taken up by a step is nobody else's. */
  lemma StepsApart(r: Ring, l: Local, o: Local, call: Call, p: nat)
    requires Shape(r) && ThreadOk(r, l) && ThreadOk(r, o) && Apart(l, o, p)
    ensures Apart(Goto(r, l, call), o, p)
  {
    NewWork(r, l, call, p);
    OldWork(r, o, p);
  }

  lemma NextKeepsExclusive(c: State, i: nat, call: Call)
    requires Inv(c) && i < |c.threads|
    ensures Exclusive(Next(c, i, call).threads)
  {
    var ts := c.threads;
    var ts' := ts[i := Goto(c.r, ts[i], call)];
    forall a, b, p: nat | 0 <= a < |ts'| && 0 <= b < |ts'| && a != b ensures Apart(ts'[a], ts'[b], p) {
      PairStaysApart(c, i, call, a, b, p);
    }
  }

  lemma PairStaysApart(c: State, i: nat, call: Call, a: nat, b: nat, p: nat)
    requires Inv(c) && i < |c.threads| && a < |c.threads| && b < |c.threads| && a != b
    ensures var ts' := c.threads[i := Goto(c.r, c.threads[i], call)];
      Apart(ts'[a], ts'[b], p)
  {
    var ts := c.threads;
    assert Apart(ts[a], ts[b], p) && ThreadOk(c.r, ts[a]) && ThreadOk(c.r, ts[b]);
    if i == a {
      StepsApart(c.r, ts[a], ts[b], call, p);
    } else if i == b {
      StepsApart(c.r, ts[b], ts[a], call, p);
    }
  }

  /** The invariant is kept by every step of every thread. */
  lemma NextKeepsInv(c: State, i: nat, call: Call)
    requires Inv(c) && i < |c.threads|
    ensures Inv(Next(c, i, call))
  {
    var c' := Next(c, i, call);
    var l := c.threads[i];
    var e := EffectOf(c.r, l);
    assert ThreadOk(c.r, l);
    EffectIsLegal(c.r, l);
    EffectKeepsWindow(c.r, e);
    ActorOk(c.r, l, call);
    forall j | 0 <= j < |c.threads| && j != i ensures ThreadOk(c'.r, c.threads[j]) {
      BystanderOk(c, i, j);
      EffectKeepsOther(c.r, e, c.threads[j]);
    }
    NextKeepsExclusive(c, i, call);
    NextKeepsGuarded(c, i, call);
  }

  ghost predicate Schedule(c: State, sched: seq<(nat, Call)>) {
    forall k {:trigger sched[k]} :: 0 <= k < |sched| ==> sched[k].0 < |c.threads|
  }

  ghost function Run(c: State, sched: seq<(nat, Call)>): State
    requires Shape(c.r) && Schedule(c, sched)
    decreases |sched|
  {
    if sched == [] then c else
    var c' := Next(c, sched[0].0, sched[0].1);
    assert Schedule(c', sched[1..]);
    Run(c', sched[1..])
  }

  lemma {:induction false} RunKeepsInv(c: State, sched: seq<(nat, Call)>)
    requires Inv(c) && Schedule(c, sched)
    ensures Inv(Run(c, sched)) && |Run(c, sched).threads| == |c.threads|
    decreases |sched|
  {
    if sched != [] {
      NextKeepsInv(c, sched[0].0, sched[0].1);
      assert Schedule(Next(c, sched[0].0, sched[0].1), sched[1..]);
      RunKeepsInv(Next(c, sched[0].0, sched[0].1), sched[1..]);
    }
  }

  // ---------------------------------------------------------------- what callers rely on

  /** Over every run: a peek that succeeds returns, whole, the item pushed at its position, and a
      pop returns the item pushed at the position it claimed. */
  lemma PeekAndPopReturnWholeItems(c: State, sched: seq<(nat, Call)>, i: nat)
    requires Init(c) && c.r.cap >= 2 && Schedule(c, sched) && i < |c.threads|
    ensures var d := Run(c, sched);
      && Inv(d) && i < |d.threads|
      && (var l := d.threads[i];
          && (l.PeekUnlock? && l.ok ==> l.pos < |d.r.log| && l.out == d.r.log[l.pos])
          && (l.PopRecycle? ==> l.pos < |d.r.log| && l.out == d.r.log[l.pos]))
  {
    InitInv(c);
    RunKeepsInv(c, sched);
    assert ThreadOk(Run(c, sched).r, Run(c, sched).threads[i]);
  }

  /** The position a peek copies was the head at its second check, and its item was still
      published there when the seqno was checked right after. */
  lemma PeekedPositionWasHead(c: State, i: nat, call: Call)
    requires Inv(c) && i < |c.threads|
    ensures var l, l' := c.threads[i], Next(c, i, call).threads[i];
      && (l'.PeekSeq2? ==> l.PeekHead? && l'.pos == l.pos == c.r.head)
      && (l'.PeekCopy? && l.PeekSeq2? ==>
            l'.pos == l.pos < c.r.tail && SeqAt(c.r, l.pos) == l.pos + 1 && ItemAt(c.r, l.pos) == c.r.log[l.pos])
      && (l'.PeekCopy? ==> l.PeekSeq2? || (l.PeekCopy? && l.pos == l'.pos))
      && (l'.PeekUnlock? && l'.ok ==> l.PeekCopy? && l.pos == l'.pos)
  {
    var l := c.threads[i];
    assert ThreadOk(c.r, l);
    if l.PeekSeq2? && SeqAt(c.r, l.pos) == l.pos + 1 { PublishedCarries(c.r, l.pos); }
  }

  /** While a peek copies, no step of any thread changes the slot it copies from. */
  lemma PeekedSlotIsStable(c: State, i: nat, j: nat, call: Call)
    requires Inv(c) && i < |c.threads| && j < |c.threads| && i != j && c.threads[j].PeekCopy?
    ensures Shape(Next(c, i, call).r) && ItemAt(Next(c, i, call).r, c.threads[j].pos) == ItemAt(c.r, c.threads[j].pos)
  {
    NextKeepsInv(c, i, call);
    BystanderOk(c, i, j);
  }

  predicate InPush(l: Local) {
    l.PushLoad? || l.PushSeq? || l.PushCas? || l.PushLock? || l.PushCopy? || l.PushUnlock? || l.PushPublish?
  }

  predicate InPop(l: Local) {
    l.PopLoad? || l.PopSeq? || l.PopCas? || l.PopCopy? || l.PopRecycle?
  }

  predicate InPeek(l: Local) {
    || l.PeekLoad? || l.PeekSeq? || l.PeekGuard? || l.PeekLock? || l.PeekHead? || l.PeekSeq2?
    || l.PeekCopy? || l.PeekUnlock?
  }

  /** From wherever it is, pop_mc goes on or ends, and it ends with the item of the position it claimed
      or, at an instant when nothing is published at the head, with nothing. */
  lemma PopFailsOnlyWhenNothingPublished(c: State, i: nat, call: Call)
    requires Inv(c) && i < |c.threads| && InPop(c.threads[i])
    ensures Shape(Next(c, i, call).r)
    ensures var l, n := c.threads[i], Next(c, i, call);
      !InPop(n.threads[i]) ==>
        && n.threads[i] == Idle
        && (if l.PopRecycle? then l.pos < |n.r.log| && l.out == n.r.log[l.pos]
            else n.r == c.r && SeqAt(c.r, c.r.head) != c.r.head + 1)
  {
    var l := c.threads[i];
    assert ThreadOk(c.r, l);
    if l.PopSeq? && l.pos < c.r.head { ClaimedWasPublished(c.r, l.pos); }
  }

  /** The slot of the tail still carries the previous lap: reserved, published or claimed, but not
      recycled. */
  predicate FullNow(r: Ring)
    requires Shape(r)
  {
    r.tail >= r.cap && (SeqAt(r, r.tail) == r.tail - r.cap || SeqAt(r, r.tail) == r.tail - r.cap + 1)
  }

  /** From wherever it is, push_mp goes on with its item or ends, and it ends by publishing the item
      or, at an instant when the ring is full, without a trace. */
  lemma PushFailsOnlyWhenFull(c: State, i: nat, call: Call)
    requires Inv(c) && i < |c.threads| && InPush(c.threads[i])
    ensures Shape(Next(c, i, call).r)
    ensures var l, n := c.threads[i], Next(c, i, call);
      && (InPush(n.threads[i]) ==> n.threads[i].x == l.x)
      && (!InPush(n.threads[i]) ==>
            && n.threads[i] == Idle
            && (if l.PushPublish? then
                  l.pos < |n.r.log| && n.r.log[l.pos] == l.x && ItemAt(n.r, l.pos) == l.x && SeqAt(n.r, l.pos) == l.pos + 1
                else n.r == c.r && FullNow(c.r)))
  {
    var l := c.threads[i];
    assert ThreadOk(c.r, l);
    if l.PushSeq? {
      if l.pos < c.r.tail { PassedPositionIsReserved(c.r, l.pos); } else { NextLap(c.r.cap, c.r.head); }
    }
  }

  /** The guard keeps readers out: a writer is inside, or the count of readers is at its limit. */
  predicate Refused(r: Ring, pos: nat)
    requires Shape(r)
  {
    GuardAt(r, pos) < 0 || GuardAt(r, pos) == MAX_READERS
  }

  /** The attempt of a peek at `l` has failed: the guard refused it, or it is leaving the guard after
      the head or the seqno had moved. */
  predicate AttemptFailed(r: Ring, l: Local)
    requires Shape(r)
  {
    ((l.PeekGuard? || l.PeekLock?) && Refused(r, l.pos)) || (l.PeekUnlock? && !l.ok)
  }

  /** From wherever it is, a peek goes on or ends. It ends with the item of its position, or because
      that position is not published, or because its fourth attempt failed; an attempt that holds the
      guard fails only if the head or the seqno has moved, and each failed one is counted. */
  lemma PeekFailsOnlyAfterFourAttempts(c: State, i: nat, call: Call)
    requires Inv(c) && i < |c.threads| && InPeek(c.threads[i])
    ensures var r, l, l' := c.r, c.threads[i], Next(c, i, call).threads[i];
      && (!InPeek(l') ==>
            && l' == Idle
            && (|| (l.PeekUnlock? && l.ok && l.pos < |r.log| && l.out == r.log[l.pos])
                || (l.PeekSeq? && SeqAt(r, l.pos) != l.pos + 1)
                || (AttemptFailed(r, l) && l.tries >= 3)))
      && (l'.PeekLoad? ==> AttemptFailed(r, l) && l'.tries == l.tries + 1 < 4)
      && (l'.PeekUnlock? && !l'.ok ==>
            (l.PeekHead? && r.head != l.pos) || (l.PeekSeq2? && SeqAt(r, l.pos) != l.pos + 1))
      && (!l.PeekCopy? && !l'.PeekCopy? && !l'.PeekLoad? && InPeek(l') ==> l'.tries == l.tries)
  {
    assert ThreadOk(c.r, c.threads[i]);
  }

  /** A claimed position has been published: its slot never shows less again. */
  lemma ClaimedWasPublished(r: Ring, pos: nat)
    requires Shape(r) && Window(r) && pos < r.head
    ensures SeqAt(r, pos) >= pos + 1
  {
    NextLap(r.cap, pos);
    if pos + r.cap < r.tail {
      PassedPositionIsReserved(r, pos + r.cap);
    } else {
      assert r.seqno[Slot(r.cap, pos + r.cap)] >= pos + 1;
    }
  }
}
