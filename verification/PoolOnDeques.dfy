/** The pool over the words of its deques as well: every access of push, take and steal is a step of
    Deque, on top of the pool over the words of its rings (PoolOnRings). Each step is a step of that
    pool or invisible to it. */
module PoolOnDeques {
  import Accounting
  import BatchRing
  import Deque
  import opened PoolModel
  import PoolTasks
  import opened PoolTheorems
  import R = PoolOnRings

  /** `p` is the pool over its rings, with the contents of every deque as history; `deques` are the
      deques as they are. Worker `v` owns deque `v` and is thief `v` of every other. */
  datatype Full = Full(p: R.Pool, deques: seq<Deque.State>)

  /** What the task of each submission carries, as the words of a slot. */
  type Payload = Task -> Deque.Task

  predicate DequeShape(g: Config, d: Deque.State) {
    Deque.Shape(d.m) && d.m.cap == g.dequeCap && |d.thieves| == g.nTotal
  }

  predicate Shapes(g: Config, c: Full) {
    && R.Shapes(g, c.p) && |c.deques| == g.nTotal
    && forall v {:trigger c.deques[v]} :: 0 <= v < g.nTotal ==> DequeShape(g, c.deques[v])
  }

  // ---------------------------------------------------------------- the steps

  predicate Taking(pc: PC) {
    pc.Try? && pc.ph.Own?
  }

  /** Worker `w` is inside a push or a take on its own deque. */
  predicate Owning(g: Config, c: Full, w: nat)
    requires Shapes(g, c) && w < g.nTotal
  {
    Taking(c.p.a.ctl[w].pc) || c.p.a.ctl[w].pc.Spill? || c.deques[w].o != Deque.Rest
  }

  /** The worker whose deque `w` is about to steal from. */
  function VictimOf(g: Config, w: nat, ct: Ctl): Option<nat> {
    if ct.pc.Try? && ct.pc.ph.Steal? && ct.pc.ph.k <= g.nTotal then
      var v := VictimAt(g, ct.victim, ct.pc.ph.k);
      if v != w && v < g.nTotal then Some(v) else None
    else None
  }

  /** The access at which the owner's call is decided, and whether it pushes or takes. */
  function Verdict(m: Deque.Mem, o: Deque.Owner): Option<bool> {
    match o
    case PushTop(_, b) => if b - m.top >= m.cap then Some(false) else None
    case PushPublish(_, _) => Some(true)
    case TakeTop(b) => if b - m.top <= 0 then Some(false) else None
    case TakeTop2(b) => if m.top > b then Some(false) else if m.top < b then Some(true) else None
    case TakeCas(b, _) => Some(m.top == b)
    case _ => None
  }

  function OwnerAct(pc: PC, did: bool): Act
    requires Taking(pc) || pc.Spill?
  {
    if pc.Spill? then (if did then ToDeque(Waking(AskParked, false)) else Go(Start))
    else if did then FromDeque(AfterFound(pc.site)) else Go(Try(pc.site, Buffer))
  }

  function OwnerStep(g: Config, carry: Payload, c: Full, w: nat): Full
    requires Shapes(g, c) && w < g.nTotal
  {
    var d, pc, hand := c.deques[w], c.p.a.ctl[w].pc, c.p.a.dat[w].hand;
    var verdict := Verdict(d.m, d.o);
    var call := if pc.Spill? && hand.Some? then Deque.Push(carry(hand.value)) else Deque.Take;
    Full(if verdict.Some? && (Taking(pc) || pc.Spill?)
         then R.Pool(Perform(g, c.p.a, w, OwnerAct(pc, verdict.value)), c.p.rings) else c.p,
         c.deques[w := Deque.OwnerNext(d, call)])
  }

  /** The access at which a steal is decided, and whether it wins. */
  function Loot(m: Deque.Mem, th: Deque.Thief): Option<bool> {
    match th
    case StealBottom(t) => if t < m.bottom then None else Some(false)
    case StealCas(t, _) => Some(m.top == t)
    case _ => None
  }

  function ThiefAct(pc: PC, v: nat, won: bool): Act
    requires pc.Try? && pc.ph.Steal?
  {
    if won then FromVictim(v, AfterFound(pc.site)) else Go(Try(pc.site, Steal(pc.ph.k + 1)))
  }

  function ThiefStep(g: Config, c: Full, w: nat, v: nat): Full
    requires Shapes(g, c) && w < g.nTotal && v < g.nTotal && c.p.a.ctl[w].pc.Try? && c.p.a.ctl[w].pc.ph.Steal?
  {
    var d := c.deques[v];
    var loot := Loot(d.m, d.thieves[w]);
    Full(if loot.Some? then R.Pool(Perform(g, c.p.a, w, ThiefAct(c.p.a.ctl[w].pc, v, loot.value)), c.p.rings) else c.p,
         c.deques[v := Deque.ThiefNext(d, w)])
  }

  /** The same state with other contents of deque `w`. */
  function WithDeque(st: State, w: nat, q: seq<Task>): State
    requires w < |st.dat|
  {
    st.(dat := st.dat[w := st.dat[w].(deque := q)])
  }

  /** All that the other steps of a worker read of a deque: how much is between the two ends of its
      own. */
  function Counted(g: Config, c: Full, w: nat): R.Pool
    requires Shapes(g, c) && w < g.nTotal
  {
    var m := c.deques[w].m;
    c.p.(a := WithDeque(c.p.a, w, seq(if m.bottom > m.top then m.bottom - m.top else 0, _ => 0)))
  }

  function WorkStep(g: Config, carry: Payload, c: Full, w: nat, pick: Pick): Full
    requires Shapes(g, c) && w < g.nTotal
  {
    if Owning(g, c, w) then OwnerStep(g, carry, c, w)
    else if VictimOf(g, w, c.p.a.ctl[w]).Some? then ThiefStep(g, c, w, VictimOf(g, w, c.p.a.ctl[w]).value)
    else
      var n := R.WorkStep(g, Counted(g, c, w), w, pick);
      Full(if w < |n.a.dat| then n.(a := WithDeque(n.a, w, c.p.a.dat[w].deque)) else n, c.deques)
  }

  function Step(g: Config, pay: R.Payload, carry: Payload, c: Full, mv: Move): Full
    requires Shapes(g, c) && MoveOk(g, c.p.a, mv)
  {
    match mv
    case Work(w, pick) => WorkStep(g, carry, c, w, pick)
    case Outside(x, pick) => Full(R.OutStep(g, pay, c.p, x, pick), c.deques)
  }

  // ---------------------------------------------------------------- how the two levels agree

  function Carries(carry: Payload, q: seq<Task>): (r: seq<Deque.Task>)
    ensures |r| == |q| && forall i {:trigger r[i]} :: 0 <= i < |q| ==> r[i] == carry(q[i])
  {
    seq(|q|, i requires 0 <= i < |q| => carry(q[i]))
  }

  /** Where a worker is right after a take has been decided. */
  predicate TookOrNot(pc: PC) {
    (pc.Try? && pc.ph.Buffer?) || pc.Start? || pc.SpinEnd? || pc.Unpark1?
  }

  /** The task in hand carries these words. */
  predicate InHand(carry: Payload, hand: Option<Task>, x: Deque.Task) {
    hand.Some? && x == carry(hand.value)
  }

  /** Where the owner is inside its deque. A take that has been decided may still have to copy the
      task or to put bottom back. */
  predicate OwnerAt(carry: Payload, pc: PC, hand: Option<Task>, m: Deque.Mem, o: Deque.Owner)
    requires Deque.Shape(m)
  {
    match o
    case Rest => true
    case PushTop(x, _) => pc.Spill? && InHand(carry, hand, x)
    case PushFn(x, _) => pc.Spill? && InHand(carry, hand, x)
    case PushArg(x, _) => pc.Spill? && InHand(carry, hand, x)
    case PushPublish(x, _) => pc.Spill? && InHand(carry, hand, x)
    case TakeTop(_) => Taking(pc)
    case TakeDown(_) => Taking(pc)
    case TakeTop2(_) => Taking(pc)
    case TakeCas(_, _) => Taking(pc)
    case ReadFn(b, t) => if t == b then Taking(pc) else TookOrNot(pc) && InHand(carry, hand, Deque.At(m, b))
    case ReadArg(b, t, _) => if t == b then Taking(pc) else TookOrNot(pc) && InHand(carry, hand, Deque.At(m, b))
    case TakeFix(_, got, x) => TookOrNot(pc) && (got ==> InHand(carry, hand, x))
  }

  predicate ThiefAt(g: Config, w: nat, ct: Ctl, v: nat, th: Deque.Thief) {
    th == Deque.Away || VictimOf(g, w, ct) == Some(v)
  }

  predicate SameTasks(carry: Payload, q: seq<Task>, d: Deque.State) {
    Deque.Inv(d) && Deque.Contents(d) == Carries(carry, q)
  }

  ghost predicate DequeAgrees(g: Config, carry: Payload, st: State, v: nat, d: Deque.State)
    requires Shape(g, st) && v < g.nTotal && DequeShape(g, d)
  {
    && SameTasks(carry, st.dat[v].deque, d)
    && OwnerAt(carry, st.ctl[v].pc, st.dat[v].hand, d.m, d.o)
    && (forall w {:trigger d.thieves[w]} :: 0 <= w < g.nTotal ==> ThiefAt(g, w, st.ctl[w], v, d.thieves[w]))
  }

  ghost predicate Agree(g: Config, pay: R.Payload, carry: Payload, c: Full) {
    && Shapes(g, c) && R.Agree(g, pay, c.p)
    && forall v {:trigger c.deques[v]} :: 0 <= v < g.nTotal ==> DequeAgrees(g, carry, c.p.a, v, c.deques[v])
  }

  // ---------------------------------------------------------------- what a step leaves alone

  /** As far as the deques can tell, only worker `w` has moved, and only deque `v` has changed. */
  ghost predicate OnlyMoved(g: Config, a: State, b: State, w: nat, v: nat)
    requires Shape(g, a) && Shape(g, b)
  {
    forall u {:trigger b.ctl[u]} {:trigger b.dat[u]} :: 0 <= u < g.nTotal ==>
      && (u != w ==> b.ctl[u].pc == a.ctl[u].pc && b.ctl[u].victim == a.ctl[u].victim && b.dat[u].hand == a.dat[u].hand)
      && (u != v ==> b.dat[u].deque == a.dat[u].deque)
  }

  function Touched(w: nat, a: Act): nat {
    if a.FromVictim? then a.v else w
  }

  predicate OnDeque(a: Act) {
    a.FromDeque? || a.ToDeque? || a.FromVictim?
  }

  lemma PerformMoves(g: Config, st: State, w: nat, a: Act)
    requires Shape(g, st) && w < g.nTotal
    ensures Shape(g, Perform(g, st, w, a)) && OnlyMoved(g, st, Perform(g, st, w, a), w, Touched(w, a))
    ensures !OnDeque(a) ==> Perform(g, st, w, a).dat[w].deque == st.dat[w].deque
    ensures a.Go? ==> Perform(g, st, w, a).dat == st.dat && Perform(g, st, w, a).ctl[w].victim == st.ctl[w].victim
    ensures Perform(g, st, w, a).ctl[w].pc == a.next
  {
    hide PlaceAfter, RingsAfter, Moved;
  }

  lemma SameVictim(g: Config, w: nat, ct: Ctl, ct': Ctl)
    requires ct.pc == ct'.pc && ct.victim == ct'.victim
    ensures VictimOf(g, w, ct) == VictimOf(g, w, ct')
  {
  }

  /** After a step of worker `w` that changed deque `v` at most, the levels agree if they do on `v` and
      on where `w` is. */
  lemma AgreeAfter(g: Config, pay: R.Payload, carry: Payload, c: Full, p: R.Pool, v: nat, d: Deque.State, w: nat)
    requires Agree(g, pay, carry, c) && R.Shapes(g, p) && R.Agree(g, pay, p) && v < g.nTotal && w < g.nTotal
    requires Shape(g, p.a) && OnlyMoved(g, c.p.a, p.a, w, v) && DequeShape(g, d)
    requires SameTasks(carry, p.a.dat[v].deque, d)
    requires d.thieves == c.deques[v].thieves[w := d.thieves[w]]
    requires v != w ==> d.o == c.deques[v].o && d.m.slots == c.deques[v].m.slots
    requires var own := if v == w then d else c.deques[w];
      OwnerAt(carry, p.a.ctl[w].pc, p.a.dat[w].hand, own.m, own.o)
    requires forall z {:trigger c.deques[z]} :: 0 <= z < g.nTotal ==>
      ThiefAt(g, w, p.a.ctl[w], z, if z == v then d.thieves[w] else c.deques[z].thieves[w])
    ensures Agree(g, pay, carry, Full(p, c.deques[v := d]))
  {
    hide R.Agree, SameTasks, OwnerAt;
    var n := Full(p, c.deques[v := d]);
    forall z | 0 <= z < g.nTotal ensures DequeAgrees(g, carry, p.a, z, n.deques[z]) {
      assert DequeAgrees(g, carry, c.p.a, z, c.deques[z]);
      if z != w && z == v { OwnerStays(carry, p.a.ctl[z].pc, p.a.dat[z].hand, c.deques[z].m, d.m, d.o); }
      assert p.a.ctl[z].pc == c.p.a.ctl[z].pc || z == w;
      forall u | 0 <= u < g.nTotal ensures ThiefAt(g, u, p.a.ctl[u], z, n.deques[z].thieves[u]) {
        if u != w {
          assert ThiefAt(g, u, c.p.a.ctl[u], z, c.deques[z].thieves[u]);
          assert p.a.ctl[u].pc == c.p.a.ctl[u].pc;
          SameVictim(g, u, c.p.a.ctl[u], p.a.ctl[u]);
        }
      }
    }
  }

  lemma OwnerStays(carry: Payload, pc: PC, hand: Option<Task>, m: Deque.Mem, m': Deque.Mem, o: Deque.Owner)
    requires Deque.Shape(m) && Deque.Shape(m') && m'.slots == m.slots && m'.cap == m.cap && OwnerAt(carry, pc, hand, m, o)
    ensures OwnerAt(carry, pc, hand, m', o)
  {
  }

  // ---------------------------------------------------------------- the owner's steps

  /** The contents after the owner's access: one more, one less, or the same. */
  function AfterVerdict(pc: PC, q: seq<Task>, hand: Option<Task>, verdict: Option<bool>): seq<Task> {
    if verdict != Some(true) then q
    else if pc.Spill? then (if hand.Some? then q + [hand.value] else q)
    else if q != [] then q[..|q| - 1] else q
  }

  lemma PushOnDeque(carry: Payload, pc: PC, hand: Option<Task>, q: seq<Task>, d: Deque.State, call: Deque.Call)
    requires SameTasks(carry, q, d) && OwnerAt(carry, pc, hand, d.m, d.o) && pc.Spill?
    requires call == if hand.Some? then Deque.Push(carry(hand.value)) else Deque.Take
    requires hand.Some?
    ensures var v := Verdict(d.m, d.o); var n := Deque.OwnerNext(d, call);
      && SameTasks(carry, AfterVerdict(pc, q, hand, v), n)
      && (v == Some(false) ==> |q| == d.m.cap) && (v == Some(true) ==> |q| < d.m.cap)
      && (if v.Some? then n.o == Deque.Rest else OwnerAt(carry, pc, hand, n.m, n.o))
      && DequeSameShape(d, n)
  {
    hide Deque.Contents;
    Deque.OwnerNextKeepsInv(d, call);
    Deque.OwnerRefinesDeque(d.m, d.o, call);
    ContentsAre(d);
    ContentsAre(Deque.OwnerNext(d, call));
    if d.o.PushPublish? { assert Carries(carry, q + [hand.value]) == Carries(carry, q) + [carry(hand.value)]; }
  }

  predicate DequeSameShape(d: Deque.State, n: Deque.State) {
    Deque.Shape(d.m) && Deque.Shape(n.m) && n.m.cap == d.m.cap && n.thieves == d.thieves
  }

  lemma ContentsAre(d: Deque.State)
    requires Deque.Inv(d)
    ensures Deque.Contents(d) == Deque.Range(d.m, d.m.top, Deque.Back(d.m, d.o)) && Deque.Bounds(d.m, d.o)
  {
  }

  lemma TakeOnDeque(carry: Payload, pc: PC, hand: Option<Task>, q: seq<Task>, d: Deque.State)
    requires SameTasks(carry, q, d) && OwnerAt(carry, pc, hand, d.m, d.o) && Taking(pc)
    ensures var v := Verdict(d.m, d.o); var n := Deque.OwnerNext(d, Deque.Take);
      && SameTasks(carry, AfterVerdict(pc, q, hand, v), n)
      && (v == Some(false) ==> q == []) && (v == Some(true) ==> q != [])
      && DequeSameShape(d, n)
  {
    hide Deque.Contents, Deque.Put, InHand;
    Deque.OwnerNextKeepsInv(d, Deque.Take);
    Deque.OwnerRefinesDeque(d.m, d.o, Deque.Take);
    ContentsAre(d);
    ContentsAre(Deque.OwnerNext(d, Deque.Take));
    if Verdict(d.m, d.o) == Some(true) { assert Carries(carry, q[..|q| - 1]) == Carries(carry, q)[..|q| - 1]; }
  }

  /** Where the owner is after its access. */
  lemma TakeGoes(carry: Payload, pc: PC, hand: Option<Task>, d: Deque.State, next: PC)
    requires Deque.Shape(d.m) && OwnerAt(carry, pc, hand, d.m, d.o) && Taking(pc) && TookOrNot(next)
    ensures var v := Verdict(d.m, d.o); var n := Deque.OwnerNext(d, Deque.Take);
      && Deque.Shape(n.m)
      && (v == None ==> OwnerAt(carry, pc, hand, n.m, n.o))
      && (v == Some(false) ==> OwnerAt(carry, next, hand, n.m, n.o))
  {
  }

  /** What a take that wins is about to copy, or holds already, is the last task. */
  lemma TakeWins(carry: Payload, pc: PC, hand: Option<Task>, q: seq<Task>, d: Deque.State, next: PC)
    requires SameTasks(carry, q, d) && OwnerAt(carry, pc, hand, d.m, d.o) && Taking(pc) && TookOrNot(next)
    requires Verdict(d.m, d.o) == Some(true) && q != []
    ensures var n := Deque.OwnerNext(d, Deque.Take);
      Deque.Shape(n.m) && OwnerAt(carry, next, Some(q[|q| - 1]), n.m, n.o)
  {
    hide Deque.Contents, Deque.Put;
    Deque.OwnerRefinesDeque(d.m, d.o, Deque.Take);
    ContentsAre(d);
  }

  /** A take that has been decided: copying and putting bottom back change no contents. */
  lemma FinishOnDeque(carry: Payload, pc: PC, hand: Option<Task>, q: seq<Task>, d: Deque.State)
    requires SameTasks(carry, q, d) && OwnerAt(carry, pc, hand, d.m, d.o) && !Taking(pc) && !pc.Spill? && d.o != Deque.Rest
    ensures var n := Deque.OwnerNext(d, Deque.Take);
      && SameTasks(carry, q, n) && OwnerAt(carry, pc, hand, n.m, n.o) && DequeSameShape(d, n)
  {
    hide Deque.Contents;
    Deque.OwnerNextKeepsInv(d, Deque.Take);
    Deque.OwnerRefinesDeque(d.m, d.o, Deque.Take);
    ContentsAre(d);
    ContentsAre(Deque.OwnerNext(d, Deque.Take));
  }

  lemma NotStealing(g: Config, pay: R.Payload, carry: Payload, c: Full, w: nat, z: nat)
    requires Agree(g, pay, carry, c) && w < g.nTotal && z < g.nTotal && VictimOf(g, w, c.p.a.ctl[w]) != Some(z)
    ensures c.deques[z].thieves[w] == Deque.Away
  {
    hide R.Agree, SameTasks, OwnerAt;
    assert DequeAgrees(g, carry, c.p.a, z, c.deques[z]);
    assert ThiefAt(g, w, c.p.a.ctl[w], z, c.deques[z].thieves[w]);
  }

  /** A worker between rings takes the step of the pool below on its own words. */
  lemma OffRing(g: Config, pay: R.Payload, p: R.Pool, w: nat, pick: Pick)
    requires R.Agree(g, pay, p) && w < g.nTotal && !R.Inside(g, p, w)
    ensures R.WorkStep(g, p, w, pick) == R.Pool(WorkerNext(g, p.a, w, pick), p.rings)
    ensures R.Shapes(g, R.WorkStep(g, p, w, pick)) && R.Agree(g, pay, R.WorkStep(g, p, w, pick))
  {
    hide Inv, R.ShardAgrees, WorkerNext, R.WorkStep;
    R.OtherStep(g, pay, p, w, pick);
    StepOfRest(g, p, w, pick);
  }

  lemma StepOfRest(g: Config, p: R.Pool, w: nat, pick: Pick)
    requires R.Shapes(g, p) && w < g.nTotal && !R.Inside(g, p, w)
    ensures R.WorkStep(g, p, w, pick).rings == p.rings
  {
    hide WorkerNext;
  }

  lemma AtRest(carry: Payload, pc: PC, hand: Option<Task>, m: Deque.Mem)
    requires Deque.Shape(m)
    ensures OwnerAt(carry, pc, hand, m, Deque.Rest)
  {
  }

  lemma SpillHolds(g: Config, pay: R.Payload, p: R.Pool, w: nat)
    requires R.Agree(g, pay, p) && w < g.nTotal && p.a.ctl[w].pc.Spill?
    ensures p.a.dat[w].hand.Some?
  {
    assert PoolTasks.DatOk(p.a.ctl[w].pc, p.a.dat[w]);
  }

  /** A push on the own deque: invisible until bottom moves or the deque turns out to be full. */
  lemma PushAgrees(g: Config, pay: R.Payload, carry: Payload, c: Full, w: nat, pick: Pick)
    requires Agree(g, pay, carry, c) && w < g.nTotal && c.p.a.ctl[w].pc.Spill?
    ensures var n := OwnerStep(g, carry, c, w);
      Agree(g, pay, carry, n) && (n.p == c.p || n.p == R.WorkStep(g, c.p, w, pick))
  {
    hide R.Agree, SameTasks, OwnerAt, Perform, Deque.OwnerNext, Verdict, R.WorkStep, ActOf;
    var st, d := c.p.a, c.deques[w];
    assert DequeAgrees(g, carry, st, w, d);
    SpillHolds(g, pay, c.p, w);
    var v := Verdict(d.m, d.o);
    PushOnDeque(carry, st.ctl[w].pc, st.dat[w].hand, st.dat[w].deque, d, Deque.Push(carry(st.dat[w].hand.value)));
    var n := OwnerStep(g, carry, c, w);
    forall z | 0 <= z < g.nTotal ensures c.deques[z].thieves[w] == Deque.Away {
      NotStealing(g, pay, carry, c, w, z);
    }
    if v.Some? {
      var act := OwnerAct(st.ctl[w].pc, v.value);
      SpillIsAct(g, st, w, v.value, pick);
      OffRing(g, pay, c.p, w, pick);
      PerformMoves(g, st, w, act);
      SpillIsDone(g, st, w, act);
      AtRest(carry, n.p.a.ctl[w].pc, n.p.a.dat[w].hand, n.deques[w].m);
    } else {
      assert OnlyMoved(g, st, st, w, w);
    }
    AgreeAfter(g, pay, carry, c, n.p, w, n.deques[w], w);
  }

  lemma SpillIsAct(g: Config, st: State, w: nat, did: bool, pick: Pick)
    requires Shape(g, st) && w < g.nTotal && st.ctl[w].pc.Spill? && (did <==> |st.dat[w].deque| < g.dequeCap)
    ensures OwnerAct(st.ctl[w].pc, did) == ActOf(g, st, w, pick)
  {
  }

  lemma SpillIsDone(g: Config, st: State, w: nat, a: Act)
    requires Shape(g, st) && w < g.nTotal && st.dat[w].hand.Some?
    ensures a.ToDeque? ==> Perform(g, st, w, a).dat[w].deque == st.dat[w].deque + [st.dat[w].hand.value]
  {
  }

  lemma TakeIsDone(g: Config, st: State, w: nat, a: Act)
    requires Shape(g, st) && w < g.nTotal && st.dat[w].deque != []
    ensures a.FromDeque? ==>
      var q, n := st.dat[w].deque, Perform(g, st, w, a);
      n.dat[w].deque == q[..|q| - 1] && n.dat[w].hand == Some(q[|q| - 1])
  {
  }

  /** A take: invisible until it is decided, and again while the task is copied. */
  lemma TakeAgrees(g: Config, pay: R.Payload, carry: Payload, c: Full, w: nat, pick: Pick)
    requires Agree(g, pay, carry, c) && w < g.nTotal && Taking(c.p.a.ctl[w].pc)
    ensures var n := OwnerStep(g, carry, c, w);
      Agree(g, pay, carry, n) && (n.p == c.p || n.p == R.WorkStep(g, c.p, w, pick))
  {
    hide R.Agree, SameTasks, OwnerAt, Perform, Deque.OwnerNext, Verdict, R.WorkStep;
    var st, d := c.p.a, c.deques[w];
    assert DequeAgrees(g, carry, st, w, d);
    var v := Verdict(d.m, d.o);
    var act := OwnerAct(st.ctl[w].pc, v == Some(true));
    TakeOnDeque(carry, st.ctl[w].pc, st.dat[w].hand, st.dat[w].deque, d);
    TakeGoes(carry, st.ctl[w].pc, st.dat[w].hand, d, act.next);
    if v == Some(true) { TakeWins(carry, st.ctl[w].pc, st.dat[w].hand, st.dat[w].deque, d, act.next); }
    var n := OwnerStep(g, carry, c, w);
    forall z | 0 <= z < g.nTotal ensures c.deques[z].thieves[w] == Deque.Away {
      NotStealing(g, pay, carry, c, w, z);
    }
    if v.Some? {
      assert act == ActOf(g, st, w, pick);
      OffRing(g, pay, c.p, w, pick);
      PerformMoves(g, st, w, act);
      if v.value { TakeIsDone(g, st, w, act); }
    } else {
      assert OnlyMoved(g, st, st, w, w);
    }
    AgreeAfter(g, pay, carry, c, n.p, w, n.deques[w], w);
  }

  /** The rest of a take that has been decided is invisible. */
  lemma FinishAgrees(g: Config, pay: R.Payload, carry: Payload, c: Full, w: nat)
    requires Agree(g, pay, carry, c) && w < g.nTotal && c.deques[w].o != Deque.Rest
    requires !Taking(c.p.a.ctl[w].pc) && !c.p.a.ctl[w].pc.Spill?
    ensures var n := OwnerStep(g, carry, c, w); Agree(g, pay, carry, n) && n.p == c.p
  {
    hide R.Agree, SameTasks, OwnerAt, Perform, Deque.OwnerNext, Verdict;
    var st, d := c.p.a, c.deques[w];
    assert DequeAgrees(g, carry, st, w, d);
    FinishOnDeque(carry, st.ctl[w].pc, st.dat[w].hand, st.dat[w].deque, d);
    forall z | 0 <= z < g.nTotal ensures ThiefAt(g, w, st.ctl[w], z, c.deques[z].thieves[w]) {
      assert DequeAgrees(g, carry, st, z, c.deques[z]);
    }
    assert OnlyMoved(g, st, st, w, w);
    AgreeAfter(g, pay, carry, c, c.p, w, Deque.OwnerNext(d, Deque.Take), w);
  }

  // ---------------------------------------------------------------- the thieves' steps

  /** A steal takes the front or nothing, and what it copied is what the front task carries. */
  lemma StealOnDeque(carry: Payload, q: seq<Task>, d: Deque.State, w: nat)
    requires SameTasks(carry, q, d) && w < |d.thieves|
    ensures var loot := Loot(d.m, d.thieves[w]); var n := Deque.ThiefNext(d, w);
      && (loot == Some(true) ==> q != [] && d.thieves[w].x == carry(q[0]))
      && SameTasks(carry, if loot == Some(true) && q != [] then q[1..] else q, n)
      && (loot.Some? ==> n.thieves[w] == Deque.Away)
      && n.o == d.o && n.m.slots == d.m.slots && n.m.cap == d.m.cap && |n.thieves| == |d.thieves|
      && n.thieves == d.thieves[w := n.thieves[w]]
  {
    hide Deque.Contents;
    Deque.ThiefNextKeepsInv(d, w);
    Deque.ThiefRefinesDeque(d.m, d.o, d.thieves[w]);
    ContentsAre(d);
    ContentsAre(Deque.ThiefNext(d, w));
    if Loot(d.m, d.thieves[w]) == Some(true) { assert Carries(carry, q[1..]) == Carries(carry, q)[1..]; }
  }

  lemma StealIsDone(g: Config, st: State, w: nat, a: Act)
    requires Shape(g, st) && w < g.nTotal && a.FromVictim? && a.v < g.nTotal && a.v != w && st.dat[a.v].deque != []
    ensures Perform(g, st, w, a).dat[a.v].deque == st.dat[a.v].deque[1..]
  {
  }

  /** A steal: invisible until it is decided. */
  lemma StealAgrees(g: Config, pay: R.Payload, carry: Payload, c: Full, w: nat, v: nat)
    requires Agree(g, pay, carry, c) && w < g.nTotal && !Owning(g, c, w) && VictimOf(g, w, c.p.a.ctl[w]) == Some(v)
    ensures var n := ThiefStep(g, c, w, v);
      var loot := Loot(c.deques[v].m, c.deques[v].thieves[w]);
      Agree(g, pay, carry, n) && (n.p == c.p || n.p == R.WorkStep(g, c.p, w, Pick(loot == Some(true), 0)))
  {
    hide R.Agree, SameTasks, OwnerAt, Perform, Deque.ThiefNext, Loot, R.WorkStep;
    var st, d := c.p.a, c.deques[v];
    assert DequeAgrees(g, carry, st, v, d);
    var loot := Loot(d.m, d.thieves[w]);
    var pick := Pick(loot == Some(true), 0);
    StealOnDeque(carry, st.dat[v].deque, d, w);
    var n := ThiefStep(g, c, w, v);
    forall z | 0 <= z < g.nTotal && z != v ensures c.deques[z].thieves[w] == Deque.Away {
      NotStealing(g, pay, carry, c, w, z);
    }
    if loot.Some? {
      var act := ThiefAct(st.ctl[w].pc, v, loot.value);
      assert act == ActOf(g, st, w, pick);
      OffRing(g, pay, c.p, w, pick);
      PerformMoves(g, st, w, act);
      if loot.value { StealIsDone(g, st, w, act); }
    } else {
      assert OnlyMoved(g, st, st, w, v);
    }
    AtRest(carry, n.p.a.ctl[w].pc, n.p.a.dat[w].hand, c.deques[w].m);
    AgreeAfter(g, pay, carry, c, n.p, v, n.deques[v], w);
  }

  // ---------------------------------------------------------------- all other steps

  predicate OffDeques(g: Config, w: nat, ct: Ctl) {
    !Taking(ct.pc) && !ct.pc.Spill? && VictimOf(g, w, ct).None?
  }

  lemma TryBlank(g: Config, st: State, w: nat, q: seq<Task>, pick: Pick)
    requires Shape(g, st) && w < g.nTotal && OffDeques(g, w, st.ctl[w]) && st.ctl[w].pc.Try?
    ensures Shape(g, WithDeque(st, w, q)) && TryAct(g, WithDeque(st, w, q), w, pick) == TryAct(g, st, w, pick)
    ensures !OnDeque(TryAct(g, st, w, pick))
  {
  }

  lemma WakeBlank(g: Config, st: State, w: nat, q: seq<Task>, wk: Wake, pick: Pick)
    requires Shape(g, st) && w < g.nTotal && |q| == |st.dat[w].deque|
    ensures Shape(g, WithDeque(st, w, q))
    ensures WakeNext(g, WithDeque(st, w, q), wk, DequeQueue(w), pick) == WakeNext(g, st, wk, DequeQueue(w), pick)
    ensures Unflags(g, WithDeque(st, w, q), wk) == Unflags(g, st, wk)
  {
  }

  /** Away from the deques a worker reads no more of them than the length of its own. */
  lemma ActBlank(g: Config, st: State, w: nat, q: seq<Task>, pick: Pick)
    requires Shape(g, st) && w < g.nTotal && OffDeques(g, w, st.ctl[w]) && |q| == |st.dat[w].deque|
    ensures Shape(g, WithDeque(st, w, q)) && ActOf(g, WithDeque(st, w, q), w, pick) == ActOf(g, st, w, pick)
    ensures !OnDeque(ActOf(g, st, w, pick))
  {
    hide TryAct, WakeNext, Unflags;
    if st.ctl[w].pc.Try? {
      TryBlank(g, st, w, q, pick);
    } else if st.ctl[w].pc.Waking? {
      WakeBlank(g, st, w, q, st.ctl[w].pc.wk, pick);
    }
  }

  lemma DatBlank(st: State, w: nat, q: seq<Task>, a: Act)
    requires |st.dat| == |st.ctl| && w < |st.dat| && !OnDeque(a)
    ensures var b := DatAfter(WithDeque(st, w, q), w, a); b[w := b[w].(deque := st.dat[w].deque)] == DatAfter(st, w, a)
  {
  }

  lemma PlaceBlank(st: State, w: nat, q: seq<Task>, a: Act)
    requires |st.dat| == |st.ctl| && w < |st.dat| && !OnDeque(a)
    ensures PlaceAfter(WithDeque(st, w, q), w, a) == PlaceAfter(st, w, a)
  {
    hide Moved, MovedAll;
  }

  lemma PerformBlank(g: Config, st: State, w: nat, q: seq<Task>, a: Act)
    requires Shape(g, st) && w < g.nTotal && !OnDeque(a)
    ensures Shape(g, WithDeque(st, w, q))
    ensures w < |Perform(g, WithDeque(st, w, q), w, a).dat|
    ensures WithDeque(Perform(g, WithDeque(st, w, q), w, a), w, st.dat[w].deque) == Perform(g, st, w, a)
  {
    hide DatAfter, PlaceAfter, CtlAfter, OnDeque, Accounting.Inc;
    DatBlank(st, w, q, a);
    PlaceBlank(st, w, q, a);
  }

  /** The pool below with other contents of deque `w`. */
  function Blank(p: R.Pool, w: nat, q: seq<Task>): R.Pool
    requires w < |p.a.dat|
  {
    p.(a := WithDeque(p.a, w, q))
  }

  lemma SeenBlank(g: Config, p: R.Pool, w: nat, q: seq<Task>)
    requires R.Shapes(g, p) && w < g.nTotal
    ensures R.Shapes(g, Blank(p, w, q)) && R.Seen(g, Blank(p, w, q)) == WithDeque(R.Seen(g, p), w, q)
    ensures Shape(g, R.Seen(g, p)) && R.Inside(g, Blank(p, w, q), w) == R.Inside(g, p, w)
  {
    assert R.Seen(g, Blank(p, w, q)).rings == R.Seen(g, p).rings;
  }

  lemma OffRingBlank(g: Config, p: R.Pool, w: nat, q: seq<Task>, pick: Pick)
    requires R.Shapes(g, p) && w < g.nTotal && OffDeques(g, w, p.a.ctl[w]) && |q| == |p.a.dat[w].deque| && !R.Inside(g, p, w)
    ensures R.Shapes(g, Blank(p, w, q)) && w < |R.WorkStep(g, Blank(p, w, q), w, pick).a.dat|
    ensures Blank(R.WorkStep(g, Blank(p, w, q), w, pick), w, p.a.dat[w].deque) == R.WorkStep(g, p, w, pick)
    ensures var act := ActOf(g, R.Seen(g, p), w, pick);
      !OnDeque(act) && R.WorkStep(g, p, w, pick).a == Perform(g, R.Seen(g, p), w, act).(rings := p.a.rings)
  {
    hide ActOf, Perform, R.Seen, OffDeques;
    SeenBlank(g, p, w, q);
    var st := R.Seen(g, p);
    SeenKeeps(g, p);
    ActBlank(g, st, w, q, pick);
    PerformBlank(g, st, w, q, ActOf(g, st, w, pick));
  }

  lemma SeenKeeps(g: Config, p: R.Pool)
    requires R.Shapes(g, p)
    ensures R.Seen(g, p).ctl == p.a.ctl && R.Seen(g, p).dat == p.a.dat
  {
  }

  lemma InRingBlank(g: Config, p: R.Pool, w: nat, q: seq<Task>, pick: Pick)
    requires R.Shapes(g, p) && w < g.nTotal && R.Inside(g, p, w)
    ensures R.Shapes(g, Blank(p, w, q)) && w < |R.WorkStep(g, Blank(p, w, q), w, pick).a.dat|
    ensures Blank(R.WorkStep(g, Blank(p, w, q), w, pick), w, p.a.dat[w].deque) == R.WorkStep(g, p, w, pick)
    ensures R.WorkStep(g, p, w, pick).a == p.a ||
      exists act: Act {:trigger OnDeque(act)} :: !OnDeque(act) && R.WorkStep(g, p, w, pick).a == Perform(g, p.a, w, act)
  {
    hide Perform, R.Seen;
    SeenBlank(g, p, w, q);
    var ct := p.a.ctl[w];
    if R.Scanning(ct.pc.ph) {
      var s := R.ShardOf(g, ct);
      var act := R.ScanAct(g, ct, BatchRing.Next(p.rings[s], w, BatchRing.Pop(g.batch)).threads[w]);
      assert !OnDeque(act);
      PerformBlank(g, p.a, w, q, act);
    } else {
      assert WithDeque(WithDeque(p.a, w, q), w, p.a.dat[w].deque) == p.a by {
        assert p.a.dat[w := p.a.dat[w]] == p.a.dat;
      }
    }
  }

  lemma CountedIsSo(g: Config, pay: R.Payload, carry: Payload, c: Full, w: nat)
    requires Agree(g, pay, carry, c) && w < g.nTotal && c.deques[w].o == Deque.Rest
    ensures var q := seq(|c.p.a.dat[w].deque|, _ => 0); Counted(g, c, w) == Blank(c.p, w, q)
  {
    hide R.Agree;
    assert DequeAgrees(g, carry, c.p.a, w, c.deques[w]);
    ContentsAre(c.deques[w]);
    var m := c.deques[w].m;
    assert |c.p.a.dat[w].deque| == m.bottom - m.top;
    assert Counted(g, c, w).a.dat[w].deque == seq(|c.p.a.dat[w].deque|, _ => 0);
  }

  /** Any other step of a worker is the step of the pool below. */
  lemma BelowAgrees(g: Config, pay: R.Payload, carry: Payload, c: Full, w: nat, pick: Pick)
    requires Agree(g, pay, carry, c) && w < g.nTotal && !Owning(g, c, w) && VictimOf(g, w, c.p.a.ctl[w]).None?
    ensures var n := WorkStep(g, carry, c, w, pick); Agree(g, pay, carry, n) && n.p == R.WorkStep(g, c.p, w, pick)
  {
    hide R.Agree, SameTasks, OwnerAt, Perform, R.WorkStep, Counted, VictimOf;
    var st := c.p.a;
    var q: seq<Task> := seq(|st.dat[w].deque|, _ => 0);
    CountedIsSo(g, pay, carry, c, w);
    var n := R.WorkStep(g, c.p, w, pick);
    BelowMoves(g, pay, c.p, w, q, pick);
    BelowKeeps(g, pay, c.p, w, pick);
    assert DequeAgrees(g, carry, st, w, c.deques[w]);
    AtRest(carry, n.a.ctl[w].pc, n.a.dat[w].hand, c.deques[w].m);
    forall z | 0 <= z < g.nTotal ensures c.deques[z].thieves[w] == Deque.Away {
      NotStealing(g, pay, carry, c, w, z);
    }
    assert c.deques[w := c.deques[w]] == c.deques;
    AgreeAfter(g, pay, carry, c, n, w, c.deques[w], w);
  }

  lemma BelowKeeps(g: Config, pay: R.Payload, p: R.Pool, w: nat, pick: Pick)
    requires R.Agree(g, pay, p) && w < g.nTotal
    ensures R.Shapes(g, R.WorkStep(g, p, w, pick)) && R.Agree(g, pay, R.WorkStep(g, p, w, pick))
  {
    hide Inv, R.ShardAgrees, R.WorkStep;
    R.WorkRefines(g, pay, p, w, pick);
  }

  lemma BelowMoves(g: Config, pay: R.Payload, p: R.Pool, w: nat, q: seq<Task>, pick: Pick)
    requires R.Shapes(g, p) && w < g.nTotal && OffDeques(g, w, p.a.ctl[w]) && |q| == |p.a.dat[w].deque|
    ensures R.Shapes(g, Blank(p, w, q)) && w < |R.WorkStep(g, Blank(p, w, q), w, pick).a.dat|
    ensures Blank(R.WorkStep(g, Blank(p, w, q), w, pick), w, p.a.dat[w].deque) == R.WorkStep(g, p, w, pick)
    ensures var b := R.WorkStep(g, p, w, pick).a;
      Shape(g, b) && OnlyMoved(g, p.a, b, w, w) && b.dat[w].deque == p.a.dat[w].deque
  {
    hide Perform, R.Seen, R.WorkStep, ActOf, OnDeque;
    if R.Inside(g, p, w) {
      InRingBlank(g, p, w, q, pick);
      if R.WorkStep(g, p, w, pick).a != p.a {
        var act: Act :| !OnDeque(act) && R.WorkStep(g, p, w, pick).a == Perform(g, p.a, w, act);
        PerformMoves(g, p.a, w, act);
        assert OnlyMoved(g, p.a, Perform(g, p.a, w, act), w, w) by { MovesOffDeque(g, p.a, Perform(g, p.a, w, act), w, act); }
      }
    } else {
      OffRingBlank(g, p, w, q, pick);
      var st := R.Seen(g, p);
      SeenBlank(g, p, w, q);
      SeenKeeps(g, p);
      var act := ActOf(g, st, w, pick);
      PerformMoves(g, st, w, act);
      MovesOffDeque(g, st, Perform(g, st, w, act), w, act);
    }
  }

  lemma MovesOffDeque(g: Config, a: State, b: State, w: nat, act: Act)
    requires Shape(g, a) && Shape(g, b) && OnlyMoved(g, a, b, w, Touched(w, act)) && !OnDeque(act)
    ensures OnlyMoved(g, a, b, w, w)
  {
  }

  lemma ExtMoves(g: Config, st: State, x: nat, pick: Pick)
    requires Shape(g, st) && x < |st.ext|
    ensures Shape(g, ExtNext(g, st, x, pick))
    ensures ExtNext(g, st, x, pick).dat == st.dat
    ensures forall u {:trigger ExtNext(g, st, x, pick).ctl[u]} :: 0 <= u < g.nTotal ==>
      ExtNext(g, st, x, pick).ctl[u].pc == st.ctl[u].pc && ExtNext(g, st, x, pick).ctl[u].victim == st.ctl[u].victim
  {
    hide WakeNext;
  }

  /** Outside threads touch no deque. */
  lemma OutsideAgrees(g: Config, pay: R.Payload, carry: Payload, c: Full, x: nat, pick: Pick)
    requires Agree(g, pay, carry, c) && x < |c.p.a.ext|
    ensures Agree(g, pay, carry, Full(R.OutStep(g, pay, c.p, x, pick), c.deques))
  {
    hide R.ShardAgrees, Inv, SameTasks, OwnerAt, R.OutStep, ExtNext, VictimOf;
    var st, n := c.p.a, R.OutStep(g, pay, c.p, x, pick);
    R.OutRefines(g, pay, c.p, x, pick);
    if !R.Pushing(g, c.p, x) {
      R.AwayStep(g, pay, c.p, x, pick);
      ExtMoves(g, st, x, pick);
    } else {
      if st.ext[x].Reserving? { R.ReserveStep(g, pay, c.p, x, pick); } else { R.PublishStep(g, pay, c.p, x, pick); }
      if n.a != st {
        var k: Pick :| n.a == ExtNext(g, st, x, k);
        ExtMoves(g, st, x, k);
      }
    }
    assert OnlyMoved(g, st, n.a, 0, 0);
    forall z | 0 <= z < g.nTotal ensures ThiefAt(g, 0, n.a.ctl[0], z, c.deques[z].thieves[0]) {
      assert DequeAgrees(g, carry, st, z, c.deques[z]);
      SameVictim(g, 0, st.ctl[0], n.a.ctl[0]);
    }
    assert DequeAgrees(g, carry, st, 0, c.deques[0]);
    assert c.deques[0 := c.deques[0]] == c.deques;
    AgreeAfter(g, pay, carry, c, n, 0, c.deques[0], 0);
  }

  // ---------------------------------------------------------------- every step, every run

  /** The pool below stays where it is, or takes one step. */
  ghost predicate StaysOrSteps(g: Config, pay: R.Payload, p: R.Pool, n: R.Pool)
    requires R.Shapes(g, p)
  {
    n == p || exists mv: Move {:trigger MoveOk(g, p.a, mv)} :: MoveOk(g, p.a, mv) && n == R.Step(g, pay, p, mv)
  }

  /** Every access of every thread to the words of rings and deques is a step of the pool over its
      rings, and so of the abstract pool, or invisible to it. */
  lemma StepRefines(g: Config, pay: R.Payload, carry: Payload, c: Full, mv: Move)
    requires Agree(g, pay, carry, c) && MoveOk(g, c.p.a, mv)
    ensures Agree(g, pay, carry, Step(g, pay, carry, c, mv)) && StaysOrSteps(g, pay, c.p, Step(g, pay, carry, c, mv).p)
  {
    hide R.Agree, DequeAgrees, OwnerStep, ThiefStep, R.WorkStep, R.OutStep, VictimOf, Owning;
    match mv {
      case Outside(x, pick) =>
        OutsideAgrees(g, pay, carry, c, x, pick);
        assert R.Step(g, pay, c.p, mv) == R.OutStep(g, pay, c.p, x, pick);
      case Work(w, pick) =>
        if Owning(g, c, w) {
          OwnerRefines(g, pay, carry, c, w, pick);
          assert MoveOk(g, c.p.a, Work(w, pick));
        } else if VictimOf(g, w, c.p.a.ctl[w]).Some? {
          var v := VictimOf(g, w, c.p.a.ctl[w]).value;
          VictimIs(g, w, c.p.a.ctl[w]);
          StealAgrees(g, pay, carry, c, w, v);
          var k := Pick(Loot(c.deques[v].m, c.deques[v].thieves[w]) == Some(true), 0);
          assert MoveOk(g, c.p.a, Work(w, k));
        } else {
          BelowAgrees(g, pay, carry, c, w, pick);
          assert MoveOk(g, c.p.a, Work(w, pick));
        }
    }
  }

  lemma VictimIs(g: Config, w: nat, ct: Ctl)
    ensures VictimOf(g, w, ct).Some? ==> ct.pc.Try? && ct.pc.ph.Steal? && VictimOf(g, w, ct).value < g.nTotal
  {
  }

  lemma OwnerRefines(g: Config, pay: R.Payload, carry: Payload, c: Full, w: nat, pick: Pick)
    requires Agree(g, pay, carry, c) && w < g.nTotal && Owning(g, c, w)
    ensures var n := OwnerStep(g, carry, c, w);
      Agree(g, pay, carry, n) && (n.p == c.p || n.p == R.WorkStep(g, c.p, w, pick))
  {
    hide R.Agree, DequeAgrees, OwnerStep, R.WorkStep;
    var pc := c.p.a.ctl[w].pc;
    if pc.Spill? {
      PushAgrees(g, pay, carry, c, w, pick);
    } else if Taking(pc) {
      TakeAgrees(g, pay, carry, c, w, pick);
    } else {
      FinishAgrees(g, pay, carry, c, w);
    }
  }

  /** Fresh from pool_create. */
  ghost predicate Starts(g: Config, c: Full) {
    && Shapes(g, c) && R.Starts(g, c.p)
    && forall v {:trigger c.deques[v]} :: 0 <= v < g.nTotal ==> Deque.Init(c.deques[v])
  }

  lemma StartsAgreed(g: Config, pay: R.Payload, carry: Payload, c: Full)
    requires Starts(g, c)
    ensures Agree(g, pay, carry, c)
  {
    hide R.Agree;
    R.StartsAgreed(g, pay, c.p);
    forall v | 0 <= v < g.nTotal ensures DequeAgrees(g, carry, c.p.a, v, c.deques[v]) {
      Deque.InitInv(c.deques[v]);
      assert c.p.a.dat[v].deque == [];
      assert Deque.Contents(c.deques[v]) == Carries(carry, []);
    }
  }

  /** The states of a run, one per access. */
  ghost predicate IsFullRun(g: Config, pay: R.Payload, carry: Payload, cs: seq<Full>, mvs: seq<Move>) {
    && |cs| == |mvs| + 1
    && Starts(g, cs[0])
    && (forall j {:trigger StepsTo(g, pay, carry, cs, mvs, j)} :: 0 <= j < |mvs| ==> StepsTo(g, pay, carry, cs, mvs, j))
  }

  ghost predicate StepsTo(g: Config, pay: R.Payload, carry: Payload, cs: seq<Full>, mvs: seq<Move>, j: nat)
    requires j < |mvs| && j + 1 < |cs|
  {
    Shapes(g, cs[j]) && MoveOk(g, cs[j].p.a, mvs[j]) && cs[j + 1] == Step(g, pay, carry, cs[j], mvs[j])
  }

  lemma {:induction false} RunAgrees(g: Config, pay: R.Payload, carry: Payload, cs: seq<Full>, mvs: seq<Move>, j: nat)
    requires IsFullRun(g, pay, carry, cs, mvs) && j < |cs|
    ensures Agree(g, pay, carry, cs[j])
  {
    hide Agree, Step;
    if j == 0 {
      StartsAgreed(g, pay, carry, cs[0]);
    } else {
      RunAgrees(g, pay, carry, cs, mvs, j - 1);
      assert StepsTo(g, pay, carry, cs, mvs, j - 1);
      StepRefines(g, pay, carry, cs[j - 1], mvs[j - 1]);
    }
  }

  lemma StepRefinesPool(g: Config, pay: R.Payload, carry: Payload, c: Full, mv: Move)
    requires Agree(g, pay, carry, c) && MoveOk(g, c.p.a, mv)
    ensures R.StaysOrSteps(g, c.p.a, Step(g, pay, carry, c, mv).p.a)
  {
    hide DequeAgrees, R.ShardAgrees, Inv, Step, R.Step, Next;
    StepRefines(g, pay, carry, c, mv);
    var n := Step(g, pay, carry, c, mv).p;
    if n != c.p {
      var k: Move :| MoveOk(g, c.p.a, k) && n == R.Step(g, pay, c.p, k);
      R.StepRefinesPool(g, pay, c.p, k);
    }
  }

  /** Every run over the words of rings and deques is a run of the abstract pool: whatever PoolTheorems
      says of those holds of these. */
  lemma {:induction false} RunRefinesPool(g: Config, pay: R.Payload, carry: Payload, cs: seq<Full>, mvs: seq<Move>, j: nat)
    requires IsFullRun(g, pay, carry, cs, mvs) && j < |cs|
    ensures exists tr: seq<State>, amvs: seq<Move> :: R.EndsIn(g, tr, amvs, cs[j].p.a)
  {
    hide Step, IsRun, DequeAgrees, R.ShardAgrees, Inv, Init;
    if j == 0 {
      R.FirstOfRun(g, cs[0].p.a);
      assert R.EndsIn(g, [cs[0].p.a], [], cs[0].p.a);
    } else {
      RunRefinesPool(g, pay, carry, cs, mvs, j - 1);
      RunAgrees(g, pay, carry, cs, mvs, j - 1);
      assert StepsTo(g, pay, carry, cs, mvs, j - 1);
      StepRefinesPool(g, pay, carry, cs[j - 1], mvs[j - 1]);
      var a, b := cs[j - 1].p.a, cs[j].p.a;
      var tr: seq<State>, amvs: seq<Move> :| R.EndsIn(g, tr, amvs, a);
      if b != a {
        var mv: Move :| MoveOk(g, a, mv) && b == Next(g, a, mv);
        R.ExtendRun(g, tr, amvs, a, mv);
      }
    }
  }

  // ---------------------------------------------------------------- on the words

  /** No lost wake-up, on the words: when every worker is blocked in its sleep and nothing is in
      progress outside, the head of every ring is its tail, the top of every deque its bottom, and
      nobody is inside any of them. */
  lemma NoLostWakeUpOnWords(g: Config, pay: R.Payload, carry: Payload, cs: seq<Full>, mvs: seq<Move>, j: nat)
    requires IsFullRun(g, pay, carry, cs, mvs) && j < |cs|
    ensures Shapes(g, cs[j])
    ensures var c := cs[j]; AllAsleep(g, c.p.a) && QuietOutside(c.p.a) ==>
      && (forall s {:trigger c.p.rings[s]} :: 0 <= s < g.nShards ==> R.Deserted(c.p.rings[s]))
      && (forall v {:trigger c.deques[v]} :: 0 <= v < g.nTotal ==> Deserted(c.deques[v]))
  {
    hide Step, R.Agree, DequeAgrees, R.Deserted, Deserted;
    RunAgrees(g, pay, carry, cs, mvs, j);
    var c := cs[j];
    if AllAsleep(g, c.p.a) && QuietOutside(c.p.a) {
      forall s | 0 <= s < g.nShards ensures R.Deserted(c.p.rings[s]) {
        BelowShapes(g, pay, c.p);
        R.AsleepMeansDeserted(g, pay, c.p, s);
      }
      forall v | 0 <= v < g.nTotal ensures Deserted(c.deques[v]) {
        AsleepMeansDeserted(g, pay, carry, c, v);
      }
    }
  }

  lemma BelowShapes(g: Config, pay: R.Payload, p: R.Pool)
    requires R.Agree(g, pay, p)
    ensures R.Shapes(g, p)
  {
  }

  predicate Deserted(d: Deque.State) {
    && d.m.top == d.m.bottom && d.o == Deque.Rest
    && forall i {:trigger d.thieves[i]} :: 0 <= i < |d.thieves| ==> d.thieves[i] == Deque.Away
  }

  lemma AsleepMeansDeserted(g: Config, pay: R.Payload, carry: Payload, c: Full, v: nat)
    requires Agree(g, pay, carry, c) && AllAsleep(g, c.p.a) && QuietOutside(c.p.a) && v < g.nTotal
    ensures Deserted(c.deques[v])
  {
    hide R.ShardAgrees, Inv;
    var d := c.deques[v];
    AsleepMeansDrained(g, c.p.a);
    assert DequeAgrees(g, carry, c.p.a, v, d) && c.p.a.ctl[v].pc == Sleep;
    ContentsAre(d);
    assert Deque.Contents(d) == [];
    forall i | 0 <= i < |d.thieves| ensures d.thieves[i] == Deque.Away {
      assert ThiefAt(g, i, c.p.a.ctl[i], v, d.thieves[i]) && c.p.a.ctl[i].pc == Sleep;
    }
  }

  /** What is copied out of a deque is right: a take that was decided copies what the task in hand
      carries, and a thief about to win has copied what the front task carries, however often the
      slots were reused. */
  lemma CopiesAreRight(g: Config, pay: R.Payload, carry: Payload, cs: seq<Full>, mvs: seq<Move>, j: nat, v: nat, w: nat)
    requires IsFullRun(g, pay, carry, cs, mvs) && j < |cs| && v < g.nTotal && w < g.nTotal
    ensures Shapes(g, cs[j])
    ensures var d, hand := cs[j].deques[v], cs[j].p.a.dat[v].hand;
      && (d.o.ReadArg? && d.o.t < d.o.b ==> InHand(carry, hand, Deque.Task(d.o.fn, Deque.At(d.m, d.o.b).arg)))
      && (d.o.TakeFix? && d.o.got ==> InHand(carry, hand, d.o.x))
    ensures var d, q := cs[j].deques[v], cs[j].p.a.dat[v].deque;
      d.thieves[w].StealCas? && d.m.top == d.thieves[w].t ==> q != [] && d.thieves[w].x == carry(q[0])
  {
    hide Step, R.Agree;
    RunAgrees(g, pay, carry, cs, mvs, j);
    assert DequeAgrees(g, carry, cs[j].p.a, v, cs[j].deques[v]);
    StealOnDeque(carry, cs[j].p.a.dat[v].deque, cs[j].deques[v], w);
  }

  /** What a worker has copied out of a ring, once its batch is complete, is what the tasks in its
      batch buffer carry, in their order. */
  lemma BatchIsWhatWasClaimed(g: Config, pay: R.Payload, carry: Payload, cs: seq<Full>, mvs: seq<Move>, j: nat, w: nat, s: nat)
    requires IsFullRun(g, pay, carry, cs, mvs) && j < |cs| && s < g.nShards && w < g.nTotal
    ensures Shapes(g, cs[j])
    ensures var l := cs[j].p.rings[s].threads[w];
      l.PopRecycle? && |l.out| == l.n ==> l.out == R.Pays(pay, cs[j].p.a.dat[w].pend)
  {
    hide Step, R.Agree, DequeAgrees;
    RunAgrees(g, pay, carry, cs, mvs, j);
    BelowShapes(g, pay, cs[j].p);
    R.BatchIsCopied(g, pay, cs[j].p, w, s);
  }
}
