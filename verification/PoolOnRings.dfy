/** The pool over the words of its shard rings: every access of pool_ring_push and pool_ring_pop_batch
    is a step of BatchRing, taken by the same workers and outside threads that PoolModel describes.
    Each step is a step of the abstract pool or invisible to it. PoolOnDeques puts the deques on top
    and carries the theorems over. */
module PoolOnRings {
  import opened RingSpec
  import BatchRing
  import opened PoolModel
  import opened PoolControl
  import opened PoolTheorems

  /** `a` has the control words of all threads, and as history the shards and the place of every task
      that PoolModel keeps; `rings` are the shards as they are. Worker `w` is thread `w` of each ring,
      outside thread `x` is thread nTotal + x. */
  datatype Pool = Pool(a: State, rings: seq<BatchRing.State>)

  /** What the task of each submission carries. */
  type Payload = Task -> BatchRing.Task

  predicate RingShape(g: Config, st: State, r: BatchRing.State) {
    BatchRing.Shape(r.r) && |r.threads| == g.nTotal + |st.ext|
  }

  predicate Shapes(g: Config, c: Pool) {
    && Shape(g, c.a) && |c.rings| == g.nShards
    && forall s {:trigger c.rings[s]} :: 0 <= s < g.nShards ==> RingShape(g, c.a, c.rings[s])
  }

  // ---------------------------------------------------------------- the steps

  predicate Scanning(ph: Phase) {
    ph.Head? || ph.Test? || ph.Cas?
  }

  /** The shard a worker is scanning, or has last claimed from. */
  function ShardOf(g: Config, ct: Ctl): nat {
    if ct.pc.Try? && Scanning(ct.pc.ph) then ShardAt(g, ct.cursor, ct.pc.ph.k) else ct.cursor
  }

  /** Worker `w` is inside pool_ring_pop_batch: looking for positions, or copying claimed ones. */
  predicate Inside(g: Config, c: Pool, w: nat)
    requires Shapes(g, c) && w < g.nTotal
  {
    var ct := c.a.ctl[w];
    var s := ShardOf(g, ct);
    && ct.pc.Try? && s < g.nShards
    && (Scanning(ct.pc.ph) || (ct.pc.ph.Buffer? && c.rings[s].threads[w] != BatchRing.Idle))
  }

  /** What the worker makes of its access: where it is in the ring says where it is in its loop. */
  function ScanAct(g: Config, ct: Ctl, l: BatchRing.Local): Act
    requires ct.pc.Try? && Scanning(ct.pc.ph)
  {
    var site, k := ct.pc.site, ct.pc.ph.k;
    match l
    case PopLoad(_) => Go(Try(site, Head(k)))
    case PopSeq(_, pos, n) => Go(Try(site, Test(k, pos, n)))
    case PopCas(_, pos, n) => Go(Try(site, Cas(k, pos, n)))
    case PopFn(_, n, _) => ClaimShard(ShardOf(g, ct), n, Try(site, Buffer))
    case _ => Go(Try(site, NextShard(g, k)))
  }

  /** The words of the rings that the rest of the pool reads: head and tail. */
  function Seen(g: Config, c: Pool): State
    requires Shapes(g, c)
  {
    c.a.(rings := seq(g.nShards, s requires 0 <= s < g.nShards =>
                        Shard(c.rings[s].r.head, seq(c.rings[s].r.tail, _ => 0), {})))
  }

  function WorkStep(g: Config, c: Pool, w: nat, pick: Pick): Pool
    requires Shapes(g, c) && w < g.nTotal
  {
    var ct := c.a.ctl[w];
    if !Inside(g, c, w) then
      Pool(WorkerNext(g, Seen(g, c), w, pick).(rings := c.a.rings), c.rings)
    else
      var s := ShardOf(g, ct);
      var r := BatchRing.Next(c.rings[s], w, BatchRing.Pop(g.batch));
      Pool(if Scanning(ct.pc.ph) then Perform(g, c.a, w, ScanAct(g, ct, r.threads[w])) else c.a, c.rings[s := r])
  }

  /** Outside thread `x` is inside pool_ring_push. */
  predicate Pushing(g: Config, c: Pool, x: nat)
    requires Shapes(g, c) && x < |c.a.ext|
  {
    || (c.a.ext[x].Reserving? && c.a.ext[x].s < g.nShards && c.a.extHand[x].Some?)
    || (c.a.ext[x].Publishing? && c.a.ext[x].s < g.nShards)
  }

  function OutStep(g: Config, pay: Payload, c: Pool, x: nat, pick: Pick): Pool
    requires Shapes(g, c) && x < |c.a.ext|
  {
    if !Pushing(g, c, x) then
      Pool(ExtNext(g, Seen(g, c), x, pick).(rings := c.a.rings), c.rings)
    else
      var s, i := c.a.ext[x].s, g.nTotal + x;
      var call := if c.a.extHand[x].Some? then BatchRing.Push(pay(c.a.extHand[x].value)) else BatchRing.Pop(0);
      var r := BatchRing.Next(c.rings[s], i, call);
      var l := r.threads[i];
      var a := if l.PushFn? && c.a.ext[x].Reserving? then ExtNext(g, c.a, x, Pick(true, pick.n))
               else if l == BatchRing.Idle then ExtNext(g, c.a, x, Pick(false, pick.n))
               else c.a;
      Pool(a, c.rings[s := r])
  }

  function Step(g: Config, pay: Payload, c: Pool, mv: Move): Pool
    requires Shapes(g, c) && MoveOk(g, c.a, mv)
  {
    match mv
    case Work(w, pick) => WorkStep(g, c, w, pick)
    case Outside(x, pick) => OutStep(g, pay, c, x, pick)
  }

  // ---------------------------------------------------------------- how the two levels agree

  function Pays(pay: Payload, log: seq<Task>): (r: seq<BatchRing.Task>)
    ensures |r| == |log| && forall p {:trigger r[p]} :: 0 <= p < |log| ==> r[p] == pay(log[p])
  {
    seq(|log|, p requires 0 <= p < |log| => pay(log[p]))
  }

  predicate Match(pay: Payload, s: Shard<Task>, r: BatchRing.Ring) {
    BatchRing.Shape(r) && BatchRing.Abs(r) == Shard(s.head, Pays(pay, s.log), s.pub)
  }

  predicate Copying(pay: Payload, l: BatchRing.Local, pend: seq<Task>, log: seq<BatchRing.Task>) {
    && (l.PopFn? || l.PopArg? || l.PopRecycle?)
    && l.n == |pend| && l.pos + l.n <= |log| && Pays(pay, pend) == log[l.pos..l.pos + l.n]
  }

  /** Where a worker at `pc` is inside the ring of shard `s`. */
  predicate WorkerAt(g: Config, pay: Payload, pc: PC, cursor: nat, pend: seq<Task>, s: nat,
                     log: seq<BatchRing.Task>, l: BatchRing.Local)
  {
    if pc.Try? && pc.ph.Head? && ShardAt(g, cursor, pc.ph.k) == s then
      l == BatchRing.Idle || l == BatchRing.PopLoad(g.batch)
    else if pc.Try? && pc.ph.Test? && ShardAt(g, cursor, pc.ph.k) == s then
      l == BatchRing.PopSeq(g.batch, pc.ph.pos, pc.ph.n)
    else if pc.Try? && pc.ph.Cas? && ShardAt(g, cursor, pc.ph.k) == s then
      l == BatchRing.PopCas(g.batch, pc.ph.pos, pc.ph.n)
    else if pc.Try? && pc.ph.Buffer? && cursor == s then
      l == BatchRing.Idle || Copying(pay, l, pend, log)
    else l == BatchRing.Idle
  }

  predicate OutsideAt(pay: Payload, e: ExtPC, hand: Option<Task>, s: nat, l: BatchRing.Local) {
    if e.Reserving? && e.s == s then
      l == BatchRing.Idle || ((l.PushLoad? || l.PushSeq? || l.PushCas?) && hand.Some? && l.t == pay(hand.value))
    else if e.Publishing? && e.s == s then
      (l.PushFn? || l.PushArg? || l.PushPublish?) && l.pos == e.p
    else l == BatchRing.Idle
  }

  ghost predicate ShardAgrees(g: Config, pay: Payload, st: State, s: nat, r: BatchRing.State)
    requires Shape(g, st) && s < g.nShards && RingShape(g, st, r)
  {
    && BatchRing.Inv(r) && Match(pay, st.rings[s], r.r)
    && (forall w {:trigger r.threads[w]} :: 0 <= w < g.nTotal ==>
          WorkerAt(g, pay, st.ctl[w].pc, st.ctl[w].cursor, st.dat[w].pend, s, r.r.log, r.threads[w]))
    && (forall x {:trigger st.ext[x]} :: 0 <= x < |st.ext| ==>
          OutsideAt(pay, st.ext[x], st.extHand[x], s, r.threads[g.nTotal + x]))
  }

  ghost predicate Agree(g: Config, pay: Payload, c: Pool) {
    && Shapes(g, c) && Inv(g, c.a)
    && forall s {:trigger c.rings[s]} :: 0 <= s < g.nShards ==> ShardAgrees(g, pay, c.a, s, c.rings[s])
  }

  // ---------------------------------------------------------------- accesses to a ring

  /** One access of thread `i` to a ring, and what it is of the abstract shard. */
  lemma RingMoves(pay: Payload, s: Shard<Task>, s': Shard<Task>, r: BatchRing.State, i: nat, call: BatchRing.Call)
    requires BatchRing.Inv(r) && i < |r.threads| && Match(pay, s, r.r)
    requires var l := r.threads[i];
      match BatchRing.EffectOf(r.r, l)
      case Reserve(t) => exists u: Task {:trigger pay(u)} :: t == pay(u) && s' == Reserve(s, u)
      case Claim(n) => s' == Claim(s, n)
      case Fill(p, _) => s' == if l.PushPublish? then Publish(s, p) else s
      case _ => s' == s
    ensures var r' := BatchRing.Next(r, i, call);
      && BatchRing.Inv(r') && Match(pay, s', r'.r)
      && (r'.r.log == r.r.log || exists t: BatchRing.Task :: r'.r.log == r.r.log + [t])
      && r'.threads == r.threads[i := BatchRing.Goto(r.r, r.threads[i], call)]
  {
    hide BatchRing.Window, BatchRing.Exclusive, BatchRing.Once, BatchRing.ThreadOk, BatchRing.Goto, BatchRing.Abs;
    BatchRing.NextKeepsInv(r, i, call);
    BatchRing.StepRefinesShard(r, i, call);
    var l := r.threads[i];
    match BatchRing.EffectOf(r.r, l) {
      case Reserve(t) =>
        var u: Task :| t == pay(u) && s' == Reserve(s, u);
        assert Pays(pay, s.log + [u]) == Pays(pay, s.log) + [pay(u)];
      case _ =>
    }
  }

  // ---------------------------------------------------------------- what a step leaves alone

  /** Only worker `w` has moved, as far as the rings can tell. */
  ghost predicate OnlyWorker(g: Config, a: State, b: State, w: nat)
    requires Shape(g, a) && Shape(g, b)
  {
    && b.ext == a.ext && b.extHand == a.extHand
    && forall v {:trigger b.ctl[v]} {:trigger b.dat[v]} :: 0 <= v < g.nTotal && v != w ==>
         b.ctl[v].pc == a.ctl[v].pc && b.ctl[v].cursor == a.ctl[v].cursor && b.dat[v].pend == a.dat[v].pend
  }

  /** Only outside thread `x` has. */
  ghost predicate OnlyOutside(g: Config, a: State, b: State, x: nat)
    requires Shape(g, a) && Shape(g, b)
  {
    && |b.ext| == |a.ext|
    && (forall y {:trigger b.ext[y]} {:trigger b.extHand[y]} :: 0 <= y < |a.ext| && y != x ==>
          b.ext[y] == a.ext[y] && b.extHand[y] == a.extHand[y])
    && forall v {:trigger b.ctl[v]} {:trigger b.dat[v]} :: 0 <= v < g.nTotal ==>
         b.ctl[v].pc == a.ctl[v].pc && b.ctl[v].cursor == a.ctl[v].cursor && b.dat[v].pend == a.dat[v].pend
  }

  lemma PerformOnly(g: Config, st: State, w: nat, a: Act)
    requires Shape(g, st) && w < g.nTotal
    ensures Shape(g, Perform(g, st, w, a)) && OnlyWorker(g, st, Perform(g, st, w, a), w)
    ensures Perform(g, st, w, a).ctl[w].pc == a.next
    ensures !a.ClaimShard? ==> Perform(g, st, w, a).ctl[w].cursor == st.ctl[w].cursor && Perform(g, st, w, a).rings == st.rings
  {
  }

  lemma AlertOnly(g: Config, st: State, x: nat, pick: Pick)
    requires Shape(g, st) && x < |st.ext| && st.ext[x].Alerting?
    ensures Shape(g, ExtNext(g, st, x, pick)) && OnlyOutside(g, st, ExtNext(g, st, x, pick), x)
  {
    hide WakeNext;
  }

  lemma ExtOnly(g: Config, st: State, x: nat, pick: Pick)
    requires Shape(g, st) && x < |st.ext|
    ensures Shape(g, ExtNext(g, st, x, pick)) && OnlyOutside(g, st, ExtNext(g, st, x, pick), x)
  {
    hide WakeNext, Unflags;
    if st.ext[x].Alerting? { AlertOnly(g, st, x, pick); }
  }

  ghost predicate Grows(log: seq<BatchRing.Task>, log': seq<BatchRing.Task>) {
    log' == log || exists t: BatchRing.Task :: log' == log + [t]
  }

  lemma StaysAt(g: Config, pay: Payload, pc: PC, cursor: nat, pend: seq<Task>, s: nat,
                log: seq<BatchRing.Task>, log': seq<BatchRing.Task>, l: BatchRing.Local)
    requires WorkerAt(g, pay, pc, cursor, pend, s, log, l) && Grows(log, log')
    ensures WorkerAt(g, pay, pc, cursor, pend, s, log', l)
  {
    if Copying(pay, l, pend, log) { assert log'[l.pos..l.pos + l.n] == log[l.pos..l.pos + l.n]; }
  }

  /** After a step of worker `w`, in shard `s` or in none, the levels agree if they do on `s` and on
      where `w` is. */
  lemma AgreeAfterWorker(g: Config, pay: Payload, c: Pool, a: State, s: nat, r: BatchRing.State, w: nat)
    requires Agree(g, pay, c) && s < g.nShards && w < g.nTotal
    requires Shape(g, a) && Inv(g, a) && OnlyWorker(g, c.a, a, w)
    requires BatchRing.Inv(r) && Match(pay, a.rings[s], r.r) && Grows(c.rings[s].r.log, r.r.log)
    requires |r.threads| == |c.rings[s].threads| && r.threads == c.rings[s].threads[w := r.threads[w]]
    requires forall z {:trigger a.rings[z]} :: 0 <= z < g.nShards && z != s ==> a.rings[z] == c.a.rings[z]
    requires forall z {:trigger c.rings[z]} :: 0 <= z < g.nShards ==>
      WorkerAt(g, pay, a.ctl[w].pc, a.ctl[w].cursor, a.dat[w].pend, z,
               if z == s then r.r.log else c.rings[z].r.log, if z == s then r.threads[w] else c.rings[z].threads[w])
    ensures Agree(g, pay, Pool(a, c.rings[s := r]))
  {
    hide BatchRing.Inv, Match, WorkerAt, OutsideAt, Grows, Inv;
    var n := Pool(a, c.rings[s := r]);
    forall z | 0 <= z < g.nShards ensures RingShape(g, a, n.rings[z]) && ShardAgrees(g, pay, a, z, n.rings[z]) {
      assert ShardAgrees(g, pay, c.a, z, c.rings[z]);
      ShardAfterWorker(g, pay, c.a, a, z, c.rings[z], n.rings[z], w);
    }
  }

  lemma ShardAfterWorker(g: Config, pay: Payload, st: State, a: State, s: nat, r: BatchRing.State, r': BatchRing.State, w: nat)
    requires Shape(g, st) && Shape(g, a) && s < g.nShards && RingShape(g, st, r) && ShardAgrees(g, pay, st, s, r) && w < g.nTotal
    requires OnlyWorker(g, st, a, w) && BatchRing.Inv(r') && Match(pay, a.rings[s], r'.r) && (r' == r || Grows(r.r.log, r'.r.log))
    requires |r'.threads| == |r.threads| && r'.threads == r.threads[w := r'.threads[w]]
    requires WorkerAt(g, pay, a.ctl[w].pc, a.ctl[w].cursor, a.dat[w].pend, s, r'.r.log, r'.threads[w])
    ensures RingShape(g, a, r') && ShardAgrees(g, pay, a, s, r')
  {
    hide BatchRing.Inv, WorkerAt, OutsideAt, Grows;
    forall v | 0 <= v < g.nTotal
      ensures WorkerAt(g, pay, a.ctl[v].pc, a.ctl[v].cursor, a.dat[v].pend, s, r'.r.log, r'.threads[v])
    {
      if v != w && r' != r {
        assert r'.threads[v] == r.threads[v];
        StaysAt(g, pay, st.ctl[v].pc, st.ctl[v].cursor, st.dat[v].pend, s, r.r.log, r'.r.log, r.threads[v]);
      } else if v != w {
        assert a.ctl[v].pc == st.ctl[v].pc;
      }
    }
    forall x | 0 <= x < |a.ext| ensures OutsideAt(pay, a.ext[x], a.extHand[x], s, r'.threads[g.nTotal + x]) {
      assert r'.threads[g.nTotal + x] == r.threads[g.nTotal + x];
    }
  }

  lemma AgreeAfterOutside(g: Config, pay: Payload, c: Pool, a: State, s: nat, r: BatchRing.State, x: nat)
    requires Agree(g, pay, c) && s < g.nShards && x < |c.a.ext|
    requires Shape(g, a) && Inv(g, a) && OnlyOutside(g, c.a, a, x)
    requires BatchRing.Inv(r) && Match(pay, a.rings[s], r.r) && Grows(c.rings[s].r.log, r.r.log)
    requires var i := g.nTotal + x; |r.threads| == |c.rings[s].threads| && r.threads == c.rings[s].threads[i := r.threads[i]]
    requires forall z {:trigger a.rings[z]} :: 0 <= z < g.nShards && z != s ==> a.rings[z] == c.a.rings[z]
    requires forall z {:trigger c.rings[z]} :: 0 <= z < g.nShards ==>
      OutsideAt(pay, a.ext[x], a.extHand[x], z, if z == s then r.threads[g.nTotal + x] else c.rings[z].threads[g.nTotal + x])
    ensures Agree(g, pay, Pool(a, c.rings[s := r]))
  {
    hide BatchRing.Inv, Match, WorkerAt, OutsideAt, Grows, Inv;
    var n := Pool(a, c.rings[s := r]);
    forall z | 0 <= z < g.nShards ensures RingShape(g, a, n.rings[z]) && ShardAgrees(g, pay, a, z, n.rings[z]) {
      assert ShardAgrees(g, pay, c.a, z, c.rings[z]);
      ShardAfterOutside(g, pay, c.a, a, z, c.rings[z], n.rings[z], x);
    }
  }

  lemma ShardAfterOutside(g: Config, pay: Payload, st: State, a: State, s: nat, r: BatchRing.State, r': BatchRing.State, x: nat)
    requires Shape(g, st) && Shape(g, a) && s < g.nShards && RingShape(g, st, r) && ShardAgrees(g, pay, st, s, r) && x < |st.ext|
    requires OnlyOutside(g, st, a, x) && BatchRing.Inv(r') && Match(pay, a.rings[s], r'.r) && (r' == r || Grows(r.r.log, r'.r.log))
    requires var i := g.nTotal + x; |r'.threads| == |r.threads| && r'.threads == r.threads[i := r'.threads[i]]
    requires OutsideAt(pay, a.ext[x], a.extHand[x], s, r'.threads[g.nTotal + x])
    ensures RingShape(g, a, r') && ShardAgrees(g, pay, a, s, r')
  {
    hide BatchRing.Inv, WorkerAt, OutsideAt, Grows;
    forall v | 0 <= v < g.nTotal
      ensures WorkerAt(g, pay, a.ctl[v].pc, a.ctl[v].cursor, a.dat[v].pend, s, r'.r.log, r'.threads[v])
    {
      assert r'.threads[v] == r.threads[v] && a.ctl[v].pc == st.ctl[v].pc;
      if r' != r { StaysAt(g, pay, st.ctl[v].pc, st.ctl[v].cursor, st.dat[v].pend, s, r.r.log, r'.r.log, r.threads[v]); }
    }
    forall y | 0 <= y < |a.ext| ensures OutsideAt(pay, a.ext[y], a.extHand[y], s, r'.threads[g.nTotal + y]) {
      if y != x { assert r'.threads[g.nTotal + y] == r.threads[g.nTotal + y] && a.ext[y] == st.ext[y]; }
    }
  }

  // ---------------------------------------------------------------- scanning and claiming

  lemma ScanIndex(g: Config, st: State, w: nat)
    requires Inv(g, st) && w < g.nTotal && st.ctl[w].pc.Try? && Scanning(st.ctl[w].pc.ph)
    ensures ShardOf(g, st.ctl[w]) < g.nShards && g.batch >= 1 && st.ctl[w].cursor < g.nShards
  {
    assert WorkerOk(g, st.rings, w, st.ctl[w]);
  }

  /** What the abstract worker is told by the seqno the concrete one reads. */
  function Told(r: BatchRing.State, w: nat): Pick
    requires BatchRing.Shape(r.r) && w < |r.threads|
  {
    var l := r.threads[w];
    Pick(l.PopSeq? && BatchRing.At(r.r, l.pos + l.n).seqno == l.pos + l.n + 1, 0)
  }

  lemma TestIsAct(g: Config, pay: Payload, st: State, w: nat, r: BatchRing.State)
    requires Shape(g, st) && w < g.nTotal && RingShape(g, st, r) && BatchRing.Inv(r)
    requires st.ctl[w].pc.Try? && Scanning(st.ctl[w].pc.ph) && ShardOf(g, st.ctl[w]) < g.nShards
    requires var s := ShardOf(g, st.ctl[w]);
      && Match(pay, st.rings[s], r.r) && r.threads[w] != BatchRing.Idle
      && WorkerAt(g, pay, st.ctl[w].pc, st.ctl[w].cursor, st.dat[w].pend, s, r.r.log, r.threads[w])
    requires st.ctl[w].pc.ph.Test?
    ensures ScanAct(g, st.ctl[w], BatchRing.Goto(r.r, r.threads[w], BatchRing.Pop(g.batch))) == ActOf(g, st, w, Told(r, w))
  {
    hide BatchRing.Window, BatchRing.Exclusive, BatchRing.Once, BatchRing.ThreadOk, BatchRing.EffectOf, BatchRing.Apply;
    BatchRing.StepRefinesShard(r, w, BatchRing.Pop(g.batch));
    assert st.rings[ShardOf(g, st.ctl[w])].pub == BatchRing.Abs(r.r).pub;
  }

  /** The access of a scanning worker that has entered the ring is the act of PoolModel. */
  lemma ScanIsAct(g: Config, pay: Payload, st: State, w: nat, r: BatchRing.State)
    requires Shape(g, st) && w < g.nTotal && RingShape(g, st, r) && BatchRing.Inv(r)
    requires st.ctl[w].pc.Try? && Scanning(st.ctl[w].pc.ph) && ShardOf(g, st.ctl[w]) < g.nShards
    requires var s := ShardOf(g, st.ctl[w]);
      && Match(pay, st.rings[s], r.r) && r.threads[w] != BatchRing.Idle
      && WorkerAt(g, pay, st.ctl[w].pc, st.ctl[w].cursor, st.dat[w].pend, s, r.r.log, r.threads[w])
    ensures ScanAct(g, st.ctl[w], BatchRing.Goto(r.r, r.threads[w], BatchRing.Pop(g.batch))) == ActOf(g, st, w, Told(r, w))
  {
    hide BatchRing.Inv, BatchRing.EffectOf, BatchRing.Apply, BatchRing.At;
    if st.ctl[w].pc.ph.Test? { TestIsAct(g, pay, st, w, r); }
  }

  /** Where the worker is after its access fits where its thread of the ring is. */
  lemma ScanPlaces(g: Config, pay: Payload, ct: Ctl, pend: seq<Task>, pend': seq<Task>, r: BatchRing.State, w: nat, log: seq<BatchRing.Task>)
    requires ct.pc.Try? && Scanning(ct.pc.ph) && BatchRing.Shape(r.r) && w < |r.threads| && g.batch >= 1
    requires WorkerAt(g, pay, ct.pc, ct.cursor, pend, ShardOf(g, ct), r.r.log, r.threads[w])
    requires var l := BatchRing.Goto(r.r, r.threads[w], BatchRing.Pop(g.batch)); l.PopFn? ==> Copying(pay, l, pend', log)
    ensures var l := BatchRing.Goto(r.r, r.threads[w], BatchRing.Pop(g.batch));
      var a := ScanAct(g, ct, l);
      var cursor := if a.ClaimShard? then a.s else ct.cursor;
      && WorkerAt(g, pay, a.next, cursor, pend', ShardOf(g, ct), log, l)
      && (forall z: nat, other {:trigger WorkerAt(g, pay, a.next, cursor, pend', z, other, BatchRing.Idle)} ::
            z != ShardOf(g, ct) ==> WorkerAt(g, pay, a.next, cursor, pend', z, other, BatchRing.Idle))
  {
    hide BatchRing.At;
  }

  /** A scanning worker is in no ring but that of its shard. */
  lemma NowhereElse(g: Config, pay: Payload, ct: Ctl, pend: seq<Task>, z: nat, log: seq<BatchRing.Task>, l: BatchRing.Local)
    requires WorkerAt(g, pay, ct.pc, ct.cursor, pend, z, log, l) && z != ShardOf(g, ct)
    ensures l == BatchRing.Idle
  {
  }

  /** What a claim takes: published positions, with the payloads of the tasks at them. */
  lemma ClaimTakes(pay: Payload, s: Shard<Task>, r: BatchRing.State, w: nat)
    requires BatchRing.Inv(r) && Match(pay, s, r.r) && w < |r.threads| && r.threads[w].PopCas? && r.r.head == r.threads[w].pos
    ensures var l := r.threads[w];
      && s.head + l.n <= |s.log| && l.pos + l.n <= |r.r.log|
      && Copying(pay, BatchRing.PopFn(l.pos, l.n, []), s.log[s.head..s.head + l.n], r.r.log)
  {
    hide BatchRing.Window, BatchRing.Exclusive, BatchRing.Once, BatchRing.ThreadOk;
    BatchRing.StepRefinesShard(r, w, BatchRing.Pop(0));
    var l := r.threads[w];
    assert Pays(pay, s.log[s.head..s.head + l.n]) == Pays(pay, s.log)[l.pos..l.pos + l.n];
  }

  lemma PerformNothing(g: Config, st: State, w: nat)
    requires Shape(g, st) && w < g.nTotal
    ensures Perform(g, st, w, Go(st.ctl[w].pc)) == st
  {
    assert st.ctl[w := st.ctl[w].(pc := st.ctl[w].pc)] == st.ctl;
  }

  /** The first access of pool_ring_pop_batch is invisible. */
  lemma EnterStep(g: Config, pay: Payload, c: Pool, w: nat, pick: Pick)
    requires Agree(g, pay, c) && w < g.nTotal && c.a.ctl[w].pc.Try? && Scanning(c.a.ctl[w].pc.ph)
    requires ShardOf(g, c.a.ctl[w]) < g.nShards && c.rings[ShardOf(g, c.a.ctl[w])].threads[w] == BatchRing.Idle
    ensures Agree(g, pay, WorkStep(g, c, w, pick)) && WorkStep(g, c, w, pick).a == c.a
  {
    hide Inv, BatchRing.Inv, Match, Perform, Copying;
    ScanIndex(g, c.a, w);
    var ct, s := c.a.ctl[w], ShardOf(g, c.a.ctl[w]);
    var r, call := c.rings[s], BatchRing.Pop(g.batch);
    assert ShardAgrees(g, pay, c.a, s, r);
    RingMoves(pay, c.a.rings[s], c.a.rings[s], r, w, call);
    PerformNothing(g, c.a, w);
    var r' := BatchRing.Next(r, w, call);
    forall z | 0 <= z < g.nShards && z != s
      ensures WorkerAt(g, pay, ct.pc, ct.cursor, c.a.dat[w].pend, z, c.rings[z].r.log, c.rings[z].threads[w])
    {
      assert ShardAgrees(g, pay, c.a, z, c.rings[z]);
    }
    AgreeAfterWorker(g, pay, c, c.a, s, r', w);
  }

  lemma LookIsQuiet(g: Config, st: State, w: nat, a: Act)
    requires Shape(g, st) && w < g.nTotal && a.Go?
    ensures var n := Perform(g, st, w, a); n.rings == st.rings && n.dat == st.dat && n.ctl[w].cursor == st.ctl[w].cursor
  {
  }

  lemma ClaimIsDone(g: Config, st: State, w: nat, s: nat, n: nat, next: PC)
    requires Shape(g, st) && w < g.nTotal && s < g.nShards && st.rings[s].head + n <= |st.rings[s].log|
    ensures var b := Perform(g, st, w, ClaimShard(s, n, next));
      && b.rings == st.rings[s := Claim(st.rings[s], n)] && b.ctl[w].cursor == s
      && b.dat[w].pend == st.rings[s].log[st.rings[s].head..st.rings[s].head + n]
  {
  }

  /** Where the worker is, in every ring, once its access has been performed. */
  lemma PlacesAfter(g: Config, pay: Payload, c: Pool, w: nat, a: State, s: nat, r': BatchRing.State)
    requires Agree(g, pay, c) && w < g.nTotal && c.a.ctl[w].pc.Try? && Scanning(c.a.ctl[w].pc.ph)
    requires s == ShardOf(g, c.a.ctl[w]) && s < g.nShards && Shape(g, a)
    requires r'.threads == c.rings[s].threads[w := BatchRing.Goto(c.rings[s].r, c.rings[s].threads[w], BatchRing.Pop(g.batch))]
    requires r'.threads[w].PopFn? ==> Copying(pay, r'.threads[w], a.dat[w].pend, r'.r.log)
    requires var act := ScanAct(g, c.a.ctl[w], r'.threads[w]);
      a.ctl[w].pc == act.next && a.ctl[w].cursor == if act.ClaimShard? then act.s else c.a.ctl[w].cursor
    ensures forall z {:trigger c.rings[z]} :: 0 <= z < g.nShards ==>
      WorkerAt(g, pay, a.ctl[w].pc, a.ctl[w].cursor, a.dat[w].pend, z,
               if z == s then r'.r.log else c.rings[z].r.log, if z == s then r'.threads[w] else c.rings[z].threads[w])
  {
    hide Inv, BatchRing.Inv, Match, WorkerAt, Copying, ScanAct;
    ScanIndex(g, c.a, w);
    assert ShardAgrees(g, pay, c.a, s, c.rings[s]);
    ScanPlaces(g, pay, c.a.ctl[w], c.a.dat[w].pend, a.dat[w].pend, c.rings[s], w, r'.r.log);
    forall z | 0 <= z < g.nShards && z != s
      ensures WorkerAt(g, pay, a.ctl[w].pc, a.ctl[w].cursor, a.dat[w].pend, z, c.rings[z].r.log, c.rings[z].threads[w])
    {
      assert ShardAgrees(g, pay, c.a, z, c.rings[z]);
      NowhereElse(g, pay, c.a.ctl[w], c.a.dat[w].pend, z, c.rings[z].r.log, c.rings[z].threads[w]);
    }
  }

  /** A load, a test or a lost CAS of the scan is the same look of the abstract worker. */
  lemma LookStep(g: Config, pay: Payload, c: Pool, w: nat, pick: Pick)
    requires Agree(g, pay, c) && w < g.nTotal && c.a.ctl[w].pc.Try? && Scanning(c.a.ctl[w].pc.ph)
    requires var s := ShardOf(g, c.a.ctl[w]);
      s < g.nShards && c.rings[s].threads[w] != BatchRing.Idle
      && !(c.rings[s].threads[w].PopCas? && c.rings[s].r.head == c.rings[s].threads[w].pos)
    ensures Agree(g, pay, WorkStep(g, c, w, pick))
    ensures WorkStep(g, c, w, pick).a == WorkerNext(g, c.a, w, Told(c.rings[ShardOf(g, c.a.ctl[w])], w))
  {
    hide Inv, BatchRing.Inv, Match, Perform, Copying, ActOf;
    var s := ShardOf(g, c.a.ctl[w]);
    var r, call := c.rings[s], BatchRing.Pop(g.batch);
    assert ShardAgrees(g, pay, c.a, s, r);
    assert BatchRing.EffectOf(r.r, r.threads[w]) == BatchRing.Quiet;
    RingMoves(pay, c.a.rings[s], c.a.rings[s], r, w, call);
    ScanIsAct(g, pay, c.a, w, r);
    NextKeepsInv(g, c.a, Work(w, Told(r, w)));
    var r' := BatchRing.Next(r, w, call);
    var act := ScanAct(g, c.a.ctl[w], r'.threads[w]);
    var a := Perform(g, c.a, w, act);
    LookIsQuiet(g, c.a, w, act);
    PerformOnly(g, c.a, w, act);
    PlacesAfter(g, pay, c, w, a, s, r');
    AgreeAfterWorker(g, pay, c, a, s, r', w);
  }

  /** A won CAS is the claim of the abstract worker. */
  lemma ClaimStep(g: Config, pay: Payload, c: Pool, w: nat, pick: Pick)
    requires Agree(g, pay, c) && w < g.nTotal && c.a.ctl[w].pc.Try? && Scanning(c.a.ctl[w].pc.ph)
    requires var s := ShardOf(g, c.a.ctl[w]);
      s < g.nShards && c.rings[s].threads[w].PopCas? && c.rings[s].r.head == c.rings[s].threads[w].pos
    ensures Agree(g, pay, WorkStep(g, c, w, pick))
    ensures WorkStep(g, c, w, pick).a == WorkerNext(g, c.a, w, Told(c.rings[ShardOf(g, c.a.ctl[w])], w))
  {
    hide Inv, BatchRing.Inv, Match, Perform, Copying, ActOf, WorkerAt;
    var s := ShardOf(g, c.a.ctl[w]);
    var r, call := c.rings[s], BatchRing.Pop(g.batch);
    assert ShardAgrees(g, pay, c.a, s, r);
    var n := r.threads[w].n;
    ClaimTakes(pay, c.a.rings[s], r, w);
    RingMoves(pay, c.a.rings[s], Claim(c.a.rings[s], n), r, w, call);
    ScanIsAct(g, pay, c.a, w, r);
    NextKeepsInv(g, c.a, Work(w, Told(r, w)));
    var r' := BatchRing.Next(r, w, call);
    var act := ScanAct(g, c.a.ctl[w], r'.threads[w]);
    var a := Perform(g, c.a, w, act);
    ClaimIsDone(g, c.a, w, s, n, act.next);
    PerformOnly(g, c.a, w, act);
    PlacesAfter(g, pay, c, w, a, s, r');
    AgreeAfterWorker(g, pay, c, a, s, r', w);
  }

  lemma CopyGoes(pay: Payload, r: BatchRing.State, w: nat, pend: seq<Task>, call: BatchRing.Call)
    requires BatchRing.Shape(r.r) && w < |r.threads| && Copying(pay, r.threads[w], pend, r.r.log)
    ensures var l := BatchRing.Goto(r.r, r.threads[w], call); l == BatchRing.Idle || Copying(pay, l, pend, r.r.log)
    ensures var e := BatchRing.EffectOf(r.r, r.threads[w]); e.Quiet? || e.Recycle?
    ensures BatchRing.Next(r, w, call).r.log == r.r.log
  {
  }

  /** Copying claimed positions is invisible: the abstract worker has its batch since the claim. */
  lemma CopyStep(g: Config, pay: Payload, c: Pool, w: nat, pick: Pick)
    requires Agree(g, pay, c) && w < g.nTotal && c.a.ctl[w].pc.Try? && c.a.ctl[w].pc.ph.Buffer? && Inside(g, c, w)
    ensures Agree(g, pay, WorkStep(g, c, w, pick)) && WorkStep(g, c, w, pick).a == c.a
  {
    hide Inv, BatchRing.Inv, Match, Copying;
    var ct := c.a.ctl[w];
    var s, call := ct.cursor, BatchRing.Pop(g.batch);
    var r := c.rings[s];
    assert ShardAgrees(g, pay, c.a, s, r);
    CopyGoes(pay, r, w, c.a.dat[w].pend, call);
    RingMoves(pay, c.a.rings[s], c.a.rings[s], r, w, call);
    forall z | 0 <= z < g.nShards && z != s
      ensures WorkerAt(g, pay, ct.pc, ct.cursor, c.a.dat[w].pend, z, c.rings[z].r.log, c.rings[z].threads[w])
    {
      assert ShardAgrees(g, pay, c.a, z, c.rings[z]);
    }
    AgreeAfterWorker(g, pay, c, c.a, s, BatchRing.Next(r, w, call), w);
  }

  // ---------------------------------------------------------------- the rest of a worker's steps

  /** Heads and tails are the same on both levels. */
  lemma SeenIsSo(g: Config, pay: Payload, c: Pool, s: nat)
    requires Agree(g, pay, c) && s < g.nShards
    ensures Seen(g, c).rings[s].head == c.a.rings[s].head && |Seen(g, c).rings[s].log| == |c.a.rings[s].log|
  {
    hide Inv;
    assert ShardAgrees(g, pay, c.a, s, c.rings[s]);
  }

  ghost predicate SameHeads(g: Config, a: State, b: State)
    requires Shape(g, a) && Shape(g, b)
  {
    && b == a.(rings := b.rings)
    && forall s {:trigger a.rings[s]} {:trigger b.rings[s]} :: 0 <= s < g.nShards ==>
         a.rings[s].head == b.rings[s].head && |a.rings[s].log| == |b.rings[s].log|
  }

  predicate NotInRing(pc: PC) {
    !(pc.Try? && (pc.ph.Test? || pc.ph.Cas?))
  }

  lemma TrySeen(g: Config, a: State, b: State, w: nat, pick: Pick)
    requires Shape(g, a) && Shape(g, b) && SameHeads(g, a, b) && w < g.nTotal
    requires a.ctl[w].pc.Try? && !Scanning(a.ctl[w].pc.ph)
    ensures TryAct(g, b, w, pick) == TryAct(g, a, w, pick) && !TryAct(g, a, w, pick).ClaimShard?
    ensures NotInRing(TryAct(g, a, w, pick).next)
  {
  }

  lemma WakeSeen(g: Config, a: State, b: State, wk: Wake, q: Queue, pick: Pick)
    requires Shape(g, a) && Shape(g, b) && SameHeads(g, a, b)
    requires match q case ShardQueue(s) => s < g.nShards case DequeQueue(w) => w < g.nTotal
    ensures WakeNext(g, b, wk, q, pick) == WakeNext(g, a, wk, q, pick) && Unflags(g, b, wk) == Unflags(g, a, wk)
  {
  }

  /** Outside the ring a worker reads no more of the shards than their heads and tails. */
  lemma ActOfSeen(g: Config, a: State, b: State, w: nat, pick: Pick)
    requires Shape(g, a) && Shape(g, b) && SameHeads(g, a, b) && w < g.nTotal
    requires !(a.ctl[w].pc.Try? && Scanning(a.ctl[w].pc.ph))
    ensures ActOf(g, b, w, pick) == ActOf(g, a, w, pick) && !ActOf(g, a, w, pick).ClaimShard?
    ensures NotInRing(ActOf(g, a, w, pick).next)
  {
    hide TryAct, WakeNext, Unflags, Scanning;
    if a.ctl[w].pc.Try? {
      TrySeen(g, a, b, w, pick);
    } else if a.ctl[w].pc.Waking? {
      WakeSeen(g, a, b, a.ctl[w].pc.wk, DequeQueue(w), pick);
    }
  }

  lemma PerformSeen(g: Config, a: State, b: State, w: nat, act: Act)
    requires Shape(g, a) && Shape(g, b) && b == a.(rings := b.rings) && w < g.nTotal && !act.ClaimShard?
    ensures Perform(g, b, w, act).(rings := a.rings) == Perform(g, a, w, act)
  {
  }

  lemma IdleAnywhere(g: Config, pay: Payload, pc: PC, cursor: nat, pend: seq<Task>, z: nat, log: seq<BatchRing.Task>)
    requires NotInRing(pc)
    ensures WorkerAt(g, pay, pc, cursor, pend, z, log, BatchRing.Idle)
  {
  }

  /** A worker that is inside no ring takes the abstract worker's step. */
  lemma OtherStep(g: Config, pay: Payload, c: Pool, w: nat, pick: Pick)
    requires Agree(g, pay, c) && w < g.nTotal && !Inside(g, c, w)
    ensures Agree(g, pay, WorkStep(g, c, w, pick)) && WorkStep(g, c, w, pick).a == WorkerNext(g, c.a, w, pick)
  {
    hide Inv, BatchRing.Inv, Match, Copying, ActOf, Perform, CtlAfter, DatAfter;
    if c.a.ctl[w].pc.Try? && Scanning(c.a.ctl[w].pc.ph) { ScanIndex(g, c.a, w); }
    forall s | 0 <= s < g.nShards ensures c.a.rings[s].head == Seen(g, c).rings[s].head && |c.a.rings[s].log| == |Seen(g, c).rings[s].log| {
      SeenIsSo(g, pay, c, s);
    }
    var act := ActOf(g, c.a, w, pick);
    ActOfSeen(g, c.a, Seen(g, c), w, pick);
    PerformSeen(g, c.a, Seen(g, c), w, act);
    PerformOnly(g, c.a, w, act);
    NextKeepsInv(g, c.a, Work(w, pick));
    var a := Perform(g, c.a, w, act);
    forall z | 0 <= z < g.nShards
      ensures WorkerAt(g, pay, a.ctl[w].pc, a.ctl[w].cursor, a.dat[w].pend, z, c.rings[z].r.log, c.rings[z].threads[w])
    {
      assert ShardAgrees(g, pay, c.a, z, c.rings[z]);
      IdleAnywhere(g, pay, a.ctl[w].pc, a.ctl[w].cursor, a.dat[w].pend, z, c.rings[z].r.log);
    }
    assert ShardAgrees(g, pay, c.a, 0, c.rings[0]);
    assert c.rings[0 := c.rings[0]] == c.rings;
    AgreeAfterWorker(g, pay, c, a, 0, c.rings[0], w);
  }

  // ---------------------------------------------------------------- the steps of outside threads

  lemma OutsideElsewhere(g: Config, pay: Payload, c: Pool, x: nat, z: nat)
    requires Agree(g, pay, c) && x < |c.a.ext| && z < g.nShards
    ensures OutsideAt(pay, c.a.ext[x], c.a.extHand[x], z, c.rings[z].threads[g.nTotal + x])
  {
    hide Inv, OutsideAt;
    assert ShardAgrees(g, pay, c.a, z, c.rings[z]);
  }

  /** An access of a pushing thread, whose abstract step is `a`, or none. */
  lemma PushAgrees(g: Config, pay: Payload, c: Pool, x: nat, a: State, call: BatchRing.Call)
    requires Agree(g, pay, c) && x < |c.a.ext| && Pushing(g, c, x)
    requires Shape(g, a) && Inv(g, a) && OnlyOutside(g, c.a, a, x)
    requires var s, i := c.a.ext[x].s, g.nTotal + x; var r := c.rings[s]; var l := r.threads[i];
      && (match BatchRing.EffectOf(r.r, l)
          case Reserve(t) => c.a.extHand[x].Some? && t == pay(c.a.extHand[x].value) && a.rings[s] == Reserve(c.a.rings[s], c.a.extHand[x].value)
          case Fill(p, _) => a.rings[s] == if l.PushPublish? then Publish(c.a.rings[s], p) else c.a.rings[s]
          case Quiet => a.rings[s] == c.a.rings[s]
          case _ => false)
      && OutsideAt(pay, a.ext[x], a.extHand[x], s, BatchRing.Goto(r.r, l, call))
      && (forall z {:trigger a.rings[z]} :: 0 <= z < g.nShards && z != s ==> a.rings[z] == c.a.rings[z])
      && (a.ext[x] == c.a.ext[x] || !(a.ext[x].Reserving? || a.ext[x].Publishing?) || a.ext[x].s == s)
    ensures var s, i := c.a.ext[x].s, g.nTotal + x;
      Agree(g, pay, Pool(a, c.rings[s := BatchRing.Next(c.rings[s], i, call)]))
  {
    hide Inv, BatchRing.Inv, Match;
    var s, i := c.a.ext[x].s, g.nTotal + x;
    var r := c.rings[s];
    assert ShardAgrees(g, pay, c.a, s, r);
    RingMoves(pay, c.a.rings[s], a.rings[s], r, i, call);
    forall z | 0 <= z < g.nShards && z != s ensures OutsideAt(pay, a.ext[x], a.extHand[x], z, c.rings[z].threads[i]) {
      OutsideElsewhere(g, pay, c, x, z);
    }
    AgreeAfterOutside(g, pay, c, a, s, BatchRing.Next(r, i, call), x);
  }

  /** The position a push reserves is the next one on both levels. */
  lemma ReservedHere(g: Config, pay: Payload, c: Pool, x: nat, s: nat)
    requires Agree(g, pay, c) && x < |c.a.ext| && s < g.nShards
    ensures c.rings[s].r.tail == |c.a.rings[s].log|
  {
    hide Inv;
    assert ShardAgrees(g, pay, c.a, s, c.rings[s]);
  }

  /** Loading the tail, testing the seqno of a position that is not free or losing the CAS is
      invisible. */
  lemma PushLooks(g: Config, pay: Payload, c: Pool, x: nat)
    requires Agree(g, pay, c) && x < |c.a.ext| && Pushing(g, c, x) && c.a.ext[x].Reserving?
    requires var s, i := c.a.ext[x].s, g.nTotal + x;
      var l' := BatchRing.Goto(c.rings[s].r, c.rings[s].threads[i], BatchRing.Push(pay(c.a.extHand[x].value)));
      !l'.PushFn? && l' != BatchRing.Idle
    ensures var s, i := c.a.ext[x].s, g.nTotal + x;
      Agree(g, pay, Pool(c.a, c.rings[s := BatchRing.Next(c.rings[s], i, BatchRing.Push(pay(c.a.extHand[x].value)))]))
  {
    hide Inv, BatchRing.Inv, BatchRing.Window, Match, ExtNext;
    OutsideElsewhere(g, pay, c, x, c.a.ext[x].s);
    PushAgrees(g, pay, c, x, c.a, BatchRing.Push(pay(c.a.extHand[x].value)));
  }

  lemma ReservedIsDone(g: Config, st: State, x: nat, pick: Pick)
    requires Shape(g, st) && x < |st.ext| && st.ext[x].Reserving? && st.ext[x].s < g.nShards && st.extHand[x].Some?
    ensures var s := st.ext[x].s; var b := ExtNext(g, st, x, pick);
      && (pick.yes ==> b.rings == st.rings[s := Reserve(st.rings[s], st.extHand[x].value)] && b.ext[x] == Publishing(s, |st.rings[s].log|))
      && (!pick.yes ==> b.rings == st.rings && b.ext[x] == Undoing(s))
  {
  }

  /** Winning the CAS is the reservation. */
  lemma PushWins(g: Config, pay: Payload, c: Pool, x: nat, pick: Pick)
    requires Agree(g, pay, c) && x < |c.a.ext| && Pushing(g, c, x) && c.a.ext[x].Reserving? && pick.yes
    requires var s, i := c.a.ext[x].s, g.nTotal + x;
      BatchRing.Goto(c.rings[s].r, c.rings[s].threads[i], BatchRing.Push(pay(c.a.extHand[x].value))).PushFn?
    ensures var s, i := c.a.ext[x].s, g.nTotal + x;
      Agree(g, pay, Pool(ExtNext(g, c.a, x, pick), c.rings[s := BatchRing.Next(c.rings[s], i, BatchRing.Push(pay(c.a.extHand[x].value)))]))
  {
    hide Inv, BatchRing.Inv, BatchRing.Window, Match, ExtNext;
    OutsideElsewhere(g, pay, c, x, c.a.ext[x].s);
    ReservedHere(g, pay, c, x, c.a.ext[x].s);
    ReservedIsDone(g, c.a, x, pick);
    ExtOnly(g, c.a, x, pick);
    NextKeepsInv(g, c.a, Outside(x, pick));
    PushAgrees(g, pay, c, x, ExtNext(g, c.a, x, pick), BatchRing.Push(pay(c.a.extHand[x].value)));
  }

  /** A full ring is the abstract answer "full". */
  lemma PushGivesUp(g: Config, pay: Payload, c: Pool, x: nat, pick: Pick)
    requires Agree(g, pay, c) && x < |c.a.ext| && Pushing(g, c, x) && c.a.ext[x].Reserving? && !pick.yes
    requires var s, i := c.a.ext[x].s, g.nTotal + x;
      BatchRing.Goto(c.rings[s].r, c.rings[s].threads[i], BatchRing.Push(pay(c.a.extHand[x].value))) == BatchRing.Idle
    ensures var s, i := c.a.ext[x].s, g.nTotal + x;
      Agree(g, pay, Pool(ExtNext(g, c.a, x, pick), c.rings[s := BatchRing.Next(c.rings[s], i, BatchRing.Push(pay(c.a.extHand[x].value)))]))
  {
    hide Inv, BatchRing.Inv, BatchRing.Window, Match, ExtNext;
    OutsideElsewhere(g, pay, c, x, c.a.ext[x].s);
    ReservedIsDone(g, c.a, x, pick);
    ExtOnly(g, c.a, x, pick);
    NextKeepsInv(g, c.a, Outside(x, pick));
    PushAgrees(g, pay, c, x, ExtNext(g, c.a, x, pick), BatchRing.Push(pay(c.a.extHand[x].value)));
  }

  /** Inside pool_ring_push up to its CAS: invisible, or a reservation, or the answer "full". */
  lemma ReserveStep(g: Config, pay: Payload, c: Pool, x: nat, pick: Pick)
    requires Agree(g, pay, c) && x < |c.a.ext| && Pushing(g, c, x) && c.a.ext[x].Reserving?
    ensures Agree(g, pay, OutStep(g, pay, c, x, pick))
    ensures var a := OutStep(g, pay, c, x, pick).a;
      a == c.a || exists p: Pick {:trigger ExtNext(g, c.a, x, p)} :: a == ExtNext(g, c.a, x, p)
  {
    hide ShardAgrees, Inv, ExtNext, BatchRing.Goto, BatchRing.Apply, BatchRing.EffectOf;
    var s, i := c.a.ext[x].s, g.nTotal + x;
    var l' := BatchRing.Goto(c.rings[s].r, c.rings[s].threads[i], BatchRing.Push(pay(c.a.extHand[x].value)));
    if l'.PushFn? {
      PushWins(g, pay, c, x, Pick(true, pick.n));
    } else if l' == BatchRing.Idle {
      PushGivesUp(g, pay, c, x, Pick(false, pick.n));
    } else {
      PushLooks(g, pay, c, x);
    }
  }

  lemma PublishedIsDone(g: Config, st: State, x: nat, pick: Pick)
    requires Shape(g, st) && x < |st.ext| && st.ext[x].Publishing? && st.ext[x].s < g.nShards
    ensures var s := st.ext[x].s; var b := ExtNext(g, st, x, pick);
      b.rings == st.rings[s := Publish(st.rings[s], st.ext[x].p)] && b.ext[x].Alerting?
  {
  }

  /** After the CAS: writing the task is invisible, storing the seqno publishes. */
  lemma PublishStep(g: Config, pay: Payload, c: Pool, x: nat, pick: Pick)
    requires Agree(g, pay, c) && x < |c.a.ext| && Pushing(g, c, x) && c.a.ext[x].Publishing?
    ensures Agree(g, pay, OutStep(g, pay, c, x, pick))
    ensures var a := OutStep(g, pay, c, x, pick).a;
      a == c.a || exists p: Pick {:trigger ExtNext(g, c.a, x, p)} :: a == ExtNext(g, c.a, x, p)
  {
    hide Inv, BatchRing.Inv, BatchRing.Window, Match, ExtNext;
    var s, i := c.a.ext[x].s, g.nTotal + x;
    var call := if c.a.extHand[x].Some? then BatchRing.Push(pay(c.a.extHand[x].value)) else BatchRing.Pop(0);
    OutsideElsewhere(g, pay, c, x, s);
    var no := Pick(false, pick.n);
    PublishedIsDone(g, c.a, x, no);
    ExtOnly(g, c.a, x, no);
    NextKeepsInv(g, c.a, Outside(x, no));
    PushAgrees(g, pay, c, x, if c.rings[s].threads[i].PushPublish? then ExtNext(g, c.a, x, no) else c.a, call);
  }

  lemma ExtSeen(g: Config, a: State, b: State, x: nat, pick: Pick)
    requires Shape(g, a) && Shape(g, b) && SameHeads(g, a, b) && x < |a.ext|
    requires !((a.ext[x].Reserving? && a.ext[x].s < g.nShards && a.extHand[x].Some?) || (a.ext[x].Publishing? && a.ext[x].s < g.nShards))
    ensures ExtNext(g, b, x, pick).(rings := a.rings) == ExtNext(g, a, x, pick) && ExtNext(g, a, x, pick).rings == a.rings
    ensures !(ExtNext(g, a, x, pick).ext[x].Publishing?) || ExtNext(g, a, x, pick) == a
  {
    hide WakeNext, Unflags;
    if a.ext[x].Alerting? && a.ext[x].s < g.nShards { WakeSeen(g, a, b, a.ext[x].wk, ShardQueue(a.ext[x].s), pick); }
  }

  /** An outside thread that is inside no ring takes the abstract step. */
  lemma AwayStep(g: Config, pay: Payload, c: Pool, x: nat, pick: Pick)
    requires Agree(g, pay, c) && x < |c.a.ext| && !Pushing(g, c, x)
    ensures Agree(g, pay, OutStep(g, pay, c, x, pick)) && OutStep(g, pay, c, x, pick).a == ExtNext(g, c.a, x, pick)
  {
    hide Inv, BatchRing.Inv, Match, ExtNext;
    forall s | 0 <= s < g.nShards ensures c.a.rings[s].head == Seen(g, c).rings[s].head && |c.a.rings[s].log| == |Seen(g, c).rings[s].log| {
      SeenIsSo(g, pay, c, s);
    }
    ExtSeen(g, c.a, Seen(g, c), x, pick);
    ExtOnly(g, c.a, x, pick);
    NextKeepsInv(g, c.a, Outside(x, pick));
    var a := ExtNext(g, c.a, x, pick);
    forall z | 0 <= z < g.nShards ensures OutsideAt(pay, a.ext[x], a.extHand[x], z, c.rings[z].threads[g.nTotal + x]) {
      OutsideElsewhere(g, pay, c, x, z);
    }
    assert ShardAgrees(g, pay, c.a, 0, c.rings[0]);
    assert c.rings[0 := c.rings[0]] == c.rings;
    AgreeAfterOutside(g, pay, c, a, 0, c.rings[0], x);
  }

  // ---------------------------------------------------------------- every step

  /** The abstract pool stays where it is, or takes one step. */
  ghost predicate StaysOrSteps(g: Config, a: State, b: State)
    requires Shape(g, a)
  {
    b == a || exists mv: Move {:trigger MoveOk(g, a, mv)} :: MoveOk(g, a, mv) && b == Next(g, a, mv)
  }

  /** Every access of every thread to the words of the rings and of the pool is a step of the abstract
      pool or invisible to it. */
  lemma StepRefinesPool(g: Config, pay: Payload, c: Pool, mv: Move)
    requires Agree(g, pay, c) && MoveOk(g, c.a, mv)
    ensures Agree(g, pay, Step(g, pay, c, mv)) && StaysOrSteps(g, c.a, Step(g, pay, c, mv).a)
  {
    hide Agree, WorkStep, OutStep, WorkerNext, ExtNext;
    match mv {
      case Work(w, pick) => WorkRefines(g, pay, c, w, pick);
      case Outside(x, pick) => OutRefines(g, pay, c, x, pick);
    }
  }

  lemma WorkRefines(g: Config, pay: Payload, c: Pool, w: nat, pick: Pick)
    requires Agree(g, pay, c) && w < g.nTotal
    ensures Agree(g, pay, WorkStep(g, c, w, pick)) && StaysOrSteps(g, c.a, WorkStep(g, c, w, pick).a)
  {
    hide WorkStep, WorkerNext;
    if !Inside(g, c, w) {
      OtherStep(g, pay, c, w, pick);
      assert MoveOk(g, c.a, Work(w, pick));
    } else if c.a.ctl[w].pc.ph.Buffer? {
      CopyStep(g, pay, c, w, pick);
    } else {
      var r := c.rings[ShardOf(g, c.a.ctl[w])];
      if r.threads[w] == BatchRing.Idle {
        EnterStep(g, pay, c, w, pick);
      } else {
        assert MoveOk(g, c.a, Work(w, Told(r, w)));
        if r.threads[w].PopCas? && r.r.head == r.threads[w].pos {
          ClaimStep(g, pay, c, w, pick);
        } else {
          LookStep(g, pay, c, w, pick);
        }
      }
    }
  }

  lemma OutRefines(g: Config, pay: Payload, c: Pool, x: nat, pick: Pick)
    requires Agree(g, pay, c) && x < |c.a.ext|
    ensures Agree(g, pay, OutStep(g, pay, c, x, pick)) && StaysOrSteps(g, c.a, OutStep(g, pay, c, x, pick).a)
  {
    hide OutStep, ExtNext;
    if !Pushing(g, c, x) {
      AwayStep(g, pay, c, x, pick);
      assert MoveOk(g, c.a, Outside(x, pick));
    } else {
      if c.a.ext[x].Reserving? { ReserveStep(g, pay, c, x, pick); } else { PublishStep(g, pay, c, x, pick); }
      var a := OutStep(g, pay, c, x, pick).a;
      if a != c.a {
        var p: Pick :| a == ExtNext(g, c.a, x, p);
        assert MoveOk(g, c.a, Outside(x, p));
      }
    }
  }

  /** Fresh from pool_create. */
  ghost predicate Starts(g: Config, c: Pool) {
    && Shapes(g, c) && Init(g, c.a)
    && forall s {:trigger c.rings[s]} :: 0 <= s < g.nShards ==> BatchRing.Init(c.rings[s])
  }

  lemma StartsAgreed(g: Config, pay: Payload, c: Pool)
    requires Starts(g, c)
    ensures Agree(g, pay, c)
  {
    RunKeepsInv(g, [c.a], [], 0);
    forall s | 0 <= s < g.nShards ensures ShardAgrees(g, pay, c.a, s, c.rings[s]) {
      FreshShardAgrees(g, pay, c.a, s, c.rings[s]);
    }
  }

  lemma FreshShardAgrees(g: Config, pay: Payload, st: State, s: nat, r: BatchRing.State)
    requires Shape(g, st) && Init(g, st) && s < g.nShards && RingShape(g, st, r) && BatchRing.Init(r)
    ensures ShardAgrees(g, pay, st, s, r)
  {
    hide BatchRing.Inv;
    BatchRing.InitInv(r);
    assert st.rings[s] == Shard(0, [], {});
    assert BatchRing.Abs(r.r).pub == {};
    forall w | 0 <= w < g.nTotal
      ensures WorkerAt(g, pay, st.ctl[w].pc, st.ctl[w].cursor, st.dat[w].pend, s, r.r.log, r.threads[w])
    {
      IdleAnywhere(g, pay, st.ctl[w].pc, st.ctl[w].cursor, st.dat[w].pend, s, r.r.log);
    }
  }

  ghost predicate EndsIn(g: Config, tr: seq<State>, mvs: seq<Move>, st: State) {
    IsRun(g, tr, mvs) && tr[|tr| - 1] == st
  }

  lemma ExtendRun(g: Config, tr: seq<State>, mvs: seq<Move>, st: State, mv: Move)
    requires EndsIn(g, tr, mvs, st) && Shape(g, st) && MoveOk(g, st, mv)
    ensures EndsIn(g, tr + [Next(g, st, mv)], mvs + [mv], Next(g, st, mv))
  {
    hide Init, Next, Shape, MoveOk;
    var tr', mvs' := tr + [Next(g, st, mv)], mvs + [mv];
    forall j | 0 <= j < |mvs'| ensures Follows(g, tr', mvs', j) {
      if j < |mvs| { assert Follows(g, tr, mvs, j); }
    }
  }

  lemma FirstOfRun(g: Config, st: State)
    requires Init(g, st)
    ensures IsRun(g, [st], [])
  {
  }

  // ---------------------------------------------------------------- what the words say

  /** The ring is empty, nobody is inside it, and its next cell shows no task. */
  predicate Deserted(r: BatchRing.State) {
    && BatchRing.Shape(r.r) && r.r.head == r.r.tail
    && BatchRing.At(r.r, r.r.head).seqno != r.r.head + 1
    && forall i {:trigger r.threads[i]} :: 0 <= i < |r.threads| ==> r.threads[i] == BatchRing.Idle
  }

  lemma AsleepMeansDeserted(g: Config, pay: Payload, c: Pool, s: nat)
    requires Agree(g, pay, c) && AllAsleep(g, c.a) && QuietOutside(c.a) && s < g.nShards
    ensures Deserted(c.rings[s])
  {
    hide Inv, BatchRing.ThreadOk, BatchRing.Exclusive, BatchRing.Once;
    assert ShardAgrees(g, pay, c.a, s, c.rings[s]);
    AsleepMeansDrained(g, c.a);
    BatchRing.BeyondTheTail(c.rings[s].r, c.rings[s].r.head);
    forall i | 0 <= i < |c.rings[s].threads| ensures c.rings[s].threads[i] == BatchRing.Idle {
      if i < g.nTotal {
        assert c.a.ctl[i].pc == Sleep;
      } else {
        assert c.a.ext[i - g.nTotal] == Away;
        assert OutsideAt(pay, c.a.ext[i - g.nTotal], c.a.extHand[i - g.nTotal], s, c.rings[s].threads[g.nTotal + (i - g.nTotal)]);
      }
    }
  }

  /** A complete copy of claimed positions is what the tasks in the batch buffer carry. */
  lemma BatchIsCopied(g: Config, pay: Payload, c: Pool, w: nat, s: nat)
    requires Agree(g, pay, c) && s < g.nShards && w < g.nTotal
    ensures var l := c.rings[s].threads[w]; l.PopRecycle? && |l.out| == l.n ==> l.out == Pays(pay, c.a.dat[w].pend)
  {
    hide Inv, BatchRing.Window, BatchRing.Exclusive, BatchRing.Once;
    assert ShardAgrees(g, pay, c.a, s, c.rings[s]);
    assert BatchRing.ThreadOk(c.rings[s].r, c.rings[s].threads[w]);
  }

  /** A submitter inside pool_ring_push stays there, wins a position, or rolls its counter back, and
      the last only at an instant when its ring is full. */
  lemma RollsBackOnlyWhenFull(g: Config, pay: Payload, c: Pool, x: nat, pick: Pick)
    requires Agree(g, pay, c) && x < |c.a.ext| && c.a.ext[x].Reserving? && c.a.ext[x].s < g.nShards
    ensures var n, s := OutStep(g, pay, c, x, pick), c.a.ext[x].s;
      && |n.a.ext| == |c.a.ext| && |n.rings| == |c.rings|
      && (n.a.ext[x] != c.a.ext[x] ==>
            if n.a.ext[x].Publishing? then
              n.a.ext[x] == Publishing(s, c.rings[s].r.tail) && n.rings[s].r.tail == c.rings[s].r.tail + 1
            else n.a.ext[x] == Undoing(s) && n.rings[s].r == c.rings[s].r && BatchRing.FullNow(c.rings[s].r))
  {
    var s, i := c.a.ext[x].s, g.nTotal + x;
    assert ShardAgrees(g, pay, c.a, s, c.rings[s]);
    assert OutsideAt(pay, c.a.ext[x], c.a.extHand[x], s, c.rings[s].threads[i]);
    SubmitterHasTask(g, c.a, x);
    var r, l, call := c.rings[s], c.rings[s].threads[i], BatchRing.Push(pay(c.a.extHand[x].value));
    hide Inv, Agree, ShardAgrees, Match, BatchRing.Inv, BatchRing.FullNow, ExtNext;
    ReservedHere(g, pay, c, x, s);
    ReservedIsDone(g, c.a, x, Pick(true, pick.n));
    ReservedIsDone(g, c.a, x, Pick(false, pick.n));
    ExtOnly(g, c.a, x, Pick(true, pick.n));
    ExtOnly(g, c.a, x, Pick(false, pick.n));
    if BatchRing.InPush(l) { BatchRing.PushFailsOnlyWhenFull(r, i, call); }
  }

  lemma SubmitterHasTask(g: Config, st: State, x: nat)
    requires Inv(g, st) && x < |st.ext| && st.ext[x].Reserving?
    ensures st.extHand[x].Some?
  {
    assert ExtOk(g, st.rings, st.ext[x], st.extHand[x]);
  }
}
