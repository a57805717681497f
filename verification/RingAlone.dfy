/** What pool_ring_push and pool_ring_pop_batch do when no other thread steps meanwhile: the push
    publishes unless the ring is full, and the pop takes everything published up to its limit. */
module RingAlone {
  import opened Slots
  import opened BatchRing

  /** Thread `i` takes steps alone until the next one would end its call, `n` at most. */
  function Alone(c: State, i: nat, n: nat): (d: State)
    requires Shape(c.r) && i < |c.threads|
    ensures Shape(d.r) && |d.threads| == |c.threads|
    decreases n
  {
    if n == 0 || Goto(c.r, c.threads[i], Pop(0)) == Idle then c else Alone(Next(c, i, Pop(0)), i, n - 1)
  }

  /** A whole call alone, `n` accesses and its last one. */
  function CallAlone(c: State, i: nat, call: Call, n: nat): State
    requires Shape(c.r) && i < |c.threads|
  {
    var d := Alone(Next(c, i, call), i, n);
    Next(d, i, Pop(0))
  }

  lemma OneMore(c: State, i: nat, n: nat)
    requires Shape(c.r) && i < |c.threads| && n > 0 && Goto(c.r, c.threads[i], Pop(0)) != Idle
    ensures Alone(c, i, n) == Alone(Next(c, i, Pop(0)), i, n - 1)
  {
  }

  /** The same state with thread `i` elsewhere. */
  function At1(c: State, r: Ring, i: nat, l: Local): State
    requires i < |c.threads|
  {
    State(r, c.threads[i := l], c.delivered)
  }

  lemma Twice(ts: seq<Local>, i: nat, a: Local, b: Local)
    requires i < |ts|
    ensures ts[i := a][i := b] == ts[i := b]
  {
  }

  lemma StepTo(c: State, r: Ring, i: nat, l: Local, n: nat)
    requires Shape(r) && i < |c.threads| && n > 0 && !l.PopArg? && Goto(r, l, Pop(0)) != Idle
    ensures var r', l' := Apply(r, EffectOf(r, l)), Goto(r, l, Pop(0));
      Shape(r') && Alone(At1(c, r, i, l), i, n) == Alone(At1(c, r', i, l'), i, n - 1)
  {
    OneMore(At1(c, r, i, l), i, n);
    Twice(c.threads, i, l, Goto(r, l, Pop(0)));
  }

  lemma FreeOrFull(r: Ring)
    requires Shape(r) && Window(r)
    ensures At(r, r.tail).seqno == r.tail || At(r, r.tail).seqno < r.tail
  {
    FreeCellsOfFirstLap(r);
    NextLap(r.cap, r.head);
  }

  lemma FillAlone(c: State, r: Ring, i: nat, t: Task, p: nat, n: nat)
    requires Shape(r) && i < |c.threads| && n >= 2
    ensures Alone(At1(c, r, i, PushFn(t, p)), i, n) ==
            At1(c, r.(cells := r.cells[Slot(r.cap, p) := Cell(At(r, p).seqno, t.fn, t.arg)]), i, PushPublish(t, p))
  {
    StepTo(c, r, i, PushFn(t, p), n);
    var r1 := Put(r, p, At(r, p).(fn := t.fn));
    StepTo(c, r1, i, PushArg(t, p), n - 1);
    var r2 := Put(r1, p, At(r1, p).(arg := t.arg));
    assert r2.cells == r.cells[Slot(r.cap, p) := Cell(At(r, p).seqno, t.fn, t.arg)];
  }

  /** A push alone: on a free tail it publishes its task there and returns; on a full ring it returns
      and changes nothing. */
  lemma PushAlone(c: State, i: nat, t: Task, n: nat)
    requires Inv(c) && i < |c.threads| && c.threads[i] == Idle && n >= 5
    ensures Shape(CallAlone(c, i, Push(t), n).r)
    ensures var d := CallAlone(c, i, Push(t), n); var p := c.r.tail;
      && d.threads == c.threads && d.delivered == c.delivered
      && (At(c.r, p).seqno == p ==>
            && d.r.head == c.r.head && d.r.tail == p + 1 && d.r.log == c.r.log + [t]
            && At(d.r, p).seqno == p + 1 && Carries(At(d.r, p), t))
      && (At(c.r, p).seqno != p ==> d.r == c.r && FullNow(c.r))
  {
    hide Inv, Slots.Slot, Alone, Window, Exclusive, Once;
    var r, p := c.r, c.r.tail;
    assert Shape(r) && Window(r) by { InvParts(c); }
    assert c.threads[i := Idle] == c.threads;
    assert Next(c, i, Push(t)) == At1(c, r, i, PushLoad(t));
    StepTo(c, r, i, PushLoad(t), n);
    FreeOrFull(r);
    if At(r, p).seqno == p {
      StepTo(c, r, i, PushSeq(t, p), n - 1);
      StepTo(c, r, i, PushCas(t, p), n - 2);
      var r1 := r.(tail := p + 1, log := r.log + [t]);
      FillAlone(c, r1, i, t, p, n - 3);
      Twice(c.threads, i, PushPublish(t, p), Idle);
    } else {
      AtOnce(At1(c, r, i, PushSeq(t, p)), i, n - 1);
      Twice(c.threads, i, PushSeq(t, p), Idle);
      FullIsFull(c);
    }
  }

  lemma InvParts(c: State)
    requires Inv(c)
    ensures Shape(c.r) && Window(c.r)
  {
  }

  lemma AtOnce(c: State, i: nat, n: nat)
    requires Shape(c.r) && i < |c.threads| && Goto(c.r, c.threads[i], Pop(0)) == Idle
    ensures Alone(c, i, n) == c
  {
  }

  lemma FullIsFull(c: State)
    requires Inv(c) && At(c.r, c.r.tail).seqno != c.r.tail
    ensures FullNow(c.r)
  {
    FreeCellsOfFirstLap(c.r);
    NextLap(c.r.cap, c.r.head);
  }

  // ---------------------------------------------------------------- a batch pop

  /** From the head on, `k` positions are published, and no more than `max` of them are wanted. */
  ghost predicate Ready(r: Ring, k: nat, max: nat)
    requires Shape(r)
  {
    && k <= max
    && (forall p: nat {:trigger Slot(r.cap, p)} :: r.head <= p < r.head + k ==> r.cells[Slot(r.cap, p)].seqno == p + 1)
    && (k == max || At(r, r.head + k).seqno != r.head + k + 1)
  }

  lemma {:induction false} ScanAlone(c: State, r: Ring, i: nat, max: nat, j: nat, k: nat, n: nat)
    requires Shape(r) && i < |c.threads| && Ready(r, k, max) && j <= k && j < max && 0 < k && n > k - j
    ensures Alone(At1(c, r, i, PopSeq(max, r.head, j)), i, n) ==
            Alone(At1(c, r, i, PopCas(max, r.head, k)), i, n - (if k == max then k - j else k - j + 1))
    decreases k - j
  {
    hide Alone;
    assert j < k ==> At(r, r.head + j).seqno == r.head + j + 1;
    StepTo(c, r, i, PopSeq(max, r.head, j), n);
    if j + 1 < k || (j + 1 == k && k < max) { ScanAlone(c, r, i, max, j + 1, k, n - 1); }
  }

  /** Positions `lo` to `hi` - 1 have been copied once more. */
  ghost predicate CopiedOnce(before: multiset<nat>, after: multiset<nat>, lo: nat, hi: nat) {
    forall p: nat {:trigger after[p]} {:trigger before[p]} :: after[p] == before[p] + if lo <= p < hi then 1 else 0
  }

  /** The cells of positions `lo` to `hi` - 1 are free for the next lap. */
  ghost predicate Recycled(r: Ring, lo: nat, hi: nat)
    requires Shape(r)
  {
    forall p: nat {:trigger Slot(r.cap, p)} :: lo <= p < hi ==> r.cells[Slot(r.cap, p)].seqno == p + r.cap
  }

  /** From the copy of one position to that of the next. */
  lemma CopyOneAlone(c: State, i: nat, n: nat)
    requires Inv(c) && i < |c.threads| && c.threads[i].PopFn? && n >= 2
    requires var l := c.threads[i]; |l.out| < l.n <= c.r.cap && Recycled(c.r, l.pos, l.pos + |l.out|)
    ensures var l := c.threads[i]; var p := l.pos + |l.out|;
      var d := State(c.r, c.threads[i := PopRecycle(l.pos, l.n, l.out + [Task(At(c.r, p).fn, At(c.r, p).arg)])], c.delivered + multiset{p});
      && Inv(d) && Alone(c, i, n) == Alone(d, i, n - 2)
  {
    hide Inv, Alone, Recycled;
    var l := c.threads[i];
    var p := l.pos + |l.out|;
    assert Shape(c.r) by { InvParts(c); }
    OneMore(c, i, n);
    NextKeepsInv(c, i, Pop(0));
    var c1 := Next(c, i, Pop(0));
    assert c1 == State(c.r, c.threads[i := PopArg(l.pos, l.n, l.out, At(c.r, p).fn)], c.delivered);
    OneMore(c1, i, n - 1);
    NextKeepsInv(c1, i, Pop(0));
    Twice(c.threads, i, c1.threads[i], PopRecycle(l.pos, l.n, l.out + [Task(At(c.r, p).fn, At(c.r, p).arg)]));
  }

  /** Giving the cell of the last copied position back. */
  lemma RecycleAlone(c: State, i: nat)
    requires Inv(c) && i < |c.threads| && c.threads[i].PopRecycle? && c.threads[i].out != []
    requires var l := c.threads[i]; l.n <= c.r.cap && |l.out| <= l.n && Recycled(c.r, l.pos, l.pos + |l.out| - 1)
    ensures var l, e := c.threads[i], Next(c, i, Pop(0));
      && Inv(e) && Recycled(e.r, l.pos, l.pos + |l.out|)
      && e.r.head == c.r.head && e.r.tail == c.r.tail && e.r.log == c.r.log && e.r.cap == c.r.cap && e.delivered == c.delivered
      && e.threads == c.threads[i := if |l.out| < l.n then PopFn(l.pos, l.n, l.out) else Idle]
  {
    hide Window, Exclusive, Once, ThreadOk;
    NextKeepsInv(c, i, Pop(0));
    var l := c.threads[i];
    OneLap(c.r.cap, l.pos + |l.out| - 1);
  }

  lemma {:induction false} CopyAlone(c: State, i: nat, n: nat)
    requires Inv(c) && i < |c.threads| && c.threads[i].PopFn?
    requires var l := c.threads[i]; |l.out| < l.n <= c.r.cap && Recycled(c.r, l.pos, l.pos + |l.out|) && n >= 3 * (l.n - |l.out|)
    ensures var l, d := c.threads[i], Alone(c, i, n);
      && Inv(d) && d.threads[i].PopRecycle? && |d.threads[i].out| == l.n == d.threads[i].n && d.threads[i].pos == l.pos
      && d.r.head == c.r.head && d.r.tail == c.r.tail && d.r.log == c.r.log && d.r.cap == c.r.cap
      && Recycled(d.r, l.pos, l.pos + l.n - 1) && CopiedOnce(c.delivered, d.delivered, l.pos + |l.out|, l.pos + l.n)
      && d.threads == c.threads[i := d.threads[i]]
    decreases c.threads[i].n - |c.threads[i].out|
  {
    hide Inv, Alone, Recycled;
    assert Shape(c.r) by { InvParts(c); }
    var l := c.threads[i];
    var p := l.pos + |l.out|;
    CopyOneAlone(c, i, n);
    var out := l.out + [Task(At(c.r, p).fn, At(c.r, p).arg)];
    var d := State(c.r, c.threads[i := PopRecycle(l.pos, l.n, out)], c.delivered + multiset{p});
    assert |out| == |l.out| + 1;
    if |out| == l.n {
      AtOnce(d, i, n - 2);
    } else {
      OneMore(d, i, n - 2);
      RecycleAlone(d, i);
      Twice(c.threads, i, PopRecycle(l.pos, l.n, out), PopFn(l.pos, l.n, out));
      CopyAlone(Next(d, i, Pop(0)), i, n - 3);
      Twice(c.threads, i, PopFn(l.pos, l.n, out), Alone(c, i, n).threads[i]);
    }
  }

  lemma AboutToClaim(c: State, i: nat, max: nat, k: nat)
    requires Inv(c) && i < |c.threads| && c.threads[i] == Idle && Ready(c.r, k, max) && 0 < k
    ensures k <= c.r.cap && c.r.head + k <= c.r.tail
    ensures Inv(At1(c, c.r, i, PopCas(max, c.r.head, k)))
  {
    BeyondTheTail(c.r, c.r.tail);
  }

  /** A batch pop alone: it takes everything published from the head on, up to its limit, copies each
      task once, frees the cells for the next lap and returns the tasks in order. */
  lemma PopAlone(c: State, i: nat, max: nat, k: nat, n: nat)
    requires Inv(c) && i < |c.threads| && c.threads[i] == Idle && 0 < max && Ready(c.r, k, max) && n >= 4 * k + 4
    ensures Shape(CallAlone(c, i, Pop(max), n).r)
    ensures var b, d := Alone(Next(c, i, Pop(max)), i, n), CallAlone(c, i, Pop(max), n);
      && d.threads == c.threads && d.r.tail == c.r.tail && d.r.log == c.r.log
      && d.r.head == c.r.head + k && d.r.cap == c.r.cap && Recycled(d.r, c.r.head, c.r.head + k)
      && CopiedOnce(c.delivered, d.delivered, c.r.head, c.r.head + k)
      && (k == 0 ==> d.r == c.r)
      && (k > 0 ==> c.r.head + k <= |c.r.log| && b.threads[i] == PopRecycle(c.r.head, k, c.r.log[c.r.head..c.r.head + k]))
  {
    hide Inv, Slots.Slot, Alone, Window, Exclusive, Once, Ready, Recycled;
    var r, h := c.r, c.r.head;
    assert Shape(r) && Window(r) by { InvParts(c); }
    assert c.threads[i := Idle] == c.threads;
    assert Next(c, i, Pop(max)) == At1(c, r, i, PopLoad(max));
    StepTo(c, r, i, PopLoad(max), n);
    if k == 0 {
      NothingReady(r, max);
      AtOnce(At1(c, r, i, PopSeq(max, h, 0)), i, n - 1);
      Twice(c.threads, i, PopSeq(max, h, 0), Idle);
    } else {
      ScanAlone(c, r, i, max, 0, k, n - 1);
      AboutToClaim(c, i, max, k);
      ClaimAlone(c, i, max, k, n - 1 - (if k == max then k else k + 1));
    }
  }

  lemma ClaimAlone(c: State, i: nat, max: nat, k: nat, n: nat)
    requires i < |c.threads| && c.threads[i] == Idle && 0 < k <= c.r.cap && n >= 3 * k + 1
    requires Inv(At1(c, c.r, i, PopCas(max, c.r.head, k)))
    ensures Shape(c.r) && Shape(Alone(At1(c, c.r, i, PopCas(max, c.r.head, k)), i, n).r)
    ensures var b := Alone(At1(c, c.r, i, PopCas(max, c.r.head, k)), i, n); var d := Next(b, i, Pop(0));
      && d.threads == c.threads && d.r.tail == c.r.tail && d.r.log == c.r.log && d.r.head == c.r.head + k && d.r.cap == c.r.cap
      && Shape(d.r) && Recycled(d.r, c.r.head, c.r.head + k) && CopiedOnce(c.delivered, d.delivered, c.r.head, c.r.head + k)
      && c.r.head + k <= |c.r.log| && b.threads[i] == PopRecycle(c.r.head, k, c.r.log[c.r.head..c.r.head + k])
  {
    hide Inv, Slots.Slot, Alone, Recycled;
    var h := c.r.head;
    var a := At1(c, c.r, i, PopCas(max, h, k));
    InvParts(a);
    StepTo(c, c.r, i, PopCas(max, h, k), n);
    NextKeepsInv(a, i, Pop(0));
    Twice(c.threads, i, PopCas(max, h, k), PopFn(h, k, []));
    FinishPop(c, At1(c, c.r.(head := h + k), i, PopFn(h, k, [])), i, h, k, n - 1);
  }

  lemma NothingReady(r: Ring, max: nat)
    requires Shape(r) && Ready(r, 0, max) && 0 < max
    ensures At(r, r.head).seqno != r.head + 1
    ensures Recycled(r, r.head, r.head)
  {
  }

  lemma FinishPop(c: State, e: State, i: nat, h: nat, k: nat, n: nat)
    requires Inv(e) && i < |e.threads| && e.threads[i] == PopFn(h, k, []) && 0 < k <= e.r.cap && n >= 3 * k
    requires i < |c.threads| && c.threads[i] == Idle && e.threads == c.threads[i := PopFn(h, k, [])] && e.delivered == c.delivered
    ensures Shape(e.r) && Shape(Alone(e, i, n).r)
    ensures var b := Alone(e, i, n); var d := Next(b, i, Pop(0));
      && d.threads == c.threads && d.r.tail == e.r.tail && d.r.log == e.r.log && d.r.head == e.r.head && d.r.cap == e.r.cap
      && Shape(d.r) && Recycled(d.r, h, h + k) && CopiedOnce(c.delivered, d.delivered, h, h + k)
      && h + k <= |e.r.log| && b.threads[i] == PopRecycle(h, k, e.r.log[h..h + k])
  {
    hide Alone, Window, Exclusive, Once;
    CopyAlone(e, i, n);
    var b := Alone(e, i, n);
    assert ThreadOk(b.r, b.threads[i]);
    RecycleAlone(b, i);
    Twice(c.threads, i, PopFn(h, k, []), b.threads[i]);
    Twice(c.threads, i, b.threads[i], Idle);
    assert c.threads[i := Idle] == c.threads;
  }
}
