/** What push_mp, pop_mc and peek do when no other thread steps meanwhile: the push publishes unless
    the ring is full, the pop takes the item at the head and the peek shows it, whenever there is one. */
module PeekAlone {
  import opened Slots
  import opened PeekRing

  /** Thread `i` takes steps alone until the next one would end its call, `n` at most. */
  function Alone(c: State, i: nat, n: nat): (d: State)
    requires Shape(c.r) && i < |c.threads|
    ensures Shape(d.r) && |d.threads| == |c.threads|
    decreases n
  {
    if n == 0 || Ends(c.r, c.threads[i]) then c else Alone(Next(c, i, Pop), i, n - 1)
  }

  /** The next access of a thread inside a call is its last. */
  predicate Ends(r: Ring, l: Local)
    requires Shape(r)
  {
    Goto(r, l, Pop) == Idle
  }

  /** A whole call alone: `n` accesses at most and the last one. */
  function CallAlone(c: State, i: nat, call: Call, n: nat): State
    requires Shape(c.r) && i < |c.threads|
  {
    Next(Alone(Next(c, i, call), i, n), i, Pop)
  }

  /** Thread `i` elsewhere, on ring `r`. */
  function At(c: State, r: Ring, i: nat, l: Local): State
    requires i < |c.threads|
  {
    State(r, c.threads[i := l])
  }

  lemma StepTo(c: State, r: Ring, i: nat, l: Local, n: nat)
    requires Shape(r) && i < |c.threads| && n > 0 && !Ends(r, l)
    ensures var r', l' := Apply(r, EffectOf(r, l)), Goto(r, l, Pop);
      Shape(r') && Alone(At(c, r, i, l), i, n) == Alone(At(c, r', i, l'), i, n - 1)
  {
    assert c.threads[i := l][i := Goto(r, l, Pop)] == c.threads[i := Goto(r, l, Pop)];
  }

  lemma Last(c: State, r: Ring, i: nat, l: Local, n: nat)
    requires Shape(r) && i < |c.threads| && Ends(r, l) && c.threads[i] == Idle
    ensures Alone(At(c, r, i, l), i, n) == At(c, r, i, l)
    ensures Next(At(c, r, i, l), i, Pop) == State(Apply(r, EffectOf(r, l)), c.threads)
  {
    assert c.threads[i := l][i := Idle] == c.threads;
  }

  lemma Begin(c: State, i: nat, call: Call)
    requires Shape(c.r) && i < |c.threads| && c.threads[i] == Idle
    ensures Next(c, i, call) == At(c, c.r, i, Goto(c.r, Idle, call))
  {
  }

  // ---------------------------------------------------------------- copying an item

  lemma {:induction false} PeekCopies(c: State, r: Ring, i: nat, pos: nat, k: nat, n: nat)
    requires Shape(r) && i < |c.threads| && |ItemAt(r, pos)| == r.width && k < r.width && n >= r.width - k
    ensures Alone(At(c, r, i, PeekCopy(pos, ItemAt(r, pos)[..k])), i, n) ==
            Alone(At(c, r, i, PeekUnlock(0, pos, true, ItemAt(r, pos))), i, n - (r.width - k))
    decreases r.width - k
  {
    hide Alone;
    var x := ItemAt(r, pos);
    StepTo(c, r, i, PeekCopy(pos, x[..k]), n);
    assert x[..k] + [x[k]] == x[..k + 1] && x[..r.width] == x;
    if k + 1 < r.width { PeekCopies(c, r, i, pos, k + 1, n - 1); }
  }

  lemma {:induction false} PopCopies(c: State, r: Ring, i: nat, pos: nat, k: nat, n: nat)
    requires Shape(r) && i < |c.threads| && |ItemAt(r, pos)| == r.width && k < r.width && n >= r.width - k
    ensures Alone(At(c, r, i, PopCopy(pos, ItemAt(r, pos)[..k])), i, n) ==
            Alone(At(c, r, i, PopRecycle(pos, ItemAt(r, pos))), i, n - (r.width - k))
    decreases r.width - k
  {
    hide Alone;
    var x := ItemAt(r, pos);
    StepTo(c, r, i, PopCopy(pos, x[..k]), n);
    assert x[..k] + [x[k]] == x[..k + 1] && x[..r.width] == x;
    if k + 1 < r.width { PopCopies(c, r, i, pos, k + 1, n - 1); }
  }

  /** The ring with other words in the slot of `pos`. */
  function WithItem(r: Ring, pos: nat, x: Item): Ring
    requires Shape(r)
  {
    r.(items := r.items[Slot(r.cap, pos) := x])
  }

  lemma {:induction false} PushCopies(c: State, r: Ring, i: nat, x: Item, pos: nat, k: nat, y: Item, n: nat)
    requires Shape(r) && i < |c.threads| && |x| == |y| == r.width && k < r.width && n >= r.width - k
    ensures Alone(At(c, WithItem(r, pos, x[..k] + y[k..]), i, PushCopy(x, pos, k)), i, n) ==
            Alone(At(c, WithItem(r, pos, x), i, PushUnlock(x, pos)), i, n - (r.width - k))
    decreases r.width - k
  {
    hide Alone, Slots.Slot;
    var z := x[..k] + y[k..];
    StepTo(c, WithItem(r, pos, z), i, PushCopy(x, pos, k), n);
    assert z[k := x[k]] == x[..k + 1] + y[k + 1..];
    assert WithItem(WithItem(r, pos, z), pos, z[k := x[k]]) == WithItem(r, pos, z[k := x[k]]);
    if k + 1 < r.width {
      PushCopies(c, r, i, x, pos, k + 1, y, n - 1);
    } else {
      assert x[..k + 1] + y[k + 1..] == x;
    }
  }

  // ---------------------------------------------------------------- whole calls

  lemma InvParts(c: State)
    requires Inv(c)
    ensures Shape(c.r) && Window(c.r) && forall p: nat {:trigger ItemAt(c.r, p)} :: |ItemAt(c.r, p)| == c.r.width
  {
  }

  /** A peek alone: with an item at the head and room in its guard it returns that item, whole; with
      none it says so. Either way the ring is as it was. */
  lemma PeekAlone(c: State, i: nat, n: nat)
    requires Inv(c) && i < |c.threads| && c.threads[i] == Idle && n >= c.r.width + 6
    requires 0 <= GuardAt(c.r, c.r.head) < MAX_READERS
    ensures Shape(Next(c, i, Peek).r) && CallAlone(c, i, Peek, n) == c
    ensures var l := Alone(Next(c, i, Peek), i, n).threads[i];
      if SeqAt(c.r, c.r.head) == c.r.head + 1 then
        c.r.head < |c.r.log| && l.PeekUnlock? && l.ok && l.out == c.r.log[c.r.head]
      else l == PeekSeq(0, c.r.head)
  {
    hide Inv, Window, Slots.Slot, Alone;
    InvParts(c);
    var r, h, g := c.r, c.r.head, GuardAt(c.r, c.r.head);
    Begin(c, i, Peek);
    StepTo(c, r, i, PeekLoad(0), n);
    if SeqAt(r, h) == h + 1 {
      PublishedCarries(r, h);
      StepTo(c, r, i, PeekSeq(0, h), n - 1);
      StepTo(c, r, i, PeekGuard(0, h), n - 2);
      StepTo(c, r, i, PeekLock(0, h, g), n - 3);
      var q := r.(guard := r.guard[Slot(r.cap, h) := g + 1]);
      StepTo(c, q, i, PeekHead(0, h), n - 4);
      StepTo(c, q, i, PeekSeq2(0, h), n - 5);
      assert ItemAt(q, h)[..0] == [];
      PeekCopies(c, q, i, h, 0, n - 6);
      Last(c, q, i, PeekUnlock(0, h, true, ItemAt(q, h)), n - 6 - r.width);
      assert q.guard[Slot(r.cap, h) := g] == r.guard;
    } else {
      Last(c, r, i, PeekSeq(0, h), n - 1);
    }
  }

  /** From the claim to the last access, with the item at the head whole. */
  lemma TakeAlone(c: State, r: Ring, i: nat, h: nat, n: nat)
    requires Shape(r) && i < |c.threads| && r.head == h && |ItemAt(r, h)| == r.width && n >= r.width + 1
    ensures Alone(At(c, r, i, PopCas(h)), i, n) ==
            Alone(At(c, r.(head := h + 1), i, PopRecycle(h, ItemAt(r, h))), i, n - 1 - r.width)
  {
    hide Slots.Slot, Alone;
    StepTo(c, r, i, PopCas(h), n);
    var q := r.(head := h + 1);
    assert ItemAt(q, h) == ItemAt(r, h) && ItemAt(q, h)[..0] == [];
    PopCopies(c, q, i, h, 0, n - 1);
  }

  /** A pop alone: it takes the item at the head, whole, and frees the slot for the next lap, or finds
      nothing published there. */
  lemma PopAlone(c: State, i: nat, n: nat)
    requires Inv(c) && i < |c.threads| && c.threads[i] == Idle && n >= c.r.width + 3
    ensures Shape(Next(c, i, Pop).r)
    ensures var b, d, h := Alone(Next(c, i, Pop), i, n), CallAlone(c, i, Pop, n), c.r.head;
      && d.threads == c.threads
      && (if SeqAt(c.r, h) == h + 1 then
            && h < |c.r.log| && b.threads[i] == PopRecycle(h, c.r.log[h])
            && d.r == c.r.(head := h + 1, seqno := c.r.seqno[Slot(c.r.cap, h) := h + c.r.cap])
          else d.r == c.r)
  {
    hide Inv, Window, Slots.Slot, Alone;
    InvParts(c);
    var r, h := c.r, c.r.head;
    Begin(c, i, Pop);
    StepTo(c, r, i, PopLoad, n);
    if SeqAt(r, h) == h + 1 {
      PublishedCarries(r, h);
      StepTo(c, r, i, PopSeq(h), n - 1);
      TakeAlone(c, r, i, h, n - 2);
      Last(c, r.(head := h + 1), i, PopRecycle(h, ItemAt(r, h)), n - 3 - r.width);
    } else {
      Unpublished(r);
      Last(c, r, i, PopSeq(h), n - 1);
    }
  }

  lemma Unpublished(r: Ring)
    requires Shape(r) && Window(r) && SeqAt(r, r.head) != r.head + 1
    ensures SeqAt(r, r.head) < r.head + 1
  {
    assert r.head < r.tail || r.head < r.head + r.cap;
  }

  /** From the guard to the publication, with nobody in the slot. */
  lemma FillAlone(c: State, r: Ring, i: nat, x: Item, t: nat, n: nat)
    requires Shape(r) && i < |c.threads| && |x| == |ItemAt(r, t)| == r.width && GuardAt(r, t) == 0 && n >= r.width + 2
    ensures Alone(At(c, r, i, PushLock(x, t)), i, n) ==
            Alone(At(c, WithItem(r, t, x), i, PushPublish(x, t)), i, n - r.width - 2)
  {
    hide Slots.Slot, Alone;
    StepTo(c, r, i, PushLock(x, t), n);
    var q := r.(guard := r.guard[Slot(r.cap, t) := -1]);
    var y := ItemAt(r, t);
    assert x[..0] + y[0..] == y && WithItem(q, t, y) == q by { assert r.items[Slot(r.cap, t) := y] == r.items; }
    PushCopies(c, q, i, x, t, 0, y, n - 1);
    StepTo(c, WithItem(q, t, x), i, PushUnlock(x, t), n - 1 - r.width);
    assert q.guard[Slot(r.cap, t) := 0] == r.guard;
  }

  /** A push alone, with no reader in the slot of the tail: it publishes its item there, or finds the
      ring full and changes nothing. */
  lemma PushAlone(c: State, i: nat, x: Item, n: nat)
    requires Inv(c) && i < |c.threads| && c.threads[i] == Idle && |x| == c.r.width && n >= c.r.width + 5
    requires GuardAt(c.r, c.r.tail) == 0
    ensures Shape(Next(c, i, Push(x)).r)
    ensures var d, t := CallAlone(c, i, Push(x), n), c.r.tail;
      && d.threads == c.threads
      && (if SeqAt(c.r, t) == t then
            d.r == c.r.(tail := t + 1, log := c.r.log + [x], items := c.r.items[Slot(c.r.cap, t) := x],
                        seqno := c.r.seqno[Slot(c.r.cap, t) := t + 1])
          else d.r == c.r && FullNow(c.r))
  {
    hide Inv, Window, Slots.Slot, Alone;
    InvParts(c);
    var r, t := c.r, c.r.tail;
    Begin(c, i, Push(x));
    StepTo(c, r, i, PushLoad(x), n);
    if SeqAt(r, t) == t {
      StepTo(c, r, i, PushSeq(x, t), n - 1);
      StepTo(c, r, i, PushCas(x, t), n - 2);
      var q := r.(tail := t + 1, log := r.log + [x]);
      assert ItemAt(q, t) == ItemAt(r, t) && GuardAt(q, t) == GuardAt(r, t);
      FillAlone(c, q, i, x, t, n - 3);
      Last(c, WithItem(q, t, x), i, PushPublish(x, t), n - 5 - r.width);
    } else {
      NotFree(r);
      hide FullNow;
      Last(c, r, i, PushSeq(x, t), n - 1);
    }
  }

  lemma NotFree(r: Ring)
    requires Shape(r) && Window(r) && SeqAt(r, r.tail) != r.tail
    ensures SeqAt(r, r.tail) < r.tail && FullNow(r)
  {
    NextLap(r.cap, r.head);
  }
}
