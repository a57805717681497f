/** Where the allocator's choices come from: the block a span serves is a free slot, the link words
    it writes lie in blocks nobody uses, a span with nothing in use may be given back, and a chunk
    that is acquired is a place for a new span. */
module Supply {
  import opened SizeClasses
  import opened Placement
  import SpanBlocks
  import ChunkSpec
  import ChunkProofs

  // ---------------------------------------------------------------- blocks of a span

  /** The blocks in use of the span at `base`, of class `c`, are the live blocks of its span `s`. */
  ghost predicate Shows(m: Snap, base: nat, c: nat, s: SpanBlocks.Span) {
    && c < CLASS_COUNT && SmallStride(CLASS_SIZES[c]) && base in m.spans && m.spans[base] == Small(c)
    && s.count == |s.place| == BlockCount(CLASS_SIZES[c])
    && forall b: nat {:trigger s.place[b]} :: b < s.count ==>
         (BlockAt(base, CLASS_SIZES[c], b) in m.live <==> s.place[b] == SpanBlocks.Live)
  }

  lemma OtherBlock(base: nat, c: nat, b: nat, d: nat)
    requires base % SPAN_SIZE == 0 && c < CLASS_COUNT && SmallStride(CLASS_SIZES[c])
    requires b < BlockCount(CLASS_SIZES[c]) && d < BlockCount(CLASS_SIZES[c]) && b != d
    ensures BlockAt(base, CLASS_SIZES[c], b) != BlockAt(base, CLASS_SIZES[c], d)
  {
    SameSpanApart(base, CLASS_SIZES[c], b, d);
  }

  /** One block enters or leaves use, in the span and in the memory. */
  lemma Follow(m: Snap, base: nat, c: nat, s: SpanBlocks.Span, s': SpanBlocks.Span, b: nat, live: set<nat>)
    requires SnapOk(m) && Shows(m, base, c, s) && b < s.count == s'.count == |s'.place|
    requires forall d: nat {:trigger s'.place[d]} :: d < s.count && d != b ==>
               (s'.place[d] == SpanBlocks.Live <==> s.place[d] == SpanBlocks.Live)
    requires var p := BlockAt(base, CLASS_SIZES[c], b);
      live == if s'.place[b] == SpanBlocks.Live then m.live + {p} else m.live - {p}
    ensures Shows(m.(live := live), base, c, s')
  {
    forall d: nat | d < s.count
      ensures BlockAt(base, CLASS_SIZES[c], d) in live <==> s'.place[d] == SpanBlocks.Live
    {
      if d != b {
        OtherBlock(base, c, b, d);
        assert s.place[d] == SpanBlocks.Live <==> s'.place[d] == SpanBlocks.Live;
      }
    }
  }

  lemma SlotIsBlock(m: Snap, base: nat, c: nat, s: SpanBlocks.Span, b: nat)
    requires SnapOk(m) && Shows(m, base, c, s) && b < s.count
    ensures var p := BlockAt(base, CLASS_SIZES[c], b);
      && Capacity(Small(c)) == CLASS_SIZES[c] && BlockOf(base, Small(c), b, p)
      && SpanOf(p) == base && IsBlock(m.spans, p) && SpanAt(m.spans, p) == Small(c)
  {
    var p := BlockAt(base, CLASS_SIZES[c], b);
    BlockFits(base, Small(c), b, p);
    assert BlockOf(SpanOf(p), m.spans[SpanOf(p)], b, p);
  }

  /** The block that the owner's next allocation takes is a place Realloc may pick, and taking it
      keeps span and memory in agreement. */
  lemma TakenBlockIsFree(m: Snap, base: nat, c: nat, s: SpanBlocks.Span) returns (b: nat)
    requires SnapOk(m) && Shows(m, base, c, s)
    requires SpanBlocks.Inv(s) && s.owner == SpanBlocks.Idle && (s.localFree.At? || s.bump < s.count)
    ensures b < s.count && PickOk(m, Small(c), Slot(base, b))
    ensures Shows(m.(live := LiveWith(m.live, Small(c), Slot(base, b))), base, c, SpanBlocks.Next(s, SpanBlocks.Alloc))
  {
    SpanBlocks.AllocTakesAFreeBlock(s);
    var n := SpanBlocks.Next(s, SpanBlocks.Alloc);
    b :| b < s.count && n.place == s.place[b := SpanBlocks.Live]
        && (if s.localFree.At? then s.place[b] == SpanBlocks.InLocal else s.place[b] == SpanBlocks.Uncarved);
    SlotIsBlock(m, base, c, s, b);
    Follow(m, base, c, s, n, b, LiveWith(m.live, Small(c), Slot(base, b)));
  }

  /** A free, by the owner or by another thread, takes its block out of use; no other step of the
      owner or of a remote thread takes a block into use or out of it. */
  lemma StepsFollow(m: Snap, base: nat, c: nat, s: SpanBlocks.Span, step: SpanBlocks.Step)
    requires SnapOk(m) && Shows(m, base, c, s) && SpanBlocks.Inv(s) && step != SpanBlocks.Alloc
    ensures var n := SpanBlocks.Next(s, step);
      var starts := n != s && (step.FreeLocal? || step.StartRemote?);
      && (starts ==> step.b < s.count && BlockAt(base, CLASS_SIZES[c], step.b) in m.live)
      && Shows(m.(live := if starts then m.live - {BlockAt(base, CLASS_SIZES[c], step.b)} else m.live), base, c, n)
  {
    hide SpanBlocks.ListsOk, SpanBlocks.TransitOk, SpanBlocks.UsedOk, SpanBlocks.CarvedOk;
    var n := SpanBlocks.Next(s, step);
    if n != s && (step.FreeLocal? || step.StartRemote?) {
      Follow(m, base, c, s, n, step.b, m.live - {BlockAt(base, CLASS_SIZES[c], step.b)});
    } else {
      LiveStays(s, step);
    }
  }

  lemma LiveStays(s: SpanBlocks.Span, step: SpanBlocks.Step)
    requires SpanBlocks.Inv(s) && (step.StartDrain? || step.OwnerStep? || step.RemoteStep? || SpanBlocks.Next(s, step) == s)
    ensures var n := SpanBlocks.Next(s, step);
      && n.count == s.count == |n.place| == |s.place|
      && forall d: nat {:trigger n.place[d]} {:trigger s.place[d]} :: d < s.count ==>
           (n.place[d] == SpanBlocks.Live <==> s.place[d] == SpanBlocks.Live)
  {
    if step.OwnerStep? && s.owner.DrainWalk? && s.drain != [] {
      assert s.drain[0] in s.drain;
    } else if step.RemoteStep? && step.t < |s.threads| {
      assert SpanBlocks.RemoteOk(s.threads[step.t], step.t, s.place, s.next);
    }
  }

  /** Every link word a step writes lies in a block nobody uses, so Realloc may write it. */
  lemma LinkWritesAreAllowed(m: Snap, base: nat, c: nat, s: SpanBlocks.Span, step: SpanBlocks.Step, b: nat, link: seq<int>)
    requires SnapOk(m) && SpanBlocks.Inv(s) && Shows(m, base, c, SpanBlocks.Next(s, step))
    requires b < s.count && SpanBlocks.Next(s, step).next[b] != s.next[b] && |link| == 8
    ensures var p := BlockAt(base, CLASS_SIZES[c], b);
      Allowed(|m.bytes|, m.spans, m.live, Write(p, link, InDead(p)))
  {
    var n := SpanBlocks.Next(s, step);
    LinkedIsNotLive(s, step, b);
    assert n.place[b] != SpanBlocks.Live;
    SlotIsBlock(m, base, c, n, b);
    BlockInSpan(|m.bytes|, m.spans, BlockAt(base, CLASS_SIZES[c], b));
    ClassIsItsStride(c);
  }

  lemma LinkedIsNotLive(s: SpanBlocks.Span, step: SpanBlocks.Step, b: nat)
    requires SpanBlocks.Inv(s) && b < s.count && SpanBlocks.Next(s, step).next[b] != s.next[b]
    ensures SpanBlocks.Shape(SpanBlocks.Next(s, step)) && SpanBlocks.Next(s, step).place[b] != SpanBlocks.Live
  {
    if step.RemoteStep? && step.t < |s.threads| { assert SpanBlocks.RemoteOk(s.threads[step.t], step.t, s.place, s.next); }
  }

  /** A span whose count of used blocks is zero holds nothing in use: it may be given back. */
  lemma UnusedSpanMayGo(m: Snap, base: nat, c: nat, s: SpanBlocks.Span, q: nat)
    requires SnapOk(m) && Shows(m, base, c, s) && SpanBlocks.Inv(s) && s.owner == SpanBlocks.Idle && s.used == 0
    requires q in m.live
    ensures SpanOf(q) != base
  {
    if SpanOf(q) == base {
      assert IsBlock(m.spans, q);
      var i: nat :| BlockOf(base, Small(c), i, q);
      assert s.place[i] == SpanBlocks.Live;
      SpanBlocks.NoneOutside(s.place, s.count, i);
    }
  }

  // ---------------------------------------------------------------- chunks

  const SEGMENT: nat := ChunkSpec.SEG_SPANS * SPAN_SIZE

  predicate InUse(h: ChunkSpec.Mem, c: nat) {
    c in h.place && h.place[c] == ChunkSpec.Used
  }

  /** The region lies in no mapped segment. */
  ghost predicate OffSegments(h: ChunkSpec.Mem, base: nat, n: nat) {
    forall g {:trigger h.headers[g]} :: g in h.headers ==> Apart(base, n, g * SEGMENT, SEGMENT)
  }

  /** Every span of one unit is a chunk in use, every other one a mapping of its own. */
  ghost predicate OnChunks(m: Snap, h: ChunkSpec.Mem) {
    forall b {:trigger m.spans[b]} :: b in m.spans ==>
      || (Extent(m.spans[b]) == SPAN_SIZE && InUse(h, b / SPAN_SIZE))
      || OffSegments(h, b, Extent(m.spans[b]))
  }

  /** What the system promises of a new segment: it overlaps nothing that is mapped. */
  ghost predicate Mapped(m: Snap, h: ChunkSpec.Mem, step: ChunkSpec.Step) {
    step.MapSegment? && step.s !in h.headers ==>
      forall b {:trigger m.spans[b]} :: b in m.spans ==> Apart(b, Extent(m.spans[b]), step.s * SEGMENT, SEGMENT)
  }

  lemma ChunkInSegment(c: nat)
    ensures ChunkSpec.SegOf(c) * SEGMENT <= c * SPAN_SIZE
    ensures c * SPAN_SIZE + SPAN_SIZE <= ChunkSpec.SegOf(c) * SEGMENT + SEGMENT
  {
  }

  lemma ChunksApart(b: nat, c: nat)
    requires b % SPAN_SIZE == 0 && b / SPAN_SIZE != c
    ensures Apart(b, SPAN_SIZE, c * SPAN_SIZE, SPAN_SIZE)
  {
  }

  /** A chunk that becomes used lies in a mapped segment, past its header. */
  lemma NewChunkIsMapped(h: ChunkSpec.Mem, step: ChunkSpec.Step, c: nat)
    requires ChunkSpec.Inv(h) && InUse(ChunkSpec.Next(h, step), c)
    ensures c >= 1 && (ChunkSpec.SegOf(c) in h.headers || (step.MapSegment? && step.s == ChunkSpec.SegOf(c) && step.s !in h.headers))
  {
    hide ChunkSpec.Next, ChunkSpec.Inv;
    ChunkProofs.NextKeepsInv(h, step);
    UsedIsMapped(ChunkSpec.Next(h, step), c);
    NewSegments(h, step);
  }

  lemma UsedIsMapped(h: ChunkSpec.Mem, c: nat)
    requires ChunkSpec.Inv(h) && InUse(h, c)
    ensures c >= 1 && ChunkSpec.SegOf(c) in h.headers
  {
    assert c in h.place;
  }

  lemma SpanMissesChunk(m: Snap, h: ChunkSpec.Mem, step: ChunkSpec.Step, c: nat, b: nat)
    requires SnapOk(m) && OnChunks(m, h) && Mapped(m, h, step) && b in m.spans && !InUse(h, c)
    requires ChunkSpec.SegOf(c) in h.headers || (step.MapSegment? && step.s == ChunkSpec.SegOf(c) && step.s !in h.headers)
    ensures Apart(c * SPAN_SIZE, SPAN_SIZE, b, Extent(m.spans[b]))
  {
    hide ChunkSpec.SegOf;
    ChunkInSegment(c);
    if Extent(m.spans[b]) == SPAN_SIZE && InUse(h, b / SPAN_SIZE) {
      ChunksApart(b, c);
    } else {
      assert Apart(b, Extent(m.spans[b]), ChunkSpec.SegOf(c) * SEGMENT, SEGMENT);
    }
  }

  /** A chunk handed out by chunk_acquire is a place for a span of one unit. */
  lemma AcquiredChunkIsFresh(m: Snap, h: ChunkSpec.Mem, step: ChunkSpec.Step, c: nat, s: Span)
    requires SnapOk(m) && OnChunks(m, h) && ChunkSpec.Inv(h) && (step.Acquire? || step.MapSegment?) && Mapped(m, h, step)
    requires !InUse(h, c) && InUse(ChunkSpec.Next(h, step), c)
    requires SpanOk(s) && Extent(s) == SPAN_SIZE && c * SPAN_SIZE + SPAN_SIZE <= |m.bytes|
    ensures PickOk(m, s, Fresh(c * SPAN_SIZE))
    ensures OnChunks(m.(spans := SpansWith(m.spans, s, Fresh(c * SPAN_SIZE))), ChunkSpec.Next(h, step))
  {
    hide ChunkSpec.Next, ChunkSpec.Inv, SnapOk, InUse, OffSegments, ChunkSpec.SegOf;
    NewChunkIsMapped(h, step, c);
    forall b | b in m.spans ensures Apart(c * SPAN_SIZE, SPAN_SIZE, b, Extent(m.spans[b])) {
      SpanMissesChunk(m, h, step, c, b);
    }
    SpansStayOnChunks(m, h, step);
    assert c * SPAN_SIZE / SPAN_SIZE == c && c * SPAN_SIZE % SPAN_SIZE == 0;
  }

  /** A step maps no segment but the one the system gives it. */
  lemma NewSegments(h: ChunkSpec.Mem, step: ChunkSpec.Step)
    requires ChunkSpec.Inv(h)
    ensures forall g {:trigger g in h.headers} ::
              g in ChunkSpec.Next(h, step).headers && g !in h.headers ==> step.MapSegment? && g == step.s
  {
    ChunkProofs.LinkedInv(h);
  }

  /** The span gives no chunk under it back with this step. */
  ghost predicate Keeps(m: Snap, h: ChunkSpec.Mem, step: ChunkSpec.Step) {
    forall b {:trigger m.spans[b]} :: b in m.spans ==> !ChunkProofs.Releases(h, step, b / SPAN_SIZE)
  }

  /** While the chunks under the spans are not released, every span stays on its chunk. */
  lemma SpansStayOnChunks(m: Snap, h: ChunkSpec.Mem, step: ChunkSpec.Step)
    requires OnChunks(m, h) && ChunkSpec.Inv(h) && Mapped(m, h, step) && Keeps(m, h, step)
    ensures OnChunks(m, ChunkSpec.Next(h, step))
  {
    hide ChunkSpec.Next, ChunkSpec.Inv, ChunkProofs.Releases, Apart;
    var n := ChunkSpec.Next(h, step);
    NewSegments(h, step);
    forall b | b in m.spans
      ensures (Extent(m.spans[b]) == SPAN_SIZE && InUse(n, b / SPAN_SIZE)) || OffSegments(n, b, Extent(m.spans[b]))
    {
      if Extent(m.spans[b]) == SPAN_SIZE && InUse(h, b / SPAN_SIZE) {
        UsedStays(h, step, b / SPAN_SIZE);
      } else {
        forall g | g in n.headers ensures Apart(b, Extent(m.spans[b]), g * SEGMENT, SEGMENT) {
          if g in h.headers { assert OffSegments(h, b, Extent(m.spans[b])); }
        }
      }
    }
  }

  lemma UsedStays(h: ChunkSpec.Mem, step: ChunkSpec.Step, c: nat)
    requires ChunkSpec.Inv(h) && InUse(h, c) && !ChunkProofs.Releases(h, step, c)
    ensures InUse(ChunkSpec.Next(h, step), c)
  {
    hide ChunkSpec.Next, ChunkSpec.Inv;
    ChunkProofs.StepKeepsHeld(h, step, c);
  }

  /** A span given back leaves the others where they are. */
  lemma SpanMayLeave(m: Snap, h: ChunkSpec.Mem, step: ChunkSpec.Step)
    requires SnapOk(m) && OnChunks(m, h) && ChunkSpec.Inv(h) && step.Release?
    ensures OnChunks(m.(spans := m.spans - {step.c * SPAN_SIZE}), ChunkSpec.Next(h, step))
  {
    hide ChunkSpec.Next, ChunkSpec.Inv, OffSegments, InUse;
    var n := m.(spans := m.spans - {step.c * SPAN_SIZE});
    forall b | b in n.spans ensures !ChunkProofs.Releases(h, step, b / SPAN_SIZE) {
      assert b in m.spans && b % SPAN_SIZE == 0 && b != step.c * SPAN_SIZE;
    }
    SpansStayOnChunks(n, h, step);
  }

  /** A chunk that holds no span, as those in the caches, lies outside every span: Realloc may write
      there. */
  lemma UnusedChunkIsElsewhere(m: Snap, h: ChunkSpec.Mem, c: nat, at: nat, data: seq<int>)
    requires SnapOk(m) && OnChunks(m, h) && ChunkSpec.SegOf(c) in h.headers && !InUse(h, c)
    requires c * SPAN_SIZE <= at && at + |data| <= (c + 1) * SPAN_SIZE && at + |data| <= |m.bytes|
    ensures Allowed(|m.bytes|, m.spans, m.live, Write(at, data, Elsewhere))
  {
    hide ChunkSpec.SegOf, SnapOk, InUse, OnChunks;
    forall b | b in m.spans ensures Apart(at, |data|, b, Extent(m.spans[b])) {
      SpanMissesChunk(m, h, ChunkSpec.NewHeap, c, b);
    }
  }

  lemma HeaderChunkIsUnused(h: ChunkSpec.Mem, g: nat)
    requires ChunkSpec.Inv(h)
    ensures !InUse(h, ChunkSpec.ChunkAt(g, 0))
  {
    forall c | InUse(h, c) ensures c != ChunkSpec.ChunkAt(g, 0) {
      assert ChunkSpec.Index(c) >= 1;
    }
  }

  /** So does the chunk with the header of a segment. */
  lemma SegmentHeaderIsElsewhere(m: Snap, h: ChunkSpec.Mem, g: nat, at: nat, data: seq<int>)
    requires SnapOk(m) && OnChunks(m, h) && ChunkSpec.Inv(h) && g in h.headers
    requires g * SEGMENT <= at && at + |data| <= g * SEGMENT + SPAN_SIZE && at + |data| <= |m.bytes|
    ensures Allowed(|m.bytes|, m.spans, m.live, Write(at, data, Elsewhere))
  {
    hide ChunkSpec.Inv, SnapOk, OnChunks, Allowed;
    var c := ChunkSpec.ChunkAt(g, 0);
    HeaderChunkIsUnused(h, g);
    assert c == ChunkSpec.SEG_SPANS * g && c * SPAN_SIZE == g * SEGMENT;
    UnusedChunkIsElsewhere(m, h, c, at, data);
  }
}
