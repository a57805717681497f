/** Where blocks are in memory: the spans that are mapped, the blocks laid out in them, and what the
    allocator may write without touching a block in use. */
module Placement {
  import opened SizeClasses

  /** What the header of a span says: the class of its blocks, or the bytes of a large block and the
      size recorded for it. */
  datatype Span = Small(cls: nat) | Large(total: nat, recorded: nat)

  type Spans = map<nat, Span>

  /** The whole memory: its bytes, the mapped spans by base address, and the blocks in use. */
  datatype Snap = Snap(bytes: seq<int>, spans: Spans, live: set<nat>)

  /** Byte ranges [p, p + n) and [q, q + m) share nothing. */
  predicate Apart(p: nat, n: nat, q: nat, m: nat) {
    p + n <= q || q + m <= p
  }

  predicate SpanOk(s: Span) {
    match s
    case Small(c) => c < CLASS_COUNT
    case Large(total, recorded) => total >= SPAN_SIZE && recorded <= total - HEADER
  }

  /** The bytes from the base of a span to its end. */
  function Extent(s: Span): nat {
    if s.Small? then SPAN_SIZE else s.total
  }

  /** The bytes a block of the span really has. */
  function Capacity(s: Span): nat {
    match s
    case Small(c) => if c < CLASS_COUNT then CLASS_SIZES[c] else 0
    case Large(total, _) => if total >= HEADER then total - HEADER else 0
  }

  /** memop_usable_size: the bytes the program says it has. */
  function Usable(s: Span): nat {
    match s
    case Small(c) => if c < CLASS_COUNT then CLASS_SIZES[c] else 0
    case Large(_, recorded) => recorded
  }

  ghost predicate SpansOk(size: nat, spans: Spans) {
    && (forall b {:trigger spans[b]} :: b in spans ==>
          SpanOk(spans[b]) && b % SPAN_SIZE == 0 && 0 < b && b + Extent(spans[b]) <= size)
    && (forall b, c {:trigger spans[b], spans[c]} :: b in spans && c in spans && b != c ==>
          Apart(b, Extent(spans[b]), c, Extent(spans[c])))
  }

  /** The `i`-th block of span `s` at `base` starts at `p`. */
  predicate BlockOf(base: nat, s: Span, i: nat, p: nat) {
    match s
    case Small(c) =>
      c < CLASS_COUNT && SmallStride(CLASS_SIZES[c]) && i < BlockCount(CLASS_SIZES[c]) && p == BlockAt(base, CLASS_SIZES[c], i)
    case Large(_, _) => i == 0 && p == base + HEADER
  }

  ghost predicate IsBlock(spans: Spans, p: nat) {
    SpanOf(p) in spans && exists i: nat :: BlockOf(SpanOf(p), spans[SpanOf(p)], i, p)
  }

  ghost predicate LiveOk(spans: Spans, live: set<nat>) {
    forall p {:trigger p in live} :: p in live ==> IsBlock(spans, p)
  }

  ghost predicate SnapOk(s: Snap) {
    SpansOk(|s.bytes|, s.spans) && LiveOk(s.spans, s.live)
  }

  function SpanAt(spans: Spans, p: nat): Span
    requires SpanOf(p) in spans
  {
    spans[SpanOf(p)]
  }

  // ---------------------------------------------------------------- blocks keep apart

  lemma BlockFits(base: nat, s: Span, i: nat, p: nat)
    requires base % SPAN_SIZE == 0 && SpanOk(s) && BlockOf(base, s, i, p)
    ensures base + HEADER <= p && p + Capacity(s) <= base + Extent(s) && SpanOf(p) == base && Capacity(s) > 0
  {
    if s.Small? {
      var stride := CLASS_SIZES[s.cls];
      ClassIsItsStride(s.cls);
      BlocksAreInside(base, stride, i, p);
      BlocksAreInside(base, stride, i, p + stride - 1);
    } else {
      Between(base, p);
    }
  }

  /** A block lies past the header of its span and inside it. */
  lemma BlockInSpan(size: nat, spans: Spans, p: nat)
    requires SpansOk(size, spans) && IsBlock(spans, p)
    ensures var b, s := SpanOf(p), SpanAt(spans, p);
      && SpanOk(s) && b + HEADER <= p && p + Capacity(s) <= b + Extent(s) <= size && 0 < b && Capacity(s) > 0
  {
    var i: nat :| BlockOf(SpanOf(p), SpanAt(spans, p), i, p);
    BlockFits(SpanOf(p), SpanAt(spans, p), i, p);
  }

  /** No two blocks share a byte, whatever their spans and their sizes. */
  lemma BlocksApart(size: nat, spans: Spans, p: nat, q: nat)
    requires SpansOk(size, spans) && IsBlock(spans, p) && IsBlock(spans, q) && p != q
    ensures Apart(p, Capacity(SpanAt(spans, p)), q, Capacity(SpanAt(spans, q)))
  {
    BlockInSpan(size, spans, p);
    BlockInSpan(size, spans, q);
    if SpanOf(p) == SpanOf(q) {
      var b, s := SpanOf(p), SpanAt(spans, p);
      var i: nat :| BlockOf(b, s, i, p);
      var j: nat :| BlockOf(b, s, j, q);
      if s.Small? { SameSpanApart(b, CLASS_SIZES[s.cls], i, j); }
    }
  }

  lemma SameSpanApart(base: nat, stride: nat, i: nat, j: nat)
    requires base % SPAN_SIZE == 0 && SmallStride(stride) && i < BlockCount(stride) && j < BlockCount(stride) && i != j
    ensures Apart(BlockAt(base, stride, i), stride, BlockAt(base, stride, j), stride)
  {
    var p, q := BlockAt(base, stride, i), BlockAt(base, stride, j);
    BlocksAreDisjoint(base, stride, i, base, stride, j, if p < q then p + stride - 1 else p);
    BlocksAreDisjoint(base, stride, j, base, stride, i, if q < p then q + stride - 1 else q);
  }

  // ---------------------------------------------------------------- what may be written

  /** What a write of the allocator aims at: a word of a span header, a block nobody uses (a link of a
      free list, a freshly drained block), or memory outside every span (segment headers, cached
      chunks, spans about to be mapped). */
  datatype Target = InHeader(base: nat) | InDead(p: nat) | Elsewhere

  datatype Write = Write(at: nat, data: seq<int>, target: Target)

  ghost predicate Allowed(size: nat, spans: Spans, live: set<nat>, w: Write) {
    && w.at + |w.data| <= size
    && match w.target
       case InHeader(b) => b in spans && b <= w.at && w.at + |w.data| <= b + HEADER
       case InDead(p) =>
         IsBlock(spans, p) && p !in live && p <= w.at && w.at + |w.data| <= p + Capacity(SpanAt(spans, p))
       case Elsewhere => forall b {:trigger spans[b]} :: b in spans ==> Apart(w.at, |w.data|, b, Extent(spans[b]))
  }

  ghost predicate AllAllowed(size: nat, spans: Spans, live: set<nat>, ws: seq<Write>) {
    forall k {:trigger ws[k]} :: 0 <= k < |ws| ==> Allowed(size, spans, live, ws[k])
  }

  /** An allowed write meets no block in use. */
  lemma AllowedMisses(size: nat, spans: Spans, live: set<nat>, w: Write, q: nat)
    requires SpansOk(size, spans) && LiveOk(spans, live) && Allowed(size, spans, live, w) && q in live
    ensures Apart(q, Capacity(SpanAt(spans, q)), w.at, |w.data|)
  {
    BlockInSpan(size, spans, q);
    match w.target {
      case InHeader(b) => if b != SpanOf(q) { assert Apart(b, Extent(spans[b]), SpanOf(q), Extent(SpanAt(spans, q))); }
      case InDead(p) => BlocksApart(size, spans, p, q);
      case Elsewhere => assert Apart(w.at, |w.data|, SpanOf(q), Extent(spans[SpanOf(q)]));
    }
  }

  /** The memory after `data` is written at `at`. */
  function Overwrite(m: seq<int>, at: nat, data: seq<int>): (r: seq<int>)
    requires at + |data| <= |m|
    ensures |r| == |m|
  {
    m[..at] + data + m[at + |data|..]
  }

  predicate InRange(size: nat, ws: seq<Write>) {
    forall k {:trigger ws[k]} :: 0 <= k < |ws| ==> ws[k].at + |ws[k].data| <= size
  }

  function WriteAll(m: seq<int>, ws: seq<Write>): (r: seq<int>)
    requires InRange(|m|, ws)
    ensures |r| == |m|
    decreases |ws|
  {
    if ws == [] then m else WriteAll(Overwrite(m, ws[0].at, ws[0].data), ws[1..])
  }

  /** The `n` bytes at `q` are the same in both memories. */
  predicate SameBytes(before: seq<int>, after: seq<int>, q: nat, n: nat) {
    |after| == |before| && q + n <= |before| && after[q..q + n] == before[q..q + n]
  }

  lemma OverwriteKeeps(m: seq<int>, at: nat, data: seq<int>, q: nat, n: nat)
    requires at + |data| <= |m| && q + n <= |m| && Apart(q, n, at, |data|)
    ensures SameBytes(m, Overwrite(m, at, data), q, n)
  {
  }

  lemma {:induction false} WriteAllKeeps(m: seq<int>, ws: seq<Write>, q: nat, n: nat)
    requires InRange(|m|, ws) && q + n <= |m|
    requires forall k {:trigger ws[k]} :: 0 <= k < |ws| ==> Apart(q, n, ws[k].at, |ws[k].data|)
    ensures SameBytes(m, WriteAll(m, ws), q, n)
    decreases |ws|
  {
    if ws != [] {
      OverwriteKeeps(m, ws[0].at, ws[0].data, q, n);
      WriteAllKeeps(Overwrite(m, ws[0].at, ws[0].data), ws[1..], q, n);
    }
  }

  // ---------------------------------------------------------------- what is kept

  /** Every block in use but `p` is still in use, with the same header and the same contents. */
  ghost predicate Kept(a: Snap, b: Snap, p: nat) {
    forall q {:trigger q in a.live} {:trigger q in b.live} :: q in a.live && q != p ==> BlockKept(a, b, q)
  }

  predicate BlockKept(a: Snap, b: Snap, q: nat) {
    && q in b.live && SpanOf(q) in a.spans && SpanOf(q) in b.spans && SpanAt(b.spans, q) == SpanAt(a.spans, q)
    && SameBytes(a.bytes, b.bytes, q, Capacity(SpanAt(a.spans, q)))
  }

  lemma WritesKeep(s: Snap, live: set<nat>, ws: seq<Write>, q: nat)
    requires SnapOk(s) && live <= s.live && AllAllowed(|s.bytes|, s.spans, live, ws) && q in live
    ensures InRange(|s.bytes|, ws) && SpanOf(q) in s.spans
    ensures SameBytes(s.bytes, WriteAll(s.bytes, ws), q, Capacity(SpanAt(s.spans, q)))
  {
    BlockInSpan(|s.bytes|, s.spans, q);
    forall k | 0 <= k < |ws| ensures Apart(q, Capacity(SpanAt(s.spans, q)), ws[k].at, |ws[k].data|) {
      AllowedMisses(|s.bytes|, s.spans, live, ws[k], q);
    }
    WriteAllKeeps(s.bytes, ws, q, Capacity(SpanAt(s.spans, q)));
  }

  // ---------------------------------------------------------------- taking a block

  /** Where a new block goes: nowhere, into a free slot of a mapped span, or to the start of a span
      mapped for it. */
  datatype Pick = Nowhere | Slot(base: nat, i: nat) | Fresh(base: nat)

  function Pointer(s: Span, pick: Pick): nat {
    match pick
    case Nowhere => 0
    case Slot(b, i) => BlockAt(b, Capacity(s), i)
    case Fresh(b) => b + HEADER
  }

  /** A place the allocator may pick for a block of span `s`. */
  ghost predicate PickOk(m: Snap, s: Span, pick: Pick) {
    match pick
    case Nowhere => true
    case Slot(b, i) => s.Small? && b in m.spans && m.spans[b] == s && BlockOf(b, s, i, Pointer(s, pick)) && Pointer(s, pick) !in m.live
    case Fresh(b) =>
      && SpanOk(s) && b % SPAN_SIZE == 0 && 0 < b && b + Extent(s) <= |m.bytes|
      && forall c {:trigger m.spans[c]} :: c in m.spans ==> Apart(b, Extent(s), c, Extent(m.spans[c]))
  }

  function SpansWith(spans: Spans, s: Span, pick: Pick): Spans {
    if pick.Fresh? then spans[pick.base := s] else spans
  }

  function LiveWith(live: set<nat>, s: Span, pick: Pick): set<nat> {
    if pick.Nowhere? then live else live + {Pointer(s, pick)}
  }

  /** The memory after an allocation that picked `pick` and wrote `ws`. */
  function Allocated(m: Snap, s: Span, pick: Pick, ws: seq<Write>): Snap
    requires InRange(|m.bytes|, ws)
  {
    Snap(WriteAll(m.bytes, ws), SpansWith(m.spans, s, pick), LiveWith(m.live, s, pick))
  }

  lemma FirstBlock(base: nat, s: Span)
    requires SpanOk(s) && base % SPAN_SIZE == 0
    ensures BlockOf(base, s, 0, base + HEADER)
  {
    if s.Small? {
      ClassIsItsStride(s.cls);
      AtLeastThreeBlocks(CLASS_SIZES[s.cls]);
      assert BlockAt(base, CLASS_SIZES[s.cls], 0) == base + HEADER;
    }
  }

  /** The picked place is a block nobody uses, and the new spans are still apart. */
  lemma PickedIsABlock(m: Snap, s: Span, pick: Pick)
    requires SnapOk(m) && PickOk(m, s, pick) && !pick.Nowhere?
    ensures var spans, r := SpansWith(m.spans, s, pick), Pointer(s, pick);
      SpansOk(|m.bytes|, spans) && IsBlock(spans, r) && SpanAt(spans, r) == s && r !in m.live && r != 0
  {
    var spans, r := SpansWith(m.spans, s, pick), Pointer(s, pick);
    if pick.Fresh? {
      FirstBlock(pick.base, s);
      BlockFits(pick.base, s, 0, r);
      if r in m.live { BlockInSpan(|m.bytes|, m.spans, r); }
    } else {
      BlockFits(pick.base, s, pick.i, r);
    }
  }

  lemma BlockStays(m: Snap, s: Span, pick: Pick, q: nat)
    requires SnapOk(m) && PickOk(m, s, pick) && q in m.live
    ensures IsBlock(SpansWith(m.spans, s, pick), q) && SpanAt(SpansWith(m.spans, s, pick), q) == SpanAt(m.spans, q)
  {
    BlockInSpan(|m.bytes|, m.spans, q);
    if pick.Fresh? { assert Apart(pick.base, Extent(s), SpanOf(q), Extent(m.spans[SpanOf(q)])); }
    var i: nat :| BlockOf(SpanOf(q), SpanAt(m.spans, q), i, q);
    assert BlockOf(SpanOf(q), SpanAt(SpansWith(m.spans, s, pick), q), i, q);
  }

  /** Whatever an allocation picks and writes, among what it may, every block in use stays as it is,
      and the new one is apart from all of them. */
  lemma AllocKeeps(m: Snap, s: Span, pick: Pick, ws: seq<Write>)
    requires SnapOk(m) && PickOk(m, s, pick) && AllAllowed(|m.bytes|, m.spans, m.live, ws)
    ensures InRange(|m.bytes|, ws)
    ensures var n, r := Allocated(m, s, pick, ws), Pointer(s, pick);
      && SnapOk(n) && Kept(m, n, 0)
      && (!pick.Nowhere? ==> r != 0 && r !in m.live && r in n.live && SpanOf(r) in n.spans && SpanAt(n.spans, r) == s)
  {
    var n, r := Allocated(m, s, pick, ws), Pointer(s, pick);
    if !pick.Nowhere? { PickedIsABlock(m, s, pick); }
    forall q | q in m.live ensures IsBlock(n.spans, q) && BlockKept(m, n, q) {
      BlockStays(m, s, pick, q);
      WritesKeep(m, m.live, ws, q);
    }
  }

  // ---------------------------------------------------------------- giving a block back

  /** What a free may do: give back spans in which nobody uses a block any more, the whole span of a
      large block among them, and write where the remaining blocks are not. */
  ghost predicate FreeOk(m: Snap, p: nat, gone: set<nat>, ws: seq<Write>) {
    && p in m.live && IsBlock(m.spans, p)
    && gone <= m.spans.Keys
    && (forall q {:trigger q in m.live} :: q in m.live && q != p ==> SpanOf(q) !in gone)
    && (SpanAt(m.spans, p).Large? ==> SpanOf(p) in gone)
    && AllAllowed(|m.bytes|, m.spans, m.live - {p}, ws)
  }

  function Freed(m: Snap, p: nat, gone: set<nat>, ws: seq<Write>): Snap
    requires InRange(|m.bytes|, ws)
  {
    Snap(WriteAll(m.bytes, ws), m.spans - gone, m.live - {p})
  }

  lemma FreeKeeps(m: Snap, p: nat, gone: set<nat>, ws: seq<Write>)
    requires SnapOk(m) && FreeOk(m, p, gone, ws)
    ensures InRange(|m.bytes|, ws)
    ensures SnapOk(Freed(m, p, gone, ws)) && Kept(m, Freed(m, p, gone, ws), p)
  {
    var n := Freed(m, p, gone, ws);
    forall q | q in m.live && q != p ensures IsBlock(n.spans, q) && BlockKept(m, n, q) {
      WritesKeep(m, m.live - {p}, ws, q);
      assert IsBlock(m.spans, q);
      var i: nat :| BlockOf(SpanOf(q), SpanAt(m.spans, q), i, q);
      assert BlockOf(SpanOf(q), SpanAt(n.spans, q), i, q);
    }
  }

  // ---------------------------------------------------------------- writing into a block

  /** The memory after `data` is written at the start of block `r`. */
  function Filled(m: Snap, r: nat, data: seq<int>): Snap
    requires r + |data| <= |m.bytes|
  {
    m.(bytes := Overwrite(m.bytes, r, data))
  }

  lemma FillKeeps(m: Snap, r: nat, data: seq<int>)
    requires SnapOk(m) && r in m.live && SpanOf(r) in m.spans && |data| <= Capacity(SpanAt(m.spans, r))
    ensures r + |data| <= |m.bytes| && SnapOk(Filled(m, r, data)) && Kept(m, Filled(m, r, data), r)
  {
    BlockInSpan(|m.bytes|, m.spans, r);
    forall q | q in m.live && q != r ensures BlockKept(m, Filled(m, r, data), q) {
      BlockInSpan(|m.bytes|, m.spans, q);
      BlocksApart(|m.bytes|, m.spans, q, r);
      OverwriteKeeps(m.bytes, r, data, q, Capacity(SpanAt(m.spans, q)));
    }
  }
}
