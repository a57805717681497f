/** memop_alloc_raw, memop_free_raw and memop_realloc_raw over one flat memory: what becomes of the
    contents of the blocks in use. The place of a new block, the spans given back and the words the
    allocator writes on the way are any that Placement allows; Supply shows that those of the
    program are among them. */
module Realloc {
  import opened SizeClasses
  import opened Placement

  /** The sizes whose rounding does not leave 64 bits. */
  predicate NoWrap(size: nat) {
    size + HEADER + SPAN_SIZE <= TWO64
  }

  /** The span header of a block that serves a request of `size` bytes. */
  function SpanFor(table: seq<nat>, size: nat): Span
    requires Built(table) && size > 0
  {
    var c := ClassIndex(table, size);
    if c >= 0 then Small(c) else Large(LargeTotal(size), LargeStride(size))
  }

  /** The block holds the request exactly when the size can be rounded in 64 bits, and its recorded
      size covers the request exactly up to 2^32 - 64. */
  lemma BlockHolds(table: seq<nat>, size: nat)
    requires Built(table) && 0 < size < TWO64
    ensures var s := SpanFor(table, size);
      && (size <= Capacity(s) <==> NoWrap(size))
      && (size <= Usable(s) <==> size <= TWO32 - HEADER)
      && (s.Large? <==> size > MAX_SMALL)
      && (s.Small? ==> Fits(size, s.cls))
      && (NoWrap(size) ==> SpanOk(s) && Usable(s) <= Capacity(s))
  {
    TableIsExact(table, size);
    if size <= MAX_SMALL {
      ClassIsItsStride(ClassIndex(table, size));
    } else {
      LargeCoversUpTo32Bits(size);
      if NoWrap(size) { RoundedUp(size); RecordedIsLess(LargeTotal(size)); } else { WrappedIsSmall(size); }
    }
  }

  lemma RoundedUp(size: nat)
    requires NoWrap(size)
    ensures size + HEADER <= LargeTotal(size) < TWO64 && LargeTotal(size) >= SPAN_SIZE
  {
    assert LargeTotal(size) == (size + HEADER + SPAN_SIZE - 1) / SPAN_SIZE * SPAN_SIZE;
  }

  /** Past that limit the rounding wraps, to one span at most. */
  lemma WrappedIsSmall(size: nat)
    requires MAX_SMALL < size < TWO64 && !NoWrap(size)
    ensures LargeTotal(size) <= SPAN_SIZE
  {
    var t := (size + HEADER) % TWO64;
    if size + HEADER >= TWO64 { assert t == size + HEADER - TWO64; } else { assert t == size + HEADER; }
    var u := (t + SPAN_SIZE - 1) % TWO64;
    assert u < 2 * SPAN_SIZE;
  }

  lemma RecordedIsLess(total: nat)
    requires HEADER <= total < TWO64
    ensures (total + TWO64 - HEADER) % TWO32 <= total - HEADER
  {
    assert (total - HEADER + TWO64) % TWO32 == (total - HEADER) % TWO32;
  }

  /** The block already holds the new size, by the program's own test. */
  predicate StaysInPlace(table: seq<nat>, s: Span, size: nat)
    requires Built(table) && size > 0
  {
    if size <= MAX_SMALL then s.Small? && ClassIndex(table, size) <= s.cls else s.Large? && size <= s.recorded
  }

  lemma InPlaceHolds(table: seq<nat>, s: Span, size: nat)
    requires Built(table) && size > 0 && SpanOk(s) && StaysInPlace(table, s, size)
    ensures size <= Usable(s) <= Capacity(s)
  {
    TableIsExact(table, size);
    if size <= MAX_SMALL && ClassIndex(table, size) < s.cls { ClassesGrow(ClassIndex(table, size), s.cls); }
  }

  lemma SmallestFits(table: seq<nat>, size: nat, d: nat)
    requires Built(table) && 0 < size <= MAX_SMALL && d < CLASS_COUNT
    ensures ClassIndex(table, size) <= d <==> size <= CLASS_SIZES[d]
  {
    TableIsExact(table, size);
    var c := ClassIndex(table, size);
    hide *;
    assert Fits(size, c);
    FitsBelow(size, c, d);
  }

  lemma FitsBelow(size: nat, c: nat, d: nat)
    requires Fits(size, c) && d < CLASS_COUNT
    ensures c <= d <==> size <= CLASS_SIZES[d]
  {
    if c < d { ClassesGrow(c, d); }
  }

  /** In terms of sizes alone: a small block takes any request up to its class, a large one any large
      request up to its recorded size. */
  lemma InPlaceExactly(table: seq<nat>, s: Span, size: nat)
    requires Built(table) && size > 0 && SpanOk(s)
    ensures StaysInPlace(table, s, size) <==> if s.Small? then size <= CLASS_SIZES[s.cls] else MAX_SMALL < size <= s.recorded
  {
    if s.Small? {
      ClassIsItsStride(s.cls);
      if size <= MAX_SMALL { SmallestFits(table, size, s.cls); }
      hide Built, ClassIndex;
    }
  }

  /** A block that moves carries over all its bytes, or as many as the new size has room for. */
  lemma CarriesWhatFits(table: seq<nat>, s: Span, size: nat)
    requires Built(table) && size > 0 && SpanOk(s)
    ensures var n := Preserved(s, size);
      && n <= size && n <= (if s.Small? then Stride(s.cls) else s.recorded)
      && (n == size || n == (if s.Small? then Stride(s.cls) else s.recorded))
      && (size > MAX_SMALL && !StaysInPlace(table, s, size) ==> n == if s.Small? then Stride(s.cls) else s.recorded)
  {
    TableIsExact(table, size);
    if s.Small? { ClassIsItsStride(s.cls); }
  }

  // ---------------------------------------------------------------- the choices of one call

  /** What one call picks, writes and gives back, all of it beyond this model's control: the place of
      a new block, the words written on the way to it, the spans a free returns and the words it
      writes. */
  datatype Plan = Plan(pick: Pick, taking: seq<Write>, gone: set<nat>, giving: seq<Write>)

  ghost predicate TakeOk(m: Snap, s: Span, p: Plan) {
    PickOk(m, s, p.pick) && AllAllowed(|m.bytes|, m.spans, m.live, p.taking)
  }

  /** The memory at the moment a reallocation frees the old block, but for the bytes copied. */
  function AfterTaking(m: Snap, s: Span, p: Plan): Snap {
    Snap(m.bytes, SpansWith(m.spans, s, p.pick), LiveWith(m.live, s, p.pick))
  }

  /** The choices of a reallocation of `ptr` are ones the allocator may make. */
  ghost predicate PlanOk(m: Snap, table: seq<nat>, ptr: nat, size: nat, p: Plan)
    requires Built(table)
  {
    && (size > 0 ==> TakeOk(m, SpanFor(table, size), p))
    && (ptr != 0 && size == 0 ==> FreeOk(m, ptr, p.gone, p.giving))
    && (ptr != 0 && size > 0 ==> FreeOk(AfterTaking(m, SpanFor(table, size), p), ptr, p.gone, p.giving))
  }

  /** How many bytes a reallocation to `size` bytes carries over. */
  function Preserved(s: Span, size: nat): nat {
    if size < Usable(s) then size else Usable(s)
  }

  /** The first `n` bytes of block `q` in one memory are the first `n` of block `r` in the other. */
  predicate Carried(a: Snap, q: nat, b: Snap, r: nat, n: nat) {
    q + n <= |a.bytes| && r + n <= |b.bytes| && b.bytes[r..r + n] == a.bytes[q..q + n]
  }

  lemma KeptCarries(a: Snap, b: Snap, q: nat, n: nat)
    requires BlockKept(a, b, q) && n <= Capacity(SpanAt(a.spans, q))
    ensures Carried(a, q, b, q, n)
  {
    var m := Capacity(SpanAt(a.spans, q));
    assert a.bytes[q..q + n] == a.bytes[q..q + m][..n];
    assert b.bytes[q..q + n] == b.bytes[q..q + m][..n];
  }

  lemma KeptTwice(a: Snap, b: Snap, c: Snap, q: nat)
    requires BlockKept(a, b, q) && BlockKept(b, c, q)
    ensures BlockKept(a, c, q)
  {
  }

  /** New block, copy, free: the first `n` bytes of the old block are now in the new one, and every
      third block is as before. */
  lemma Moved(a: Snap, b: Snap, c: Snap, d: Snap, ptr: nat, r: nat, n: nat)
    requires SnapOk(a) && SnapOk(b) && Kept(a, b, 0) && ptr in a.live && ptr != 0 && r !in a.live && r in b.live
    requires SpanOf(ptr) in a.spans && SpanOf(r) in b.spans && n <= Capacity(SpanAt(a.spans, ptr)) && n <= Capacity(SpanAt(b.spans, r))
    requires ptr + n <= |b.bytes| && r + n <= |b.bytes| && c == Filled(b, r, b.bytes[ptr..ptr + n])
    requires Kept(b, c, r) && Kept(c, d, ptr) && SpanOf(r) in c.spans
    ensures Kept(a, d, ptr) && Carried(a, ptr, d, r, n)
    ensures SpanOf(r) in d.spans && SpanAt(d.spans, r) == SpanAt(b.spans, r)
  {
    ZeroIsNoBlock(a);
    assert BlockKept(a, b, ptr);
    KeptCarries(a, b, ptr, n);
    assert c.bytes[r..r + n] == b.bytes[ptr..ptr + n];
    assert BlockKept(c, d, r);
    KeptCarries(c, d, r, n);
    forall q | q in a.live && q != ptr ensures BlockKept(a, d, q) {
      assert q in b.live && q in c.live;
      KeptTwice(a, b, c, q);
      KeptTwice(a, c, d, q);
    }
  }

  lemma NothingChanges(m: Snap, p: nat)
    requires SnapOk(m)
    ensures Kept(m, m, p)
  {
    forall q | q in m.live && q != p ensures BlockKept(m, m, q) {
      BlockInSpan(|m.bytes|, m.spans, q);
    }
  }

  lemma ZeroIsNoBlock(m: Snap)
    requires SnapOk(m)
    ensures 0 !in m.live
  {
    forall p | p in m.live ensures p != 0 {
      BlockInSpan(|m.bytes|, m.spans, p);
    }
  }

  /** The two blocks of a move, one of them new, are in the memory and apart. */
  lemma ReadyToCopy(a: Snap, b: Snap, ptr: nat, r: nat, n: nat)
    requires SnapOk(a) && SnapOk(b) && Kept(a, b, 0) && ptr in a.live && r !in a.live && r in b.live
    requires SpanOf(ptr) in a.spans && SpanOf(r) in b.spans && n <= Capacity(SpanAt(a.spans, ptr)) && n <= Capacity(SpanAt(b.spans, r))
    ensures ptr + n <= |b.bytes| && r + n <= |b.bytes| && Apart(r, n, ptr, n)
  {
    InUse(a, ptr);
    assert BlockKept(a, b, ptr);
    BlockInSpan(|b.bytes|, b.spans, ptr);
    BlockInSpan(|b.bytes|, b.spans, r);
    BlocksApart(|b.bytes|, b.spans, r, ptr);
  }

  lemma InUse(m: Snap, p: nat)
    requires SnapOk(m) && p in m.live
    ensures p != 0 && SpanOf(p) in m.spans && SpanOk(SpanAt(m.spans, p)) && p + Capacity(SpanAt(m.spans, p)) <= |m.bytes|
  {
    BlockInSpan(|m.bytes|, m.spans, p);
  }

  /** The first `i` bytes at `src` have arrived at `dst`, and nothing else has changed. */
  ghost predicate Copied(a: seq<int>, b: seq<int>, dst: nat, src: nat, i: nat) {
    && |a| == |b| && dst + i <= |a| && src + i <= |a|
    && forall x {:trigger b[x]} :: 0 <= x < |a| ==> b[x] == if dst <= x < dst + i then a[src + x - dst] else a[x]
  }

  lemma CopiedIsOverwritten(a: seq<int>, b: seq<int>, dst: nat, src: nat, n: nat)
    requires Copied(a, b, dst, src, n)
    ensures b == Overwrite(a, dst, a[src..src + n])
  {
  }

  /** The free of a move is allowed on the copied memory too: it does not look at the bytes. */
  lemma CopyKeepsPlan(m: Snap, n: Snap, p: nat, gone: set<nat>, ws: seq<Write>)
    requires FreeOk(m, p, gone, ws) && |n.bytes| == |m.bytes| && n.spans == m.spans && n.live == m.live
    ensures FreeOk(n, p, gone, ws)
  {
  }

  class Memory {
    const bytes: array<int>
    const table: seq<nat>
    var spans: Spans
    ghost var live: set<nat>

    ghost function Now(): Snap
      reads this, bytes
    {
      Snap(bytes[..], spans, live)
    }

    ghost predicate Valid()
      reads this, bytes
    {
      Built(table) && SnapOk(Now())
    }

    method Write(at: nat, data: seq<int>)
      requires at + |data| <= bytes.Length
      modifies bytes
      ensures bytes[..] == Overwrite(old(bytes[..]), at, data)
    {
      for i := 0 to |data|
        invariant forall j :: 0 <= j < i ==> bytes[at + j] == data[j]
        invariant forall x :: 0 <= x < bytes.Length && !(at <= x < at + i) ==> bytes[x] == old(bytes[x])
      {
        bytes[at + i] := data[i];
      }
      assert bytes[at..at + |data|] == data;
      assert bytes[..] == bytes[..at] + bytes[at..at + |data|] + bytes[at + |data|..];
    }

    method Store(ws: seq<Write>)
      requires InRange(bytes.Length, ws)
      modifies bytes
      ensures bytes[..] == WriteAll(old(bytes[..]), ws)
    {
      for k := 0 to |ws|
        invariant WriteAll(bytes[..], ws[k..]) == WriteAll(old(bytes[..]), ws)
      {
        Write(ws[k].at, ws[k].data);
        assert ws[k..][0] == ws[k] && ws[k..][1..] == ws[k + 1..];
      }
    }

    /** memcpy between blocks that do not overlap. */
    method Copy(dst: nat, src: nat, n: nat)
      requires dst + n <= bytes.Length && src + n <= bytes.Length && Apart(dst, n, src, n)
      modifies bytes
      ensures bytes[..] == Overwrite(old(bytes[..]), dst, old(bytes[src..src + n]))
    {
      ghost var before := bytes[..];
      for i := 0 to n
        invariant Copied(before, bytes[..], dst, src, i)
      {
        bytes[dst + i] := bytes[src + i];
      }
      CopiedIsOverwritten(before, bytes[..], dst, src, n);
    }

    /** memop_alloc_raw: 0 for an empty request, and when there is no memory. */
    method Alloc(size: nat, p: Plan) returns (r: nat)
      requires Valid() && NoWrap(size) && (size > 0 ==> TakeOk(Now(), SpanFor(table, size), p))
      modifies this, bytes
      ensures Valid() && Kept(old(Now()), Now(), 0)
      ensures size == 0 ==> r == 0 && Now() == old(Now())
      ensures size > 0 ==>
                && r == Pointer(SpanFor(table, size), p.pick) && InRange(bytes.Length, p.taking)
                && Now() == Allocated(old(Now()), SpanFor(table, size), p.pick, p.taking)
      ensures r == 0 <==> size == 0 || p.pick.Nowhere?
      ensures r == 0 ==> live == old(live) && spans == old(spans)
      ensures r != 0 ==> r !in old(live) && live == old(live) + {r} && SpanOf(r) in spans && SpanAt(spans, r) == SpanFor(table, size)
    {
      NothingChanges(Now(), 0);
      if size == 0 { return 0; }
      var s := SpanFor(table, size);
      AllocKeeps(Now(), s, p.pick, p.taking);
      Store(p.taking);
      spans := SpansWith(spans, s, p.pick);
      live := LiveWith(live, s, p.pick);
      r := Pointer(s, p.pick);
    }

    /** memop_free_raw. */
    method Free(ptr: nat, p: Plan)
      requires Valid() && (ptr == 0 || FreeOk(Now(), ptr, p.gone, p.giving))
      modifies this, bytes
      ensures Valid() && Kept(old(Now()), Now(), ptr)
      ensures ptr == 0 ==> Now() == old(Now())
      ensures ptr != 0 ==> InRange(bytes.Length, p.giving) && Now() == Freed(old(Now()), ptr, p.gone, p.giving)
      ensures live == old(live) - {ptr}
    {
      NothingChanges(Now(), 0);
      if ptr == 0 {
        ZeroIsNoBlock(Now());
        return;
      }
      FreeKeeps(Now(), ptr, p.gone, p.giving);
      Store(p.giving);
      spans := spans - p.gone;
      live := live - {ptr};
    }

    method FindClass(size: nat) returns (c: int)
      requires Built(table)
      ensures c == ClassIndex(table, size) && (c >= 0 <==> 1 <= size <= MAX_SMALL)
    {
      c := ClassIndex(table, size);
      TableIsExact(table, size);
    }

    /** The general path of memop_realloc_raw: a new block, a copy, and the old block freed. */
    method Move(ptr: nat, size: nat, p: Plan) returns (r: nat)
      requires Valid() && NoWrap(size) && size > 0 && ptr in live && PlanOk(Now(), table, ptr, size, p)
      modifies this, bytes
      ensures Valid() && Kept(old(Now()), Now(), if p.pick.Nowhere? then 0 else ptr)
      ensures r == Pointer(SpanFor(table, size), p.pick)
      ensures r == 0 <==> p.pick.Nowhere?
      ensures r == 0 ==> live == old(live) && spans == old(spans)
      ensures r != 0 ==> r !in old(live) && live == old(live) - {ptr} + {r} && SpanOf(r) in spans && SpanAt(spans, r) == SpanFor(table, size)
      ensures r != 0 ==>
                SpanOf(ptr) in old(spans) && Carried(old(Now()), ptr, Now(), r, Preserved(SpanAt(old(spans), ptr), size))
    {
      hide Built, SpanFor, SnapOk, Kept, FreeOk, TakeOk, BlockKept, SpansWith, LiveWith, WriteAll;
      ghost var a := Now();
      var s := SpanFor(table, size);
      BlockHolds(table, size);
      InUse(a, ptr);
      var n := Preserved(spans[SpanOf(ptr)], size);
      r := Alloc(size, p);
      ghost var b := Now();
      if r == 0 { return; }
      ReadyToCopy(a, b, ptr, r, n);
      Copy(r, ptr, n);
      ghost var c := Now();
      FillKeeps(b, r, b.bytes[ptr..ptr + n]);
      CopyKeepsPlan(AfterTaking(a, s, p), c, ptr, p.gone, p.giving);
      Free(ptr, p);
      Moved(a, b, c, Now(), ptr, r, n);
    }

    /** memop_realloc_raw of a block in use to a new size. */
    method Resize(ptr: nat, size: nat, p: Plan) returns (r: nat)
      requires Valid() && NoWrap(size) && size > 0 && ptr in live && SpanOf(ptr) in spans && PlanOk(Now(), table, ptr, size, p)
      modifies this, bytes
      ensures Valid() && Kept(old(Now()), Now(), if r == 0 then 0 else ptr)
      ensures StaysInPlace(table, SpanAt(old(spans), ptr), size) ==> r == ptr && Now() == old(Now())
      ensures !StaysInPlace(table, SpanAt(old(spans), ptr), size) ==>
                r == Pointer(SpanFor(table, size), p.pick) && (r == 0 <==> p.pick.Nowhere?)
      ensures r == 0 ==> live == old(live) && spans == old(spans)
      ensures r != 0 && r != ptr ==>
                && r !in old(live) && live == old(live) - {ptr} + {r}
                && SpanOf(r) in spans && SpanAt(spans, r) == SpanFor(table, size)
                && Carried(old(Now()), ptr, Now(), r, Preserved(SpanAt(old(spans), ptr), size))
      ensures r == ptr ==> StaysInPlace(table, SpanAt(old(spans), ptr), size)
      ensures r != 0 ==> SpanOf(r) in spans && size <= Capacity(SpanAt(spans, r))
      ensures r != 0 && size <= TWO32 - HEADER ==> SpanOf(r) in spans && size <= Usable(SpanAt(spans, r))
    {
      hide Built, SpanFor, SnapOk, Kept, FreeOk, TakeOk, BlockKept, SpansWith, LiveWith, WriteAll, Capacity, Usable;
      NothingChanges(Now(), ptr);
      BlockHolds(table, size);
      InUse(Now(), ptr);
      var s := spans[SpanOf(ptr)];
      var cls := FindClass(size);
      if s.Small? && cls >= 0 {
        if cls <= s.cls {
          InPlaceHolds(table, s, size);
          return ptr;
        }
      } else if s.Large? && cls < 0 {
        if size <= s.recorded {
          InPlaceHolds(table, s, size);
          return ptr;
        }
      }
      r := Move(ptr, size, p);
    }

    /** memop_realloc_raw. */
    method Realloc(ptr: nat, size: nat, p: Plan) returns (r: nat)
      requires Valid() && NoWrap(size) && (ptr != 0 ==> ptr in live && SpanOf(ptr) in spans) && PlanOk(Now(), table, ptr, size, p)
      modifies this, bytes
      ensures Valid()
      // No other block in use is touched: not its header, not its bytes.
      ensures Kept(old(Now()), Now(), ptr)
      // realloc(p, 0) is free.
      ensures size == 0 ==> r == 0 && live == old(live) - {ptr}
      // A failure takes no block away, and leaves the old one as it was too.
      ensures r == 0 && size > 0 ==> p.pick.Nowhere? && live == old(live) && spans == old(spans) && Kept(old(Now()), Now(), 0)
      // realloc(NULL, n) is alloc.
      ensures ptr == 0 && size > 0 && r != 0 ==>
                && r == Pointer(SpanFor(table, size), p.pick) && r !in old(live) && live == old(live) + {r}
                && SpanOf(r) in spans && SpanAt(spans, r) == SpanFor(table, size)
      // A block that fits stays where it is, and nothing at all is written.
      ensures ptr != 0 && size > 0 && StaysInPlace(table, SpanAt(old(spans), ptr), size) ==> r == ptr && Now() == old(Now())
      // Otherwise the block moves, and its contents move with it.
      ensures ptr != 0 && size > 0 && !StaysInPlace(table, SpanAt(old(spans), ptr), size) && !p.pick.Nowhere? ==>
                && r == Pointer(SpanFor(table, size), p.pick) && r !in old(live) && live == old(live) - {ptr} + {r}
                && SpanOf(r) in spans && SpanAt(spans, r) == SpanFor(table, size)
                && Carried(old(Now()), ptr, Now(), r, Preserved(SpanAt(old(spans), ptr), size))
      // The result holds the new size, up to the 32 bits of its recorded size.
      ensures r != 0 ==> r in live && SpanOf(r) in spans && size <= Capacity(SpanAt(spans, r))
      ensures r != 0 && size <= TWO32 - HEADER ==> SpanOf(r) in spans && size <= Usable(SpanAt(spans, r))
    {
      hide Built, SpanFor, SnapOk, Kept, FreeOk, TakeOk, BlockKept, SpansWith, LiveWith, WriteAll, Capacity, Usable;
      ghost var a := Now();
      if size > 0 { BlockHolds(table, size); }
      if ptr == 0 {
        r := Alloc(size, p);
        ZeroIsNoBlock(a);
        return;
      }
      if size == 0 {
        Free(ptr, p);
        return 0;
      }
      r := Resize(ptr, size, p);
      if r == 0 { KeptMore(a, Now(), ptr); }
    }
  }

  lemma KeptMore(a: Snap, b: Snap, p: nat)
    requires SnapOk(a) && Kept(a, b, 0)
    ensures Kept(a, b, p)
  {
    ZeroIsNoBlock(a);
  }
}
