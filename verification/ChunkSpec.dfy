/** The 64 KB chunks of the allocator: who holds each one, the 4 MB segments they are cut from, the
    cache per thread and the shared cache, and the purge that gives idle segments back. One step is
    one section under cache_lock or one access of a thread to its own cache, so every interleaving
    of threads is a sequence of steps. */
module ChunkSpec {

  const SEG_SPANS: nat := 64
  const HEAP_CACHE_MAX: nat := 64
  const PURGE_DELAY: nat := 500
  const PURGE_PERIOD: nat := 100
  const PURGE_HIGH: nat := 1024
  const PURGE_LOW: nat := 512

  /** Addresses in units of 64 KB: segment `s` holds the chunks 64s to 64s + 63, and chunk 64s is
      its header. */
  type Chunk = nat

  function SegOf(c: Chunk): nat {
    c / SEG_SPANS
  }

  function Index(c: Chunk): nat {
    c % SEG_SPANS
  }

  function ChunkAt(s: nat, i: nat): (c: Chunk)
    requires i < SEG_SPANS
    ensures SegOf(c) == s && Index(c) == i
  {
    SEG_SPANS * s + i
  }

  datatype Place = Cached | Local(heap: nat) | Draining(heap: nat) | Used

  datatype Seg = Seg(nextChunk: nat, live: nat, idleSince: nat)

  /** The chunks a thread caches, and those it is moving to the shared cache as it ends. */
  datatype Heap = Heap(local: seq<Chunk>, count: int, draining: seq<Chunk>)

  /** `unlinked` are segments a thread has mapped and not linked yet. `place` and `peak` are history:
      where each chunk handed out so far is, and the largest cache count the purge evaluated. */
  datatype Mem = Mem(
    segments: seq<nat>, unlinked: set<nat>, headers: map<nat, Seg>,
    cache: seq<Chunk>, cacheCount: int, heaps: seq<Heap>,
    avg: int, purging: bool, lastPurge: nat, purges: nat, clock: nat,
    place: map<Chunk, Place>, peak: int)

  // ---------------------------------------------------------------- the purge

  /** Walks the segments: which are kept, which are condemned. */
  function Condemn(segs: seq<nat>, headers: map<nat, Seg>, now: nat, force: bool, target: int): (r: (seq<nat>, seq<nat>))
    requires forall i {:trigger segs[i]} :: 0 <= i < |segs| ==> segs[i] in headers
    decreases |segs|
  {
    if segs == [] || !(force || target > 0) then (segs, []) else
    var g := headers[segs[0]];
    if g.live == 0 && (force || now - g.idleSince >= PURGE_DELAY) then
      var r := Condemn(segs[1..], headers, now, force, if force then target else target - (g.nextChunk - 1));
      (r.0, [segs[0]] + r.1)
    else
      var r := Condemn(segs[1..], headers, now, force, target);
      ([segs[0]] + r.0, r.1)
  }

  /** The cached chunks that are not in a condemned segment, in order. */
  function Surviving(cache: seq<Chunk>, doomed: seq<nat>): seq<Chunk> {
    if cache == [] then []
    else if SegOf(cache[0]) in doomed then Surviving(cache[1..], doomed)
    else [cache[0]] + Surviving(cache[1..], doomed)
  }

  function Without(headers: map<nat, Seg>, doomed: seq<nat>): map<nat, Seg> {
    map s | s in headers && s !in doomed :: headers[s]
  }

  function Remaining(place: map<Chunk, Place>, doomed: seq<nat>): map<Chunk, Place> {
    map c | c in place && SegOf(c) !in doomed :: place[c]
  }

  ghost predicate Linked(m: Mem) {
    forall i {:trigger m.segments[i]} :: 0 <= i < |m.segments| ==> m.segments[i] in m.headers
  }

  function PurgeApply(m: Mem, now: nat, force: bool, target: int): Mem
    requires Linked(m)
  {
    var r := Condemn(m.segments, m.headers, now, force, target);
    var cache := Surviving(m.cache, r.1);
    m.(segments := r.0,
       headers := Without(m.headers, r.1),
       cache := cache, cacheCount := m.cacheCount - (|m.cache| - |cache|),
       purges := m.purges + |r.1|,
       place := Remaining(m.place, r.1))
  }

  /** C division of a difference by four, which truncates toward zero. */
  function Quarter(x: int): int {
    if x >= 0 then x / 4 else -((-x) / 4)
  }

  function Max(x: int, y: int): int {
    if x < y then y else x
  }

  /** The periodic evaluation: smoothed cache size, hysteresis, and a purge down to LOW. */
  function Evaluate(m: Mem, now: nat): Mem
    requires Linked(m)
  {
    if now - m.lastPurge < PURGE_PERIOD then m else
    var avg := m.avg + Quarter(m.cacheCount - m.avg);
    var e := m.(lastPurge := now, avg := avg, peak := Max(m.peak, m.cacheCount));
    if !m.purging && avg <= PURGE_HIGH then e
    else if m.purging && avg < PURGE_LOW then e.(purging := false)
    else
      var p := e.(purging := true);
      if m.cacheCount - PURGE_LOW > 0 then PurgeApply(p, now, false, m.cacheCount - PURGE_LOW) else p
  }

  // ---------------------------------------------------------------- the steps

  datatype Step =
    | NewHeap
    | Acquire(h: nat)                       // chunk_acquire up to the end of its locked section
    | MapSegment(s: nat)                    // the system maps segment s; its chunk 1 is handed out
    | LinkSegment(s: nat)                   // the locked section that links it
    | Release(h: nat, c: Chunk, dt: nat)    // chunk_release; h is no heap when h >= |heaps|
    | StartDrain(h: nat)                    // chunk_local_to_global empties the thread's cache
    | DrainOne(h: nat, dt: nat)             // and releases one chunk of it
    | Trim(dt: nat)                         // memop_purge

  function TakeLocal(m: Mem, h: nat): Mem
    requires h < |m.heaps| && m.heaps[h].local != []
  {
    var p := m.heaps[h];
    m.(heaps := m.heaps[h := p.(local := p.local[1..], count := p.count - 1)],
       place := m.place[p.local[0] := Used])
  }

  function TakeCached(m: Mem): Mem
    requires m.cache != [] && SegOf(m.cache[0]) in m.headers
  {
    var c := m.cache[0];
    var g := m.headers[SegOf(c)];
    m.(cache := m.cache[1..], cacheCount := m.cacheCount - 1,
       headers := m.headers[SegOf(c) := g.(live := g.live + 1)],
       place := m.place[c := Used])
  }

  predicate CanBump(m: Mem) {
    m.segments != [] && m.segments[0] in m.headers && m.headers[m.segments[0]].nextChunk < SEG_SPANS
  }

  function Bump(m: Mem): Mem
    requires CanBump(m)
  {
    var s := m.segments[0];
    var g := m.headers[s];
    m.(headers := m.headers[s := g.(nextChunk := g.nextChunk + 1, live := g.live + 1)],
       place := m.place[ChunkAt(s, g.nextChunk) := Used])
  }

  function Map(m: Mem, s: nat): Mem {
    m.(unlinked := m.unlinked + {s}, headers := m.headers[s := Seg(2, 1, 0)], place := m.place[ChunkAt(s, 1) := Used])
  }

  function Link(m: Mem, s: nat): Mem {
    m.(unlinked := m.unlinked - {s}, segments := [s] + m.segments)
  }

  function GiveLocal(m: Mem, h: nat, c: Chunk): Mem
    requires h < |m.heaps|
  {
    var p := m.heaps[h];
    m.(heaps := m.heaps[h := p.(local := [c] + p.local, count := p.count + 1)], place := m.place[c := Local(h)])
  }

  /** The locked section of chunk_release before the purge: the chunk joins the shared cache, and
      its segment may become idle. */
  function PutInCache(m: Mem, c: Chunk, now: nat): Mem
    requires SegOf(c) in m.headers
  {
    var g := m.headers[SegOf(c)];
    var live := if g.live > 0 then g.live - 1 else 0;
    m.(cache := [c] + m.cache, cacheCount := m.cacheCount + 1, clock := now,
       headers := m.headers[SegOf(c) := g.(live := live, idleSince := if live == 0 then now else g.idleSince)],
       place := m.place[c := Cached])
  }

  function GiveShared(m: Mem, c: Chunk, now: nat): Mem
    requires SegOf(c) in m.headers && Linked(m)
  {
    var p := PutInCache(m, c, now);
    if p.headers[SegOf(c)].live == 0 then Evaluate(p, now) else p
  }

  function Drain(m: Mem, h: nat): Mem
    requires h < |m.heaps|
  {
    var p := m.heaps[h];
    m.(heaps := m.heaps[h := Heap([], 0, p.local)],
       place := map c | c in m.place :: if m.place[c] == Local(h) then Draining(h) else m.place[c])
  }

  function PopDraining(m: Mem, h: nat): Mem
    requires h < |m.heaps| && m.heaps[h].draining != []
  {
    var p := m.heaps[h];
    m.(heaps := m.heaps[h := p.(draining := p.draining[1..])], place := m.place[p.draining[0] := Used])
  }

  /** One step; a step that is not possible changes nothing. */
  ghost function Next(m: Mem, step: Step): Mem {
    if !Linked(m) then m else
    match step
    case NewHeap => m.(heaps := m.heaps + [Heap([], 0, [])])
    case Acquire(h) =>
      if h < |m.heaps| && m.heaps[h].local != [] then TakeLocal(m, h)
      else if m.cache != [] && SegOf(m.cache[0]) in m.headers then TakeCached(m)
      else if m.cache == [] && CanBump(m) then Bump(m)
      else m
    case MapSegment(s) => if s !in m.headers then Map(m, s) else m
    case LinkSegment(s) => if s in m.unlinked then Link(m, s) else m
    case Release(h, c, dt) =>
      if c !in m.place || m.place[c] != Used || SegOf(c) !in m.headers then m
      else if h < |m.heaps| && m.heaps[h].count < HEAP_CACHE_MAX then GiveLocal(m, h, c)
      else GiveShared(m, c, m.clock + dt)
    case StartDrain(h) => if h < |m.heaps| && m.heaps[h].draining == [] then Drain(m, h) else m
    case DrainOne(h, dt) =>
      if h < |m.heaps| && m.heaps[h].draining != [] && SegOf(m.heaps[h].draining[0]) in m.headers
      then GiveShared(PopDraining(m, h), m.heaps[h].draining[0], m.clock + dt) else m
    case Trim(dt) => PurgeApply(m.(clock := m.clock + dt), m.clock + dt, true, 0)
  }

  // ---------------------------------------------------------------- invariant

  ghost predicate Distinct<T>(xs: seq<T>) {
    forall i, j :: 0 <= i < j < |xs| ==> xs[i] != xs[j]
  }

  predicate Held(place: map<Chunk, Place>, c: Chunk) {
    c in place && place[c] != Cached
  }

  /** How many of the chunks 1 to n - 1 of segment `s` are outside the shared cache. */
  function CountHeld(place: map<Chunk, Place>, s: nat, n: nat): nat
    requires n <= SEG_SPANS
  {
    if n <= 1 then 0 else CountHeld(place, s, n - 1) + if Held(place, ChunkAt(s, n - 1)) then 1 else 0
  }

  /** How many of the listed chunks belong to segment `s`. */
  function CountIn(xs: seq<Chunk>, s: nat): nat {
    if xs == [] then 0 else (if SegOf(xs[0]) == s then 1 else 0) + CountIn(xs[1..], s)
  }

  /** The list holds each chunk whose place is `p`, once. */
  ghost predicate ListOk(xs: seq<Chunk>, place: map<Chunk, Place>, p: Place) {
    Distinct(xs) && forall c {:trigger c in xs} {:trigger place[c]} :: c in xs <==> c in place && place[c] == p
  }

  ghost predicate SegmentsOk(m: Mem) {
    && Distinct(m.segments)
    && (forall s {:trigger s in m.segments} {:trigger s in m.unlinked} {:trigger s in m.headers} ::
          (s in m.headers <==> s in m.segments || s in m.unlinked) && !(s in m.segments && s in m.unlinked))
  }

  /** What the header of one segment counts. */
  ghost predicate HeaderOk(m: Mem, s: nat)
    requires s in m.headers
  {
    var g := m.headers[s];
    && 2 <= g.nextChunk <= SEG_SPANS && g.idleSince <= m.clock
    && g.live == CountHeld(m.place, s, SEG_SPANS)
    && g.live + CountIn(m.cache, s) == g.nextChunk - 1
  }

  ghost predicate HeadersOk(m: Mem) {
    forall s {:trigger m.headers[s]} :: s in m.headers ==> HeaderOk(m, s)
  }

  /** The chunks handed out so far are those below the mark of each mapped segment. */
  ghost predicate PlacesOk(m: Mem) {
    forall c {:trigger c in m.place} ::
      c in m.place <==> SegOf(c) in m.headers && 1 <= Index(c) < m.headers[SegOf(c)].nextChunk
  }

  ghost predicate HeapOk(m: Mem, h: nat)
    requires h < |m.heaps|
  {
    && ListOk(m.heaps[h].local, m.place, Local(h))
    && ListOk(m.heaps[h].draining, m.place, Draining(h))
    && m.heaps[h].count == |m.heaps[h].local| <= HEAP_CACHE_MAX
  }

  ghost predicate ListsOk(m: Mem) {
    && ListOk(m.cache, m.place, Cached)
    && m.cacheCount == |m.cache|
    && (forall h: nat {:trigger m.heaps[h]} :: h < |m.heaps| ==> HeapOk(m, h))
    && (forall c {:trigger m.place[c]} :: c in m.place && (m.place[c].Local? || m.place[c].Draining?) ==> m.place[c].heap < |m.heaps|)
  }

  predicate PurgeOk(m: Mem) {
    0 <= m.avg <= m.peak && m.lastPurge <= m.clock && (m.purging ==> m.peak > PURGE_HIGH)
  }

  ghost predicate Inv(m: Mem) {
    SegmentsOk(m) && HeadersOk(m) && PlacesOk(m) && ListsOk(m) && PurgeOk(m)
  }

  ghost predicate Init(m: Mem) {
    && m.segments == [] && m.unlinked == {} && m.headers == map[] && m.place == map[]
    && m.cache == [] && m.cacheCount == 0 && m.heaps == []
    && m.avg == 0 && m.peak == 0 && !m.purging && m.lastPurge == 0
  }
}
