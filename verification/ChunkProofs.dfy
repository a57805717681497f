/** Every step of every thread keeps the chunk accounting, and what follows for the purge. */
module ChunkProofs {
  import opened ChunkSpec
  import opened ChunkLists

  // ---------------------------------------------------------------- moving one chunk

  /** A chunk that stays outside, or stays inside, the shared cache changes no header. */
  lemma HeadersIgnore(m: Mem, n: Mem, c: Chunk, q: Place)
    requires HeadersOk(m) && n.headers == m.headers && n.cache == m.cache && n.clock >= m.clock
    requires c in m.place && m.place[c] != Cached && q != Cached && n.place == m.place[c := q]
    ensures HeadersOk(n)
  {
    forall s | s in n.headers ensures HeaderOk(n, s) {
      assert HeaderOk(m, s);
      CountMove(m.place, c, q, s, SEG_SPANS);
    }
  }

  lemma PlacesKeep(m: Mem, n: Mem)
    requires PlacesOk(m) && n.place.Keys == m.place.Keys && n.headers.Keys == m.headers.Keys
    requires forall s {:trigger n.headers[s]} :: s in n.headers ==> n.headers[s].nextChunk == m.headers[s].nextChunk
    ensures PlacesOk(n)
  {
    forall c ensures c in n.place <==> SegOf(c) in n.headers && 1 <= Index(c) < n.headers[SegOf(c)].nextChunk {
      assert c in m.place <==> SegOf(c) in m.headers && 1 <= Index(c) < m.headers[SegOf(c)].nextChunk;
    }
  }

  lemma HeapIgnores(m: Mem, n: Mem, c: Chunk, q: Place, h: nat)
    requires ListsOk(m) && h < |m.heaps| == |n.heaps| && n.heaps[h] == m.heaps[h]
    requires n.place == m.place[c := q] && q != Local(h) && q != Draining(h)
    requires c in m.place ==> m.place[c] != Local(h) && m.place[c] != Draining(h)
    ensures HeapOk(n, h)
  {
    assert HeapOk(m, h);
    MovesElsewhere(m.heaps[h].local, m.place, Local(h), c, q);
    MovesElsewhere(m.heaps[h].draining, m.place, Draining(h), c, q);
  }

  lemma TakeLocalKeeps(m: Mem, h: nat)
    requires Inv(m) && h < |m.heaps| && m.heaps[h].local != []
    ensures Inv(TakeLocal(m, h))
  {
    var n, c := TakeLocal(m, h), m.heaps[h].local[0];
    assert HeapOk(m, h);
    PopOk(m.heaps[h].local, m.place, Local(h), Used);
    HeadersIgnore(m, n, c, Used);
    assert n.place.Keys == m.place.Keys;
    PlacesKeep(m, n);
    MovesElsewhere(m.cache, m.place, Cached, c, Used);
    MovesElsewhere(m.heaps[h].draining, m.place, Draining(h), c, Used);
    forall j: nat | j < |n.heaps| ensures HeapOk(n, j) {
      if j != h { HeapIgnores(m, n, c, Used, j); }
    }
  }

  lemma GiveLocalKeeps(m: Mem, h: nat, c: Chunk)
    requires Inv(m) && h < |m.heaps| && m.heaps[h].count < HEAP_CACHE_MAX && c in m.place && m.place[c] == Used
    ensures Inv(GiveLocal(m, h, c))
  {
    var n := GiveLocal(m, h, c);
    assert HeapOk(m, h);
    PushOk(m.heaps[h].local, m.place, c, Local(h));
    HeadersIgnore(m, n, c, Local(h));
    assert n.place.Keys == m.place.Keys;
    PlacesKeep(m, n);
    MovesElsewhere(m.cache, m.place, Cached, c, Local(h));
    MovesElsewhere(m.heaps[h].draining, m.place, Draining(h), c, Local(h));
    forall j: nat | j < |n.heaps| ensures HeapOk(n, j) {
      if j != h { HeapIgnores(m, n, c, Local(h), j); }
    }
  }

  lemma PopDrainingKeeps(m: Mem, h: nat)
    requires Inv(m) && h < |m.heaps| && m.heaps[h].draining != []
    ensures var c := m.heaps[h].draining[0];
      Inv(PopDraining(m, h)) && c in m.place && PopDraining(m, h).place[c] == Used
  {
    var n, c := PopDraining(m, h), m.heaps[h].draining[0];
    assert HeapOk(m, h);
    PopOk(m.heaps[h].draining, m.place, Draining(h), Used);
    HeadersIgnore(m, n, c, Used);
    assert n.place.Keys == m.place.Keys;
    PlacesKeep(m, n);
    MovesElsewhere(m.cache, m.place, Cached, c, Used);
    MovesElsewhere(m.heaps[h].local, m.place, Local(h), c, Used);
    forall j: nat | j < |n.heaps| ensures HeapOk(n, j) {
      if j != h { HeapIgnores(m, n, c, Used, j); }
    }
  }

  // ---------------------------------------------------------------- in and out of the shared cache

  lemma CachedIsMapped(m: Mem)
    requires Inv(m) && m.cache != []
    ensures m.cache[0] in m.place && m.place[m.cache[0]] == Cached && SegOf(m.cache[0]) in m.headers
  {
    assert m.cache[0] in m.cache;
  }

  lemma TakeCachedKeeps(m: Mem)
    requires Inv(m) && m.cache != [] && SegOf(m.cache[0]) in m.headers
    ensures Inv(TakeCached(m))
  {
    var n, c := TakeCached(m), m.cache[0];
    CachedIsMapped(m);
    PopOk(m.cache, m.place, Cached, Used);
    forall s | s in n.headers ensures HeaderOk(n, s) {
      assert HeaderOk(m, s);
      CountMove(m.place, c, Used, s, SEG_SPANS);
    }
    assert n.place.Keys == m.place.Keys && n.headers.Keys == m.headers.Keys;
    PlacesKeep(m, n);
    forall j: nat | j < |n.heaps| ensures HeapOk(n, j) {
      HeapIgnores(m, n, c, Used, j);
    }
  }

  /** A used chunk is counted in its segment, so the guard on the decrement never fires. */
  lemma UsedIsLive(m: Mem, c: Chunk)
    requires Inv(m) && c in m.place && m.place[c] != Cached
    ensures SegOf(c) in m.headers && m.headers[SegOf(c)].live > 0
  {
    assert HeaderOk(m, SegOf(c));
    HeldIsCounted(m.place, c, SEG_SPANS);
  }

  lemma PutInCacheHeader(m: Mem, c: Chunk, now: nat, s: nat)
    requires HeadersOk(m) && c in m.place && m.place[c] == Used && SegOf(c) in m.headers && now >= m.clock && s in m.headers
    requires m.headers[SegOf(c)].live > 0 && 1 <= Index(c)
    ensures s in PutInCache(m, c, now).headers && HeaderOk(PutInCache(m, c, now), s)
  {
    assert HeaderOk(m, s);
    CountMove(m.place, c, Cached, s, SEG_SPANS);
    assert ([c] + m.cache)[1..] == m.cache;
  }

  lemma PutInCacheKeeps(m: Mem, c: Chunk, now: nat)
    requires Inv(m) && c in m.place && m.place[c] == Used && SegOf(c) in m.headers && now >= m.clock
    ensures Inv(PutInCache(m, c, now))
  {
    var n := PutInCache(m, c, now);
    UsedIsLive(m, c);
    PushOk(m.cache, m.place, c, Cached);
    forall s | s in n.headers ensures HeaderOk(n, s) {
      PutInCacheHeader(m, c, now, s);
    }
    assert n.place.Keys == m.place.Keys && n.headers.Keys == m.headers.Keys;
    PlacesKeep(m, n);
    forall j: nat | j < |n.heaps| ensures HeapOk(n, j) {
      HeapIgnores(m, n, c, Cached, j);
    }
  }

  // ---------------------------------------------------------------- new chunks

  lemma NewChunkLists(m: Mem, n: Mem, c: Chunk)
    requires ListsOk(m) && c !in m.place && n.place == m.place[c := Used]
    requires n.cache == m.cache && n.cacheCount == m.cacheCount && n.heaps == m.heaps
    ensures ListsOk(n)
  {
    MovesElsewhere(m.cache, m.place, Cached, c, Used);
    forall j: nat | j < |n.heaps| ensures HeapOk(n, j) {
      HeapIgnores(m, n, c, Used, j);
    }
  }

  lemma BumpKeeps(m: Mem)
    requires Inv(m) && CanBump(m)
    ensures Inv(Bump(m))
  {
    var n, s0 := Bump(m), m.segments[0];
    var c := ChunkAt(s0, m.headers[s0].nextChunk);
    assert HeaderOk(m, s0);
    assert c !in m.place;
    NewChunkLists(m, n, c);
    forall s | s in n.headers ensures HeaderOk(n, s) {
      assert HeaderOk(m, s);
      CountMove(m.place, c, Used, s, SEG_SPANS);
    }
    forall x ensures x in n.place <==> SegOf(x) in n.headers && 1 <= Index(x) < n.headers[SegOf(x)].nextChunk {
      Address(x);
      assert x in m.place <==> SegOf(x) in m.headers && 1 <= Index(x) < m.headers[SegOf(x)].nextChunk;
    }
  }

  lemma MapKeeps(m: Mem, s: nat)
    requires Inv(m) && s !in m.headers
    ensures Inv(Map(m, s))
  {
    var n, c := Map(m, s), ChunkAt(s, 1);
    assert c !in m.place;
    NewChunkLists(m, n, c);
    forall t | t in n.headers ensures HeaderOk(n, t) {
      CountMove(m.place, c, Used, t, SEG_SPANS);
      if t == s {
        EmptySegment(m.place, s, SEG_SPANS);
        NotListed(m.cache, s);
      } else {
        assert HeaderOk(m, t);
      }
    }
    forall x ensures x in n.place <==> SegOf(x) in n.headers && 1 <= Index(x) < n.headers[SegOf(x)].nextChunk {
      Address(x);
      assert x in m.place <==> SegOf(x) in m.headers && 1 <= Index(x) < m.headers[SegOf(x)].nextChunk;
    }
  }

  lemma LinkKeeps(m: Mem, s: nat)
    requires Inv(m) && s in m.unlinked
    ensures Inv(Link(m, s))
  {
    var n := Link(m, s);
    assert n.segments[0] == s && n.segments[1..] == m.segments;
    forall t | t in n.headers ensures HeaderOk(n, t) {
      assert HeaderOk(m, t);
    }
    forall h: nat | h < |n.heaps| ensures HeapOk(n, h) {
      assert HeapOk(m, h);
    }
    assert forall c {:trigger c in n.place} :: c in n.place <==> c in m.place;
  }

  // ---------------------------------------------------------------- heaps come and go

  lemma NewHeapKeeps(m: Mem)
    requires Inv(m)
    ensures Inv(m.(heaps := m.heaps + [Heap([], 0, [])]))
  {
    var n := m.(heaps := m.heaps + [Heap([], 0, [])]);
    forall h: nat | h < |n.heaps| ensures HeapOk(n, h) {
      if h < |m.heaps| { assert HeapOk(m, h); }
    }
    forall s | s in n.headers ensures HeaderOk(n, s) {
      assert HeaderOk(m, s);
    }
    assert forall c {:trigger c in n.place} :: c in n.place <==> c in m.place;
  }

  lemma NobodyThere(place: map<Chunk, Place>, p: Place)
    requires ListOk([], place, p)
    ensures forall c {:trigger place[c]} :: c in place ==> place[c] != p
  {
  }

  lemma DrainKeeps(m: Mem, h: nat)
    requires Inv(m) && h < |m.heaps| && m.heaps[h].draining == []
    ensures Inv(Drain(m, h))
  {
    var n := Drain(m, h);
    assert HeapOk(m, h);
    NobodyThere(m.place, Draining(h));
    assert forall c {:trigger Held(n.place, c)} :: Held(n.place, c) == Held(m.place, c);
    forall s | s in n.headers ensures HeaderOk(n, s) {
      assert HeaderOk(m, s);
      CountAgrees(m.place, n.place, s, SEG_SPANS);
    }
    assert n.place.Keys == m.place.Keys;
    PlacesKeep(m, n);
    forall j: nat | j < |n.heaps| ensures HeapOk(n, j) {
      assert HeapOk(m, j);
    }
  }

  // ---------------------------------------------------------------- the purge

  /** A condemned segment is linked and idle, and every chunk ever cut from it is in the shared
      cache: nobody holds one. */
  lemma CondemnedIsIdle(m: Mem, now: nat, force: bool, target: int, s: nat)
    requires Inv(m) && Linked(m) && s in Condemn(m.segments, m.headers, now, force, target).1
    ensures s in m.segments && s in m.headers && m.headers[s].live == 0
    ensures force || now - m.headers[s].idleSince >= PURGE_DELAY
    ensures forall c {:trigger c in m.place} :: c in m.place && SegOf(c) == s ==> m.place[c] == Cached
  {
    CondemnMembers(m.segments, m.headers, now, force, target, s);
    assert HeaderOk(m, s);
    forall c | c in m.place && SegOf(c) == s ensures m.place[c] == Cached {
      Address(c);
      NoneHeld(m.place, s, SEG_SPANS, Index(c));
    }
  }

  lemma LinkedInv(m: Mem)
    requires Inv(m)
    ensures Linked(m)
  {
    forall i | 0 <= i < |m.segments| ensures m.segments[i] in m.headers {
      assert m.segments[i] in m.segments;
    }
  }

  lemma PurgeKeepsSegments(m: Mem, now: nat, force: bool, target: int)
    requires Inv(m) && Linked(m)
    ensures SegmentsOk(PurgeApply(m, now, force, target))
  {
    var r, n := Condemn(m.segments, m.headers, now, force, target), PurgeApply(m, now, force, target);
    CondemnDistinct(m.segments, m.headers, now, force, target);
    forall s ensures (s in n.headers <==> s in n.segments || s in n.unlinked) && !(s in n.segments && s in n.unlinked) {
      CondemnMembers(m.segments, m.headers, now, force, target, s);
      assert s in m.headers <==> s in m.segments || s in m.unlinked;
    }
  }

  lemma PurgeKeepsHeaders(m: Mem, now: nat, force: bool, target: int)
    requires Inv(m) && Linked(m)
    ensures HeadersOk(PurgeApply(m, now, force, target)) && PlacesOk(PurgeApply(m, now, force, target))
  {
    var r, n := Condemn(m.segments, m.headers, now, force, target), PurgeApply(m, now, force, target);
    forall s | s in n.headers ensures HeaderOk(n, s) {
      assert HeaderOk(m, s);
      SurvivingCount(m.cache, r.1, s);
      CountAgrees(m.place, n.place, s, SEG_SPANS);
    }
    forall c ensures c in n.place <==> SegOf(c) in n.headers && 1 <= Index(c) < n.headers[SegOf(c)].nextChunk {
      assert c in m.place <==> SegOf(c) in m.headers && 1 <= Index(c) < m.headers[SegOf(c)].nextChunk;
    }
  }

  lemma PurgeKeepsLists(m: Mem, now: nat, force: bool, target: int)
    requires Inv(m) && Linked(m)
    ensures ListsOk(PurgeApply(m, now, force, target))
  {
    var r, n := Condemn(m.segments, m.headers, now, force, target), PurgeApply(m, now, force, target);
    SurvivingDistinct(m.cache, r.1);
    forall c ensures c in n.cache <==> c in n.place && n.place[c] == Cached {
      SurvivingMembers(m.cache, r.1, c);
      assert c in m.cache <==> c in m.place && m.place[c] == Cached;
    }
    forall h: nat | h < |n.heaps| ensures HeapOk(n, h) {
      assert HeapOk(m, h);
      HeldSurvives(m, now, force, target, m.heaps[h].local, Local(h));
      HeldSurvives(m, now, force, target, m.heaps[h].draining, Draining(h));
    }
  }

  /** No list outside the shared cache loses a chunk to a purge. */
  lemma HeldSurvives(m: Mem, now: nat, force: bool, target: int, xs: seq<Chunk>, p: Place)
    requires Inv(m) && Linked(m) && ListOk(xs, m.place, p) && p != Cached
    ensures ListOk(xs, PurgeApply(m, now, force, target).place, p)
  {
    var r, n := Condemn(m.segments, m.headers, now, force, target), PurgeApply(m, now, force, target);
    forall c ensures c in xs <==> c in n.place && n.place[c] == p {
      if c in xs && SegOf(c) in r.1 { CondemnedIsIdle(m, now, force, target, SegOf(c)); }
    }
  }

  lemma PurgeKeeps(m: Mem, now: nat, force: bool, target: int)
    requires Inv(m) && Linked(m)
    ensures Inv(PurgeApply(m, now, force, target))
  {
    PurgeKeepsSegments(m, now, force, target);
    PurgeKeepsHeaders(m, now, force, target);
    PurgeKeepsLists(m, now, force, target);
  }

  /** The smoothed size stays between 0 and the largest evaluated count. */
  lemma AverageIsBounded(avg: int, count: int, peak: int)
    requires 0 <= avg <= peak && count >= 0
    ensures 0 <= avg + Quarter(count - avg) <= Max(peak, count)
    ensures avg <= count ==> avg + Quarter(count - avg) <= count
    ensures avg >= count ==> avg + Quarter(count - avg) >= count
  {
  }

  /** `n` is `m` but for the bookkeeping of the purge and a later clock. */
  lemma BookkeepingKeeps(m: Mem, n: Mem)
    requires Inv(m) && PurgeOk(n) && n.clock >= m.clock
    requires n.segments == m.segments && n.unlinked == m.unlinked && n.headers == m.headers
    requires n.cache == m.cache && n.cacheCount == m.cacheCount && n.heaps == m.heaps && n.place == m.place
    ensures Inv(n)
  {
    forall s | s in n.headers ensures HeaderOk(n, s) {
      assert HeaderOk(m, s);
    }
    forall h: nat | h < |n.heaps| ensures HeapOk(n, h) {
      assert HeapOk(m, h);
    }
    assert forall c {:trigger c in n.place} :: c in n.place <==> c in m.place;
  }

  /** The evaluation up to the purge. */
  lemma SmoothingKeeps(m: Mem, now: nat, purging: bool)
    requires Inv(m) && now <= m.clock
    requires purging ==> m.purging || m.avg + Quarter(m.cacheCount - m.avg) > PURGE_HIGH
    ensures var e := m.(lastPurge := now, avg := m.avg + Quarter(m.cacheCount - m.avg), peak := Max(m.peak, m.cacheCount), purging := purging);
      Inv(e)
  {
    var e := m.(lastPurge := now, avg := m.avg + Quarter(m.cacheCount - m.avg), peak := Max(m.peak, m.cacheCount), purging := purging);
    AverageIsBounded(m.avg, m.cacheCount, m.peak);
    BookkeepingKeeps(m, e);
  }

  lemma EvaluateKeeps(m: Mem, now: nat)
    requires Inv(m) && Linked(m) && now <= m.clock
    ensures Inv(Evaluate(m, now))
  {
    hide Inv, PurgeApply, Quarter, Max;
    if now - m.lastPurge >= PURGE_PERIOD {
      var avg := m.avg + Quarter(m.cacheCount - m.avg);
      if !m.purging && avg <= PURGE_HIGH {
        SmoothingKeeps(m, now, false);
      } else if m.purging && avg < PURGE_LOW {
        SmoothingKeeps(m, now, false);
      } else {
        SmoothingKeeps(m, now, true);
        var e := m.(lastPurge := now, avg := avg, peak := Max(m.peak, m.cacheCount), purging := true);
        if m.cacheCount - PURGE_LOW > 0 { PurgeKeeps(e, now, false, m.cacheCount - PURGE_LOW); }
      }
    }
  }

  lemma GiveSharedKeeps(m: Mem, c: Chunk, now: nat)
    requires Inv(m) && Linked(m) && c in m.place && m.place[c] == Used && SegOf(c) in m.headers && now >= m.clock
    ensures Inv(GiveShared(m, c, now))
  {
    PutInCacheKeeps(m, c, now);
    LinkedInv(PutInCache(m, c, now));
    if PutInCache(m, c, now).headers[SegOf(c)].live == 0 { EvaluateKeeps(PutInCache(m, c, now), now); }
  }

  // ---------------------------------------------------------------- every step, every run

  lemma InitInv(m: Mem)
    requires Init(m)
    ensures Inv(m)
  {
  }

  lemma DrainOneKeeps(m: Mem, h: nat, dt: nat)
    requires Inv(m) && Linked(m) && h < |m.heaps| && m.heaps[h].draining != []
    requires SegOf(m.heaps[h].draining[0]) in m.headers
    ensures Inv(GiveShared(PopDraining(m, h), m.heaps[h].draining[0], m.clock + dt))
  {
    hide Inv, GiveShared;
    PopDrainingKeeps(m, h);
    LinkedInv(PopDraining(m, h));
    GiveSharedKeeps(PopDraining(m, h), m.heaps[h].draining[0], m.clock + dt);
  }

  lemma ClockKeeps(m: Mem, dt: nat)
    requires Inv(m)
    ensures Inv(m.(clock := m.clock + dt))
  {
    BookkeepingKeeps(m, m.(clock := m.clock + dt));
  }

  lemma TrimKeeps(m: Mem, dt: nat)
    requires Inv(m) && Linked(m)
    ensures Inv(PurgeApply(m.(clock := m.clock + dt), m.clock + dt, true, 0))
  {
    hide Inv, PurgeApply;
    var n := m.(clock := m.clock + dt);
    ClockKeeps(m, dt);
    PurgeKeeps(n, m.clock + dt, true, 0);
  }

  /** The invariant is kept by every step of every thread. */
  lemma NextKeepsInv(m: Mem, step: Step)
    requires Inv(m)
    ensures Inv(Next(m, step))
  {
    hide Inv, Linked, TakeLocal, TakeCached, CanBump, Bump, Map, Link, GiveLocal, GiveShared, Drain, PopDraining, PurgeApply;
    LinkedInv(m);
    match step {
      case NewHeap => NewHeapKeeps(m);
      case Acquire(h) =>
        if h < |m.heaps| && m.heaps[h].local != [] {
          TakeLocalKeeps(m, h);
        } else if m.cache != [] {
          CachedIsMapped(m);
          TakeCachedKeeps(m);
        } else if CanBump(m) {
          BumpKeeps(m);
        }
      case MapSegment(s) => if s !in m.headers { MapKeeps(m, s); }
      case LinkSegment(s) => if s in m.unlinked { LinkKeeps(m, s); }
      case Release(h, c, dt) =>
        if c in m.place && m.place[c] == Used && SegOf(c) in m.headers {
          if h < |m.heaps| && m.heaps[h].count < HEAP_CACHE_MAX {
            GiveLocalKeeps(m, h, c);
          } else {
            GiveSharedKeeps(m, c, m.clock + dt);
          }
        }
      case StartDrain(h) => if h < |m.heaps| && m.heaps[h].draining == [] { DrainKeeps(m, h); }
      case DrainOne(h, dt) =>
        if h < |m.heaps| && m.heaps[h].draining != [] && SegOf(m.heaps[h].draining[0]) in m.headers {
          DrainOneKeeps(m, h, dt);
        }
      case Trim(dt) => TrimKeeps(m, dt);
    }
  }

  ghost function Run(m: Mem, steps: seq<Step>): Mem
    decreases |steps|
  {
    if steps == [] then m else Run(Next(m, steps[0]), steps[1..])
  }

  lemma {:induction false} RunKeepsInv(m: Mem, steps: seq<Step>)
    requires Inv(m)
    ensures Inv(Run(m, steps))
    decreases |steps|
  {
    if steps != [] {
      NextKeepsInv(m, steps[0]);
      RunKeepsInv(Next(m, steps[0]), steps[1..]);
    }
  }

  // ---------------------------------------------------------------- what a purge may do

  /** Segment accounting: in every reachable state the live count of a mapped segment is the number
      of its chunks in spans, large blocks and thread caches, and with its chunks in the shared
      cache it makes up everything ever cut from the segment. */
  lemma AccountingHolds(m: Mem, steps: seq<Step>, s: nat)
    requires Init(m) && s in Run(m, steps).headers
    ensures var n := Run(m, steps);
      && n.headers[s].live == CountHeld(n.place, s, SEG_SPANS)
      && n.headers[s].live + CountIn(n.cache, s) == n.headers[s].nextChunk - 1
      && n.cacheCount == |n.cache|
  {
    InitInv(m);
    RunKeepsInv(m, steps);
    assert HeaderOk(Run(m, steps), s);
  }

  /** A pointer kept anywhere is a pointer into memory that is still mapped. */
  ghost predicate NoDangling(m: Mem) {
    && (forall c {:trigger c in m.cache} :: c in m.cache ==> SegOf(c) in m.headers)
    && (forall h: nat, c {:trigger c in m.heaps[h].local} :: h < |m.heaps| && c in m.heaps[h].local ==> SegOf(c) in m.headers)
    && (forall h: nat, c {:trigger c in m.heaps[h].draining} :: h < |m.heaps| && c in m.heaps[h].draining ==> SegOf(c) in m.headers)
    && (forall c {:trigger c in m.place} :: c in m.place && m.place[c] == Used ==> SegOf(c) in m.headers)
  }

  lemma InvMeansNoDangling(m: Mem)
    requires Inv(m)
    ensures NoDangling(m)
  {
    forall h: nat, c | h < |m.heaps| && (c in m.heaps[h].local || c in m.heaps[h].draining) ensures SegOf(c) in m.headers {
      assert HeapOk(m, h);
    }
  }

  /** The step gives chunk `c` back. */
  predicate Releases(m: Mem, step: Step, c: Chunk) {
    || (step.Release? && step.c == c)
    || (step.DrainOne? && step.h < |m.heaps| && m.heaps[step.h].draining != [] && m.heaps[step.h].draining[0] == c)
  }

  /** The same one holds chunk `c` in both states. */
  predicate SameHolder(m: Mem, n: Mem, c: Chunk) {
    c in m.place && Held(n.place, c) && n.place[c] == m.place[c]
  }

  lemma PurgeKeepsHeld(m: Mem, now: nat, force: bool, target: int, c: Chunk)
    requires Linked(m) && Inv(m) && Held(m.place, c)
    ensures SameHolder(m, PurgeApply(m, now, force, target), c)
  {
    var r := Condemn(m.segments, m.headers, now, force, target);
    if SegOf(c) in r.1 { CondemnedIsIdle(m, now, force, target, SegOf(c)); }
  }

  lemma EvaluateKeepsHeld(m: Mem, now: nat, c: Chunk)
    requires Linked(m) && Inv(m) && Held(m.place, c) && now <= m.clock
    ensures SameHolder(m, Evaluate(m, now), c)
  {
    hide Inv, PurgeApply, Quarter, Max;
    var avg := m.avg + Quarter(m.cacheCount - m.avg);
    if m.purging || avg > PURGE_HIGH {
      SmoothingKeeps(m, now, true);
      var e := m.(lastPurge := now, avg := avg, peak := Max(m.peak, m.cacheCount), purging := true);
      PurgeKeepsHeld(e, now, false, m.cacheCount - PURGE_LOW, c);
    }
  }

  lemma GiveSharedKeepsHeld(m: Mem, x: Chunk, now: nat, c: Chunk)
    requires Inv(m) && Linked(m) && x in m.place && m.place[x] == Used && SegOf(x) in m.headers && now >= m.clock
    requires Held(m.place, c) && c != x
    ensures SameHolder(m, GiveShared(m, x, now), c)
  {
    hide Inv, Evaluate;
    PutInCacheKeeps(m, x, now);
    LinkedInv(PutInCache(m, x, now));
    EvaluateKeepsHeld(PutInCache(m, x, now), now, c);
  }

  lemma TrimKeepsHeld(m: Mem, dt: nat, c: Chunk)
    requires Inv(m) && Linked(m) && Held(m.place, c)
    ensures SameHolder(m, PurgeApply(m.(clock := m.clock + dt), m.clock + dt, true, 0), c)
  {
    hide Inv, PurgeApply;
    ClockKeeps(m, dt);
    PurgeKeepsHeld(m.(clock := m.clock + dt), m.clock + dt, true, 0, c);
  }

  /** What somebody holds stays theirs, and stays mapped, until that very chunk is released; a chunk
      in use stays in use. */
  lemma StepKeepsHeld(m: Mem, step: Step, c: Chunk)
    requires Inv(m) && Held(m.place, c) && !Releases(m, step, c)
    ensures Held(Next(m, step).place, c)
    ensures m.place[c] == Used ==> Next(m, step).place[c] == Used
  {
    hide Inv, GiveShared, PurgeApply;
    LinkedInv(m);
    match step {
      case Release(h, x, dt) =>
        if x in m.place && m.place[x] == Used && SegOf(x) in m.headers { GiveSharedKeepsHeld(m, x, m.clock + dt, c); }
      case DrainOne(h, dt) =>
        if h < |m.heaps| && m.heaps[h].draining != [] && SegOf(m.heaps[h].draining[0]) in m.headers {
          PopDrainingKeeps(m, h);
          LinkedInv(PopDraining(m, h));
          GiveSharedKeepsHeld(PopDraining(m, h), m.heaps[h].draining[0], m.clock + dt, c);
        }
      case Trim(dt) => TrimKeepsHeld(m, dt, c);
      case _ =>
    }
  }

  /** In every run, no step unmaps a segment of which anybody holds a chunk, and no cache ever
      points into a segment that was unmapped. */
  lemma PurgeIsSafe(m: Mem, steps: seq<Step>, step: Step, c: Chunk)
    requires Init(m)
    ensures var a := Run(m, steps); var b := Next(a, step);
      && NoDangling(a) && NoDangling(b)
      && (Held(a.place, c) && !Releases(a, step, c) ==> Held(b.place, c) && SegOf(c) in b.headers)
  {
    var a := Run(m, steps);
    InitInv(m);
    RunKeepsInv(m, steps);
    NextKeepsInv(a, step);
    InvMeansNoDangling(a);
    InvMeansNoDangling(Next(a, step));
    if Held(a.place, c) && !Releases(a, step, c) {
      StepKeepsHeld(a, step, c);
      UsedIsLive(Next(a, step), c);
    }
  }

  // ---------------------------------------------------------------- bounds and hysteresis

  /** Segment `s` is unmapped between the two states. */
  predicate Unmapped(m: Mem, n: Mem, s: nat) {
    s in m.headers && s !in n.headers
  }

  lemma PurgeBound(m: Mem, now: nat, target: int)
    requires Inv(m) && Linked(m)
    ensures var n := PurgeApply(m, now, false, target);
      && n.cacheCount >= m.cacheCount - Max(0, target + SEG_SPANS - 2)
      && (forall s {:trigger Unmapped(m, n, s)} :: Unmapped(m, n, s) ==>
            m.headers[s].live == 0 && now - m.headers[s].idleSince >= PURGE_DELAY)
  {
    var r, n := Condemn(m.segments, m.headers, now, false, target), PurgeApply(m, now, false, target);
    forall i | 0 <= i < |m.segments|
      ensures m.headers[m.segments[i]].nextChunk <= SEG_SPANS
      ensures m.headers[m.segments[i]].live + CountIn(m.cache, m.segments[i]) == m.headers[m.segments[i]].nextChunk - 1
    {
      assert HeaderOk(m, m.segments[i]);
    }
    CondemnTotal(m.segments, m.headers, now, target, m.cache);
    CondemnDistinct(m.segments, m.headers, now, false, target);
    SurvivingSize(m.cache, r.1);
    forall s | Unmapped(m, n, s) ensures m.headers[s].live == 0 && now - m.headers[s].idleSince >= PURGE_DELAY {
      CondemnedIsIdle(m, now, false, target, s);
    }
  }

  /** One automatic evaluation never takes the shared cache below LOW - 62 chunks, never unmaps a
      segment idle for less than the delay, and unmaps nothing at all unless some evaluated count
      has exceeded HIGH. */
  lemma AutomaticPurgeBound(m: Mem, now: nat)
    requires Inv(m) && Linked(m) && now <= m.clock
    ensures var n := Evaluate(m, now);
      && (m.cacheCount >= PURGE_LOW - 62 ==> n.cacheCount >= PURGE_LOW - 62)
      && (m.cacheCount <= PURGE_LOW ==> n.cacheCount == m.cacheCount)
      && n.peak >= m.peak && 0 <= n.avg <= n.peak
      && (n.purges != m.purges ==> n.peak > PURGE_HIGH)
      && (forall s {:trigger Unmapped(m, n, s)} :: Unmapped(m, n, s) ==>
            m.headers[s].live == 0 && now - m.headers[s].idleSince >= PURGE_DELAY && n.peak > PURGE_HIGH)
  {
    hide Inv, Quarter;
    EvaluateKeeps(m, now);
    PeakIsHigh(m, now);
    var avg := m.avg + Quarter(m.cacheCount - m.avg);
    if m.purging || avg > PURGE_HIGH {
      SmoothingKeeps(m, now, true);
      var e := m.(lastPurge := now, avg := avg, peak := Max(m.peak, m.cacheCount), purging := true);
      PurgeBound(e, now, m.cacheCount - PURGE_LOW);
      assert forall s {:trigger Unmapped(m, Evaluate(m, now), s)} :: Unmapped(m, Evaluate(m, now), s) ==> Unmapped(e, Evaluate(m, now), s);
    }
  }

  lemma PeakIsHigh(m: Mem, now: nat)
    requires Inv(m) && Linked(m) && now <= m.clock
    ensures m.purging || m.avg + Quarter(m.cacheCount - m.avg) > PURGE_HIGH ==> Max(m.peak, m.cacheCount) > PURGE_HIGH
    ensures 0 <= Evaluate(m, now).avg <= Evaluate(m, now).peak
  {
    EvaluateKeeps(m, now);
    AverageIsBounded(m.avg, m.cacheCount, m.peak);
  }

  lemma GiveSharedBelowHigh(m: Mem, x: Chunk, now: nat)
    requires Inv(m) && Linked(m) && x in m.place && m.place[x] == Used && SegOf(x) in m.headers && now >= m.clock
    ensures var n := GiveShared(m, x, now); n.peak >= m.peak && (n.purges != m.purges ==> n.peak > PURGE_HIGH)
  {
    hide Inv, Evaluate;
    PutInCacheKeeps(m, x, now);
    LinkedInv(PutInCache(m, x, now));
    AutomaticPurgeBound(PutInCache(m, x, now), now);
  }

  lemma StepBelowHigh(m: Mem, step: Step)
    requires Inv(m) && !step.Trim?
    ensures var n := Next(m, step); n.peak >= m.peak && (n.purges != m.purges ==> n.peak > PURGE_HIGH)
  {
    hide Inv, GiveShared;
    LinkedInv(m);
    match step {
      case Release(h, x, dt) =>
        if x in m.place && m.place[x] == Used && SegOf(x) in m.headers { GiveSharedBelowHigh(m, x, m.clock + dt); }
      case DrainOne(h, dt) =>
        if h < |m.heaps| && m.heaps[h].draining != [] && SegOf(m.heaps[h].draining[0]) in m.headers {
          PopDrainingKeeps(m, h);
          LinkedInv(PopDraining(m, h));
          GiveSharedBelowHigh(PopDraining(m, h), m.heaps[h].draining[0], m.clock + dt);
        }
      case _ =>
    }
  }

  /** Over a whole run without explicit trims, memory goes back to the system only if some
      evaluated cache count exceeded HIGH. */
  lemma {:induction false} NoPurgeBelowHigh(m: Mem, steps: seq<Step>)
    requires Inv(m) && forall i {:trigger steps[i]} :: 0 <= i < |steps| ==> !steps[i].Trim?
    ensures var n := Run(m, steps); n.peak >= m.peak && (n.purges != m.purges ==> n.peak > PURGE_HIGH)
    decreases |steps|
  {
    if steps != [] {
      StepBelowHigh(m, steps[0]);
      NextKeepsInv(m, steps[0]);
      NoPurgeBelowHigh(Next(m, steps[0]), steps[1..]);
    }
  }

  /** An explicit trim unmaps exactly the linked segments that are idle. */
  lemma TrimTakesTheIdle(m: Mem, dt: nat, s: nat)
    requires Inv(m) && s in m.headers
    ensures var n := Next(m, Trim(dt));
      s !in n.headers <==> s in m.segments && m.headers[s].live == 0
  {
    LinkedInv(m);
    CondemnMembers(m.segments, m.headers, m.clock + dt, true, 0, s);
  }
}
