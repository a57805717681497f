/** What the sections of the chunk allocator do, said of the state before and after and without the
    functions that compute it. */
module ChunkDuties {
  import opened ChunkSpec
  import opened ChunkLists
  import opened ChunkProofs

  // ---------------------------------------------------------------- the periodic evaluation

  /** `b` is `a` moved a quarter of the way to `count`, rounded toward where it was. */
  predicate Smoothed(a: int, count: int, b: int) {
    if count >= a then 4 * (b - a) <= count - a < 4 * (b - a) + 4 else 4 * (b - a) - 4 < count - a <= 4 * (b - a)
  }

  /** Segment `s` cannot go yet: somebody holds a chunk of it, or it has not been idle for the delay. */
  predicate Stays(m: Mem, s: nat, now: nat) {
    s in m.headers && (m.headers[s].live > 0 || now - m.headers[s].idleSince < PURGE_DELAY)
  }

  /** Segments have left between the states, with their cached chunks, and nothing else has changed. */
  ghost predicate OnlySegmentsLeft(m: Mem, n: Mem) {
    && (forall s {:trigger s in n.headers} {:trigger s in m.headers} :: s in n.headers ==> s in m.headers && n.headers[s] == m.headers[s])
    && (forall s {:trigger s in n.segments} {:trigger s in m.segments} :: s in n.segments <==> s in m.segments && s in n.headers)
    && (forall c {:trigger c in n.cache} {:trigger c in m.cache} :: c in n.cache <==> c in m.cache && SegOf(c) in n.headers)
    && (forall c {:trigger c in n.place} {:trigger c in m.place} :: c in n.place <==> c in m.place && SegOf(c) in n.headers)
    && (forall c {:trigger n.place[c]} :: c in n.place && c in m.place ==> n.place[c] == m.place[c])
    && n.unlinked == m.unlinked && n.heaps == m.heaps && n.clock == m.clock && n.cacheCount == |n.cache|
  }

  /** The periodic evaluation at time `now`: nothing before the period is over; then the smoothed size
      moves, hysteresis switches the purge on above HIGH and off below LOW, and while it is on the
      cache comes down to LOW or every segment left is in use or freshly idle. */
  ghost predicate Evaluated(m: Mem, n: Mem, now: nat) {
    if now - m.lastPurge < PURGE_PERIOD then n == m else
      && n.lastPurge == now && Smoothed(m.avg, m.cacheCount, n.avg)
      && n.peak == (if m.peak < m.cacheCount then m.cacheCount else m.peak)
      && n.purging == (if m.purging then n.avg >= PURGE_LOW else n.avg > PURGE_HIGH)
      && (!n.purging ==> n == m.(lastPurge := now, avg := n.avg, peak := n.peak, purging := false))
      && (n.purging ==>
            && OnlySegmentsLeft(m, n)
            && (n.cacheCount <= PURGE_LOW || forall s {:trigger s in n.segments} :: s in n.segments ==> Stays(n, s, now))
            && (forall s {:trigger s in m.segments} :: s in m.segments && s !in n.segments ==> !Stays(m, s, now))
            && n.cacheCount >= (if m.cacheCount <= PURGE_LOW then m.cacheCount else PURGE_LOW - 62))
  }

  /** Either the target is met by what was condemned, or all that is left has to stay. */
  lemma {:induction false} CondemnEnough(segs: seq<nat>, headers: map<nat, Seg>, now: nat, target: int, cache: seq<Chunk>, s: nat)
    requires forall i {:trigger segs[i]} :: 0 <= i < |segs| ==>
      segs[i] in headers && headers[segs[i]].live + CountIn(cache, segs[i]) == headers[segs[i]].nextChunk - 1
    ensures var r := Condemn(segs, headers, now, false, target);
      CountInAll(cache, r.1) >= target ||
      (s in r.0 ==> s in headers && (headers[s].live > 0 || now - headers[s].idleSince < PURGE_DELAY))
    decreases |segs|
  {
    if segs != [] && target > 0 {
      var g := headers[segs[0]];
      if g.live == 0 && now - g.idleSince >= PURGE_DELAY {
        CondemnEnough(segs[1..], headers, now, target - (g.nextChunk - 1), cache, s);
        var r := Condemn(segs[1..], headers, now, false, target - (g.nextChunk - 1));
        assert ([segs[0]] + r.1)[1..] == r.1;
      } else {
        CondemnEnough(segs[1..], headers, now, target, cache, s);
      }
    }
  }

  lemma PurgeEnough(m: Mem, now: nat, target: int, s: nat)
    requires Inv(m) && Linked(m)
    ensures var n := PurgeApply(m, now, false, target);
      n.cacheCount <= m.cacheCount - target || (s in n.segments ==> Stays(n, s, now))
  {
    var r := Condemn(m.segments, m.headers, now, false, target);
    forall i | 0 <= i < |m.segments|
      ensures m.headers[m.segments[i]].live + CountIn(m.cache, m.segments[i]) == m.headers[m.segments[i]].nextChunk - 1
    {
      assert HeaderOk(m, m.segments[i]);
    }
    CondemnEnough(m.segments, m.headers, now, target, m.cache, s);
    CondemnDistinct(m.segments, m.headers, now, false, target);
    CondemnMembers(m.segments, m.headers, now, false, target, s);
    SurvivingSize(m.cache, r.1);
  }

  lemma PurgeOnlyRemoves(m: Mem, now: nat, force: bool, target: int)
    requires Inv(m) && Linked(m)
    ensures OnlySegmentsLeft(m, PurgeApply(m, now, force, target))
    ensures var n := PurgeApply(m, now, force, target);
      n.lastPurge == m.lastPurge && n.avg == m.avg && n.peak == m.peak && n.purging == m.purging
    ensures forall s {:trigger s in m.segments} :: s in m.segments && s !in PurgeApply(m, now, force, target).segments && !force ==> !Stays(m, s, now)
  {
    var r, n := Condemn(m.segments, m.headers, now, force, target), PurgeApply(m, now, force, target);
    forall s ensures (s in m.segments <==> s in r.0 || s in r.1) && !(s in r.0 && s in r.1)
      ensures s in r.1 ==> s in m.headers && m.headers[s].live == 0 && (force || now - m.headers[s].idleSince >= PURGE_DELAY)
    {
      CondemnMembers(m.segments, m.headers, now, force, target, s);
    }
    forall c ensures c in n.cache <==> c in m.cache && SegOf(c) in n.headers {
      SurvivingMembers(m.cache, r.1, c);
      if c in m.cache { assert m.place[c] == Cached; }
    }
  }

  lemma SmoothedIs(a: int, count: int)
    ensures Smoothed(a, count, a + Quarter(count - a))
  {
  }

  lemma EvaluationDone(m: Mem, now: nat)
    requires Inv(m) && Linked(m) && now <= m.clock
    ensures Evaluated(m, Evaluate(m, now), now)
  {
    hide Inv, Quarter, PurgeApply, Smoothed;
    SmoothedIs(m.avg, m.cacheCount);
    AutomaticPurgeBound(m, now);
    var avg := m.avg + Quarter(m.cacheCount - m.avg);
    if now - m.lastPurge >= PURGE_PERIOD && (if m.purging then avg >= PURGE_LOW else avg > PURGE_HIGH) {
      SmoothingKeeps(m, now, true);
      PurgeDone(m, m.(lastPurge := now, avg := avg, peak := Max(m.peak, m.cacheCount), purging := true), now);
    }
  }

  lemma PurgeDone(m: Mem, e: Mem, now: nat)
    requires Inv(e) && Linked(e)
    requires e == m.(lastPurge := e.lastPurge, avg := e.avg, peak := e.peak, purging := e.purging)
    ensures var n := if e.cacheCount > PURGE_LOW then PurgeApply(e, now, false, e.cacheCount - PURGE_LOW) else e;
      && n.lastPurge == e.lastPurge && n.avg == e.avg && n.peak == e.peak && n.purging == e.purging
      && OnlySegmentsLeft(m, n)
      && (n.cacheCount <= PURGE_LOW || forall s {:trigger s in n.segments} :: s in n.segments ==> Stays(n, s, now))
      && (forall s {:trigger s in m.segments} :: s in m.segments && s !in n.segments ==> !Stays(m, s, now))
  {
    hide PurgeApply, Inv;
    if e.cacheCount > PURGE_LOW {
      var target := e.cacheCount - PURGE_LOW;
      var n := PurgeApply(e, now, false, target);
      PurgeOnlyRemoves(e, now, false, target);
      forall s | s in n.segments ensures n.cacheCount <= PURGE_LOW || Stays(n, s, now) {
        PurgeEnough(e, now, target, s);
      }
    } else {
      NothingLeft(e);
    }
  }

  lemma NothingLeft(e: Mem)
    requires Inv(e)
    ensures OnlySegmentsLeft(e, e)
  {
    LinkedInv(e);
    forall s | s in e.segments ensures s in e.headers {
    }
    forall c | c in e.cache ensures SegOf(c) in e.headers {
      assert e.place[c] == Cached;
    }
  }

  // ---------------------------------------------------------------- giving a chunk back

  /** The chunk has joined the shared cache at time `now`, before any evaluation. */
  ghost predicate Joined(m: Mem, n: Mem, c: Chunk, now: nat) {
    var s := SegOf(c);
    && s in m.headers && m.headers[s].live >= 1
    && n == m.(cache := [c] + m.cache, cacheCount := m.cacheCount + 1, clock := now, place := m.place[c := Cached],
               headers := m.headers[s := Seg(m.headers[s].nextChunk, m.headers[s].live - 1,
                                             if m.headers[s].live == 1 then now else m.headers[s].idleSince)])
  }

  /** chunk_release: a thread with fewer than 64 chunks keeps it; otherwise it joins the shared cache,
      and when it was the last one out of its segment the caches are evaluated. */
  ghost predicate Returned(m: Mem, n: Mem, h: nat, c: Chunk, now: nat) {
    if h < |m.heaps| && m.heaps[h].count < 64 then
      n == m.(heaps := m.heaps[h := Heap([c] + m.heaps[h].local, m.heaps[h].count + 1, m.heaps[h].draining)],
              place := m.place[c := Local(h)])
    else
      exists j: Mem {:trigger Joined(m, j, c, now)} ::
        && Joined(m, j, c, now)
        && (if j.headers[SegOf(c)].live == 0 then Evaluated(j, n, now) else n == j)
  }

  lemma ReleaseReturns(m: Mem, h: nat, c: Chunk, dt: nat)
    requires Inv(m) && c in m.place && m.place[c] == Used
    ensures Returned(m, Next(m, Release(h, c, dt)), h, c, m.clock + dt)
  {
    hide Inv, Evaluate, Evaluated;
    LinkedInv(m);
    UsedIsLive(m, c);
    if !(h < |m.heaps| && m.heaps[h].count < 64) {
      var now := m.clock + dt;
      PutInCacheKeeps(m, c, now);
      var j := PutInCache(m, c, now);
      LinkedInv(j);
      assert Joined(m, j, c, now);
      if j.headers[SegOf(c)].live == 0 { EvaluationDone(j, now); }
    }
  }

  // ---------------------------------------------------------------- taking a chunk

  /** chunk_acquire: the thread's own cache first, then the shared one, then the newest segment, and a
      segment fresh from the system only when all three are empty. */
  ghost predicate Acquired(m: Mem, n: Mem, h: nat, os: nat, c: Chunk) {
    if h < |m.heaps| && m.heaps[h].local != [] then
      && c == m.heaps[h].local[0]
      && n == m.(heaps := m.heaps[h := Heap(m.heaps[h].local[1..], m.heaps[h].count - 1, m.heaps[h].draining)], place := m.place[c := Used])
    else if m.cache != [] then
      && c == m.cache[0] && SegOf(c) in m.headers
      && n == m.(cache := m.cache[1..], cacheCount := m.cacheCount - 1, place := m.place[c := Used],
                 headers := m.headers[SegOf(c) := OneOut(m.headers[SegOf(c)], 0)])
    else if m.segments != [] && m.segments[0] in m.headers && m.headers[m.segments[0]].nextChunk < 64 then
      var s := m.segments[0];
      && c == 64 * s + m.headers[s].nextChunk
      && n == m.(place := m.place[c := Used], headers := m.headers[s := OneOut(m.headers[s], 1)])
    else if os != 0 then
      && c == 64 * os + 1
      && n == m.(segments := [os] + m.segments, place := m.place[c := Used], headers := m.headers[os := Seg(2, 1, 0)])
    else c == 0 && n == m
  }

  /** A header with one more chunk out, and `k` more cut from the segment. */
  function OneOut(g: Seg, k: nat): Seg {
    Seg(g.nextChunk + k, g.live + 1, g.idleSince)
  }

  lemma FromOwnCache(m: Mem, h: nat, os: nat)
    requires h < |m.heaps| && m.heaps[h].local != []
    ensures Acquired(m, TakeLocal(m, h), h, os, m.heaps[h].local[0])
  {
  }

  lemma FromSharedCache(m: Mem, h: nat, os: nat)
    requires !(h < |m.heaps| && m.heaps[h].local != []) && m.cache != [] && SegOf(m.cache[0]) in m.headers
    ensures Acquired(m, TakeCached(m), h, os, m.cache[0])
  {
  }

  lemma FromNewestSegment(m: Mem, h: nat, os: nat)
    requires !(h < |m.heaps| && m.heaps[h].local != []) && m.cache == [] && CanBump(m)
    ensures Acquired(m, Bump(m), h, os, 64 * m.segments[0] + m.headers[m.segments[0]].nextChunk)
  {
  }

  lemma FromTheSystem(m: Mem, h: nat, os: nat)
    requires !(h < |m.heaps| && m.heaps[h].local != []) && m.cache == [] && !CanBump(m) && os !in m.headers && os !in m.unlinked
    requires Linked(m) && Linked(Next(m, MapSegment(os)))
    ensures os != 0 ==> Acquired(m, Next(Next(m, MapSegment(os)), LinkSegment(os)), h, os, 64 * os + 1)
    ensures os == 0 ==> Acquired(m, m, h, os, 0)
  {
    assert m.unlinked + {os} - {os} == m.unlinked;
  }

  // ---------------------------------------------------------------- a thread that ends

  /** `k` turns of chunk_local_to_global. */
  function Turns(h: nat, k: nat): seq<Step> {
    seq(k, _ => DrainOne(h, 0))
  }

  /** It ends with the thread's cache and its own list empty. */
  lemma {:induction false} DrainEnds(m: Mem, h: nat)
    requires Inv(m) && h < |m.heaps|
    ensures var n := Run(m, Turns(h, |m.heaps[h].draining|));
      Inv(n) && |n.heaps| == |m.heaps| && n.heaps[h] == m.heaps[h].(draining := [])
    decreases |m.heaps[h].draining|
  {
    hide Inv, GiveShared;
    var k := |m.heaps[h].draining|;
    if k > 0 {
      DrainTurn(m, h);
      NextKeepsInv(m, DrainOne(h, 0));
      assert Turns(h, k)[1..] == Turns(h, k - 1);
      DrainEnds(Next(m, DrainOne(h, 0)), h);
    }
  }

  lemma DrainTurn(m: Mem, h: nat)
    requires Inv(m) && h < |m.heaps| && m.heaps[h].draining != []
    ensures var n := Next(m, DrainOne(h, 0));
      |n.heaps| == |m.heaps| && n.heaps[h] == m.heaps[h].(draining := m.heaps[h].draining[1..])
  {
    LinkedInv(m);
    assert HeapOk(m, h) && m.heaps[h].draining[0] in m.heaps[h].draining;
  }

  /** A thread that ends hands its whole cache over. */
  lemma CacheIsHandedOver(m: Mem, h: nat)
    requires Inv(m) && h < |m.heaps| && m.heaps[h].draining == []
    ensures var n := Run(Next(m, StartDrain(h)), Turns(h, |m.heaps[h].local|));
      Inv(n) && |n.heaps| == |m.heaps| && n.heaps[h] == Heap([], 0, [])
  {
    hide Inv;
    LinkedInv(m);
    NextKeepsInv(m, StartDrain(h));
    DrainEnds(Next(m, StartDrain(h)), h);
  }
}
