/** The shared part of the allocator as the program writes it: lists, counters and headers updated in
    place. Each method is one locked section, or the sections of one call in a row, and changes the
    state exactly as the steps of ChunkSpec do; ChunkProofs says what every mix of steps keeps. */
module ChunkPool {
  import opened ChunkSpec
  import opened ChunkLists
  import opened ChunkProofs
  import opened ChunkDuties

  lemma SegmentsDistinct(m: Mem)
    requires Inv(m)
    ensures Distinct(m.segments) && forall j {:trigger m.segments[j]} :: 0 <= j < |m.segments| ==> m.segments[j] in m.headers
  {
    LinkedInv(m);
  }

  lemma NotHandedOut(m: Mem, s: nat)
    requires Inv(m) && s !in m.headers
    ensures ChunkAt(s, 1) !in m.place
  {
  }

  lemma MayMap(m: Mem, s: nat)
    requires Inv(m) && s !in m.headers
    ensures Linked(m) && Linked(Next(m, MapSegment(s))) && s !in m.unlinked
  {
    LinkedInv(m);
    NextKeepsInv(m, MapSegment(s));
    LinkedInv(Next(m, MapSegment(s)));
  }

  lemma CondemnStep(segs: seq<nat>, headers: map<nat, Seg>, now: nat, force: bool, left: int)
    requires segs != [] && (force || left > 0)
    requires forall i {:trigger segs[i]} :: 0 <= i < |segs| ==> segs[i] in headers
    ensures var g, r := headers[segs[0]], Condemn(segs, headers, now, force, left);
      if g.live == 0 && (force || now - g.idleSince >= PURGE_DELAY) then
        var t := Condemn(segs[1..], headers, now, force, if force then left else left - (g.nextChunk - 1));
        r.0 == t.0 && r.1 == [segs[0]] + t.1
      else
        var t := Condemn(segs[1..], headers, now, force, left);
        r.0 == [segs[0]] + t.0 && r.1 == t.1
  {
  }

  lemma CondemnStops(segs: seq<nat>, headers: map<nat, Seg>, now: nat, force: bool, left: int)
    requires segs == [] || !(force || left > 0)
    requires forall i {:trigger segs[i]} :: 0 <= i < |segs| ==> segs[i] in headers
    ensures Condemn(segs, headers, now, force, left) == (segs, [])
  {
  }

  lemma Regroup(xs: seq<nat>, y: nat, zs: seq<nat>)
    ensures (xs + [y]) + zs == xs + ([y] + zs)
  {
  }

  class Pool {
    var segments: seq<nat>
    ghost var unlinked: set<nat>
    var headers: map<nat, Seg>
    var cache: seq<Chunk>
    var cacheCount: int
    var heaps: seq<Heap>
    var avg: int
    var purging: bool
    var lastPurge: nat
    var purges: nat
    var clock: nat
    ghost var place: map<Chunk, Place>
    ghost var peak: int

    ghost function State(): Mem
      reads this
    {
      Mem(segments, unlinked, headers, cache, cacheCount, heaps, avg, purging, lastPurge, purges, clock, place, peak)
    }

    constructor (start: nat)
      ensures Init(State()) && Inv(State()) && clock == start
    {
      segments, headers, cache, cacheCount, heaps := [], map[], [], 0, [];
      avg, purging, lastPurge, purges, clock := 0, false, 0, 0, start;
      unlinked, place, peak := {}, map[], 0;
    }

    /** purge_apply_locked: condemn idle segments, drop their chunks from the cache, unmap them. */
    method PurgeApply(now: nat, force: bool, target: int)
      requires Inv(State()) && Linked(State())
      modifies this
      ensures State() == ChunkSpec.PurgeApply(old(State()), now, force, target)
    {
      hide Inv, Condemn, Surviving, Linked, Without, Remaining;
      SegmentsDistinct(State());
      CondemnDistinct(segments, headers, now, force, target);
      var doomed := CondemnIdle(now, force, target);
      DropFromCache(doomed);
      Unmap(doomed);
      place := Remaining(place, doomed);
    }

    /** First pass: idle segments leave the list until the target is met. */
    method CondemnIdle(now: nat, force: bool, target: int) returns (doomed: seq<nat>)
      requires forall j {:trigger segments[j]} :: 0 <= j < |segments| ==> segments[j] in headers
      modifies this`segments
      ensures (segments, doomed) == Condemn(old(segments), headers, now, force, target)
    {
      hide Condemn;
      ghost var goal := Condemn(segments, headers, now, force, target);
      ghost var kept: seq<nat>, rest := [], segments;
      var i, left := 0, target;
      doomed := [];
      assert goal.0 == kept + Condemn(rest, headers, now, force, left).0;
      assert goal.1 == doomed + Condemn(rest, headers, now, force, left).1;
      while i < |segments| && (force || left > 0)
        invariant segments == kept + rest && i == |kept|
        invariant forall j {:trigger rest[j]} :: 0 <= j < |rest| ==> rest[j] in headers
        invariant goal.0 == kept + Condemn(rest, headers, now, force, left).0
        invariant goal.1 == doomed + Condemn(rest, headers, now, force, left).1
        decreases |rest|
      {
        var s := segments[i];
        var g := headers[s];
        CondemnStep(rest, headers, now, force, left);
        if g.live == 0 && (force || now - g.idleSince >= PURGE_DELAY) {
          if !force { left := left - (g.nextChunk - 1); }
          segments := segments[..i] + segments[i + 1..];
          Regroup(doomed, s, Condemn(rest[1..], headers, now, force, left).1);
          doomed := doomed + [s];
        } else {
          Regroup(kept, s, Condemn(rest[1..], headers, now, force, left).0);
          Regroup(kept, s, rest[1..]);
          kept := kept + [s];
          i := i + 1;
        }
        rest := rest[1..];
      }
      CondemnStops(rest, headers, now, force, left);
      assert doomed + [] == doomed;
    }

    /** Second pass: the cache loses the chunks of condemned segments. */
    method DropFromCache(doomed: seq<nat>)
      modifies this`cache, this`cacheCount
      ensures cache == Surviving(old(cache), doomed)
      ensures cacheCount == old(cacheCount) - (|old(cache)| - |cache|)
    {
      ghost var all := cache;
      var i := 0;
      while i < |cache|
        invariant 0 <= i <= |cache| <= |all|
        invariant Surviving(all, doomed) == cache[..i] + Surviving(cache[i..], doomed)
        invariant cacheCount == old(cacheCount) - (|all| - |cache|)
        decreases |cache| - i
      {
        assert cache[i..][1..] == cache[i + 1..];
        if SegOf(cache[i]) in doomed {
          ghost var rest := cache[i + 1..];
          cache := cache[..i] + cache[i + 1..];
          cacheCount := cacheCount - 1;
          assert cache[i..] == rest;
        } else {
          i := i + 1;
        }
      }
      assert cache == cache[..i] + cache[i..];
    }

    /** Last pass: the condemned segments go back to the system. */
    method Unmap(doomed: seq<nat>)
      requires Distinct(doomed)
      modifies this`headers, this`purges
      ensures headers == Without(old(headers), doomed)
      ensures purges == old(purges) + |doomed|
    {
      for k := 0 to |doomed|
        invariant headers == Without(old(headers), doomed[..k])
        invariant purges == old(purges) + k
      {
        headers := headers - {doomed[k]};
        purges := purges + 1;
        assert doomed[..k + 1] == doomed[..k] + [doomed[k]];
      }
      assert doomed[..|doomed|] == doomed;
    }

    /** memop_purge_locked. */
    method Evaluate(now: nat)
      requires Inv(State()) && Linked(State()) && now <= clock
      modifies this
      ensures State() == ChunkSpec.Evaluate(old(State()), now)
      ensures Evaluated(old(State()), State(), now)
    {
      hide Inv, Linked, ChunkSpec.PurgeApply, Evaluated;
      EvaluationDone(State(), now);
      if now - lastPurge < PURGE_PERIOD { return; }
      ghost var m := State();
      lastPurge := now;
      peak := Max(peak, cacheCount);
      avg := avg + Quarter(cacheCount - avg);
      if !purging {
        if avg > PURGE_HIGH { purging := true; } else { return; }
      } else if avg < PURGE_LOW {
        purging := false;
        return;
      }
      var target := cacheCount - PURGE_LOW;
      if target > 0 {
        SmoothingKeeps(m, now, true);
        LinkedInv(State());
        PurgeApply(now, false, target);
      }
    }

    /** chunk_release. */
    method Release(h: nat, c: Chunk, dt: nat)
      requires Inv(State()) && c in place && place[c] == Used
      modifies this
      ensures Inv(State()) && State() == Next(old(State()), ChunkSpec.Release(h, c, dt))
      ensures Returned(old(State()), State(), h, c, old(clock) + dt)
    {
      hide Inv, Linked, ChunkSpec.GiveShared, Returned;
      ghost var m := State();
      ReleaseReturns(m, h, c, dt);
      LinkedInv(m);
      UsedIsLive(m, c);
      NextKeepsInv(m, ChunkSpec.Release(h, c, dt));
      if h < |heaps| && heaps[h].count < HEAP_CACHE_MAX {
        heaps := heaps[h := heaps[h].(local := [c] + heaps[h].local, count := heaps[h].count + 1)];
        place := place[c := Local(h)];
      } else {
        GiveShared(c, clock + dt);
      }
    }

    /** The locked section of chunk_release. */
    method GiveShared(c: Chunk, now: nat)
      requires Inv(State()) && Linked(State()) && c in place && place[c] == Used && SegOf(c) in headers && now >= clock
      modifies this
      ensures State() == ChunkSpec.GiveShared(old(State()), c, now)
    {
      hide Inv, Linked, ChunkSpec.Evaluate;
      ghost var m := State();
      PutInCacheKeeps(m, c, now);
      LinkedInv(PutInCache(m, c, now));
      var s := SegOf(c);
      var g := headers[s];
      cache := [c] + cache;
      cacheCount := cacheCount + 1;
      clock := now;
      place := place[c := Cached];
      var live := if g.live > 0 then g.live - 1 else 0;
      headers := headers[s := g.(live := live, idleSince := if live == 0 then now else g.idleSince)];
      if live == 0 { Evaluate(now); }
    }

    /** chunk_acquire: from the thread's cache, the shared cache, the newest segment, or a segment
        `os` the system maps (0 when it cannot). The chunk was in nobody else's hands. */
    method Acquire(h: nat, os: nat) returns (c: Chunk)
      requires Inv(State()) && os !in headers
      modifies this
      ensures Inv(State())
      ensures Acquired(old(State()), State(), h, os, c)
      ensures c == 0 ==> os == 0 && State() == old(State())
      ensures c != 0 ==> place == old(place)[c := Used] && (c in old(place) ==> old(place)[c] == Cached || old(place)[c] == Local(h))
      ensures c != 0 ==> || State() == Next(old(State()), ChunkSpec.Acquire(h))
                         || State() == Next(Next(old(State()), MapSegment(os)), LinkSegment(os))
    {
      hide Acquired, Inv, ChunkSpec.TakeLocal, ChunkSpec.TakeCached, Bump, Map, Link;
      ghost var m := State();
      LinkedInv(m);
      NextKeepsInv(m, ChunkSpec.Acquire(h));
      if h < |heaps| && heaps[h].local != [] {
        FromOwnCache(m, h, os);
        c := TakeLocal(h);
      } else if cache != [] {
        CachedIsMapped(m);
        FromSharedCache(m, h, os);
        c := TakeCached();
      } else if segments != [] && headers[segments[0]].nextChunk < SEG_SPANS {
        FromNewestSegment(m, h, os);
        c := TakeBump();
      } else {
        MayMap(m, os);
        FromTheSystem(m, h, os);
        if os != 0 { c := TakeFresh(os); } else { c := 0; }
      }
    }

    method TakeLocal(h: nat) returns (c: Chunk)
      requires Inv(State()) && h < |heaps| && heaps[h].local != []
      modifies this`heaps, this`place
      ensures c == old(heaps)[h].local[0]
      ensures c != 0 && c in old(place) && old(place)[c] == Local(h) && place == old(place)[c := Used]
      ensures State() == ChunkSpec.TakeLocal(old(State()), h)
    {
      assert HeapOk(State(), h);
      c := heaps[h].local[0];
      assert c in heaps[h].local;
      heaps := heaps[h := heaps[h].(local := heaps[h].local[1..], count := heaps[h].count - 1)];
      place := place[c := Used];
    }

    method TakeCached() returns (c: Chunk)
      requires Inv(State()) && cache != []
      modifies this`cache, this`cacheCount, this`headers, this`place
      ensures c == old(cache)[0]
      ensures c != 0 && c in old(place) && old(place)[c] == Cached && place == old(place)[c := Used]
      ensures old(cache) != [] && SegOf(old(cache)[0]) in old(headers) && State() == ChunkSpec.TakeCached(old(State()))
    {
      CachedIsMapped(State());
      c := cache[0];
      cache := cache[1..];
      cacheCount := cacheCount - 1;
      var g := headers[SegOf(c)];
      headers := headers[SegOf(c) := g.(live := g.live + 1)];
      place := place[c := Used];
    }

    method TakeBump() returns (c: Chunk)
      requires Inv(State()) && CanBump(State())
      modifies this`headers, this`place
      ensures c == 64 * segments[0] + old(headers)[segments[0]].nextChunk
      ensures c != 0 && c !in old(place) && place == old(place)[c := Used]
      ensures State() == Bump(old(State()))
    {
      var s := segments[0];
      var g := headers[s];
      assert HeaderOk(State(), s);
      c := ChunkAt(s, g.nextChunk);
      headers := headers[s := g.(nextChunk := g.nextChunk + 1, live := g.live + 1)];
      place := place[c := Used];
    }

    /** A segment fresh from the system: its header is filled in before it is linked. */
    method TakeFresh(s: nat) returns (c: Chunk)
      requires Inv(State()) && s !in headers
      modifies this
      ensures Inv(State())
      ensures c == 64 * s + 1 && c !in old(place) && place == old(place)[c := Used]
      ensures State() == Next(Next(old(State()), MapSegment(s)), LinkSegment(s))
    {
      hide Inv, Linked;
      ghost var m := State();
      LinkedInv(m);
      NotHandedOut(m, s);
      NextKeepsInv(m, MapSegment(s));
      LinkedInv(Next(m, MapSegment(s)));
      NextKeepsInv(Next(m, MapSegment(s)), LinkSegment(s));
      c := ChunkAt(s, 1);
      headers := headers[s := Seg(2, 1, 0)];
      place := place[c := Used];
      segments := [s] + segments;
      unlinked := unlinked + {s} - {s};
    }

    /** memop_purge. */
    method Trim(dt: nat)
      requires Inv(State())
      modifies this
      ensures Inv(State()) && State() == Next(old(State()), ChunkSpec.Trim(dt))
    {
      hide Inv, ChunkSpec.PurgeApply, Linked;
      ghost var m := State();
      LinkedInv(m);
      NextKeepsInv(m, ChunkSpec.Trim(dt));
      ClockKeeps(m, dt);
      LinkedInv(m.(clock := m.clock + dt));
      clock := clock + dt;
      PurgeApply(clock, true, 0);
    }
  }
}
