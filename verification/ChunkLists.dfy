/** Counting and list facts the chunk accounting rests on. */
module ChunkLists {
  import opened ChunkSpec

  // ---------------------------------------------------------------- lists against places

  lemma PushOk(xs: seq<Chunk>, place: map<Chunk, Place>, c: Chunk, p: Place)
    requires ListOk(xs, place, p) && (c in place ==> place[c] != p)
    ensures ListOk([c] + xs, place[c := p], p)
  {
    var ys := [c] + xs;
    assert c !in xs;
    forall x ensures x in ys <==> x == c || x in xs {
      assert ys[0] == c && ys[1..] == xs;
    }
  }

  lemma PopOk(xs: seq<Chunk>, place: map<Chunk, Place>, p: Place, q: Place)
    requires ListOk(xs, place, p) && xs != [] && p != q
    ensures xs[0] in place && place[xs[0]] == p
    ensures ListOk(xs[1..], place[xs[0] := q], p)
  {
    var c, ys := xs[0], xs[1..];
    assert c in xs;
    forall x: Chunk ensures x in ys <==> x in xs && x != c {
      assert xs == [c] + ys;
    }
  }

  /** A chunk that moves between two other places does not concern this list. */
  lemma MovesElsewhere(xs: seq<Chunk>, place: map<Chunk, Place>, p: Place, c: Chunk, q: Place)
    requires ListOk(xs, place, p) && (c in place ==> place[c] != p) && q != p
    ensures ListOk(xs, place[c := q], p)
  {
  }

  // ---------------------------------------------------------------- counts

  lemma Address(c: Chunk)
    ensures Index(c) < SEG_SPANS && ChunkAt(SegOf(c), Index(c)) == c
  {
  }

  lemma {:induction false} CountMove(place: map<Chunk, Place>, c: Chunk, q: Place, s: nat, n: nat)
    requires n <= SEG_SPANS
    ensures CountHeld(place[c := q], s, n) - CountHeld(place, s, n) ==
            if SegOf(c) == s && 1 <= Index(c) < n then (if q != Cached then 1 else 0) - (if Held(place, c) then 1 else 0) else 0
  {
    if n > 1 {
      CountMove(place, c, q, s, n - 1);
      Address(c);
      assert ChunkAt(s, n - 1) == c <==> SegOf(c) == s && Index(c) == n - 1;
    }
  }

  lemma {:induction false} CountAgrees(a: map<Chunk, Place>, b: map<Chunk, Place>, s: nat, n: nat)
    requires n <= SEG_SPANS
    requires forall c {:trigger Held(a, c)} {:trigger Held(b, c)} :: SegOf(c) == s ==> Held(a, c) == Held(b, c)
    ensures CountHeld(a, s, n) == CountHeld(b, s, n)
  {
    if n > 1 { CountAgrees(a, b, s, n - 1); }
  }

  lemma {:induction false} NoneHeld(place: map<Chunk, Place>, s: nat, n: nat, i: nat)
    requires 1 <= i < n <= SEG_SPANS && CountHeld(place, s, n) == 0
    ensures !Held(place, ChunkAt(s, i))
  {
    if i < n - 1 { NoneHeld(place, s, n - 1, i); }
  }

  lemma {:induction false} HeldIsCounted(place: map<Chunk, Place>, c: Chunk, n: nat)
    requires 1 <= Index(c) < n <= SEG_SPANS && Held(place, c)
    ensures CountHeld(place, SegOf(c), n) > 0
  {
    Address(c);
    if Index(c) < n - 1 { HeldIsCounted(place, c, n - 1); }
  }

  lemma {:induction false} EmptySegment(place: map<Chunk, Place>, s: nat, n: nat)
    requires n <= SEG_SPANS && forall c {:trigger c in place} :: c in place ==> SegOf(c) != s
    ensures CountHeld(place, s, n) == 0
  {
    if n > 1 { EmptySegment(place, s, n - 1); }
  }

  lemma {:induction false} NotListed(xs: seq<Chunk>, s: nat)
    requires forall c {:trigger c in xs} :: c in xs ==> SegOf(c) != s
    ensures CountIn(xs, s) == 0
  {
    if xs != [] {
      assert xs[0] in xs;
      assert forall c {:trigger c in xs[1..]} :: c in xs[1..] ==> c in xs;
      NotListed(xs[1..], s);
    }
  }

  // ---------------------------------------------------------------- what a purge leaves in the cache

  lemma {:induction false} SurvivingMembers(xs: seq<Chunk>, doomed: seq<nat>, c: Chunk)
    ensures c in Surviving(xs, doomed) <==> c in xs && SegOf(c) !in doomed
  {
    if xs != [] {
      SurvivingMembers(xs[1..], doomed, c);
      assert xs == [xs[0]] + xs[1..];
    }
  }

  lemma {:induction false} SurvivingDistinct(xs: seq<Chunk>, doomed: seq<nat>)
    requires Distinct(xs)
    ensures Distinct(Surviving(xs, doomed))
  {
    if xs != [] {
      SurvivingDistinct(xs[1..], doomed);
      SurvivingMembers(xs[1..], doomed, xs[0]);
    }
  }

  lemma {:induction false} SurvivingCount(xs: seq<Chunk>, doomed: seq<nat>, s: nat)
    requires s !in doomed
    ensures CountIn(Surviving(xs, doomed), s) == CountIn(xs, s)
  {
    if xs != [] { SurvivingCount(xs[1..], doomed, s); }
  }

  /** The cached chunks of a list of segments. */
  function CountInAll(xs: seq<Chunk>, segs: seq<nat>): nat {
    if segs == [] then 0 else CountIn(xs, segs[0]) + CountInAll(xs, segs[1..])
  }

  lemma {:induction false} CountInAllStep(xs: seq<Chunk>, segs: seq<nat>)
    requires xs != [] && Distinct(segs)
    ensures CountInAll(xs, segs) == CountInAll(xs[1..], segs) + if SegOf(xs[0]) in segs then 1 else 0
  {
    if segs != [] {
      CountInAllStep(xs, segs[1..]);
      assert segs == [segs[0]] + segs[1..];
    }
  }

  lemma {:induction false} NothingListed(segs: seq<nat>)
    ensures CountInAll([], segs) == 0
  {
    if segs != [] { NothingListed(segs[1..]); }
  }

  /** A purge removes exactly the chunks of the condemned segments. */
  lemma {:induction false} SurvivingSize(xs: seq<Chunk>, doomed: seq<nat>)
    requires Distinct(doomed)
    ensures |Surviving(xs, doomed)| + CountInAll(xs, doomed) == |xs|
  {
    if xs == [] {
      NothingListed(doomed);
    } else {
      SurvivingSize(xs[1..], doomed);
      CountInAllStep(xs, doomed);
    }
  }

  // ---------------------------------------------------------------- which segments are condemned

  lemma {:induction false} CondemnMembers(segs: seq<nat>, headers: map<nat, Seg>, now: nat, force: bool, target: int, s: nat)
    requires forall i {:trigger segs[i]} :: 0 <= i < |segs| ==> segs[i] in headers
    requires Distinct(segs)
    ensures var r := Condemn(segs, headers, now, force, target);
      && (s in segs <==> s in r.0 || s in r.1) && !(s in r.0 && s in r.1)
      && (s in r.1 ==> s in headers && headers[s].live == 0 && (force || now - headers[s].idleSince >= PURGE_DELAY))
      && (force && s in r.0 ==> s in headers && headers[s].live > 0)
    decreases |segs|
  {
    if segs != [] && (force || target > 0) {
      var rest, g := segs[1..], headers[segs[0]];
      assert segs == [segs[0]] + rest;
      var t := if g.live == 0 && (force || now - g.idleSince >= PURGE_DELAY) && !force then target - (g.nextChunk - 1) else target;
      CondemnMembers(rest, headers, now, force, t, s);
    } else if s in segs {
      var i :| 0 <= i < |segs| && segs[i] == s;
    }
  }

  lemma {:induction false} CondemnDistinct(segs: seq<nat>, headers: map<nat, Seg>, now: nat, force: bool, target: int)
    requires forall i {:trigger segs[i]} :: 0 <= i < |segs| ==> segs[i] in headers
    requires Distinct(segs)
    ensures var r := Condemn(segs, headers, now, force, target); Distinct(r.0) && Distinct(r.1)
    decreases |segs|
  {
    if segs != [] && (force || target > 0) {
      var rest, g := segs[1..], headers[segs[0]];
      var t := if g.live == 0 && (force || now - g.idleSince >= PURGE_DELAY) && !force then target - (g.nextChunk - 1) else target;
      CondemnDistinct(rest, headers, now, force, t);
      CondemnMembers(rest, headers, now, force, t, segs[0]);
    }
  }

  /** The condemned segments overshoot the target by less than one segment. */
  lemma {:induction false} CondemnTotal(segs: seq<nat>, headers: map<nat, Seg>, now: nat, target: int, cache: seq<Chunk>)
    requires forall i {:trigger segs[i]} :: 0 <= i < |segs| ==>
      segs[i] in headers && headers[segs[i]].nextChunk <= SEG_SPANS
      && headers[segs[i]].live + CountIn(cache, segs[i]) == headers[segs[i]].nextChunk - 1
    ensures CountInAll(cache, Condemn(segs, headers, now, false, target).1) <= Max(0, target + SEG_SPANS - 2)
    decreases |segs|
  {
    if segs != [] && target > 0 {
      var rest, g := segs[1..], headers[segs[0]];
      if g.live == 0 && now - g.idleSince >= PURGE_DELAY {
        CondemnTotal(rest, headers, now, target - (g.nextChunk - 1), cache);
      } else {
        CondemnTotal(rest, headers, now, target, cache);
      }
    }
  }
}
