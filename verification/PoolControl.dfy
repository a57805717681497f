/** What every step of the pool keeps true of its control words: program counters, parked flags,
    the two counts, and the shard positions that threads hold. */
module PoolControl {
  import opened RingSpec
  import opened PoolModel

  // ---------------------------------------------------------------- places a worker can be

  /** Only core workers spin and announce themselves; only elastic ones run the elastic loop. */
  predicate KindOk(g: Config, w: nat, pc: PC) {
    match pc
    case Try(site, _) =>
      (match site
       case Top => w < g.nWorkers
       case Armed => w < g.nWorkers
       case Inner => w >= g.nWorkers
       case _ => w < g.nCore)
    case Prepare => w < g.nWorkers
    case SpinStart => w < g.nCore
    case SpinEnd(_) => w < g.nCore
    case ChainBack(_) => w < g.nCore
    case ChainFront(_, _) => w < g.nCore
    case Announce1 => w < g.nCore
    case Announce2 => w < g.nCore
    case Unpark1(_) => w < g.nCore
    case Unpark2(_) => w < g.nCore
    case Waking(_, start) => start ==> w < g.nCore
    case Elastic0 => w >= g.nWorkers
    case Elastic1 => w >= g.nWorkers
    case Elastic2 => w >= g.nWorkers
    case Elastic3 => w >= g.nWorkers
    case _ => true
  }

  predicate WakeOk(g: Config, wk: Wake) {
    match wk
    case Look(start, j) => start < g.nCore && j < g.nCore
    case Grab(start, j) => start < g.nCore && j < g.nCore
    case Signal(k) => k < g.nTotal
    case _ => true
  }

  predicate IndexOk(g: Config, ct: Ctl) {
    && ct.cursor < g.nShards
    && ct.victim < g.nTotal
    && (match ct.pc
        case Try(_, ph) =>
          (match ph
           case Head(k) => k < g.nShards
           case Test(k, _, n) => k < g.nShards && n < g.batch
           case Cas(k, _, n) => k < g.nShards && 0 < n <= g.batch
           case _ => true)
        case Waking(wk, _) => WakeOk(g, wk)
        case _ => true)
  }

  /** A scan is stale, or the positions it has passed are published. */
  predicate Scanned(r: Shard<Task>, pos: nat, n: nat) {
    && pos <= r.head
    && (r.head == pos ==> pos + n <= |r.log| && forall p {:trigger p in r.pub} :: pos <= p < pos + n ==> p in r.pub)
  }

  predicate ScanOk(g: Config, rings: seq<Shard<Task>>, ct: Ctl) {
    match ct.pc
    case Try(_, ph) =>
      (match ph
       case Test(k, pos, n) =>
         var s := ShardAt(g, ct.cursor, k); s < |rings| && Scanned(rings[s], pos, n)
       case Cas(k, pos, n) =>
         var s := ShardAt(g, ct.cursor, k); s < |rings| && Scanned(rings[s], pos, n)
       case _ => true)
    case _ => true
  }

  predicate WorkerOk(g: Config, rings: seq<Shard<Task>>, w: nat, ct: Ctl) {
    KindOk(g, w, ct.pc) && IndexOk(g, ct) && ScanOk(g, rings, ct)
  }

  // ---------------------------------------------------------------- rings and submitters

  predicate ExtOk(g: Config, rings: seq<Shard<Task>>, e: ExtPC, hand: Option<Task>) {
    match e
    case Away => hand.None?
    case Counting(s) => s < g.nShards && hand.Some?
    case Reserving(s) => s < g.nShards && hand.Some?
    case Undoing(s) => s < g.nShards && hand.Some?
    case Publishing(s, p) => s < g.nShards && s < |rings| && hand.None? && p < |rings[s].log| && p !in rings[s].pub
    case Alerting(s, wk) => s < g.nShards && hand.None? && WakeOk(g, wk)
  }

  predicate Publishes(e: ExtPC, s: nat, p: nat) {
    e.Publishing? && e.s == s && e.p == p
  }

  /** Every reserved position that is not published has exactly its submitter working on it. */
  ghost predicate RingOk(r: Shard<Task>, s: nat, ext: seq<ExtPC>) {
    && Valid(r)
    && (forall p: nat {:trigger p in r.pub} :: p < |r.log| && p !in r.pub ==> exists x: nat :: x < |ext| && Publishes(ext[x], s, p))
    && (forall x, y: nat, p: nat {:trigger Publishes(ext[x], s, p), Publishes(ext[y], s, p)} ::
          0 <= x < |ext| && y < |ext| && Publishes(ext[x], s, p) && Publishes(ext[y], s, p) ==> x == y)
  }

  // ---------------------------------------------------------------- the two counts

  /** Between the increment and the decrement of n_parked_core. */
  predicate Announced(g: Config, w: nat, pc: PC) {
    w < g.nCore &&
    match pc
    case Try(site, _) => site == Retest
    case Sleep => true
    case Woke => true
    case Unpark1(_) => true
    case _ => false
  }

  /** Between the increment and the decrement of n_girando. */
  predicate Counted(pc: PC) {
    match pc
    case Try(site, _) => site == Spin(true)
    case SpinEnd(_) => true
    case _ => false
  }

  function AnnouncedIn(g: Config, ctl: seq<Ctl>, n: nat): nat
    requires n <= |ctl|
  {
    if n == 0 then 0 else AnnouncedIn(g, ctl, n - 1) + if Announced(g, n - 1, ctl[n - 1].pc) then 1 else 0
  }

  function CountedIn(ctl: seq<Ctl>, n: nat): nat
    requires n <= |ctl|
  {
    if n == 0 then 0 else CountedIn(ctl, n - 1) + if Counted(ctl[n - 1].pc) then 1 else 0
  }

  lemma {:induction false} AnnouncedUpdate(g: Config, ctl: seq<Ctl>, ctl': seq<Ctl>, w: nat, n: nat)
    requires |ctl'| == |ctl| && w < |ctl| && n <= |ctl|
    requires forall i {:trigger ctl'[i]} :: 0 <= i < |ctl| && i != w ==> ctl'[i].pc == ctl[i].pc
    ensures AnnouncedIn(g, ctl', n) - AnnouncedIn(g, ctl, n) ==
            if w < n then (if Announced(g, w, ctl'[w].pc) then 1 else 0) - (if Announced(g, w, ctl[w].pc) then 1 else 0) else 0
  {
    if n > 0 { AnnouncedUpdate(g, ctl, ctl', w, n - 1); }
  }

  lemma {:induction false} CountedUpdate(ctl: seq<Ctl>, ctl': seq<Ctl>, w: nat, n: nat)
    requires |ctl'| == |ctl| && w < |ctl| && n <= |ctl|
    requires forall i {:trigger ctl'[i]} :: 0 <= i < |ctl| && i != w ==> ctl'[i].pc == ctl[i].pc
    ensures CountedIn(ctl', n) - CountedIn(ctl, n) ==
            if w < n then (if Counted(ctl'[w].pc) then 1 else 0) - (if Counted(ctl[w].pc) then 1 else 0) else 0
  {
    if n > 0 { CountedUpdate(ctl, ctl', w, n - 1); }
  }

  lemma {:induction false} NoneAnnounced(g: Config, ctl: seq<Ctl>, n: nat, w: nat)
    requires w < n <= |ctl| && AnnouncedIn(g, ctl, n) == 0
    ensures !Announced(g, w, ctl[w].pc)
  {
    if w < n - 1 { NoneAnnounced(g, ctl, n - 1, w); }
  }

  lemma {:induction false} SomeCounted(ctl: seq<Ctl>, n: nat) returns (w: nat)
    requires n <= |ctl| && CountedIn(ctl, n) > 0
    ensures w < n && Counted(ctl[w].pc)
  {
    if Counted(ctl[n - 1].pc) { w := n - 1; } else { w := SomeCounted(ctl, n - 1); }
  }

  // ---------------------------------------------------------------- parked flags

  predicate Raising(pc: PC, k: nat) {
    pc.Waking? && pc.wk == Signal(k)
  }

  predicate ExtRaising(e: ExtPC, k: nat) {
    e.Alerting? && e.wk == Signal(k)
  }

  /** A waker has cleared the flag of worker k and is about to set its wait word. */
  ghost predicate Pending(ctl: seq<Ctl>, ext: seq<ExtPC>, k: nat) {
    || (exists v: nat :: v < |ctl| && Raising(ctl[v].pc, k))
    || (exists x: nat :: x < |ext| && ExtRaising(ext[x], k))
  }

  /** From setting its flag until it leaves its sleep. */
  predicate Exposed(pc: PC) {
    match pc
    case Announce2 => true
    case Try(site, _) => site == Retest
    case Sleep => true
    case _ => false
  }

  /** If someone cleared the flag of a core worker that may be about to sleep, its wait word is
      set or about to be set, so it will not stay asleep. */
  ghost predicate FlagOk(g: Config, ctl: seq<Ctl>, ext: seq<ExtPC>, k: nat)
    requires k < |ctl|
  {
    k < g.nCore && Exposed(ctl[k].pc) && !ctl[k].parked ==> ctl[k].signal || Pending(ctl, ext, k)
  }

  // ---------------------------------------------------------------- the invariant

  ghost predicate CtlInv(g: Config, st: State) {
    && Shape(g, st)
    && (forall w {:trigger st.ctl[w]} :: 0 <= w < g.nTotal ==> WorkerOk(g, st.rings, w, st.ctl[w]))
    && (forall x {:trigger st.ext[x]} :: 0 <= x < |st.ext| ==> ExtOk(g, st.rings, st.ext[x], st.extHand[x]))
    && (forall s {:trigger st.rings[s]} :: 0 <= s < g.nShards ==> RingOk(st.rings[s], s, st.ext))
    && st.nParked == AnnouncedIn(g, st.ctl, g.nTotal)
    && st.nSpinning == CountedIn(st.ctl, g.nTotal)
    && (forall k {:trigger st.ctl[k]} :: 0 <= k < g.nTotal ==> FlagOk(g, st.ctl, st.ext, k))
  }

  // ---------------------------------------------------------------- worker steps: own place

  lemma WakeNextOk(g: Config, st: State, wk: Wake, q: Queue, pick: Pick)
    requires Shape(g, st) && WakeOk(g, wk)
    requires match q case ShardQueue(s) => s < g.nShards case DequeQueue(w) => w < g.nTotal
    ensures var wn := WakeNext(g, st, wk, q, pick); wn.Some? ==> WakeOk(g, wn.value)
    ensures var u := Unflags(g, st, wk); u.Some? ==> u.value < g.nCore && WakeNext(g, st, wk, q, pick) == Some(Signal(u.value))
  {
  }

  lemma FoundKindOk(g: Config, w: nat, site: Site, pick: Pick)
    requires ConfigOk(g) && forall ph :: KindOk(g, w, Try(site, ph))
    ensures KindOk(g, w, AfterFound(site)) && KindOk(g, w, AfterFail(g, w, site, pick))
  {
    assert KindOk(g, w, Try(site, Lifo));
  }

  lemma TryKindOk(g: Config, st: State, w: nat, pick: Pick)
    requires Shape(g, st) && w < g.nTotal && st.ctl[w].pc.Try? && KindOk(g, w, st.ctl[w].pc)
    ensures KindOk(g, w, TryAct(g, st, w, pick).next)
  {
    hide AfterFound, AfterFail, AfterTest;
    FoundKindOk(g, w, st.ctl[w].pc.site, pick);
  }

  lemma TryIndexOk(g: Config, st: State, w: nat, pick: Pick)
    requires Shape(g, st) && w < g.nTotal && st.ctl[w].pc.Try? && IndexOk(g, st.ctl[w])
    ensures var a := TryAct(g, st, w, pick); IndexOk(g, CtlAfter(st.ctl, w, a)[w].(pc := a.next))
  {
  }

  lemma WakingKindOk(g: Config, st: State, w: nat, pick: Pick)
    requires Shape(g, st) && w < g.nTotal && st.ctl[w].pc.Waking?
    requires KindOk(g, w, st.ctl[w].pc) && IndexOk(g, st.ctl[w])
    ensures var a := ActOf(g, st, w, pick);
      && KindOk(g, w, a.next)
      && IndexOk(g, CtlAfter(st.ctl, w, a)[w].(pc := a.next))
  {
    hide WakeOk, WakeNext, Unflags;
    WakeNextOk(g, st, st.ctl[w].pc.wk, DequeQueue(w), pick);
  }

  lemma OtherKindOk(g: Config, st: State, w: nat, pick: Pick)
    requires Shape(g, st) && w < g.nTotal && !st.ctl[w].pc.Try? && !st.ctl[w].pc.Waking?
    requires KindOk(g, w, st.ctl[w].pc) && IndexOk(g, st.ctl[w])
    ensures var a := ActOf(g, st, w, pick);
      && KindOk(g, w, a.next)
      && IndexOk(g, CtlAfter(st.ctl, w, a)[w].(pc := a.next))
  {
  }

  /** Every act names existing workers and shards, and claims only what it has scanned. */
  predicate ActOk(g: Config, st: State, w: nat, a: Act)
    requires Shape(g, st) && w < g.nTotal
  {
    match a
    case Unflag(k, next) => k < g.nCore && Raising(next, k)
    case Raise(k, _) => k < g.nTotal && Raising(st.ctl[w].pc, k)
    case ClaimShard(s, n, next) =>
      s < g.nShards && n > 0 && Claimable(st.rings[s], st.rings[s].head, n) && next.Try? && next.ph == Buffer
    case FromVictim(v, _) => v < g.nTotal && v != w && st.dat[v].deque != []
    case _ => true
  }

  lemma TryActOk(g: Config, st: State, w: nat, pick: Pick)
    requires Shape(g, st) && w < g.nTotal && st.ctl[w].pc.Try? && WorkerOk(g, st.rings, w, st.ctl[w])
    ensures ActOk(g, st, w, TryAct(g, st, w, pick))
  {
  }

  lemma ActIsOk(g: Config, st: State, w: nat, pick: Pick)
    requires Shape(g, st) && w < g.nTotal && WorkerOk(g, st.rings, w, st.ctl[w])
    ensures ActOk(g, st, w, ActOf(g, st, w, pick))
  {
    if st.ctl[w].pc.Try? {
      TryActOk(g, st, w, pick);
    } else if st.ctl[w].pc.Waking? {
      WakeNextOk(g, st, st.ctl[w].pc.wk, DequeQueue(w), pick);
    }
  }

  /** The scanner's own promise: a test that succeeds at the head has seen a published position. */
  lemma TryScanOk(g: Config, st: State, w: nat, pick: Pick)
    requires Shape(g, st) && w < g.nTotal && st.ctl[w].pc.Try? && WorkerOk(g, st.rings, w, st.ctl[w])
    requires forall s {:trigger st.rings[s]} :: 0 <= s < g.nShards ==> Valid(st.rings[s])
    ensures var a := TryAct(g, st, w, pick);
      !a.ClaimShard? ==> ScanOk(g, st.rings, CtlAfter(st.ctl, w, a)[w].(pc := a.next))
  {
  }

  lemma OwnScanOk(g: Config, st: State, w: nat, pick: Pick)
    requires Shape(g, st) && w < g.nTotal && WorkerOk(g, st.rings, w, st.ctl[w])
    requires forall s {:trigger st.rings[s]} :: 0 <= s < g.nShards ==> Valid(st.rings[s])
    ensures var a := ActOf(g, st, w, pick);
      ScanOk(g, RingsAfter(st, a), CtlAfter(st.ctl, w, a)[w].(pc := a.next))
  {
    if st.ctl[w].pc.Try? {
      TryActOk(g, st, w, pick);
      TryScanOk(g, st, w, pick);
    }
  }

  // ---------------------------------------------------------------- worker steps: everyone else

  lemma ClaimKeepsScan(g: Config, rings: seq<Shard<Task>>, s: nat, n: nat, ct: Ctl)
    requires s < |rings| && n > 0 && ScanOk(g, rings, ct)
    ensures ScanOk(g, rings[s := Claim(rings[s], n)], ct)
  {
  }

  lemma ReserveKeepsScan(g: Config, rings: seq<Shard<Task>>, s: nat, t: Task, ct: Ctl)
    requires s < |rings| && ScanOk(g, rings, ct)
    ensures ScanOk(g, rings[s := Reserve(rings[s], t)], ct)
  {
  }

  lemma PublishKeepsScan(g: Config, rings: seq<Shard<Task>>, s: nat, p: nat, ct: Ctl)
    requires s < |rings| && ScanOk(g, rings, ct)
    ensures ScanOk(g, rings[s := Publish(rings[s], p)], ct)
  {
  }

  lemma ClaimKeepsRing(r: Shard<Task>, n: nat, s: nat, ext: seq<ExtPC>)
    requires RingOk(r, s, ext) && Claimable(r, r.head, n)
    ensures RingOk(Claim(r, n), s, ext)
  {
    var r' := Claim(r, n);
    forall p {:trigger p in r'.pub} | 0 <= p < r'.head ensures p in r'.pub {
    }
  }

  lemma OtherWorkerOk(g: Config, st: State, w: nat, pick: Pick, v: nat)
    requires CtlInv(g, st) && w < g.nTotal && v < g.nTotal && v != w
    ensures var st' := WorkerNext(g, st, w, pick);
      WorkerOk(g, st'.rings, v, st'.ctl[v]) && st'.ctl[v].pc == st.ctl[v].pc
  {
    hide ActOf, TryAct, KindOk, DatAfter, PlaceAfter, LedgerAfter;
    assert WorkerOk(g, st.rings, w, st.ctl[w]);
    ActIsOk(g, st, w, pick);
    var a := ActOf(g, st, w, pick);
    assert WorkerOk(g, st.rings, v, st.ctl[v]);
    if a.ClaimShard? { ClaimKeepsScan(g, st.rings, a.s, a.n, st.ctl[v]); }
  }

  lemma OwnWorkerOk(g: Config, st: State, w: nat, pick: Pick)
    requires CtlInv(g, st) && w < g.nTotal
    ensures var st' := WorkerNext(g, st, w, pick); WorkerOk(g, st'.rings, w, st'.ctl[w])
  {
    assert WorkerOk(g, st.rings, w, st.ctl[w]);
    forall s | 0 <= s < g.nShards ensures Valid(st.rings[s]) {
      assert RingOk(st.rings[s], s, st.ext);
    }
    OwnScanOk(g, st, w, pick);
    if st.ctl[w].pc.Try? {
      TryKindOk(g, st, w, pick);
      TryIndexOk(g, st, w, pick);
    } else if st.ctl[w].pc.Waking? {
      WakingKindOk(g, st, w, pick);
    } else {
      OtherKindOk(g, st, w, pick);
    }
  }

  lemma WorkerKeepsRings(g: Config, st: State, w: nat, pick: Pick)
    requires CtlInv(g, st) && w < g.nTotal
    ensures var st' := WorkerNext(g, st, w, pick);
      && (forall s {:trigger st'.rings[s]} :: 0 <= s < g.nShards ==> RingOk(st'.rings[s], s, st'.ext))
      && (forall x {:trigger st'.ext[x]} :: 0 <= x < |st'.ext| ==> ExtOk(g, st'.rings, st'.ext[x], st'.extHand[x]))
  {
    assert WorkerOk(g, st.rings, w, st.ctl[w]);
    ActIsOk(g, st, w, pick);
    var a := ActOf(g, st, w, pick);
    if a.ClaimShard? {
      assert RingOk(st.rings[a.s], a.s, st.ext);
      ClaimKeepsRing(st.rings[a.s], a.n, a.s, st.ext);
    }
  }

  /** The two counts move exactly with the worker's place. */
  lemma TryCounts(g: Config, st: State, w: nat, pick: Pick)
    requires Shape(g, st) && w < g.nTotal && st.ctl[w].pc.Try? && KindOk(g, w, st.ctl[w].pc)
    ensures var next := TryAct(g, st, w, pick).next;
      && (Announced(g, w, next) <==> Announced(g, w, st.ctl[w].pc))
      && (Counted(next) <==> Counted(st.ctl[w].pc))
  {
  }

  lemma ActCounts(g: Config, st: State, w: nat, pick: Pick)
    requires Shape(g, st) && w < g.nTotal && KindOk(g, w, st.ctl[w].pc)
    ensures var a, pc := ActOf(g, st, w, pick), st.ctl[w].pc;
      && (if Announced(g, w, a.next) then 1 else 0) - (if Announced(g, w, pc) then 1 else 0) ==
         (if a.AddParked? then a.delta else 0)
      && (if Counted(a.next) then 1 else 0) - (if Counted(pc) then 1 else 0) ==
         (if a.AddSpinning? then a.delta else 0)
  {
    if st.ctl[w].pc.Try? { TryCounts(g, st, w, pick); }
  }

  lemma WorkerKeepsCounts(g: Config, st: State, w: nat, pick: Pick)
    requires CtlInv(g, st) && w < g.nTotal
    ensures var st' := WorkerNext(g, st, w, pick);
      st'.nParked == AnnouncedIn(g, st'.ctl, g.nTotal) && st'.nSpinning == CountedIn(st'.ctl, g.nTotal)
  {
    var st' := WorkerNext(g, st, w, pick);
    assert WorkerOk(g, st.rings, w, st.ctl[w]);
    ActCounts(g, st, w, pick);
    AnnouncedUpdate(g, st.ctl, st'.ctl, w, g.nTotal);
    CountedUpdate(st.ctl, st'.ctl, w, g.nTotal);
  }

  // ---------------------------------------------------------------- worker steps: flags

  /** How the acting worker's own exposure can change. */
  lemma OwnExposure(g: Config, st: State, w: nat, pick: Pick)
    requires Shape(g, st) && w < g.nCore && KindOk(g, w, st.ctl[w].pc)
    ensures var a := ActOf(g, st, w, pick);
      Exposed(a.next) ==>
        || a == SetParked(true, a.next)
        || (Exposed(st.ctl[w].pc) && !a.SetSignal? && !a.SetParked? && !a.Unflag? && !a.Raise?)
  {
    if st.ctl[w].pc.Try? { OwnTryExposure(g, st, w, pick); }
  }

  lemma OwnTryExposure(g: Config, st: State, w: nat, pick: Pick)
    requires Shape(g, st) && w < g.nCore && st.ctl[w].pc.Try? && KindOk(g, w, st.ctl[w].pc)
    ensures var a := TryAct(g, st, w, pick);
      Exposed(a.next) ==> Exposed(st.ctl[w].pc) && !a.SetSignal? && !a.SetParked? && !a.Unflag? && !a.Raise?
  {
  }

  lemma PendingStays(g: Config, st: State, w: nat, pick: Pick, k: nat)
    requires Shape(g, st) && w < g.nTotal && k < g.nTotal && KindOk(g, w, st.ctl[w].pc)
    requires IndexOk(g, st.ctl[w]) && Pending(st.ctl, st.ext, k)
    ensures var st' := WorkerNext(g, st, w, pick); Pending(st'.ctl, st'.ext, k) || ActOf(g, st, w, pick) == Raise(k, ActOf(g, st, w, pick).next)
  {
    var st' := WorkerNext(g, st, w, pick);
    if x: nat :| x < |st.ext| && ExtRaising(st.ext[x], k) {
      assert ExtRaising(st'.ext[x], k);
    } else {
      var v: nat :| v < |st.ctl| && Raising(st.ctl[v].pc, k);
      if v != w { assert Raising(st'.ctl[v].pc, k); }
    }
  }

  lemma WorkerKeepsFlag(g: Config, st: State, w: nat, pick: Pick, k: nat)
    requires CtlInv(g, st) && w < g.nTotal && k < g.nTotal
    ensures var st' := WorkerNext(g, st, w, pick); FlagOk(g, st'.ctl, st'.ext, k)
  {
    var st' := WorkerNext(g, st, w, pick);
    var a := ActOf(g, st, w, pick);
    assert WorkerOk(g, st.rings, w, st.ctl[w]) && FlagOk(g, st.ctl, st.ext, k);
    ActIsOk(g, st, w, pick);
    if k < g.nCore && Exposed(st'.ctl[k].pc) && !st'.ctl[k].parked && !st'.ctl[k].signal {
      if k == w {
        OwnExposure(g, st, w, pick);
      } else if a.Unflag? && a.k == k {
        assert Raising(st'.ctl[w].pc, k);
      }
      if !(a.Unflag? && a.k == k) { PendingStays(g, st, w, pick, k); }
    }
  }

  /** The control invariant is kept by every step of every worker. */
  lemma WorkerKeepsCtl(g: Config, st: State, w: nat, pick: Pick)
    requires CtlInv(g, st) && w < g.nTotal
    ensures CtlInv(g, WorkerNext(g, st, w, pick))
  {
    var st' := WorkerNext(g, st, w, pick);
    forall v | 0 <= v < g.nTotal
      ensures WorkerOk(g, st'.rings, v, st'.ctl[v]) && FlagOk(g, st'.ctl, st'.ext, v)
    {
      if v == w { OwnWorkerOk(g, st, w, pick); } else { OtherWorkerOk(g, st, w, pick, v); }
      WorkerKeepsFlag(g, st, w, pick, v);
    }
    WorkerKeepsRings(g, st, w, pick);
    WorkerKeepsCounts(g, st, w, pick);
  }

  // ---------------------------------------------------------------- steps outside the pool

  /** An outside thread never moves a worker. */
  lemma ExtKeepsPCs(g: Config, st: State, x: nat, pick: Pick)
    requires Shape(g, st) && x < |st.ext|
    ensures var st' := ExtNext(g, st, x, pick);
      && Shape(g, st') && |st'.ext| == |st.ext| && st'.nParked == st.nParked && st'.nSpinning == st.nSpinning
      && (forall y {:trigger st'.ext[y]} :: 0 <= y < |st.ext| && y != x ==> st'.ext[y] == st.ext[y] && st'.extHand[y] == st.extHand[y])
      && (forall v {:trigger st'.ctl[v]} :: 0 <= v < g.nTotal ==>
            && st'.ctl[v].pc == st.ctl[v].pc && st'.ctl[v].cursor == st.ctl[v].cursor && st'.ctl[v].victim == st.ctl[v].victim
            && (st.ctl[v].signal ==> st'.ctl[v].signal)
            && (st'.ctl[v].parked ==> st.ctl[v].parked)
            && (!st'.ctl[v].parked && st.ctl[v].parked ==> ExtRaising(st'.ext[x], v)))
      && (forall k: nat :: ExtRaising(st.ext[x], k) ==> ExtRaising(st'.ext[x], k) || k >= g.nTotal || st'.ctl[k].signal || st' == st)
  {
  }

  lemma ExtKeepsScans(g: Config, st: State, x: nat, pick: Pick, ct: Ctl)
    requires Shape(g, st) && x < |st.ext| && ScanOk(g, st.rings, ct)
    ensures ScanOk(g, ExtNext(g, st, x, pick).rings, ct)
  {
    match st.ext[x] {
      case Reserving(s) => if s < g.nShards && st.extHand[x].Some? { ReserveKeepsScan(g, st.rings, s, st.extHand[x].value, ct); }
      case Publishing(s, p) => if s < g.nShards { PublishKeepsScan(g, st.rings, s, p, ct); }
      case _ =>
    }
  }

  lemma ExtSelfOk(g: Config, st: State, x: nat, pick: Pick)
    requires CtlInv(g, st) && x < |st.ext|
    ensures var st' := ExtNext(g, st, x, pick); ExtOk(g, st'.rings, st'.ext[x], st'.extHand[x])
  {
    assert ExtOk(g, st.rings, st.ext[x], st.extHand[x]);
    match st.ext[x] {
      case Alerting(s, wk) => WakeNextOk(g, st, wk, ShardQueue(s), pick);
      case Reserving(s) => assert RingOk(st.rings[s], s, st.ext);
      case _ =>
    }
  }

  lemma OnePublisher(r: Shard<Task>, s: nat, ext: seq<ExtPC>, x: nat, y: nat, p: nat)
    requires RingOk(r, s, ext) && x < |ext| && y < |ext| && x != y && Publishes(ext[x], s, p)
    ensures !Publishes(ext[y], s, p)
  {
  }

  lemma ExtOthersOk(g: Config, st: State, x: nat, pick: Pick, y: nat)
    requires CtlInv(g, st) && x < |st.ext| && y < |st.ext| && y != x
    ensures var st' := ExtNext(g, st, x, pick); ExtOk(g, st'.rings, st'.ext[y], st'.extHand[y])
  {
    ExtKeepsPCs(g, st, x, pick);
    assert ExtOk(g, st.rings, st.ext[x], st.extHand[x]) && ExtOk(g, st.rings, st.ext[y], st.extHand[y]);
    if st.ext[x].Publishing? && st.ext[y].Publishing? && st.ext[y].s == st.ext[x].s {
      var s, p := st.ext[x].s, st.ext[x].p;
      assert RingOk(st.rings[s], s, st.ext);
      OnePublisher(st.rings[s], s, st.ext, x, y, p);
    }
  }

  lemma ReserveKeepsRing(r: Shard<Task>, t: Task, s: nat, ext: seq<ExtPC>, ext': seq<ExtPC>, x: nat)
    requires RingOk(r, s, ext) && x < |ext| == |ext'|
    requires ext' == ext[x := Publishing(s, |r.log|)] && !ext[x].Publishing?
    requires forall y: nat, p: nat :: y < |ext| && Publishes(ext[y], s, p) ==> p < |r.log|
    ensures RingOk(Reserve(r, t), s, ext')
  {
    var r' := Reserve(r, t);
    forall p: nat {:trigger p in r'.pub} | p < |r'.log| && p !in r'.pub
      ensures exists y: nat :: y < |ext'| && Publishes(ext'[y], s, p)
    {
      if p == |r.log| {
        assert Publishes(ext'[x], s, p);
      } else {
        var y: nat :| y < |ext| && Publishes(ext[y], s, p);
        assert Publishes(ext'[y], s, p);
      }
    }
  }

  lemma PublishKeepsRing(r: Shard<Task>, p: nat, s: nat, ext: seq<ExtPC>, ext': seq<ExtPC>, x: nat)
    requires RingOk(r, s, ext) && x < |ext| == |ext'| && p < |r.log|
    requires ext[x] == Publishing(s, p) && ext' == ext[x := Alerting(s, AskParked)]
    ensures RingOk(Publish(r, p), s, ext')
  {
    var r' := Publish(r, p);
    forall q: nat {:trigger q in r'.pub} | q < |r'.log| && q !in r'.pub
      ensures exists y: nat :: y < |ext'| && Publishes(ext'[y], s, q)
    {
      var y: nat :| y < |ext| && Publishes(ext[y], s, q);
      assert Publishes(ext'[y], s, q);
    }
  }

  lemma QuietKeepsRing(r: Shard<Task>, s: nat, ext: seq<ExtPC>, ext': seq<ExtPC>, x: nat)
    requires RingOk(r, s, ext) && x < |ext| == |ext'|
    requires forall y {:trigger ext'[y]} :: 0 <= y < |ext| && y != x ==> ext'[y] == ext[y]
    requires forall p: nat :: Publishes(ext[x], s, p) <==> Publishes(ext'[x], s, p)
    ensures RingOk(r, s, ext')
  {
    forall p: nat {:trigger p in r.pub} | p < |r.log| && p !in r.pub
      ensures exists y: nat :: y < |ext'| && Publishes(ext'[y], s, p)
    {
      var y: nat :| y < |ext| && Publishes(ext[y], s, p);
      assert Publishes(ext'[y], s, p);
    }
    forall a, b: nat, p: nat | 0 <= a < |ext'| && b < |ext'| && Publishes(ext'[a], s, p) && Publishes(ext'[b], s, p)
      ensures a == b
    {
      assert Publishes(ext[a], s, p) && Publishes(ext[b], s, p);
    }
  }

  lemma ExtKeepsRing(g: Config, st: State, x: nat, pick: Pick, s: nat)
    requires CtlInv(g, st) && x < |st.ext| && s < g.nShards
    ensures var st' := ExtNext(g, st, x, pick); RingOk(st'.rings[s], s, st'.ext)
  {
    var st' := ExtNext(g, st, x, pick);
    var e := st.ext[x];
    assert ExtOk(g, st.rings, e, st.extHand[x]) && RingOk(st.rings[s], s, st.ext);
    if e.Reserving? && e.s == s && pick.yes {
      forall y: nat, p: nat | y < |st.ext| && Publishes(st.ext[y], s, p) ensures p < |st.rings[s].log| {
        assert ExtOk(g, st.rings, st.ext[y], st.extHand[y]);
      }
      ReserveKeepsRing(st.rings[s], st.extHand[x].value, s, st.ext, st'.ext, x);
    } else if e.Publishing? && e.s == s {
      PublishKeepsRing(st.rings[s], e.p, s, st.ext, st'.ext, x);
    } else {
      ExtKeepsPCs(g, st, x, pick);
      QuietKeepsRing(st.rings[s], s, st.ext, st'.ext, x);
    }
  }

  lemma ExtKeepsFlag(g: Config, st: State, x: nat, pick: Pick, k: nat)
    requires CtlInv(g, st) && x < |st.ext| && k < g.nTotal
    ensures var st' := ExtNext(g, st, x, pick); FlagOk(g, st'.ctl, st'.ext, k)
  {
    var st' := ExtNext(g, st, x, pick);
    ExtKeepsPCs(g, st, x, pick);
    assert FlagOk(g, st.ctl, st.ext, k);
    if k < g.nCore && Exposed(st'.ctl[k].pc) && !st'.ctl[k].parked && !st'.ctl[k].signal {
      if st.ctl[k].parked {
        assert ExtRaising(st'.ext[x], k);
      } else {
        assert Pending(st.ctl, st.ext, k);
        if v: nat :| v < |st.ctl| && Raising(st.ctl[v].pc, k) {
          assert Raising(st'.ctl[v].pc, k);
        } else {
          var y: nat :| y < |st.ext| && ExtRaising(st.ext[y], k);
          assert ExtRaising(st'.ext[y], k);
        }
      }
    }
  }

  /** The control invariant is kept by every step of every outside thread. */
  lemma ExtKeepsCtl(g: Config, st: State, x: nat, pick: Pick)
    requires CtlInv(g, st) && x < |st.ext|
    ensures CtlInv(g, ExtNext(g, st, x, pick))
  {
    var st' := ExtNext(g, st, x, pick);
    ExtKeepsPCs(g, st, x, pick);
    forall v | 0 <= v < g.nTotal
      ensures WorkerOk(g, st'.rings, v, st'.ctl[v]) && FlagOk(g, st'.ctl, st'.ext, v)
    {
      assert WorkerOk(g, st.rings, v, st.ctl[v]);
      ExtKeepsScans(g, st, x, pick, st.ctl[v]);
      ExtKeepsFlag(g, st, x, pick, v);
    }
    forall y | 0 <= y < |st.ext| ensures ExtOk(g, st'.rings, st'.ext[y], st'.extHand[y]) {
      if y == x { ExtSelfOk(g, st, x, pick); } else { ExtOthersOk(g, st, x, pick, y); }
    }
    forall s | 0 <= s < g.nShards ensures RingOk(st'.rings[s], s, st'.ext) {
      ExtKeepsRing(g, st, x, pick, s);
    }
    AnnouncedUpdate(g, st.ctl, st'.ctl, 0, g.nTotal);
    CountedUpdate(st.ctl, st'.ctl, 0, g.nTotal);
  }

  lemma {:induction false} NothingCounted(g: Config, ctl: seq<Ctl>, n: nat)
    requires n <= |ctl|
    requires forall w {:trigger ctl[w]} :: 0 <= w < n ==> !Announced(g, w, ctl[w].pc) && !Counted(ctl[w].pc)
    ensures AnnouncedIn(g, ctl, n) == 0 && CountedIn(ctl, n) == 0
  {
    if n > 0 { NothingCounted(g, ctl, n - 1); }
  }

  lemma InitCtl(g: Config, st: State)
    requires Init(g, st)
    ensures CtlInv(g, st)
  {
    NothingCounted(g, st.ctl, g.nTotal);
    forall k | 0 <= k < g.nTotal ensures FlagOk(g, st.ctl, st.ext, k) {
      assert k < g.nCore ==> !Exposed(st.ctl[k].pc);
    }
  }
}
