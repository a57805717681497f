/** No wake-up is lost: when nothing outside is in progress and every worker is asleep with its
    wait word clear, no task is queued anywhere. Submitters skip the wake-up when a core worker
    is spinning, and a stale head can make a pop miss a queued task; neither loses a task. */
module PoolWake {
  import opened RingSpec
  import opened PoolModel
  import opened PoolControl

  // ---------------------------------------------------------------- who will look at a shard

  /** After a failed try at this site the worker goes to sleep without another try. */
  predicate LastTry(g: Config, w: nat, site: Site) {
    if w < g.nCore then site == Retest
    else if w < g.nWorkers then site == Armed
    else site == Inner
  }

  /** Which turn shard `s` has in the worker's rotated order. */
  function Turn(g: Config, cursor: nat, s: nat): int {
    if s >= cursor then s - cursor else s + g.nShards - cursor
  }

  predicate StillAhead(g: Config, cursor: nat, ph: Phase, s: nat) {
    match ph
    case Lifo => true
    case Own => true
    case Buffer => true
    case Head(k) => Turn(g, cursor, s) >= k
    case Test(k, _, n) => Turn(g, cursor, s) > k || (Turn(g, cursor, s) == k && n > 0)
    case Cas(k, _, _) => Turn(g, cursor, s) >= k
    case Steal(_) => false
    case LastLifo => false
  }

  /** The worker will load the head of shard `s` (again) before it sleeps. */
  predicate WillScan(g: Config, w: nat, ct: Ctl, s: nat) {
    match ct.pc
    case Try(site, ph) => !LastTry(g, w, site) || StillAhead(g, ct.cursor, ph, s)
    case Sleep => false
    case Woke => w < g.nWorkers
    case Elastic0 => false
    case Elastic1 => false
    case Elastic2 => false
    case Elastic3 => false
    case _ => true
  }

  /** It loaded the current head of `s` and is about to test that very position. */
  predicate AtHead(g: Config, ct: Ctl, s: nat, head: nat) {
    ct.pc.Try? && ct.pc.ph.Test? && ct.pc.ph.n == 0 && ct.pc.ph.pos == head && Turn(g, ct.cursor, s) == ct.pc.ph.k
  }

  predicate Covers(g: Config, w: nat, ct: Ctl, s: nat, head: nat) {
    WillScan(g, w, ct, s) || AtHead(g, ct, s, head) || (w < g.nCore && ct.signal)
  }

  /** Wake-up accesses after which the caller has not yet relied on anybody else. */
  predicate Early(wk: Wake) {
    match wk
    case CountBack(sp) => sp <= 0
    case CountFront(sp, _) => sp <= 0
    case Look(_, j) => j == 0
    case Grab(_, j) => j == 0
    case Signal(_) => false
    case _ => true
  }

  predicate ExtCovers(g: Config, e: ExtPC, s: nat) {
    e.Alerting? && ((e.s == s && Early(e.wk)) || (e.wk.Signal? && e.wk.k < g.nCore))
  }

  ghost predicate Covered(g: Config, ctl: seq<Ctl>, ext: seq<ExtPC>, s: nat, head: nat) {
    || (exists w: nat :: w < |ctl| && Covers(g, w, ctl[w], s, head))
    || (exists x: nat :: x < |ext| && ExtCovers(g, ext[x], s))
  }

  /** A published task at the head of a shard has somebody who will still come for it. */
  ghost predicate WakeInv(g: Config, st: State) {
    forall s {:trigger st.rings[s]} :: 0 <= s < |st.rings| ==>
      (st.rings[s].head in st.rings[s].pub ==> Covered(g, st.ctl, st.ext, s, st.rings[s].head))
  }

  // ---------------------------------------------------------------- the acting worker

  /** A worker that covers a published head still covers it after its own step. */
  lemma TryKeepsCover(g: Config, st: State, w: nat, pick: Pick, s: nat)
    requires Shape(g, st) && w < g.nTotal && s < g.nShards && st.ctl[w].pc.Try?
    requires WorkerOk(g, st.rings, w, st.ctl[w])
    requires st.rings[s].head in st.rings[s].pub
    requires WillScan(g, w, st.ctl[w], s) || AtHead(g, st.ctl[w], s, st.rings[s].head)
    ensures var a := TryAct(g, st, w, pick);
      var ct' := CtlAfter(st.ctl, w, a)[w].(pc := a.next);
      if a.ClaimShard? then WillScan(g, w, ct', s)
      else WillScan(g, w, ct', s) || AtHead(g, ct', s, st.rings[s].head)
  {
  }

  lemma OtherKeepsCover(g: Config, st: State, w: nat, pick: Pick, s: nat, head: nat)
    requires Shape(g, st) && w < g.nTotal && !st.ctl[w].pc.Try?
    requires KindOk(g, w, st.ctl[w].pc) && IndexOk(g, st.ctl[w])
    requires Covers(g, w, st.ctl[w], s, head)
    ensures var a := ActOf(g, st, w, pick);
      !a.ClaimShard? && Covers(g, w, CtlAfter(st.ctl, w, a)[w].(pc := a.next), s, head)
  {
  }

  lemma OwnKeepsCover(g: Config, st: State, w: nat, pick: Pick, s: nat)
    requires Shape(g, st) && w < g.nTotal && s < g.nShards && WorkerOk(g, st.rings, w, st.ctl[w])
    requires st.rings[s].head in st.rings[s].pub
    requires Covers(g, w, st.ctl[w], s, st.rings[s].head)
    ensures var st' := WorkerNext(g, st, w, pick); Covers(g, w, st'.ctl[w], s, st'.rings[s].head)
  {
    if !st.ctl[w].pc.Try? {
      OtherKeepsCover(g, st, w, pick, s, st.rings[s].head);
    } else if WillScan(g, w, st.ctl[w], s) || AtHead(g, st.ctl[w], s, st.rings[s].head) {
      TryKeepsCover(g, st, w, pick, s);
    } else {
      TryKeepsSignal(g, st, w, pick);
    }
  }

  lemma TryKeepsSignal(g: Config, st: State, w: nat, pick: Pick)
    requires Shape(g, st) && w < g.nTotal && st.ctl[w].pc.Try?
    ensures CtlAfter(st.ctl, w, TryAct(g, st, w, pick))[w].signal == st.ctl[w].signal
  {
  }

  /** Whoever claims tasks will look at every shard again before it sleeps. */
  lemma ClaimerCovers(g: Config, st: State, w: nat, pick: Pick, s: nat)
    requires CtlInv(g, st) && w < g.nTotal && s < g.nShards && ActOf(g, st, w, pick).ClaimShard?
    ensures var st' := WorkerNext(g, st, w, pick); Covers(g, w, st'.ctl[w], s, st'.rings[s].head)
  {
    assert WorkerOk(g, st.rings, w, st.ctl[w]);
    ActIsOk(g, st, w, pick);
  }

  /** Another worker keeps covering while the head stays where it is. */
  lemma BystanderKeepsCover(g: Config, st: State, w: nat, pick: Pick, v: nat, s: nat, head: nat)
    requires Shape(g, st) && w < g.nTotal && v < g.nTotal && v != w
    requires Covers(g, v, st.ctl[v], s, head)
    ensures var st' := WorkerNext(g, st, w, pick); Covers(g, v, st'.ctl[v], s, head)
  {
    var st' := WorkerNext(g, st, w, pick);
    assert st'.ctl[v].pc == st.ctl[v].pc && st'.ctl[v].cursor == st.ctl[v].cursor;
    assert st.ctl[v].signal ==> st'.ctl[v].signal;
  }

  lemma WorkerKeepsWake(g: Config, st: State, w: nat, pick: Pick)
    requires CtlInv(g, st) && WakeInv(g, st) && w < g.nTotal
    ensures WakeInv(g, WorkerNext(g, st, w, pick))
  {
    var st' := WorkerNext(g, st, w, pick);
    var a := ActOf(g, st, w, pick);
    assert WorkerOk(g, st.rings, w, st.ctl[w]);
    forall s | 0 <= s < |st'.rings| && st'.rings[s].head in st'.rings[s].pub
      ensures Covered(g, st'.ctl, st'.ext, s, st'.rings[s].head)
    {
      if a.ClaimShard? {
        ClaimerCovers(g, st, w, pick, s);
        assert Covers(g, w, st'.ctl[w], s, st'.rings[s].head);
      } else {
        assert st'.rings[s] == st.rings[s];
        var head := st.rings[s].head;
        if v: nat :| v < |st.ctl| && Covers(g, v, st.ctl[v], s, head) {
          if v == w { OwnKeepsCover(g, st, w, pick, s); } else { BystanderKeepsCover(g, st, w, pick, v, s, head); }
          assert Covers(g, v, st'.ctl[v], s, head);
        } else {
          var x: nat :| x < |st.ext| && ExtCovers(g, st.ext[x], s);
          assert ExtCovers(g, st'.ext[x], s);
        }
      }
    }
  }

  // ---------------------------------------------------------------- the acting outsider

  /** A core worker that has not announced itself will retest before it sleeps. */
  lemma UnannouncedCovers(g: Config, w: nat, ct: Ctl, s: nat, head: nat)
    requires ConfigOk(g) && w < g.nCore && KindOk(g, w, ct.pc) && !Announced(g, w, ct.pc)
    ensures Covers(g, w, ct, s, head)
  {
  }

  lemma CountedCovers(g: Config, w: nat, ct: Ctl, s: nat, head: nat)
    requires ConfigOk(g) && w < g.nTotal && KindOk(g, w, ct.pc) && Counted(ct.pc)
    ensures Covers(g, w, ct, s, head)
  {
  }

  /** The submitter hands its duty over: when its step ends its own cover, somebody else covers. */
  lemma AlertHandsOver(g: Config, st: State, x: nat, pick: Pick, s: nat, head: nat)
    requires CtlInv(g, st) && x < |st.ext| && st.ext[x].Alerting? && st.ext[x].s == s && Early(st.ext[x].wk)
    ensures var st' := ExtNext(g, st, x, pick);
      ExtCovers(g, st'.ext[x], s) || Covered(g, st.ctl, st.ext[x := Away], s, head)
  {
    assert ExtOk(g, st.rings, st.ext[x], st.extHand[x]);
    var wk := st.ext[x].wk;
    match wk {
      case AskSpinningAgain =>
        if st.nSpinning >= 1 {
          var w := SomeCounted(st.ctl, g.nTotal);
          assert WorkerOk(g, st.rings, w, st.ctl[w]);
          CountedCovers(g, w, st.ctl[w], s, head);
          assert Covers(g, w, st.ctl[w], s, head);
        }
      case AnyParked =>
        if st.nParked <= 0 {
          NoneAnnounced(g, st.ctl, g.nTotal, 0);
          assert WorkerOk(g, st.rings, 0, st.ctl[0]);
          UnannouncedCovers(g, 0, st.ctl[0], s, head);
          assert Covers(g, 0, st.ctl[0], s, head);
        }
      case Look(start, j) => LookHandsOver(g, st, x, CoreAt(g, start, j), s, head);
      case Grab(start, j) => LookHandsOver(g, st, x, CoreAt(g, start, j), s, head);
      case _ =>
    }
  }

  lemma LookHandsOver(g: Config, st: State, x: nat, k: nat, s: nat, head: nat)
    requires CtlInv(g, st) && x < |st.ext| && st.ext[x].Alerting? && !st.ext[x].wk.Signal? && k < g.nCore
    ensures st.ctl[k].parked || Covered(g, st.ctl, st.ext[x := Away], s, head)
  {
    if !st.ctl[k].parked {
      var ext := st.ext[x := Away];
      assert WorkerOk(g, st.rings, k, st.ctl[k]) && FlagOk(g, st.ctl, st.ext, k);
      if !Exposed(st.ctl[k].pc) || st.ctl[k].signal {
        assert Covers(g, k, st.ctl[k], s, head);
      } else if v: nat :| v < |st.ctl| && Raising(st.ctl[v].pc, k) {
        assert Covers(g, v, st.ctl[v], s, head);
      } else {
        var y: nat :| y < |st.ext| && ExtRaising(st.ext[y], k);
        assert ExtCovers(g, ext[y], s);
      }
    }
  }

  /** Workers and other outsiders do not lose their cover when an outsider steps. */
  lemma ExtSparesOthers(g: Config, st: State, x: nat, pick: Pick, ext: seq<ExtPC>, s: nat, head: nat)
    requires Shape(g, st) && x < |st.ext| && ext == st.ext[x := Away]
    requires Covered(g, st.ctl, ext, s, head)
    ensures var st' := ExtNext(g, st, x, pick); Covered(g, st'.ctl, st'.ext, s, head)
  {
    var st' := ExtNext(g, st, x, pick);
    ExtKeepsPCs(g, st, x, pick);
    if w: nat :| w < |st.ctl| && Covers(g, w, st.ctl[w], s, head) {
      assert Covers(g, w, st'.ctl[w], s, head);
    } else {
      var y: nat :| y < |ext| && ExtCovers(g, ext[y], s);
      assert ExtCovers(g, st'.ext[y], s);
    }
  }

  /** A signal that has been decided on reaches its worker. */
  lemma SignalCovers(g: Config, st: State, x: nat, pick: Pick, s: nat, head: nat)
    requires Shape(g, st) && x < |st.ext| && ExtOk(g, st.rings, st.ext[x], st.extHand[x])
    requires st.ext[x].Alerting? && st.ext[x].wk.Signal? && st.ext[x].wk.k < g.nCore
    ensures var st' := ExtNext(g, st, x, pick); Covered(g, st'.ctl, st'.ext, s, head)
  {
    var st' := ExtNext(g, st, x, pick);
    var k := st.ext[x].wk.k;
    assert Covers(g, k, st'.ctl[k], s, head);
  }

  lemma ExtKeepsRingHead(g: Config, st: State, x: nat, pick: Pick, s: nat)
    requires Shape(g, st) && x < |st.ext| && s < g.nShards
    ensures var r, r' := st.rings[s], ExtNext(g, st, x, pick).rings[s];
      && r'.head == r.head
      && (r'.head in r'.pub ==> r.head in r.pub || (st.ext[x].Publishing? && st.ext[x].s == s))
  {
  }

  lemma ExtKeepsWake(g: Config, st: State, x: nat, pick: Pick)
    requires CtlInv(g, st) && WakeInv(g, st) && x < |st.ext|
    ensures WakeInv(g, ExtNext(g, st, x, pick))
  {
    var st' := ExtNext(g, st, x, pick);
    var e := st.ext[x];
    assert ExtOk(g, st.rings, e, st.extHand[x]);
    forall s | 0 <= s < |st'.rings| && st'.rings[s].head in st'.rings[s].pub
      ensures Covered(g, st'.ctl, st'.ext, s, st'.rings[s].head)
    {
      var head := st.rings[s].head;
      ExtKeepsRingHead(g, st, x, pick, s);
      if e.Publishing? && e.s == s {
        assert ExtCovers(g, st'.ext[x], s);
      } else {
        KeepsCovered(g, st, x, pick, s);
      }
    }
  }

  lemma KeepsCovered(g: Config, st: State, x: nat, pick: Pick, s: nat)
    requires CtlInv(g, st) && x < |st.ext| && s < g.nShards
    requires Covered(g, st.ctl, st.ext, s, st.rings[s].head)
    ensures var st' := ExtNext(g, st, x, pick); Covered(g, st'.ctl, st'.ext, s, st.rings[s].head)
  {
    var st' := ExtNext(g, st, x, pick);
    var e, head := st.ext[x], st.rings[s].head;
    var rest := st.ext[x := Away];
    assert ExtOk(g, st.rings, e, st.extHand[x]);
    if w: nat :| w < |st.ctl| && Covers(g, w, st.ctl[w], s, head) {
      ExtSparesOthers(g, st, x, pick, rest, s, head);
    } else if y: nat :| y < |st.ext| && y != x && ExtCovers(g, st.ext[y], s) {
      assert ExtCovers(g, rest[y], s);
      ExtSparesOthers(g, st, x, pick, rest, s, head);
    } else {
      assert ExtCovers(g, e, s);
      if e.wk.Signal? {
        SignalCovers(g, st, x, pick, s, head);
      } else {
        AlertHandsOver(g, st, x, pick, s, head);
        if !ExtCovers(g, st'.ext[x], s) { ExtSparesOthers(g, st, x, pick, rest, s, head); }
      }
    }
  }

  lemma InitWake(g: Config, st: State)
    requires Init(g, st)
    ensures WakeInv(g, st)
  {
  }
}
