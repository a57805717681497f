/** That the pool gets its work done: a worker alone runs a task within its reach to the end, and
    falls asleep when there is none. */
module PoolProgress {
  import opened RingSpec
  import opened PoolModel
  import opened PoolControl
  import opened PoolTasks
  import opened PoolTheorems
  import opened PoolAlone

  // ---------------------------------------------------------------- runs of some of the workers

  /** One of these workers steps, and a task that runs on it does not submit another. */
  predicate Quiet(st: State, mv: Move, who: set<nat>) {
    mv.Work? && mv.w in who && mv.w < |st.ctl| && (st.ctl[mv.w].pc == Body ==> !mv.pick.yes)
  }

  ghost predicate Path(g: Config, tr: seq<State>, mvs: seq<Move>, who: set<nat>) {
    && |tr| == |mvs| + 1
    && (forall j {:trigger Follows(g, tr, mvs, j)} :: 0 <= j < |mvs| ==> Follows(g, tr, mvs, j))
    && (forall j {:trigger mvs[j]} :: 0 <= j < |mvs| ==> Quiet(tr[j], mvs[j], who))
  }

  /** Steps of these workers alone can lead from one state to the other. */
  ghost predicate Leads(g: Config, a: State, b: State, who: set<nat>) {
    exists tr: seq<State>, mvs: seq<Move> {:trigger Path(g, tr, mvs, who)} ::
      Path(g, tr, mvs, who) && tr[0] == a && tr[|mvs|] == b
  }

  lemma LeadsHere(g: Config, a: State, who: set<nat>)
    ensures Leads(g, a, a, who)
  {
    assert Path(g, [a], [], who);
  }

  lemma LeadsNext(g: Config, a: State, w: nat, pick: Pick, who: set<nat>)
    requires Shape(g, a) && w < g.nTotal && w in who && (a.ctl[w].pc == Body ==> !pick.yes)
    ensures Leads(g, a, WorkerNext(g, a, w, pick), who)
  {
    var tr, mvs := [a, WorkerNext(g, a, w, pick)], [Work(w, pick)];
    assert Follows(g, tr, mvs, 0);
    assert Path(g, tr, mvs, who);
  }

  lemma LeadsOn(g: Config, a: State, b: State, c: State, who: set<nat>)
    requires Leads(g, a, b, who) && Leads(g, b, c, who)
    ensures Leads(g, a, c, who)
  {
    var tr1: seq<State>, mvs1: seq<Move> :| Path(g, tr1, mvs1, who) && tr1[0] == a && tr1[|mvs1|] == b;
    var tr2: seq<State>, mvs2: seq<Move> :| Path(g, tr2, mvs2, who) && tr2[0] == b && tr2[|mvs2|] == c;
    Joined(g, tr1, mvs1, tr2, mvs2, who);
    assert Path(g, tr1 + tr2[1..], mvs1 + mvs2, who);
  }

  lemma Joined(g: Config, tr1: seq<State>, mvs1: seq<Move>, tr2: seq<State>, mvs2: seq<Move>, who: set<nat>)
    requires Path(g, tr1, mvs1, who) && Path(g, tr2, mvs2, who) && tr1[|mvs1|] == tr2[0]
    ensures Path(g, tr1 + tr2[1..], mvs1 + mvs2, who)
  {
    hide Next, Shape, MoveOk, Quiet;
    var tr, mvs := tr1 + tr2[1..], mvs1 + mvs2;
    assert forall j :: |mvs1| <= j < |tr| ==> tr[j] == tr2[j - |mvs1|];
    forall j | 0 <= j < |mvs| ensures Follows(g, tr, mvs, j) {
      if j < |mvs1| { assert Follows(g, tr1, mvs1, j); } else { assert Follows(g, tr2, mvs2, j - |mvs1|); }
    }
  }

  lemma {:induction false} PathKeepsInv(g: Config, tr: seq<State>, mvs: seq<Move>, who: set<nat>, j: nat)
    requires Path(g, tr, mvs, who) && Inv(g, tr[0]) && j < |tr|
    ensures Inv(g, tr[j])
  {
    hide Inv, Quiet, WorkerNext, ExtNext;
    if j > 0 {
      PathKeepsInv(g, tr, mvs, who, j - 1);
      assert Follows(g, tr, mvs, j - 1);
      NextKeepsInv(g, tr[j - 1], mvs[j - 1]);
    }
  }

  lemma LeadsKeepsInv(g: Config, a: State, b: State, who: set<nat>)
    requires Inv(g, a) && Leads(g, a, b, who)
    ensures Inv(g, b)
  {
    hide Inv;
    var tr: seq<State>, mvs: seq<Move> :| Path(g, tr, mvs, who) && tr[0] == a && tr[|mvs|] == b;
    PathKeepsInv(g, tr, mvs, who, |mvs|);
  }

  lemma SoloRestLeads(g: Config, tr: seq<State>, picks: seq<Pick>, w: nat)
    requires SoloRest(g, tr, picks, w)
    ensures Leads(g, tr[0], tr[|picks|], {w})
  {
    hide Next, Shape, MidTry;
    var mvs := seq(|picks|, j requires 0 <= j < |picks| => Work(w, picks[j]));
    forall j | 0 <= j < |mvs| ensures Follows(g, tr, mvs, j) {
      assert StepsAlone(g, tr, picks, w, j);
    }
    forall j | 0 <= j < |mvs| ensures Quiet(tr[j], mvs[j], {w}) {
      assert TriesOn(g, tr[j], picks[j], w);
    }
    assert Path(g, tr, mvs, {w});
  }

  // ---------------------------------------------------------------- from the try to the task

  /** The worker has a task in hand that it has not started. */
  predicate OnTheWay(pc: PC) {
    match pc
    case SpinEnd(found) => found
    case ChainBack(_) => true
    case ChainFront(_, _) => true
    case Waking(_, start) => start
    case Unpark1(found) => found
    case Unpark2(found) => found
    case _ => false
  }

  function Leg(pc: PC): nat {
    match pc
    case SpinEnd(_) => 20
    case ChainBack(_) => 19
    case ChainFront(_, _) => 19
    case Waking(wk, _) =>
      (match wk
       case AskParked => 16
       case AskSpinning => 15
       case AskSpinningAgain => 14
       case CountBack(_) => 13
       case CountFront(_, _) => 12
       case AnyParked => 11
       case Rotate => 10
       case Look(_, _) => 9
       case Grab(_, _) => 9
       case Signal(_) => 8)
    case Unpark1(_) => 7
    case Unpark2(_) => 6
    case Start => 5
    case Body => 4
    case Dec1 => 3
    case Dec2(_) => 2
    case Count => 19
    case Place => 18
    case Spill => 17
    case _ => 0
  }

  function Ahead(g: Config, pc: PC): nat {
    match pc
    case ChainBack(s) => if s < g.nShards then g.nShards - s else 0
    case ChainFront(s, _) => if s < g.nShards then g.nShards - s else 0
    case Waking(wk, _) =>
      (match wk
       case Look(_, j) => if j < g.nCore then g.nCore - j else 0
       case Grab(_, j) => if j < g.nCore then g.nCore - j else 0
       case _ => 0)
    case _ => 0
  }

  function Half(g: Config, pc: PC): nat {
    match pc
    case ChainBack(s) => if s < g.nShards then 2 else 0
    case ChainFront(_, _) => 1
    case Waking(wk, _) => if wk.Look? then 1 else 0
    case _ => 0
  }

  /** Nothing but control words has changed. */
  predicate SameWork(a: State, b: State) {
    && b.rings == a.rings && b.dat == a.dat && b.ext == a.ext && b.extHand == a.extHand
    && b.ledger == a.ledger && b.place == a.place && b.started == a.started && b.done == a.done
  }

  /** Acts on control words only. */
  predicate OnlyControl(a: Act) {
    a.Go? || a.SetSignal? || a.SetParked? || a.AddParked? || a.AddSpinning? || a.Unflag? || a.Raise?
  }

  lemma ControlKeepsWork(g: Config, st: State, w: nat, pick: Pick)
    requires Shape(g, st) && w < g.nTotal && OnlyControl(ActOf(g, st, w, pick))
    ensures var b := WorkerNext(g, st, w, pick);
      Shape(g, b) && SameWork(st, b) && b.ctl[w].pc == ActOf(g, st, w, pick).next
  {
    hide ActOf;
  }

  predicate Closer(g: Config, pc: PC, pc': PC) {
    || Leg(pc') < Leg(pc)
    || (Leg(pc') == Leg(pc) && (Ahead(g, pc') < Ahead(g, pc) || (Ahead(g, pc') == Ahead(g, pc) && Half(g, pc') < Half(g, pc))))
  }

  lemma WakingNext(g: Config, st: State, w: nat, pick: Pick)
    requires Shape(g, st) && w < g.nTotal && st.ctl[w].pc.Waking?
    ensures var a := ActOf(g, st, w, pick); var pc := st.ctl[w].pc;
      && OnlyControl(a) && Closer(g, pc, a.next)
      && (if pc.start then (a.next.Waking? && a.next.start) || a.next == Start else (a.next.Waking? && !a.next.start) || a.next == Body)
  {
  }

  lemma OnTheWayNext(g: Config, st: State, w: nat, pick: Pick)
    requires Shape(g, st) && w < g.nTotal && OnTheWay(st.ctl[w].pc)
    ensures var a := ActOf(g, st, w, pick); OnlyControl(a) && Closer(g, st.ctl[w].pc, a.next) && (OnTheWay(a.next) || a.next == Start)
  {
    if st.ctl[w].pc.Waking? { WakingNext(g, st, w, pick); }
  }

  /** Whatever a found task makes its worker see to first, it gets to the start of the task. */
  lemma {:induction false} GetsToStart(g: Config, st: State, w: nat) returns (b: State)
    requires Shape(g, st) && w < g.nTotal && (OnTheWay(st.ctl[w].pc) || st.ctl[w].pc == Start)
    ensures Leads(g, st, b, {w}) && Shape(g, b) && SameWork(st, b) && b.ctl[w].pc == Start
    decreases Leg(st.ctl[w].pc), Ahead(g, st.ctl[w].pc), Half(g, st.ctl[w].pc)
  {
    if st.ctl[w].pc == Start {
      LeadsHere(g, st, {w});
      b := st;
    } else {
      var pick := Pick(false, 0);
      var c := WorkerNext(g, st, w, pick);
      OnTheWayNext(g, st, w, pick);
      ControlKeepsWork(g, st, w, pick);
      LeadsNext(g, st, w, pick, {w});
      hide *;
      b := GetsToStart(g, c, w);
      LeadsOn(g, st, c, b, {w});
    }
  }

  // ---------------------------------------------------------------- from its start to its end

  lemma StartNext(g: Config, st: State, w: nat, pick: Pick)
    requires Shape(g, st) && w < g.nTotal && st.ctl[w].pc == Start && st.dat[w].hand.Some?
    ensures var b, d := WorkerNext(g, st, w, pick), st.dat[w];
      && Shape(g, b) && b.ctl[w].pc == Body && b.rings == st.rings && b.ledger == st.ledger
      && b.dat == st.dat[w := d.(hand := None, stack := d.stack + [d.hand.value])]
      && b.started == st.started + multiset{d.hand.value} && b.done == st.done
  {
  }

  lemma BodyEnds(g: Config, st: State, w: nat)
    requires Shape(g, st) && w < g.nTotal && st.ctl[w].pc == Body
    ensures var b := WorkerNext(g, st, w, Pick(false, 0)); Shape(g, b) && b.ctl[w].pc == Dec1 && SameWork(st, b)
  {
  }

  lemma Dec1Next(g: Config, st: State, w: nat, pick: Pick)
    requires Shape(g, st) && w < g.nTotal && st.ctl[w].pc == Dec1
    ensures var b := WorkerNext(g, st, w, pick);
      Shape(g, b) && b.ctl[w].pc == Dec2(st.ledger.ctrs[g.nShards + w]) && SameWork(st, b)
  {
  }

  lemma Dec2Next(g: Config, st: State, w: nat, pick: Pick)
    requires Shape(g, st) && w < g.nTotal && st.ctl[w].pc.Dec2? && st.dat[w].stack != []
    ensures var b, d := WorkerNext(g, st, w, pick), st.dat[w];
      && Shape(g, b) && b.rings == st.rings && b.started == st.started
      && b.dat == st.dat[w := d.(stack := d.stack[..|d.stack| - 1])]
      && b.done == st.done + multiset{d.stack[|d.stack| - 1]}
      && b.ledger == Accounting.Ledger(st.ledger.ctrs[g.nShards + w := st.ctl[w].pc.v - 1], st.ledger.open - {d.stack[|d.stack| - 1]})
      && (if |d.stack| == 1 then AtTop(b.ctl[w].pc) else b.ctl[w].pc == Body)
  {
    var a := ActOf(g, st, w, pick);
    assert a.Finish? && (if |st.dat[w].stack| == 1 then AtTop(a.next) else a.next == Body);
    hide ActOf, AtTop;
  }

  /** At the first access of a try. */
  predicate AtTop(pc: PC) {
    pc.Try? && pc.ph.Lifo?
  }

  /** A task that has returned is counted off. */
  lemma TaskIsCountedOff(g: Config, st: State, w: nat) returns (b: State)
    requires Shape(g, st) && w < g.nTotal && st.ctl[w].pc == Dec1 && st.dat[w].stack != []
    ensures Leads(g, st, b, {w}) && Shape(g, b)
    ensures var c, n := g.nShards + w, |st.dat[w].stack| - 1;
      && b.started == st.started && b.done == st.done + multiset{st.dat[w].stack[n]}
      && b.ledger == Accounting.Ledger(st.ledger.ctrs[c := st.ledger.ctrs[c] - 1], st.ledger.open - {st.dat[w].stack[n]})
      && b.rings == st.rings && b.dat == st.dat[w := st.dat[w].(stack := st.dat[w].stack[..n])]
      && (if n == 0 then AtTop(b.ctl[w].pc) else b.ctl[w].pc == Body)
  {
    hide Leads, WorkerNext, AtTop;
    var pick := Pick(false, 0);
    var s1 := WorkerNext(g, st, w, pick);
    Dec1Next(g, st, w, pick);
    LeadsNext(g, st, w, pick, {w});
    b := WorkerNext(g, s1, w, pick);
    Dec2Next(g, s1, w, pick);
    LeadsNext(g, s1, w, pick, {w});
    LeadsOn(g, st, s1, b, {w});
  }

  /** A task that submits nothing: it is started, ends and is counted off, and its worker goes on
      where it was before. */
  lemma TaskIsRun(g: Config, st: State, w: nat) returns (b: State)
    requires Shape(g, st) && w < g.nTotal && st.ctl[w].pc == Start && st.dat[w].hand.Some?
    ensures Leads(g, st, b, {w}) && Shape(g, b)
    ensures var t, c := st.dat[w].hand.value, g.nShards + w;
      && b.started == st.started + multiset{t} && b.done == st.done + multiset{t}
      && b.ledger == Accounting.Ledger(st.ledger.ctrs[c := st.ledger.ctrs[c] - 1], st.ledger.open - {t})
      && b.rings == st.rings && b.dat == st.dat[w := st.dat[w].(hand := None)]
      && (if st.dat[w].stack == [] then AtTop(b.ctl[w].pc) else b.ctl[w].pc == Body)
  {
    hide Leads, WorkerNext, AtTop;
    var pick := Pick(false, 0);
    var s1 := WorkerNext(g, st, w, pick);
    StartNext(g, st, w, pick);
    LeadsNext(g, st, w, pick, {w});
    var s2 := WorkerNext(g, s1, w, pick);
    BodyEnds(g, s1, w);
    LeadsNext(g, s1, w, pick, {w});
    b := TaskIsCountedOff(g, s2, w);
    LeadsOn(g, st, s1, s2, {w});
    LeadsOn(g, st, s2, b, {w});
    var stack := st.dat[w].stack;
    assert (stack + [st.dat[w].hand.value])[..|stack|] == stack;
  }

  /** One of the tasks that a try of worker `w` could find. */
  predicate InReach(g: Config, st: State, w: nat, t: Task)
    requires Shape(g, st) && w < g.nTotal
  {
    var d := st.dat[w];
    || d.lifo == Some(t) || t in d.deque || t in d.pend
    || (exists s {:trigger st.rings[s]} :: 0 <= s < g.nShards && HeadReady(st.rings[s])
          && st.rings[s].head < |st.rings[s].log| && st.rings[s].log[st.rings[s].head] == t)
    || (exists v {:trigger st.dat[v]} :: 0 <= v < g.nTotal && v != w && st.dat[v].deque != [] && st.dat[v].deque[0] == t)
  }

  lemma OutcomeIsInReach(g: Config, st: State, b: State, w: nat)
    requires Shape(g, st) && w < g.nTotal && InOrder(g, st, w) && Outcome(g, st, b, w) && !NothingInReach(g, st, w)
    ensures |b.dat| == g.nTotal && b.dat[w].hand.Some? && InReach(g, st, w, b.dat[w].hand.value)
    ensures b.dat[w].stack == st.dat[w].stack
  {
    OutcomeTells(g, st, b, w);
  }

  lemma FoundIsOnTheWay(pc: PC)
    requires HandFull(pc) && !InTask(pc)
    ensures OnTheWay(pc) || pc == Start
  {
  }

  /** A worker alone with a task within reach finishes one and is ready for the next, if the task
      submits nothing. */
  lemma WorkGetsDone(g: Config, st: State, w: nat)
    requires Inv(g, st) && w < g.nTotal && AtTop(st.ctl[w].pc) && !NothingInReach(g, st, w)
    ensures exists b: State, t: Task :: Leads(g, st, b, {w}) && Shape(g, b) && AtTop(b.ctl[w].pc)
              && InReach(g, st, w, t) && b.started == st.started + multiset{t} && b.done == st.done + multiset{t}
  {
    var a := TryFinds(g, st, w);
    var c := GetsToStart(g, a, w);
    var b := TaskIsRun(g, c, w);
    hide *;
    LeadsOn(g, st, a, c, {w});
    LeadsOn(g, st, c, b, {w});
  }

  lemma TryFinds(g: Config, st: State, w: nat) returns (a: State)
    requires Inv(g, st) && w < g.nTotal && AtTop(st.ctl[w].pc) && !NothingInReach(g, st, w)
    ensures Leads(g, st, a, {w}) && Shape(g, a) && (OnTheWay(a.ctl[w].pc) || a.ctl[w].pc == Start)
    ensures a.dat[w].hand.Some? && a.dat[w].stack == [] && InReach(g, st, w, a.dat[w].hand.value) && SameRecord(st, a)
  {
    hide Leads, Outcome, InReach, NothingInReach, InOrder, OnTheWay, GivesUp;
    TryAloneEnds(g, st, w);
    var tr: seq<State>, picks: seq<Pick> :| SoloTry(g, tr, picks, w) && tr[0] == st && GivesUp(tr, picks, w);
    a := tr[|picks|];
    TryFindsWhatIsThere(g, tr, picks, w);
    CallKeepsRecord(g, tr, picks, w, |picks|);
    InvInOrder(g, st, w);
    OutcomeIsInReach(g, st, a, w);
    SoloRestLeads(g, tr, picks, w);
    LeadsKeepsInv(g, st, a, {w});
    InvOfWorker(g, st, w);
    InvOfWorker(g, a, w);
    hide Inv;
    FoundIsOnTheWay(a.ctl[w].pc);
  }

  // ---------------------------------------------------------------- with nothing to do

  lemma CallKeepsSite(g: Config, c: State, w: nat, pick: Pick)
    requires Shape(g, c) && w < g.nTotal && c.ctl[w].pc.Try?
    ensures var b, pc := WorkerNext(g, c, w, pick), c.ctl[w].pc;
      && Shape(g, b)
      && (if MidTry(b.ctl[w].pc) then b.ctl[w].pc.site == pc.site
          else HandFull(b.ctl[w].pc) || (pc.ph.LastLifo? && b.ctl[w].pc == AfterFail(g, w, pc.site, pick)))
  {
    FailEndsTry(g, w, c.ctl[w].pc.site, pick);
    assert HandFull(AfterFound(c.ctl[w].pc.site));
    hide AfterFail, AfterFound;
  }

  lemma {:induction false} SiteStays(g: Config, tr: seq<State>, picks: seq<Pick>, w: nat, j: nat)
    requires SoloRest(g, tr, picks, w) && j < |picks|
    ensures tr[j].ctl[w].pc.Try? && tr[j].ctl[w].pc.site == tr[0].ctl[w].pc.site
  {
    assert TriesOn(g, tr[j], picks[j], w);
    if j > 0 {
      SiteStays(g, tr, picks, w, j - 1);
      assert StepsAlone(g, tr, picks, w, j - 1);
      hide WorkerNext;
      CallKeepsSite(g, tr[j - 1], w, picks[j - 1]);
    }
  }

  /** A try with nothing within reach fails, and leaves everything as it was. */
  lemma TryFails(g: Config, st: State, w: nat) returns (b: State)
    requires Inv(g, st) && w < g.nTotal && AtTop(st.ctl[w].pc) && NothingInReach(g, st, w)
    ensures Leads(g, st, b, {w}) && Inv(g, b) && b.rings == st.rings && b.dat == st.dat && SameRecord(st, b)
    ensures b.ctl[w].pc == AfterFail(g, w, st.ctl[w].pc.site, Pick(false, 0))
  {
    hide Leads, InOrder, AfterFail;
    TryAloneEnds(g, st, w);
    var tr: seq<State>, picks: seq<Pick> :| SoloTry(g, tr, picks, w) && tr[0] == st && GivesUp(tr, picks, w);
    var n := |picks| - 1;
    b := tr[n + 1];
    TryFindsWhatIsThere(g, tr, picks, w);
    NothingTaken(g, st, b, w);
    hide Outcome, NothingInReach;
    SoloRestLeads(g, tr, picks, w);
    LeadsKeepsInv(g, st, b, {w});
    InvOfWorker(g, b, w);
    SiteStays(g, tr, picks, w, n);
    assert StepsAlone(g, tr, picks, w, n);
    hide Inv, WorkerNext;
    CallKeepsSite(g, tr[n], w, picks[n]);
    SamePick(g, w, st.ctl[w].pc.site, picks[n], Pick(false, 0));
  }

  lemma SamePick(g: Config, w: nat, site: Site, p: Pick, q: Pick)
    requires p.yes == q.yes
    ensures AfterFail(g, w, site, p) == AfterFail(g, w, site, q)
  {
  }

  lemma NothingTaken(g: Config, st: State, b: State, w: nat)
    requires Shape(g, st) && w < g.nTotal && Outcome(g, st, b, w) && NothingInReach(g, st, w)
    ensures b.rings == st.rings && b.dat == st.dat
  {
  }

  /** How far from sleep: each failed try and each access in between brings the worker nearer. */
  function Restless(ct: Ctl): nat {
    match ct.pc
    case Try(site, _) =>
      (match site
       case Top => 13
       case Watch => 14
       case Armed => 11
       case Spin(_) => 10
       case Nap => 8
       case Retest => 5
       case Inner => 10)
    case Prepare => 12
    case SpinStart => 10
    case SpinEnd(_) => 9
    case Announce1 => 7
    case Announce2 => 6
    case Woke => 16
    case Unpark1(_) => 15
    case Unpark2(_) => 14
    case Elastic0 => 9
    case Elastic1 => if ct.parked then 8 else 12
    case Elastic2 => if ct.parked then 7 else 11
    case Elastic3 => 13
    case _ => 0
  }

  lemma IdleNext(g: Config, st: State, w: nat)
    requires Shape(g, st) && w < g.nTotal && Idle(st.ctl[w].pc) && st.ctl[w].pc != Sleep
    ensures var b := WorkerNext(g, st, w, Pick(false, 0));
      && Shape(g, b) && SameWork(st, b) && Restless(b.ctl[w]) < Restless(st.ctl[w])
      && (Idle(b.ctl[w].pc) || AtTop(b.ctl[w].pc))
  {
    var a := ActOf(g, st, w, Pick(false, 0));
    assert OnlyControl(a) && (Idle(a.next) || AtTop(a.next));
    assert Restless(CtlAfter(st.ctl, w, a)[w].(pc := a.next)) < Restless(st.ctl[w]);
    hide ActOf, Idle;
    ControlKeepsWork(g, st, w, Pick(false, 0));
  }

  lemma FailNext(g: Config, w: nat, ct: Ctl, ct': Ctl)
    requires AtTop(ct.pc) && ct'.pc == AfterFail(g, w, ct.pc.site, Pick(false, 0))
    ensures Restless(ct') < Restless(ct) && (Idle(ct'.pc) || AtTop(ct'.pc))
  {
  }

  lemma ReachIsTheSame(g: Config, st: State, b: State, w: nat)
    requires Shape(g, st) && Shape(g, b) && w < g.nTotal && b.rings == st.rings && b.dat == st.dat
    ensures NothingInReach(g, st, w) <==> NothingInReach(g, b, w)
  {
  }

  lemma ShapeOfInv(g: Config, st: State)
    requires Inv(g, st)
    ensures Shape(g, st)
  {
  }

  lemma {:induction false} FallsAsleep(g: Config, st: State, w: nat) returns (b: State)
    requires Inv(g, st) && w < g.nTotal && (Idle(st.ctl[w].pc) || AtTop(st.ctl[w].pc)) && NothingInReach(g, st, w)
    ensures Leads(g, st, b, {w}) && Inv(g, b) && b.ctl[w].pc == Sleep
    ensures b.rings == st.rings && b.dat == st.dat && SameRecord(st, b)
    decreases Restless(st.ctl[w])
  {
    hide Inv, Leads, WorkerNext, Idle, AtTop, NothingInReach, AfterFail, Restless;
    ShapeOfInv(g, st);
    if st.ctl[w].pc == Sleep {
      LeadsHere(g, st, {w});
      b := st;
    } else {
      var c: State;
      if AtTop(st.ctl[w].pc) {
        c := TryFails(g, st, w);
        ShapeOfInv(g, c);
        FailNext(g, w, st.ctl[w], c.ctl[w]);
      } else {
        c := WorkerNext(g, st, w, Pick(false, 0));
        IdleNext(g, st, w);
        NextKeepsInv(g, st, Work(w, Pick(false, 0)));
        LeadsNext(g, st, w, Pick(false, 0), {w});
      }
      ShapeOfInv(g, c);
      ReachIsTheSame(g, st, c, w);
      b := FallsAsleep(g, c, w);
      LeadsOn(g, st, c, b, {w});
    }
  }

  /** A worker alone with nothing within reach goes to sleep and changes nothing that is queued. */
  lemma NothingToDoMeansSleep(g: Config, st: State, w: nat)
    requires Inv(g, st) && w < g.nTotal && AtTop(st.ctl[w].pc) && NothingInReach(g, st, w)
    ensures exists b: State :: Leads(g, st, b, {w}) && Shape(g, b) && b.ctl[w].pc == Sleep
              && b.rings == st.rings && b.dat == st.dat && SameRecord(st, b)
  {
    var b := FallsAsleep(g, st, w);
    hide Leads;
  }

  // ---------------------------------------------------------------- the whole pool

  /** What moves without a submission keeps: no task is lost from the record, none is added. */
  predicate SameTasks(a: State, b: State) {
    |b.place| == |a.place| && b.ext == a.ext && a.done <= b.done
  }

  lemma QuietKeepsTasks(g: Config, st: State, mv: Move, who: set<nat>)
    requires Shape(g, st) && MoveOk(g, st, mv) && Quiet(st, mv, who)
    ensures SameTasks(st, Next(g, st, mv))
  {
    var a := ActOf(g, st, mv.w, mv.pick);
    OnlyBodyCreates(g, st, mv.w, mv.pick);
    hide ActOf;
  }

  lemma OnlyBodyCreates(g: Config, st: State, w: nat, pick: Pick)
    requires Shape(g, st) && w < g.nTotal
    ensures ActOf(g, st, w, pick).Create? ==> st.ctl[w].pc == Body && pick.yes
  {
  }

  lemma {:induction false} PathKeepsTasks(g: Config, tr: seq<State>, mvs: seq<Move>, who: set<nat>, j: nat)
    requires Path(g, tr, mvs, who) && j < |tr|
    ensures SameTasks(tr[0], tr[j])
  {
    hide WorkerNext, ExtNext;
    if j > 0 {
      PathKeepsTasks(g, tr, mvs, who, j - 1);
      assert Follows(g, tr, mvs, j - 1) && Quiet(tr[j - 1], mvs[j - 1], who);
      QuietKeepsTasks(g, tr[j - 1], mvs[j - 1], who);
    }
  }

  lemma LeadsKeepsTasks(g: Config, a: State, b: State, who: set<nat>)
    requires Leads(g, a, b, who)
    ensures SameTasks(a, b)
  {
    var tr: seq<State>, mvs: seq<Move> :| Path(g, tr, mvs, who) && tr[0] == a && tr[|mvs|] == b;
    PathKeepsTasks(g, tr, mvs, who, |mvs|);
  }

  /** Nothing waits with the worker, and nothing runs on it. */
  predicate Settled(d: Dat) {
    HoldsNothing(d) && d.hand.None? && d.stack == []
  }

  lemma StepSparesSettled(g: Config, st: State, w: nat, pick: Pick, v: nat)
    requires Shape(g, st) && w < g.nTotal && v < g.nTotal && v != w && Settled(st.dat[v])
    ensures var b := WorkerNext(g, st, w, pick); |b.dat| == g.nTotal && Settled(b.dat[v])
  {
    hide ActOf;
    DatOfOthers(g, st, w, pick, v);
  }

  lemma {:induction false} PathSparesSettled(g: Config, tr: seq<State>, mvs: seq<Move>, w: nat, v: nat, j: nat)
    requires Path(g, tr, mvs, {w}) && j < |tr| && v != w && v < |tr[0].dat| == g.nTotal && Settled(tr[0].dat[v])
    ensures v < |tr[j].dat| == g.nTotal && Settled(tr[j].dat[v])
  {
    hide WorkerNext, Settled;
    if j > 0 {
      PathSparesSettled(g, tr, mvs, w, v, j - 1);
      assert Follows(g, tr, mvs, j - 1) && Quiet(tr[j - 1], mvs[j - 1], {w});
      StepSparesSettled(g, tr[j - 1], w, mvs[j - 1].pick, v);
    }
  }

  lemma LeadsSparesSettled(g: Config, a: State, b: State, w: nat, v: nat)
    requires Leads(g, a, b, {w}) && v != w && v < |a.dat| == g.nTotal && Settled(a.dat[v])
    ensures v < |b.dat| == g.nTotal && Settled(b.dat[v])
  {
    var tr: seq<State>, mvs: seq<Move> :| Path(g, tr, mvs, {w}) && tr[0] == a && tr[|mvs|] == b;
    PathSparesSettled(g, tr, mvs, w, v, |mvs|);
  }

  lemma LeadsWider(g: Config, a: State, b: State, who: set<nat>, all: set<nat>)
    requires Leads(g, a, b, who) && who <= all
    ensures Leads(g, a, b, all)
  {
    var tr: seq<State>, mvs: seq<Move> :| Path(g, tr, mvs, who) && tr[0] == a && tr[|mvs|] == b;
    assert Path(g, tr, mvs, all);
  }

  // ---------------------------------------------------------------- one worker finishes what it holds

  function Load(d: Dat): nat {
    |d.stack| + if d.hand.Some? then 1 else 0
  }

  predicate AtWork(pc: PC) {
    InTask(pc) || HandFull(pc)
  }

  predicate Lighter(g: Config, st: State, b: State, w: nat)
    requires w < |st.ctl| == |st.dat| && w < |b.ctl| == |b.dat|
  {
    || Load(b.dat[w]) < Load(st.dat[w])
    || (Load(b.dat[w]) == Load(st.dat[w]) && Closer(g, st.ctl[w].pc, b.ctl[w].pc))
  }

  lemma SubmitNext(g: Config, st: State, w: nat, pick: Pick)
    requires Shape(g, st) && w < g.nTotal && DatOk(st.ctl[w].pc, st.dat[w])
    requires st.ctl[w].pc == Count || st.ctl[w].pc == Place || st.ctl[w].pc == Spill
    ensures var b := WorkerNext(g, st, w, pick); Shape(g, b) && Lighter(g, st, b, w) && AtWork(b.ctl[w].pc)
  {
  }

  lemma WorkNext(g: Config, st: State, w: nat)
    requires Shape(g, st) && w < g.nTotal && DatOk(st.ctl[w].pc, st.dat[w]) && AtWork(st.ctl[w].pc)
    ensures var b := WorkerNext(g, st, w, Pick(false, 0));
      Shape(g, b) && (AtTop(b.ctl[w].pc) || (AtWork(b.ctl[w].pc) && Lighter(g, st, b, w)))
  {
    var pick, pc := Pick(false, 0), st.ctl[w].pc;
    hide WorkerNext;
    if pc.Waking? {
      WakingNext(g, st, w, pick);
      hide ActOf;
      ControlKeepsWork(g, st, w, pick);
    } else if OnTheWay(pc) {
      OnTheWayNext(g, st, w, pick);
      hide ActOf;
      ControlKeepsWork(g, st, w, pick);
    } else if pc == Start {
      StartNext(g, st, w, pick);
    } else if pc == Body {
      BodyEnds(g, st, w);
    } else if pc == Dec1 {
      Dec1Next(g, st, w, pick);
    } else if pc.Dec2? {
      Dec2Next(g, st, w, pick);
    } else {
      SubmitNext(g, st, w, pick);
    }
  }

  /** A worker in the middle of a task, or of nested ones, gets to its next try. */
  lemma {:induction false} Unwinds(g: Config, st: State, w: nat) returns (b: State)
    requires Inv(g, st) && w < g.nTotal && (AtWork(st.ctl[w].pc) || AtTop(st.ctl[w].pc))
    ensures Leads(g, st, b, {w}) && Inv(g, b) && AtTop(b.ctl[w].pc)
    decreases if AtTop(st.ctl[w].pc) then 0 else 1, Load(st.dat[w]), Leg(st.ctl[w].pc), Ahead(g, st.ctl[w].pc), Half(g, st.ctl[w].pc)
  {
    InvOfWorker(g, st, w);
    ShapeOfInv(g, st);
    hide Inv, Leads, WorkerNext, AtWork, AtTop, DatOk, Leg, Ahead, Half, Load;
    if AtTop(st.ctl[w].pc) {
      LeadsHere(g, st, {w});
      b := st;
    } else {
      var pick := Pick(false, 0);
      var c := WorkerNext(g, st, w, pick);
      WorkNext(g, st, w);
      NextKeepsInv(g, st, Work(w, pick));
      LeadsNext(g, st, w, pick, {w});
      b := Unwinds(g, c, w);
      LeadsOn(g, st, c, b, {w});
    }
  }

  /** Wherever a worker is, it gets to the start of a try or to where it has nothing in hand. */
  lemma ComesToRest(g: Config, st: State, w: nat) returns (b: State)
    requires Inv(g, st) && w < g.nTotal
    ensures Leads(g, st, b, {w}) && Inv(g, b) && (Idle(b.ctl[w].pc) || AtTop(b.ctl[w].pc))
  {
    hide Leads, Inv;
    ShapeOfInv(g, st);
    b := st;
    LeadsHere(g, st, {w});
    if MidTry(st.ctl[w].pc) {
      var tr, picks := TryEnds(g, st, w);
      b := tr[|picks|];
      SoloRestLeads(g, tr, picks, w);
      LeadsKeepsInv(g, st, b, {w});
    }
    ShapeOfInv(g, b);
    if AtWork(b.ctl[w].pc) {
      var c := Unwinds(g, b, w);
      LeadsOn(g, st, b, c, {w});
      b := c;
    }
  }

  ghost function Unfinished(st: State): multiset<Task> {
    multiset(seq(|st.place|, t => t)) - st.done
  }

  lemma MinusOne(all: multiset<Task>, done: multiset<Task>, t: Task)
    requires t in all - done
    ensures |all - (done + multiset{t})| < |all - done|
  {
    assert all - (done + multiset{t}) == (all - done) - multiset{t};
  }

  lemma DoneOnce(st: State, t: Task)
    requires Placed(st) && t in st.done
    ensures t < |st.place| && st.done[t] == 1
  {
    assert Bag(st, Done)[t] == st.done[t];
  }

  lemma OneFewer(st: State, b: State, t: Task)
    requires Placed(b) && SameTasks(st, b) && b.done == st.done + multiset{t}
    ensures |Unfinished(b)| < |Unfinished(st)|
  {
    DoneOnce(b, t);
    hide Placed;
    var all := seq(|st.place|, i => i);
    assert all[t] == t && t in multiset(all);
    MinusOne(multiset(all), st.done, t);
  }

  lemma PlacedOfInv(g: Config, st: State)
    requires Inv(g, st)
    ensures Placed(st)
  {
  }

  lemma {:induction false} FinishesAllInReach(g: Config, st: State, w: nat) returns (b: State)
    requires Inv(g, st) && w < g.nTotal && AtTop(st.ctl[w].pc)
    ensures Leads(g, st, b, {w}) && Inv(g, b) && AtTop(b.ctl[w].pc) && NothingInReach(g, b, w)
    decreases |Unfinished(st)|
  {
    hide Leads, Inv, AtTop, NothingInReach, InReach, Unfinished;
    ShapeOfInv(g, st);
    if NothingInReach(g, st, w) {
      LeadsHere(g, st, {w});
      b := st;
    } else {
      WorkGetsDone(g, st, w);
      var c: State, t: Task :| Leads(g, st, c, {w}) && Shape(g, c) && AtTop(c.ctl[w].pc)
        && InReach(g, st, w, t) && c.started == st.started + multiset{t} && c.done == st.done + multiset{t};
      LeadsKeepsInv(g, st, c, {w});
      LeadsKeepsTasks(g, st, c, {w});
      assert Placed(c) by { PlacedOfInv(g, c); }
      OneFewer(st, c, t);
      b := FinishesAllInReach(g, c, w);
      LeadsOn(g, st, c, b, {w});
    }
  }

  lemma RestIsSettled(g: Config, st: State, w: nat)
    requires Inv(g, st) && w < g.nTotal && (Idle(st.ctl[w].pc) || (AtTop(st.ctl[w].pc) && NothingInReach(g, st, w)))
    ensures Shape(g, st) && Settled(st.dat[w])
  {
    InvOfWorker(g, st, w);
  }

  lemma Settles(g: Config, st: State, w: nat) returns (b: State)
    requires Inv(g, st) && w < g.nTotal
    ensures Leads(g, st, b, {w}) && Inv(g, b) && Shape(g, b) && Settled(b.dat[w])
  {
    hide Leads, Inv, NothingInReach, Idle, AtTop, Settled;
    b := ComesToRest(g, st, w);
    ShapeOfInv(g, b);
    if !Idle(b.ctl[w].pc) {
      var c := FinishesAllInReach(g, b, w);
      LeadsOn(g, st, b, c, {w});
      b := c;
    }
    RestIsSettled(g, b, w);
  }

  /** A core worker does not rest for good: its sleep is timed. */
  function Drowsy(ct: Ctl): nat {
    if ct.pc == Sleep then 17 else Restless(ct)
  }

  lemma CoreNext(g: Config, st: State, w: nat)
    requires CtlInv(g, st) && w < g.nCore && Idle(st.ctl[w].pc)
    ensures var b := WorkerNext(g, st, w, Pick(false, 0));
      && Shape(g, b) && (AtTop(b.ctl[w].pc) || (Idle(b.ctl[w].pc) && Drowsy(b.ctl[w]) < Drowsy(st.ctl[w])))
  {
    if st.ctl[w].pc != Sleep {
      assert KindOk(g, w, st.ctl[w].pc) by { assert WorkerOk(g, st.rings, w, st.ctl[w]); }
      IdleNext(g, st, w);
      assert WorkerNext(g, st, w, Pick(false, 0)).ctl[w].pc != Sleep;
    }
  }

  lemma {:induction false} CoreTriesAgain(g: Config, st: State, w: nat) returns (b: State)
    requires Inv(g, st) && w < g.nCore && (Idle(st.ctl[w].pc) || AtTop(st.ctl[w].pc))
    ensures Leads(g, st, b, {w}) && Inv(g, b) && AtTop(b.ctl[w].pc)
    decreases if AtTop(st.ctl[w].pc) then 0 else 1, Drowsy(st.ctl[w])
  {
    hide Leads, WorkerNext, Idle, AtTop, Drowsy;
    ShapeOfInv(g, st);
    if AtTop(st.ctl[w].pc) {
      LeadsHere(g, st, {w});
      b := st;
    } else {
      var c := WorkerNext(g, st, w, Pick(false, 0));
      CoreNext(g, st, w);
      NextKeepsInv(g, st, Work(w, Pick(false, 0)));
      hide Inv;
      BodyIsNotIdle(st.ctl[w].pc);
      LeadsNext(g, st, w, Pick(false, 0), {w});
      b := CoreTriesAgain(g, c, w);
      LeadsOn(g, st, c, b, {w});
    }
  }

  lemma BodyIsNotIdle(pc: PC)
    requires Idle(pc) || AtTop(pc)
    ensures pc != Body
  {
  }

  // ---------------------------------------------------------------- all of them, one after the other

  /** The workers from 0 to n - 1. */
  function Workers(n: nat): (r: set<nat>)
    ensures forall w: nat {:trigger w in r} :: w in r <==> w < n
  {
    if n == 0 then {} else Workers(n - 1) + {n - 1}
  }

  lemma {:induction false} SettleFirst(g: Config, st: State, n: nat) returns (b: State)
    requires Inv(g, st) && n <= g.nTotal
    ensures Leads(g, st, b, Workers(g.nTotal)) && Inv(g, b) && Shape(g, b)
    ensures forall v {:trigger b.dat[v]} :: 0 <= v < n ==> Settled(b.dat[v])
  {
    hide Leads, Inv, Settled;
    if n == 0 {
      LeadsHere(g, st, Workers(g.nTotal));
      ShapeOfInv(g, st);
      b := st;
    } else {
      var c := SettleFirst(g, st, n - 1);
      b := Settles(g, c, n - 1);
      forall v | 0 <= v < n ensures Settled(b.dat[v]) {
        if v < n - 1 { LeadsSparesSettled(g, c, b, n - 1, v); }
      }
      LeadsWider(g, c, b, {n - 1}, Workers(g.nTotal));
      LeadsOn(g, st, c, b, Workers(g.nTotal));
    }
  }

  lemma ShardsDrained(g: Config, st: State, w: nat)
    requires Inv(g, st) && w < g.nTotal && NothingInReach(g, st, w) && QuietOutside(st)
    ensures forall s {:trigger st.rings[s]} :: 0 <= s < g.nShards ==> st.rings[s].head == |st.rings[s].log|
  {
    forall s | 0 <= s < g.nShards ensures st.rings[s].head == |st.rings[s].log| {
      assert RingOk(st.rings[s], s, st.ext);
      NobodyPublishes(st, s, st.rings[s].head);
    }
  }

  lemma NobodyPublishes(st: State, s: nat, p: nat)
    requires QuietOutside(st)
    ensures forall x: nat {:trigger st.ext[x]} :: x < |st.ext| ==> !Publishes(st.ext[x], s, p)
  {
  }

  lemma OutsideHoldsNothing(g: Config, st: State)
    requires CtlInv(g, st) && QuietOutside(st)
    ensures forall x: nat {:trigger st.extHand[x]} :: x < |st.extHand| ==> st.extHand[x].None?
  {
    forall x: nat | x < |st.extHand| ensures st.extHand[x].None? {
      assert ExtOk(g, st.rings, st.ext[x], st.extHand[x]);
    }
  }

  lemma AllDone(g: Config, st: State, t: Task)
    requires Inv(g, st) && t < |st.place| && QuietOutside(st)
    requires forall s {:trigger st.rings[s]} :: 0 <= s < g.nShards ==> st.rings[s].head == |st.rings[s].log|
    requires forall v {:trigger st.dat[v]} :: 0 <= v < g.nTotal ==> Settled(st.dat[v])
    ensures st.done[t] == 1
  {
    assert Bag(st, st.place[t])[t] == 1;
    OutsideHoldsNothing(g, st);
  }

  /** The pool is never stuck: from every reachable state with no submission in progress, steps of
      the workers lead to a state in which every task ever submitted has been run to its end, if the
      tasks submit no others. */
  lemma PoolCanFinish(g: Config, tr: seq<State>, mvs: seq<Move>)
    requires IsRun(g, tr, mvs) && QuietOutside(tr[|mvs|])
    ensures exists b: State :: Leads(g, tr[|mvs|], b, Workers(g.nTotal)) && |b.place| == |tr[|mvs|].place|
              && forall t: Task {:trigger b.done[t]} :: t < |b.place| ==> b.done[t] == 1
  {
    var st := tr[|mvs|];
    RunKeepsInv(g, tr, mvs, |mvs|);
    hide Leads, Inv, Settled, NothingInReach, QuietOutside;
    var b := AllSettle(g, st);
    LeadsKeepsTasks(g, st, b, Workers(g.nTotal));
    StillQuiet(st, b);
    ShardsDrained(g, b, 0);
    forall t: Task | t < |b.place| ensures b.done[t] == 1 { AllDone(g, b, t); }
  }

  /** Every worker in turn, and the first one again. */
  lemma AllSettle(g: Config, st: State) returns (b: State)
    requires Inv(g, st)
    ensures Leads(g, st, b, Workers(g.nTotal)) && Inv(g, b) && Shape(g, b) && NothingInReach(g, b, 0)
    ensures forall v {:trigger b.dat[v]} :: 0 <= v < g.nTotal ==> Settled(b.dat[v])
  {
    hide Leads, Inv, Settled, NothingInReach;
    ShapeOfInv(g, st);
    var a := SettleFirst(g, st, g.nTotal);
    b := FirstTakesTheRest(g, a);
    ShapeOfInv(g, b);
    LeadsWider(g, a, b, {0}, Workers(g.nTotal));
    LeadsOn(g, st, a, b, Workers(g.nTotal));
    forall v | 0 <= v < g.nTotal ensures Settled(b.dat[v]) {
      if v == 0 { RestIsSettled(g, b, 0); } else { LeadsSparesSettled(g, a, b, 0, v); }
    }
  }

  lemma FirstTakesTheRest(g: Config, a: State) returns (b: State)
    requires Inv(g, a) && Shape(g, a)
    ensures Leads(g, a, b, {0}) && Inv(g, b) && AtTop(b.ctl[0].pc) && NothingInReach(g, b, 0)
  {
    hide *;
    assert g.nTotal > 0 && g.nCore > 0 by { CoreIsAWorker(g, a); }
    var c := ComesToRest(g, a, 0);
    var d := CoreTriesAgain(g, c, 0);
    b := FinishesAllInReach(g, d, 0);
    LeadsOn(g, a, c, d, {0});
    LeadsOn(g, a, d, b, {0});
  }

  lemma CoreIsAWorker(g: Config, st: State)
    requires Shape(g, st)
    ensures 1 <= g.nCore <= g.nTotal
  {
  }

  lemma StillQuiet(st: State, b: State)
    requires QuietOutside(st) && b.ext == st.ext
    ensures QuietOutside(b)
  {
  }

  // ---------------------------------------------------------------- submissions alone

  function WorkerSteps(g: Config, st: State, w: nat, picks: seq<Pick>): (r: State)
    requires Shape(g, st) && w < g.nTotal
    ensures Shape(g, r)
    decreases |picks|
  {
    if picks == [] then st else WorkerSteps(g, WorkerNext(g, st, w, picks[0]), w, picks[1..])
  }

  function ExtSteps(g: Config, st: State, x: nat, picks: seq<Pick>): (r: State)
    requires Shape(g, st) && x < |st.ext|
    ensures Shape(g, r) && |r.ext| == |st.ext|
    decreases |picks|
  {
    if picks == [] then st else ExtSteps(g, ExtNext(g, st, x, picks[0]), x, picks[1..])
  }

  /** A running task submits another: it is counted and put into the LIFO slot, and a task that was
      there goes to the back of the deque or, when that is full, is about to be run at once. */
  lemma SubmissionInside(g: Config, st: State, w: nat, q: Pick, p: Pick)
    requires Shape(g, st) && w < g.nTotal && DatOk(st.ctl[w].pc, st.dat[w]) && st.ctl[w].pc == Body && q.yes
    ensures var t, d, c := |st.place|, st.dat[w], g.nShards + w;
      var s3, s4 := WorkerSteps(g, st, w, [q, p, p]), WorkerSteps(g, st, w, [q, p, p, p]);
      && s3.ledger == Accounting.Ledger(st.ledger.ctrs[c := st.ledger.ctrs[c] + 1], st.ledger.open + {t})
      && s3.dat[w] == d.(lifo := Some(t), hand := d.lifo)
      && (d.lifo == None ==> s3.ctl[w].pc == Body)
      && (d.lifo.Some? ==>
            if |d.deque| < g.dequeCap
            then s4.dat[w] == d.(lifo := Some(t), deque := d.deque + [d.lifo.value]) && s4.ctl[w].pc == Waking(AskParked, false)
            else s4.dat[w] == s3.dat[w] && s4.ctl[w].pc == Start)
  {
    hide WorkerNext, WorkerSteps, DatOk;
    var s1 := WorkerNext(g, st, w, q);
    CreateNext(g, st, w, q);
    var s2 := WorkerNext(g, s1, w, p);
    CountNext(g, s1, w, p);
    var s3 := WorkerNext(g, s2, w, p);
    PlaceNext(g, s2, w, p);
    SpillNext(g, s3, w, p);
    FourSteps(g, st, s1, s2, s3, w, q, p);
    assert st.dat[w].hand.None? by { HandIsEmpty(st.ctl[w].pc, st.dat[w]); }
    assert s2.dat[w] == st.dat[w].(hand := Some(|st.place|));
    assert s3.dat[w] == st.dat[w].(lifo := Some(|st.place|), hand := st.dat[w].lifo);
  }

  lemma HandIsEmpty(pc: PC, d: Dat)
    requires DatOk(pc, d) && pc == Body
    ensures d.hand.None?
  {
  }

  lemma FourSteps(g: Config, st: State, s1: State, s2: State, s3: State, w: nat, q: Pick, p: Pick)
    requires Shape(g, st) && w < g.nTotal && s1 == WorkerNext(g, st, w, q)
    requires Shape(g, s1) && s2 == WorkerNext(g, s1, w, p) && Shape(g, s2) && s3 == WorkerNext(g, s2, w, p) && Shape(g, s3)
    requires Shape(g, WorkerNext(g, s3, w, p))
    ensures WorkerSteps(g, st, w, [q, p, p]) == s3 && WorkerSteps(g, st, w, [q, p, p, p]) == WorkerNext(g, s3, w, p)
  {
    hide WorkerNext;
    assert [q, p, p][1..] == [p, p] && [q, p, p, p][1..] == [p, p, p] && [p, p, p][1..] == [p, p] && [p, p][1..] == [p];
    assert WorkerSteps(g, s2, w, [p]) == s3 && WorkerSteps(g, s1, w, [p, p]) == s3;
    assert WorkerSteps(g, s3, w, [p]) == WorkerNext(g, s3, w, p);
    assert WorkerSteps(g, s2, w, [p, p]) == WorkerNext(g, s3, w, p);
    assert WorkerSteps(g, s1, w, [p, p, p]) == WorkerNext(g, s3, w, p);
  }

  lemma CreateNext(g: Config, st: State, w: nat, pick: Pick)
    requires Shape(g, st) && w < g.nTotal && st.ctl[w].pc == Body && pick.yes
    ensures var b := WorkerNext(g, st, w, pick);
      Shape(g, b) && b.ctl[w].pc == Count && b.dat == st.dat[w := st.dat[w].(hand := Some(|st.place|))] && b.ledger == st.ledger
  {
    assert ActOf(g, st, w, pick) == Create(Count);
    hide ActOf;
  }

  lemma CountNext(g: Config, st: State, w: nat, pick: Pick)
    requires Shape(g, st) && w < g.nTotal && st.ctl[w].pc == Count && st.dat[w].hand.Some?
    ensures var b, c := WorkerNext(g, st, w, pick), g.nShards + w;
      && Shape(g, b) && b.ctl[w].pc == PC.Place && b.dat == st.dat
      && b.ledger == Accounting.Ledger(st.ledger.ctrs[c := st.ledger.ctrs[c] + 1], st.ledger.open + {st.dat[w].hand.value})
  {
    assert ActOf(g, st, w, pick) == CountOwn(PC.Place);
    hide ActOf;
  }

  lemma PlaceNext(g: Config, st: State, w: nat, pick: Pick)
    requires Shape(g, st) && w < g.nTotal && st.ctl[w].pc == PC.Place && st.dat[w].hand.Some?
    ensures var b, d := WorkerNext(g, st, w, pick), st.dat[w];
      && Shape(g, b) && b.ledger == st.ledger && b.dat == st.dat[w := d.(lifo := d.hand, hand := d.lifo)]
      && b.ctl[w].pc == if d.lifo.None? then Body else Spill
  {
    var a := ActOf(g, st, w, pick);
    assert if st.dat[w].lifo.None? then a == ToLifo(Body) else a == SwapLifo(Spill);
    hide ActOf;
  }

  lemma SpillNext(g: Config, st: State, w: nat, pick: Pick)
    requires Shape(g, st) && w < g.nTotal
    ensures var b, d := WorkerNext(g, st, w, pick), st.dat[w];
      && Shape(g, b)
      && (st.ctl[w].pc == Spill && d.hand.Some? ==>
            if |d.deque| < g.dequeCap
            then b.dat[w] == d.(deque := d.deque + [d.hand.value], hand := None) && b.ctl[w].pc == Waking(AskParked, false)
            else b.dat[w] == d && b.ctl[w].pc == Start)
  {
    var a := ActOf(g, st, w, pick);
    assert st.ctl[w].pc == Spill ==> a == if |st.dat[w].deque| < g.dequeCap then ToDeque(Waking(AskParked, false)) else Go(Start);
    hide ActOf;
  }

  /** A thread outside submits to a shard with room: the task is counted, entered at the tail and
      published, and the thread is about to wake somebody. */
  lemma SubmissionOutside(g: Config, st: State, x: nat, s: nat, p: Pick)
    requires Shape(g, st) && x < |st.ext| == |st.extHand| && st.ext[x] == Away && s < g.nShards
    ensures var t, r, q := |st.place|, st.rings[s], Pick(true, s);
      var b := ExtSteps(g, st, x, [q, p, q, p]);
      && b.rings == st.rings[s := Shard(r.head, r.log + [t], r.pub + {|r.log|})]
      && b.ledger == Accounting.Ledger(st.ledger.ctrs[s := st.ledger.ctrs[s] + 1], st.ledger.open + {t})
      && b.ctl == st.ctl && b.dat == st.dat && b.ext[x] == Alerting(s, AskParked)
  {
    var q := Pick(true, s);
    var s1 := ExtNext(g, st, x, q);
    var s2 := ExtNext(g, s1, x, p);
    assert s2.ext[x] == Reserving(s);
    var s3 := ExtNext(g, s2, x, q);
    var s4 := ExtNext(g, s3, x, p);
    hide ExtNext;
    assert [q, p, q, p][1..] == [p, q, p] && [p, q, p][1..] == [q, p] && [q, p][1..] == [p];
    assert ExtSteps(g, s3, x, [p]) == s4;
    assert ExtSteps(g, s2, x, [q, p]) == s4;
  }
}
