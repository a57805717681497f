/** What a worker achieves when no other thread steps meanwhile and no steal is lost: its try finds
    a task exactly when one is within reach, and a task in hand is run to its end. */
module PoolAlone {
  import opened RingSpec
  import opened PoolModel
  import opened PoolControl
  import PoolWake
  import opened PoolTasks
  import opened PoolTheorems

  // ---------------------------------------------------------------- the order of the visits

  /** Stealing starts after the last victim and comes to that one last. */
  function VictimTurn(g: Config, victim: nat, v: nat): int {
    if v > victim then v - victim else v + g.nTotal - victim
  }

  /** The turns 1 to nTotal of a stealing round visit every worker, each exactly once. */
  lemma EveryWorkerIsVisited(g: Config, victim: nat, v: nat)
    requires ConfigOk(g) && victim < g.nTotal && v < g.nTotal
    ensures forall k: nat {:trigger VictimAt(g, victim, k)} :: 1 <= k <= g.nTotal ==> VictimAt(g, victim, k) < g.nTotal
    ensures exists k: nat {:trigger VictimAt(g, victim, k)} :: 1 <= k <= g.nTotal && VictimAt(g, victim, k) == v &&
              (forall j: nat {:trigger VictimAt(g, victim, j)} :: 1 <= j <= g.nTotal && VictimAt(g, victim, j) == v ==> j == k)
  {
    assert VictimAt(g, victim, VictimTurn(g, victim, v)) == v;
  }

  /** The turns 0 to nShards - 1 of a round over the shards visit every shard, each exactly once. */
  lemma EveryShardIsVisited(g: Config, cursor: nat, s: nat)
    requires ConfigOk(g) && cursor < g.nShards && s < g.nShards
    ensures forall k: nat {:trigger ShardAt(g, cursor, k)} :: k < g.nShards ==> ShardAt(g, cursor, k) < g.nShards
    ensures exists k: nat {:trigger ShardAt(g, cursor, k)} :: k < g.nShards && ShardAt(g, cursor, k) == s &&
              (forall j: nat {:trigger ShardAt(g, cursor, j)} :: j < g.nShards && ShardAt(g, cursor, j) == s ==> j == k)
  {
    assert ShardAt(g, cursor, PoolWake.Turn(g, cursor, s)) == s;
  }

  // ---------------------------------------------------------------- what is within reach

  predicate HeadReady(r: Shard<Task>) {
    r.head in r.pub
  }

  /** No task a try could find: not with the worker itself, not at the head of a shard, not in
      another worker's deque. */
  predicate NothingInReach(g: Config, st: State, w: nat)
    requires Shape(g, st) && w < g.nTotal
  {
    && HoldsNothing(st.dat[w])
    && (forall s {:trigger st.rings[s]} :: 0 <= s < g.nShards ==> !HeadReady(st.rings[s]))
    && (forall v {:trigger st.dat[v]} :: 0 <= v < g.nTotal && v != w ==> st.dat[v].deque == [])
  }

  /** `n` tasks, as many as are published from the head on and fit in one batch. */
  predicate WholeBatch(g: Config, r: Shard<Task>, n: nat) {
    && 1 <= n <= g.batch && r.head + n <= |r.log|
    && (forall p {:trigger p in r.pub} :: r.head <= p < r.head + n ==> p in r.pub)
    && (n == g.batch || r.head + n !in r.pub)
  }

  /** The first ready shard in the worker's rotation. */
  predicate FirstReady(g: Config, st: State, w: nat, s: nat)
    requires Shape(g, st) && w < g.nTotal
  {
    && s < g.nShards && HeadReady(st.rings[s])
    && (forall u {:trigger st.rings[u]} :: 0 <= u < g.nShards && HeadReady(st.rings[u]) ==>
          PoolWake.Turn(g, st.ctl[w].cursor, s) <= PoolWake.Turn(g, st.ctl[w].cursor, u))
  }

  /** The first other worker in the stealing order whose deque is not empty. */
  predicate FirstVictim(g: Config, st: State, w: nat, v: nat)
    requires Shape(g, st) && w < g.nTotal
  {
    && v < g.nTotal && v != w && st.dat[v].deque != []
    && (forall u {:trigger st.dat[u]} :: 0 <= u < g.nTotal && u != w && st.dat[u].deque != [] ==>
          VictimTurn(g, st.ctl[w].victim, v) <= VictimTurn(g, st.ctl[w].victim, u))
  }

  predicate TookLifo(st: State, b: State, w: nat, streak: nat)
    requires w < |st.dat|
  {
    var d := st.dat[w];
    b.rings == st.rings && b.dat == st.dat[w := Dat(None, streak, d.deque, d.pend, d.lifo, d.stack)]
  }

  predicate TookOwn(st: State, b: State, w: nat)
    requires w < |st.dat| && st.dat[w].deque != []
  {
    var d := st.dat[w]; var n := |d.deque| - 1;
    b.rings == st.rings && b.dat == st.dat[w := Dat(d.lifo, 0, d.deque[..n], d.pend, Some(d.deque[n]), d.stack)]
  }

  predicate TookBuffered(st: State, b: State, w: nat)
    requires w < |st.dat| && st.dat[w].pend != []
  {
    var d := st.dat[w];
    b.rings == st.rings && b.dat == st.dat[w := Dat(d.lifo, 0, d.deque, d.pend[1..], Some(d.pend[0]), d.stack)]
  }

  predicate TookBatch(g: Config, st: State, b: State, w: nat, s: nat, n: nat)
    requires Shape(g, st) && w < g.nTotal && s < g.nShards
  {
    var d, r := st.dat[w], st.rings[s];
    && WholeBatch(g, r, n) && |b.ctl| == g.nTotal && b.ctl[w].cursor == s
    && b.rings == st.rings[s := Shard(r.head + n, r.log, r.pub)]
    && b.dat == st.dat[w := Dat(d.lifo, 0, d.deque, r.log[r.head + 1..r.head + n], Some(r.log[r.head]), d.stack)]
  }

  predicate Stole(g: Config, st: State, b: State, w: nat, v: nat)
    requires Shape(g, st) && w < g.nTotal && v < g.nTotal && st.dat[v].deque != []
  {
    var d, o := st.dat[w], st.dat[v];
    && |b.ctl| == g.nTotal && b.ctl[w].victim == v && b.rings == st.rings
    && b.dat == st.dat[v := Dat(o.lifo, o.streak, o.deque[1..], o.pend, o.hand, o.stack)]
                      [w := Dat(d.lifo, 0, d.deque, d.pend, Some(o.deque[0]), d.stack)]
  }

  predicate TookNothing(st: State, b: State) {
    b.rings == st.rings && b.dat == st.dat
  }

  /** The LIFO slot unless it had its run of turns, then the own deque, the batch buffer, the first
      ready shard, the first deque to steal from, and the LIFO slot after all. */
  ghost predicate Outcome(g: Config, st: State, b: State, w: nat)
    requires Shape(g, st) && w < g.nTotal
  {
    var d := st.dat[w];
    if d.lifo.Some? && d.streak < g.lifoCap then TookLifo(st, b, w, d.streak + 1)
    else if d.deque != [] then TookOwn(st, b, w)
    else if d.pend != [] then TookBuffered(st, b, w)
    else if exists s: nat :: FirstReady(g, st, w, s) then
      exists s: nat, n: nat :: FirstReady(g, st, w, s) && TookBatch(g, st, b, w, s, n)
    else if exists v: nat :: FirstVictim(g, st, w, v) then
      exists v: nat :: FirstVictim(g, st, w, v) && Stole(g, st, b, w, v)
    else if d.lifo.Some? then TookLifo(st, b, w, 0)
    else TookNothing(st, b)
  }

  // ---------------------------------------------------------------- a try alone

  /** Past the first access of pool_try_get, with no result yet. */
  predicate MidTry(pc: PC) {
    pc.Try? && !pc.ph.Lifo?
  }

  ghost predicate StepsAlone(g: Config, tr: seq<State>, picks: seq<Pick>, w: nat, j: nat)
    requires j < |picks| && j + 1 < |tr|
  {
    Shape(g, tr[j]) && w < g.nTotal && tr[j + 1] == Next(g, tr[j], Work(w, picks[j]))
  }

  /** The call goes on at moment `j`, and does not lose a steal there. */
  predicate TriesOn(g: Config, st: State, pick: Pick, w: nat) {
    w < |st.ctl| && st.ctl[w].pc.Try? && (st.ctl[w].pc.ph.Steal? ==> pick.yes)
  }

  /** The states of a call of pool_try_get from some access of it to its return. */
  ghost predicate SoloRest(g: Config, tr: seq<State>, picks: seq<Pick>, w: nat) {
    && |tr| == |picks| + 1 && |picks| > 0
    && (forall j {:trigger StepsAlone(g, tr, picks, w, j)} :: 0 <= j < |picks| ==> StepsAlone(g, tr, picks, w, j))
    && (forall j {:trigger tr[j]} :: 0 <= j < |picks| ==>
          TriesOn(g, tr[j], picks[j], w) && (j > 0 ==> MidTry(tr[j].ctl[w].pc)))
    && w < |tr[|picks|].ctl| && !MidTry(tr[|picks|].ctl[w].pc)
  }

  /** The states of one call of pool_try_get during which only worker `w` steps and no steal
      is lost. */
  ghost predicate SoloTry(g: Config, tr: seq<State>, picks: seq<Pick>, w: nat) {
    SoloRest(g, tr, picks, w) && Shape(g, tr[0]) && w < g.nTotal && tr[0].ctl[w].pc.ph.Lifo?
  }

  function WithPC(st: State, w: nat, pc: PC): State
    requires w < |st.ctl|
  {
    SetCtl(st, w, st.ctl[w].(pc := pc))
  }

  predicate PassedLifo(g: Config, d: Dat) {
    d.lifo.None? || d.streak >= g.lifoCap
  }

  predicate PassedOwn(g: Config, d: Dat) {
    PassedLifo(g, d) && d.deque == [] && d.pend == []
  }

  predicate ShardsDone(g: Config, st: State, w: nat, k: nat)
    requires Shape(g, st) && w < g.nTotal
  {
    forall s {:trigger st.rings[s]} :: 0 <= s < g.nShards && PoolWake.Turn(g, st.ctl[w].cursor, s) < k ==> !HeadReady(st.rings[s])
  }

  predicate VictimsDone(g: Config, st: State, w: nat, k: nat)
    requires Shape(g, st) && w < g.nTotal
  {
    forall v {:trigger st.dat[v]} :: 0 <= v < g.nTotal && v != w && VictimTurn(g, st.ctl[w].victim, v) < k ==> st.dat[v].deque == []
  }

  /** The first `n` positions from the head on are published. */
  predicate Tested(g: Config, st: State, w: nat, k: nat, pos: nat, n: nat)
    requires Shape(g, st) && w < g.nTotal
  {
    var s := ShardAt(g, st.ctl[w].cursor, k);
    && s < g.nShards && pos == st.rings[s].head
    && (forall p {:trigger p in st.rings[s].pub} :: pos <= p < pos + n ==> p in st.rings[s].pub)
  }

  /** What the accesses before this one have found out about a state that does not change. */
  predicate Searched(g: Config, st: State, w: nat, ph: Phase)
    requires Shape(g, st) && w < g.nTotal
  {
    var d := st.dat[w];
    match ph
    case Lifo => true
    case Own => PassedLifo(g, d)
    case Buffer => PassedLifo(g, d) && d.deque == []
    case Head(k) => PassedOwn(g, d) && k < g.nShards && ShardsDone(g, st, w, k)
    case Test(k, pos, n) => PassedOwn(g, d) && k < g.nShards && n < g.batch && ShardsDone(g, st, w, k) && Tested(g, st, w, k, pos, n)
    case Cas(k, pos, n) =>
      && PassedOwn(g, d) && k < g.nShards && ShardsDone(g, st, w, k) && Tested(g, st, w, k, pos, n)
      && 1 <= n <= g.batch && (n == g.batch || pos + n !in st.rings[ShardAt(g, st.ctl[w].cursor, k)].pub)
    case Steal(k) => 1 <= k <= g.nTotal + 1 && PassedOwn(g, d) && ShardsDone(g, st, w, g.nShards) && VictimsDone(g, st, w, k)
    case LastLifo => PassedOwn(g, d) && ShardsDone(g, st, w, g.nShards) && VictimsDone(g, st, w, g.nTotal + 1)
  }

  /** After the claim of a batch, with the first task about to be taken from the buffer. */
  predicate HasBatch(g: Config, st: State, c: State, w: nat, s: nat, n: nat)
    requires Shape(g, st) && w < g.nTotal
  {
    && PassedOwn(g, st.dat[w]) && FirstReady(g, st, w, s) && WholeBatch(g, st.rings[s], n)
    && Shape(g, c) && c.ctl[w].pc.Try? && c.ctl[w].pc.ph == Buffer && c.ctl[w].cursor == s
    && c.rings == st.rings[s := st.rings[s].(head := st.rings[s].head + n)]
    && c.dat == st.dat[w := st.dat[w].(pend := st.rings[s].log[st.rings[s].head..st.rings[s].head + n])]
  }

  ghost predicate Under(g: Config, st: State, c: State, w: nat)
    requires Shape(g, st) && w < g.nTotal
  {
    || (w < |c.ctl| && c.ctl[w].pc.Try? && c == WithPC(st, w, c.ctl[w].pc) && Searched(g, st, w, c.ctl[w].pc.ph))
    || (exists s: nat, n: nat :: HasBatch(g, st, c, w, s, n))
  }

  // ---------------------------------------------------------------- one access

  ghost predicate GoesOn(g: Config, st: State, b: State, w: nat)
    requires Shape(g, st) && w < g.nTotal
  {
    && w < |b.ctl|
    && (if MidTry(b.ctl[w].pc) then Under(g, st, b, w) else Outcome(g, st, b, w))
  }

  /** An act that only moves the program counter. */
  lemma Moves(g: Config, st: State, w: nat, pc: PC, pick: Pick, next: PC)
    requires Shape(g, st) && w < g.nTotal && ActOf(g, WithPC(st, w, pc), w, pick) == Go(next)
    ensures WorkerNext(g, WithPC(st, w, pc), w, pick) == WithPC(st, w, next)
  {
    hide ActOf, TryAct;
    var c := WithPC(st, w, pc);
    assert c.ctl[w := c.ctl[w].(pc := next)] == WithPC(st, w, next).ctl;
  }

  lemma AccessLifo(g: Config, st: State, w: nat, site: Site, pick: Pick)
    requires Shape(g, st) && w < g.nTotal
    ensures GoesOn(g, st, WorkerNext(g, WithPC(st, w, Try(site, Lifo)), w, pick), w)
  {
    var d := st.dat[w];
    if !(d.lifo.Some? && d.streak < g.lifoCap) {
      Moves(g, st, w, Try(site, Lifo), pick, Try(site, Own));
    }
  }

  lemma AccessOwn(g: Config, st: State, w: nat, site: Site, pick: Pick)
    requires Shape(g, st) && w < g.nTotal && Searched(g, st, w, Own)
    ensures GoesOn(g, st, WorkerNext(g, WithPC(st, w, Try(site, Own)), w, pick), w)
  {
    if st.dat[w].deque == [] {
      Moves(g, st, w, Try(site, Own), pick, Try(site, Buffer));
    }
  }

  lemma AccessBuffer(g: Config, st: State, w: nat, site: Site, pick: Pick)
    requires Shape(g, st) && w < g.nTotal && st.ctl[w].cursor < g.nShards && Searched(g, st, w, Buffer)
    ensures GoesOn(g, st, WorkerNext(g, WithPC(st, w, Try(site, Buffer)), w, pick), w)
  {
    if st.dat[w].pend == [] {
      Moves(g, st, w, Try(site, Buffer), pick, Try(site, Head(0)));
    }
  }

  lemma AccessHead(g: Config, st: State, w: nat, site: Site, k: nat, pick: Pick)
    requires Shape(g, st) && w < g.nTotal && st.ctl[w].cursor < g.nShards && Searched(g, st, w, Head(k))
    ensures GoesOn(g, st, WorkerNext(g, WithPC(st, w, Try(site, Head(k))), w, pick), w)
  {
    var s := ShardAt(g, st.ctl[w].cursor, k);
    Moves(g, st, w, Try(site, Head(k)), pick, Try(site, Test(k, st.rings[s].head, 0)));
  }

  /** What the test of one more position tells. */
  lemma TestTells(g: Config, st: State, w: nat, k: nat, pos: nat, n: nat)
    requires Shape(g, st) && w < g.nTotal && IndexOk(g, st.ctl[w]) && Searched(g, st, w, Test(k, pos, n))
    ensures var s := ShardAt(g, st.ctl[w].cursor, k);
      Searched(g, st, w, AfterTest(g, k, pos, n, pos + n in st.rings[s].pub))
  {
    hide VictimTurn;
    var s := ShardAt(g, st.ctl[w].cursor, k);
    if pos + n !in st.rings[s].pub && n == 0 {
      ShardIsEmpty(g, st, w, k);
      if k + 1 == g.nShards { NoVictimYet(g, st, w); }
    }
  }

  lemma ShardIsEmpty(g: Config, st: State, w: nat, k: nat)
    requires Shape(g, st) && w < g.nTotal && st.ctl[w].cursor < g.nShards && k < g.nShards && ShardsDone(g, st, w, k)
    requires !HeadReady(st.rings[ShardAt(g, st.ctl[w].cursor, k)])
    ensures ShardsDone(g, st, w, k + 1)
  {
    forall s | 0 <= s < g.nShards && PoolWake.Turn(g, st.ctl[w].cursor, s) == k
      ensures s == ShardAt(g, st.ctl[w].cursor, k) {}
  }

  lemma NoVictimYet(g: Config, st: State, w: nat)
    requires Shape(g, st) && w < g.nTotal && st.ctl[w].victim < g.nTotal
    ensures VictimsDone(g, st, w, 1)
  {
    forall v | 0 <= v < g.nTotal && VictimTurn(g, st.ctl[w].victim, v) < 1 ensures v >= g.nTotal {}
  }

  lemma AccessTest(g: Config, st: State, w: nat, site: Site, k: nat, pos: nat, n: nat, pick: Pick)
    requires Shape(g, st) && w < g.nTotal && IndexOk(g, st.ctl[w]) && Searched(g, st, w, Test(k, pos, n))
    ensures GoesOn(g, st, WorkerNext(g, WithPC(st, w, Try(site, Test(k, pos, n))), w, pick), w)
  {
    var s := ShardAt(g, st.ctl[w].cursor, k);
    var ready := pos + n in st.rings[s].pub;
    TestTells(g, st, w, k, pos, n);
    TestGoes(g, st, w, site, k, pos, n, pick);
    Moves(g, st, w, Try(site, Test(k, pos, n)), pick, Try(site, AfterTest(g, k, pos, n, ready)));
    hide WorkerNext, Searched;
  }

  lemma TestGoes(g: Config, st: State, w: nat, site: Site, k: nat, pos: nat, n: nat, pick: Pick)
    requires Shape(g, st) && w < g.nTotal
    requires var s := ShardAt(g, st.ctl[w].cursor, k); s < g.nShards && pos == st.rings[s].head
    ensures var ready := pos + n in st.rings[ShardAt(g, st.ctl[w].cursor, k)].pub;
      ActOf(g, WithPC(st, w, Try(site, Test(k, pos, n))), w, pick) == Go(Try(site, AfterTest(g, k, pos, n, ready)))
  {
    hide AfterTest, AfterFail, AfterFound;
  }

  lemma AccessSteal(g: Config, st: State, w: nat, site: Site, k: nat, pick: Pick)
    requires Shape(g, st) && w < g.nTotal && IndexOk(g, st.ctl[w]) && Searched(g, st, w, Steal(k)) && pick.yes && k <= g.nTotal
    ensures GoesOn(g, st, WorkerNext(g, WithPC(st, w, Try(site, Steal(k))), w, pick), w)
  {
    var v := VictimAt(g, st.ctl[w].victim, k);
    if v == w || st.dat[v].deque == [] {
      VictimIsEmpty(g, st, w, k);
      StealGoes(g, st, w, site, k, pick);
      Moves(g, st, w, Try(site, Steal(k)), pick, Try(site, Steal(k + 1)));
      hide WorkerNext;
    } else {
      VictimIsFirst(g, st, w, k);
      Steals(g, st, w, site, k, pick);
      NoShardIsReady(g, st, w);
      hide WorkerNext, FirstVictim, FirstReady, Searched, Stole, Under;
    }
  }

  lemma NoShardIsReady(g: Config, st: State, w: nat)
    requires Shape(g, st) && w < g.nTotal && st.ctl[w].cursor < g.nShards && ShardsDone(g, st, w, g.nShards)
    ensures forall s: nat {:trigger FirstReady(g, st, w, s)} :: !FirstReady(g, st, w, s)
  {
  }

  lemma NoVictimIsLeft(g: Config, st: State, w: nat)
    requires Shape(g, st) && w < g.nTotal && VictimsDone(g, st, w, g.nTotal + 1) && st.ctl[w].victim < g.nTotal
    ensures forall v: nat {:trigger FirstVictim(g, st, w, v)} :: !FirstVictim(g, st, w, v)
  {
  }

  lemma VictimIsEmpty(g: Config, st: State, w: nat, k: nat)
    requires Shape(g, st) && w < g.nTotal && st.ctl[w].victim < g.nTotal && 1 <= k <= g.nTotal && VictimsDone(g, st, w, k)
    requires var v := VictimAt(g, st.ctl[w].victim, k); v < g.nTotal && (v == w || st.dat[v].deque == [])
    ensures VictimsDone(g, st, w, k + 1)
  {
    forall v | 0 <= v < g.nTotal && VictimTurn(g, st.ctl[w].victim, v) == k
      ensures v == VictimAt(g, st.ctl[w].victim, k) {}
  }

  lemma VictimIsFirst(g: Config, st: State, w: nat, k: nat)
    requires Shape(g, st) && w < g.nTotal && st.ctl[w].victim < g.nTotal && 1 <= k <= g.nTotal && VictimsDone(g, st, w, k)
    requires var v := VictimAt(g, st.ctl[w].victim, k); v < g.nTotal && v != w && st.dat[v].deque != []
    ensures FirstVictim(g, st, w, VictimAt(g, st.ctl[w].victim, k))
  {
    assert VictimTurn(g, st.ctl[w].victim, VictimAt(g, st.ctl[w].victim, k)) == k;
  }

  lemma StealGoes(g: Config, st: State, w: nat, site: Site, k: nat, pick: Pick)
    requires Shape(g, st) && w < g.nTotal && st.ctl[w].victim < g.nTotal && 1 <= k <= g.nTotal
    requires var v := VictimAt(g, st.ctl[w].victim, k); v < g.nTotal && (v == w || st.dat[v].deque == [])
    ensures ActOf(g, WithPC(st, w, Try(site, Steal(k))), w, pick) == Go(Try(site, Steal(k + 1)))
  {
  }

  lemma Steals(g: Config, st: State, w: nat, site: Site, k: nat, pick: Pick)
    requires Shape(g, st) && w < g.nTotal && 1 <= k <= g.nTotal && pick.yes
    requires var v := VictimAt(g, st.ctl[w].victim, k); v < g.nTotal && v != w && st.dat[v].deque != []
    ensures var b := WorkerNext(g, WithPC(st, w, Try(site, Steal(k))), w, pick);
      w < |b.ctl| && !MidTry(b.ctl[w].pc) && Stole(g, st, b, w, VictimAt(g, st.ctl[w].victim, k))
  {
    var v, c := VictimAt(g, st.ctl[w].victim, k), WithPC(st, w, Try(site, Steal(k)));
    assert ActOf(g, c, w, pick) == FromVictim(v, AfterFound(site));
    hide ActOf, TryAct;
  }

  /** The round is over. */
  lemma AccessLastSteal(g: Config, st: State, w: nat, site: Site, k: nat, pick: Pick)
    requires Shape(g, st) && w < g.nTotal && k == g.nTotal + 1 && Searched(g, st, w, Steal(k))
    ensures GoesOn(g, st, WorkerNext(g, WithPC(st, w, Try(site, Steal(k))), w, pick), w)
  {
    Moves(g, st, w, Try(site, Steal(k)), pick, Try(site, LastLifo));
  }

  lemma AccessLastLifo(g: Config, st: State, w: nat, site: Site, pick: Pick)
    requires Shape(g, st) && w < g.nTotal && IndexOk(g, st.ctl[w]) && Searched(g, st, w, LastLifo)
    ensures GoesOn(g, st, WorkerNext(g, WithPC(st, w, Try(site, LastLifo)), w, pick), w)
  {
    NoShardIsReady(g, st, w);
    NoVictimIsLeft(g, st, w);
    hide FirstReady, FirstVictim, ShardsDone, VictimsDone;
    if st.dat[w].lifo.None? {
      var next := AfterFail(g, w, site, pick);
      hide AfterFail;
      Moves(g, st, w, Try(site, LastLifo), pick, next);
      FailEndsTry(g, w, site, pick);
    }
  }

  lemma FailEndsTry(g: Config, w: nat, site: Site, pick: Pick)
    ensures !MidTry(AfterFail(g, w, site, pick)) && !MidTry(AfterFound(site))
  {
  }

  lemma AccessCas(g: Config, st: State, w: nat, site: Site, k: nat, pos: nat, n: nat, pick: Pick)
    requires Shape(g, st) && w < g.nTotal && IndexOk(g, st.ctl[w]) && Searched(g, st, w, Cas(k, pos, n))
    requires forall s {:trigger st.rings[s]} :: 0 <= s < g.nShards ==> Valid(st.rings[s])
    ensures GoesOn(g, st, WorkerNext(g, WithPC(st, w, Try(site, Cas(k, pos, n))), w, pick), w)
  {
    var s := ShardAt(g, st.ctl[w].cursor, k);
    assert pos + n - 1 in st.rings[s].pub;
    assert PoolWake.Turn(g, st.ctl[w].cursor, s) == k;
    assert FirstReady(g, st, w, s) && WholeBatch(g, st.rings[s], n);
    Claims(g, st, w, site, k, pos, n, pick);
    hide WorkerNext, Outcome;
    assert HasBatch(g, st, WorkerNext(g, WithPC(st, w, Try(site, Cas(k, pos, n))), w, pick), w, s, n);
  }

  lemma Claims(g: Config, st: State, w: nat, site: Site, k: nat, pos: nat, n: nat, pick: Pick)
    requires Shape(g, st) && w < g.nTotal
    requires var s := ShardAt(g, st.ctl[w].cursor, k); s < g.nShards && pos == st.rings[s].head && pos + n <= |st.rings[s].log|
    ensures var b := WorkerNext(g, WithPC(st, w, Try(site, Cas(k, pos, n))), w, pick);
      var s := ShardAt(g, st.ctl[w].cursor, k);
      && Shape(g, b) && b.ctl[w].pc == Try(site, Buffer) && b.ctl[w].cursor == s
      && b.rings == st.rings[s := st.rings[s].(head := st.rings[s].head + n)]
      && b.dat == st.dat[w := st.dat[w].(pend := st.rings[s].log[st.rings[s].head..st.rings[s].head + n])]
  {
    var s, c := ShardAt(g, st.ctl[w].cursor, k), WithPC(st, w, Try(site, Cas(k, pos, n)));
    assert ActOf(g, c, w, pick) == ClaimShard(s, n, Try(site, Buffer));
    hide ActOf, TryAct;
  }

  lemma TakesFirst(g: Config, st: State, c: State, w: nat, s: nat, n: nat, pick: Pick)
    requires Shape(g, st) && w < g.nTotal && HasBatch(g, st, c, w, s, n)
    ensures var b := WorkerNext(g, c, w, pick); w < |b.ctl| && !MidTry(b.ctl[w].pc) && TookBatch(g, st, b, w, s, n)
  {
    var d, r := c.dat[w], st.rings[s];
    assert d.pend[1..] == r.log[r.head + 1..r.head + n];
    assert ActOf(g, c, w, pick) == FromBuffer(AfterFound(c.ctl[w].pc.site));
    FailEndsTry(g, w, c.ctl[w].pc.site, pick);
    hide ActOf, TryAct;
  }

  lemma AccessBatch(g: Config, st: State, c: State, w: nat, s: nat, n: nat, pick: Pick)
    requires Shape(g, st) && w < g.nTotal && HasBatch(g, st, c, w, s, n)
    ensures GoesOn(g, st, WorkerNext(g, c, w, pick), w)
  {
    TakesFirst(g, st, c, w, s, n, pick);
    hide WorkerNext, FirstReady, TookBatch, WholeBatch;
  }

  /** The state a try starts in: the worker's indices and the rings are in order. */
  predicate InOrder(g: Config, st: State, w: nat)
    requires Shape(g, st) && w < g.nTotal
  {
    && IndexOk(g, st.ctl[w]) && st.dat[w].hand.None?
    && (forall s {:trigger st.rings[s]} :: 0 <= s < g.nShards ==> Valid(st.rings[s]))
  }

  lemma InvInOrder(g: Config, st: State, w: nat)
    requires Inv(g, st) && w < g.nTotal && st.ctl[w].pc.Try?
    ensures InOrder(g, st, w)
  {
    assert WorkerOk(g, st.rings, w, st.ctl[w]) && DatOk(st.ctl[w].pc, st.dat[w]);
    forall s | 0 <= s < g.nShards ensures Valid(st.rings[s]) {
      assert RingOk(st.rings[s], s, st.ext);
    }
  }

  lemma Access(g: Config, st: State, c: State, w: nat, pick: Pick)
    requires Shape(g, st) && w < g.nTotal && InOrder(g, st, w) && Under(g, st, c, w)
    requires c.ctl[w].pc.ph.Steal? ==> pick.yes
    ensures Shape(g, c) && GoesOn(g, st, WorkerNext(g, c, w, pick), w)
  {
    if s: nat, n: nat :| HasBatch(g, st, c, w, s, n) {
      AccessBatch(g, st, c, w, s, n, pick);
    } else {
      hide WorkerNext, HasBatch, Outcome, GoesOn;
      var site := c.ctl[w].pc.site;
      match c.ctl[w].pc.ph {
        case Lifo => AccessLifo(g, st, w, site, pick);
        case Own => AccessOwn(g, st, w, site, pick);
        case Buffer => AccessBuffer(g, st, w, site, pick);
        case Head(k) => AccessHead(g, st, w, site, k, pick);
        case Test(k, pos, n) => AccessTest(g, st, w, site, k, pos, n, pick);
        case Cas(k, pos, n) => AccessCas(g, st, w, site, k, pos, n, pick);
        case Steal(k) =>
          if k <= g.nTotal { AccessSteal(g, st, w, site, k, pick); } else { AccessLastSteal(g, st, w, site, k, pick); }
        case LastLifo => AccessLastLifo(g, st, w, site, pick);
      }
    }
  }

  lemma {:induction false} UnderWay(g: Config, tr: seq<State>, picks: seq<Pick>, w: nat, j: nat)
    requires SoloTry(g, tr, picks, w) && InOrder(g, tr[0], w) && j < |picks|
    ensures Under(g, tr[0], tr[j], w)
  {
    if j == 0 {
      assert tr[0] == WithPC(tr[0], w, tr[0].ctl[w].pc);
    } else {
      UnderWay(g, tr, picks, w, j - 1);
      assert StepsAlone(g, tr, picks, w, j - 1);
      assert TriesOn(g, tr[j - 1], picks[j - 1], w) && MidTry(tr[j].ctl[w].pc);
      Access(g, tr[0], tr[j - 1], w, picks[j - 1]);
    }
  }

  /** Nothing was submitted, started, finished or counted. */
  predicate SameRecord(a: State, b: State) {
    b.ext == a.ext && b.extHand == a.extHand && b.ledger == a.ledger && b.started == a.started && b.done == a.done
  }

  lemma TryKeepsRecord(g: Config, c: State, w: nat, pick: Pick)
    requires Shape(g, c) && w < g.nTotal && c.ctl[w].pc.Try?
    ensures var b := WorkerNext(g, c, w, pick); Shape(g, b) && SameRecord(c, b) && !InTask(b.ctl[w].pc)
  {
    OtherActs(g, c, w, pick);
    var a := ActOf(g, c, w, pick);
    assert !a.CountOwn? && !a.Finish? && !a.Begin? && !InTask(a.next);
    hide ActOf, TryAct;
  }

  lemma {:induction false} CallKeepsRecord(g: Config, tr: seq<State>, picks: seq<Pick>, w: nat, j: nat)
    requires SoloRest(g, tr, picks, w) && j < |tr|
    ensures SameRecord(tr[0], tr[j])
    ensures j > 0 ==> Shape(g, tr[j]) && !InTask(tr[j].ctl[w].pc)
  {
    if j > 0 {
      CallKeepsRecord(g, tr, picks, w, j - 1);
      assert StepsAlone(g, tr, picks, w, j - 1);
      assert TriesOn(g, tr[j - 1], picks[j - 1], w);
      hide WorkerNext;
      TryKeepsRecord(g, tr[j - 1], w, picks[j - 1]);
    }
  }

  /** A try finds a task exactly when one is within reach. Which one, and what it leaves, is told by
      the states before and after. */
  lemma TryFindsWhatIsThere(g: Config, tr: seq<State>, picks: seq<Pick>, w: nat)
    requires SoloTry(g, tr, picks, w) && Inv(g, tr[0])
    ensures var st, b := tr[0], tr[|picks|];
      && |b.dat| == g.nTotal
      && (b.dat[w].hand.None? <==> NothingInReach(g, st, w))
      && Outcome(g, st, b, w) && SameRecord(st, b)
  {
    var n := |picks|;
    CallKeepsRecord(g, tr, picks, w, n);
    InvInOrder(g, tr[0], w);
    UnderWay(g, tr, picks, w, n - 1);
    assert StepsAlone(g, tr, picks, w, n - 1);
    assert TriesOn(g, tr[n - 1], picks[n - 1], w);
    Access(g, tr[0], tr[n - 1], w, picks[n - 1]);
    OutcomeTells(g, tr[0], tr[n], w);
  }

  lemma {:induction false} SomeReadyIsFirst(g: Config, st: State, w: nat, s: nat)
    requires Shape(g, st) && w < g.nTotal && st.ctl[w].cursor < g.nShards && s < g.nShards && HeadReady(st.rings[s])
    ensures exists u: nat :: FirstReady(g, st, w, u)
    decreases PoolWake.Turn(g, st.ctl[w].cursor, s)
  {
    var turn := PoolWake.Turn(g, st.ctl[w].cursor, s);
    if u: nat :| u < g.nShards && HeadReady(st.rings[u]) && PoolWake.Turn(g, st.ctl[w].cursor, u) < turn {
      SomeReadyIsFirst(g, st, w, u);
    } else {
      assert FirstReady(g, st, w, s);
    }
  }

  lemma {:induction false} SomeVictimIsFirst(g: Config, st: State, w: nat, v: nat)
    requires Shape(g, st) && w < g.nTotal && st.ctl[w].victim < g.nTotal && v < g.nTotal && v != w && st.dat[v].deque != []
    ensures exists u: nat :: FirstVictim(g, st, w, u)
    decreases VictimTurn(g, st.ctl[w].victim, v)
  {
    var turn := VictimTurn(g, st.ctl[w].victim, v);
    if u: nat :| u < g.nTotal && u != w && st.dat[u].deque != [] && VictimTurn(g, st.ctl[w].victim, u) < turn {
      SomeVictimIsFirst(g, st, w, u);
    } else {
      assert FirstVictim(g, st, w, v);
    }
  }

  lemma OutcomeTells(g: Config, st: State, b: State, w: nat)
    requires Shape(g, st) && w < g.nTotal && InOrder(g, st, w) && Outcome(g, st, b, w)
    ensures |b.dat| == g.nTotal && (b.dat[w].hand.None? <==> NothingInReach(g, st, w))
  {
    if s: nat :| s < g.nShards && HeadReady(st.rings[s]) { SomeReadyIsFirst(g, st, w, s); }
    if v: nat :| v < g.nTotal && v != w && st.dat[v].deque != [] { SomeVictimIsFirst(g, st, w, v); }
  }

  // ---------------------------------------------------------------- a try alone ends

  /** How far the call is from its end: the part it is in, its turn there, whether what it read is
      stale, and the tests before the claim. */
  function Part(st: State, w: nat): nat
    requires w < |st.ctl| == |st.dat| && st.ctl[w].pc.Try?
  {
    match st.ctl[w].pc.ph
    case Lifo => 6
    case Own => 5
    case Buffer => if st.dat[w].pend == [] then 4 else 0
    case Steal(_) => 2
    case LastLifo => 1
    case _ => 3
  }

  function TurnsLeft(g: Config, ph: Phase): nat {
    match ph
    case Head(k) => if k < g.nShards then g.nShards - k else 0
    case Test(k, _, _) => if k < g.nShards then g.nShards - k else 0
    case Cas(k, _, _) => if k < g.nShards then g.nShards - k else 0
    case Steal(k) => if k <= g.nTotal then g.nTotal + 1 - k else 0
    case _ => 0
  }

  function Stale(g: Config, st: State, w: nat): nat
    requires Shape(g, st) && w < g.nTotal && st.ctl[w].pc.Try?
  {
    var ct := st.ctl[w];
    match ct.pc.ph
    case Test(k, pos, _) => if ShardAt(g, ct.cursor, k) < g.nShards && st.rings[ShardAt(g, ct.cursor, k)].head == pos then 0 else 1
    case Cas(k, pos, _) => if ShardAt(g, ct.cursor, k) < g.nShards && st.rings[ShardAt(g, ct.cursor, k)].head == pos then 0 else 1
    case _ => 0
  }

  function TestsLeft(g: Config, ph: Phase): nat {
    match ph
    case Head(_) => g.batch + 1
    case Test(_, _, n) => if n < g.batch then g.batch - n else 0
    case _ => 0
  }

  predicate Sinks(g: Config, c: State, b: State, w: nat)
    requires Shape(g, c) && Shape(g, b) && w < g.nTotal && c.ctl[w].pc.Try? && b.ctl[w].pc.Try?
  {
    var ph, ph' := c.ctl[w].pc.ph, b.ctl[w].pc.ph;
    || Part(b, w) < Part(c, w)
    || (Part(b, w) == Part(c, w) &&
        (|| TurnsLeft(g, ph') < TurnsLeft(g, ph)
         || (TurnsLeft(g, ph') == TurnsLeft(g, ph) &&
             (|| Stale(g, b, w) < Stale(g, c, w)
              || (Stale(g, b, w) == Stale(g, c, w) && TestsLeft(g, ph') < TestsLeft(g, ph))))))
  }

  lemma ClaimSinks(g: Config, c: State, w: nat, pick: Pick)
    requires Shape(g, c) && w < g.nTotal && c.ctl[w].pc.Try? && ActOf(g, c, w, pick).ClaimShard?
    requires WorkerOk(g, c.rings, w, c.ctl[w])
    ensures var b := WorkerNext(g, c, w, pick); Shape(g, b) && b.ctl[w].pc.Try? && Sinks(g, c, b, w)
  {
    var ph := c.ctl[w].pc.ph;
    var s := ShardAt(g, c.ctl[w].cursor, ph.k);
    assert ActOf(g, c, w, pick) == ClaimShard(s, ph.n, Try(c.ctl[w].pc.site, Buffer));
    hide ActOf, TryAct;
    assert WorkerNext(g, c, w, pick).dat[w].pend != [];
  }

  lemma GoSinks(g: Config, c: State, w: nat, pick: Pick)
    requires Shape(g, c) && w < g.nTotal && c.ctl[w].pc.Try? && WorkerOk(g, c.rings, w, c.ctl[w])
    ensures var a := TryAct(g, c, w, pick);
      a.Go? && MidTry(a.next) ==> Sinks(g, c, WithPC(c, w, a.next), w)
  {
    hide KindOk;
    FailEndsTry(g, w, c.ctl[w].pc.site, pick);
    hide AfterFail, AfterFound;
  }

  lemma AccessSinks(g: Config, c: State, w: nat, pick: Pick)
    requires Shape(g, c) && w < g.nTotal && c.ctl[w].pc.Try? && WorkerOk(g, c.rings, w, c.ctl[w])
    ensures var b := WorkerNext(g, c, w, pick); Shape(g, b) && (MidTry(b.ctl[w].pc) ==> Sinks(g, c, b, w))
  {
    var a := ActOf(g, c, w, pick);
    if a.ClaimShard? {
      ClaimSinks(g, c, w, pick);
    } else {
      OtherActs(g, c, w, pick);
      if a.Go? {
        GoSinks(g, c, w, pick);
        assert c == WithPC(c, w, c.ctl[w].pc);
        Moves(g, c, w, c.ctl[w].pc, pick, a.next);
      }
      hide TryAct, Sinks;
    }
  }

  lemma OtherActs(g: Config, c: State, w: nat, pick: Pick)
    requires Shape(g, c) && w < g.nTotal && c.ctl[w].pc.Try?
    ensures var a := TryAct(g, c, w, pick); a.Go? || a.ClaimShard? || !MidTry(a.next)
  {
    FailEndsTry(g, w, c.ctl[w].pc.site, pick);
    hide AfterFail, AfterFound;
  }

  /** A failing call does not go round again. */
  ghost predicate GivesUp(tr: seq<State>, picks: seq<Pick>, w: nat)
    requires |tr| == |picks| + 1 && |picks| > 0
  {
    var c := tr[|picks| - 1];
    w < |c.ctl| && c.ctl[w].pc.Try? && (c.ctl[w].pc.ph.LastLifo? ==> !picks[|picks| - 1].yes)
  }

  lemma {:induction false} TryEnds(g: Config, c: State, w: nat) returns (tr: seq<State>, picks: seq<Pick>)
    requires Inv(g, c) && w < g.nTotal && c.ctl[w].pc.Try?
    ensures SoloRest(g, tr, picks, w) && tr[0] == c && GivesUp(tr, picks, w)
    decreases Part(c, w), TurnsLeft(g, c.ctl[w].pc.ph), Stale(g, c, w), TestsLeft(g, c.ctl[w].pc.ph)
  {
    var pick := Pick(!c.ctl[w].pc.ph.LastLifo?, 0);
    var b := Next(g, c, Work(w, pick));
    InvOfWorker(g, c, w);
    AccessSinks(g, c, w, pick);
    NextKeepsInv(g, c, Work(w, pick));
    hide Inv;
    if MidTry(b.ctl[w].pc) {
      var tr', picks' := TryEnds(g, b, w);
      tr, picks := [c] + tr', [pick] + picks';
      Prepended(g, c, pick, tr', picks', w);
    } else {
      tr, picks := [c, b], [pick];
    }
  }

  lemma InvOfWorker(g: Config, st: State, w: nat)
    requires Inv(g, st) && w < g.nTotal
    ensures WorkerOk(g, st.rings, w, st.ctl[w]) && DatOk(st.ctl[w].pc, st.dat[w])
  {
  }

  lemma Prepended(g: Config, c: State, pick: Pick, tr: seq<State>, picks: seq<Pick>, w: nat)
    requires SoloRest(g, tr, picks, w) && Shape(g, c) && w < g.nTotal && TriesOn(g, c, pick, w)
    requires tr[0] == Next(g, c, Work(w, pick)) && MidTry(tr[0].ctl[w].pc)
    ensures SoloRest(g, [c] + tr, [pick] + picks, w)
  {
    hide Next, MidTry;
    var tr', picks' := [c] + tr, [pick] + picks;
    forall j | 0 <= j < |picks'| ensures StepsAlone(g, tr', picks', w, j) {
      if j > 0 { assert StepsAlone(g, tr, picks, w, j - 1); }
    }
    forall j | 0 <= j < |picks'|
      ensures TriesOn(g, tr'[j], picks'[j], w) && (j > 0 ==> MidTry(tr'[j].ctl[w].pc))
    {
      if j > 0 { assert TriesOn(g, tr[j - 1], picks[j - 1], w); }
    }
  }

  /** Every try can be carried through alone. */
  lemma TryAloneEnds(g: Config, st: State, w: nat)
    requires Inv(g, st) && w < g.nTotal && st.ctl[w].pc.Try? && st.ctl[w].pc.ph.Lifo?
    ensures exists tr: seq<State>, picks: seq<Pick> :: SoloTry(g, tr, picks, w) && tr[0] == st && GivesUp(tr, picks, w)
  {
    var tr, picks := TryEnds(g, st, w);
    assert SoloTry(g, tr, picks, w) && tr[0] == st && GivesUp(tr, picks, w);
  }
}
