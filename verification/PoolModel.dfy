/** The work-stealing pool as a step relation: any number of workers and of threads outside the
    pool, one atomic access per step, sequentially consistent. The shard rings and the deques are
    the abstract containers that BatchRing and Deque refine. The pool is not being stopped. */
module PoolModel {
  import opened RingSpec
  import DequeSpec
  import Accounting

  /** A task is named by the number of the submission that created it. */
  type Task = nat

  datatype Option<T> = None | Some(value: T)

  datatype Config = Config(
    nCore: nat, nWorkers: nat, nTotal: nat, nShards: nat,
    batch: nat, dequeCap: nat, lifoCap: nat)

  predicate ConfigOk(g: Config) {
    1 <= g.nCore <= g.nWorkers <= g.nTotal && g.nShards >= 1 && g.batch >= 1
  }

  // ---------------------------------------------------------------- program counters

  /** Which call of pool_try_get a worker is in. */
  datatype Site =
    | Top                     // first statement of the worker loop
    | Watch                   // pool_vigia_gira
    | Armed                   // after the wait word was reset
    | Spin(counted: bool)     // pool_spin, counted in n_girando or not
    | Nap                     // the sleep0 part of pool_spin
    | Retest                  // after announcing itself parked
    | Inner                   // inner loop of an elastic worker

  /** Where it is inside pool_try_get. `k` indexes the rotated shard or victim order. */
  datatype Phase =
    | Lifo
    | Own
    | Buffer
    | Head(k: nat)                              // about to load the head of the k-th shard
    | Test(k: nat, pos: nat, n: nat)            // about to load the seqno of pos + n
    | Cas(k: nat, pos: nat, n: nat)             // about to CAS the head to pos + n
    | Steal(k: nat)
    | LastLifo

  /** Where a thread is inside pool_wake_submit or pool_wake_one_core. */
  datatype Wake =
    | AskParked                                 // n_parked_core > 0 ?
    | AskSpinning                               // n_girando >= 1 ?
    | AskSpinningAgain                          // after the fence
    | CountBack(spinning: int)                  // about to read the queue's back
    | CountFront(spinning: int, back: int)      // about to read the queue's front
    | AnyParked                                 // pool_wake_one_core: n_parked_core <= 0 ?
    | Rotate                                    // about to bump wake_rr
    | Look(start: nat, j: nat)                  // about to read parked of the j-th candidate
    | Grab(start: nat, j: nat)                  // about to CAS it from 1 to 0
    | Signal(k: nat)                            // about to set the wait word of worker k

  datatype PC =
    | Try(site: Site, ph: Phase)
    | Prepare                                   // about to reset the own wait word
    | SpinStart
    | SpinEnd(found: bool)                      // pool_gira_fim: about to decrement n_girando
    | ChainBack(s: nat)                         // pool_ha_fila: about to read the tail of shard s
    | ChainFront(s: nat, back: nat)
    | Announce1                                 // about to set parked
    | Announce2                                 // about to increment n_parked_core
    | Sleep                                     // in thread_wait_sleep_for
    | Woke                                      // about to reset the wait word (or not)
    | Unpark1(found: bool)                      // about to decrement n_parked_core
    | Unpark2(found: bool)                      // about to clear parked
    | Elastic0                                  // about to set parked
    | Elastic1                                  // about to reset the own wait word
    | Elastic2                                  // about to read parked before sleeping
    | Elastic3                                  // about to read parked after sleeping
    | Start                                     // pool_run, with a task in hand
    | Body                                      // the task runs
    | Count                                     // reentrant submit: about to count the new task
    | Place                                     // about to put it into the LIFO slot
    | Spill                                     // about to push the displaced task on the deque
    | Waking(wk: Wake, start: bool)             // then start the task in hand, or back to Body
    | Dec1                                      // about to load the own counter
    | Dec2(v: int)                              // about to store v - 1 in it

  /** Control state of a worker. */
  datatype Ctl = Ctl(pc: PC, parked: bool, signal: bool, cursor: nat, victim: nat)

  /** What a worker holds. `stack` is the nesting of running tasks, innermost last. */
  datatype Dat = Dat(
    lifo: Option<Task>, streak: nat, deque: seq<Task>, pend: seq<Task>,
    hand: Option<Task>, stack: seq<Task>)

  /** A thread outside the pool: a submitter, the monitor or a configuration call. */
  datatype ExtPC =
    | Away
    | Counting(s: nat)                          // about to increment the shard's counter
    | Reserving(s: nat)                         // pool_ring_push up to its CAS
    | Undoing(s: nat)                           // the ring was full: about to decrement
    | Publishing(s: nat, p: nat)                // about to publish position p
    | Alerting(s: nat, wk: Wake)

  /** Where a task is. */
  datatype Place =
    | InShard(s: nat)
    | InBuffer(w: nat)
    | InDeque(w: nat)
    | InLifo(w: nat)
    | InHand(w: nat)
    | Running(w: nat)
    | AtSubmitter(x: nat)
    | Done

  /** `place`, `started` and `done` are history: where each task ever submitted is, how often it
      was started, and which tasks have returned. */
  datatype State = State(
    rings: seq<Shard<Task>>,
    ctl: seq<Ctl>,
    dat: seq<Dat>,
    ext: seq<ExtPC>,
    extHand: seq<Option<Task>>,
    nParked: int,
    nSpinning: int,
    ledger: Accounting.Ledger,
    place: seq<Place>,
    started: multiset<Task>,
    done: multiset<Task>)

  predicate Shape(g: Config, st: State) {
    && ConfigOk(g)
    && |st.rings| == g.nShards
    && |st.ctl| == |st.dat| == g.nTotal
    && |st.ext| == |st.extHand|
    && |st.ledger.ctrs| == g.nShards + g.nTotal
  }

  /** The k-th shard a worker visits, starting at its cursor. */
  function ShardAt(g: Config, cursor: nat, k: nat): nat {
    if cursor + k < g.nShards then cursor + k else cursor + k - g.nShards
  }

  function VictimAt(g: Config, victim: nat, k: nat): nat {
    if victim + k < g.nTotal then victim + k else victim + k - g.nTotal
  }

  function CoreAt(g: Config, start: nat, j: nat): nat {
    if start + j < g.nCore then start + j else start + j - g.nCore
  }

  /** What the model leaves open: configuration words, spin lengths, time-outs, the outcome of a
      stale read or of a lost race, and what a running task does. */
  datatype Pick = Pick(yes: bool, n: nat)

  // ---------------------------------------------------------------- what one worker step does

  /** `next` is the worker's next program counter. */
  datatype Act =
    | Go(next: PC)
    | SetSignal(next: PC)                       // own wait word := 0
    | SetParked(on: bool, next: PC)             // own parked flag
    | AddParked(delta: int, next: PC)              // n_parked_core
    | AddSpinning(delta: int, next: PC)            // n_girando
    | Unflag(k: nat, next: PC)                  // CAS parked of worker k: 1 -> 0
    | Raise(k: nat, next: PC)                   // wait word of worker k := 1
    | FromLifo(streak: nat, next: PC)           // LIFO slot -> hand
    | FromDeque(next: PC)                       // own deque -> hand
    | FromBuffer(next: PC)                      // batch buffer -> hand
    | ClaimShard(s: nat, n: nat, next: PC)      // shard -> batch buffer
    | FromVictim(v: nat, next: PC)              // another worker's deque -> hand
    | Begin(next: PC)                           // hand -> running
    | Create(next: PC)                          // the running task submits a new one
    | CountOwn(next: PC)                        // own counter + 1
    | ToLifo(next: PC)                          // hand -> empty LIFO slot
    | SwapLifo(next: PC)                        // hand <-> LIFO slot
    | ToDeque(next: PC)                         // hand -> own deque
    | Finish(next: PC)                          // running -> done, own counter := v - 1

  /** pool_try_get returned true. */
  function AfterFound(site: Site): PC {
    match site
    case Spin(counted) => if counted then SpinEnd(true) else Start
    case Retest => Unpark1(true)
    case _ => Start
  }

  /** pool_try_get returned false. */
  function AfterFail(g: Config, w: nat, site: Site, pick: Pick): PC {
    match site
    case Top => if w < g.nCore && pick.yes then Try(Watch, Lifo) else Prepare
    case Watch => if pick.yes then Try(Watch, Lifo) else Try(Top, Lifo)
    case Armed => if w >= g.nCore then Sleep else if pick.yes then SpinStart else Announce1
    case Spin(counted) => if pick.yes then Try(site, Lifo) else if counted then SpinEnd(false) else Announce1
    case Nap => if pick.yes then Try(Nap, Lifo) else Announce1
    case Retest => Sleep
    case Inner => if pick.yes then Try(Inner, Lifo) else Elastic0
  }

  function NextShard(g: Config, k: nat): Phase {
    if k + 1 < g.nShards then Head(k + 1) else Steal(1)
  }

  /** The next access of pool_ring_pop_batch after it tested position pos + n. */
  function AfterTest(g: Config, k: nat, pos: nat, n: nat, ready: bool): Phase {
    if ready && n + 1 < g.batch then Test(k, pos, n + 1)
    else if ready then Cas(k, pos, n + 1)
    else if n > 0 then Cas(k, pos, n)
    else NextShard(g, k)
  }

  /** One access of pool_try_get. */
  function TryAct(g: Config, st: State, w: nat, pick: Pick): Act
    requires Shape(g, st) && w < g.nTotal && st.ctl[w].pc.Try?
  {
    var ct, d := st.ctl[w], st.dat[w];
    var site := ct.pc.site;
    match ct.pc.ph
    case Lifo =>
      if d.lifo.Some? && d.streak < g.lifoCap then FromLifo(d.streak + 1, AfterFound(site)) else Go(Try(site, Own))
    case Own => if d.deque != [] then FromDeque(AfterFound(site)) else Go(Try(site, Buffer))
    case Buffer => if d.pend != [] then FromBuffer(AfterFound(site)) else Go(Try(site, Head(0)))
    case Head(k) =>
      var s := ShardAt(g, ct.cursor, k);
      if s >= g.nShards then Go(ct.pc) else Go(Try(site, Test(k, st.rings[s].head, 0)))
    case Test(k, pos, n) =>
      var s := ShardAt(g, ct.cursor, k);
      if s >= g.nShards then Go(ct.pc) else
      var ready := if pos + n >= st.rings[s].head then pos + n in st.rings[s].pub else pick.yes;
      Go(Try(site, AfterTest(g, k, pos, n, ready)))
    case Cas(k, pos, n) =>
      var s := ShardAt(g, ct.cursor, k);
      if s >= g.nShards then Go(ct.pc) else
      if st.rings[s].head == pos then ClaimShard(s, n, Try(site, Buffer)) else Go(Try(site, Head(k)))
    case Steal(k) =>
      if k > g.nTotal then Go(Try(site, LastLifo)) else
      var v := VictimAt(g, ct.victim, k);
      if v != w && v < g.nTotal && pick.yes && st.dat[v].deque != []
      then FromVictim(v, AfterFound(site))
      else Go(Try(site, Steal(k + 1)))
    case LastLifo =>
      if d.lifo.Some? then FromLifo(0, AfterFound(site)) else Go(AfterFail(g, w, site, pick))
  }

  /** Which queue a waking thread measures: the shard it pushed to, or its own deque. */
  datatype Queue = ShardQueue(s: nat) | DequeQueue(w: nat)

  /** One access of the wake-up routines: the next access, or None when the routine returns. */
  function WakeNext(g: Config, st: State, wk: Wake, q: Queue, pick: Pick): Option<Wake>
    requires Shape(g, st)
    requires match q case ShardQueue(s) => s < g.nShards case DequeQueue(w) => w < g.nTotal
  {
    match wk
    case AskParked => Some(if st.nParked > 0 then AskSpinning else AnyParked)
    case AskSpinning => Some(if st.nSpinning >= 1 then AskSpinningAgain else AnyParked)
    case AskSpinningAgain => Some(CountBack(st.nSpinning))
    case CountBack(sp) => Some(CountFront(sp, if q.ShardQueue? then |st.rings[q.s].log| else 0))
    case CountFront(sp, back) =>
      var queued := if q.DequeQueue? then |st.dat[q.w].deque|
                    else if back > st.rings[q.s].head then back - st.rings[q.s].head else 0;
      if sp >= 1 && queued <= sp then None else Some(AnyParked)
    case AnyParked => if st.nParked <= 0 then None else Some(Rotate)
    case Rotate => Some(Look(if pick.n < g.nCore then pick.n else 0, 0))
    case Look(start, j) =>
      if start < g.nCore && j < g.nCore && st.ctl[CoreAt(g, start, j)].parked then Some(Grab(start, j))
      else Skip(g, start, j)
    case Grab(start, j) =>
      if start < g.nCore && j < g.nCore && st.ctl[CoreAt(g, start, j)].parked then Some(Signal(CoreAt(g, start, j)))
      else Skip(g, start, j)
    case Signal(_) => None
  }

  function Skip(g: Config, start: nat, j: nat): Option<Wake> {
    if j + 1 < g.nCore then Some(Look(start, j + 1)) else None
  }

  /** The worker whose parked flag the access clears. */
  function Unflags(g: Config, st: State, wk: Wake): Option<nat>
    requires Shape(g, st)
  {
    match wk
    case Grab(start, j) =>
      if start < g.nCore && j < g.nCore && st.ctl[CoreAt(g, start, j)].parked then Some(CoreAt(g, start, j)) else None
    case _ => None
  }

  /** The start of the worker's outer loop. */
  function LoopTop(g: Config, w: nat): PC {
    if w < g.nWorkers then Try(Top, Lifo) else Try(Inner, Lifo)
  }

  function ActOf(g: Config, st: State, w: nat, pick: Pick): Act
    requires Shape(g, st) && w < g.nTotal
  {
    var ct, d := st.ctl[w], st.dat[w];
    match ct.pc
    case Try(_, _) => TryAct(g, st, w, pick)
    case Prepare => SetSignal(Try(Armed, Lifo))
    case SpinStart =>
      if pick.yes then AddSpinning(1, Try(Spin(true), Lifo))
      else if pick.n == 0 then Go(Announce1) else Go(Try(Spin(false), Lifo))
    case SpinEnd(found) =>
      AddSpinning(-1, if !found then Try(Nap, Lifo) else if st.nSpinning <= 1 then ChainBack(0) else Start)
    case ChainBack(s) => if s < g.nShards then Go(ChainFront(s, |st.rings[s].log|)) else Go(Start)
    case ChainFront(s, back) =>
      if s < g.nShards && back > st.rings[s].head then Go(Waking(AnyParked, true)) else Go(ChainBack(s + 1))
    case Announce1 => SetParked(true, Announce2)
    case Announce2 => AddParked(1, Try(Retest, Lifo))
    case Sleep => Go(Woke)
    case Woke =>
      var next := if w < g.nCore then Unpark1(false) else if w < g.nWorkers then Try(Top, Lifo) else Elastic3;
      if pick.yes then SetSignal(next) else Go(next)
    case Unpark1(found) => AddParked(-1, Unpark2(found))
    case Unpark2(found) => SetParked(false, if found then Start else Try(Top, Lifo))
    case Elastic0 => SetParked(true, Elastic1)
    case Elastic1 => SetSignal(Elastic2)
    case Elastic2 => Go(if ct.parked then Sleep else Try(Inner, Lifo))
    case Elastic3 => Go(if ct.parked then Elastic0 else Try(Inner, Lifo))
    case Start => Begin(Body)
    case Body => if pick.yes then Create(Count) else Go(Dec1)
    case Count => CountOwn(Place)
    case Place => if d.lifo.None? then ToLifo(Body) else SwapLifo(Spill)
    case Spill => if |d.deque| < g.dequeCap then ToDeque(Waking(AskParked, false)) else Go(Start)
    case Waking(wk, start) =>
      var wn := WakeNext(g, st, wk, DequeQueue(w), pick);
      var next := if wn.Some? then Waking(wn.value, start) else if start then Start else Body;
      var u := Unflags(g, st, wk);
      if u.Some? then Unflag(u.value, next)
      else if wk.Signal? && wk.k < g.nTotal then Raise(wk.k, next)
      else Go(next)
    case Dec1 => Go(Dec2(st.ledger.ctrs[g.nShards + w]))
    case Dec2(_) => Finish(if |d.stack| <= 1 then LoopTop(g, w) else Body)
  }

  // ---------------------------------------------------------------- the new state

  function SetCtl(st: State, w: nat, ct: Ctl): State
    requires w < |st.ctl|
  {
    st.(ctl := st.ctl[w := ct])
  }

  /** The control words after the act, before the worker's own jump. */
  function CtlAfter(ctl: seq<Ctl>, w: nat, a: Act): (r: seq<Ctl>)
    requires w < |ctl|
    ensures |r| == |ctl|
  {
    match a
    case SetSignal(_) => ctl[w := ctl[w].(signal := false)]
    case SetParked(on, _) => ctl[w := ctl[w].(parked := on)]
    case Unflag(k, _) => if k < |ctl| then ctl[k := ctl[k].(parked := false)] else ctl
    case Raise(k, _) => if k < |ctl| then ctl[k := ctl[k].(signal := true)] else ctl
    case ClaimShard(s, _, _) => ctl[w := ctl[w].(cursor := s)]
    case FromVictim(v, _) => ctl[w := ctl[w].(victim := v)]
    case _ => ctl
  }

  /** What the worker and its victims hold after the act. */
  function DatAfter(st: State, w: nat, a: Act): (r: seq<Dat>)
    requires |st.dat| == |st.ctl| && w < |st.dat|
    ensures |r| == |st.dat|
  {
    var d := st.dat[w];
    match a
    case FromLifo(streak, _) => st.dat[w := d.(hand := d.lifo, lifo := None, streak := streak)]
    case FromDeque(_) =>
      if d.deque == [] then st.dat else
      var (rest, t) := DequeSpec.TakeBack(d.deque);
      st.dat[w := d.(deque := rest, hand := Some(t), streak := 0)]
    case FromBuffer(_) =>
      if d.pend == [] then st.dat else
      st.dat[w := d.(pend := d.pend[1..], hand := Some(d.pend[0]), streak := 0)]
    case ClaimShard(s, n, _) =>
      if s < |st.rings| && st.rings[s].head + n <= |st.rings[s].log|
      then st.dat[w := d.(pend := st.rings[s].log[st.rings[s].head..st.rings[s].head + n])]
      else st.dat
    case FromVictim(v, _) =>
      if v < |st.dat| && v != w && st.dat[v].deque != [] then
        var (rest, t) := DequeSpec.StealFront(st.dat[v].deque);
        st.dat[v := st.dat[v].(deque := rest)][w := d.(hand := Some(t), streak := 0)]
      else st.dat
    case Begin(_) =>
      if d.hand.None? then st.dat else st.dat[w := d.(hand := None, stack := d.stack + [d.hand.value])]
    case Create(_) => st.dat[w := d.(hand := Some(|st.place|))]
    case ToLifo(_) => st.dat[w := d.(lifo := d.hand, hand := None)]
    case SwapLifo(_) => st.dat[w := d.(lifo := d.hand, hand := d.lifo)]
    case ToDeque(_) =>
      if d.hand.None? then st.dat else st.dat[w := d.(deque := DequeSpec.PushBack(d.deque, d.hand.value), hand := None)]
    case Finish(_) =>
      if d.stack == [] then st.dat else st.dat[w := d.(stack := d.stack[..|d.stack| - 1])]
    case _ => st.dat
  }

  /** Where every task is after the act. */
  function PlaceAfter(st: State, w: nat, a: Act): seq<Place>
    requires |st.dat| == |st.ctl| && w < |st.dat|
  {
    var d := st.dat[w];
    match a
    case FromLifo(_, _) => if d.lifo.Some? then Moved(st.place, d.lifo.value, InHand(w)) else st.place
    case FromDeque(_) => if d.deque != [] then Moved(st.place, d.deque[|d.deque| - 1], InHand(w)) else st.place
    case FromBuffer(_) => if d.pend != [] then Moved(st.place, d.pend[0], InHand(w)) else st.place
    case ClaimShard(s, n, _) =>
      if s < |st.rings| && st.rings[s].head + n <= |st.rings[s].log|
      then MovedAll(st.place, st.rings[s].log[st.rings[s].head..st.rings[s].head + n], InBuffer(w))
      else st.place
    case FromVictim(v, _) =>
      if v < |st.dat| && v != w && st.dat[v].deque != [] then Moved(st.place, st.dat[v].deque[0], InHand(w)) else st.place
    case Begin(_) => if d.hand.Some? then Moved(st.place, d.hand.value, Running(w)) else st.place
    case Create(_) => st.place + [InHand(w)]
    case ToLifo(_) => if d.hand.Some? then Moved(st.place, d.hand.value, InLifo(w)) else st.place
    case SwapLifo(_) =>
      if d.hand.Some? && d.lifo.Some?
      then Moved(Moved(st.place, d.hand.value, InLifo(w)), d.lifo.value, InHand(w)) else st.place
    case ToDeque(_) => if d.hand.Some? then Moved(st.place, d.hand.value, InDeque(w)) else st.place
    case Finish(_) => if d.stack != [] then Moved(st.place, d.stack[|d.stack| - 1], Done) else st.place
    case _ => st.place
  }

  function Moved(place: seq<Place>, t: Task, p: Place): (r: seq<Place>)
    ensures |r| == |place|
  {
    if t < |place| then place[t := p] else place
  }

  function MovedAll(place: seq<Place>, ts: seq<Task>, p: Place): (r: seq<Place>)
    ensures |r| == |place|
    ensures forall t {:trigger r[t]} :: 0 <= t < |place| ==> r[t] == if t in ts then p else place[t]
  {
    seq(|place|, t requires 0 <= t < |place| => if t in ts then p else place[t])
  }

  function LedgerAfter(g: Config, st: State, w: nat, a: Act): Accounting.Ledger
    requires Shape(g, st) && w < g.nTotal
  {
    var d := st.dat[w];
    match a
    case CountOwn(_) => if d.hand.Some? then Accounting.Inc(st.ledger, g.nShards + w, d.hand.value) else st.ledger
    case Finish(_) =>
      if d.stack != [] && st.ctl[w].pc.Dec2?
      then Accounting.Ledger(st.ledger.ctrs[g.nShards + w := st.ctl[w].pc.v - 1],
                             st.ledger.open - {d.stack[|d.stack| - 1]})
      else st.ledger
    case _ => st.ledger
  }

  function RingsAfter(st: State, a: Act): (r: seq<Shard<Task>>)
    ensures |r| == |st.rings|
  {
    match a
    case ClaimShard(s, n, _) =>
      if s < |st.rings| && st.rings[s].head + n <= |st.rings[s].log|
      then st.rings[s := Claim(st.rings[s], n)] else st.rings
    case _ => st.rings
  }

  /** The state after worker `w` performs an act. */
  function Perform(g: Config, st: State, w: nat, a: Act): State
    requires Shape(g, st) && w < g.nTotal
  {
    var ctl := CtlAfter(st.ctl, w, a);
    var d := st.dat[w];
    State(
      RingsAfter(st, a),
      ctl[w := ctl[w].(pc := a.next)],
      DatAfter(st, w, a),
      st.ext, st.extHand,
      if a.AddParked? then st.nParked + a.delta else st.nParked,
      if a.AddSpinning? then st.nSpinning + a.delta else st.nSpinning,
      LedgerAfter(g, st, w, a),
      PlaceAfter(st, w, a),
      if a.Begin? && d.hand.Some? then st.started + multiset{d.hand.value} else st.started,
      if a.Finish? && d.stack != [] then st.done + multiset{d.stack[|d.stack| - 1]} else st.done)
  }

  /** One step of worker `w`. */
  function WorkerNext(g: Config, st: State, w: nat, pick: Pick): State
    requires Shape(g, st) && w < g.nTotal
  {
    Perform(g, st, w, ActOf(g, st, w, pick))
  }

  // ---------------------------------------------------------------- threads outside the pool

  /** One step of outside thread `x`. An idle one may submit a task to shard pick.n, or (monitor
      and configuration calls) clear the parked flag of worker pick.n and wake it. */
  function ExtNext(g: Config, st: State, x: nat, pick: Pick): State
    requires Shape(g, st) && x < |st.ext|
  {
    var s0 := if pick.n < g.nShards then pick.n else 0;
    match st.ext[x]
    case Away =>
      if pick.yes then
        st.(ext := st.ext[x := Counting(s0)], extHand := st.extHand[x := Some(|st.place|)],
            place := st.place + [AtSubmitter(x)])
      else if pick.n < g.nTotal && st.ctl[pick.n].parked then
        SetCtl(st, pick.n, st.ctl[pick.n].(parked := false)).(ext := st.ext[x := Alerting(0, Signal(pick.n))])
      else st
    case Counting(s) =>
      if s < g.nShards && st.extHand[x].Some? then
        st.(ext := st.ext[x := Reserving(s)], ledger := Accounting.Inc(st.ledger, s, st.extHand[x].value))
      else st
    case Reserving(s) =>
      if s < g.nShards && st.extHand[x].Some? then
        if pick.yes then
          st.(rings := st.rings[s := Reserve(st.rings[s], st.extHand[x].value)],
              ext := st.ext[x := Publishing(s, |st.rings[s].log|)],
              extHand := st.extHand[x := None],
              place := Moved(st.place, st.extHand[x].value, InShard(s)))
        else st.(ext := st.ext[x := Undoing(s)])
      else st
    case Undoing(s) =>
      if s < g.nShards && st.extHand[x].Some? then
        st.(ext := st.ext[x := Counting(s0)], ledger := Accounting.Dec(st.ledger, s, st.extHand[x].value))
      else st
    case Publishing(s, p) =>
      if s < g.nShards then
        st.(rings := st.rings[s := Publish(st.rings[s], p)], ext := st.ext[x := Alerting(s, AskParked)])
      else st
    case Alerting(s, wk) =>
      if s >= g.nShards then st else
      var wn := WakeNext(g, st, wk, ShardQueue(s), pick);
      var st' := st.(ext := st.ext[x := if wn.Some? then Alerting(s, wn.value) else Away]);
      var u := Unflags(g, st, wk);
      if u.Some? && u.value < g.nTotal then SetCtl(st', u.value, st.ctl[u.value].(parked := false))
      else if wk.Signal? && wk.k < g.nTotal then SetCtl(st', wk.k, st.ctl[wk.k].(signal := true))
      else st'
  }

  /** Fresh from pool_create: workers at their first statement, nothing queued. */
  predicate Init(g: Config, st: State) {
    && Shape(g, st)
    && (forall s {:trigger st.rings[s]} :: 0 <= s < g.nShards ==> st.rings[s] == Shard(0, [], {}))
    && (forall w {:trigger st.ctl[w]} :: 0 <= w < g.nTotal ==>
          && st.ctl[w].pc == (if w < g.nWorkers then Try(Top, Lifo) else Elastic0)
          && !st.ctl[w].signal
          && st.ctl[w].cursor < g.nShards && st.ctl[w].victim == w
          && st.ctl[w].parked == (w >= g.nWorkers))
    && (forall w {:trigger st.dat[w]} :: 0 <= w < g.nTotal ==> st.dat[w] == Dat(None, 0, [], [], None, []))
    && (forall x {:trigger st.ext[x]} :: 0 <= x < |st.ext| ==> st.ext[x] == Away)
    && (forall x {:trigger st.extHand[x]} :: 0 <= x < |st.extHand| ==> st.extHand[x] == None)
    && st.nParked == 0 && st.nSpinning == 0
    && (forall i {:trigger st.ledger.ctrs[i]} :: 0 <= i < |st.ledger.ctrs| ==> st.ledger.ctrs[i] == 0)
    && st.ledger.open == {}
    && st.place == [] && st.started == multiset{} && st.done == multiset{}
  }
}
