/** One 64 KB span and its blocks: the owner allocates, frees and drains without atomics while any
    number of other threads push frees on the span's Treiber stack. One shared access per step. */
module SpanBlocks {

  datatype Ptr = Null | At(block: nat)

  /** Where a block is; Transit is a remote free that has not linked its block yet. */
  datatype Place = Uncarved | Live | Transit(t: nat) | InLocal | InRemote | InDrain

  /** The owner, outside or inside span_drain_remote. */
  datatype Owner =
    | Idle
    | DrainCas(head: Ptr)            // about to CAS the remote head to NULL
    | DrainWalk(at: Ptr, n: nat)     // walking the detached list, n blocks moved so far

  /** A thread inside the remote branch of memop_free_raw. */
  datatype Remote =
    | Out
    | Load(block: nat)               // about to load the remote head
    | Link(block: nat, head: Ptr)    // about to write block->next
    | Cas(block: nat, head: Ptr)     // about to CAS the remote head

  /** `place`, `local`, `remote` and `drain` are history: the lists that the pointers should spell. */
  datatype Span = Span(
    count: nat, bump: nat, used: int, localFree: Ptr, remoteFree: Ptr, next: seq<Ptr>,
    owner: Owner, threads: seq<Remote>,
    place: seq<Place>, local: seq<nat>, remote: seq<nat>, drain: seq<nat>)

  datatype Step =
    | Alloc                          // the two fast paths of memop_alloc_raw
    | FreeLocal(b: nat)
    | StartDrain
    | OwnerStep                      // one more access of span_drain_remote
    | StartRemote(t: nat, b: nat)
    | RemoteStep(t: nat)

  // ---------------------------------------------------------------- the steps

  function PopLocal(s: Span): Span
    requires s.localFree.At? && s.localFree.block < |s.next| == |s.place| && s.local != []
  {
    var b := s.localFree.block;
    s.(localFree := s.next[b], used := s.used + 1, place := s.place[b := Live], local := s.local[1..])
  }

  function Carve(s: Span): Span
    requires s.bump < |s.place|
  {
    s.(bump := s.bump + 1, used := s.used + 1, place := s.place[s.bump := Live])
  }

  function PushLocal(s: Span, b: nat): Span
    requires b < |s.next| == |s.place|
  {
    s.(next := s.next[b := s.localFree], localFree := At(b), used := s.used - 1,
       place := s.place[b := InLocal], local := [b] + s.local)
  }

  /** The detached list becomes the owner's. */
  function Detach(s: Span): Span
    requires |s.place| == s.count
  {
    s.(remoteFree := Null, owner := DrainWalk(s.remoteFree, 0), remote := [], drain := s.remote,
       place := seq(s.count, b requires 0 <= b < s.count => if s.place[b] == InRemote then InDrain else s.place[b]))
  }

  /** One turn of the loop that moves the detached blocks to the local list. */
  function MoveOne(s: Span): Span
    requires s.owner.DrainWalk? && s.owner.at.At? && s.owner.at.block < |s.next| == |s.place| && s.drain != []
  {
    var b := s.owner.at.block;
    s.(owner := DrainWalk(s.next[b], s.owner.n + 1), next := s.next[b := s.localFree], localFree := At(b),
       place := s.place[b := InLocal], local := [b] + s.local, drain := s.drain[1..])
  }

  function FinishDrain(s: Span): Span
    requires s.owner.DrainWalk?
  {
    s.(owner := Idle, used := s.used - s.owner.n)
  }

  function OwnerNext(s: Span): Span
    requires Shape(s)
  {
    match s.owner
    case Idle => s
    case DrainCas(head) => if s.remoteFree == head then Detach(s) else s.(owner := DrainCas(s.remoteFree))
    case DrainWalk(at, n) =>
      if at == Null then FinishDrain(s)
      else if at.block < s.count && s.drain != [] then MoveOne(s) else s
  }

  function EnterRemote(s: Span, t: nat, b: nat): Span
    requires t < |s.threads| && b < |s.place|
  {
    s.(threads := s.threads[t := Load(b)], place := s.place[b := Transit(t)])
  }

  function PushRemote(s: Span, t: nat, b: nat): Span
    requires t < |s.threads| && b < |s.place|
  {
    s.(remoteFree := At(b), threads := s.threads[t := Out], place := s.place[b := InRemote], remote := [b] + s.remote)
  }

  function RemoteNext(s: Span, t: nat): Span
    requires Shape(s) && t < |s.threads|
  {
    match s.threads[t]
    case Out => s
    case Load(b) => s.(threads := s.threads[t := Link(b, s.remoteFree)])
    case Link(b, head) =>
      if b < s.count then s.(next := s.next[b := head], threads := s.threads[t := Cas(b, head)]) else s
    case Cas(b, head) =>
      if s.remoteFree == head && b < s.count then PushRemote(s, t, b)
      else s.(threads := s.threads[t := Link(b, s.remoteFree)])
  }

  /** One step; a step that is not possible changes nothing. */
  function Next(s: Span, step: Step): Span
    requires Shape(s)
  {
    match step
    case Alloc =>
      if s.owner != Idle then s
      else if s.localFree.At? && s.localFree.block < s.count && s.local != [] then PopLocal(s)
      else if s.localFree.Null? && s.bump < s.count then Carve(s)
      else s
    case FreeLocal(b) => if s.owner == Idle && b < s.count && s.place[b] == Live then PushLocal(s, b) else s
    case StartDrain =>
      if s.owner == Idle && s.remoteFree.At? then s.(owner := DrainCas(s.remoteFree)) else s
    case OwnerStep => OwnerNext(s)
    case StartRemote(t, b) =>
      if t < |s.threads| && s.threads[t] == Out && b < s.count && s.place[b] == Live then EnterRemote(s, t, b) else s
    case RemoteStep(t) => if t < |s.threads| then RemoteNext(s, t) else s
  }

  // ---------------------------------------------------------------- invariant

  predicate Shape(s: Span) {
    |s.next| == |s.place| == s.count && s.bump <= s.count
  }

  ghost predicate Distinct(xs: seq<nat>) {
    forall i, j :: 0 <= i < j < |xs| ==> xs[i] != xs[j]
  }

  /** The pointers from `head` spell the list `xs`, which ends in NULL. */
  ghost predicate Chain(next: seq<Ptr>, head: Ptr, xs: seq<nat>)
    decreases |xs|
  {
    if xs == [] then head == Null else head == At(xs[0]) && xs[0] < |next| && Chain(next, next[xs[0]], xs[1..])
  }

  /** The list holds each block whose place is `p`, once. */
  ghost predicate Lists(place: seq<Place>, xs: seq<nat>, p: Place) {
    Distinct(xs) && forall b: nat {:trigger b in xs} {:trigger place[b]} :: b in xs <==> b < |place| && place[b] == p
  }

  ghost predicate ListsOk(s: Span) {
    && Lists(s.place, s.local, InLocal) && Chain(s.next, s.localFree, s.local)
    && Lists(s.place, s.remote, InRemote) && Chain(s.next, s.remoteFree, s.remote)
    && Lists(s.place, s.drain, InDrain)
    && (if s.owner.DrainWalk? then Chain(s.next, s.owner.at, s.drain) else s.drain == [])
  }

  /** A thread inside a remote free has its block in transit. */
  predicate RemoteOk(r: Remote, t: nat, place: seq<Place>, next: seq<Ptr>) {
    r != Out ==>
      r.block < |place| == |next| && place[r.block] == Transit(t) && (r.Cas? ==> next[r.block] == r.head)
  }

  predicate Frees(r: Remote, b: nat) {
    r != Out && r.block == b
  }

  /** A block is in transit in one thread, which knows about it. */
  ghost predicate TransitOk(threads: seq<Remote>, place: seq<Place>, next: seq<Ptr>) {
    && (forall t: nat {:trigger threads[t]} :: t < |threads| ==> RemoteOk(threads[t], t, place, next))
    && (forall b: nat {:trigger place[b]} :: b < |place| && place[b].Transit? ==>
          place[b].t < |threads| && Frees(threads[place[b].t], b))
  }

  /** Carved exactly below the bump index. */
  ghost predicate CarvedOk(s: Span)
    requires Shape(s)
  {
    forall b: nat {:trigger s.place[b]} :: b < s.count ==> (s.place[b] == Uncarved <==> s.bump <= b)
  }

  /** What `used` counts: blocks out of the owner's reach. */
  predicate Outside(p: Place) {
    p == Live || p.Transit? || p == InRemote || p == InDrain
  }

  function CountOutside(place: seq<Place>, n: nat): nat
    requires n <= |place|
  {
    if n == 0 then 0 else CountOutside(place, n - 1) + if Outside(place[n - 1]) then 1 else 0
  }

  ghost predicate UsedOk(s: Span)
    requires Shape(s)
  {
    s.used == CountOutside(s.place, s.count) + if s.owner.DrainWalk? then s.owner.n else 0
  }

  ghost predicate Inv(s: Span) {
    Shape(s) && ListsOk(s) && TransitOk(s.threads, s.place, s.next) && CarvedOk(s) && UsedOk(s)
  }

  /** A span as span_create leaves it, with any number of other threads about. */
  ghost predicate Init(s: Span) {
    && Shape(s) && s.bump == 0 && s.used == 0 && s.localFree == Null && s.remoteFree == Null && s.owner == Idle
    && s.local == [] && s.remote == [] && s.drain == []
    && (forall b: nat {:trigger s.place[b]} :: b < s.count ==> s.place[b] == Uncarved)
    && (forall t: nat {:trigger s.threads[t]} :: t < |s.threads| ==> s.threads[t] == Out)
  }

  // ---------------------------------------------------------------- lists and counts

  lemma {:induction false} ChainFrame(next: seq<Ptr>, head: Ptr, xs: seq<nat>, b: nat, p: Ptr)
    requires Chain(next, head, xs) && b < |next| && b !in xs
    ensures Chain(next[b := p], head, xs)
    decreases |xs|
  {
    if xs != [] {
      assert xs[0] in xs;
      assert forall x {:trigger x in xs[1..]} :: x in xs[1..] ==> x in xs;
      ChainFrame(next, next[xs[0]], xs[1..], b, p);
    }
  }

  lemma ChainPush(next: seq<Ptr>, head: Ptr, xs: seq<nat>, b: nat)
    requires Chain(next, head, xs) && b < |next| && b !in xs
    ensures Chain(next[b := head], At(b), [b] + xs)
  {
    ChainFrame(next, head, xs, b, head);
    assert ([b] + xs)[1..] == xs;
  }

  lemma ListsPush(place: seq<Place>, xs: seq<nat>, b: nat, p: Place)
    requires Lists(place, xs, p) && b < |place| && place[b] != p
    ensures Lists(place[b := p], [b] + xs, p)
  {
    var ys := [b] + xs;
    assert b !in xs;
    forall x: nat ensures x in ys <==> x == b || x in xs {
      assert ys[0] == b && ys[1..] == xs;
    }
  }

  lemma ListsPop(place: seq<Place>, xs: seq<nat>, p: Place, q: Place)
    requires Lists(place, xs, p) && xs != [] && p != q
    ensures xs[0] < |place| && place[xs[0]] == p
    ensures Lists(place[xs[0] := q], xs[1..], p)
  {
    var c, ys := xs[0], xs[1..];
    assert c in xs;
    forall x: nat ensures x in ys <==> x in xs && x != c {
      assert xs == [c] + ys;
    }
  }

  lemma ListsElsewhere(place: seq<Place>, xs: seq<nat>, p: Place, b: nat, q: Place)
    requires Lists(place, xs, p) && b < |place| && place[b] != p && q != p
    ensures Lists(place[b := q], xs, p)
  {
  }

  lemma {:induction false} CountMove(place: seq<Place>, b: nat, q: Place, n: nat)
    requires n <= |place| && b < |place|
    ensures CountOutside(place[b := q], n) - CountOutside(place, n) ==
            if b < n then (if Outside(q) then 1 else 0) - (if Outside(place[b]) then 1 else 0) else 0
  {
    if n > 0 { CountMove(place, b, q, n - 1); }
  }

  lemma {:induction false} CountSame(a: seq<Place>, b: seq<Place>, n: nat)
    requires n <= |a| == |b| && forall i :: 0 <= i < n ==> Outside(a[i]) == Outside(b[i])
    ensures CountOutside(a, n) == CountOutside(b, n)
  {
    if n > 0 { CountSame(a, b, n - 1); }
  }

  lemma {:induction false} NoneOutside(place: seq<Place>, n: nat, b: nat)
    requires b < n <= |place| && CountOutside(place, n) == 0
    ensures !Outside(place[b])
  {
    if b < n - 1 { NoneOutside(place, n - 1, b); }
  }

  // ---------------------------------------------------------------- every step keeps the invariant

  lemma OthersTransit(threads: seq<Remote>, place: seq<Place>, next: seq<Ptr>, next': seq<Ptr>, b: nat, q: Place)
    requires TransitOk(threads, place, next) && b < |place| == |next| && !place[b].Transit? && !q.Transit?
    requires |next'| == |next| && forall x: nat {:trigger next'[x]} :: x < |next| && x != b ==> next'[x] == next[x]
    ensures TransitOk(threads, place[b := q], next')
  {
  }

  lemma PopLocalKeeps(s: Span)
    requires Inv(s) && s.owner == Idle && s.localFree.At? && s.localFree.block < s.count && s.local != []
    ensures Inv(PopLocal(s)) && s.place[s.localFree.block] == InLocal
  {
    var b := s.localFree.block;
    ListsPop(s.place, s.local, InLocal, Live);
    ListsElsewhere(s.place, s.remote, InRemote, b, Live);
    ListsElsewhere(s.place, s.drain, InDrain, b, Live);
    OthersTransit(s.threads, s.place, s.next, s.next, b, Live);
    CountMove(s.place, b, Live, s.count);
  }

  lemma CarveKeeps(s: Span)
    requires Inv(s) && s.owner == Idle && s.bump < s.count
    ensures Inv(Carve(s)) && s.place[s.bump] == Uncarved
  {
    assert s.place[s.bump] == Uncarved;
    ListsElsewhere(s.place, s.local, InLocal, s.bump, Live);
    ListsElsewhere(s.place, s.remote, InRemote, s.bump, Live);
    ListsElsewhere(s.place, s.drain, InDrain, s.bump, Live);
    OthersTransit(s.threads, s.place, s.next, s.next, s.bump, Live);
    CountMove(s.place, s.bump, Live, s.count);
  }

  lemma PushLocalKeeps(s: Span, b: nat)
    requires Inv(s) && s.owner == Idle && b < s.count && s.place[b] == Live
    ensures Inv(PushLocal(s, b))
  {
    ListsPush(s.place, s.local, b, InLocal);
    ListsElsewhere(s.place, s.remote, InRemote, b, InLocal);
    ListsElsewhere(s.place, s.drain, InDrain, b, InLocal);
    ChainPush(s.next, s.localFree, s.local, b);
    ChainFrame(s.next, s.remoteFree, s.remote, b, s.localFree);
    OthersTransit(s.threads, s.place, s.next, PushLocal(s, b).next, b, InLocal);
    CountMove(s.place, b, InLocal, s.count);
  }

  lemma DetachKeeps(s: Span)
    requires Inv(s) && s.owner.DrainCas?
    ensures Inv(Detach(s))
  {
    var d := Detach(s);
    CountSame(s.place, d.place, s.count);
    forall b: nat ensures b in d.drain <==> b < s.count && d.place[b] == InDrain {
      assert b in s.remote <==> b < s.count && s.place[b] == InRemote;
      assert b in s.drain <==> b < s.count && s.place[b] == InDrain;
    }
    forall b: nat ensures b in d.local <==> b < s.count && d.place[b] == InLocal {
      assert b in s.local <==> b < s.count && s.place[b] == InLocal;
    }
  }

  lemma MoveOneKeeps(s: Span)
    requires Inv(s) && s.owner.DrainWalk? && s.owner.at.At? && s.owner.at.block < s.count && s.drain != []
    ensures Inv(MoveOne(s))
  {
    var b := s.owner.at.block;
    ListsPop(s.place, s.drain, InDrain, InLocal);
    ListsPush(s.place, s.local, b, InLocal);
    ListsElsewhere(s.place, s.remote, InRemote, b, InLocal);
    ChainPush(s.next, s.localFree, s.local, b);
    ChainFrame(s.next, s.remoteFree, s.remote, b, s.localFree);
    ChainFrame(s.next, s.next[b], s.drain[1..], b, s.localFree);
    OthersTransit(s.threads, s.place, s.next, MoveOne(s).next, b, InLocal);
    CountMove(s.place, b, InLocal, s.count);
  }

  lemma OwnerNextKeeps(s: Span)
    requires Inv(s)
    ensures Inv(OwnerNext(s))
  {
    match s.owner {
      case Idle =>
      case DrainCas(head) => if s.remoteFree == head { DetachKeeps(s); }
      case DrainWalk(at, n) => if at.At? && at.block < s.count && s.drain != [] { MoveOneKeeps(s); }
    }
  }

  lemma EnterRemoteKeeps(s: Span, t: nat, b: nat)
    requires Inv(s) && t < |s.threads| && s.threads[t] == Out && b < s.count && s.place[b] == Live
    ensures Inv(EnterRemote(s, t, b))
  {
    ListsElsewhere(s.place, s.local, InLocal, b, Transit(t));
    ListsElsewhere(s.place, s.remote, InRemote, b, Transit(t));
    ListsElsewhere(s.place, s.drain, InDrain, b, Transit(t));
    CountMove(s.place, b, Transit(t), s.count);
  }

  lemma LinkKeeps(s: Span, t: nat)
    requires Inv(s) && t < |s.threads| && s.threads[t].Link?
    ensures Inv(RemoteNext(s, t))
  {
    var b, head := s.threads[t].block, s.threads[t].head;
    assert RemoteOk(s.threads[t], t, s.place, s.next);
    ChainFrame(s.next, s.localFree, s.local, b, head);
    ChainFrame(s.next, s.remoteFree, s.remote, b, head);
    if s.owner.DrainWalk? { ChainFrame(s.next, s.owner.at, s.drain, b, head); }
  }

  lemma PushRemoteKeeps(s: Span, t: nat)
    requires Inv(s) && t < |s.threads| && s.threads[t].Cas? && s.remoteFree == s.threads[t].head
    ensures s.threads[t].block < s.count && Inv(PushRemote(s, t, s.threads[t].block))
  {
    var b := s.threads[t].block;
    assert RemoteOk(s.threads[t], t, s.place, s.next);
    ListsElsewhere(s.place, s.local, InLocal, b, InRemote);
    ListsPush(s.place, s.remote, b, InRemote);
    ListsElsewhere(s.place, s.drain, InDrain, b, InRemote);
    ChainPush(s.next, s.remoteFree, s.remote, b);
    assert s.next[b := s.next[b]] == s.next;
    CountMove(s.place, b, InRemote, s.count);
  }

  lemma RetryKeeps(s: Span, t: nat, r: Remote)
    requires Inv(s) && t < |s.threads| && s.threads[t] != Out
    requires r == Link(s.threads[t].block, s.remoteFree)
    ensures Inv(s.(threads := s.threads[t := r]))
  {
  }

  lemma RemoteNextKeeps(s: Span, t: nat)
    requires Inv(s) && t < |s.threads|
    ensures Inv(RemoteNext(s, t))
  {
    assert RemoteOk(s.threads[t], t, s.place, s.next);
    match s.threads[t] {
      case Out =>
      case Load(b) => RetryKeeps(s, t, Link(b, s.remoteFree));
      case Link(_, _) => LinkKeeps(s, t);
      case Cas(b, head) =>
        if s.remoteFree == head { PushRemoteKeeps(s, t); } else { RetryKeeps(s, t, Link(b, s.remoteFree)); }
    }
  }

  /** The invariant is kept by every step of the owner and of every other thread. */
  lemma NextKeepsInv(s: Span, step: Step)
    requires Inv(s)
    ensures Inv(Next(s, step))
  {
    match step {
      case Alloc =>
        if s.owner == Idle {
          if s.localFree.At? && s.localFree.block < s.count && s.local != [] {
            PopLocalKeeps(s);
          } else if s.localFree.Null? && s.bump < s.count {
            CarveKeeps(s);
          }
        }
      case FreeLocal(b) => if s.owner == Idle && b < s.count && s.place[b] == Live { PushLocalKeeps(s, b); }
      case StartDrain =>
      case OwnerStep => OwnerNextKeeps(s);
      case StartRemote(t, b) =>
        if t < |s.threads| && s.threads[t] == Out && b < s.count && s.place[b] == Live { EnterRemoteKeeps(s, t, b); }
      case RemoteStep(t) => if t < |s.threads| { RemoteNextKeeps(s, t); }
    }
  }

  lemma InitInv(s: Span)
    requires Init(s)
    ensures Inv(s)
  {
    NothingOutside(s.place, s.count);
  }

  lemma {:induction false} NothingOutside(place: seq<Place>, n: nat)
    requires n <= |place| && forall b: nat {:trigger place[b]} :: b < |place| ==> place[b] == Uncarved
    ensures CountOutside(place, n) == 0
  {
    if n > 0 { NothingOutside(place, n - 1); }
  }

  lemma NextKeepsShape(s: Span, step: Step)
    requires Shape(s)
    ensures Shape(Next(s, step)) && Next(s, step).count == s.count
  {
  }

  function Run(s: Span, steps: seq<Step>): (r: Span)
    requires Shape(s)
    ensures Shape(r) && r.count == s.count
    decreases |steps|
  {
    if steps == [] then s else
    NextKeepsShape(s, steps[0]);
    Run(Next(s, steps[0]), steps[1..])
  }

  lemma {:induction false} RunKeepsInv(s: Span, steps: seq<Step>)
    requires Inv(s)
    ensures Inv(Run(s, steps))
    decreases |steps|
  {
    if steps != [] {
      NextKeepsInv(s, steps[0]);
      RunKeepsInv(Next(s, steps[0]), steps[1..]);
    }
  }

  // ---------------------------------------------------------------- what the allocator relies on

  function CountOf(place: seq<Place>, p: Place, n: nat): nat
    requires n <= |place|
  {
    if n == 0 then 0 else CountOf(place, p, n - 1) + if place[n - 1] == p then 1 else 0
  }

  lemma {:induction false} CountOfMove(place: seq<Place>, p: Place, b: nat, q: Place, n: nat)
    requires n <= |place| && b < |place|
    ensures CountOf(place[b := q], p, n) - CountOf(place, p, n) ==
            if b < n then (if q == p then 1 else 0) - (if place[b] == p then 1 else 0) else 0
  {
    if n > 0 { CountOfMove(place, p, b, q, n - 1); }
  }

  lemma {:induction false} CountOfNone(place: seq<Place>, p: Place, n: nat)
    requires n <= |place| && forall b: nat {:trigger place[b]} :: b < |place| ==> place[b] != p
    ensures CountOf(place, p, n) == 0
  {
    if n > 0 { CountOfNone(place, p, n - 1); }
  }

  lemma {:induction false} ListSize(place: seq<Place>, xs: seq<nat>, p: Place)
    requires Lists(place, xs, p) && p != Live
    ensures |xs| == CountOf(place, p, |place|)
    decreases |xs|
  {
    if xs == [] {
      CountOfNone(place, p, |place|);
    } else {
      ListsPop(place, xs, p, Live);
      CountOfMove(place, p, xs[0], Live, |place|);
      ListSize(place[xs[0] := Live], xs[1..], p);
    }
  }

  lemma {:induction false} ThreeKinds(place: seq<Place>, bump: nat, n: nat)
    requires n <= |place| && forall b: nat {:trigger place[b]} :: b < |place| ==> (place[b] == Uncarved <==> bump <= b)
    ensures CountOutside(place, n) + CountOf(place, InLocal, n) == if n <= bump then n else bump
  {
    if n > 0 { ThreeKinds(place, bump, n - 1); }
  }

  /** Block partition: at every moment of every run, each carved block is in exactly one of the
      hands of a caller, a remote free under way, the local list, the remote stack or the list being
      drained; the two pointer lists spell those sets without repetition; and `used` with the local
      list makes up all the carved blocks. */
  lemma BlocksArePartitioned(s: Span, steps: seq<Step>, b: nat)
    requires Init(s) && b < s.count
    ensures var r := Run(s, steps);
      && Inv(r)
      && (b < r.bump <==> r.place[b] != Uncarved)
      && (b in r.local <==> r.place[b] == InLocal)
      && (b in r.remote <==> r.place[b] == InRemote)
      && (b in r.drain <==> r.place[b] == InDrain)
      && ((exists t: nat :: t < |r.threads| && Frees(r.threads[t], b)) <==> r.place[b].Transit?)
      && (r.owner == Idle ==> r.used == CountOutside(r.place, r.count) && r.used + |r.local| == r.bump)
  {
    InitInv(s);
    RunKeepsInv(s, steps);
    var r := Run(s, steps);
    ListSize(r.place, r.local, InLocal);
    ThreeKinds(r.place, r.bump, r.count);
    if t: nat :| t < |r.threads| && Frees(r.threads[t], b) {
      assert RemoteOk(r.threads[t], t, r.place, r.next);
    }
  }

  /** An allocation serves whenever there is a local or an uncarved block, and takes one that is in
      nobody's hands and in no list but the one it leaves. */
  lemma AllocTakesAFreeBlock(s: Span)
    requires Inv(s) && s.owner == Idle && (s.localFree.At? || s.bump < s.count)
    ensures var n := Next(s, Alloc);
      exists b: nat :: b < s.count && n.place == s.place[b := Live]
        && (if s.localFree.At? then s.localFree == At(b) && s.place[b] == InLocal
            else b == s.bump && s.place[b] == Uncarved)
        && n.used == s.used + 1
  {
    if s.localFree.At? {
      assert s.localFree == At(s.local[0]);
      PopLocalKeeps(s);
      assert Next(s, Alloc).place == s.place[s.localFree.block := Live];
    } else {
      CarveKeeps(s);
      assert Next(s, Alloc).place == s.place[s.bump := Live];
    }
  }

  /** A drain that has detached its list ends, one turn per block, with exactly those blocks moved
      to the local list and taken off `used`. */
  lemma {:induction false} DrainEnds(s: Span)
    requires Inv(s) && s.owner.DrainWalk?
    ensures var e := Run(s, seq(|s.drain| + 1, _ => OwnerStep));
      && Inv(e) && e.owner == Idle && e.drain == []
      && e.used == s.used - s.owner.n - |s.drain|
      && |e.local| == |s.local| + |s.drain|
      && (forall b: nat {:trigger e.place[b]} :: b < |e.place| == |s.place| ==> e.place[b] == if s.place[b] == InDrain then InLocal else s.place[b])
    decreases |s.drain|
  {
    var steps := seq(|s.drain| + 1, _ => OwnerStep);
    var n := Next(s, OwnerStep);
    NextKeepsInv(s, OwnerStep);
    assert steps[0] == OwnerStep;
    if s.drain == [] {
      assert steps[1..] == [];
      assert forall b: nat {:trigger s.place[b]} :: b < |s.place| ==> s.place[b] != InDrain;
    } else {
      assert n == MoveOne(s);
      assert steps[1..] == seq(|n.drain| + 1, _ => OwnerStep);
      ListsPop(s.place, s.drain, InDrain, InLocal);
      DrainEnds(n);
    }
  }

  /** Recycle safety: outside a drain, `used` is 0 exactly when no block is in a caller's hands, in
      a remote free or on the remote stack. Then no thread is inside a remote free of this span, so
      the chunk can be given back without any later push into it. */
  lemma RecycleIsSafe(s: Span, steps: seq<Step>)
    requires Init(s)
    ensures var r := Run(s, steps);
      r.owner == Idle ==>
        && (r.used == 0 <==> forall b: nat {:trigger r.place[b]} :: b < |r.place| ==> !Outside(r.place[b]))
        && (r.used == 0 ==> r.remoteFree == Null && forall t: nat {:trigger r.threads[t]} :: t < |r.threads| ==> r.threads[t] == Out)
  {
    InitInv(s);
    RunKeepsInv(s, steps);
    var r := Run(s, steps);
    if r.owner == Idle && r.used == 0 {
      forall b: nat | b < |r.place| ensures !Outside(r.place[b]) {
        NoneOutside(r.place, r.count, b);
      }
      ListSize(r.place, r.remote, InRemote);
      CountOfNone(r.place, InRemote, r.count);
      forall t: nat | t < |r.threads| ensures r.threads[t] == Out {
        assert RemoteOk(r.threads[t], t, r.place, r.next);
      }
    } else if forall b: nat {:trigger r.place[b]} :: b < |r.place| ==> !Outside(r.place[b]) {
      NobodyOutside(r.place, r.count);
    }
  }

  lemma {:induction false} NobodyOutside(place: seq<Place>, n: nat)
    requires n <= |place| && forall b: nat {:trigger place[b]} :: b < |place| ==> !Outside(place[b])
    ensures CountOutside(place, n) == 0
  {
    if n > 0 { NobodyOutside(place, n - 1); }
  }

  // ---------------------------------------------------------------- what a call does alone

  /** A free by the owner puts its block at the front of the local list. */
  lemma FreeLocalTakesBack(s: Span, b: nat)
    requires Inv(s) && s.owner == Idle && b < s.count && s.place[b] == Live
    ensures var n := Next(s, FreeLocal(b));
      && Inv(n) && n.place == s.place[b := InLocal] && n.local == [b] + s.local && n.localFree == At(b) && n.used == s.used - 1
      && n.remote == s.remote && n.drain == s.drain && n.bump == s.bump
  {
    PushLocalKeeps(s, b);
  }

  /** A remote free ends only with its block at the front of the remote stack. */
  lemma RemoteEndsByPushing(s: Span, t: nat)
    requires Inv(s) && t < |s.threads| && s.threads[t] != Out
    ensures var r, n := s.threads[t], Next(s, RemoteStep(t));
      && Inv(n) && t < |n.threads| && r.block < |n.place|
      && (if n.threads[t] == Out then
            n.place[r.block] == InRemote && n.remote == [r.block] + s.remote && n.remoteFree == At(r.block)
          else n.threads[t].block == r.block && n.place == s.place && n.remote == s.remote)
  {
    hide ListsOk, CarvedOk, UsedOk;
    NextKeepsInv(s, RemoteStep(t));
    assert RemoteOk(s.threads[t], t, s.place, s.next);
  }

  /** A remote free alone takes four accesses. */
  lemma RemoteFreeAlone(s: Span, t: nat, b: nat)
    requires Inv(s) && t < |s.threads| && s.threads[t] == Out && b < s.count && s.place[b] == Live
    ensures var n := Run(s, [StartRemote(t, b), RemoteStep(t), RemoteStep(t), RemoteStep(t)]);
      && Inv(n) && n.threads == s.threads && n.place == s.place[b := InRemote] && n.remote == [b] + s.remote
      && n.used == s.used && n.local == s.local && n.drain == s.drain && n.bump == s.bump
  {
    hide Inv, ListsOk, CarvedOk, UsedOk, TransitOk;
    InvShape(s);
    var s1 := Next(s, StartRemote(t, b));
    NextKeepsInv(s, StartRemote(t, b));
    InvShape(s1);
    assert s1.threads[t] == Load(b);
    var s2 := Next(s1, RemoteStep(t));
    NextKeepsInv(s1, RemoteStep(t));
    InvShape(s2);
    var s3 := Next(s2, RemoteStep(t));
    NextKeepsInv(s2, RemoteStep(t));
    InvShape(s3);
    var s4 := Next(s3, RemoteStep(t));
    NextKeepsInv(s3, RemoteStep(t));
    assert s4.threads == s.threads && s4.place == s.place[b := InRemote];
    RunOfFour(s, StartRemote(t, b), RemoteStep(t), RemoteStep(t), RemoteStep(t));
  }

  lemma InvShape(s: Span)
    requires Inv(s)
    ensures Shape(s)
  {
  }

  lemma RunOfFour(s: Span, a: Step, b: Step, c: Step, d: Step)
    requires Inv(s)
    ensures Shape(s) && Shape(Next(s, a)) && Shape(Next(Next(s, a), b)) && Shape(Next(Next(Next(s, a), b), c))
    ensures Run(s, [a, b, c, d]) == Next(Next(Next(Next(s, a), b), c), d)
  {
    hide Next, Inv;
    InvShape(s);
    NextKeepsInv(s, a);
    var s1 := Next(s, a);
    InvShape(s1);
    NextKeepsInv(s1, b);
    var s2 := Next(s1, b);
    InvShape(s2);
    NextKeepsInv(s2, c);
    var s3 := Next(s2, c);
    InvShape(s3);
    NextKeepsInv(s3, d);
    InvShape(Next(s3, d));
    assert [a, b, c, d][1..] == [b, c, d] && [b, c, d][1..] == [c, d] && [c, d][1..] == [d] && [d][1..] == [];
    assert Run(s3, [d]) == Next(s3, d);
    assert Run(s2, [c, d]) == Next(s3, d);
    assert Run(s1, [b, c, d]) == Next(s3, d);
  }

  /** A drain alone: everything on the remote stack is on the local list, and off `used`. */
  lemma DrainAlone(s: Span)
    requires Inv(s) && s.owner == Idle && s.remote != []
    ensures var n := Run(s, [StartDrain, OwnerStep] + seq(|s.remote| + 1, _ => OwnerStep));
      && Inv(n) && n.owner == Idle && n.remote == [] && n.drain == []
      && n.used == s.used - |s.remote| && |n.local| == |s.local| + |s.remote|
      && (forall b: nat {:trigger n.place[b]} :: b < |n.place| == |s.place| ==> n.place[b] == if s.place[b] == InRemote then InLocal else s.place[b])
  {
    hide Inv, ListsOk, CarvedOk, UsedOk, TransitOk;
    var rest := seq(|s.remote| + 1, _ => OwnerStep);
    InvShape(s);
    RemoteIsNotEmpty(s);
    var s1 := Next(s, StartDrain);
    NextKeepsInv(s, StartDrain);
    InvShape(s1);
    var s2 := Next(s1, OwnerStep);
    NextKeepsInv(s1, OwnerStep);
    InvShape(s2);
    assert s2 == Detach(s1) && s2.drain == s.remote;
    NothingDraining(s);
    DrainEnds(s2);
    DrainLeavesTheStack(s2);
    var steps := [StartDrain, OwnerStep] + rest;
    assert steps[0] == StartDrain && steps[1..][0] == OwnerStep && steps[1..][1..] == rest;
  }

  lemma RemoteIsNotEmpty(s: Span)
    requires Inv(s) && s.remote != []
    ensures s.remoteFree.At?
  {
  }

  lemma NothingDraining(s: Span)
    requires Inv(s) && s.owner == Idle
    ensures s.drain == [] && forall b: nat {:trigger s.place[b]} :: b < |s.place| ==> s.place[b] != InDrain
  {
    assert forall b: nat {:trigger s.place[b]} :: b < |s.place| ==> (b in s.drain <==> s.place[b] == InDrain);
  }

  lemma {:induction false} DrainLeavesTheStack(s: Span)
    requires Inv(s) && s.owner.DrainWalk?
    ensures Run(s, seq(|s.drain| + 1, _ => OwnerStep)).remote == s.remote
    decreases |s.drain|
  {
    hide ListsOk, CarvedOk, UsedOk, TransitOk;
    var steps := seq(|s.drain| + 1, _ => OwnerStep);
    var n := Next(s, OwnerStep);
    NextKeepsInv(s, OwnerStep);
    assert steps[0] == OwnerStep;
    WalkSpellsDrain(s);
    if s.drain == [] {
      assert steps[1..] == [];
    } else {
      assert n == MoveOne(s);
      assert steps[1..] == seq(|n.drain| + 1, _ => OwnerStep);
      DrainLeavesTheStack(n);
    }
  }

  lemma WalkSpellsDrain(s: Span)
    requires Inv(s) && s.owner.DrainWalk?
    ensures s.drain == [] <==> s.owner.at == Null
    ensures s.drain != [] ==> s.owner.at.block < s.count
  {
  }
}
