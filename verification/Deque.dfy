/** The Chase-Lev deque of one worker, one atomic access per step, for its owner and any number
    of thieves. A slot is two words, so a thief may read a slot that the owner is rewriting; the
    CAS on `top` then has to fail. Memory is sequentially consistent. */
module Deque {
  import opened Slots
  import DequeSpec

  datatype Task = Task(fn: int, arg: int)

  datatype Mem = Mem(cap: nat, top: nat, bottom: nat, slots: seq<Task>)

  /** Where the owner is. `b` is the position it works on; `t` the value of top it loaded. */
  datatype Owner =
    | Rest
    | PushTop(x: Task, b: nat)                 // loaded bottom, about to load top
    | PushFn(x: Task, b: nat)                  // about to write the slot's fn
    | PushArg(x: Task, b: nat)                 // about to write the slot's arg
    | PushPublish(x: Task, b: nat)             // about to store bottom = b + 1
    | TakeTop(b: nat)                          // loaded bottom = b, about to load top
    | TakeDown(b: nat)                         // about to store bottom = b - 1
    | TakeTop2(b: nat)                         // stored bottom = b, about to load top again
    | ReadFn(b: nat, t: nat)                   // t <= b: about to read the slot's fn
    | ReadArg(b: nat, t: nat, fn: int)         // about to read the slot's arg
    | TakeCas(b: nat, x: Task)                 // last element: about to CAS top from b to b + 1
    | TakeFix(b: nat, got: bool, x: Task)      // about to store bottom = b + 1

  datatype Thief =
    | Away
    | StealBottom(t: nat)                      // loaded top = t, about to load bottom
    | StealFn(t: nat)                          // t < bottom: about to read the slot's fn
    | StealArg(t: nat, fn: int)
    | StealCas(t: nat, x: Task)                // about to CAS top from t to t + 1

  /** `pushed` and `out` are history: every task pushed, every task handed to a caller. */
  datatype State = State(m: Mem, o: Owner, thieves: seq<Thief>, pushed: multiset<Task>, out: multiset<Task>)

  datatype Call = Push(x: Task) | Take

  predicate Shape(m: Mem) {
    m.cap > 0 && |m.slots| == m.cap
  }

  function At(m: Mem, p: nat): Task
    requires Shape(m)
  {
    m.slots[Slot(m.cap, p)]
  }

  function Put(m: Mem, p: nat, x: Task): Mem
    requires Shape(m)
  {
    m.(slots := m.slots[Slot(m.cap, p) := x])
  }

  function OwnerMem(m: Mem, o: Owner): Mem
    requires Shape(m)
  {
    match o
    case PushFn(x, b) => Put(m, b, At(m, b).(fn := x.fn))
    case PushArg(x, b) => Put(m, b, At(m, b).(arg := x.arg))
    case PushPublish(_, b) => m.(bottom := b + 1)
    case TakeDown(b) => if b == 0 then m else m.(bottom := b - 1)
    case TakeCas(b, _) => if m.top == b then m.(top := b + 1) else m
    case TakeFix(b, _, _) => m.(bottom := b + 1)
    case _ => m
  }

  function OwnerGoto(m: Mem, o: Owner, call: Call): Owner
    requires Shape(m)
  {
    match o
    case Rest => (match call case Push(x) => PushTop(x, m.bottom) case Take => TakeTop(m.bottom))
    case PushTop(x, b) => if b - m.top >= m.cap then Rest else PushFn(x, b)
    case PushFn(x, b) => PushArg(x, b)
    case PushArg(x, b) => PushPublish(x, b)
    case PushPublish(_, _) => Rest
    case TakeTop(b) => if b - m.top <= 0 then Rest else TakeDown(b)
    case TakeDown(b) => if b == 0 then Rest else TakeTop2(b - 1)
    case TakeTop2(b) => if m.top <= b then ReadFn(b, m.top) else TakeFix(b, false, Task(0, 0))
    case ReadFn(b, t) => ReadArg(b, t, At(m, b).fn)
    case ReadArg(b, t, fn) => if t == b then TakeCas(b, Task(fn, At(m, b).arg)) else Rest
    case TakeCas(b, x) => TakeFix(b, m.top == b, x)
    case TakeFix(_, _, _) => Rest
  }

  /** What one step of the owner hands out. */
  function HandedOut(m: Mem, o: Owner): multiset<Task>
    requires Shape(m)
  {
    match o
    case ReadArg(b, t, fn) => if t != b then multiset{Task(fn, At(m, b).arg)} else multiset{}
    case TakeCas(b, x) => if m.top == b then multiset{x} else multiset{}
    case _ => multiset{}
  }

  /** What one step of the owner puts in. */
  function PutIn(o: Owner): multiset<Task> {
    if o.PushPublish? then multiset{o.x} else multiset{}
  }

  function OwnerNext(c: State, call: Call): State
    requires Shape(c.m)
  {
    State(OwnerMem(c.m, c.o), OwnerGoto(c.m, c.o, call), c.thieves,
          c.pushed + PutIn(c.o), c.out + HandedOut(c.m, c.o))
  }

  function ThiefMem(m: Mem, th: Thief): Mem {
    match th
    case StealCas(t, _) => if m.top == t then m.(top := t + 1) else m
    case _ => m
  }

  function ThiefGoto(m: Mem, th: Thief): Thief
    requires Shape(m)
  {
    match th
    case Away => StealBottom(m.top)
    case StealBottom(t) => if t < m.bottom then StealFn(t) else Away
    case StealFn(t) => StealArg(t, At(m, t).fn)
    case StealArg(t, fn) => StealCas(t, Task(fn, At(m, t).arg))
    case StealCas(_, _) => Away
  }

  function ThiefNext(c: State, i: nat): State
    requires Shape(c.m) && i < |c.thieves|
  {
    var th := c.thieves[i];
    c.(m := ThiefMem(c.m, th), thieves := c.thieves[i := ThiefGoto(c.m, th)],
       out := if th.StealCas? && c.m.top == th.t then c.out + multiset{th.x} else c.out)
  }

  // ---------------------------------------------------------------- abstraction

  /** One past the last position that still belongs to the deque. While the owner has lowered
      `bottom` but not yet won the element there, that element is still in the deque. */
  function Back(m: Mem, o: Owner): nat {
    match o
    case TakeTop2(b) => b + 1
    case ReadFn(b, t) => if t == b then b + 1 else b
    case ReadArg(b, t, _) => if t == b then b + 1 else b
    case TakeCas(b, _) => b + 1
    case TakeFix(b, _, _) => b + 1
    case _ => m.bottom
  }

  function Range(m: Mem, lo: nat, hi: nat): (s: seq<Task>)
    requires Shape(m) && lo <= hi
    ensures |s| == hi - lo
    ensures forall i {:trigger s[i]} :: 0 <= i < |s| ==> s[i] == m.slots[Slot(m.cap, lo + i)]
  {
    seq(hi - lo, i requires 0 <= i < hi - lo => m.slots[Slot(m.cap, lo + i)])
  }

  function Contents(c: State): seq<Task>
    requires Shape(c.m) && c.m.top <= Back(c.m, c.o)
  {
    Range(c.m, c.m.top, Back(c.m, c.o))
  }

  /** The element the owner has won without a CAS and is still copying out. */
  function InFlight(m: Mem, o: Owner): multiset<Task>
    requires Shape(m)
  {
    match o
    case ReadFn(b, t) => if t < b then multiset{At(m, b)} else multiset{}
    case ReadArg(b, t, _) => if t < b then multiset{At(m, b)} else multiset{}
    case _ => multiset{}
  }

  // ---------------------------------------------------------------- invariant

  predicate OwnerOk(m: Mem, o: Owner)
    requires Shape(m)
  {
    match o
    case Rest => true
    case PushTop(_, b) => m.bottom == b
    case PushFn(_, b) => m.bottom == b && b < m.top + m.cap
    case PushArg(x, b) => m.bottom == b && b < m.top + m.cap && At(m, b).fn == x.fn
    case PushPublish(x, b) => m.bottom == b && b < m.top + m.cap && At(m, b) == x
    case TakeTop(b) => m.bottom == b
    case TakeDown(b) => m.bottom == b && b > 0
    case TakeTop2(b) => m.bottom == b && m.top <= b + 1
    case ReadFn(b, t) => m.bottom == b && t <= b && (t == b ==> m.top >= b)
    case ReadArg(b, t, fn) => m.bottom == b && t <= b && fn == At(m, b).fn && (t == b ==> m.top >= b)
    case TakeCas(b, x) => m.bottom == b && m.top >= b && x == At(m, b)
    case TakeFix(b, _, _) => m.bottom == b && m.top == b + 1
  }

  /** A thief that saw `t < bottom` either has been overtaken, or position `t` is still the front
      and what it has read of the slot is what is there. */
  predicate ThiefOk(m: Mem, back: nat, th: Thief)
    requires Shape(m)
  {
    match th
    case Away => true
    case StealBottom(t) => t <= m.top
    case StealFn(t) => t <= m.top && (t == m.top ==> t < back)
    case StealArg(t, fn) => t <= m.top && (t == m.top ==> t < back && fn == At(m, t).fn)
    case StealCas(t, x) => t <= m.top && (t == m.top ==> t < back && x == At(m, t))
  }

  predicate Inv(c: State) {
    && Shape(c.m)
    && c.m.top <= Back(c.m, c.o) <= c.m.top + c.m.cap
    && OwnerOk(c.m, c.o)
    && (forall i {:trigger c.thieves[i]} :: 0 <= i < |c.thieves| ==> ThiefOk(c.m, Back(c.m, c.o), c.thieves[i]))
    && c.pushed == c.out + multiset(Contents(c)) + InFlight(c.m, c.o)
  }

  predicate Init(c: State) {
    && Shape(c.m) && c.m.top == 0 && c.m.bottom == 0 && c.o == Rest
    && (forall i {:trigger c.thieves[i]} :: 0 <= i < |c.thieves| ==> c.thieves[i] == Away)
    && c.pushed == multiset{} && c.out == multiset{}
  }

  lemma InitInv(c: State)
    requires Init(c)
    ensures Inv(c)
  {
    assert Contents(c) == [];
  }

  // ---------------------------------------------------------------- places

  predicate Bounds(m: Mem, o: Owner)
    requires Shape(m)
  {
    m.top <= Back(m, o) <= m.top + m.cap && OwnerOk(m, o)
  }

  lemma OwnerKeepsBounds(m: Mem, o: Owner, call: Call)
    requires Shape(m) && Bounds(m, o)
    ensures var m', o' := OwnerMem(m, o), OwnerGoto(m, o, call); Shape(m') && Bounds(m', o')
  {
    match o {
      case PushFn(x, b) => assert OwnerMem(m, o) == Put(m, b, At(m, b).(fn := x.fn));
      case PushArg(x, b) => assert OwnerMem(m, o) == Put(m, b, At(m, b).(arg := x.arg));
      case _ =>
    }
  }

  /** The owner writes the slot behind the back of the deque, never the front. */
  lemma OwnerSparesFront(m: Mem, o: Owner, call: Call)
    requires Shape(m) && Bounds(m, o)
    ensures var m' := OwnerMem(m, o); Shape(m') && (m.top < Back(m, o) ==> At(m', m.top) == At(m, m.top))
  {
    if (o.PushFn? || o.PushArg?) && m.top < o.b {
      SlotInjective(m.cap, m.top, o.b);
    }
  }

  /** If the front element is still in place after the owner's step, it was the front before. */
  lemma OwnerKeepsFront(m: Mem, o: Owner, call: Call)
    requires Shape(m) && Bounds(m, o)
    ensures var m', o' := OwnerMem(m, o), OwnerGoto(m, o, call);
      m'.top >= m.top && (m'.top == m.top < Back(m, o) ==> m.top < Back(m', o'))
  {
  }

  lemma OwnerKeepsThief(m: Mem, o: Owner, call: Call, th: Thief)
    requires Shape(m) && Bounds(m, o) && ThiefOk(m, Back(m, o), th)
    ensures var m', o' := OwnerMem(m, o), OwnerGoto(m, o, call);
      Shape(m') && ThiefOk(m', Back(m', o'), th)
  {
    OwnerSparesFront(m, o, call);
    OwnerKeepsFront(m, o, call);
    var m', o' := OwnerMem(m, o), OwnerGoto(m, o, call);
    assert m'.cap == m.cap;
  }

  lemma ThiefKeepsSelf(m: Mem, o: Owner, th: Thief)
    requires Shape(m) && Bounds(m, o) && ThiefOk(m, Back(m, o), th)
    ensures var m' := ThiefMem(m, th); Shape(m') && ThiefOk(m', Back(m', o), ThiefGoto(m, th))
  {
  }

  lemma ThiefKeepsOthers(m: Mem, o: Owner, th: Thief, other: Thief)
    requires Shape(m) && Bounds(m, o) && ThiefOk(m, Back(m, o), th)
    requires ThiefOk(m, Back(m, o), other)
    ensures var m' := ThiefMem(m, th); Shape(m') && Bounds(m', o) && ThiefOk(m', Back(m', o), other)
  {
  }

  // ---------------------------------------------------------------- contents

  lemma RangeFrame(m: Mem, p: nat, x: Task, lo: nat, hi: nat)
    requires Shape(m) && lo <= hi <= p < lo + m.cap
    ensures Range(Put(m, p, x), lo, hi) == Range(m, lo, hi)
  {
    OneLap(m.cap, p);
  }

  /** Equal slots make equal ranges; dropping an end of a range drops that element. */
  lemma RangeEnds(m: Mem, m': Mem, lo: nat, hi: nat)
    requires Shape(m) && Shape(m') && m.cap == m'.cap && m.slots == m'.slots && lo <= hi
    ensures Range(m', lo, hi) == Range(m, lo, hi)
    ensures lo < hi ==> Range(m', lo + 1, hi) == Range(m, lo, hi)[1..]
    ensures lo < hi ==> Range(m', lo, hi - 1) == Range(m, lo, hi)[..hi - lo - 1]
  {
  }

  /** What the owner's step does to the abstract deque, and what its verdicts mean: full, empty,
      and each element it takes. */
  lemma OwnerRefinesDeque(m: Mem, o: Owner, call: Call)
    requires Shape(m) && Bounds(m, o)
    ensures
      var m', o' := OwnerMem(m, o), OwnerGoto(m, o, call);
      Shape(m') && Bounds(m', o') &&
      var s, s' := Range(m, m.top, Back(m, o)), Range(m', m'.top, Back(m', o'));
      match o
      case PushTop(_, _) => s' == s && (o' == Rest <==> |s| == m.cap)
      case PushPublish(x, _) => s' == DequeSpec.PushBack(s, x)
      case TakeTop(_) => s' == s && (o' == Rest <==> s == [])
      case TakeTop2(b) =>
        if o'.TakeFix? then s == s' == []
        else if m.top < b then s != [] && (s', At(m, b)) == DequeSpec.TakeBack(s)
        else s' == s
      case TakeCas(_, x) =>
        if m.top == o.b then s != [] && (s', x) == DequeSpec.TakeBack(s) else s == s' == []
      case _ => s' == s
  {
    OwnerKeepsBounds(m, o, call);
    if o.PushFn? || o.PushArg? {
      RangeFrame(m, o.b, At(OwnerMem(m, o), o.b), m.top, Back(m, o));
    } else {
      RangeEnds(m, OwnerMem(m, o), m.top, Back(m, o));
    }
  }

  lemma ThiefRefinesDeque(m: Mem, o: Owner, th: Thief)
    requires Shape(m) && Bounds(m, o) && ThiefOk(m, Back(m, o), th)
    ensures
      var m' := ThiefMem(m, th);
      Shape(m') && Bounds(m', o) &&
      var s, s' := Range(m, m.top, Back(m, o)), Range(m', m'.top, Back(m', o));
      if th.StealCas? && m.top == th.t
      then s != [] && (s', th.x) == DequeSpec.StealFront(s)
      else s' == s
  {
    ThiefKeepsOthers(m, o, th, Away);
    RangeEnds(m, ThiefMem(m, th), m.top, Back(m, o));
  }

  // ---------------------------------------------------------------- conservation

  lemma MultisetOfTake(s: seq<Task>)
    requires s != []
    ensures multiset(s) == multiset(s[..|s| - 1]) + multiset{s[|s| - 1]}
    ensures multiset(s) == multiset{s[0]} + multiset(s[1..])
  {
    assert s == s[..|s| - 1] + [s[|s| - 1]];
    assert s == [s[0]] + s[1..];
  }

  lemma BackBalance(s: seq<Task>, s': seq<Task>, t: Task)
    requires s != [] && (s', t) == DequeSpec.TakeBack(s)
    ensures multiset(s) == multiset(s') + multiset{t}
  {
    assert s == s' + [t];
  }

  /** Everything pushed and not yet handed out. */
  function Left(m: Mem, o: Owner): multiset<Task>
    requires Shape(m) && Bounds(m, o)
  {
    multiset(Range(m, m.top, Back(m, o))) + InFlight(m, o)
  }

  lemma TakeTop2Balance(m: Mem, o: Owner)
    requires Shape(m) && Bounds(m, o) && o.TakeTop2?
    ensures Bounds(m, OwnerGoto(m, o, Take)) && Left(m, OwnerGoto(m, o, Take)) == Left(m, o)
  {
    hide Range, DequeSpec.TakeBack;
    OwnerRefinesDeque(m, o, Take);
    var s, s' := Range(m, m.top, Back(m, o)), Range(m, m.top, Back(m, OwnerGoto(m, o, Take)));
    if m.top < o.b { BackBalance(s, s', At(m, o.b)); }
  }

  lemma TakeCasBalance(m: Mem, o: Owner)
    requires Shape(m) && Bounds(m, o) && o.TakeCas?
    ensures var m', o' := OwnerMem(m, o), OwnerGoto(m, o, Take);
      Shape(m') && Bounds(m', o') && Left(m', o') + HandedOut(m, o) == Left(m, o)
  {
    OwnerRefinesDeque(m, o, Take);
    if m.top == o.b { MultisetOfTake(Range(m, m.top, Back(m, o))); }
  }

  lemma PublishBalance(m: Mem, o: Owner)
    requires Shape(m) && Bounds(m, o) && o.PushPublish?
    ensures var m', o' := OwnerMem(m, o), OwnerGoto(m, o, Take);
      Shape(m') && Bounds(m', o') && Left(m', o') == Left(m, o) + multiset{o.x}
  {
    OwnerRefinesDeque(m, o, Take);
  }

  lemma QuietBalance(m: Mem, o: Owner, call: Call)
    requires Shape(m) && Bounds(m, o) && !o.PushPublish? && !o.TakeTop2? && !o.TakeCas?
    ensures var m', o' := OwnerMem(m, o), OwnerGoto(m, o, call);
      Shape(m') && Bounds(m', o') && Left(m', o') + HandedOut(m, o) == Left(m, o)
  {
    OwnerRefinesDeque(m, o, call);
    var m', o' := OwnerMem(m, o), OwnerGoto(m, o, call);
    assert InFlight(m', o') + HandedOut(m, o) == InFlight(m, o);
  }

  lemma OwnerBalance(m: Mem, o: Owner, call: Call)
    requires Shape(m) && Bounds(m, o)
    ensures var m', o' := OwnerMem(m, o), OwnerGoto(m, o, call);
      Shape(m') && Bounds(m', o') && Left(m', o') + HandedOut(m, o) == Left(m, o) + PutIn(o)
  {
    match o {
      case PushPublish(_, _) => PublishBalance(m, o);
      case TakeTop2(_) => TakeTop2Balance(m, o);
      case TakeCas(_, _) => TakeCasBalance(m, o);
      case _ => QuietBalance(m, o, call);
    }
  }

  lemma OwnerConserves(c: State, call: Call)
    requires Shape(c.m) && Bounds(c.m, c.o) && c.pushed == c.out + Left(c.m, c.o)
    ensures var c' := OwnerNext(c, call);
      Shape(c'.m) && Bounds(c'.m, c'.o) && c'.pushed == c'.out + Left(c'.m, c'.o)
  {
    var m', o' := OwnerMem(c.m, c.o), OwnerGoto(c.m, c.o, call);
    OwnerBalance(c.m, c.o, call);
    Ledger(c.pushed, c.out, Left(c.m, c.o), Left(m', o'), HandedOut(c.m, c.o), PutIn(c.o));
  }

  lemma Ledger(pushed: multiset<Task>, out: multiset<Task>, left: multiset<Task>,
               left': multiset<Task>, handed: multiset<Task>, put: multiset<Task>)
    requires pushed == out + left && left' + handed == left + put
    ensures pushed + put == out + handed + left'
  {
    forall x ensures (pushed + put)[x] == (out + handed + left')[x] {
      assert (left' + handed)[x] == (left + put)[x];
    }
  }

  /** The invariant is kept by every step of the owner. */
  lemma OwnerNextKeepsInv(c: State, call: Call)
    requires Inv(c)
    ensures Inv(OwnerNext(c, call))
  {
    assert Left(c.m, c.o) == multiset(Contents(c)) + InFlight(c.m, c.o);
    OwnerConserves(c, call);
    forall i | 0 <= i < |c.thieves|
      ensures ThiefOk(OwnerNext(c, call).m, Back(OwnerNext(c, call).m, OwnerNext(c, call).o), c.thieves[i])
    {
      OwnerKeepsThief(c.m, c.o, call, c.thieves[i]);
    }
  }

  lemma ThiefConserves(c: State, i: nat)
    requires Inv(c) && i < |c.thieves|
    ensures var c' := ThiefNext(c, i);
      Shape(c'.m) && Bounds(c'.m, c'.o) && c'.pushed == c'.out + multiset(Contents(c')) + InFlight(c'.m, c'.o)
  {
    ThiefRefinesDeque(c.m, c.o, c.thieves[i]);
    var s := Contents(c);
    if s != [] { MultisetOfTake(s); }
  }

  /** The invariant is kept by every step of every thief. */
  lemma ThiefNextKeepsInv(c: State, i: nat)
    requires Inv(c) && i < |c.thieves|
    ensures Inv(ThiefNext(c, i))
  {
    var c' := ThiefNext(c, i);
    ThiefConserves(c, i);
    forall j | 0 <= j < |c.thieves| ensures ThiefOk(c'.m, Back(c'.m, c'.o), c'.thieves[j]) {
      ThiefKeepsOthers(c.m, c.o, c.thieves[i], c.thieves[j]);
      ThiefKeepsSelf(c.m, c.o, c.thieves[i]);
    }
  }

  // ---------------------------------------------------------------- every run

  datatype Move = OwnerMove(call: Call) | ThiefMove(i: nat)

  ghost predicate Schedule(c: State, sched: seq<Move>) {
    forall k {:trigger sched[k]} :: 0 <= k < |sched| && sched[k].ThiefMove? ==> sched[k].i < |c.thieves|
  }

  function Next(c: State, mv: Move): State
    requires Shape(c.m) && (mv.ThiefMove? ==> mv.i < |c.thieves|)
  {
    match mv
    case OwnerMove(call) => OwnerNext(c, call)
    case ThiefMove(i) => ThiefNext(c, i)
  }

  ghost function Run(c: State, sched: seq<Move>): State
    requires Shape(c.m) && Schedule(c, sched)
    decreases |sched|
  {
    if sched == [] then c else
    var c' := Next(c, sched[0]);
    assert Schedule(c', sched[1..]);
    Run(c', sched[1..])
  }

  lemma {:induction false} RunKeepsInv(c: State, sched: seq<Move>)
    requires Inv(c) && Schedule(c, sched)
    ensures Inv(Run(c, sched))
    decreases |sched|
  {
    if sched != [] {
      match sched[0] {
        case OwnerMove(call) => OwnerNextKeepsInv(c, call);
        case ThiefMove(i) => ThiefNextKeepsInv(c, i);
      }
      RunKeepsInv(Next(c, sched[0]), sched[1..]);
    }
  }

  /** Safety over every run, for one owner and any number of thieves: the tasks pushed are exactly
      those handed out (each as often as it was pushed), those still in the deque, and the one the
      owner is copying out; and a thief about to win the CAS holds exactly the front task, however
      often the slots were reused meanwhile. */
  lemma RunConserves(c: State, sched: seq<Move>)
    requires Init(c) && Schedule(c, sched)
    ensures var d := Run(c, sched);
      && Inv(d)
      && d.pushed == d.out + multiset(Contents(d)) + InFlight(d.m, d.o)
      && (forall i {:trigger d.thieves[i]} :: 0 <= i < |d.thieves| && d.thieves[i].StealCas? && d.m.top == d.thieves[i].t ==>
            Contents(d) != [] && d.thieves[i].x == Contents(d)[0])
  {
    hide Next, Run;
    InitInv(c);
    RunKeepsInv(c, sched);
    var d := Run(c, sched);
    forall i | 0 <= i < |d.thieves| && d.thieves[i].StealCas? && d.m.top == d.thieves[i].t
      ensures Contents(d) != [] && d.thieves[i].x == Contents(d)[0]
    {
      assert ThiefOk(d.m, Back(d.m, d.o), d.thieves[i]);
    }
  }
}
