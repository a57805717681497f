/** What push, take and steal do when no other thread steps meanwhile, and what it means, whoever else
    steps, when one of them comes back with nothing. */
module DequeAlone {
  import opened Slots
  import opened Deque

  predicate InPush(o: Owner) {
    o.PushTop? || o.PushFn? || o.PushArg? || o.PushPublish?
  }

  predicate InTake(o: Owner) {
    o.TakeTop? || o.TakeDown? || o.TakeTop2? || o.ReadFn? || o.ReadArg? || o.TakeCas? || o.TakeFix?
  }

  lemma Parts(c: State)
    requires Inv(c)
    ensures Shape(c.m) && Bounds(c.m, c.o) && Contents(c) == Range(c.m, c.m.top, Back(c.m, c.o))
  {
  }

  /** From wherever it is, a push goes on with its task or ends: with the task at the back, or because
      the deque is full at that instant. */
  lemma PushFailsOnlyWhenFull(c: State, call: Call)
    requires Inv(c) && InPush(c.o)
    ensures Inv(OwnerNext(c, call))
    ensures var n := OwnerNext(c, call);
      && (InPush(n.o) ==> n.o.x == c.o.x && Contents(n) == Contents(c))
      && (!InPush(n.o) ==>
            && n.o == Rest
            && (if c.o.PushPublish? then Contents(n) == Contents(c) + [c.o.x]
                else n.m == c.m && |Contents(c)| == c.m.cap))
  {
    hide Contents, Range;
    OwnerNextKeepsInv(c, call);
    Parts(c);
    Parts(OwnerNext(c, call));
    OwnerRefinesDeque(c.m, c.o, call);
  }

  /** The owner has given up the take it is in. */
  predicate GaveUp(o: Owner) {
    o.TakeFix? && !o.got
  }

  /** From wherever it is, a take goes on or ends. It gives up only at an instant when the deque is
      empty, and otherwise hands out one task. */
  lemma TakeFailsOnlyWhenEmpty(c: State, call: Call)
    requires Inv(c) && InTake(c.o)
    ensures Inv(OwnerNext(c, call))
    ensures var n := OwnerNext(c, call);
      && (InTake(n.o) || n.o == Rest)
      && (n.o == Rest && c.o.TakeTop? ==> Contents(c) == [])
      && (GaveUp(n.o) ==> Contents(c) == [] && n.out == c.out)
      && (n.o == Rest && !c.o.TakeTop? && !c.o.TakeFix? ==> c.o.ReadArg? && n.out == c.out + multiset{At(c.m, c.o.b)})
      && (n.o.TakeFix? && n.o.got ==> c.o.TakeCas? && Contents(c) != [] && n.out == c.out + multiset{Contents(c)[|Contents(c)| - 1]})
  {
    hide Contents, Range;
    OwnerNextKeepsInv(c, call);
    Parts(c);
    Parts(OwnerNext(c, call));
    OwnerRefinesDeque(c.m, c.o, call);
  }

  /** From wherever it is, a steal goes on or ends: with the front, because the words showed an empty
      deque, or because another thread has moved top meanwhile. */
  lemma StealFailsOnlyWhenEmptyOrLost(c: State, i: nat)
    requires Inv(c) && i < |c.thieves| && c.thieves[i] != Away
    ensures Inv(ThiefNext(c, i))
    ensures var th, n := c.thieves[i], ThiefNext(c, i);
      && (n.thieves[i] != Away ==> n.thieves[i].t == th.t && n.m == c.m)
      && (n.thieves[i] == Away ==>
            || (th.StealCas? && Contents(c) != [] && Contents(n) == Contents(c)[1..] && n.out == c.out + multiset{Contents(c)[0]})
            || (th.StealCas? && c.m.top != th.t && n.m == c.m)
            || (th.StealBottom? && c.m.bottom <= th.t && n.m == c.m))
  {
    hide Contents, Range;
    ThiefNextKeepsInv(c, i);
    Parts(c);
    Parts(ThiefNext(c, i));
    ThiefRefinesDeque(c.m, c.o, c.thieves[i]);
  }

  // ---------------------------------------------------------------- alone

  /** The owner takes steps alone until it is at rest, `n` at most. */
  function OwnerAlone(c: State, n: nat): (d: State)
    requires Shape(c.m)
    ensures Shape(d.m)
    decreases n
  {
    if n == 0 || c.o == Rest then c else OwnerAlone(OwnerNext(c, Take), n - 1)
  }

  /** And a thief until it is away. */
  function ThiefAlone(c: State, i: nat, n: nat): (d: State)
    requires Shape(c.m) && i < |c.thieves|
    ensures Shape(d.m) && |d.thieves| == |c.thieves|
    decreases n
  {
    if n == 0 || c.thieves[i] == Away then c else ThiefAlone(ThiefNext(c, i), i, n - 1)
  }

  lemma {:induction false} PushGoesOn(c: State, x: Task, n: nat)
    requires Inv(c) && InPush(c.o) && c.o.x == x && n >= Left(c.o) && (c.o.PushTop? ==> |Contents(c)| < c.m.cap)
    ensures var d := OwnerAlone(c, n); Inv(d) && d.o == Rest && Contents(d) == Contents(c) + [x] && d.out == c.out && d.thieves == c.thieves
    decreases n
  {
    hide Contents, Inv;
    Parts(c);
    PushFailsOnlyWhenFull(c, Take);
    if !c.o.PushPublish? {
      PushGoesOn(OwnerNext(c, Take), x, n - 1);
    } else {
      assert OwnerAlone(OwnerNext(c, Take), n - 1) == OwnerNext(c, Take);
    }
  }

  /** How many accesses a push or a take still has at most. */
  function Left(o: Owner): nat {
    match o
    case Rest => 0
    case PushTop(_, _) => 4
    case PushFn(_, _) => 3
    case PushArg(_, _) => 2
    case PushPublish(_, _) => 1
    case TakeTop(_) => 7
    case TakeDown(_) => 6
    case TakeTop2(_) => 5
    case ReadFn(_, _) => 4
    case ReadArg(_, _, _) => 3
    case TakeCas(_, _) => 2
    case TakeFix(_, _, _) => 1
  }

  /** A push alone: the task is at the back, or the deque was full and is as it was. */
  lemma PushAlone(c: State, x: Task, n: nat)
    requires Inv(c) && c.o == Rest && n >= 4
    ensures Shape(OwnerNext(c, Push(x)).m)
    ensures var d := OwnerAlone(OwnerNext(c, Push(x)), n);
      && Inv(d) && d.o == Rest && d.out == c.out && d.thieves == c.thieves
      && (if |Contents(c)| < c.m.cap then Contents(d) == Contents(c) + [x] else d.m == c.m)
  {
    var s := OwnerNext(c, Push(x));
    OwnerNextKeepsInv(c, Push(x));
    assert Contents(s) == Contents(c);
    if |Contents(c)| < c.m.cap {
      PushGoesOn(s, x, n);
    } else {
      PushFailsOnlyWhenFull(s, Take);
      Parts(s);
      OwnerRefinesDeque(s.m, s.o, Take);
      assert OwnerAlone(OwnerNext(s, Take), n - 1) == OwnerNext(s, Take);
    }
  }

  /** One access of a take, in terms of the contents. */
  lemma TakeStep(c: State)
    requires Inv(c) && InTake(c.o)
    ensures Inv(OwnerNext(c, Take))
    ensures var n, s := OwnerNext(c, Take), Contents(c);
      && n.thieves == c.thieves && n.m.slots == c.m.slots && n.m.cap == c.m.cap && Left(n.o) < Left(c.o)
      && (!c.o.TakeCas? ==> n.m.top == c.m.top)
      && match c.o
         case TakeTop(b) => Contents(n) == s && n.out == c.out && (if s == [] then n.o == Rest else n.o == TakeDown(b) && b == c.m.bottom)
         case TakeDown(b) => Contents(n) == s && n.out == c.out && b > 0 && n.o == TakeTop2(b - 1) && (s != [] ==> c.m.top < b)
         case TakeTop2(b) =>
           && n.out == c.out
           && (if c.m.top < b then s != [] && n.o == ReadFn(b, c.m.top) && Contents(n) == s[..|s| - 1] && At(n.m, b) == s[|s| - 1]
               else Contents(n) == s && (c.m.top == b ==> n.o == ReadFn(b, b)))
         case ReadFn(b, t) => Contents(n) == s && n.out == c.out && n.o == ReadArg(b, t, At(c.m, b).fn)
         case ReadArg(b, t, _) =>
           && Contents(n) == s
           && (if t != b then n.o == Rest && n.out == c.out + multiset{At(c.m, b)} else n.o == TakeCas(b, At(c.m, b)) && n.out == c.out)
         case TakeCas(b, x) =>
           c.m.top == b ==> s != [] && x == s[|s| - 1] && n.o == TakeFix(b, true, x) && Contents(n) == s[..|s| - 1] && n.out == c.out + multiset{x}
         case TakeFix(_, _, _) => Contents(n) == s && n.out == c.out && n.o == Rest
         case _ => true
  {
    hide Contents, Range, Slots.Slot, Put;
    Bounded(c);
    OwnerNextKeepsInv(c, Take);
    Parts(c);
    Parts(OwnerNext(c, Take));
    OwnerRefinesDeque(c.m, c.o, Take);
  }

  lemma Bounded(c: State)
    requires Inv(c)
    ensures OwnerOk(c.m, c.o) && |Contents(c)| == Back(c.m, c.o) - c.m.top
  {
  }

  lemma Onward(c: State, n: nat)
    requires Shape(c.m) && c.o != Rest && n > 0
    ensures OwnerAlone(c, n) == OwnerAlone(OwnerNext(c, Take), n - 1)
  {
  }

  lemma Arrived(c: State, n: nat)
    requires Shape(c.m) && c.o == Rest
    ensures OwnerAlone(c, n) == c
  {
  }

  lemma HasShape(c: State)
    requires Inv(c)
    ensures Shape(c.m)
  {
  }

  /** Copying a task won without a CAS, or putting bottom back. */
  lemma {:induction false} TakeFinishes(c: State, n: nat)
    requires Inv(c) && n >= Left(c.o)
    requires (c.o.ReadFn? && c.o.t < c.o.b) || (c.o.ReadArg? && c.o.t < c.o.b) || c.o.TakeFix?
    ensures var d := OwnerAlone(c, n);
      && Inv(d) && d.o == Rest && Contents(d) == Contents(c) && d.thieves == c.thieves
      && d.out == c.out + (if c.o.TakeFix? then multiset{} else multiset{At(c.m, c.o.b)})
    decreases n
  {
    hide Contents, Inv, OwnerNext, OwnerAlone, Slots.Slot;
    HasShape(c);
    TakeStep(c);
    Onward(c, n);
    var e := OwnerNext(c, Take);
    if c.o.ReadFn? { TakeFinishes(e, n - 1); } else { Arrived(e, n - 1); }
  }

  /** The last task is won by a CAS, which nobody contests. */
  lemma LastAlone(c: State, n: nat)
    requires Inv(c) && c.o.ReadFn? && c.o.t == c.o.b == c.m.top && n >= 4
    ensures var d, s := OwnerAlone(c, n), Contents(c);
      && Inv(d) && d.o == Rest && d.thieves == c.thieves
      && s != [] && Contents(d) == s[..|s| - 1] && d.out == c.out + multiset{s[|s| - 1]}
  {
    hide Contents, Inv, OwnerNext, OwnerAlone, Slots.Slot;
    HasShape(c);
    TakeStep(c);
    Onward(c, n);
    var c1 := OwnerNext(c, Take);
    HasShape(c1);
    TakeStep(c1);
    Onward(c1, n - 1);
    var c2 := OwnerNext(c1, Take);
    HasShape(c2);
    TakeStep(c2);
    Onward(c2, n - 2);
    TakeFinishes(OwnerNext(c2, Take), n - 3);
  }

  /** A take alone: it hands out the task at the back, or the deque was empty and is so still. */
  lemma TakeAlone(c: State, n: nat)
    requires Inv(c) && c.o == Rest && n >= 7
    ensures Shape(OwnerNext(c, Take).m)
    ensures var d, s := OwnerAlone(OwnerNext(c, Take), n), Contents(c);
      && Inv(d) && d.o == Rest && d.thieves == c.thieves
      && (if s != [] then Contents(d) == s[..|s| - 1] && d.out == c.out + multiset{s[|s| - 1]}
          else Contents(d) == [] && d.out == c.out)
  {
    hide Contents, Inv, OwnerNext, OwnerAlone, Slots.Slot, Left;
    HasShape(c);
    TakeBegins(c);
    var c1 := OwnerNext(c, Take);
    HasShape(c1);
    TakeStep(c1);
    Onward(c1, n);
    var c2 := OwnerNext(c1, Take);
    HasShape(c2);
    if c2.o == Rest { Arrived(c2, n - 1); } else { TakeGoesOn(c2, n - 1); }
  }

  lemma TakeGoesOn(c: State, n: nat)
    requires Inv(c) && c.o.TakeDown? && Contents(c) != [] && n >= 6
    ensures var d, s := OwnerAlone(c, n), Contents(c);
      && Inv(d) && d.o == Rest && d.thieves == c.thieves
      && Contents(d) == s[..|s| - 1] && d.out == c.out + multiset{s[|s| - 1]}
  {
    hide Contents, Inv, OwnerNext, OwnerAlone, Slots.Slot;
    HasShape(c);
    TakeStep(c);
    Onward(c, n);
    var e := OwnerNext(c, Take);
    HasShape(e);
    TakeStep(e);
    Onward(e, n - 1);
    var f := OwnerNext(e, Take);
    if e.m.top < e.o.b { TakeFinishes(f, n - 2); } else { LastAlone(f, n - 2); }
  }

  lemma TakeBegins(c: State)
    requires Inv(c) && c.o == Rest
    ensures var e := OwnerNext(c, Take);
      Inv(e) && e.o.TakeTop? && Contents(e) == Contents(c) && e.thieves == c.thieves && e.out == c.out
  {
    OwnerNextKeepsInv(c, Take);
  }

  /** One access of a thief that nobody disturbs. */
  lemma StealStep(c: State, i: nat)
    requires Inv(c) && c.o == Rest && i < |c.thieves| && (c.thieves[i] != Away ==> c.thieves[i].t == c.m.top)
    ensures Inv(ThiefNext(c, i))
    ensures var n, s := ThiefNext(c, i), Contents(c);
      && n.o == Rest && n.thieves == c.thieves[i := n.thieves[i]]
      && (!c.thieves[i].StealCas? ==> n.m == c.m && n.out == c.out && Contents(n) == s)
      && match c.thieves[i]
         case Away => n.thieves[i] == StealBottom(c.m.top)
         case StealBottom(t) => n.thieves[i] == if s != [] then StealFn(t) else Away
         case StealFn(t) => n.thieves[i].StealArg? && n.thieves[i].t == t
         case StealArg(t, _) => n.thieves[i].StealCas? && n.thieves[i].t == t
         case StealCas(_, _) => n.thieves[i] == Away && s != [] && Contents(n) == s[1..] && n.out == c.out + multiset{s[0]}
  {
    hide Range;
    ThiefNextKeepsInv(c, i);
    Bounded(c);
    Parts(c);
    Parts(ThiefNext(c, i));
    ThiefRefinesDeque(c.m, c.o, c.thieves[i]);
  }

  lemma ThiefOnward(c: State, i: nat, n: nat)
    requires Shape(c.m) && i < |c.thieves| && c.thieves[i] != Away && n > 0
    ensures ThiefAlone(c, i, n) == ThiefAlone(ThiefNext(c, i), i, n - 1)
  {
  }

  lemma ThiefArrived(c: State, i: nat, n: nat)
    requires Shape(c.m) && i < |c.thieves| && c.thieves[i] == Away
    ensures ThiefAlone(c, i, n) == c
  {
  }

  /** How many accesses a steal still has at most. */
  function StealLeft(th: Thief): nat {
    match th
    case Away => 0
    case StealBottom(_) => 4
    case StealFn(_) => 3
    case StealArg(_, _) => 2
    case StealCas(_, _) => 1
  }

  lemma {:induction false} StealGoesOn(c: State, i: nat, n: nat)
    requires Inv(c) && c.o == Rest && i < |c.thieves| && c.thieves[i] != Away && c.thieves[i].t == c.m.top && n >= StealLeft(c.thieves[i])
    ensures var d, s := ThiefAlone(c, i, n), Contents(c);
      && Inv(d) && d.o == Rest && d.thieves == c.thieves[i := Away]
      && (if s != [] then Contents(d) == s[1..] && d.out == c.out + multiset{s[0]}
          else Contents(d) == [] && d.out == c.out)
    decreases n
  {
    hide Contents, Inv, ThiefNext, ThiefAlone;
    HasShape(c);
    StealStep(c, i);
    ThiefOnward(c, i, n);
    var e := ThiefNext(c, i);
    HasShape(e);
    if e.thieves[i] == Away {
      ThiefArrived(e, i, n - 1);
    } else {
      StealGoesOn(e, i, n - 1);
      assert c.thieves[i := e.thieves[i]][i := Away] == c.thieves[i := Away];
    }
  }

  /** A steal alone, with the owner at rest: it hands out the front, or the deque was empty and is so
      still. */
  lemma StealAlone(c: State, i: nat, n: nat)
    requires Inv(c) && c.o == Rest && i < |c.thieves| && c.thieves[i] == Away && n >= 4
    ensures Shape(ThiefNext(c, i).m)
    ensures var d, s := ThiefAlone(ThiefNext(c, i), i, n), Contents(c);
      && Inv(d) && d.o == Rest && d.thieves == c.thieves
      && (if s != [] then Contents(d) == s[1..] && d.out == c.out + multiset{s[0]}
          else Contents(d) == [] && d.out == c.out)
  {
    hide Contents, Inv, ThiefNext, ThiefAlone;
    HasShape(c);
    StealStep(c, i);
    var e := ThiefNext(c, i);
    HasShape(e);
    StealGoesOn(e, i, n);
    assert c.thieves[i := e.thieves[i]][i := Away] == c.thieves;
  }
}
