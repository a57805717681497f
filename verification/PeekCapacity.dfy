/** The generic ring accepts a capacity of 1, where "published" and "free for the next lap" are the
    same seqno. Whole items come out of every run exactly when the capacity is at least 2. */
module PeekCapacity {
  import opened Slots
  import opened PeekRing

  /** What a caller relies on: a finished pop, and a successful peek, hold the item pushed at their
      position. */
  ghost predicate Whole(c: State) {
    forall i {:trigger c.threads[i]} :: 0 <= i < |c.threads| ==>
      var l := c.threads[i];
      l.PopRecycle? || (l.PeekUnlock? && l.ok) ==> l.pos < |c.r.log| && l.out == c.r.log[l.pos]
  }

  ghost predicate Leads(c: State, sched: seq<(nat, Call)>, d: State) {
    Shape(c.r) && Schedule(c, sched) && Run(c, sched) == d
  }

  ghost predicate Reaches(c: State, d: State) {
    exists sched: seq<(nat, Call)> :: Leads(c, sched, d)
  }

  lemma {:induction false} Append(c: State, sched: seq<(nat, Call)>, d: State, i: nat, call: Call)
    requires Leads(c, sched, d) && Shape(d.r) && i < |d.threads|
    ensures Leads(c, sched + [(i, call)], Next(d, i, call))
    decreases |sched|
  {
    hide Apply, EffectOf, Goto;
    var longer := sched + [(i, call)];
    var c' := Next(c, longer[0].0, longer[0].1);
    StepKeepsShape(c, longer[0].0, longer[0].1);
    if sched == [] {
      assert longer[1..] == [];
    } else {
      assert longer[1..] == sched[1..] + [(i, call)];
      Append(c', sched[1..], d, i, call);
      assert forall k {:trigger longer[k]} :: 0 < k < |longer| ==> longer[k] == longer[1..][k - 1];
    }
    assert Schedule(c, longer) && Schedule(c', longer[1..]);
    assert Run(c, longer) == Run(c', longer[1..]);
    assert Run(c', []) == c';
  }

  lemma StepKeepsShape(c: State, i: nat, call: Call)
    requires Shape(c.r) && i < |c.threads|
    ensures Shape(Next(c, i, call).r)
  {
  }

  /** A ring of one cell and one word, and two threads. */
  function One(head: nat, seqno: nat, guard: int, item: Item, log: seq<Item>, a: Local, b: Local): State {
    State(Ring(1, 1, head, |log|, [seqno], [guard], [item], log), [a, b])
  }

  lemma Step(c0: State, c: State, i: nat, call: Call, d: State)
    requires Reaches(c0, c) && Shape(c.r) && i < |c.threads|
    requires d.threads == c.threads[i := Goto(c.r, c.threads[i], call)]
    requires d.r == Apply(c.r, EffectOf(c.r, c.threads[i]))
    ensures Reaches(c0, d)
  {
    hide Apply, EffectOf, Goto, Shape;
    var sched: seq<(nat, Call)> :| Leads(c0, sched, c);
    Append(c0, sched, c, i, call);
    assert d == Next(c, i, call);
  }

  /** Thread 0 reserves position `n`, which the only cell calls free, and writes `[v]` there. */
  lemma Overwrite(c0: State, n: nat, item: Item, log: seq<Item>, v: int)
    requires |item| == 1 && |log| == n && Reaches(c0, One(0, n, 0, item, log, Idle, Idle))
    ensures Reaches(c0, One(0, n, -1, [v], log + [[v]], PushUnlock([v], n), Idle))
  {
    hide Slots.Slot, Reaches;
    var x, logged := [v], log + [[v]];
    Step(c0, One(0, n, 0, item, log, Idle, Idle), 0, Push(x), One(0, n, 0, item, log, PushLoad(x), Idle));
    Step(c0, One(0, n, 0, item, log, PushLoad(x), Idle), 0, Pop, One(0, n, 0, item, log, PushSeq(x, n), Idle));
    Step(c0, One(0, n, 0, item, log, PushSeq(x, n), Idle), 0, Pop, One(0, n, 0, item, log, PushCas(x, n), Idle));
    Step(c0, One(0, n, 0, item, log, PushCas(x, n), Idle), 0, Pop, One(0, n, 0, item, logged, PushLock(x, n), Idle));
    Step(c0, One(0, n, 0, item, logged, PushLock(x, n), Idle), 0, Pop, One(0, n, -1, item, logged, PushCopy(x, n, 0), Idle));
    assert item[0 := v] == x;
    Step(c0, One(0, n, -1, item, logged, PushCopy(x, n, 0), Idle), 0, Pop, One(0, n, -1, x, logged, PushUnlock(x, n), Idle));
  }

  lemma Finish(c0: State, n: nat, log: seq<Item>, x: Item)
    requires |x| == 1 && |log| == n + 1 && Reaches(c0, One(0, n, -1, x, log, PushUnlock(x, n), Idle))
    ensures Reaches(c0, One(0, n + 1, 0, x, log, Idle, Idle))
  {
    hide Slots.Slot, Reaches;
    Step(c0, One(0, n, -1, x, log, PushUnlock(x, n), Idle), 0, Pop, One(0, n, 0, x, log, PushPublish(x, n), Idle));
    Step(c0, One(0, n, 0, x, log, PushPublish(x, n), Idle), 0, Pop, One(0, n + 1, 0, x, log, Idle, Idle));
  }

  /** Thread 1 pops position 0 while thread 0 is filling position 1 of the same cell. */
  lemma PopTheOther(c0: State, log: seq<Item>, x: Item, a: Local)
    requires |x| == 1 && |log| == 2 && Reaches(c0, One(0, 1, -1, x, log, a, Idle))
    ensures Reaches(c0, One(1, 1, -1, x, log, a, PopRecycle(0, x)))
  {
    hide Slots.Slot, Reaches;
    Step(c0, One(0, 1, -1, x, log, a, Idle), 1, Pop, One(0, 1, -1, x, log, a, PopLoad));
    Step(c0, One(0, 1, -1, x, log, a, PopLoad), 1, Pop, One(0, 1, -1, x, log, a, PopSeq(0)));
    Step(c0, One(0, 1, -1, x, log, a, PopSeq(0)), 1, Pop, One(0, 1, -1, x, log, a, PopCas(0)));
    Step(c0, One(0, 1, -1, x, log, a, PopCas(0)), 1, Pop, One(1, 1, -1, x, log, a, PopCopy(0, [])));
    assert [] + [Word(x, 0)] == x;
    Step(c0, One(1, 1, -1, x, log, a, PopCopy(0, [])), 1, Pop, One(1, 1, -1, x, log, a, PopRecycle(0, x)));
  }

  /** With one cell, the second push overwrites the first item before it is popped. */
  lemma OneCellMisdelivers() returns (c: State, sched: seq<(nat, Call)>)
    ensures Init(c) && c.r.cap == 1 && Schedule(c, sched) && !Whole(Run(c, sched))
  {
    hide Slots.Slot, Reaches;
    c := One(0, 0, 0, [0], [], Idle, Idle);
    assert Reaches(c, c) by { ReachesItself(c); }
    Overwrite(c, 0, [0], [], 7);
    assert [] + [[7]] == [[7]];
    Finish(c, 0, [[7]], [7]);
    Overwrite(c, 1, [7], [[7]], 8);
    var log := [[7]] + [[8]];
    PopTheOther(c, log, [8], PushUnlock([8], 1));
    var d := One(1, 1, -1, [8], log, PushUnlock([8], 1), PopRecycle(0, [8]));
    sched := Witness(c, d);
    assert !Whole(d) by { assert d.threads[1].out != d.r.log[0]; }
  }

  lemma ReachesItself(c: State)
    requires Shape(c.r)
    ensures Reaches(c, c)
  {
    assert Leads(c, [], c);
  }

  lemma Witness(c: State, d: State) returns (sched: seq<(nat, Call)>)
    requires Reaches(c, d)
    ensures Leads(c, sched, d)
  {
    sched :| Leads(c, sched, d);
  }

  /** Whole items come out of every run exactly when there are two cells or more. */
  lemma WholeItemsExactlyFromTwoCells(cap: nat)
    ensures (forall c: State, sched: seq<(nat, Call)> {:trigger Run(c, sched)} ::
               Init(c) && c.r.cap == cap && Schedule(c, sched) ==> Whole(Run(c, sched)))
            <==> cap != 1
  {
    if cap == 1 {
      var c, sched := OneCellMisdelivers();
    } else {
      forall c: State, sched: seq<(nat, Call)> | Init(c) && c.r.cap == cap && Schedule(c, sched)
        ensures Whole(Run(c, sched))
      {
        RunIsWhole(c, sched);
      }
    }
  }

  lemma RunIsWhole(c: State, sched: seq<(nat, Call)>)
    requires Init(c) && c.r.cap >= 2 && Schedule(c, sched)
    ensures Whole(Run(c, sched))
  {
    InitInv(c);
    RunKeepsInv(c, sched);
    forall i | 0 <= i < |c.threads|
      ensures var d := Run(c, sched); var l := d.threads[i];
        l.PopRecycle? || (l.PeekUnlock? && l.ok) ==> l.pos < |d.r.log| && l.out == d.r.log[l.pos]
    {
      PeekAndPopReturnWholeItems(c, sched, i);
    }
  }
}
