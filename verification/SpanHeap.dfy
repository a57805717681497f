/** The heap of one running thread as the program writes it: the pointers of the lists changed in
    place by alloc, refill and free. */
module SpanHeap {
  import opened LinkedSpans
  import opened SpanEnd
  import opened SpanLists

  /** Class and capacity of a span stay, and unless it gave a block, no more of it is handed out. */
  predicate Kept(was: Info, now: Info, gave: bool) {
    now.cls == was.cls && now.count == was.count && (!gave ==> now.bump == was.bump && now.used <= was.used)
  }

  /** No span is lost, and only `r` may have given a block. */
  ghost predicate Stable(was: map<nat, Info>, now: map<nat, Info>, r: nat) {
    forall s {:trigger now[s]} {:trigger was[s]} :: s in was ==> s in now && Kept(was[s], now[s], s == r)
  }

  lemma StableSelf(a: map<nat, Info>)
    ensures Stable(a, a, 0)
  {
  }

  lemma StableUpdate(a: map<nat, Info>, s: nat, i: Info, r: nat)
    requires s in a && Kept(a[s], i, s == r)
    ensures Stable(a, a[s := i], r) && a[s := i].Keys == a.Keys
  {
  }

  lemma StableNew(a: map<nat, Info>, s: nat, i: Info)
    requires s !in a
    ensures Stable(a, a[s := i], 0)
  {
  }

  lemma StableTwice(a: map<nat, Info>, b: map<nat, Info>, c: map<nat, Info>, r: nat)
    requires Stable(a, b, 0) && Stable(b, c, r) && 0 !in a
    ensures Stable(a, c, r)
  {
    forall s | s in a ensures s in c && Kept(a[s], c[s], s == r) {
      assert s in b && Kept(a[s], b[s], s == 0);
    }
  }

  /** What the first span of a class has after one block is taken from it. */
  function Took(i: Info): Info {
    if i.free > 0 then i.(free := i.free - 1, used := i.used + 1) else i.(bump := i.bump + 1, used := i.used + 1)
  }

  predicate CanGive(i: Info) {
    i.free > 0 || i.bump < i.count
  }

  /** The first span of a class serves: from its own blocks, or from what a drain brings. */
  predicate Serves(i: Info, arrived: nat) {
    CanGive(i) || arrived > 0
  }

  /** Its words after the look: it has given a block, or it is full. */
  function AfterLook(i: Info, arrived: nat): Info {
    if CanGive(i) then Took(i) else if arrived > 0 then Took(Drained(i, arrived)) else i.(full := true)
  }

  /** The index of the first span from `k` on that serves, when `arrives(j)` blocks of the j-th have
      come back. */
  ghost function FirstServing(info: map<nat, Info>, xs: seq<nat>, arrives: nat -> nat, k: nat): (n: nat)
    requires k <= |xs|
    ensures k <= n <= |xs|
    decreases |xs| - k
  {
    if k < |xs| && xs[k] in info && !Serves(info[xs[k]], arrives(k)) then FirstServing(info, xs, arrives, k + 1) else k
  }

  ghost predicate Untouched(was: map<nat, Info>, now: map<nat, Info>, xs: seq<nat>) {
    forall s {:trigger s in xs} :: s in xs ==> s in was && s in now && now[s] == was[s]
  }

  predicate Hits(info: map<nat, Info>, s: nat, c: nat, arrived: nat) {
    s in info && info[s].cls == c && arrived > 0
  }

  /** Which of the first two full spans serves class `c`, if any. */
  function FullServing(info: map<nat, Info>, fulls: seq<nat>, c: nat, arrives: nat -> nat): nat {
    if fulls != [] && Hits(info, fulls[0], c, arrives(0)) then fulls[0]
    else if |fulls| > 1 && Hits(info, fulls[1], c, arrives(1)) then fulls[1]
    else 0
  }

  /** A span has a block to give: one of its own, one never carved, or some that come back. */
  predicate HasBlock(info: map<nat, Info>, s: nat, arrived: nat) {
    s in info && (info[s].free > 0 || info[s].bump < info[s].count || arrived > 0)
  }

  ghost predicate NoneBefore(info: map<nat, Info>, xs: seq<nat>, arrives: nat -> nat, n: nat)
    requires n <= |xs|
  {
    forall k: nat {:trigger xs[k]} :: k < n ==> !HasBlock(info, xs[k], arrives(k))
  }

  /** Which span serves class `c`, and what becomes of the lists. `xs` is the class list and `fulls`
      the full list before; `arrives` and `again` are what the drains of the two scans find. The first
      span of the class with a block serves, and those before it are retired. If there is none, all of
      the class is retired; then one of the first two spans of the full list serves, the earlier one
      first, if it is of the class and its drain finds blocks, and otherwise new memory. */
  ghost predicate Served(info: map<nat, Info>, xs: seq<nat>, fulls: seq<nat>, c: nat, arrives: nat -> nat, again: nat -> nat,
                         created: nat, r: nat, xs': seq<nat>, fulls': seq<nat>)
  {
    && (forall n: nat {:trigger xs[n]} :: n < |xs| && HasBlock(info, xs[n], arrives(n)) && NoneBefore(info, xs, arrives, n) ==>
          r == xs[n] && xs' == xs[n..] && fulls' == fulls + xs[..n])
    && (NoneBefore(info, xs, arrives, |xs|) ==>
          var all := fulls + xs;
          var one := |all| > 0 && all[0] in info && info[all[0]].cls == c && again(0) > 0;
          var two := |all| > 1 && all[1] in info && info[all[1]].cls == c && again(1) > 0;
          r == if one then all[0] else if two then all[1] else created)
  }

  /** What the serving span has after it gave one block, `arrived` blocks having come back to it if it
      had none of its own. */
  predicate GaveOne(i: Info, n: Info, arrived: nat) {
    if i.free > 0 then n == i.(free := i.free - 1, used := i.used + 1)
    else if i.bump < i.count then n == i.(bump := i.bump + 1, used := i.used + 1)
    else
      var back := if arrived < i.used then arrived else i.used;
      back > 0 && n == i.(free := back - 1, used := i.used - back + 1, full := false)
  }

  /** Spans may have been retired, and nothing else has happened. */
  ghost predicate OnlyRetired(was: map<nat, Info>, now: map<nat, Info>) {
    forall s {:trigger now[s]} {:trigger was[s]} :: s in was ==> s in now && (now[s] == was[s] || now[s] == was[s].(full := true))
  }

  lemma OneMoreRetired(a: map<nat, Info>, b: map<nat, Info>, s: nat)
    requires OnlyRetired(a, b) && s in b
    ensures OnlyRetired(a, b[s := b[s].(full := true)])
  {
  }

  lemma DataUpdate(info: map<nat, Info>, s: nat, i: Info, exempt: nat)
    requires DataOk(info, 0) && 0 !in info && CountsOk(i, s == exempt) && (exempt == 0 || exempt == s)
    ensures DataOk(info[s := i], exempt)
  {
    var n := info[s := i];
    forall t | t in n ensures CountsOk(n[t], t == exempt) {
      if t != s { assert CountsOk(info[t], t == 0); }
    }
  }

  lemma CountsOf(info: map<nat, Info>, s: nat)
    requires DataOk(info, 0) && s in info && 0 !in info
    ensures CountsOk(info[s], false)
  {
    assert CountsOk(info[s], s == 0);
  }

  lemma AvailableIsOk(info: map<nat, Info>, s: nat)
    requires DataOk(info, s) && s in info && 0 !in info
    ensures DataOk(info[s := info[s].(full := false)], 0)
  {
    var n := info[s := info[s].(full := false)];
    forall t | t in n ensures CountsOk(n[t], t == 0) {
      assert CountsOk(info[t], t == s);
    }
  }

  lemma WithoutIsOk(info: map<nat, Info>, s: nat)
    requires DataOk(info, 0)
    ensures DataOk(info - {s}, 0)
  {
    forall t | t in info - {s} ensures CountsOk((info - {s})[t], t == 0) {
      assert CountsOk(info[t], t == 0);
    }
  }

  class Heap {
    const capacity: seq<nat>
    var link: map<nat, Link>
    var info: map<nat, Info>
    var heads: seq<nat>
    var fullHead: nat
    var fullTail: nat
    ghost var lists: seq<seq<nat>>
    ghost var fulls: seq<nat>

    ghost function Now(): Spans
      reads this
    {
      Spans(link, info, heads, fullHead, fullTail, lists, fulls)
    }

    ghost predicate Ok()
      reads this
    {
      && WF(Now(), 0) && DataOk(info, 0)
      && |capacity| == CLASS_COUNT && forall c {:trigger capacity[c]} :: 0 <= c < CLASS_COUNT ==> capacity[c] >= 1
    }

    constructor (capacity: seq<nat>)
      requires |capacity| == CLASS_COUNT && forall c {:trigger capacity[c]} :: 0 <= c < CLASS_COUNT ==> capacity[c] >= 1
      ensures Ok() && info == map[]
    {
      this.capacity := capacity;
      link, info, fullHead, fullTail, fulls := map[], map[], 0, 0, [];
      heads, lists := seq(CLASS_COUNT, _ => 0), seq(CLASS_COUNT, _ => []);
    }

    method InsertHead(c: nat, s: nat)
      requires WF(Now(), s) && s in info && !info[s].full && info[s].cls == c && c < CLASS_COUNT
      modifies this`link, this`heads, this`lists
      ensures WF(Now(), 0) && lists == old(lists)[c := [s] + old(lists)[c]]
    {
      hide Chained, Sorted;
      InsertKeeps(Now(), c, s);
      var head := heads[c];
      link := link[s := Link(head, 0)];
      if head != 0 { link := link[head := link[head].(prev := s)]; }
      heads := heads[c := s];
      lists := lists[c := [s] + lists[c]];
    }

    method Unlink(c: nat, s: nat, ghost i: nat)
      requires WF(Now(), 0) && c < CLASS_COUNT && i < |lists[c]| && lists[c][i] == s
      modifies this`link, this`heads, this`lists
      ensures WF(Now(), s) && lists == old(lists)[c := RemoveAt(old(lists)[c], i)]
    {
      hide Chained, Sorted;
      ListedLinks(Now(), 0, c, i);
      RemoveKeeps(Now(), c, i);
      var p, n := link[s].prev, link[s].next;
      if p != 0 { link := link[p := link[p].(next := n)]; } else { heads := heads[c := n]; }
      if n != 0 { link := link[n := link[n].(prev := p)]; }
      link := link[s := Link(0, 0)];
      lists := lists[c := RemoveAt(lists[c], i)];
    }

    method FullPushTail(s: nat)
      requires WF(Now(), s) && s in info
      modifies this`link, this`fullHead, this`fullTail, this`info, this`fulls
      ensures WF(Now(), 0) && info == old(info)[s := old(info)[s].(full := true)] && fulls == old(fulls) + [s]
    {
      hide Chained, Sorted;
      PushFullKeeps(Now(), s);
      link := link[s := Link(0, fullTail)];
      if fullTail != 0 { link := link[fullTail := link[fullTail].(next := s)]; } else { fullHead := s; }
      fullTail := s;
      info := info[s := info[s].(full := true)];
      fulls := fulls + [s];
    }

    method FullUnlink(s: nat, ghost i: nat)
      requires WF(Now(), 0) && i < |fulls| && fulls[i] == s && s in info
      modifies this`link, this`fullHead, this`fullTail, this`info, this`fulls
      ensures WF(Now(), s) && info == old(info)[s := old(info)[s].(full := false)] && fulls == RemoveAt(old(fulls), i)
    {
      hide Chained, Sorted;
      FullLinks(Now(), 0, i);
      PopFullKeeps(Now(), i);
      var p, n := link[s].prev, link[s].next;
      if p != 0 { link := link[p := link[p].(next := n)]; } else { fullHead := n; }
      if n != 0 { link := link[n := link[n].(prev := p)]; } else { fullTail := p; }
      link := link[s := Link(0, 0)];
      info := info[s := info[s].(full := false)];
      fulls := RemoveAt(fulls, i);
    }

    /** span_drain_remote: `arrived` blocks had been freed by other threads. */
    method Drain(s: nat, arrived: nat) returns (n: nat)
      requires WF(Now(), 0) && s in info
      modifies this`info
      ensures WF(Now(), 0)
      ensures n == (if arrived < old(info)[s].used then arrived else old(info)[s].used)
      ensures var i := old(info)[s]; info == old(info)[s := i.(free := i.free + n, used := i.used - n)]
    {
      hide Chained, Sorted;
      var i := info[s];
      n := if arrived < i.used then arrived else i.used;
      RecountKeeps(Now(), 0, s, i.(free := i.free + n, used := i.used - n));
      info := info[s := i.(free := i.free + n, used := i.used - n)];
    }

    /** Hands out a block of the first span of the class. The program would move the span to the
        front if it were not there; it always is. */
    method Take(c: nat, s: nat)
      requires Ok() && c < CLASS_COUNT && s != 0 && heads[c] == s && s in info && !info[s].full && CanGive(info[s])
      modifies this`info
      ensures Ok() && info == old(info)[s := Took(old(info)[s])]
    {
      hide Chained, Sorted, DataOk;
      var i := info[s];
      CountsOf(info, s);
      RecountKeeps(Now(), 0, s, Took(i));
      DataUpdate(info, s, Took(i), 0);
      if i.free > 0 {
        info := info[s := i.(free := i.free - 1)];
      } else {
        info := info[s := i.(bump := i.bump + 1)];
      }
      if heads[c] != s {
        assert false;
      }
      info := info[s := info[s].(used := info[s].used + 1)];
      assert info == old(info)[s := Took(i)];
    }

    /** The first span of the class has nothing left: it moves to the list of full spans. */
    method Retire(c: nat, s: nat) returns (next: nat)
      requires Ok() && c < CLASS_COUNT && lists[c] != [] && lists[c][0] == s && s in info && !CanGive(info[s])
      modifies this
      ensures Ok() && lists == old(lists)[c := old(lists)[c][1..]] && fulls == old(fulls) + [s]
      ensures info == old(info)[s := old(info)[s].(full := true)] && next == heads[c]
    {
      hide Chained, Sorted, DataOk;
      CountsOf(info, s);
      DataUpdate(info, s, info[s].(full := true), 0);
      ListedLinks(Now(), 0, c, 0);
      RemovedEnds(lists[c], 0);
      assert RemoveAt(lists[c], 0) == lists[c][1..];
      next := link[s].next;
      Unlink(c, s, 0);
      HeadIsFirst(Now(), s, c);
      FullPushTail(s);
    }

    /** Looks at the first span of the class: it serves, perhaps after a drain, or it is retired. */
    method TryFirst(c: nat, s: nat, arrived: nat) returns (served: bool)
      requires Ok() && c < CLASS_COUNT && s != 0 && s == heads[c]
      modifies this
      ensures Ok() && info.Keys == old(info).Keys && s in info
      ensures served <==> Serves(old(info)[s], arrived)
      ensures served ==> s in old(info) && GaveOne(old(info)[s], info[s], arrived)
      ensures old(lists)[c] != [] && lists == if served then old(lists) else old(lists)[c := old(lists)[c][1..]]
      ensures fulls == if served then old(fulls) else old(fulls) + [s]
      ensures info == old(info)[s := AfterLook(old(info)[s], arrived)]
      ensures Stable(old(info), info, if served then s else 0)
    {
      hide Chained, Sorted, Stable, DataOk;
      ListedIsKnown(Now(), c);
      var i := info[s];
      CountsOf(info, s);
      StableUpdate(info, s, AfterLook(i, arrived), if Serves(i, arrived) then s else 0);
      if CanGive(i) {
        Take(c, s);
        return true;
      }
      var n := Drain(s, arrived);
      if n == 0 {
        assert info == old(info);
        var next := Retire(c, s);
        return false;
      }
      assert info[s] == Drained(i, arrived);
      DataUpdate(old(info), s, info[s], 0);
      Take(c, s);
      assert info == old(info)[s := Took(Drained(i, arrived))];
      return true;
    }

    /** Spans of the class that can still give a block: until one is found, the exhausted ones are
        retired. */
    method ScanClass(c: nat, arrives: nat -> nat) returns (r: nat)
      requires Ok() && c < CLASS_COUNT
      modifies this
      ensures Ok() && info.Keys == old(info).Keys && Stable(old(info), info, r)
      ensures if r == 0 then lists[c] == [] else r in info && heads[c] == r && lists[c] != [] && lists[c][0] == r
      ensures var xs := old(lists)[c]; var n := FirstServing(old(info), xs, arrives, 0);
        && r == (if n < |xs| then xs[n] else 0)
        && (n < |xs| ==> r in old(info) && GaveOne(old(info)[r], info[r], arrives(n)))
        && lists == old(lists)[c := xs[n..]] && fulls == old(fulls) + xs[..n]
      ensures r == 0 ==> OnlyRetired(old(info), info)
    {
      hide Chained, Sorted, Stable, DataOk, AfterLook, Serves, Distinct, Dll, FirstServing, Scanning;
      HeadIsFirst(Now(), 0, c);
      ScanStarts(Now(), c, arrives);
      ghost var xs, gone: seq<nat>, rest := lists[c], [], lists[c];
      var s, k := heads[c], 0;
      assert lists[c := rest] == lists;
      while s != 0
        invariant Ok() && s == heads[c] == First(rest) && (s == 0 <==> rest == [])
        invariant lists == old(lists)[c := rest] && fulls == old(fulls) + gone && |gone| == k
        invariant Scanning(old(info), info, xs, gone, rest, arrives)
        invariant OnlyRetired(old(info), info)
        decreases |rest|
      {
        ghost var was := info;
        var served := TryFirst(c, s, arrives(k));
        HeadIsFirst(Now(), 0, c);
        if served {
          ScanServes(old(info), was, info, xs, gone, rest, arrives);
          return s;
        }
        UpdateTwice(old(lists), c, rest, rest[1..]);
        NotServed(was[s], arrives(k));
        OneMoreRetired(old(info), was, s);
        ScanGoesOn(old(info), was, info, xs, gone, rest, arrives);
        gone, rest := gone + [s], rest[1..];
        k := k + 1;
        s := heads[c];
      }
      ScanFails(old(info), info, xs, gone, arrives);
      return 0;
    }

    /** Looks at the first full span: drained blocks bring it back to its class, and serve if it is
        the class wanted; without any it goes to the end of the full list. */
    method TryFull(c: nat, fs: nat, arrived: nat) returns (served: bool)
      requires Ok() && c < CLASS_COUNT && lists[c] == [] && fs != 0 && fs == fullHead
      modifies this
      ensures Ok() && info.Keys == old(info).Keys && fs in info
      ensures served <==> arrived > 0 && old(info)[fs].cls == c
      ensures served ==> fs in old(info) && GaveOne(old(info)[fs], info[fs], arrived)
      ensures info == if arrived == 0 then old(info) else
                var i := Drained(old(info)[fs], arrived).(full := false); old(info)[fs := if served then Took(i) else i]
      ensures var d := old(info)[fs].cls;
        d < CLASS_COUNT && lists == if arrived == 0 then old(lists) else old(lists)[d := [fs] + old(lists)[d]]
      ensures old(fulls) != [] && fulls == old(fulls)[1..] + if arrived == 0 then [fs] else []
      ensures served ==> heads[c] == fs
      ensures Stable(old(info), info, if served then fs else 0)
    {
      hide Chained, Sorted, Stable, DataOk;
      FullIsKnown(Now());
      ClassInRange(Now(), fs);
      var i := info[fs];
      CountsOf(info, fs);
      StableSelf(info);
      var n := Drain(fs, arrived);
      DataUpdate(old(info), fs, info[fs], fs);
      if n == 0 {
        assert info == old(info);
        if fullTail != fs { Rotate(fs); } else { AloneInFulls(Now()); }
        return false;
      }
      ghost var drained := Drained(i, arrived).(full := false);
      Revive(fs, 0);
      assert info == old(info)[fs := drained];
      assert RemoveAt(old(fulls), 0) == old(fulls)[1..] + [];
      if info[fs].cls != c {
        StableUpdate(old(info), fs, drained, 0);
        return false;
      }
      Take(c, fs);
      assert info == old(info)[fs := Took(drained)];
      StableUpdate(old(info), fs, Took(drained), fs);
      return true;
    }

    /** Up to two full spans, in turn, are drained in the hope of blocks freed by other threads. */
    method ScanFull(c: nat, arrives: nat -> nat) returns (r: nat)
      requires Ok() && c < CLASS_COUNT && lists[c] == []
      modifies this
      ensures Ok() && info.Keys == old(info).Keys && Stable(old(info), info, r)
      ensures r == FullServing(old(info), old(fulls), c, arrives)
      ensures r != 0 ==> r in old(info) && exists back: nat {:trigger GaveOne(old(info)[r], info[r], back)} :: GaveOne(old(info)[r], info[r], back)
      ensures if r == 0 then lists[c] == [] else r in info && heads[c] == r && lists[c] == [r]
    {
      hide Chained, Sorted, Stable, DataOk, Dll, Distinct;
      StableSelf(info);
      FullsAreDistinct(Now());
      var start := 0;
      for k := 0 to FULL_SCAN
        invariant Ok() && lists[c] == [] && info.Keys == old(info).Keys && Stable(old(info), info, 0)
        invariant k == 0 ==> info == old(info) && fulls == old(fulls) && start == 0
        invariant k == 1 ==> old(fulls) != [] && start == old(fulls)[0] && !Hits(old(info), start, c, arrives(0))
        invariant k == 1 ==> fulls == old(fulls)[1..] || fulls == old(fulls)[1..] + [start]
        invariant k == 1 && |old(fulls)| > 1 ==> old(fulls)[1] in old(info) && info[old(fulls)[1]] == old(info)[old(fulls)[1]]
        invariant k == 2 ==> FullServing(old(info), old(fulls), c, arrives) == 0
      {
        var fs := fullHead;
        FullHeadIsFirst(Now());
        FullIsKnown(Now());
        if k == 1 { OnlyOneFull(old(fulls), fulls); }
        if fs == 0 || fs == start { break; }
        if start == 0 { start := fs; }
        ghost var was := info;
        var served := TryFull(c, fs, arrives(k));
        StableTwice(old(info), was, info, if served then fs else 0);
        if served { return fs; }
        if k == 0 && |old(fulls)| > 1 { assert old(fulls)[1] != fs && old(fulls)[1] in old(fulls); }
      }
      return 0;
    }

    /** A full span without news goes to the end of the full list. */
    method Rotate(s: nat)
      requires Ok() && fulls != [] && fulls[0] == s && s in info && info[s].full
      modifies this
      ensures Ok() && info == old(info) && lists == old(lists) && fulls == old(fulls)[1..] + [s]
    {
      hide Chained, Sorted;
      FullUnlink(s, 0);
      FullPushTail(s);
      assert info == old(info);
    }

    /** memop_refill. `created` is the span that span_create makes, 0 when there is no chunk;
        `arrives` and `again` are what the drains of the two scans find. The span that serves is
        the first of its class that can, or else one of the first two full spans if blocks of it
        came back; it is then the first of its class. New memory is taken only when neither serves,
        and then every other span of the class is full. */
    method Refill(c: nat, arrives: nat -> nat, again: nat -> nat, created: nat) returns (r: nat)
      requires Ok() && c < CLASS_COUNT && created !in info
      modifies this
      ensures Ok() && Stable(old(info), info, r)
      ensures Served(old(info), old(lists)[c], old(fulls), c, arrives, again, created, r, lists[c], fulls)
      ensures var xs := old(lists)[c]; var n := FirstServing(old(info), xs, arrives, 0);
        && (n < |xs| ==> r == xs[n] && lists == old(lists)[c := xs[n..]] && fulls == old(fulls) + xs[..n])
        && (n == |xs| ==>
              var f := FullServing(old(info), old(fulls) + xs, c, again);
              r == if f != 0 then f else created)
      ensures r == 0 ==> created == 0 && lists[c] == []
      ensures r == 0 || r == created ==> forall s {:trigger info[s]} :: s in info && s != r && info[s].cls == c ==> info[s].full
      ensures r != 0 ==> r in info && heads[c] == r && lists[c] != [] && lists[c][0] == r
      ensures r != 0 && r != created ==>
                r in old(info) && exists back: nat {:trigger GaveOne(old(info)[r], info[r], back)} :: GaveOne(old(info)[r], info[r], back)
      ensures r != 0 && r == created ==> info[r] == Info(c, false, 0, 1, 1, capacity[c])
      ensures r != created ==> info.Keys == old(info).Keys
      ensures r != 0 && r == created ==> lists[c] == [r] && info.Keys == old(info).Keys + {r} && info[r].bump == info[r].used == 1
    {
      hide Chained, Sorted, Stable, DataOk, FirstServing, Dll, Distinct, Served, GaveOne, FullServing, OnlyRetired;
      ghost var h := Now();
      r := ScanClass(c, arrives);
      if r != 0 {
        ChoiceIsServed(h, c, arrives, again, created, r, lists[c], fulls);
        return;
      }
      ghost var was := info;
      SameServing(old(info), info, fulls, c, again);
      ghost var mid0 := Now();
      r := ScanFull(c, again);
      assert mid0.fulls == h.fulls + h.lists[c] by { assert h.lists[c][..|h.lists[c]|] == h.lists[c]; }
      if r != 0 { FullGave(mid0, h.info, c, again, r, info[r]); }
      StableTwice(old(info), was, info, r);
      if r == 0 { AloneMeansOthersFull(Now(), c, 0); }
      if r != 0 || created == 0 {
        ChoiceIsServed(h, c, arrives, again, created, r, lists[c], fulls);
        return;
      }
      ghost var before := info;
      r := created;
      Adopt(c, r);
      StableNew(before, r, info[r]);
      StableTwice(old(info), before, info, 0);
      ghost var mid := info;
      StableUpdate(mid, r, Took(mid[r]), r);
      Take(c, r);
      StableTwice(old(info), mid, info, r);
      AloneMeansOthersFull(Now(), c, r);
      ChoiceIsServed(h, c, arrives, again, created, r, lists[c], fulls);
    }

    /** The header of a new span, and the span at the front of its class. */
    method Adopt(c: nat, s: nat)
      requires Ok() && c < CLASS_COUNT && s != 0 && s !in info
      modifies this
      ensures Ok() && info == old(info)[s := Info(c, false, 0, 0, 0, capacity[c])]
      ensures lists == old(lists)[c := [s] + old(lists)[c]] && heads[c] == s
    {
      hide Chained, Sorted;
      AdoptSorted(Now(), s, Info(c, false, 0, 0, 0, capacity[c]));
      DataUpdate(info, s, Info(c, false, 0, 0, 0, capacity[c]), 0);
      link := link[s := Link(0, 0)];
      info := info[s := Info(c, false, 0, 0, 0, capacity[c])];
      InsertHead(c, s);
      HeadIsFirst(Now(), 0, c);
    }

    /** The small path of memop_alloc_raw: as the refill, and a first span with a block of its own
        serves at once and moves nothing. */
    method Alloc(c: nat, arrives: nat -> nat, again: nat -> nat, created: nat) returns (r: nat)
      requires Ok() && c < CLASS_COUNT && created !in info
      modifies this
      ensures Ok() && Stable(old(info), info, r)
      ensures Served(old(info), old(lists)[c], old(fulls), c, arrives, again, created, r, lists[c], fulls)
      ensures var xs := old(lists)[c]; var n := FirstServing(old(info), xs, arrives, 0);
        && (n < |xs| ==> r == xs[n] && lists == old(lists)[c := xs[n..]] && fulls == old(fulls) + xs[..n])
        && (n == |xs| ==>
              var f := FullServing(old(info), old(fulls) + xs, c, again);
              r == if f != 0 then f else created)
      ensures r == 0 ==> created == 0 && lists[c] == []
      ensures r != 0 ==> r in info && heads[c] == r && lists[c] != [] && lists[c][0] == r
      ensures r != 0 && r != created ==>
                r in old(info) && exists back: nat {:trigger GaveOne(old(info)[r], info[r], back)} :: GaveOne(old(info)[r], info[r], back)
      ensures r != 0 && r == created ==> info[r] == Info(c, false, 0, 1, 1, capacity[c])
      ensures old(lists)[c] != [] && old(lists)[c][0] in old(info) && CanGive(old(info)[old(lists)[c][0]]) ==>
                r == old(lists)[c][0] && lists == old(lists) && info == old(info)[r := Took(old(info)[r])]
    {
      hide Chained, Sorted, DataOk, Dll, Distinct, FirstServing, Stable, Served, FullServing;
      ghost var h := Now();
      HeadIsFirst(Now(), 0, c);
      var s := heads[c];
      if s != 0 {
        ListedIsKnown(Now(), c);
        if CanGive(info[s]) {
          ServingStep(info, lists[c], arrives, 0);
          StableUpdate(info, s, Took(info[s]), s);
          Take(c, s);
          assert lists[c][0..] == lists[c] && lists[c := lists[c]] == lists && fulls + lists[c][..0] == fulls;
          ChoiceIsServed(h, c, arrives, again, created, s, lists[c], fulls);
          assert GaveOne(h.info[s], info[s], 0);
          return s;
        }
      }
      r := Refill(c, arrives, again, created);
    }

    /** The local branch of memop_free_raw. A full span becomes available at the front of its class;
        an empty span that is not the only one of its class is given back. */
    method FreeLocal(s: nat) returns (released: bool)
      requires Ok() && s in info && info[s].used > 0
      modifies this
      ensures Ok()
      ensures released <==> !old(info)[s].full && old(info)[s].used == 1 && |old(lists)[old(info)[s].cls]| >= 2
      ensures released ==> s !in info && info == old(info) - {s}
      ensures !released ==> var i := old(info)[s];
                info == old(info)[s := i.(full := false, free := i.free + 1, used := i.used - 1)]
      ensures old(info)[s].full ==> lists == old(lists)[info[s].cls := [s] + old(lists)[info[s].cls]]
    {
      hide Chained, Sorted, DataOk;
      ClassInRange(Now(), s);
      var i := info[s];
      CountsOf(info, s);
      RecountKeeps(Now(), 0, s, i.(free := i.free + 1, used := i.used - 1));
      DataUpdate(info, s, i.(free := i.free + 1, used := i.used - 1), s);
      info := info[s := i.(free := i.free + 1, used := i.used - 1)];
      if i.full {
        ghost var at := FullIndex(Now(), s);
        Revive(s, at);
        return false;
      }
      DataUpdate(old(info), s, info[s], 0);
      ghost var at := ListIndex(Now(), s);
      ListedLinks(Now(), 0, i.cls, at);
      if info[s].used == 0 && (link[s].prev != 0 || link[s].next != 0) {
        GiveBack(s, at);
        assert info == old(info) - {s};
        return true;
      }
      return false;
    }

    /** A full span with a block again goes back to the front of its class. */
    method Revive(s: nat, ghost at: nat)
      requires WF(Now(), 0) && DataOk(info, s) && at < |fulls| && fulls[at] == s && s in info
      requires |capacity| == CLASS_COUNT && forall c {:trigger capacity[c]} :: 0 <= c < CLASS_COUNT ==> capacity[c] >= 1
      modifies this
      ensures Ok() && info == old(info)[s := old(info)[s].(full := false)] && info[s].cls < CLASS_COUNT
      ensures fulls == RemoveAt(old(fulls), at)
      ensures var c := info[s].cls; lists == old(lists)[c := [s] + old(lists)[c]] && heads[c] == s
    {
      hide Chained, Sorted, DataOk;
      ClassInRange(Now(), s);
      AvailableIsOk(info, s);
      FullUnlink(s, at);
      InsertHead(info[s].cls, s);
      HeadIsFirst(Now(), 0, info[s].cls);
    }

    /** An empty span leaves its class and the heap. */
    method GiveBack(s: nat, ghost at: nat)
      requires Ok() && s in info && !info[s].full && info[s].cls < CLASS_COUNT
      requires at < |lists[info[s].cls]| && lists[info[s].cls][at] == s
      modifies this
      ensures Ok() && info == old(info) - {s}
      ensures lists == old(lists)[old(info)[s].cls := RemoveAt(old(lists)[old(info)[s].cls], at)]
    {
      hide Chained, Sorted, DataOk;
      WithoutIsOk(info, s);
      Unlink(info[s].cls, s, at);
      DropKeeps(Now(), s);
      info := info - {s};
      link := link - {s};
    }

    /** The chunk of the first remaining span is given back; `hs` are the class heads to be. */
    method Discard(s: nat, ghost rest: seq<nat>, ghost hs: seq<nat>)
      requires WF(Except(Now().(heads := hs), Elems(rest)), 0) && Nexts(link, rest) && rest != [] && rest[0] == s
      modifies this`link, this`info
      ensures WF(Except(Now().(heads := hs), Elems(rest[1..])), 0) && Nexts(link, rest[1..])
      ensures info == old(info) - {s}
    {
      hide Chained, Sorted, Nexts, Elems, Distinct, Dll;
      NextsDistinct(link, rest);
      GiveBackStep(Now().(heads := hs), rest);
      NullIsNoSpan(link, rest);
      RestFrame(link, link - {s}, rest, 0);
      info := info - {s};
      link := link - {s};
    }

    /** The first remaining span goes to the front of the new list of its class. */
    method Relink(c: nat, s: nat, kept: nat, i: Info, ghost rest: seq<nat>)
      requires c < |heads| == |lists| == CLASS_COUNT
      requires WF(Except(Now().(heads := heads[c := kept]), Elems(rest)), 0) && Nexts(link, rest) && rest != [] && rest[0] == s
      requires s in info && i.cls == c && !i.full
      modifies this`link, this`info, this`lists
      ensures |lists| == CLASS_COUNT
      ensures WF(Except(Now().(heads := heads[c := s]), Elems(rest[1..])), 0) && Nexts(link, rest[1..])
      ensures info == old(info)[s := i]
    {
      hide Chained, Sorted, Nexts, Elems, Distinct, Dll, Except;
      ghost var h, was := Now().(heads := heads[c := kept]), link;
      NextsStep(link, rest);
      NextsDistinct(link, rest);
      KeepStep(h, rest, c, i);
      info := info[s := i];
      link := link[s := Link(kept, 0)];
      if kept != 0 { link := link[kept := link[kept].(prev := s)]; }
      lists := lists[c := [s] + lists[c]];
      assert heads[c := kept][c := s] == heads[c := s];
      assert Now().(heads := heads[c := s]) == Inserted(h.(info := h.info[s := i]), c, s);
      NullIsNoSpan(was, rest);
      RestFrame(was, link, rest, kept);
    }

    /** The first remaining span goes to the end of the new full list. */
    method RelinkFull(s: nat, i: Info, ghost rest: seq<nat>)
      requires WF(Except(Now(), Elems(rest)), 0) && Nexts(link, rest) && rest != [] && rest[0] == s
      requires s in info && i.cls < CLASS_COUNT && i.full
      modifies this`link, this`info, this`fullHead, this`fullTail, this`fulls
      ensures WF(Except(Now(), Elems(rest[1..])), 0) && Nexts(link, rest[1..])
      ensures info == old(info)[s := i]
    {
      hide Chained, Sorted, Nexts, Elems, Distinct, Dll, Except;
      ghost var h, was, tail := Now(), link, fullTail;
      NextsStep(link, rest);
      NextsDistinct(link, rest);
      KeepFullStep(h, rest, i);
      info := info[s := i];
      link := link[s := Link(0, fullTail)];
      if fullTail != 0 { link := link[fullTail := link[fullTail].(next := s)]; } else { fullHead := s; }
      fullTail := s;
      fulls := fulls + [s];
      assert i.(full := true) == i;
      assert Now() == PushedFull(h.(info := h.info[s := i]), s);
      NullIsNoSpan(was, rest);
      RestFrame(was, link, rest, tail);
    }

    /** memop_on_ended_thread, one class: spans whose blocks have all come back are given back, the
        others are relinked. `arrived` is what each drain finds. */
    method EndClass(c: nat, arrived: nat -> nat)
      requires WF(Now(), 0) && c < CLASS_COUNT
      modifies this
      ensures WF(Now(), 0) && Ended(old(info), info, Elems(old(lists)[c]), arrived)
    {
      hide Chained, Sorted, Nexts, Ended, Elems, Distinct, Drained, Dll, Except;
      EmptyClass(Now(), c);
      NothingDone(info, Elems(lists[c]), arrived);
      ListedAreOfClass(Now(), c);
      ghost var rest := lists[c];
      var s, kept := heads[c], 0;
      HeadIsFirst(Now(), 0, c);
      heads := heads[c := 0];
      lists := lists[c := []];
      assert heads[c := kept] == heads;
      while s != 0
        invariant |heads| == |lists| == CLASS_COUNT
        invariant WF(Except(Now().(heads := heads[c := kept]), Elems(rest)), 0)
        invariant Nexts(link, rest) && s == First(rest) && (s == 0 <==> rest == [])
        invariant forall t {:trigger t in Elems(rest)} :: t in Elems(rest) ==> t in old(info) && t in info && !info[t].full && info[t].cls == c
        invariant Elems(rest) <= Elems(old(lists)[c]) && Ended(old(info), info, Elems(old(lists)[c]) - Elems(rest), arrived)
        decreases |rest|
      {
        NextsStep(link, rest);
        NextsDistinct(link, rest);
        ElemsStep(rest);
        var next := link[s].next;
        var i := Drained(info[s], arrived(s));
        EndedStep(old(info), info, Elems(old(lists)[c]), Elems(rest), s, arrived);
        if i.used == 0 {
          Discard(s, rest, heads[c := kept]);
        } else {
          Relink(c, s, kept, i, rest);
          kept := s;
        }
        rest := rest[1..];
        s := next;
        FirstIsZero(link, rest);
      }
      heads := heads[c := kept];
      AllDone(Now(), rest, Elems(old(lists)[c]));
    }

    /** The same for the list of full spans, whose order is kept. */
    method EndFull(arrived: nat -> nat)
      requires WF(Now(), 0)
      modifies this
      ensures WF(Now(), 0) && Ended(old(info), info, Elems(old(fulls)), arrived)
    {
      hide Chained, Sorted, Nexts, Ended, Elems, Distinct, Drained, Dll, Except;
      EmptyFull(Now());
      NothingDone(info, Elems(fulls), arrived);
      FullsInRange(Now());
      ghost var rest := fulls;
      var s := fullHead;
      FullHeadIsFirst(Now());
      fullHead, fullTail, fulls := 0, 0, [];
      while s != 0
        invariant WF(Except(Now(), Elems(rest)), 0)
        invariant Nexts(link, rest) && s == First(rest) && (s == 0 <==> rest == [])
        invariant forall t {:trigger t in Elems(rest)} :: t in Elems(rest) ==> t in old(info) && t in info && info[t].full && info[t].cls < CLASS_COUNT
        invariant Elems(rest) <= Elems(old(fulls)) && Ended(old(info), info, Elems(old(fulls)) - Elems(rest), arrived)
        decreases |rest|
      {
        NextsStep(link, rest);
        NextsDistinct(link, rest);
        ElemsStep(rest);
        var next := link[s].next;
        var i := Drained(info[s], arrived(s));
        EndedStep(old(info), info, Elems(old(fulls)), Elems(rest), s, arrived);
        if i.used == 0 {
          Discard(s, rest, heads);
        } else {
          RelinkFull(s, i, rest);
        }
        rest := rest[1..];
        s := next;
        FirstIsZero(link, rest);
      }
      AllDone(Now(), rest, Elems(old(fulls)));
    }

    /** memop_on_ended_thread: exactly the spans that no block of is in other hands are given back;
        the heap of the ended thread keeps the others, on well-formed lists. */
    method End(arrived: nat -> nat)
      requires WF(Now(), 0)
      modifies this
      ensures WF(Now(), 0)
      ensures forall s {:trigger s in old(info)} :: s in old(info) ==> (s in info <==> old(info)[s].used > arrived(s))
      ensures forall s {:trigger s in info} :: s in info ==> s in old(info) && info[s] == Drained(old(info)[s], arrived(s)) && info[s].used > 0
    {
      hide Chained, Sorted;
      ClassesInRange(Now());
      NothingEnded(info, arrived);
      for c := 0 to CLASS_COUNT
        invariant WF(Now(), 0)
        invariant Ended(old(info), info, OfClassesBelow(old(info), c), arrived)
      {
        ClassMembers(Now(), c);
        ghost var mid := info;
        EndClass(c, arrived);
        NextClass(old(info), mid, info, c, arrived);
      }
      FullMembers(Now());
      ghost var mid := info;
      EndFull(arrived);
      LastClass(old(info), mid, info, arrived);
    }
  }

  // ---------------------------------------------------------------- small facts about the lists

  lemma HeadIsFirst(h: Spans, off: nat, c: nat)
    requires WF(h, off) && c < CLASS_COUNT
    ensures h.heads[c] == First(h.lists[c]) && (h.heads[c] == 0 <==> h.lists[c] == [])
  {
    DllEmpty(h.link, h.lists[c]);
  }

  lemma ListedIsKnown(h: Spans, c: nat)
    requires WF(h, 0) && c < CLASS_COUNT && h.heads[c] != 0
    ensures h.lists[c] != [] && h.lists[c][0] == h.heads[c] && h.heads[c] in h.info
    ensures !h.info[h.heads[c]].full && h.info[h.heads[c]].cls == c
  {
    HeadIsFirst(h, 0, c);
    assert h.lists[c][0] in h.lists[c];
  }

  lemma FullIsKnown(h: Spans)
    requires WF(h, 0)
    ensures h.fullHead != 0 ==> h.fulls != [] && h.fulls[0] == h.fullHead && h.fullHead in h.info && h.info[h.fullHead].full
  {
    DllEmpty(h.link, h.fulls);
    if h.fulls != [] { assert h.fulls[0] in h.fulls; }
  }

  lemma AloneMeansOthersFull(h: Spans, c: nat, r: nat)
    requires WF(h, 0) && c < CLASS_COUNT && (h.lists[c] == [] || h.lists[c] == [r])
    ensures forall s {:trigger h.info[s]} :: s in h.info && s != r && h.info[s].cls == c ==> h.info[s].full
  {
    forall s | s in h.info && s != r && h.info[s].cls == c ensures h.info[s].full {
      assert s !in h.lists[c];
    }
  }

  lemma SameServing(was: map<nat, Info>, now: map<nat, Info>, fulls: seq<nat>, c: nat, arrives: nat -> nat)
    requires Stable(was, now, 0) && now.Keys == was.Keys
    ensures FullServing(was, fulls, c, arrives) == FullServing(now, fulls, c, arrives)
  {
    forall s | s in was ensures now[s].cls == was[s].cls {
      assert s in now && Kept(was[s], now[s], s == 0);
    }
  }

  lemma ClassIsDistinct(h: Spans, c: nat)
    requires WF(h, 0) && c < CLASS_COUNT
    ensures Distinct(h.lists[c]) && Untouched(h.info, h.info, h.lists[c])
  {
  }

  lemma FullsAreDistinct(h: Spans)
    requires WF(h, 0)
    ensures forall i, j :: 0 <= i < j < |h.fulls| ==> h.fulls[i] != h.fulls[j]
    ensures forall s {:trigger s in h.fulls} :: s in h.fulls ==> s in h.info
  {
  }

  lemma AloneInFulls(h: Spans)
    requires WF(h, 0) && h.fulls != [] && h.fullTail == h.fulls[0]
    ensures h.fulls == h.fulls[1..] + [h.fulls[0]]
  {
    assert Distinct(h.fulls);
  }

  /** After a first look that did not serve, the next full span is the second one, if there is one. */
  lemma OnlyOneFull(before: seq<nat>, now: seq<nat>)
    requires before != [] && (now == before[1..] || now == before[1..] + [before[0]])
    ensures |before| > 1 ==> now != [] && now[0] == before[1]
    ensures |before| == 1 ==> First(now) == 0 || First(now) == before[0]
  {
  }

  lemma {:induction false} FirstServingIs(info: map<nat, Info>, xs: seq<nat>, arrives: nat -> nat, k: nat)
    requires k <= |xs| && NoneBefore(info, xs, arrives, k) && forall s {:trigger s in xs} :: s in xs ==> s in info
    ensures var n := FirstServing(info, xs, arrives, k);
      NoneBefore(info, xs, arrives, n) && (n < |xs| ==> HasBlock(info, xs[n], arrives(n)))
    decreases |xs| - k
  {
    if k < |xs| {
      assert xs[k] in xs;
      if !Serves(info[xs[k]], arrives(k)) { FirstServingIs(info, xs, arrives, k + 1); }
    }
  }

  lemma OnlyOneIsFirst(info: map<nat, Info>, xs: seq<nat>, arrives: nat -> nat, m: nat, n: nat)
    requires m < |xs| && n <= |xs| && HasBlock(info, xs[m], arrives(m)) && (n < |xs| ==> HasBlock(info, xs[n], arrives(n)))
    requires NoneBefore(info, xs, arrives, m) && NoneBefore(info, xs, arrives, n)
    ensures m == n
  {
  }

  /** The choice that the functions compute is the one described. */
  lemma ChoiceIsServed(h: Spans, c: nat, arrives: nat -> nat, again: nat -> nat, created: nat, r: nat, xs': seq<nat>, fulls': seq<nat>)
    requires WF(h, 0) && c < CLASS_COUNT
    requires var xs := h.lists[c]; var n := FirstServing(h.info, xs, arrives, 0);
      && (n < |xs| ==> r == xs[n] && xs' == xs[n..] && fulls' == h.fulls + xs[..n])
      && (n == |xs| ==>
            var f := FullServing(h.info, h.fulls + xs, c, again);
            r == if f != 0 then f else created)
    ensures Served(h.info, h.lists[c], h.fulls, c, arrives, again, created, r, xs', fulls')
  {
    hide FirstServing, Dll, Distinct;
    var xs := h.lists[c];
    FirstServingIs(h.info, xs, arrives, 0);
    var n := FirstServing(h.info, xs, arrives, 0);
    forall m: nat | m < |xs| && HasBlock(h.info, xs[m], arrives(m)) && NoneBefore(h.info, xs, arrives, m) ensures m == n {
      OnlyOneIsFirst(h.info, xs, arrives, m, n);
    }
    assert 0 !in h.info;
  }

  lemma NotServed(i: Info, arrived: nat)
    ensures !Serves(i, arrived) ==> AfterLook(i, arrived) == i.(full := true)
  {
  }

  /** A full span that served after a drain gave what it would have before it was retired. */
  lemma FullGave(h: Spans, was: map<nat, Info>, c: nat, again: nat -> nat, r: nat, n: Info)
    requires WF(h, 0) && DataOk(h.info, 0) && OnlyRetired(was, h.info) && h.info.Keys == was.Keys
    requires r != 0 && r == FullServing(h.info, h.fulls, c, again)
    requires r in h.info && exists back: nat {:trigger GaveOne(h.info[r], n, back)} :: GaveOne(h.info[r], n, back)
    ensures r in was && exists back: nat {:trigger GaveOne(was[r], n, back)} :: GaveOne(was[r], n, back)
  {
    assert r in h.fulls && h.info[r].full;
    assert CountsOk(h.info[r], false);
    var back: nat :| GaveOne(h.info[r], n, back);
    GaveThough(was, h.info, r, n, back);
  }

  lemma GaveThough(was: map<nat, Info>, mid: map<nat, Info>, s: nat, n: Info, back: nat)
    requires OnlyRetired(was, mid) && s in was && s in mid && GaveOne(mid[s], n, back) && mid[s].full
    requires CountsOk(mid[s], false)
    ensures GaveOne(was[s], n, back)
  {
  }

  lemma ServingStep(info: map<nat, Info>, xs: seq<nat>, arrives: nat -> nat, k: nat)
    requires k <= |xs| && (k < |xs| ==> xs[k] in info)
    ensures FirstServing(info, xs, arrives, k) ==
            if k < |xs| && !Serves(info[xs[k]], arrives(k)) then FirstServing(info, xs, arrives, k + 1) else k
  {
  }

  /** The scan of `xs` has retired the spans `gone`; those of `rest` are as they were. */
  ghost predicate Scanning(was: map<nat, Info>, now: map<nat, Info>, xs: seq<nat>, gone: seq<nat>, rest: seq<nat>, arrives: nat -> nat) {
    && xs == gone + rest && Distinct(xs)
    && now.Keys == was.Keys && 0 !in was && Stable(was, now, 0) && Untouched(was, now, rest)
    && FirstServing(was, xs, arrives, 0) == FirstServing(was, xs, arrives, |gone|)
  }

  lemma ScanStarts(h: Spans, c: nat, arrives: nat -> nat)
    requires WF(h, 0) && c < CLASS_COUNT
    ensures Scanning(h.info, h.info, h.lists[c], [], h.lists[c], arrives)
  {
    ClassIsDistinct(h, c);
    StableSelf(h.info);
  }

  lemma ScanServes(orig: map<nat, Info>, was: map<nat, Info>, now: map<nat, Info>, xs: seq<nat>, gone: seq<nat>, rest: seq<nat>, arrives: nat -> nat)
    requires Scanning(orig, was, xs, gone, rest, arrives) && rest != [] && rest[0] in was
    requires Serves(was[rest[0]], arrives(|gone|)) && Stable(was, now, rest[0]) && now.Keys == was.Keys
    ensures var n := FirstServing(orig, xs, arrives, 0);
      n == |gone| && n < |xs| && xs[n] == rest[0] && xs[n..] == rest && xs[..n] == gone
    ensures rest[0] in orig && orig[rest[0]] == was[rest[0]]
    ensures Stable(orig, now, rest[0]) && now.Keys == orig.Keys
  {
    hide Stable, Serves;
    Cuts(xs, gone, rest);
    assert rest[0] in rest;
    ServingStep(orig, xs, arrives, |gone|);
    StableTwice(orig, was, now, rest[0]);
  }

  lemma ScanGoesOn(orig: map<nat, Info>, was: map<nat, Info>, now: map<nat, Info>, xs: seq<nat>, gone: seq<nat>, rest: seq<nat>, arrives: nat -> nat)
    requires Scanning(orig, was, xs, gone, rest, arrives) && rest != [] && rest[0] in was && rest[0] in now
    requires !Serves(was[rest[0]], arrives(|gone|)) && Stable(was, now, 0) && now == was[rest[0] := now[rest[0]]]
    ensures Scanning(orig, now, xs, gone + [rest[0]], rest[1..], arrives)
  {
    hide Stable, Serves;
    Cuts(xs, gone, rest);
    assert rest[0] in rest;
    ServingStep(orig, xs, arrives, |gone|);
    StableTwice(orig, was, now, 0);
    RestIsDistinct(gone, rest);
    KeepsUntouched(orig, was, now, rest);
    Shift(gone, rest);
  }

  lemma ScanFails(orig: map<nat, Info>, now: map<nat, Info>, xs: seq<nat>, gone: seq<nat>, arrives: nat -> nat)
    requires Scanning(orig, now, xs, gone, [], arrives)
    ensures FirstServing(orig, xs, arrives, 0) == |xs| && xs == gone && xs[|xs|..] == [] && xs[..|xs|] == gone
    ensures Stable(orig, now, 0) && now.Keys == orig.Keys
  {
    Cuts(xs, gone, []);
  }

  lemma KeepsUntouched(was: map<nat, Info>, mid: map<nat, Info>, now: map<nat, Info>, rest: seq<nat>)
    requires rest != [] && Distinct(rest) && Untouched(was, mid, rest) && rest[0] in now && now == mid[rest[0] := now[rest[0]]]
    ensures Untouched(was, now, rest[1..])
  {
    forall s | s in rest[1..] ensures s in was && s in now && now[s] == was[s] {
      var i :| 1 <= i < |rest| && rest[i] == s;
      assert s in rest && s != rest[0];
    }
  }

  lemma RestIsDistinct(gone: seq<nat>, rest: seq<nat>)
    requires Distinct(gone + rest)
    ensures Distinct(rest)
  {
    var xs := gone + rest;
    forall i, j | 0 <= i < j < |rest| ensures rest[i] != rest[j] {
      assert xs[|gone| + i] == rest[i] && xs[|gone| + j] == rest[j];
    }
  }

  lemma UpdateTwice(l: seq<seq<nat>>, c: nat, a: seq<nat>, b: seq<nat>)
    requires c < |l|
    ensures l[c := a][c := b] == l[c := b] && l[c := a][c] == a
  {
  }

  lemma Cuts(xs: seq<nat>, gone: seq<nat>, rest: seq<nat>)
    requires xs == gone + rest
    ensures xs[|gone|..] == rest && xs[..|gone|] == gone && |xs| == |gone| + |rest|
    ensures rest != [] ==> xs[|gone|] == rest[0]
  {
  }

  lemma Shift(gone: seq<nat>, rest: seq<nat>)
    requires rest != []
    ensures gone + rest == (gone + [rest[0]]) + rest[1..]
  {
  }

  lemma ClassInRange(h: Spans, s: nat)
    requires WF(h, 0) && s in h.info
    ensures h.info[s].cls < CLASS_COUNT
  {
  }

  lemma FullIndex(h: Spans, s: nat) returns (at: nat)
    requires WF(h, 0) && s in h.info && h.info[s].full
    ensures at < |h.fulls| && h.fulls[at] == s
  {
    assert s in h.fulls;
    at :| at < |h.fulls| && h.fulls[at] == s;
  }

  lemma ListIndex(h: Spans, s: nat) returns (at: nat)
    requires WF(h, 0) && s in h.info && !h.info[s].full
    ensures h.info[s].cls < CLASS_COUNT && at < |h.lists[h.info[s].cls]| && h.lists[h.info[s].cls][at] == s
  {
    assert s in h.lists[h.info[s].cls];
    at :| at < |h.lists[h.info[s].cls]| && h.lists[h.info[s].cls][at] == s;
  }

  lemma DropKeeps(h: Spans, s: nat)
    requires WF(h, s) && s in h.info
    ensures WF(h.(link := h.link - {s}, info := h.info - {s}), 0)
  {
    var n := h.(link := h.link - {s}, info := h.info - {s});
    forall c: nat | c < CLASS_COUNT ensures Dll(n.link, n.lists[c]) {
      DllFrame(h.link, n.link, h.lists[c]);
    }
    DllFrame(h.link, n.link, h.fulls);
  }

  // ---------------------------------------------------------------- the end of a thread

  /** The spans of `R` have been drained, and given back when nothing was left outside. */
  ghost predicate Ended(was: map<nat, Info>, now: map<nat, Info>, R: set<nat>, arrived: nat -> nat) {
    && (forall s {:trigger s in now} {:trigger s in was} :: s in was ==>
          && (s in now <==> s !in R || !Empty(was[s], arrived(s)))
          && (s in now ==> now[s] == if s in R then Drained(was[s], arrived(s)) else was[s]))
    && (forall s {:trigger s in now} :: s in now ==> s in was)
  }

  lemma EndedStep(was: map<nat, Info>, now: map<nat, Info>, all: set<nat>, left: set<nat>, s: nat, arrived: nat -> nat)
    requires Ended(was, now, all - left, arrived) && s in was && s in left && left <= all
    ensures s in now && now[s] == was[s]
    ensures var i := Drained(was[s], arrived(s));
      Ended(was, if i.used == 0 then now - {s} else now[s := i], all - (left - {s}), arrived)
  {
    assert all - (left - {s}) == all - left + {s};
  }

  lemma NothingDone(info: map<nat, Info>, all: set<nat>, arrived: nat -> nat)
    ensures Ended(info, info, all - all, arrived)
  {
  }

  lemma AllDone(h: Spans, rest: seq<nat>, all: set<nat>)
    requires rest == []
    ensures Except(h, Elems(rest)) == h && all - Elems(rest) == all
  {
    assert Elems(rest) == {};
  }

  lemma NothingEnded(info: map<nat, Info>, arrived: nat -> nat)
    ensures Ended(info, info, OfClassesBelow(info, 0), arrived)
  {
  }

  /** The available spans of the first classes. */
  ghost function OfClassesBelow(info: map<nat, Info>, c: nat): set<nat> {
    set s | s in info && !info[s].full && info[s].cls < c
  }

  ghost function OfClass(info: map<nat, Info>, c: nat): set<nat> {
    set s | s in info && !info[s].full && info[s].cls == c
  }

  ghost function FullOnes(info: map<nat, Info>): set<nat> {
    set s | s in info && info[s].full
  }

  lemma NextClass(was: map<nat, Info>, mid: map<nat, Info>, now: map<nat, Info>, c: nat, arrived: nat -> nat)
    requires Ended(was, mid, OfClassesBelow(was, c), arrived)
    requires Ended(mid, now, OfClass(mid, c), arrived)
    ensures Ended(was, now, OfClassesBelow(was, c + 1), arrived)
  {
  }

  lemma LastClass(was: map<nat, Info>, mid: map<nat, Info>, now: map<nat, Info>, arrived: nat -> nat)
    requires Ended(was, mid, OfClassesBelow(was, CLASS_COUNT), arrived)
    requires Ended(mid, now, FullOnes(mid), arrived)
    requires forall s {:trigger was[s]} :: s in was ==> was[s].cls < CLASS_COUNT
    ensures forall s {:trigger s in was} :: s in was ==> (s in now <==> was[s].used > arrived(s))
    ensures forall s {:trigger s in now} :: s in now ==> s in was && now[s] == Drained(was[s], arrived(s)) && now[s].used > 0
  {
  }

  lemma ClassMembers(h: Spans, c: nat)
    requires WF(h, 0) && c < CLASS_COUNT
    ensures Elems(h.lists[c]) == OfClass(h.info, c)
  {
  }

  lemma FullMembers(h: Spans)
    requires WF(h, 0)
    ensures Elems(h.fulls) == FullOnes(h.info)
  {
  }

  lemma ClassesInRange(h: Spans)
    requires WF(h, 0)
    ensures forall s {:trigger h.info[s]} :: s in h.info ==> h.info[s].cls < CLASS_COUNT
  {
  }

  lemma ListedAreOfClass(h: Spans, c: nat)
    requires WF(h, 0) && c < CLASS_COUNT
    ensures forall t {:trigger t in Elems(h.lists[c])} :: t in Elems(h.lists[c]) ==> t in h.info && !h.info[t].full && h.info[t].cls == c
  {
  }

  lemma FullsInRange(h: Spans)
    requires WF(h, 0)
    ensures forall t {:trigger t in Elems(h.fulls)} :: t in Elems(h.fulls) ==> t in h.info && h.info[t].full && h.info[t].cls < CLASS_COUNT
  {
  }

  lemma FullHeadIsFirst(h: Spans)
    requires WF(h, 0)
    ensures h.fullHead == First(h.fulls) && (h.fullHead == 0 <==> h.fulls == [])
  {
    DllEmpty(h.link, h.fulls);
  }

  lemma FirstIsZero(link: map<nat, Link>, xs: seq<nat>)
    requires Nexts(link, xs)
    ensures First(xs) == 0 <==> xs == []
  {
  }

  lemma NextsDistinct(link: map<nat, Link>, xs: seq<nat>)
    requires Nexts(link, xs)
    ensures Distinct(xs)
  {
  }
}
