/** Lists taken apart span by span, as a thread does with its heap when it ends. */
module SpanEnd {
  import opened LinkedSpans
  import opened SpanLists

  function Elems(xs: seq<nat>): set<nat> {
    set x | x in xs
  }

  lemma ElemsStep(xs: seq<nat>)
    requires xs != [] && Distinct(xs)
    ensures Elems(xs[1..]) == Elems(xs) - {xs[0]} && xs[0] in Elems(xs) && Distinct(xs[1..])
  {
    assert xs == [xs[0]] + xs[1..];
  }

  /** The heap without the spans of `R`. */
  function Except(h: Spans, R: set<nat>): Spans {
    h.(link := h.link - R, info := h.info - R)
  }

  /** The next words still lead through the list; the prev words may be stale. */
  ghost predicate Nexts(link: map<nat, Link>, xs: seq<nat>) {
    Distinct(xs) && forall i: nat {:trigger xs[i]} :: i < |xs| ==> xs[i] != 0 && xs[i] in link && link[xs[i]].next == After(xs, i)
  }

  lemma DllHasNexts(link: map<nat, Link>, xs: seq<nat>)
    requires Dll(link, xs)
    ensures Nexts(link, xs)
  {
    forall i: nat | i < |xs| ensures xs[i] != 0 && xs[i] in link && link[xs[i]].next == After(xs, i) {
      Neighbours(link, xs, i);
    }
  }

  lemma NextsFrame(a: map<nat, Link>, b: map<nat, Link>, xs: seq<nat>)
    requires Nexts(a, xs) && SameOn(a, b, xs)
    ensures Nexts(b, xs)
  {
    forall i: nat | i < |xs| ensures xs[i] != 0 && xs[i] in b && b[xs[i]].next == After(xs, i) {
      assert xs[i] in xs;
    }
  }

  lemma NextsStep(link: map<nat, Link>, xs: seq<nat>)
    requires Nexts(link, xs) && xs != []
    ensures xs[0] != 0 && xs[0] in link && link[xs[0]].next == First(xs[1..]) && Nexts(link, xs[1..])
  {
    var ys := xs[1..];
    assert xs[0] in link;
    forall i: nat | i < |ys| ensures ys[i] != 0 && ys[i] in link && link[ys[i]].next == After(ys, i) {
      assert ys[i] == xs[i + 1];
    }
  }

  /** Changes at the first span and at one outside the list do not concern the rest. */
  lemma RestFrame(a: map<nat, Link>, b: map<nat, Link>, xs: seq<nat>, k: nat)
    requires Nexts(a, xs) && xs != [] && k !in Elems(xs[1..])
    requires forall t {:trigger t in a} {:trigger t in b} :: t in a && t != xs[0] && t != k ==> t in b && b[t] == a[t]
    ensures Nexts(b, xs[1..])
  {
    NextsStep(a, xs);
    var ys := xs[1..];
    forall s | s in ys ensures s in a && s in b && a[s] == b[s] {
      var i: nat :| i < |ys| && ys[i] == s;
      assert ys[i] == xs[i + 1] != xs[0];
      assert s in Elems(ys);
    }
    NextsFrame(a, b, ys);
  }

  lemma NullIsNoSpan(link: map<nat, Link>, xs: seq<nat>)
    requires Nexts(link, xs)
    ensures 0 !in Elems(xs) && (xs != [] ==> Elems(xs[1..]) <= Elems(xs))
  {
    if xs != [] { assert xs == [xs[0]] + xs[1..]; }
  }

  lemma KeepsChain(a: map<nat, Link>, R: set<nat>, xs: seq<nat>)
    requires Dll(a, xs) && forall s {:trigger s in xs} :: s in xs ==> s !in R
    ensures Dll(a - R, xs)
  {
    forall s | s in xs ensures s in a && s in a - R && a[s] == (a - R)[s] {
      var i: nat :| i < |xs| && xs[i] == s;
      Neighbours(a, xs, i);
    }
    DllFrame(a, a - R, xs);
  }

  /** The heap with the list of class `c` emptied, but for the spans that were on it. */
  lemma EmptyClass(h: Spans, c: nat)
    requires WF(h, 0) && c < CLASS_COUNT
    ensures WF(Except(h.(heads := h.heads[c := 0], lists := h.lists[c := []]), Elems(h.lists[c])), 0)
    ensures Nexts(h.link, h.lists[c])
    ensures forall s {:trigger s in Elems(h.lists[c])} :: s in Elems(h.lists[c]) <==> s in h.info && !h.info[s].full && h.info[s].cls == c
  {
    hide Dll;
    var R := Elems(h.lists[c]);
    var n := Except(h.(heads := h.heads[c := 0], lists := h.lists[c := []]), R);
    DllHasNexts(h.link, h.lists[c]);
    forall d: nat | d < CLASS_COUNT ensures Dll(n.link, n.lists[d]) {
      if d == c { NoSpans(n.link); } else { KeepsChain(h.link, R, h.lists[d]); }
    }
    KeepsChain(h.link, R, h.fulls);
    forall d: nat, t | d < CLASS_COUNT ensures t in n.lists[d] <==> t in n.info && t != 0 && !n.info[t].full && n.info[t].cls == d {
      assert t in h.lists[d] <==> t in h.info && t != 0 && !h.info[t].full && h.info[t].cls == d;
      assert t in h.lists[c] <==> t in h.info && t != 0 && !h.info[t].full && h.info[t].cls == c;
    }
  }

  lemma NoSpans(link: map<nat, Link>)
    ensures Dll(link, [])
  {
  }

  /** The heap with the full list emptied, but for the spans that were on it. */
  lemma EmptyFull(h: Spans)
    requires WF(h, 0)
    ensures WF(Except(h.(fullHead := 0, fullTail := 0, fulls := []), Elems(h.fulls)), 0)
    ensures Nexts(h.link, h.fulls)
    ensures forall s {:trigger s in Elems(h.fulls)} :: s in Elems(h.fulls) <==> s in h.info && h.info[s].full
  {
    hide Dll;
    var R := Elems(h.fulls);
    var n := Except(h.(fullHead := 0, fullTail := 0, fulls := []), R);
    DllHasNexts(h.link, h.fulls);
    NoSpans(n.link);
    forall d: nat | d < CLASS_COUNT ensures Dll(n.link, n.lists[d]) {
      KeepsChain(h.link, R, h.lists[d]);
    }
    forall d: nat, t | d < CLASS_COUNT ensures t in n.lists[d] <==> t in n.info && t != 0 && !n.info[t].full && n.info[t].cls == d {
      assert t in h.lists[d] <==> t in h.info && t != 0 && !h.info[t].full && h.info[t].cls == d;
    }
  }

  // ---------------------------------------------------------------- one span

  /** The words of a span after its drain at the end of its thread. */
  function Drained(i: Info, arrived: nat): (r: Info)
    ensures r.cls == i.cls && r.full == i.full
  {
    var n := if arrived < i.used then arrived else i.used;
    i.(free := i.free + n, used := i.used - n)
  }

  /** Nothing is left in other hands. */
  predicate Empty(i: Info, arrived: nat) {
    i.used <= arrived
  }

  /** Giving the first remaining span back changes nothing for the others. */
  lemma GiveBackStep(h: Spans, rest: seq<nat>)
    requires rest != [] && Distinct(rest)
    ensures Except(h.(link := h.link - {rest[0]}, info := h.info - {rest[0]}), Elems(rest[1..])) == Except(h, Elems(rest))
  {
    ElemsStep(rest);
    assert h.link - {rest[0]} - Elems(rest[1..]) == h.link - Elems(rest);
    assert h.info - {rest[0]} - Elems(rest[1..]) == h.info - Elems(rest);
  }

  /** Keeping it inserts it at the front of the new list of its class. */
  lemma KeepStep(h: Spans, rest: seq<nat>, c: nat, i: Info)
    requires rest != [] && Distinct(rest) && WF(Except(h, Elems(rest)), 0) && c < CLASS_COUNT
    requires rest[0] != 0 && rest[0] in h.info && i.cls == c && !i.full
    ensures h.heads[c] != 0 ==> h.heads[c] in h.link && h.heads[c] !in Elems(rest)
    ensures WF(Except(Inserted(h.(info := h.info[rest[0] := i]), c, rest[0]), Elems(rest[1..])), 0)
  {
    hide Dll, Sorted;
    var s, e := rest[0], Except(h, Elems(rest));
    var m := e.(link := e.link[s := Link(0, 0)], info := e.info[s := i]);
    ElemsStep(rest);
    AdoptSorted(e, s, i);
    InsertKeeps(m, c, s);
    HeadIsLinked(e, c);
    var n := Except(Inserted(h.(info := h.info[s := i]), c, s), Elems(rest[1..]));
    assert n.link == Inserted(m, c, s).link;
    assert n.info == m.info;
    assert n == Inserted(m, c, s);
  }

  /** Keeping a full span puts it at the end of the new full list. */
  lemma KeepFullStep(h: Spans, rest: seq<nat>, i: Info)
    requires rest != [] && Distinct(rest) && WF(Except(h, Elems(rest)), 0)
    requires rest[0] != 0 && rest[0] in h.info && i.cls < CLASS_COUNT && i.full
    ensures h.fullTail != 0 ==> h.fullTail in h.link && h.fullTail !in Elems(rest)
    ensures WF(Except(PushedFull(h.(info := h.info[rest[0] := i]), rest[0]), Elems(rest[1..])), 0)
  {
    hide Dll, Sorted;
    var s, e := rest[0], Except(h, Elems(rest));
    var m := e.(link := e.link[s := Link(0, 0)], info := e.info[s := i]);
    ElemsStep(rest);
    AdoptSorted(e, s, i);
    PushFullKeeps(m, s);
    TailIsLinked(e);
    var n := Except(PushedFull(h.(info := h.info[s := i]), s), Elems(rest[1..]));
    assert n.link == PushedFull(m, s).link;
    assert n.info == PushedFull(m, s).info;
    assert n == PushedFull(m, s);
  }

  lemma HeadIsLinked(h: Spans, c: nat)
    requires WF(h, 0) && c < CLASS_COUNT
    ensures h.heads[c] != 0 ==> h.heads[c] in h.link
  {
    if h.heads[c] != 0 { Neighbours(h.link, h.lists[c], 0); }
  }

  lemma TailIsLinked(h: Spans)
    requires WF(h, 0)
    ensures h.fullTail != 0 ==> h.fullTail in h.link
  {
    if h.fullTail != 0 { Neighbours(h.link, h.fulls, |h.fulls| - 1); }
  }

  /** A span that is on no list yet. */
  lemma AdoptSorted(h: Spans, s: nat, i: Info)
    requires WF(h, 0) && s != 0 && s !in h.info && i.cls < CLASS_COUNT
    ensures WF(h.(link := h.link[s := Link(0, 0)], info := h.info[s := i]), s)
  {
    hide Sorted, Dll;
    var n := h.(link := h.link[s := Link(0, 0)], info := h.info[s := i]);
    NewSpanSorted(h.info, h.lists, h.fulls, s, i);
    forall c: nat | c < CLASS_COUNT ensures Dll(n.link, n.lists[c]) {
      ListedAreLinked(h, 0, h.lists[c]);
      DllFrame(h.link, n.link, h.lists[c]);
    }
    ListedAreLinked(h, 0, h.fulls);
    DllFrame(h.link, n.link, h.fulls);
  }

  lemma NewSpanSorted(info: map<nat, Info>, lists: seq<seq<nat>>, fulls: seq<nat>, s: nat, i: Info)
    requires |lists| == CLASS_COUNT && Sorted(info, lists, fulls, 0) && s !in info && 0 !in info && i.cls < CLASS_COUNT
    ensures Sorted(info[s := i], lists, fulls, s)
  {
    var n := info[s := i];
    forall d: nat, t | d < CLASS_COUNT ensures t in lists[d] <==> t in n && t != s && !n[t].full && n[t].cls == d {
      assert t in lists[d] <==> t in info && t != 0 && !info[t].full && info[t].cls == d;
    }
  }

  lemma ListedAreLinked(h: Spans, off: nat, xs: seq<nat>)
    requires WF(h, off) && Dll(h.link, xs)
    ensures forall t {:trigger t in xs} :: t in xs ==> t in h.link
  {
    forall t | t in xs ensures t in h.link {
      var i: nat :| i < |xs| && xs[i] == t;
      Neighbours(h.link, xs, i);
    }
  }
}
