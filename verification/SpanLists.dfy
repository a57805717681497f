/** The spans of one running thread: a doubly linked list per size class and one of full spans, all
    threaded through the span headers, and the paths of alloc, refill and free that move spans
    between them. Blocks are counted here; SpanBlocks says which block is where. What a drain finds
    depends on the other threads, so it is a parameter. */
module SpanLists {
  import opened LinkedSpans

  const CLASS_COUNT: nat := 36
  const FULL_SCAN: nat := 2

  /** The other words of a span header. `free` is the length of its local free list. */
  datatype Info = Info(cls: nat, full: bool, free: nat, bump: nat, used: nat, count: nat)

  /** The words of the heap and of its spans; `lists` and `fulls` are history. */
  datatype Spans = Spans(link: map<nat, Link>, info: map<nat, Info>, heads: seq<nat>, fullHead: nat, fullTail: nat,
                         lists: seq<seq<nat>>, fulls: seq<nat>)

  /** The pointers spell the lists. */
  ghost predicate Chained(h: Spans)
    requires |h.heads| == |h.lists| == CLASS_COUNT
  {
    && (forall c: nat {:trigger h.lists[c]} :: c < CLASS_COUNT ==> Dll(h.link, h.lists[c]) && h.heads[c] == First(h.lists[c]))
    && Dll(h.link, h.fulls) && h.fullHead == First(h.fulls) && h.fullTail == Last(h.fulls)
  }

  /** Every span but `off` is on the list its state and class call for, and on no other. */
  ghost predicate Sorted(info: map<nat, Info>, lists: seq<seq<nat>>, fulls: seq<nat>, off: nat)
    requires |lists| == CLASS_COUNT
  {
    && (forall c: nat, s {:trigger s in lists[c]} :: c < CLASS_COUNT ==>
          (s in lists[c] <==> s in info && s != off && !info[s].full && info[s].cls == c))
    && (forall s {:trigger s in fulls} :: s in fulls <==> s in info && s != off && info[s].full)
    && (forall s {:trigger info[s]} :: s in info ==> info[s].cls < CLASS_COUNT)
  }

  /** Every span but `off` is on exactly one well-formed list, the one its state and class call for. */
  ghost predicate WF(h: Spans, off: nat) {
    && |h.heads| == |h.lists| == CLASS_COUNT
    && h.link.Keys == h.info.Keys && 0 !in h.info
    && Chained(h) && Sorted(h.info, h.lists, h.fulls, off)
  }

  /** The counts of one span: carved blocks are used or free, and a full span has none to give. */
  predicate CountsOk(i: Info, exempt: bool) {
    && i.bump <= i.count && i.used + i.free == i.bump && i.count >= 1
    && (i.full && !exempt ==> i.free == 0 && i.bump == i.count)
  }

  /** All counts are right; the span `exempt` may have been drained while still full. */
  ghost predicate DataOk(info: map<nat, Info>, exempt: nat) {
    forall s {:trigger info[s]} :: s in info ==> CountsOk(info[s], s == exempt)
  }

  /** FULL means: no local free block, nothing left to carve, and every block in use. */
  lemma FullMeansAllUsed(h: Spans, s: nat)
    requires WF(h, 0) && DataOk(h.info, 0) && s in h.info && h.info[s].full
    ensures h.info[s].free == 0 && h.info[s].bump == h.info[s].count == h.info[s].used
  {
    assert CountsOk(h.info[s], false);
  }

  /** A span is on one list only: its class list when it is available, the full list otherwise. */
  lemma OneListEach(h: Spans, s: nat)
    requires WF(h, 0) && s in h.info
    ensures s in h.fulls <==> h.info[s].full
    ensures forall c: nat {:trigger h.lists[c]} :: c < CLASS_COUNT ==> (s in h.lists[c] <==> !h.info[s].full && h.info[s].cls == c)
  {
  }

  lemma ApartFromFulls(h: Spans, off: nat, c: nat)
    requires WF(h, off) && c < CLASS_COUNT
    ensures forall s {:trigger s in h.lists[c]} {:trigger s in h.fulls} :: !(s in h.lists[c] && s in h.fulls)
  {
  }

  lemma ApartFromList(h: Spans, off: nat, c: nat, d: nat)
    requires WF(h, off) && c < CLASS_COUNT && d < CLASS_COUNT && c != d
    ensures forall s {:trigger s in h.lists[c]} {:trigger s in h.lists[d]} :: !(s in h.lists[c] && s in h.lists[d])
  {
  }

  // ---------------------------------------------------------------- the four list operations

  function Inserted(h: Spans, c: nat, s: nat): Spans
    requires c < |h.heads| == |h.lists| && (h.heads[c] != 0 ==> h.heads[c] in h.link)
  {
    h.(link := InsertedHead(h.link, h.heads[c], s), heads := h.heads[c := s], lists := h.lists[c := [s] + h.lists[c]])
  }

  lemma InsertKeeps(h: Spans, c: nat, s: nat)
    requires WF(h, s) && s in h.info && !h.info[s].full && h.info[s].cls == c
    ensures h.heads[c] != 0 ==> h.heads[c] in h.link
    ensures WF(Inserted(h, c, s), 0)
  {
    InsertHeadOk(h.link, h.lists[c], s);
    var n := Inserted(h, c, s);
    assert n.link.Keys == h.link.Keys;
    forall d: nat | d < CLASS_COUNT ensures Dll(n.link, n.lists[d]) {
      if d != c { InsertFrame(h.link, h.lists[c], s, h.lists[d]); }
    }
    InsertFrame(h.link, h.lists[c], s, h.fulls);
    forall d: nat, t | d < CLASS_COUNT
      ensures t in n.lists[d] <==> t in n.info && t != 0 && !n.info[t].full && n.info[t].cls == d
    {
      assert d == c ==> (t in n.lists[c] <==> t == s || t in h.lists[c]);
      assert t in h.lists[d] <==> t in h.info && t != s && !h.info[t].full && h.info[t].cls == d;
    }
  }

  lemma RemovedEnds(xs: seq<nat>, i: nat)
    requires i < |xs|
    ensures First(RemoveAt(xs, i)) == if i > 0 then First(xs) else After(xs, 0)
    ensures Last(RemoveAt(xs, i)) == if i < |xs| - 1 then Last(xs) else Before(xs, i)
  {
  }

  function Removed(h: Spans, c: nat, i: nat): Spans
    requires c < |h.heads| == |h.lists| && i < |h.lists[c]| && h.lists[c][i] in h.link
    requires var l := h.link[h.lists[c][i]]; (l.prev != 0 ==> l.prev in h.link) && (l.next != 0 ==> l.next in h.link)
  {
    var s := h.lists[c][i];
    h.(link := Unlinked(h.link, s), heads := if h.link[s].prev != 0 then h.heads else h.heads[c := h.link[s].next],
       lists := h.lists[c := RemoveAt(h.lists[c], i)])
  }

  /** The words next to a listed span are those of its neighbours. */
  lemma ListedLinks(h: Spans, off: nat, c: nat, i: nat)
    requires WF(h, off) && c < CLASS_COUNT && i < |h.lists[c]|
    ensures var s := h.lists[c][i];
      && s in h.link && s in h.info && h.link[s] == Link(After(h.lists[c], i), Before(h.lists[c], i))
      && (h.link[s].prev != 0 ==> h.link[s].prev in h.link) && (h.link[s].next != 0 ==> h.link[s].next in h.link)
      && (h.link[s].prev == 0 <==> i == 0) && (h.link[s].next == 0 <==> i == |h.lists[c]| - 1)
  {
    Neighbours(h.link, h.lists[c], i);
  }

  lemma RemoveKeeps(h: Spans, c: nat, i: nat)
    requires WF(h, 0) && c < CLASS_COUNT && i < |h.lists[c]|
    requires var s := h.lists[c][i]; s in h.link && (h.link[s].prev != 0 ==> h.link[s].prev in h.link) && (h.link[s].next != 0 ==> h.link[s].next in h.link)
    ensures WF(Removed(h, c, i), h.lists[c][i])
  {
    hide Sorted, Dll, Distinct, Unlinked, RemoveAt, First, Last;
    var s := h.lists[c][i];
    ListedLinks(h, 0, c, i);
    UnlinkedKeys(h.link, s);
    DllDistinct(h.link, h.lists[c]);
    UnlinkOk(h.link, h.lists[c], i);
    RemovedEnds(h.lists[c], i);
    RemoveSorted(h.info, h.lists, h.fulls, c, i);
    var n := Removed(h, c, i);
    forall d: nat | d < CLASS_COUNT ensures Dll(n.link, n.lists[d]) {
      if d != c {
        ApartFromList(h, 0, c, d);
        UnlinkFrame(h.link, h.lists[c], i, h.lists[d]);
      }
    }
    ApartFromFulls(h, 0, c);
    UnlinkFrame(h.link, h.lists[c], i, h.fulls);
  }

  lemma RemoveSorted(info: map<nat, Info>, lists: seq<seq<nat>>, fulls: seq<nat>, c: nat, i: nat)
    requires |lists| == CLASS_COUNT && Sorted(info, lists, fulls, 0) && c < CLASS_COUNT && i < |lists[c]| && Distinct(lists[c]) && 0 !in info
    ensures Sorted(info, lists[c := RemoveAt(lists[c], i)], fulls, lists[c][i])
  {
    RemovedMembers(lists[c], i);
    assert lists[c][i] in lists[c];
  }

  function PushedFull(h: Spans, s: nat): Spans
    requires s in h.info && (h.fullTail != 0 ==> h.fullTail in h.link)
  {
    h.(link := PushedTail(h.link, h.fullTail, s), fullHead := if h.fullTail != 0 then h.fullHead else s, fullTail := s,
       info := h.info[s := h.info[s].(full := true)], fulls := h.fulls + [s])
  }

  lemma PushFullKeeps(h: Spans, s: nat)
    requires WF(h, s) && s in h.info
    ensures h.fullTail != 0 ==> h.fullTail in h.link
    ensures WF(PushedFull(h, s), 0)
  {
    PushTailOk(h.link, h.fulls, s);
    var n := PushedFull(h, s);
    assert n.link.Keys == h.link.Keys && n.info.Keys == h.info.Keys;
    forall d: nat | d < CLASS_COUNT ensures Dll(n.link, n.lists[d]) {
      PushFrame(h.link, h.fulls, s, h.lists[d]);
    }
    DllEmpty(h.link, h.fulls);
  }

  function PoppedFull(h: Spans, i: nat): Spans
    requires i < |h.fulls| && h.fulls[i] in h.link && h.fulls[i] in h.info
    requires var l := h.link[h.fulls[i]]; (l.prev != 0 ==> l.prev in h.link) && (l.next != 0 ==> l.next in h.link)
  {
    var s := h.fulls[i];
    var l := h.link[s];
    h.(link := Unlinked(h.link, s),
       fullHead := if l.prev != 0 then h.fullHead else l.next,
       fullTail := if l.next != 0 then h.fullTail else l.prev,
       info := h.info[s := h.info[s].(full := false)], fulls := RemoveAt(h.fulls, i))
  }

  lemma FullLinks(h: Spans, off: nat, i: nat)
    requires WF(h, off) && i < |h.fulls|
    ensures var s := h.fulls[i];
      && s in h.link && s in h.info && h.link[s] == Link(After(h.fulls, i), Before(h.fulls, i))
      && (h.link[s].prev != 0 ==> h.link[s].prev in h.link) && (h.link[s].next != 0 ==> h.link[s].next in h.link)
      && (h.link[s].prev == 0 <==> i == 0) && (h.link[s].next == 0 <==> i == |h.fulls| - 1)
  {
    Neighbours(h.link, h.fulls, i);
  }

  lemma PopFullSorted(info: map<nat, Info>, lists: seq<seq<nat>>, fulls: seq<nat>, i: nat)
    requires |lists| == CLASS_COUNT && Sorted(info, lists, fulls, 0) && Distinct(fulls) && i < |fulls| && fulls[i] in info && 0 !in info
    ensures var s := fulls[i]; Sorted(info[s := info[s].(full := false)], lists, RemoveAt(fulls, i), s)
  {
    var s := fulls[i];
    RemovedMembers(fulls, i);
    assert s in fulls;
    forall d: nat, t | d < CLASS_COUNT
      ensures t in lists[d] <==> t in info && t != s && !info[t].full && info[t].cls == d
    {
      assert t in lists[d] <==> t in info && t != 0 && !info[t].full && info[t].cls == d;
      assert t == s ==> info[t].full;
      assert t == 0 ==> t !in lists[d];
    }
  }

  lemma PopFullKeeps(h: Spans, i: nat)
    requires WF(h, 0) && i < |h.fulls| && h.fulls[i] in h.link && h.fulls[i] in h.info
    requires var l := h.link[h.fulls[i]]; (l.prev != 0 ==> l.prev in h.link) && (l.next != 0 ==> l.next in h.link)
    ensures WF(PoppedFull(h, i), h.fulls[i])
  {
    hide Sorted, Dll, Distinct, Unlinked, RemoveAt, First, Last;
    var s := h.fulls[i];
    FullLinks(h, 0, i);
    UnlinkedKeys(h.link, s);
    DllDistinct(h.link, h.fulls);
    UnlinkOk(h.link, h.fulls, i);
    RemovedEnds(h.fulls, i);
    PopFullSorted(h.info, h.lists, h.fulls, i);
    var n := PoppedFull(h, i);
    assert n.info.Keys == h.info.Keys;
    forall d: nat | d < CLASS_COUNT ensures Dll(n.link, n.lists[d]) {
      ApartFromFulls(h, 0, d);
      UnlinkFrame(h.link, h.fulls, i, h.lists[d]);
    }
  }

  lemma RecountSorted(info: map<nat, Info>, lists: seq<seq<nat>>, fulls: seq<nat>, off: nat, s: nat, i: Info)
    requires |lists| == CLASS_COUNT && Sorted(info, lists, fulls, off) && s in info
    requires i.cls == info[s].cls && i.full == info[s].full
    ensures Sorted(info[s := i], lists, fulls, off)
  {
    var n := info[s := i];
    assert n.Keys == info.Keys;
    forall d: nat, t | d < CLASS_COUNT ensures t in lists[d] <==> t in n && t != off && !n[t].full && n[t].cls == d {
      assert t in lists[d] <==> t in info && t != off && !info[t].full && info[t].cls == d;
    }
  }

  /** Changing the counts of a span moves nothing. */
  lemma RecountKeeps(h: Spans, off: nat, s: nat, i: Info)
    requires WF(h, off) && s in h.info && i.cls == h.info[s].cls && i.full == h.info[s].full
    ensures WF(h.(info := h.info[s := i]), off)
  {
    hide Sorted, Dll;
    RecountSorted(h.info, h.lists, h.fulls, off, s, i);
    assert h.info[s := i].Keys == h.info.Keys;
  }
}
