/** Whole runs of one thread's heap: any sequence of allocations and frees from the empty heap, with
    any remote frees arriving in between. */
module SpanRuns {
  import opened LinkedSpans
  import opened SpanLists
  import opened SpanHeap

  /** One call of the thread. What each drain on the way finds, and the chunk a new span would be cut
      from (0: no memory), come from outside. */
  datatype Op =
    | AllocOp(c: nat, arrives: nat -> nat, again: nat -> nat, created: nat)
    | FreeOp(s: nat)

  /** Span `s` is on the list of its state and class, once, and on no other; the pointers spell it. */
  ghost predicate OnItsList(h: Spans, s: nat)
    requires |h.heads| == |h.lists| == CLASS_COUNT && s in h.info
  {
    && (s in h.fulls <==> h.info[s].full)
    && (forall c: nat {:trigger h.lists[c]} :: c < CLASS_COUNT ==> (s in h.lists[c] <==> !h.info[s].full && h.info[s].cls == c))
    && (if h.info[s].full then Dll(h.link, h.fulls) && h.fullHead == First(h.fulls) && h.fullTail == Last(h.fulls)
        else h.info[s].cls < CLASS_COUNT && Dll(h.link, h.lists[h.info[s].cls]) && h.heads[h.info[s].cls] == First(h.lists[h.info[s].cls]))
  }

  /** A full span has nothing left to give: every block it can hold is in use. */
  predicate CountsAgree(i: Info) {
    i.used + i.free == i.bump <= i.count && (i.full ==> i.free == 0 && i.used == i.bump == i.count)
  }

  lemma SettledSpan(h: Spans, s: nat)
    requires WF(h, 0) && DataOk(h.info, 0) && s in h.info
    ensures OnItsList(h, s) && CountsAgree(h.info[s])
  {
    OneListEach(h, s);
    assert CountsOk(h.info[s], false);
    if h.info[s].full { FullMeansAllUsed(h, s); }
  }

  /** After any run, whatever the other threads freed meanwhile, each span is on exactly the list of
      its state and class and its counts agree. A free of a block the thread does not have is no call
      of the program, and neither is a chunk that is already a span. */
  method Replay(capacity: seq<nat>, ops: seq<Op>) returns (h: Heap)
    requires |capacity| == CLASS_COUNT && forall c {:trigger capacity[c]} :: 0 <= c < CLASS_COUNT ==> capacity[c] >= 1
    ensures fresh(h) && h.Ok()
    ensures |h.heads| == |h.lists| == CLASS_COUNT
    ensures forall s {:trigger h.info[s]} :: s in h.info ==> OnItsList(h.Now(), s) && CountsAgree(h.info[s])
  {
    h := new Heap(capacity);
    for k := 0 to |ops|
      invariant fresh(h) && h.Ok()
    {
      match ops[k] {
        case AllocOp(c, arrives, again, created) =>
          if c < CLASS_COUNT && created !in h.info {
            var r := h.Alloc(c, arrives, again, created);
          }
        case FreeOp(s) =>
          if s in h.info && h.info[s].used > 0 {
            var released := h.FreeLocal(s);
          }
      }
    }
    forall s | s in h.info ensures OnItsList(h.Now(), s) && CountsAgree(h.info[s]) {
      SettledSpan(h.Now(), s);
    }
  }
}
