/** Doubly linked lists of spans through their next and prev words, as values. */
module LinkedSpans {

  /** The link words of a span; 0 is NULL. */
  datatype Link = Link(next: nat, prev: nat)

  ghost predicate Distinct(xs: seq<nat>) {
    forall i, j :: 0 <= i < j < |xs| ==> xs[i] != xs[j]
  }

  function First(xs: seq<nat>): nat {
    if xs == [] then 0 else xs[0]
  }

  function Last(xs: seq<nat>): nat {
    if xs == [] then 0 else xs[|xs| - 1]
  }

  function Before(xs: seq<nat>, i: nat): nat
    requires i < |xs|
  {
    if i == 0 then 0 else xs[i - 1]
  }

  function After(xs: seq<nat>, i: nat): nat
    requires i < |xs|
  {
    if i + 1 < |xs| then xs[i + 1] else 0
  }

  predicate LinkedAt(link: map<nat, Link>, xs: seq<nat>, i: nat)
    requires i < |xs|
  {
    xs[i] != 0 && xs[i] in link && link[xs[i]] == Link(After(xs, i), Before(xs, i))
  }

  /** The link words spell the list `xs` in both directions. */
  ghost predicate Dll(link: map<nat, Link>, xs: seq<nat>) {
    Distinct(xs) && forall i: nat {:trigger xs[i]} :: i < |xs| ==> LinkedAt(link, xs, i)
  }

  lemma OnlyOnce(xs: seq<nat>, i: nat, j: nat)
    requires Distinct(xs) && i < |xs| && j < |xs|
    ensures xs[i] == xs[j] <==> i == j
  {
  }

  /** The words of the listed spans are the same in both maps. */
  ghost predicate SameOn(a: map<nat, Link>, b: map<nat, Link>, xs: seq<nat>) {
    forall s {:trigger s in xs} :: s in xs ==> s in a && s in b && a[s] == b[s]
  }

  lemma DllFrame(a: map<nat, Link>, b: map<nat, Link>, xs: seq<nat>)
    requires Dll(a, xs) && SameOn(a, b, xs)
    ensures Dll(b, xs)
  {
    forall i: nat | i < |xs| ensures LinkedAt(b, xs, i) {
      assert xs[i] in xs;
    }
  }

  // ---------------------------------------------------------------- insert at the head

  function InsertedHead(link: map<nat, Link>, head: nat, s: nat): map<nat, Link>
    requires head != 0 ==> head in link
  {
    var l := link[s := Link(head, 0)];
    if head == 0 then l else l[head := l[head].(prev := s)]
  }

  lemma InsertHeadOk(link: map<nat, Link>, xs: seq<nat>, s: nat)
    requires Dll(link, xs) && s != 0 && s !in xs
    ensures First(xs) != 0 ==> First(xs) in link
    ensures Dll(InsertedHead(link, First(xs), s), [s] + xs)
  {
    var l, ys := InsertedHead(link, First(xs), s), [s] + xs;
    forall i: nat | i < |ys| ensures LinkedAt(l, ys, i) {
      if i > 0 {
        assert ys[i] == xs[i - 1];
        OnlyOnce(xs, i - 1, 0);
      }
    }
  }

  // ---------------------------------------------------------------- push at the tail

  function PushedTail(link: map<nat, Link>, tail: nat, s: nat): map<nat, Link>
    requires tail != 0 ==> tail in link
  {
    var l := link[s := Link(0, tail)];
    if tail == 0 then l else l[tail := l[tail].(next := s)]
  }

  lemma PushedAt(link: map<nat, Link>, xs: seq<nat>, s: nat, i: nat)
    requires Dll(link, xs) && s != 0 && s !in xs && i <= |xs| && (Last(xs) != 0 ==> Last(xs) in link)
    ensures LinkedAt(PushedTail(link, Last(xs), s), xs + [s], i)
  {
    hide Dll, Distinct;
    if xs != [] { Neighbours(link, xs, |xs| - 1); }
    if i < |xs| {
      Neighbours(link, xs, i);
      DllDistinct(link, xs);
      OnlyOnce(xs, i, |xs| - 1);
    }
  }

  lemma DllDistinct(link: map<nat, Link>, xs: seq<nat>)
    requires Dll(link, xs)
    ensures Distinct(xs)
  {
  }

  lemma DllEmpty(link: map<nat, Link>, xs: seq<nat>)
    requires Dll(link, xs)
    ensures First(xs) == 0 <==> xs == []
    ensures Last(xs) == 0 <==> xs == []
  {
    if xs != [] {
      Neighbours(link, xs, |xs| - 1);
      Neighbours(link, xs, 0);
    }
  }

  lemma PushTailOk(link: map<nat, Link>, xs: seq<nat>, s: nat)
    requires Dll(link, xs) && s != 0 && s !in xs
    ensures Last(xs) != 0 ==> Last(xs) in link
    ensures Dll(PushedTail(link, Last(xs), s), xs + [s])
  {
    var l, ys := PushedTail(link, Last(xs), s), xs + [s];
    forall i: nat | i < |ys| ensures LinkedAt(l, ys, i) {
      PushedAt(link, xs, s, i);
    }
  }

  // ---------------------------------------------------------------- unlink

  /** The words after `s` is unlinked; its own words become NULL. */
  function Unlinked(link: map<nat, Link>, s: nat): map<nat, Link>
    requires s in link && (link[s].prev != 0 ==> link[s].prev in link) && (link[s].next != 0 ==> link[s].next in link)
  {
    var p, n := link[s].prev, link[s].next;
    var l := if p != 0 then link[p := link[p].(next := n)] else link;
    var m := if n != 0 then l[n := l[n].(prev := p)] else l;
    m[s := Link(0, 0)]
  }

  lemma UnlinkedKeys(link: map<nat, Link>, s: nat)
    requires s in link && (link[s].prev != 0 ==> link[s].prev in link) && (link[s].next != 0 ==> link[s].next in link)
    ensures Unlinked(link, s).Keys == link.Keys
  {
  }

  function RemoveAt(xs: seq<nat>, i: nat): (ys: seq<nat>)
    requires i < |xs|
    ensures |ys| == |xs| - 1
  {
    xs[..i] + xs[i + 1..]
  }

  lemma RemovedMembers(xs: seq<nat>, i: nat)
    requires Distinct(xs) && i < |xs|
    ensures forall s {:trigger s in RemoveAt(xs, i)} :: s in RemoveAt(xs, i) <==> s in xs && s != xs[i]
  {
    var ys := RemoveAt(xs, i);
    forall s ensures s in ys <==> s in xs && s != xs[i] {
      if s in ys {
        var j :| 0 <= j < |ys| && ys[j] == s;
        assert s == if j < i then xs[j] else xs[j + 1];
      }
      if s in xs && s != xs[i] {
        var j :| 0 <= j < |xs| && xs[j] == s;
        assert s == if j < i then ys[j] else ys[j - 1];
      }
    }
  }

  lemma Neighbours(link: map<nat, Link>, xs: seq<nat>, i: nat)
    requires Dll(link, xs) && i < |xs|
    ensures xs[i] != 0 && xs[i] in link && link[xs[i]] == Link(After(xs, i), Before(xs, i))
    ensures Before(xs, i) != 0 ==> Before(xs, i) in link && Before(xs, i) in xs
    ensures After(xs, i) != 0 ==> After(xs, i) in link && After(xs, i) in xs
    ensures Before(xs, i) == 0 <==> i == 0
    ensures After(xs, i) == 0 <==> i == |xs| - 1
  {
    assert LinkedAt(link, xs, i);
    if i > 0 { assert LinkedAt(link, xs, i - 1); }
    if i + 1 < |xs| { assert LinkedAt(link, xs, i + 1); }
  }

  lemma UnlinkOk(link: map<nat, Link>, xs: seq<nat>, i: nat)
    requires Dll(link, xs) && i < |xs|
    requires xs[i] in link && (link[xs[i]].prev != 0 ==> link[xs[i]].prev in link) && (link[xs[i]].next != 0 ==> link[xs[i]].next in link)
    ensures Dll(Unlinked(link, xs[i]), RemoveAt(xs, i))
  {
    var l, ys := Unlinked(link, xs[i]), RemoveAt(xs, i);
    forall j: nat | j < |ys| ensures LinkedAt(l, ys, j) {
      RemainsLinked(link, xs, i, j);
    }
  }

  lemma RemainsLinked(link: map<nat, Link>, xs: seq<nat>, i: nat, j: nat)
    requires Dll(link, xs) && i < |xs| && j < |xs| - 1
    requires xs[i] in link && (link[xs[i]].prev != 0 ==> link[xs[i]].prev in link) && (link[xs[i]].next != 0 ==> link[xs[i]].next in link)
    ensures LinkedAt(Unlinked(link, xs[i]), RemoveAt(xs, i), j)
  {
    hide Dll, Distinct, Unlinked;
    var k := if j < i then j else j + 1;
    Neighbours(link, xs, k);
    UnlinkedAt(link, xs, i, k);
  }

  /** The words of every other span after the unlinking. */
  lemma UnlinkedAt(link: map<nat, Link>, xs: seq<nat>, i: nat, k: nat)
    requires Dll(link, xs) && i < |xs| && k < |xs| && k != i
    requires xs[i] in link && (link[xs[i]].prev != 0 ==> link[xs[i]].prev in link) && (link[xs[i]].next != 0 ==> link[xs[i]].next in link)
    ensures var l := Unlinked(link, xs[i]);
      && xs[k] in l
      && l[xs[k]].next == (if k + 1 == i then After(xs, i) else After(xs, k))
      && l[xs[k]].prev == (if k == i + 1 then Before(xs, i) else Before(xs, k))
  {
    hide Dll, Distinct;
    Neighbours(link, xs, i);
    Neighbours(link, xs, k);
    DllDistinct(link, xs);
    OnlyOnce(xs, i, k);
    if i > 0 { OnlyOnce(xs, i - 1, k); }
    if i + 1 < |xs| { OnlyOnce(xs, i + 1, k); }
  }

  /** A list that shares no span with `xs` is not touched by unlinking from `xs`. */
  lemma UnlinkFrame(link: map<nat, Link>, xs: seq<nat>, i: nat, ys: seq<nat>)
    requires Dll(link, xs) && i < |xs| && Dll(link, ys) && forall s {:trigger s in ys} :: s in ys ==> s !in xs
    requires xs[i] in link && (link[xs[i]].prev != 0 ==> link[xs[i]].prev in link) && (link[xs[i]].next != 0 ==> link[xs[i]].next in link)
    ensures Dll(Unlinked(link, xs[i]), ys)
  {
    Neighbours(link, xs, i);
    assert xs[i] in xs;
    DllFrame(link, Unlinked(link, xs[i]), ys);
  }

  lemma InsertFrame(link: map<nat, Link>, xs: seq<nat>, s: nat, ys: seq<nat>)
    requires Dll(link, xs) && Dll(link, ys) && s !in ys && forall t {:trigger t in ys} :: t in ys ==> t !in xs
    requires First(xs) != 0 ==> First(xs) in link
    ensures Dll(InsertedHead(link, First(xs), s), ys)
  {
    if xs != [] { assert xs[0] in xs; }
    DllFrame(link, InsertedHead(link, First(xs), s), ys);
  }

  lemma PushFrame(link: map<nat, Link>, xs: seq<nat>, s: nat, ys: seq<nat>)
    requires Dll(link, xs) && Dll(link, ys) && s !in ys && forall t {:trigger t in ys} :: t in ys ==> t !in xs
    requires Last(xs) != 0 ==> Last(xs) in link
    ensures Dll(PushedTail(link, Last(xs), s), ys)
  {
    if xs != [] { assert xs[|xs| - 1] in xs; }
    DllFrame(link, PushedTail(link, Last(xs), s), ys);
  }
}
