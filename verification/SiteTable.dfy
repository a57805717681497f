/** The table of creation sites: open addressing with linear probing, insert only, under a lock and
    an arbitrary hash. It refines a map from spans to their latest creation site. */
module SiteTable {

  /** Address 0 marks a free slot. */
  const NULL: nat := 0

  datatype Site = Site(frames: seq<int>, createdMs: nat)

  // ---------------------------------------------------------------- the map it refines

  /** A record is kept unless it is a new span and the table is full. */
  function Store(m: map<nat, Site>, size: nat, span: nat, site: Site): map<nat, Site> {
    if span in m || |m| < size then m[span := site] else m
  }

  function StoreAll(m: map<nat, Site>, size: nat, calls: seq<(nat, Site)>): map<nat, Site>
    decreases |calls|
  {
    if calls == [] then m else
    var last := calls[|calls| - 1];
    Store(StoreAll(m, size, calls[..|calls| - 1]), size, last.0, last.1)
  }

  function Spans(calls: seq<(nat, Site)>): set<nat> {
    if calls == [] then {} else Spans(calls[..|calls| - 1]) + {calls[|calls| - 1].0}
  }

  /** Call `i` is the last one about its span. */
  ghost predicate Latest(calls: seq<(nat, Site)>, i: nat) {
    i < |calls| && forall j {:trigger calls[j]} :: i < j < |calls| ==> calls[j].0 != calls[i].0
  }

  ghost predicate Holds(m: map<nat, Site>, call: (nat, Site)) {
    call.0 in m && m[call.0] == call.1
  }

  lemma KeepsAll(m: map<nat, Site>, size: nat, span: nat, site: Site)
    requires |m.Keys + {span}| <= size
    ensures Store(m, size, span, site) == m[span := site]
  {
    if span !in m { assert |m.Keys + {span}| == |m.Keys| + 1; }
  }

  /** While no more spans than slots have been recorded, nothing is ever dropped: every span that
      was recorded is there, with its latest site. */
  lemma {:induction false} NothingIsDropped(size: nat, calls: seq<(nat, Site)>, i: nat)
    requires |Spans(calls)| <= size
    ensures StoreAll(map[], size, calls).Keys == Spans(calls)
    ensures Latest(calls, i) ==> Holds(StoreAll(map[], size, calls), calls[i])
    decreases |calls|
  {
    if calls != [] {
      var front, last := calls[..|calls| - 1], calls[|calls| - 1];
      var m := StoreAll(map[], size, front);
      assert Spans(calls) == Spans(front) + {last.0};
      Fewer(Spans(front), last.0);
      NothingIsDropped(size, front, i);
      KeepsAll(m, size, last.0, last.1);
      if Latest(calls, i) && i < |front| {
        assert calls[|calls| - 1].0 != calls[i].0;
        assert forall j {:trigger front[j]} :: i < j < |front| ==> front[j] == calls[j];
        assert Latest(front, i);
      }
    }
  }

  lemma Fewer(S: set<nat>, x: nat)
    ensures |S| <= |S + {x}|
  {
    if x in S { assert S + {x} == S; }
  }

  // ---------------------------------------------------------------- probing

  /** The slot `d` probes after `h`, wrapping around. */
  function Probe(size: nat, h: nat, d: nat): (i: nat)
    requires h < size && d < size
    ensures i < size
  {
    if h + d < size then h + d else h + d - size
  }

  /** How many probes after `h` slot `i` is reached. */
  function Distance(size: nat, h: nat, i: nat): (d: nat)
    requires h < size && i < size
    ensures d < size && Probe(size, h, d) == i
  {
    if h <= i then i - h else i - h + size
  }

  function Taken(slots: seq<nat>, n: nat): set<nat>
    requires n <= |slots|
  {
    if n == 0 then {} else if slots[n - 1] == NULL then Taken(slots, n - 1) else Taken(slots, n - 1) + {slots[n - 1]}
  }

  ghost predicate Distinct(slots: seq<nat>) {
    forall i, j :: 0 <= i < j < |slots| && slots[i] != NULL ==> slots[i] != slots[j]
  }

  lemma {:induction false} TakenMembers(slots: seq<nat>, n: nat, k: nat)
    requires n <= |slots|
    ensures k in Taken(slots, n) <==> k != NULL && k in slots[..n]
  {
    if n > 0 {
      TakenMembers(slots, n - 1, k);
      assert slots[..n] == slots[..n - 1] + [slots[n - 1]];
    }
  }

  /** Distinct spans fill all the slots exactly when there are as many of them as slots. */
  lemma {:induction false} TakenSize(slots: seq<nat>, n: nat)
    requires n <= |slots| && Distinct(slots)
    ensures |Taken(slots, n)| <= n
    ensures |Taken(slots, n)| == n <==> NULL !in slots[..n]
  {
    if n > 0 {
      TakenSize(slots, n - 1);
      TakenMembers(slots, n - 1, slots[n - 1]);
      assert slots[..n] == slots[..n - 1] + [slots[n - 1]];
    }
  }

  /** The memory of the table: parallel arrays of spans and sites, and an arbitrary hash. */
  ghost predicate Represents(home: nat -> nat, slots: seq<nat>, sites: seq<Site>, m: map<nat, Site>) {
    var size := |slots|;
    && size > 0 && |sites| == size
    && Distinct(slots)
    && m.Keys == Taken(slots, size)
    && (forall k {:trigger home(k)} :: home(k) < size)
    && (forall i {:trigger slots[i]} :: 0 <= i < size && slots[i] != NULL ==>
          slots[i] in m && m[slots[i]] == sites[i] && Reachable(home(slots[i]), slots, i))
  }

  /** Every slot probed on the way from `h` to slot `i` is taken. */
  ghost predicate Reachable(h: nat, slots: seq<nat>, i: nat)
    requires h < |slots| && i < |slots|
  {
    forall d {:trigger Probe(|slots|, h, d)} :: 0 <= d < Distance(|slots|, h, i) ==> slots[Probe(|slots|, h, d)] != NULL
  }

  /** The slots probed so far, none of which is free or holds `k`. */
  ghost predicate Passed(h: nat, slots: seq<nat>, k: nat, d: nat)
    requires h < |slots|
  {
    forall e {:trigger Probe(|slots|, h, e)} :: 0 <= e < d && e < |slots| ==>
      slots[Probe(|slots|, h, e)] != NULL && slots[Probe(|slots|, h, e)] != k
  }

  lemma PutNew(home: nat -> nat, slots: seq<nat>, sites: seq<Site>, m: map<nat, Site>, k: nat, d: nat, site: Site)
    requires Represents(home, slots, sites, m) && k != NULL && d < |slots|
    requires Passed(home(k), slots, k, d) && slots[Probe(|slots|, home(k), d)] == NULL
    ensures var i := Probe(|slots|, home(k), d);
      && k !in m && |m| < |slots|
      && Represents(home, slots[i := k], sites[i := site], m[k := site])
  {
    var size, h := |slots|, home(k);
    var i := Probe(size, h, d);
    NotFound(home, slots, sites, m, k, d);
    TakenSize(slots, size);
    assert slots[..size] == slots;
    var t := slots[i := k];
    forall x ensures x in m[k := site] <==> x in Taken(t, size) {
      TakenMembers(slots, size, x);
      TakenMembers(t, size, x);
      assert slots[..size] == slots && t[..size] == t;
      PutMembers(slots, i, k, x);
    }
    forall j | 0 <= j < size && t[j] != NULL ensures Reachable(home(t[j]), t, j) {
      if j != i { assert slots[j] != NULL; assert Reachable(home(slots[j]), slots, j); }
    }
  }

  lemma PutMembers(slots: seq<nat>, i: nat, k: nat, x: nat)
    requires i < |slots| && slots[i] == NULL && k != NULL
    ensures x != NULL ==> (x in slots[i := k] <==> x in slots || x == k)
  {
    if x in slots {
      var j :| 0 <= j < |slots| && slots[j] == x;
      if x != NULL { assert slots[i := k][j] == x; }
    }
    assert slots[i := k][i] == k;
  }

  lemma PutOver(home: nat -> nat, slots: seq<nat>, sites: seq<Site>, m: map<nat, Site>, i: nat, site: Site)
    requires Represents(home, slots, sites, m) && i < |slots| && slots[i] != NULL
    ensures slots[i] in m && Represents(home, slots[i := slots[i]], sites[i := site], m[slots[i] := site])
  {
    assert slots[i := slots[i]] == slots;
  }

  lemma MemberIsOnItsPath(home: nat -> nat, slots: seq<nat>, sites: seq<Site>, m: map<nat, Site>, k: nat)
    requires Represents(home, slots, sites, m) && k in m
    ensures exists e {:trigger Probe(|slots|, home(k), e)} :: 0 <= e < |slots| && slots[Probe(|slots|, home(k), e)] == k != NULL
              && Reachable(home(k), slots, Probe(|slots|, home(k), e))
  {
    var size := |slots|;
    TakenMembers(slots, size, k);
    assert slots[..size] == slots;
    var i :| 0 <= i < size && slots[i] == k;
    assert Probe(size, home(k), Distance(size, home(k), i)) == i;
  }

  /** A free slot after `d` probes, or a whole turn, proves that `k` is not in the table. */
  lemma NotFound(home: nat -> nat, slots: seq<nat>, sites: seq<Site>, m: map<nat, Site>, k: nat, d: nat)
    requires Represents(home, slots, sites, m) && d <= |slots|
    requires Passed(home(k), slots, k, d)
    requires d == |slots| || slots[Probe(|slots|, home(k), d)] == NULL
    ensures k !in m
  {
    if k in m { MemberIsOnItsPath(home, slots, sites, m, k); }
  }

  lemma WholeTurn(home: nat -> nat, slots: seq<nat>, sites: seq<Site>, m: map<nat, Site>, k: nat)
    requires Represents(home, slots, sites, m) && Passed(home(k), slots, k, |slots|)
    ensures k !in m && |m| == |slots|
  {
    var size := |slots|;
    NotFound(home, slots, sites, m, k, size);
    forall i | 0 <= i < size ensures slots[i] != NULL {
      assert i == Probe(size, home(k), Distance(size, home(k), i));
    }
    assert slots[..size] == slots;
    TakenSize(slots, size);
  }

  lemma PassedOne(h: nat, slots: seq<nat>, k: nat, d: nat)
    requires h < |slots| && d < |slots| && Passed(h, slots, k, d)
    requires slots[Probe(|slots|, h, d)] != NULL && slots[Probe(|slots|, h, d)] != k
    ensures Passed(h, slots, k, d + 1)
  {
  }

  // ---------------------------------------------------------------- the program

  class Table {
    const size: nat
    const home: nat -> nat
    var spans: array<nat>
    var sites: array<Site>
    ghost var contents: map<nat, Site>

    ghost predicate Valid()
      reads this, spans, sites
    {
      spans.Length == size && Represents(home, spans[..], sites[..], contents)
    }

    constructor (size: nat, home: nat -> nat, nothing: Site)
      requires size > 0 && forall k {:trigger home(k)} :: home(k) < size
      ensures Valid() && contents == map[] && this.size == size && this.home == home
      ensures fresh(spans) && fresh(sites)
    {
      this.size, this.home := size, home;
      var s, t := new nat[size], new Site[size](_ => nothing);
      for i := 0 to size
        invariant forall j :: 0 <= j < i ==> s[j] == NULL
      {
        s[i] := NULL;
      }
      spans, sites, contents := s, t, map[];
      new;
      forall x ensures x !in Taken(spans[..], size) {
        TakenMembers(spans[..], size, x);
      }
    }

    /** Writes the record in the slot where the probing stopped. */
    method Put(i: nat, ghost d: nat, span: nat, site: Site)
      requires Valid() && span != NULL && d < size && i == Probe(size, home(span), d)
      requires Passed(home(span), spans[..], span, d)
      requires spans[..][i] == NULL || spans[..][i] == span
      modifies this`contents, spans, sites
      ensures Valid() && contents == Store(old(contents), size, span, site)
    {
      if spans[i] == NULL {
        PutNew(home, spans[..], sites[..], contents, span, d, site);
      } else {
        PutOver(home, spans[..], sites[..], contents, i, site);
      }
      spans[i] := span;
      sites[i] := site;
      contents := contents[span := site];
      assert spans[..] == old(spans[..])[i := span] && sites[..] == old(sites[..])[i := site];
    }

    /** memop_site_record: keeps the record unless every slot belongs to another span. */
    method Record(span: nat, site: Site, enabled: bool)
      requires Valid() && span != NULL
      modifies this`contents, spans, sites
      ensures Valid()
      ensures contents == if enabled then Store(old(contents), size, span, site) else old(contents)
    {
      if !enabled { return; }
      ghost var before, h := spans[..], home(span);
      ghost var d: nat := 0;
      var start := home(span);
      var i := start;
      while true
        invariant d < size && i == Probe(size, h, d)
        invariant spans[..] == before && sites[..] == old(sites[..]) && contents == old(contents)
        invariant Passed(h, before, span, d)
        decreases size - d
      {
        assert before[i] == spans[i];
        if spans[i] == NULL || spans[i] == span {
          Put(i, d, span, site);
          return;
        }
        PassedOne(h, before, span, d);
        i := if i + 1 == size then 0 else i + 1;
        if i == start {
          assert d + 1 == size;
          WholeTurn(home, before, sites[..], contents, span);
          return;
        }
        d := d + 1;
      }
    }

    /** memop_site_lookup: the latest kept record of `span`, or nothing. */
    method Lookup(span: nat) returns (found: bool, site: Site)
      requires Valid()
      ensures found <==> span in contents
      ensures found ==> site == contents[span]
    {
      ghost var before, h := spans[..], home(span);
      ghost var d: nat := 0;
      var start := home(span);
      var i := start;
      site := Site([], 0);
      while true
        invariant d < size && i == Probe(size, h, d)
        invariant Passed(h, before, span, d)
        decreases size - d
      {
        assert before[i] == spans[i];
        if spans[i] == NULL {
          NotFound(home, before, sites[..], contents, span, d);
          return false, site;
        }
        if spans[i] == span {
          assert before[i] != NULL;
          assert sites[..][i] == sites[i];
          return true, sites[i];
        }
        PassedOne(h, before, span, d);
        i := if i + 1 == size then 0 else i + 1;
        if i == start {
          assert d + 1 == size;
          NotFound(home, before, sites[..], contents, span, size);
          return false, site;
        }
        d := d + 1;
      }
    }
  }
}
