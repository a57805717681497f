/** Position arithmetic shared by the rings and the deque: an unbounded position `p`
    lives in slot `p % cap` of a circular buffer. */
module Slots {

  /** Remainder by repeated subtraction, so that proofs use the lemmas below instead of
      non-linear arithmetic. */
  function Reduce(cap: nat, p: nat): (i: nat)
    requires cap > 0
    ensures i < cap
    decreases p
  {
    if p < cap then p else Reduce(cap, p - cap)
  }

  /** The slot of position `p`. */
  function Slot(cap: nat, p: nat): (i: nat)
    requires cap > 0
    ensures i < cap
  {
    Reduce(cap, p)
  }

  lemma {:induction false} SlotIsRemainder(cap: nat, p: nat)
    requires cap > 0
    ensures Slot(cap, p) == p % cap
    decreases p
  {
    if p < cap {
      UniqueRemainder(cap, p, 0, p);
    } else {
      SlotIsRemainder(cap, p - cap);
      RemainderShift(cap, p - cap);
    }
  }

  lemma RemainderShift(cap: nat, p: nat)
    requires cap > 0
    ensures (p + cap) % cap == p % cap
  {
    var q, r := p / cap, p % cap;
    assert p + cap == (q + 1) * cap + r;
    UniqueRemainder(cap, p + cap, q + 1, r);
  }

  lemma UniqueRemainder(cap: nat, p: nat, q: nat, r: nat)
    requires cap > 0 && r < cap && p == q * cap + r
    ensures p % cap == r
  {
    var q', r' := p / cap, p % cap;
    assert (q - q') * cap == r' - r;
    if q > q' {
      assert (q - q') * cap >= cap by { MulAtLeast(q - q', cap); }
    } else if q < q' {
      assert (q' - q) * cap >= cap by { MulAtLeast(q' - q, cap); }
    }
  }

  lemma MulAtLeast(k: nat, cap: nat)
    requires k >= 1
    ensures k * cap >= cap
  {
    assert k * cap == cap + (k - 1) * cap;
  }

  /** Two positions less than one lap apart never share a slot. */
  lemma {:induction false} SlotInjective(cap: nat, p: nat, q: nat)
    requires cap > 0
    requires p < q < p + cap
    ensures Slot(cap, p) != Slot(cap, q)
    decreases p
  {
    if p < cap {
      if q >= cap {
        assert Slot(cap, q) == Slot(cap, q - cap) == q - cap;
      }
    } else {
      SlotInjective(cap, p - cap, q - cap);
    }
  }

  /** SlotInjective for every position within one lap of `p`, on both sides. */
  lemma OneLap(cap: nat, p: nat)
    requires cap > 0
    ensures forall q: nat {:trigger Slot(cap, q)} ::
              p < q + cap && q < p + cap && q != p ==> Slot(cap, q) != Slot(cap, p)
  {
    forall q: nat | p < q + cap && q < p + cap && q != p
      ensures Slot(cap, q) != Slot(cap, p)
    {
      if p < q { SlotInjective(cap, p, q); } else { SlotInjective(cap, q, p); }
    }
  }

  /** One lap later is the same slot. */
  lemma NextLap(cap: nat, p: nat)
    requires cap > 0
    ensures Slot(cap, p + cap) == Slot(cap, p)
  {
  }
}
