/** The 32-bit words that both rings keep their positions in: modular values, their difference, and
    the sign test on it. */
module Words32 {
  import opened Slots

  const TWO32: int := 0x1_0000_0000
  const TWO31: int := 0x8000_0000

  /** The 32-bit word a position is stored in (WrapIsRemainder ties it to `%`). */
  function W(p: nat): (w: nat)
    ensures w < TWO32
  {
    Reduce(TWO32, p)
  }

  lemma WrapIsRemainder(p: nat)
    ensures W(p) == p % TWO32
  {
    SlotIsRemainder(TWO32, p);
  }

  /** (int32_t)(a - b) of two 32-bit words. */
  function Dif32(a: int, b: int): int {
    var d := if a >= b then a - b else a - b + TWO32;
    if d < TWO31 then d else d - TWO32
  }

  /** The capacities the program accepts: powers of two up to 2^30, which all divide 2^32. */
  ghost predicate GoodCap(cap: nat) {
    2 <= cap <= 0x4000_0000 && exists laps: nat {:trigger Laps(cap, laps)} :: Laps(cap, laps)
  }

  predicate Laps(cap: nat, laps: nat) {
    laps * cap == TWO32
  }

  lemma {:induction false} ManyLaps(cap: nat, p: nat, laps: nat)
    requires cap > 0
    ensures laps * cap >= 0
    ensures Slot(cap, p + laps * cap) == Slot(cap, p)
    decreases laps
  {
    if laps > 0 {
      assert laps * cap == (laps - 1) * cap + cap;
      ManyLaps(cap, p, laps - 1);
      NextLap(cap, p + (laps - 1) * cap);
    }
  }

  lemma {:induction false} ManyWraps(cap: nat, p: nat, k: nat)
    requires GoodCap(cap)
    ensures Slot(cap, p + k * TWO32) == Slot(cap, p)
    decreases k
  {
    if k > 0 {
      ManyWraps(cap, p, k - 1);
      var laps: nat :| Laps(cap, laps);
      ManyLaps(cap, p + (k - 1) * TWO32, laps);
    }
  }

  /** A wrapped position lives in the slot of the position it stands for. */
  lemma WrapKeepsSlot(cap: nat, p: nat)
    requires GoodCap(cap)
    ensures Slot(cap, W(p)) == Slot(cap, p)
  {
    WrapIsRemainder(p);
    ManyWraps(cap, p % TWO32, p / TWO32);
    assert p % TWO32 + (p / TWO32) * TWO32 == p;
  }

  lemma WrapIsInjectiveNearby(a: nat, b: nat)
    requires -TWO32 < a - b < TWO32
    ensures W(a) == W(b) <==> a == b
  {
    WrapIsRemainder(a);
    WrapIsRemainder(b);
  }

  /** The signed 32-bit difference is the true one while that fits. */
  lemma Dif32IsExact(a: nat, b: nat)
    requires -TWO31 <= a - b < TWO31
    ensures Dif32(W(a), W(b)) == a - b
  {
    WrapIsRemainder(a);
    WrapIsRemainder(b);
  }

  lemma WrapAdds(a: nat, b: nat)
    ensures W(W(a) + b) == W(a + b)
  {
    WrapIsRemainder(a);
    WrapIsRemainder(W(a) + b);
    WrapIsRemainder(a + b);
  }

  lemma ZeroDif(a: nat, b: nat)
    ensures Dif32(W(a), W(b)) == 0 <==> W(a) == W(b)
  {
  }

  /** What the sign test reads off two words, whatever lap each of them is on. */
  lemma SignTest(a: nat, b: nat)
    requires a >= b
    ensures Dif32(W(a), W(b)) == 0 <==> (a - b) % TWO32 == 0
    ensures Dif32(W(a), W(b)) < 0 <==> (a - b) % TWO32 >= TWO31
  {
    WrapIsRemainder(a);
    WrapIsRemainder(b);
  }

  /** Two positions share a word exactly when they are whole ranges apart. */
  lemma SameWord(a: nat, b: nat)
    ensures W(a) == W(b) <==> (a - b) % TWO32 == 0
  {
    WrapIsRemainder(a);
    WrapIsRemainder(b);
  }
}
