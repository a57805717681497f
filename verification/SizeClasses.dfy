/** The size classes, the lookup table that finds them, the geometry of the blocks in a span, and the
    size the allocator reports for a block. */
module SizeClasses {

  const MAX_SMALL: nat := 16384
  const SPAN_SIZE: nat := 65536
  const HEADER: nat := 64
  const TWO32: nat := 0x1_0000_0000
  const TWO64: nat := 0x1_0000_0000_0000_0000

  const CLASS_SIZES: seq<nat> := [
    16, 32, 48, 64, 80, 96, 112, 128, 160, 192, 224, 256, 320, 384, 448, 512,
    640, 768, 896, 1024, 1280, 1536, 1792, 2048, 2560, 3072, 3584, 4096,
    5120, 6144, 7168, 8192, 10240, 12288, 14336, 16384]

  const CLASS_COUNT: nat := |CLASS_SIZES|

  /** Rounds `v` up to a multiple of `a`, which the program does with a mask. */
  function AlignUp(v: nat, a: nat): nat
    requires a > 0
  {
    (v + a - 1) / a * a
  }

  function Stride(c: nat): nat
    requires c < CLASS_COUNT
  {
    AlignUp(CLASS_SIZES[c], 16)
  }

  /** Every class is a positive multiple of 16, at most 16 KB, and its own stride. */
  lemma ClassIsItsStride(c: nat)
    requires c < CLASS_COUNT
    ensures CLASS_SIZES[c] % 16 == 0 && 16 <= CLASS_SIZES[c] <= MAX_SMALL
    ensures Stride(c) == CLASS_SIZES[c]
  {
    AlignedStays(CLASS_SIZES[c]);
  }

  lemma AlignedStays(v: nat)
    requires v % 16 == 0
    ensures AlignUp(v, 16) == v
  {
  }

  lemma ClassesGrow(c: nat, d: nat)
    requires c < d < CLASS_COUNT
    ensures CLASS_SIZES[c] < CLASS_SIZES[d]
    decreases d
  {
    if c < d - 1 { ClassesGrow(c, d - 1); }
  }

  // ---------------------------------------------------------------- the lookup table

  /** The smallest class of at least `size` bytes. */
  ghost predicate Fits(size: nat, c: nat) {
    c < CLASS_COUNT && CLASS_SIZES[c] >= size && forall d {:trigger CLASS_SIZES[d]} :: 0 <= d < c ==> CLASS_SIZES[d] < size
  }

  /** memop_build_size2class: bucket `i` of eight bytes leads to the class of its largest size. */
  method BuildTable(table: array<nat>)
    requires table.Length == MAX_SMALL / 8
    modifies table
    ensures forall i :: 0 <= i < table.Length ==> Fits(8 * (i + 1), table[i])
  {
    for i := 0 to table.Length
      invariant forall j :: 0 <= j < i ==> Fits(8 * (j + 1), table[j])
    {
      var size, c := (i + 1) * 8, 0;
      while c < CLASS_COUNT && CLASS_SIZES[c] < size
        invariant 0 <= c < CLASS_COUNT
        invariant forall d {:trigger CLASS_SIZES[d]} :: 0 <= d < c ==> CLASS_SIZES[d] < size
      {
        assert CLASS_SIZES[CLASS_COUNT - 1] == MAX_SMALL;
        c := c + 1;
      }
      table[i] := c;
    }
  }

  /** memop_class_index, or no class for an empty or a large request. */
  function ClassIndex(table: seq<nat>, size: nat): int
    requires |table| == MAX_SMALL / 8
  {
    if size == 0 || size > MAX_SMALL then -1 else table[(size - 1) / 8]
  }

  ghost predicate Built(table: seq<nat>) {
    |table| == MAX_SMALL / 8 && forall i {:trigger table[i]} :: 0 <= i < |table| ==> Fits(8 * (i + 1), table[i])
  }

  /** The table is exact: it finds the smallest class for every small size, although it looks at the
      size in steps of eight bytes. */
  lemma TableIsExact(table: seq<nat>, size: nat)
    requires Built(table)
    ensures 1 <= size <= MAX_SMALL <==> ClassIndex(table, size) >= 0
    ensures 1 <= size <= MAX_SMALL ==> Fits(size, ClassIndex(table, size))
  {
    if 1 <= size <= MAX_SMALL {
      var i := (size - 1) / 8;
      var c := table[i];
      assert Fits(8 * (i + 1), c);
      forall d | 0 <= d < c ensures CLASS_SIZES[d] < size {
        ClassIsItsStride(d);
        MultiplesOfEight(CLASS_SIZES[d], i);
      }
    }
  }

  lemma MultiplesOfEight(v: nat, i: nat)
    requires v % 16 == 0 && v < 8 * (i + 1)
    ensures v <= 8 * i
  {
  }

  // ---------------------------------------------------------------- blocks in a span

  /** The strides of the small classes: see ClassIsItsStride. */
  predicate SmallStride(stride: nat) {
    16 <= stride <= MAX_SMALL
  }

  function BlockCount(stride: nat): nat
    requires SmallStride(stride)
  {
    (SPAN_SIZE - HEADER) / stride
  }

  function BlockAt(base: nat, stride: nat, i: nat): nat {
    base + HEADER + i * stride
  }

  predicate InBlock(base: nat, stride: nat, i: nat, x: nat) {
    BlockAt(base, stride, i) <= x < BlockAt(base, stride, i) + stride
  }

  /** span_of: the pointer mask. */
  function SpanOf(p: nat): nat {
    p / SPAN_SIZE * SPAN_SIZE
  }

  lemma Between(base: nat, x: nat)
    requires base % SPAN_SIZE == 0 && base <= x < base + SPAN_SIZE
    ensures SpanOf(x) == base
  {
  }

  lemma Steps(i: nat, j: nat, stride: nat)
    requires i < j
    ensures i * stride + stride <= j * stride
    decreases j
  {
    if i + 1 < j { Steps(i, j - 1, stride); }
    assert j * stride == (j - 1) * stride + stride;
  }

  lemma Quotient(n: nat, d: nat)
    requires d > 0
    ensures n / d * d <= n < n / d * d + d
  {
  }

  /** Every byte of every block lies past the header inside its span, and the mask leads back. */
  lemma BlocksAreInside(base: nat, stride: nat, i: nat, x: nat)
    requires base % SPAN_SIZE == 0 && SmallStride(stride) && i < BlockCount(stride) && InBlock(base, stride, i, x)
    ensures base + HEADER <= x < base + SPAN_SIZE && SpanOf(x) == base
  {
    var n := BlockCount(stride);
    Quotient(SPAN_SIZE - HEADER, stride);
    Steps(i, n, stride);
    Between(base, x);
  }

  /** Different blocks, of one span or of two, share no byte. */
  lemma BlocksAreDisjoint(base: nat, stride: nat, i: nat, base': nat, stride': nat, j: nat, x: nat)
    requires base % SPAN_SIZE == 0 && SmallStride(stride) && i < BlockCount(stride) && InBlock(base, stride, i, x)
    requires base' % SPAN_SIZE == 0 && SmallStride(stride') && j < BlockCount(stride')
    requires base == base' ==> stride == stride' && i != j
    ensures !InBlock(base', stride', j, x)
  {
    BlocksAreInside(base, stride, i, x);
    if base != base' {
      if InBlock(base', stride', j, x) { BlocksAreInside(base', stride', j, x); }
    } else if i < j {
      Steps(i, j, stride);
    } else {
      Steps(j, i, stride);
    }
  }

  /** Every span holds at least three blocks, so a span that was full is not empty after one free. */
  lemma AtLeastThreeBlocks(stride: nat)
    requires SmallStride(stride)
    ensures BlockCount(stride) >= 3
  {
    var n := BlockCount(stride);
    Quotient(SPAN_SIZE - HEADER, stride);
    if n <= 2 { assert n * stride <= 2 * stride by { if n < 2 { Steps(n, 2, stride); } } }
  }

  // ---------------------------------------------------------------- large blocks

  /** The bytes a large request is rounded to, in 64-bit arithmetic. */
  function LargeTotal(size: nat): nat {
    ((size + HEADER) % TWO64 + SPAN_SIZE - 1) % TWO64 / SPAN_SIZE * SPAN_SIZE
  }

  /** What the header records as the size of the block, in 32 bits. */
  function LargeStride(size: nat): nat {
    (LargeTotal(size) + TWO64 - HEADER) % TWO32
  }

  lemma AlignedResidue(u: nat)
    ensures (u * SPAN_SIZE + TWO64 - HEADER) % TWO32 % SPAN_SIZE == SPAN_SIZE - HEADER
  {
    var k, b := u * SPAN_SIZE, TWO32;
    var r := (k + TWO64 - HEADER) % b;
    var q := (k + TWO64 - HEADER) / b;
    assert r == k + TWO64 - HEADER - q * b;
    assert r == (u + TWO64 / SPAN_SIZE - q * (TWO32 / SPAN_SIZE) - 1) * SPAN_SIZE + (SPAN_SIZE - HEADER);
  }

  /** The recorded size covers the request exactly when the request is at most 2^32 - 64. */
  lemma LargeCoversUpTo32Bits(size: nat)
    requires MAX_SMALL < size < TWO64
    ensures LargeStride(size) >= size <==> size <= TWO32 - HEADER
  {
    if size <= TWO32 - HEADER {
      assert LargeTotal(size) == (size + HEADER + SPAN_SIZE - 1) / SPAN_SIZE * SPAN_SIZE;
      assert size + HEADER <= LargeTotal(size) <= TWO32;
    } else {
      AlignedResidue(((size + HEADER) % TWO64 + SPAN_SIZE - 1) % TWO64 / SPAN_SIZE);
      assert LargeStride(size) % SPAN_SIZE == SPAN_SIZE - HEADER && LargeStride(size) < TWO32;
    }
  }
}
