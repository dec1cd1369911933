/**
 * Bit-field access on 64-bit and 128-bit words, and clamping to a byte
 * (Gorgon.BCnEncoder.NET/Shared/ByteHelper.cs).
 *
 * A 128-bit block is held as two ulongs, low and high; its bit k is bit k of
 * low when k < 64 and bit k - 64 of high otherwise, which is element k of the
 * sequence low + high.
 */
module ByteHelper {
  import opened Bits

  /** ClampToByte(int): values below 0 become 0, values above 255 become 255. */
  function ClampToByte(i: int): (r: byte)
    ensures i < 0 ==> r == 0
    ensures i > 255 ==> r == 255
    ensures 0 <= i <= 255 ==> r == i
  {
    if i < 0 then 0 else if i > 255 then 255 else i
  }

  lemma ClampToByteMonotone(i: int, j: int)
    requires i <= j
    ensures ClampToByte(i) <= ClampToByte(j)
  {
  }

  lemma ClampToByteIdempotent(i: int)
    ensures ClampToByte(ClampToByte(i)) == ClampToByte(i)
  {
  }

  /** The ulong constant 1. */
  function One(): Ulong
  {
    FromNat(1, 64)
  }

  /**
   * The mask (1UL << bitCount) - 1: since the shift count is taken modulo
   * 64, it has the bits below bitCount % 64 set (MaskIsShiftMinusOne).
   */
  function Mask(bitCount: int): (r: Ulong)
  {
    var c := bitCount % 64;
    seq(64, i requires 0 <= i < 64 => i < c)
  }

  /** Mask is the C# expression (1UL << bitCount) - 1, evaluated unchecked, for every bitCount. */
  lemma MaskIsShiftMinusOne(bitCount: int)
    ensures Mask(bitCount) == Sub(Shl(One(), bitCount), One())
  {
    var c := bitCount % 64;
    assert Shl(One(), bitCount) == Shl(One(), c);
    LowMask(64, c);
    forall i | 0 <= i < 64
      ensures Mask(bitCount)[i] == FromNat(Pow2(c) - 1, 64)[i]
    {
      LowOnes(64, c, i);
    }
  }

  /** (source >> index) & mask, with mask = (1 << bitCount) - 1. */
  function Extract(source: Ulong, index: int, bitCount: int): Ulong
  {
    And(Shr(source, index), Mask(bitCount))
  }

  /** Replaces the bitCount bits of dest at index with the low bits of value. */
  function Store(dest: Ulong, index: int, bitCount: int, value: Ulong): Ulong
  {
    var mask := Mask(bitCount);
    Or(And(dest, Not(Shl(mask, index))), Shl(And(value, mask), index))
  }

  /** The field read by Extract: bitCount bits of source starting at index. */
  lemma ExtractBits(source: Ulong, index: int, bitCount: int)
    requires 0 <= index < 64 && 0 <= bitCount < 64
    ensures forall i :: 0 <= i < 64 ==>
      Extract(source, index, bitCount)[i] == (i < bitCount && i + index < 64 && source[i + index])
  {
  }

  /** Store writes value's low bits into the field and leaves every other bit of dest alone. */
  lemma StoreBits(dest: Ulong, index: int, bitCount: int, value: Ulong)
    requires 0 <= index < 64 && 0 <= bitCount < 64
    ensures forall i :: 0 <= i < 64 ==>
      Store(dest, index, bitCount, value)[i] ==
        if index <= i < index + bitCount then value[i - index] else dest[i]
  {
  }

  /** Reading back a stored field gives the stored value, cut to bitCount bits. */
  lemma ExtractStore(dest: Ulong, index: int, bitCount: int, value: Ulong)
    requires 0 <= index && 0 <= bitCount < 64 && index + bitCount <= 64
    ensures Extract(Store(dest, index, bitCount, value), index, bitCount) == And(value, Mask(bitCount))
  {
  }

  /** Storing one field leaves a disjoint field unchanged. */
  lemma ExtractStoreDisjoint(dest: Ulong, index: int, bitCount: int, value: Ulong, j: int, m: int)
    requires 0 <= index && 0 <= bitCount < 64 && index + bitCount <= 64
    requires 0 <= j && 0 <= m < 64 && j + m <= 64
    requires index + bitCount <= j || j + m <= index
    ensures Extract(Store(dest, index, bitCount, value), j, m) == Extract(dest, j, m)
  {
  }

  /** Storing the field that is already there changes nothing. */
  lemma StoreExtract(dest: Ulong, index: int, bitCount: int)
    requires 0 <= index && 0 <= bitCount < 64 && index + bitCount <= 64
    ensures Store(dest, index, bitCount, Extract(dest, index, bitCount)) == dest
  {
  }

  /** A second store to the same field overrides the first. */
  lemma StoreStore(dest: Ulong, index: int, bitCount: int, v: Ulong, w: Ulong)
    requires 0 <= index && 0 <= bitCount < 64 && index + bitCount <= 64
    ensures Store(Store(dest, index, bitCount, v), index, bitCount, w) == Store(dest, index, bitCount, w)
  {
  }

  /** Storing an empty field changes nothing, wherever it is. */
  lemma StoreEmpty(dest: Ulong, index: int, value: Ulong)
    ensures Store(dest, index, 0, value) == dest
  {
    assert forall i :: 0 <= i < 64 ==> !Mask(0)[i];
  }

  // ---------------------------------------------------------------------
  // Fixed-width fields read as bytes.
  // ---------------------------------------------------------------------

  /** The C# cast (byte)w: the low 8 bits of w. */
  function ByteOf(w: Ulong): byte
  {
    ToNat(w) % 256
  }

  /** Casting a word with no bits at or above n <= 8 to a byte keeps its value. */
  lemma ByteOfSmall(w: Ulong, n: nat)
    requires n <= 8
    requires forall k :: n <= k < 64 ==> !w[k]
    ensures ByteOf(w) == ToNat(w) < Pow2(n)
  {
    ToNatBelow(w, n);
    Pow2Mono(n, 8);
    Pow2Of16();
  }

  /** The literal masks 0b1, 0b11, 0b1111 and 0b11_1111 are Mask(1), Mask(2), Mask(4), Mask(6). */
  lemma LiteralMask(n: nat)
    requires 0 < n < 64
    ensures FromNat(Pow2(n) - 1, 64) == Mask(n)
  {
    forall i | 0 <= i < 64
      ensures FromNat(Pow2(n) - 1, 64)[i] == Mask(n)[i]
    {
      LowOnes(64, n, i);
    }
  }

  /** Masking the ulong value of a number v to n bits gives v % 2^n. */
  lemma MaskNat(v: nat, n: nat)
    requires 0 < n < 64
    ensures ToNat(And(FromNat(v, 64), Mask(n))) == v % Pow2(n)
  {
    var w := And(FromNat(v, 64), Mask(n));
    forall k | 0 <= k < 64
      ensures w[k] == FromNat(v % Pow2(n), 64)[k]
    {
      MaskNatBit(v, n, k);
    }
    assert w == FromNat(v % Pow2(n), 64);
    Pow2Below(n, 64);
    ToNatFromNat(v % Pow2(n), 64);
  }

  lemma MaskNatBit(v: nat, n: nat, k: nat)
    requires 0 < n < 64 && k < 64
    ensures And(FromNat(v, 64), Mask(n))[k] == FromNat(v % Pow2(n), 64)[k]
  {
    DivBounds(v, Pow2(n));
    var r: nat := v % Pow2(n);
    assert Mask(n)[k] == (k < n);
    assert FromNat(v, 64)[k] == Bit(v, k) && FromNat(r, 64)[k] == Bit(r, k);
    BitMod(v, n, k);
  }

  /** A byte, once masked to n <= 8 bits and cast back, is the number v % 2^n. */
  lemma ByteOfMaskNat(v: nat, n: nat)
    requires 0 < n <= 8
    ensures ByteOf(And(FromNat(v, 64), Mask(n))) == v % Pow2(n)
  {
    MaskNat(v, n);
    ByteOfSmall(And(FromNat(v, 64), Mask(n)), n);
  }

  /** Extract1: the bit of source at index. */
  function Extract1(source: Ulong, index: int): (r: byte)
    ensures r == ByteOf(Extract(source, index, 1))
  {
    LiteralMask(1);
    ByteOf(And(Shr(source, index), FromNat(0x1, 64)))
  }

  function Store1(dest: Ulong, index: int, value: byte): (r: Ulong)
    ensures r == Store(dest, index, 1, FromNat(value, 64))
  {
    LiteralMask(1);
    var mask := FromNat(0x1, 64);
    Or(And(dest, Not(Shl(mask, index))), Shl(And(FromNat(value, 64), mask), index))
  }

  /** Extract2: the 2-bit field of source at index. */
  function Extract2(source: Ulong, index: int): (r: byte)
    ensures r == ByteOf(Extract(source, index, 2))
  {
    LiteralMask(2);
    ByteOf(And(Shr(source, index), FromNat(0x3, 64)))
  }

  function Store2(dest: Ulong, index: int, value: byte): (r: Ulong)
    ensures r == Store(dest, index, 2, FromNat(value, 64))
  {
    LiteralMask(2);
    var mask := FromNat(0x3, 64);
    Or(And(dest, Not(Shl(mask, index))), Shl(And(FromNat(value, 64), mask), index))
  }

  /** Extract4: the 4-bit field of source at index. */
  function Extract4(source: Ulong, index: int): (r: byte)
    ensures r == ByteOf(Extract(source, index, 4))
  {
    LiteralMask(4);
    ByteOf(And(Shr(source, index), FromNat(0xF, 64)))
  }

  function Store4(dest: Ulong, index: int, value: byte): (r: Ulong)
    ensures r == Store(dest, index, 4, FromNat(value, 64))
  {
    LiteralMask(4);
    var mask := FromNat(0xF, 64);
    Or(And(dest, Not(Shl(mask, index))), Shl(And(FromNat(value, 64), mask), index))
  }

  /** Extract6: the 6-bit field of source at index. */
  function Extract6(source: Ulong, index: int): (r: byte)
    ensures r == ByteOf(Extract(source, index, 6))
  {
    LiteralMask(6);
    ByteOf(And(Shr(source, index), FromNat(0x3F, 64)))
  }

  function Store6(dest: Ulong, index: int, value: byte): (r: Ulong)
    ensures r == Store(dest, index, 6, FromNat(value, 64))
  {
    LiteralMask(6);
    var mask := FromNat(0x3F, 64);
    Or(And(dest, Not(Shl(mask, index))), Shl(And(FromNat(value, 64), mask), index))
  }

  /** A byte stored in an n-bit field (n in {1, 2, 4, 6}) reads back as its low n bits. */
  lemma FixedFieldRoundTrip(dest: Ulong, index: int, value: byte)
    requires 0 <= index && index + 6 <= 64
    ensures Extract1(Store1(dest, index, value), index) == value % 2
    ensures Extract2(Store2(dest, index, value), index) == value % 4
    ensures Extract4(Store4(dest, index, value), index) == value % 16
    ensures Extract6(Store6(dest, index, value), index) == value % 64
  {
    var v := FromNat(value, 64);
    ExtractStore(dest, index, 1, v);
    ExtractStore(dest, index, 2, v);
    ExtractStore(dest, index, 4, v);
    ExtractStore(dest, index, 6, v);
    ByteOfMaskNat(value, 1);
    ByteOfMaskNat(value, 2);
    ByteOfMaskNat(value, 4);
    ByteOfMaskNat(value, 6);
  }

  // ---------------------------------------------------------------------
  // Fields of a 128-bit block held as (low, high).
  // ---------------------------------------------------------------------

  /** Reads bitCount bits at index; a field that straddles bit 64 is assembled from both halves. */
  function ExtractFrom128(low: Ulong, high: Ulong, index: int, bitCount: int): Ulong
  {
    if index + bitCount <= 64 then
      Extract(low, index, bitCount)
    else if index >= 64 then
      Extract(high, index - 64, bitCount)
    else
      var lowIndex := index;
      var lowBitCount := 64 - index;
      var highBitCount := bitCount - lowBitCount;
      var highIndex := 0;
      var value := Extract(low, lowIndex, lowBitCount);
      var hVal := Extract(high, highIndex, highBitCount);
      Store(value, lowBitCount, highBitCount, hVal)
  }

  /** Writes bitCount bits of value at index; a straddling field is split over both halves. */
  function StoreTo128(low: Ulong, high: Ulong, index: int, bitCount: int, value: Ulong): (Ulong, Ulong)
  {
    if index + bitCount <= 64 then
      (Store(low, index, bitCount, value), high)
    else if index >= 64 then
      (low, Store(high, index - 64, bitCount, value))
    else
      var lowIndex := index;
      var lowBitCount := 64 - index;
      var highBitCount := bitCount - lowBitCount;
      var highIndex := 0;
      var l := Store(low, lowIndex, lowBitCount, value);
      var shifted := Shr(value, lowBitCount);
      var h := Store(high, highIndex, highBitCount, shifted);
      (l, h)
  }

  /** ExtractFrom128 reads bits index .. index + bitCount - 1 of the block low + high. */
  lemma ExtractFrom128Bits(low: Ulong, high: Ulong, index: int, bitCount: int)
    requires 0 <= index && 0 <= bitCount < 64 && index + bitCount <= 128
    ensures forall i :: 0 <= i < 64 ==>
      ExtractFrom128(low, high, index, bitCount)[i] == (i < bitCount && (low + high)[index + i])
  {
    if bitCount == 0 {
      assert forall i :: 0 <= i < 64 ==> !Mask(0)[i];
    } else if index + bitCount <= 64 {
      ExtractBits(low, index, bitCount);
    } else if index >= 64 {
      ExtractBits(high, index - 64, bitCount);
    } else {
      var lowBitCount := 64 - index;
      var highBitCount := bitCount - lowBitCount;
      ExtractBits(low, index, lowBitCount);
      ExtractBits(high, 0, highBitCount);
      StoreBits(Extract(low, index, lowBitCount), lowBitCount, highBitCount, Extract(high, 0, highBitCount));
    }
  }

  /** The block low + high after StoreTo128, bit by bit, in the three cases of its body. */
  lemma StoreTo128LowBits(low: Ulong, high: Ulong, index: int, bitCount: int, value: Ulong)
    requires 0 <= index && 0 <= bitCount < 64 && index + bitCount <= 64
    ensures var (l, h) := StoreTo128(low, high, index, bitCount, value);
      h == high &&
      forall k :: 0 <= k < 64 ==> l[k] == if index <= k < index + bitCount then value[k - index] else low[k]
  {
    if bitCount == 0 {
      StoreEmpty(low, index, value);
    } else {
      StoreBits(low, index, bitCount, value);
    }
  }

  lemma StoreTo128HighBits(low: Ulong, high: Ulong, index: int, bitCount: int, value: Ulong)
    requires 64 <= index && 0 <= bitCount < 64 && 64 < index + bitCount <= 128
    ensures var (l, h) := StoreTo128(low, high, index, bitCount, value);
      l == low &&
      forall k :: 0 <= k < 64 ==> h[k] == if index - 64 <= k < index - 64 + bitCount then value[k - (index - 64)] else high[k]
  {
    if bitCount == 0 {
      StoreEmpty(high, index - 64, value);
    } else {
      StoreBits(high, index - 64, bitCount, value);
    }
  }

  lemma StoreTo128StraddleBits(low: Ulong, high: Ulong, index: int, bitCount: int, value: Ulong)
    requires 0 <= index < 64 && 0 <= bitCount < 64 && 64 < index + bitCount
    ensures var (l, h) := StoreTo128(low, high, index, bitCount, value);
      (forall k :: 0 <= k < 64 ==> l[k] == if index <= k then value[k - index] else low[k]) &&
      (forall k :: 0 <= k < 64 ==> h[k] == if k < index + bitCount - 64 then value[k + 64 - index] else high[k])
  {
    StraddleLowBits(low, high, index, bitCount, value);
    StraddleHighBits(low, high, index, bitCount, value);
  }

  lemma StraddleLowBits(low: Ulong, high: Ulong, index: int, bitCount: int, value: Ulong)
    requires 0 <= index < 64 && 0 <= bitCount < 64 && 64 < index + bitCount
    ensures var (l, h) := StoreTo128(low, high, index, bitCount, value);
      forall k :: 0 <= k < 64 ==> l[k] == if index <= k then value[k - index] else low[k]
  {
    StoreBits(low, index, 64 - index, value);
  }

  lemma StraddleHighBits(low: Ulong, high: Ulong, index: int, bitCount: int, value: Ulong)
    requires 0 <= index < 64 && 0 <= bitCount < 64 && 64 < index + bitCount
    ensures var (l, h) := StoreTo128(low, high, index, bitCount, value);
      forall k :: 0 <= k < 64 ==> h[k] == if k < index + bitCount - 64 then value[k + 64 - index] else high[k]
  {
    StoreBits(high, 0, bitCount - (64 - index), Shr(value, 64 - index));
  }

  /** StoreTo128 writes value's low bitCount bits at index of the block and keeps every other bit. */
  lemma StoreTo128Bits(low: Ulong, high: Ulong, index: int, bitCount: int, value: Ulong)
    requires 0 <= index && 0 <= bitCount < 64 && index + bitCount <= 128
    ensures var (l, h) := StoreTo128(low, high, index, bitCount, value);
      forall k :: 0 <= k < 128 ==>
        (l + h)[k] == if index <= k < index + bitCount then value[k - index] else (low + high)[k]
  {
    if index + bitCount <= 64 {
      StoreTo128LowBits(low, high, index, bitCount, value);
    } else if index >= 64 {
      StoreTo128HighBits(low, high, index, bitCount, value);
    } else {
      StoreTo128StraddleBits(low, high, index, bitCount, value);
    }
  }

  /** A field stored into the 128-bit block reads back as the stored value cut to bitCount bits. */
  lemma ExtractFrom128StoreTo128(low: Ulong, high: Ulong, index: int, bitCount: int, value: Ulong)
    requires 0 <= index && 0 <= bitCount < 64 && index + bitCount <= 128
    ensures var (l, h) := StoreTo128(low, high, index, bitCount, value);
      ExtractFrom128(l, h, index, bitCount) == And(value, Mask(bitCount))
  {
    var (l, h) := StoreTo128(low, high, index, bitCount, value);
    StoreTo128Bits(low, high, index, bitCount, value);
    ExtractFrom128Bits(l, h, index, bitCount);
    var e, m := ExtractFrom128(l, h, index, bitCount), And(value, Mask(bitCount));
    forall i | 0 <= i < 64
      ensures e[i] == m[i]
    {
      assert m[i] == (value[i] && i < bitCount);
      if i < bitCount {
        assert e[i] == (l + h)[index + i];
      }
    }
    assert e == m;
  }

  /** Storing a field of the 128-bit block leaves every disjoint field unchanged. */
  lemma StoreTo128Frame(low: Ulong, high: Ulong, index: int, bitCount: int, value: Ulong, j: int, m: int)
    requires 0 <= index && 0 <= bitCount < 64 && index + bitCount <= 128
    requires 0 <= j && 0 <= m < 64 && j + m <= 128
    requires index + bitCount <= j || j + m <= index
    ensures var (l, h) := StoreTo128(low, high, index, bitCount, value);
      ExtractFrom128(l, h, j, m) == ExtractFrom128(low, high, j, m)
  {
    var (l, h) := StoreTo128(low, high, index, bitCount, value);
    StoreTo128Bits(low, high, index, bitCount, value);
    ExtractFrom128Bits(l, h, j, m);
    ExtractFrom128Bits(low, high, j, m);
  }

  /** The number v stored into a field of the block reads back as v % 2^bitCount. */
  lemma ExtractFrom128StoreTo128Nat(low: Ulong, high: Ulong, index: int, bitCount: int, v: nat)
    requires 0 <= index && 0 <= bitCount < 64 && index + bitCount <= 128
    ensures var (l, h) := StoreTo128(low, high, index, bitCount, FromNat(v, 64));
      ToNat(ExtractFrom128(l, h, index, bitCount)) == v % Pow2(bitCount)
  {
    ExtractFrom128StoreTo128(low, high, index, bitCount, FromNat(v, 64));
    if bitCount == 0 {
      var z := And(FromNat(v, 64), Mask(0));
      ToNatBelow(z, 0);
    } else {
      MaskNat(v, bitCount);
    }
  }
}
