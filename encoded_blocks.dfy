/**
 * The BC1-BC5 block structs of Gorgon.BCnEncoder.NET/Shared/EncodedBlocks.cs.
 *
 * BC1, BC2 and BC3 keep sixteen 2-bit colour indices in a uint, texel i in
 * bits 2i and 2i + 1. BC3's alpha word and BC4's and BC5's channel words are
 * ulongs laid out alike: endpoint 0 in bits 0-7, endpoint 1 in bits 8-15 and
 * sixteen 3-bit indices from bit 16 on, texel i in bits 16 + 3i .. 18 + 3i.
 * The source repeats the accessors of that layout in every struct; here they
 * are written once, on the word, and each struct's members use them.
 *
 * The interpolated palette entries are computed in double arithmetic, so
 * Decode names the entry a texel takes (an endpoint, a stored byte, or the
 * blend of the endpoints with given weights) rather than its float colour.
 */
module EncodedBlocks {
  import opened Bits
  import opened ByteHelper
  import opened Colors

  // ---------------------------------------------------------------------
  // 2-bit colour indices in a uint.
  // ---------------------------------------------------------------------

  /** The first bit of texel index's 2-bit field; the shift count is taken modulo 32. */
  function ColorSlot(index: int): (c: nat)
    ensures c == (index * 2) % 32 && c % 2 == 0 && c <= 30
  {
    2 * (index % 16)
  }

  /** 1 for a set bit, 0 for a clear one. */
  function BitValue(b: bool): nat
  {
    if b then 1 else 0
  }

  /**
   * The indexer's getter, (int)(colorIndices >> (index * 2)) & 0b11, read
   * off the two bits of texel index's field (ColorIndexIsGetter).
   */
  function ColorIndex(colorIndices: Uint, index: int): (r: nat)
    ensures r < 4
  {
    var c := ColorSlot(index);
    BitValue(colorIndices[c]) + 2 * BitValue(colorIndices[c + 1])
  }

  /** ColorIndex is the value of the getter's expression. */
  lemma ColorIndexIsGetter(colorIndices: Uint, index: int)
    ensures ColorIndex(colorIndices, index) == ToNat(And(Shr(colorIndices, index * 2), FromNat(3, 32)))
  {
    var y := And(Shr(colorIndices, index * 2), FromNat(3, 32));
    ThreeBits();
    TwoBitValue(y);
  }

  /**
   * The indexer's setter: the two bits are cleared, then value & 0b11 is
   * or-ed in. Every operand is cut to 32 bits by the (uint) casts.
   */
  function WithColorIndex(colorIndices: Uint, index: int, value: int): (r: Uint)
    ensures forall k :: 0 <= k < 32 && k / 2 != index % 16 ==> r[k] == colorIndices[k]
  {
    var cleared := And(colorIndices, Not(Shl(FromNat(3, 32), index * 2)));
    var v := value % 4;
    ThreeBits();
    LowTwoBits(v);
    Or(cleared, Shl(FromNat(v, 32), index * 2))
  }

  lemma ThreeBits()
    ensures forall k :: 0 <= k < 32 ==> FromNat(3, 32)[k] == (k < 2)
  {
    forall k | 0 <= k < 32
      ensures Bit(3, k) == (k < 2)
    {
      assert Pow2(2) == 4;
      BitOnes(2, k);
    }
  }

  /** A 32-bit word with no bit above bit 1 denotes bit 0 plus twice bit 1. */
  lemma TwoBitValue(y: Word)
    requires |y| == 32
    requires forall k :: 2 <= k < 32 ==> !y[k]
    ensures ToNat(y) == (if y[0] then 1 else 0) + (if y[1] then 2 else 0)
  {
    ToNatBelow(y[2..], 0);
    assert y[1..][1..] == y[2..];
  }

  /** The word of a number below 4 has no bit above bit 1. */
  lemma LowTwoBits(v: nat)
    requires v < 4
    ensures forall k :: 2 <= k < 32 ==> !FromNat(v, 32)[k]
  {
    assert Pow2(2) == 4;
    forall k | 2 <= k < 32
      ensures !Bit(v, k)
    {
      BitAbove(v, 2, k);
    }
  }

  /** A number below 4 is its bit 0 plus twice its bit 1. */
  lemma SmallBits(x: nat)
    requires x < 4
    ensures x == (if Bit(x, 0) then 1 else 0) + (if Bit(x, 1) then 2 else 0)
  {
  }

  /** Reading back an index just written gives value & 0b11. */
  lemma ColorIndexSet(colorIndices: Uint, index: int, value: int)
    ensures ColorIndex(WithColorIndex(colorIndices, index, value), index) == value % 4
  {
    var c := ColorSlot(index);
    var v := value % 4;
    var r := WithColorIndex(colorIndices, index, value);
    ThreeBits();
    assert r[c] == Bit(v, 0) && r[c + 1] == Bit(v, 1);
    SmallBits(v);
    ColorIndexIsGetter(r, index);
  }

  /** Writing one index leaves the indices of the other fifteen texels unchanged. */
  lemma ColorIndexSetOther(colorIndices: Uint, index: int, value: int, other: int)
    requires other % 16 != index % 16
    ensures ColorIndex(WithColorIndex(colorIndices, index, value), other) == ColorIndex(colorIndices, other)
  {
    var c := ColorSlot(other);
    assert c / 2 == other % 16 && (c + 1) / 2 == other % 16;
  }

  /** The index of texel i is the one of texel i mod 16: the shift count wraps. */
  lemma ColorIndexWraps(colorIndices: Uint, index: int)
    ensures ColorIndex(colorIndices, index) == ColorIndex(colorIndices, index % 16)
  {
  }

  // ---------------------------------------------------------------------
  // Two endpoint bytes and sixteen 3-bit indices in a ulong.
  // ---------------------------------------------------------------------

  /** The first bit of texel pixelIndex's 3-bit field. */
  function LevelShift(pixelIndex: int): int
  {
    pixelIndex * 3 + 16
  }

  /** Alpha0, Red0 and Green0, (byte)(block & 0xFFUL): the byte in bits 0-7 (EndpointsAreGetters). */
  function Endpoint0(block: Ulong): (r: byte)
  {
    Pow2Of16();
    ToNat(block[..8])
  }

  /** Their setters: block &= ~0xFFUL, then block |= value. */
  function WithEndpoint0(block: Ulong, value: byte): (r: Ulong)
    ensures r == Store(block, 0, 8, FromNat(value, 64))
  {
    LiteralMask(8);
    Pow2Of16();
    forall k | 0 <= k < 64
      ensures FromNat(value, 64)[k] == And(FromNat(value, 64), Mask(8))[k]
    {
      MaskNatBit(value, 8, k);
    }
    Or(And(block, Not(FromNat(0xFF, 64))), FromNat(value, 64))
  }

  /** Alpha1, Red1 and Green1, (byte)((block >> 8) & 0xFFUL): the byte in bits 8-15 (EndpointsAreGetters). */
  function Endpoint1(block: Ulong): (r: byte)
  {
    Pow2Of16();
    ToNat(block[8..16])
  }

  /** The endpoint getters are the values of the source's expressions, and the 8-bit fields Extract reads at 0 and 8. */
  lemma EndpointsAreGetters(block: Ulong)
    ensures Endpoint0(block) == ByteOf(And(block, FromNat(0xFF, 64))) == ByteOf(Extract(block, 0, 8))
    ensures Endpoint1(block) == ByteOf(And(Shr(block, 8), FromNat(0xFF, 64))) == ByteOf(Extract(block, 8, 8))
  {
    LiteralMask(8);
    Pow2Of16();
    var e0, e1 := Extract(block, 0, 8), Extract(block, 8, 8);
    assert Shr(block, 0) == block;
    ExtractBits(block, 0, 8);
    ExtractBits(block, 8, 8);
    assert e0[..8] == block[..8];
    assert e1[..8] == block[8..16];
    ToNatLow(e0, 8);
    ToNatLow(e1, 8);
  }

  /** A word with no bit at or above n denotes the number its first n bits do. */
  lemma ToNatLow(w: Word, n: nat)
    requires n <= |w|
    requires forall k :: n <= k < |w| ==> !w[k]
    ensures ToNat(w) == ToNat(w[..n])
  {
    forall k | 0 <= k < |w|
      ensures Bit(ToNat(w), k) == Bit(ToNat(w[..n]), k)
    {
      BitToNat(w, k);
      BitToNat(w[..n], k);
    }
    Pow2Mono(n, |w|);
    BitExt(ToNat(w), ToNat(w[..n]), |w|);
  }

  /** Their setters: block &= ~0xFF00UL, then block |= (ulong)value << 8. */
  function WithEndpoint1(block: Ulong, value: byte): (r: Ulong)
    ensures r == Store(block, 8, 8, FromNat(value, 64))
  {
    HighByteMask();
    Pow2Of16();
    forall k | 0 <= k < 64
      ensures FromNat(value, 64)[k] == And(FromNat(value, 64), Mask(8))[k]
    {
      MaskNatBit(value, 8, k);
    }
    Or(And(block, Not(FromNat(0xFF00, 64))), Shl(FromNat(value, 64), 8))
  }

  lemma HighByteMask()
    ensures FromNat(0xFF00, 64) == Shl(Mask(8), 8)
  {
    forall k | 0 <= k < 64
      ensures Bit(0xFF00, k) == (8 <= k < 16)
    {
      Pow2Of16();
      FieldMaskBit(8, 8, k);
    }
  }

  /** Bit k of a ulong as a number, 0 beyond the word. */
  function BitAt(block: Ulong, k: int): nat
  {
    if 0 <= k < 64 && block[k] then 1 else 0
  }

  /**
   * GetAlphaIndex, GetRedIndex and GetGreenIndex, (byte)((block & mask) >>
   * shift) with mask = 0b0111UL << shift, read off the three bits of the
   * field (LevelIndexIsGetter). The shift count is taken modulo 64.
   */
  function LevelIndex(block: Ulong, pixelIndex: int): (r: byte)
    ensures r < 8
  {
    var s := LevelShift(pixelIndex) % 64;
    BitAt(block, s) + 2 * BitAt(block, s + 1) + 4 * BitAt(block, s + 2)
  }

  /** LevelIndex is the value of the getters' expression, and the 3-bit field Extract reads at the shift. */
  lemma LevelIndexIsGetter(block: Ulong, pixelIndex: int)
    ensures LevelIndex(block, pixelIndex) ==
      ByteOf(Shr(And(block, Shl(FromNat(7, 64), LevelShift(pixelIndex))), LevelShift(pixelIndex)))
    ensures LevelIndex(block, pixelIndex) == ByteOf(Extract(block, LevelShift(pixelIndex), 3))
  {
    var shift := LevelShift(pixelIndex);
    var s := shift % 64;
    LiteralMask(3);
    assert Pow2(3) == 8;
    var e := Extract(block, shift, 3);
    assert Shr(And(block, Shl(FromNat(7, 64), shift)), shift) == e;
    assert e == Extract(block, s, 3);
    ExtractBits(block, s, 3);
    ThreeBitValue(e);
  }

  /** A 64-bit word with no bit above bit 2 denotes its three low bits. */
  lemma ThreeBitValue(y: Word)
    requires |y| == 64
    requires forall k :: 3 <= k < 64 ==> !y[k]
    ensures ToNat(y) == BitValue(y[0]) + 2 * BitValue(y[1]) + 4 * BitValue(y[2])
    ensures ToNat(y) % 256 == ToNat(y)
  {
    var z := y[..3];
    ToNatLow(y, 3);
    assert z[1..][1..][1..] == [];
    assert ToNat(z[1..][1..]) == BitValue(y[2]);
    assert ToNat(z[1..]) == BitValue(y[1]) + 2 * BitValue(y[2]);
  }

  /** SetAlphaIndex, SetRedIndex and SetGreenIndex: block &= ~mask, then block |= (ulong)(index & 0b111) << shift. */
  function WithLevelIndex(block: Ulong, pixelIndex: int, index: byte): (r: Ulong)
    ensures r == Store(block, LevelShift(pixelIndex), 3, FromNat(index, 64))
  {
    var shift := LevelShift(pixelIndex);
    LiteralMask(3);
    forall k | 0 <= k < 64
      ensures FromNat(index % 8, 64)[k] == And(FromNat(index, 64), Mask(3))[k]
    {
      MaskNatBit(index, 3, k);
    }
    Or(And(block, Not(Shl(FromNat(7, 64), shift))), Shl(FromNat(index % 8, 64), shift))
  }

  /** Setting endpoint 0 stores the byte and changes no bit outside bits 0-7. */
  lemma Endpoint0Set(block: Ulong, value: byte)
    ensures Endpoint0(WithEndpoint0(block, value)) == value
    ensures Endpoint1(WithEndpoint0(block, value)) == Endpoint1(block)
    ensures forall k :: 8 <= k < 64 ==> WithEndpoint0(block, value)[k] == block[k]
  {
    var w := WithEndpoint0(block, value);
    StoreBits(block, 0, 8, FromNat(value, 64));
    assert w[..8] == FromNat(value, 8);
    assert w[8..16] == block[8..16];
    Pow2Of16();
    ToNatFromNat(value, 8);
  }

  /** Setting endpoint 1 stores the byte and changes no bit outside bits 8-15. */
  lemma Endpoint1Set(block: Ulong, value: byte)
    ensures Endpoint1(WithEndpoint1(block, value)) == value
    ensures Endpoint0(WithEndpoint1(block, value)) == Endpoint0(block)
    ensures forall k :: 0 <= k < 64 && !(8 <= k < 16) ==> WithEndpoint1(block, value)[k] == block[k]
  {
    var w := WithEndpoint1(block, value);
    StoreBits(block, 8, 8, FromNat(value, 64));
    assert w[8..16] == FromNat(value, 8);
    assert w[..8] == block[..8];
    Pow2Of16();
    ToNatFromNat(value, 8);
  }

  /**
   * The 3-bit index of texel i occupies bits 16 + 3i .. 18 + 3i, inside the
   * word for every texel 0..15: setting it writes the low three bits of the
   * index there and changes no other bit.
   */
  lemma LevelIndexBits(block: Ulong, pixelIndex: int, index: byte)
    requires 0 <= pixelIndex < 16
    ensures 16 <= LevelShift(pixelIndex) && LevelShift(pixelIndex) + 3 <= 64
    ensures forall k :: 0 <= k < 64 ==>
      WithLevelIndex(block, pixelIndex, index)[k] == if LevelShift(pixelIndex) <= k < LevelShift(pixelIndex) + 3 then Bit(index, k - LevelShift(pixelIndex)) else block[k]
  {
    StoreBits(block, LevelShift(pixelIndex), 3, FromNat(index, 64));
  }

  /** Reading back a 3-bit index just written gives index & 0b111. */
  lemma LevelIndexSet(block: Ulong, pixelIndex: int, index: byte)
    requires 0 <= pixelIndex < 16
    ensures LevelIndex(WithLevelIndex(block, pixelIndex, index), pixelIndex) == index % 8
  {
    ExtractStore(block, LevelShift(pixelIndex), 3, FromNat(index, 64));
    LevelIndexIsGetter(WithLevelIndex(block, pixelIndex, index), pixelIndex);
    ByteOfMaskNat(index, 3);
    assert Pow2(3) == 8;
  }

  /** Writing one texel's 3-bit index leaves both endpoints and every other texel's index unchanged. */
  lemma LevelIndexSetOther(block: Ulong, pixelIndex: int, index: byte, other: int)
    requires 0 <= pixelIndex < 16 && 0 <= other < 16 && other != pixelIndex
    ensures LevelIndex(WithLevelIndex(block, pixelIndex, index), other) == LevelIndex(block, other)
    ensures Endpoint0(WithLevelIndex(block, pixelIndex, index)) == Endpoint0(block)
    ensures Endpoint1(WithLevelIndex(block, pixelIndex, index)) == Endpoint1(block)
  {
    var v := FromNat(index, 64);
    var s := LevelShift(pixelIndex);
    ExtractStoreDisjoint(block, s, 3, v, LevelShift(other), 3);
    LevelIndexIsGetter(block, other);
    LevelIndexIsGetter(WithLevelIndex(block, pixelIndex, index), other);
    var w := WithLevelIndex(block, pixelIndex, index);
    LevelIndexBits(block, pixelIndex, index);
    assert w[..8] == block[..8];
    assert w[8..16] == block[8..16];
  }

  /** Setting either endpoint leaves every texel's 3-bit index unchanged. */
  lemma EndpointSetIndices(block: Ulong, value: byte, pixelIndex: int)
    requires 0 <= pixelIndex < 16
    ensures LevelIndex(WithEndpoint0(block, value), pixelIndex) == LevelIndex(block, pixelIndex)
    ensures LevelIndex(WithEndpoint1(block, value), pixelIndex) == LevelIndex(block, pixelIndex)
  {
    var v := FromNat(value, 64);
    ExtractStoreDisjoint(block, 0, 8, v, LevelShift(pixelIndex), 3);
    ExtractStoreDisjoint(block, 8, 8, v, LevelShift(pixelIndex), 3);
    LevelIndexIsGetter(block, pixelIndex);
    LevelIndexIsGetter(WithEndpoint0(block, value), pixelIndex);
    LevelIndexIsGetter(WithEndpoint1(block, value), pixelIndex);
  }

  // ---------------------------------------------------------------------
  // Palettes.
  // ---------------------------------------------------------------------

  /** A BC1-BC3 texel colour, named by the palette entry it takes. */
  datatype PaletteColor =
      /** An endpoint, color.ToColorRgb24(). */
    | Widened(color: ColorRgb565)
      /** color0 * (weight0 / d) + color1 * (weight1 / d) on the widened endpoints, d = weight0 + weight1, in doubles. */
    | Mix(color0: ColorRgb565, color1: ColorRgb565, weight0: nat, weight1: nat)
      /** new ColorRgb24(0, 0, 0), opaque once converted. */
    | OpaqueBlack
      /** GorgonColors.Black, which BC1 writes for index 3 of a block with alpha. */
    | BlackConstant

  /**
   * The four colours of a BC1-BC3 block: the endpoints widened to 24 bits,
   * then with HasAlphaOrBlack their midpoint and black, otherwise the two
   * thirds between them.
   */
  function ColorPalette(color0: ColorRgb565, color1: ColorRgb565, hasAlphaOrBlack: bool): (r: seq<PaletteColor>)
    ensures |r| == 4
    ensures r[0] == Widened(color0) && r[1] == Widened(color1)
    ensures hasAlphaOrBlack ==> r[3] == OpaqueBlack
    ensures forall k :: 0 <= k < 4 ==> r[k] != BlackConstant
  {
    if hasAlphaOrBlack then
      [Widened(color0), Widened(color1), Mix(color0, color1, 1, 1), OpaqueBlack]
    else
      [Widened(color0), Widened(color1), Mix(color0, color1, 2, 1), Mix(color0, color1, 1, 2)]
  }

  /** A BC3-BC5 level: a byte stored as it is, or a blend of the endpoints computed in doubles and cast to a byte. */
  datatype Level =
    | Stored(value: byte)
      /** (byte)(weight0 / d * e0 + weight1 / d * e1), d = weight0 + weight1. */
    | Blend(e0: byte, e1: byte, weight0: nat, weight1: nat)

  /** The real number a level stands for before the double rounding and the cast. */
  function LevelValue(l: Level): real
  {
    match l
    case Stored(v) => v as real
    case Blend(e0, e1, w0, w1) =>
      if w0 + w1 == 0 then 0.0 else (w0 * e0 + w1 * e1) as real / (w0 + w1) as real
  }

  /**
   * The eight levels of a BC3 alpha, BC4 red or BC5 channel block: when
   * e0 > e1 the endpoints and six blends in sevenths, otherwise the
   * endpoints, four blends in fifths, 0 and 255.
   */
  function LevelPalette(e0: byte, e1: byte): (r: seq<Level>)
    ensures |r| == 8
  {
    if e0 > e1 then
      [Stored(e0), Stored(e1), Blend(e0, e1, 6, 1), Blend(e0, e1, 5, 2), Blend(e0, e1, 4, 3),
       Blend(e0, e1, 3, 4), Blend(e0, e1, 2, 5), Blend(e0, e1, 1, 6)]
    else
      [Stored(e0), Stored(e1), Blend(e0, e1, 4, 1), Blend(e0, e1, 3, 2), Blend(e0, e1, 2, 3),
       Blend(e0, e1, 1, 4), Stored(0), Stored(255)]
  }

  /** The weight of e0 in entry k of the eight-level palette, out of 7. */
  function EightLevelWeight(k: nat): nat
    requires k < 8
  {
    if k == 0 then 7 else if k == 1 then 0 else 8 - k
  }

  /** The weight of e0 in entry k < 6 of the six-level palette, out of 5. */
  function SixLevelWeight(k: nat): nat
    requires k < 6
  {
    if k == 0 then 5 else if k == 1 then 0 else 6 - k
  }

  /** A blend with weights w0 + w1 = d lies w0 / d of the way from e1 to e0. */
  lemma BlendValue(e0: byte, e1: byte, w0: nat, w1: nat)
    requires w0 + w1 > 0
    ensures LevelValue(Blend(e0, e1, w0, w1)) == e1 as real + (w0 as real / (w0 + w1) as real) * (e0 - e1) as real
  {
    var d := (w0 + w1) as real;
    assert (w0 * e0 + w1 * e1) as real == w0 as real * e0 as real + w1 as real * e1 as real;
    assert (w0 * e0 + w1 * e1) as real == d * e1 as real + w0 as real * (e0 - e1) as real;
  }

  /**
   * Entries 0 and 1 are the endpoints. With e0 > e1 the eight levels step
   * from e0 down to e1 in sevenths, so they are distinct; otherwise the
   * first six step from e0 to e1 in fifths and entries 6 and 7 are 0 and 255.
   */
  lemma LevelPaletteValues(e0: byte, e1: byte)
    ensures LevelPalette(e0, e1)[0] == Stored(e0) && LevelPalette(e0, e1)[1] == Stored(e1)
    ensures e0 > e1 ==> forall k :: 0 <= k < 8 ==>
      LevelValue(LevelPalette(e0, e1)[k]) == e1 as real + (EightLevelWeight(k) as real / 7.0) * (e0 - e1) as real
    ensures e0 <= e1 ==> forall k :: 0 <= k < 6 ==>
      LevelValue(LevelPalette(e0, e1)[k]) == e1 as real + (SixLevelWeight(k) as real / 5.0) * (e0 - e1) as real
    ensures e0 <= e1 ==> LevelPalette(e0, e1)[6] == Stored(0) && LevelPalette(e0, e1)[7] == Stored(255)
  {
    var p := LevelPalette(e0, e1);
    if e0 > e1 {
      forall k | 2 <= k < 8
        ensures LevelValue(p[k]) == e1 as real + (EightLevelWeight(k) as real / 7.0) * (e0 - e1) as real
      {
        BlendValue(e0, e1, 8 - k, k - 1);
      }
    } else {
      forall k | 2 <= k < 6
        ensures LevelValue(p[k]) == e1 as real + (SixLevelWeight(k) as real / 5.0) * (e0 - e1) as real
      {
        BlendValue(e0, e1, 6 - k, k - 1);
      }
    }
  }

  /** With e0 > e1 the eight levels stand for eight different values, all between e1 and e0. */
  lemma EightLevelsDistinct(e0: byte, e1: byte)
    requires e0 > e1
    ensures forall k :: 0 <= k < 8 ==> e1 as real <= LevelValue(LevelPalette(e0, e1)[k]) <= e0 as real
    ensures forall j, k :: 0 <= j < k < 8 ==> LevelValue(LevelPalette(e0, e1)[j]) != LevelValue(LevelPalette(e0, e1)[k])
  {
    LevelPaletteValues(e0, e1);
    var p := LevelPalette(e0, e1);
    var v := seq(8, k requires 0 <= k < 8 => LevelValue(p[k]));
    SeventhsDistinct(v, e1 as real, (e0 - e1) as real);
  }

  /** Eight values e1 + (w / 7) * span with the eight-level weights and span > 0 lie in [e1, e1 + span] and differ pairwise. */
  lemma SeventhsDistinct(v: seq<real>, e1: real, span: real)
    requires |v| == 8 && span > 0.0
    requires forall k :: 0 <= k < 8 ==> v[k] == e1 + (EightLevelWeight(k) as real / 7.0) * span
    ensures forall k :: 0 <= k < 8 ==> e1 <= v[k] <= e1 + span
    ensures forall j, k :: 0 <= j < k < 8 ==> v[j] != v[k]
  {
    forall k | 0 <= k < 8
      ensures e1 <= v[k] <= e1 + span
    {
      ScaledBetween(EightLevelWeight(k) as real / 7.0, span);
    }
    forall j, k | 0 <= j < k < 8
      ensures v[j] != v[k]
    {
      var wj, wk := EightLevelWeight(j), EightLevelWeight(k);
      assert v[j] == e1 + (wj as real / 7.0) * span;
      assert v[k] == e1 + (wk as real / 7.0) * span;
      assert wj != wk;
      if wj < wk {
        SeventhsLess(wj, wk);
        ScaledLess(wj as real / 7.0, wk as real / 7.0, span);
      } else {
        SeventhsLess(wk, wj);
        ScaledLess(wk as real / 7.0, wj as real / 7.0, span);
      }
    }
  }

  lemma SeventhsLess(p: int, q: int)
    requires p < q
    ensures p as real / 7.0 < q as real / 7.0
  {
  }

  lemma ScaledLess(a: real, b: real, s: real)
    requires a < b && s > 0.0
    ensures a * s < b * s
  {
  }

  lemma ScaledBetween(a: real, s: real)
    requires 0.0 <= a <= 1.0 && s > 0.0
    ensures 0.0 <= a * s <= s
  {
  }

  // ---------------------------------------------------------------------
  // Decoded texels.
  // ---------------------------------------------------------------------

  /**
   * What Bc1Block.Decode writes for texel i, given the block's palette: the
   * palette colour, or Black for index 3 when blackForThree.
   */
  function Bc1Texel(palette: seq<PaletteColor>, blackForThree: bool, colorIndices: Uint, i: int): PaletteColor
    requires |palette| == 4
  {
    var index := ColorIndex(colorIndices, i);
    if blackForThree && index == 3 then BlackConstant else palette[index]
  }

  /** The sixteen texels of a BC1 block: Black for index 3 only when alpha is used and color0.data <= color1.data. */
  function Bc1Texels(color0: ColorRgb565, color1: ColorRgb565, colorIndices: Uint, useAlpha: bool): (r: seq<PaletteColor>)
    ensures |r| == 16
    ensures forall i :: 0 <= i < 16 ==>
              r[i] in ColorPalette(color0, color1, color0.data <= color1.data) || (useAlpha && r[i] == BlackConstant)
  {
    var hasAlphaOrBlack := color0.data <= color1.data;
    var palette := ColorPalette(color0, color1, hasAlphaOrBlack);
    seq(16, i requires 0 <= i < 16 => Bc1Texel(palette, useAlpha && hasAlphaOrBlack, colorIndices, i))
  }

  /**
   * A BC1 texel decodes to the Black constant exactly when alpha is used,
   * color0.data <= color1.data and its index is 3; without alpha, index 3 of
   * such a block is opaque black. Every other texel is its palette entry.
   */
  lemma Bc1BlackTexels(color0: ColorRgb565, color1: ColorRgb565, colorIndices: Uint, useAlpha: bool, i: int)
    requires 0 <= i < 16
    ensures var t := Bc1Texels(color0, color1, colorIndices, useAlpha)[i];
      (t == BlackConstant <==> useAlpha && color0.data <= color1.data && ColorIndex(colorIndices, i) == 3) &&
      (!useAlpha && color0.data <= color1.data && ColorIndex(colorIndices, i) == 3 ==> t == OpaqueBlack) &&
      (t != BlackConstant ==> t == ColorPalette(color0, color1, color0.data <= color1.data)[ColorIndex(colorIndices, i)])
  {
    var hasAlphaOrBlack := color0.data <= color1.data;
    var palette := ColorPalette(color0, color1, hasAlphaOrBlack);
    assert Bc1Texels(color0, color1, colorIndices, useAlpha)[i] == Bc1Texel(palette, useAlpha && hasAlphaOrBlack, colorIndices, i);
  }

  /** A BC4 or BC5 output channel: 0, 1, or a level divided by 255. */
  datatype Channel = Zero | One | Scaled(level: Level)

  /** The palette of levels a 64-bit channel word stores. */
  function Levels(block: Ulong): (r: seq<Level>)
    ensures |r| == 8
  {
    LevelPalette(Endpoint0(block), Endpoint1(block))
  }

  /** What Bc3Block.Decode writes for texel i, given the two palettes: its colour and its alpha level. */
  function Bc3Texel(colors: seq<PaletteColor>, alphas: seq<Level>, colorIndices: Uint, alphaBlock: Ulong, i: int): (PaletteColor, Level)
    requires |colors| == 4 && |alphas| == 8
  {
    (colors[ColorIndex(colorIndices, i)], alphas[LevelIndex(alphaBlock, i)])
  }

  /** The sixteen texels of a BC3 block: colours from the four-colour palette, alphas from the alpha word's levels. */
  function Bc3Texels(color0: ColorRgb565, color1: ColorRgb565, colorIndices: Uint, alphaBlock: Ulong): (r: seq<(PaletteColor, Level)>)
    ensures |r| == 16
    ensures forall i :: 0 <= i < 16 ==>
              && r[i].0 in ColorPalette(color0, color1, false)
              && r[i].0 != OpaqueBlack && r[i].0 != BlackConstant
              && r[i].1 in Levels(alphaBlock)
    ensures forall i :: 0 <= i < 16 ==>
              && r[i].0 == ColorPalette(color0, color1, false)[ColorIndex(colorIndices, i)]
              && r[i].1 == Levels(alphaBlock)[LevelIndex(alphaBlock, i)]
  {
    var colors := ColorPalette(color0, color1, false);
    var alphas := Levels(alphaBlock);
    seq(16, i requires 0 <= i < 16 => Bc3Texel(colors, alphas, colorIndices, alphaBlock, i))
  }

  /** What Bc4Block.Decode writes for texel i, given the red levels: the level, copied to green and blue when red is luminance, opaque. */
  function Bc4Texel(reds: seq<Level>, redBlock: Ulong, redAsLuminance: bool, i: int): (Channel, Channel, Channel, Channel)
    requires |reds| == 8
  {
    var red := Scaled(reds[LevelIndex(redBlock, i)]);
    if redAsLuminance then (red, red, red, One) else (red, Zero, Zero, One)
  }

  function Bc4Texels(redBlock: Ulong, redAsLuminance: bool): (r: seq<(Channel, Channel, Channel, Channel)>)
    ensures |r| == 16
    ensures forall i :: 0 <= i < 16 ==>
              && r[i].0.Scaled? && r[i].0.level in Levels(redBlock) && r[i].3 == One
              && (redAsLuminance ==> r[i].1 == r[i].0 && r[i].2 == r[i].0)
              && (!redAsLuminance ==> r[i].1 == Zero && r[i].2 == Zero)
    ensures forall i :: 0 <= i < 16 ==> r[i].0 == Scaled(Levels(redBlock)[LevelIndex(redBlock, i)])
  {
    var reds := Levels(redBlock);
    seq(16, i requires 0 <= i < 16 => Bc4Texel(reds, redBlock, redAsLuminance, i))
  }

  /** What Bc5Block.Decode writes for texel i, given both palettes: the red and green levels, blue 0, opaque. */
  function Bc5Texel(reds: seq<Level>, greens: seq<Level>, redBlock: Ulong, greenBlock: Ulong, i: int): (Channel, Channel, Channel, Channel)
    requires |reds| == 8 && |greens| == 8
  {
    (Scaled(reds[LevelIndex(redBlock, i)]), Scaled(greens[LevelIndex(greenBlock, i)]), Zero, One)
  }

  function Bc5Texels(redBlock: Ulong, greenBlock: Ulong): (r: seq<(Channel, Channel, Channel, Channel)>)
    ensures |r| == 16
    ensures forall i :: 0 <= i < 16 ==>
              && r[i].0.Scaled? && r[i].0.level in Levels(redBlock)
              && r[i].1.Scaled? && r[i].1.level in Levels(greenBlock)
              && r[i].2 == Zero && r[i].3 == One
    ensures forall i :: 0 <= i < 16 ==>
              && r[i].0 == Scaled(Levels(redBlock)[LevelIndex(redBlock, i)])
              && r[i].1 == Scaled(Levels(greenBlock)[LevelIndex(greenBlock, i)])
  {
    var reds, greens := Levels(redBlock), Levels(greenBlock);
    seq(16, i requires 0 <= i < 16 => Bc5Texel(reds, greens, redBlock, greenBlock, i))
  }

  // ---------------------------------------------------------------------
  // The block structs. Their setters rewrite the block's words in place.
  // ---------------------------------------------------------------------

  class Bc1Block {
    var color0: ColorRgb565
    var color1: ColorRgb565
    var colorIndices: Uint

    constructor (c0: ColorRgb565, c1: ColorRgb565, indices: Uint)
      ensures color0 == c0 && color1 == c1 && colorIndices == indices
    {
      color0, color1, colorIndices := c0, c1, indices;
    }

    /** The indexer's getter. */
    function Index(index: int): (r: int)
      reads this
      ensures 0 <= r < 4
    {
      ColorIndex(colorIndices, index)
    }

    /** The indexer's setter: texel index takes value & 0b11 and no other texel changes. */
    method SetIndex(index: int, value: int)
      modifies this
      ensures colorIndices == WithColorIndex(old(colorIndices), index, value)
      ensures Index(index) == value % 4
      ensures forall j :: j % 16 != index % 16 ==> Index(j) == old(Index(j))
      ensures color0 == old(color0) && color1 == old(color1)
    {
      colorIndices := And(colorIndices, Not(Shl(FromNat(3, 32), index * 2)));
      var val := value % 4;
      colorIndices := Or(colorIndices, Shl(FromNat(val, 32), index * 2));
      ColorIndexSet(old(colorIndices), index, value);
      forall j | j % 16 != index % 16
        ensures ColorIndex(colorIndices, j) == ColorIndex(old(colorIndices), j)
      {
        ColorIndexSetOther(old(colorIndices), index, value, j);
      }
    }

    /** Three colours and black, rather than four colours, exactly when color0.data <= color1.data. */
    predicate HasAlphaOrBlack()
      reads this
    {
      color0.data <= color1.data
    }

    /** Decode: each texel's palette colour, or Black for index 3 when useAlpha and HasAlphaOrBlack. */
    method Decode(useAlpha: bool) returns (pixels: array<PaletteColor>)
      ensures fresh(pixels) && pixels[..] == Bc1Texels(color0, color1, colorIndices, useAlpha)
    {
      pixels := new PaletteColor[16](i => BlackConstant);
      var blackForThree := useAlpha && HasAlphaOrBlack();
      var colors := ColorPalette(color0, color1, HasAlphaOrBlack());
      var indices := colorIndices;
      for i := 0 to 16
        invariant forall k :: 0 <= k < i ==> pixels[k] == Bc1Texel(colors, blackForThree, indices, k)
      {
        var colorIndex := ColorIndex(indices, i);
        if blackForThree && colorIndex == 3 {
          pixels[i] := BlackConstant;
        } else {
          pixels[i] := colors[colorIndex];
        }
      }
      assert pixels[..] == Bc1Texels(color0, color1, colorIndices, useAlpha);
    }
  }

  class Bc2Block {
    var alphaColors: Ulong
    var color0: ColorRgb565
    var color1: ColorRgb565
    var colorIndices: Uint

    constructor (alphas: Ulong, c0: ColorRgb565, c1: ColorRgb565, indices: Uint)
      ensures alphaColors == alphas && color0 == c0 && color1 == c1 && colorIndices == indices
    {
      alphaColors, color0, color1, colorIndices := alphas, c0, c1, indices;
    }

    /** The indexer's getter. */
    function Index(index: int): (r: int)
      reads this
      ensures 0 <= r < 4
    {
      ColorIndex(colorIndices, index)
    }

    /** The indexer's setter: texel index takes value & 0b11 and no other texel changes. */
    method SetIndex(index: int, value: int)
      modifies this
      ensures colorIndices == WithColorIndex(old(colorIndices), index, value)
      ensures Index(index) == value % 4
      ensures forall j :: j % 16 != index % 16 ==> Index(j) == old(Index(j))
      ensures alphaColors == old(alphaColors) && color0 == old(color0) && color1 == old(color1)
    {
      colorIndices := And(colorIndices, Not(Shl(FromNat(3, 32), index * 2)));
      var val := value % 4;
      colorIndices := Or(colorIndices, Shl(FromNat(val, 32), index * 2));
      ColorIndexSet(old(colorIndices), index, value);
      forall j | j % 16 != index % 16
        ensures ColorIndex(colorIndices, j) == ColorIndex(old(colorIndices), j)
      {
        ColorIndexSetOther(old(colorIndices), index, value, j);
      }
    }
  }

  class Bc3Block {
    var alphaBlock: Ulong
    var color0: ColorRgb565
    var color1: ColorRgb565
    var colorIndices: Uint

    constructor (alphas: Ulong, c0: ColorRgb565, c1: ColorRgb565, indices: Uint)
      ensures alphaBlock == alphas && color0 == c0 && color1 == c1 && colorIndices == indices
    {
      alphaBlock, color0, color1, colorIndices := alphas, c0, c1, indices;
    }

    /** The indexer's getter. */
    function Index(index: int): (r: int)
      reads this
      ensures 0 <= r < 4
    {
      ColorIndex(colorIndices, index)
    }

    /** The indexer's setter: texel index takes value & 0b11 and no other texel changes. */
    method SetIndex(index: int, value: int)
      modifies this
      ensures colorIndices == WithColorIndex(old(colorIndices), index, value)
      ensures Index(index) == value % 4
      ensures forall j :: j % 16 != index % 16 ==> Index(j) == old(Index(j))
      ensures alphaBlock == old(alphaBlock) && color0 == old(color0) && color1 == old(color1)
    {
      colorIndices := And(colorIndices, Not(Shl(FromNat(3, 32), index * 2)));
      var val := value % 4;
      colorIndices := Or(colorIndices, Shl(FromNat(val, 32), index * 2));
      ColorIndexSet(old(colorIndices), index, value);
      forall j | j % 16 != index % 16
        ensures ColorIndex(colorIndices, j) == ColorIndex(old(colorIndices), j)
      {
        ColorIndexSetOther(old(colorIndices), index, value, j);
      }
    }

    function Alpha0(): byte
      reads this
    {
      Endpoint0(alphaBlock)
    }

    /** The Alpha0 setter: Alpha0 becomes value; Alpha1 and the indices keep their bits. */
    method SetAlpha0(value: byte)
      modifies this
      ensures alphaBlock == WithEndpoint0(old(alphaBlock), value)
      ensures Alpha0() == value && Alpha1() == old(Alpha1())
      ensures forall k :: 8 <= k < 64 ==> alphaBlock[k] == old(alphaBlock)[k]
      ensures color0 == old(color0) && color1 == old(color1) && colorIndices == old(colorIndices)
    {
      alphaBlock := And(alphaBlock, Not(FromNat(0xFF, 64)));
      alphaBlock := Or(alphaBlock, FromNat(value, 64));
      Endpoint0Set(old(alphaBlock), value);
    }

    function Alpha1(): byte
      reads this
    {
      Endpoint1(alphaBlock)
    }

    /** The Alpha1 setter: Alpha1 becomes value; Alpha0 and the indices keep their bits. */
    method SetAlpha1(value: byte)
      modifies this
      ensures alphaBlock == WithEndpoint1(old(alphaBlock), value)
      ensures Alpha1() == value && Alpha0() == old(Alpha0())
      ensures forall k :: 0 <= k < 64 && !(8 <= k < 16) ==> alphaBlock[k] == old(alphaBlock)[k]
      ensures color0 == old(color0) && color1 == old(color1) && colorIndices == old(colorIndices)
    {
      alphaBlock := And(alphaBlock, Not(FromNat(0xFF00, 64)));
      alphaBlock := Or(alphaBlock, Shl(FromNat(value, 64), 8));
      Endpoint1Set(old(alphaBlock), value);
    }

    function GetAlphaIndex(pixelIndex: int): (r: byte)
      reads this
      ensures r < 8
    {
      LevelIndex(alphaBlock, pixelIndex)
    }

    /** SetAlphaIndex: texel pixelIndex takes alphaIndex & 0b111; the endpoints and other texels keep theirs. */
    method SetAlphaIndex(pixelIndex: int, alphaIndex: byte)
      modifies this
      ensures alphaBlock == WithLevelIndex(old(alphaBlock), pixelIndex, alphaIndex)
      ensures 0 <= pixelIndex < 16 ==> GetAlphaIndex(pixelIndex) == alphaIndex % 8
      ensures 0 <= pixelIndex < 16 ==> Alpha0() == old(Alpha0()) && Alpha1() == old(Alpha1())
      ensures 0 <= pixelIndex < 16 ==> forall q :: 0 <= q < 16 && q != pixelIndex ==> GetAlphaIndex(q) == old(GetAlphaIndex(q))
      ensures color0 == old(color0) && color1 == old(color1) && colorIndices == old(colorIndices)
    {
      var shift := LevelShift(pixelIndex);
      var mask := Shl(FromNat(7, 64), shift);
      alphaBlock := And(alphaBlock, Not(mask));
      alphaBlock := Or(alphaBlock, Shl(FromNat(alphaIndex % 8, 64), shift));
      if 0 <= pixelIndex < 16 {
        LevelIndexSet(old(alphaBlock), pixelIndex, alphaIndex);
        forall q | 0 <= q < 16 && q != pixelIndex
          ensures LevelIndex(alphaBlock, q) == LevelIndex(old(alphaBlock), q)
        {
          LevelIndexSetOther(old(alphaBlock), pixelIndex, alphaIndex, q);
        }
        LevelIndexSetOther(old(alphaBlock), pixelIndex, alphaIndex, (pixelIndex + 1) % 16);
      }
    }

    /** Decode: each texel's colour from the four-colour palette and its alpha level. */
    method Decode() returns (pixels: array<(PaletteColor, Level)>)
      ensures fresh(pixels) && pixels[..] == Bc3Texels(color0, color1, colorIndices, alphaBlock)
    {
      pixels := new (PaletteColor, Level)[16](i => (BlackConstant, Stored(0)));
      var colors := ColorPalette(color0, color1, false);
      var alphas := LevelPalette(Alpha0(), Alpha1());
      var indices, alphaWord := colorIndices, alphaBlock;
      for i := 0 to 16
        invariant forall k :: 0 <= k < i ==> pixels[k] == Bc3Texel(colors, alphas, indices, alphaWord, k)
      {
        var colorIndex := ColorIndex(indices, i);
        pixels[i] := (colors[colorIndex], alphas[GetAlphaIndex(i)]);
      }
      assert pixels[..] == Bc3Texels(color0, color1, colorIndices, alphaBlock);
    }
  }

  class Bc4Block {
    var redBlock: Ulong

    constructor (block: Ulong)
      ensures redBlock == block
    {
      redBlock := block;
    }

    function Red0(): byte
      reads this
    {
      Endpoint0(redBlock)
    }

    /** The Red0 setter: Red0 becomes value; Red1 and the indices keep their bits. */
    method SetRed0(value: byte)
      modifies this
      ensures redBlock == WithEndpoint0(old(redBlock), value)
      ensures Red0() == value && Red1() == old(Red1())
      ensures forall k :: 8 <= k < 64 ==> redBlock[k] == old(redBlock)[k]
    {
      redBlock := And(redBlock, Not(FromNat(0xFF, 64)));
      redBlock := Or(redBlock, FromNat(value, 64));
      Endpoint0Set(old(redBlock), value);
    }

    function Red1(): byte
      reads this
    {
      Endpoint1(redBlock)
    }

    /** The Red1 setter: Red1 becomes value; Red0 and the indices keep their bits. */
    method SetRed1(value: byte)
      modifies this
      ensures redBlock == WithEndpoint1(old(redBlock), value)
      ensures Red1() == value && Red0() == old(Red0())
      ensures forall k :: 0 <= k < 64 && !(8 <= k < 16) ==> redBlock[k] == old(redBlock)[k]
    {
      redBlock := And(redBlock, Not(FromNat(0xFF00, 64)));
      redBlock := Or(redBlock, Shl(FromNat(value, 64), 8));
      Endpoint1Set(old(redBlock), value);
    }

    function GetRedIndex(pixelIndex: int): (r: byte)
      reads this
      ensures r < 8
    {
      LevelIndex(redBlock, pixelIndex)
    }

    /** SetRedIndex: texel pixelIndex takes redIndex & 0b111; the endpoints and other texels keep theirs. */
    method SetRedIndex(pixelIndex: int, redIndex: byte)
      modifies this
      ensures redBlock == WithLevelIndex(old(redBlock), pixelIndex, redIndex)
      ensures 0 <= pixelIndex < 16 ==> GetRedIndex(pixelIndex) == redIndex % 8
      ensures 0 <= pixelIndex < 16 ==> Red0() == old(Red0()) && Red1() == old(Red1())
      ensures 0 <= pixelIndex < 16 ==> forall q :: 0 <= q < 16 && q != pixelIndex ==> GetRedIndex(q) == old(GetRedIndex(q))
    {
      var shift := LevelShift(pixelIndex);
      var mask := Shl(FromNat(7, 64), shift);
      redBlock := And(redBlock, Not(mask));
      redBlock := Or(redBlock, Shl(FromNat(redIndex % 8, 64), shift));
      if 0 <= pixelIndex < 16 {
        LevelIndexSet(old(redBlock), pixelIndex, redIndex);
        forall q | 0 <= q < 16 && q != pixelIndex
          ensures LevelIndex(redBlock, q) == LevelIndex(old(redBlock), q)
        {
          LevelIndexSetOther(old(redBlock), pixelIndex, redIndex, q);
        }
        LevelIndexSetOther(old(redBlock), pixelIndex, redIndex, (pixelIndex + 1) % 16);
      }
    }

    /** Decode: each texel's red level, as luminance or as red alone, opaque. */
    method Decode(redAsLuminance: bool) returns (pixels: array<(Channel, Channel, Channel, Channel)>)
      ensures fresh(pixels) && pixels[..] == Bc4Texels(redBlock, redAsLuminance)
    {
      pixels := new (Channel, Channel, Channel, Channel)[16](i => (Zero, Zero, Zero, Zero));
      var reds := LevelPalette(Red0(), Red1());
      var word := redBlock;
      for i := 0 to 16
        invariant forall k :: 0 <= k < i ==> pixels[k] == Bc4Texel(reds, word, redAsLuminance, k)
      {
        var red := Scaled(reds[GetRedIndex(i)]);
        pixels[i] := if redAsLuminance then (red, red, red, One) else (red, Zero, Zero, One);
      }
      assert pixels[..] == Bc4Texels(redBlock, redAsLuminance);
    }
  }

  class Bc5Block {
    var redBlock: Ulong
    var greenBlock: Ulong

    constructor (red: Ulong, green: Ulong)
      ensures redBlock == red && greenBlock == green
    {
      redBlock, greenBlock := red, green;
    }

    function Red0(): byte
      reads this
    {
      Endpoint0(redBlock)
    }

    /** The Red0 setter: Red0 becomes value; Red1, the indices and the green word keep their bits. */
    method SetRed0(value: byte)
      modifies this
      ensures redBlock == WithEndpoint0(old(redBlock), value) && greenBlock == old(greenBlock)
      ensures Red0() == value && Red1() == old(Red1())
      ensures forall k :: 8 <= k < 64 ==> redBlock[k] == old(redBlock)[k]
    {
      redBlock := And(redBlock, Not(FromNat(0xFF, 64)));
      redBlock := Or(redBlock, FromNat(value, 64));
      Endpoint0Set(old(redBlock), value);
    }

    function Red1(): byte
      reads this
    {
      Endpoint1(redBlock)
    }

    /** The Red1 setter: Red1 becomes value; Red0, the indices and the green word keep their bits. */
    method SetRed1(value: byte)
      modifies this
      ensures redBlock == WithEndpoint1(old(redBlock), value) && greenBlock == old(greenBlock)
      ensures Red1() == value && Red0() == old(Red0())
      ensures forall k :: 0 <= k < 64 && !(8 <= k < 16) ==> redBlock[k] == old(redBlock)[k]
    {
      redBlock := And(redBlock, Not(FromNat(0xFF00, 64)));
      redBlock := Or(redBlock, Shl(FromNat(value, 64), 8));
      Endpoint1Set(old(redBlock), value);
    }

    function Green0(): byte
      reads this
    {
      Endpoint0(greenBlock)
    }

    /** The Green0 setter: Green0 becomes value; Green1, the indices and the red word keep their bits. */
    method SetGreen0(value: byte)
      modifies this
      ensures greenBlock == WithEndpoint0(old(greenBlock), value) && redBlock == old(redBlock)
      ensures Green0() == value && Green1() == old(Green1())
      ensures forall k :: 8 <= k < 64 ==> greenBlock[k] == old(greenBlock)[k]
    {
      greenBlock := And(greenBlock, Not(FromNat(0xFF, 64)));
      greenBlock := Or(greenBlock, FromNat(value, 64));
      Endpoint0Set(old(greenBlock), value);
    }

    function Green1(): byte
      reads this
    {
      Endpoint1(greenBlock)
    }

    /** The Green1 setter: Green1 becomes value; Green0, the indices and the red word keep their bits. */
    method SetGreen1(value: byte)
      modifies this
      ensures greenBlock == WithEndpoint1(old(greenBlock), value) && redBlock == old(redBlock)
      ensures Green1() == value && Green0() == old(Green0())
      ensures forall k :: 0 <= k < 64 && !(8 <= k < 16) ==> greenBlock[k] == old(greenBlock)[k]
    {
      greenBlock := And(greenBlock, Not(FromNat(0xFF00, 64)));
      greenBlock := Or(greenBlock, Shl(FromNat(value, 64), 8));
      Endpoint1Set(old(greenBlock), value);
    }

    function GetRedIndex(pixelIndex: int): (r: byte)
      reads this
      ensures r < 8
    {
      LevelIndex(redBlock, pixelIndex)
    }

    /** SetRedIndex: texel pixelIndex takes redIndex & 0b111; the endpoints, other texels and the green word keep theirs. */
    method SetRedIndex(pixelIndex: int, redIndex: byte)
      modifies this
      ensures redBlock == WithLevelIndex(old(redBlock), pixelIndex, redIndex) && greenBlock == old(greenBlock)
      ensures 0 <= pixelIndex < 16 ==> GetRedIndex(pixelIndex) == redIndex % 8
      ensures 0 <= pixelIndex < 16 ==> Red0() == old(Red0()) && Red1() == old(Red1())
      ensures 0 <= pixelIndex < 16 ==> forall q :: 0 <= q < 16 && q != pixelIndex ==> GetRedIndex(q) == old(GetRedIndex(q))
    {
      var shift := LevelShift(pixelIndex);
      var mask := Shl(FromNat(7, 64), shift);
      redBlock := And(redBlock, Not(mask));
      redBlock := Or(redBlock, Shl(FromNat(redIndex % 8, 64), shift));
      if 0 <= pixelIndex < 16 {
        LevelIndexSet(old(redBlock), pixelIndex, redIndex);
        forall q | 0 <= q < 16 && q != pixelIndex
          ensures LevelIndex(redBlock, q) == LevelIndex(old(redBlock), q)
        {
          LevelIndexSetOther(old(redBlock), pixelIndex, redIndex, q);
        }
        LevelIndexSetOther(old(redBlock), pixelIndex, redIndex, (pixelIndex + 1) % 16);
      }
    }

    function GetGreenIndex(pixelIndex: int): (r: byte)
      reads this
      ensures r < 8
    {
      LevelIndex(greenBlock, pixelIndex)
    }

    /** SetGreenIndex: texel pixelIndex takes greenIndex & 0b111; the endpoints, other texels and the red word keep theirs. */
    method SetGreenIndex(pixelIndex: int, greenIndex: byte)
      modifies this
      ensures greenBlock == WithLevelIndex(old(greenBlock), pixelIndex, greenIndex) && redBlock == old(redBlock)
      ensures 0 <= pixelIndex < 16 ==> GetGreenIndex(pixelIndex) == greenIndex % 8
      ensures 0 <= pixelIndex < 16 ==> Green0() == old(Green0()) && Green1() == old(Green1())
      ensures 0 <= pixelIndex < 16 ==> forall q :: 0 <= q < 16 && q != pixelIndex ==> GetGreenIndex(q) == old(GetGreenIndex(q))
    {
      var shift := LevelShift(pixelIndex);
      var mask := Shl(FromNat(7, 64), shift);
      greenBlock := And(greenBlock, Not(mask));
      greenBlock := Or(greenBlock, Shl(FromNat(greenIndex % 8, 64), shift));
      if 0 <= pixelIndex < 16 {
        LevelIndexSet(old(greenBlock), pixelIndex, greenIndex);
        forall q | 0 <= q < 16 && q != pixelIndex
          ensures LevelIndex(greenBlock, q) == LevelIndex(old(greenBlock), q)
        {
          LevelIndexSetOther(old(greenBlock), pixelIndex, greenIndex, q);
        }
        LevelIndexSetOther(old(greenBlock), pixelIndex, greenIndex, (pixelIndex + 1) % 16);
      }
    }

    /** Decode: each texel's red and green levels, blue 0, opaque. */
    method Decode() returns (pixels: array<(Channel, Channel, Channel, Channel)>)
      ensures fresh(pixels) && pixels[..] == Bc5Texels(redBlock, greenBlock)
    {
      pixels := new (Channel, Channel, Channel, Channel)[16](i => (Zero, Zero, Zero, Zero));
      var reds := LevelPalette(Red0(), Red1());
      var greens := LevelPalette(Green0(), Green1());
      var redWord, greenWord := redBlock, greenBlock;
      for i := 0 to 16
        invariant forall k :: 0 <= k < i ==> pixels[k] == Bc5Texel(reds, greens, redWord, greenWord, k)
      {
        var redIndex := GetRedIndex(i);
        var greenIndex := GetGreenIndex(i);
        pixels[i] := (Scaled(reds[redIndex]), Scaled(greens[greenIndex]), Zero, One);
      }
      assert pixels[..] == Bc5Texels(redBlock, greenBlock);
    }
  }
}
