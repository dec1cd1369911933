/**
 * Decoding one BC7 block to sixteen texels (Bc7Block.Decode and the index
 * readers it calls, Gorgon.BCnEncoder.NET/Shared/Bc7Block.cs), as functions
 * of the block's two words and of the stale contents of the pooled endpoint
 * buffer.
 */
module Bc7Decoding {
  import opened Bits
  import opened ByteHelper
  import opened Colors
  import opened Results
  import opened Bc7Tables
  import opened Bc7Layout
  import opened Bc7Color

  /** Decode's subset count: NumSubsets in the modes with subsets, 1 otherwise. */
  function SubsetCount(t: Bc7BlockType): int
  {
    if t.HasSubsets() then t.NumSubsets() else 1
  }

  /** Decode's partition number: PartitionSetId in the modes with subsets, 0 otherwise. */
  function PartitionOf(low: Ulong): int
  {
    if TypeOf(low).HasSubsets() then PartitionSetId(low) else 0
  }

  /** The subset count and partition number Decode uses always name a row of the tables. */
  lemma DecodePartitionValid(low: Ulong)
    ensures ValidPartition(SubsetCount(TypeOf(low)), PartitionOf(low))
    ensures SubsetCount(TypeOf(low)) == TypeOf(low).NumSubsets()
    ensures TypeOf(low) != Type8Reserved ==> TypeOf(low).GetRawEndPointCount() == 2 * SubsetCount(TypeOf(low))
  {
  }

  /** GetIndexBegin for a mode that is not reserved. */
  function IndexBegin(t: Bc7BlockType, bitCount: int, isAlpha: bool): int
    requires t != Type8Reserved
  {
    GetIndexBegin(t, bitCount, isAlpha).value
  }

  /** The bit after the last index of a stream of bitCount-bit indices. */
  function StreamEnd(t: Bc7BlockType, bitCount: int, isAlpha: bool): int
    requires t != Type8Reserved
  {
    IndexBegin(t, bitCount, isAlpha) + 16 * bitCount - SubsetCount(t)
  }

  /**
   * The index streams of every mode as laid out: the colour stream and, in
   * modes 4 and 5, the separate alpha stream follow the p-bits back to back
   * and the last one ends at bit 128; modes 6 and 7 read alpha from the
   * colour stream.
   */
  lemma IndexStreamsAsWritten()
    ensures StreamEnd(Type0, 3, false) == 128 && StreamEnd(Type1, 3, false) == 128
    ensures StreamEnd(Type2, 2, false) == 128 && StreamEnd(Type3, 2, false) == 128
    ensures IndexBegin(Type4, 2, false) == 50 && StreamEnd(Type4, 2, false) == 81 && IndexBegin(Type4, 3, false) == 81
    ensures StreamEnd(Type4, 3, false) == 128
    ensures IndexBegin(Type4, 2, true) == 50 && StreamEnd(Type4, 2, true) == 81 && IndexBegin(Type4, 3, true) == 81
    ensures StreamEnd(Type4, 3, true) == 128
    ensures IndexBegin(Type5, 2, false) == 66 && StreamEnd(Type5, 2, false) == 97
    ensures IndexBegin(Type5, 2, true) == 97 && StreamEnd(Type5, 2, true) == 128
    ensures StreamEnd(Type6, 4, false) == 128 && IndexBegin(Type6, 4, true) == IndexBegin(Type6, 4, false)
    ensures StreamEnd(Type7, 2, false) == 128 && IndexBegin(Type7, 2, true) == IndexBegin(Type7, 2, false)
    ensures forall t :: t != Type8Reserved ==> IndexBegin(t, 2, false) == PBitBegin(t) + t.GetPBitCount()
  {
    forall t | t != Type8Reserved
      ensures IndexBegin(t, 2, false) == PBitBegin(t) + t.GetPBitCount()
    {
      EndpointSection(t);
    }
  }

  /**
   * The streams Decode reads lie between the p-bits and bit 128; in mode 4
   * the 2-bit stream comes first whichever of colour and alpha uses it.
   */
  lemma DecodeStreamsInBlock(low: Ulong)
    requires TypeOf(low) != Type8Reserved
    ensures var t := TypeOf(low);
      var cb := ColorIndexBitCount(low);
      PBitBegin(t) + t.GetPBitCount() <= IndexBegin(t, cb, false) && StreamEnd(t, cb, false) <= 128
    ensures var t := TypeOf(low);
      var ab := AlphaIndexBitCount(low);
      ab != 0 ==> PBitBegin(t) + t.GetPBitCount() <= IndexBegin(t, ab, true) && StreamEnd(t, ab, true) <= 128
  {
    var t := TypeOf(low);
    EndpointSection(t);
    IndexStreamsAsWritten();
  }

  /** GetIndexBitCount for texel i in the partition Decode uses. */
  function IndexWidth(low: Ulong, bitCount: int, i: int): int
    requires 0 <= i < 16
  {
    DecodePartitionValid(low);
    GetIndexBitCount(SubsetCount(TypeOf(low)), PartitionOf(low), bitCount, i)
  }

  /** The first bit of texel i's index: GetIndexBegin plus GetIndexOffset. */
  function IndexPosition(low: Ulong, bitCount: int, isAlpha: bool, i: int): int
    requires TypeOf(low) != Type8Reserved && 0 <= i < 16
  {
    DecodePartitionValid(low);
    IndexBegin(TypeOf(low), bitCount, isAlpha) + GetIndexOffset(SubsetCount(TypeOf(low)), PartitionOf(low), bitCount, i).value
  }

  /** The index of texel i read from a stream, as GetColorIndex and GetAlphaIndex read it. */
  function ReadIndex(low: Ulong, high: Ulong, bitCount: int, isAlpha: bool, i: int): nat
    requires TypeOf(low) != Type8Reserved && 0 <= i < 16
  {
    ToNat(ExtractFrom128(low, high, IndexPosition(low, bitCount, isAlpha, i), IndexWidth(low, bitCount, i)))
  }

  /** The index Decode reads lies inside the block, and is one bit narrower at an anchor such as texel 0. */
  lemma IndexPositionInBlock(low: Ulong, bitCount: int, isAlpha: bool, i: int)
    requires TypeOf(low) != Type8Reserved && 0 <= i < 16
    requires if isAlpha then bitCount == AlphaIndexBitCount(low) && bitCount != 0 else bitCount == ColorIndexBitCount(low)
    ensures 0 <= IndexPosition(low, bitCount, isAlpha, i)
    ensures IndexPosition(low, bitCount, isAlpha, i) + IndexWidth(low, bitCount, i) <= 128
    ensures bitCount - 1 <= IndexWidth(low, bitCount, i) <= bitCount
    ensures i == 0 ==> IndexWidth(low, bitCount, i) == bitCount - 1
  {
    DecodePartitionValid(low);
    DecodeStreamsInBlock(low);
    IndexInStream(SubsetCount(TypeOf(low)), PartitionOf(low), bitCount, i);
  }

  /** GetColorIndex. */
  function ColorIndex(low: Ulong, high: Ulong, i: int): nat
    requires TypeOf(low) != Type8Reserved && 0 <= i < 16
  {
    ReadIndex(low, high, ColorIndexBitCount(low), false, i)
  }

  /** GetAlphaIndex: 0 in the modes without alpha indices. */
  function AlphaIndex(low: Ulong, high: Ulong, i: int): nat
    requires TypeOf(low) != Type8Reserved && 0 <= i < 16
  {
    if AlphaIndexBitCount(low) == 0 then 0 else ReadIndex(low, high, AlphaIndexBitCount(low), true, i)
  }

  /**
   * An index read by Decode fits its width, so it picks an entry of the
   * weight table; the index of texel 0, an anchor, has its top bit implied
   * zero and lies in the lower half of the table.
   */
  lemma ReadIndexFits(low: Ulong, high: Ulong, bitCount: int, isAlpha: bool, i: int)
    requires TypeOf(low) != Type8Reserved && 0 <= i < 16
    requires if isAlpha then bitCount == AlphaIndexBitCount(low) && bitCount != 0 else bitCount == ColorIndexBitCount(low)
    ensures ReadIndex(low, high, bitCount, isAlpha, i) < Pow2(IndexWidth(low, bitCount, i))
    ensures ReadIndex(low, high, bitCount, isAlpha, i) < |Weights(bitCount)| == Pow2(bitCount)
    ensures i == 0 ==> ReadIndex(low, high, bitCount, isAlpha, i) < Pow2(bitCount - 1)
  {
    IndexPositionInBlock(low, bitCount, isAlpha, i);
    FieldFits(low, high, IndexPosition(low, bitCount, isAlpha, i), IndexWidth(low, bitCount, i), bitCount);
    WeightsLength(bitCount);
  }

  /** A field of count <= bitCount bits read from the block is below 2^count, hence below 2^bitCount. */
  lemma FieldFits(low: Ulong, high: Ulong, index: int, count: int, bitCount: int)
    requires 0 <= index && 0 <= count <= bitCount <= 8 && index + count <= 128
    ensures ToNat(ExtractFrom128(low, high, index, count)) < Pow2(count) <= Pow2(bitCount)
  {
    ExtractFrom128Bits(low, high, index, count);
    ToNatBelow(ExtractFrom128(low, high, index, count), count);
    Pow2Mono(count, bitCount);
  }

  lemma WeightsLength(bitCount: int)
    requires 2 <= bitCount <= 4
    ensures |Weights(bitCount)| == Pow2(bitCount)
  {
    WeightsShape(bitCount);
    Pow2Small();
  }

  /** Both indices Decode reads for texel i pick an entry of their weight tables. */
  lemma DecodeIndicesFit(low: Ulong, high: Ulong, i: int)
    requires TypeOf(low) != Type8Reserved && 0 <= i < 16
    ensures ColorIndex(low, high, i) < |Weights(ColorIndexBitCount(low))|
    ensures AlphaIndexBitCount(low) != 0 ==> AlphaIndex(low, high, i) < |Weights(AlphaIndexBitCount(low))|
  {
    ReadIndexFits(low, high, ColorIndexBitCount(low), false, i);
    if AlphaIndexBitCount(low) != 0 {
      ReadIndexFits(low, high, AlphaIndexBitCount(low), true, i);
    }
  }

  /** Every channel of c lies between the same channel of e0 and e1. */
  predicate Between(c: ColorRgba32, e0: ColorRgba32, e1: ColorRgba32)
  {
    Min(e0.r, e1.r) <= c.r <= Max(e0.r, e1.r) && Min(e0.g, e1.g) <= c.g <= Max(e0.g, e1.g) &&
    Min(e0.b, e1.b) <= c.b <= Max(e0.b, e1.b) && Min(e0.a, e1.a) <= c.a <= Max(e0.a, e1.a)
  }

  /** The subset texel i belongs to in the partition Decode uses; texel 0 is always in subset 0. */
  function SubsetOf(low: Ulong, i: int): (r: int)
    requires 0 <= i < 16
    ensures 0 <= r < SubsetCount(TypeOf(low))
    ensures i == 0 ==> r == 0
  {
    DecodePartitionValid(low);
    GetPartitionIndex(SubsetCount(TypeOf(low)), PartitionOf(low), i).value
  }

  /** The colour interpolated for texel i between the finalised endpoints of its subset. */
  function InterpolatedTexel(low: Ulong, high: Ulong, endpoints: seq<ColorRgba32>, i: int): (r: ColorRgba32)
    requires TypeOf(low) != Type8Reserved && 0 <= i < 16
    requires |endpoints| == TypeOf(low).GetRawEndPointCount()
    ensures 2 * SubsetOf(low, i) + 1 < |endpoints|
    ensures Between(r, endpoints[2 * SubsetOf(low, i)], endpoints[2 * SubsetOf(low, i) + 1])
  {
    DecodePartitionValid(low);
    var subsetIndex := SubsetOf(low, i);
    DecodeIndicesFit(low, high, i);
    InterpolateColor(endpoints[2 * subsetIndex], endpoints[2 * subsetIndex + 1],
      ColorIndex(low, high, i), AlphaIndex(low, high, i), ColorIndexBitCount(low), AlphaIndexBitCount(low))
  }

  /**
   * InterpolatedTexel spelled out over the values Decode's loop reads for
   * texel i: its subset, its two indices and their widths.
   */
  lemma InterpolatedTexelFrom(low: Ulong, high: Ulong, endpoints: seq<ColorRgba32>, i: int,
                              subsetIndex: int, colorIndex: int, alphaIndex: int, colorBitCount: int, alphaBitCount: int)
    requires TypeOf(low) != Type8Reserved && 0 <= i < 16
    requires |endpoints| == TypeOf(low).GetRawEndPointCount()
    requires subsetIndex == SubsetOf(low, i)
    requires colorIndex == ColorIndex(low, high, i) && alphaIndex == AlphaIndex(low, high, i)
    requires colorBitCount == ColorIndexBitCount(low) && alphaBitCount == AlphaIndexBitCount(low)
    ensures 0 <= 2 * subsetIndex && 2 * subsetIndex + 1 < |endpoints|
    ensures colorBitCount != 0 ==> 0 <= colorIndex < |Weights(colorBitCount)|
    ensures alphaBitCount != 0 ==> 0 <= alphaIndex < |Weights(alphaBitCount)|
    ensures InterpolatedTexel(low, high, endpoints, i) ==
      InterpolateColor(endpoints[2 * subsetIndex], endpoints[2 * subsetIndex + 1], colorIndex, alphaIndex, colorBitCount, alphaBitCount)
  {
    DecodeIndicesFit(low, high, i);
  }

  /** The rotation Decode applies: RotationBits in modes 4 and 5, none otherwise. */
  function RotationOf(low: Ulong): int
  {
    if TypeOf(low).HasRotationBits() then RotationBits(low) else 0
  }

  /** The colour Decode writes for texel i: the interpolated colour with its channels rotated. */
  function DecodeTexel(low: Ulong, high: Ulong, endpoints: seq<ColorRgba32>, i: int): ColorRgba32
    requires TypeOf(low) != Type8Reserved && 0 <= i < 16
    requires |endpoints| == TypeOf(low).GetRawEndPointCount()
  {
    var outputColor := InterpolatedTexel(low, high, endpoints, i);
    if TypeOf(low).HasRotationBits() then SwapChannels(outputColor, RotationBits(low)) else outputColor
  }

  /** The raw endpoints of a block read over the buffer, then finalised. */
  function DecodedEndpoints(low: Ulong, high: Ulong, pool: seq<ColorRgba32>): (r: seq<ColorRgba32>)
    requires TypeOf(low) != Type8Reserved && |pool| == TypeOf(low).GetRawEndPointCount()
    ensures |r| == |pool|
  {
    var t := TypeOf(low);
    var raw := ExtractRawEndpoints(low, high, pool).value;
    FinalizedEndpoints(t, ExtractPBitArray(low, high), raw)
  }

  /** f(0), f(1), ..., f(n - 1): what a loop appending f(i) for i from 0 up has built after n rounds. */
  function Generated(f: int -> ColorRgba32, n: nat): (r: seq<ColorRgba32>)
    ensures |r| == n
  {
    if n == 0 then [] else Generated(f, n - 1) + [f(n - 1)]
  }

  lemma {:induction false} GeneratedAt(f: int -> ColorRgba32, n: nat, k: int)
    requires 0 <= k < n
    ensures Generated(f, n)[k] == f(k)
  {
    if k < n - 1 {
      GeneratedAt(f, n - 1, k);
    }
  }

  /** Texel k of a block with the given finalised endpoints, as a function of k. */
  function TexelOf(low: Ulong, high: Ulong, endpoints: seq<ColorRgba32>): int -> ColorRgba32
    requires TypeOf(low) != Type8Reserved && |endpoints| == TypeOf(low).GetRawEndPointCount()
  {
    k => if 0 <= k < 16 then DecodeTexel(low, high, endpoints, k) else ColorRgba32(0, 0, 0, 0)
  }

  /**
   * Bc7Block.Decode: InvalidDataException for the reserved mode, otherwise
   * the sixteen texels in row-major order. pool is what the rented endpoint
   * buffer held before decoding.
   */
  function DecodeBlock(low: Ulong, high: Ulong, pool: seq<ColorRgba32>): (r: Result<seq<ColorRgba32>>)
    requires TypeOf(low) != Type8Reserved ==> |pool| == TypeOf(low).GetRawEndPointCount()
    ensures r.Failure? <==> TypeOf(low) == Type8Reserved
    ensures r.Failure? ==> r.error == InvalidDataException
    ensures r.Success? ==> |r.value| == 16
  {
    if TypeOf(low) == Type8Reserved then Failure(InvalidDataException)
    else
      Success(Generated(TexelOf(low, high, DecodedEndpoints(low, high, pool)), 16))
  }

  // ---------------------------------------------------------------------
  // What Decode promises.
  // ---------------------------------------------------------------------

  /** Texel i of a decoded block is DecodeTexel of the finalised endpoints, rotated by RotationOf. */
  lemma DecodeBlockAt(low: Ulong, high: Ulong, pool: seq<ColorRgba32>, i: int)
    requires TypeOf(low) != Type8Reserved && |pool| == TypeOf(low).GetRawEndPointCount() && 0 <= i < 16
    ensures DecodeBlock(low, high, pool).value[i] ==
      SwapChannels(InterpolatedTexel(low, high, DecodedEndpoints(low, high, pool), i), RotationOf(low))
  {
    var endpoints := DecodedEndpoints(low, high, pool);
    GeneratedAt(TexelOf(low, high, endpoints), 16, i);
    assert DecodeBlock(low, high, pool).value[i] == DecodeTexel(low, high, endpoints, i);
  }

  /** Every p-bit ExtractPBitArray returns is 0 or 1. */
  lemma PBitsAreBits(low: Ulong, high: Ulong, i: int)
    requires 0 <= i < |ExtractPBitArray(low, high)|
    ensures ExtractPBitArray(low, high)[i] <= 1
  {
    PBitArrayBits(low, high);
  }

  /**
   * Finalised endpoint j depends on the block alone: the stored components
   * replace the buffer's, and the alpha the buffer keeps in modes 0-3 is
   * overwritten by 255.
   */
  lemma DecodedEndpointIgnoresPool(low: Ulong, high: Ulong, pool1: seq<ColorRgba32>, pool2: seq<ColorRgba32>, j: int)
    requires TypeOf(low) != Type8Reserved
    requires |pool1| == |pool2| == TypeOf(low).GetRawEndPointCount() && 0 <= j < |pool1|
    ensures DecodedEndpoints(low, high, pool1)[j] == DecodedEndpoints(low, high, pool2)[j]
  {
    var t := TypeOf(low);
    var pBits := ExtractPBitArray(low, high);
    var raw1 := ExtractRawEndpoints(low, high, pool1).value;
    var raw2 := ExtractRawEndpoints(low, high, pool2).value;
    assert raw1[j] == RawEndpoint(low, high, t, pool1[j], j);
    assert raw2[j] == RawEndpoint(low, high, t, pool2[j], j);
    RawEndpointFits(low, high, t, pool1[j], j);
    RawEndpointFits(low, high, t, pool2[j], j);
    if t.HasPBits() && !(t == Type1 && j >= 4) {
      PBitsAreBits(low, high, if t == Type1 then j / 2 else j);
    }
    FinalizedEndpointValues(t, pBits, raw1, j);
    FinalizedEndpointValues(t, pBits, raw2, j);
  }

  /** What the rented endpoint buffer held before decoding does not affect the texels. */
  lemma DecodeIgnoresPool(low: Ulong, high: Ulong, pool1: seq<ColorRgba32>, pool2: seq<ColorRgba32>)
    requires TypeOf(low) != Type8Reserved ==>
      |pool1| == |pool2| == TypeOf(low).GetRawEndPointCount()
    ensures DecodeBlock(low, high, pool1) == DecodeBlock(low, high, pool2)
  {
    if TypeOf(low) != Type8Reserved {
      forall j | 0 <= j < |pool1|
        ensures DecodedEndpoints(low, high, pool1)[j] == DecodedEndpoints(low, high, pool2)[j]
      {
        DecodedEndpointIgnoresPool(low, high, pool1, pool2, j);
      }
      assert DecodedEndpoints(low, high, pool1) == DecodedEndpoints(low, high, pool2);
    }
  }

  /**
   * Texel i, with the channel rotation undone, lies channel by channel
   * between the two finalised endpoints of its subset.
   */
  lemma DecodeTexelBetween(low: Ulong, high: Ulong, pool: seq<ColorRgba32>, i: int)
    requires TypeOf(low) != Type8Reserved && |pool| == TypeOf(low).GetRawEndPointCount() && 0 <= i < 16
    ensures var e := DecodedEndpoints(low, high, pool);
      var s := SubsetOf(low, i);
      2 * s + 1 < |e| &&
      Between(SwapChannels(DecodeBlock(low, high, pool).value[i], RotationOf(low)), e[2 * s], e[2 * s + 1])
  {
    var e := DecodedEndpoints(low, high, pool);
    var c := InterpolatedTexel(low, high, e, i);
    DecodeBlockAt(low, high, pool, i);
    SwapChannelsInvolution(c, RotationOf(low));
  }

  /** In modes 0-3, which store no alpha, every texel is opaque. */
  lemma DecodeOpaqueModes(low: Ulong, high: Ulong, pool: seq<ColorRgba32>, i: int)
    requires TypeOf(low) != Type8Reserved && !TypeOf(low).HasAlpha()
    requires |pool| == TypeOf(low).GetRawEndPointCount() && 0 <= i < 16
    ensures DecodeBlock(low, high, pool).value[i].a == 255
  {
    var e := DecodedEndpoints(low, high, pool);
    var s := SubsetOf(low, i);
    DecodeBlockAt(low, high, pool, i);
    var raw := ExtractRawEndpoints(low, high, pool).value;
    FinalizedOpaque(TypeOf(low), ExtractPBitArray(low, high), raw, 2 * s);
    FinalizedOpaque(TypeOf(low), ExtractPBitArray(low, high), raw, 2 * s + 1);
  }
}
