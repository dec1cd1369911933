/**
 * Where a BC7 block keeps what (Gorgon.BCnEncoder.NET/Shared/Bc7Block.cs):
 * the mode tag and the descriptors that follow from it, the partition and
 * index-stream geometry, and the positions of the raw endpoints and p-bits.
 *
 * A block is 128 bits held as two ulongs; bit k is element k of low + high.
 */
module Bc7Layout {
  import opened Bits
  import opened ByteHelper
  import IntOps
  import opened Colors
  import opened Bc7Tables
  import opened Results

  /** The eight modes, and the value reported when none of bits 0-7 is set. */
  datatype Bc7BlockType = Type0 | Type1 | Type2 | Type3 | Type4 | Type5 | Type6 | Type7 | Type8Reserved
  {
    /** The enum's underlying value. */
    function Number(): nat
    {
      match this
      case Type0 => 0 case Type1 => 1 case Type2 => 2 case Type3 => 3
      case Type4 => 4 case Type5 => 5 case Type6 => 6 case Type7 => 7
      case Type8Reserved => 8
    }

    function NumSubsets(): int
    {
      match this
      case Type0 | Type2 => 3
      case Type1 | Type3 | Type7 => 2
      case _ => 1
    }

    predicate HasSubsets()
    {
      match this
      case Type0 | Type1 | Type2 | Type3 | Type7 => true
      case _ => false
    }

    /** Bits per colour component, p-bit included. */
    function ColorComponentPrecision(): int
    {
      match this
      case Type0 | Type2 | Type4 => 5
      case Type1 | Type5 => 7
      case Type3 | Type6 => 8
      case Type7 => 6
      case _ => 0
    }

    /** Bits per alpha component, p-bit included. */
    function AlphaComponentPrecision(): int
    {
      match this
      case Type4 | Type7 => 6
      case Type5 | Type6 => 8
      case _ => 0
    }

    predicate HasRotationBits()
    {
      match this
      case Type4 | Type5 => true
      case _ => false
    }

    predicate HasPBits()
    {
      match this
      case Type0 | Type1 | Type3 | Type6 | Type7 => true
      case _ => false
    }

    predicate HasAlpha()
    {
      match this
      case Type4 | Type5 | Type6 | Type7 => true
      case _ => false
    }

    function GetRawEndPointCount(): int
    {
      match this
      case Type2 | Type0 => 6
      case Type7 | Type3 | Type1 => 4
      case Type6 | Type5 | Type4 => 2
      case _ => -1
    }

    function GetPBitCount(): int
    {
      match this
      case Type0 => 6
      case Type6 | Type1 => 2
      case Type7 | Type3 => 4
      case _ => 0
    }
  }

  /** The cast (Bc7BlockType)i. */
  function TypeFromNumber(i: nat): (t: Bc7BlockType)
    requires i <= 8
    ensures t.Number() == i
  {
    match i
    case 0 => Type0 case 1 => Type1 case 2 => Type2 case 3 => Type3
    case 4 => Type4 case 5 => Type5 case 6 => Type6 case 7 => Type7
    case _ => Type8Reserved
  }

  /** The mode read from bits i..7 of lowBits: the first of them that is set. */
  function LowestTag(low: Ulong, i: nat): Bc7BlockType
    requires i <= 8
    decreases 8 - i
  {
    if i == 8 then Type8Reserved
    else if low[i] then TypeFromNumber(i)
    else LowestTag(low, i + 1)
  }

  /** The Type property of a block whose low word is low. */
  function TypeOf(low: Ulong): Bc7BlockType
  {
    LowestTag(low, 0)
  }

  /**
   * The mode is the position of the lowest set bit among bits 0-7 of the low
   * word, and Type8Reserved exactly when none of them is set.
   */
  lemma TypeOfLowestSetBit(low: Ulong)
    ensures TypeOf(low) == Type8Reserved <==> forall k :: 0 <= k < 8 ==> !low[k]
    ensures TypeOf(low) != Type8Reserved ==>
      low[TypeOf(low).Number()] && forall k :: 0 <= k < TypeOf(low).Number() ==> !low[k]
  {
    LowestTagFrom(low, 0);
  }

  lemma {:induction false} LowestTagFrom(low: Ulong, i: nat)
    requires i <= 8
    ensures LowestTag(low, i) == Type8Reserved <==> forall k :: i <= k < 8 ==> !low[k]
    ensures LowestTag(low, i) != Type8Reserved ==>
      i <= LowestTag(low, i).Number() < 8 && low[LowestTag(low, i).Number()] &&
      forall k :: i <= k < LowestTag(low, i).Number() ==> !low[k]
    decreases 8 - i
  {
    if i < 8 && !low[i] {
      LowestTagFrom(low, i + 1);
    }
  }

  /** A low word whose bit m is set and whose bits below m are clear is of mode m. */
  lemma TypeOfTag(low: Ulong, m: nat)
    requires m < 8 && low[m] && forall k :: 0 <= k < m ==> !low[k]
    ensures TypeOf(low) == TypeFromNumber(m)
  {
    TagFrom(low, m, 0);
  }

  lemma {:induction false} TagFrom(low: Ulong, m: nat, i: nat)
    requires i <= m < 8 && low[m] && forall k :: 0 <= k < m ==> !low[k]
    ensures LowestTag(low, i) == TypeFromNumber(m)
    decreases m - i
  {
    if i < m {
      TagFrom(low, m, i + 1);
    }
  }

  // ---------------------------------------------------------------------
  // Descriptors that also read fields of the low word.
  // ---------------------------------------------------------------------

  /** The partition number: 4 bits at 1 in mode 0, 6 bits after the tag in modes 1, 2, 3 and 7. */
  function PartitionSetId(low: Ulong): (r: int)
    ensures TypeOf(low).HasSubsets() ==> 0 <= r < 64
    ensures TypeOf(low) == Type0 ==> r < 16
    ensures !TypeOf(low).HasSubsets() ==> r == -1
  {
    ExtractSmall(low, 1, 4);
    ExtractSmall(low, 2, 6);
    ExtractSmall(low, 3, 6);
    ExtractSmall(low, 4, 6);
    ExtractSmall(low, 8, 6);
    match TypeOf(low)
    case Type0 => Extract4(low, 1)
    case Type1 => Extract6(low, 2)
    case Type2 => Extract6(low, 3)
    case Type3 => Extract6(low, 4)
    case Type7 => Extract6(low, 8)
    case _ => -1
  }

  /** The 2-bit channel rotation of modes 4 and 5. */
  function RotationBits(low: Ulong): (r: byte)
    ensures r < 4
    ensures !TypeOf(low).HasRotationBits() ==> r == 0
  {
    ExtractSmall(low, 5, 2);
    ExtractSmall(low, 6, 2);
    match TypeOf(low)
    case Type4 => Extract2(low, 5)
    case Type5 => Extract2(low, 6)
    case _ => 0
  }

  /** Bit 7 of a mode 4 block: which of its two index streams holds the colour indices. */
  function Type4IndexMode(low: Ulong): (r: int)
    ensures 0 <= r < 2
  {
    ExtractSmall(low, 7, 1);
    if TypeOf(low) == Type4 then Extract1(low, 7) else 0
  }

  /** Bits per colour index, anchor texels aside. */
  function ColorIndexBitCount(low: Ulong): (r: int)
    ensures TypeOf(low) != Type8Reserved ==> 2 <= r <= 4
  {
    match TypeOf(low)
    case Type4 =>
      if Type4IndexMode(low) == 1 then 3
      else if Type4IndexMode(low) == 0 then 2
      else 0
    case Type0 | Type1 => 3
    case Type2 | Type3 | Type5 | Type7 => 2
    case Type6 => 4
    case _ => 0
  }

  /** Bits per alpha index; 0 in the modes without alpha. */
  function AlphaIndexBitCount(low: Ulong): (r: int)
    ensures TypeOf(low).HasAlpha() ==> 2 <= r <= 4
    ensures !TypeOf(low).HasAlpha() ==> r == 0
  {
    match TypeOf(low)
    case Type4 =>
      if Type4IndexMode(low) == 0 then 3
      else if Type4IndexMode(low) == 1 then 2
      else 0
    case Type5 | Type7 => 2
    case Type6 => 4
    case _ => 0
  }

  /** Extract of an n-bit field is below 2^n. */
  lemma ExtractSmall(source: Ulong, index: int, n: nat)
    requires 0 <= index && 0 < n <= 6 && index + n <= 64
    ensures ByteOf(Extract(source, index, n)) < Pow2(n)
    ensures n == 1 ==> ByteOf(Extract(source, index, n)) < 2
    ensures n == 2 ==> ByteOf(Extract(source, index, n)) < 4
    ensures n == 4 ==> ByteOf(Extract(source, index, n)) < 16
    ensures n == 6 ==> ByteOf(Extract(source, index, n)) < 64
  {
    ExtractBits(source, index, n);
    ByteOfSmall(Extract(source, index, n), n);
  }

  // ---------------------------------------------------------------------
  // Partitions and index streams.
  // ---------------------------------------------------------------------

  /** The subset texel i belongs to. */
  function GetPartitionIndex(numSubsets: int, partitionSetId: int, i: int): (r: Result<int>)
    requires numSubsets == 2 || numSubsets == 3 ==> 0 <= partitionSetId < 64 && 0 <= i < 16
    ensures r.Success? <==> 1 <= numSubsets <= 3
    ensures r.Success? ==> 0 <= r.value < numSubsets
    ensures r.Success? && i == 0 ==> r.value == 0
  {
    match numSubsets
    case 1 => Success(0)
    case 2 => Subsets2PartitionRange(partitionSetId, i); Success(Subsets2Partition(partitionSetId, i))
    case 3 => Subsets3PartitionRange(partitionSetId, i); Success(Subsets3Partition(partitionSetId, i))
    case _ => Failure(ArgumentOutOfRangeException)
  }

  /** Where texel index's index starts, counted from the beginning of its stream. */
  function GetIndexOffset(numSubsets: int, partitionIndex: int, bitCount: int, index: int): (r: Result<int>)
    requires index != 0 && (numSubsets == 2 || numSubsets == 3) ==> 0 <= partitionIndex < 64
    ensures r.Success? <==> index == 0 || 1 <= numSubsets <= 3
  {
    if index == 0 then Success(0)
    else match numSubsets
      case 1 => Success(bitCount * index - 1)
      case 2 =>
        var anchorIndex := Subsets2Anchor(partitionIndex);
        Success(if index <= anchorIndex then bitCount * index - 1 else bitCount * index - 2)
      case 3 =>
        var anchor2Index := Subsets3Anchor2(partitionIndex);
        var anchor3Index := Subsets3Anchor3(partitionIndex);
        Success(
          if index <= anchor2Index && index <= anchor3Index then bitCount * index - 1
          else if index > anchor2Index && index > anchor3Index then bitCount * index - 3
          else bitCount * index - 2)
      case _ => Failure(ArgumentOutOfRangeException)
  }

  /** Width of texel index's index: one bit short at texel 0 and at the anchor texels. */
  function GetIndexBitCount(numSubsets: int, partitionIndex: int, bitCount: int, index: int): int
    requires index != 0 && (numSubsets == 2 || numSubsets == 3) ==> 0 <= partitionIndex < 64
  {
    if index == 0 then bitCount - 1
    else if numSubsets == 2 && index == Subsets2Anchor(partitionIndex) then bitCount - 1
    else if numSubsets == 3 &&
      (index == Subsets3Anchor2(partitionIndex) || index == Subsets3Anchor3(partitionIndex))
    then bitCount - 1
    else bitCount
  }

  /** First bit of a mode's colour or alpha index stream. */
  function GetIndexBegin(t: Bc7BlockType, bitCount: int, isAlpha: bool): (r: Result<int>)
    ensures r.Success? <==> t != Type8Reserved
  {
    match t
    case Type0 => Success(83)
    case Type1 => Success(82)
    case Type2 => Success(99)
    case Type3 => Success(98)
    case Type4 => Success(if bitCount == 2 then 50 else 81)
    case Type5 => Success(if isAlpha then 97 else 66)
    case Type6 => Success(65)
    case Type7 => Success(98)
    case Type8Reserved => Failure(ArgumentOutOfRangeException)
  }

  /** A partition number that addresses a row of the tables for numSubsets subsets. */
  predicate ValidPartition(numSubsets: int, partitionIndex: int)
  {
    1 <= numSubsets <= 3 && (numSubsets == 1 ==> partitionIndex == 0) && 0 <= partitionIndex < 64
  }

  /** Texels are stored back to back: texel index + 1 starts where texel index ends. */
  lemma IndexOffsetStep(numSubsets: int, partitionIndex: int, bitCount: int, index: int)
    requires ValidPartition(numSubsets, partitionIndex)
    requires 0 <= index < 15
    ensures GetIndexOffset(numSubsets, partitionIndex, bitCount, index + 1).value ==
      GetIndexOffset(numSubsets, partitionIndex, bitCount, index).value +
      GetIndexBitCount(numSubsets, partitionIndex, bitCount, index)
  {
    Subsets2AnchorInSubset(partitionIndex);
    Subsets3AnchorsInSubsets(partitionIndex);
    assert bitCount * (index + 1) == bitCount * index + bitCount;
  }

  /** The 16 indices of a stream take 16 * bitCount - numSubsets bits, one less per anchor. */
  lemma IndexStreamLength(numSubsets: int, partitionIndex: int, bitCount: int)
    requires ValidPartition(numSubsets, partitionIndex)
    ensures GetIndexOffset(numSubsets, partitionIndex, bitCount, 15).value +
      GetIndexBitCount(numSubsets, partitionIndex, bitCount, 15) == 16 * bitCount - numSubsets
  {
    Subsets2AnchorInSubset(partitionIndex);
    Subsets3AnchorsInSubsets(partitionIndex);
  }

  /** Each texel's index lies inside its stream and has bitCount - 1 or bitCount bits. */
  lemma IndexInStream(numSubsets: int, partitionIndex: int, bitCount: int, index: int)
    requires ValidPartition(numSubsets, partitionIndex) && bitCount >= 1
    requires 0 <= index < 16
    ensures 0 <= GetIndexOffset(numSubsets, partitionIndex, bitCount, index).value
    ensures GetIndexOffset(numSubsets, partitionIndex, bitCount, index).value +
      GetIndexBitCount(numSubsets, partitionIndex, bitCount, index) <= 16 * bitCount - numSubsets
    ensures bitCount - 1 <= GetIndexBitCount(numSubsets, partitionIndex, bitCount, index) <= bitCount
  {
    OffsetFromStart(numSubsets, partitionIndex, bitCount, index);
    OffsetToEnd(numSubsets, partitionIndex, bitCount, index);
  }

  lemma {:induction false} OffsetFromStart(numSubsets: int, partitionIndex: int, bitCount: int, index: int)
    requires ValidPartition(numSubsets, partitionIndex) && bitCount >= 1
    requires 0 <= index < 16
    ensures 0 <= GetIndexOffset(numSubsets, partitionIndex, bitCount, index).value
  {
    if index > 0 {
      OffsetFromStart(numSubsets, partitionIndex, bitCount, index - 1);
      IndexOffsetStep(numSubsets, partitionIndex, bitCount, index - 1);
    }
  }

  lemma {:induction false} OffsetToEnd(numSubsets: int, partitionIndex: int, bitCount: int, index: int)
    requires ValidPartition(numSubsets, partitionIndex) && bitCount >= 1
    requires 0 <= index < 16
    ensures GetIndexOffset(numSubsets, partitionIndex, bitCount, index).value +
      GetIndexBitCount(numSubsets, partitionIndex, bitCount, index) <= 16 * bitCount - numSubsets
    decreases 16 - index
  {
    if index == 15 {
      IndexStreamLength(numSubsets, partitionIndex, bitCount);
    } else {
      OffsetToEnd(numSubsets, partitionIndex, bitCount, index + 1);
      IndexOffsetStep(numSubsets, partitionIndex, bitCount, index);
    }
  }

  // ---------------------------------------------------------------------
  // Raw endpoints and p-bits.
  // ---------------------------------------------------------------------

  /** First bit of the endpoint section, just after the mode's header fields. */
  function EndpointBegin(t: Bc7BlockType): int
  {
    match t
    case Type0 => 5 case Type1 => 8 case Type2 => 9 case Type3 => 10
    case Type4 => 8 case Type5 => 8 case Type6 => 7 case Type7 => 14
    case Type8Reserved => 0
  }

  /** Stored bits per colour component, p-bit excluded. */
  function ColorFieldBits(t: Bc7BlockType): int
  {
    match t
    case Type0 => 4 case Type1 => 6 case Type2 => 5 case Type3 => 7
    case Type4 => 5 case Type5 => 7 case Type6 => 7 case Type7 => 5
    case Type8Reserved => 0
  }

  /** Stored bits per alpha component; 0 in the modes that store none. */
  function AlphaFieldBits(t: Bc7BlockType): int
  {
    match t
    case Type4 => 6 case Type5 => 8 case Type6 => 7 case Type7 => 5
    case _ => 0
  }

  /** Stored bits of component c (0 r, 1 g, 2 b, 3 a). */
  function ComponentBits(t: Bc7BlockType, c: int): int
  {
    if c < 3 then ColorFieldBits(t) else AlphaFieldBits(t)
  }

  /**
   * First bit of component c of raw endpoint j: the red components of all
   * endpoints come first, then all greens, all blues and all alphas.
   */
  function ComponentOffset(t: Bc7BlockType, c: int, j: int): int
  {
    var count := t.GetRawEndPointCount();
    if c < 3 then EndpointBegin(t) + ColorFieldBits(t) * (count * c + j)
    else EndpointBegin(t) + 3 * count * ColorFieldBits(t) + AlphaFieldBits(t) * j
  }

  /** First bit after the endpoints, where the p-bits (if any) are stored. */
  function PBitBegin(t: Bc7BlockType): int
  {
    EndpointBegin(t) + t.GetRawEndPointCount() * (3 * ColorFieldBits(t) + AlphaFieldBits(t))
  }

  /** The positions of component c of the raw endpoints, in endpoint order. */
  function ComponentOffsets(t: Bc7BlockType, c: int): seq<int>
    requires t != Type8Reserved
  {
    seq(t.GetRawEndPointCount(), j => ComponentOffset(t, c, j))
  }

  /** The positions above are the ones ExtractRawEndpoints reads, mode by mode. */
  lemma EndpointOffsetsAsWritten()
    ensures ComponentOffsets(Type0, 0) == [5, 9, 13, 17, 21, 25]
    ensures ComponentOffsets(Type0, 1) == [29, 33, 37, 41, 45, 49]
    ensures ComponentOffsets(Type0, 2) == [53, 57, 61, 65, 69, 73]
    ensures ComponentOffsets(Type1, 0) == [8, 14, 20, 26]
    ensures ComponentOffsets(Type1, 1) == [32, 38, 44, 50]
    ensures ComponentOffsets(Type1, 2) == [56, 62, 68, 74]
    ensures ComponentOffsets(Type2, 0) == [9, 14, 19, 24, 29, 34]
    ensures ComponentOffsets(Type2, 1) == [39, 44, 49, 54, 59, 64]
    ensures ComponentOffsets(Type2, 2) == [69, 74, 79, 84, 89, 94]
    ensures ComponentOffsets(Type3, 0) == [10, 17, 24, 31]
    ensures ComponentOffsets(Type3, 1) == [38, 45, 52, 59]
    ensures ComponentOffsets(Type3, 2) == [66, 73, 80, 87]
    ensures ComponentOffsets(Type4, 0) == [8, 13]
    ensures ComponentOffsets(Type4, 1) == [18, 23]
    ensures ComponentOffsets(Type4, 2) == [28, 33]
    ensures ComponentOffsets(Type4, 3) == [38, 44]
    ensures ComponentOffsets(Type5, 0) == [8, 15]
    ensures ComponentOffsets(Type5, 1) == [22, 29]
    ensures ComponentOffsets(Type5, 2) == [36, 43]
    ensures ComponentOffsets(Type5, 3) == [50, 58]
    ensures ComponentOffsets(Type6, 0) == [7, 14]
    ensures ComponentOffsets(Type6, 1) == [21, 28]
    ensures ComponentOffsets(Type6, 2) == [35, 42]
    ensures ComponentOffsets(Type6, 3) == [49, 56]
    ensures ComponentOffsets(Type7, 0) == [14, 19, 24, 29]
    ensures ComponentOffsets(Type7, 1) == [34, 39, 44, 49]
    ensures ComponentOffsets(Type7, 2) == [54, 59, 64, 69]
    ensures ComponentOffsets(Type7, 3) == [74, 79, 84, 89]
  {
    EndpointOffsetsModes0To3();
    EndpointOffsetsModes4To7();
  }

  lemma EndpointOffsetsModes0To3()
    ensures ComponentOffsets(Type0, 0) == [5, 9, 13, 17, 21, 25]
    ensures ComponentOffsets(Type0, 1) == [29, 33, 37, 41, 45, 49]
    ensures ComponentOffsets(Type0, 2) == [53, 57, 61, 65, 69, 73]
    ensures ComponentOffsets(Type1, 0) == [8, 14, 20, 26]
    ensures ComponentOffsets(Type1, 1) == [32, 38, 44, 50]
    ensures ComponentOffsets(Type1, 2) == [56, 62, 68, 74]
    ensures ComponentOffsets(Type2, 0) == [9, 14, 19, 24, 29, 34]
    ensures ComponentOffsets(Type2, 1) == [39, 44, 49, 54, 59, 64]
    ensures ComponentOffsets(Type2, 2) == [69, 74, 79, 84, 89, 94]
    ensures ComponentOffsets(Type3, 0) == [10, 17, 24, 31]
    ensures ComponentOffsets(Type3, 1) == [38, 45, 52, 59]
    ensures ComponentOffsets(Type3, 2) == [66, 73, 80, 87]
  {
  }

  lemma EndpointOffsetsModes4To7()
    ensures ComponentOffsets(Type4, 0) == [8, 13]
    ensures ComponentOffsets(Type4, 1) == [18, 23]
    ensures ComponentOffsets(Type4, 2) == [28, 33]
    ensures ComponentOffsets(Type4, 3) == [38, 44]
    ensures ComponentOffsets(Type5, 0) == [8, 15]
    ensures ComponentOffsets(Type5, 1) == [22, 29]
    ensures ComponentOffsets(Type5, 2) == [36, 43]
    ensures ComponentOffsets(Type5, 3) == [50, 58]
    ensures ComponentOffsets(Type6, 0) == [7, 14]
    ensures ComponentOffsets(Type6, 1) == [21, 28]
    ensures ComponentOffsets(Type6, 2) == [35, 42]
    ensures ComponentOffsets(Type6, 3) == [49, 56]
    ensures ComponentOffsets(Type7, 0) == [14, 19, 24, 29]
    ensures ComponentOffsets(Type7, 1) == [34, 39, 44, 49]
    ensures ComponentOffsets(Type7, 2) == [54, 59, 64, 69]
    ensures ComponentOffsets(Type7, 3) == [74, 79, 84, 89]
  {
  }

  /**
   * A component's precision is its stored width plus the p-bit; the p-bits
   * follow the endpoints, and the first index stream follows the p-bits.
   */
  lemma EndpointSection(t: Bc7BlockType)
    requires t != Type8Reserved
    ensures t.ColorComponentPrecision() == ColorFieldBits(t) + (if t.HasPBits() then 1 else 0)
    ensures t.HasAlpha() ==> t.AlphaComponentPrecision() == AlphaFieldBits(t) + (if t.HasPBits() then 1 else 0)
    ensures !t.HasAlpha() ==> t.AlphaComponentPrecision() == AlphaFieldBits(t) == 0
    ensures t.HasPBits() <==> t.GetPBitCount() > 0
    ensures PBitBegin(t) + t.GetPBitCount() == GetIndexBegin(t, 2, false).value
  {
  }

  /** Component c of raw endpoint j as stored in the block. */
  function RawComponent(low: Ulong, high: Ulong, t: Bc7BlockType, c: int, j: int): byte
  {
    ByteOf(ExtractFrom128(low, high, ComponentOffset(t, c, j), ComponentBits(t, c)))
  }

  /** Raw endpoint j read over e: r, g and b always, a only in the modes that store it. */
  function RawEndpoint(low: Ulong, high: Ulong, t: Bc7BlockType, e: ColorRgba32, j: int): ColorRgba32
  {
    var e1 := e.(r := RawComponent(low, high, t, 0, j), g := RawComponent(low, high, t, 1, j),
                  b := RawComponent(low, high, t, 2, j));
    if t.HasAlpha() then e1.(a := RawComponent(low, high, t, 3, j)) else e1
  }

  /** A raw endpoint as ExtractRawEndpoints leaves it: every stored component fits its field. */
  predicate RawFits(t: Bc7BlockType, e: ColorRgba32)
  {
    e.r < Pow2(ColorFieldBits(t)) && e.g < Pow2(ColorFieldBits(t)) && e.b < Pow2(ColorFieldBits(t)) &&
    (t.HasAlpha() ==> e.a < Pow2(AlphaFieldBits(t)))
  }

  /** Every stored component lies inside the endpoint section, which ends within the block. */
  lemma ComponentInBlock(t: Bc7BlockType, c: int, j: int)
    requires t != Type8Reserved && 0 <= c < 4 && 0 <= j < t.GetRawEndPointCount()
    ensures 0 <= ComponentBits(t, c) <= 8
    ensures 0 <= ComponentOffset(t, c, j) && ComponentOffset(t, c, j) + ComponentBits(t, c) <= PBitBegin(t) <= 128
  {
    match t
    case Type0 => case Type1 => case Type2 => case Type3 =>
    case Type4 => case Type5 => case Type6 => case Type7 =>
  }

  /** A stored component read back fits in its field width. */
  lemma RawComponentFits(low: Ulong, high: Ulong, t: Bc7BlockType, c: int, j: int)
    requires t != Type8Reserved && 0 <= c < 4 && 0 <= j < t.GetRawEndPointCount()
    ensures RawComponent(low, high, t, c, j) < Pow2(ComponentBits(t, c))
  {
    ComponentInBlock(t, c, j);
    ExtractFrom128Bits(low, high, ComponentOffset(t, c, j), ComponentBits(t, c));
    ByteOfSmall(ExtractFrom128(low, high, ComponentOffset(t, c, j), ComponentBits(t, c)), ComponentBits(t, c));
  }

  /** Every raw endpoint ExtractRawEndpoints reads fits the mode's field widths. */
  lemma RawEndpointFits(low: Ulong, high: Ulong, t: Bc7BlockType, e: ColorRgba32, j: int)
    requires t != Type8Reserved && 0 <= j < t.GetRawEndPointCount()
    ensures RawFits(t, RawEndpoint(low, high, t, e, j))
  {
    RawComponentFits(low, high, t, 0, j);
    RawComponentFits(low, high, t, 1, j);
    RawComponentFits(low, high, t, 2, j);
    if t.HasAlpha() {
      RawComponentFits(low, high, t, 3, j);
    }
  }

  /**
   * ExtractRawEndpoints: overwrites the stored components of the first
   * GetRawEndPointCount endpoints; InvalidDataException for the reserved type.
   */
  function ExtractRawEndpoints(low: Ulong, high: Ulong, endpoints: seq<ColorRgba32>): (r: Result<seq<ColorRgba32>>)
    requires |endpoints| >= TypeOf(low).GetRawEndPointCount()
    ensures r.Failure? <==> TypeOf(low) == Type8Reserved
    ensures r.Failure? ==> r.error == InvalidDataException
    ensures r.Success? ==> |r.value| == |endpoints|
    ensures r.Success? ==> forall j :: TypeOf(low).GetRawEndPointCount() <= j < |endpoints| ==> r.value[j] == endpoints[j]
    ensures r.Success? && !TypeOf(low).HasAlpha() ==> forall j :: 0 <= j < |endpoints| ==> r.value[j].a == endpoints[j].a
  {
    var t := TypeOf(low);
    if t == Type8Reserved then Failure(InvalidDataException)
    else
      Success(seq(|endpoints|, j requires 0 <= j < |endpoints| =>
        if j < t.GetRawEndPointCount() then RawEndpoint(low, high, t, endpoints[j], j) else endpoints[j]))
  }

  /**
   * ExtractPBitArray: the mode's p-bits, read one bit at a time. Apart from
   * mode 6, whose two p-bits straddle the two words, they are consecutive bits
   * of the high word.
   */
  function ExtractPBitArray(low: Ulong, high: Ulong): (r: seq<byte>)
    ensures |r| == TypeOf(low).GetPBitCount()
  {
    match TypeOf(low)
    case Type0 => HighBitRun(high, 77 - 64, 6)
    case Type1 => HighBitRun(high, 80 - 64, 2)
    case Type3 => HighBitRun(high, 94 - 64, 4)
    case Type6 => [Extract1(low, 63), Extract1(high, 0)]
    case Type7 => HighBitRun(high, 94 - 64, 4)
    case _ => []
  }

  /** Bits first, first + 1, ... of the high word, n of them, each as 0 or 1. */
  function HighBitRun(high: Ulong, first: int, n: nat): (r: seq<byte>)
    requires 0 <= first && first + n <= 64
    ensures |r| == n
  {
    seq<byte>(n, i requires 0 <= i < n => Extract1(high, first + i))
  }

  /** The p-bits are the GetPBitCount bits of the block that follow the endpoints, in order. */
  lemma PBitArrayBits(low: Ulong, high: Ulong)
    ensures forall i :: 0 <= i < |ExtractPBitArray(low, high)| ==>
      ExtractPBitArray(low, high)[i] == if (low + high)[PBitBegin(TypeOf(low)) + i] then 1 else 0
  {
    var t := TypeOf(low);
    var r := ExtractPBitArray(low, high);
    forall i | 0 <= i < |r|
      ensures r[i] == if (low + high)[PBitBegin(t) + i] then 1 else 0
    {
      PBitAt(low, high, t, i);
    }
  }

  lemma PBitAt(low: Ulong, high: Ulong, t: Bc7BlockType, i: int)
    requires t == TypeOf(low) && 0 <= i < t.GetPBitCount()
    ensures ExtractPBitArray(low, high)[i] == if (low + high)[PBitBegin(t) + i] then 1 else 0
  {
    if t == Type0 {
      PBitAtType0(low, high, i);
    } else if t == Type1 {
      PBitAtType1(low, high, i);
    } else if t == Type6 {
      PBitAtType6(low, high, i);
    } else {
      PBitAtType3Or7(low, high, i);
    }
  }

  lemma PBitAtType6(low: Ulong, high: Ulong, i: int)
    requires TypeOf(low) == Type6 && 0 <= i < 2
    ensures ExtractPBitArray(low, high)[i] == if (low + high)[PBitBegin(Type6) + i] then 1 else 0
  {
    if i == 0 {
      Extract1Bit(low, 63);
    } else {
      Extract1Bit(high, 0);
    }
  }

  lemma PBitAtType0(low: Ulong, high: Ulong, i: int)
    requires TypeOf(low) == Type0 && 0 <= i < 6
    ensures ExtractPBitArray(low, high)[i] == if (low + high)[PBitBegin(Type0) + i] then 1 else 0
  {
    PBitInHigh(low, high, 13 + i);
  }

  lemma PBitAtType1(low: Ulong, high: Ulong, i: int)
    requires TypeOf(low) == Type1 && 0 <= i < 2
    ensures ExtractPBitArray(low, high)[i] == if (low + high)[PBitBegin(Type1) + i] then 1 else 0
  {
    PBitInHigh(low, high, 16 + i);
  }

  lemma PBitAtType3Or7(low: Ulong, high: Ulong, i: int)
    requires (TypeOf(low) == Type3 || TypeOf(low) == Type7) && 0 <= i < 4
    ensures ExtractPBitArray(low, high)[i] == if (low + high)[PBitBegin(TypeOf(low)) + i] then 1 else 0
  {
    PBitInHigh(low, high, 30 + i);
  }

  lemma PBitInHigh(low: Ulong, high: Ulong, k: int)
    requires 0 <= k < 64
    ensures Extract1(high, k) == if (low + high)[64 + k] then 1 else 0
  {
    Extract1Bit(high, k);
  }

  /** The runs above are the explicit lists of Extract1 calls of modes 0, 1, 3 and 7. */
  lemma PBitsOfType0(low: Ulong, high: Ulong)
    requires TypeOf(low) == Type0
    ensures ExtractPBitArray(low, high) ==
      [Extract1(high, 13), Extract1(high, 14), Extract1(high, 15), Extract1(high, 16), Extract1(high, 17), Extract1(high, 18)]
  {
  }

  lemma PBitsOfType1(low: Ulong, high: Ulong)
    requires TypeOf(low) == Type1
    ensures ExtractPBitArray(low, high) == [Extract1(high, 16), Extract1(high, 17)]
  {
  }

  lemma PBitsOfType3Or7(low: Ulong, high: Ulong)
    requires TypeOf(low) == Type3 || TypeOf(low) == Type7
    ensures ExtractPBitArray(low, high) == [Extract1(high, 30), Extract1(high, 31), Extract1(high, 32), Extract1(high, 33)]
  {
  }

  /** Extract1 reads one bit as 0 or 1. */
  lemma Extract1Bit(source: Ulong, k: int)
    requires 0 <= k < 64
    ensures Extract1(source, k) == if source[k] then 1 else 0
  {
    var w := Extract(source, k, 1);
    ExtractBits(source, k, 1);
    ByteOfSmall(w, 1);
    ToNatBelow(w[1..], 0);
    assert ToNat(w) == (if w[0] then 1 else 0) + 2 * ToNat(w[1..]);
  }
}
