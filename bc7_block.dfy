/**
 * Bc7Block: one 128-bit BC7 block held as two 64-bit words that its
 * methods read and rewrite. The Pack methods are proved to leave exactly
 * the block PackedBlock describes, and Decode to return DecodeBlock.
 */
module Bc7Blocks {
  import opened Bits
  import opened ByteHelper
  import IntOps
  import opened Results
  import opened Colors
  import opened Bc7Layout
  import opened Bc7Color
  import opened Bc7Decoding
  import opened Bc7Packing

  /** An (r, g, b) endpoint with the alpha a stored beside it. */
  function WithAlpha(value: (byte, byte, byte), a: byte): ColorRgba32
  {
    ColorRgba32(value.0, value.1, value.2, a)
  }

  /** Endpoints given as (r, g, b) in a mode that stores no alpha. */
  function RgbEndpoints(values: seq<(byte, byte, byte)>): (r: seq<ColorRgba32>)
    ensures |r| == |values|
  {
    seq(|values|, j requires 0 <= j < |values| => WithAlpha(values[j], 0))
  }

  /** Endpoints given as (r, g, b) with their alphas in a second span, as modes 4 and 5 take them. */
  function RgbAlphaEndpoints(values: seq<(byte, byte, byte)>, alphas: seq<byte>): (r: seq<ColorRgba32>)
    requires |alphas| == |values|
    ensures |r| == |values|
  {
    seq(|values|, j requires 0 <= j < |values| => WithAlpha(values[j], alphas[j]))
  }

  /** Endpoints given as (r, g, b, a). */
  function RgbaEndpoints(values: seq<(byte, byte, byte, byte)>): (r: seq<ColorRgba32>)
    ensures |r| == |values|
  {
    seq(|values|, j requires 0 <= j < |values| => ColorRgba32(values[j].0, values[j].1, values[j].2, values[j].3))
  }

  /** GetComponent of an (r, g, b) tuple: the channel Channel names, for every alpha beside it; r for 3. */
  function GetComponent3(value: (byte, byte, byte), componentID: int): (r: byte)
    ensures componentID != 3 ==> r == Channel(WithAlpha(value, 0), componentID)
    ensures componentID == 3 ==> r == value.0
  {
    match componentID
    case 1 => value.1
    case 2 => value.2
    case _ => value.0
  }

  /** GetComponent of an (r, g, b, a) tuple: the channel Channel names. */
  function GetComponent4(value: (byte, byte, byte, byte), componentID: int): (r: byte)
    ensures r == Channel(ColorRgba32(value.0, value.1, value.2, value.3), componentID)
  {
    match componentID
    case 1 => value.1
    case 2 => value.2
    case 3 => value.3
    case _ => value.0
  }

  /** The test (lowBits & mask) == mask with mask = 1 << i is bit i of lowBits. */
  lemma MaskTest(low: Ulong, i: nat)
    requires i < 64
    ensures And(low, FromNat(Pow2(i), 64)) == FromNat(Pow2(i), 64) <==> low[i]
  {
    var mask := FromNat(Pow2(i), 64);
    forall k | 0 <= k < 64
      ensures mask[k] == (k == i)
    {
      BitPow2(i, k);
    }
    if low[i] {
      assert forall k :: 0 <= k < 64 ==> And(low, mask)[k] == mask[k];
    } else {
      assert And(low, mask)[i] != mask[i];
    }
  }

  /** Channels 0-2 of RgbEndpoints are what GetComponent reads from the tuples. */
  lemma RgbChannels(values: seq<(byte, byte, byte)>)
    ensures forall c, j :: 0 <= c < 3 && 0 <= j < |values| ==> Channel(RgbEndpoints(values)[j], c) == GetComponent3(values[j], c)
  {
  }

  /** The same for RgbAlphaEndpoints: the alphas beside the tuples do not show in channels 0-2. */
  lemma RgbAlphaChannels(values: seq<(byte, byte, byte)>, alphas: seq<byte>)
    requires |alphas| == |values|
    ensures forall c, j :: 0 <= c < 3 && 0 <= j < |values| ==> Channel(RgbAlphaEndpoints(values, alphas)[j], c) == GetComponent3(values[j], c)
    ensures forall j :: 0 <= j < |values| ==> RgbAlphaEndpoints(values, alphas)[j].a == alphas[j]
  {
  }

  /** One more pass of the endpoint loop appends its run of fields. */
  lemma EndpointFieldsNext(t: Bc7BlockType, eps: seq<ColorRgba32>, h: seq<Field>, i: nat)
    ensures h + EndpointFields(t, eps, i + 1) == h + EndpointFields(t, eps, i) + ComponentFields(t, eps, i)
  {
  }

  /** Endpoint i replaced by f(i, endpoint i). */
  function Updated(endpoints: seq<ColorRgba32>, f: (int, ColorRgba32) -> ColorRgba32): (r: seq<ColorRgba32>)
    ensures |r| == |endpoints|
  {
    seq(|endpoints|, i requires 0 <= i < |endpoints| => f(i, endpoints[i]))
  }

  /** Every endpoint widened by ExpandEndpoint. */
  function ExpandedEndpoints(endpoints: seq<ColorRgba32>, colorPrecision: int, alphaPrecision: int): (r: seq<ColorRgba32>)
    ensures |r| == |endpoints|
  {
    seq(|endpoints|, i requires 0 <= i < |endpoints| => ExpandEndpoint(endpoints[i], colorPrecision, alphaPrecision))
  }

  /** Every endpoint with alpha 255. */
  function OpaqueEndpoints(endpoints: seq<ColorRgba32>): (r: seq<ColorRgba32>)
    ensures |r| == |endpoints|
  {
    seq(|endpoints|, i requires 0 <= i < |endpoints| => endpoints[i].(a := 255))
  }

  /** FinalizedEndpoints is the p-bit pass, then the widening pass, then, without alpha, the opaque pass. */
  lemma FinalizedInSteps(t: Bc7BlockType, pBits: seq<byte>, endpoints: seq<ColorRgba32>)
    requires t.HasPBits() ==> PBitsCover(t, pBits, |endpoints|)
    ensures var e := ExpandedEndpoints(PBitPass(t, pBits, endpoints), t.ColorComponentPrecision(), t.AlphaComponentPrecision());
      FinalizedEndpoints(t, pBits, endpoints) == if t.HasAlpha() then e else OpaqueEndpoints(e)
  {
  }

  class Bc7Block {
    var lowBits: Ulong
    var highBits: Ulong

    constructor (low: Ulong, high: Ulong)
      ensures lowBits == low && highBits == high
    {
      lowBits := low;
      highBits := high;
    }

    /** The Type property: the mode of the first of bits 0-7 of lowBits that is set. */
    method GetType() returns (t: Bc7BlockType)
      ensures t == TypeOf(lowBits)
      ensures t == Type8Reserved <==> forall k :: 0 <= k < 8 ==> !lowBits[k]
    {
      TypeOfLowestSetBit(lowBits);
      var i := 0;
      while i < 8
        invariant 0 <= i <= 8
        invariant LowestTag(lowBits, i) == TypeOf(lowBits)
      {
        // (ulong)(1 << i) is 2^i for i below 8.
        var mask := FromNat(Pow2(i), 64);
        MaskTest(lowBits, i);
        if And(lowBits, mask) == mask {
          return TypeFromNumber(i);
        }
        i := i + 1;
      }
      return Type8Reserved;
    }

    /**
     * FinalizeEndpoints, in place: with p-bits every endpoint is shifted left
     * and its p-bit OR-ed in, then each component is widened to eight bits,
     * and in the modes without alpha the alpha is set to 255.
     */
    method FinalizeEndpoints(endpoints: array<ColorRgba32>)
      requires var t := TypeOf(lowBits); t.HasPBits() ==> PBitsCover(t, ExtractPBitArray(lowBits, highBits), endpoints.Length)
      modifies endpoints
      ensures endpoints[..] == FinalizedEndpoints(TypeOf(lowBits), ExtractPBitArray(lowBits, highBits), old(endpoints[..]))
    {
      var t := GetType();
      if t.HasPBits() {
        ShiftEndpoints(endpoints);
        // The source fills a rented buffer of GetPBitCount bytes here.
        var pBits := ExtractPBitArray(lowBits, highBits);
        OrEndpointPBits(t, pBits, endpoints);
      }
      ExpandEndpoints(endpoints, t.ColorComponentPrecision(), t.AlphaComponentPrecision());
      if !t.HasAlpha() {
        SetOpaque(endpoints);
      }
      FinalizedInSteps(t, ExtractPBitArray(lowBits, highBits), old(endpoints[..]));
    }

    /**
     * The shape all four loops of FinalizeEndpoints share: endpoint i is
     * replaced by f(i, endpoint i), for i from 0 up.
     */
    static method UpdateEach(endpoints: array<ColorRgba32>, f: (int, ColorRgba32) -> ColorRgba32)
      modifies endpoints
      ensures endpoints[..] == Updated(old(endpoints[..]), f)
    {
      for i := 0 to endpoints.Length
        invariant forall k :: 0 <= k < i ==> endpoints[k] == f(k, old(endpoints[k]))
        invariant forall k :: i <= k < endpoints.Length ==> endpoints[k] == old(endpoints[k])
      {
        endpoints[i] := f(i, endpoints[i]);
      }
    }

    /** The first loop of FinalizeEndpoints: endpoints[i] <<= 1. */
    static method ShiftEndpoints(endpoints: array<ColorRgba32>)
      modifies endpoints
      ensures endpoints[..] == ShiftedEndpoints(old(endpoints[..]))
    {
      UpdateEach(endpoints, (i, e: ColorRgba32) => e.ShiftLeft(1));
    }

    /** The p-bit pass: Type1 ORs its two p-bits into endpoints 0-1 and 2-3, the other modes one p-bit per endpoint. */
    static method OrEndpointPBits(t: Bc7BlockType, pBits: seq<byte>, endpoints: array<ColorRgba32>)
      requires PBitsCover(t, pBits, endpoints.Length)
      modifies endpoints
      ensures endpoints[..] == OrPBits(t, pBits, old(endpoints[..]))
    {
      if t == Type1 {
        endpoints[0] := endpoints[0].BitOr(pBits[0]);
        endpoints[1] := endpoints[1].BitOr(pBits[0]);
        endpoints[2] := endpoints[2].BitOr(pBits[1]);
        endpoints[3] := endpoints[3].BitOr(pBits[1]);
      } else {
        UpdateEach(endpoints, (i, e: ColorRgba32) => if 0 <= i < |pBits| then e.BitOr(pBits[i]) else e);
      }
    }

    /** The widening loop: every component shifted to the top of the byte and its top bits repeated below. */
    static method ExpandEndpoints(endpoints: array<ColorRgba32>, colorPrecision: int, alphaPrecision: int)
      modifies endpoints
      ensures endpoints[..] == ExpandedEndpoints(old(endpoints[..]), colorPrecision, alphaPrecision)
    {
      UpdateEach(endpoints, (i, e) => ExpandEndpoint(e, colorPrecision, alphaPrecision));
    }

    /** The last loop of FinalizeEndpoints, for the modes without alpha: alpha 255 everywhere. */
    static method SetOpaque(endpoints: array<ColorRgba32>)
      modifies endpoints
      ensures endpoints[..] == OpaqueEndpoints(old(endpoints[..]))
    {
      UpdateEach(endpoints, (i, e: ColorRgba32) => e.(a := 255));
    }

    /**
     * Decode: InvalidDataException for the reserved mode; otherwise the
     * sixteen texels, row by row. pool is what the rented endpoint buffer
     * holds before the raw endpoints are read into it.
     */
    method Decode(pool: seq<ColorRgba32>) returns (r: Result<seq<ColorRgba32>>)
      requires TypeOf(lowBits) != Type8Reserved ==> |pool| == TypeOf(lowBits).GetRawEndPointCount()
      ensures r == DecodeBlock(lowBits, highBits, pool)
    {
      var t := GetType();
      var numSubsets := 1;
      var partitionIndex := 0;
      if t.HasSubsets() {
        numSubsets := t.NumSubsets();
        partitionIndex := PartitionSetId(lowBits);
      }
      var hasRotationBits := t.HasRotationBits();
      var rotation := RotationBits(lowBits);
      var endPointCount := t.GetRawEndPointCount();
      if endPointCount == -1 {
        return Failure(InvalidDataException);
      }

      var endPoints := PreparedEndpoints(pool);
      var pixels := DecodeTexels(endPoints, numSubsets, partitionIndex, hasRotationBits, rotation);
      return Success(pixels);
    }

    /**
     * Decode's texel loop: texel i interpolated between the endpoints of
     * its subset and rotated back, i from 0 to 15, each appended to the
     * output block.
     */
    method DecodeTexels(endPoints: array<ColorRgba32>, numSubsets: int, partitionIndex: int, hasRotationBits: bool, rotation: int)
      returns (pixels: seq<ColorRgba32>)
      requires TypeOf(lowBits) != Type8Reserved && endPoints.Length == TypeOf(lowBits).GetRawEndPointCount()
      requires numSubsets == SubsetCount(TypeOf(lowBits)) && partitionIndex == PartitionOf(lowBits)
      requires hasRotationBits == TypeOf(lowBits).HasRotationBits() && rotation == RotationBits(lowBits)
      ensures pixels == Generated(TexelOf(lowBits, highBits, endPoints[..]), 16)
    {
      var low, high, endpoints := lowBits, highBits, endPoints[..];
      pixels := [];
      for i := 0 to 16
        invariant pixels == Generated(TexelOf(low, high, endpoints), i)
      {
        var outputColor := TexelColor(low, high, endpoints, numSubsets, partitionIndex, hasRotationBits, rotation, i);
        pixels := pixels + [outputColor];
      }
    }

    /** One pass of Decode's texel loop: texel i's colour, interpolated and rotated back. */
    static method TexelColor(low: Ulong, high: Ulong, endPoints: seq<ColorRgba32>, numSubsets: int, partitionIndex: int,
                             hasRotationBits: bool, rotation: int, i: int)
      returns (outputColor: ColorRgba32)
      requires TypeOf(low) != Type8Reserved && |endPoints| == TypeOf(low).GetRawEndPointCount() && 0 <= i < 16
      requires numSubsets == SubsetCount(TypeOf(low)) && partitionIndex == PartitionOf(low)
      requires hasRotationBits == TypeOf(low).HasRotationBits() && rotation == RotationBits(low)
      ensures outputColor == DecodeTexel(low, high, endPoints, i)
    {
      DecodePartitionValid(low);
      var subsetIndex := GetPartitionIndex(numSubsets, partitionIndex, i).value;
      assert subsetIndex == SubsetOf(low, i);
      var alphaBitCount := AlphaIndexBitCount(low);
      var colorBitCount := ColorIndexBitCount(low);
      var alphaIndex := AlphaIndex(low, high, i);
      var colorIndex := ColorIndex(low, high, i);
      InterpolatedTexelFrom(low, high, endPoints, i, subsetIndex, colorIndex, alphaIndex, colorBitCount, alphaBitCount);
      var endPointStart := endPoints[2 * subsetIndex];
      var endPointEnd := endPoints[2 * subsetIndex + 1];
      outputColor := InterpolateColor(endPointStart, endPointEnd, colorIndex, alphaIndex, colorBitCount, alphaBitCount);
      if hasRotationBits {
        outputColor := SwapChannels(outputColor, rotation);
      }
    }

    /** The rented endpoint buffer after ExtractRawEndpoints and FinalizeEndpoints. */
    method PreparedEndpoints(pool: seq<ColorRgba32>) returns (endPoints: array<ColorRgba32>)
      requires TypeOf(lowBits) != Type8Reserved && |pool| == TypeOf(lowBits).GetRawEndPointCount()
      ensures fresh(endPoints)
      ensures endPoints[..] == DecodedEndpoints(lowBits, highBits, pool)
    {
      var raw := ExtractRawEndpoints(lowBits, highBits, pool).value;
      endPoints := new ColorRgba32[|raw|](j requires 0 <= j < |raw| => raw[j]);
      assert endPoints[..] == raw;
      FinalizeEndpoints(endPoints);
    }

    // -------------------------------------------------------------------
    // The loops the PackType methods share.
    // -------------------------------------------------------------------

    /**
     * One pass of the endpoint loop over (r, g, b) endpoints: component c
     * of every endpoint, width bits apiece, from nextIdx on.
     */
    method StoreComponents3(ghost t: Bc7BlockType, ghost b: Block, ghost done: seq<Field>, ghost eps: seq<ColorRgba32>,
                            values: seq<(byte, byte, byte)>, c: int, width: int, nextIdx: int) returns (next: int)
      requires t != Type8Reserved && 0 <= c < 3 && |eps| == |values| == t.GetRawEndPointCount()
      requires forall j :: 0 <= j < |values| ==> Channel(eps[j], c) == GetComponent3(values[j], c)
      requires width == ComponentBits(t, c) && nextIdx == ComponentStart(t, c)
      requires (lowBits, highBits) == PutAll(b, done)
      modifies this
      ensures (lowBits, highBits) == PutAll(b, done + ComponentFields(t, eps, c))
      ensures next == ComponentStart(t, c + 1)
    {
      ghost var run := ComponentFields(t, eps, c);
      assert done + run[..0] == done;
      ComponentStep(t, c, 0);
      next := nextIdx;
      for j := 0 to |values|
        invariant next == ComponentOffset(t, c, j)
        invariant (lowBits, highBits) == PutAll(b, done + run[..j])
      {
        ComponentStep(t, c, j);
        PutNext(b, done, run, j);
        var stored := StoreTo128(lowBits, highBits, next, width, FromNat(GetComponent3(values[j], c), 64));
        lowBits, highBits := stored.0, stored.1;
        next := next + width;
      }
      ComponentStep(t, c, |values|);
      assert run[..|values|] == run;
    }

    /** One pass of the endpoint loop over (r, g, b, a) endpoints. */
    method StoreComponents4(ghost t: Bc7BlockType, ghost b: Block, ghost done: seq<Field>,
                            values: seq<(byte, byte, byte, byte)>, c: int, width: int, nextIdx: int) returns (next: int)
      requires t != Type8Reserved && 0 <= c < ComponentCount(t) && |values| == t.GetRawEndPointCount()
      requires width == ComponentBits(t, c) && nextIdx == ComponentStart(t, c)
      requires (lowBits, highBits) == PutAll(b, done)
      modifies this
      ensures (lowBits, highBits) == PutAll(b, done + ComponentFields(t, RgbaEndpoints(values), c))
      ensures next == ComponentStart(t, c + 1)
    {
      ghost var run := ComponentFields(t, RgbaEndpoints(values), c);
      assert done + run[..0] == done;
      ComponentStep(t, c, 0);
      next := nextIdx;
      for j := 0 to |values|
        invariant next == ComponentOffset(t, c, j)
        invariant (lowBits, highBits) == PutAll(b, done + run[..j])
      {
        ComponentStep(t, c, j);
        PutNext(b, done, run, j);
        var stored := StoreTo128(lowBits, highBits, next, width, FromNat(GetComponent4(values[j], c), 64));
        lowBits, highBits := stored.0, stored.1;
        next := next + width;
      }
      ComponentStep(t, c, |values|);
      assert run[..|values|] == run;
    }

    /** The alpha endpoint loop of modes 4 and 5: one alpha endpoint after another, width bits apiece. */
    method StoreAlphas(ghost t: Bc7BlockType, ghost b: Block, ghost done: seq<Field>, ghost eps: seq<ColorRgba32>,
                       alphaEndPoints: seq<byte>, width: int, nextIdx: int) returns (next: int)
      requires t.HasRotationBits() && |eps| == |alphaEndPoints| == t.GetRawEndPointCount()
      requires forall j :: 0 <= j < |eps| ==> eps[j].a == alphaEndPoints[j]
      requires width == ComponentBits(t, 3) && nextIdx == ComponentStart(t, 3)
      requires (lowBits, highBits) == PutAll(b, done)
      modifies this
      ensures (lowBits, highBits) == PutAll(b, done + ComponentFields(t, eps, 3))
      ensures next == ComponentStart(t, 4)
    {
      ghost var run := ComponentFields(t, eps, 3);
      assert done + run[..0] == done;
      ComponentStep(t, 3, 0);
      next := nextIdx;
      for i := 0 to |alphaEndPoints|
        invariant next == ComponentOffset(t, 3, i)
        invariant (lowBits, highBits) == PutAll(b, done + run[..i])
      {
        ComponentStep(t, 3, i);
        PutNext(b, done, run, i);
        var stored := StoreTo128(lowBits, highBits, next, width, FromNat(alphaEndPoints[i], 64));
        lowBits, highBits := stored.0, stored.1;
        next := next + width;
      }
      ComponentStep(t, 3, |alphaEndPoints|);
      assert run[..|alphaEndPoints|] == run;
    }

    /** The p-bit loop: one bit per p-bit, from nextIdx on. */
    method StorePBits(ghost t: Bc7BlockType, ghost b: Block, ghost done: seq<Field>, pBits: seq<byte>, nextIdx: int)
      returns (next: int)
      requires nextIdx == PBitBegin(t)
      requires (lowBits, highBits) == PutAll(b, done)
      modifies this
      ensures (lowBits, highBits) == PutAll(b, done + PBitFields(t, pBits))
      ensures next == nextIdx + |pBits|
    {
      ghost var run := PBitFields(t, pBits);
      assert done + run[..0] == done;
      next := nextIdx;
      for i := 0 to |pBits|
        invariant next == nextIdx + i
        invariant (lowBits, highBits) == PutAll(b, done + run[..i])
      {
        PutNext(b, done, run, i);
        var stored := StoreTo128(lowBits, highBits, next, 1, FromNat(pBits[i], 64));
        lowBits, highBits := stored.0, stored.1;
        next := next + 1;
      }
      assert run[..|pBits|] == run;
    }

    /**
     * An index loop: index i at indexBegin + GetIndexOffset, GetIndexBitCount
     * bits wide, the subset count read from the block's own mode each time.
     */
    method StoreIndices(ghost t: Bc7BlockType, ghost b: Block, ghost done: seq<Field>, ghost isAlpha: bool,
                        partitionIndex: int, bitCount: int, indexBegin: int, indices: seq<byte>)
      requires t != Type8Reserved && ValidPartition(t.NumSubsets(), partitionIndex) && |indices| >= 16
      requires indexBegin == IndexBegin(t, bitCount, isAlpha)
      requires Within(IndexFields(t, partitionIndex, bitCount, isAlpha, indices), 8, 128)
      requires (lowBits, highBits) == PutAll(b, done) && TypeOf(lowBits) == t
      modifies this
      ensures (lowBits, highBits) == PutAll(b, done + IndexFields(t, partitionIndex, bitCount, isAlpha, indices))
      ensures TypeOf(lowBits) == t && Type4IndexMode(lowBits) == old(Type4IndexMode(lowBits))
    {
      ghost var run := IndexFields(t, partitionIndex, bitCount, isAlpha, indices);
      assert done + run[..0] == done;
      for i := 0 to 16
        invariant (lowBits, highBits) == PutAll(b, done + run[..i])
        invariant TypeOf(lowBits) == t && Type4IndexMode(lowBits) == old(Type4IndexMode(lowBits))
      {
        StoreIndex(t, b, done, isAlpha, partitionIndex, bitCount, indexBegin, indices, i);
      }
      assert run[..16] == run;
    }

    /** One step of the index loop: stores index i. */
    method StoreIndex(ghost t: Bc7BlockType, ghost b: Block, ghost done: seq<Field>, ghost isAlpha: bool,
                      partitionIndex: int, bitCount: int, indexBegin: int, indices: seq<byte>, i: int)
      requires t != Type8Reserved && ValidPartition(t.NumSubsets(), partitionIndex) && |indices| >= 16 && 0 <= i < 16
      requires indexBegin == IndexBegin(t, bitCount, isAlpha)
      requires Within(IndexFields(t, partitionIndex, bitCount, isAlpha, indices), 8, 128)
      requires (lowBits, highBits) == PutAll(b, done + IndexFields(t, partitionIndex, bitCount, isAlpha, indices)[..i])
      requires TypeOf(lowBits) == t
      modifies this
      ensures (lowBits, highBits) == PutAll(b, done + IndexFields(t, partitionIndex, bitCount, isAlpha, indices)[..i + 1])
      ensures TypeOf(lowBits) == t && Type4IndexMode(lowBits) == old(Type4IndexMode(lowBits))
    {
      ghost var run := IndexFields(t, partitionIndex, bitCount, isAlpha, indices);
      var mode := GetType();
      var indexOffset := GetIndexOffset(mode.NumSubsets(), partitionIndex, bitCount, i).value;
      var indexBitCount := GetIndexBitCount(mode.NumSubsets(), partitionIndex, bitCount, i);
      PutNext(b, done, run, i);
      assert FieldWithin(run[i], 8, 128);
      PutKeepsHeader((lowBits, highBits), run[i]);
      var stored := StoreTo128(lowBits, highBits, indexBegin + indexOffset, indexBitCount, FromNat(indices[i], 64));
      lowBits, highBits := stored.0, stored.1;
    }

    /** The outer endpoint loop over (r, g, b) endpoints: all reds, then all greens, then all blues. */
    method StoreRgbEndpoints(ghost t: Bc7BlockType, ghost b: Block, ghost h: seq<Field>, ghost eps: seq<ColorRgba32>,
                             values: seq<(byte, byte, byte)>, width: int, nextIdx: int) returns (next: int)
      requires t != Type8Reserved && |eps| == |values| == t.GetRawEndPointCount()
      requires forall c, j :: 0 <= c < 3 && 0 <= j < |values| ==> Channel(eps[j], c) == GetComponent3(values[j], c)
      requires width == ColorFieldBits(t) && nextIdx == ComponentStart(t, 0)
      requires (lowBits, highBits) == PutAll(b, h)
      modifies this
      ensures (lowBits, highBits) == PutAll(b, h + EndpointFields(t, eps, 3))
      ensures next == ComponentStart(t, 3)
    {
      assert h + EndpointFields(t, eps, 0) == h;
      next := nextIdx;
      for i := 0 to 3
        invariant next == ComponentStart(t, i)
        invariant (lowBits, highBits) == PutAll(b, h + EndpointFields(t, eps, i))
      {
        next := StoreComponents3(t, b, h + EndpointFields(t, eps, i), eps, values, i, width, next);
        EndpointFieldsNext(t, eps, h, i);
      }
    }

    /** The outer endpoint loop over (r, g, b, a) endpoints of modes 6 and 7: four passes. */
    method StoreRgbaEndpoints(ghost t: Bc7BlockType, ghost b: Block, ghost h: seq<Field>,
                              values: seq<(byte, byte, byte, byte)>, width: int, nextIdx: int) returns (next: int)
      requires t != Type8Reserved && t.HasAlpha() && !t.HasRotationBits() && |values| == t.GetRawEndPointCount()
      requires width == ColorFieldBits(t) && nextIdx == ComponentStart(t, 0)
      requires (lowBits, highBits) == PutAll(b, h)
      modifies this
      ensures (lowBits, highBits) == PutAll(b, h + EndpointFields(t, RgbaEndpoints(values), 4))
      ensures next == ComponentStart(t, 4)
    {
      ghost var eps := RgbaEndpoints(values);
      assert h + EndpointFields(t, eps, 0) == h;
      next := nextIdx;
      for i := 0 to 4
        invariant next == ComponentStart(t, i)
        invariant (lowBits, highBits) == PutAll(b, h + EndpointFields(t, eps, i))
      {
        next := StoreComponents4(t, b, h + EndpointFields(t, eps, i), values, i, width, next);
        EndpointFieldsNext(t, eps, h, i);
      }
    }

    /**
     * The index loops that close every PackType method: the colour indices
     * at GetIndexBegin(t, ColorIndexBitCount, false) and, in modes 4 and 5,
     * the alpha indices at GetIndexBegin(t, AlphaIndexBitCount, true).
     */
    method StorePackedIndices(t: Bc7BlockType, partition: int, ghost rotation: int, ghost idxMode: int,
                              ghost eps: seq<ColorRgba32>, ghost pBits: seq<byte>, colorIndices: seq<byte>, alphaIndices: seq<byte>)
      requires PackArgs(t, partition, idxMode, eps, pBits, colorIndices, alphaIndices)
      requires (lowBits, highBits) == PutAll(InitialBlock(t), HeaderFields(t, partition, rotation, idxMode) +
                                               EndpointFields(t, eps, ComponentCount(t)) + PBitFields(t, pBits))
      modifies this
      ensures (lowBits, highBits) == PackedBlock(t, partition, rotation, idxMode, eps, pBits, colorIndices, alphaIndices)
    {
      ghost var b := InitialBlock(t);
      ghost var done := HeaderFields(t, partition, rotation, idxMode) + EndpointFields(t, eps, ComponentCount(t)) + PBitFields(t, pBits);
      PackedPrefix(t, partition, rotation, idxMode, eps, pBits, colorIndices, alphaIndices);
      var colorBitCount := ColorIndexBitCount(lowBits);
      var colorIndexBegin := GetIndexBegin(t, colorBitCount, false).value;
      StoreIndices(t, b, done, false, partition, colorBitCount, colorIndexBegin, colorIndices);
      done := done + IndexFields(t, partition, colorBitCount, false, colorIndices);
      if t.HasRotationBits() {
        var alphaBitCount := AlphaIndexBitCount(lowBits);
        var alphaIndexBegin := GetIndexBegin(t, alphaBitCount, true).value;
        StoreIndices(t, b, done, true, partition, alphaBitCount, alphaIndexBegin, alphaIndices);
      } else {
        assert done + AlphaIndexFields(t, partition, idxMode, alphaIndices) == done;
      }
    }

    // -------------------------------------------------------------------
    // The PackType methods.
    // -------------------------------------------------------------------

    /**
     * PackType0: mode 0 with a 4-bit partition number, six (r, g, b)
     * endpoints of 4 bits per channel, six p-bits and sixteen 3-bit indices.
     */
    method PackType0(partitionIndex4Bit: int, subsetEndpoints: seq<(byte, byte, byte)>, pBits: seq<byte>, indices: seq<byte>)
      requires 0 <= partitionIndex4Bit < 16
      requires |subsetEndpoints| == 6 && |pBits| == 6 && |indices| == 16
      modifies this
      ensures (lowBits, highBits) ==
        PackedBlock(Type0, partitionIndex4Bit, 0, 0, RgbEndpoints(subsetEndpoints), pBits, indices, [])
    {
      ghost var eps := RgbEndpoints(subsetEndpoints);
      ghost var h := HeaderFields(Type0, partitionIndex4Bit, 0, 0);
      lowBits := FromNat(1, 64);
      highBits := FromNat(0, 64);
      lowBits := Store4(lowBits, 1, IntOps.ToByte(partitionIndex4Bit));
      assert (lowBits, highBits) == PutAll(InitialBlock(Type0), h);

      var nextIdx := 5;
      RgbChannels(subsetEndpoints);
      nextIdx := StoreRgbEndpoints(Type0, InitialBlock(Type0), h, eps, subsetEndpoints, 4, nextIdx);
      nextIdx := StorePBits(Type0, InitialBlock(Type0), h + EndpointFields(Type0, eps, 3), pBits, nextIdx);
      assert nextIdx == 83;

      StorePackedIndices(Type0, partitionIndex4Bit, 0, 0, eps, pBits, indices, []);
    }

    /**
     * PackType1: mode 1 with a 6-bit partition number, four (r, g, b)
     * endpoints of 6 bits per channel, two shared p-bits and 3-bit indices.
     */
    method PackType1(partitionIndex6Bit: int, subsetEndpoints: seq<(byte, byte, byte)>, pBits: seq<byte>, indices: seq<byte>)
      requires 0 <= partitionIndex6Bit < 64
      requires |subsetEndpoints| == 4 && |pBits| == 2 && |indices| == 16
      modifies this
      ensures (lowBits, highBits) ==
        PackedBlock(Type1, partitionIndex6Bit, 0, 0, RgbEndpoints(subsetEndpoints), pBits, indices, [])
    {
      ghost var eps := RgbEndpoints(subsetEndpoints);
      ghost var h := HeaderFields(Type1, partitionIndex6Bit, 0, 0);
      lowBits := FromNat(2, 64);
      highBits := FromNat(0, 64);
      lowBits := Store6(lowBits, 2, IntOps.ToByte(partitionIndex6Bit));
      assert (lowBits, highBits) == PutAll(InitialBlock(Type1), h);

      var nextIdx := 8;
      RgbChannels(subsetEndpoints);
      nextIdx := StoreRgbEndpoints(Type1, InitialBlock(Type1), h, eps, subsetEndpoints, 6, nextIdx);
      nextIdx := StorePBits(Type1, InitialBlock(Type1), h + EndpointFields(Type1, eps, 3), pBits, nextIdx);
      assert nextIdx == 82;

      StorePackedIndices(Type1, partitionIndex6Bit, 0, 0, eps, pBits, indices, []);
    }

    /**
     * PackType2: mode 2 with a 6-bit partition number, six (r, g, b)
     * endpoints of 5 bits per channel, no p-bits and 2-bit indices.
     */
    method PackType2(partitionIndex6Bit: int, subsetEndpoints: seq<(byte, byte, byte)>, indices: seq<byte>)
      requires 0 <= partitionIndex6Bit < 64
      requires |subsetEndpoints| == 6 && |indices| == 16
      modifies this
      ensures (lowBits, highBits) ==
        PackedBlock(Type2, partitionIndex6Bit, 0, 0, RgbEndpoints(subsetEndpoints), [], indices, [])
    {
      ghost var eps := RgbEndpoints(subsetEndpoints);
      ghost var h := HeaderFields(Type2, partitionIndex6Bit, 0, 0);
      lowBits := FromNat(4, 64);
      highBits := FromNat(0, 64);
      lowBits := Store6(lowBits, 3, IntOps.ToByte(partitionIndex6Bit));
      assert (lowBits, highBits) == PutAll(InitialBlock(Type2), h);

      var nextIdx := 9;
      RgbChannels(subsetEndpoints);
      nextIdx := StoreRgbEndpoints(Type2, InitialBlock(Type2), h, eps, subsetEndpoints, 5, nextIdx);
      assert nextIdx == 99;
      assert h + EndpointFields(Type2, eps, 3) + PBitFields(Type2, []) == h + EndpointFields(Type2, eps, 3);

      StorePackedIndices(Type2, partitionIndex6Bit, 0, 0, eps, [], indices, []);
    }

    /**
     * PackType3: mode 3 with a 6-bit partition number, four (r, g, b)
     * endpoints of 7 bits per channel, four p-bits and 2-bit indices.
     */
    method PackType3(partitionIndex6Bit: int, subsetEndpoints: seq<(byte, byte, byte)>, pBits: seq<byte>, indices: seq<byte>)
      requires 0 <= partitionIndex6Bit < 64
      requires |subsetEndpoints| == 4 && |pBits| == 4 && |indices| == 16
      modifies this
      ensures (lowBits, highBits) ==
        PackedBlock(Type3, partitionIndex6Bit, 0, 0, RgbEndpoints(subsetEndpoints), pBits, indices, [])
    {
      ghost var eps := RgbEndpoints(subsetEndpoints);
      ghost var h := HeaderFields(Type3, partitionIndex6Bit, 0, 0);
      lowBits := FromNat(8, 64);
      highBits := FromNat(0, 64);
      lowBits := Store6(lowBits, 4, IntOps.ToByte(partitionIndex6Bit));
      assert (lowBits, highBits) == PutAll(InitialBlock(Type3), h);

      var nextIdx := 10;
      RgbChannels(subsetEndpoints);
      nextIdx := StoreRgbEndpoints(Type3, InitialBlock(Type3), h, eps, subsetEndpoints, 7, nextIdx);
      nextIdx := StorePBits(Type3, InitialBlock(Type3), h + EndpointFields(Type3, eps, 3), pBits, nextIdx);
      assert nextIdx == 98;

      StorePackedIndices(Type3, partitionIndex6Bit, 0, 0, eps, pBits, indices, []);
    }

    /**
     * PackType4: mode 4 with a 2-bit rotation and the index-mode bit, one
     * (r, g, b) pair of 5 bits per channel, an alpha pair of 6 bits, and a
     * 2-bit and a 3-bit index stream; idxMode 0 makes the 2-bit stream the
     * colour indices, idxMode 1 the alpha indices.
     */
    method PackType4(rotation: int, idxMode: byte, colorEndPoints: seq<(byte, byte, byte)>, alphaEndPoints: seq<byte>,
                     indices2Bit: seq<byte>, indices3Bit: seq<byte>)
      requires rotation < 4 && idxMode < 2
      requires |colorEndPoints| == 2 && |alphaEndPoints| == 2 && |indices2Bit| == 16 && |indices3Bit| == 16
      modifies this
      ensures (lowBits, highBits) ==
        PackedBlock(Type4, 0, rotation, idxMode as int, RgbAlphaEndpoints(colorEndPoints, alphaEndPoints), [],
                    if idxMode == 0 then indices2Bit else indices3Bit, if idxMode == 0 then indices3Bit else indices2Bit)
    {
      ghost var eps := RgbAlphaEndpoints(colorEndPoints, alphaEndPoints);
      ghost var h := HeaderFields(Type4, 0, rotation, idxMode as int);
      lowBits := FromNat(16, 64);
      highBits := FromNat(0, 64);
      lowBits := Store2(lowBits, 5, IntOps.ToByte(rotation));
      assert (lowBits, highBits) == PutAll(InitialBlock(Type4), h[..1]);
      lowBits := Store1(lowBits, 7, idxMode);
      assert (lowBits, highBits) == PutAll(InitialBlock(Type4), h);

      var nextIdx := 8;
      RgbAlphaChannels(colorEndPoints, alphaEndPoints);
      nextIdx := StoreRgbEndpoints(Type4, InitialBlock(Type4), h, eps, colorEndPoints, 5, nextIdx);
      nextIdx := StoreAlphas(Type4, InitialBlock(Type4), h + EndpointFields(Type4, eps, 3), eps, alphaEndPoints, 6, nextIdx);
      EndpointFieldsNext(Type4, eps, h, 3);
      assert nextIdx == 50;
      assert h + EndpointFields(Type4, eps, 4) + PBitFields(Type4, []) == h + EndpointFields(Type4, eps, 4);

      var colorIndices := if idxMode == 0 then indices2Bit else indices3Bit;
      var alphaIndices := if idxMode == 0 then indices3Bit else indices2Bit;
      StorePackedIndices(Type4, 0, rotation, idxMode as int, eps, [], colorIndices, alphaIndices);
    }

    /**
     * PackType5: mode 5 with a 2-bit rotation, one (r, g, b) pair of 7 bits
     * per channel, an alpha pair of 8 bits, and 2-bit colour and alpha indices.
     */
    method PackType5(rotation: int, colorEndPoints: seq<(byte, byte, byte)>, alphaEndPoints: seq<byte>,
                     colorIndices: seq<byte>, alphaIndices: seq<byte>)
      requires rotation < 4
      requires |colorEndPoints| == 2 && |alphaEndPoints| == 2 && |colorIndices| == 16 && |alphaIndices| == 16
      modifies this
      ensures (lowBits, highBits) ==
        PackedBlock(Type5, 0, rotation, 0, RgbAlphaEndpoints(colorEndPoints, alphaEndPoints), [], colorIndices, alphaIndices)
    {
      ghost var eps := RgbAlphaEndpoints(colorEndPoints, alphaEndPoints);
      ghost var h := HeaderFields(Type5, 0, rotation, 0);
      lowBits := FromNat(32, 64);
      highBits := FromNat(0, 64);
      lowBits := Store2(lowBits, 6, IntOps.ToByte(rotation));
      assert (lowBits, highBits) == PutAll(InitialBlock(Type5), h);

      var nextIdx := 8;
      RgbAlphaChannels(colorEndPoints, alphaEndPoints);
      nextIdx := StoreRgbEndpoints(Type5, InitialBlock(Type5), h, eps, colorEndPoints, 7, nextIdx);
      nextIdx := StoreAlphas(Type5, InitialBlock(Type5), h + EndpointFields(Type5, eps, 3), eps, alphaEndPoints, 8, nextIdx);
      EndpointFieldsNext(Type5, eps, h, 3);
      assert nextIdx == 66;
      assert h + EndpointFields(Type5, eps, 4) + PBitFields(Type5, []) == h + EndpointFields(Type5, eps, 4);

      StorePackedIndices(Type5, 0, rotation, 0, eps, [], colorIndices, alphaIndices);
    }

    /**
     * PackType6: mode 6 with one (r, g, b, a) pair of 7 bits per channel,
     * two p-bits and 4-bit indices.
     */
    method PackType6(colorAlphaEndPoints: seq<(byte, byte, byte, byte)>, pBits: seq<byte>, indices: seq<byte>)
      requires |colorAlphaEndPoints| == 2 && |pBits| == 2 && |indices| == 16
      modifies this
      ensures (lowBits, highBits) == PackedBlock(Type6, 0, 0, 0, RgbaEndpoints(colorAlphaEndPoints), pBits, indices, [])
    {
      ghost var eps := RgbaEndpoints(colorAlphaEndPoints);
      ghost var h := HeaderFields(Type6, 0, 0, 0);
      lowBits := FromNat(64, 64);
      highBits := FromNat(0, 64);
      assert (lowBits, highBits) == PutAll(InitialBlock(Type6), h);

      var nextIdx := 7;
      nextIdx := StoreRgbaEndpoints(Type6, InitialBlock(Type6), h, colorAlphaEndPoints, 7, nextIdx);
      nextIdx := StorePBits(Type6, InitialBlock(Type6), h + EndpointFields(Type6, eps, 4), pBits, nextIdx);
      assert nextIdx == 65;

      StorePackedIndices(Type6, 0, 0, 0, eps, pBits, indices, []);
    }

    /**
     * PackType7: mode 7 with a 6-bit partition number, four (r, g, b, a)
     * endpoints of 5 bits per channel, four p-bits and 2-bit indices.
     */
    method PackType7(partitionIndex6Bit: int, subsetEndpoints: seq<(byte, byte, byte, byte)>, pBits: seq<byte>, indices: seq<byte>)
      requires 0 <= partitionIndex6Bit < 64
      requires |subsetEndpoints| == 4 && |pBits| == 4 && |indices| >= 16
      modifies this
      ensures (lowBits, highBits) ==
        PackedBlock(Type7, partitionIndex6Bit, 0, 0, RgbaEndpoints(subsetEndpoints), pBits, indices, [])
    {
      ghost var eps := RgbaEndpoints(subsetEndpoints);
      ghost var h := HeaderFields(Type7, partitionIndex6Bit, 0, 0);
      lowBits := FromNat(128, 64);
      highBits := FromNat(0, 64);
      lowBits := Store6(lowBits, 8, IntOps.ToByte(partitionIndex6Bit));
      assert (lowBits, highBits) == PutAll(InitialBlock(Type7), h);

      var nextIdx := 14;
      nextIdx := StoreRgbaEndpoints(Type7, InitialBlock(Type7), h, subsetEndpoints, 5, nextIdx);
      nextIdx := StorePBits(Type7, InitialBlock(Type7), h + EndpointFields(Type7, eps, 4), pBits, nextIdx);
      assert nextIdx == 98;

      StorePackedIndices(Type7, partitionIndex6Bit, 0, 0, eps, pBits, indices, []);
    }
  }
}
