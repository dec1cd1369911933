/**
 * The colour arithmetic of BC7 decoding (Gorgon.BCnEncoder.NET/Shared/Bc7Block.cs):
 * endpoint finalisation (p-bits, widening to eight bits by replicating the
 * top bits), interpolation between two endpoints, and channel rotation.
 */
module Bc7Color {
  import opened Bits
  import IntOps
  import opened ByteHelper
  import opened Colors
  import opened Bc7Tables
  import opened Bc7Layout

  // ---------------------------------------------------------------------
  // Interpolation.
  // ---------------------------------------------------------------------

  /** The weight table InterpolateByte uses for an index precision. */
  function Weights(indexPrecision: int): seq<int>
  {
    if indexPrecision == 2 then ColorInterpolationWeights2
    else if indexPrecision == 3 then ColorInterpolationWeights3
    else ColorInterpolationWeights4
  }

  /** Each weight table runs from 0 to 64, has 2^p entries and lies within 0..64. */
  lemma WeightsShape(indexPrecision: int)
    ensures var w := Weights(indexPrecision);
      4 <= |w| && w[0] == 0 && w[|w| - 1] == 64 && forall i :: 0 <= i < |w| ==> 0 <= w[i] <= 64
    ensures indexPrecision == 2 ==> |Weights(indexPrecision)| == 4
    ensures indexPrecision == 3 ==> |Weights(indexPrecision)| == 8
    ensures indexPrecision != 2 && indexPrecision != 3 ==> |Weights(indexPrecision)| == 16
  {
  }

  /** (byte)(((64 - w) * e0 + w * e1 + 32) >> 6) */
  function Blend(e0: byte, e1: byte, w: int): byte
  {
    IntOps.ToByte(IntOps.Shr((64 - w) * e0 + w * e1 + 32, 6))
  }

  /** A blend with a weight in 0..64 is the rounded weighted mean, and lies between e0 and e1. */
  lemma BlendValue(e0: byte, e1: byte, w: int)
    requires 0 <= w <= 64
    ensures Blend(e0, e1, w) == ((64 - w) * e0 + w * e1 + 32) / 64
    ensures Min(e0, e1) <= Blend(e0, e1, w) <= Max(e0, e1)
  {
    var lo := Min(e0, e1);
    var hi := Max(e0, e1);
    var s := (64 - w) * e0 + w * e1 + 32;
    assert (64 - w) * lo <= (64 - w) * e0 <= (64 - w) * hi by { MulBetween(64 - w, lo, e0, hi); }
    assert w * lo <= w * e1 <= w * hi by { MulBetween(w, lo, e1, hi); }
    assert 64 * lo + 32 <= s <= 64 * hi + 32;
    IntOps.Pow2Of31();
    assert Pow2(6) == 64;
    IntOps.ShrValue(s, 6);
    assert lo <= s / 64 <= hi;
    IntOps.ToByteSmall(s / 64);
  }

  lemma MulBetween(k: nat, lo: int, x: int, hi: int)
    requires lo <= x <= hi
    ensures k * lo <= k * x <= k * hi
  {
  }

  function Min(x: int, y: int): int { if x <= y then x else y }
  function Max(x: int, y: int): int { if x <= y then y else x }

  /** One component interpolated with a weight picked by index; e0 itself when the precision is 0. */
  function InterpolateByte(e0: byte, e1: byte, index: int, indexPrecision: int): (r: byte)
    requires indexPrecision != 0 ==> 0 <= index < |Weights(indexPrecision)|
    ensures Min(e0, e1) <= r <= Max(e0, e1)
  {
    if indexPrecision == 0 then e0
    else
      WeightsShape(indexPrecision);
      BlendValue(e0, e1, Weights(indexPrecision)[index]);
      if indexPrecision == 2 then Blend(e0, e1, ColorInterpolationWeights2[index])
      else if indexPrecision == 3 then Blend(e0, e1, ColorInterpolationWeights3[index])
      else Blend(e0, e1, ColorInterpolationWeights4[index])
  }

  /** Index 0 gives the first endpoint and the last index gives the second. */
  lemma InterpolateByteEnds(e0: byte, e1: byte, indexPrecision: int)
    requires indexPrecision != 0
    ensures InterpolateByte(e0, e1, 0, indexPrecision) == e0
    ensures InterpolateByte(e0, e1, |Weights(indexPrecision)| - 1, indexPrecision) == e1
  {
    WeightsShape(indexPrecision);
    BlendValue(e0, e1, 0);
    BlendValue(e0, e1, 64);
  }

  /** The texel colour between two endpoints: colour channels by one index, alpha by the other. */
  function InterpolateColor(endPointStart: ColorRgba32, endPointEnd: ColorRgba32,
                            colorIndex: int, alphaIndex: int, colorBitCount: int, alphaBitCount: int): (r: ColorRgba32)
    requires colorBitCount != 0 ==> 0 <= colorIndex < |Weights(colorBitCount)|
    requires alphaBitCount != 0 ==> 0 <= alphaIndex < |Weights(alphaBitCount)|
    ensures Min(endPointStart.r, endPointEnd.r) <= r.r <= Max(endPointStart.r, endPointEnd.r)
    ensures Min(endPointStart.g, endPointEnd.g) <= r.g <= Max(endPointStart.g, endPointEnd.g)
    ensures Min(endPointStart.b, endPointEnd.b) <= r.b <= Max(endPointStart.b, endPointEnd.b)
    ensures Min(endPointStart.a, endPointEnd.a) <= r.a <= Max(endPointStart.a, endPointEnd.a)
  {
    ColorRgba32(
      InterpolateByte(endPointStart.r, endPointEnd.r, colorIndex, colorBitCount),
      InterpolateByte(endPointStart.g, endPointEnd.g, colorIndex, colorBitCount),
      InterpolateByte(endPointStart.b, endPointEnd.b, colorIndex, colorBitCount),
      InterpolateByte(endPointStart.a, endPointEnd.a, alphaIndex, alphaBitCount))
  }

  /** Index 0 yields the start endpoint and the top indices yield the end endpoint. */
  lemma InterpolateColorEnds(e0: ColorRgba32, e1: ColorRgba32, colorBitCount: int, alphaBitCount: int)
    requires colorBitCount != 0 && alphaBitCount != 0
    ensures InterpolateColor(e0, e1, 0, 0, colorBitCount, alphaBitCount) == e0
    ensures InterpolateColor(e0, e1, |Weights(colorBitCount)| - 1, |Weights(alphaBitCount)| - 1,
                             colorBitCount, alphaBitCount) == e1
  {
    InterpolateByteEnds(e0.r, e1.r, colorBitCount);
    InterpolateByteEnds(e0.g, e1.g, colorBitCount);
    InterpolateByteEnds(e0.b, e1.b, colorBitCount);
    InterpolateByteEnds(e0.a, e1.a, alphaBitCount);
  }

  /** Without alpha indices the alpha of the start endpoint is kept. */
  lemma InterpolateColorNoAlpha(e0: ColorRgba32, e1: ColorRgba32, colorIndex: int, alphaIndex: int, colorBitCount: int)
    requires colorBitCount != 0 ==> 0 <= colorIndex < |Weights(colorBitCount)|
    ensures InterpolateColor(e0, e1, colorIndex, alphaIndex, colorBitCount, 0).a == e0.a
  {
  }

  // ---------------------------------------------------------------------
  // Channel rotation.
  // ---------------------------------------------------------------------

  /** Rotation 1, 2, 3 swaps alpha with red, green, blue; anything else leaves the colour alone. */
  function SwapChannels(source: ColorRgba32, rotation: int): ColorRgba32
  {
    match rotation
    case 0 => source
    case 1 => ColorRgba32(source.a, source.g, source.b, source.r)
    case 2 => ColorRgba32(source.r, source.a, source.b, source.g)
    case 3 => ColorRgba32(source.r, source.g, source.a, source.b)
    case _ => source
  }

  /** Rotating twice by the same rotation restores the colour. */
  lemma SwapChannelsInvolution(c: ColorRgba32, rotation: int)
    ensures SwapChannels(SwapChannels(c, rotation), rotation) == c
  {
  }

  /** Rotation k in 1..3 moves alpha into channel k - 1 and that channel into alpha. */
  lemma SwapChannelsMoves(c: ColorRgba32, rotation: int)
    ensures rotation == 1 ==> SwapChannels(c, rotation).r == c.a && SwapChannels(c, rotation).a == c.r
    ensures rotation == 2 ==> SwapChannels(c, rotation).g == c.a && SwapChannels(c, rotation).a == c.g
    ensures rotation == 3 ==> SwapChannels(c, rotation).b == c.a && SwapChannels(c, rotation).a == c.b
    ensures !(1 <= rotation <= 3) ==> SwapChannels(c, rotation) == c
  {
  }

  // ---------------------------------------------------------------------
  // Endpoint finalisation.
  // ---------------------------------------------------------------------

  /**
   * Widens a component of the given precision to eight bits:
   * c = (byte)(c << (8 - precision)); c = (byte)(c | (c >> precision)).
   */
  function ExpandComponent(c: byte, precision: int): byte
  {
    var s := IntOps.ToByte(IntOps.Shl(c, 8 - precision));
    IntOps.ToByte(IntOps.Or(s, IntOps.Shr(s, precision)))
  }

  /** The widened value: u in the top precision bits and u's top bits repeated below them. */
  function Expanded(u: nat, precision: nat): nat
    requires 4 <= precision <= 8
  {
    u * Pow2(8 - precision) + u / Pow2(2 * precision - 8)
  }

  lemma Pow2Small()
    ensures Pow2(0) == 1 && Pow2(1) == 2 && Pow2(2) == 4 && Pow2(3) == 8 && Pow2(4) == 16
    ensures Pow2(5) == 32 && Pow2(6) == 64 && Pow2(7) == 128 && Pow2(8) == 256
  {
  }

  /** ExpandComponent computes Expanded for every raw value the precision can hold. */
  lemma ExpandComponentValue(u: byte, precision: int)
    requires 4 <= precision <= 8 && u < Pow2(precision)
    ensures ExpandComponent(u, precision) == Expanded(u, precision)
  {
    var p := Pow2(8 - precision);
    var q := Pow2(2 * precision - 8);
    ExpandPowers(precision);
    ExpandComponentWith(u, precision, p, q);
  }

  lemma ExpandComponentWith(u: byte, precision: int, p: nat, q: nat)
    requires 4 <= precision <= 8 && p == Pow2(8 - precision) && q == Pow2(2 * precision - 8)
    requires p * q == Pow2(precision) && Pow2(precision) * p == 256 && u < Pow2(precision)
    ensures ExpandComponent(u, precision) == u * p + u / q
  {
    ExpandShifts(u, precision, p, q);
    ExpandBounds(u, p, q);
    var s, h := u * p, u / q;
    ExpandCombine(u, precision, s, h);
  }

  lemma ExpandPowers(precision: int)
    requires 4 <= precision <= 8
    ensures Pow2(8 - precision) * Pow2(2 * precision - 8) == Pow2(precision)
    ensures Pow2(precision) * Pow2(8 - precision) == 256
  {
    Pow2Add(8 - precision, 2 * precision - 8);
    Pow2Add(precision, 8 - precision);
    Pow2Of16();
  }

  lemma ExpandShifts(u: byte, precision: int, p: nat, q: nat)
    requires 4 <= precision <= 8 && p == Pow2(8 - precision) && q == Pow2(2 * precision - 8)
    requires p * q == Pow2(precision) && Pow2(precision) * p == 256 && u < Pow2(precision)
    ensures IntOps.Shl(u, 8 - precision) == u * p
    ensures IntOps.Shr(u * p, precision) == u / q
  {
    ExpandedArith(u, p, q);
    ShlSmall(u, 8 - precision, p);
    ShrSmall(u * p, precision, p * q);
    DivCancel(u, p, q);
  }

  lemma ExpandBounds(u: nat, p: nat, q: nat)
    requires p >= 1 && q >= 1 && u < p * q && p * q * p == 256
    ensures 0 <= u * p < 256 && (u * p) % p == 0 && 0 <= u / q < p && u * p + u / q < 256
  {
    ExpandedArith(u, p, q);
    ModUnique(u * p, p, u, 0);
    IntOps.DivBelowProduct(u, q, p);
  }

  lemma DivCancel(u: nat, p: nat, q: nat)
    requires p >= 1 && q >= 1
    ensures (u * p) / (p * q) == u / q
  {
    var d := u / q;
    var m := u % q;
    assert u * p == (p * q) * d + m * p by {
      assert u == q * d + m;
    }
    assert m * p < p * q;
    ModUnique(u * p, p * q, d, m * p);
  }

  lemma ShlSmall(x: nat, k: nat, p: nat)
    requires k < 8 && p == Pow2(k) && x * p < 256
    ensures IntOps.Shl(x, k) == x * p
  {
    IntOps.Pow2Of31();
    IntOps.ShlValue(x, k);
  }

  lemma ShrSmall(x: nat, k: nat, p: nat)
    requires k <= 8 && p == Pow2(k) && x < 256
    ensures IntOps.Shr(x, k) == x / p
  {
    IntOps.Pow2Of31();
    IntOps.ShrValue(x, k);
  }

  /** The shifted value and the replicated bits do not overlap, so | adds them. */
  lemma ExpandCombine(u: byte, precision: int, s: int, h: int)
    requires 4 <= precision <= 8
    requires IntOps.Shl(u, 8 - precision) == s && 0 <= s < 256 && IntOps.Shr(s, precision) == h
    requires s % Pow2(8 - precision) == 0 && 0 <= h < Pow2(8 - precision) && s + h < 256
    ensures ExpandComponent(u, precision) == s + h
  {
    IntOps.ToByteSmall(s);
    OrDisjointByte(s, h, 8 - precision);
  }

  lemma OrDisjointByte(s: int, h: int, k: nat)
    requires 0 <= s && 0 <= h && s + h < 256 && s % Pow2(k) == 0 && h < Pow2(k)
    ensures IntOps.ToByte(IntOps.Or(s, h)) == s + h
  {
    IntOps.Pow2Of31();
    IntOps.OrDisjointValue(s, h, k);
    IntOps.ToByteSmall(s + h);
  }

  /**
   * What FinalizeEndpoints promises of a component: the raw value sits in the
   * top precision bits, the bits below repeat its most significant bits,
   * 0 stays 0 and the largest raw value becomes 255.
   */
  lemma ExpandedProperties(u: nat, precision: nat)
    requires 4 <= precision <= 8 && u < Pow2(precision)
    ensures Expanded(u, precision) < 256
    ensures Expanded(u, precision) / Pow2(8 - precision) == u
    ensures Expanded(u, precision) % Pow2(8 - precision) == u / Pow2(2 * precision - 8)
    ensures u == 0 ==> Expanded(u, precision) == 0
    ensures u == Pow2(precision) - 1 ==> Expanded(u, precision) == 255
  {
    var p := Pow2(8 - precision);
    var q := Pow2(2 * precision - 8);
    assert p * q == Pow2(precision) by {
      Pow2Add(8 - precision, 2 * precision - 8);
    }
    assert Pow2(precision) * p == 256 by {
      Pow2Add(precision, 8 - precision);
      Pow2Of16();
    }
    ExpandedArith(u, p, q);
  }

  /** The arithmetic behind ExpandedProperties, with p = 2^(8 - precision) and q = 2^(2 * precision - 8). */
  lemma ExpandedArith(u: nat, p: nat, q: nat)
    requires p >= 1 && q >= 1 && u < p * q && p * q * p == 256
    ensures u * p + u / q < 256
    ensures (u * p + u / q) / p == u
    ensures (u * p + u / q) % p == u / q
    ensures u == p * q - 1 ==> u * p + u / q == 255
  {
    var d := u / q;
    IntOps.DivBelowProduct(u, q, p);
    ModUnique(u * p + d, p, u, d);
    assert u * p <= (p * q - 1) * p;
    if u == p * q - 1 {
      ModUnique(u, q, p - 1, q - 1);
      assert u * p == 256 - p;
    }
  }

  // ---------------------------------------------------------------------
  // The three passes of FinalizeEndpoints, as functions of the endpoints.
  // ---------------------------------------------------------------------

  /** endpoints[i] <<= 1 for every endpoint. */
  function ShiftedEndpoints(endpoints: seq<ColorRgba32>): (r: seq<ColorRgba32>)
    ensures |r| == |endpoints|
  {
    seq(|endpoints|, i requires 0 <= i < |endpoints| => endpoints[i].ShiftLeft(1))
  }

  /** What the p-bit pass needs: Type1 touches endpoints 0..3 with two p-bits, the others one p-bit per endpoint. */
  predicate PBitsCover(t: Bc7BlockType, pBits: seq<byte>, count: int)
  {
    if t == Type1 then count >= 4 && |pBits| >= 2 else |pBits| >= count
  }

  /** The p-bit OR-ed into endpoint i: Type1 shares one p-bit per endpoint pair. */
  function PBitFor(t: Bc7BlockType, pBits: seq<byte>, i: int): byte
    requires 0 <= i && (if t == Type1 then i < 4 && |pBits| >= 2 else i < |pBits|)
  {
    if t == Type1 then pBits[i / 2] else pBits[i]
  }

  /** endpoints[i] |= p-bit; in Type1 only endpoints 0..3 are touched. */
  function OrPBits(t: Bc7BlockType, pBits: seq<byte>, endpoints: seq<ColorRgba32>): (r: seq<ColorRgba32>)
    requires PBitsCover(t, pBits, |endpoints|)
    ensures |r| == |endpoints|
  {
    seq(|endpoints|, i requires 0 <= i < |endpoints| =>
      if t == Type1 && i >= 4 then endpoints[i] else endpoints[i].BitOr(PBitFor(t, pBits, i)))
  }

  /** Widens each component to eight bits, colour at one precision, alpha at another. */
  function ExpandEndpoint(e: ColorRgba32, colorPrecision: int, alphaPrecision: int): ColorRgba32
  {
    ColorRgba32(ExpandComponent(e.r, colorPrecision), ExpandComponent(e.g, colorPrecision),
                ExpandComponent(e.b, colorPrecision), ExpandComponent(e.a, alphaPrecision))
  }

  /** The first pass: with p-bits, every endpoint shifted left by one and its p-bit OR-ed in. */
  function PBitPass(t: Bc7BlockType, pBits: seq<byte>, endpoints: seq<ColorRgba32>): (r: seq<ColorRgba32>)
    requires t.HasPBits() ==> PBitsCover(t, pBits, |endpoints|)
    ensures |r| == |endpoints|
  {
    if t.HasPBits() then OrPBits(t, pBits, ShiftedEndpoints(endpoints)) else endpoints
  }

  /** The endpoints after FinalizeEndpoints: p-bits appended, widened, alpha forced to 255 where not stored. */
  function FinalizedEndpoints(t: Bc7BlockType, pBits: seq<byte>, endpoints: seq<ColorRgba32>): (r: seq<ColorRgba32>)
    requires t.HasPBits() ==> PBitsCover(t, pBits, |endpoints|)
    ensures |r| == |endpoints|
  {
    var withP := PBitPass(t, pBits, endpoints);
    seq(|endpoints|, i requires 0 <= i < |endpoints| =>
      var e := ExpandEndpoint(withP[i], t.ColorComponentPrecision(), t.AlphaComponentPrecision());
      if t.HasAlpha() then e else e.(a := 255))
  }

  /** A stored component followed by its p-bit, or the stored component alone in modes without p-bits. */
  function WithPBit(hasPBits: bool, x: nat, p: nat): nat
  {
    if hasPBits then 2 * x + p else x
  }

  /** A component of fieldBits stored bits, with its p-bit appended, fits the precision and widens to Expanded. */
  lemma FinalizedComponent(x: byte, fieldBits: nat, hasPBits: bool, p: byte, precision: int)
    requires x < Pow2(fieldBits) && p <= 1
    requires precision == fieldBits + (if hasPBits then 1 else 0) && 4 <= precision <= 8
    ensures WithPBit(hasPBits, x, p) < Pow2(precision) && WithPBit(hasPBits, x, p) < 256
    ensures ExpandComponent(WithPBit(hasPBits, x, p), precision) == Expanded(WithPBit(hasPBits, x, p), precision)
  {
    var v := WithPBit(hasPBits, x, p);
    assert v < Pow2(precision) && v < 256 by {
      if hasPBits {
        assert Pow2(precision) == 2 * Pow2(fieldBits);
      }
      Pow2Mono(precision, 8);
      Pow2Small();
    }
    ExpandComponentValue(v, precision);
  }

  /** Shifting a component below 128 left by one doubles it, and OR-ing a p-bit then appends the p-bit. */
  lemma AppendPBit(x: byte, p: byte)
    requires x < 128 && p <= 1
    ensures ClampToByte(IntOps.Shl(x, 1)) == 2 * x
    ensures ClampToByte(IntOps.Or(2 * x, p)) == 2 * x + p
  {
    assert (2 * x) % 2 == 0;
    OrPBit(2 * x, p);
    ShlDoubles(x);
  }

  lemma ShlDoubles(x: byte)
    requires x < 128
    ensures ClampToByte(IntOps.Shl(x, 1)) == 2 * x
  {
    assert Pow2(1) == 2 && x * Pow2(1) == 2 * x < 256;
    ShlByte(x, 1);
  }

  /** The p-bit that ends up in endpoint i: none without p-bits, and none for Type1 endpoints past 3. */
  function PBitOf(t: Bc7BlockType, pBits: seq<byte>, count: int, i: int): byte
    requires t.HasPBits() ==> PBitsCover(t, pBits, count)
    requires 0 <= i < count
  {
    if !t.HasPBits() || (t == Type1 && i >= 4) then 0 else PBitFor(t, pBits, i)
  }

  /**
   * FinalizeEndpoints, component by component: each stored component,
   * followed by its p-bit, is widened by Expanded at the mode's precision;
   * alpha is 255 in the modes that store none.
   */
  lemma FinalizedEndpointValues(t: Bc7BlockType, pBits: seq<byte>, endpoints: seq<ColorRgba32>, i: int)
    requires t != Type8Reserved && (t.HasPBits() ==> PBitsCover(t, pBits, |endpoints|))
    requires 0 <= i < |endpoints| && RawFits(t, endpoints[i]) && PBitOf(t, pBits, |endpoints|, i) <= 1
    ensures var f := FinalizedEndpoints(t, pBits, endpoints)[i];
      var e := endpoints[i];
      var hasP := t.HasPBits();
      var p := PBitOf(t, pBits, |endpoints|, i);
      var cp := t.ColorComponentPrecision();
      f.r == Expanded(WithPBit(hasP, e.r, p), cp) && f.g == Expanded(WithPBit(hasP, e.g, p), cp) &&
      f.b == Expanded(WithPBit(hasP, e.b, p), cp) &&
      f.a == if t.HasAlpha() then Expanded(WithPBit(hasP, e.a, p), t.AlphaComponentPrecision()) else 255
  {
    PBitPassAt(t, pBits, endpoints, i);
    FinalizedColorValues(t, pBits, endpoints, i);
    FinalizedAlphaValue(t, pBits, endpoints, i);
  }

  lemma FinalizedColorValues(t: Bc7BlockType, pBits: seq<byte>, endpoints: seq<ColorRgba32>, i: int)
    requires t != Type8Reserved && (t.HasPBits() ==> PBitsCover(t, pBits, |endpoints|))
    requires 0 <= i < |endpoints| && RawFits(t, endpoints[i]) && PBitOf(t, pBits, |endpoints|, i) <= 1
    requires var w := PBitPass(t, pBits, endpoints)[i];
      var e := endpoints[i];
      var hasP := t.HasPBits();
      var p := PBitOf(t, pBits, |endpoints|, i);
      w.r == WithPBit(hasP, e.r, p) && w.g == WithPBit(hasP, e.g, p) && w.b == WithPBit(hasP, e.b, p)
    ensures var f := FinalizedEndpoints(t, pBits, endpoints)[i];
      var e := endpoints[i];
      var hasP := t.HasPBits();
      var p := PBitOf(t, pBits, |endpoints|, i);
      var cp := t.ColorComponentPrecision();
      f.r == Expanded(WithPBit(hasP, e.r, p), cp) && f.g == Expanded(WithPBit(hasP, e.g, p), cp) &&
      f.b == Expanded(WithPBit(hasP, e.b, p), cp)
  {
    var f := FinalizedEndpoints(t, pBits, endpoints)[i];
    var w := PBitPass(t, pBits, endpoints)[i];
    var e := endpoints[i];
    var cp := t.ColorComponentPrecision();
    var p := PBitOf(t, pBits, |endpoints|, i);
    FinalizedAt(t, pBits, endpoints, i);
    EndpointSection(t);
    FinalizedComponent(e.r, ColorFieldBits(t), t.HasPBits(), p, cp);
    FinalizedComponent(e.g, ColorFieldBits(t), t.HasPBits(), p, cp);
    FinalizedComponent(e.b, ColorFieldBits(t), t.HasPBits(), p, cp);
  }

  /** Endpoint i after FinalizeEndpoints is endpoint i after the p-bit pass, widened. */
  lemma FinalizedAt(t: Bc7BlockType, pBits: seq<byte>, endpoints: seq<ColorRgba32>, i: int)
    requires t.HasPBits() ==> PBitsCover(t, pBits, |endpoints|)
    requires 0 <= i < |endpoints|
    ensures var f := FinalizedEndpoints(t, pBits, endpoints)[i];
      var w := PBitPass(t, pBits, endpoints)[i];
      f.r == ExpandComponent(w.r, t.ColorComponentPrecision()) &&
      f.g == ExpandComponent(w.g, t.ColorComponentPrecision()) &&
      f.b == ExpandComponent(w.b, t.ColorComponentPrecision()) &&
      f.a == if t.HasAlpha() then ExpandComponent(w.a, t.AlphaComponentPrecision()) else 255
  {
  }

  lemma FinalizedAlphaValue(t: Bc7BlockType, pBits: seq<byte>, endpoints: seq<ColorRgba32>, i: int)
    requires t != Type8Reserved && (t.HasPBits() ==> PBitsCover(t, pBits, |endpoints|))
    requires 0 <= i < |endpoints| && RawFits(t, endpoints[i]) && PBitOf(t, pBits, |endpoints|, i) <= 1
    requires t.HasAlpha() ==>
      PBitPass(t, pBits, endpoints)[i].a == WithPBit(t.HasPBits(), endpoints[i].a, PBitOf(t, pBits, |endpoints|, i))
    ensures var f := FinalizedEndpoints(t, pBits, endpoints)[i];
      f.a == if t.HasAlpha() then
        Expanded(WithPBit(t.HasPBits(), endpoints[i].a, PBitOf(t, pBits, |endpoints|, i)), t.AlphaComponentPrecision())
      else 255
  {
    if t.HasAlpha() {
      EndpointSection(t);
      FinalizedComponent(endpoints[i].a, AlphaFieldBits(t), t.HasPBits(), PBitOf(t, pBits, |endpoints|, i),
        t.AlphaComponentPrecision());
    }
  }

  /** After the p-bit pass every stored component of endpoint i is WithPBit of its raw value. */
  lemma PBitPassAt(t: Bc7BlockType, pBits: seq<byte>, endpoints: seq<ColorRgba32>, i: int)
    requires t != Type8Reserved && (t.HasPBits() ==> PBitsCover(t, pBits, |endpoints|))
    requires 0 <= i < |endpoints| && RawFits(t, endpoints[i]) && PBitOf(t, pBits, |endpoints|, i) <= 1
    ensures var w := PBitPass(t, pBits, endpoints)[i];
      var e := endpoints[i];
      var hasP := t.HasPBits();
      var p := PBitOf(t, pBits, |endpoints|, i);
      w.r == WithPBit(hasP, e.r, p) && w.g == WithPBit(hasP, e.g, p) && w.b == WithPBit(hasP, e.b, p) &&
      (t.HasAlpha() ==> w.a == WithPBit(hasP, e.a, p))
  {
    EndpointSection(t);
    var e := endpoints[i];
    var p := PBitOf(t, pBits, |endpoints|, i);
    if t.HasPBits() {
      var w := PBitPass(t, pBits, endpoints)[i];
      if t == Type1 && i >= 4 {
        assert w == e.ShiftLeft(1);
      } else {
        assert w == e.ShiftLeft(1).BitOr(p);
      }
      ShiftOrComponents(e, ColorFieldBits(t), AlphaFieldBits(t), t.HasAlpha(), p);
    }
  }

  /** Shifting a raw endpoint left by one and OR-ing a p-bit appends the p-bit to each stored component. */
  lemma ShiftOrComponents(e: ColorRgba32, colorBits: nat, alphaBits: nat, hasAlpha: bool, p: byte)
    requires colorBits <= 7 && alphaBits <= 7 && p <= 1
    requires e.r < Pow2(colorBits) && e.g < Pow2(colorBits) && e.b < Pow2(colorBits)
    requires hasAlpha ==> e.a < Pow2(alphaBits)
    ensures var s := e.ShiftLeft(1);
      s.r == 2 * e.r && s.g == 2 * e.g && s.b == 2 * e.b && (hasAlpha ==> s.a == 2 * e.a)
    ensures var w := e.ShiftLeft(1).BitOr(p);
      w.r == 2 * e.r + p && w.g == 2 * e.g + p && w.b == 2 * e.b + p && (hasAlpha ==> w.a == 2 * e.a + p)
  {
    PBitStep(e.r, colorBits, p);
    PBitStep(e.g, colorBits, p);
    PBitStep(e.b, colorBits, p);
    if hasAlpha {
      PBitStep(e.a, alphaBits, p);
    }
  }

  /** A component of at most seven stored bits is doubled by << 1 and gets the p-bit from |. */
  lemma PBitStep(x: byte, fieldBits: nat, p: byte)
    requires x < Pow2(fieldBits) && fieldBits <= 7 && p <= 1
    ensures ClampToByte(IntOps.Shl(x, 1)) == 2 * x
    ensures ClampToByte(IntOps.Or(2 * x, p)) == 2 * x + p
  {
    assert x < 128 by {
      Pow2Mono(fieldBits, 7);
      Pow2Small();
    }
    AppendPBit(x, p);
  }

  /** In the modes that store no alpha every finalised endpoint is opaque, whatever alpha it held. */
  lemma FinalizedOpaque(t: Bc7BlockType, pBits: seq<byte>, endpoints: seq<ColorRgba32>, j: int)
    requires (t.HasPBits() ==> PBitsCover(t, pBits, |endpoints|)) && !t.HasAlpha() && 0 <= j < |endpoints|
    ensures FinalizedEndpoints(t, pBits, endpoints)[j].a == 255
  {
  }
}
