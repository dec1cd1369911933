/**
 * The integer helpers of the BC7 encoder (BCnEnc.Net/Encoder/Bc7/Bc7EncodingHelpers.cs):
 * the per-mode precision and index tables, endpoint expansion and scale-down,
 * clamping, and channel rotation of a raw tile.
 */
module Bc7EncodingHelpers {
  import opened Bits
  import IntOps
  import opened Colors
  import opened Bc7Layout
  import Bc7Color
  import opened Bc7Blocks
  import opened RawBlocks

  // ---------------------------------------------------------------------
  // Per-mode tables.
  // ---------------------------------------------------------------------

  predicate TypeHasPBits(t: Bc7BlockType)
  {
    match t
    case Type0 | Type1 | Type3 | Type6 | Type7 => true
    case _ => false
  }

  predicate TypeHasSharedPBits(t: Bc7BlockType)
  {
    t == Type1
  }

  /** Bits per colour component, p-bit included. */
  function ColorComponentPrecisionWithPBit(t: Bc7BlockType): int
  {
    match t
    case Type0 | Type2 | Type4 => 5
    case Type1 | Type5 => 7
    case Type3 | Type6 => 8
    case Type7 => 6
    case _ => 0
  }

  /** Bits per alpha component, p-bit included. */
  function AlphaComponentPrecisionWithPBit(t: Bc7BlockType): int
  {
    match t
    case Type4 | Type7 => 6
    case Type5 | Type6 => 8
    case _ => 0
  }

  /** Bits per colour component as stored, without the p-bit. */
  function ColorComponentPrecision(t: Bc7BlockType): int
  {
    match t
    case Type0 => 4
    case Type1 => 6
    case Type2 | Type4 | Type7 => 5
    case Type3 | Type5 | Type6 => 7
    case _ => 0
  }

  /** Bits per alpha component as stored, without the p-bit. */
  function AlphaComponentPrecision(t: Bc7BlockType): int
  {
    match t
    case Type4 => 6
    case Type5 => 8
    case Type6 => 7
    case Type7 => 5
    case _ => 0
  }

  /** Bits per colour index; Type4 follows its index mode, and an index mode other than 0 or 1 gives 0. */
  function GetColorIndexBitCount(t: Bc7BlockType, type4IdxMode: int): int
  {
    match t
    case Type4 => if type4IdxMode == 1 then 3 else if type4IdxMode == 0 then 2 else 0
    case Type0 | Type1 => 3
    case Type2 | Type3 | Type7 | Type5 => 2
    case Type6 => 4
    case _ => 0
  }

  /** Bits per alpha index; 0 in the modes without separate alpha indices. */
  function GetAlphaIndexBitCount(t: Bc7BlockType, type4IdxMode: int): int
  {
    match t
    case Type6 => 4
    case Type4 => if type4IdxMode == 0 then 3 else if type4IdxMode == 1 then 2 else 0
    case Type5 | Type7 => 2
    case _ => 0
  }

  /**
   * The encoder's tables agree with the block's descriptors, and a p-bit
   * costs exactly one bit of every component it is appended to: colour
   * always, alpha where alpha is stored at all.
   */
  lemma PrecisionTables(t: Bc7BlockType)
    ensures TypeHasPBits(t) == t.HasPBits()
    ensures TypeHasSharedPBits(t) <==> t.HasPBits() && t.GetPBitCount() < t.GetRawEndPointCount()
    ensures ColorComponentPrecisionWithPBit(t) == t.ColorComponentPrecision()
    ensures AlphaComponentPrecisionWithPBit(t) == t.AlphaComponentPrecision()
    ensures TypeHasPBits(t) ==> ColorComponentPrecision(t) == ColorComponentPrecisionWithPBit(t) - 1
    ensures TypeHasPBits(t) ==>
      AlphaComponentPrecision(t) == (if t.HasAlpha() then AlphaComponentPrecisionWithPBit(t) - 1 else 0)
    ensures !TypeHasPBits(t) ==>
      ColorComponentPrecision(t) == ColorComponentPrecisionWithPBit(t) &&
      AlphaComponentPrecision(t) == AlphaComponentPrecisionWithPBit(t)
    ensures t.HasAlpha() <==> AlphaComponentPrecision(t) != 0
  {
  }

  /**
   * The index widths agree with the ones the decoder reads from a block,
   * Type4's index mode being the block's one-bit index-mode field.
   */
  lemma IndexBitCountsAgree(low: Ulong)
    ensures GetColorIndexBitCount(TypeOf(low), Type4IndexMode(low)) == ColorIndexBitCount(low)
    ensures GetAlphaIndexBitCount(TypeOf(low), Type4IndexMode(low)) == AlphaIndexBitCount(low)
  {
  }

  // ---------------------------------------------------------------------
  // Endpoint expansion.
  // ---------------------------------------------------------------------

  /**
   * ExpandEndpoints: with p-bits each endpoint is shifted left and its p-bit
   * OR-ed in (Type1 shares pBits[0] between endpoints 0 and 1 and pBits[1]
   * between 2 and 3), then every component is widened to eight bits by
   * replicating its top bits, and alpha becomes 255 in Type0-Type3. The
   * result is the block decoder's finalisation of the same endpoints.
   */
  method ExpandEndpoints(t: Bc7BlockType, endpoints: array<ColorRgba32>, pBits: array<byte>)
    requires TypeHasPBits(t) ==> Bc7Color.PBitsCover(t, pBits[..], endpoints.Length)
    modifies endpoints
    ensures t != Type8Reserved ==> endpoints[..] == Bc7Color.FinalizedEndpoints(t, pBits[..], old(endpoints[..]))
    ensures t == Type8Reserved ==> endpoints[..] == ExpandedEndpoints(old(endpoints[..]), 0, 0)
  {
    PrecisionTables(t);
    if TypeHasPBits(t) {
      Bc7Block.ShiftEndpoints(endpoints);
      Bc7Block.OrEndpointPBits(t, pBits[..], endpoints);
    }
    ghost var withP := endpoints[..];
    var colorPrecision := ColorComponentPrecisionWithPBit(t);
    var alphaPrecision := AlphaComponentPrecisionWithPBit(t);
    Bc7Block.ExpandEndpoints(endpoints, colorPrecision, alphaPrecision);
    if t in {Type0, Type1, Type2, Type3} {
      Bc7Block.SetOpaque(endpoints);
    }
    ExpandedInSteps(t, pBits[..], old(endpoints[..]), withP);
  }

  /** The passes of ExpandEndpoints put together, given what the p-bit pass produced. */
  lemma ExpandedInSteps(t: Bc7BlockType, pBits: seq<byte>, endpoints: seq<ColorRgba32>, withP: seq<ColorRgba32>)
    requires TypeHasPBits(t) ==> Bc7Color.PBitsCover(t, pBits, |endpoints|)
    requires withP == Bc7Color.PBitPass(t, pBits, endpoints)
    ensures var e := ExpandedEndpoints(withP, ColorComponentPrecisionWithPBit(t), AlphaComponentPrecisionWithPBit(t));
      t != Type8Reserved ==>
        Bc7Color.FinalizedEndpoints(t, pBits, endpoints) == if t in {Type0, Type1, Type2, Type3} then OpaqueEndpoints(e) else e
  {
    PrecisionTables(t);
    FinalizedInSteps(t, pBits, endpoints);
  }

  /** ExpandEndpoint: the same expansion for one endpoint and its own p-bit. */
  function ExpandEndpoint(t: Bc7BlockType, endpoint: ColorRgba32, pBit: byte): ColorRgba32
  {
    var withP := if TypeHasPBits(t) then endpoint.ShiftLeft(1).BitOr(pBit) else endpoint;
    var e := Bc7Color.ExpandEndpoint(withP, ColorComponentPrecisionWithPBit(t), AlphaComponentPrecisionWithPBit(t));
    if t in {Type0, Type1, Type2, Type3} then e.(a := 255) else e
  }

  /**
   * Expanding one endpoint gives the element ExpandEndpoints computes for it,
   * given the p-bit ExpandEndpoints would use: its own in every p-bit mode
   * but Type1, the pair's shared one for the four endpoints of Type1.
   */
  lemma ExpandEndpointAgrees(t: Bc7BlockType, endpoints: seq<ColorRgba32>, pBits: seq<byte>, i: int, pBit: byte)
    requires t != Type8Reserved && 0 <= i < |endpoints|
    requires TypeHasPBits(t) ==> Bc7Color.PBitsCover(t, pBits, |endpoints|)
    requires t == Type1 ==> i < 4
    requires TypeHasPBits(t) ==> pBit == Bc7Color.PBitFor(t, pBits, i)
    ensures ExpandEndpoint(t, endpoints[i], pBit) == Bc7Color.FinalizedEndpoints(t, pBits, endpoints)[i]
  {
    PrecisionTables(t);
    if TypeHasPBits(t) {
      var withP := Bc7Color.PBitPass(t, pBits, endpoints);
      assert withP[i] == endpoints[i].ShiftLeft(1).BitOr(pBit);
    }
  }

  /** In the modes without stored alpha, an expanded endpoint is opaque. */
  lemma ExpandEndpointOpaque(t: Bc7BlockType, endpoint: ColorRgba32, pBit: byte)
    requires t in {Type0, Type1, Type2, Type3}
    ensures ExpandEndpoint(t, endpoint, pBit).a == 255
  {
  }

  // ---------------------------------------------------------------------
  // Scale-down.
  // ---------------------------------------------------------------------

  /**
   * The p-bit ScaleDownEndpoint votes for: 1 when the mean of the red, green
   * and blue bits below the kept colour bits (the lowest of the kept bits
   * included) reaches half their range. The float comparison
   * votes / 3 >= mask / 2 is decided exactly by 2 * votes >= 3 * mask.
   */
  function PBitVote(endpoint: ColorRgba32, colorPrecision: int): (pBit: byte)
    requires 1 <= colorPrecision <= 8
    ensures pBit <= 1
  {
    var pBitVotingMask := IntOps.Shl(1, 8 - colorPrecision + 1) - 1;
    var pBitVotes := IntOps.And(endpoint.r, pBitVotingMask) + IntOps.And(endpoint.g, pBitVotingMask)
      + IntOps.And(endpoint.b, pBitVotingMask);
    if 2 * pBitVotes >= 3 * pBitVotingMask then 1 else 0
  }

  /** (byte)(x >> n) */
  function ShrByte(x: byte, n: int): byte
  {
    IntOps.ToByte(IntOps.Shr(x, n))
  }

  /**
   * ScaleDownEndpoint: each component keeps its top bits (p-bit included),
   * then, in p-bit modes, the lowest of them goes to the p-bit vote and the
   * rest are returned. With ignoreAlpha the alpha returned is 0.
   */
  function ScaleDownEndpoint(endpoint: ColorRgba32, t: Bc7BlockType, ignoreAlpha: bool): (result: (ColorRgba32, byte))
  {
    var colorPrecision := ColorComponentPrecisionWithPBit(t);
    var alphaPrecision := AlphaComponentPrecisionWithPBit(t);
    var hasPBit := TypeHasPBits(t);
    var scaled := ColorRgba32(Scaled(endpoint.r, colorPrecision, hasPBit), Scaled(endpoint.g, colorPrecision, hasPBit),
                              Scaled(endpoint.b, colorPrecision, hasPBit), Scaled(endpoint.a, alphaPrecision, hasPBit));
    var pBit := if hasPBit then PBitVote(endpoint, colorPrecision) else 0;
    (if ignoreAlpha then scaled.(a := 0) else scaled, pBit)
  }

  /** x >> n for a byte and a shift in 0..8 is x / 2^n. */
  lemma ShrByteValue(x: byte, n: int)
    requires 0 <= n <= 8
    ensures ShrByte(x, n) == x / Pow2(n)
  {
    var q := x / Pow2(n);
    DivAtMost(x, Pow2(n));
    assert IntOps.Shr(x, n) == q by {
      IntOps.ShrValue(x, n);
    }
    IntOps.ToByteSmall(q);
  }

  lemma DivAtMost(x: nat, d: nat)
    requires d >= 1
    ensures 0 <= x / d <= x
  {
  }

  /** A byte shifted right by 8 - p keeps p bits. */
  lemma ShrKeeps(x: byte, p: int)
    requires 0 <= p <= 8
    ensures ShrByte(x, 8 - p) == x / Pow2(8 - p) < Pow2(p)
  {
    ShrByteValue(x, 8 - p);
    Pow2Of16();
    Pow2Add(p, 8 - p);
    DivBound(x, Pow2(8 - p), Pow2(p));
  }

  lemma DivBound(x: nat, d: nat, m: nat)
    requires 0 < d && x < m * d
    ensures x / d < m
  {
  }

  /**
   * What ScaleDownEndpoint returns fits the mode's stored precision, and
   * alpha is 0 when ignored.
   */
  lemma ScaleDownFits(endpoint: ColorRgba32, t: Bc7BlockType, ignoreAlpha: bool)
    ensures var e := ScaleDownEndpoint(endpoint, t, ignoreAlpha).0;
      e.r < Pow2(ColorComponentPrecision(t)) && e.g < Pow2(ColorComponentPrecision(t)) &&
      e.b < Pow2(ColorComponentPrecision(t)) && e.a < Pow2(AlphaComponentPrecision(t))
    ensures ignoreAlpha ==> ScaleDownEndpoint(endpoint, t, ignoreAlpha).0.a == 0
  {
    ScaledFits(endpoint.r, t);
    ScaledFits(endpoint.g, t);
    ScaledFits(endpoint.b, t);
    ScaledFits(endpoint.a, t);
  }

  /** A component scaled down at the mode's colour or alpha precision fits the stored precision. */
  lemma ScaledFits(x: byte, t: Bc7BlockType)
    ensures Scaled(x, ColorComponentPrecisionWithPBit(t), TypeHasPBits(t)) < Pow2(ColorComponentPrecision(t))
    ensures Scaled(x, AlphaComponentPrecisionWithPBit(t), TypeHasPBits(t)) < Pow2(AlphaComponentPrecision(t))
  {
    PrecisionTables(t);
    ScaledKeeps(x, ColorComponentPrecisionWithPBit(t), TypeHasPBits(t));
    ScaledKeeps(x, AlphaComponentPrecisionWithPBit(t), TypeHasPBits(t));
  }

  /** One component scaled down: p bits kept, then, with a p-bit, one more dropped. */
  function Scaled(x: byte, p: int, hasPBit: bool): byte
  {
    var kept := ShrByte(x, 8 - p);
    if hasPBit then ShrByte(kept, 1) else kept
  }

  lemma ScaledKeeps(x: byte, p: int, hasPBit: bool)
    requires 0 <= p <= 8
    ensures !hasPBit ==> Scaled(x, p, hasPBit) < Pow2(p)
    ensures hasPBit && p >= 1 ==> Scaled(x, p, hasPBit) < Pow2(p - 1)
    ensures hasPBit && p == 0 ==> Scaled(x, p, hasPBit) == 0
  {
    ShrKeeps(x, p);
    if hasPBit {
      HalveKeeps(ShrByte(x, 8 - p), p);
    }
  }

  /** The p-bit ScaleDownEndpoint returns is a bit, and 0 in modes without p-bits. */
  lemma ScaleDownPBit(endpoint: ColorRgba32, t: Bc7BlockType, ignoreAlpha: bool)
    ensures ScaleDownEndpoint(endpoint, t, ignoreAlpha).1 <= 1
    ensures !TypeHasPBits(t) ==> ScaleDownEndpoint(endpoint, t, ignoreAlpha).1 == 0
  {
  }

  /** Dropping the lowest of p bits leaves p - 1 bits (none when p is 0). */
  lemma HalveKeeps(x: byte, p: int)
    requires 0 <= p <= 8 && x < Pow2(p)
    ensures ShrByte(x, 1) == x / 2
    ensures p >= 1 ==> x / 2 < Pow2(p - 1)
    ensures p == 0 ==> x / 2 == 0
  {
    ShrByteValue(x, 1);
    assert Pow2(1) == 2;
  }

  /** An endpoint scaled down (alpha kept) and expanded again with the p-bit the scale-down voted for. */
  function RoundTripped(endpoint: ColorRgba32, t: Bc7BlockType): ColorRgba32
  {
    var scaled := ScaleDownEndpoint(endpoint, t, false);
    ExpandEndpoint(t, scaled.0, scaled.1)
  }

  /** The top k bits of a byte. */
  function TopBits(x: byte, k: int): nat
    requires 0 <= k <= 8
  {
    DivNat(x, Pow2(8 - k))
  }

  /**
   * Scaling an endpoint down and expanding it again gives back every stored
   * component's top bits: the top ColorComponentPrecision bits of red, green
   * and blue and, in the modes with alpha, the top AlphaComponentPrecision
   * bits of alpha.
   */
  lemma ScaleDownRoundTrip(endpoint: ColorRgba32, t: Bc7BlockType)
    requires t != Type8Reserved
    ensures var x := RoundTripped(endpoint, t);
      var k := ColorComponentPrecision(t);
      0 <= k <= 8 &&
      TopBits(x.r, k) == TopBits(endpoint.r, k) && TopBits(x.g, k) == TopBits(endpoint.g, k) &&
      TopBits(x.b, k) == TopBits(endpoint.b, k)
    ensures t.HasAlpha() ==>
      0 <= AlphaComponentPrecision(t) <= 8 &&
      TopBits(RoundTripped(endpoint, t).a, AlphaComponentPrecision(t)) == TopBits(endpoint.a, AlphaComponentPrecision(t))
  {
    var pBit := ScaleDownEndpoint(endpoint, t, false).1;
    var cp, ap := ColorComponentPrecisionWithPBit(t), AlphaComponentPrecisionWithPBit(t);
    var hasP := TypeHasPBits(t);
    RoundTrippedIs(endpoint, t);
    PrecisionTables(t);
    ComponentRoundTrip(endpoint.r, cp, hasP, pBit);
    ComponentRoundTrip(endpoint.g, cp, hasP, pBit);
    ComponentRoundTrip(endpoint.b, cp, hasP, pBit);
    if t.HasAlpha() {
      ComponentRoundTrip(endpoint.a, ap, hasP, pBit);
    }
  }

  /** Each component of the round trip is its stored value expanded at the mode's precision. */
  lemma RoundTrippedIs(endpoint: ColorRgba32, t: Bc7BlockType)
    requires t != Type8Reserved
    ensures var pBit := ScaleDownEndpoint(endpoint, t, false).1;
      var cp, ap := ColorComponentPrecisionWithPBit(t), AlphaComponentPrecisionWithPBit(t);
      var hasP, x := TypeHasPBits(t), RoundTripped(endpoint, t);
      pBit <= 1 && 5 <= cp <= 8 &&
      x.r == Bc7Color.ExpandComponent(StoredComponent(endpoint.r, cp, hasP, pBit), cp) &&
      x.g == Bc7Color.ExpandComponent(StoredComponent(endpoint.g, cp, hasP, pBit), cp) &&
      x.b == Bc7Color.ExpandComponent(StoredComponent(endpoint.b, cp, hasP, pBit), cp) &&
      (t.HasAlpha() ==> 5 <= ap <= 8 && x.a == Bc7Color.ExpandComponent(StoredComponent(endpoint.a, ap, hasP, pBit), ap))
  {
    var pBit := ScaleDownEndpoint(endpoint, t, false).1;
    ScaleDownPBit(endpoint, t, false);
    PrecisionTables(t);
    var hasP, cp, ap := TypeHasPBits(t), ColorComponentPrecisionWithPBit(t), AlphaComponentPrecisionWithPBit(t);
    var e := ColorRgba32(Scaled(endpoint.r, cp, hasP), Scaled(endpoint.g, cp, hasP),
                         Scaled(endpoint.b, cp, hasP), Scaled(endpoint.a, ap, hasP));
    assert ScaleDownEndpoint(endpoint, t, false).0 == e;
    ExpandEndpointParts(t, e, pBit);
    WithPBitStored(endpoint, cp, ap, hasP, t.HasAlpha(), pBit);
  }

  /** ExpandEndpoint's colour, and in the modes with alpha its alpha, are the generic expansion's. */
  lemma ExpandEndpointParts(t: Bc7BlockType, e: ColorRgba32, pBit: byte)
    ensures var withP := if TypeHasPBits(t) then e.ShiftLeft(1).BitOr(pBit) else e;
      var x := ExpandEndpoint(t, e, pBit);
      var y := Bc7Color.ExpandEndpoint(withP, ColorComponentPrecisionWithPBit(t), AlphaComponentPrecisionWithPBit(t));
      x.r == y.r && x.g == y.g && x.b == y.b && (t.HasAlpha() ==> x.a == y.a)
  {
  }

  /** The components written back with the p-bit appended are the stored components. */
  lemma WithPBitStored(endpoint: ColorRgba32, cp: int, ap: int, hasP: bool, hasAlpha: bool, pBit: byte)
    requires 5 <= cp <= 8 && pBit <= 1 && (hasAlpha ==> 5 <= ap <= 8) && 0 <= ap <= 8
    ensures var e := ColorRgba32(Scaled(endpoint.r, cp, hasP), Scaled(endpoint.g, cp, hasP),
                                 Scaled(endpoint.b, cp, hasP), Scaled(endpoint.a, ap, hasP));
      var withP := if hasP then e.ShiftLeft(1).BitOr(pBit) else e;
      withP.r == StoredComponent(endpoint.r, cp, hasP, pBit) && withP.g == StoredComponent(endpoint.g, cp, hasP, pBit) &&
      withP.b == StoredComponent(endpoint.b, cp, hasP, pBit) &&
      (hasAlpha ==> withP.a == StoredComponent(endpoint.a, ap, hasP, pBit))
  {
    var e := ColorRgba32(Scaled(endpoint.r, cp, hasP), Scaled(endpoint.g, cp, hasP),
                         Scaled(endpoint.b, cp, hasP), Scaled(endpoint.a, ap, hasP));
    if hasP {
      ScaledKeeps(endpoint.r, cp, hasP);
      ScaledKeeps(endpoint.g, cp, hasP);
      ScaledKeeps(endpoint.b, cp, hasP);
      ScaledKeeps(endpoint.a, ap, hasP);
      Bc7Color.ShiftOrComponents(e, cp - 1, if hasAlpha then ap - 1 else 0, hasAlpha, pBit);
    }
  }

  /** The stored value of a component: its scaled-down bits, with the p-bit appended when there is one. */
  function StoredComponent(x: byte, precision: int, hasPBit: bool, p: byte): byte
    requires 5 <= precision <= 8 && p <= 1
  {
    var u := Scaled(x, precision, hasPBit);
    ShrKeeps(x, precision);
    if hasPBit then HalveKeeps(ShrByte(x, 8 - precision), precision); 2 * u + p else u
  }

  /** One component scaled down and expanded again keeps the top bits it was stored with. */
  lemma ComponentRoundTrip(x: byte, precision: int, hasPBit: bool, p: byte)
    requires 5 <= precision <= 8 && p <= 1
    ensures var k := if hasPBit then precision - 1 else precision;
      TopBits(Bc7Color.ExpandComponent(StoredComponent(x, precision, hasPBit, p), precision), k) == TopBits(x, k)
  {
    var w := StoredComponent(x, precision, hasPBit, p);
    var d := Pow2(8 - precision);
    ShrKeeps(x, precision);
    var kept := x / d;
    if hasPBit {
      HalveKeeps(ShrByte(x, 8 - precision), precision);
      assert w == 2 * (kept / 2) + p;
      assert w < Pow2(precision) by { Pow2Add(precision - 1, 1); }
    } else {
      assert w == kept;
    }
    Bc7Color.ExpandComponentValue(w, precision);
    Bc7Color.ExpandedProperties(w, precision);
    var e := Bc7Color.ExpandComponent(w, precision);
    assert e / d == w;
    if hasPBit {
      Pow2Add(8 - precision, 1);
      assert Pow2(8 - (precision - 1)) == d * 2;
      HalfQuotient(e, d);
      HalfQuotient(x, d);
    }
  }

  /** Dividing by 2d is dividing by d and then by 2. */
  lemma HalfQuotient(a: nat, d: nat)
    requires 0 < d
    ensures a / (d * 2) == a / d / 2
  {
    var q, r := a / d, a % d;
    var h, s := q / 2, q % 2;
    var rest := if s == 0 then r else d + r;
    assert a == d * q + r;
    assert q == 2 * h + s;
    assert d * q == (d * 2) * h + d * s;
    assert d * s + r == rest;
    DivUnique(a, d * 2, h, rest);
  }

  /** The quotient is the only q with a == d * q + r and 0 <= r < d. */
  lemma DivUnique(a: int, d: int, q: int, r: int)
    requires 0 < d && 0 <= r < d && a == d * q + r
    ensures a / d == q
  {
    var q', r' := a / d, a % d;
    assert d * (q - q') == r' - r;
    MulSmall(d, q - q');
  }

  /** A multiple of d strictly between -d and d is 0 * d. */
  lemma MulSmall(d: int, k: int)
    requires 0 < d && -d < d * k < d
    ensures k == 0
  {
  }

  // ---------------------------------------------------------------------
  // Clamping and rotation.
  // ---------------------------------------------------------------------

  /** ClampEndpoint: caps red, green and blue at colorMax and alpha at alphaMax. */
  method ClampEndpoint(endpoint: ColorRgba32, colorMax: byte, alphaMax: byte) returns (clamped: ColorRgba32)
    ensures clamped.r == (if endpoint.r > colorMax then colorMax else endpoint.r)
    ensures clamped.g == (if endpoint.g > colorMax then colorMax else endpoint.g)
    ensures clamped.b == (if endpoint.b > colorMax then colorMax else endpoint.b)
    ensures clamped.a == (if endpoint.a > alphaMax then alphaMax else endpoint.a)
  {
    clamped := endpoint;
    if clamped.r > colorMax {
      clamped := clamped.(r := colorMax);
    }
    if clamped.g > colorMax {
      clamped := clamped.(g := colorMax);
    }
    if clamped.b > colorMax {
      clamped := clamped.(b := colorMax);
    }
    if clamped.a > alphaMax {
      clamped := clamped.(a := alphaMax);
    }
  }

  /** The colour RotateBlockColors writes for one pixel: alpha swapped with red, green or blue. */
  function RotatedColor(color: GorgonColor, rotation: int): GorgonColor
  {
    match rotation
    case 1 => GorgonColor(color.alpha, color.green, color.blue, color.red)
    case 2 => GorgonColor(color.red, color.alpha, color.blue, color.green)
    case 3 => GorgonColor(color.red, color.green, color.alpha, color.blue)
    case _ => Transparent
  }

  /**
   * RotateBlockColors: rotation 0 returns the block itself; any other
   * rotation returns a new block, each pixel rotated (and, for a rotation
   * outside 1..3, left at the default colour).
   */
  method RotateBlockColors(block: RawBlock4X4Rgba32, rotation: int) returns (rotated: RawBlock4X4Rgba32)
    requires block.Valid()
    ensures rotated.Valid()
    ensures rotation == 0 ==> rotated == block
    ensures rotation != 0 ==> fresh(rotated.pixels)
    ensures rotation != 0 ==> forall i :: 0 <= i < 16 ==> rotated.pixels[i] == RotatedColor(block.pixels[i], rotation)
  {
    if rotation == 0 {
      return block;
    }
    rotated := new RawBlock4X4Rgba32();
    var pixels := block.pixels;
    var output := rotated.pixels;
    for i := 0 to 16
      invariant forall k :: 0 <= k < i ==> output[k] == RotatedColor(pixels[k], rotation)
      invariant forall k :: i <= k < 16 ==> output[k] == Transparent
    {
      var color := pixels[i];
      match rotation {
        case 1 => output[i] := GorgonColor(color.alpha, color.green, color.blue, color.red);
        case 2 => output[i] := GorgonColor(color.red, color.alpha, color.blue, color.green);
        case 3 => output[i] := GorgonColor(color.red, color.green, color.alpha, color.blue);
        case _ =>
      }
    }
  }

  /** Rotating a colour back with the same rotation (1..3) restores it; rotation 0 never rotates. */
  lemma RotatedColorInvolution(color: GorgonColor, rotation: int)
    requires 1 <= rotation <= 3
    ensures RotatedColor(RotatedColor(color, rotation), rotation) == color
    ensures RotatedColor(color, rotation) != color <==>
      (rotation == 1 && color.alpha != color.red) || (rotation == 2 && color.alpha != color.green) ||
      (rotation == 3 && color.alpha != color.blue)
  {
  }
}
