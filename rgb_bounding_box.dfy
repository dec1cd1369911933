/**
 * RgbBoundingBox (BCnEnc.Net/Shared/RgbBoundingBox.cs): the first guess at
 * a BC1-BC3 block's two endpoints, after van Waveren's real-time DXT
 * compression. A scan over the tile keeps each channel's minimum and
 * maximum; the box is then inset by 1/16 of its extent (alpha by 1/32),
 * clamped to 0..255, and each channel is rounded so that the bits below
 * its 565 field repeat the field's top bits.
 *
 * A pixel enters the scan as its integer components, a ColorRgba32.
 */
module RgbBoundingBox {
  import opened Bits
  import IntOps
  import opened Colors

  const COLOR_INSET_SHIFT: nat := 4
  const ALPHA_INSET_SHIFT: nat := 5
  const C565_5_MASK: int := 0xF8
  const C565_6_MASK: int := 0xFC

  /** Channel k of a pixel: 0 red, 1 green, 2 blue, otherwise alpha. */
  function Channel(c: ColorRgba32, k: int): byte
  {
    if k == 0 then c.r else if k == 1 then c.g else if k == 2 then c.b else c.a
  }

  // ---------------------------------------------------------------------
  // The scan.
  // ---------------------------------------------------------------------

  /**
   * The scan's minimum of channel k: it starts at 255 and takes every
   * smaller value of a pixel whose alpha is at least alphaCutoff.
   */
  function ChannelMin(colors: seq<ColorRgba32>, alphaCutoff: int, k: int): int
    decreases |colors|
  {
    if colors == [] then 255
    else
      var m := ChannelMin(colors[..|colors| - 1], alphaCutoff, k);
      var c := colors[|colors| - 1];
      if c.a < alphaCutoff then m
      else if Channel(c, k) < m then Channel(c, k) else m
  }

  /** The scan's maximum of channel k: it starts at 0 and takes every larger value of a counted pixel. */
  function ChannelMax(colors: seq<ColorRgba32>, alphaCutoff: int, k: int): int
    decreases |colors|
  {
    if colors == [] then 0
    else
      var m := ChannelMax(colors[..|colors| - 1], alphaCutoff, k);
      var c := colors[|colors| - 1];
      if c.a < alphaCutoff then m
      else if Channel(c, k) > m then Channel(c, k) else m
  }

  /** The pixels the scan counts, in order: those whose alpha is at least alphaCutoff. */
  function Counted(colors: seq<ColorRgba32>, alphaCutoff: int): (r: seq<ColorRgba32>)
    ensures forall c :: c in r <==> c in colors && c.a >= alphaCutoff
    ensures |r| <= |colors|
    decreases |colors|
  {
    if colors == [] then []
    else
      var c := colors[|colors| - 1];
      Counted(colors[..|colors| - 1], alphaCutoff) + (if c.a < alphaCutoff then [] else [c])
  }

  /**
   * The minimum lies in 0..255, is at most the channel of every counted
   * pixel, and is either 255 or the channel of some counted pixel.
   */
  lemma {:induction false} ChannelMinIsLeast(colors: seq<ColorRgba32>, alphaCutoff: int, k: int)
    ensures 0 <= ChannelMin(colors, alphaCutoff, k) <= 255
    ensures forall i :: 0 <= i < |colors| && colors[i].a >= alphaCutoff ==>
      ChannelMin(colors, alphaCutoff, k) <= Channel(colors[i], k)
    ensures ChannelMin(colors, alphaCutoff, k) == 255 ||
      exists i :: 0 <= i < |colors| && colors[i].a >= alphaCutoff && Channel(colors[i], k) == ChannelMin(colors, alphaCutoff, k)
    decreases |colors|
  {
    if colors != [] {
      var init := colors[..|colors| - 1];
      var m := ChannelMin(init, alphaCutoff, k);
      ChannelMinIsLeast(init, alphaCutoff, k);
      assert forall i :: 0 <= i < |init| ==> colors[i] == init[i];
      if m != 255 && ChannelMin(colors, alphaCutoff, k) == m {
        var j :| 0 <= j < |init| && init[j].a >= alphaCutoff && Channel(init[j], k) == m;
        assert colors[j] == init[j];
      }
    }
  }

  /**
   * The maximum lies in 0..255, is at least the channel of every counted
   * pixel, and is either 0 or the channel of some counted pixel.
   */
  lemma {:induction false} ChannelMaxIsGreatest(colors: seq<ColorRgba32>, alphaCutoff: int, k: int)
    ensures 0 <= ChannelMax(colors, alphaCutoff, k) <= 255
    ensures forall i :: 0 <= i < |colors| && colors[i].a >= alphaCutoff ==>
      Channel(colors[i], k) <= ChannelMax(colors, alphaCutoff, k)
    ensures ChannelMax(colors, alphaCutoff, k) == 0 ||
      exists i :: 0 <= i < |colors| && colors[i].a >= alphaCutoff && Channel(colors[i], k) == ChannelMax(colors, alphaCutoff, k)
    decreases |colors|
  {
    if colors != [] {
      var init := colors[..|colors| - 1];
      var m := ChannelMax(init, alphaCutoff, k);
      ChannelMaxIsGreatest(init, alphaCutoff, k);
      assert forall i :: 0 <= i < |init| ==> colors[i] == init[i];
      if m != 0 && ChannelMax(colors, alphaCutoff, k) == m {
        var j :| 0 <= j < |init| && init[j].a >= alphaCutoff && Channel(init[j], k) == m;
        assert colors[j] == init[j];
      }
    }
  }

  /** Scanning with a cutoff is scanning, with no cutoff, only the pixels at or above it. */
  lemma {:induction false} CutoffIgnoresPixels(colors: seq<ColorRgba32>, alphaCutoff: int, k: int)
    ensures ChannelMin(colors, alphaCutoff, k) == ChannelMin(Counted(colors, alphaCutoff), 0, k)
    ensures ChannelMax(colors, alphaCutoff, k) == ChannelMax(Counted(colors, alphaCutoff), 0, k)
    decreases |colors|
  {
    if colors != [] {
      var init := colors[..|colors| - 1];
      var c := colors[|colors| - 1];
      CutoffIgnoresPixels(init, alphaCutoff, k);
      if c.a >= alphaCutoff {
        var counted := Counted(colors, alphaCutoff);
        assert counted[..|counted| - 1] == Counted(init, alphaCutoff);
      } else {
        assert Counted(colors, alphaCutoff) == Counted(init, alphaCutoff);
      }
    }
  }

  // ---------------------------------------------------------------------
  // Inset, clamps and rounding.
  // ---------------------------------------------------------------------

  /** x << n on int, for the non-negative values the box shifts, where no bit is lost. */
  function ShiftLeft(x: int, n: nat): int
  {
    x * Pow2(n)
  }

  /** x >> n on int: an arithmetic shift, so it rounds toward negative infinity (Dafny's / with a positive divisor). */
  function ShiftRight(x: int, n: nat): int
  {
    x / Pow2(n)
  }

  /** The new minimum: ((min << shift) + ((max - min) >> shift)) >> shift, then raised to 0. */
  function InsetMin(lo: int, hi: int, shift: nat): int
  {
    var v := ShiftRight(ShiftLeft(lo, shift) + ShiftRight(hi - lo, shift), shift);
    if v >= 0 then v else 0
  }

  /** The new maximum: ((max << shift) - ((max - min) >> shift)) >> shift, then lowered to 255. */
  function InsetMax(lo: int, hi: int, shift: nat): int
  {
    var v := ShiftRight(ShiftLeft(hi, shift) - ShiftRight(hi - lo, shift), shift);
    if v <= 255 then v else 255
  }

  /**
   * Optimal rounding of a channel with a 5-bit field, (v & 0xF8) | (v >> 5):
   * the top five bits kept and the top three copied below them. Stated on
   * numbers; Round5IsMaskExpression proves it is the C# expression for
   * every v in 0..255, the only values it is given (InsetInByteRange).
   */
  function Round5(v: int): int
  {
    (v / 8) * 8 + v / 32
  }

  /** Optimal rounding of the 6-bit green channel, (v & 0xFC) | (v >> 6), stated like Round5. */
  function Round6(v: int): int
  {
    (v / 4) * 4 + v / 64
  }

  /** The 565 colour of three finished channels: new ColorRgb565((byte)r, (byte)g, (byte)b). */
  function Rounded565(r: int, g: int, b: int): ColorRgb565
  {
    FromRgb(IntOps.ToByte(Round5(r)), IntOps.ToByte(Round6(g)), IntOps.ToByte(Round5(b)))
  }

  /**
   * The endpoints Create565AlphaCutoff builds from the pixels with alpha at
   * least alphaCutoff; Create565 builds those of alphaCutoff 0, where no
   * pixel is left out.
   */
  function Endpoints565(colors: seq<ColorRgba32>, alphaCutoff: int): (ColorRgb565, ColorRgb565)
  {
    var loR, hiR := ChannelMin(colors, alphaCutoff, 0), ChannelMax(colors, alphaCutoff, 0);
    var loG, hiG := ChannelMin(colors, alphaCutoff, 1), ChannelMax(colors, alphaCutoff, 1);
    var loB, hiB := ChannelMin(colors, alphaCutoff, 2), ChannelMax(colors, alphaCutoff, 2);
    (Rounded565(InsetMin(loR, hiR, COLOR_INSET_SHIFT), InsetMin(loG, hiG, COLOR_INSET_SHIFT), InsetMin(loB, hiB, COLOR_INSET_SHIFT)),
     Rounded565(InsetMax(loR, hiR, COLOR_INSET_SHIFT), InsetMax(loG, hiG, COLOR_INSET_SHIFT), InsetMax(loB, hiB, COLOR_INSET_SHIFT)))
  }

  /** The alpha bounds Create565a adds: the scanned alpha range inset by 1/32 and cast to byte. */
  function AlphaBounds(colors: seq<ColorRgba32>): (byte, byte)
  {
    var lo, hi := ChannelMin(colors, 0, 3), ChannelMax(colors, 0, 3);
    (IntOps.ToByte(InsetMin(lo, hi, ALPHA_INSET_SHIFT)), IntOps.ToByte(InsetMax(lo, hi, ALPHA_INSET_SHIFT)))
  }

  /** The inset shifts the box uses, 4 for colour and 5 for alpha, divide by 16 and 32. */
  lemma InsetScale(shift: nat)
    requires 4 <= shift <= 5
    ensures Pow2(shift) == if shift == 4 then 16 else 32
  {
  }

  /**
   * With lo <= hi the box shrinks by far less than 1/16: the shift back
   * down discards the inset of the minimum entirely, and the maximum drops
   * by one exactly when the extent reaches 2^shift. The new bounds stay
   * inside [lo, hi], minimum first, and the clamps change nothing.
   */
  lemma InsetWithinBox(lo: int, hi: int, shift: nat)
    requires 0 <= lo <= hi <= 255 && 4 <= shift <= 5
    ensures InsetMin(lo, hi, shift) == lo
    ensures InsetMax(lo, hi, shift) == if hi - lo >= Pow2(shift) then hi - 1 else hi
    ensures lo <= InsetMin(lo, hi, shift) <= InsetMax(lo, hi, shift) <= hi
  {
    InsetScale(shift);
  }

  /**
   * Whatever the scan found, even the empty scan's lo = 255 and hi = 0,
   * the clamped inset bounds lie in 0..255.
   */
  lemma InsetInByteRange(lo: int, hi: int, shift: nat)
    requires 0 <= lo <= 255 && 0 <= hi <= 255 && 4 <= shift <= 5
    ensures 0 <= InsetMin(lo, hi, shift) <= 255
    ensures 0 <= InsetMax(lo, hi, shift) <= 255
  {
    InsetScale(shift);
  }

  /** On a byte v, Round5 is (v & 0xF8) | (v >> 5): it keeps the top five bits and stays a byte. */
  lemma Round5IsMaskExpression(v: int)
    requires 0 <= v <= 255
    ensures Round5(v) == IntOps.Or(IntOps.And(v, C565_5_MASK), IntOps.Shr(v, 5))
    ensures 0 <= Round5(v) <= 255 && Round5(v) / 8 == v / 8
  {
    var x, y := (v / 8) * 8, v / 32;
    assert x % 8 == 0 && y < 8 && x + y < 256 && Pow2(3) == 8;
    DisjointOr(x, y, 3);
    MaskTop5(v);
    ShiftDown(v, 5);
    RoundBounds(v);
  }

  /** On a byte v, Round6 is (v & 0xFC) | (v >> 6): it keeps the top six bits and stays a byte. */
  lemma Round6IsMaskExpression(v: int)
    requires 0 <= v <= 255
    ensures Round6(v) == IntOps.Or(IntOps.And(v, C565_6_MASK), IntOps.Shr(v, 6))
    ensures 0 <= Round6(v) <= 255 && Round6(v) / 4 == v / 4
  {
    var x, y := (v / 4) * 4, v / 64;
    assert x % 4 == 0 && y < 4 && x + y < 256 && Pow2(2) == 4;
    DisjointOr(x, y, 2);
    MaskTop6(v);
    ShiftDown(v, 6);
    RoundBounds(v);
  }

  lemma MaskTop5(v: int)
    requires 0 <= v <= 255
    ensures IntOps.And(v, C565_5_MASK) == (v / 8) * 8
  {
    assert Pow2(3) == 8 && Pow2(5) == 32;
    assert C565_5_MASK == IntOps.FieldMask(3, 5);
    assert IntOps.Field(v, 3, 5) == v / 8;
    IntOps.Pow2Of31();
    IntOps.AndFieldValue(v, 3, 5);
  }

  lemma MaskTop6(v: int)
    requires 0 <= v <= 255
    ensures IntOps.And(v, C565_6_MASK) == (v / 4) * 4
  {
    assert Pow2(2) == 4 && Pow2(6) == 64;
    assert C565_6_MASK == IntOps.FieldMask(2, 6);
    assert IntOps.Field(v, 2, 6) == v / 4;
    IntOps.Pow2Of31();
    IntOps.AndFieldValue(v, 2, 6);
  }

  lemma ShiftDown(v: int, n: nat)
    requires 0 <= v <= 255 && 5 <= n <= 6
    ensures IntOps.Shr(v, n) == v / (if n == 5 then 32 else 64)
  {
    assert Pow2(5) == 32 && Pow2(6) == 64;
    IntOps.Pow2Of31();
    IntOps.ShrValue(v, n);
  }

  /** x | y with x a multiple of 2^k, y below 2^k and the sum a byte is the sum. */
  lemma DisjointOr(x: int, y: int, k: nat)
    requires 0 <= x && 0 <= y && x % Pow2(k) == 0 && y < Pow2(k) && x + y < 256
    ensures IntOps.Or(x, y) == x + y
  {
    IntOps.Pow2Of31();
    IntOps.OrDisjointValue(x, y, k);
  }

  /** Rounding before the constructor changes nothing in the 565 word: its fields are the channels' top bits. */
  lemma Rounded565Fields(r: int, g: int, b: int)
    requires 0 <= r <= 255 && 0 <= g <= 255 && 0 <= b <= 255
    ensures Rounded565(r, g, b).RawR() == r / 8
    ensures Rounded565(r, g, b).RawG() == g / 4
    ensures Rounded565(r, g, b).RawB() == b / 8
  {
    RoundBounds(r);
    RoundBounds(g);
    RoundBounds(b);
    IntOps.ToByteSmall(Round5(r));
    IntOps.ToByteSmall(Round6(g));
    IntOps.ToByteSmall(Round5(b));
    FromRgbFields(Round5(r), Round6(g), Round5(b));
  }

  /** Both roundings of a byte are bytes with the same top bits. */
  lemma RoundBounds(v: int)
    requires 0 <= v <= 255
    ensures 0 <= Round5(v) <= 255 && Round5(v) / 8 == v / 8
    ensures 0 <= Round6(v) <= 255 && Round6(v) / 4 == v / 4
  {
    var q5, s5 := v / 8, v / 32;
    assert 0 <= q5 <= 31 && 0 <= s5 < 8;
    assert (q5 * 8 + s5) / 8 == q5;
    var q6, s6 := v / 4, v / 64;
    assert 0 <= q6 <= 63 && 0 <= s6 < 4;
    assert (q6 * 4 + s6) / 4 == q6;
  }

  /**
   * The endpoints store the top bits of the inset, clamped bounds: the
   * rounding is invisible in the 565 fields.
   */
  lemma EndpointFields(colors: seq<ColorRgba32>, alphaCutoff: int)
    ensures var lo, hi := ChannelMin(colors, alphaCutoff, 0), ChannelMax(colors, alphaCutoff, 0);
      Endpoints565(colors, alphaCutoff).0.RawR() == InsetMin(lo, hi, COLOR_INSET_SHIFT) / 8 &&
      Endpoints565(colors, alphaCutoff).1.RawR() == InsetMax(lo, hi, COLOR_INSET_SHIFT) / 8
    ensures var lo, hi := ChannelMin(colors, alphaCutoff, 1), ChannelMax(colors, alphaCutoff, 1);
      Endpoints565(colors, alphaCutoff).0.RawG() == InsetMin(lo, hi, COLOR_INSET_SHIFT) / 4 &&
      Endpoints565(colors, alphaCutoff).1.RawG() == InsetMax(lo, hi, COLOR_INSET_SHIFT) / 4
    ensures var lo, hi := ChannelMin(colors, alphaCutoff, 2), ChannelMax(colors, alphaCutoff, 2);
      Endpoints565(colors, alphaCutoff).0.RawB() == InsetMin(lo, hi, COLOR_INSET_SHIFT) / 8 &&
      Endpoints565(colors, alphaCutoff).1.RawB() == InsetMax(lo, hi, COLOR_INSET_SHIFT) / 8
  {
    var lo, hi := seq(3, k => ChannelMin(colors, alphaCutoff, k)), seq(3, k => ChannelMax(colors, alphaCutoff, k));
    forall k | 0 <= k < 3
      ensures 0 <= InsetMin(lo[k], hi[k], COLOR_INSET_SHIFT) <= 255 && 0 <= InsetMax(lo[k], hi[k], COLOR_INSET_SHIFT) <= 255
    {
      ChannelMinIsLeast(colors, alphaCutoff, k);
      ChannelMaxIsGreatest(colors, alphaCutoff, k);
      InsetInByteRange(lo[k], hi[k], COLOR_INSET_SHIFT);
    }
    var mins := seq(3, k requires 0 <= k < 3 => InsetMin(lo[k], hi[k], COLOR_INSET_SHIFT));
    var maxs := seq(3, k requires 0 <= k < 3 => InsetMax(lo[k], hi[k], COLOR_INSET_SHIFT));
    Rounded565Fields(mins[0], mins[1], mins[2]);
    Rounded565Fields(maxs[0], maxs[1], maxs[2]);
  }

  /** Create565AlphaCutoff's endpoints are Create565's endpoints of the pixels at or above the cutoff. */
  lemma CutoffEndpoints(colors: seq<ColorRgba32>, alphaCutoff: int)
    ensures Endpoints565(colors, alphaCutoff) == Endpoints565(Counted(colors, alphaCutoff), 0)
  {
    CutoffIgnoresPixels(colors, alphaCutoff, 0);
    CutoffIgnoresPixels(colors, alphaCutoff, 1);
    CutoffIgnoresPixels(colors, alphaCutoff, 2);
  }

  /** A tile whose counted pixels all share one colour yields two equal endpoints. */
  lemma UniformTile(colors: seq<ColorRgba32>, alphaCutoff: int, j: int)
    requires 0 <= j < |colors| && colors[j].a >= alphaCutoff
    requires forall i :: 0 <= i < |colors| && colors[i].a >= alphaCutoff ==>
      colors[i].r == colors[j].r && colors[i].g == colors[j].g && colors[i].b == colors[j].b
    ensures Endpoints565(colors, alphaCutoff).0 == Endpoints565(colors, alphaCutoff).1
  {
    forall k | 0 <= k < 3
      ensures ChannelMin(colors, alphaCutoff, k) == ChannelMax(colors, alphaCutoff, k) == Channel(colors[j], k)
    {
      ChannelMinIsLeast(colors, alphaCutoff, k);
      ChannelMaxIsGreatest(colors, alphaCutoff, k);
    }
    forall k | 0 <= k < 3
      ensures InsetMin(Channel(colors[j], k), Channel(colors[j], k), COLOR_INSET_SHIFT) ==
        InsetMax(Channel(colors[j], k), Channel(colors[j], k), COLOR_INSET_SHIFT)
    {
      InsetWithinBox(Channel(colors[j], k), Channel(colors[j], k), COLOR_INSET_SHIFT);
    }
  }

  /**
   * Create565a's alpha bounds: the casts to byte keep the clamped inset
   * bounds, and when the tile has a pixel they lie inside the observed
   * alpha range, minimum first.
   */
  lemma AlphaBoundsInRange(colors: seq<ColorRgba32>)
    ensures var lo, hi := ChannelMin(colors, 0, 3), ChannelMax(colors, 0, 3);
      AlphaBounds(colors).0 == InsetMin(lo, hi, ALPHA_INSET_SHIFT) &&
      AlphaBounds(colors).1 == InsetMax(lo, hi, ALPHA_INSET_SHIFT)
    ensures |colors| > 0 ==>
      ChannelMin(colors, 0, 3) <= AlphaBounds(colors).0 <= AlphaBounds(colors).1 <= ChannelMax(colors, 0, 3)
  {
    var lo, hi := ChannelMin(colors, 0, 3), ChannelMax(colors, 0, 3);
    ChannelMinIsLeast(colors, 0, 3);
    ChannelMaxIsGreatest(colors, 0, 3);
    InsetInByteRange(lo, hi, ALPHA_INSET_SHIFT);
    IntOps.ToByteSmall(InsetMin(lo, hi, ALPHA_INSET_SHIFT));
    IntOps.ToByteSmall(InsetMax(lo, hi, ALPHA_INSET_SHIFT));
    if |colors| > 0 {
      assert lo <= Channel(colors[0], 3) <= hi;
      InsetWithinBox(lo, hi, ALPHA_INSET_SHIFT);
    }
  }

  // ---------------------------------------------------------------------
  // The three builders.
  // ---------------------------------------------------------------------

  /** Create565: the bounding box of every pixel's colour. */
  method Create565(colors: seq<ColorRgba32>) returns (min: ColorRgb565, max: ColorRgb565)
    ensures (min, max) == Endpoints565(colors, 0)
  {
    var minR, minG, minB := 255, 255, 255;
    var maxR, maxG, maxB := 0, 0, 0;
    for i := 0 to |colors|
      invariant minR == ChannelMin(colors[..i], 0, 0) && maxR == ChannelMax(colors[..i], 0, 0)
      invariant minG == ChannelMin(colors[..i], 0, 1) && maxG == ChannelMax(colors[..i], 0, 1)
      invariant minB == ChannelMin(colors[..i], 0, 2) && maxB == ChannelMax(colors[..i], 0, 2)
    {
      var c := colors[i];
      assert colors[..i + 1][..i] == colors[..i];
      if c.r < minR {
        minR := c.r;
      }
      if c.g < minG {
        minG := c.g;
      }
      if c.b < minB {
        minB := c.b;
      }
      if c.r > maxR {
        maxR := c.r;
      }
      if c.g > maxG {
        maxG := c.g;
      }
      if c.b > maxB {
        maxB := c.b;
      }
    }
    assert colors[..|colors|] == colors;
    min, max := Finish565(minR, minG, minB, maxR, maxG, maxB);
  }

  /** Create565AlphaCutoff: the bounding box of the pixels whose alpha is at least alphaCutoff. */
  method Create565AlphaCutoff(colors: seq<ColorRgba32>, alphaCutoff: int) returns (min: ColorRgb565, max: ColorRgb565)
    ensures (min, max) == Endpoints565(colors, alphaCutoff)
  {
    var minR, minG, minB := 255, 255, 255;
    var maxR, maxG, maxB := 0, 0, 0;
    for i := 0 to |colors|
      invariant minR == ChannelMin(colors[..i], alphaCutoff, 0) && maxR == ChannelMax(colors[..i], alphaCutoff, 0)
      invariant minG == ChannelMin(colors[..i], alphaCutoff, 1) && maxG == ChannelMax(colors[..i], alphaCutoff, 1)
      invariant minB == ChannelMin(colors[..i], alphaCutoff, 2) && maxB == ChannelMax(colors[..i], alphaCutoff, 2)
    {
      var c := colors[i];
      assert colors[..i + 1][..i] == colors[..i];
      if c.a < alphaCutoff {
        continue;
      }
      if c.r < minR {
        minR := c.r;
      }
      if c.g < minG {
        minG := c.g;
      }
      if c.b < minB {
        minB := c.b;
      }
      if c.r > maxR {
        maxR := c.r;
      }
      if c.g > maxG {
        maxG := c.g;
      }
      if c.b > maxB {
        maxB := c.b;
      }
    }
    assert colors[..|colors|] == colors;
    min, max := Finish565(minR, minG, minB, maxR, maxG, maxB);
  }

  /** Create565a: Create565's endpoints and the inset alpha range. */
  method Create565a(colors: seq<ColorRgba32>) returns (min: ColorRgb565, max: ColorRgb565, minAlpha: byte, maxAlpha: byte)
    ensures (min, max) == Endpoints565(colors, 0)
    ensures (minAlpha, maxAlpha) == AlphaBounds(colors)
  {
    var minR, minG, minB, minA := 255, 255, 255, 255;
    var maxR, maxG, maxB, maxA := 0, 0, 0, 0;
    for i := 0 to |colors|
      invariant minR == ChannelMin(colors[..i], 0, 0) && maxR == ChannelMax(colors[..i], 0, 0)
      invariant minG == ChannelMin(colors[..i], 0, 1) && maxG == ChannelMax(colors[..i], 0, 1)
      invariant minB == ChannelMin(colors[..i], 0, 2) && maxB == ChannelMax(colors[..i], 0, 2)
      invariant minA == ChannelMin(colors[..i], 0, 3) && maxA == ChannelMax(colors[..i], 0, 3)
    {
      var c := colors[i];
      assert colors[..i + 1][..i] == colors[..i];
      if c.r < minR {
        minR := c.r;
      }
      if c.g < minG {
        minG := c.g;
      }
      if c.b < minB {
        minB := c.b;
      }
      if c.a < minA {
        minA := c.a;
      }
      if c.r > maxR {
        maxR := c.r;
      }
      if c.g > maxG {
        maxG := c.g;
      }
      if c.b > maxB {
        maxB := c.b;
      }
      if c.a > maxA {
        maxA := c.a;
      }
    }
    assert colors[..|colors|] == colors;
    min, max := Finish565(minR, minG, minB, maxR, maxG, maxB);
    minAlpha, maxAlpha := FinishAlpha(minA, maxA);
  }

  /** Create565a's statements after the scan for alpha: inset by 1/32, clamps, casts to byte. */
  method FinishAlpha(minA0: int, maxA0: int) returns (minAlpha: byte, maxAlpha: byte)
    ensures minAlpha == IntOps.ToByte(InsetMin(minA0, maxA0, ALPHA_INSET_SHIFT))
    ensures maxAlpha == IntOps.ToByte(InsetMax(minA0, maxA0, ALPHA_INSET_SHIFT))
  {
    var minA, maxA := minA0, maxA0;
    var insetA := ShiftRight(maxA - minA, ALPHA_INSET_SHIFT);
    minA := ShiftRight(ShiftLeft(minA, ALPHA_INSET_SHIFT) + insetA, ALPHA_INSET_SHIFT);
    maxA := ShiftRight(ShiftLeft(maxA, ALPHA_INSET_SHIFT) - insetA, ALPHA_INSET_SHIFT);
    minA := if minA >= 0 then minA else 0;
    maxA := if maxA <= 255 then maxA else 255;
    minAlpha := IntOps.ToByte(minA);
    maxAlpha := IntOps.ToByte(maxA);
  }

  /** The statements after the scan, shared by the three builders: inset, clamps, rounding, construction. */
  method Finish565(minR0: int, minG0: int, minB0: int, maxR0: int, maxG0: int, maxB0: int) returns (min: ColorRgb565, max: ColorRgb565)
    ensures min == Rounded565(InsetMin(minR0, maxR0, COLOR_INSET_SHIFT), InsetMin(minG0, maxG0, COLOR_INSET_SHIFT), InsetMin(minB0, maxB0, COLOR_INSET_SHIFT))
    ensures max == Rounded565(InsetMax(minR0, maxR0, COLOR_INSET_SHIFT), InsetMax(minG0, maxG0, COLOR_INSET_SHIFT), InsetMax(minB0, maxB0, COLOR_INSET_SHIFT))
  {
    var minR, minG, minB, maxR, maxG, maxB := minR0, minG0, minB0, maxR0, maxG0, maxB0;
    var insetR := ShiftRight(maxR - minR, COLOR_INSET_SHIFT);
    var insetG := ShiftRight(maxG - minG, COLOR_INSET_SHIFT);
    var insetB := ShiftRight(maxB - minB, COLOR_INSET_SHIFT);

    minR := ShiftRight(ShiftLeft(minR, COLOR_INSET_SHIFT) + insetR, COLOR_INSET_SHIFT);
    minG := ShiftRight(ShiftLeft(minG, COLOR_INSET_SHIFT) + insetG, COLOR_INSET_SHIFT);
    minB := ShiftRight(ShiftLeft(minB, COLOR_INSET_SHIFT) + insetB, COLOR_INSET_SHIFT);

    maxR := ShiftRight(ShiftLeft(maxR, COLOR_INSET_SHIFT) - insetR, COLOR_INSET_SHIFT);
    maxG := ShiftRight(ShiftLeft(maxG, COLOR_INSET_SHIFT) - insetG, COLOR_INSET_SHIFT);
    maxB := ShiftRight(ShiftLeft(maxB, COLOR_INSET_SHIFT) - insetB, COLOR_INSET_SHIFT);

    minR := if minR >= 0 then minR else 0;
    minG := if minG >= 0 then minG else 0;
    minB := if minB >= 0 then minB else 0;

    maxR := if maxR <= 255 then maxR else 255;
    maxG := if maxG <= 255 then maxG else 255;
    maxB := if maxB <= 255 then maxB else 255;

    assert minR == InsetMin(minR0, maxR0, COLOR_INSET_SHIFT) && maxR == InsetMax(minR0, maxR0, COLOR_INSET_SHIFT);
    assert minG == InsetMin(minG0, maxG0, COLOR_INSET_SHIFT) && maxG == InsetMax(minG0, maxG0, COLOR_INSET_SHIFT);
    assert minB == InsetMin(minB0, maxB0, COLOR_INSET_SHIFT) && maxB == InsetMax(minB0, maxB0, COLOR_INSET_SHIFT);

    minR := Round5(minR);
    minG := Round6(minG);
    minB := Round5(minB);

    maxR := Round5(maxR);
    maxG := Round6(maxG);
    maxB := Round5(maxB);

    min := FromRgb(IntOps.ToByte(minR), IntOps.ToByte(minG), IntOps.ToByte(minB));
    max := FromRgb(IntOps.ToByte(maxR), IntOps.ToByte(maxG), IntOps.ToByte(maxB));
  }
}
