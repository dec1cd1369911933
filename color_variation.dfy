/**
 * ColorVariationGenerator.Variate565 (BCnEnc.Net/Encoder/ColorVariationGenerator.cs):
 * the i-th of 24 small nudges of a pair of 565 endpoints. Each pattern adds
 * -1, 0 or 1 to every raw field of one or both endpoints.
 */
module ColorVariation {
  import opened ByteHelper
  import IntOps
  import opened Colors
  import opened Results
  import opened Bits

  const VAR_PATTERN_EP0_R: seq<int> := [1, 1, 0, 0, -1, 0, 0, -1, 1, -1, 1, 0, 0, -1, 0, 0, 0, 0, 0, 0, 0, 0, 0, 0]
  const VAR_PATTERN_EP0_G: seq<int> := [1, 0, 1, 0, 0, -1, 0, -1, 1, -1, 0, 1, 0, 0, -1, 0, 0, 0, 0, 0, 0, 0, 0, 0]
  const VAR_PATTERN_EP0_B: seq<int> := [1, 0, 0, 1, 0, 0, -1, -1, 1, -1, 0, 0, 1, 0, 0, -1, 0, 0, 0, 0, 0, 0, 0, 0]
  const VAR_PATTERN_EP1_R: seq<int> := [-1, -1, 0, 0, 1, 0, 0, 1, 0, 0, 0, 0, 0, 0, 0, 0, 1, -1, 1, 0, 0, -1, 0, 0]
  const VAR_PATTERN_EP1_G: seq<int> := [-1, 0, -1, 0, 0, 1, 0, 1, 0, 0, 0, 0, 0, 0, 0, 0, 1, -1, 0, 1, 0, 0, -1, 0]
  const VAR_PATTERN_EP1_B: seq<int> := [-1, 0, 0, -1, 0, 0, 1, 1, 0, 0, 0, 0, 0, 0, 0, 0, 1, -1, 0, 0, 1, 0, 0, -1]

  /** VarPatternCount: the length of the pattern tables. */
  const VAR_PATTERN_COUNT: nat := 24

  /** The (red, green, blue) offsets pattern idx adds to endpoint 0. */
  function Ep0Offset(idx: int): (int, int, int)
    requires 0 <= idx < VAR_PATTERN_COUNT
  {
    (VAR_PATTERN_EP0_R[idx], VAR_PATTERN_EP0_G[idx], VAR_PATTERN_EP0_B[idx])
  }

  /** The (red, green, blue) offsets pattern idx adds to endpoint 1. */
  function Ep1Offset(idx: int): (int, int, int)
    requires 0 <= idx < VAR_PATTERN_COUNT
  {
    (VAR_PATTERN_EP1_R[idx], VAR_PATTERN_EP1_G[idx], VAR_PATTERN_EP1_B[idx])
  }

  /** C#'s % on int: the remainder takes the sign of the dividend. */
  function CSharpRem(i: int, n: int): (r: int)
    requires n > 0
    ensures -n < r < n
    ensures i >= 0 ==> r == i % n
    ensures i < 0 ==> r <= 0
  {
    if i >= 0 then i % n else -((-i) % n)
  }

  /** The C# remainder is 0 exactly when the Euclidean one is. */
  lemma CSharpRemZero(i: int, n: int)
    requires n > 0
    ensures CSharpRem(i, n) == 0 <==> i % n == 0
  {
    if i < 0 {
      if (-i) % n == 0 {
        ModUnique(i, n, -((-i) / n), 0);
      }
      if i % n == 0 {
        ModUnique(-i, n, -(i / n), 0);
      }
    }
  }

  /** The raw red, green and blue fields of a colour, as RawR, RawG and RawB read them (RawGetters). */
  function Raw(c: ColorRgb565): (int, int, int)
  {
    (IntOps.Field(c.data, 11, 5), IntOps.Field(c.data, 5, 6), IntOps.Field(c.data, 0, 5))
  }

  lemma RawGetters(c: ColorRgb565)
    ensures Raw(c) == (c.RawR(), c.RawG(), c.RawB())
    ensures 0 <= Raw(c).0 < 32 && 0 <= Raw(c).1 < 64 && 0 <= Raw(c).2 < 32
  {
    RawFields(c);
  }

  lemma RawRange(c: ColorRgb565)
    ensures 0 <= Raw(c).0 < 32 && 0 <= Raw(c).1 < 64 && 0 <= Raw(c).2 < 32
  {
    assert Pow2(5) == 32 && Pow2(6) == 64;
  }

  /**
   * A fresh colour whose raw fields are those of c plus the offsets d, each
   * sum clamped to a byte and then, by the raw setter, to its field.
   */
  function Moved(c: ColorRgb565, d: (int, int, int)): ColorRgb565
  {
    var raw := Raw(c);
    Packed(ClampTo(ClampToByte(raw.0 + d.0), 31), ClampTo(ClampToByte(raw.1 + d.1), 63), ClampTo(ClampToByte(raw.2 + d.2), 31))
  }

  /**
   * Variate565(c0, c1, i): pattern i % 24 applied to both endpoints. A
   * negative i whose C# remainder is negative indexes the tables below 0
   * and throws.
   */
  function Variate565(c0: ColorRgb565, c1: ColorRgb565, i: int): Result<(ColorRgb565, ColorRgb565)>
  {
    var idx := CSharpRem(i, VAR_PATTERN_COUNT);
    if idx < 0 then Failure(IndexOutOfRangeException)
    else Success((Moved(c0, Ep0Offset(idx)), Moved(c1, Ep1Offset(idx))))
  }

  /** One endpoint's three raw setters on a fresh colour, as Moved states them. */
  lemma MovedIsSetters(c: ColorRgb565, d: (int, int, int))
    ensures Moved(c, d) == ColorRgb565(0).WithRawR(ClampToByte(c.RawR() + d.0))
                                         .WithRawG(ClampToByte(c.RawG() + d.1))
                                         .WithRawB(ClampToByte(c.RawB() + d.2))
  {
    RawGetters(c);
    var r, g, b := ClampToByte(c.RawR() + d.0), ClampToByte(c.RawG() + d.1), ClampToByte(c.RawB() + d.2);
    assert Moved(c, d) == Packed(ClampTo(r, 31), ClampTo(g, 63), ClampTo(b, 31));
    RawSettersOnZero(r, g, b);
  }

  /**
   * The raw fields of a moved endpoint: each is the old field plus its
   * offset, clamped to the field; with offsets in -1..1 it moves by at most
   * one step, and a zero offset leaves the whole colour as it was.
   */
  lemma MovedFields(c: ColorRgb565, d: (int, int, int))
    ensures Raw(Moved(c, d)) == (ClampTo(Raw(c).0 + d.0, 31), ClampTo(Raw(c).1 + d.1, 63), ClampTo(Raw(c).2 + d.2, 31))
    ensures -1 <= d.0 <= 1 ==> -1 <= Raw(Moved(c, d)).0 - Raw(c).0 <= 1
    ensures -1 <= d.1 <= 1 ==> -1 <= Raw(Moved(c, d)).1 - Raw(c).1 <= 1
    ensures -1 <= d.2 <= 1 ==> -1 <= Raw(Moved(c, d)).2 - Raw(c).2 <= 1
    ensures d == (0, 0, 0) ==> Moved(c, d) == c
  {
    RawRange(c);
    MovedRaw(c, d);
    if d == (0, 0, 0) {
      assert Moved(c, d) == Packed(Raw(c).0, Raw(c).1, Raw(c).2);
      PackedOwnFields(c);
    }
  }

  lemma MovedRaw(c: ColorRgb565, d: (int, int, int))
    ensures Raw(Moved(c, d)) == (ClampTo(Raw(c).0 + d.0, 31), ClampTo(Raw(c).1 + d.1, 63), ClampTo(Raw(c).2 + d.2, 31))
  {
    var raw := Raw(c);
    var r, g, b := ClampTo(raw.0 + d.0, 31), ClampTo(raw.1 + d.1, 63), ClampTo(raw.2 + d.2, 31);
    MovedPacked(c, d);
    PackedFieldValues(r, g, b);
    assert Raw(Packed(r, g, b)) == (r, g, b);
  }

  /** Clamping to a byte first changes nothing, since a field plus a small offset is clamped to the field anyway. */
  lemma MovedPacked(c: ColorRgb565, d: (int, int, int))
    ensures Moved(c, d) == Packed(ClampTo(Raw(c).0 + d.0, 31), ClampTo(Raw(c).1 + d.1, 63), ClampTo(Raw(c).2 + d.2, 31))
  {
    RawRange(c);
    var raw := Raw(c);
    assert ClampTo(ClampToByte(raw.0 + d.0), 31) == ClampTo(raw.0 + d.0, 31);
    assert ClampTo(ClampToByte(raw.1 + d.1), 63) == ClampTo(raw.1 + d.1, 63);
    assert ClampTo(ClampToByte(raw.2 + d.2), 31) == ClampTo(raw.2 + d.2, 31);
  }

  /** Variate565 throws exactly for the negative i that are not multiples of 24. */
  lemma VariateFails(c0: ColorRgb565, c1: ColorRgb565, i: int)
    ensures Variate565(c0, c1, i).Failure? <==> i < 0 && i % VAR_PATTERN_COUNT != 0
    ensures Variate565(c0, c1, i).Failure? ==> Variate565(c0, c1, i).error == IndexOutOfRangeException
  {
    CSharpRemZero(i, VAR_PATTERN_COUNT);
  }

  /**
   * What a successful Variate565 returns: with idx = i % 24, the raw fields
   * of both endpoints moved by at most one step each (to a field still in
   * range), patterns 8-15 leaving endpoint 1 as it was and 16-23 leaving
   * endpoint 0.
   */
  lemma VariateMoves(c0: ColorRgb565, c1: ColorRgb565, i: int)
    requires Variate565(c0, c1, i).Success?
    ensures var idx, r := CSharpRem(i, VAR_PATTERN_COUNT), Variate565(c0, c1, i).value;
      0 <= idx < VAR_PATTERN_COUNT &&
      r == (Moved(c0, Ep0Offset(idx)), Moved(c1, Ep1Offset(idx))) &&
      (-1 <= Raw(r.0).0 - Raw(c0).0 <= 1 && -1 <= Raw(r.0).1 - Raw(c0).1 <= 1 && -1 <= Raw(r.0).2 - Raw(c0).2 <= 1) &&
      (-1 <= Raw(r.1).0 - Raw(c1).0 <= 1 && -1 <= Raw(r.1).1 - Raw(c1).1 <= 1 && -1 <= Raw(r.1).2 - Raw(c1).2 <= 1) &&
      (8 <= idx < 16 ==> r.1 == c1) &&
      (16 <= idx ==> r.0 == c0)
  {
    var idx := CSharpRem(i, VAR_PATTERN_COUNT);
    PatternEntries();
    PatternGroups(idx);
    MovedFields(c0, Ep0Offset(idx));
    MovedFields(c1, Ep1Offset(idx));
  }

  /** Variate565 is periodic in i with period VarPatternCount. */
  lemma VariatePeriodic(c0: ColorRgb565, c1: ColorRgb565, i: int)
    requires i >= 0
    ensures Variate565(c0, c1, i + VAR_PATTERN_COUNT) == Variate565(c0, c1, i)
  {
    assert (i + VAR_PATTERN_COUNT) % VAR_PATTERN_COUNT == i % VAR_PATTERN_COUNT;
  }

  /** No entry of t moves a raw field by more than one step. */
  predicate UnitSteps(t: seq<int>)
  {
    |t| == VAR_PATTERN_COUNT && forall k :: 0 <= k < |t| ==> -1 <= t[k] <= 1
  }

  /** Every pattern entry is -1, 0 or 1, and every table has VarPatternCount entries. */
  lemma PatternEntries()
    ensures UnitSteps(VAR_PATTERN_EP0_R) && UnitSteps(VAR_PATTERN_EP0_G) && UnitSteps(VAR_PATTERN_EP0_B)
    ensures UnitSteps(VAR_PATTERN_EP1_R) && UnitSteps(VAR_PATTERN_EP1_G) && UnitSteps(VAR_PATTERN_EP1_B)
  {
    Ep0RSteps();
    Ep0GSteps();
    Ep0BSteps();
    Ep1RSteps();
    Ep1GSteps();
    Ep1BSteps();
  }

  lemma Ep0RSteps() ensures UnitSteps(VAR_PATTERN_EP0_R) {}
  lemma Ep0GSteps() ensures UnitSteps(VAR_PATTERN_EP0_G) {}
  lemma Ep0BSteps() ensures UnitSteps(VAR_PATTERN_EP0_B) {}
  lemma Ep1RSteps() ensures UnitSteps(VAR_PATTERN_EP1_R) {}
  lemma Ep1GSteps() ensures UnitSteps(VAR_PATTERN_EP1_G) {}
  lemma Ep1BSteps() ensures UnitSteps(VAR_PATTERN_EP1_B) {}

  /**
   * The three groups of patterns: 0-7 move the endpoints in opposite
   * directions, 8-15 move only endpoint 0 and 16-23 only endpoint 1; every
   * pattern moves something.
   */
  lemma PatternGroups(idx: int)
    requires 0 <= idx < VAR_PATTERN_COUNT
    ensures idx < 8 ==> Ep0Offset(idx) == (-Ep1Offset(idx).0, -Ep1Offset(idx).1, -Ep1Offset(idx).2) != (0, 0, 0)
    ensures 8 <= idx < 16 ==> Ep1Offset(idx) == (0, 0, 0) != Ep0Offset(idx)
    ensures 16 <= idx ==> Ep0Offset(idx) == (0, 0, 0) != Ep1Offset(idx)
  {
  }
}
