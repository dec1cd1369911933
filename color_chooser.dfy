/**
 * ColorChooser (Gorgon.BCnEncoder.NET/Encoder/ColorChooser.cs): the index of
 * the palette entry closest to a pixel. The pixel enters as the integer
 * components GetIntegerComponents returns. The float weights, weighted
 * distances and errors of the four-entry choosers are exact reals, so
 * float rounding is not modelled. ChooseClosestColor4 is the chooser as
 * written; ChooseClosestColor4Corrected breaks ties with entry 3 so that a
 * nearest entry is returned.
 */
module ColorChooser {
  import opened Bits
  import opened Colors
  import opened Results

  function Abs(x: int): (r: nat)
    ensures r == x || r == -x
  {
    if x < 0 then -x else x
  }

  /** |c.r - R| + |c.g - G| + |c.b - B|. */
  function Distance24(c: ColorRgb24, r: int, g: int, b: int): nat
  {
    Abs(c.r - r) + Abs(c.g - g) + Abs(c.b - b)
  }

  /** |c.r - R| + |c.g - G| + |c.b - B| + |c.a - A|. */
  function Distance32(c: ColorRgba32, r: int, g: int, b: int, a: int): nat
  {
    Abs(c.r - r) + Abs(c.g - g) + Abs(c.b - b) + Abs(c.a - a)
  }

  /** The colour part of Distance32, which the alpha-cutoff chooser uses. */
  function DistanceRgb(c: ColorRgba32, r: int, g: int, b: int): nat
  {
    Abs(c.r - r) + Abs(c.g - g) + Abs(c.b - b)
  }

  /**
   * idx is the lowest index other than skip whose distance is smallest
   * among all indices other than skip (skip -1 excludes nothing).
   */
  predicate LowestClosest(dists: seq<int>, idx: int, skip: int)
  {
    0 <= idx < |dists| && idx != skip &&
    (forall j :: 0 <= j < |dists| && j != skip ==> dists[idx] <= dists[j]) &&
    (forall j :: 0 <= j < idx && j != skip ==> dists[idx] < dists[j])
  }

  /** The predicate pins the index down: two such indices are equal. */
  lemma LowestClosestUnique(dists: seq<int>, i: int, k: int, skip: int)
    requires LowestClosest(dists, i, skip) && LowestClosest(dists, k, skip)
    ensures i == k
  {
    assert dists[i] == dists[k];
  }

  /** One step of a closest-entry scan: entry i replaces the choice exactly when it is strictly closer. */
  lemma LowestClosestStep(dists: seq<int>, i: int, closest: int, skip: int)
    requires 0 <= i < |dists| && LowestClosest(dists[..i], closest, skip)
    ensures i == skip ==> LowestClosest(dists[..i + 1], closest, skip)
    ensures i != skip && dists[i] < dists[closest] ==> LowestClosest(dists[..i + 1], i, skip)
    ensures i != skip && dists[i] >= dists[closest] ==> LowestClosest(dists[..i + 1], closest, skip)
  {
  }

  /**
   * ChooseClosestColor over RGB24: colors[0] first, then every later entry
   * that is strictly closer replaces it. An empty span throws on colors[0].
   */
  method ChooseClosestColor24(colors: seq<ColorRgb24>, r: int, g: int, b: int) returns (result: Result<int>)
    ensures result.Failure? <==> |colors| == 0
    ensures result.Failure? ==> result.error == IndexOutOfRangeException
    ensures result.Success? ==>
      LowestClosest(seq(|colors|, k requires 0 <= k < |colors| => Distance24(colors[k], r, g, b)), result.value, -1)
  {
    if |colors| == 0 {
      return Failure(IndexOutOfRangeException);
    }
    ghost var dists := seq(|colors|, k requires 0 <= k < |colors| => Distance24(colors[k], r, g, b));
    var closest := 0;
    var closestError := Distance24(colors[0], r, g, b);
    for i := 1 to |colors|
      invariant LowestClosest(dists[..i], closest, -1) && closestError == dists[closest]
    {
      var error := Distance24(colors[i], r, g, b);
      LowestClosestStep(dists, i, closest, -1);
      if error < closestError {
        closest := i;
        closestError := error;
      }
    }
    assert dists[..|colors|] == dists;
    return Success(closest);
  }

  /** ChooseClosestColor over RGBA32: the same scan with the alpha difference added. */
  method ChooseClosestColor32(colors: seq<ColorRgba32>, r: int, g: int, b: int, a: int) returns (result: Result<int>)
    ensures result.Failure? <==> |colors| == 0
    ensures result.Failure? ==> result.error == IndexOutOfRangeException
    ensures result.Success? ==>
      LowestClosest(seq(|colors|, k requires 0 <= k < |colors| => Distance32(colors[k], r, g, b, a)), result.value, -1)
  {
    if |colors| == 0 {
      return Failure(IndexOutOfRangeException);
    }
    ghost var dists := seq(|colors|, k requires 0 <= k < |colors| => Distance32(colors[k], r, g, b, a));
    var closest := 0;
    var closestError := Distance32(colors[0], r, g, b, a);
    for i := 1 to |colors|
      invariant LowestClosest(dists[..i], closest, -1) && closestError == dists[closest]
    {
      var error := Distance32(colors[i], r, g, b, a);
      LowestClosestStep(dists, i, closest, -1);
      if error < closestError {
        closest := i;
        closestError := error;
      }
    }
    assert dists[..|colors|] == dists;
    return Success(closest);
  }

  /**
   * ChooseClosestColorAlphaCutOff: index 3 (the transparent entry) when
   * A <= alphaCutOff; otherwise the RGB scan with entry 3 skipped.
   */
  method ChooseClosestColorAlphaCutOff(colors: seq<ColorRgba32>, r: int, g: int, b: int, a: int, alphaCutOff: byte)
    returns (result: Result<int>)
    ensures a <= alphaCutOff ==> result == Success(3)
    ensures a > alphaCutOff ==> (result.Failure? <==> |colors| == 0)
    ensures result.Failure? ==> result.error == IndexOutOfRangeException
    ensures a > alphaCutOff && result.Success? ==>
      result.value != 3 && LowestClosest(seq(|colors|, k requires 0 <= k < |colors| => DistanceRgb(colors[k], r, g, b)), result.value, 3)
  {
    if a <= alphaCutOff {
      return Success(3);
    }
    if |colors| == 0 {
      return Failure(IndexOutOfRangeException);
    }
    ghost var dists := seq(|colors|, k requires 0 <= k < |colors| => DistanceRgb(colors[k], r, g, b));
    var closest := 0;
    var closestError := DistanceRgb(colors[0], r, g, b);
    for i := 1 to |colors|
      invariant LowestClosest(dists[..i], closest, 3) && closestError == dists[closest]
    {
      LowestClosestStep(dists, i, closest, 3);
      if i == 3 {
        continue;
      }
      var error := DistanceRgb(colors[i], r, g, b);
      if error < closestError {
        closest := i;
        closestError := error;
      }
    }
    assert dists[..|colors|] == dists;
    return Success(closest);
  }

  // ---------------------------------------------------------------------
  // The branch-free four-entry choosers.
  // ---------------------------------------------------------------------

  /** |c.r - R| * rWeight + |c.g - G| * gWeight + |c.b - B| * bWeight. */
  function WeightedDistance(c: ColorRgb24, r: int, g: int, b: int, rWeight: real, gWeight: real, bWeight: real): real
  {
    Abs(c.r - r) as real * rWeight + Abs(c.g - g) as real * gWeight + Abs(c.b - b) as real * bWeight
  }

  /** A 0/1 int of a comparison, as the choosers write d[x] > d[y] ? 1 : 0. */
  function Flag(c: bool): int
  {
    if c then 1 else 0
  }

  /**
   * ChooseClosestColor4's index as written: with bk the 0/1 flags of five
   * comparisons, x2 | ((x0 | x1) << 1) where x0 = b1 & b2, x1 = b0 & b3 and
   * x2 = b0 & b4. On 0/1 values & is the product, | of a bit and a shifted
   * bit is their sum, and x0 | x1 is the larger of the two.
   */
  function Pick4AsWritten(d: seq<real>): (idx: int)
    requires |d| == 4
    ensures 0 <= idx <= 3
  {
    var b0, b1, b2, b3, b4 := Flag(d[0] > d[3]), Flag(d[1] > d[2]), Flag(d[0] > d[2]), Flag(d[1] > d[3]), Flag(d[2] > d[3]);
    var x0, x1, x2 := b1 * b2, b0 * b3, b0 * b4;
    x2 + 2 * (if x0 + x1 > 0 then 1 else 0)
  }

  /**
   * Pick4AsWritten with the two comparisons against d[3] that decide
   * whether entry 3 beats entries 0 and 2 made non-strict.
   */
  function Pick4(d: seq<real>): (idx: int)
    requires |d| == 4
    ensures 0 <= idx <= 3
  {
    var b0, b1, b2, b3, b4 := Flag(d[0] >= d[3]), Flag(d[1] > d[2]), Flag(d[0] > d[2]), Flag(d[1] > d[3]), Flag(d[2] >= d[3]);
    var x0, x1, x2 := b1 * b2, b0 * b3, b0 * b4;
    x2 + 2 * (if x0 + x1 > 0 then 1 else 0)
  }

  /**
   * The distances rise and fall at most once along a line of entries:
   * non-increasing up to a lowest point, non-decreasing after it. This is
   * how the distances of a pixel to a palette on a line behave.
   */
  predicate Valley(s: seq<real>)
  {
    exists m :: 0 <= m < |s| && ValleyAt(s, m)
  }

  /** s falls (weakly) up to position m and rises (weakly) after it. */
  predicate ValleyAt(s: seq<real>, m: int)
  {
    (forall i :: 0 <= i < m && i + 1 < |s| ==> s[i] >= s[i + 1]) &&
    (forall i :: m <= i < |s| - 1 && 0 <= i ==> s[i] <= s[i + 1])
  }

  /** d[idx] is no larger than any entry of d. */
  predicate Smallest(d: seq<real>, idx: int)
  {
    0 <= idx < |d| && forall j :: 0 <= j < |d| ==> d[idx] <= d[j]
  }

  /**
   * As written, a plateau after a higher entry 0 makes the chooser keep
   * entry 0: the distances 4, 2, 2, 2 lie in a valley along the palette
   * line 0, 2, 3, 1, and index 0, the farthest entry, is chosen.
   */
  lemma Pick4AsWrittenMissesTie()
    ensures var d := [4.0, 2.0, 2.0, 2.0];
      Valley([d[0], d[2], d[3], d[1]]) && Pick4AsWritten(d) == 0 && !Smallest(d, 0)
  {
    var d := [4.0, 2.0, 2.0, 2.0];
    var s := [d[0], d[2], d[3], d[1]];
    assert ValleyAt(s, 1);
    assert d[1] < d[0];
  }

  /**
   * For distances in a valley along the palette order 0, 2, 3, 1 (entries
   * 2 and 3 interpolate between 0 and 1), Pick4 returns an entry at the
   * lowest distance.
   */
  lemma Pick4Nearest(d: seq<real>)
    requires |d| == 4 && Valley([d[0], d[2], d[3], d[1]])
    ensures Smallest(d, Pick4(d))
  {
    var s := [d[0], d[2], d[3], d[1]];
    var m :| 0 <= m < 4 && ValleyAt(s, m);
    assert s[0] == d[0] && s[1] == d[2] && s[2] == d[3] && s[3] == d[1];
    if m == 0 {
      assert d[0] <= d[2] <= d[3] <= d[1];
    } else if m == 1 {
      assert d[0] >= d[2] && d[2] <= d[3] <= d[1];
    } else if m == 2 {
      assert d[0] >= d[2] >= d[3] && d[3] <= d[1];
    } else {
      assert d[0] >= d[2] >= d[3] >= d[1];
    }
  }

  /** The correction only matters on ties with entry 3: otherwise both pick the same entry. */
  lemma Pick4AgreesWithoutTies(d: seq<real>)
    requires |d| == 4 && d[0] != d[3] && d[2] != d[3]
    ensures Pick4(d) == Pick4AsWritten(d)
  {
  }

  /** The four weighted distances; colors[0..3] throw when the span is shorter. */
  function Distances4(colors: seq<ColorRgb24>, r: int, g: int, b: int, rWeight: real, gWeight: real, bWeight: real): (d: seq<real>)
    requires |colors| >= 4
    ensures |d| == 4
    ensures forall k :: 0 <= k < 4 ==> d[k] == WeightedDistance(colors[k], r, g, b, rWeight, gWeight, bWeight)
  {
    seq(4, k requires 0 <= k < 4 => WeightedDistance(colors[k], r, g, b, rWeight, gWeight, bWeight))
  }

  /**
   * ChooseClosestColor4 as written: the picked index, by the strict bit
   * formula, and, as error, its distance.
   */
  function ChooseClosestColor4(colors: seq<ColorRgb24>, r: int, g: int, b: int, rWeight: real, gWeight: real, bWeight: real)
    : (result: Result<(int, real)>)
    ensures result.Failure? <==> |colors| < 4
    ensures result.Failure? ==> result.error == IndexOutOfRangeException
    ensures result.Success? ==>
      0 <= result.value.0 <= 3 && result.value.1 == WeightedDistance(colors[result.value.0], r, g, b, rWeight, gWeight, bWeight)
  {
    if |colors| < 4 then Failure(IndexOutOfRangeException)
    else
      var d := Distances4(colors, r, g, b, rWeight, gWeight, bWeight);
      var idx := Pick4AsWritten(d);
      Success((idx, d[idx]))
  }

  /** ChooseClosestColor4 with the tie correction of Pick4. */
  function ChooseClosestColor4Corrected(colors: seq<ColorRgb24>, r: int, g: int, b: int, rWeight: real, gWeight: real, bWeight: real)
    : (result: Result<(int, real)>)
    ensures result.Failure? <==> |colors| < 4
    ensures result.Failure? ==> result.error == IndexOutOfRangeException
    ensures result.Success? ==>
      0 <= result.value.0 <= 3 && result.value.1 == WeightedDistance(colors[result.value.0], r, g, b, rWeight, gWeight, bWeight)
  {
    if |colors| < 4 then Failure(IndexOutOfRangeException)
    else
      var d := Distances4(colors, r, g, b, rWeight, gWeight, bWeight);
      var idx := Pick4(d);
      Success((idx, d[idx]))
  }

  /**
   * A palette on a line where the chooser as written misses the nearest
   * entry: entries (0, 6, 0), (6, 0, 0), (2, 4, 0), (4, 2, 0) and the pixel
   * (6, 4, 0) with unit weights give the distances 8, 4, 4, 4. The chooser
   * returns entry 0 with error 8; the corrected one returns entry 1 with 4.
   */
  lemma ChooseClosestColor4MissesTie()
    ensures var colors := [ColorRgb24(0, 6, 0), ColorRgb24(6, 0, 0), ColorRgb24(2, 4, 0), ColorRgb24(4, 2, 0)];
      && ChooseClosestColor4(colors, 6, 4, 0, 1.0, 1.0, 1.0) == Success((0, 8.0))
      && ChooseClosestColor4Corrected(colors, 6, 4, 0, 1.0, 1.0, 1.0) == Success((1, 4.0))
      && forall k :: 0 <= k < 4 ==> 4.0 <= WeightedDistance(colors[k], 6, 4, 0, 1.0, 1.0, 1.0)
  {
    var colors := [ColorRgb24(0, 6, 0), ColorRgb24(6, 0, 0), ColorRgb24(2, 4, 0), ColorRgb24(4, 2, 0)];
    var d := Distances4(colors, 6, 4, 0, 1.0, 1.0, 1.0);
    assert d[0] == 8.0 && d[1] == 4.0 && d[2] == 4.0 && d[3] == 4.0;
  }

  /**
   * For a pixel whose distances to the palette fall and rise once along
   * the palette line 0, 2, 3, 1, the corrected chooser succeeds and its
   * error is the lowest weighted distance to any of the four entries.
   */
  lemma ChooseClosestColor4CorrectedNearest(colors: seq<ColorRgb24>, r: int, g: int, b: int, rWeight: real, gWeight: real, bWeight: real)
    requires |colors| >= 4
    requires var d := Distances4(colors, r, g, b, rWeight, gWeight, bWeight); Valley([d[0], d[2], d[3], d[1]])
    ensures var res := ChooseClosestColor4Corrected(colors, r, g, b, rWeight, gWeight, bWeight);
      && res.Success?
      && forall k :: 0 <= k < 4 ==> res.value.1 <= WeightedDistance(colors[k], r, g, b, rWeight, gWeight, bWeight)
  {
    var d := Distances4(colors, r, g, b, rWeight, gWeight, bWeight);
    Pick4Nearest(d);
  }

  /** Without ties against entry 3, the chooser as written and the corrected one agree. */
  lemma ChooseClosestColor4AgreesWithoutTies(colors: seq<ColorRgb24>, r: int, g: int, b: int, rWeight: real, gWeight: real, bWeight: real)
    requires |colors| >= 4
    requires var d := Distances4(colors, r, g, b, rWeight, gWeight, bWeight); d[0] != d[3] && d[2] != d[3]
    ensures ChooseClosestColor4(colors, r, g, b, rWeight, gWeight, bWeight) == ChooseClosestColor4Corrected(colors, r, g, b, rWeight, gWeight, bWeight)
  {
    Pick4AgreesWithoutTies(Distances4(colors, r, g, b, rWeight, gWeight, bWeight));
  }

  /**
   * ChooseClosestColor4AlphaCutoff's index: idx = (nb3 & b4) | (b2 & b5) |
   * (((b0 & b3) | (b1 & b2)) << 1) over seven comparison flags.
   */
  function PickAlpha(d: seq<real>): (idx: int)
    requires |d| == 4
    ensures 0 <= idx <= 3
  {
    var b0, b1, b2, b3 := Flag(d[0] > d[2]), Flag(d[1] > d[3]), Flag(d[0] > d[3]), Flag(d[1] > d[2]);
    var nb3, b4, b5 := Flag(!(d[1] > d[2])), Flag(d[0] > d[1]), Flag(d[2] > d[3]);
    var low := if nb3 * b4 + b2 * b5 > 0 then 1 else 0;
    var high := if b0 * b3 + b1 * b2 > 0 then 1 else 0;
    low + 2 * high
  }

  /** Four distances in a valley along 0, 2, 3, 1: PickAlpha returns an entry at the lowest distance. */
  lemma PickAlphaNearest(d: seq<real>)
    requires |d| == 4 && Valley([d[0], d[2], d[3], d[1]])
    ensures Smallest(d, PickAlpha(d))
  {
    var s := [d[0], d[2], d[3], d[1]];
    var m :| 0 <= m < 4 && ValleyAt(s, m);
    assert s[0] == d[0] && s[1] == d[2] && s[2] == d[3] && s[3] == d[1];
    if m == 0 {
      assert d[0] <= d[2] <= d[3] <= d[1];
    } else if m == 1 {
      assert d[0] >= d[2] && d[2] <= d[3] <= d[1];
    } else if m == 2 {
      assert d[0] >= d[2] >= d[3] && d[3] <= d[1];
    } else {
      assert d[0] >= d[2] >= d[3] >= d[1];
    }
  }

  /**
   * The three-colour palette, where d[3] is the sentinel 999: entry 3 is
   * never chosen while the real distances stay below it, and distances in
   * a valley along 0, 2, 1 give an entry at the lowest distance.
   */
  lemma PickAlphaThreeColors(d: seq<real>)
    requires |d| == 4 && d[3] == 999.0 && d[0] < 999.0 && d[1] < 999.0 && d[2] < 999.0
    ensures PickAlpha(d) != 3
    ensures Valley([d[0], d[2], d[1]]) ==> Smallest(d, PickAlpha(d))
  {
    var s := [d[0], d[2], d[1]];
    if Valley(s) {
      var m :| 0 <= m < 3 && ValleyAt(s, m);
      assert s[0] == d[0] && s[1] == d[2] && s[2] == d[1];
      if m == 0 {
        assert d[0] <= d[2] <= d[1];
      } else if m == 1 {
        assert d[0] >= d[2] && d[2] <= d[1];
      } else {
        assert d[0] >= d[2] >= d[1];
      }
    }
  }

  /**
   * ChooseClosestColor4AlphaCutoff: a pixel with hasAlpha and A below the
   * cutoff takes entry 3 with error 0 before any entry is read; otherwise
   * entry 3's distance is 999 when hasAlpha (colors[3] is then not read).
   */
  function ChooseClosestColor4AlphaCutoff(colors: seq<ColorRgb24>, r: int, g: int, b: int, a: int,
                                          rWeight: real, gWeight: real, bWeight: real,
                                          alphaCutoff: int, hasAlpha: bool): (result: Result<(int, real)>)
    ensures hasAlpha && a < alphaCutoff ==> result == Success((3, 0.0))
    ensures result.Failure? <==> !(hasAlpha && a < alphaCutoff) && |colors| < (if hasAlpha then 3 else 4)
    ensures result.Failure? ==> result.error == IndexOutOfRangeException
    ensures result.Success? ==> 0 <= result.value.0 <= 3
  {
    if hasAlpha && a < alphaCutoff then Success((3, 0.0))
    else if |colors| < (if hasAlpha then 3 else 4) then Failure(IndexOutOfRangeException)
    else
      var d := AlphaDistances(colors, r, g, b, rWeight, gWeight, bWeight, hasAlpha);
      var idx := PickAlpha(d);
      Success((idx, d[idx]))
  }

  /**
   * ChooseClosestColor4AlphaCutoff on an opaque-enough pixel. Without
   * hasAlpha and with distances in a valley along 0, 2, 3, 1, the error is
   * the lowest distance to the four entries. With hasAlpha, entry 3 is
   * never chosen while the three real distances stay below 999, and with
   * those in a valley along 0, 2, 1 the error is the lowest of them.
   */
  lemma ChooseClosestColor4AlphaCutoffNearest(colors: seq<ColorRgb24>, r: int, g: int, b: int, a: int,
                                              rWeight: real, gWeight: real, bWeight: real,
                                              alphaCutoff: int, hasAlpha: bool)
    requires !(hasAlpha && a < alphaCutoff) && |colors| >= (if hasAlpha then 3 else 4)
    ensures var d := AlphaDistances(colors, r, g, b, rWeight, gWeight, bWeight, hasAlpha);
      var res := ChooseClosestColor4AlphaCutoff(colors, r, g, b, a, rWeight, gWeight, bWeight, alphaCutoff, hasAlpha);
      && res.Success?
      && (!hasAlpha && Valley([d[0], d[2], d[3], d[1]]) ==>
            forall k :: 0 <= k < 4 ==> res.value.1 <= WeightedDistance(colors[k], r, g, b, rWeight, gWeight, bWeight))
      && (hasAlpha && d[0] < 999.0 && d[1] < 999.0 && d[2] < 999.0 ==> res.value.0 != 3)
      && (hasAlpha && d[0] < 999.0 && d[1] < 999.0 && d[2] < 999.0 && Valley([d[0], d[2], d[1]]) ==>
            forall k :: 0 <= k < 3 ==> res.value.1 <= WeightedDistance(colors[k], r, g, b, rWeight, gWeight, bWeight))
  {
    var d := AlphaDistances(colors, r, g, b, rWeight, gWeight, bWeight, hasAlpha);
    if !hasAlpha {
      if Valley([d[0], d[2], d[3], d[1]]) {
        PickAlphaNearest(d);
      }
    } else if d[0] < 999.0 && d[1] < 999.0 && d[2] < 999.0 {
      PickAlphaThreeColors(d);
    }
  }

  /** The four distances of the alpha-cutoff chooser, the last 999 when hasAlpha. */
  function AlphaDistances(colors: seq<ColorRgb24>, r: int, g: int, b: int,
                          rWeight: real, gWeight: real, bWeight: real, hasAlpha: bool): (d: seq<real>)
    requires |colors| >= (if hasAlpha then 3 else 4)
    ensures |d| == 4
    ensures forall k :: 0 <= k < 3 ==> d[k] == WeightedDistance(colors[k], r, g, b, rWeight, gWeight, bWeight)
    ensures d[3] == if hasAlpha then 999.0 else WeightedDistance(colors[3], r, g, b, rWeight, gWeight, bWeight)
  {
    [WeightedDistance(colors[0], r, g, b, rWeight, gWeight, bWeight),
     WeightedDistance(colors[1], r, g, b, rWeight, gWeight, bWeight),
     WeightedDistance(colors[2], r, g, b, rWeight, gWeight, bWeight),
     if hasAlpha then 999.0 else WeightedDistance(colors[3], r, g, b, rWeight, gWeight, bWeight)]
  }
}
