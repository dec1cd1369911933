/**
 * The integer colour structs of BCnEnc.Net/Shared/Colors.cs: the packed
 * 5:6:5 colour, and the saturating operators of the 32-bit RGBA and 24-bit
 * RGB colours.
 *
 * C# structs have value semantics, so a property setter that rewrites the
 * packed word is modelled as a function returning the updated struct.
 */
module Colors {
  import opened Bits
  import IntOps
  import opened ByteHelper

  type ushort = x: nat | x < 0x1_0000

  const RED_MASK: int := 0xF800
  const RED_SHIFT: int := 11
  const GREEN_MASK: int := 0x07E0
  const GREEN_SHIFT: int := 5
  const BLUE_MASK: int := 0x1F

  /** MSB replication of a 5-bit value to 8 bits. */
  function Widen5(v: nat): (r: byte)
    requires v < 32
    ensures r / 8 == v && r % 8 == v / 4
    ensures v == 0 ==> r == 0
    ensures v == 31 ==> r == 255
  {
    v * 8 + v / 4
  }

  /** MSB replication of a 6-bit value to 8 bits. */
  function Widen6(v: nat): (r: byte)
    requires v < 64
    ensures r / 4 == v && r % 4 == v / 16
    ensures v == 0 ==> r == 0
    ensures v == 63 ==> r == 255
  {
    v * 4 + v / 16
  }

  /** Clamps value to 0..max, as the RawR/RawG/RawB setters do. */
  function ClampTo(value: int, max: nat): (r: nat)
    ensures r <= max
    ensures 0 <= value <= max ==> r == value
    ensures value < 0 ==> r == 0
    ensures value > max ==> r == max
  {
    var v := if value > max then max else value;
    if v < 0 then 0 else v
  }

  /** A colour packed as red in bits 11-15, green in bits 5-10 and blue in bits 0-4. */
  datatype ColorRgb565 = ColorRgb565(data: ushort)
  {
    function Equals(other: ColorRgb565): (r: bool)
      ensures r <==> this == other
    {
      data == other.data
    }

    function GetHashCode(): int
    {
      data
    }

    function R(): byte
    {
      var r5 := IntOps.Shr(IntOps.And(data, RED_MASK), RED_SHIFT);
      IntOps.ToByte(IntOps.Or(IntOps.Shl(r5, 3), IntOps.Shr(r5, 2)))
    }

    function WithR(value: byte): ColorRgb565
    {
      var r5 := IntOps.Shr(value, 3);
      var d := IntOps.ToUshort(IntOps.And(data, IntOps.Not(RED_MASK)));
      ColorRgb565(IntOps.ToUshort(IntOps.Or(d, IntOps.Shl(r5, RED_SHIFT))))
    }

    function G(): byte
    {
      var g6 := IntOps.Shr(IntOps.And(data, GREEN_MASK), GREEN_SHIFT);
      IntOps.ToByte(IntOps.Or(IntOps.Shl(g6, 2), IntOps.Shr(g6, 4)))
    }

    function WithG(value: byte): ColorRgb565
    {
      var g6 := IntOps.Shr(value, 2);
      var d := IntOps.ToUshort(IntOps.And(data, IntOps.Not(GREEN_MASK)));
      ColorRgb565(IntOps.ToUshort(IntOps.Or(d, IntOps.Shl(g6, GREEN_SHIFT))))
    }

    function B(): byte
    {
      var b5 := IntOps.And(data, BLUE_MASK);
      IntOps.ToByte(IntOps.Or(IntOps.Shl(b5, 3), IntOps.Shr(b5, 2)))
    }

    function WithB(value: byte): ColorRgb565
    {
      var b5 := IntOps.Shr(value, 3);
      var d := IntOps.ToUshort(IntOps.And(data, IntOps.Not(BLUE_MASK)));
      ColorRgb565(IntOps.ToUshort(IntOps.Or(d, b5)))
    }

    function RawR(): int
    {
      IntOps.Shr(IntOps.And(data, RED_MASK), RED_SHIFT)
    }

    function WithRawR(value: int): ColorRgb565
    {
      var v := ClampTo(value, 31);
      var d := IntOps.ToUshort(IntOps.And(data, IntOps.Not(RED_MASK)));
      ColorRgb565(IntOps.ToUshort(IntOps.Or(d, IntOps.Shl(v, RED_SHIFT))))
    }

    function RawG(): int
    {
      IntOps.Shr(IntOps.And(data, GREEN_MASK), GREEN_SHIFT)
    }

    function WithRawG(value: int): ColorRgb565
    {
      var v := ClampTo(value, 63);
      var d := IntOps.ToUshort(IntOps.And(data, IntOps.Not(GREEN_MASK)));
      ColorRgb565(IntOps.ToUshort(IntOps.Or(d, IntOps.Shl(v, GREEN_SHIFT))))
    }

    function RawB(): int
    {
      IntOps.And(data, BLUE_MASK)
    }

    function WithRawB(value: int): ColorRgb565
    {
      var v := ClampTo(value, 31);
      var d := IntOps.ToUshort(IntOps.And(data, IntOps.Not(BLUE_MASK)));
      ColorRgb565(IntOps.ToUshort(IntOps.Or(d, v)))
    }

    function ToColorRgb24(): ColorRgb24
    {
      ColorRgb24(R(), G(), B())
    }
  }

  /**
   * new ColorRgb565(r, g, b): data = 0, then the R, G and B setters, which
   * leave r >> 3, g >> 2 and b >> 3 in the three fields (FromRgbIsSetters).
   */
  function FromRgb(r: byte, g: byte, b: byte): ColorRgb565
  {
    Packed(r / 8, g / 4, b / 8)
  }

  /** The colour whose red, green and blue fields hold r5, g6 and b5. */
  function Packed(r5: nat, g6: nat, b5: nat): ColorRgb565
    requires r5 < 32 && g6 < 64 && b5 < 32
  {
    ColorRgb565(r5 * 0x800 + g6 * 0x20 + b5)
  }

  // ---------------------------------------------------------------------
  // The packed word.
  // ---------------------------------------------------------------------

  lemma MasksAreFields()
    ensures RED_MASK == IntOps.FieldMask(11, 5)
    ensures GREEN_MASK == IntOps.FieldMask(5, 6)
    ensures BLUE_MASK == IntOps.FieldMask(0, 5)
    ensures Pow2(5) == 32 && Pow2(6) == 64 && Pow2(16) == 0x1_0000
  {
    Pow2Of16();
  }

  /** The raw getters read the red, green and blue fields of data. */
  lemma RawFields(c: ColorRgb565)
    ensures c.RawR() == IntOps.Field(c.data, 11, 5) < 32
    ensures c.RawG() == IntOps.Field(c.data, 5, 6) < 64
    ensures c.RawB() == IntOps.Field(c.data, 0, 5) < 32
  {
    MasksAreFields();
    GetterReads(c.data, RED_MASK, 11, 5);
    GetterReads(c.data, GREEN_MASK, 5, 6);
    BlueReads(c.data);
  }

  lemma GetterReads(data: ushort, mask: int, lo: nat, n: nat)
    requires lo + n <= 16 && mask == IntOps.FieldMask(lo, n)
    ensures IntOps.Shr(IntOps.And(data, mask), lo) == IntOps.Field(data, lo, n) < Pow2(n)
  {
    IntOps.Pow2Of31();
    Pow2Of16();
    Pow2Mono(16, 31);
    IntOps.GetFieldValue(data, lo, n);
  }

  lemma BlueReads(data: ushort)
    ensures IntOps.And(data, BLUE_MASK) == IntOps.Field(data, 0, 5) < 32
  {
    IntOps.Pow2Of31();
    Pow2Of16();
    Pow2Mono(16, 31);
    assert Pow2(5) == 32 && Pow2(0) == 1;
    IntOps.AndLowValue(data, 5);
  }

  /** (v << 3) | (v >> 2) on a 5-bit value, as in the R and B getters. */
  lemma Replicate5(v: nat)
    requires v < 32
    ensures IntOps.ToByte(IntOps.Or(IntOps.Shl(v, 3), IntOps.Shr(v, 2))) == v * 8 + v / 4
  {
    assert Pow2(2) == 4 && Pow2(3) == 8;
    IntOps.Pow2Of31();
    IntOps.ShlValue(v, 3);
    IntOps.ShrValue(v, 2);
    ReplicateOr(v * 8, v / 4, 3);
  }

  /** (v << 2) | (v >> 4) on a 6-bit value, as in the G getter. */
  lemma Replicate6(v: nat)
    requires v < 64
    ensures IntOps.ToByte(IntOps.Or(IntOps.Shl(v, 2), IntOps.Shr(v, 4))) == v * 4 + v / 16
  {
    assert Pow2(2) == 4 && Pow2(4) == 16;
    IntOps.Pow2Of31();
    IntOps.ShlValue(v, 2);
    IntOps.ShrValue(v, 4);
    ReplicateOr(v * 4, v / 16, 2);
  }

  lemma ReplicateOr(hi: nat, lo: nat, k: nat)
    requires hi % Pow2(k) == 0 && lo < Pow2(k) && hi + lo < 256
    ensures IntOps.ToByte(IntOps.Or(hi, lo)) == hi + lo
  {
    IntOps.OrDisjointValue(hi, lo, k);
    IntOps.ToByteSmall(hi + lo);
  }

  /** The R, G and B getters widen their field by MSB replication. */
  lemma GettersWiden(c: ColorRgb565)
    ensures 0 <= c.RawR() < 32 && c.R() == Widen5(c.RawR())
    ensures 0 <= c.RawG() < 64 && c.G() == Widen6(c.RawG())
    ensures 0 <= c.RawB() < 32 && c.B() == Widen5(c.RawB())
  {
    RawFields(c);
    Replicate5(c.RawR());
    Replicate6(c.RawG());
    Replicate5(c.RawB());
  }

  /** The setter idiom on data, with both (ushort) casts. */
  lemma SetterStores(data: ushort, mask: int, lo: nat, n: nat, v: nat, shifted: int)
    requires lo + n <= 16 && v < Pow2(n) && mask == IntOps.FieldMask(lo, n)
    requires shifted == IntOps.Shl(v, lo)
    ensures IntOps.ToUshort(IntOps.Or(IntOps.ToUshort(IntOps.And(data, IntOps.Not(mask))), shifted))
            == IntOps.SetField(data, lo, n, v)
  {
    Pow2Of16();
    IntOps.Pow2Of31();
    Pow2Mono(16, 31);
    var c := IntOps.Cleared(data, lo, n);
    var y := IntOps.SetField(data, lo, n, v);
    IntOps.ClearFieldValue(data, lo, n);
    IntOps.ClearedBelow(data, lo, n);
    UshortId(c);
    IntOps.SetFieldValue(data, lo, n, v);
    IntOps.SetFieldBelow(data, lo, n, v, 16);
    UshortId(y);
  }

  lemma UshortId(x: int)
    requires 0 <= x < 0x1_0000
    ensures IntOps.ToUshort(x) == x
  {
  }

  /** value >> k on a byte, as the setters compute it. */
  lemma ShrByte(value: byte, k: nat)
    requires k < 8
    ensures IntOps.Shr(value, k) == value / Pow2(k) < Pow2(8 - k)
  {
    IntOps.Pow2Of31();
    IntOps.ShrValue(value, k);
    ByteDivBelow(value, k);
  }

  lemma ByteDivBelow(value: byte, k: nat)
    requires k < 8
    ensures value / Pow2(k) < Pow2(8 - k)
  {
    Pow2Of16();
    Pow2Add(8 - k, k);
    DivBelowByte(value, Pow2(k), Pow2(8 - k));
  }

  lemma DivBelowByte(value: byte, p: nat, q: nat)
    requires p > 0 && p * q == 256
    ensures value / p < q
  {
    IntOps.DivBelowProduct(value, p, q);
  }

  /** Each setter stores its value in its own field of data. */
  lemma SetRStores(c: ColorRgb565, value: byte)
    ensures c.WithR(value).data == IntOps.SetField(c.data, 11, 5, value / 8)
  {
    MasksAreFields();
    assert Pow2(3) == 8;
    ShrByte(value, 3);
    SetterStores(c.data, RED_MASK, 11, 5, value / 8, IntOps.Shl(value / 8, 11));
  }

  lemma SetGStores(c: ColorRgb565, value: byte)
    ensures c.WithG(value).data == IntOps.SetField(c.data, 5, 6, value / 4)
  {
    MasksAreFields();
    assert Pow2(2) == 4;
    ShrByte(value, 2);
    SetterStores(c.data, GREEN_MASK, 5, 6, value / 4, IntOps.Shl(value / 4, 5));
  }

  lemma SetBStores(c: ColorRgb565, value: byte)
    ensures c.WithB(value).data == IntOps.SetField(c.data, 0, 5, value / 8)
  {
    MasksAreFields();
    assert Pow2(3) == 8;
    ShrByte(value, 3);
    IntOps.Pow2Of31();
    IntOps.ShlZero(value / 8);
    SetterStores(c.data, BLUE_MASK, 0, 5, value / 8, value / 8);
  }

  lemma SetRawRStores(c: ColorRgb565, raw: int)
    ensures c.WithRawR(raw).data == IntOps.SetField(c.data, 11, 5, ClampTo(raw, 31))
  {
    MasksAreFields();
    var r := ClampTo(raw, 31);
    SetterStores(c.data, RED_MASK, 11, 5, r, IntOps.Shl(r, 11));
  }

  lemma SetRawGStores(c: ColorRgb565, raw: int)
    ensures c.WithRawG(raw).data == IntOps.SetField(c.data, 5, 6, ClampTo(raw, 63))
  {
    MasksAreFields();
    var g := ClampTo(raw, 63);
    SetterStores(c.data, GREEN_MASK, 5, 6, g, IntOps.Shl(g, 5));
  }

  lemma SetRawBStores(c: ColorRgb565, raw: int)
    ensures c.WithRawB(raw).data == IntOps.SetField(c.data, 0, 5, ClampTo(raw, 31))
  {
    MasksAreFields();
    var b := ClampTo(raw, 31);
    IntOps.Pow2Of31();
    IntOps.ShlZero(b);
    SetterStores(c.data, BLUE_MASK, 0, 5, b, b);
  }

  /** A field set from the value just read leaves data unchanged. */
  lemma SetFieldSame(data: ushort, lo: nat, n: nat)
    requires lo + n <= 16
    ensures IntOps.SetField(data, lo, n, IntOps.Field(data, lo, n)) == data
  {
    Pow2Of16();
    var f := IntOps.Field(data, lo, n);
    var y := IntOps.SetField(data, lo, n, f);
    forall i: nat | i < 16
      ensures Bit(y, i) == Bit(data, i)
    {
      IntOps.SetFieldBit(data, lo, n, f, i);
      if lo <= i < lo + n {
        IntOps.FieldBit(data, lo, n, i - lo);
      }
    }
    IntOps.SetFieldBelow(data, lo, n, f, 16);
    BitExt(y, data, 16);
  }

  /** The three fields of data after one of them is set to v. */
  lemma FieldsOfSet(data: ushort, lo: nat, n: nat, v: nat)
    requires (lo, n) == (11, 5) || (lo, n) == (5, 6) || (lo, n) == (0, 5)
    requires v < Pow2(n)
    ensures IntOps.Field(IntOps.SetField(data, lo, n, v), 11, 5) == if lo == 11 then v else IntOps.Field(data, 11, 5)
    ensures IntOps.Field(IntOps.SetField(data, lo, n, v), 5, 6) == if lo == 5 then v else IntOps.Field(data, 5, 6)
    ensures IntOps.Field(IntOps.SetField(data, lo, n, v), 0, 5) == if lo == 0 then v else IntOps.Field(data, 0, 5)
  {
    IntOps.FieldSetField(data, lo, n, v);
    if lo != 11 { IntOps.FieldSetFieldDisjoint(data, lo, n, v, 11, 5); }
    if lo != 5 { IntOps.FieldSetFieldDisjoint(data, lo, n, v, 5, 6); }
    if lo != 0 { IntOps.FieldSetFieldDisjoint(data, lo, n, v, 0, 5); }
  }

  /**
   * The R, G and B setters store value >> 3 (G: value >> 2) and leave the
   * other two fields unchanged; reading back gives a byte with the same top
   * bits as value.
   */
  lemma SettersKeepOtherFields(c: ColorRgb565, value: byte)
    ensures c.WithR(value).RawR() == value / 8 && c.WithR(value).RawG() == c.RawG() && c.WithR(value).RawB() == c.RawB()
    ensures c.WithG(value).RawG() == value / 4 && c.WithG(value).RawR() == c.RawR() && c.WithG(value).RawB() == c.RawB()
    ensures c.WithB(value).RawB() == value / 8 && c.WithB(value).RawR() == c.RawR() && c.WithB(value).RawG() == c.RawG()
    ensures c.WithR(value).R() / 8 == value / 8
    ensures c.WithG(value).G() / 4 == value / 4
    ensures c.WithB(value).B() / 8 == value / 8
  {
    SetRKeeps(c, value);
    SetGKeeps(c, value);
    SetBKeeps(c, value);
  }

  lemma SetRKeeps(c: ColorRgb565, value: byte)
    ensures c.WithR(value).RawR() == value / 8 && c.WithR(value).RawG() == c.RawG() && c.WithR(value).RawB() == c.RawB()
    ensures c.WithR(value).R() / 8 == value / 8
  {
    SetRStores(c, value);
    RawFields(c);
    RawFields(c.WithR(value));
    FieldsOfSet(c.data, 11, 5, value / 8);
    GettersWiden(c.WithR(value));
  }

  lemma SetGKeeps(c: ColorRgb565, value: byte)
    ensures c.WithG(value).RawG() == value / 4 && c.WithG(value).RawR() == c.RawR() && c.WithG(value).RawB() == c.RawB()
    ensures c.WithG(value).G() / 4 == value / 4
  {
    SetGStores(c, value);
    RawFields(c);
    RawFields(c.WithG(value));
    FieldsOfSet(c.data, 5, 6, value / 4);
    GettersWiden(c.WithG(value));
  }

  lemma SetBKeeps(c: ColorRgb565, value: byte)
    ensures c.WithB(value).RawB() == value / 8 && c.WithB(value).RawR() == c.RawR() && c.WithB(value).RawG() == c.RawG()
    ensures c.WithB(value).B() / 8 == value / 8
  {
    SetBStores(c, value);
    RawFields(c);
    RawFields(c.WithB(value));
    FieldsOfSet(c.data, 0, 5, value / 8);
    GettersWiden(c.WithB(value));
  }

  /**
   * The RawR, RawG and RawB setters clamp to 0..31, 0..63 and 0..31, the
   * matching getter returns the clamped value, and the other fields are
   * unchanged.
   */
  lemma RawSettersClamp(c: ColorRgb565, value: int)
    ensures c.WithRawR(value).RawR() == ClampTo(value, 31) && c.WithRawR(value).RawG() == c.RawG() && c.WithRawR(value).RawB() == c.RawB()
    ensures c.WithRawG(value).RawG() == ClampTo(value, 63) && c.WithRawG(value).RawR() == c.RawR() && c.WithRawG(value).RawB() == c.RawB()
    ensures c.WithRawB(value).RawB() == ClampTo(value, 31) && c.WithRawB(value).RawR() == c.RawR() && c.WithRawB(value).RawG() == c.RawG()
  {
    SetRawRKeeps(c, value);
    SetRawGKeeps(c, value);
    SetRawBKeeps(c, value);
  }

  lemma SetRawRKeeps(c: ColorRgb565, value: int)
    ensures c.WithRawR(value).RawR() == ClampTo(value, 31) && c.WithRawR(value).RawG() == c.RawG() && c.WithRawR(value).RawB() == c.RawB()
  {
    SetRawRStores(c, value);
    RawFields(c);
    RawFields(c.WithRawR(value));
    FieldsOfSet(c.data, 11, 5, ClampTo(value, 31));
  }

  lemma SetRawGKeeps(c: ColorRgb565, value: int)
    ensures c.WithRawG(value).RawG() == ClampTo(value, 63) && c.WithRawG(value).RawR() == c.RawR() && c.WithRawG(value).RawB() == c.RawB()
  {
    SetRawGStores(c, value);
    RawFields(c);
    RawFields(c.WithRawG(value));
    FieldsOfSet(c.data, 5, 6, ClampTo(value, 63));
  }

  lemma SetRawBKeeps(c: ColorRgb565, value: int)
    ensures c.WithRawB(value).RawB() == ClampTo(value, 31) && c.WithRawB(value).RawR() == c.RawR() && c.WithRawB(value).RawG() == c.RawG()
  {
    SetRawBStores(c, value);
    RawFields(c);
    RawFields(c.WithRawB(value));
    FieldsOfSet(c.data, 0, 5, ClampTo(value, 31));
  }

  /** Setting a channel to the value its getter returns changes nothing. */
  lemma SettersRoundTrip(c: ColorRgb565)
    ensures c.WithR(c.R()) == c && c.WithG(c.G()) == c && c.WithB(c.B()) == c
    ensures c.WithRawR(c.RawR()) == c && c.WithRawG(c.RawG()) == c && c.WithRawB(c.RawB()) == c
  {
    WidenedSettersRoundTrip(c);
    RawSettersRoundTrip(c);
  }

  lemma WidenedSettersRoundTrip(c: ColorRgb565)
    ensures c.WithR(c.R()) == c && c.WithG(c.G()) == c && c.WithB(c.B()) == c
  {
    RawFields(c);
    GettersWiden(c);
    SetRSame(c);
    SetGSame(c);
    SetBSame(c);
  }

  lemma SetRSame(c: ColorRgb565)
    requires c.R() / 8 == IntOps.Field(c.data, 11, 5)
    ensures c.WithR(c.R()) == c
  {
    SetRStores(c, c.R());
    SetFieldSame(c.data, 11, 5);
  }

  lemma SetGSame(c: ColorRgb565)
    requires c.G() / 4 == IntOps.Field(c.data, 5, 6)
    ensures c.WithG(c.G()) == c
  {
    SetGStores(c, c.G());
    SetFieldSame(c.data, 5, 6);
  }

  lemma SetBSame(c: ColorRgb565)
    requires c.B() / 8 == IntOps.Field(c.data, 0, 5)
    ensures c.WithB(c.B()) == c
  {
    SetBStores(c, c.B());
    SetFieldSame(c.data, 0, 5);
  }

  lemma RawSettersRoundTrip(c: ColorRgb565)
    ensures c.WithRawR(c.RawR()) == c && c.WithRawG(c.RawG()) == c && c.WithRawB(c.RawB()) == c
  {
    RawFields(c);
    SetRawRStores(c, c.RawR());
    SetRawGStores(c, c.RawG());
    SetRawBStores(c, c.RawB());
    SetFieldSame(c.data, 11, 5);
    SetFieldSame(c.data, 5, 6);
    SetFieldSame(c.data, 0, 5);
  }

  /** new ColorRgb565(r, g, b) holds the top 5, 6 and 5 bits of r, g and b. */
  lemma FromRgbFields(r: byte, g: byte, b: byte)
    ensures FromRgb(r, g, b).RawR() == r / 8
    ensures FromRgb(r, g, b).RawG() == g / 4
    ensures FromRgb(r, g, b).RawB() == b / 8
  {
    FromRgbIsSetters(r, g, b);
    var c1 := ColorRgb565(0).WithR(r);
    var c2 := c1.WithG(g);
    SettersKeepOtherFields(ColorRgb565(0), r);
    SettersKeepOtherFields(c1, g);
    SettersKeepOtherFields(c2, b);
  }

  /** The constructor's packed word is what its three setter calls on data = 0 leave. */
  lemma FromRgbIsSetters(r: byte, g: byte, b: byte)
    ensures FromRgb(r, g, b) == ColorRgb565(0).WithR(r).WithG(g).WithB(b)
  {
    var c1 := ColorRgb565(0).WithR(r);
    var c2 := c1.WithG(g);
    SetRStores(ColorRgb565(0), r);
    SetGStores(c1, g);
    SetBStores(c2, b);
    PackedFields(r / 8, g / 4, b / 8);
  }

  /** Storing three fields, high to low, into a zero word adds them at their offsets. */
  lemma PackedFields(r5: nat, g6: nat, b5: nat)
    requires r5 < 32 && g6 < 64 && b5 < 32
    ensures IntOps.SetField(IntOps.SetField(IntOps.SetField(0, 11, 5, r5), 5, 6, g6), 0, 5, b5)
            == Packed(r5, g6, b5).data
  {
    assert Pow2(0) == 1 && Pow2(5) == 32 && Pow2(11) == 0x800 by {
      Pow2Of16();
    }
    var d1 := r5 * 0x800;
    var d2 := (r5 * 64 + g6) * 32;
    ModUnique(r5 * 0x800, 0x800, r5, 0);
    ModUnique(r5 * 0x800, 32, r5 * 64, 0);
    ModUnique(d2, 32, r5 * 64 + g6, 0);
    assert IntOps.SetField(0, 11, 5, r5) == d1;
    assert IntOps.SetField(d1, 5, 6, g6) == d2;
    assert IntOps.SetField(d2, 0, 5, b5) == d2 + b5;
  }

  /** new ColorRgb565() followed by the RawR, RawG and RawB setters packs the three clamped values. */
  lemma RawSettersOnZero(r: int, g: int, b: int)
    ensures ColorRgb565(0).WithRawR(r).WithRawG(g).WithRawB(b) == Packed(ClampTo(r, 31), ClampTo(g, 63), ClampTo(b, 31))
  {
    var c1 := ColorRgb565(0).WithRawR(r);
    var c2 := c1.WithRawG(g);
    SetRawRStores(ColorRgb565(0), r);
    SetRawGStores(c1, g);
    SetRawBStores(c2, b);
    PackedFields(ClampTo(r, 31), ClampTo(g, 63), ClampTo(b, 31));
  }

  /** The three fields of a packed colour are the values packed. */
  lemma PackedFieldValues(r5: nat, g6: nat, b5: nat)
    requires r5 < 32 && g6 < 64 && b5 < 32
    ensures IntOps.Field(Packed(r5, g6, b5).data, 11, 5) == r5
    ensures IntOps.Field(Packed(r5, g6, b5).data, 5, 6) == g6
    ensures IntOps.Field(Packed(r5, g6, b5).data, 0, 5) == b5
  {
    var d := Packed(r5, g6, b5).data;
    assert Pow2(0) == 1 && Pow2(5) == 32 && Pow2(6) == 64 && Pow2(11) == 0x800 by {
      Pow2Of16();
    }
    ModUnique(d, 0x800, r5, g6 * 32 + b5);
    ModUnique(r5, 32, 0, r5);
    ModUnique(d, 32, r5 * 64 + g6, b5);
    ModUnique(r5 * 64 + g6, 64, r5, g6);
  }

  /** The raw getters of a packed colour return the values packed. */
  lemma PackedRaw(r5: nat, g6: nat, b5: nat)
    requires r5 < 32 && g6 < 64 && b5 < 32
    ensures Packed(r5, g6, b5).RawR() == r5
    ensures Packed(r5, g6, b5).RawG() == g6
    ensures Packed(r5, g6, b5).RawB() == b5
  {
    PackedFieldValues(r5, g6, b5);
    RawFields(Packed(r5, g6, b5));
  }

  /** Packing a colour's own three fields gives the colour back: the fields cover all 16 bits. */
  lemma PackedOwnFields(c: ColorRgb565)
    ensures IntOps.Field(c.data, 11, 5) < 32 && IntOps.Field(c.data, 5, 6) < 64 && IntOps.Field(c.data, 0, 5) < 32
    ensures Packed(IntOps.Field(c.data, 11, 5), IntOps.Field(c.data, 5, 6), IntOps.Field(c.data, 0, 5)) == c
  {
    var d := c.data;
    assert Pow2(0) == 1 && Pow2(5) == 32 && Pow2(6) == 64 && Pow2(11) == 0x800 by {
      Pow2Of16();
    }
    var hi, mid, lo := d / 0x800, (d / 32) % 64, d % 32;
    assert d == hi * 0x800 + (d % 0x800);
    assert d % 0x800 == mid * 32 + lo;
    ModUnique(hi, 32, 0, hi);
  }

  // ---------------------------------------------------------------------
  // 32-bit RGBA and 24-bit RGB colours.
  // ---------------------------------------------------------------------

  datatype ColorRgba32 = ColorRgba32(r: byte, g: byte, b: byte, a: byte)
  {
    /** operator <<: component-wise left shift, clamped to a byte. */
    function ShiftLeft(right: int): ColorRgba32
    {
      ColorRgba32(ClampToByte(IntOps.Shl(r, right)), ClampToByte(IntOps.Shl(g, right)),
                  ClampToByte(IntOps.Shl(b, right)), ClampToByte(IntOps.Shl(a, right)))
    }

    /** operator |: component-wise bitwise or with an int, clamped to a byte. */
    function BitOr(right: int): ColorRgba32
    {
      ColorRgba32(ClampToByte(IntOps.Or(r, right)), ClampToByte(IntOps.Or(g, right)),
                  ClampToByte(IntOps.Or(b, right)), ClampToByte(IntOps.Or(a, right)))
    }
  }

  lemma ShlByte(x: byte, right: int)
    requires 0 <= right < 24
    ensures IntOps.Shl(x, right) == x * Pow2(right)
  {
    Pow2Of16();
    IntOps.ShiftedField(x, right, 8);
  }

  /**
   * For shift counts 0..23, << multiplies each component by 2^right and
   * saturates it at 255.
   */
  lemma ShiftLeftSaturates(c: ColorRgba32, right: int)
    requires 0 <= right < 24
    ensures c.ShiftLeft(right) == ColorRgba32(ClampToByte(c.r * Pow2(right)), ClampToByte(c.g * Pow2(right)),
                                              ClampToByte(c.b * Pow2(right)), ClampToByte(c.a * Pow2(right)))
  {
    ShlByte(c.r, right);
    ShlByte(c.g, right);
    ShlByte(c.b, right);
    ShlByte(c.a, right);
  }

  /**
   * From a shift of 24 on, the int shift overflows: 128 << 24 is negative in
   * C#, so the component is clamped to 0 rather than saturated at 255.
   */
  lemma ShiftLeftOverflows()
    ensures ColorRgba32(128, 128, 128, 128).ShiftLeft(24) == ColorRgba32(0, 0, 0, 0)
  {
    IntOps.Pow2Of31();
    Pow2Add(7, 24);
    assert Pow2(7) == 128;
    IntOps.ShlNegative(128, 24);
  }

  /** | with an int of 256 or more (and below 2^31) saturates every component. */
  lemma BitOrSaturates(c: ColorRgba32, right: int)
    requires 256 <= right < IntOps.TWO_31
    ensures c.BitOr(right) == ColorRgba32(255, 255, 255, 255)
  {
    IntOps.OrAtLeast(c.r, right);
    IntOps.OrAtLeast(c.g, right);
    IntOps.OrAtLeast(c.b, right);
    IntOps.OrAtLeast(c.a, right);
  }

  /** | with an int in 0..255 is the bitwise or of each component. */
  lemma BitOrByte(c: ColorRgba32, right: int)
    requires 0 <= right < 256
    ensures forall i: nat :: Bit(c.BitOr(right).r, i) == (Bit(c.r, i) || Bit(right, i))
    ensures forall i: nat :: Bit(c.BitOr(right).g, i) == (Bit(c.g, i) || Bit(right, i))
    ensures forall i: nat :: Bit(c.BitOr(right).b, i) == (Bit(c.b, i) || Bit(right, i))
    ensures forall i: nat :: Bit(c.BitOr(right).a, i) == (Bit(c.a, i) || Bit(right, i))
  {
    OrByte(c.r, right);
    OrByte(c.g, right);
    OrByte(c.b, right);
    OrByte(c.a, right);
  }

  lemma OrByte(x: byte, y: int)
    requires 0 <= y < 256
    ensures 0 <= IntOps.Or(x, y) < 256
    ensures forall i: nat :: Bit(IntOps.Or(x, y), i) == (Bit(x, i) || Bit(y, i))
  {
    Pow2Of16();
    IntOps.Pow2Of31();
    IntOps.OrBits(x, y);
    forall i: nat | 8 <= i
      ensures !Bit(IntOps.Or(x, y), i)
    {
      BitAbove(x, 8, i);
      BitAbove(y, 8, i);
    }
    BitsBelow(IntOps.Or(x, y), 8);
  }

  /** | with a p-bit on even components sets their lowest bit to it. */
  lemma BitOrPBit(c: ColorRgba32, p: int)
    requires 0 <= p <= 1
    requires c.r % 2 == 0 && c.g % 2 == 0 && c.b % 2 == 0 && c.a % 2 == 0
    ensures c.BitOr(p).r == c.r + p && c.BitOr(p).g == c.g + p
    ensures c.BitOr(p).b == c.b + p && c.BitOr(p).a == c.a + p
  {
    OrPBit(c.r, p);
    OrPBit(c.g, p);
    OrPBit(c.b, p);
    OrPBit(c.a, p);
  }

  lemma OrPBit(x: byte, p: int)
    requires 0 <= p <= 1 && x % 2 == 0
    ensures ClampToByte(IntOps.Or(x, p)) == x + p
  {
    IntOps.Pow2Of31();
    assert Pow2(1) == 2;
    IntOps.OrDisjointValue(x, p, 1);
  }

  datatype ColorRgb24 = ColorRgb24(r: byte, g: byte, b: byte)
  {
    /** operator +: channel-wise sum, saturated at 255. */
    function Plus(right: ColorRgb24): (s: ColorRgb24)
      ensures r + right.r <= 255 ==> s.r == r + right.r
      ensures g + right.g <= 255 ==> s.g == g + right.g
      ensures b + right.b <= 255 ==> s.b == b + right.b
      ensures r + right.r > 255 ==> s.r == 255
      ensures g + right.g > 255 ==> s.g == 255
      ensures b + right.b > 255 ==> s.b == 255
    {
      ColorRgb24(ClampToByte(r + right.r), ClampToByte(g + right.g), ClampToByte(b + right.b))
    }
  }

  /** + is commutative and never darkens either operand. */
  lemma PlusCommutes(x: ColorRgb24, y: ColorRgb24)
    ensures x.Plus(y) == y.Plus(x)
    ensures x.Plus(y).r >= x.r && x.Plus(y).g >= x.g && x.Plus(y).b >= x.b
  {
  }
}
