/**
 * C#'s operators on 32-bit int, on the values the codec feeds them.
 *
 * An int is held as its 32-bit two's-complement pattern while an operator
 * runs; shift counts are taken modulo 32 and results wrap, as in unchecked
 * C#.  The casts (byte) and (ushort) keep the low 8 and 16 bits.
 */
module IntOps {
  import opened Bits

  const TWO_31: int := 0x8000_0000
  const TWO_32: int := 0x1_0000_0000

  /** The two's-complement bits of x. */
  function IntBits(x: int): Uint
  {
    FromNat(x % TWO_32, 32)
  }

  /** The int a 32-bit pattern stands for. */
  function FromBits(w: Uint): (r: int)
    ensures -TWO_31 <= r < TWO_31
  {
    Pow2Of32();
    if ToNat(w) < TWO_31 then ToNat(w) else ToNat(w) - TWO_32
  }

  function Shl(x: int, count: int): int { FromBits(Bits.Shl(IntBits(x), count)) }
  function Shr(x: int, count: int): int { FromBits(Bits.Shr(IntBits(x), count)) }
  function Or(x: int, y: int): int { FromBits(Bits.Or(IntBits(x), IntBits(y))) }
  function And(x: int, y: int): int { FromBits(Bits.And(IntBits(x), IntBits(y))) }
  function Not(x: int): int { FromBits(Bits.Not(IntBits(x))) }

  /** (byte)x */
  function ToByte(x: int): byte { x % 256 }

  lemma ToByteSmall(x: int)
    requires 0 <= x < 256
    ensures ToByte(x) == x
  {
  }

  /** (ushort)x */
  function ToUshort(x: int): (r: nat)
    ensures r < 0x1_0000
  {
    x % 0x1_0000
  }

  // ---------------------------------------------------------------------

  lemma Pow2Of31()
    ensures Pow2(31) == TWO_31 && Pow2(32) == TWO_32
  {
    Pow2Of32();
  }

  /** The bits of a non-negative int below 2^31: its 32-bit word, sign bit clear. */
  lemma NonNegativeBits(x: int)
    requires 0 <= x < TWO_31
    ensures IntBits(x) == FromNat(x, 32)
    ensures ToNat(IntBits(x)) == x
    ensures !IntBits(x)[31]
  {
    Pow2Of31();
    ToNatFromNat(x, 32);
    BitAbove(x, 31, 31);
  }

  /** A pattern whose sign bit is clear stands for its (non-negative) number. */
  lemma FromBitsNonNegative(w: Uint)
    requires !w[31]
    ensures FromBits(w) == ToNat(w) < TWO_31
  {
    Pow2Of31();
    ToNatBelow(w, 31);
  }

  lemma MulAtLeast(x: nat, p: nat)
    requires p >= 1
    ensures x <= x * p
  {
  }

  /** x << n on a non-negative int whose result fits in 31 bits is x * 2^n. */
  lemma ShlValue(x: int, n: int)
    requires 0 <= x && 0 <= n < 32 && x * Pow2(n) < TWO_31
    ensures Shl(x, n) == x * Pow2(n)
  {
    Pow2Of31();
    var p := Pow2(n);
    var v := x * p;
    MulAtLeast(x, p);
    NonNegativeBits(x);
    var w := Bits.Shl(IntBits(x), n);
    ShlNatBits(x, n);
    assert ToNat(w) == v by {
      ModSmall(v, TWO_32);
    }
    assert !w[31] by {
      BitToNat(w, 31);
      BitAbove(v, 31, 31);
    }
    FromBitsNonNegative(w);
  }

  lemma ShlNatBits(x: nat, n: int)
    requires 0 <= n < 32 && x < TWO_31
    ensures ToNat(Bits.Shl(IntBits(x), n)) == (x * Pow2(n)) % Pow2(32)
  {
    NonNegativeBits(x);
    var b := IntBits(x);
    assert |b| == 32 && n % |b| == n;
    ToNatShl(b, n);
    assert ToNat(b) * Pow2(n % |b|) == x * Pow2(n);
  }

  /** x >> n on a non-negative int is x / 2^n. */
  lemma ShrValue(x: int, n: int)
    requires 0 <= x < TWO_31 && 0 <= n < 32
    ensures Shr(x, n) == x / Pow2(n)
  {
    NonNegativeBits(x);
    var b := IntBits(x);
    var w := Bits.Shr(b, n);
    assert n % |b| == n;
    ToNatShr(b, n);
    assert ToNat(w) == x / Pow2(n);
    assert !w[31];
    FromBitsNonNegative(w);
  }

  /** x & (2^n - 1) on a non-negative int is x % 2^n. */
  lemma AndLowValue(x: int, n: nat)
    requires 0 <= x < TWO_31 && n < 31
    ensures And(x, Pow2(n) - 1) == x % Pow2(n)
  {
    Pow2Below(n, 31);
    Pow2Of31();
    NonNegativeBits(x);
    NonNegativeBits(Pow2(n) - 1);
    var w := Bits.And(IntBits(x), IntBits(Pow2(n) - 1));
    ToNatAndLow(IntBits(x), n);
    assert !w[31];
    FromBitsNonNegative(w);
  }

  /** x | y on non-negative ints whose bits do not overlap is x + y. */
  lemma OrDisjointValue(x: int, y: int, k: nat)
    requires 0 <= x < TWO_31 && 0 <= y < TWO_31
    requires x % Pow2(k) == 0 && y < Pow2(k)
    ensures Or(x, y) == x + y
  {
    forall i | 0 <= i < 32
      ensures !(Bit(x, i) && Bit(y, i))
    {
      if i < k {
        BitMod(x, k, i);
        BitZero(i);
      } else {
        BitAbove(y, k, i);
      }
    }
    OrDisjointBits(x, y);
  }

  /** x | y on non-negative ints with no bit in common is x + y. */
  lemma OrDisjointBits(x: int, y: int)
    requires 0 <= x < TWO_31 && 0 <= y < TWO_31
    requires forall i :: 0 <= i < 32 ==> !(Bit(x, i) && Bit(y, i))
    ensures Or(x, y) == x + y
  {
    NonNegativeBits(x);
    NonNegativeBits(y);
    var wx, wy := IntBits(x), IntBits(y);
    forall i | 0 <= i < 32
      ensures !(wx[i] && wy[i])
    {
      assert !(Bit(x, i) && Bit(y, i));
    }
    ToNatOrDisjoint(wx, wy);
    FromBitsNonNegative(Bits.Or(wx, wy));
  }

  /** x | y on non-negative ints sets exactly the bits set in x or in y. */
  lemma OrBits(x: int, y: int)
    requires 0 <= x < TWO_31 && 0 <= y < TWO_31
    ensures 0 <= Or(x, y) < TWO_31
    ensures forall i: nat :: Bit(Or(x, y), i) == (Bit(x, i) || Bit(y, i))
  {
    NonNegativeBits(x);
    NonNegativeBits(y);
    var w := Bits.Or(IntBits(x), IntBits(y));
    FromBitsNonNegative(w);
    forall i: nat
      ensures Bit(Or(x, y), i) == (Bit(x, i) || Bit(y, i))
    {
      BitToNat(w, i);
      if i >= 32 {
        Pow2Of31();
        Pow2Mono(31, i);
        BitAbove(x, 31, i);
        BitAbove(y, 31, i);
      }
    }
  }

  /** x | y on non-negative ints is at least y. */
  lemma OrAtLeast(x: int, y: int)
    requires 0 <= x < TWO_31 && 0 <= y < TWO_31
    ensures y <= Or(x, y)
  {
    OrBits(x, y);
    BitsSuperset(Or(x, y), y);
  }

  /** The int a bit pattern stands for has that pattern. */
  lemma IntBitsFromBits(w: Uint)
    ensures IntBits(FromBits(w)) == w
  {
    Pow2Of31();
    FromNatToNat(w);
  }

  /** The field mask with bits lo .. lo + n - 1, as an int. */
  function FieldMask(lo: nat, n: nat): int
  {
    (Pow2(n) - 1) * Pow2(lo)
  }

  lemma FieldMaskBelow(lo: nat, n: nat)
    requires lo + n <= 31
    ensures 0 <= FieldMask(lo, n) < TWO_31
  {
    var p, q := Pow2(n), Pow2(lo);
    assert (p - 1) * q == p * q - q;
    Pow2Add(n, lo);
    Pow2Mono(lo + n, 31);
    Pow2Of31();
  }

  lemma FieldMaskBits(lo: nat, n: nat)
    requires lo + n <= 31
    ensures 0 <= FieldMask(lo, n) < TWO_31
    ensures forall i :: 0 <= i < 32 ==> IntBits(FieldMask(lo, n))[i] == (lo <= i < lo + n)
  {
    var m := FieldMask(lo, n);
    FieldMaskBelow(lo, n);
    NonNegativeBits(m);
    forall i | 0 <= i < 32
      ensures IntBits(m)[i] == (lo <= i < lo + n)
    {
      FieldMaskBit(lo, n, i);
    }
  }

  /** The bits of x & mask: those of x inside the field. */
  lemma AndFieldBits(x: int, lo: nat, n: nat)
    requires 0 <= x < TWO_31 && lo + n <= 31
    ensures var w := Bits.And(IntBits(x), IntBits(FieldMask(lo, n)));
      !w[31] && forall i :: 0 <= i < 32 ==> w[i] == (lo <= i < lo + n && Bit(x, i))
  {
    FieldMaskBits(lo, n);
    NonNegativeBits(x);
  }

  /** The bits of x & ~mask: those of x outside the field. */
  lemma ClearFieldBits(x: int, lo: nat, n: nat)
    requires 0 <= x < TWO_31 && lo + n <= 31
    ensures IntBits(Not(FieldMask(lo, n))) == Bits.Not(IntBits(FieldMask(lo, n)))
    ensures var w := Bits.And(IntBits(x), Bits.Not(IntBits(FieldMask(lo, n))));
      !w[31] && forall i :: 0 <= i < 32 ==> w[i] == (!(lo <= i < lo + n) && Bit(x, i))
  {
    FieldMaskBits(lo, n);
    NonNegativeBits(x);
    IntBitsFromBits(Bits.Not(IntBits(FieldMask(lo, n))));
  }

  /** A number whose bits are those of x from lo up to lo + n, shifted down by lo, is the field. */
  lemma FieldNumber(x: nat, y: nat, lo: nat, n: nat)
    requires x < Pow2(32) && y < Pow2(32)
    requires forall i :: 0 <= i < 32 ==> Bit(y, i) == (lo <= i < lo + n && Bit(x, i))
    ensures y / Pow2(lo) == (x / Pow2(lo)) % Pow2(n)
  {
    var qx, qy := DivNat(x, Pow2(lo)), DivNat(y, Pow2(lo));
    var f := qx % Pow2(n);
    forall i | 0 <= i < 32
      ensures Bit(qy, i) == Bit(f, i)
    {
      BitDiv(y, lo, i);
      BitMod(qx, n, i);
      BitDiv(x, lo, i);
      if i + lo >= 32 {
        BitAbove(y, 32, i + lo);
        BitAbove(x, 32, i + lo);
      }
    }
    DivBelow(y, Pow2(lo), Pow2(32));
    Pow2Mono(n, 32 + n);
    ModBelow(qx, Pow2(n), Pow2(32)) by {
      DivBelow(x, Pow2(lo), Pow2(32));
    }
    BitExt(qy, f, 32);
  }

  /** x with the field lo .. lo + n - 1 cleared, as a number. */
  function Cleared(x: nat, lo: nat, n: nat): nat
  {
    DivBounds(x, Pow2(lo + n));
    x - x % Pow2(lo + n) + x % Pow2(lo)
  }

  lemma ClearedSplit(x: nat, lo: nat, n: nat)
    ensures Cleared(x, lo, n) == (x / Pow2(lo + n)) * Pow2(lo + n) + x % Pow2(lo)
    ensures x % Pow2(lo) < Pow2(lo + n)
  {
    var p, q := Pow2(lo), Pow2(lo + n);
    Pow2Mono(lo, lo + n);
    assert x == (x / q) * q + x % q;
  }

  lemma ClearedBit(x: nat, lo: nat, n: nat, i: nat)
    ensures Bit(Cleared(x, lo, n), i) == (!(lo <= i < lo + n) && Bit(x, i))
  {
    var a: nat := DivNat(x, Pow2(lo + n));
    var b: nat := x % Pow2(lo);
    Pow2Mono(lo, lo + n);
    BitSplit(a, b, lo + n, i);
    ClearedSplit(x, lo, n);
    if i < lo + n {
      BitMod(x, lo, i);
    } else {
      BitDiv(x, lo + n, i - (lo + n));
    }
  }

  /** A number whose bits are those of x outside the field lo .. lo + n - 1. */
  lemma ClearedNumber(x: nat, y: nat, lo: nat, n: nat)
    requires x < Pow2(32) && y < Pow2(32)
    requires forall i :: 0 <= i < 32 ==> Bit(y, i) == (!(lo <= i < lo + n) && Bit(x, i))
    ensures y == Cleared(x, lo, n)
  {
    forall i | 0 <= i < 32
      ensures Bit(y, i) == Bit(Cleared(x, lo, n), i)
    {
      ClearedBit(x, lo, n, i);
    }
    ClearedBelow(x, lo, n);
    BitExt(y, Cleared(x, lo, n), 32);
  }

  lemma ClearedBelow(x: nat, lo: nat, n: nat)
    ensures Cleared(x, lo, n) <= x
  {
    var p := Pow2(lo + n);
    assert x == (x / p) * p + x % p;
    ModMono(x, lo, lo + n);
  }

  /** (x & mask) >> lo reads the n-bit field of x at lo. */
  lemma GetFieldValue(x: int, lo: nat, n: nat)
    requires 0 <= x < TWO_31 && lo + n <= 31
    ensures Shr(And(x, FieldMask(lo, n)), lo) == (x / Pow2(lo)) % Pow2(n)
  {
    AndFieldBits(x, lo, n);
    var w := Bits.And(IntBits(x), IntBits(FieldMask(lo, n)));
    FromBitsNonNegative(w);
    var y := ToNat(w);
    ShrValue(y, lo);
    forall i | 0 <= i < 32
      ensures Bit(y, i) == (lo <= i < lo + n && Bit(x, i))
    {
      BitToNat(w, i);
    }
    Pow2Of31();
    FieldNumber(x, y, lo, n);
  }

  /** x & mask keeps the n-bit field of x at lo in place: the field times 2^lo. */
  lemma AndFieldValue(x: int, lo: nat, n: nat)
    requires 0 <= x < TWO_31 && lo + n <= 31
    ensures And(x, FieldMask(lo, n)) == Field(x, lo, n) * Pow2(lo)
  {
    var y, p := And(x, FieldMask(lo, n)), Pow2(lo);
    AndFieldLow(x, lo, n);
    GetFieldValue(x, lo, n);
    ShrValue(y, lo);
    ExactQuotient(y, p, Field(x, lo, n));
  }

  lemma ExactQuotient(y: int, p: int, f: int)
    requires p > 0 && y % p == 0 && y / p == f
    ensures y == f * p
  {
  }

  /** x & mask has no bit below the field. */
  lemma AndFieldLow(x: int, lo: nat, n: nat)
    requires 0 <= x < TWO_31 && lo + n <= 31
    ensures 0 <= And(x, FieldMask(lo, n)) < TWO_31
    ensures And(x, FieldMask(lo, n)) % Pow2(lo) == 0
  {
    AndFieldBits(x, lo, n);
    var w := Bits.And(IntBits(x), IntBits(FieldMask(lo, n)));
    FromBitsNonNegative(w);
    var y := ToNat(w);
    forall i | 0 <= i < lo
      ensures Bit(y % Pow2(lo), i) == Bit(0, i)
    {
      BitMod(y, lo, i);
      BitToNat(w, i);
      BitZero(i);
    }
    BitExt(y % Pow2(lo), 0, lo);
  }

  /** x & ~mask clears the n-bit field of x at lo and keeps every other bit. */
  lemma ClearFieldValue(x: int, lo: nat, n: nat)
    requires 0 <= x < TWO_31 && lo + n <= 31
    ensures And(x, Not(FieldMask(lo, n))) == Cleared(x, lo, n)
  {
    ClearFieldBits(x, lo, n);
    var w := Bits.And(IntBits(x), Bits.Not(IntBits(FieldMask(lo, n))));
    FromBitsNonNegative(w);
    var y := ToNat(w);
    forall i | 0 <= i < 32
      ensures Bit(y, i) == (!(lo <= i < lo + n) && Bit(x, i))
    {
      BitToNat(w, i);
    }
    Pow2Of31();
    ClearedNumber(x, y, lo, n);
  }

  /** x % 2^a <= x % 2^b for a <= b. */
  lemma ModMono(x: nat, a: nat, b: nat)
    requires a <= b
    ensures x % Pow2(a) <= x % Pow2(b)
  {
    Pow2Add(a, b - a);
    var p, q := Pow2(a), Pow2(b - a);
    ModMulMono(x, p, q);
  }

  lemma ModMulMono(x: nat, p: nat, q: nat)
    requires p > 0 && q > 0
    ensures x % p <= x % (p * q)
  {
    var r := x % (p * q);
    var k := x / (p * q);
    assert x == (p * q) * k + r;
    assert x == p * (q * k) + r;
    ModAdd(r, p, q * k);
  }

  /** (p * m + r) % p == r % p */
  lemma ModAdd(r: nat, p: nat, m: nat)
    requires p > 0
    ensures (p * m + r) % p == r % p <= r
  {
    ModUnique(p * m + r, p, m + r / p, r % p);
  }

  // ---------------------------------------------------------------------
  // Bit fields of non-negative numbers.
  // ---------------------------------------------------------------------

  /** The n-bit field of x at lo. */
  function Field(x: nat, lo: nat, n: nat): nat
  {
    (x / Pow2(lo)) % Pow2(n)
  }

  /** x with its n-bit field at lo replaced by v. */
  function SetField(x: nat, lo: nat, n: nat, v: nat): nat
  {
    Cleared(x, lo, n) + v * Pow2(lo)
  }

  lemma FieldBit(x: nat, lo: nat, n: nat, i: nat)
    ensures Bit(Field(x, lo, n), i) == (i < n && Bit(x, lo + i))
  {
    var y := DivNat(x, Pow2(lo));
    BitMod(y, n, i);
    BitDiv(x, lo, i);
    assert Bit(y, i) == Bit(x, lo + i);
  }

  lemma SetFieldBit(x: nat, lo: nat, n: nat, v: nat, i: nat)
    requires v < Pow2(n)
    ensures Bit(SetField(x, lo, n, v), i) == if lo <= i < lo + n then Bit(v, i - lo) else Bit(x, i)
  {
    var a := DivNat(x, Pow2(lo + n));
    SetFieldSplit(x, lo, n, v);
    BitSplit(a * Pow2(n) + v, x % Pow2(lo), lo, i);
    if i < lo {
      BitMod(x, lo, i);
    } else {
      BitSplit(a, v, n, i - lo);
      if i >= lo + n {
        BitDiv(x, lo + n, i - lo - n);
      }
    }
  }

  /** SetField(x, lo, n, v) as (high part, v, low part). */
  lemma SetFieldSplit(x: nat, lo: nat, n: nat, v: nat)
    ensures SetField(x, lo, n, v) == (DivNat(x, Pow2(lo + n)) * Pow2(n) + v) * Pow2(lo) + x % Pow2(lo)
    ensures x % Pow2(lo) < Pow2(lo)
  {
    var p, k := Pow2(lo), Pow2(n);
    var a := DivNat(x, Pow2(lo + n));
    Pow2Add(lo, n);
    ClearedSplit(x, lo, n);
    MulRotate(a, p, k);
    assert (a * k + v) * p == p * (a * k) + v * p;
  }

  lemma ClearedDiv(x: nat, lo: nat, n: nat)
    ensures Cleared(x, lo, n) % Pow2(lo) == x % Pow2(lo)
    ensures Cleared(x, lo, n) / Pow2(lo) == DivNat(x, Pow2(lo + n)) * Pow2(n)
  {
    var p, k := Pow2(lo), Pow2(n);
    var a := DivNat(x, Pow2(lo + n));
    var r := x % p;
    var c := Cleared(x, lo, n);
    Pow2Add(lo, n);
    ClearedSplit(x, lo, n);
    MulRotate(a, p, k);
    assert c == p * (a * k) + r;
    ModUnique(c, p, a * k, r);
  }

  lemma MulRotate(a: int, p: int, k: int)
    ensures a * (p * k) == p * (a * k)
  {
  }

  /** Reading back a field just set gives the value. */
  lemma FieldSetField(x: nat, lo: nat, n: nat, v: nat)
    requires v < Pow2(n)
    ensures Field(SetField(x, lo, n, v), lo, n) == v
  {
    var y := SetField(x, lo, n, v);
    forall i | 0 <= i < n
      ensures Bit(Field(y, lo, n), i) == Bit(v, i)
    {
      FieldBit(y, lo, n, i);
      SetFieldBit(x, lo, n, v, lo + i);
    }
    assert Field(y, lo, n) < Pow2(n);
    BitExt(Field(y, lo, n), v, n);
  }

  /** Setting a field leaves a disjoint field unchanged. */
  lemma FieldSetFieldDisjoint(x: nat, lo: nat, n: nat, v: nat, lo2: nat, n2: nat)
    requires v < Pow2(n)
    requires lo + n <= lo2 || lo2 + n2 <= lo
    ensures Field(SetField(x, lo, n, v), lo2, n2) == Field(x, lo2, n2)
  {
    var y := SetField(x, lo, n, v);
    forall i | 0 <= i < n2
      ensures Bit(Field(y, lo2, n2), i) == Bit(Field(x, lo2, n2), i)
    {
      FieldBit(y, lo2, n2, i);
      FieldBit(x, lo2, n2, i);
      SetFieldBit(x, lo, n, v, lo2 + i);
    }
    BitExt(Field(y, lo2, n2), Field(x, lo2, n2), n2);
  }

  /**
   * The setter idiom x = (x & ~mask) | (v << lo), with mask the n-bit field
   * at lo, stores v in that field.
   */
  lemma SetFieldValue(x: int, lo: nat, n: nat, v: int)
    requires 0 <= x < TWO_31 && lo + n <= 31 && 0 <= v < Pow2(n)
    ensures Or(And(x, Not(FieldMask(lo, n))), Shl(v, lo)) == SetField(x, lo, n, v)
    ensures SetField(x, lo, n, v) < TWO_31
  {
    ClearFieldValue(x, lo, n);
    ClearedBelow(x, lo, n);
    ShiftedField(v, lo, n);
    var c: nat, s: nat := Cleared(x, lo, n), v * Pow2(lo);
    ClearedShiftedDisjoint(x, lo, n, v, c, s);
    Pow2Of31();
    SetFieldBelow(x, lo, n, v, 31);
  }

  lemma ShiftedField(v: nat, lo: nat, n: nat)
    requires lo + n <= 31 && v < Pow2(n)
    ensures 0 <= v * Pow2(lo) < TWO_31 && Shl(v, lo) == v * Pow2(lo)
  {
    var p, q := Pow2(lo), Pow2(n);
    Pow2Add(lo, n);
    ShiftedBelow(v, p, q, Pow2(lo + n));
    Pow2Mono(lo + n, 31);
    Pow2Of31();
    ShlValue(v, lo);
  }

  lemma ShiftedBelow(v: nat, p: nat, q: nat, r: nat)
    requires v < q && p > 0 && r == p * q
    ensures 0 <= v * p < r
  {
    MulLeft(p, v, q);
  }

  lemma ClearedShiftedDisjoint(x: nat, lo: nat, n: nat, v: nat, c: nat, s: nat)
    requires v < Pow2(n) && c == Cleared(x, lo, n) && s == v * Pow2(lo)
    requires c < TWO_31 && s < TWO_31
    ensures Or(c, s) == c + s
  {
    forall i | 0 <= i < 32
      ensures !(Bit(c, i) && Bit(s, i))
    {
      ClearedBit(x, lo, n, i);
      BitMul(v, lo, i);
      if lo + n <= i {
        BitAbove(v, n, i - lo);
      }
    }
    OrDisjointBits(c, s);
  }

  /** Setting a field inside the low w bits of a number below 2^w keeps it below 2^w. */
  lemma SetFieldBelow(x: nat, lo: nat, n: nat, v: nat, w: nat)
    requires lo + n <= w && x < Pow2(w) && v < Pow2(n)
    ensures SetField(x, lo, n, v) < Pow2(w)
  {
    var y := SetField(x, lo, n, v);
    forall i: nat | w <= i
      ensures !Bit(y, i)
    {
      SetFieldBit(x, lo, n, v, i);
      BitAbove(x, w, i);
    }
    BitsBelow(y, w);
  }

  lemma DivBelowProduct(v: nat, p: nat, q: nat)
    requires p > 0 && v < p * q
    ensures v / p < q
  {
    var d := v / p;
    assert v == p * d + v % p;
    if q < d {
      MulLeft(p, q, d);
    }
  }

  lemma MulPow2Mod(v: nat, k: nat)
    ensures (v * Pow2(k)) % Pow2(k) == 0
  {
    ModUnique(v * Pow2(k), Pow2(k), v, 0);
  }

  /** x << n on a non-negative int is negative when the product wraps into the sign bit. */
  lemma ShlNegative(x: int, n: int)
    requires 0 <= x < TWO_31 && 0 <= n < 32
    requires (x * Pow2(n)) % TWO_32 >= TWO_31
    ensures Shl(x, n) < 0
  {
    Pow2Of31();
    ShlNatBits(x, n);
  }

  lemma ShlZero(x: int)
    requires 0 <= x < TWO_31
    ensures Shl(x, 0) == x
  {
    assert Pow2(0) == 1;
    ShlValue(x, 0);
  }
}
