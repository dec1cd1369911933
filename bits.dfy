/**
 * Unsigned machine words.
 *
 * A C# ulong (uint) is modelled as the sequence of its 64 (32) bits, least
 * significant bit first.  The shift and bitwise operators act on that
 * sequence exactly as C# defines them on the number: a shift count is taken
 * modulo the word width, bits shifted out are lost, and subtraction wraps
 * around modulo 2^width.  ToNat and FromNat convert between a word and the
 * number it denotes.
 */
module Bits {

  type byte = x: nat | x < 256

  type Word = seq<bool>
  type Ulong = w: Word | |w| == 64 witness seq(64, i => false)
  type Uint = w: Word | |w| == 32 witness seq(32, i => false)

  /** 2 to the power n. */
  function Pow2(n: nat): (r: nat)
    ensures r >= 1
  {
    if n == 0 then 1 else 2 * Pow2(n - 1)
  }

  /** Quotient and remainder of a natural number by a positive one are at most the number. */
  lemma DivBounds(x: nat, d: nat)
    requires d > 0
    ensures 0 <= x / d <= x && 0 <= x % d <= x
  {
    var q, r := x / d, x % d;
    assert x == d * q + r && 0 <= r < d;
    assert q >= 0 by {
      if q < 0 {
        MulLeft(d, q, 0);
      }
    }
    assert d * q == q + (d - 1) * q;
    MulNonNegative(d - 1, q);
  }

  lemma MulNonNegative(a: int, b: int)
    requires a >= 0 && b >= 0
    ensures a * b >= 0
  {
  }

  /** x / d for a positive d, as a natural number. */
  function DivNat(x: nat, d: nat): (r: nat)
    requires d > 0
    ensures r == x / d
  {
    DivBounds(x, d);
    x / d
  }

  /** Bit k of the number x; bit 0 is the least significant. */
  predicate Bit(x: nat, k: nat)
  {
    if k == 0 then x % 2 == 1 else Bit(x / 2, k - 1)
  }

  /** The number a word denotes. */
  function ToNat(w: Word): (r: nat)
    ensures r < Pow2(|w|)
  {
    if |w| == 0 then 0 else (if w[0] then 1 else 0) + 2 * ToNat(w[1..])
  }

  /** The width-bit word holding the low width bits of x. */
  function FromNat(x: nat, width: nat): (w: Word)
    ensures |w| == width
    ensures forall i :: 0 <= i < width ==> w[i] == Bit(x, i)
  {
    seq(width, i requires 0 <= i < width => Bit(x, i))
  }

  // ---------------------------------------------------------------------
  // C#'s operators on unsigned words of one width.
  // ---------------------------------------------------------------------

  /** x << count: the count is taken modulo the width. */
  function Shl(x: Word, count: int): (r: Word)
    requires |x| > 0
    ensures |r| == |x|
  {
    var c := count % |x|;
    seq(|x|, i requires 0 <= i < |x| => c <= i && x[i - c])
  }

  /** x >> count: the count is taken modulo the width. */
  function Shr(x: Word, count: int): (r: Word)
    requires |x| > 0
    ensures |r| == |x|
  {
    var c := count % |x|;
    seq(|x|, i requires 0 <= i < |x| => i + c < |x| && x[i + c])
  }

  function And(x: Word, y: Word): (r: Word)
    requires |x| == |y|
    ensures |r| == |x|
  {
    seq(|x|, i requires 0 <= i < |x| => x[i] && y[i])
  }

  function Or(x: Word, y: Word): (r: Word)
    requires |x| == |y|
    ensures |r| == |x|
  {
    seq(|x|, i requires 0 <= i < |x| => x[i] || y[i])
  }

  function Not(x: Word): (r: Word)
    ensures |r| == |x|
  {
    seq(|x|, i requires 0 <= i < |x| => !x[i])
  }

  /** x - y, unchecked: the difference wraps around modulo 2^width. */
  function Sub(x: Word, y: Word): (r: Word)
    requires |x| == |y|
    ensures |r| == |x|
  {
    FromNat((ToNat(x) - ToNat(y)) % Pow2(|x|), |x|)
  }

  // ---------------------------------------------------------------------
  // Facts about numbers and their bits.
  // ---------------------------------------------------------------------

  lemma {:induction false} BitZero(k: nat)
    ensures !Bit(0, k)
  {
    if k > 0 {
      BitZero(k - 1);
    }
  }

  /** A number below 2^w has no bit at or above w. */
  lemma {:induction false} BitAbove(x: nat, w: nat, k: nat)
    requires x < Pow2(w) && w <= k
    ensures !Bit(x, k)
    decreases w
  {
    if w == 0 {
      BitZero(k);
    } else {
      BitAbove(x / 2, w - 1, k - 1);
    }
  }

  /** 2^n has bit n and no other. */
  lemma {:induction false} BitPow2(n: nat, k: nat)
    ensures Bit(Pow2(n), k) == (k == n)
    decreases n
  {
    if n == 0 {
      if k > 0 {
        BitZero(k - 1);
      }
    } else if k > 0 {
      assert Pow2(n) / 2 == Pow2(n - 1);
      BitPow2(n - 1, k - 1);
    }
  }

  /** 2^n - 1 has exactly the bits 0..n-1. */
  lemma {:induction false} BitOnes(n: nat, k: nat)
    ensures Bit(Pow2(n) - 1, k) == (k < n)
    decreases n
  {
    if n == 0 {
      BitZero(k);
    } else if k > 0 {
      assert (Pow2(n) - 1) / 2 == Pow2(n - 1) - 1;
      BitOnes(n - 1, k - 1);
    }
  }

  lemma {:induction false} Pow2Mono(m: nat, n: nat)
    requires m <= n
    ensures Pow2(m) <= Pow2(n)
    decreases n
  {
    if m < n {
      Pow2Mono(m, n - 1);
    }
  }

  lemma {:induction false} Pow2Add(a: nat, b: nat)
    ensures Pow2(a + b) == Pow2(a) * Pow2(b)
    decreases a
  {
    if a > 0 {
      Pow2Add(a - 1, b);
    }
  }

  lemma Pow2Of16()
    ensures Pow2(8) == 256 && Pow2(16) == 0x1_0000
  {
    Pow2Add(8, 8);
  }

  lemma Pow2Of32()
    ensures Pow2(32) == 0x1_0000_0000
  {
    Pow2Of16();
    Pow2Add(16, 16);
  }

  lemma Pow2Of64()
    ensures Pow2(64) == 0x1_0000_0000_0000_0000
  {
    Pow2Of32();
    Pow2Add(32, 32);
  }

  // ---------------------------------------------------------------------
  // Words and numbers.
  // ---------------------------------------------------------------------

  /** Bit k of the number a word denotes is the word's element k. */
  lemma {:induction false} BitToNat(w: Word, k: nat)
    ensures Bit(ToNat(w), k) == (k < |w| && w[k])
    decreases |w|
  {
    if |w| == 0 {
      BitZero(k);
    } else {
      var b := if w[0] then 1 else 0;
      assert ToNat(w) / 2 == ToNat(w[1..]);
      assert ToNat(w) % 2 == b;
      if k > 0 {
        BitToNat(w[1..], k - 1);
      }
    }
  }

  /** Two numbers below 2^w with the same bits below w are equal. */
  lemma {:induction false} BitExt(x: nat, y: nat, w: nat)
    requires x < Pow2(w) && y < Pow2(w)
    requires forall k :: 0 <= k < w ==> Bit(x, k) == Bit(y, k)
    ensures x == y
    decreases w
  {
    if w > 0 {
      assert Bit(x, 0) == Bit(y, 0);
      forall k | 0 <= k < w - 1
        ensures Bit(x / 2, k) == Bit(y / 2, k)
      {
        assert Bit(x, k + 1) == Bit(y, k + 1);
      }
      BitExt(x / 2, y / 2, w - 1);
    }
  }

  /** A number with no bit set at or above w is below 2^w. */
  lemma {:induction false} BitsBelow(x: nat, w: nat)
    requires forall k :: w <= k ==> !Bit(x, k)
    ensures x < Pow2(w)
    decreases x
  {
    if x > 0 {
      var w' := if w > 0 then w - 1 else 0;
      forall k | w' <= k
        ensures !Bit(x / 2, k)
      {
        assert !Bit(x, k + 1);
      }
      BitsBelow(x / 2, w');
      assert !Bit(x, w);
    }
  }

  /** A number whose set bits include those of y is at least y. */
  lemma {:induction false} BitsSuperset(x: nat, y: nat)
    requires forall k :: Bit(y, k) ==> Bit(x, k)
    ensures y <= x
    decreases y
  {
    if y > 0 {
      forall k: nat | Bit(y / 2, k)
        ensures Bit(x / 2, k)
      {
        assert Bit(y, k + 1);
      }
      BitsSuperset(x / 2, y / 2);
      assert Bit(y, 0) ==> Bit(x, 0);
    }
  }

  /** Converting a number that fits to a word and back gives the number. */
  lemma ToNatFromNat(x: nat, width: nat)
    requires x < Pow2(width)
    ensures ToNat(FromNat(x, width)) == x
  {
    var w := FromNat(x, width);
    forall k | 0 <= k < width
      ensures Bit(ToNat(w), k) == Bit(x, k)
    {
      BitToNat(w, k);
    }
    BitExt(ToNat(w), x, width);
  }

  /** Converting a word to its number and back gives the word. */
  lemma FromNatToNat(w: Word)
    ensures FromNat(ToNat(w), |w|) == w
  {
    forall k | 0 <= k < |w|
      ensures FromNat(ToNat(w), |w|)[k] == w[k]
    {
      BitToNat(w, k);
    }
  }

  /** A word whose elements at and above n are clear denotes a number below 2^n. */
  lemma ToNatBelow(w: Word, n: nat)
    requires n <= |w|
    requires forall k :: n <= k < |w| ==> !w[k]
    ensures ToNat(w) < Pow2(n)
  {
    var x := ToNat(w);
    var y := ToNat(w[..n]);
    forall k | 0 <= k < |w|
      ensures Bit(x, k) == Bit(y, k)
    {
      BitToNat(w, k);
      BitToNat(w[..n], k);
    }
    Pow2Mono(n, |w|);
    BitExt(x, y, |w|);
  }

  // ---------------------------------------------------------------------
  // Masks.
  // ---------------------------------------------------------------------

  /** 1 << n sets exactly bit n when n is below the width. */
  lemma ShlOne(width: nat, n: int)
    requires 0 <= n < width
    ensures Shl(FromNat(1, width), n) == FromNat(Pow2(n), width)
  {
    assert n % width == n;
    forall i | 0 <= i < width
      ensures Shl(FromNat(1, width), n)[i] == Bit(Pow2(n), i)
    {
      BitPow2(n, i);
      if n <= i {
        BitPow2(0, i - n);
      }
    }
  }

  lemma ModSmall(a: nat, m: nat)
    requires a < m
    ensures a % m == a
  {
  }

  lemma Pow2Below(n: nat, width: nat)
    requires n < width
    ensures Pow2(n) < Pow2(width)
  {
    Pow2Mono(n, width - 1);
  }

  /** (1 << n) - 1 is 2^n - 1 when n is below the width. */
  lemma LowMask(width: nat, n: int)
    requires 0 <= n < width
    ensures Sub(Shl(FromNat(1, width), n), FromNat(1, width)) == FromNat(Pow2(n) - 1, width)
  {
    ShlOne(width, n);
    Pow2Below(n, width);
    Pow2Below(0, width);
    ToNatFromNat(Pow2(n), width);
    ToNatFromNat(1, width);
    ModSmall(Pow2(n) - 1, Pow2(width));
  }

  /** 2^n - 1 as a word sets exactly the bits below n. */
  lemma LowOnes(width: nat, n: nat, i: nat)
    requires i < width
    ensures FromNat(Pow2(n) - 1, width)[i] == (i < n)
  {
    BitOnes(n, i);
  }

  // ---------------------------------------------------------------------
  // Division by powers of two.
  // ---------------------------------------------------------------------

  lemma MulLeft(m: int, a: int, b: int)
    requires m > 0 && a < b
    ensures m * a + m <= m * b
  {
    var d := b - a - 1;
    assert m * b == m * a + m * d + m;
    assert m * d >= 0;
  }

  lemma ModUnique(v: int, m: int, a: int, c: int)
    requires m > 0 && v == m * a + c && 0 <= c < m
    ensures v % m == c && v / m == a
  {
    var q, r := v / m, v % m;
    assert v == m * q + r;
    if a < q {
      MulLeft(m, a, q);
    } else if q < a {
      MulLeft(m, q, a);
    }
  }

  lemma ModDouble(v: nat, p: nat)
    requires p > 0
    ensures v % (2 * p) == 2 * ((v / 2) % p) + v % 2
  {
    var q := v / 2;
    var a, b := q / p, q % p;
    assert v == (2 * p) * a + (2 * b + v % 2) by {
      assert q == p * a + b;
      assert v == 2 * q + v % 2;
    }
    ModUnique(v, 2 * p, a, 2 * b + v % 2);
  }

  /** The low n bits of v are the bits of v % 2^n. */
  lemma {:induction false} BitMod(v: nat, n: nat, k: nat)
    ensures Bit(v % Pow2(n), k) == (k < n && Bit(v, k))
    decreases n
  {
    if n == 0 {
      BitZero(k);
    } else {
      var p := Pow2(n - 1);
      var q := v / 2;
      ModDouble(v, p);
      if k > 0 {
        assert (v % Pow2(n)) / 2 == q % p;
        BitMod(q, n - 1, k - 1);
      }
    }
  }

  /** x / 2p == (x / 2) / p */
  lemma DivDouble(x: nat, p: nat)
    requires p > 0
    ensures x / (2 * p) == (x / 2) / p
  {
    var q := x / 2;
    var a, b := q / p, q % p;
    assert x == (2 * p) * a + (2 * b + x % 2) by {
      assert q == p * a + b;
      assert x == 2 * q + x % 2;
    }
    ModUnique(x, 2 * p, a, 2 * b + x % 2);
  }

  /** Bit i of x / 2^c is bit i + c of x. */
  lemma {:induction false} BitDiv(x: nat, c: nat, i: nat)
    ensures Bit(DivNat(x, Pow2(c)), i) == Bit(x, i + c)
    decreases c
  {
    if c > 0 {
      DivDouble(x, Pow2(c - 1));
      BitDiv(x / 2, c - 1, i);
    }
  }

  /** Bit i of x * 2^c is bit i - c of x, and clear below c. */
  lemma {:induction false} BitMul(x: nat, c: nat, i: nat)
    ensures Bit(x * Pow2(c), i) == (c <= i && Bit(x, i - c))
    decreases c
  {
    if c > 0 {
      var y := x * Pow2(c - 1);
      assert x * Pow2(c) == 2 * y;
      assert (2 * y) / 2 == y && (2 * y) % 2 == 0;
      if i > 0 {
        BitMul(x, c - 1, i - 1);
      }
    }
  }

  // ---------------------------------------------------------------------
  // The numbers denoted by the results of the word operators.
  // ---------------------------------------------------------------------

  /** x >> count is ToNat(x) / 2^(count % width). */
  lemma ToNatShr(x: Word, count: int)
    requires |x| > 0
    ensures ToNat(Shr(x, count)) == ToNat(x) / Pow2(count % |x|)
  {
    var c := count % |x|;
    var r := Shr(x, count);
    var q := DivNat(ToNat(x), Pow2(c));
    forall i | 0 <= i < |x|
      ensures Bit(ToNat(r), i) == Bit(q, i)
    {
      BitToNat(r, i);
      BitDiv(ToNat(x), c, i);
      BitToNat(x, i + c);
    }
    DivBelow(ToNat(x), Pow2(c), Pow2(|x|));
    BitExt(ToNat(r), q, |x|);
  }

  lemma DivBelow(x: nat, d: nat, m: nat)
    requires d > 0 && x < m
    ensures x / d < m
  {
    DivBounds(x, d);
  }

  /** x << count is ToNat(x) * 2^(count % width), wrapped modulo 2^width. */
  lemma ToNatShl(x: Word, count: int)
    requires |x| > 0
    ensures ToNat(Shl(x, count)) == (ToNat(x) * Pow2(count % |x|)) % Pow2(|x|)
  {
    var c := count % |x|;
    var r := Shl(x, count);
    var v := ToNat(x) * Pow2(c);
    forall i | 0 <= i < |x|
      ensures Bit(ToNat(r), i) == Bit(v % Pow2(|x|), i)
    {
      BitToNat(r, i);
      BitMod(v, |x|, i);
      BitMul(ToNat(x), c, i);
      if c <= i {
        BitToNat(x, i - c);
      }
    }
    BitExt(ToNat(r), v % Pow2(|x|), |x|);
  }

  /** x & (2^n - 1) is ToNat(x) % 2^n. */
  lemma ToNatAndLow(x: Word, n: nat)
    ensures ToNat(And(x, FromNat(Pow2(n) - 1, |x|))) == ToNat(x) % Pow2(n)
  {
    var r := And(x, FromNat(Pow2(n) - 1, |x|));
    forall i | 0 <= i < |x|
      ensures Bit(ToNat(r), i) == Bit(ToNat(x) % Pow2(n), i)
    {
      BitToNat(r, i);
      BitOnes(n, i);
      BitMod(ToNat(x), n, i);
      BitToNat(x, i);
    }
    ModBelow(ToNat(x), Pow2(n), Pow2(|x|));
    BitExt(ToNat(r), ToNat(x) % Pow2(n), |x|);
  }

  lemma ModBelow(x: nat, d: nat, m: nat)
    requires d > 0 && x < m
    ensures x % d < m
  {
  }

  /** The or of two words without common bits is the sum of their numbers. */
  lemma {:induction false} ToNatOrDisjoint(x: Word, y: Word)
    requires |x| == |y|
    requires forall i :: 0 <= i < |x| ==> !(x[i] && y[i])
    ensures ToNat(Or(x, y)) == ToNat(x) + ToNat(y)
    decreases |x|
  {
    if |x| > 0 {
      assert Or(x, y)[1..] == Or(x[1..], y[1..]);
      ToNatOrDisjoint(x[1..], y[1..]);
    }
  }

  /** The bits of a * 2^k + b, for b below 2^k: those of b below k and those of a above. */
  lemma {:induction false} BitSplit(a: nat, b: nat, k: nat, i: nat)
    requires b < Pow2(k)
    ensures Bit(a * Pow2(k) + b, i) == if i < k then Bit(b, i) else Bit(a, i - k)
    decreases k
  {
    if k > 0 {
      var x := a * Pow2(k) + b;
      var y := a * Pow2(k - 1) + b / 2;
      assert x == 2 * y + b % 2;
      assert x / 2 == y && x % 2 == b % 2;
      if i > 0 {
        BitSplit(a, b / 2, k - 1, i - 1);
      }
    }
  }

  /** The field mask (2^n - 1) * 2^lo has exactly the bits lo .. lo + n - 1. */
  lemma FieldMaskBit(lo: nat, n: nat, i: nat)
    ensures Bit((Pow2(n) - 1) * Pow2(lo), i) == (lo <= i < lo + n)
  {
    BitSplit(Pow2(n) - 1, 0, lo, i);
    if i < lo {
      BitZero(i);
    } else {
      BitOnes(n, i - lo);
    }
  }
}
