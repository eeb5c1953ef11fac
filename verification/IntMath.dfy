/// The bit arithmetic helpers: logarithms and powers of two around a value, and
/// powers by repeated squaring. A machine word is a number below 2^width; shifts
/// and masks are defined bit by bit.
module IntMath {
  import Base256

  function P2(k: nat): (p: nat)
    ensures p > 0
  {
    if k == 0 then 1 else 2 * P2(k - 1)
  }

  function Bit(x: nat, j: nat): bool {
    if j == 0 then x % 2 == 1 else Bit(x / 2, j - 1)
  }

  /** Shift right. */
  function Shr(x: nat, k: nat): nat {
    if k == 0 then x else Shr(x / 2, k - 1)
  }

  function Or(a: nat, b: nat): nat {
    if a == 0 then b
    else (if a % 2 == 1 || b % 2 == 1 then 1 else 0) + 2 * Or(a / 2, b / 2)
  }

  /** The bits from a up to b of a word: what a mask of these bits leaves. */
  function Field(x: nat, a: nat, b: nat): nat
    requires a <= b
  {
    Shr(x, a) % P2(b - a)
  }

  lemma AtZero(x: nat)
    ensures P2(0) == 1 && Shr(x, 0) == x
  {
  }

  lemma {:induction false} P2Mono(a: nat, b: nat)
    requires a < b
    ensures P2(a) < P2(b)
  {
    if a + 1 < b {
      P2Mono(a, b - 1);
    }
  }

  /** Shifting keeps the bracket: a power of two moves down with the value. */
  lemma {:induction false} ShrBracket(x: nat, k: nat, y: nat)
    ensures P2(y) <= Shr(x, k) <==> P2(y + k) <= x
  {
    if k > 0 {
      ShrBracket(x / 2, k - 1, y);
      assert P2(y + k) == 2 * P2(y + k - 1);
    }
  }

  lemma {:induction false} ShrShr(x: nat, a: nat, b: nat)
    ensures Shr(Shr(x, a), b) == Shr(x, a + b)
  {
    if a > 0 {
      ShrShr(x / 2, a - 1, b);
    }
  }

  /** A mask of the upper half of a word tells whether the word reaches beyond its lower half. */
  lemma UpperHalf(x: nat, half: nat)
    requires x < P2(2 * half)
    ensures Field(x, half, 2 * half) == Shr(x, half) < P2(half)
    ensures Shr(x, half) > 0 <==> P2(half) <= x
  {
    ShrBracket(x, half, half);
    ShrBracket(x, half, 0);
    SmallMod(Shr(x, half), P2(half));
  }

  lemma SmallMod(x: nat, d: nat)
    requires x < d
    ensures x % d == x
  {
  }

  // ------------------------------------------------------------ logarithms

  /** One step of the search: if a bit of the upper half is set, go on there, otherwise in the lower half. */
  method Narrow(x: nat, ux: nat, y: nat, half: nat) returns (ux': nat, y': nat)
    requires 0 < ux < P2(2 * half) && ux == Shr(x, y)
    ensures 0 < ux' < P2(half) && ux' == Shr(x, y')
  {
    UpperHalf(ux, half);
    ux', y' := ux, y;
    if Field(ux, half, 2 * half) != 0 {
      ShrShr(x, y, half);
      ux', y' := Shr(ux, half), y + half;
    }
  }

  /** The exponent of the greatest power of two that is not above x, for an integer type of 1, 2, 4 or 8 bytes. */
  method FloorLog2(x: nat, bytes: nat) returns (y: nat)
    requires bytes in {1, 2, 4, 8} && 0 < x < P2(8 * bytes)
    ensures P2(y) <= x < P2(y + 1)
  {
    hide P2, Shr;
    AtZero(x);
    var ux := x;
    y := 0;
    if bytes >= 8 { ux, y := Narrow(x, ux, y, 32); }
    if bytes >= 4 { ux, y := Narrow(x, ux, y, 16); }
    if bytes >= 2 { ux, y := Narrow(x, ux, y, 8); }
    ux, y := Narrow(x, ux, y, 4);
    ux, y := Narrow(x, ux, y, 2);
    ux, y := Narrow(x, ux, y, 1);
    ShrBracket(x, y, 0);
    ShrBracket(x, y, 1);
  }

  /** The exponent of the least power of two that is not below n. */
  ghost predicate LeastAbove(n: nat, y: nat) {
    n <= P2(y) && (y > 0 ==> P2(y - 1) < n)
  }

  method CeilLog2(n: nat, bytes: nat) returns (y: nat)
    requires bytes in {1, 2, 4, 8} && 0 < n < P2(8 * bytes)
    ensures LeastAbove(n, y)
  {
    if n == 1 {
      return 0;
    }
    var floor := FloorLog2(n - 1, bytes);
    y := floor + 1;
  }

  // ------------------------------------------------------------ the next power of two

  lemma {:induction false} BitOr(a: nat, b: nat, j: nat)
    ensures Bit(Or(a, b), j) == (Bit(a, j) || Bit(b, j))
    decreases j, a
  {
    if a == 0 {
      NoBits(j);
    } else {
      var low, high := if a % 2 == 1 || b % 2 == 1 then 1 else 0, Or(a / 2, b / 2);
      assert Or(a, b) / 2 == high && Or(a, b) % 2 == low;
      if j > 0 {
        BitOr(a / 2, b / 2, j - 1);
      }
    }
  }

  lemma {:induction false} NoBits(j: nat)
    ensures !Bit(0, j)
  {
    if j > 0 {
      NoBits(j - 1);
    }
  }

  lemma {:induction false} BitShr(x: nat, k: nat, j: nat)
    ensures Bit(Shr(x, k), j) == Bit(x, j + k)
  {
    if k > 0 {
      BitShr(x / 2, k - 1, j);
    }
  }

  /** The highest set bit. */
  lemma {:induction false} TopBit(v: nat, h: nat, j: nat)
    requires P2(h) <= v < P2(h + 1) && j >= h
    ensures Bit(v, j) <==> j == h
  {
    if h > 0 {
      TopBit(v / 2, h - 1, j - 1);
    } else if j > 0 {
      NoBits(j - 1);
    }
  }

  /** A number whose lowest n bits are set, and no other, is one less than a power of two. */
  lemma {:induction false} AllOnes(r: nat, n: nat)
    requires forall j: nat :: Bit(r, j) <==> j < n
    ensures r == P2(n) - 1
    decreases n
  {
    if n == 0 {
      if r > 0 {
        var h := SomeBit(r);
      }
    } else {
      assert Bit(r, 0);
      forall j: nat
        ensures Bit(r / 2, j) <==> j < n - 1
      {
        assert Bit(r, j + 1) <==> j + 1 < n;
      }
      AllOnes(r / 2, n - 1);
    }
  }

  lemma {:induction false} SomeBit(r: nat) returns (h: nat)
    requires r > 0
    ensures Bit(r, h) && P2(h) <= r < P2(h + 1)
  {
    if r == 1 {
      h := 0;
      assert P2(1) == 2;
    } else {
      var h' := SomeBit(r / 2);
      h := h' + 1;
      assert P2(h + 1) == 2 * P2(h);
    }
  }

  /** No bit from n up is set, and the `span` bits below n are. */
  ghost predicate Smeared(r: nat, n: nat, span: nat) {
    forall j: nat :: (j >= n ==> !Bit(r, j)) && (j < n <= j + span ==> Bit(r, j))
  }

  /** Or-ing a word with itself shifted by the span doubles the span. */
  method Smear(v: nat, span: nat, ghost n: nat) returns (r: nat)
    requires Smeared(v, n, span)
    ensures Smeared(r, n, 2 * span)
  {
    r := Or(v, Shr(v, span));
    forall j: nat
      ensures (j >= n ==> !Bit(r, j)) && (j < n <= j + 2 * span ==> Bit(r, j))
    {
      BitOr(v, Shr(v, span), j);
      BitShr(v, span, j);
      assert (j + span >= n ==> !Bit(v, j + span)) && (j + span < n <= j + span + span ==> Bit(v, j + span));
    }
  }

  /** A word has a number of bits, the highest of which is set. */
  lemma Bits(v: nat) returns (n: nat)
    ensures LeastAbove(v + 1, n) && Smeared(v, n, 1)
  {
    if v == 0 {
      n := 0;
      forall j: nat {
        NoBits(j);
      }
    } else {
      var h := SomeBit(v);
      n := h + 1;
      forall j: nat | j >= h
        ensures Bit(v, j) <==> j == h
      {
        TopBit(v, h, j);
      }
    }
  }

  lemma OneLeast(x: nat, y: nat, z: nat)
    requires LeastAbove(x, y) && LeastAbove(x, z)
    ensures y == z
  {
    if y < z - 1 {
      P2Mono(y, z - 1);
    } else if z < y - 1 {
      P2Mono(z, y - 1);
    }
  }

  lemma Fits(v: nat, n: nat, width: nat)
    requires LeastAbove(v + 1, n) && v < P2(width)
    ensures n <= width
  {
    if width < n - 1 {
      P2Mono(width, n - 1);
    }
  }

  /** The least power of two not below the value, modulo the width of the word: zero if it does not fit. */
  method NextPow2(value: nat, width: nat) returns (r: nat)
    requires width in {32, 64} && value < P2(width)
    ensures value == 0 ==> r == 1
    ensures forall y: nat :: 0 < value && LeastAbove(value, y) ==> r == P2(y) % P2(width)
  {
    hide P2, Smeared, LeastAbove;
    if value == 0 {
      return 1;
    }
    var v := value - 1;
    ghost var n := Bits(v);
    Fits(v, n, width);
    v := Smear(v, 1, n);
    v := Smear(v, 2, n);
    v := Smear(v, 4, n);
    v := Smear(v, 8, n);
    v := Smear(v, 16, n);
    if width == 64 {
      v := Smear(v, 32, n);
    }
    SmearedAll(v, n, width);
    r := (v + 1) % P2(width);
    forall y: nat | LeastAbove(value, y)
      ensures y == n
    {
      OneLeast(value, y, n);
    }
  }

  /** The two agree: the next power of two is 2 to the ceilLog2, exactly while that fits in the word. */
  method CeilPower(n: nat, width: nat) returns (p: nat, y: nat)
    requires width in {32, 64} && 0 < n < P2(width)
    ensures LeastAbove(n, y) && p == P2(y) % P2(width)
    ensures n <= P2(width - 1) ==> p == P2(y)
    ensures n > P2(width - 1) ==> p == 0
  {
    hide P2, LeastAbove;
    y := CeilLog2(n, width / 8);
    p := NextPow2(n, width);
    TopExponent(n, y, width);
    PowerModulo(y, width);
  }

  /** The exponent is the width itself only for values beyond the top power. */
  lemma TopExponent(n: nat, y: nat, width: nat)
    requires LeastAbove(n, y) && 0 < n < P2(width) && width > 0
    ensures if n <= P2(width - 1) then y < width else y == width
  {
    Fits(n - 1, y, width);
    if n <= P2(width - 1) {
      Fits(n - 1, y, width - 1);
    } else if y < width - 1 {
      P2Mono(y, width - 1);
    }
  }

  lemma PowerModulo(y: nat, width: nat)
    requires y <= width
    ensures P2(y) % P2(width) == if y < width then P2(y) else 0
  {
    hide P2;
    if y < width {
      P2Mono(y, width);
      SmallMod(P2(y), P2(width));
    } else {
      SelfMod(P2(y));
    }
  }

  lemma SelfMod(d: nat)
    requires d > 0
    ensures d % d == 0
  {
  }

  lemma SmearedAll(v: nat, n: nat, width: nat)
    requires Smeared(v, n, width) && n <= width
    ensures v + 1 == P2(n)
  {
    AllOnes(v, n);
  }

  // ------------------------------------------------------------ powers

  function Pow(n: nat, e: nat): nat {
    if e == 0 then 1 else n * Pow(n, e - 1)
  }

  /** What makes it the power: its value at one, and that exponents add up. */
  lemma {:induction false} PowLaws(n: nat, a: nat, b: nat)
    ensures Pow(n, 0) == 1 && Pow(n, 1) == n && Pow(n, a + b) == Pow(n, a) * Pow(n, b)
  {
    assert Pow(n, 1) == n * Pow(n, 0);
    if a > 0 {
      PowLaws(n, a - 1, b);
      Base256.Associate(n, Pow(n, a - 1), Pow(n, b));
    }
  }

  lemma {:induction false} PowersOfTwo(e: nat)
    ensures P2(e) == Pow(2, e)
  {
    if e > 0 {
      PowersOfTwo(e - 1);
    }
  }

  lemma {:induction false} PowSquare(n: nat, e: nat)
    ensures Pow(n * n, e) == Pow(n, 2 * e)
  {
    if e > 0 {
      PowSquare(n, e - 1);
      assert Pow(n, 2 * e) == n * (n * Pow(n, 2 * e - 2));
    }
  }

  ghost predicate Congruent(a: nat, b: nat, m: nat)
    requires m > 0
  {
    a % m == b % m
  }

  lemma Reduced(a: nat, m: nat)
    requires m > 0
    ensures Congruent(a % m, a, m)
  {
    assert a % m < m;
    SmallMod(a % m, m);
  }

  lemma CongruentAt(a: nat, q: nat, b: nat, m: nat)
    requires m > 0 && a == q * m + b
    ensures Congruent(a, b, m)
  {
    var qb, rb := b / m, b % m;
    assert a == (q + qb) * m + rb;
    Base256.DivModUnique(a, m, q + qb, rb);
  }

  lemma TimesRest(a: nat, q: nat, r: nat, c: nat, m: nat)
    requires m > 0 && a == q * m + r
    ensures Congruent(a * c, r * c, m)
  {
    assert a * c == (q * c) * m + r * c;
    CongruentAt(a * c, q * c, r * c, m);
  }

  lemma Times(a: nat, b: nat, c: nat, m: nat)
    requires m > 0 && Congruent(a, b, m)
    ensures Congruent(a * c, b * c, m)
  {
    TimesRest(a, a / m, a % m, c, m);
    TimesRest(b, b / m, b % m, c, m);
  }

  lemma {:induction false} PowCongruent(a: nat, b: nat, e: nat, m: nat)
    requires m > 0 && Congruent(a, b, m)
    ensures Congruent(Pow(a, e), Pow(b, e), m)
  {
    if e > 0 {
      PowCongruent(a, b, e - 1, m);
      Times(a, b, Pow(a, e - 1), m);
      Times(Pow(a, e - 1), Pow(b, e - 1), b, m);
    }
  }

  const WORD := 0x1_0000_0000_0000_0000

  /** n to the power e, modulo 2^64: exact whenever the power fits in a word. */
  method Power(n: nat, e: nat) returns (result: nat)
    requires n < 0x1_0000_0000 && e < 0x1_0000_0000
    ensures result == Pow(n, e) % WORD
    ensures Pow(n, e) < WORD ==> result == Pow(n, e)
  {
    result := 1;
    var component: nat, left: nat := n, e;
    while left != 0
      invariant result < WORD
      invariant Congruent(result * Pow(component, left), Pow(n, e), WORD)
    {
      PowerStep(result, component, left, WORD);
      if left % 2 == 1 {
        result := result * component % WORD;
      }
      left := left / 2;
      component := component * component % WORD;
    }
    assert result * Pow(component, 0) == result;
    SmallMod(result, WORD);
  }

  /** One round of squaring keeps the product of the result and the remaining power. */
  lemma PowerStep(result: nat, component: nat, left: nat, m: nat)
    requires m > 0 && left > 0
    ensures var next := if left % 2 == 1 then result * component % m else result;
            Congruent(next * Pow(component * component % m, left / 2), result * Pow(component, left), m)
  {
    var square, half := component * component, left / 2;
    var raw := if left % 2 == 1 then result * component else result;
    var next := if left % 2 == 1 then raw % m else raw;
    PowSquare(component, half);
    assert raw * Pow(square, half) == result * Pow(component, left) by {
      if left % 2 == 1 {
        assert Pow(component, left) == component * Pow(component, 2 * half);
        Base256.Associate(result, component, Pow(component, 2 * half));
      }
    }
    Reduced(square, m);
    PowCongruent(square % m, square, half, m);
    Reduced(raw, m);
    Times(next, raw, Pow(square % m, half), m);
    Times(Pow(square % m, half), Pow(square, half), raw, m);
  }
}
