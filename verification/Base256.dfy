/// Base-256 arithmetic behind the eight-level timer wheel: the 64-bit point is
/// read through a union as eight bytes, least significant first.
module Base256 {

  /** The number of ticks one slot of level `k` stands for: 256^k. */
  function B(k: nat): (r: nat)
    ensures r > 0
  {
    if k == 0 then 1 else 256 * B(k - 1)
  }

  /** Byte `k` of `x`, the `p8[k]` of the union. */
  function Digit(x: nat, k: nat): (d: nat)
    ensures d < 256
  {
    (x / B(k)) % 256
  }

  function CeilDiv(x: nat, d: nat): nat
    requires d > 0
  {
    if x % d == 0 then x / d else x / d + 1
  }

  lemma DivModUnique(x: nat, d: nat, q: nat, r: nat)
    requires d > 0 && r < d && x == q * d + r
    ensures x / d == q && x % d == r
  {
    var q' := x / d;
    assert x == q' * d + x % d;
    if q < q' {
      MulStep(q, q', d);
    } else if q' < q {
      MulStep(q', q, d);
    }
  }

  lemma MulMono(a: int, b: int, d: nat)
    requires a <= b
    ensures a * d <= b * d
  {
  }

  lemma Distribute(a: int, b: int, d: int)
    ensures (a + b) * d == a * d + b * d
  {
  }

  lemma Associate(a: int, b: int, c: int)
    ensures (a * b) * c == a * (b * c)
  {
  }

  lemma MulStep(a: int, b: int, d: nat)
    requires a < b
    ensures a * d + d <= b * d
  {
    MulMono(a + 1, b, d);
    Distribute(a, 1, d);
  }

  lemma MulCancelLt(a: int, b: int, d: nat)
    requires a * d < b * d
    ensures a < b
  {
    if a >= b {
      MulMono(b, a, d);
    }
  }

  lemma CeilDivBounds(x: nat, d: nat)
    requires d > 0
    ensures x <= CeilDiv(x, d) * d < x + d
  {
    var q := x / d;
    assert x == q * d + x % d;
    Distribute(q, 1, d);
  }

  /** `CeilDiv(x, d)` is the least number of steps of `d` that reaches `x`. */
  lemma CeilDivLeast(x: nat, d: nat, u: nat)
    requires d > 0 && u * d >= x
    ensures CeilDiv(x, d) <= u
  {
    CeilDivBounds(x, d);
    if u < CeilDiv(x, d) {
      MulStep(u, CeilDiv(x, d), d);
    }
  }

  /** `c` is the ceiling when `c * d` reaches `x` and `(c - 1) * d` does not. */
  lemma CeilDivUnique(x: nat, d: nat, c: nat)
    requires d > 0 && c * d >= x && c * d < x + d
    ensures CeilDiv(x, d) == c
  {
    CeilDivBounds(x, d);
    CeilDivLeast(x, d, c);
    var e := CeilDiv(x, d);
    if e < c {
      MulStep(e, c, d);
    }
  }

  /** Counting on by one crosses a multiple of `d` exactly when `x` is one. */
  lemma CeilDivStep(x: nat, d: nat)
    requires d > 0
    ensures CeilDiv(x + 1, d) == CeilDiv(x, d) + (if x % d == 0 then 1 else 0)
  {
    CeilDivBounds(x, d);
    var c := CeilDiv(x, d);
    if x % d == 0 {
      assert c * d == x;
      Distribute(c, 1, d);
      CeilDivUnique(x + 1, d, c + 1);
    } else {
      if c * d == x {
        DivModUnique(x, d, c, 0);
      }
      CeilDivUnique(x + 1, d, c);
    }
  }

  /** The least multiple of `d` above `x`. */
  function NextAbove(x: nat, d: nat): nat
    requires d > 0
  {
    (x / d + 1) * d
  }

  lemma NextAboveBounds(x: nat, d: nat)
    requires d > 0
    ensures x < NextAbove(x, d) <= x + d
    ensures NextAbove(x, d) % d == 0
  {
    FloorBounds(x, d);
    Distribute(x / d, 1, d);
    DivModUnique(NextAbove(x, d), d, x / d + 1, 0);
  }

  lemma NextAboveLeast(x: nat, d: nat, v: nat)
    requires d > 0 && v % d == 0 && v > x
    ensures v >= NextAbove(x, d)
  {
    FloorBounds(x, d);
    assert v == (v / d) * d;
    MulCancelLt(x / d, v / d, d);
    MulMono(x / d + 1, v / d, d);
  }

  lemma FloorBounds(x: nat, d: nat)
    requires d > 0
    ensures (x / d) * d <= x < (x / d) * d + d
    ensures x >= d ==> (x / d) * d >= d
  {
    assert x == (x / d) * d + x % d;
    if x >= d {
      MulMono(1, x / d, d);
    }
  }

  lemma DivNest(x: nat, a: nat, b: nat)
    requires a > 0 && b > 0
    ensures a * b > 0
    ensures x / (a * b) == (x / a) / b
  {
    var q := x / a;
    var r := x % a;
    var q2 := q / b;
    var r2 := q % b;
    assert x == q * a + r;
    assert q == q2 * b + r2;
    assert x == q2 * (a * b) + (r2 * a + r) by {
      assert q * a == (q2 * b + r2) * a == q2 * b * a + r2 * a;
      assert q2 * b * a == q2 * (a * b);
    }
    MulMono(r2, b - 1, a);
    assert (b - 1) * a == b * a - a;
    assert r2 * a + r < a * b;
    assert a * b > 0;
    DivModUnique(x, a * b, q2, r2 * a + r);
  }

  lemma DivByNextPower(x: nat, k: nat)
    ensures x / B(k + 1) == (x / B(k)) / 256
  {
    DivNest(x, B(k), 256);
    assert B(k) * 256 == B(k + 1);
  }

  lemma BMono(j: nat, k: nat)
    requires j <= k
    ensures B(j) <= B(k)
    decreases k
  {
    if j < k {
      BMono(j, k - 1);
    }
  }

  lemma BValues()
    ensures B(0) == 1 && B(1) == 0x100 && B(2) == 0x1_0000 && B(3) == 0x100_0000
    ensures B(4) == 0x1_0000_0000 && B(5) == 0x100_0000_0000 && B(6) == 0x1_0000_0000_0000
    ensures B(7) == 0x100_0000_0000_0000 && B(8) == 0x1_0000_0000_0000_0000
  {
    assert B(1) == 256 * B(0);
    assert B(2) == 256 * B(1);
    assert B(3) == 256 * B(2);
    assert B(4) == 256 * B(3);
    assert B(5) == 256 * B(4);
    assert B(6) == 256 * B(5);
    assert B(7) == 256 * B(6);
    assert B(8) == 256 * B(7);
  }

  /** The multiples of a larger power are multiples of a smaller one. */
  lemma MultipleDown(x: nat, j: nat, k: nat)
    requires j <= k && x % B(k) == 0
    ensures x % B(j) == 0
    decreases k
  {
    if j < k {
      var q := x / B(k);
      assert x == q * B(k) == (q * 256) * B(k - 1);
      DivModUnique(x, B(k - 1), q * 256, 0);
      MultipleDown(x, j, k - 1);
    }
  }

  /** A multiple of 256^k is a multiple of 256^(k+1) exactly when byte k is zero. */
  lemma MultipleUp(x: nat, k: nat)
    requires x % B(k) == 0
    ensures x % B(k + 1) == 0 <==> Digit(x, k) == 0
  {
    DivByNextPower(x, k);
    var q := x / B(k);
    assert x == q * B(k);
    assert q == (q / 256) * 256 + q % 256;
    assert x == (q / 256) * B(k + 1) + (q % 256) * B(k) by {
      assert ((q / 256) * 256 + q % 256) * B(k) == (q / 256) * 256 * B(k) + (q % 256) * B(k);
      assert (q / 256) * 256 * B(k) == (q / 256) * (256 * B(k));
    }
    MulMono(q % 256, 255, B(k));
    DivModUnique(x, B(k + 1), q / 256, (q % 256) * B(k));
    if q % 256 != 0 {
      MulMono(1, q % 256, B(k));
    }
  }
}
