/** Two's-complement words and bit strings over mathematical integers.

    A machine integer of width N is represented by its signed value; `U32`/`U64` give the
    unsigned reading of the same bit string and `S32`/`S64` go back. */
module Bits {

  function Pow2(n: nat): (r: nat)
    ensures r >= 1
  {
    if n == 0 then 1 else 2 * Pow2(n - 1)
  }

  lemma {:induction false} Pow2Add(a: nat, b: nat)
    ensures Pow2(a + b) == Pow2(a) * Pow2(b)
  {
    if a == 0 {
    } else {
      Pow2Add(a - 1, b);
      assert Pow2(a + b) == 2 * Pow2(a - 1 + b);
    }
  }

  lemma {:induction false} Pow2Mono(a: nat, b: nat)
    requires a <= b
    ensures Pow2(a) <= Pow2(b)
  {
    if a < b {
      Pow2Mono(a, b - 1);
    }
  }

  lemma Pow2Values()
    ensures Pow2(5) == 32 && Pow2(15) == 0x8000
    ensures Pow2(31) == 0x8000_0000 && Pow2(32) == 0x1_0000_0000
    ensures Pow2(49) == 0x2_0000_0000_0000
    ensures Pow2(52) == 0x10_0000_0000_0000 && Pow2(53) == 0x20_0000_0000_0000
  {
    assert Pow2(8) == 0x100 && Pow2(16) == 0x1_0000 && Pow2(24) == 0x100_0000;
    assert Pow2(32) == 0x1_0000_0000 && Pow2(40) == 0x100_0000_0000;
    assert Pow2(46) == 0x4000_0000_0000;
  }

  // ---- reading a bit string as unsigned or signed ----

  const TWO31: int := 0x8000_0000
  const TWO32: int := 0x1_0000_0000
  const TWO63: int := 0x8000_0000_0000_0000
  const TWO64: int := 0x1_0000_0000_0000_0000
  const TWO127: int := 0x8000_0000_0000_0000_0000_0000_0000_0000
  const TWO128: int := 0x1_0000_0000_0000_0000_0000_0000_0000_0000

  function U32(x: int): nat { x % TWO32 }
  function S32(x: int): int { (x + TWO31) % TWO32 - TWO31 }
  function U64(x: int): nat { x % TWO64 }
  function S64(x: int): int { (x + TWO63) % TWO64 - TWO63 }
  function S128(x: int): int { (x + TWO127) % TWO128 - TWO127 }

  predicate IsI32(x: int) { -TWO31 <= x < TWO31 }
  predicate IsI64(x: int) { -TWO63 <= x < TWO63 }

  lemma U64Of(x: int)
    requires IsI64(x)
    ensures U64(x) == if x < 0 then x + TWO64 else x
  {
    ModUnique(x, TWO64, if x < 0 then -1 else 0, if x < 0 then x + TWO64 else x);
  }

  // ---- bitwise operators on bit strings ----

  function BitAnd(a: nat, b: nat): nat
  {
    if a == 0 || b == 0 then 0 else (a % 2) * (b % 2) + 2 * BitAnd(a / 2, b / 2)
  }

  function BitOr(a: nat, b: nat): nat
  {
    if a == 0 then b else if b == 0 then a
    else (if a % 2 + b % 2 > 0 then 1 else 0) + 2 * BitOr(a / 2, b / 2)
  }

  function BitXor(a: nat, b: nat): nat
  {
    if a == 0 then b else if b == 0 then a
    else (a + b) % 2 + 2 * BitXor(a / 2, b / 2)
  }

  lemma TwiceProduct(p: int, q: int)
    ensures (2 * p) * q == 2 * (p * q)
  {
  }

  /** Halving first, then dividing by `p`, is dividing by `2 * p`. */
  lemma HalveThenDivide(a: int, p: nat)
    requires p > 0
    ensures a / (2 * p) == a / 2 / p
    ensures a % (2 * p) == 2 * (a / 2 % p) + a % 2
  {
    var h := a / 2;
    var q, r := h / p, h % p;
    assert h == p * q + r;
    TwiceProduct(p, q);
    ModUnique(a, 2 * p, q, 2 * r + a % 2);
  }

  function And64(a: int, b: int): int { S64(BitAnd(U64(a), U64(b))) }
  function Or64(a: int, b: int): int { S64(BitOr(U64(a), U64(b))) }

  /** Masking with `2^j - 1` keeps the low `j` bits. */
  lemma {:induction false} AndLowMask(a: nat, j: nat)
    ensures BitAnd(a, Pow2(j) - 1) == a % Pow2(j)
  {
    if a == 0 || j == 0 {
    } else {
      var p := Pow2(j - 1);
      AndLowMask(a / 2, j - 1);
      HalveThenDivide(a, p);
      assert (2 * p - 1) / 2 == p - 1 && (2 * p - 1) % 2 == 1;
    }
  }

  lemma MulAtLeast(x: int, y: int)
    requires x > 0 && y >= 1
    ensures x * y >= x
  {
  }

  lemma ModUnique(a: int, m: int, q: int, r: int)
    requires m > 0 && 0 <= r < m && a == m * q + r
    ensures a % m == r && a / m == q
  {
    var d := q - a / m;
    assert m * d == a % m - r by {
      assert m * d == m * q - m * (a / m);
    }
    if d >= 1 {
      MulAtLeast(m, d);
    } else if d <= -1 {
      MulAtLeast(m, -d);
    }
  }

  function Shl(x: nat, k: nat): (r: nat)
    ensures x > 0 ==> r > 0
  {
    if k == 0 then x else 2 * Shl(x, k - 1)
  }

  function Shr(x: nat, k: nat): nat
  {
    if k == 0 then x else Shr(x / 2, k - 1)
  }

  lemma {:induction false} ShlIsTimes(x: nat, k: nat)
    ensures Shl(x, k) == x * Pow2(k)
  {
    if k > 0 {
      ShlIsTimes(x, k - 1);
      var p := Pow2(k - 1);
      assert x * (2 * p) == 2 * (x * p);
    }
  }

  lemma {:induction false} ShrIsDiv(x: nat, k: nat)
    ensures Shr(x, k) == x / Pow2(k)
  {
    if k > 0 {
      ShrIsDiv(x / 2, k - 1);
      HalveThenDivide(x, Pow2(k - 1));
    }
  }

  /** A mask shifted left by `k` only sees the bits from `k` up. */
  lemma {:induction false} AndHighMask(a: nat, m: nat, k: nat)
    ensures BitAnd(a, Shl(m, k)) == Shl(BitAnd(Shr(a, k), m), k)
  {
    if k > 0 {
      AndHighMask(a / 2, m, k - 1);
      var s := Shl(m, k - 1);
      if a == 0 || s == 0 {
        assert BitAnd(a / 2, s) == 0;
      } else {
        assert (2 * s) / 2 == s && (2 * s) % 2 == 0;
      }
    }
  }

  /** Or-ing disjoint bit ranges adds them. */
  lemma {:induction false} OrDisjoint(hi: nat, lo: nat, k: nat)
    requires lo < Pow2(k)
    ensures BitOr(Shl(hi, k), lo) == Shl(hi, k) + lo
  {
    if k == 0 {
    } else {
      OrDisjoint(hi, lo / 2, k - 1);
      if lo > 0 && Shl(hi, k - 1) > 0 {
        OrStep(Shl(hi, k - 1), lo);
      }
    }
  }

  lemma OrStep(x: nat, lo: nat)
    requires x > 0 && lo > 0
    ensures BitOr(2 * x, lo) == lo % 2 + 2 * BitOr(x, lo / 2)
  {
  }

  /** Arithmetic shifts of a signed integer. */
  function ShlInt(x: int, k: nat): int decreases k { if k == 0 then x else ShlInt(2 * x, k - 1) }
  function ShrInt(x: int, k: nat): int decreases k { if k == 0 then x else ShrInt(x / 2, k - 1) }

  lemma {:induction false} ShlIntIsTimes(x: int, k: nat)
    ensures ShlInt(x, k) == x * Pow2(k)
    decreases k
  {
    if k > 0 {
      ShlIntIsTimes(2 * x, k - 1);
      var p := Pow2(k - 1);
      assert (2 * x) * p == x * (2 * p);
    }
  }

  lemma {:induction false} ShrIntIsDiv(x: int, k: nat)
    ensures ShrInt(x, k) == x / Pow2(k)
    decreases k
  {
    if k > 0 {
      ShrIntIsDiv(x / 2, k - 1);
      HalveThenDivide(x, Pow2(k - 1));
    }
  }

  // ---- bit length ----

  function BitLen(n: nat): nat
  {
    if n == 0 then 0 else 1 + BitLen(n / 2)
  }

  lemma {:induction false} BitLenBounds(n: nat)
    ensures n < Pow2(BitLen(n))
    ensures n > 0 ==> BitLen(n) > 0 && Pow2(BitLen(n) - 1) <= n
  {
    if n > 0 {
      BitLenBounds(n / 2);
    }
  }

  lemma {:induction false} BitLenUnique(n: nat, k: nat)
    requires Pow2(k) <= n < Pow2(k + 1)
    ensures BitLen(n) == k + 1
  {
    BitLenBounds(n);
    if BitLen(n) <= k {
      Pow2Mono(BitLen(n), k);
    } else if BitLen(n) > k + 1 {
      Pow2Mono(k + 1, BitLen(n) - 1);
    }
  }

  lemma {:induction false} BitLenShl(n: nat, s: nat)
    requires n > 0
    ensures BitLen(Shl(n, s)) == BitLen(n) + s
  {
    if s > 0 {
      BitLenShl(n, s - 1);
    }
  }

  lemma BitLenScale(n: nat, s: nat)
    requires n > 0
    ensures BitLen(n * Pow2(s)) == BitLen(n) + s
  {
    ShlIsTimes(n, s);
    BitLenShl(n, s);
  }

  lemma BitLenAtMost(n: nat, k: nat)
    requires n < Pow2(k)
    ensures BitLen(n) <= k
  {
    BitLenBounds(n);
    if n > 0 && BitLen(n) > k {
      Pow2Mono(k, BitLen(n) - 1);
    }
  }
}
