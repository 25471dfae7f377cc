/** IEEE 754 binary64, the arithmetic of a JS Number (section 6.1.6.1 of ECMA-262).

    A finite non-zero double is a sign and a magnitude counted in units of 2^-1074, the smallest
    positive double, so every double is a whole number of units and exact sums and products are
    integers that `RoundNat` then rounds to 53 significant bits, ties to even. */
module Float64 {
  import opened Bits

  datatype Dbl =
    | NaN
    | Inf(neg: bool)
    | Zero(neg: bool)
    | Fin(neg: bool, mag: nat)
  {
    /** The exact value in units of 2^-1074, for a finite double. */
    function Units(): int {
      match this
      case Fin(n, m) => if n then -(m as int) else m
      case _ => 0
    }
  }

  /** The number of units in the integer 1. */
  function One(): (r: nat) ensures r >= 1 { Pow2(1074) }

  /** Doubles of this magnitude or more do not exist: 2^1024 in units. */
  function Limit(): nat { Pow2(2098) }

  /** Whether `mag` units have at most 53 significant bits. */
  predicate Representable(mag: nat)
  {
    BitLen(mag) <= 53 || mag % Pow2(BitLen(mag) - 53) == 0
  }

  /** `num / den` rounded to 53 significant bits, ties to even. */
  function RoundNat(num: nat, den: nat): nat
    requires den > 0
  {
    var n := BitLen(num / den);
    var s := if n > 53 then n - 53 else 0;
    var d := Shl(den, s);
    var t, r := num / d, num % d;
    Shl(if 2 * r > d || (2 * r == d && t % 2 == 1) then t + 1 else t, s)
  }

  function WithSign(neg: bool, mag: nat): Dbl { if mag == 0 then Zero(neg) else Fin(neg, mag) }

  function Pack(neg: bool, mag: nat): Dbl
  {
    if mag == 0 then Zero(neg) else if mag >= Limit() then Inf(neg) else Fin(neg, mag)
  }

  function Abs(i: int): nat { if i < 0 then -i else i }

  function Neg(a: Dbl): Dbl
  {
    match a
    case NaN => NaN
    case Inf(n) => Inf(!n)
    case Zero(n) => Zero(!n)
    case Fin(n, m) => Fin(!n, m)
  }

  function Add(a: Dbl, b: Dbl): Dbl
  {
    if a.NaN? || b.NaN? then NaN
    else if a.Inf? then (if b.Inf? && a.neg != b.neg then NaN else a)
    else if b.Inf? then b
    else
      var s := a.Units() + b.Units();
      if s == 0 then Zero(a.neg && b.neg) else Pack(s < 0, RoundNat(Abs(s), 1))
  }

  function Sub(a: Dbl, b: Dbl): Dbl { Add(a, Neg(b)) }

  function Mul(a: Dbl, b: Dbl): Dbl
  {
    if a.NaN? || b.NaN? then NaN
    else if (a.Inf? && b.Zero?) || (a.Zero? && b.Inf?) then NaN
    else if a.Inf? || b.Inf? then Inf(a.neg != b.neg)
    else if a.Zero? || b.Zero? then Zero(a.neg != b.neg)
    else Pack(a.neg != b.neg, RoundNat(a.mag * b.mag, One()))
  }

  function Div(a: Dbl, b: Dbl): Dbl
  {
    if a.NaN? || b.NaN? then NaN
    else if a.Inf? then (if b.Inf? then NaN else Inf(a.neg != b.neg))
    else if b.Inf? then Zero(a.neg != b.neg)
    else if b.Zero? then (if a.Zero? then NaN else Inf(a.neg != b.neg))
    else if a.Zero? then Zero(a.neg != b.neg)
    else if b.mag == 0 then NaN
    else Pack(a.neg != b.neg, RoundNat(a.mag * One(), b.mag))
  }

  /** Number::remainder (section 6.1.6.1.6 of ECMA-262): exact, with the dividend's sign. */
  function Rem(a: Dbl, b: Dbl): Dbl
  {
    if a.NaN? || b.NaN? || a.Inf? || b.Zero? then NaN
    else if b.Inf? || a.Zero? then a
    else if b.mag == 0 then NaN
    else
      var r := a.mag % b.mag;
      if r == 0 then Zero(a.neg) else Fin(a.neg, r)
  }

  predicate Less(a: Dbl, b: Dbl)
  {
    if a.NaN? || b.NaN? then false
    else if a.Inf? then a.neg && !(b.Inf? && b.neg)
    else if b.Inf? then !b.neg
    else a.Units() < b.Units()
  }

  predicate Equal(a: Dbl, b: Dbl)
  {
    if a.NaN? || b.NaN? then false
    else if a.Inf? || b.Inf? then a == b
    else a.Units() == b.Units()
  }

  /** ToBoolean of a Number (section 7.1.2 of ECMA-262). */
  predicate Truthy(a: Dbl) { !a.NaN? && !a.Zero? }

  function Quotient(a: nat, b: nat): nat
    requires b > 0
  {
    a / b
  }

  /** The integral part of a finite double. */
  function Truncate(a: Dbl): int
  {
    var m := Quotient(Abs(a.Units()), One());
    if a.Units() < 0 then -(m as int) else m
  }

  /** ToInt32 and ToUint32 (sections 7.1.6 and 7.1.7 of ECMA-262). */
  function ToInt32(a: Dbl): int { if a.NaN? || a.Inf? then 0 else S32(Truncate(a)) }
  function ToUint32(a: Dbl): nat { if a.NaN? || a.Inf? then 0 else U32(Truncate(a)) }

  /** Rounding an integer to a Number, as a signed-integer-to-double conversion does. */
  function RoundInt(i: int): Dbl
  {
    if i == 0 then Zero(false) else Pack(i < 0, RoundNat(Abs(i) * One(), 1))
  }

  /** The double whose value is exactly `i`; only meaningful when `i` is representable. */
  function OfInt(i: int): Dbl
  {
    if i == 0 then Zero(false) else Fin(i < 0, Abs(i) * One())
  }

  /** `d` is the integer `i`, up to the sign of zero. */
  predicate NumIs(d: Dbl, i: int)
  {
    d == OfInt(i) || (i == 0 && d == Zero(true))
  }

  // ------------------------------------------------------------------ the exactness band

  const SAFE: int := 0x20_0000_0000_0000   // 2^53

  predicate InBand(i: int) { -SAFE <= i <= SAFE }

  lemma RoundExact(mag: nat, den: nat, num: nat)
    requires den > 0 && Representable(mag) && num == mag * den
    ensures RoundNat(num, den) == mag
  {
    var n := BitLen(mag);
    var s := if n > 53 then n - 53 else 0;
    var p := Pow2(s);
    assert mag % p == 0;
    var t := mag / p;
    ShlIsTimes(den, s);
    ShlIsTimes(t, s);
    ExactQuotients(mag, den, num, p, t, Shl(den, s));
  }

  lemma ExactQuotients(mag: nat, den: nat, num: nat, p: nat, t: nat, d: nat)
    requires den > 0 && p > 0 && num == mag * den && d == den * p && d > 0
    requires mag % p == 0 && t == mag / p
    ensures num / den == mag && num / d == t && num % d == 0 && t * p == mag
  {
    ModUnique(num, den, mag, 0);
    assert mag == p * t;
    assert (p * t) * den == (den * p) * t;
    ModUnique(num, d, t, 0);
  }

  lemma MultipleRepresentable(x: nat, p: nat, c: nat)
    requires BitLen(x) > 53 ==> p == Pow2(BitLen(x) - 53)
    requires p > 0 && x == p * c
    ensures Representable(x)
  {
    ModUnique(x, p, c, 0);
  }

  lemma ShiftedRepresentable(i: nat, e: nat, x: nat)
    requires 0 < i && BitLen(i) <= 53 && x == i * Pow2(e)
    ensures Representable(x)
  {
    hide BitLen, Pow2;
    var k := BitLen(i);
    BitLenScale(i, e);
    if k + e > 53 {
      ShiftedMultiple(i, 53 - k, k + e - 53, x);
      PowerPositive(k + e - 53);
      MultipleRepresentable(x, Pow2(k + e - 53), i * Pow2(53 - k));
    } else {
      FewBits(x);
    }
  }

  lemma PowerPositive(n: nat)
    ensures Pow2(n) > 0
  {
  }

  lemma FewBits(x: nat)
    requires BitLen(x) <= 53
    ensures Representable(x)
  {
  }

  lemma ShiftedMultiple(i: nat, a: nat, b: nat, x: nat)
    requires x == i * Pow2(a + b)
    ensures x == Pow2(b) * (i * Pow2(a))
  {
    Pow2Add(a, b);
    Regroup(i, Pow2(a), Pow2(b), Pow2(a + b));
  }

  lemma LimitRepresentable(e: nat)
    ensures Representable(Pow2(53 + e))
  {
    BitLenUnique(Pow2(53 + e), 53 + e);
    Pow2Add(e + 1, 52);
    MultipleRepresentable(Pow2(53 + e), Pow2(e + 1), Pow2(52));
  }

  lemma IntegerRepresentable(i: nat, e: nat, x: nat)
    requires 0 < i <= SAFE && x == i * Pow2(e)
    ensures Representable(x)
  {
    Pow2Values();
    if i < SAFE {
      BitLenAtMost(i, 53);
      ShiftedRepresentable(i, e, x);
    } else {
      Pow2Add(53, e);
      LimitRepresentable(e);
    }
  }

  lemma Regroup(i: nat, c: nat, p: nat, q: nat)
    requires q == c * p
    ensures i * q == p * (i * c)
  {
  }

  lemma IntegerBelow(i: nat, e: nat, l: nat)
    requires i <= SAFE && e + 54 <= l
    ensures i * Pow2(e) < Pow2(l)
  {
    Pow2Values();
    Pow2Add(53, e);
    Pow2Mono(e + 54, l);
    ProductMono(i, Pow2(53), Pow2(e));
  }

  lemma ProductMono(x: nat, y: nat, z: nat)
    requires x <= y
    ensures x * z <= y * z
  {
  }

  /** Every integer of magnitude at most 2^53 survives rounding unchanged. */
  lemma BandIsExact(i: int)
    requires InBand(i)
    ensures RoundInt(i) == OfInt(i)
  {
    if i != 0 {
      IntegerRepresentable(Abs(i), 1074, Abs(i) * One());
      RoundExact(Abs(i) * One(), 1, Abs(i) * One());
      IntegerBelow(Abs(i), 1074, 2098);
      assert Abs(i) * One() >= 1 by { MulAtLeast(One(), Abs(i)); }
    }
  }

  /** One past the band already rounds down: the bound cannot be raised. */
  lemma BandIsTight()
    ensures RoundInt(SAFE + 1) == OfInt(SAFE) != OfInt(SAFE + 1)
  {
    hide RoundNat, BitLen, Pow2, Limit;
    SafeValue();
    HalfwayRoundsDown(1074);
    IntegerBelow(SAFE, 1074, 2098);
    ScaledApart(SAFE, One());
  }

  lemma SafeValue()
    ensures Limit() == Pow2(2098) && SAFE == Pow2(53)
  {
    Pow2Values();
  }

  lemma ScaledApart(i: nat, one: nat)
    requires one > 0
    ensures 0 < (i + 1) * one != i * one
    ensures i > 0 ==> i * one > 0
  {
    assert (i + 1) * one == i * one + one;
  }

  lemma HalfwayRoundsDown(e: nat)
    ensures RoundNat((SAFE + 1) * Pow2(e), 1) == SAFE * Pow2(e)
  {
    Pow2Values();
    BitLenUnique(SAFE + 1, 53);
    BitLenScale(SAFE + 1, e);
    Halfway((SAFE + 1) * Pow2(e), Pow2(e), Pow2(52), SAFE, e);
  }

  lemma Halfway(x: nat, u: nat, q: nat, safe: nat, e: nat)
    requires u == Pow2(e) && q % 2 == 0 && safe == 2 * q && x == (safe + 1) * u
    requires BitLen(x) == e + 54
    ensures RoundNat(x, 1) == safe * u
  {
    assert x / 1 == x;
    OddMultiple(q, u);
    ShlIsTimes(1, e + 1);
    ShlIsTimes(q, e + 1);
    ModUnique(x, 2 * u, q, u);
  }

  lemma OddMultiple(q: nat, u: nat)
    ensures (2 * q + 1) * u == (2 * u) * q + u
    ensures q * (2 * u) == (2 * q) * u
  {
  }

  // ------------------------------------------------------------------ integer arithmetic

  lemma UnitsOfInt(i: int)
    ensures OfInt(i).Units() == i * One()
  {
  }

  lemma UnitsOfNum(d: Dbl, i: int)
    requires NumIs(d, i)
    ensures !d.NaN? && !d.Inf? && d.Units() == i * One()
    ensures d.Zero? <==> i == 0
    ensures i != 0 ==> d == OfInt(i) && d.Fin? && d.neg == (i < 0) && d.mag == Abs(i) * One()
  {
    UnitsOfInt(i);
  }

  /** Exact addition of integers, including the sign of a zero result. */
  lemma AddOfInts(i: int, j: int)
    requires InBand(i + j)
    ensures Add(OfInt(i), OfInt(j)) == OfInt(i + j)
  {
    UnitsOfInt(i); UnitsOfInt(j);
    BandIsExact(i + j);
    Distribute(i, j, One());
  }

  lemma Distribute(i: int, j: int, u: nat)
    requires u > 0
    ensures i * u + j * u == (i + j) * u
    ensures Abs((i + j) * u) == Abs(i + j) * u
    ensures (i + j) * u == 0 <==> i + j == 0
    ensures (i + j) * u < 0 <==> i + j < 0
  {
    if i + j > 0 { MulAtLeast(u, i + j); }
    if i + j < 0 { MulAtLeast(u, -(i + j)); }
  }

  lemma AddNum(a: Dbl, b: Dbl, i: int, j: int)
    requires NumIs(a, i) && NumIs(b, j) && InBand(i + j)
    ensures NumIs(Add(a, b), i + j)
  {
    UnitsOfNum(a, i); UnitsOfNum(b, j);
    BandIsExact(i + j);
    Distribute(i, j, One());
  }

  lemma NegNum(a: Dbl, i: int)
    requires NumIs(a, i)
    ensures NumIs(Neg(a), -i)
    ensures i != 0 ==> Neg(OfInt(i)) == OfInt(-i)
  {
  }

  lemma SubNum(a: Dbl, b: Dbl, i: int, j: int)
    requires NumIs(a, i) && NumIs(b, j) && InBand(i - j)
    ensures NumIs(Sub(a, b), i - j)
  {
    NegNum(b, j);
    AddNum(a, Neg(b), i, -j);
  }

  lemma SubOfInts(i: int, j: int)
    requires InBand(i - j)
    ensures Sub(OfInt(i), OfInt(j)) == OfInt(i - j)
  {
    if i == j {
      var a := OfInt(i);
      assert a.Units() + Neg(a).Units() == 0;
    } else {
      SubNum(OfInt(i), OfInt(j), i, j);
    }
  }

  lemma MulNum(a: Dbl, b: Dbl, i: int, j: int)
    requires NumIs(a, i) && NumIs(b, j) && InBand(i * j)
    ensures NumIs(Mul(a, b), i * j)
    ensures i * j != 0 ==> Mul(a, b) == OfInt(i * j)
  {
    UnitsOfNum(a, i); UnitsOfNum(b, j);
    SignOfProduct(i, j);
    if i != 0 && j != 0 {
      MulMags(Abs(i), Abs(j), a.mag, b.mag, Abs(i * j));
    }
  }

  lemma SignOfProduct(i: int, j: int)
    ensures Abs(i) * Abs(j) == Abs(i * j)
    ensures i * j == 0 <==> i == 0 || j == 0
    ensures i * j < 0 <==> i != 0 && j != 0 && (i < 0) != (j < 0)
  {
  }

  lemma MulMags(x: nat, y: nat, mx: nat, my: nat, k: nat)
    requires mx == x * One() && my == y * One() && k == x * y && 0 < k <= SAFE
    ensures RoundNat(mx * my, One()) == k * One()
    ensures 0 < k * One() < Limit()
  {
    ProductUnits(x, y, One(), mx, my, k);
    IntegerRepresentable(k, 1074, k * One());
    RoundExact(k * One(), One(), mx * my);
    IntegerBelow(k, 1074, 2098);
    MulAtLeast(One(), k);
  }

  lemma ProductUnits(x: nat, y: nat, u: nat, mx: nat, my: nat, k: nat)
    requires mx == x * u && my == y * u && k == x * y
    ensures mx * my == (k * u) * u
  {
    assert (x * u) * (y * u) == ((x * y) * u) * u;
  }

  lemma LessNum(a: Dbl, b: Dbl, i: int, j: int)
    requires NumIs(a, i) && NumIs(b, j)
    ensures Less(a, b) <==> i < j
    ensures Equal(a, b) <==> i == j
  {
    UnitsOfNum(a, i); UnitsOfNum(b, j);
    Distribute(i, -j, One());
    assert (-j) * One() == -(j * One());
  }

  lemma TruthyNum(a: Dbl, i: int)
    requires NumIs(a, i)
    ensures Truthy(a) <==> i != 0
  {
    UnitsOfNum(a, i);
  }

  lemma ToInt32Num(a: Dbl, i: int)
    requires NumIs(a, i)
    ensures ToInt32(a) == S32(i) && ToUint32(a) == U32(i)
  {
    UnitsOfNum(a, i);
    Distribute(i, 0, One());
    ModUnique(Abs(i) * One(), One(), Abs(i), 0);
  }

  /** The integer remainder `r` of `i`, as the double JS answers: a zero takes the dividend's sign. */
  function SignedRem(i: int, r: nat): Dbl
  {
    if r == 0 then Zero(i < 0) else OfInt(if i < 0 then -(r as int) else r)
  }

  lemma RemOfInts(i: int, j: int, r: nat)
    requires j != 0 && r == Abs(i) % Abs(j)
    ensures Rem(OfInt(i), OfInt(j)) == SignedRem(i, r)
  {
    if i != 0 {
      RemMags(i < 0, j < 0, Abs(i), Abs(j), Abs(i) * One(), Abs(j) * One(), r);
      SignedRemFin(i, r);
    } else {
      ModUnique(0, Abs(j), 0, 0);
    }
  }

  lemma SignedRemFin(i: int, r: nat)
    ensures SignedRem(i, r) == if r == 0 then Zero(i < 0) else Fin(i < 0, r * One())
  {
  }

  lemma RemMags(n: bool, n': bool, x: nat, y: nat, mx: nat, my: nat, r: nat)
    requires y > 0 && mx == x * One() && my == y * One() && r == x % y
    ensures Rem(Fin(n, mx), Fin(n', my)) == if r == 0 then Zero(n) else Fin(n, r * One())
  {
    RemScale(x, y, One(), mx, my);
    if r != 0 { MulAtLeast(One(), r); }
  }

  lemma RemScale(x: nat, y: nat, u: nat, mx: nat, my: nat)
    requires y > 0 && u > 0 && mx == x * u && my == y * u
    ensures my > 0 && mx % my == (x % y) * u
  {
    var q, r := x / y, x % y;
    assert x == y * q + r;
    MulAtLeast(y, u);
    assert x * u == (y * u) * q + r * u by {
      assert (y * q + r) * u == (y * q) * u + r * u;
      assert (y * q) * u == (y * u) * q;
    }
    assert r * u < y * u by { assert (y - r) * u >= 1; assert (y - r) * u == y * u - r * u; }
    ModUnique(x * u, y * u, q, r * u);
  }

  // ------------------------------------------------------------------ the 64-bit encoding

  const SIGN: nat := 0x8000_0000_0000_0000
  const HIDDEN: nat := 0x10_0000_0000_0000   // 2^52, the implicit leading bit
  const QUIET_NAN: nat := 0x7FF8_0000_0000_0000

  /** The double a 64-bit pattern stands for (section 3.4 of IEEE 754-2019). */
  function Decode(u: nat): Dbl
  {
    var neg, body := u >= SIGN, u % SIGN;
    var ex, man := body / HIDDEN, body % HIDDEN;
    if ex >= 2047 then (if man == 0 then Inf(neg) else NaN)
    else if ex == 0 then (if man == 0 then Zero(neg) else Fin(neg, man))
    else Fin(neg, (HIDDEN + man) * Pow2(ex - 1))
  }

  /** The pattern of a double; a NaN gets the canonical quiet pattern. */
  function Encode(d: Dbl): nat
  {
    match d
    case NaN => QUIET_NAN
    case Inf(n) => (if n then SIGN else 0) + 2047 * HIDDEN
    case Zero(n) => if n then SIGN else 0
    case Fin(n, m) => (if n then SIGN else 0) + EncodeMag(m)
  }

  function EncodeMag(m: nat): nat
  {
    var n := BitLen(m);
    if n <= 52 then m
    else
      BitLenBounds(m);
      LeadingDigits(m);
      (n - 52) * HIDDEN + (m / Pow2(n - 53) - HIDDEN)
  }

  /** The leading 53 bits of a magnitude include the hidden bit. */
  lemma LeadingDigits(m: nat)
    requires BitLen(m) > 52
    ensures HIDDEN <= m / Pow2(BitLen(m) - 53) < 2 * HIDDEN
  {
    Pow2Values();
    BitLenBounds(m);
    var n := BitLen(m);
    Pow2Add(52, n - 53);
    Pow2Add(53, n - 53);
    QuotientBounds(m, Pow2(n - 53), HIDDEN, 2 * HIDDEN);
  }

  lemma QuotientBounds(m: nat, p: nat, lo: nat, hi: nat)
    requires p > 0 && lo * p <= m < hi * p
    ensures lo <= m / p < hi
  {
    var q := m / p;
    assert q * p <= m < (q + 1) * p;
    LessCancel(q, hi, p);
    LessCancel(lo, q + 1, p);
  }

  lemma LessCancel(a: nat, b: nat, p: nat)
    requires a * p < b * p
    ensures a < b
  {
    if b <= a { ProductMono(b, a, p); }
  }

  lemma DecodeNormal(neg: bool, ex: nat, man: nat)
    requires 1 <= ex < 2047 && man < HIDDEN
    ensures Decode((if neg then SIGN else 0) + ex * HIDDEN + man) == Fin(neg, (HIDDEN + man) * Pow2(ex - 1))
  {
    var body := ex * HIDDEN + man;
    assert body < SIGN;
    ModUnique(body, HIDDEN, ex, man);
    if neg { ModUnique(SIGN + body, SIGN, 1, body); } else { ModUnique(body, SIGN, 0, body); }
  }

  /** Every double with at most 53 significant bits is recovered from its pattern. */
  lemma DecodeEncode(neg: bool, m: nat)
    requires 0 < m && BitLen(m) <= 2098 && Representable(m)
    ensures Decode(Encode(Fin(neg, m))) == Fin(neg, m)
    ensures EncodeMag(m) < 2047 * HIDDEN
  {
    if BitLen(m) <= 52 {
      DecodeEncodeSmall(neg, m);
    } else {
      DecodeEncodeNormal(neg, m, BitLen(m));
    }
  }

  lemma DecodeSubnormal(neg: bool, man: nat)
    requires 0 < man < HIDDEN
    ensures Decode((if neg then SIGN else 0) + man) == Fin(neg, man)
  {
    ModUnique(man, HIDDEN, 0, man);
    if neg { ModUnique(SIGN + man, SIGN, 1, man); } else { ModUnique(man, SIGN, 0, man); }
  }

  lemma DecodeEncodeSmall(neg: bool, m: nat)
    requires 0 < m && BitLen(m) <= 52
    ensures Decode(Encode(Fin(neg, m))) == Fin(neg, m)
    ensures EncodeMag(m) < 2047 * HIDDEN
  {
    SmallMagnitude(m);
    DecodeSubnormal(neg, m);
  }

  lemma SmallMagnitude(m: nat)
    requires BitLen(m) <= 52
    ensures EncodeMag(m) == m < HIDDEN
  {
    Pow2Values();
    BitLenBounds(m);
    Pow2Mono(BitLen(m), 52);
  }

  lemma DecodeEncodeNormal(neg: bool, m: nat, n: nat)
    requires 52 < n == BitLen(m) <= 2098 && Representable(m)
    ensures Decode(Encode(Fin(neg, m))) == Fin(neg, m)
    ensures EncodeMag(m) < 2047 * HIDDEN
  {
    hide BitLen;
    LeadingDigits(m);
    WholeQuotient(m, n);
    DecodeNormal(neg, n - 52, m / Pow2(n - 53) - HIDDEN);
  }

  lemma WholeQuotient(m: nat, n: nat)
    requires n == BitLen(m) > 52 && Representable(m)
    ensures m / Pow2(n - 53) * Pow2(n - 53) == m
  {
    if n == 53 { assert Pow2(0) == 1; }
  }

  /** The pattern of a band integer, of -0, and what it decodes to. */
  lemma IntegerPattern(i: int)
    requires InBand(i)
    ensures Decode(Encode(OfInt(i))) == OfInt(i)
    ensures Encode(OfInt(i)) < SIGN + 2047 * HIDDEN
    ensures i >= 0 ==> Encode(OfInt(i)) < 2047 * HIDDEN
    ensures i < 0 ==> Encode(OfInt(i)) >= SIGN
  {
    if i != 0 {
      var m := Abs(i) * One();
      MulAtLeast(One(), Abs(i));
      IntegerRepresentable(Abs(i), 1074, m);
      IntegerBelow(Abs(i), 1074, 2098);
      BitLenAtMost(m, 2098);
      DecodeEncode(i < 0, m);
    }
  }

}
