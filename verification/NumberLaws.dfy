/** What the operators of a Number compute (section 6.1.6.1 of ECMA-262), said without their definitions:
    rounding gives a nearest 53-bit value, ties to the even one; quotients, remainders, the order,
    truth and the conversions to 32 bits; and the bitwise operators bit by bit. */
module NumberLaws {
  import opened Bits
  import opened Float64

  // ------------------------------------------------------------------ rounding

  /** The last of the 53 significant bits of `q` is 0. */
  predicate EvenLast(q: nat)
  {
    (q / Pow2(if BitLen(q) > 53 then BitLen(q) - 53 else 0)) % 2 == 0
  }

  /** How far `q` is from `num / den`, times `den`. */
  function Gap(num: nat, den: nat, q: nat): nat { Abs(num - q * den) }

  /** `q` has 53 significant bits, no such value is closer to `num / den`, and where one is as close `q` is
      the even one. */
  ghost predicate Nearest(num: nat, den: nat, q: nat)
  {
    && Representable(q)
    && (forall x: nat | Representable(x) :: Gap(num, den, q) <= Gap(num, den, x))
    && (forall x: nat | Representable(x) && x != q && Gap(num, den, x) == Gap(num, den, q) :: EvenLast(q))
  }

  /** Rounding to nearest, ties to even. */
  lemma RoundsToNearest(num: nat, den: nat)
    requires den > 0
    ensures Nearest(num, den, RoundNat(num, den))
  {
    hide Representable, EvenLast, Pow2, BitLen, Gap, RoundNat;
    var s, p, t, r, up := Parts(num, den);
    var k := if up then t + 1 else t;
    var q := k * p;
    Leading(num, den, s, t);
    StepRepresentable(k, s);
    forall x: nat | Representable(x)
      ensures Gap(num, den, q) <= Gap(num, den, x)
      ensures x != q && Gap(num, den, x) == Gap(num, den, q) ==> 2 * r == den * p
    {
      Outside(x, t, s);
      Closer(num, den, p, t, r, up, x);
    }
    if 2 * r == den * p { EvenStep(k, s); }
  }

  /** The quotient at the precision kept, what is cut off, and the direction of rounding. */
  lemma Parts(num: nat, den: nat) returns (s: nat, p: nat, t: nat, r: nat, up: bool)
    requires den > 0
    ensures s == (var n := BitLen(num / den); if n > 53 then n - 53 else 0) && p == Pow2(s) > 0 && den * p > 0
    ensures t == num / (den * p) && r == num % (den * p)
    ensures up <==> 2 * r > den * p || (2 * r == den * p && t % 2 == 1)
    ensures RoundNat(num, den) == (if up then t + 1 else t) * p
  {
    hide Pow2, BitLen, Shl;
    var n := BitLen(num / den);
    s := if n > 53 then n - 53 else 0;
    p := Pow2(s);
    PowerPositive(s);
    ShlIsTimes(den, s);
    DivisorPositive(den, p);
    t, r := num / (den * p), num % (den * p);
    up := 2 * r > den * p || (2 * r == den * p && t % 2 == 1);
    ShlIsTimes(if up then t + 1 else t, s);
  }

  lemma DivisorPositive(den: nat, p: nat)
    requires den > 0 && p > 0
    ensures den * p > 0
  {
    MulAtLeast(den, p);
  }

  /** The leading part has 53 bits when anything is cut off. */
  lemma Leading(num: nat, den: nat, s: nat, t: nat)
    requires den > 0 && den * Pow2(s) > 0 && t == num / (den * Pow2(s))
    requires var n := BitLen(num / den); s == if n > 53 then n - 53 else 0
    ensures t < SAFE && (s > 0 ==> HIDDEN <= t)
  {
    hide BitLen, Pow2;
    var w := num / den;
    PowerPositive(s);
    DivideTwice(num, den, Pow2(s));
    if s > 0 {
      LeadingDigits(w);
    } else {
      NoShift();
      BitLenBounds(w);
      Pow2Mono(BitLen(w), 53);
      SafeValue();
    }
  }

  lemma NoShift()
    ensures Pow2(0) == 1
  {
  }

  lemma DivideTwice(num: nat, den: nat, p: nat)
    requires den > 0 && p > 0
    ensures den * p > 0 && num / (den * p) == num / den / p
  {
    DivisorPositive(den, p);
    var w, r := num / den, num % den;
    var q, k := w / p, w % p;
    Spread(num, den, p, w, q, k, r);
    ModUnique(num, den * p, q, den * k + r);
  }

  lemma Spread(num: nat, den: nat, p: nat, w: nat, q: nat, k: nat, r: nat)
    requires num == den * w + r && w == p * q + k && k < p && r < den
    ensures num == (den * p) * q + (den * k + r)
    ensures den * k + r < den * p
  {
    LessProduct(den, k, p, r);
    Expand(den, p, q, k);
  }

  lemma LessProduct(den: nat, k: nat, p: nat, r: nat)
    requires k < p && r < den
    ensures den * k + r < den * p
  {
    ProductMono(k + 1, p, den);
    assert den * (k + 1) == den * k + den;
  }

  lemma Expand(den: nat, p: nat, q: nat, k: nat)
    ensures den * (p * q + k) == (den * p) * q + den * k
  {
    assert den * (p * q) == (den * p) * q;
  }

  /** A 53-bit integer shifted has 53 significant bits. */
  lemma StepRepresentable(k: nat, s: nat)
    requires k <= SAFE
    ensures Representable(k * Pow2(s))
  {
    if k > 0 { IntegerRepresentable(k, s, k * Pow2(s)); } else { assert 0 * Pow2(s) == 0; FewBits(0); }
  }

  /** Nothing with 53 significant bits lies strictly between two neighbours. */
  lemma Outside(x: nat, t: nat, s: nat)
    requires Representable(x) && t < SAFE && (s > 0 ==> HIDDEN <= t)
    ensures x <= t * Pow2(s) || (t + 1) * Pow2(s) <= x
  {
    hide BitLen, Pow2, Representable;
    if s == 0 {
      NoShift();
    } else if t * Pow2(s) < x < (t + 1) * Pow2(s) {
      Between(x, t, s);
    }
  }

  lemma Between(x: nat, t: nat, s: nat)
    requires s > 0 && HIDDEN <= t < SAFE && t * Pow2(s) < x < (t + 1) * Pow2(s)
    ensures !Representable(x)
  {
    hide BitLen, Pow2;
    PowerPositive(s);
    Digits53(x, t, s);
    NoMultiple(x, Pow2(s), t);
  }

  /** A multiple of 2^s by a 53-bit factor, and what follows up to the next one, has 53 + s bits. */
  lemma Digits53(x: nat, t: nat, s: nat)
    requires HIDDEN <= t < SAFE && t * Pow2(s) <= x < (t + 1) * Pow2(s)
    ensures BitLen(x) == 53 + s
  {
    hide BitLen, Pow2;
    HiddenValue();
    Pow2Add(52, s); Pow2Add(53, s);
    ProductMono(HIDDEN, t, Pow2(s)); ProductMono(t + 1, SAFE, Pow2(s));
    Within(x, 52 + s);
  }

  lemma Within(x: nat, k: nat)
    requires Pow2(k) <= x < Pow2(k + 1)
    ensures BitLen(x) == k + 1
  {
    BitLenUnique(x, k);
  }

  lemma HiddenValue()
    ensures HIDDEN == Pow2(52) && SAFE == Pow2(53) && HIDDEN % 2 == 0 && SAFE == 2 * HIDDEN
  {
    Pow2Values();
  }

  lemma NoMultiple(x: nat, p: nat, t: nat)
    requires p > 0 && t * p < x < (t + 1) * p
    ensures x % p != 0
  {
    assert (t + 1) * p == t * p + p;
    assert x == p * t + (x - t * p) by { assert p * t == t * p; }
    ModUnique(x, p, t, x - t * p);
  }

  /** The neighbour chosen is at least as close as anything outside the two, and a tie is a tie of both. */
  lemma Closer(num: nat, den: nat, p: nat, t: nat, r: nat, up: bool, x: nat)
    requires den > 0 && p > 0 && den * p > 0 && t == num / (den * p) && r == num % (den * p)
    requires up <==> 2 * r > den * p || (2 * r == den * p && t % 2 == 1)
    requires x <= t * p || (t + 1) * p <= x
    ensures var q := if up then (t + 1) * p else t * p;
            && Gap(num, den, q) <= Gap(num, den, x)
            && (x != q && Gap(num, den, x) == Gap(num, den, q) ==> 2 * r == den * p)
  {
    var d := den * p;
    var lo, hi := t * p, (t + 1) * p;
    assert num == d * t + r && r < d;
    Swap(t, p, den); Swap(t + 1, p, den);
    if x <= lo {
      ProductMono(x, lo, den);
      if x < lo { Strictly(x, lo, den); }
    } else {
      ProductMono(hi, x, den);
      if hi < x { Strictly(hi, x, den); }
    }
  }

  lemma Swap(t: nat, p: nat, den: nat)
    ensures (t * p) * den == (den * p) * t && (den * p) * (t + 1) == (den * p) * t + den * p
  {
    assert (t * p) * den == t * (p * den);
  }

  lemma Strictly(x: nat, y: nat, z: nat)
    requires x < y && z > 0
    ensures x * z < y * z
  {
    ProductMono(x + 1, y, z);
    assert (x + 1) * z == x * z + z;
  }

  /** An even 53-bit factor leaves the last place even; so does 2^53. */
  lemma EvenStep(k: nat, s: nat)
    requires k % 2 == 0 && k <= SAFE && (s > 0 ==> HIDDEN <= k)
    ensures EvenLast(k * Pow2(s))
  {
    hide BitLen, Pow2, EvenLast;
    HiddenValue();
    PowerPositive(s);
    if k == SAFE {
      Carried(s);
    } else if s > 0 {
      assert k * Pow2(s) < (k + 1) * Pow2(s) by { Strictly(k, k + 1, Pow2(s)); }
      Digits53(k * Pow2(s), k, s);
      EvenFactor(k * Pow2(s), k, s);
    } else {
      NoShift();
      BitLenAtMost(k, 53);
      EvenFactor(k, k, 0);
    }
  }

  lemma EvenFactor(q: nat, k: nat, s: nat)
    requires k % 2 == 0 && q == k * Pow2(s) && s == if BitLen(q) > 53 then BitLen(q) - 53 else 0
    ensures EvenLast(q)
  {
    hide BitLen, Pow2;
    PowerPositive(s);
    assert k * Pow2(s) == Pow2(s) * k;
    ModUnique(q, Pow2(s), k, 0);
  }

  lemma Carried(s: nat)
    ensures EvenLast(SAFE * Pow2(s))
  {
    hide BitLen, Pow2, EvenLast;
    HiddenValue();
    Pow2Add(53, s); Pow2Add(52, s + 1);
    PowerUp(53 + s);
    Within(SAFE * Pow2(s), 53 + s);
    EvenFactor(SAFE * Pow2(s), HIDDEN, s + 1);
  }

  lemma PowerUp(n: nat)
    ensures Pow2(n) < Pow2(n + 1)
  {
  }

  // ------------------------------------------------------------------ arithmetic

  /** A sum is the exact one, rounded. */
  lemma AddRounds(a: Dbl, b: Dbl)
    requires a.Fin? && b.Fin?
    ensures var exact := a.Units() + b.Units();
            if exact == 0 then Add(a, b) == Zero(a.neg && b.neg)
            else exists q :: Nearest(Abs(exact), 1, q) && Add(a, b) == Pack(exact < 0, q)
  {
    hide Nearest, RoundNat, Pack;
    RoundsToNearest(Abs(a.Units() + b.Units()), 1);
  }

  /** A product is the exact one, rounded; its sign is negative when the signs differ. */
  lemma MulRounds(a: Dbl, b: Dbl)
    requires a.Fin? && b.Fin?
    ensures exists q :: Nearest(a.mag * b.mag, One(), q) && Mul(a, b) == Pack(a.neg != b.neg, q)
  {
    hide Nearest, RoundNat, Pack, One;
    RoundsToNearest(a.mag * b.mag, One());
  }

  /** So is a quotient. */
  lemma DivRounds(a: Dbl, b: Dbl)
    requires a.Fin? && b.Fin? && b.mag > 0
    ensures exists q :: Nearest(a.mag * One(), b.mag, q) && Div(a, b) == Pack(a.neg != b.neg, q)
  {
    hide Nearest, RoundNat, Pack, One;
    RoundsToNearest(a.mag * One(), b.mag);
  }

  /** An exact quotient is not rounded. */
  lemma DivExact(a: Dbl, b: Dbl, q: nat)
    requires a.Fin? && b.Fin? && b.mag > 0 && Representable(q) && a.mag * One() == q * b.mag
    ensures Div(a, b) == Pack(a.neg != b.neg, q)
  {
    hide RoundNat, Pack, One, Representable;
    RoundExact(q, b.mag, a.mag * One());
  }

  /** Dividing a product of integers by one of them gives the other. */
  lemma DivOfInts(i: int, j: int)
    requires j != 0 && InBand(i) && InBand(i * j)
    ensures Div(OfInt(i * j), OfInt(j)) == if i == 0 then Zero(j < 0) else OfInt(i)
  {
    hide Pow2, Representable, RoundNat;
    if i == 0 {
      assert i * j == 0;
    } else {
      var u := One();
      SignsOf(i, j);
      Magnitudes(i, j, u);
      IntegerRepresentable(Abs(i), 1074, Abs(i) * u);
      DivExact(OfInt(i * j), OfInt(j), Abs(i) * u);
      IntegerBelow(Abs(i), 1074, 2098);
      MulAtLeast(u, Abs(i));
    }
  }

  lemma SignsOf(i: int, j: int)
    requires i != 0 && j != 0
    ensures i * j != 0 && (i * j < 0 <==> (i < 0) != (j < 0)) && Abs(i * j) == Abs(i) * Abs(j)
  {
    if i > 0 && j > 0 { MulAtLeast(i, j); }
    if i > 0 && j < 0 { MulAtLeast(i, -j); assert i * j == -(i * -j); }
    if i < 0 && j > 0 { MulAtLeast(-i, j); assert i * j == -(-i * j); }
    if i < 0 && j < 0 { MulAtLeast(-i, -j); assert i * j == -i * -j; }
  }

  lemma Magnitudes(i: int, j: int, u: nat)
    requires Abs(i * j) == Abs(i) * Abs(j) && u > 0 && j != 0
    ensures (Abs(i * j) * u) * u == (Abs(i) * u) * (Abs(j) * u) && Abs(j) * u > 0
  {
    MulAtLeast(u, Abs(j));
    FourFactors(Abs(i), Abs(j), u);
  }

  lemma FourFactors(x: nat, y: nat, u: nat)
    ensures ((x * y) * u) * u == (x * u) * (y * u)
  {
    assert (x * u) * (y * u) == x * (u * (y * u));
    assert u * (y * u) == (y * u) * u;
    assert (x * y) * u == x * (y * u);
    assert (x * (y * u)) * u == x * ((y * u) * u);
  }

  /** Where the operators do not round: NaN, infinities and zeros, with their signs. */
  lemma DivSpecial(a: Dbl, b: Dbl)
    ensures a.NaN? || b.NaN? || (a.Inf? && b.Inf?) || (a.Zero? && b.Zero?) ==> Div(a, b).NaN?
    ensures (a.Inf? && (b.Zero? || b.Fin?)) || (a.Fin? && b.Zero?) ==> Div(a, b) == Inf(a.neg != b.neg)
    ensures (b.Inf? && (a.Zero? || a.Fin?)) || (a.Zero? && b.Fin? && b.mag > 0) ==> Div(a, b) == Zero(a.neg != b.neg)
  {
  }

  lemma MulSpecial(a: Dbl, b: Dbl)
    ensures a.NaN? || b.NaN? || (a.Inf? && b.Zero?) || (a.Zero? && b.Inf?) ==> Mul(a, b).NaN?
    ensures (a.Inf? && (b.Inf? || b.Fin?)) || (a.Fin? && b.Inf?) ==> Mul(a, b) == Inf(a.neg != b.neg)
    ensures (a.Zero? && (b.Zero? || b.Fin?)) || (a.Fin? && b.Zero?) ==> Mul(a, b) == Zero(a.neg != b.neg)
  {
  }

  lemma AddSpecial(a: Dbl, b: Dbl)
    ensures a.NaN? || b.NaN? || (a.Inf? && b.Inf? && a.neg != b.neg) ==> Add(a, b).NaN?
    ensures a.Inf? && (b.Zero? || b.Fin? || b == a) ==> Add(a, b) == a && Add(b, a) == a
    ensures a.Zero? && b.Zero? ==> Add(a, b) == Zero(a.neg && b.neg)
    ensures Add(a, b) == Add(b, a)
  {
  }

  /** The remainder: what is left of the dividend, with the dividend's sign, below the divisor. */
  lemma RemIs(a: Dbl, b: Dbl) returns (k: nat, r: nat)
    ensures a.Fin? && b.Fin? && b.mag > 0 ==>
            a.mag == k * b.mag + r && r < b.mag && Rem(a, b) == WithSign(a.neg, r)
    ensures a.NaN? || b.NaN? || a.Inf? || b.Zero? ==> Rem(a, b).NaN?
    ensures (a.Zero? && ((b.Fin? && b.mag > 0) || b.Inf?)) || (a.Fin? && b.Inf?) ==> Rem(a, b) == a
  {
    k, r := 0, 0;
    if a.Fin? && b.Fin? && b.mag > 0 {
      k, r := a.mag / b.mag, a.mag % b.mag;
      assert a.mag == k * b.mag + r;
    }
  }

  /** Negation flips the sign, of zeros and infinities as well. */
  lemma NegIs(a: Dbl)
    ensures Neg(Neg(a)) == a && (a.NaN? <==> Neg(a).NaN?)
    ensures !a.NaN? ==> Neg(a).neg != a.neg && Neg(a).Units() == -a.Units() && (Neg(a).Inf? <==> a.Inf?)
  {
  }

  /** The largest finite double, pattern 0x7FEF_FFFF_FFFF_FFFF: one step more overflows to infinity. */
  lemma RangeIs(neg: bool)
    ensures Decode(0x7FEF_FFFF_FFFF_FFFF) == Fin(false, (SAFE - 1) * Pow2(2045))
    ensures Pack(neg, (SAFE - 1) * Pow2(2045)) == Fin(neg, (SAFE - 1) * Pow2(2045))
    ensures Pack(neg, SAFE * Pow2(2045)) == Inf(neg)
  {
    hide Pow2, Decode;
    HiddenValue();
    DecodeNormal(false, 2046, HIDDEN - 1);
    Pow2Add(53, 2045);
    PowerPositive(2045);
    Strictly(SAFE - 1, SAFE, Pow2(2045));
    Strictly(0, SAFE - 1, Pow2(2045));
    LimitIs();
  }

  lemma LimitIs()
    ensures Limit() == Pow2(53 + 2045)
  {
  }

  // ------------------------------------------------------------------ order and truth

  /** A Number that is not NaN. */
  predicate Ordered(a: Dbl) { !a.NaN? && (a.Fin? ==> a.mag > 0) }

  /** Less is the order of the values, with the infinities at the ends; the two zeros are equal; NaN is
      unordered and unequal to everything. */
  lemma OrderIs(a: Dbl, b: Dbl)
    ensures a.NaN? || b.NaN? ==> !Less(a, b) && !Equal(a, b)
    ensures a == Inf(false) ==> !Less(a, b) && (Equal(a, b) <==> b == a) && (Ordered(b) && b != a ==> Less(b, a))
    ensures a == Inf(true) ==> !Less(b, a) && (Equal(a, b) <==> b == a) && (Ordered(b) && b != a ==> Less(a, b))
    ensures (a.Zero? || a.Fin?) && (b.Zero? || b.Fin?) ==>
            (Less(a, b) <==> a.Units() < b.Units()) && (Equal(a, b) <==> a.Units() == b.Units())
  {
  }

  /** Exactly one of less, equal and greater. */
  lemma Trichotomy(a: Dbl, b: Dbl)
    requires Ordered(a) && Ordered(b)
    ensures Less(a, b) || Equal(a, b) || Less(b, a)
    ensures !(Less(a, b) && Equal(a, b)) && !(Less(a, b) && Less(b, a)) && !(Equal(a, b) && Less(b, a))
  {
  }

  lemma LessTransitive(a: Dbl, b: Dbl, c: Dbl)
    requires Less(a, b) && Less(b, c)
    ensures Less(a, c)
  {
  }

  // ------------------------------------------------------------------ conversion to 32 bits

  /** Truncation drops the fraction, towards zero. */
  lemma TruncateIs(a: Dbl)
    requires a.Fin? || a.Zero?
    ensures var t, u := Truncate(a), Abs(a.Units());
            Abs(t) * One() <= u < (Abs(t) + 1) * One() && (t != 0 ==> (t < 0 <==> a.neg && a.Fin?))
  {
    hide Pow2;
    var u := Abs(a.Units());
    var t := Quotient(u, One());
    assert u == One() * t + u % One();
    assert One() * t == t * One() && (t + 1) * One() == t * One() + One();
  }

  /** ToInt32 and ToUint32: the integer part modulo 2^32, in the range of the type; 0 for NaN and the
      infinities. */
  lemma Int32Is(a: Dbl)
    ensures -TWO31 <= ToInt32(a) < TWO31 && 0 <= ToUint32(a) < TWO32
    ensures a.Fin? || a.Zero? ==>
            (ToInt32(a) - Truncate(a)) % 0x1_0000_0000 == 0 && (ToUint32(a) - Truncate(a)) % 0x1_0000_0000 == 0
    ensures a.NaN? || a.Inf? ==> ToInt32(a) == 0 && ToUint32(a) == 0
  {
    hide Truncate;
    if a.Fin? || a.Zero? { Congruent(Truncate(a)); }
  }

  lemma Congruent(i: int)
    ensures (S32(i) - i) % 0x1_0000_0000 == 0 && (U32(i) - i) % 0x1_0000_0000 == 0
  {
    var k := (i + TWO31) / TWO32;
    ModUnique(S32(i) - i, TWO32, -k, 0);
    ModUnique(U32(i) - i, TWO32, -(i / TWO32), 0);
  }

  // ------------------------------------------------------------------ bit by bit

  function BitAt(a: nat, i: nat): nat { if i == 0 then a % 2 else BitAt(a / 2, i - 1) }

  /** The bitwise operators work on each bit alone. */
  lemma {:induction false} BitwiseAt(a: nat, b: nat, i: nat)
    ensures BitAt(BitAnd(a, b), i) == 1 <==> BitAt(a, i) == 1 && BitAt(b, i) == 1
    ensures BitAt(BitOr(a, b), i) == 1 <==> BitAt(a, i) == 1 || BitAt(b, i) == 1
    ensures BitAt(BitXor(a, b), i) == 1 <==> BitAt(a, i) != BitAt(b, i)
    ensures BitAt(a, i) < 2 && BitAt(b, i) < 2
    decreases i
  {
    hide BitAnd, BitOr, BitXor;
    AndHalves(a, b); OrHalves(a, b); XorHalves(a, b);
    if i > 0 { BitwiseAt(a / 2, b / 2, i - 1); }
  }

  /** The last bit, and the bits before it. */
  lemma AndHalves(a: nat, b: nat)
    ensures BitAnd(a, b) / 2 == BitAnd(a / 2, b / 2) && (BitAnd(a, b) % 2 == 1 <==> a % 2 == 1 && b % 2 == 1)
  {
    if a > 0 && b > 0 {
      var bit := if a % 2 == 1 && b % 2 == 1 then 1 else 0;
      LastBits(a % 2, b % 2);
      AndIs(a, b, bit);
      HalfOf(bit, BitAnd(a / 2, b / 2));
    }
  }

  lemma AndIs(a: nat, b: nat, bit: nat)
    requires a > 0 && b > 0 && (a % 2) * (b % 2) == bit
    ensures BitAnd(a, b) == bit + 2 * BitAnd(a / 2, b / 2)
  {
  }

  lemma LastBits(x: nat, y: nat)
    requires x < 2 && y < 2
    ensures x * y == if x == 1 && y == 1 then 1 else 0
  {
  }

  lemma OrHalves(a: nat, b: nat)
    ensures BitOr(a, b) / 2 == BitOr(a / 2, b / 2) && (BitOr(a, b) % 2 == 1 <==> a % 2 == 1 || b % 2 == 1)
  {
    if a > 0 && b > 0 { HalfOf(if a % 2 + b % 2 > 0 then 1 else 0, BitOr(a / 2, b / 2)); }
  }

  lemma XorHalves(a: nat, b: nat)
    ensures BitXor(a, b) / 2 == BitXor(a / 2, b / 2) && (BitXor(a, b) % 2 == 1 <==> a % 2 != b % 2)
  {
    if a > 0 && b > 0 {
      var bit := if a % 2 == b % 2 then 0 else 1;
      SumBit(a, b);
      XorIs(a, b, bit);
      HalfOf(bit, BitXor(a / 2, b / 2));
    }
  }

  lemma XorIs(a: nat, b: nat, bit: nat)
    requires a > 0 && b > 0 && (a + b) % 2 == bit
    ensures BitXor(a, b) == bit + 2 * BitXor(a / 2, b / 2)
  {
  }

  lemma SumBit(a: nat, b: nat)
    ensures (a + b) % 2 == if a % 2 == b % 2 then 0 else 1
  {
    var x, y := a / 2, b / 2;
    assert a == 2 * x + a % 2 && b == 2 * y + b % 2;
  }

  lemma HalfOf(bit: nat, rest: nat)
    requires bit < 2
    ensures (bit + 2 * rest) / 2 == rest && (bit + 2 * rest) % 2 == bit
  {
  }
}
