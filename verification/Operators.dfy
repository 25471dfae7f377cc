/** The native operators against the JS Number operators. */
module Operators {
  import opened Options
  import opened Bits
  import opened Float64
  import opened NanBox
  import opened Bytecode
  import opened Interp
  import opened Ir
  import opened Emit
  import opened Native

  /** The value word `w` is the integer `i`, up to the sign of zero, and `i` is in the band. */
  predicate SameNum(w: Word, i: int)
  {
    IsNumber(w) && InBand(i) && NumIs(NumOf(w), i)
  }

  /** The boolean word `w` is the raw truth value `i`. */
  predicate SameBool(w: Word, i: int)
  {
    (w == TRUE && i == 1) || (w == FALSE && i == 0)
  }

  /** `makeNumber` of a band integer, up to the sign of zero. */
  lemma MakeNum(d: Dbl, i: int)
    requires NumIs(d, i) && InBand(i)
    ensures SameNum(MakeNumber(Encode(d)), i)
  {
    MakeInt(i);
    MakeNegZero();
  }

  // ------------------------------------------------------------------ bitwise operators

  lemma S32Again(x: int)
    ensures S32(S32(x)) == S32(x) && U32(S32(x)) == U32(x) && IsI32(S32(x))
  {
  }

  /** Masking the shift count to its low five bits is reducing it modulo 32. */
  lemma ShiftCount(y: int)
    ensures U32(S32(BitAnd(U32(S32(y)), U32(31)))) % 32 == U32(y) % 32
  {
    hide BitAnd;
    S32Again(y);
    FiveBits(U32(y));
  }

  lemma FiveBits(u: nat)
    requires u < TWO32
    ensures U32(S32(BitAnd(u, U32(31)))) % 32 == u % 32
  {
    hide BitAnd;
    AndLowMask(u, 5);
    assert Pow2(5) == 32;
  }

  lemma LogicAgrees(op: int, x: int, y: int)
    requires op == BIT_AND || op == BIT_OR || op == BIT_XOR
    ensures BitsInt(op, x, y)
         == S32(if op == BIT_AND then BitAnd(U32(S32(x)), U32(S32(y)))
                else if op == BIT_OR then BitOr(U32(S32(x)), U32(S32(y))) else BitXor(U32(S32(x)), U32(S32(y))))
  {
    hide FloatBin, S32, U32;
  }

  lemma ShiftAgrees(op: int, x: int, y: int)
    requires op == SHL || op == SHR || op == USHR
    ensures var c := U32(y) % 32;
      BitsInt(op, x, y) == if op == SHL then S32(S32(x) * Pow2(c)) else if op == SHR then S32(x) / Pow2(c)
          else U32(x) / Pow2(c)
  {
    hide FloatBin, S32, U32, BitAnd;
    var n := U32(S32(BitAnd(U32(S32(y)), U32(31)))) % 32;
    var c := U32(y) % 32;
    ShiftCount(y);
    assert n == c;
    assert BitsInt(op, x, y) == if op == SHL then S32(ShlInt(S32(x), n)) else if op == SHR then ShrInt(S32(x), n)
                               else U32(S32(ShrInt(U32(S32(x)), n)));
    if op == SHL {
      ShlIntIsTimes(S32(x), c);
    } else if op == SHR {
      ShrIntIsDiv(S32(x), c);
    } else {
      ShrIntIsDiv(U32(S32(x)), c);
      UnsignedShift(x, Pow2(c));
    }
  }

  lemma UnsignedShift(x: int, p: nat)
    requires p >= 1
    ensures U32(S32(U32(S32(x)) / p)) == U32(x) / p
  {
    S32Again(x);
    S32Again(U32(x) / p);
    QuotientBetween(U32(x), p);
  }

  /** Without a guard, the native bitwise operators are ToInt32/ToUint32 followed by the operator. */
  lemma BitsAgree(op: int, a: Dbl, b: Dbl, x: int, y: int)
    requires IsBitBinary(op) && NumIs(a, x) && NumIs(b, y)
    ensures BitOp(op, a, b) == BitsInt(op, x, y)
  {
    hide FloatBin, S32, U32, BitsInt, BitAnd, BitOr, BitXor;
    ToInt32Num(a, x); ToInt32Num(b, y);
    if op == BIT_AND || op == BIT_OR || op == BIT_XOR { LogicAgrees(op, x, y); } else { ShiftAgrees(op, x, y); }
  }

  lemma QuotientBetween(x: int, p: nat)
    requires p >= 1
    ensures if x >= 0 then 0 <= x / p <= x else x <= x / p < 0
  {
    DivisionBetween(x, p, x / p, x % p);
  }

  lemma DivisionBetween(x: int, p: nat, q: int, r: int)
    requires p >= 1 && x == p * q + r && 0 <= r < p
    ensures if x >= 0 then 0 <= q <= x else x <= q < 0
  {
    if q >= 1 {
      MulAtLeast(q, p);
    } else if q < 0 {
      Scaled(q, p);
    }
  }

  lemma Scaled(q: int, p: nat)
    requires q < 0 && p >= 1
    ensures p * q + p <= 0 && p * q + p - 1 <= q
  {
    assert p * q + p == p * (q + 1);
    if q < -1 { MulAtLeast(-(q + 1), p); assert p * (q + 1) == -(p * -(q + 1)); }
  }

  /** A bitwise result is an int32, or a uint32 for the unsigned shift. */
  lemma BitsRange(op: int, x: int, y: int)
    requires IsBitBinary(op)
    ensures if op == USHR then 0 <= BitsInt(op, x, y) < TWO32 else IsI32(BitsInt(op, x, y))
  {
    hide FloatBin, BitsInt;
    if op == BIT_AND || op == BIT_OR || op == BIT_XOR {
      LogicAgrees(op, x, y);
    } else {
      ShiftAgrees(op, x, y);
      QuotientBetween(S32(x), Pow2(U32(y) % 32));
      QuotientBetween(U32(x), Pow2(U32(y) % 32));
    }
  }

  lemma {:induction false} XorOnes(a: nat, k: nat)
    requires a < Pow2(k)
    ensures BitXor(a, Pow2(k) - 1) == Pow2(k) - 1 - a
  {
    if k > 0 {
      XorOnes(a / 2, k - 1);
      XorStep(a, Pow2(k - 1));
    }
  }

  lemma XorStep(a: nat, p: nat)
    requires p >= 1 && a < 2 * p && BitXor(a / 2, p - 1) == p - 1 - a / 2
    ensures BitXor(a, 2 * p - 1) == 2 * p - 1 - a
  {
    hide BitXor;
    var b := 2 * p - 1;
    assert b / 2 == p - 1 && b % 2 == 1;
    XorUnfold(a, b);
    Parity(a, b);
  }

  lemma Parity(a: nat, b: nat)
    requires b % 2 == 1
    ensures (a + b) % 2 == 1 - a % 2 && a == 2 * (a / 2) + a % 2
  {
  }

  lemma XorUnfold(a: nat, b: nat)
    ensures BitXor(a, b) == if a == 0 then b else if b == 0 then a else (a + b) % 2 + 2 * BitXor(a / 2, b / 2)
  {
  }

  lemma Complement(x: int)
    ensures U32(-1) == TWO32 - 1 && S32(TWO32 - 1 - U32(x)) == -1 - S32(x)
  {
  }

  /** Xor with all ones is `-1 - x` on 32 bits. */
  lemma NotAgrees(a: Dbl, x: int)
    requires NumIs(a, x)
    ensures -1 - ToInt32(a) == NotInt(x) && IsI32(NotInt(x))
  {
    hide ToInt32, BitXor;
    ToInt32Num(a, x);
    S32Again(x);
    assert Pow2(32) == TWO32 by { Pow2Values(); }
    XorOnes(U32(x), 32);
    Complement(x);
  }

  lemma CompareAgrees(op: int, a: Dbl, b: Dbl, x: int, y: int)
    requires IsCompare(op) && NumIs(a, x) && NumIs(b, y)
    ensures Compare(op, a, b) <==> CmpInt(op, x, y)
  {
    LessNum(a, b, x, y); LessNum(b, a, y, x);
  }

  // ------------------------------------------------------------------ the int lane

  /** A guarded ADD, SUB or MUL that stays in the band is the Number result. */
  lemma ArithAgrees(op: int, a: Word, b: Word, x: int, y: int)
    requires IsArith(op) && SameNum(a, x) && SameNum(b, y) && InBand(WideInt(op, x, y))
    ensures SameNum(NumBinary(op, a, b), WideInt(op, x, y))
  {
    hide MakeNumber, Encode, Add, Sub, Mul, NumOf, NumIs;
    var d, e := NumOf(a), NumOf(b);
    if op == ADD { AddNum(d, e, x, y); } else if op == SUB { SubNum(d, e, x, y); } else { MulNum(d, e, x, y); }
    MakeNum(Arith(op, d, e), WideInt(op, x, y));
  }

  lemma BitBinaryAgrees(op: int, a: Word, b: Word, x: int, y: int)
    requires IsBitBinary(op) && SameNum(a, x) && SameNum(b, y)
    ensures SameNum(NumBinary(op, a, b), BitsInt(op, x, y))
  {
    hide MakeNumber, Encode, NumOf, BitOp, BitsInt;
    BitsAgree(op, NumOf(a), NumOf(b), x, y);
    BitsRange(op, x, y);
    MakeNum(OfInt(BitsInt(op, x, y)), BitsInt(op, x, y));
  }

  lemma IncAgrees(op: int, w: Word, x: int)
    requires (op == INC || op == DEC) && SameNum(w, x) && InBand(WideInt(op, x, 1))
    ensures SameNum(NumUnary(op, w), WideInt(op, x, 1))
  {
    hide MakeNumber, Encode, Add, Sub, NumOf, NumIs;
    OneIs();
    if op == INC { AddNum(NumOf(w), OfInt(1), x, 1); } else { SubNum(NumOf(w), OfInt(1), x, 1); }
    MakeNum(if op == INC then Add(NumOf(w), OfInt(1)) else Sub(NumOf(w), OfInt(1)), WideInt(op, x, 1));
  }

  lemma OneIs()
    ensures NumIs(OfInt(1), 1)
  {
  }

  lemma BitNotAgrees(w: Word, x: int)
    requires SameNum(w, x)
    ensures SameNum(NumUnary(BIT_NOT, w), NotInt(x))
  {
    hide MakeNumber, Encode, NumOf, NotInt;
    NotAgrees(NumOf(w), x);
    MakeNum(OfInt(NotInt(x)), NotInt(x));
  }

  /** Branching on a raw integer or truth value is ToBoolean of the word it stands for. */
  lemma TruthAgrees(host: Host, w: Word, i: int)
    requires SameNum(w, i) || SameBool(w, i)
    ensures WordTruthy(host, w) <==> i != 0
  {
    WordKinds(w);
    if SameNum(w, i) { TruthyNum(NumOf(w), i); }
  }

  /** `run` boxes the integer result. */
  function BoxResult(r: int): Word
  {
    if IsI32(r) then FromSmi(r) else MakeNumber(Encode(RoundInt(r)))
  }

  lemma BoxResultIs(r: int)
    requires InBand(r)
    ensures IsNumber(BoxResult(r)) && NumOf(BoxResult(r)) == OfInt(r)
  {
    BandIsExact(r);
    MakeInt(r);
    if IsI32(r) { SmiRoundTrip(r); }
  }

  // ------------------------------------------------------------------ every double is representable

  /** A value a double can hold. */
  predicate IsDbl(d: Dbl)
  {
    d.Fin? ==> 0 < d.mag < Limit() && Representable(d.mag)
  }

  /** Rounding keeps at most 53 significant bits. */
  lemma RoundNatFits(num: nat, den: nat)
    requires den > 0
    ensures RoundNat(num, den) == 0 || Representable(RoundNat(num, den))
  {
    hide Representable;
    var n := BitLen(num / den);
    var s := if n > 53 then n - 53 else 0;
    LeadingPart(num, den, n, s);
    RoundsTo(num, den, s);
    ShiftedFits(num / Shl(den, s), s);
    ShiftedFits(num / Shl(den, s) + 1, s);
  }

  lemma RoundsTo(num: nat, den: nat, s: nat)
    requires den > 0 && s == (var n := BitLen(num / den); if n > 53 then n - 53 else 0)
    ensures var t := num / Shl(den, s); RoundNat(num, den) == Shl(t, s) || RoundNat(num, den) == Shl(t + 1, s)
  {
    hide Shl, BitLen;
  }

  lemma ShiftedFits(t: nat, s: nat)
    requires t <= SAFE
    ensures Shl(t, s) == 0 || Representable(Shl(t, s))
  {
    ShlIsTimes(t, s);
    if t > 0 { IntegerRepresentable(t, s, Shl(t, s)); }
  }

  lemma LeadingPart(num: nat, den: nat, n: nat, s: nat)
    requires den > 0 && n == BitLen(num / den) && s == (if n > 53 then n - 53 else 0)
    ensures num / Shl(den, s) < SAFE
  {
    Pow2Values();
    BitLenBounds(num / den);
    ShlIsTimes(den, s);
    if n > 53 {
      Pow2Add(53, s);
    } else {
      Pow2Mono(n, 53);
      assert Pow2(0) == 1;
    }
    QuotientSmall(num, den, Pow2(s), SAFE);
  }

  lemma QuotientSmall(num: nat, den: nat, p: nat, k: nat)
    requires den > 0 && p > 0 && num / den < k * p && den * p > 0
    ensures num / (den * p) < k
  {
    var q := num / den;
    assert num < den * (q + 1);
    ProductMono(q + 1, k * p, den);
    assert den * (k * p) == (den * p) * k;
    BelowProduct(num, den * p, k);
  }

  lemma BelowProduct(num: nat, d: nat, k: nat)
    requires d > 0 && num < d * k
    ensures num / d < k
  {
    var q := num / d;
    assert d * q <= num;
    LessCancel(q, k, d);
  }

  lemma PackIsDbl(neg: bool, num: nat, den: nat)
    requires den > 0
    ensures IsDbl(Pack(neg, RoundNat(num, den)))
  {
    RoundNatFits(num, den);
  }

  lemma DecodeIsDbl(u: nat)
    ensures IsDbl(Decode(u))
  {
    hide Representable, Limit;
    var body := u % SIGN;
    var ex, man := body / HIDDEN, body % HIDDEN;
    if ex == 0 && man > 0 {
      SubnormalFits(man);
    } else if 0 < ex < 2047 {
      NormalFits(HIDDEN + man, ex - 1);
    }
  }

  lemma SubnormalFits(man: nat)
    requires 0 < man < HIDDEN
    ensures Representable(man) && man < Limit()
  {
    assert Pow2(52) == HIDDEN by { Pow2Values(); }
    BitLenAtMost(man, 52);
    Pow2Mono(52, 2098);
  }

  lemma NormalFits(m: nat, e: nat)
    requires 0 < m < SAFE && e <= 2045
    ensures Representable(m * Pow2(e)) && 0 < m * Pow2(e) < Limit()
  {
    hide Representable;
    IntegerRepresentable(m, e, m * Pow2(e));
    NormalBelow(m, e);
    MulAtLeast(m, Pow2(e));
  }

  lemma NormalBelow(i: nat, e: nat)
    requires i < SAFE && e + 53 <= 2098
    ensures i * Pow2(e) < Pow2(2098)
  {
    Pow2Values();
    Pow2Add(53, e);
    Pow2Mono(e + 53, 2098);
    ProductMono(i + 1, Pow2(53), Pow2(e));
    assert (i + 1) * Pow2(e) == i * Pow2(e) + Pow2(e);
  }

  lemma AddIsDbl(a: Dbl, b: Dbl)
    requires IsDbl(a) && IsDbl(b)
    ensures IsDbl(Add(a, b)) && IsDbl(Sub(a, b))
  {
    hide RoundNat, Limit, Representable;
    PackIsDbl(a.Units() + b.Units() < 0, Abs(a.Units() + b.Units()), 1);
    var c := Neg(b);
    PackIsDbl(a.Units() + c.Units() < 0, Abs(a.Units() + c.Units()), 1);
  }

  lemma MulIsDbl(a: Dbl, b: Dbl)
    ensures IsDbl(Mul(a, b))
  {
    hide RoundNat, Limit, Representable;
    if a.Fin? && b.Fin? { PackIsDbl(a.neg != b.neg, a.mag * b.mag, One()); }
  }

  lemma DivIsDbl(a: Dbl, b: Dbl)
    ensures IsDbl(Div(a, b))
  {
    hide RoundNat, Limit, Representable;
    if a.Fin? && b.Fin? && b.mag != 0 { PackIsDbl(a.neg != b.neg, a.mag * One(), b.mag); }
  }

  /** Encoding and decoding a value a double can hold is the identity. */
  lemma EncodeRoundTrip(d: Dbl)
    requires IsDbl(d)
    ensures Encode(d) < TWO64 && Decode(Encode(d)) == d
    ensures d.NaN? <==> Decode(Encode(d)).NaN?
    ensures (Encode(d) >= SIGN) == (!d.NaN? && d.neg)
  {
    if d.Fin? {
      BitLenAtMost(d.mag, 2098);
      DecodeEncode(d.neg, d.mag);
    }
  }

  // ------------------------------------------------------------------ boxing is makeNumber

  lemma S64Sum(a: int, b: int)
    ensures S64(S64(a) + b) == S64(a + b)
    ensures U64(S64(a)) == U64(a) && IsI64(S64(a))
  {
  }

  lemma {:induction false} OrCommutes(a: nat, b: nat)
    ensures BitOr(a, b) == BitOr(b, a)
  {
    if a > 0 && b > 0 { OrCommutes(a / 2, b / 2); }
  }

  lemma TagFirst(i: int)
    ensures Or64(U32(S32(i)), NUMBER_TAG) == FromSmi(i)
  {
    S32Again(i);
    OrCommutes(U64(U32(i)), U64(NUMBER_TAG));
  }

  /** `emit_box_i64` is `makeNumber` on the band. */
  lemma BoxIntIsMake(r: int)
    requires InBand(r)
    ensures BoxInt(r) == MakeNumber(Encode(OfInt(r))) && AsWord(BoxInt(r)) == BoxInt(r)
  {
    hide Encode, Or64, FromSmi, MakeNumber, RoundInt, OfInt, S64, S32;
    MakeInt(r);
    if IsI32(r) {
      TagFirst(r);
    } else {
      BandIsExact(r);
      assert FloatUn(FcvtInt, r) == S64(Encode(OfInt(r)));
      S64Sum(Encode(OfInt(r)), OFFSET);
      S64Sum(S64(Encode(OfInt(r))) + OFFSET, 0);
    }
  }

  /** The four tests of `emit_box_f64` are `smiFits`. */
  lemma SmiOkIsFits(f: int, d: Dbl)
    requires f == FE(d) && IsDbl(d)
    ensures SmiOkBits(f) <==> SmiFits(d)
    ensures SmiFits(d) ==> FloatUn(FcvtSat32, f) == Truncate(d)
  {
    hide Encode, Decode, RoundInt, FloatBin, FloatUn, Equal, IsDbl;
    BitsBack(d);
    ZeroBits();
    SignBit(d);
    TruncatedAgrees(d);
    FloatEq(f, 0);
    if Integral(d) {
      RangeTests(f, d);
    }
    SaturateAgrees(f, d);
  }

  lemma FloatEq(x: int, y: int)
    ensures FloatBin(Feq, x, y) != 0 <==> Equal(FD(x), FD(y))
  {
  }

  lemma SaturateAgrees(f: int, d: Dbl)
    requires FD(f) == d
    ensures SmiFits(d) ==> FloatUn(FcvtSat32, f) == Truncate(d)
  {
    hide Decode;
  }

  /** The two range tests on an integral double. */
  lemma RangeTests(f: int, d: Dbl)
    requires FD(f) == d && Integral(d) && IsDbl(d)
    ensures (FloatBin(Fge, f, FloatUn(FcvtInt, I32_MIN)) != 0 && FloatBin(Fle, f, FloatUn(FcvtInt, I32_MAX)) != 0)
       <==> (!d.Inf? && IsI32(Truncate(d)))
  {
    hide Truncate, Less, Equal, FloatBin, FloatUn, FD, IsDbl, Integral, OfInt;
    IntBits(I32_MIN); IntBits(I32_MAX);
    FloatOrder(f, FloatUn(FcvtInt, I32_MIN));
    FloatOrder(f, FloatUn(FcvtInt, I32_MAX));
    RangeOrder(d);
  }

  lemma FloatOrder(x: int, y: int)
    ensures FloatBin(Fge, x, y) != 0 <==> Less(FD(y), FD(x)) || Equal(FD(x), FD(y))
    ensures FloatBin(Fle, x, y) != 0 <==> Less(FD(x), FD(y)) || Equal(FD(x), FD(y))
  {
    hide FD, Less, Equal;
  }

  lemma RangeOrder(d: Dbl)
    requires Integral(d) && IsDbl(d)
    ensures ((Less(OfInt(I32_MIN), d) || Equal(d, OfInt(I32_MIN)))
            && (Less(d, OfInt(I32_MAX)) || Equal(d, OfInt(I32_MAX))))
       <==> (!d.Inf? && IsI32(Truncate(d)))
  {
    if !d.Inf? {
      var i := Truncate(d);
      if d.Fin? { IntegralIs(d); } else { ModUnique(0, One(), 0, 0); }
      assert NumIs(d, i);
      LessNum(d, OfInt(I32_MAX), i, I32_MAX);
      LessNum(OfInt(I32_MIN), d, I32_MIN, i);
      LessNum(d, OfInt(I32_MIN), i, I32_MIN);
    } else {
      OfIntFinite(I32_MIN); OfIntFinite(I32_MAX);
    }
  }

  lemma OfIntFinite(i: int)
    ensures !OfInt(i).NaN? && !OfInt(i).Inf?
  {
  }

  lemma ZeroBits()
    ensures FD(0) == Zero(false)
  {
  }

  lemma SignBit(d: Dbl)
    requires IsDbl(d)
    ensures Equal(d, Zero(false)) && FE(d) < 0 <==> d == Zero(true)
  {
    EncodeRoundTrip(d);
    if d.Fin? { assert d.Units() != 0; }
  }

  predicate Integral(d: Dbl) { d.Inf? || d.Zero? || (d.Fin? && d.mag % One() == 0) }

  /** A double equals its truncation when it is integral. */
  lemma TruncatedAgrees(d: Dbl)
    requires IsDbl(d)
    ensures FloatBin(Feq, FE(d), FloatUn(Ftrunc, FE(d))) != 0 <==> Integral(d)
  {
    hide Encode, Decode, TruncDbl, IsDbl, Equal, Integral;
    BitsBack(d);
    TruncIsDbl(d);
    BitsBack(TruncDbl(d));
    TruncEqual(d);
  }

  /** The bits of a double value decode to it. */
  lemma BitsBack(d: Dbl)
    requires IsDbl(d)
    ensures FD(FE(d)) == d
  {
    hide Encode, Decode, IsDbl;
    EncodeRoundTrip(d);
    S64Sum(Encode(d), 0);
    ModUnique(Encode(d), TWO64, 0, Encode(d));
  }

  lemma TruncIsDbl(d: Dbl)
    requires IsDbl(d)
    ensures IsDbl(TruncDbl(d))
  {
    if d.Fin? { TruncMag(d.mag); }
  }

  lemma TruncMag(m: nat)
    requires 0 < m < Limit() && Representable(m)
    ensures var t := Shl(Quotient(m, One()), 1074);
      t == m / One() * One() <= m && (t > 0 ==> Representable(t))
  {
    hide Representable, Limit;
    var q := m / One();
    ShlIsTimes(q, 1074);
    WholePart(m, q, One());
    if q > 0 { TruncRepresentable(m, q); }
  }

  lemma WholePart(m: nat, q: nat, one: nat)
    requires one > 0 && q == m / one
    ensures q * one <= m && (q * one == m <==> m % one == 0) && m == q * one + m % one
    ensures q > 0 ==> q * one > 0
  {
    assert m == one * q + m % one;
  }

  /** Dropping low bits keeps a number representable. */
  lemma TruncRepresentable(m: nat, q: nat)
    requires Representable(m) && q == m / One() && q > 0
    ensures Representable(q * One())
  {
    var n := BitLen(q);
    BitLenScale(q, 1074);
    BitLenOfQuotient(m, q, 1074);
    if n > 53 {
      var p := Pow2(n + 1074 - 53);
      Pow2Add(1074, n - 53);
      assert m % p == 0;
      MultipleOfOne(m, q, One(), Pow2(n - 53), p);
      assert BitLen(q * One()) - 53 == n + 1074 - 53;
    } else {
      ShiftedRepresentable(q, 1074, q * One());
    }
  }

  lemma BitLenOfQuotient(m: nat, q: nat, k: nat)
    requires q == m / Pow2(k) && q > 0
    ensures BitLen(m) == BitLen(q) + k
  {
    var n := BitLen(q);
    BitLenBounds(q);
    Pow2Add(k, n - 1);
    Pow2Add(k, n);
    ScaledBounds(m, q, Pow2(k), Pow2(n - 1), Pow2(n));
    BitLenUnique(m, n + k - 1);
  }

  lemma ScaledBounds(m: nat, q: nat, p: nat, lo: nat, hi: nat)
    requires p > 0 && q == m / p && lo <= q < hi
    ensures p * lo <= m < p * hi
  {
    WholePart(m, q, p);
    ProductMono(lo, q, p);
    ProductMono(q + 1, hi, p);
    assert (q + 1) * p == q * p + p;
  }

  /** A multiple of `one * p'` truncated to whole `one`s is itself. */
  lemma MultipleOfOne(m: nat, q: nat, one: nat, p': nat, p: nat)
    requires one > 0 && p' > 0 && p == one * p' && q == m / one && m % p == 0
    ensures (q * one) % p == 0
  {
    var c := m / p;
    assert m == p * c;
    assert p * c == one * (p' * c);
    ModUnique(m, one, p' * c, 0);
    assert q * one == m;
  }

  lemma TruncEqual(d: Dbl)
    requires IsDbl(d)
    ensures Equal(d, TruncDbl(d)) <==> Integral(d)
  {
    hide Representable, Limit;
    if d.Fin? {
      ShlIsTimes(d.mag / One(), 1074);
      WholePart(d.mag, d.mag / One(), One());
    }
  }

  lemma IntBits(i: int)
    requires InBand(i)
    ensures FD(FloatUn(FcvtInt, i)) == OfInt(i)
  {
    hide Encode, Decode;
    BandIsExact(i);
    IntegerPattern(i);
    S64Sum(Encode(OfInt(i)), 0);
    U64Pattern(i);
  }

  lemma U64Pattern(i: int)
    requires InBand(i)
    ensures U64(Encode(OfInt(i))) == Encode(OfInt(i))
  {
    IntegerPattern(i);
    ModUnique(Encode(OfInt(i)), TWO64, 0, Encode(OfInt(i)));
  }

  lemma IntegralIs(d: Dbl)
    requires d.Fin? && d.mag > 0 && d.mag % One() == 0
    ensures d == OfInt(Truncate(d)) && NumIs(d, Truncate(d))
  {
    var q := d.mag / One();
    assert d.mag == One() * q;
    assert q > 0;
  }

  /** `emit_box_f64` is `makeNumber`. */
  lemma BoxBitsIsMake(d: Dbl)
    requires IsDbl(d)
    ensures BoxBits(FE(d)) == MakeNumber(Encode(d)) && AsWord(BoxBits(FE(d))) == BoxBits(FE(d))
  {
    hide Encode, Decode, SmiOkBits, SmiFits, FloatUn, Or64, FromSmi, S64, Truncate;
    EncodeRoundTrip(d);
    SmiOkIsFits(FE(d), d);
    TagFirstU(Truncate(d));
    S64Sum(Encode(d), OFFSET);
    S64Sum(S64(Encode(d)) + OFFSET, 0);
    assert d.NaN? ==> Encode(d) == QUIET_NAN by { NaNPattern(); }
  }

  lemma NaNPattern()
    ensures Encode(NaN) == QUIET_NAN
  {
  }

  lemma TagFirstU(i: int)
    ensures Or64(U32(i), NUMBER_TAG) == FromSmi(i)
  {
    OrCommutes(U64(U32(i)), U64(NUMBER_TAG));
  }

  // ------------------------------------------------------------------ the boxed lane

  /** Unboxing an SMI word. */
  lemma UnboxIs(w: Word)
    requires IsSmi(w)
    ensures Unbox(w) == SmiValue(w) && IsI32(Unbox(w)) && NumOf(w) == OfInt(Unbox(w))
  {
    SmiIsInt(w);
    LowHalf(w);
  }

  lemma LowHalf(w: Word)
    ensures Unbox(w) == S32(w)
  {
    AndLowMask(U64(w), 32);
    assert Pow2(32) == TWO32 by { Pow2Values(); }
    assert U64(0xFFFF_FFFF) == Pow2(32) - 1;
    LowHalfOf(w);
  }

  lemma LowHalfOf(w: Word)
    ensures S32(S64(U64(w) % TWO32)) == S32(w)
  {
    var q, r := w / TWO32, w % TWO32;
    U64Of(w);
    ModUnique(U64(w), TWO32, if w < 0 then q + TWO32 else q, r);
    ModUnique(r + TWO63, TWO64, 0, r + TWO63);
    S32OfRemainder(w);
  }

  lemma S32OfRemainder(x: int)
    ensures S32(x % TWO32) == S32(x)
  {
  }

  /** `emit_to_f64` decodes to the Number of the word. */
  lemma FloatBitsIs(w: Word)
    requires IsNumber(w)
    ensures FD(FloatBits(w)) == NumOf(w) && IsDbl(NumOf(w))
  {
    hide Encode, Decode, IsDbl, IsNumber;
    DecodeIsDbl(NumBits(w));
    if IsSmi(w) {
      UnboxIs(w);
      IntBits(Unbox(w));
    } else {
      hide IsSmi;
      S64Sum(w - OFFSET, 0);
    }
  }

  /** The boxed float operators, boxed again, are `makeNumber` of the Number result. */
  lemma FloatArithAgrees(op: int, l: Word, r: Word)
    requires (IsArith(op) || op == DIV) && IsNumber(l) && IsNumber(r)
    ensures var f := if op == DIV then FloatBin(Fdiv, FloatBits(l), FloatBits(r))
            else FloatArith(op, FloatBits(l), FloatBits(r));
            BoxBits(f) == NumBinary(op, l, r) && AsWord(BoxBits(f)) == BoxBits(f)
  {
    hide BoxBits, MakeNumber, Encode, Decode, FloatBits, IsNumber, NumOf, Add, Sub, Mul, Div, IsDbl;
    var a, b := NumOf(l), NumOf(r);
    FloatBitsIs(l); FloatBitsIs(r);
    if op == MUL { MulIsDbl(a, b); } else if op == DIV { DivIsDbl(a, b); } else { AddIsDbl(a, b); }
    BoxBitsIsMake(Arith(op, a, b));
  }

  /** The SMI path: an exact integer result, or a zero product whose sign goes through f64. */
  lemma SmiResultAgrees(op: int, x: int, y: int)
    requires IsArith(op) && IsI32(x) && IsI32(y) && InBand(WideInt(op, x, y))
    ensures var w := MakeNumber(Encode(Arith(op, OfInt(x), OfInt(y))));
            SmiResult(op, x, y) == Some(w as int)
  {
    hide BoxBits, BoxInt, MakeNumber, Encode, Decode, Add, Sub, Mul, FloatUn, OfInt;
    var r := WideInt(op, x, y);
    if op == MUL && r == 0 {
      IntBits(x); IntBits(y);
      MulIsDbl(OfInt(x), OfInt(y));
      BoxBitsIsMake(Mul(OfInt(x), OfInt(y)));
    } else {
      BoxIntIsMake(r);
      if op == ADD { AddOfInts(x, y); } else if op == SUB { SubOfInts(x, y); } else { MulOfInts(x, y); }
    }
  }

  lemma MulOfInts(x: int, y: int)
    requires x * y != 0 && InBand(x * y)
    ensures Mul(OfInt(x), OfInt(y)) == OfInt(x * y)
  {
    SelfNum(x); SelfNum(y);
    MulNum(OfInt(x), OfInt(y), x, y);
  }

  lemma SelfNum(i: int)
    ensures NumIs(OfInt(i), i)
  {
  }

  lemma ArithResultAgrees(op: int, l: Word, r: Word)
    requires IsArith(op) && ArithResult(op, l, r).Some?
    ensures IsNumber(l) && IsNumber(r) && ArithResult(op, l, r) == Some(NumBinary(op, l, r) as int)
  {
    hide BoxBits, MakeNumber, Encode, FloatBits, NumOf, Arith, FloatArith, SmiResult, IsSmi, IsNumber, OfInt;
    if IsSmi(l) && IsSmi(r) {
      UnboxIs(l); UnboxIs(r);
      SmiBand(op, Unbox(l), Unbox(r));
      SmiResultAgrees(op, Unbox(l), Unbox(r));
    } else {
      FloatArithAgrees(op, l, r);
    }
  }

  lemma SmiBand(op: int, x: int, y: int)
    requires SmiResult(op, x, y).Some?
    ensures InBand(WideInt(op, x, y))
  {
  }

  lemma BitResultAgrees(op: int, l: Word, r: Word)
    requires IsBitBinary(op) && IsSmi(l) && IsSmi(r)
    ensures IsNumber(l) && IsNumber(r) && BoxInt(BitsInt(op, Unbox(l), Unbox(r))) == NumBinary(op, l, r)
  {
    hide BoxInt, MakeNumber, Encode, NumOf, IsSmi, IsNumber, BitsInt, BitOp, OfInt, NumIs;
    SmiIsInt(l); SmiIsInt(r);
    UnboxIs(l); UnboxIs(r);
    SelfNum(Unbox(l)); SelfNum(Unbox(r));
    BitsAgree(op, NumOf(l), NumOf(r), Unbox(l), Unbox(r));
    BitsRange(op, Unbox(l), Unbox(r));
    BoxIntIsMake(BitsInt(op, Unbox(l), Unbox(r)));
  }

  /** A native remainder of SMIs is the Number remainder, -0 included. */
  lemma ModAgrees(x: int, y: int)
    requires IsI32(x) && IsI32(y) && y != 0
    ensures var rem := TruncRem(x, y);
            (if rem == 0 && x < 0 then BoxBits(NEG_ZERO) else BoxInt(rem))
                == MakeNumber(Encode(Rem(OfInt(x), OfInt(y))))
  {
    hide BoxBits, BoxInt, MakeNumber, Encode, Rem, OfInt;
    var r := Abs(x) % Abs(y);
    RemOfInts(x, y, r);
    if r == 0 && x < 0 {
      NegZeroBits();
      BoxBitsIsMake(Zero(true));
      SignedRemZero(x, y);
    } else {
      RemBand(x, y, r);
      BoxIntIsMake(TruncRem(x, y));
    }
  }

  lemma NegZeroBits()
    ensures FE(Zero(true)) == NEG_ZERO && IsDbl(Zero(true))
  {
  }

  lemma SignedRemZero(x: int, y: int)
    requires x < 0
    ensures SignedRem(x, 0) == Zero(true)
  {
  }

  lemma RemBand(x: int, y: int, r: nat)
    requires IsI32(x) && y != 0 && r == Abs(x) % Abs(y) && !(r == 0 && x < 0)
    ensures InBand(TruncRem(x, y)) && SignedRem(x, r) == OfInt(TruncRem(x, y))
  {
    QuotientBetween(Abs(x), Abs(y));
    RemAtMost(Abs(x), Abs(y));
  }

  lemma RemAtMost(a: nat, b: nat)
    requires b > 0
    ensures a % b <= a
  {
    assert a == b * (a / b) + a % b;
    if a / b > 0 { MulAtLeast(b, a / b); }
  }

  lemma ModResultAgrees(l: Word, r: Word)
    requires ModResult(l, r).Some?
    ensures IsNumber(l) && IsNumber(r) && ModResult(l, r) == Some(NumBinary(MOD, l, r) as int)
  {
    hide BoxBits, BoxInt, MakeNumber, Encode, NumOf, IsSmi, IsNumber, Rem, OfInt, TruncRem;
    UnboxIs(l); UnboxIs(r);
    ModAgrees(Unbox(l), Unbox(r));
  }

  lemma CompareResultAgrees(op: int, l: Word, r: Word)
    requires IsCompare(op) && BoxedBinaryResult(op, l, r).Some?
    ensures IsNumber(l) && IsNumber(r)
    ensures BoxedBinaryResult(op, l, r) == Some(B01(Compare(op, NumOf(l), NumOf(r))))
  {
    hide NumOf, IsSmi, IsNumber, Less, Equal, FloatBits, Unbox;
    if IsSmi(l) && IsSmi(r) {
      UnboxIs(l); UnboxIs(r);
      SelfNum(Unbox(l)); SelfNum(Unbox(r));
      CompareAgrees(op, NumOf(l), NumOf(r), Unbox(l), Unbox(r));
    } else {
      FloatBitsIs(l); FloatBitsIs(r);
      CmpFloatIs(op, FloatBits(l), FloatBits(r));
    }
  }

  lemma CmpFloatIs(op: int, x: int, y: int)
    requires IsCompare(op)
    ensures CmpFloat(op, x, y) <==> Compare(op, FD(x), FD(y))
  {
    hide Less, Equal, FD;
  }

  predicate BoxedBinaryOp(op: int) { ADD <= op <= MOD || IsBitBinary(op) || IsCompare(op) }

  /** Whenever the boxed lane finds a result, it is the interpreter's, bit for bit; a comparison is
      its truth value. */
  lemma BoxedBinaryAgrees(op: int, l: Word, r: Word)
    requires BoxedBinaryOp(op) && BoxedBinaryResult(op, l, r).Some?
    ensures IsNumber(l) && IsNumber(r)
    ensures var v := BoxedBinaryResult(op, l, r).value;
            if IsCompare(op) then SameBool(NumBinary(op, l, r), v) && AsWord(v) == v
            else v == NumBinary(op, l, r) && AsWord(v) == v
  {
    hide BoxBits, BoxInt, MakeNumber, Encode, NumOf, IsSmi, IsNumber, FloatBits, Unbox, BitsInt, ArithResult,
        ModResult, Arith, BitOp, CmpInt, CmpFloat, Compare, FloatBin;
    if IsArith(op) { ArithResultAgrees(op, l, r); }
    else if IsBitBinary(op) { BitResultAgrees(op, l, r); }
    else if IsCompare(op) { CompareResultAgrees(op, l, r); }
    else if op == DIV { FloatArithAgrees(op, l, r); }
    else { ModResultAgrees(l, r); }
  }

  lemma IntIsDbl(i: int)
    requires InBand(i)
    ensures IsDbl(OfInt(i))
  {
    hide Decode, Encode;
    IntegerPattern(i);
    DecodeIsDbl(Encode(OfInt(i)));
  }

  lemma IncResultAgrees(op: int, w: Word)
    requires (op == INC || op == DEC) && IncResult(op, w).Some?
    ensures IsNumber(w) && IncResult(op, w) == Some(NumUnary(op, w) as int)
  {
    hide BoxBits, MakeNumber, Encode, FloatBits, NumOf, SmiResult, IsSmi, IsNumber, OfInt, FloatUn, FloatBin, Add, Sub;
    if IsSmi(w) {
      UnboxIs(w);
      SmiBand(op, Unbox(w), 1);
      IncSmi(op, Unbox(w));
    } else {
      IncFloat(op, w);
    }
  }

  lemma IncFloat(op: int, w: Word)
    requires (op == INC || op == DEC) && IsNumber(w)
    ensures BoxBits(FloatArith(op, FloatBits(w), FloatUn(FcvtInt, 1))) == NumUnary(op, w)
  {
    hide BoxBits, MakeNumber, Encode, FloatBits, NumOf, IsNumber, OfInt, FloatUn, Add, Sub, IsDbl, FD;
    IntBits(1);
    FloatBitsIs(w);
    IntIsDbl(1);
    AddIsDbl(NumOf(w), OfInt(1));
    BoxBitsIsMake(if op == INC then Add(NumOf(w), OfInt(1)) else Sub(NumOf(w), OfInt(1)));
  }

  lemma IncSmi(op: int, x: int)
    requires (op == INC || op == DEC) && IsI32(x)
    ensures SmiResult(op, x, 1)
         == Some(MakeNumber(Encode(if op == INC then Add(OfInt(x), OfInt(1)) else Sub(OfInt(x), OfInt(1)))) as int)
  {
    hide MakeNumber, Encode, Add, Sub, OfInt, BoxInt;
    BoxIntIsMake(WideInt(op, x, 1));
    if op == INC { AddOfInts(x, 1); } else { SubOfInts(x, 1); }
  }

  lemma NegAgrees(w: Word)
    requires IsNumber(w)
    ensures BoxBits(FloatUn(Fneg, FloatBits(w))) == NumUnary(NEG, w)
  {
    hide BoxBits, MakeNumber, Encode, FloatBits, NumOf, IsNumber, FD;
    FloatBitsIs(w);
    BoxBitsIsMake(Neg(NumOf(w)));
  }

  lemma BitNotResultAgrees(w: Word)
    requires IsSmi(w)
    ensures IsNumber(w) && BoxInt(NotInt(Unbox(w))) == NumUnary(BIT_NOT, w)
  {
    hide BoxInt, MakeNumber, Encode, NumOf, IsSmi, IsNumber, NotInt, OfInt, Unbox;
    SmiIsInt(w);
    UnboxIs(w);
    SelfNum(Unbox(w));
    NotAgrees(NumOf(w), Unbox(w));
    BoxIntIsMake(NotInt(Unbox(w)));
  }

  predicate BoxedUnaryOp(op: int) { op in {TO_NUMERIC, NOT, BIT_NOT, NEG, INC, DEC} }

  lemma BoxedUnaryAgrees(host: Host, op: int, w: Word)
    requires BoxedUnaryOp(op) && BoxedUnaryResult(op, w).Some?
    ensures IsNumber(w)
    ensures var v := BoxedUnaryResult(op, w).value;
            AsWord(v) == v && (if op == NOT then SameBool(FromBool(!WordTruthy(host, w)), v) else v == NumUnary(op, w))
  {
    hide BoxInt, BoxBits, MakeNumber, Encode, NumOf, IsSmi, IsNumber, NotInt, FloatBits, FloatUn, Unbox, IncResult,
        WordTruthy;
    if op == NOT {
      UnboxIs(w);
      SmiIsInt(w);
      SelfNum(Unbox(w));
      TruthAgrees(host, w, Unbox(w));
    } else if op == BIT_NOT { BitNotResultAgrees(w); }
    else if op == NEG { NegAgrees(w); }
    else if op != TO_NUMERIC { IncResultAgrees(op, w); }
  }

  // ------------------------------------------------------------------ signed zero on SMIs

  /** The exact integer an operator computes on two integers, when it has one. */
  function ExactInt(op: int, i: int, j: int): Option<int>
  {
    if op == MOD then (if j == 0 then None else Some(TruncRem(i, j))) else Some(WideInt(op, i, j))
  }

  /** ADD, SUB, MUL and MOD on any two int32 operands give the Number result with its sign of zero,
      and deopt exactly when the result leaves [-2^53, 2^53] or a divisor is 0; NEG never deopts. */
  lemma SignedZeroExact(op: int, i: int, j: int)
    requires (IsArith(op) || op == MOD) && IsI32(i) && IsI32(j)
    ensures BoxedBinaryResult(op, FromSmi(i), FromSmi(j))
         == if ExactInt(op, i, j).None? || !InBand(ExactInt(op, i, j).value) then None
            else Some(MakeNumber(Encode(Arith(op, OfInt(i), OfInt(j)))) as int)
    ensures BoxedUnaryResult(NEG, FromSmi(i)) == Some(MakeNumber(Encode(Neg(OfInt(i)))) as int)
  {
    hide BoxBits, BoxInt, MakeNumber, Encode, NumOf, IsSmi, IsNumber, FloatBits, OfInt, FromSmi, Unbox, Rem, Add, Sub,
        Mul, Neg, FloatUn;
    SmiRoundTrip(i); SmiRoundTrip(j);
    UnboxIs(FromSmi(i)); UnboxIs(FromSmi(j));
    NegAgrees(FromSmi(i));
    if op == MOD {
      if j != 0 { ModAgrees(i, j); RemInBand(i, j); }
    } else if InBand(WideInt(op, i, j)) {
      SmiResultAgrees(op, i, j);
    }
  }

  lemma RemInBand(i: int, j: int)
    requires IsI32(i) && j != 0
    ensures InBand(TruncRem(i, j))
  {
    RemAtMost(Abs(i), Abs(j));
  }
}
