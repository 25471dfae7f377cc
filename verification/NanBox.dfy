/** The NaN-boxed value word (src/value/value.zig), held as a signed 64-bit integer. */
module NanBox {
  import opened Bits
  import opened Float64

  type Word = w: int | IsI64(w) witness 0

  const NUMBER_TAG: Word := -0x2_0000_0000_0000   // 0xfffe_0000_0000_0000
  const OFFSET: int := 0x2_0000_0000_0000          // 2^49
  const UNDEFINED: Word := 0
  const NULL: Word := 2
  const FALSE: Word := 6
  const TRUE: Word := 7

  predicate IsSmi(w: Word) { And64(w, NUMBER_TAG) == NUMBER_TAG }
  predicate IsNumber(w: Word) { And64(w, NUMBER_TAG) != 0 }
  function SmiValue(w: Word): int { S32(w) }
  function FromSmi(i: int): Word { Or64(NUMBER_TAG, U32(i)) }
  function FromBool(b: bool): Word { if b then TRUE else FALSE }

  /** The 64-bit pattern of the double a number word denotes. */
  function NumBits(w: Word): nat
  {
    if IsSmi(w) then Encode(RoundInt(SmiValue(w))) else U64(w - OFFSET)
  }

  function NumOf(w: Word): Dbl { Decode(NumBits(w)) }

  /** `smiFits`: finite, integral, not -0 and within int32. */
  predicate SmiFits(d: Dbl)
  {
    match d
    case Zero(n) => !n
    case Fin(_, m) => m % One() == 0 && IsI32(Truncate(d))
    case _ => false
  }

  /** `makeNumber`: the canonical word of a double given by its pattern. */
  function MakeNumber(u: nat): Word
  {
    var d := Decode(u);
    if SmiFits(d) then FromSmi(Truncate(d))
    else S64((if d.NaN? then QUIET_NAN else u) + OFFSET)
  }

  // ------------------------------------------------------------------ the three kinds of word

  const TAG_BITS: nat := 0xFFFE_0000_0000_0000

  /** Masking with the tag keeps the top 15 bits. */
  lemma TopBits(u: nat)
    requires u < TWO64
    ensures BitAnd(u, TAG_BITS) == u / OFFSET * OFFSET
  {
    ShlIsTimes(0x7FFF, 49);
    AndHighMask(u, 0x7FFF, 49);
    ShrIsDiv(u, 49);
    TopBitsMasked(u / OFFSET);
    ShlIsTimes(u / OFFSET, 49);
    Pow2Values();
  }

  lemma TopBitsMasked(x: nat)
    requires x < 0x8000
    ensures BitAnd(x, 0x7FFF) == x
  {
    AndLowMask(x, 15);
    Pow2Values();
  }

  /** A word is an SMI, an offset double or a non-number according to its top 15 bits. */
  lemma WordKinds(w: Word)
    ensures IsSmi(w) <==> -OFFSET <= w < 0
    ensures IsNumber(w) <==> !(0 <= w < OFFSET)
  {
    TopBits(U64(w));
    assert U64(NUMBER_TAG) == TAG_BITS;
    KindOfPrefix(w, U64(w) / OFFSET);
  }

  lemma KindOfPrefix(w: Word, q: nat)
    requires q == U64(w) / OFFSET
    ensures S64(q * OFFSET) == NUMBER_TAG <==> -OFFSET <= w < 0
    ensures S64(q * OFFSET) != 0 <==> !(0 <= w < OFFSET)
  {
    U64Of(w);
    assert 0 <= q < 0x8000;
    assert q == 0x7FFF <==> -OFFSET <= w < 0;
    assert q == 0 <==> 0 <= w < OFFSET;
    assert S64(q * OFFSET) == if q < 0x4000 then q * OFFSET else q * OFFSET - TWO64;
  }

  lemma FromSmiSum(i: int)
    ensures FromSmi(i) == NUMBER_TAG + U32(i)
  {
    var lo := U32(i);
    TagOr(lo);
    U64Of(NUMBER_TAG);
    U64Of(lo);
    ModUnique(TAG_BITS + lo + TWO63, TWO64, 1, TAG_BITS + lo - TWO63);
  }

  lemma TagOr(lo: nat)
    requires lo < TWO32
    ensures BitOr(TAG_BITS, lo) == TAG_BITS + lo
  {
    Pow2Values();
    ShlIsTimes(0x7FFF, 49);
    OrDisjoint(0x7FFF, lo, 49);
  }

  /** Boxing and unboxing an int32 is the identity, and the word is an SMI. */
  lemma SmiRoundTrip(i: int)
    requires IsI32(i)
    ensures IsSmi(FromSmi(i)) && SmiValue(FromSmi(i)) == i
    ensures IsNumber(FromSmi(i)) && NumOf(FromSmi(i)) == OfInt(i)
  {
    FromSmiSum(i);
    WordKinds(FromSmi(i));
    TagDropsOut(i);
    SmiIsInt(FromSmi(i));
  }

  lemma TagDropsOut(i: int)
    requires IsI32(i)
    ensures S32(NUMBER_TAG + U32(i)) == i
  {
    assert U32(i) == if i < 0 then i + TWO32 else i;
  }

  lemma SmiIsInt(w: Word)
    requires IsSmi(w)
    ensures IsNumber(w) && IsI32(SmiValue(w)) && NumOf(w) == OfInt(SmiValue(w))
    ensures NumBits(w) == Encode(OfInt(SmiValue(w)))
  {
    WordKinds(w);
    BandIsExact(SmiValue(w));
    IntegerPattern(SmiValue(w));
  }

  /** Boxing and unboxing any double pattern below 0xFFFC000000000000 is the identity. */
  lemma DoubleRoundTrip(u: nat)
    requires u < 0xFFFC_0000_0000_0000
    ensures var w := S64(u + OFFSET); IsNumber(w) && !IsSmi(w) && NumBits(w) == u
  {
    WordKinds(S64(u + OFFSET));
  }

  /** Only the canonical word of -0 and the SMI 0 denote a zero: `makeNumber` keeps them apart. */
  lemma MakeNegZero()
    ensures MakeNumber(Encode(Zero(true))) == S64(SIGN + OFFSET)
    ensures IsNumber(MakeNumber(Encode(Zero(true)))) && NumOf(MakeNumber(Encode(Zero(true)))) == Zero(true)
  {
    DoubleRoundTrip(SIGN);
    assert Decode(SIGN) == Zero(true);
  }

  lemma SmiFitsInt(i: int)
    ensures SmiFits(OfInt(i)) <==> IsI32(i)
    ensures Truncate(OfInt(i)) == i
  {
    var m := Abs(i) * One();
    ModUnique(m, One(), Abs(i), 0);
    if i != 0 { MulAtLeast(One(), Abs(i)); }
    TruncateUnits(OfInt(i), i, m);
  }

  lemma TruncateUnits(d: Dbl, i: int, m: nat)
    requires d == (if i == 0 then Zero(false) else Fin(i < 0, m))
    requires (m == 0 <==> i == 0) && m / One() == Abs(i)
    ensures Truncate(d) == i
  {
  }

  /** The canonical word of a band integer, and back. */
  lemma MakeInt(i: int)
    requires InBand(i)
    ensures MakeNumber(Encode(OfInt(i))) == if IsI32(i) then FromSmi(i) else S64(Encode(OfInt(i)) + OFFSET)
    ensures IsNumber(MakeNumber(Encode(OfInt(i)))) && NumOf(MakeNumber(Encode(OfInt(i)))) == OfInt(i)
  {
    IntegerPattern(i);
    SmiFitsInt(i);
    if IsI32(i) {
      SmiRoundTrip(i);
    } else {
      DoubleRoundTrip(Encode(OfInt(i)));
    }
  }

}
