/** Laws of the compiled evaluation: when the increment peephole is faithful, and what an optional
    chain evaluates. */
module ExprLaws {
  import opened Options
  import opened Bits
  import opened Float64
  import opened NanBox
  import opened Bytecode
  import opened Interp
  import opened Emit
  import opened Expr
  import opened Operators

  // ------------------------------------------------------------------ the increment peephole

  lemma OneBits()
    ensures Decode(ONE) == OfInt(1) && MakeNumber(ONE) == FromSmi(1)
  {
    DecodeNormal(false, 1023, 0);
    assert Decode(ONE) == Fin(false, HIDDEN * Pow2(1022)) by { assert 1023 * HIDDEN == ONE; }
    assert HIDDEN == Pow2(52) by { Pow2Values(); }
    Pow2Add(52, 1022);
    SmiFitsInt(1);
  }

  lemma CoerceIsNumber(w: Word)
    requires HasNum(w)
    ensures IsNumber(Coerce(w))
  {
    hide MakeNumber, Encode, IsNumber, OfInt;
    IntIsDbl(1);
    EncodeSmall(OfInt(1)); EncodeSmall(Zero(false)); EncodeSmall(NaN);
    MakeHasNum(Encode(OfInt(1))); MakeHasNum(Encode(Zero(false))); MakeHasNum(Encode(NaN));
  }

  /** `x + 1` and `x - 1` on a value without user code are INC and DEC. */
  lemma AddOneIsInc(w: Word)
    requires HasNum(w)
    ensures Computes(ADD, w, MakeNumber(ONE)) && Computes(SUB, w, MakeNumber(ONE))
    ensures NumBinary(ADD, Coerce(w), Coerce(MakeNumber(ONE))) == NumUnary(INC, Coerce(w))
    ensures NumBinary(SUB, Coerce(w), Coerce(MakeNumber(ONE))) == NumUnary(DEC, Coerce(w))
  {
    hide Coerce, MakeNumber, FromSmi, NumOf, Encode, Add, Sub, OfInt;
    OneBits();
    SmiRoundTrip(1);
    CoerceNumber(FromSmi(1));
  }

  lemma CoerceNumber(w: Word)
    requires IsNumber(w)
    ensures Coerce(w) == w && HasNum(w)
  {
  }

  lemma MakeHasNum(u: nat)
    requires u < TWO64
    ensures IsNumber(MakeNumber(u)) && HasNum(MakeNumber(u))
  {
    if SmiFits(Decode(u)) {
      var i := Truncate(Decode(u));
      FitsIsI32(Decode(u));
      SmiRoundTrip(i);
    } else if Decode(u).NaN? {
      WordKinds(S64(QUIET_NAN + OFFSET));
    } else {
      PatternLow(u);
      DoubleRoundTrip(u);
    }
  }

  lemma FitsIsI32(d: Dbl)
    requires SmiFits(d)
    ensures IsI32(Truncate(d))
  {
    if d.Zero? { ModUnique(0, One(), 0, 0); }
  }

  lemma PatternLow(u: nat)
    requires u < TWO64 && !Decode(u).NaN?
    ensures u < 0xFFFC_0000_0000_0000
  {
    if u >= 0xFFFC_0000_0000_0000 { HighIsNaN(u); }
  }

  lemma HighIsNaN(u: nat)
    requires 0xFFFC_0000_0000_0000 <= u < TWO64
    ensures Decode(u).NaN?
  {
    ModUnique(u, SIGN, 1, u - SIGN);
    ModUnique(u - SIGN, HIDDEN, 2047, u - SIGN - 2047 * HIDDEN);
  }

  lemma EncodeSmall(d: Dbl)
    requires IsDbl(d)
    ensures Encode(d) < TWO64
  {
    EncodeRoundTrip(d);
  }

  lemma NumIsDbl(w: Word)
    ensures IsDbl(NumOf(w))
  {
    DecodeIsDbl(NumBits(w));
  }

  lemma UnaryHasNum(op: int, w: Word)
    requires IsNumericUnary(op) && HasNum(w)
    ensures HasNum(NumUnary(op, Coerce(w)))
  {
    hide Encode, Decode, MakeNumber, Add, Sub, IsDbl, Coerce, NumOf, ToInt32, OfInt;
    var a := NumOf(Coerce(w));
    NumIsDbl(Coerce(w));
    CoerceIsNumber(w);
    if op == INC || op == DEC {
      IntIsDbl(1);
      AddIsDbl(a, OfInt(1));
      EncodeSmall(Add(a, OfInt(1))); EncodeSmall(Sub(a, OfInt(1)));
      MakeHasNum(Encode(Add(a, OfInt(1)))); MakeHasNum(Encode(Sub(a, OfInt(1))));
    } else if op == NEG {
      NegIsDbl(a);
      EncodeSmall(Neg(a)); MakeHasNum(Encode(Neg(a)));
    } else if op == BIT_NOT {
      Int32Band(a);
      IntIsDbl(-1 - ToInt32(a));
      EncodeSmall(OfInt(-1 - ToInt32(a))); MakeHasNum(Encode(OfInt(-1 - ToInt32(a))));
    }
  }

  lemma NegIsDbl(a: Dbl)
    requires IsDbl(a)
    ensures IsDbl(Neg(a))
  {
  }

  lemma Int32Band(a: Dbl)
    ensures InBand(-1 - ToInt32(a))
  {
    hide Truncate;
  }

  // ---- what adding one and incrementing have in common

  /** Two runs of events that differ at most in the hint given to a conversion. */
  ghost predicate SameEvents(a: Trace, b: Trace)
  {
    |a| == |b| && forall i | 0 <= i < |a| ::
        a[i].op == b[i].op && a[i].args == b[i].args && (a[i].key == b[i].key || a[i].op == CONVERT)
  }

  /** Equal outcomes, whatever hint an object was converted with. */
  ghost predicate Alike(a: Ev, b: Ev)
  {
    match a
    case Val(w, st) => b.Val? && b.w == w && b.st.env == st.env && SameEvents(st.trace, b.st.trace)
    case Short(_) => false
    case Err(e, t) => b.Err? && b.error == e && SameEvents(t, b.trace)
  }

  function ConvertIn(x: World, w: Word, st: Memo, hint: string): Done
  {
    Convert(x.host, x.reach, st.env, st.trace, w, hint)
  }

  /** Incrementing what an object converts to under the hint of an increment, and adding one to what it
      converts to under the hint of an addition, come to the same. */
  ghost predicate ConversionsAgree(x: World, w: Word, st: Memo)
  {
    var h := x.host;
    match (ConvertIn(x, w, st, "number"), ConvertIn(x, w, st, "default"))
    case (Failed(e, _), Failed(e', _)) => e == e'
    case (Failed(e, _), Done(q, env, t)) => AddPrimitives(h, env, t, q, MakeNumber(ONE)) == Failed(e, t)
    case (Done(p, env, t), d) =>
      match (if Is(h, p, BigInt) then Done(h.bigUnary(INC, p), env, t)
             else if Is(h, p, Symbol) then Failed(h.typeError(SymbolNumber), t)
             else Done(NumUnary(INC, ToNum(h, p)), env, t))
      case Failed(e, _) =>
        (match d case Failed(e', _) => e == e' case Done(q, env', t') =>
            AddPrimitives(h, env', t', q, MakeNumber(ONE)) == Failed(e, t'))
      case Done(v, env, _) =>
        d.Done? && AddPrimitives(h, d.env, d.trace, d.value, MakeNumber(ONE)) == Done(v, env, d.trace)
  }

  /** When replacing `w + 1` by an increment, or `w - 1` by a decrement, keeps the outcome. */
  ghost predicate StepKeeps(x: World, op: int, w: Word, st: Memo)
  {
    HasNum(w) ||
    match x.host.kind(w)
    case Text => op == SUB
    case BigInt => false
    case Symbol => false
    case Object =>
      if op == ADD then ConversionsAgree(x, w, st)
      else var d := ConvertIn(x, w, st, "number"); d.Failed? || !Is(x.host, d.value, BigInt)
  }

  /** The peephole `x = x + 1` to an increment, and `x = x - 1` to a decrement, by the value of `x`:
      on undefined, null, booleans and numbers it keeps the outcome; a text may be decremented but not
      incremented, since adding one appends; a BigInt or a symbol never goes through unchanged, since
      the operator throws where the increment does not; an object goes through when its conversion
      gives no BigInt, and for an addition when the two hints lead to the same. Exactly then. */
  lemma PeepholeExact(x: World, op: int, w: Word, st: Memo)
    requires op == ADD || op == SUB
    ensures Alike(ApplyUnary(x, if op == ADD then INC else DEC, w, st), ApplyBinary(x, op, w, MakeNumber(ONE), st))
            <==> StepKeeps(x, op, w, st)
  {
    hide MakeNumber, Coerce, NumBinary, NumUnary, HasNum;
    OneIsNumber();
    if HasNum(w) {
      AddOneIsInc(w);
    } else if op == SUB {
      SubtractText(x, w, st);
    } else {
      AddText(x, w, st);
    }
  }

  lemma OneIsNumber()
    ensures IsNumber(MakeNumber(ONE)) && HasNum(MakeNumber(ONE)) && Coerce(MakeNumber(ONE)) == MakeNumber(ONE)
  {
    OneBits();
    SmiRoundTrip(1);
  }

  /** Whatever `toNumber` gives is a number, and stepping it is incrementing or decrementing it. */
  lemma NumberSteps(h: Host, p: Word)
    ensures var n := ToNum(h, p); IsNumber(n) && HasNum(n) && Coerce(n) == n
    ensures NumBinary(ADD, ToNum(h, p), MakeNumber(ONE)) == NumUnary(INC, ToNum(h, p))
            && HasNum(NumUnary(INC, ToNum(h, p)))
    ensures NumBinary(SUB, ToNum(h, p), MakeNumber(ONE)) == NumUnary(DEC, ToNum(h, p))
  {
    hide MakeNumber, Coerce, NumBinary, NumUnary, HasNum;
    var n := ToNum(h, p);
    UndefinedHasNum();
    if HasNum(p) { CoerceIsNumber(p); }
    else if h.kind(p) == Text { MakeHasNum(h.textBits(p)); }
    else { CoerceIsNumber(UNDEFINED); }
    CoerceNumber(n);
    OneIsNumber();
    AddOneIsInc(n);
    UnaryHasNum(INC, n);
  }

  lemma UndefinedHasNum()
    ensures HasNum(UNDEFINED)
  {
  }

  /** `w - 1` against a decrement, on a value that is no number. */
  lemma SubtractText(x: World, w: Word, st: Memo)
    requires !HasNum(w)
    ensures ApplyUnary(x, DEC, w, st) == ApplyBinary(x, SUB, w, MakeNumber(ONE), st) <==> StepKeeps(x, SUB, w, st)
    ensures Alike(ApplyUnary(x, DEC, w, st), ApplyBinary(x, SUB, w, MakeNumber(ONE), st)) <==> StepKeeps(x, SUB, w, st)
  {
    hide MakeNumber, Coerce, NumBinary, NumUnary, HasNum, ToNum, Raw, Numerical;
    OneIsNumber();
    NumericOne(x.host, x.reach);
    var d := ConvertIn(x, w, st, "number");
    NumericIs(x.host, x.reach, st.env, st.trace, w);
    NumberSteps(x.host, w);
    if d.Done? { NumberSteps(x.host, d.value); }
  }

  lemma NumericOne(h: Host, reach: Reach)
    ensures forall env, t :: Numerical(h, reach, env, t, MakeNumber(ONE)) == Done(MakeNumber(ONE), env, t)
  {
    hide MakeNumber;
    OneIsNumber();
  }

  lemma NumericIs(h: Host, reach: Reach, env: Env, t: Trace, w: Word)
    ensures Numerical(h, reach, env, t, w) ==
      match Convert(h, reach, env, t, w, "number")
      case Failed(e, t') => Failed(e, t')
      case Done(p, env', t') =>
        if Is(h, p, BigInt) then Done(p, env', t')
        else if Is(h, p, Symbol) then Failed(h.typeError(SymbolNumber), t')
        else Done(ToNum(h, p), env', t')
  {
    hide Convert, ToNum;
  }

  lemma NumOne(h: Host)
    ensures ToNum(h, MakeNumber(ONE)) == MakeNumber(ONE)
  {
    hide MakeNumber;
    OneIsNumber();
  }

  /** `w + 1` against an increment, on a value that is no number. */
  lemma AddText(x: World, w: Word, st: Memo)
    requires !HasNum(w)
    ensures Alike(ApplyUnary(x, INC, w, st), ApplyBinary(x, ADD, w, MakeNumber(ONE), st)) <==> StepKeeps(x, ADD, w, st)
  {
    hide MakeNumber, Coerce, NumBinary, NumUnary, HasNum, ToNum, Raw, AddPrimitives, ConversionsAgree;
    OneIsNumber();
    NumOne(x.host);
    if x.host.kind(w) == Object {
      AddObject(x, w, st);
    } else {
      NumberSteps(x.host, w);
      AddCell(x, w, st);
    }
  }

  lemma AddCell(x: World, w: Word, st: Memo)
    requires !HasNum(w) && x.host.kind(w) != Object
    ensures var d := AddPrimitives(x.host, st.env, st.trace, w, MakeNumber(ONE));
            if x.host.kind(w) == Text then d.Done? && !HasNum(d.value) else d.Failed?
  {
    hide MakeNumber, Coerce, NumBinary, ToNum;
    OneIsNumber();
  }

  lemma AddObject(x: World, w: Word, st: Memo)
    requires !HasNum(w) && x.host.kind(w) == Object
    ensures Alike(ApplyUnary(x, INC, w, st), ApplyBinary(x, ADD, w, MakeNumber(ONE), st)) <==>
            ConversionsAgree(x, w, st)
  {
    hide MakeNumber, NumUnary, ToNum, AddPrimitives, ApplyUnary, ApplyBinary, HasNum, Is, Convert;
    IncObjectIs(x, w, st);
    AddObjectIs(x, w, st);
    var d := ConvertIn(x, w, st, "default");
    ConvertTraces(x, w, st);
    if d.Done? { AddKeepsTrace(x.host, d.env, d.trace, d.value, MakeNumber(ONE)); }
  }

  lemma IncObjectIs(x: World, w: Word, st: Memo)
    requires !HasNum(w) && x.host.kind(w) == Object
    ensures ApplyUnary(x, INC, w, st) ==
            match ConvertIn(x, w, st, "number")
            case Failed(e, t) => Err(e, t)
            case Done(p, env, t) =>
              if Is(x.host, p, BigInt) then Val(x.host.bigUnary(INC, p), Memo(env, t))
              else if Is(x.host, p, Symbol) then Err(x.host.typeError(SymbolNumber), t)
              else Val(NumUnary(INC, ToNum(x.host, p)), Memo(env, t))
  {
    hide HasNum, Convert, NumUnary, ToNum, Numerical;
    var n := ConvertIn(x, w, st, "number");
    NumericIs(x.host, x.reach, st.env, st.trace, w);
    if n.Done? { NumberSteps(x.host, n.value); NumberNotBig(x.host, n.value); }
  }

  lemma NumberNotBig(h: Host, p: Word)
    ensures !Is(h, ToNum(h, p), BigInt)
  {
    hide ToNum, HasNum;
    NumberSteps(h, p);
  }

  lemma AddObjectIs(x: World, w: Word, st: Memo)
    requires !HasNum(w) && x.host.kind(w) == Object
    ensures ApplyBinary(x, ADD, w, MakeNumber(ONE), st) ==
            match ConvertIn(x, w, st, "default")
            case Failed(e, t) => Err(e, t)
            case Done(q, env, t) =>
              match AddPrimitives(x.host, env, t, q, MakeNumber(ONE))
              case Failed(e, t') => Err(e, t')
              case Done(v, env', t') => Val(v, Memo(env', t'))
  {
    hide MakeNumber, HasNum, Raw, AddPrimitives;
    OneIsNumber();
  }

  /** Both conversions record one event. */
  lemma ConvertTraces(x: World, w: Word, st: Memo)
    requires !HasNum(w) && x.host.kind(w) == Object
    ensures SameEvents(ConvertIn(x, w, st, "number").trace, ConvertIn(x, w, st, "default").trace)
  {
    hide HasNum;
  }

  lemma AddKeepsTrace(h: Host, env: Env, t: Trace, p: Word, q: Word)
    ensures var d := AddPrimitives(h, env, t, p, q); d.trace == t && (d.Done? ==> d.env == env)
  {
  }

  /** The failing case: on the text "5" an increment gives 6 and an addition "51"; a decrement and a
      subtraction both give 4. */
  lemma PeepholeOnText(x: World, w: Word, st: Memo)
    requires Is(x.host, w, Text) && x.host.asText(w) == "5" && x.host.asText(MakeNumber(ONE)) == "1"
    requires MakeNumber(x.host.textBits(w)) == FromSmi(5)
    ensures ApplyBinary(x, ADD, w, MakeNumber(ONE), st) == Val(x.host.ofText("51"), st)
    ensures ApplyUnary(x, INC, w, st) == Val(FromSmi(6), st) && x.host.ofText("51") != FromSmi(6)
    ensures ApplyUnary(x, DEC, w, st) == ApplyBinary(x, SUB, w, MakeNumber(ONE), st) == Val(FromSmi(4), st)
  {
    hide MakeNumber, NumBinary, NumUnary, FromSmi, ToNum, ApplyUnary, ApplyBinary, HasNum;
    SubtractText(x, w, st);
    FiveSteps();
    TextIs(x, w);
    TextSteps(x, w, st);
    TextPlusOne(x, w, st);
  }

  lemma TextIs(x: World, w: Word)
    requires Is(x.host, w, Text) && MakeNumber(x.host.textBits(w)) == FromSmi(5)
    ensures ToNum(x.host, w) == FromSmi(5)
  {
    hide MakeNumber, FromSmi, HasNum;
  }

  lemma TextSteps(x: World, w: Word, st: Memo)
    requires Is(x.host, w, Text) && ToNum(x.host, w) == FromSmi(5)
    ensures ApplyUnary(x, INC, w, st) == Val(NumUnary(INC, FromSmi(5)), st)
    ensures ApplyUnary(x, DEC, w, st) == Val(NumUnary(DEC, FromSmi(5)), st)
  {
    hide NumUnary, FromSmi, ToNum, HasNum;
  }

  lemma TextPlusOne(x: World, w: Word, st: Memo)
    requires Is(x.host, w, Text) && x.host.asText(w) == "5" && x.host.asText(MakeNumber(ONE)) == "1"
    ensures AddPrimitives(x.host, st.env, st.trace, w, MakeNumber(ONE)) == Done(x.host.ofText("51"), st.env, st.trace)
    ensures ApplyBinary(x, ADD, w, MakeNumber(ONE), st) == Val(x.host.ofText("51"), st)
    ensures IsCell(x.host.ofText("51"))
  {
    hide MakeNumber, HasNum;
    OneIsNumber();
    assert "5" + "1" == "51";
  }

  lemma FiveSteps()
    ensures NumUnary(INC, FromSmi(5)) == FromSmi(6) && NumUnary(DEC, FromSmi(5)) == FromSmi(4) && IsNumber(FromSmi(6))
  {
    hide MakeNumber, FromSmi, Encode, OfInt, NumOf, Add, Sub;
    SmiRoundTrip(5); SmiRoundTrip(6);
    AddOfInts(5, 1); SubOfInts(5, 1);
    MakeInt(6); MakeInt(4);
  }

  // ---- whole expressions

  /** At `w`, the step changes neither the outcome nor anything user code sees. */
  ghost predicate StepSafe(x: World, op: int, w: Word, st: Memo)
  {
    HasNum(w) || (op == SUB && StepKeeps(x, SUB, w, st))
  }

  lemma SafeStep(x: World, op: int, w: Word, st: Memo)
    requires (op == ADD || op == SUB) && StepSafe(x, op, w, st)
    ensures ApplyUnary(x, if op == ADD then INC else DEC, w, st) == ApplyBinary(x, op, w, MakeNumber(ONE), st)
  {
    hide MakeNumber, Coerce, NumBinary, NumUnary, StepKeeps, HasNum;
    OneIsNumber();
    if HasNum(w) { AddOneIsInc(w); } else { SubtractText(x, w, st); }
  }

  function PlainMode(ch: bool): Mode { Mode(false, ch) }

  /** Wherever plain evaluation of the expression comes to a step `x = x + 1` or `x = x - 1`, what it
      reads from `x` may be stepped. */
  ghost predicate StepsSafe(x: World, ch: bool, e: Expr, st: Memo)
    decreases e, 2
  {
    match e
    case Unary(_, a) => StepsSafe(x, ch, a, st)
    case Void(a) => StepsSafe(x, ch, a, st)
    case Binary(_, l, r) =>
      StepsSafe(x, ch, l, st) && (var v := Eval(x, PlainMode(ch), l, st); v.Val? ==> StepsSafe(x, ch, r, v.st))
    case Logical(_, l, r) =>
      StepsSafe(x, ch, l, st) && (var v := Eval(x, PlainMode(ch), l, st); v.Val? ==> StepsSafe(x, ch, r, v.st))
    case Cond(c, t, f) =>
      StepsSafe(x, ch, c, st) && (var v := Eval(x, PlainMode(ch), c, st);
          v.Val? ==> StepsSafe(x, ch, t, v.st) && StepsSafe(x, ch, f, v.st))
    case Sequence(a, rest) =>
      StepsSafe(x, ch, a, st) && (var v := Eval(x, PlainMode(ch), a, st); v.Val? ==> ArgsSafe(x, ch, rest, v.st))
    case Assign(n, a) =>
      StepsSafe(x, ch, a, st)
      && (IsStep(n, a) ==> var v := ReadName(x, GET_GLOBAL, n, st); v.Val? ==> StepSafe(x, a.bop, v.w, v.st))
    case Compound(_, n, a) => var v := ReadName(x, GET_GLOBAL, n, st); v.Val? ==> StepsSafe(x, ch, a, v.st)
    case LogicalAssign(_, n, a) => var v := ReadName(x, GET_GLOBAL, n, st); v.Val? ==> StepsSafe(x, ch, a, v.st)
    case Member(o, key, _) =>
      StepsSafe(x, ch, o, st)
      && (key.Computed? ==> var v := Eval(x, PlainMode(ch), o, st); v.Val? ==> StepsSafe(x, ch, key.e, v.st))
    case AssignMember(o, key, a) =>
      StepsSafe(x, ch, o, st) && (var v := Eval(x, PlainMode(ch), o, st); v.Val? ==>
        if StaticKey(x, key).Some? then StepsSafe(x, ch, a, v.st)
        else StepsSafe(x, ch, key.e, v.st) && (var k := Eval(x, PlainMode(ch), key.e, v.st);
            k.Val? ==> StepsSafe(x, ch, a, k.st)))
    case Chain(inner) => StepsSafe(x, true, inner, st)
    case Call(c, args, _) =>
      StepsSafe(x, ch, c, st) && (var v := Eval(x, PlainMode(ch), c, st); v.Val? ==> ArgsSafe(x, ch, args, v.st))
    case _ => true
  }

  ghost predicate ArgsSafe(x: World, ch: bool, args: Args, st: Memo)
    decreases args, 3
  {
    match args
    case Nil => true
    case Cons(a, more) =>
      StepsSafe(x, ch, a, st) && (var v := Eval(x, PlainMode(ch), a, st); v.Val? ==> ArgsSafe(x, ch, more, v.st))
  }

  /** Evaluation as it is compiled, with the peephole, is plain evaluation, as long as each step finds
      a value in its variable that may be stepped, at the moment it is evaluated. */
  lemma {:induction false} EvalKept(x: World, ch: bool, e: Expr, st: Memo)
    requires StepsSafe(x, ch, e, st)
    ensures Eval(x, Mode(true, ch), e, st) == Eval(x, PlainMode(ch), e, st)
    decreases e, 2
  {
    hide StepSafe, ReadName, WriteName, ApplyUnary, ApplyBinary, StepName, PostfixName, Ask, Taken, WordTruthy,
        MakeNumber, Keep, EvalArgs, EvalLast,
      EvalUnary, EvalVoid, EvalBinary, EvalLogical, EvalCond, EvalSequence, EvalAssign, EvalCompound, EvalLogicalAssign,
      EvalMember, EvalAssignMember, EvalChain, EvalCall, StepsSafe;
    match e
    case Unary(_, _) => PartsKept(x, ch, e, st);
    case Void(_) => PartsKept(x, ch, e, st);
    case Binary(_, _, _) => PartsKept(x, ch, e, st);
    case Logical(_, _, _) => PartsKept(x, ch, e, st);
    case Cond(_, _, _) => PartsKept(x, ch, e, st);
    case Sequence(_, _) => SequenceKept(x, ch, e, st);
    case Assign(_, _) => AssignKept(x, ch, e, st);
    case Compound(_, _, _) => CompoundKept(x, ch, e, st);
    case LogicalAssign(_, _, _) => CompoundKept(x, ch, e, st);
    case Member(_, _, _) => MemberKept(x, ch, e, st);
    case AssignMember(_, _, _) => AssignMemberKept(x, ch, e, st);
    case Chain(_) => ChainKept(x, ch, e, st);
    case Call(_, _, _) => CallKept(x, ch, e, st);
    case _ =>
  }

  lemma {:induction false} PartsKept(x: World, ch: bool, e: Expr, st: Memo)
    requires StepsSafe(x, ch, e, st) && (e.Unary? || e.Void? || e.Binary? || e.Logical? || e.Cond?)
    ensures e.Unary? ==> EvalUnary(x, Mode(true, ch), e, st) == EvalUnary(x, PlainMode(ch), e, st)
    ensures e.Void? ==> EvalVoid(x, Mode(true, ch), e, st) == EvalVoid(x, PlainMode(ch), e, st)
    ensures e.Binary? ==> EvalBinary(x, Mode(true, ch), e, st) == EvalBinary(x, PlainMode(ch), e, st)
    ensures e.Logical? ==> EvalLogical(x, Mode(true, ch), e, st) == EvalLogical(x, PlainMode(ch), e, st)
    ensures e.Cond? ==> EvalCond(x, Mode(true, ch), e, st) == EvalCond(x, PlainMode(ch), e, st)
    decreases e, 1
  {
    hide Eval, ApplyUnary, ApplyBinary, Taken, WordTruthy;
    var a := if e.Unary? || e.Void? then e.e else if e.Cond? then e.test else e.l;
    EvalKept(x, ch, a, st);
    var v := Eval(x, PlainMode(ch), a, st);
    if v.Val? && (e.Binary? || e.Logical?) { EvalKept(x, ch, e.r, v.st); }
    if v.Val? && e.Cond? { EvalKept(x, ch, e.yes, v.st); EvalKept(x, ch, e.no, v.st); }
  }

  lemma {:induction false} SequenceKept(x: World, ch: bool, e: Expr, st: Memo)
    requires StepsSafe(x, ch, e, st) && e.Sequence?
    ensures EvalSequence(x, Mode(true, ch), e, st) == EvalSequence(x, PlainMode(ch), e, st)
    decreases e, 1
  {
    hide Eval, EvalLast;
    EvalKept(x, ch, e.first, st);
    var v := Eval(x, PlainMode(ch), e.first, st);
    if v.Val? { LastKept(x, ch, e.rest, v.w, v.st); }
  }

  lemma {:induction false} LastKept(x: World, ch: bool, rest: Args, w: Word, st: Memo)
    requires ArgsSafe(x, ch, rest, st)
    ensures EvalLast(x, Mode(true, ch), rest, w, st) == EvalLast(x, PlainMode(ch), rest, w, st)
    decreases rest, 3
  {
    hide Eval, StepsSafe;
    if rest.Cons? {
      EvalKept(x, ch, rest.head, st);
      var v := Eval(x, PlainMode(ch), rest.head, st);
      if v.Val? { LastKept(x, ch, rest.tail, v.w, v.st); }
    }
  }

  /** The one place where the two ways differ. */
  lemma {:induction false} AssignKept(x: World, ch: bool, e: Expr, st: Memo)
    requires StepsSafe(x, ch, e, st) && e.Assign?
    ensures EvalAssign(x, Mode(true, ch), e, st) == EvalAssign(x, PlainMode(ch), e, st)
    decreases e, 1
  {
    hide Eval, WriteName, ReadName, ApplyUnary, ApplyBinary, StepSafe;
    if IsStep(e.target, e.value) {
      StepEval(x, PlainMode(ch), e.target, e.value, st);
      var v := ReadName(x, GET_GLOBAL, e.target, st);
      if v.Val? { SafeStep(x, e.value.bop, v.w, v.st); }
    } else {
      EvalKept(x, ch, e.value, st);
    }
  }

  /** The addition the peephole replaces. */
  lemma StepEval(x: World, d: Mode, n: string, v: Expr, st: Memo)
    requires IsStep(n, v)
    ensures Eval(x, d, v, st) ==
      match ReadName(x, GET_GLOBAL, n, st)
      case Val(w, st1) => ApplyBinary(x, v.bop, w, MakeNumber(ONE), st1)
      case other => other
  {
    hide ReadName, ApplyBinary, MakeNumber;
    assert Eval(x, d, v, st) == EvalBinary(x, d, v, st);
    assert Eval(x, d, v.l, st) == ReadName(x, GET_GLOBAL, n, st);
    var r := ReadName(x, GET_GLOBAL, n, st);
    if r.Val? { assert Eval(x, d, v.r, r.st) == Val(MakeNumber(ONE), r.st); }
  }

  lemma {:induction false} CompoundKept(x: World, ch: bool, e: Expr, st: Memo)
    requires StepsSafe(x, ch, e, st) && (e.Compound? || e.LogicalAssign?)
    ensures e.Compound? ==> EvalCompound(x, Mode(true, ch), e, st) == EvalCompound(x, PlainMode(ch), e, st)
    ensures e.LogicalAssign? ==>
            EvalLogicalAssign(x, Mode(true, ch), e, st) == EvalLogicalAssign(x, PlainMode(ch), e, st)
    decreases e, 1
  {
    hide Eval, ReadName, WriteName, ApplyBinary, Taken;
    var v := ReadName(x, GET_GLOBAL, e.target, st);
    if v.Val? { EvalKept(x, ch, e.value, v.st); }
  }

  lemma {:induction false} MemberKept(x: World, ch: bool, e: Expr, st: Memo)
    requires StepsSafe(x, ch, e, st) && e.Member?
    ensures EvalMember(x, Mode(true, ch), e, st) == EvalMember(x, PlainMode(ch), e, st)
    decreases e, 1
  {
    hide Eval, Ask, Taken;
    EvalKept(x, ch, e.obj, st);
    var v := Eval(x, PlainMode(ch), e.obj, st);
    if v.Val? && StaticKey(x, e.key).None? { EvalKept(x, ch, e.key.e, v.st); }
  }

  lemma {:induction false} AssignMemberKept(x: World, ch: bool, e: Expr, st: Memo)
    requires StepsSafe(x, ch, e, st) && e.AssignMember?
    ensures EvalAssignMember(x, Mode(true, ch), e, st) == EvalAssignMember(x, PlainMode(ch), e, st)
    decreases e, 1
  {
    hide Eval, Ask, Keep, ArgsSafe, StepSafe, Taken;
    EvalKept(x, ch, e.obj, st);
    var v := Eval(x, PlainMode(ch), e.obj, st);
    if v.Val? {
      if StaticKey(x, e.key).Some? {
        EvalKept(x, ch, e.value, v.st);
      } else {
        EvalKept(x, ch, e.key.e, v.st);
        var k := Eval(x, PlainMode(ch), e.key.e, v.st);
        if k.Val? { EvalKept(x, ch, e.value, k.st); }
      }
    }
  }

  lemma {:induction false} ChainKept(x: World, ch: bool, e: Expr, st: Memo)
    requires StepsSafe(x, ch, e, st) && e.Chain?
    ensures EvalChain(x, Mode(true, ch), e, st) == EvalChain(x, PlainMode(ch), e, st)
    decreases e, 1
  {
    hide Eval, Ask, ArgsSafe, StepSafe, Taken, ReadName;
    EvalKept(x, true, e.inner, st);
    assert Mode(true, true) == Mode(true, ch).(chain := true) && PlainMode(true) == PlainMode(ch).(chain := true);
  }

  lemma {:induction false} CallKept(x: World, ch: bool, e: Expr, st: Memo)
    requires StepsSafe(x, ch, e, st) && e.Call?
    ensures EvalCall(x, Mode(true, ch), e, st) == EvalCall(x, PlainMode(ch), e, st)
    decreases e, 1
  {
    hide Eval, EvalArgs, Taken, ArgsSafe, Ask, StepSafe;
    EvalKept(x, ch, e.callee, st);
    var v := Eval(x, PlainMode(ch), e.callee, st);
    if v.Val? { ArgsKept(x, ch, e.args, [v.w], v.st); }
  }

  lemma {:induction false} ArgsKept(x: World, ch: bool, args: Args, done: seq<Word>, st: Memo)
    requires ArgsSafe(x, ch, args, st)
    ensures EvalArgs(x, Mode(true, ch), args, done, st) == EvalArgs(x, PlainMode(ch), args, done, st)
    decreases args, 3
  {
    hide Eval, StepsSafe, Ask;
    if args.Cons? {
      EvalKept(x, ch, args.head, st);
      var v := Eval(x, PlainMode(ch), args.head, st);
      if v.Val? { ArgsKept(x, ch, args.tail, done + [v.w], v.st); }
    }
  }

  // ------------------------------------------------------------------ optional chains

  /** One link of a member chain. */
  datatype Link = Link(key: Key, optional: bool)

  /** `base` followed by its links. */
  function Linked(base: Expr, links: seq<Link>): Expr
    decreases |links|
  {
    if |links| == 0 then base
    else var n := |links| - 1; Member(Linked(base, links[..n]), links[n].key, links[n].optional)
  }

  /** Reading one link off a base value. */
  function ReadLink(x: World, d: Mode, w: Word, key: Key, st: Memo): Ev
  {
    if StaticKey(x, key).Some? then Ask(x, st, Event(GET_PROP, [w], StaticKey(x, key).value))
    else match Eval(x, d, key.e, st)
      case Val(k, st1) => Ask(x, st1, Event(GET_PROP_DYN, [w, k], ""))
      case other => other
  }

  /** The links in order, from the value of the base; a nullish base of an optional link ends it all
      with undefined, before that link's key and every later link. */
  function Follow(x: World, d: Mode, w: Word, links: seq<Link>, st: Memo): Ev
    decreases |links|
  {
    if |links| == 0 then Val(w, st)
    else if links[0].optional && Nullish(w) then Short(st)
    else match ReadLink(x, d, w, links[0].key, st)
      case Val(v, st1) => Follow(x, d, v, links[1..], st1)
      case other => other
  }

  lemma {:induction false} FollowLast(x: World, d: Mode, w: Word, links: seq<Link>, last: Link, st: Memo)
    ensures Follow(x, d, w, links + [last], st) ==
      match Follow(x, d, w, links, st)
      case Val(v, st1) =>
        if last.optional && Nullish(v) then Short(st1) else ReadLink(x, d, v, last.key, st1)
      case other => other
    decreases |links|
  {
    hide ReadLink;
    var all := links + [last];
    if |links| == 0 {
      assert all[1..] == [];
      var a := ReadLink(x, d, w, last.key, st);
      if a.Val? { assert Follow(x, d, a.w, [], a.st) == a; }
    } else {
      assert all[1..] == links[1..] + [last] && all[0] == links[0];
      var a := ReadLink(x, d, w, links[0].key, st);
      if !(links[0].optional && Nullish(w)) && a.Val? { FollowLast(x, d, a.w, links[1..], last, a.st); }
    }
  }

  /** Evaluating a chain of links is evaluating its base and following the links. */
  lemma {:induction false} LinkedIsFollow(x: World, d: Mode, base: Expr, links: seq<Link>, st: Memo)
    requires d.chain
    ensures Eval(x, d, Linked(base, links), st) ==
      match Eval(x, d, base, st) case Val(w, st1) => Follow(x, d, w, links, st1) case other => other
    decreases |links|
  {
    hide Eval, Follow, Ask;
    var b := Eval(x, d, base, st);
    if |links| == 0 {
      if b.Val? { FollowNone(x, d, b.w, b.st); }
    } else {
      var n := |links| - 1;
      LinkedIsFollow(x, d, base, links[..n], st);
      MemberIs(x, d, Linked(base, links), st);
      assert links[..n] + [links[n]] == links;
      if b.Val? { FollowLast(x, d, b.w, links[..n], links[n], b.st); }
    }
  }

  lemma FollowNone(x: World, d: Mode, w: Word, st: Memo)
    ensures Follow(x, d, w, [], st) == Val(w, st)
  {
  }

  lemma MemberIs(x: World, d: Mode, e: Expr, st: Memo)
    requires e.Member? && d.chain
    ensures Eval(x, d, e, st) ==
      match Eval(x, d, e.obj, st)
      case Val(w, st1) => if e.optional && Nullish(w) then Short(st1) else ReadLink(x, d, w, e.key, st1)
      case other => other
  {
    hide EvalUnary, EvalVoid, EvalBinary, EvalLogical, EvalCond, EvalSequence, EvalAssign, EvalCompound,
        EvalLogicalAssign,
      EvalAssignMember, EvalChain, EvalCall, Ask;
    assert Eval(x, d, e, st) == EvalMember(x, d, e, st);
  }

  /** Every base an optional link meets is neither null nor undefined. */
  predicate NeverNullish(x: World, d: Mode, w: Word, links: seq<Link>, st: Memo)
    decreases |links|
  {
    |links| == 0 ||
    (!(links[0].optional && Nullish(w))
     && var a := ReadLink(x, d, w, links[0].key, st); (a.Val? ==> NeverNullish(x, d, a.w, links[1..], a.st)))
  }

  /** The same links without question marks. */
  function Unguarded(links: seq<Link>): seq<Link>
  {
    seq(|links|, i requires 0 <= i < |links| => links[i].(optional := false))
  }

  lemma {:induction false} FollowPlain(x: World, d: Mode, w: Word, links: seq<Link>, st: Memo)
    requires NeverNullish(x, d, w, links, st)
    ensures Follow(x, d, w, links, st) == Follow(x, d, w, Unguarded(links), st)
    decreases |links|
  {
    hide ReadLink;
    if |links| > 0 {
      assert Unguarded(links)[1..] == Unguarded(links[1..]);
      var a := ReadLink(x, d, w, links[0].key, st);
      if a.Val? { FollowPlain(x, d, a.w, links[1..], a.st); }
    }
  }

  /** Once a guarded base is nullish the rest of the links is never looked at. */
  lemma {:induction false} FollowStops(x: World, d: Mode, w: Word, before: seq<Link>, rest: seq<Link>, st: Memo)
    requires Follow(x, d, w, before, st).Val? && |rest| > 0 && rest[0].optional
    requires Nullish(Follow(x, d, w, before, st).w)
    ensures Follow(x, d, w, before + rest, st) == Short(Follow(x, d, w, before, st).st)
    decreases |before|
  {
    hide ReadLink;
    var all := before + rest;
    if |before| == 0 {
      assert all == rest;
    } else {
      assert all[1..] == before[1..] + rest && all[0] == before[0];
      var a := ReadLink(x, d, w, before[0].key, st);
      FollowStops(x, d, a.w, before[1..], rest, a.st);
    }
  }

  lemma ChainIs(x: World, d: Mode, inner: Expr, st: Memo)
    ensures Eval(x, d, Chain(inner), st) ==
      match Eval(x, d.(chain := true), inner, st) case Short(st1) => Val(UNDEFINED, st1) case other => other
    ensures !Eval(x, d, Chain(inner), st).Short?
  {
    hide EvalUnary, EvalVoid, EvalBinary, EvalLogical, EvalCond, EvalSequence, EvalAssign, EvalCompound,
        EvalLogicalAssign,
      EvalAssignMember, EvalMember, EvalCall;
    assert Eval(x, d, Chain(inner), st) == EvalChain(x, d, Chain(inner), st);
  }

  /** An optional chain of any links: if the base of some optional link is nullish, the value is
      undefined, in the state reached just before that link, whatever links follow; if none is, the
      chain is the plain member chain. */
  lemma ChainMeaning(x: World, d: Mode, base: Expr, before: seq<Link>, rest: seq<Link>, st: Memo)
    requires Eval(x, d.(chain := true), base, st).Val?
    ensures var b := Eval(x, d.(chain := true), base, st);
            var at := Follow(x, d.(chain := true), b.w, before, b.st);
            at.Val? && |rest| > 0 && rest[0].optional && Nullish(at.w) ==>
              Eval(x, d, Chain(Linked(base, before + rest)), st) == Val(UNDEFINED, at.st)
    ensures var b := Eval(x, d.(chain := true), base, st);
            NeverNullish(x, d.(chain := true), b.w, before + rest, b.st) ==>
              Eval(x, d, Chain(Linked(base, before + rest)), st)
                  == Eval(x, d, Chain(Linked(base, Unguarded(before + rest))), st)
  {
    hide Eval, Follow, Linked, NeverNullish, Unguarded;
    var c := d.(chain := true);
    var b := Eval(x, c, base, st);
    var all := before + rest;
    LinkedIsFollow(x, c, base, all, st);
    LinkedIsFollow(x, c, base, Unguarded(all), st);
    ChainIs(x, d, Linked(base, all), st);
    ChainIs(x, d, Linked(base, Unguarded(all)), st);
    var at := Follow(x, c, b.w, before, b.st);
    if at.Val? && |rest| > 0 && rest[0].optional && Nullish(at.w) { FollowStops(x, c, b.w, before, rest, b.st); }
    if NeverNullish(x, c, b.w, all, b.st) { FollowPlain(x, c, b.w, all, b.st); }
  }
}
