/** What the interpreter's operations do with operands that are no numbers, said without their
    definitions: the conversions of undefined, null and the booleans, truth, texts, the order in which
    operands are converted, and what is refused. */
module OperationLaws {
  import opened Options
  import opened Bits
  import opened Float64
  import opened NanBox
  import opened Bytecode
  import opened Interp
  import opened Operators
  import Numbers = NumberLaws
  import Eval = ExprLaws

  /** `makeNumber` keeps every Number, the sign of a zero included. */
  lemma MakeKeeps(d: Dbl)
    requires IsDbl(d)
    ensures IsNumber(MakeNumber(Encode(d))) && NumOf(MakeNumber(Encode(d))) == d
  {
    hide IsDbl, FromSmi, Encode, Decode, OfInt, Truncate;
    EncodeRoundTrip(d);
    if SmiFits(d) {
      Eval.FitsIsI32(d);
      SmiRoundTrip(Truncate(d));
      FitsIsInt(d);
    } else if d.NaN? {
      MakeNaN();
    } else {
      Eval.PatternLow(Encode(d));
      DoubleRoundTrip(Encode(d));
    }
  }

  lemma FitsIsInt(d: Dbl)
    requires SmiFits(d) && IsDbl(d)
    ensures OfInt(Truncate(d)) == d
  {
    if d.Fin? { IntegralIs(d); } else { ModUnique(0, One(), 0, 0); }
  }

  lemma MakeNaN()
    ensures var w := S64(QUIET_NAN + OFFSET); IsNumber(w) && NumOf(w) == NaN
  {
    hide Decode;
    DoubleRoundTrip(QUIET_NAN);
    NaNPattern();
    EncodeRoundTrip(NaN);
  }

  /** ToNumber of the values that are neither numbers nor cells: NaN, +0, +0 and 1 (section 7.1.4). */
  lemma CoerceIs(w: Word)
    ensures NumOf(Coerce(UNDEFINED)).NaN? && IsNumber(Coerce(UNDEFINED))
    ensures NumOf(Coerce(NULL)) == Zero(false) && NumOf(Coerce(FALSE)) == Zero(false)
    ensures NumOf(Coerce(TRUE)) == OfInt(1)
    ensures IsNumber(w) ==> Coerce(w) == w
  {
    hide MakeNumber, Encode, NumOf, OfInt;
    NotNumbers();
    MakeKeeps(NaN);
    MakeIs(0);
    MakeIs(1);
    ZeroIs();
  }

  lemma ZeroIs()
    ensures OfInt(0) == Zero(false)
  {
  }

  lemma NotNumbers()
    ensures forall w | w in {UNDEFINED, NULL, FALSE, TRUE} :: !IsNumber(w)
  {
    WordKinds(UNDEFINED); WordKinds(NULL); WordKinds(FALSE); WordKinds(TRUE);
  }

  lemma MakeIs(i: int)
    requires InBand(i)
    ensures NumOf(MakeNumber(Encode(OfInt(i)))) == OfInt(i)
  {
    MakeInt(i);
  }

  /** ToBoolean (section 7.1.2): the false values are undefined, null, false, NaN and the two zeros. */
  lemma TruthTable(host: Host, d: Dbl)
    requires IsDbl(d)
    ensures !WordTruthy(host, UNDEFINED) && !WordTruthy(host, NULL) && !WordTruthy(host, FALSE)
            && WordTruthy(host, TRUE)
    ensures WordTruthy(host, MakeNumber(Encode(d))) <==> !d.NaN? && !d.Zero?
  {
    hide MakeNumber, Encode, NumOf, IsDbl;
    MakeKeeps(d);
    NotNumbers();
  }

  // ------------------------------------------------------------------ refusals

  /** Reading or storing a property of undefined or of null throws before anything else happens. */
  lemma NullishThrows(host: Host, strict: bool, reach: Reach, env: Env, t: Trace, op: int, base: Word,
                      rest: seq<Word>, key: string)
    requires op in {GET_PROP, SET_PROP, GET_PROP_DYN, SET_PROP_DYN} && (key == "" || key[0] != '#')
    requires base == UNDEFINED || base == NULL
    ensures var ev := Event(op, [base] + rest, key);
            Operate(host, strict, reach, env, t, ev) == Failed(host.typeError(NullishBase(ev)), t)
  {
  }

  /** Any other base is asked: the operation is recorded once, and the answer is the result. */
  lemma AnyBaseIsAsked(host: Host, reach: Reach, env: Env, t: Trace, op: int, base: Word, rest: seq<Word>, key: string)
    requires op in {GET_PROP, SET_PROP, GET_PROP_DYN, SET_PROP_DYN} && base != UNDEFINED && base != NULL
    ensures var ev := Event(op, [base] + rest, key);
            var d := Operate(host, false, reach, env, t, ev);
            d.trace == t + [ev]
            && match host.answer(Seen(reach, env), t, ev)
               case Ok(v) => d.Done? && d.value == v
               case Thrown(e) => d.Failed? && d.error == e
  {
  }

  /** In strict code a store that answers false throws, after the attempt; in sloppy code it does not. */
  lemma StrictStoreFails(host: Host, reach: Reach, env: Env, t: Trace, op: int, base: Word, rest: seq<Word>,
                         key: string)
    requires op in {SET_PROP, SET_PROP_DYN} && base != UNDEFINED && base != NULL && (key == "" || key[0] != '#')
    ensures var ev := Event(op, [base] + rest, key);
            host.answer(Seen(reach, env), t, ev) == Ok(FALSE) ==>
              && Operate(host, true, reach, env, t, ev) == Failed(host.typeError(FailedStore(ev)), t + [ev])
              && Operate(host, false, reach, env, t, ev).Done?
  {
  }

  /** A private element is asked for even of undefined: the answer covers the whole operation. */
  lemma PrivateIsAsked(host: Host, strict: bool, reach: Reach, env: Env, t: Trace, op: int, args: seq<Word>,
                       name: string)
    requires op in {GET_PROP, SET_PROP}
    ensures var ev := Event(op, args, "#" + name);
            Operate(host, strict, reach, env, t, ev).trace == t + [ev]
  {
  }

  /** Until a closure is out, user code neither sees nor changes the variables. */
  lemma VariablesAreHidden(host: Host, strict: bool, env: Env, t: Trace, ev: Event)
    ensures Seen(Kept, env) == map[]
    ensures var d := Operate(host, strict, Kept, env, t, ev); d.Done? ==> d.env == env
  {
    hide UnaryDone, BinaryDone, Raw;
    RawKeeps(host, env, t, ev);
    if |ev.args| == 1 { UnaryKeeps(host, env, t, ev.op, ev.args[0]); }
    if |ev.args| == 2 { BinaryKeeps(host, env, t, ev.op, ev.args[0], ev.args[1]); }
  }

  lemma RawKeeps(host: Host, env: Env, t: Trace, ev: Event)
    ensures var d := Raw(host, Kept, env, t, ev); d.Done? ==> d.env == env
  {
  }

  lemma UnaryKeeps(host: Host, env: Env, t: Trace, op: int, w: Word)
    ensures var d := UnaryDone(host, Kept, env, t, op, w); d.Done? ==> d.env == env
    ensures var d := Operand(host, Kept, env, t, op, w); d.Done? ==> d.env == env
  {
    hide HasNum, NumUnary, ToNum;
  }

  lemma BinaryKeeps(host: Host, env: Env, t: Trace, op: int, a: Word, b: Word)
    ensures var d := BinaryDone(host, Kept, env, t, op, a, b); d.Done? ==> d.env == env
  {
    hide HasNum, NumBinary, ToNum, Operand;
    UnaryKeeps(host, env, t, op, a);
    var p := Operand(host, Kept, env, t, op, a);
    if p.Done? { UnaryKeeps(host, p.env, p.trace, op, b); }
  }

  /** Afterwards it sees the names the closures mention, and changes no others. */
  lemma ClosuresSeeTheirNames(host: Host, seen: set<string>, env: Env, t: Trace, ev: Event, n: string)
    ensures n in Seen(Escaped(seen), env) <==> n in env && n in seen
    ensures n in env && n in seen ==> Seen(Escaped(seen), env)[n] == env[n]
    ensures var d := Raw(host, Escaped(seen), env, t, ev);
            d.Done? ==> (n in d.env <==> n in env) && (n in env && n !in seen ==> d.env[n] == env[n])
  {
  }

  /** What a call binds: the function's own name before all, then the rest parameter, then `arguments`,
      then the parameters, and `new.target`, undefined, unless a parameter has that name. */
  lemma CallBinds(f: Function, host: Host, args: seq<Word>)
    ensures var env := CallEnv(f, host, args);
            && (BindsSelf(f) ==> f.selfName.value in env && env[f.selfName.value] == host.callObject(Itself, args))
            && (f.rest.Some? && !(BindsSelf(f) && f.selfName == f.rest) ==>
                 f.rest.value in env && env[f.rest.value] == host.callObject(RestArray, args))
            && (BindsArguments(f) && f.rest != Some("arguments")
                 && !(BindsSelf(f) && f.selfName == Some("arguments")) ==>
                 "arguments" in env && env["arguments"] == host.callObject(ArgumentsObject, args))
            && (!f.isArrow && f.params == [] && f.rest != Some(NEW_TARGET) && f.selfName != Some(NEW_TARGET) ==>
                 NEW_TARGET in env && env[NEW_TARGET] == UNDEFINED)
  {
    hide Bind;
    if f.params == [] { NoParams(args); }
  }

  /** A fresh frame: parameters and then the function itself in the first registers, the rest undefined; no
      event yet, no closure out, and the function's own name fixed. */
  lemma FrameIs(f: Function, host: Host, args: seq<Word>)
    ensures var s := Enter(f, host, args);
            && s.pc == 0 && s.trace == [] && s.reach.Kept? && s.strict == f.strict && |s.regs| > 0
                 && |s.regs| >= f.numRegs
            && (forall i | 0 <= i < |s.regs| && i < |f.params| && i < |args| :: s.regs[i] == args[i])
            && (forall i | 0 <= i < |s.regs| && |args| <= i < |f.params| :: s.regs[i] == UNDEFINED)
            && (forall i | |f.params| < i < |s.regs| :: s.regs[i] == UNDEFINED)
            && (f.selfName.Some? && f.selfName.value !in f.params ==>
                 s.fixed == f.selfName && (|f.params| < |s.regs| ==>
                     s.regs[|f.params|] == host.callObject(Itself, args)))
  {
    hide CallEnv;
  }

  lemma NoParams(args: seq<Word>)
    ensures Bind([], args, 0) == map[]
  {
  }

  /** A call of something that is no function, or of a class constructor, throws without a call. */
  lemma CallRefused(host: Host, strict: bool, reach: Reach, env: Env, t: Trace, callee: Word, args: seq<Word>)
    ensures var d := Operate(host, strict, reach, env, t, Event(CALL, [callee] + args, ""));
            && (callee == UNDEFINED || !host.callable(callee) ==> d == Failed(host.typeError(NotFunction(callee)), t))
            && (callee != UNDEFINED && host.callable(callee) && host.isClass(callee) ==>
                 d == Failed(host.typeError(ClassCall(callee)), t))
            && (callee != UNDEFINED && host.callable(callee) && !host.isClass(callee) ==>
                 d.trace == t + [Event(CALL, [callee] + args, "")])
  {
  }

  // ------------------------------------------------------------------ operands

  /** The left operand is converted first: if that throws, the right one is not looked at. */
  lemma LeftFirst(host: Host, reach: Reach, env: Env, t: Trace, op: int, a: Word, b: Word)
    requires Is(host, a, Object)
    ensures var ev := Event(CONVERT, [a], if op == ADD then "default" else "number");
            match host.answer(Seen(reach, env), t, ev)
            case Thrown(e) => BinaryDone(host, reach, env, t, op, a, b) == Failed(e, t + [ev])
            case Ok(_) => true
  {
    hide HasNum, AddPrimitives, BigDone, NumBinary, ToNum;
  }

  /** When the left one is primitive, only the right one is converted, after it. */
  lemma RightSecond(host: Host, reach: Reach, env: Env, t: Trace, a: Word, b: Word)
    requires !Is(host, a, Object) && Is(host, b, Object)
    ensures var ev := Event(CONVERT, [b], "default");
            var d := BinaryDone(host, reach, env, t, ADD, a, b);
            d.trace == t + [ev] && (host.answer(Seen(reach, env), t, ev).Thrown? ==> d.Failed?)
  {
    hide HasNum, NumBinary, ToNum;
  }

  /** Adding texts appends the right one to the left one. */
  lemma TextsAppend(host: Host, reach: Reach, env: Env, t: Trace, a: Word, b: Word)
    requires Is(host, a, Text) && Is(host, b, Text)
    ensures BinaryDone(host, reach, env, t, ADD, a, b) == Done(host.ofText(host.asText(a) + host.asText(b)), env, t)
  {
    hide HasNum;
  }

  /** Every other operator takes texts for the numbers they read as, the left one first. */
  lemma TextsAsNumbers(host: Host, reach: Reach, env: Env, t: Trace, op: int, a: Word, b: Word)
    requires Is(host, a, Text) && Is(host, b, Text) && op != ADD
    ensures BinaryDone(host, reach, env, t, op, a, b)
            == Done(NumBinary(op, MakeNumber(host.textBits(a)), MakeNumber(host.textBits(b))), env, t)
  {
    hide HasNum, NumBinary, MakeNumber;
    MakeHasNumber(host.textBits(a));
    MakeHasNumber(host.textBits(b));
  }

  lemma MakeHasNumber(bits: Bits64)
    ensures HasNum(MakeNumber(bits))
  {
    hide MakeNumber;
    Eval.MakeHasNum(bits);
  }

  /** BigInts are combined with each other, left and right, and with nothing else. */
  lemma BigOperands(host: Host, reach: Reach, env: Env, t: Trace, op: int, a: Word, b: Word)
    requires Is(host, a, BigInt) && !Is(host, b, Object) && !Is(host, b, Symbol) && !Is(host, b, Text)
    ensures var d := BinaryDone(host, reach, env, t, op, a, b);
            if Is(host, b, BigInt) then
              d == (match host.bigBinary(op, a, b) case Ok(v) => Done(v, env, t) case Thrown(e) => Failed(e, t))
            else d == Failed(host.typeError(MixedBig), t)
  {
    hide HasNum, NumBinary, ToNum;
    Eval.NumberNotBig(host, b);
  }

  /** A symbol is neither added nor computed with: the error says what it would have had to become. */
  lemma SymbolsRefused(host: Host, reach: Reach, env: Env, t: Trace, op: int, a: Word, b: Word)
    requires Is(host, a, Symbol) && (Is(host, b, Text) || Is(host, b, Symbol) || HasNum(b))
    ensures var refusal := if op == ADD && Is(host, b, Text) then SymbolText else SymbolNumber;
            BinaryDone(host, reach, env, t, op, a, b) == Failed(host.typeError(refusal), t)
  {
    hide NumBinary;
  }

  /** A unary operator on a text computes with the number it reads as; on a BigInt it stays a BigInt, except
      that unary plus refuses it; a symbol is refused by both conversions. */
  lemma UnaryOperands(host: Host, reach: Reach, env: Env, t: Trace, op: int, w: Word)
    requires IsNumericUnary(op)
    ensures var d := UnaryDone(host, reach, env, t, op, w);
            && (Is(host, w, Text) && op in {INC, DEC, NEG, BIT_NOT} ==>
                 d == Done(NumUnary(op, MakeNumber(host.textBits(w))), env, t))
            && (Is(host, w, Text) && op in {TO_NUMERIC, TO_NUMBER} ==> d == Done(MakeNumber(host.textBits(w)), env, t))
            && (Is(host, w, BigInt) && op in {INC, DEC, NEG, BIT_NOT} ==> d == Done(host.bigUnary(op, w), env, t))
            && (Is(host, w, BigInt) && op == TO_NUMERIC ==> d == Done(w, env, t))
            && (Is(host, w, BigInt) && op == TO_NUMBER ==> d == Failed(host.typeError(BigNumber), t))
            && (Is(host, w, Symbol) && op in {TO_NUMERIC, TO_NUMBER} ==> d == Failed(host.typeError(SymbolNumber), t))
  {
    hide HasNum, MakeNumber, NumUnary;
  }

  /** The quotient of a product of small integers by one of them is the other: the operands of `/` in
      their order, on the words the engine keeps. */
  lemma DivideWords(i: int, j: int)
    requires IsI32(i) && IsI32(j) && IsI32(i * j) && i != 0 && j != 0
    ensures NumBinary(DIV, FromSmi(i * j), FromSmi(j)) == FromSmi(i)
  {
    hide FromSmi, NumOf, MakeNumber, Encode, OfInt, Div;
    SmiRoundTrip(i * j); SmiRoundTrip(j); SmiRoundTrip(i);
    Numbers.DivOfInts(i, j);
    MakeInt(i);
  }
}
