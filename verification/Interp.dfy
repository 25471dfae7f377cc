/** The flat bytecode interpreter: one instruction per step, registers holding value words.

    Everything that may run user code (a property access, a call, the conversion of an object) is
    an `Event` answered by the `Host`, a function of the events so far, so the trace of a run
    records every store and call it performed, in order. */
module Interp {
  import opened Options
  import opened Bits
  import opened Float64
  import opened NanBox
  import opened Bytecode

  datatype Const = KNum(bits: nat) | KStr(name: string, ptr: Word) | KOther(word: Word)

  function ConstWord(c: Const): Word
  {
    match c
    case KNum(bits) => MakeNumber(bits)
    case KStr(_, ptr) => ptr
    case KOther(w) => w
  }

  /** How far the inline cache of a site has warmed up. */
  datatype SiteCache = SiteCache(filled: bool, chain: nat)

  /** `BcFunction`, as far as running and analysing it needs. `selfName` is the name a function
      expression binds to itself, `closureNames` the names its nested functions mention. */
  datatype Function = Function(
    code: Code,
    constants: seq<Const>,
    params: seq<string>,
    numRegs: nat,
    arity: nat,
    isGenerator: bool,
    isAsync: bool,
    strict: bool,
    isArrow: bool,
    selfName: Option<string>,
    usesArguments: bool,
    rest: Option<string>,
    closureNames: set<string>,
    caches: seq<SiteCache>)

  type Env = map<string, Word>

  datatype Event = Event(op: int, args: seq<Word>, key: string)
  type Trace = seq<Event>
  datatype Answer = Ok(value: Word) | Thrown(error: Word)

  /** What a heap cell is, as far as the operators tell cells apart. */
  datatype Kind = Text | BigInt | Symbol | Object

  /** Why the engine throws a TypeError of its own. */
  datatype Refusal =
    | NullishBase(ev: Event)        // a property of undefined or null
    | FailedStore(ev: Event)        // a store that failed, in strict code
    | NotFunction(callee: Word)     // a call of a non-callable value
    | ClassCall(callee: Word)       // a call of a class constructor
    | ConstantAssignment            // a write to the function's own name, in strict code
    | NotAFunction                  // the same, told by the native call helper
    | SymbolNumber | SymbolText | BigNumber | MixedBig

  type Bits64 = n: nat | n < TWO64

  /** A word that stands for a heap cell. */
  type Cell = w: Word | IsCell(w) witness 8
  predicate IsCell(w: Word) { !IsNumber(w) && w != UNDEFINED && w != NULL && w != FALSE && w != TRUE }

  /** Whether a closure of the running function is out, and if so, which names it mentions. */
  datatype Reach = Kept | Escaped(seen: set<string>)

  /** What a call binds besides its parameters. */
  datatype CallObject = Itself | ArgumentsObject | RestArray

  /** The rest of the engine: how an event is answered after a trace, given the variables the closures
      that are out can see (a store is answered with its success); how the native helpers' own copy of
      the machinery answers it; what those closures have done to these variables by then; and what is
      known of cells without running user code: truthiness, kind, the number a text reads as, texts,
      BigInt operations, the objects a call makes from its arguments. */
  datatype Host = Host(
    answer: (Env, Trace, Event) -> Answer,
    helper: (Trace, Event) -> Answer,
    envAfter: (Trace, Env) -> Env,
    cellTruthy: Word -> bool,
    callable: Word -> bool,
    isClass: Word -> bool,
    kind: Word -> Kind,
    textBits: Word -> Bits64,
    asText: Word -> string,
    ofText: string -> Cell,
    bigUnary: (int, Word) -> Word,
    bigBinary: (int, Word, Word) -> Answer,
    typeError: Refusal -> Word,
    callObject: (CallObject, seq<Word>) -> Word)

  /** `fixed` is the variable that cannot be written: the function's own name, bound by the call. */
  datatype State = State(
    pc: nat, regs: seq<Word>, env: Env, trace: Trace, reach: Reach, strict: bool, fixed: Option<string>)

  datatype Outcome =
    | Running(state: State)
    | Returned(value: Word, trace: Trace)
    | Threw(error: Word, trace: Trace)
    | Stuck

  function GetReg(regs: seq<Word>, r: nat): Word { if r < |regs| then regs[r] else UNDEFINED }
  function SetReg(regs: seq<Word>, r: nat, w: Word): (res: seq<Word>)
    ensures |res| == |regs|
  {
    if r < |regs| then regs[r := w] else regs
  }

  function NameOf(f: Function, k: nat): string
  {
    if k < |f.constants| && f.constants[k].KStr? then f.constants[k].name else ""
  }

  // ------------------------------------------------------------------ operators on numbers

  function Arith(op: int, a: Dbl, b: Dbl): Dbl
  {
    if op == ADD then Add(a, b) else if op == SUB then Sub(a, b) else if op == MUL then Mul(a, b)
    else if op == DIV then Div(a, b) else Rem(a, b)
  }

  /** The bitwise operators of a Number (sections 6.1.6.1.9 to 6.1.6.1.11 and 6.1.6.1.17 to
      6.1.6.1.19 of ECMA-262). */
  function BitOp(op: int, a: Dbl, b: Dbl): int
  {
    var x, y := ToInt32(a), ToInt32(b);
    var count := ToUint32(b) % 32;
    if op == BIT_AND then S32(BitAnd(U32(x), U32(y)))
    else if op == BIT_OR then S32(BitOr(U32(x), U32(y)))
    else if op == BIT_XOR then S32(BitXor(U32(x), U32(y)))
    else if op == SHL then S32(x * Pow2(count))
    else if op == SHR then x / Pow2(count)
    else ToUint32(a) / Pow2(count)
  }

  predicate Compare(op: int, a: Dbl, b: Dbl)
  {
    if op == EQ || op == SEQ then Equal(a, b)
    else if op == NEQ || op == SNEQ then !Equal(a, b)
    else if op == LT then Less(a, b)
    else if op == LE then Less(a, b) || Equal(a, b)
    else if op == GT then Less(b, a)
    else Less(b, a) || Equal(a, b)
  }

  /** The value of a binary operator on two number words. */
  function NumBinary(op: int, l: Word, r: Word): Word
  {
    if IsCompare(op) then FromBool(Compare(op, NumOf(l), NumOf(r)))
    else if IsBitBinary(op) then MakeNumber(Encode(OfInt(BitOp(op, NumOf(l), NumOf(r)))))
    else MakeNumber(Encode(Arith(op, NumOf(l), NumOf(r))))
  }

  function NumUnary(op: int, w: Word): Word
  {
    if op == INC then MakeNumber(Encode(Add(NumOf(w), OfInt(1))))
    else if op == DEC then MakeNumber(Encode(Sub(NumOf(w), OfInt(1))))
    else if op == NEG then MakeNumber(Encode(Neg(NumOf(w))))
    else if op == BIT_NOT then MakeNumber(Encode(OfInt(-1 - ToInt32(NumOf(w)))))
    else w
  }

  /** ToBoolean of a value word. */
  predicate WordTruthy(host: Host, w: Word)
  {
    if w == UNDEFINED || w == NULL || w == FALSE then false
    else if w == TRUE then true
    else if IsNumber(w) then Truthy(NumOf(w))
    else host.cellTruthy(w)
  }

  /** The values ToNumber converts without running user code or parsing text. */
  predicate HasNum(w: Word) { IsNumber(w) || w == UNDEFINED || w == NULL || w == FALSE || w == TRUE }

  /** ToNumber (section 7.1.4 of ECMA-262) on such a value. */
  function Coerce(w: Word): Word
  {
    if IsNumber(w) then w
    else MakeNumber(Encode(if w == UNDEFINED then NaN else if w == TRUE then OfInt(1) else Zero(false)))
  }

  predicate IsNumericUnary(op: int) { op in {INC, DEC, NEG, BIT_NOT, TO_NUMERIC, TO_NUMBER} }

  /** The operator is computed here rather than by an event. */
  predicate Computes(op: int, a: Word, b: Word)
  {
    if IsCompare(op) then IsNumber(a) && IsNumber(b)
    else IsNumericBinary(op) && HasNum(a) && HasNum(b)
  }

  // ------------------------------------------------------------------ operations

  /** What performing an operation gives: a value, the variables and the trace after it. */
  datatype Done = Done(value: Word, env: Env, trace: Trace) | Failed(error: Word, trace: Trace)

  function Visible(env: Env, names: set<string>): Env { map n | n in env && n in names :: env[n] }

  /** The function's own variables are out of reach until one of its closures has been created; then
      the closures see, and may change, those they mention. */
  function Seen(reach: Reach, env: Env): Env { if reach.Escaped? then Visible(env, reach.seen) else map[] }

  function Raw(host: Host, reach: Reach, env: Env, trace: Trace, ev: Event): Done
  {
    var seen := Seen(reach, env);
    match host.answer(seen, trace, ev)
    case Thrown(e) => Failed(e, trace + [ev])
    case Ok(v) =>
      Done(v, if reach.Escaped? then env + Visible(host.envAfter(trace + [ev], seen), seen.Keys) else env, trace + [ev])
  }

  predicate Nullish(w: Word) { w == UNDEFINED || w == NULL }
  function Base(ev: Event): Word { if |ev.args| > 0 then ev.args[0] else UNDEFINED }
  predicate IsStatic(ev: Event) { ev.op == GET_PROP || ev.op == SET_PROP }
  predicate IsDynamic(ev: Event) { ev.op == GET_PROP_DYN || ev.op == SET_PROP_DYN }
  predicate IsStore(ev: Event) { ev.op == SET_PROP || ev.op == SET_PROP_DYN }

  /** A private element `#x`; the answer covers the whole operation. */
  predicate IsPrivate(ev: Event) { IsStatic(ev) && |ev.key| > 0 && ev.key[0] == '#' }

  /** A property opcode: a nullish base throws, and so does a failed store in strict code. */
  function Access(host: Host, strict: bool, reach: Reach, env: Env, trace: Trace, ev: Event): Done
  {
    if Nullish(Base(ev)) then Failed(host.typeError(NullishBase(ev)), trace)
    else if strict && IsStore(ev) && host.answer(Seen(reach, env), trace, ev) == Ok(FALSE) then
      Failed(host.typeError(FailedStore(ev)), trace + [ev])
    else Raw(host, reach, env, trace, ev)
  }

  predicate Callable(host: Host, w: Word) { w != UNDEFINED && host.callable(w) }

  // ---- conversions and arithmetic on any words

  const CONVERT := -1   // the conversion of an object to a primitive, which no opcode names

  predicate Is(host: Host, w: Word, k: Kind) { !HasNum(w) && host.kind(w) == k }

  /** ToPrimitive; only an object runs user code. */
  function Convert(host: Host, reach: Reach, env: Env, trace: Trace, w: Word, hint: string): Done
  {
    if Is(host, w, Object) then Raw(host, reach, env, trace, Event(CONVERT, [w], hint)) else Done(w, env, trace)
  }

  /** `toNumber`, which runs no user code: a text is parsed, a symbol or an object is not a number. */
  function ToNum(host: Host, w: Word): Word
  {
    if HasNum(w) then Coerce(w)
    else if host.kind(w) == Text then MakeNumber(host.textBits(w)) else Coerce(UNDEFINED)
  }

  /** `toNumeric`: a number, or the BigInt itself. */
  function Numerical(host: Host, reach: Reach, env: Env, trace: Trace, w: Word): Done
  {
    match Convert(host, reach, env, trace, w, "number")
    case Failed(e, t) => Failed(e, t)
    case Done(p, env', t) =>
      if Is(host, p, BigInt) then Done(p, env', t)
      else if Is(host, p, Symbol) then Failed(host.typeError(SymbolNumber), t)
      else Done(ToNum(host, p), env', t)
  }

  function UnaryDone(host: Host, reach: Reach, env: Env, trace: Trace, op: int, w: Word): Done
  {
    if op == TO_NUMERIC then Numerical(host, reach, env, trace, w)
    else if op == TO_NUMBER then
      match Convert(host, reach, env, trace, w, "number")
      case Failed(e, t) => Failed(e, t)
      case Done(p, env', t) =>
        if Is(host, p, BigInt) then Failed(host.typeError(BigNumber), t)
        else if Is(host, p, Symbol) then Failed(host.typeError(SymbolNumber), t)
        else Done(ToNum(host, p), env', t)
    else if Is(host, w, BigInt) || Is(host, w, Object) then
      match Numerical(host, reach, env, trace, w)
      case Failed(e, t) => Failed(e, t)
      case Done(n, env', t) => Done(if Is(host, n, BigInt) then host.bigUnary(op, n) else NumUnary(op, n), env', t)
    else Done(NumUnary(op, ToNum(host, w)), env, trace)
  }

  /** `jsAdd`, once both operands are primitive. */
  function AddPrimitives(host: Host, env: Env, trace: Trace, p: Word, q: Word): Done
  {
    if Is(host, p, Text) || Is(host, p, Object) || Is(host, q, Text) || Is(host, q, Object) then
      if Is(host, p, Symbol) || Is(host, q, Symbol) then Failed(host.typeError(SymbolText), trace)
      else Done(host.ofText(host.asText(p) + host.asText(q)), env, trace)
    else if Is(host, p, BigInt) || Is(host, q, BigInt) then BigDone(host, env, trace, ADD, p, q)
    else if Is(host, p, Symbol) || Is(host, q, Symbol) then Failed(host.typeError(SymbolNumber), trace)
    else Done(NumBinary(ADD, ToNum(host, p), ToNum(host, q)), env, trace)
  }

  /** A binary operator with a BigInt operand. */
  function BigDone(host: Host, env: Env, trace: Trace, op: int, p: Word, q: Word): Done
  {
    if Is(host, p, BigInt) != Is(host, q, BigInt) then Failed(host.typeError(MixedBig), trace)
    else match host.bigBinary(op, p, q)
      case Ok(v) => Done(v, env, trace)
      case Thrown(e) => Failed(e, trace)
  }

  /** The conversion of an operand. */
  function Operand(host: Host, reach: Reach, env: Env, trace: Trace, op: int, w: Word): Done
  {
    if op == ADD then Convert(host, reach, env, trace, w, "default") else Numerical(host, reach, env, trace, w)
  }

  /** A binary operator on converted operands. */
  function Combine(host: Host, env: Env, trace: Trace, op: int, p: Word, q: Word): Done
  {
    if op == ADD then AddPrimitives(host, env, trace, p, q)
    else if Is(host, p, BigInt) || Is(host, q, BigInt) then BigDone(host, env, trace, op, p, q)
    else Done(NumBinary(op, p, q), env, trace)
  }

  function BinaryDone(host: Host, reach: Reach, env: Env, trace: Trace, op: int, a: Word, b: Word): Done
  {
    match Operand(host, reach, env, trace, op, a)
    case Failed(e, t) => Failed(e, t)
    case Done(p, env1, t1) =>
      match Operand(host, reach, env1, t1, op, b)
      case Failed(e, t) => Failed(e, t)
      case Done(q, env2, t2) => Combine(host, env2, t2, op, p, q)
  }

  predicate IsNumericBinary(op: int) { ADD <= op <= MOD || IsBitBinary(op) }

  /** An operation as the interpreter performs it. */
  function Operate(host: Host, strict: bool, reach: Reach, env: Env, trace: Trace, ev: Event): Done
  {
    if (IsStatic(ev) || IsDynamic(ev)) && !IsPrivate(ev) then Access(host, strict, reach, env, trace, ev)
    else if ev.op == CALL && !Callable(host, Base(ev)) then Failed(host.typeError(NotFunction(Base(ev))), trace)
    else if ev.op == CALL && host.isClass(Base(ev)) then Failed(host.typeError(ClassCall(Base(ev))), trace)
    else if IsNumericUnary(ev.op) && |ev.args| == 1 then UnaryDone(host, reach, env, trace, ev.op, ev.args[0])
    else if IsNumericBinary(ev.op) && |ev.args| == 2
        then BinaryDone(host, reach, env, trace, ev.op, ev.args[0], ev.args[1])
    else Raw(host, reach, env, trace, ev)
  }

  // ------------------------------------------------------------------ one instruction

  /** Perform an operation; on success deliver its value to register `dst`. */
  function Perform(host: Host, s: State, next: nat, ev: Event, dst: nat): Outcome
  {
    match Operate(host, s.strict, s.reach, s.env, s.trace, ev)
    case Failed(e, t) => Threw(e, t)
    case Done(v, env, t) => Running(State(next, SetReg(s.regs, dst, v), env, t, s.reach, s.strict, s.fixed))
  }

  /** Perform an effect that delivers nothing. */
  function PerformStore(host: Host, s: State, next: nat, ev: Event): Outcome
  {
    match Operate(host, s.strict, s.reach, s.env, s.trace, ev)
    case Failed(e, t) => Threw(e, t)
    case Done(_, env, t) => Running(State(next, s.regs, env, t, s.reach, s.strict, s.fixed))
  }

  function Goto(s: State, target: int): Outcome
  {
    if target < 0 then Stuck else Running(s.(pc := target))
  }

  /** A write to the function's own name: nothing in sloppy code, a TypeError in strict code; a strict
      definition binds the name anew. */
  function WriteFixed(host: Host, s: State, next: nat, op: int, n: string, w: Word): Outcome
  {
    if !s.strict then Running(s.(pc := next))
    else if op == DEFINE_GLOBAL then Running(s.(pc := next, env := s.env[n := w], fixed := None))
    else Threw(host.typeError(ConstantAssignment), s.trace)
  }

  function CallEvent(regs: seq<Word>, base: nat, nargs: nat): Event
  {
    Event(CALL, seq<Word>(nargs + 1, i requires 0 <= i => GetReg(regs, base + i)), "")
  }

  function Step(f: Function, host: Host, outer: Env, s: State): Outcome
  {
    if !Whole(f.code, s.pc) then Stuck else
    var next := Next(f.code, s.pc);
    match Fetch(f.code, s.pc)
    case LoadK(dst, k) =>
      if k < |f.constants| then Running(s.(pc := next, regs := SetReg(s.regs, dst, ConstWord(f.constants[k]))))
          else Stuck
    case LoadLit(op, dst) =>
      var w := if op == LOAD_TRUE then TRUE else if op == LOAD_FALSE then FALSE else if op == LOAD_NULL then NULL
          else UNDEFINED;
      Running(s.(pc := next, regs := SetReg(s.regs, dst, w)))
    case Unary(op, dst, src) =>
      var w := GetReg(s.regs, src);
      if op == MOVE then Running(s.(pc := next, regs := SetReg(s.regs, dst, w)))
      else if op == NOT then Running(s.(pc := next, regs := SetReg(s.regs, dst, FromBool(!WordTruthy(host, w)))))
      else if IsNumericUnary(op) && HasNum(w) then
        Running(s.(pc := next, regs := SetReg(s.regs, dst, NumUnary(op, Coerce(w)))))
      else Perform(host, s, next, Event(op, [w], ""), dst)
    case Binary(op, dst, l, r) =>
      var a, b := GetReg(s.regs, l), GetReg(s.regs, r);
      if Computes(op, a, b) then
        Running(s.(pc := next, regs := SetReg(s.regs, dst, NumBinary(op, Coerce(a), Coerce(b)))))
      else Perform(host, s, next, Event(op, [a, b], ""), dst)
    case GetName(op, dst, k) =>
      var n := NameOf(f, k);
      if n in s.env then Running(s.(pc := next, regs := SetReg(s.regs, dst, s.env[n])))
      else if n in outer then Running(s.(pc := next, regs := SetReg(s.regs, dst, outer[n])))
      else Perform(host, s, next, Event(op, [], n), dst)
    case SetName(op, k, src) =>
      var n, w := NameOf(f, k), GetReg(s.regs, src);
      if n in s.env && s.fixed == Some(n) then WriteFixed(host, s, next, op, n, w)
      else if n in s.env || (op == DEFINE_GLOBAL && n !in outer) then Running(s.(pc := next, env := s.env[n := w]))
      else PerformStore(host, s, next, Event(op, [w], n))
    case Hoist(k) =>
      var n := NameOf(f, k);
      Running(s.(pc := next, env := if n in s.env then s.env else s.env[n := UNDEFINED]))
    case Jump(rel) => Goto(s, next + rel)
    case Branch(op, cond, rel) =>
      var w := GetReg(s.regs, cond);
      if op == JMP_IF_TRUE || op == JMP_IF_FALSE then
        Goto(s, if WordTruthy(host, w) == (op == JMP_IF_TRUE) then next + rel else next)
      else
        Goto(s, if (w == UNDEFINED || w == NULL) == (op == JMP_IF_NULLISH) then next + rel else next)
    case GetProp(dst, obj, k) => Perform(host, s, next, Event(GET_PROP, [GetReg(s.regs, obj)], NameOf(f, k)), dst)
    case SetProp(obj, k, val) =>
      PerformStore(host, s, next, Event(SET_PROP, [GetReg(s.regs, obj), GetReg(s.regs, val)], NameOf(f, k)))
    case SetElem(obj, key, val) =>
      PerformStore(host, s, next, Event(SET_PROP_DYN, [GetReg(s.regs, obj), GetReg(s.regs, key), GetReg(s.regs, val)],
          ""))
    case Call(base, nargs, dst) => Perform(host, s, next, CallEvent(s.regs, base, nargs), dst)
    case NewClosure(dst, idx) =>
      Perform(host, s.(reach := Escaped(f.closureNames)), next, Event(NEW_CLOSURE, [FromSmi(idx)], ""), dst)
    case Return(src) => Returned(GetReg(s.regs, src), s.trace)
    case Stop(op) => Returned(UNDEFINED, s.trace)
    case Other(_) => Stuck
  }

  /** `n` instructions of a run, or fewer when it ends earlier. */
  function Run(f: Function, host: Host, outer: Env, s: State, n: nat): Outcome
    decreases n
  {
    if n == 0 then Running(s)
    else match Step(f, host, outer, s)
      case Running(s') => Run(f, host, outer, s', n - 1)
      case done => done
  }

  /** The frame of a fresh call: positional parameters bound, missing ones undefined. */
  function Bind(params: seq<string>, args: seq<Word>, i: nat): Env
    requires i <= |params|
  {
    if i == 0 then map[]
    else Bind(params, args, i - 1)[params[i - 1] := if i - 1 < |args| then args[i - 1] else UNDEFINED]
  }

  const NEW_TARGET := "__new_target__"

  /** The call binds the function's own name. */
  predicate BindsSelf(f: Function) { f.selfName.Some? && f.selfName.value !in f.params }
  predicate BindsArguments(f: Function) { f.usesArguments && "arguments" !in f.params }

  /** The names a call binds by itself, not to the argument in that place. */
  function CallNames(f: Function): set<string>
  {
    (if !f.isArrow && NEW_TARGET !in f.params then {NEW_TARGET} else {})
    + (if BindsArguments(f) then {"arguments"} else {})
    + (if f.rest.Some? then {f.rest.value} else {})
    + (if BindsSelf(f) then {f.selfName.value} else {})
  }

  /** The environment of a call: `new.target`, the parameters, `arguments`, the rest parameter and the
      function's own name, in this order. */
  function CallEnv(f: Function, host: Host, args: seq<Word>): Env
  {
    var e0: Env := if f.isArrow then map[] else map[NEW_TARGET := UNDEFINED];
    var e1 := e0 + Bind(f.params, args, |f.params|);
    var e2 := if BindsArguments(f) then e1["arguments" := host.callObject(ArgumentsObject, args)] else e1;
    var e3 := if f.rest.Some? then e2[f.rest.value := host.callObject(RestArray, args)] else e2;
    if BindsSelf(f) then e3[f.selfName.value := host.callObject(Itself, args)] else e3
  }

  /** A name the call does not bind by itself is bound to its argument, or not at all. */
  lemma CallEnvAt(f: Function, host: Host, args: seq<Word>, n: string)
    requires n !in CallNames(f)
    ensures n in CallEnv(f, host, args) <==> n in Bind(f.params, args, |f.params|)
    ensures n in CallEnv(f, host, args) ==> CallEnv(f, host, args)[n] == Bind(f.params, args, |f.params|)[n]
  {
    hide Bind;
    if n == NEW_TARGET && !f.isArrow { BindsParam(f.params, args, |f.params|, n); }
  }

  lemma {:induction false} BindsParam(params: seq<string>, args: seq<Word>, i: nat, n: string)
    requires i <= |params|
    ensures n in Bind(params, args, i) <==> n in params[..i]
  {
    if i > 0 {
      BindsParam(params, args, i - 1, n);
      assert params[..i] == params[..i - 1] + [params[i - 1]];
    }
  }

  /** A frame has at least one register. */
  function FrameSize(numRegs: nat): nat { if numRegs > 0 then numRegs else 1 }

  /** The first registers hold the parameters, the next one the function, if it binds its name. */
  function FirstReg(f: Function, host: Host, args: seq<Word>, i: nat): Word
  {
    if i < |f.params| && i < |args| then args[i]
    else if i == |f.params| && BindsSelf(f) then host.callObject(Itself, args)
    else UNDEFINED
  }

  function Enter(f: Function, host: Host, args: seq<Word>): State
  {
    State(0, seq(FrameSize(f.numRegs), i requires 0 <= i => FirstReg(f, host, args, i)), CallEnv(f, host, args), [],
        Kept,
      f.strict, if BindsSelf(f) then f.selfName else None)
  }

  /** The run from `s` ends in `out`. */
  ghost predicate Ends(f: Function, host: Host, outer: Env, s: State, out: Outcome)
  {
    !out.Running? && exists n: nat :: Run(f, host, outer, s, n) == out
  }

  lemma {:induction false} RunAdd(f: Function, host: Host, outer: Env, s: State, j: nat, n: nat)
    requires Run(f, host, outer, s, j).Running?
    ensures Run(f, host, outer, s, j + n) == Run(f, host, outer, Run(f, host, outer, s, j).state, n)
    decreases j
  {
    hide Step;
    if j > 0 { RunAdd(f, host, outer, Step(f, host, outer, s).state, j - 1, n); }
  }

  lemma {:induction false} RunLonger(f: Function, host: Host, outer: Env, s: State, n: nat, m: nat)
    requires !Run(f, host, outer, s, n).Running? && n <= m
    ensures Run(f, host, outer, s, m) == Run(f, host, outer, s, n)
    decreases n
  {
    hide Step;
    if n > 0 && Step(f, host, outer, s).Running? {
      RunLonger(f, host, outer, Step(f, host, outer, s).state, n - 1, m - 1);
    }
  }
}
