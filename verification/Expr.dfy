/** Expressions and their left-to-right evaluation (section 13 of ECMA-262), as far as the
    expression compilers of src/bytecode/compiler.zig are modelled. */
module Expr {
  import opened Options
  import opened Bits
  import opened Float64
  import opened NanBox
  import opened Bytecode
  import opened Interp
  import opened Emit

  datatype Key = Name(name: string) | Computed(e: Expr)

  datatype Args = Nil | Cons(head: Expr, tail: Args)

  /** An expression node. Operators are named by the opcode that computes them; a logical operator
      by the jump that skips its right side. */
  datatype Expr =
    | Num(bits: nat)
    | Str(text: string)
    | Bool(b: bool)
    | NullLit
    | UndefLit
    | Ident(name: string)
    | Unary(uop: int, e: Expr)
    | TypeofName(name: string)
    | Void(e: Expr)
    | Binary(bop: int, l: Expr, r: Expr)
    | Logical(skip: int, l: Expr, r: Expr)
    | Cond(test: Expr, yes: Expr, no: Expr)
    | Sequence(first: Expr, rest: Args)
    | Assign(target: string, value: Expr)
    | Compound(bop: int, target: string, value: Expr)
    | LogicalAssign(skip: int, target: string, value: Expr)
    | Update(inc: bool, prefix: bool, target: string)
    | Member(obj: Expr, key: Key, optional: bool)
    | AssignMember(obj: Expr, key: Key, value: Expr)
    | Chain(inner: Expr)
    | Call(callee: Expr, args: Args, optional: bool)

  /** The engine an expression is compiled for and evaluated in: how it answers events, the variables
      outside the function, the spelling of a numeric key, whether a closure of this function is
      already out, whether its code is strict, and its variable that cannot be written. */
  datatype World = World(host: Host, outer: Env, numText: nat -> string, reach: Reach, strict: bool,
      fixed: Option<string>)

  datatype Memo = Memo(env: Env, trace: Trace)

  /** How evaluation ends: with a value, by leaving the enclosing optional chain, or with an error. */
  datatype Ev = Val(w: Word, st: Memo) | Short(st: Memo) | Err(error: Word, trace: Trace)

  function StaticKey(x: World, key: Key): Option<string>
  {
    match key
    case Name(s) => Some(s)
    case Computed(Str(s)) => Some(s)
    case Computed(Num(b)) => Some(x.numText(b))
    case _ => None
  }

  // ------------------------------------------------------------------ primitive steps

  function Ask(x: World, st: Memo, ev: Event): Ev
  {
    match Operate(x.host, x.strict, x.reach, st.env, st.trace, ev)
    case Failed(e, t) => Err(e, t)
    case Done(v, env, t) => Val(v, Memo(env, t))
  }

  function ApplyUnary(x: World, op: int, w: Word, st: Memo): Ev
  {
    if op == NOT then Val(FromBool(!WordTruthy(x.host, w)), st)
    else if IsNumericUnary(op) && HasNum(w) then Val(NumUnary(op, Coerce(w)), st)
    else Ask(x, st, Event(op, [w], ""))
  }

  function ApplyBinary(x: World, op: int, a: Word, b: Word, st: Memo): Ev
  {
    if Computes(op, a, b) then Val(NumBinary(op, Coerce(a), Coerce(b)), st) else Ask(x, st, Event(op, [a, b], ""))
  }

  function ReadName(x: World, op: int, n: string, st: Memo): Ev
  {
    if n in st.env then Val(st.env[n], st)
    else if n in x.outer then Val(x.outer[n], st)
    else Ask(x, st, Event(op, [], n))
  }

  /** Writing a variable; the value of the write is the value written. */
  function WriteName(x: World, n: string, w: Word, st: Memo): Ev
  {
    if n in st.env && x.fixed == Some(n) then (if x.strict then Err(x.host.typeError(ConstantAssignment), st.trace)
        else Val(w, st))
    else if n in st.env then Val(w, st.(env := st.env[n := w]))
    else match Ask(x, st, Event(SET_GLOBAL, [w], n))
      case Val(_, st') => Val(w, st')
      case other => other
  }

  /** Whether the jump `op` is taken on `w`. */
  predicate Taken(x: World, op: int, w: Word)
  {
    if op == JMP_IF_TRUE || op == JMP_IF_FALSE then WordTruthy(x.host, w) == (op == JMP_IF_TRUE)
    else (w == UNDEFINED || w == NULL) == (op == JMP_IF_NULLISH)
  }

  // ------------------------------------------------------------------ evaluation

  const ONE: nat := 0x3FF0_0000_0000_0000   // the bits of 1.0

  /** `x = x + 1` and `x = x - 1`. */
  predicate IsStep(target: string, value: Expr)
  {
    value.Binary? && (value.bop == ADD || value.bop == SUB) && value.l == Ident(target) && value.r == Num(ONE)
  }

  /** Read, increment or decrement, write back. */
  function StepName(x: World, op: int, n: string, st: Memo): Ev
  {
    match ReadName(x, GET_GLOBAL, n, st)
    case Val(w, st1) => (match ApplyUnary(x, op, w, st1)
      case Val(v, st2) => WriteName(x, n, v, st2)
      case other => other)
    case other => other
  }

  /** How an evaluation is done: with `peep`, a step `x = x + 1` increments `x` instead of adding;
      `chain` says whether an optional link has a chain to leave. */
  datatype Mode = Mode(peep: bool, chain: bool)

  /** Evaluation of an expression. */
  function Eval(x: World, d: Mode, e: Expr, st: Memo): Ev
    decreases e, 2
  {
    match e
    case Num(b) => Val(MakeNumber(b), st)
    case Str(s) => Val(x.host.ofText(s), st)
    case Bool(b) => Val(FromBool(b), st)
    case NullLit => Val(NULL, st)
    case UndefLit => Val(UNDEFINED, st)
    case Ident(n) => ReadName(x, GET_GLOBAL, n, st)
    case Unary(_, _) => EvalUnary(x, d, e, st)
    case TypeofName(n) => (match ReadName(x, GET_GLOBAL_OPT, n, st)
      case Val(w, st1) => ApplyUnary(x, TYPEOF, w, st1)
      case other => other)
    case Void(_) => EvalVoid(x, d, e, st)
    case Binary(_, _, _) => EvalBinary(x, d, e, st)
    case Logical(_, _, _) => EvalLogical(x, d, e, st)
    case Cond(_, _, _) => EvalCond(x, d, e, st)
    case Sequence(_, _) => EvalSequence(x, d, e, st)
    case Assign(_, _) => EvalAssign(x, d, e, st)
    case Compound(_, _, _) => EvalCompound(x, d, e, st)
    case LogicalAssign(_, _, _) => EvalLogicalAssign(x, d, e, st)
    case Update(inc, prefix, n) =>
      if prefix then StepName(x, if inc then INC else DEC, n, st) else PostfixName(x, if inc then INC else DEC, n, st)
    case Member(_, _, _) => EvalMember(x, d, e, st)
    case AssignMember(_, _, _) => EvalAssignMember(x, d, e, st)
    case Chain(_) => EvalChain(x, d, e, st)
    case Call(_, _, _) => EvalCall(x, d, e, st)
  }

  function EvalUnary(x: World, d: Mode, e: Expr, st: Memo): Ev
    requires e.Unary?
    decreases e, 1
  {
    match Eval(x, d, e.e, st)
    case Val(w, st1) => ApplyUnary(x, e.uop, w, st1)
    case other => other
  }

  function EvalVoid(x: World, d: Mode, e: Expr, st: Memo): Ev
    requires e.Void?
    decreases e, 1
  {
    match Eval(x, d, e.e, st)
    case Val(_, st1) => Val(UNDEFINED, st1)
    case other => other
  }

  function EvalBinary(x: World, d: Mode, e: Expr, st: Memo): Ev
    requires e.Binary?
    decreases e, 1
  {
    match Eval(x, d, e.l, st)
    case Val(a, st1) => (match Eval(x, d, e.r, st1)
      case Val(b, st2) => ApplyBinary(x, e.bop, a, b, st2)
      case other => other)
    case other => other
  }

  function EvalLogical(x: World, d: Mode, e: Expr, st: Memo): Ev
    requires e.Logical?
    decreases e, 1
  {
    match Eval(x, d, e.l, st)
    case Val(a, st1) => if Taken(x, e.skip, a) then Val(a, st1) else Eval(x, d, e.r, st1)
    case other => other
  }

  function EvalCond(x: World, d: Mode, e: Expr, st: Memo): Ev
    requires e.Cond?
    decreases e, 1
  {
    match Eval(x, d, e.test, st)
    case Val(w, st1) => if WordTruthy(x.host, w) then Eval(x, d, e.yes, st1) else Eval(x, d, e.no, st1)
    case other => other
  }

  function EvalSequence(x: World, d: Mode, e: Expr, st: Memo): Ev
    requires e.Sequence?
    decreases e, 1
  {
    match Eval(x, d, e.first, st)
    case Val(w, st1) => EvalLast(x, d, e.rest, w, st1)
    case other => other
  }

  function EvalAssign(x: World, d: Mode, e: Expr, st: Memo): Ev
    requires e.Assign?
    decreases e, 1
  {
    if d.peep && IsStep(e.target, e.value) then StepName(x, if e.value.bop == ADD then INC else DEC, e.target, st)
    else match Eval(x, d, e.value, st)
      case Val(w, st1) => WriteName(x, e.target, w, st1)
      case other => other
  }

  function EvalCompound(x: World, d: Mode, e: Expr, st: Memo): Ev
    requires e.Compound?
    decreases e, 1
  {
    match ReadName(x, GET_GLOBAL, e.target, st)
    case Val(a, st1) => (match Eval(x, d, e.value, st1)
      case Val(b, st2) => (match ApplyBinary(x, e.bop, a, b, st2)
        case Val(w, st3) => WriteName(x, e.target, w, st3)
        case other => other)
      case other => other)
    case other => other
  }

  function EvalLogicalAssign(x: World, d: Mode, e: Expr, st: Memo): Ev
    requires e.LogicalAssign?
    decreases e, 1
  {
    match ReadName(x, GET_GLOBAL, e.target, st)
    case Val(a, st1) =>
      if Taken(x, e.skip, a) then Val(a, st1)
      else (match Eval(x, d, e.value, st1)
        case Val(w, st2) => WriteName(x, e.target, w, st2)
        case other => other)
    case other => other
  }

  /** `x++` and `x--`: the value is the old one, made numeric. */
  function PostfixName(x: World, op: int, n: string, st: Memo): Ev
  {
    match ReadName(x, GET_GLOBAL, n, st)
    case Val(a, st1) => (match ApplyUnary(x, TO_NUMERIC, a, st1)
      case Val(was, st2) => (match ApplyUnary(x, op, was, st2)
        case Val(w, st3) => Keep(WriteName(x, n, w, st3), was)
        case other => other)
      case other => other)
    case other => other
  }

  function EvalMember(x: World, d: Mode, e: Expr, st: Memo): Ev
    requires e.Member?
    decreases e, 1
  {
    match Eval(x, d, e.obj, st)
    case Val(w, st1) =>
      if e.optional && d.chain && Taken(x, JMP_IF_NULLISH, w) then Short(st1)
      else if StaticKey(x, e.key).Some? then Ask(x, st1, Event(GET_PROP, [w], StaticKey(x, e.key).value))
      else (match Eval(x, d, e.key.e, st1)
        case Val(k, st2) => Ask(x, st2, Event(GET_PROP_DYN, [w, k], ""))
        case other => other)
    case other => other
  }

  function EvalAssignMember(x: World, d: Mode, e: Expr, st: Memo): Ev
    requires e.AssignMember?
    decreases e, 1
  {
    match Eval(x, d, e.obj, st)
    case Val(w, st1) =>
      if StaticKey(x, e.key).Some? then (match Eval(x, d, e.value, st1)
        case Val(a, st2) => Keep(Ask(x, st2, Event(SET_PROP, [w, a], StaticKey(x, e.key).value)), a)
        case other => other)
      else (match Eval(x, d, e.key.e, st1)
        case Val(k, st2) => (match Eval(x, d, e.value, st2)
          case Val(a, st3) => Keep(Ask(x, st3, Event(SET_PROP_DYN, [w, k, a], "")), a)
          case other => other)
        case other => other)
    case other => other
  }

  function EvalChain(x: World, d: Mode, e: Expr, st: Memo): Ev
    requires e.Chain?
    decreases e, 1
  {
    match Eval(x, d.(chain := true), e.inner, st)
    case Short(st1) => Val(UNDEFINED, st1)
    case other => other
  }

  function EvalCall(x: World, d: Mode, e: Expr, st: Memo): Ev
    requires e.Call?
    decreases e, 1
  {
    match Eval(x, d, e.callee, st)
    case Val(w, st1) =>
      if e.optional && d.chain && Taken(x, JMP_IF_NULLISH, w) then Short(st1)
      else EvalArgs(x, d, e.args, [w], st1)
    case other => other
  }

  /** The outcome of an effect, with the value of the assignment. */
  function Keep(ev: Ev, w: Word): Ev { if ev.Val? then Val(w, ev.st) else ev }

  /** The rest of a sequence: the last value counts. */
  function EvalLast(x: World, d: Mode, rest: Args, w: Word, st: Memo): Ev
    decreases rest, 3
  {
    match rest
    case Nil => Val(w, st)
    case Cons(a, more) => (match Eval(x, d, a, st)
      case Val(v, st1) => EvalLast(x, d, more, v, st1)
      case other => other)
  }

  /** The arguments, left to right, then the call. */
  function EvalArgs(x: World, d: Mode, args: Args, done: seq<Word>, st: Memo): Ev
    decreases args, 3
  {
    match args
    case Nil => Ask(x, st, Event(CALL, done, ""))
    case Cons(a, more) => (match Eval(x, d, a, st)
      case Val(v, st1) => EvalArgs(x, d, more, done + [v], st1)
      case other => other)
  }

  function Count(args: Args): nat { if args.Nil? then 0 else 1 + Count(args.tail) }
}
