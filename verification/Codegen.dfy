/** What the expression compilers emit, with every jump already at its final displacement. The code
    of an expression depends on the register it starts at, its offset, the chain it sits in and the
    constants already pooled. */
module Codegen {
  import opened Options
  import opened Bytecode
  import opened Interp
  import opened Emit
  import opened Chunk
  import opened Expr

  /** Where an optional link jumps: nowhere, to be patched, or to the pad of its chain. */
  datatype Guard = NoChain | Hole | To(pad: nat)

  /** Emitted code, the pool after it, one past the highest register it uses, and whether its jumps
      are all within the i16 range. */
  datatype Out = Out(code: seq<Byte>, pool: seq<Const>, top: nat, fits: bool)

  function Reg(s: nat): Byte { s % 256 }
  function Op8(op: int): Byte { op % 256 }
  function StrConst(x: World, s: string): Const { KStr(s, x.host.ofText(s)) }
  function Jump16(delta: int): (r: seq<Byte>) ensures |r| == 2 { Enc16(Clamp16(delta)) }
  function InChain(g: Guard): bool { !g.NoChain? }
  function Max(a: nat, b: nat): nat { if a >= b then a else b }

  predicate StaticSize(key: Key) { key.Name? || key.e.Str? || key.e.Num? }
  function GuardSize(optional: bool, ch: bool): nat { if optional && ch then 4 else 0 }

  function PoolName(x: World, n: string, pool: seq<Const>): seq<Const> { Pooled(pool, StrConst(x, n)) }
  function NameIndex(x: World, n: string, pool: seq<Const>): nat { PoolIndex(pool, StrConst(x, n)) }

  // ------------------------------------------------------------------ sizes

  /** The length of the code of an expression, inside a chain or not. */
  function Size(e: Expr, ch: bool): nat
    decreases e, 0
  {
    match e
    case Num(_) => 4
    case Str(_) => 4
    case Bool(_) => 2
    case NullLit => 2
    case UndefLit => 2
    case Ident(_) => 4
    case Unary(_, a) => Size(a, ch) + 3
    case TypeofName(_) => 7
    case Void(a) => Size(a, ch) + 2
    case Binary(_, l, r) => Size(l, ch) + Size(r, ch) + 4
    case Logical(_, l, r) => Size(l, ch) + 4 + Size(r, ch)
    case Cond(c, t, f) => Size(c, ch) + 4 + Size(t, ch) + 3 + Size(f, ch)
    case Sequence(a, rest) => Size(a, ch) + ArgsSize(rest, ch)
    case Assign(n, v) => if IsStep(n, v) then 11 else Size(v, ch) + 4
    case Compound(_, _, v) => 4 + Size(v, ch) + 8
    case LogicalAssign(_, _, v) => 8 + Size(v, ch) + 4
    case Update(_, prefix, _) => if prefix then 11 else 14
    case Member(o, key, optional) =>
      Size(o, ch) + GuardSize(optional, ch) + (if StaticSize(key) then 5 else Size(key.e, ch) + 4)
    case AssignMember(o, key, v) =>
      Size(o, ch) + (if StaticSize(key) then 5 else Size(key.e, ch) + 4) + Size(v, ch) + 3
    case Chain(inner) => Size(inner, true) + 5
    case Call(callee, args, optional) => Size(callee, ch) + GuardSize(optional, ch) + ArgsSize(args, ch) + 4
  }

  function ArgsSize(args: Args, ch: bool): nat
    decreases args, 1
  {
    match args
    case Nil => 0
    case Cons(a, more) => Size(a, ch) + ArgsSize(more, ch)
  }

  // ------------------------------------------------------------------ instructions

  function LoadName(op: Byte, s: nat, k: nat): (r: seq<Byte>) ensures |r| == 4 { [op, Reg(s)] + Enc16(k) }
  function StoreName(k: nat, s: nat): (r: seq<Byte>) ensures |r| == 4 { [SET_GLOBAL as Byte] + Enc16(k) + [Reg(s)] }
  function Three(op: int, a: nat, b: nat): (r: seq<Byte>) ensures |r| == 3 { [Op8(op), Reg(a), Reg(b)] }
  function Four(op: int, a: nat, b: nat, c: nat): (r: seq<Byte>) ensures |r| == 4 { [Op8(op), Reg(a), Reg(b), Reg(c)] }
  function Two(op: int, a: nat): (r: seq<Byte>) ensures |r| == 2 { [Op8(op), Reg(a)] }
  function BranchTo(op: int, s: nat, delta: int): (r: seq<Byte>) ensures |r| == 4 { [Op8(op), Reg(s)] + Jump16(delta) }
  function JumpTo(delta: int): (r: seq<Byte>) ensures |r| == 3 { [JMP as Byte] + Jump16(delta) }
  function GetStatic(s: nat, k: nat): (r: seq<Byte>) ensures |r| == 5 { [GET_PROP as Byte, Reg(s), Reg(s)] + Enc16(k) }
  function SetStatic(o: nat, k: nat, v: nat): (r: seq<Byte>) ensures |r| == 5
  {
    [SET_PROP as Byte, Reg(o)] + Enc16(k) + [Reg(v)]
  }

  /** The guard of an optional link tested in register `s`, emitted at `at`. */
  function GuardCode(optional: bool, s: nat, at: nat, g: Guard): (r: seq<Byte>)
    ensures |r| == GuardSize(optional, InChain(g))
  {
    if !optional || g.NoChain? then []
    else Two(JMP_IF_NULLISH, s) + (if g.Hole? then Enc16(0) else Jump16(g.pad - (at + 4)))
  }

  predicate GuardFits(optional: bool, at: nat, g: Guard)
  {
    optional && g.To? ==> FitsI16(g.pad - (at + 4))
  }

  // ------------------------------------------------------------------ expressions

  function Literal(op: Byte, c: Const, s: nat, pool: seq<Const>): Out
  {
    Out(LoadName(op, s, PoolIndex(pool, c)), Pooled(pool, c), s + 1, true)
  }

  /** The code of an expression whose value goes to register `s`. */
  function Gen(x: World, e: Expr, s: nat, at: nat, g: Guard, pool: seq<Const>): Out
    decreases e, 2
  {
    match e
    case Num(b) => Literal(LOAD_K, KNum(b), s, pool)
    case Str(t) => Literal(LOAD_K, StrConst(x, t), s, pool)
    case Bool(b) => Out(Two(if b then LOAD_TRUE else LOAD_FALSE, s), pool, s + 1, true)
    case NullLit => Out(Two(LOAD_NULL, s), pool, s + 1, true)
    case UndefLit => Out(Two(LOAD_UNDEF, s), pool, s + 1, true)
    case Ident(n) => Literal(GET_GLOBAL, StrConst(x, n), s, pool)
    case Unary(_, _) => GenUnary(x, e, s, at, g, pool)
    case TypeofName(n) =>
      var o := Literal(GET_GLOBAL_OPT, StrConst(x, n), s, pool);
      o.(code := o.code + Three(TYPEOF, s, s))
    case Void(_) => GenVoid(x, e, s, at, g, pool)
    case Binary(_, _, _) => GenBinary(x, e, s, at, g, pool)
    case Logical(_, _, _) => GenLogical(x, e, s, at, g, pool)
    case Cond(_, _, _) => GenCond(x, e, s, at, g, pool)
    case Sequence(_, _) => GenSequence(x, e, s, at, g, pool)
    case Assign(_, _) => GenAssign(x, e, s, at, g, pool)
    case Compound(_, _, _) => GenCompound(x, e, s, at, g, pool)
    case LogicalAssign(_, _, _) => GenLogicalAssign(x, e, s, at, g, pool)
    case Update(inc, prefix, n) =>
      if prefix then StepCode(x, if inc then INC else DEC, n, s, pool)
          else PostfixCode(x, if inc then INC else DEC, n, s, pool)
    case Member(_, _, _) => GenMember(x, e, s, at, g, pool)
    case AssignMember(_, _, _) => GenAssignMember(x, e, s, at, g, pool)
    case Chain(_) => GenChain(x, e, s, at, g, pool)
    case Call(_, _, _) => GenCall(x, e, s, at, g, pool)
  }

  function GenUnary(x: World, e: Expr, s: nat, at: nat, g: Guard, pool: seq<Const>): Out
    requires e.Unary?
    decreases e, 1
  {
    var a := Gen(x, e.e, s, at, g, pool);
    a.(code := a.code + Three(e.uop, s, s))
  }

  function GenVoid(x: World, e: Expr, s: nat, at: nat, g: Guard, pool: seq<Const>): Out
    requires e.Void?
    decreases e, 1
  {
    var a := Gen(x, e.e, s, at, g, pool);
    a.(code := a.code + Two(LOAD_UNDEF, s))
  }

  function GenBinary(x: World, e: Expr, s: nat, at: nat, g: Guard, pool: seq<Const>): Out
    requires e.Binary?
    decreases e, 1
  {
    var l := Gen(x, e.l, s, at, g, pool);
    var r := Gen(x, e.r, s + 1, at + Size(e.l, InChain(g)), g, l.pool);
    Out(l.code + r.code + Four(e.bop, s, s, s + 1), r.pool, Max(l.top, r.top), l.fits && r.fits)
  }

  /** The right side overwrites the left when the jump past it is not taken. */
  function GenLogical(x: World, e: Expr, s: nat, at: nat, g: Guard, pool: seq<Const>): Out
    requires e.Logical?
    decreases e, 1
  {
    var n := Size(e.r, InChain(g));
    var l := Gen(x, e.l, s, at, g, pool);
    var r := Gen(x, e.r, s, at + Size(e.l, InChain(g)) + 4, g, l.pool);
    Out(l.code + BranchTo(e.skip, s, n) + r.code, r.pool, Max(l.top, r.top), l.fits && r.fits && FitsI16(n))
  }

  function GenCond(x: World, e: Expr, s: nat, at: nat, g: Guard, pool: seq<Const>): Out
    requires e.Cond?
    decreases e, 1
  {
    var n, m := Size(e.yes, InChain(g)), Size(e.no, InChain(g));
    var a2 := at + Size(e.test, InChain(g)) + 4;
    var c := Gen(x, e.test, s, at, g, pool);
    var t := Gen(x, e.yes, s, a2, g, c.pool);
    var f := Gen(x, e.no, s, a2 + n + 3, g, t.pool);
    Out(c.code + BranchTo(JMP_IF_FALSE, s, n + 3) + t.code + JumpTo(m) + f.code, f.pool,
        Max(c.top, Max(t.top, f.top)), c.fits && t.fits && f.fits && FitsI16(n + 3) && FitsI16(m))
  }

  function GenSequence(x: World, e: Expr, s: nat, at: nat, g: Guard, pool: seq<Const>): Out
    requires e.Sequence?
    decreases e, 1
  {
    var a := Gen(x, e.first, s, at, g, pool);
    var r := GenRest(x, e.rest, s, at + Size(e.first, InChain(g)), g, a.pool);
    Out(a.code + r.code, r.pool, Max(a.top, r.top), a.fits && r.fits)
  }

  /** Load a variable, increment or decrement it in place, store it back. */
  function StepCode(x: World, op: int, n: string, s: nat, pool: seq<Const>): Out
  {
    var p := PoolName(x, n, pool);
    Out(LoadName(GET_GLOBAL, s, NameIndex(x, n, pool)) + Three(op, s, s) + StoreName(NameIndex(x, n, p), s),
        PoolName(x, n, p), s + 1, true)
  }

  /** Load a variable, make it numeric, put its successor in the next register and store that. */
  function PostfixCode(x: World, op: int, n: string, s: nat, pool: seq<Const>): Out
  {
    var p := PoolName(x, n, pool);
    Out(LoadName(GET_GLOBAL, s, NameIndex(x, n, pool)) + Three(TO_NUMERIC, s, s) + Three(op, s + 1, s)
        + StoreName(NameIndex(x, n, p), s + 1), PoolName(x, n, p), s + 2, true)
  }

  function GenAssign(x: World, e: Expr, s: nat, at: nat, g: Guard, pool: seq<Const>): Out
    requires e.Assign?
    decreases e, 1
  {
    if IsStep(e.target, e.value) then StepCode(x, if e.value.bop == ADD then INC else DEC, e.target, s, pool)
    else
      var v := Gen(x, e.value, s, at, g, pool);
      v.(code := v.code + StoreName(NameIndex(x, e.target, v.pool), s), pool := PoolName(x, e.target, v.pool))
  }

  function GenCompound(x: World, e: Expr, s: nat, at: nat, g: Guard, pool: seq<Const>): Out
    requires e.Compound?
    decreases e, 1
  {
    var v := Gen(x, e.value, s + 1, at + 4, g, PoolName(x, e.target, pool));
    v.(code := LoadName(GET_GLOBAL, s, NameIndex(x, e.target, pool)) + v.code + Four(e.bop, s, s, s + 1)
               + StoreName(NameIndex(x, e.target, v.pool), s),
       pool := PoolName(x, e.target, v.pool))
  }

  function GenLogicalAssign(x: World, e: Expr, s: nat, at: nat, g: Guard, pool: seq<Const>): Out
    requires e.LogicalAssign?
    decreases e, 1
  {
    var n := Size(e.value, InChain(g)) + 4;
    var v := Gen(x, e.value, s, at + 8, g, PoolName(x, e.target, pool));
    Out(LoadName(GET_GLOBAL, s, NameIndex(x, e.target, pool)) + BranchTo(e.skip, s, n) + v.code
        + StoreName(NameIndex(x, e.target, v.pool), s),
        PoolName(x, e.target, v.pool), v.top, v.fits && FitsI16(n))
  }

  /** The static name of a key, empty when it has none. */
  function KeyName(x: World, key: Key): string { StaticKey(x, key).GetOr("") }

  function GenMember(x: World, e: Expr, s: nat, at: nat, g: Guard, pool: seq<Const>): Out
    requires e.Member?
    decreases e, 1
  {
    var here := at + Size(e.obj, InChain(g));
    var o := Gen(x, e.obj, s, at, g, pool);
    var base := o.code + GuardCode(e.optional, s, here, g);
    var fits := o.fits && GuardFits(e.optional, here, g);
    if StaticSize(e.key) then
      Out(base + GetStatic(s, NameIndex(x, KeyName(x, e.key), o.pool)), PoolName(x, KeyName(x, e.key), o.pool), o.top,
          fits)
    else
      var k := Gen(x, e.key.e, s + 1, here + GuardSize(e.optional, InChain(g)), g, o.pool);
      Out(base + k.code + Four(GET_PROP_DYN, s, s, s + 1), k.pool, Max(o.top, k.top), fits && k.fits)
  }

  /** The result slot is reserved first, then base, key and value. */
  function GenAssignMember(x: World, e: Expr, s: nat, at: nat, g: Guard, pool: seq<Const>): Out
    requires e.AssignMember?
    decreases e, 1
  {
    var ch := InChain(g);
    var here := at + Size(e.obj, ch);
    var o := Gen(x, e.obj, s + 1, at, g, pool);
    if StaticSize(e.key) then
      var v := Gen(x, e.value, s + 2, here, g, PoolName(x, KeyName(x, e.key), o.pool));
      Out(o.code + v.code + SetStatic(s + 1, NameIndex(x, KeyName(x, e.key), o.pool), s + 2) + Three(MOVE, s, s + 2),
          v.pool, Max(o.top, v.top), o.fits && v.fits)
    else
      var k := Gen(x, e.key.e, s + 2, here, g, o.pool);
      var v := Gen(x, e.value, s + 3, here + Size(e.key.e, ch), g, k.pool);
      Out(o.code + k.code + v.code + Four(SET_PROP_DYN, s + 1, s + 2, s + 3) + Three(MOVE, s, s + 3),
          v.pool, Max(o.top, Max(k.top, v.top)), o.fits && k.fits && v.fits)
  }

  /** The links jump to a pad that loads undefined into the chain's register. */
  function GenChain(x: World, e: Expr, s: nat, at: nat, g: Guard, pool: seq<Const>): Out
    requires e.Chain?
    decreases e, 1
  {
    var i := Gen(x, e.inner, s, at, To(at + Size(e.inner, true) + 3), pool);
    i.(code := i.code + JumpTo(2) + Two(LOAD_UNDEF, s))
  }

  function GenCall(x: World, e: Expr, s: nat, at: nat, g: Guard, pool: seq<Const>): Out
    requires e.Call?
    decreases e, 1
  {
    var here := at + Size(e.callee, InChain(g));
    var c := Gen(x, e.callee, s, at, g, pool);
    var a := GenArgs(x, e.args, s + 1, here + GuardSize(e.optional, InChain(g)), g, c.pool);
    Out(c.code + GuardCode(e.optional, s, here, g) + a.code + Four(CALL, s, Count(e.args), s), a.pool,
        Max(c.top, a.top), c.fits && GuardFits(e.optional, here, g) && a.fits)
  }

  /** The rest of a sequence: every value goes to the same register. */
  function GenRest(x: World, rest: Args, s: nat, at: nat, g: Guard, pool: seq<Const>): Out
    decreases rest, 3
  {
    match rest
    case Nil => Out([], pool, s, true)
    case Cons(e, more) =>
      var a := Gen(x, e, s, at, g, pool);
      var r := GenRest(x, more, s, at + Size(e, InChain(g)), g, a.pool);
      Out(a.code + r.code, r.pool, Max(a.top, r.top), a.fits && r.fits)
  }

  /** Arguments go to consecutive registers. */
  function GenArgs(x: World, args: Args, s: nat, at: nat, g: Guard, pool: seq<Const>): Out
    decreases args, 3
  {
    match args
    case Nil => Out([], pool, s, true)
    case Cons(e, more) =>
      var a := Gen(x, e, s, at, g, pool);
      var r := GenArgs(x, more, s + 1, at + Size(e, InChain(g)), g, a.pool);
      Out(a.code + r.code, r.pool, Max(a.top, r.top), a.fits && r.fits)
  }

  // ------------------------------------------------------------------ the expressions in scope

  predicate IsSkip(op: int) { op == JMP_IF_FALSE || op == JMP_IF_TRUE || op == JMP_IF_NOT_NULLISH }
  predicate IsOperator(op: int) { ADD <= op <= USHR || IsCompare(op) || op == INSTANCEOF || op == IN }
  predicate IsPrefix(op: int) { op == NEG || op == TO_NUMBER || op == NOT || op == BIT_NOT || op == TYPEOF }

  /** Not a method call, a direct eval, an await or a delegated yield. */
  predicate PlainCallee(e: Expr)
  {
    !e.Member? && !(e.Chain? && e.inner.Member?) && (e.Ident? ==> e.name !in {"eval", "__await__", "__yield_star__"})
  }

  /** A private name on the left of `in`. */
  predicate IsPrivate(e: Expr) { e.Ident? && |e.name| > 0 && e.name[0] == '#' }

  /** Operators are the opcodes the compiler maps them to, and a call is a plain call. */
  predicate Plain(e: Expr)
    decreases e, 0
  {
    match e
    case Num(b) => b < 0x1_0000_0000_0000_0000
    case Unary(op, a) => IsPrefix(op) && Plain(a) && !(op == TYPEOF && a.Ident?)
    case Void(a) => Plain(a)
    case Binary(op, l, r) => IsOperator(op) && Plain(l) && Plain(r) && !(op == IN && IsPrivate(l))
    case Logical(skip, l, r) => IsSkip(skip) && Plain(l) && Plain(r)
    case Cond(c, t, f) => Plain(c) && Plain(t) && Plain(f)
    case Sequence(a, rest) => Plain(a) && PlainArgs(rest)
    case Assign(_, v) => Plain(v)
    case Compound(op, _, v) => ADD <= op <= USHR && Plain(v)
    case LogicalAssign(skip, _, v) => IsSkip(skip) && Plain(v)
    case Member(o, key, _) => Plain(o) && o != Ident("super") && (key.Name? || Plain(key.e))
    case AssignMember(o, key, v) => Plain(o) && o != Ident("super") && (key.Name? || Plain(key.e)) && Plain(v)
    case Chain(inner) => Plain(inner)
    case Call(callee, args, _) => Plain(callee) && PlainCallee(callee) && PlainArgs(args) && Count(args) < 256
    case _ => true
  }

  predicate PlainArgs(args: Args)
    decreases args, 1
  {
    match args case Nil => true case Cons(a, more) => Plain(a) && PlainArgs(more)
  }

  // ------------------------------------------------------------------ what every expression keeps

  /** Every text constant stands for the word of its text. */
  ghost predicate Texts(x: World, pool: seq<Const>)
  {
    forall k | 0 <= k < |pool| :: pool[k].KStr? ==> pool[k].ptr == x.host.ofText(pool[k].name)
  }

  /** The code has its size, the pool only grows, by texts of this world, and the result register is
      counted. */
  ghost predicate Sane(x: World, o: Out, n: nat, s: nat, pool: seq<Const>)
  {
    |o.code| == n && pool <= o.pool && o.top > s && (Texts(x, pool) ==> Texts(x, o.pool))
  }

  lemma PoolGrows(pool: seq<Const>, c: Const)
    ensures pool <= Pooled(pool, c)
  {
  }

  lemma PoolTexts(x: World, pool: seq<Const>, c: Const)
    requires c.KStr? ==> c == StrConst(x, c.name)
    ensures pool <= Pooled(pool, c) && (Texts(x, pool) ==> Texts(x, Pooled(pool, c)))
  {
  }

  /** `Size`, one level deep. */
  lemma SizeIs(e: Expr, ch: bool)
    ensures Size(e, ch) ==
      match e
      case Num(_) => 4
      case Str(_) => 4
      case Bool(_) => 2
      case NullLit => 2
      case UndefLit => 2
      case Ident(_) => 4
      case Unary(_, a) => Size(a, ch) + 3
      case TypeofName(_) => 7
      case Void(a) => Size(a, ch) + 2
      case Binary(_, l, r) => Size(l, ch) + Size(r, ch) + 4
      case Logical(_, l, r) => Size(l, ch) + 4 + Size(r, ch)
      case Cond(c, t, f) => Size(c, ch) + 4 + Size(t, ch) + 3 + Size(f, ch)
      case Sequence(a, rest) => Size(a, ch) + ArgsSize(rest, ch)
      case Assign(n, v) => if IsStep(n, v) then 11 else Size(v, ch) + 4
      case Compound(_, _, v) => 4 + Size(v, ch) + 8
      case LogicalAssign(_, _, v) => 8 + Size(v, ch) + 4
      case Update(_, prefix, _) => if prefix then 11 else 14
      case Member(o, key, optional) =>
        Size(o, ch) + GuardSize(optional, ch) + (if StaticSize(key) then 5 else Size(key.e, ch) + 4)
      case AssignMember(o, key, v) =>
        Size(o, ch) + (if StaticSize(key) then 5 else Size(key.e, ch) + 4) + Size(v, ch) + 3
      case Chain(inner) => Size(inner, true) + 5
      case Call(callee, args, optional) => Size(callee, ch) + GuardSize(optional, ch) + ArgsSize(args, ch) + 4
  {
  }

  lemma {:induction false} GenFacts(x: World, e: Expr, s: nat, at: nat, g: Guard, pool: seq<Const>)
    ensures Sane(x, Gen(x, e, s, at, g, pool), Size(e, InChain(g)), s, pool)
    decreases e, 2
  {
    hide Size, Pooled, PoolIndex, StepCode, PostfixCode, Sane, LoadName, Two, Three,
      GenUnary, GenVoid, GenBinary, GenLogical, GenCond, GenSequence, GenAssign, GenCompound, GenLogicalAssign,
      GenMember, GenAssignMember, GenChain, GenCall;
    match e
    case Unary(_, _) => UnaryFacts(x, e, s, at, g, pool);
    case Void(_) => VoidFacts(x, e, s, at, g, pool);
    case Binary(_, _, _) => BinaryFacts(x, e, s, at, g, pool);
    case Logical(_, _, _) => LogicalFacts(x, e, s, at, g, pool);
    case Cond(_, _, _) => CondFacts(x, e, s, at, g, pool);
    case Sequence(_, _) => SequenceFacts(x, e, s, at, g, pool);
    case Assign(_, _) => AssignFacts(x, e, s, at, g, pool);
    case Compound(_, _, _) => CompoundFacts(x, e, s, at, g, pool);
    case LogicalAssign(_, _, _) => LogicalAssignFacts(x, e, s, at, g, pool);
    case Member(_, _, _) => MemberFacts(x, e, s, at, g, pool);
    case AssignMember(_, _, _) => AssignMemberFacts(x, e, s, at, g, pool);
    case Chain(_) => ChainFacts(x, e, s, at, g, pool);
    case Call(_, _, _) => CallFacts(x, e, s, at, g, pool);
    case _ => LeafFacts(x, e, s, at, g, pool);
  }

  lemma LeafFacts(x: World, e: Expr, s: nat, at: nat, g: Guard, pool: seq<Const>)
    requires e.Num? || e.Str? || e.Bool? || e.NullLit? || e.UndefLit? || e.Ident? || e.TypeofName? || e.Update?
    ensures Sane(x, Gen(x, e, s, at, g, pool), Size(e, InChain(g)), s, pool)
  {
    hide Texts, LoadName, Two, Three, StoreName, Size, Pooled, PoolIndex,
      GenUnary, GenVoid, GenBinary, GenLogical, GenCond, GenSequence, GenAssign, GenCompound, GenLogicalAssign,
      GenMember, GenAssignMember, GenChain, GenCall;
    SizeIs(e, InChain(g));
    PoolTexts(x, pool, match e case Num(b) => KNum(b) case Str(t) => StrConst(x, t) case Ident(n) => StrConst(x, n)
                    case TypeofName(n) => StrConst(x, n) case _ => KNum(0));
    if e.Update? {
      PoolTexts(x, pool, StrConst(x, e.target));
      PoolTexts(x, PoolName(x, e.target, pool), StrConst(x, e.target));
    }
  }

  lemma {:induction false} UnaryFacts(x: World, e: Expr, s: nat, at: nat, g: Guard, pool: seq<Const>)
    requires e.Unary?
    ensures Sane(x, GenUnary(x, e, s, at, g, pool), Size(e, InChain(g)), s, pool)
    decreases e, 1
  {
    hide Texts, Gen, Size, Three;
    SizeIs(e, InChain(g));
    var ch := InChain(g);
    GenFacts(x, e.e, s, at, g, pool);
  }

  lemma {:induction false} VoidFacts(x: World, e: Expr, s: nat, at: nat, g: Guard, pool: seq<Const>)
    requires e.Void?
    ensures Sane(x, GenVoid(x, e, s, at, g, pool), Size(e, InChain(g)), s, pool)
    decreases e, 1
  {
    hide Texts, Gen, Size, Two;
    SizeIs(e, InChain(g));
    var ch := InChain(g);
    GenFacts(x, e.e, s, at, g, pool);
  }

  lemma {:induction false} BinaryFacts(x: World, e: Expr, s: nat, at: nat, g: Guard, pool: seq<Const>)
    requires e.Binary?
    ensures Sane(x, GenBinary(x, e, s, at, g, pool), Size(e, InChain(g)), s, pool)
    decreases e, 1
  {
    hide Texts, Gen, Size, Four;
    SizeIs(e, InChain(g));
    var ch := InChain(g);
    var l := Gen(x, e.l, s, at, g, pool);
    GenFacts(x, e.l, s, at, g, pool);
    GenFacts(x, e.r, s + 1, at + Size(e.l, ch), g, l.pool);
  }

  lemma {:induction false} LogicalFacts(x: World, e: Expr, s: nat, at: nat, g: Guard, pool: seq<Const>)
    requires e.Logical?
    ensures Sane(x, GenLogical(x, e, s, at, g, pool), Size(e, InChain(g)), s, pool)
    decreases e, 1
  {
    hide Texts, Gen, Size, BranchTo;
    SizeIs(e, InChain(g));
    var ch := InChain(g);
    var l := Gen(x, e.l, s, at, g, pool);
    GenFacts(x, e.l, s, at, g, pool);
    GenFacts(x, e.r, s, at + Size(e.l, ch) + 4, g, l.pool);
  }

  lemma {:induction false} CondFacts(x: World, e: Expr, s: nat, at: nat, g: Guard, pool: seq<Const>)
    requires e.Cond?
    ensures Sane(x, GenCond(x, e, s, at, g, pool), Size(e, InChain(g)), s, pool)
    decreases e, 1
  {
    hide Texts, Gen, Size, BranchTo, JumpTo;
    SizeIs(e, InChain(g));
    var ch := InChain(g);
    var a2 := at + Size(e.test, ch) + 4;
    var c := Gen(x, e.test, s, at, g, pool);
    var t := Gen(x, e.yes, s, a2, g, c.pool);
    GenFacts(x, e.test, s, at, g, pool);
    GenFacts(x, e.yes, s, a2, g, c.pool);
    GenFacts(x, e.no, s, a2 + Size(e.yes, ch) + 3, g, t.pool);
  }

  lemma {:induction false} SequenceFacts(x: World, e: Expr, s: nat, at: nat, g: Guard, pool: seq<Const>)
    requires e.Sequence?
    ensures Sane(x, GenSequence(x, e, s, at, g, pool), Size(e, InChain(g)), s, pool)
    decreases e, 1
  {
    hide Texts, Gen, Size, ArgsSize;
    SizeIs(e, InChain(g));
    var ch := InChain(g);
    GenFacts(x, e.first, s, at, g, pool);
    RestFacts(x, e.rest, s, at + Size(e.first, ch), g, Gen(x, e.first, s, at, g, pool).pool);
  }

  lemma {:induction false} AssignFacts(x: World, e: Expr, s: nat, at: nat, g: Guard, pool: seq<Const>)
    requires e.Assign?
    ensures Sane(x, GenAssign(x, e, s, at, g, pool), Size(e, InChain(g)), s, pool)
    decreases e, 1
  {
    hide Texts, Gen, Size, LoadName, Three, StoreName, Pooled;
    SizeIs(e, InChain(g));
    var ch := InChain(g);
    if IsStep(e.target, e.value) {
      PoolTexts(x, pool, StrConst(x, e.target));
      PoolTexts(x, PoolName(x, e.target, pool), StrConst(x, e.target));
    } else {
      GenFacts(x, e.value, s, at, g, pool);
      PoolTexts(x, Gen(x, e.value, s, at, g, pool).pool, StrConst(x, e.target));
    }
  }

  lemma {:induction false} CompoundFacts(x: World, e: Expr, s: nat, at: nat, g: Guard, pool: seq<Const>)
    requires e.Compound?
    ensures Sane(x, GenCompound(x, e, s, at, g, pool), Size(e, InChain(g)), s, pool)
    decreases e, 1
  {
    hide Texts, Gen, Size, LoadName, Four, StoreName, Pooled;
    SizeIs(e, InChain(g));
    var ch := InChain(g);
    var p := PoolName(x, e.target, pool);
    PoolTexts(x, pool, StrConst(x, e.target));
    GenFacts(x, e.value, s + 1, at + 4, g, p);
    PoolTexts(x, Gen(x, e.value, s + 1, at + 4, g, p).pool, StrConst(x, e.target));
  }

  lemma {:induction false} LogicalAssignFacts(x: World, e: Expr, s: nat, at: nat, g: Guard, pool: seq<Const>)
    requires e.LogicalAssign?
    ensures Sane(x, GenLogicalAssign(x, e, s, at, g, pool), Size(e, InChain(g)), s, pool)
    decreases e, 1
  {
    hide Texts, Gen, Size, LoadName, BranchTo, StoreName, Pooled;
    SizeIs(e, InChain(g));
    var ch := InChain(g);
    var p := PoolName(x, e.target, pool);
    PoolTexts(x, pool, StrConst(x, e.target));
    GenFacts(x, e.value, s, at + 8, g, p);
    PoolTexts(x, Gen(x, e.value, s, at + 8, g, p).pool, StrConst(x, e.target));
  }

  lemma {:induction false} MemberFacts(x: World, e: Expr, s: nat, at: nat, g: Guard, pool: seq<Const>)
    requires e.Member?
    ensures Sane(x, GenMember(x, e, s, at, g, pool), Size(e, InChain(g)), s, pool)
    decreases e, 1
  {
    hide Texts, Gen, Size, GetStatic, Four, GuardCode, Pooled;
    SizeIs(e, InChain(g));
    var ch := InChain(g);
    var here := at + Size(e.obj, ch);
    var o := Gen(x, e.obj, s, at, g, pool);
    GenFacts(x, e.obj, s, at, g, pool);
    if StaticSize(e.key) {
      PoolTexts(x, o.pool, StrConst(x, KeyName(x, e.key)));
    } else {
      GenFacts(x, e.key.e, s + 1, here + GuardSize(e.optional, ch), g, o.pool);
    }
  }

  lemma {:induction false} AssignMemberFacts(x: World, e: Expr, s: nat, at: nat, g: Guard, pool: seq<Const>)
    requires e.AssignMember?
    ensures Sane(x, GenAssignMember(x, e, s, at, g, pool), Size(e, InChain(g)), s, pool)
    decreases e, 1
  {
    hide Texts, Gen, Size, SetStatic, Three, Four, Pooled;
    SizeIs(e, InChain(g));
    var ch := InChain(g);
    var here := at + Size(e.obj, ch);
    var o := Gen(x, e.obj, s + 1, at, g, pool);
    GenFacts(x, e.obj, s + 1, at, g, pool);
    if StaticSize(e.key) {
      PoolTexts(x, o.pool, StrConst(x, KeyName(x, e.key)));
      GenFacts(x, e.value, s + 2, here, g, PoolName(x, KeyName(x, e.key), o.pool));
    } else {
      GenFacts(x, e.key.e, s + 2, here, g, o.pool);
      GenFacts(x, e.value, s + 3, here + Size(e.key.e, ch), g, Gen(x, e.key.e, s + 2, here, g, o.pool).pool);
    }
  }

  lemma {:induction false} ChainFacts(x: World, e: Expr, s: nat, at: nat, g: Guard, pool: seq<Const>)
    requires e.Chain?
    ensures Sane(x, GenChain(x, e, s, at, g, pool), Size(e, InChain(g)), s, pool)
    decreases e, 1
  {
    hide Texts, Gen, Size, JumpTo, Two;
    SizeIs(e, InChain(g));
    var ch := InChain(g);
    GenFacts(x, e.inner, s, at, To(at + Size(e.inner, true) + 3), pool);
  }

  lemma {:induction false} CallFacts(x: World, e: Expr, s: nat, at: nat, g: Guard, pool: seq<Const>)
    requires e.Call?
    ensures Sane(x, GenCall(x, e, s, at, g, pool), Size(e, InChain(g)), s, pool)
    decreases e, 1
  {
    hide Texts, Gen, Size, GuardCode, Four, ArgsSize;
    SizeIs(e, InChain(g));
    var ch := InChain(g);
    var here := at + Size(e.callee, ch);
    GenFacts(x, e.callee, s, at, g, pool);
    ArgsFacts(x, e.args, s + 1, here + GuardSize(e.optional, ch), g, Gen(x, e.callee, s, at, g, pool).pool);
  }

  lemma {:induction false} RestFacts(x: World, rest: Args, s: nat, at: nat, g: Guard, pool: seq<Const>)
    ensures var o := GenRest(x, rest, s, at, g, pool);
            |o.code| == ArgsSize(rest, InChain(g)) && pool <= o.pool && o.top >= s
            && (Texts(x, pool) ==> Texts(x, o.pool))
    decreases rest, 3
  {
    hide Texts, Gen, Size;
    if rest.Cons? {
      GenFacts(x, rest.head, s, at, g, pool);
      RestFacts(x, rest.tail, s, at + Size(rest.head, InChain(g)), g, Gen(x, rest.head, s, at, g, pool).pool);
    }
  }

  /** Consecutive arguments also count their own registers. */
  lemma {:induction false} ArgsFacts(x: World, args: Args, s: nat, at: nat, g: Guard, pool: seq<Const>)
    ensures var o := GenArgs(x, args, s, at, g, pool);
            |o.code| == ArgsSize(args, InChain(g)) && pool <= o.pool && o.top >= s + Count(args)
            && (Texts(x, pool) ==> Texts(x, o.pool))
    decreases args, 3
  {
    hide Texts, Gen, Size;
    if args.Cons? {
      GenFacts(x, args.head, s, at, g, pool);
      ArgsFacts(x, args.tail, s + 1, at + Size(args.head, InChain(g)), g, Gen(x, args.head, s, at, g, pool).pool);
    }
  }
}
