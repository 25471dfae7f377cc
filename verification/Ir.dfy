/** The part of Cranelift's IR the translator uses: basic blocks with an optional parameter,
    loads and stores on the register file and the locals, pure integer and float operators,
    helper calls, guards (`Brif`), jumps and returns.

    A pure SSA value is the expression that computes it over the values bound by loads, block
    parameters and helper calls; integers of every width are held as signed values, and an f64 by
    its bit pattern. */
module Ir {
  import opened Bits
  import F = Float64
  import opened NanBox
  import opened Interp
  import Bytecode

  datatype UnOp = Sext | Ineg128 | Red64 | Red32 | Uext32 | FcvtInt | Ftrunc | Fneg | FcvtSat32

  datatype BinOp =
    | Add64 | Add128 | Sub128 | Mul128 | AndI64 | OrI64 | And32 | Or32 | Xor32 | Shl32 | Sshr32 | Ushr32 | Srem
    | IEq | INe | Slt | Sle | Sgt | Sge | BAnd | BOr | BXor
    | Fadd | Fsub | Fmul | Fdiv | Feq | Fne | Flt | Fle | Fgt | Fge

  datatype Exp =
    | Id(n: nat)
    | K(k: int)
    | Un(uop: UnOp, e: Exp)
    | Bin(bop: BinOp, l: Exp, r: Exp)
    | Sel(c: Exp, t: Exp, f: Exp)

  datatype Arg = NoArg | Arg(e: Exp)
  datatype Param = NoParam | Param(id: nat)
  datatype Space = Regs | Consts | Locals

  datatype Inst =
    | Load(id: nat, space: Space, idx: nat)
    | Store(space: Space, idx: nat, e: Exp)
    | LoadFlag(id: nat)
    | StoreFlag(k: int)
    | StoreResume(e: Exp)
    | GetPropHelper(id: nat, recv: Exp, key: string)
    | SetPropHelper(recv: Exp, key: string, val: Exp)
    | GetElemHelper(id: nat, recv: Exp, elem: Exp)
    | SetElemHelper(recv: Exp, elem: Exp, val: Exp)
    | CallHelper(base: nat, nargs: nat, dst: nat)
    | Br(to: nat, arg: Arg)
    | Brif(c: Exp, t: nat, targ: Arg, f: nat, farg: Arg)
    | Ret(e: Exp)

  datatype Block = Block(param: Param, insts: seq<Inst>)
  type Ir = seq<Block>

  // ------------------------------------------------------------------ pure values

  function B01(b: bool): int { if b then 1 else 0 }
  function FD(x: int): F.Dbl { F.Decode(U64(x)) }
  function FE(d: F.Dbl): int { S64(F.Encode(d)) }

  /** `trunc` on a double. */
  function TruncDbl(d: F.Dbl): F.Dbl
  {
    if d.Fin? then F.WithSign(d.neg, Shl(F.Quotient(d.mag, F.One()), 1074)) else d
  }

  /** `fcvt_to_sint_sat.i32`. */
  function SatI32(d: F.Dbl): int
  {
    if d.NaN? then 0
    else if d.Inf? then (if d.neg then -TWO31 else TWO31 - 1)
    else
      var t := F.Truncate(d);
      if t < -TWO31 then -TWO31 else if t >= TWO31 then TWO31 - 1 else t
  }

  /** `srem`: truncated division, the sign follows the dividend. */
  function TruncRem(x: int, y: int): int
  {
    if y == 0 then 0 else
    var r := F.Abs(x) % F.Abs(y);
    if x < 0 then -r else r
  }

  function FloatUn(op: UnOp, x: int): int
  {
    match op
    case FcvtInt => FE(F.RoundInt(x))
    case Ftrunc => FE(TruncDbl(FD(x)))
    case Fneg => FE(F.Neg(FD(x)))
    case _ => SatI32(FD(x))
  }

  function FloatBin(op: BinOp, x: int, y: int): int
  {
    match op
    case Fadd => FE(F.Add(FD(x), FD(y)))
    case Fsub => FE(F.Sub(FD(x), FD(y)))
    case Fmul => FE(F.Mul(FD(x), FD(y)))
    case Fdiv => FE(F.Div(FD(x), FD(y)))
    case Feq => B01(F.Equal(FD(x), FD(y)))
    case Fne => B01(!F.Equal(FD(x), FD(y)))
    case Flt => B01(F.Less(FD(x), FD(y)))
    case Fle => B01(F.Less(FD(x), FD(y)) || F.Equal(FD(x), FD(y)))
    case Fgt => B01(F.Less(FD(y), FD(x)))
    case _ => B01(F.Less(FD(y), FD(x)) || F.Equal(FD(x), FD(y)))
  }

  function EvalUn(op: UnOp, x: int): int
  {
    match op
    case Sext => x
    case Ineg128 => S128(-x)
    case Red64 => S64(x)
    case Red32 => S32(x)
    case Uext32 => U32(x)
    case _ => FloatUn(op, x)
  }

  function EvalBin(op: BinOp, x: int, y: int): int
  {
    match op
    case Add64 => S64(x + y)
    case Add128 => S128(x + y)
    case Sub128 => S128(x - y)
    case Mul128 => S128(x * y)
    case AndI64 => And64(x, y)
    case OrI64 => Or64(x, y)
    case And32 => S32(BitAnd(U32(x), U32(y)))
    case Or32 => S32(BitOr(U32(x), U32(y)))
    case Xor32 => S32(BitXor(U32(x), U32(y)))
    case Shl32 => S32(ShlInt(x, U32(y) % 32))
    case Sshr32 => ShrInt(x, U32(y) % 32)
    case Ushr32 => S32(ShrInt(U32(x), U32(y) % 32))
    case Srem => TruncRem(x, y)
    case IEq => B01(x == y)
    case INe => B01(x != y)
    case Slt => B01(x < y)
    case Sle => B01(x <= y)
    case Sgt => B01(x > y)
    case Sge => B01(x >= y)
    case BAnd => B01(x != 0 && y != 0)
    case BOr => B01(x != 0 || y != 0)
    case BXor => B01((x != 0) != (y != 0))
    case _ => FloatBin(op, x, y)
  }

  type Vals = map<nat, int>

  function Eval(e: Exp, v: Vals): int
  {
    match e
    case Id(n) => if n in v then v[n] else 0
    case K(k) => k
    case Un(op, a) => EvalUn(op, Eval(a, v))
    case Bin(op, a, b) => EvalBin(op, Eval(a, v), Eval(b, v))
    case Sel(c, a, b) => if Eval(c, v) != 0 then Eval(a, v) else Eval(b, v)
  }

  function AsWord(x: int): Word { if IsI64(x) then x else S64(x) }

  // ------------------------------------------------------------------ the machine

  /** The memory native code sees: the register file, the locals, the two out-parameters, and the
      engine behind the helpers (its events so far and the pending exception). */
  datatype Mem = Mem(regs: seq<Word>, locals: seq<Word>, flag: int, resume: int, trace: Trace, pending: Word)

  /** What does not change during a run. `vm` tells whether a VM is there to re-enter. */
  datatype Rt = Rt(consts: seq<Word>, host: Host, vm: bool)

  datatype Config = Config(blk: nat, idx: nat, vals: Vals, mem: Mem)
  datatype Result = At(c: Config) | Exit(value: Word, mem: Mem) | Fault

  function Read(rt: Rt, m: Mem, space: Space, idx: nat): Word
  {
    match space
    case Regs => GetReg(m.regs, idx)
    case Consts => GetReg(rt.consts, idx)
    case Locals => GetReg(m.locals, idx)
  }

  function Write(m: Mem, space: Space, idx: nat, w: Word): Mem
  {
    match space
    case Regs => m.(regs := SetReg(m.regs, idx, w))
    case Locals => m.(locals := SetReg(m.locals, idx, w))
    case Consts => m
  }

  function BindArg(v: Vals, p: Param, arg: Arg): Vals
  {
    if p.Param? && arg.Arg? then v[p.id := Eval(arg.e, v)] else v
  }

  function EnterBlock(ir: Ir, c: Config, to: nat, arg: Arg): Result
  {
    if to < |ir| then At(Config(to, 0, BindArg(c.vals, ir[to].param, arg), c.mem)) else Fault
  }

  /** A re-entrant helper: the memory after it and the value it returns. Miss protocol: 0 = ok,
      2 = threw, 1 = no VM. The helpers of the static-key accesses let a nullish base pass, and no
      store helper looks at the success of the store; the call helper does not set an error of its
      own when the callee is undefined. */
  function Help(rt: Rt, m: Mem, ev: Event): (Mem, Word)
  {
    if !rt.vm then (m.(flag := 1), 0)
    else if IsStatic(ev) && Nullish(Base(ev)) then (m.(flag := 0), UNDEFINED)
    else if IsDynamic(ev) && Nullish(Base(ev)) then (m.(flag := 2, pending := rt.host.typeError(NullishBase(ev))), 0)
    else if ev.op == Bytecode.CALL && !Callable(rt.host, Base(ev)) then
      (m.(flag := 2, pending := if Base(ev) == UNDEFINED then m.pending else rt.host.typeError(NotAFunction)), 0)
    else match rt.host.helper(m.trace, ev)
      case Ok(v) => (m.(flag := 0, trace := m.trace + [ev]), v)
      case Thrown(e) => (m.(flag := 2, trace := m.trace + [ev], pending := e), 0)
  }

  function Exec(ir: Ir, rt: Rt, c: Config): Result
  {
    if c.blk >= |ir| || c.idx >= |ir[c.blk].insts| then Fault else
    var v, m := c.vals, c.mem;
    match ir[c.blk].insts[c.idx]
    case Load(id, space, idx) => At(Config(c.blk, c.idx + 1, v[id := Read(rt, m, space, idx)], m))
    case Store(space, idx, e) => At(Config(c.blk, c.idx + 1, v, Write(m, space, idx, AsWord(Eval(e, v)))))
    case LoadFlag(id) => At(Config(c.blk, c.idx + 1, v[id := m.flag], m))
    case StoreFlag(k) => At(Config(c.blk, c.idx + 1, v, m.(flag := k)))
    case StoreResume(e) => At(Config(c.blk, c.idx + 1, v, m.(resume := Eval(e, v))))
    case GetPropHelper(id, recv, key) =>
      var (m', w) := Help(rt, m, Event(Bytecode.GET_PROP, [AsWord(Eval(recv, v))], key));
      At(Config(c.blk, c.idx + 1, v[id := w], m'))
    case SetPropHelper(recv, key, val) =>
      var (m', _) := Help(rt, m, Event(Bytecode.SET_PROP, [AsWord(Eval(recv, v)), AsWord(Eval(val, v))], key));
      At(Config(c.blk, c.idx + 1, v, m'))
    case GetElemHelper(id, recv, key) =>
      var (m', w) := Help(rt, m, Event(Bytecode.GET_PROP_DYN, [AsWord(Eval(recv, v)), AsWord(Eval(key, v))], ""));
      At(Config(c.blk, c.idx + 1, v[id := w], m'))
    case SetElemHelper(recv, key, val) =>
      var (m', _) := Help(rt, m, Event(Bytecode.SET_PROP_DYN,
        [AsWord(Eval(recv, v)), AsWord(Eval(key, v)), AsWord(Eval(val, v))], ""));
      At(Config(c.blk, c.idx + 1, v, m'))
    case CallHelper(base, nargs, dst) =>
      if !rt.vm then Fault else
      var (m', w) := Help(rt, m, CallEvent(m.regs, base, nargs));
      At(Config(c.blk, c.idx + 1, v, if m'.flag == 0 then m'.(regs := SetReg(m'.regs, dst, w)) else m'))
    case Br(to, arg) => EnterBlock(ir, c, to, arg)
    case Brif(cond, t, targ, f, farg) =>
      if Eval(cond, v) != 0 then EnterBlock(ir, c, t, targ) else EnterBlock(ir, c, f, farg)
    case Ret(e) => Exit(AsWord(Eval(e, v)), m)
  }

  function ExecN(ir: Ir, rt: Rt, c: Config, n: nat): Result
    decreases n
  {
    if n == 0 then At(c)
    else match Exec(ir, rt, c)
      case At(c') => ExecN(ir, rt, c', n - 1)
      case done => done
  }

  lemma {:induction false} ExecNAdd(ir: Ir, rt: Rt, c: Config, n: nat, m: nat)
    ensures ExecN(ir, rt, c, n).At? ==> ExecN(ir, rt, c, n + m) == ExecN(ir, rt, ExecN(ir, rt, c, n).c, m)
    ensures !ExecN(ir, rt, c, n).At? ==> ExecN(ir, rt, c, n + m) == ExecN(ir, rt, c, n)
    decreases n
  {
    if n > 0 {
      match Exec(ir, rt, c)
      case At(c') => ExecNAdd(ir, rt, c', n - 1, m);
      case _ =>
    }
  }
}
