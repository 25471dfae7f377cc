/** What the emitted code of one instruction does, instruction by instruction: the middle machine
    between the IR and the interpreter. It still works on raw register words (plain integers in the
    int lane, NaN boxes in the boxed lane) and still deoptimises. */
module Native {
  import opened Options
  import opened Bits
  import opened NanBox
  import opened Bytecode
  import opened Interp
  import opened Ir
  import opened Emit

  datatype NOut = Go(pc: int, m: Mem) | Leave(value: Word, m: Mem) | Bad

  function Coarse(m: Mem): NOut { Leave(0, m.(flag := 1)) }
  function FineMem(m: Mem, pc: nat): Mem { m.(resume := pc, flag := 3) }
  function Fine(m: Mem, pc: nat): NOut { Leave(0, FineMem(m, pc)) }

  function Put(m: Mem, dst: nat, w: int, next: int): NOut { Go(next, m.(regs := SetReg(m.regs, dst, AsWord(w)))) }

  // ------------------------------------------------------------------ raw operators

  function WideInt(op: int, x: int, y: int): int
  {
    if op == ADD || op == INC then x + y else if op == SUB || op == DEC then x - y else x * y
  }

  function BitsInt(op: int, l: int, r: int): int
  {
    var x, y := S32(l), S32(r);
    var c := EvalBin(And32, y, 31);
    if op == BIT_AND then EvalBin(And32, x, y)
    else if op == BIT_OR then EvalBin(Or32, x, y)
    else if op == BIT_XOR then EvalBin(Xor32, x, y)
    else if op == SHL then EvalBin(Shl32, x, c)
    else if op == SHR then EvalBin(Sshr32, x, c)
    else U32(EvalBin(Ushr32, x, c))
  }

  function NotInt(l: int): int { S32(BitXor(U32(S32(l)), U32(-1))) }

  predicate CmpInt(op: int, x: int, y: int)
  {
    if op == EQ || op == SEQ then x == y else if op == NEQ || op == SNEQ then x != y
    else if op == LT then x < y else if op == LE then x <= y else if op == GT then x > y else x >= y
  }

  // ------------------------------------------------------------------ boxed operators

  function Unbox(w: Word): int { S32(And64(w, 0xFFFF_FFFF)) }
  function BoxInt(r: int): int
  {
    if IsI32(r) then Or64(U32(S32(r)), NUMBER_TAG) else S64(FloatUn(FcvtInt, r) + OFFSET)
  }

  predicate SmiOkBits(f: int)
  {
    && FloatBin(Feq, f, FloatUn(Ftrunc, f)) != 0
    && FloatBin(Fge, f, FloatUn(FcvtInt, I32_MIN)) != 0
    && FloatBin(Fle, f, FloatUn(FcvtInt, I32_MAX)) != 0
    && !(FloatBin(Feq, f, 0) != 0 && f < 0)
  }

  function BoxBits(f: int): int
  {
    if SmiOkBits(f) then Or64(U32(FloatUn(FcvtSat32, f)), NUMBER_TAG) else S64(f + OFFSET)
  }

  /** `emit_to_f64`: the bits of a number word's double. */
  function FloatBits(w: Word): int
  {
    if IsSmi(w) then FloatUn(FcvtInt, Unbox(w)) else S64(w - OFFSET)
  }

  function FloatArith(op: int, a: int, b: int): int
  {
    FloatBin(if op == ADD || op == INC then Fadd else if op == SUB || op == DEC then Fsub else Fmul, a, b)
  }

  /** The SMI path of ADD, SUB, MUL, INC and DEC; `None` when the result leaves the band. */
  function SmiResult(op: int, x: int, y: int): Option<int>
  {
    var r := WideInt(op, x, y);
    if !(-F64_SAFE_INT <= r <= F64_SAFE_INT) then None
    else if op == MUL && r == 0 then Some(BoxBits(FloatArith(MUL, FloatUn(FcvtInt, x), FloatUn(FcvtInt, y))))
    else Some(BoxInt(r))
  }

  function ArithResult(op: int, l: Word, r: Word): Option<int>
  {
    if !IsNumber(l) || !IsNumber(r) then None
    else if IsSmi(l) && IsSmi(r) then SmiResult(op, Unbox(l), Unbox(r))
    else Some(BoxBits(FloatArith(op, FloatBits(l), FloatBits(r))))
  }

  function IncResult(op: int, w: Word): Option<int>
  {
    if !IsNumber(w) then None
    else if IsSmi(w) then SmiResult(op, Unbox(w), 1)
    else Some(BoxBits(FloatArith(op, FloatBits(w), FloatUn(FcvtInt, 1))))
  }

  function ModResult(l: Word, r: Word): Option<int>
  {
    if !IsNumber(l) || !IsNumber(r) then None
    else if !IsSmi(l) || !IsSmi(r) || Unbox(r) == 0 then None
    else
      var rem := TruncRem(Unbox(l), Unbox(r));
      Some(if rem == 0 && Unbox(l) < 0 then BoxBits(NEG_ZERO) else BoxInt(rem))
  }

  predicate CmpFloat(op: int, x: int, y: int)
  {
    FloatBin(FloatCmp(op), x, y) != 0
  }

  /** The boxed result of a binary operator; `None` is an exact-pc deopt. */
  function BoxedBinaryResult(op: int, l: Word, r: Word): Option<int>
  {
    if IsArith(op) then ArithResult(op, l, r)
    else if IsBitBinary(op) then
      if IsSmi(l) && IsSmi(r) then Some(BoxInt(BitsInt(op, Unbox(l), Unbox(r)))) else None
    else if IsCompare(op) then
      if !IsNumber(l) || !IsNumber(r) then None
      else if IsSmi(l) && IsSmi(r) then Some(B01(CmpInt(op, Unbox(l), Unbox(r))))
      else Some(B01(CmpFloat(op, FloatBits(l), FloatBits(r))))
    else if op == DIV then
      if IsNumber(l) && IsNumber(r) then Some(BoxBits(FloatBin(Fdiv, FloatBits(l), FloatBits(r)))) else None
    else ModResult(l, r)
  }

  function BoxedUnaryResult(op: int, w: Word): Option<int>
  {
    if op == TO_NUMERIC then (if IsNumber(w) then Some(w) else None)
    else if op == NOT then (if IsSmi(w) then Some(B01(Unbox(w) == 0)) else None)
    else if op == BIT_NOT then (if IsSmi(w) then Some(BoxInt(NotInt(Unbox(w)))) else None)
    else if op == NEG then (if IsNumber(w) then Some(BoxBits(FloatUn(Fneg, FloatBits(w)))) else None)
    else IncResult(op, w)
  }

  // ------------------------------------------------------------------ one instruction

  function Deliver(res: Option<int>, m: Mem, pc: nat, next: int, dst: nat): NOut
  {
    match res
    case None => Fine(m, pc)
    case Some(w) => Put(m, dst, w, next)
  }

  function NUnary(boxed: bool, m: Mem, pc: nat, next: int, op: int, dst: nat, src: nat): NOut
  {
    var w := GetReg(m.regs, src);
    if op == MOVE then Put(m, dst, w, next)
    else if boxed then Deliver(BoxedUnaryResult(op, w), m, pc, next, dst)
    else if op == TO_NUMERIC then Put(m, dst, w, next)
    else if op == NOT then Put(m, dst, B01(w == 0), next)
    else if op == BIT_NOT then Put(m, dst, NotInt(w), next)
    else
      var r := WideInt(op, w, 1);
      if -F64_SAFE_INT <= r <= F64_SAFE_INT then Put(m, dst, r, next) else Coarse(m)
  }

  function NBinary(boxed: bool, m: Mem, pc: nat, next: int, op: int, dst: nat, l: nat, r: nat): NOut
  {
    var a, b := GetReg(m.regs, l), GetReg(m.regs, r);
    if boxed then Deliver(BoxedBinaryResult(op, a, b), m, pc, next, dst)
    else if IsArith(op) then
      var w := WideInt(op, a, b);
      if -F64_SAFE_INT <= w <= F64_SAFE_INT then Put(m, dst, w, next) else Coarse(m)
    else if IsBitBinary(op) then Put(m, dst, BitsInt(op, a, b), next)
    else Put(m, dst, B01(CmpInt(op, a, b)), next)
  }

  /** After a helper: go on, leave as a throw, or leave as an exact-pc deopt. */
  function AfterHelp(m: Mem, pc: nat, on: NOut): NOut
  {
    if m.flag == 0 then on else if m.flag == 2 then Leave(0, m) else Fine(m, pc)
  }

  /** One instruction; falling off the end of the code returns 0. */
  function NStep(x: Ctx, rt: Rt, pc: nat, m: Mem): NOut
  {
    if pc == |x.code| then Leave(0, m) else
    if !Whole(x.code, pc) then Bad else
    var next := Next(x.code, pc);
    match Fetch(x.code, pc)
    case LoadK(dst, k) => Put(m, dst, GetReg(rt.consts, k), next)
    case LoadLit(op, dst) =>
      Put(m, dst, if op == LOAD_TRUE then (if x.boxed then TRUE else 1)
                  else if op == LOAD_FALSE then (if x.boxed then FALSE else 0) else 0, next)
    case Unary(op, dst, src) => NUnary(x.boxed, m, pc, next, op, dst, src)
    case Binary(op, dst, l, r) =>
      if op == GET_PROP_DYN then
        var (m', w) := Help(rt, m, Event(GET_PROP_DYN, [GetReg(m.regs, l), GetReg(m.regs, r)], ""));
        AfterHelp(m', pc, Put(m', dst, w, next))
      else NBinary(x.boxed, m, pc, next, op, dst, l, r)
    case GetName(_, dst, k) =>
      if SlotOf(x.slots, k).None? then Bad else Put(m, dst, GetReg(m.locals, SlotOf(x.slots, k).value), next)
    case SetName(_, k, src) =>
      if SlotOf(x.slots, k).None? then Bad
      else Go(next, m.(locals := SetReg(m.locals, SlotOf(x.slots, k).value, GetReg(m.regs, src))))
    case Hoist(_) => Go(next, m)
    case Jump(rel) => Go(next + rel, m)
    case Branch(op, cond, rel) =>
      Go(if (GetReg(m.regs, cond) != 0) == (op == JMP_IF_TRUE) then next + rel else next, m)
    case GetProp(dst, obj, _) =>
      var (m', w) := Help(rt, m, Event(GET_PROP, [GetReg(m.regs, obj)], SiteKey(x.sites, pc).GetOr("")));
      AfterHelp(m', pc, Put(m', dst, w, next))
    case SetProp(obj, _, val) =>
      var (m', _) := Help(rt, m, Event(SET_PROP, [GetReg(m.regs, obj), GetReg(m.regs, val)],
          SiteKey(x.sites, pc).GetOr("")));
      AfterHelp(m', pc, Go(next, m'))
    case SetElem(obj, key, val) =>
      var (m', _) := Help(rt, m, Event(SET_PROP_DYN, [GetReg(m.regs, obj), GetReg(m.regs, key), GetReg(m.regs, val)],
          ""));
      AfterHelp(m', pc, Go(next, m'))
    case Call(base, nargs, dst) =>
      if !rt.vm then Bad else
      var (m', w) := Help(rt, m, CallEvent(m.regs, base, nargs));
      if m'.flag == 0 then Put(m', dst, w, next) else Leave(0, m')
    case NewClosure(_, _) => Fine(m, pc)
    case Return(src) => Leave(GetReg(m.regs, src), m)
    case Stop(_) => Leave(0, m)
    case Other(_) => Bad
  }

  /** `k` instructions, or fewer when the region is left earlier. */
  function NRun(x: Ctx, rt: Rt, pc: nat, m: Mem, k: nat): NOut
    decreases k
  {
    if k == 0 then Go(pc, m)
    else match NStep(x, rt, pc, m)
      case Go(pc', m') => if pc' < 0 then Bad else NRun(x, rt, pc', m', k - 1)
      case done => done
  }
}
