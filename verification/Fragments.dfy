/** Running the emitted IR: each emitter's code, wherever it sits in the final function, computes
    what the middle machine says. */
module Fragments {
  import opened Options
  import opened Bits
  import F = Float64
  import opened NanBox
  import opened Bytecode
  import opened Interp
  import opened Ir
  import opened Emit
  import opened Native

  /** The configuration about to execute what comes next in `b`. */
  function Here(b: Builder, v: Vals, m: Mem): Config
    requires b.Ok()
  {
    Config(b.cur, b.Len(), v, m)
  }

  lemma FetchIns(ir: Ir, b: Builder, i: Inst)
    requires b.Ok() && Within(Ins(b, i), ir)
    ensures Within(b, ir) && b.cur < |ir| && b.Len() < |ir[b.cur].insts| && ir[b.cur].insts[b.Len()] == i
    ensures Ins(b, i).cur == b.cur && Ins(b, i).Len() == b.Len() + 1
  {
    GrowsWithin(b, Ins(b, i), ir);
    var p := Ins(b, i).blocks[b.cur].insts;
    assert p <= ir[b.cur].insts && p[b.Len()] == i;
  }

  lemma Chain(ir: Ir, rt: Rt, c: Config, n: nat, c': Config, k: nat)
    requires ExecN(ir, rt, c, n) == At(c')
    ensures ExecN(ir, rt, c, n + k) == ExecN(ir, rt, c', k)
  {
    ExecNAdd(ir, rt, c, n, k);
  }

  lemma One(ir: Ir, rt: Rt, c: Config)
    ensures ExecN(ir, rt, c, 1) == Exec(ir, rt, c)
  {
    match Exec(ir, rt, c)
    case At(c') => assert ExecN(ir, rt, c', 0) == At(c');
    case _ =>
  }

  lemma RunLoadReg(ir: Ir, rt: Rt, b: Builder, r: nat, v: Vals, m: Mem)
    requires b.Ok() && Within(LoadReg(b, r).0, ir)
    ensures ExecN(ir, rt, Here(b, v, m), 1) == At(Here(LoadReg(b, r).0, v[b.vals := GetReg(m.regs, r)], m))
    ensures Within(b, ir)
  {
    FetchIns(ir, b.(vals := b.vals + 1), Load(b.vals, Regs, r));
    One(ir, rt, Here(b, v, m));
  }

  lemma RunStoreReg(ir: Ir, rt: Rt, b: Builder, r: nat, e: Exp, v: Vals, m: Mem)
    requires b.Ok() && Within(StoreReg(b, r, e), ir)
    ensures ExecN(ir, rt, Here(b, v, m), 1)
         == At(Here(StoreReg(b, r, e), v, m.(regs := SetReg(m.regs, r, AsWord(Eval(e, v))))))
    ensures Within(b, ir)
  {
    FetchIns(ir, b, Store(Regs, r, e));
    One(ir, rt, Here(b, v, m));
  }

  /** `Guard`: stay when the condition is 0, branch out otherwise. */
  lemma RunGuard(ir: Ir, rt: Rt, b: Builder, bad: Exp, to: nat, arg: Arg, v: Vals, m: Mem)
    requires b.Ok() && Within(Guard(b, bad, to, arg), ir)
    ensures Within(b, ir)
    ensures ExecN(ir, rt, Here(b, v, m), 1) ==
            if Eval(bad, v) == 0 then At(Here(Guard(b, bad, to, arg), v, m))
            else EnterBlock(ir, Here(b, v, m), to, arg)
  {
    var (b1, cont) := NewBlock(b);
    var i := Brif(bad, to, arg, cont, NoArg);
    assert Within(Ins(b1, i), ir);
    FetchIns(ir, b1, i);
    GrowsWithin(b, b1, ir);
    One(ir, rt, Here(b, v, m));
    assert Guard(b, bad, to, arg).blocks[cont] == Block(NoParam, []);
  }

  lemma RunRequire(ir: Ir, rt: Rt, b: Builder, good: Exp, to: nat, arg: Arg, v: Vals, m: Mem)
    requires b.Ok() && Within(Require(b, good, to, arg), ir)
    ensures Within(b, ir)
    ensures ExecN(ir, rt, Here(b, v, m), 1) ==
            if Eval(good, v) != 0 then At(Here(Require(b, good, to, arg), v, m))
            else EnterBlock(ir, Here(b, v, m), to, arg)
  {
    hide Eval, EvalBin, EvalUn;
    var (b1, cont) := NewBlock(b);
    var i := Brif(good, cont, NoArg, to, arg);
    assert Within(Ins(b1, i), ir);
    FetchIns(ir, b1, i);
    GrowsWithin(b, b1, ir);
    One(ir, rt, Here(b, v, m));
    assert Require(b, good, to, arg).blocks[cont] == Block(NoParam, []);
  }

  // ------------------------------------------------------------------ exits

  /** The three exit blocks of a translated region. */
  ghost predicate Exits(x: Ctx, ir: Ir)
  {
    && x.deopt < |ir| && ir[x.deopt] == Block(NoParam, [StoreFlag(1), Ret(K(0))])
    && x.fine < |ir| && ir[x.fine].param.Param?
    && ir[x.fine].insts == [StoreResume(Id(ir[x.fine].param.id)), StoreFlag(3), Ret(K(0))]
    && x.throwing < |ir| && ir[x.throwing] == Block(NoParam, [Ret(K(0))])
  }

  lemma RunDeopt(ir: Ir, rt: Rt, x: Ctx, c: Config)
    requires Exits(x, ir)
    ensures var e := EnterBlock(ir, c, x.deopt, NoArg);
            e.At? && ExecN(ir, rt, e.c, 2) == Exit(0, c.mem.(flag := 1))
  {
    var c0 := Config(x.deopt, 0, c.vals, c.mem);
    var c1 := Config(x.deopt, 1, c.vals, c.mem.(flag := 1));
    assert Exec(ir, rt, c0) == At(c1);
    assert Exec(ir, rt, c1) == Exit(0, c1.mem);
    One(ir, rt, c0); One(ir, rt, c1);
    Chain(ir, rt, c0, 1, c1, 1);
  }

  lemma RunFine(ir: Ir, rt: Rt, x: Ctx, c: Config, pc: nat)
    requires Exits(x, ir)
    ensures var e := EnterBlock(ir, c, x.fine, Arg(K(pc)));
            e.At? && ExecN(ir, rt, e.c, 3) == Exit(0, FineMem(c.mem, pc))
  {
    var p := ir[x.fine].param.id;
    var v := c.vals[p := pc];
    var c0 := Config(x.fine, 0, v, c.mem);
    var c1 := Config(x.fine, 1, v, c.mem.(resume := pc));
    var c2 := Config(x.fine, 2, v, FineMem(c.mem, pc));
    assert Exec(ir, rt, c0) == At(c1);
    assert Exec(ir, rt, c1) == At(c2);
    assert Exec(ir, rt, c2) == Exit(0, c2.mem);
    One(ir, rt, c0); One(ir, rt, c1); One(ir, rt, c2);
    Chain(ir, rt, c0, 1, c1, 1);
    Chain(ir, rt, c0, 2, c2, 1);
  }

  lemma RunThrow(ir: Ir, rt: Rt, x: Ctx, c: Config)
    requires Exits(x, ir)
    ensures var e := EnterBlock(ir, c, x.throwing, NoArg);
            e.At? && ExecN(ir, rt, e.c, 1) == Exit(0, c.mem)
  {
    var c0 := Config(x.throwing, 0, c.vals, c.mem);
    assert Exec(ir, rt, c0) == Exit(0, c.mem);
    One(ir, rt, c0);
  }

  /** `Require` with an exact-pc deopt as its other side. */
  lemma RunRequireFine(ir: Ir, rt: Rt, x: Ctx, b: Builder, good: Exp, pc: nat, v: Vals, m: Mem) returns (n: nat)
    requires b.Ok() && Exits(x, ir) && Within(Require(b, good, x.fine, Arg(K(pc))), ir)
    ensures Within(b, ir) && n > 0
    ensures ExecN(ir, rt, Here(b, v, m), n) ==
            if Eval(good, v) != 0 then At(Here(Require(b, good, x.fine, Arg(K(pc))), v, m))
            else Exit(0, FineMem(m, pc))
  {
    RunRequire(ir, rt, b, good, x.fine, Arg(K(pc)), v, m);
    n := 1;
    if Eval(good, v) == 0 {
      RunFine(ir, rt, x, Here(b, v, m), pc);
      Chain(ir, rt, Here(b, v, m), 1, EnterBlock(ir, Here(b, v, m), x.fine, Arg(K(pc))).c, 3);
      n := 4;
    }
  }

  // ------------------------------------------------------------------ diamonds

  /** The branch at the top of a diamond. */
  lemma RunSplit(ir: Ir, rt: Rt, b: Builder, cond: Exp, v: Vals, m: Mem)
    requires b.Ok() && Within(Split(b, cond).b, ir)
    ensures Within(b, ir)
    ensures var d := Split(b, cond);
            && ir[d.yes].param == NoParam && ir[d.no].param == NoParam && ir[d.done].param == Param(b.vals)
            && ExecN(ir, rt, Here(b, v, m), 1) == At(Config(if Eval(cond, v) != 0 then d.yes else d.no, 0, v, m))
  {
    var d := Split(b, cond);
    var b1, b2 := NewBlock(b).0, NewBlock(NewBlock(b).0).0;
    var b3 := NewBlockParam(b2).0;
    FetchIns(ir, b3, Brif(cond, d.yes, NoArg, d.no, NoArg));
    GrowsWithin(b, d.b, ir);
    assert d.b.blocks[d.yes].param == ir[d.yes].param && d.b.blocks[d.no].param == ir[d.no].param;
    assert d.b.blocks[d.done].param == ir[d.done].param;
    One(ir, rt, Here(b, v, m));
  }

  lemma RunFork(ir: Ir, rt: Rt, b: Builder, cond: Exp, v: Vals, m: Mem)
    requires b.Ok() && Within(Fork(b, cond).0, ir)
    ensures Within(b, ir)
    ensures var (_, yes, no) := Fork(b, cond);
            ExecN(ir, rt, Here(b, v, m), 1) == At(Config(if Eval(cond, v) != 0 then yes else no, 0, v, m))
  {
    hide FloatUn, FloatBin, EvalBin, EvalUn, Help;
    var (b', yes, no) := Fork(b, cond);
    var b2 := NewBlock(NewBlock(b).0).0;
    FetchIns(ir, b2, Brif(cond, yes, NoArg, no, NoArg));
    GrowsWithin(b, b', ir);
    assert b'.blocks[yes].param == ir[yes].param && b'.blocks[no].param == ir[no].param;
    One(ir, rt, Here(b, v, m));
  }

  /** Handing a value to a meeting block. */
  lemma RunClose(ir: Ir, rt: Rt, a: Builder, b: Builder, to: nat, e: Exp, k: nat, v: Vals, m: Mem)
    requires Grows(a, b) && |a.blocks| <= k < |b.blocks|
    requires Within(Close(a, b, to, e, k), ir) && to < |ir| && ir[to].param.Param?
    ensures Within(b, ir)
    ensures ExecN(ir, rt, Here(b, v, m), 1) == At(Config(to, 0, v[ir[to].param.id := Eval(e, v)], m))
  {
    assert Within(Ins(b, Br(to, Arg(e))), ir);
    FetchIns(ir, b, Br(to, Arg(e)));
    One(ir, rt, Here(b, v, m));
  }

  /** A two-armed pure choice delivers the arm the condition selects. */
  lemma RunChoose(ir: Ir, rt: Rt, b: Builder, cond: Exp, yes: Exp, no: Exp, v: Vals, m: Mem)
    requires b.Ok() && Within(Choose(b, cond, yes, no).0, ir)
    ensures Within(b, ir)
    ensures var (b', res) := Choose(b, cond, yes, no);
            var v' := v[b.vals := Eval(if Eval(cond, v) != 0 then yes else no, v)];
            && res == Id(b.vals)
            && ExecN(ir, rt, Here(b, v, m), 2) == At(Here(b', v', m))
  {
    var d := Split(b, cond);
    var o := Open(b, d.b, d.yes);
    var b1 := Close(b, o, d.done, yes, d.no);
    var b2 := Close(b, b1, d.done, no, d.done);
    assert Grows(b1, Ins(b1, Br(d.done, Arg(no))));
    GrowsWithin(b1, Ins(b1, Br(d.done, Arg(no))), ir);
    GrowsWithin(o, Ins(o, Br(d.done, Arg(yes))), ir);
    RunSplit(ir, rt, b, cond, v, m);
    if Eval(cond, v) != 0 {
      RunClose(ir, rt, b, o, d.done, yes, d.no, v, m);
      Chain(ir, rt, Here(b, v, m), 1, Here(o, v, m), 1);
    } else {
      RunClose(ir, rt, b, b1, d.done, no, d.done, v, m);
      Chain(ir, rt, Here(b, v, m), 1, Here(b1, v, m), 1);
    }
  }

  // ------------------------------------------------------------------ values

  lemma EvalTests(e: Exp, v: Vals, w: Word)
    requires Eval(e, v) == w
    ensures Eval(IsSmiE(e), v) == B01(IsSmi(w))
    ensures Eval(IsNumberE(e), v) == B01(IsNumber(w))
    ensures Eval(UnboxSmiE(e), v) == Unbox(w)
  {
    hide FloatBin, FloatUn;
    var masked := Bin(AndI64, e, K(NUMBER_TAG));
    assert Eval(masked, v) == And64(w, NUMBER_TAG);
    var low := Bin(AndI64, e, K(0xFFFF_FFFF));
    assert Eval(low, v) == And64(w, 0xFFFF_FFFF);
    assert Eval(Un(Red32, low), v) == Unbox(w);
  }

  lemma EvalToF64(e: Exp, v: Vals, w: Word)
    requires Eval(e, v) == w
    ensures Eval(ToF64E(e), v) == FloatBits(w)
  {
    hide FloatBin, FloatUn;
    EvalTests(e, v, w);
    assert Eval(Un(FcvtInt, UnboxSmiE(e)), v) == FloatUn(FcvtInt, Unbox(w));
    assert Eval(Bin(Add64, e, K(-OFFSET)), v) == S64(w - OFFSET);
  }

  lemma EvalBoth(p: Exp, q: Exp, v: Vals, a: bool, b: bool)
    requires Eval(p, v) == B01(a) && Eval(q, v) == B01(b)
    ensures Eval(Both(p, q), v) == B01(a && b)
  {
    hide FloatBin, FloatUn;
  }

  lemma S128Id(x: int)
    requires -TWO127 <= x < TWO127
    ensures S128(x) == x
  {
  }

  lemma S64Id(x: int)
    requires IsI64(x)
    ensures S64(x) == x
  {
  }

  lemma ProductFits(x: int, y: int)
    requires IsI64(x) && IsI64(y)
    ensures -TWO127 <= x * y < TWO127
  {
    F.SignOfProduct(x, y);
    F.ProductMono(F.Abs(x), TWO63, F.Abs(y));
    F.ProductMono(F.Abs(y), TWO63, TWO63);
  }

  /** The i128 operators never wrap on 64-bit operands. */
  lemma EvalWide(op: int, ex: Exp, ey: Exp, v: Vals, x: int, y: int)
    requires Eval(ex, v) == x && Eval(ey, v) == y && IsI64(x) && IsI64(y)
    ensures Eval(WideOp(op, ex, ey), v) == WideInt(op, x, y)
  {
    hide FloatBin, FloatUn;
    ProductFits(x, y);
    S128Id(WideInt(op, x, y));
    assert Eval(Un(Sext, ex), v) == x && Eval(Un(Sext, ey), v) == y;
  }

  lemma EvalOutOfBand(e: Exp, v: Vals)
    ensures Eval(OutOfBand(e), v) == B01(!(-F64_SAFE_INT <= Eval(e, v) <= F64_SAFE_INT))
  {
    hide FloatBin, FloatUn;
    var lim := Un(Sext, K(F64_SAFE_INT));
    assert Eval(lim, v) == F64_SAFE_INT;
    S128Id(-F64_SAFE_INT);
    assert Eval(Un(Ineg128, lim), v) == -F64_SAFE_INT;
  }

  lemma EvalFloatOp(op: int, ex: Exp, ey: Exp, v: Vals)
    ensures Eval(FloatOp(op, ex, ey), v) == FloatArith(op, Eval(ex, v), Eval(ey, v))
  {
    hide FloatBin, FloatUn;
  }

  lemma EvalBinary(op: BinOp, l: Exp, r: Exp, v: Vals, x: int, y: int)
    requires Eval(l, v) == x && Eval(r, v) == y
    ensures Eval(Bin(op, l, r), v) == EvalBin(op, x, y)
  {
    hide FloatBin, FloatUn;
  }

  lemma EvalRawBits(op: int, el: Exp, er: Exp, v: Vals)
    requires IsBitBinary(op)
    ensures Eval(RawBits(op, el, er), v) == BitsInt(op, Eval(el, v), Eval(er, v))
  {
    hide FloatBin, FloatUn;
    var x, y := S32(Eval(el, v)), S32(Eval(er, v));
    var l32, r32 := Un(Red32, el), Un(Red32, er);
    assert Eval(l32, v) == x && Eval(r32, v) == y;
    var count := Bin(And32, r32, K(31));
    EvalBinary(And32, r32, K(31), v, y, 31);
    var c := EvalBin(And32, y, 31);
    if op == BIT_AND { EvalBinary(And32, l32, r32, v, x, y); }
    else if op == BIT_OR { EvalBinary(Or32, l32, r32, v, x, y); }
    else if op == BIT_XOR { EvalBinary(Xor32, l32, r32, v, x, y); }
    else if op == SHL { EvalBinary(Shl32, l32, count, v, x, c); }
    else if op == SHR { EvalBinary(Sshr32, l32, count, v, x, c); }
    else { EvalBinary(Ushr32, l32, count, v, x, c); }
  }

  lemma EvalRawNot(e: Exp, v: Vals)
    ensures Eval(RawNot(e), v) == NotInt(Eval(e, v))
  {
    hide FloatBin, FloatUn;
    var x := Bin(Xor32, Un(Red32, e), K(-1));
    assert Eval(Un(Red32, e), v) == S32(Eval(e, v));
    assert Eval(x, v) == NotInt(Eval(e, v));
  }

  lemma EvalIntCmp(op: int, el: Exp, er: Exp, v: Vals)
    ensures Eval(Bin(IntCmp(op), el, er), v) == B01(CmpInt(op, Eval(el, v), Eval(er, v)))
  {
    hide FloatBin, FloatUn;
  }

  lemma FloatCmpIsBit(op: int, x: int, y: int)
    ensures FloatBin(FloatCmp(op), x, y) == B01(CmpFloat(op, x, y))
  {
    hide FD, FE;
  }

  lemma EvalFloatCmp(op: int, el: Exp, er: Exp, v: Vals)
    ensures Eval(Bin(FloatCmp(op), el, er), v) == B01(CmpFloat(op, Eval(el, v), Eval(er, v)))
  {
    hide FloatBin, FloatUn;
    FloatCmpIsBit(op, Eval(el, v), Eval(er, v));
  }

  // ------------------------------------------------------------------ guards and boxing

  lemma RunGuardI128(ir: Ir, rt: Rt, b: Builder, to: nat, arg: Arg, val: Exp, v: Vals, m: Mem)
    requires b.Ok() && Within(GuardI128(b, to, arg, val).0, ir)
    ensures Within(b, ir)
    ensures var w := Eval(val, v);
            if -F64_SAFE_INT <= w <= F64_SAFE_INT then
              && ExecN(ir, rt, Here(b, v, m), 1) == At(Here(GuardI128(b, to, arg, val).0, v, m))
              && Eval(GuardI128(b, to, arg, val).1, v) == w
            else ExecN(ir, rt, Here(b, v, m), 1) == EnterBlock(ir, Here(b, v, m), to, arg)
  {
    hide FloatBin, FloatUn;
    RunGuard(ir, rt, b, OutOfBand(val), to, arg, v, m);
    EvalOutOfBand(val, v);
    if -F64_SAFE_INT <= Eval(val, v) <= F64_SAFE_INT {
      S64Id(Eval(val, v));
    }
  }

  lemma EvalInI32(r: Exp, v: Vals)
    ensures Eval(InI32(r), v) == B01(IsI32(Eval(r, v)))
  {
    hide FloatBin, FloatUn;
    assert Eval(Bin(Sge, r, K(I32_MIN)), v) == B01(Eval(r, v) >= I32_MIN);
    assert Eval(Bin(Sle, r, K(I32_MAX)), v) == B01(Eval(r, v) <= I32_MAX);
  }

  lemma RunBoxI64(ir: Ir, rt: Rt, b: Builder, r: Exp, v: Vals, m: Mem) returns (v': Vals)
    requires b.Ok() && Within(BoxI64(b, r).0, ir)
    ensures Within(b, ir)
    ensures ExecN(ir, rt, Here(b, v, m), 2) == At(Here(BoxI64(b, r).0, v', m))
    ensures Eval(BoxI64(b, r).1, v') == BoxInt(Eval(r, v))
  {
    hide FloatBin, FloatUn, Exec, ExecN, Choose;
    var x := Eval(r, v);
    var yes, no := SmiBitsE(Un(Red32, r)), Bin(Add64, Un(FcvtInt, r), K(OFFSET));
    RunChoose(ir, rt, b, InI32(r), yes, no, v, m);
    EvalInI32(r, v);
    assert Eval(Un(Uext32, Un(Red32, r)), v) == U32(S32(x));
    assert Eval(yes, v) == Or64(U32(S32(x)), NUMBER_TAG);
    assert Eval(Un(FcvtInt, r), v) == FloatUn(FcvtInt, x);
    v' := v[b.vals := Eval(if Eval(InI32(r), v) != 0 then yes else no, v)];
  }

  lemma EvalBAnd(p: Exp, q: Exp, v: Vals)
    ensures Eval(Bin(BAnd, p, q), v) == B01(Eval(p, v) != 0 && Eval(q, v) != 0)
  {
    hide FloatBin, FloatUn;
  }

  lemma EvalFloatTest(op: BinOp, f: Exp, u: UnOp, e: Exp, v: Vals)
    ensures Eval(Bin(op, f, Un(u, e)), v) == EvalBin(op, Eval(f, v), EvalUn(u, Eval(e, v)))
  {
    hide FloatBin, FloatUn;
    assert Eval(Un(u, e), v) == EvalUn(u, Eval(e, v));
  }

  lemma EvalNegZero(f: Exp, v: Vals)
    ensures Eval(Bin(BAnd, Bin(Feq, f, K(0)), Bin(Slt, f, K(0))), v)
         == B01(FloatBin(Feq, Eval(f, v), 0) != 0 && Eval(f, v) < 0)
  {
    hide FloatBin, FloatUn;
    assert Eval(Bin(Feq, f, K(0)), v) == FloatBin(Feq, Eval(f, v), 0);
    assert Eval(Bin(Slt, f, K(0)), v) == B01(Eval(f, v) < 0);
    EvalBAnd(Bin(Feq, f, K(0)), Bin(Slt, f, K(0)), v);
  }

  lemma EvalFourfold(p: Exp, q: Exp, r: Exp, z: Exp, v: Vals)
    ensures Eval(Bin(BAnd, Bin(BAnd, Bin(BAnd, p, q), r), Bin(BXor, z, K(1))), v)
         == B01(Eval(p, v) != 0 && Eval(q, v) != 0 && Eval(r, v) != 0 && Eval(z, v) == 0)
  {
    hide FloatBin, FloatUn;
    EvalBAnd(p, q, v);
    EvalBAnd(Bin(BAnd, p, q), r, v);
    EvalBXorOne(z, v);
    EvalBAnd(Bin(BAnd, Bin(BAnd, p, q), r), Bin(BXor, z, K(1)), v);
  }

  lemma EvalConst(k: int, v: Vals)
    ensures Eval(K(k), v) == k
  {
  }

  lemma EvalSmiOk(f: Exp, v: Vals)
    ensures Eval(SmiOk(f), v) == B01(SmiOkBits(Eval(f, v)))
  {
    hide FloatBin, FloatUn, Eval;
    EvalConst(I32_MIN, v); EvalConst(I32_MAX, v);
    EvalFloatTest(Feq, f, Ftrunc, f, v);
    EvalFloatTest(Fge, f, FcvtInt, K(I32_MIN), v);
    EvalFloatTest(Fle, f, FcvtInt, K(I32_MAX), v);
    EvalNegZero(f, v);
    EvalFourfold(Bin(Feq, f, Un(Ftrunc, f)), Bin(Fge, f, Un(FcvtInt, K(I32_MIN))),
      Bin(Fle, f, Un(FcvtInt, K(I32_MAX))), Bin(BAnd, Bin(Feq, f, K(0)), Bin(Slt, f, K(0))), v);
  }

  lemma EvalBXorOne(p: Exp, v: Vals)
    ensures Eval(Bin(BXor, p, K(1)), v) == B01(Eval(p, v) == 0)
  {
    hide FloatBin, FloatUn;
    assert Eval(K(1), v) == 1;
  }

  lemma RunBoxF64(ir: Ir, rt: Rt, b: Builder, f: Exp, v: Vals, m: Mem) returns (v': Vals)
    requires b.Ok() && Within(BoxF64(b, f).0, ir)
    ensures Within(b, ir)
    ensures ExecN(ir, rt, Here(b, v, m), 2) == At(Here(BoxF64(b, f).0, v', m))
    ensures Eval(BoxF64(b, f).1, v') == BoxBits(Eval(f, v))
  {
    hide FloatBin, FloatUn;
    var x := Eval(f, v);
    var yes, no := SmiBitsE(Un(FcvtSat32, f)), Bin(Add64, f, K(OFFSET));
    RunChoose(ir, rt, b, SmiOk(f), yes, no, v, m);
    EvalSmiOk(f, v);
    assert Eval(Un(Uext32, Un(FcvtSat32, f)), v) == U32(FloatUn(FcvtSat32, x));
    assert Eval(yes, v) == Or64(U32(FloatUn(FcvtSat32, x)), NUMBER_TAG);
    v' := v[b.vals := Eval(if Eval(SmiOk(f), v) != 0 then yes else no, v)];
  }

  // ------------------------------------------------------------------ boxed arithmetic

  /** The block handed a value is `to`, and the value is `w`. */
  ghost predicate Delivered(ir: Ir, to: nat, r: Result, m: Mem, w: int)
  {
    && to < |ir| && ir[to].param.Param?
    && r.At? && r.c.blk == to && r.c.idx == 0 && r.c.mem == m
    && ir[to].param.id in r.c.vals && r.c.vals[ir[to].param.id] == w
  }

  lemma RunSmiArith(ir: Ir, rt: Rt, x: Ctx, a: Builder, b: Builder, pc: nat, op: int, ex: Exp, ey: Exp,
                    done: nat, next: nat, v: Vals, m: Mem) returns (n: nat)
    requires Grows(a, b) && |a.blocks| <= next < |b.blocks| && Exits(x, ir)
    requires Within(SmiArith(a, b, x.fine, pc, op, ex, ey, done, next), ir)
    requires done < |ir| && ir[done].param.Param?
    requires IsI64(Eval(ex, v)) && IsI64(Eval(ey, v))
    ensures Within(b, ir)
    ensures match SmiResult(op, Eval(ex, v), Eval(ey, v))
            case None => ExecN(ir, rt, Here(b, v, m), n) == Exit(0, FineMem(m, pc))
            case Some(w) => Delivered(ir, done, ExecN(ir, rt, Here(b, v, m), n), m, w)
  {
    hide EvalBin, EvalUn, BoxInt, BoxBits, FloatArith, BoxF64, BoxI64, GuardI128, Exec, ExecN, WideOp, Product,
        FloatUn, FloatBin;
    var X, Y := Eval(ex, v), Eval(ey, v);
    var wide := WideOp(op, ex, ey);
    var c := Here(b, v, m);
    var (b1, narrowed) := GuardI128(b, x.fine, Arg(K(pc)), wide);
    GrowsTrans(a, b, b1);
    if op == MUL {
      n := RunProduct(ir, rt, a, b1, ex, ey, narrowed, done, next, v, m);
      RunGuardI128(ir, rt, b, x.fine, Arg(K(pc)), wide, v, m);
      EvalWide(op, ex, ey, v, X, Y);
      if SmiResult(op, X, Y).Some? {
        Chain(ir, rt, c, 1, Here(b1, v, m), n);
        n := 1 + n;
      } else {
        RunFine(ir, rt, x, c, pc);
        Chain(ir, rt, c, 1, EnterBlock(ir, c, x.fine, Arg(K(pc))).c, 3);
        n := 4;
      }
    } else {
      var (b2, i) := BoxI64(b1, narrowed);
      GrowsTrans(b, b1, b2); GrowsTrans(a, b, b2);
      WithinClose(ir, a, b2, done, i, next);
      GrowsWithin(b1, b2, ir);
      RunGuardI128(ir, rt, b, x.fine, Arg(K(pc)), wide, v, m);
      EvalWide(op, ex, ey, v, X, Y);
      if SmiResult(op, X, Y).Some? {
        var v' := RunBoxI64(ir, rt, b1, narrowed, v, m);
        RunClose(ir, rt, a, b2, done, i, next, v', m);
        Chain(ir, rt, c, 1, Here(b1, v, m), 2);
        Chain(ir, rt, c, 3, Here(b2, v', m), 1);
        n := 4;
      } else {
        RunFine(ir, rt, x, c, pc);
        Chain(ir, rt, c, 1, EnterBlock(ir, c, x.fine, Arg(K(pc))).c, 3);
        n := 4;
      }
    }
  }

  lemma WithinClose(ir: Ir, a: Builder, b: Builder, to: nat, e: Exp, k: nat)
    requires Grows(a, b) && |a.blocks| <= k < |b.blocks| && Within(Close(a, b, to, e, k), ir)
    ensures Within(b, ir)
  {
    GrowsWithin(b, Ins(b, Br(to, Arg(e))), ir);
  }

  lemma EvalConvert(e: Exp, v: Vals)
    ensures Eval(Un(FcvtInt, e), v) == FloatUn(FcvtInt, Eval(e, v))
  {
    hide FloatUn;
  }

  lemma EvalProduct(ex: Exp, ey: Exp, v: Vals)
    ensures Eval(FloatOp(MUL, Un(FcvtInt, ex), Un(FcvtInt, ey)), v)
            == FloatArith(MUL, FloatUn(FcvtInt, Eval(ex, v)), FloatUn(FcvtInt, Eval(ey, v)))
  {
    hide FloatArith, FloatOp, FloatUn, Eval;
    EvalConvert(ex, v);
    EvalConvert(ey, v);
    EvalFloatOp(MUL, Un(FcvtInt, ex), Un(FcvtInt, ey), v);
  }

  /** The tail of the SMI multiplication once the product is known to be in the band. */
  lemma RunProduct(ir: Ir, rt: Rt, a: Builder, b1: Builder, ex: Exp, ey: Exp, narrowed: Exp,
                   done: nat, next: nat, v: Vals, m: Mem) returns (n: nat)
    requires Grows(a, b1) && |a.blocks| <= next < |b1.blocks|
    requires done < |ir| && ir[done].param.Param?
    requires Within(Product(a, b1, ex, ey, narrowed, done, next), ir)
    ensures Within(b1, ir)
    ensures var w := Eval(narrowed, v);
            Delivered(ir, done, ExecN(ir, rt, Here(b1, v, m), n), m,
              if w == 0 then BoxBits(FloatArith(MUL, FloatUn(FcvtInt, Eval(ex, v)), FloatUn(FcvtInt, Eval(ey, v))))
                  else BoxInt(w))
  {
    hide BoxInt, BoxBits, FloatArith, FloatOp, BoxF64, BoxI64, Fork, Exec, ExecN, FloatUn, FloatBin, EnterBlock;
    var (b2, zbox, ibox) := Fork(b1, Bin(IEq, narrowed, K(0)));
    var o := Open(b1, b2, zbox);
    var f := FloatOp(MUL, Un(FcvtInt, ex), Un(FcvtInt, ey));
    var (b3, p) := BoxF64(o, f);
    GrowsTrans(b1, o, b3);
    var b4 := Close(b1, b3, done, p, ibox);
    var (b5, i) := BoxI64(b4, narrowed);
    GrowsTrans(b1, b4, b5); GrowsTrans(a, b1, b5);
    WithinClose(ir, a, b5, done, i, next);
    GrowsWithin(b4, b5, ir);
    WithinClose(ir, b1, b3, done, p, ibox);
    GrowsWithin(o, b3, ir);
    var c := Here(b1, v, m);
    RunFork(ir, rt, b1, Bin(IEq, narrowed, K(0)), v, m);
    assert Eval(Bin(IEq, narrowed, K(0)), v) == B01(Eval(narrowed, v) == 0);
    if Eval(narrowed, v) == 0 {
      var v' := RunBoxF64(ir, rt, o, f, v, m);
      EvalProduct(ex, ey, v);
      RunClose(ir, rt, b1, b3, done, p, ibox, v', m);
      Chain(ir, rt, c, 1, Here(o, v, m), 2);
      Chain(ir, rt, c, 3, Here(b3, v', m), 1);
    } else {
      var v' := RunBoxI64(ir, rt, b4, narrowed, v, m);
      RunClose(ir, rt, a, b5, done, i, next, v', m);
      Chain(ir, rt, c, 1, Here(b4, v, m), 2);
      Chain(ir, rt, c, 3, Here(b5, v', m), 1);
    }
    n := 4;
  }

  /** A value the native code found, or the exact-pc deopt it took instead. */
  ghost predicate Found(ir: Ir, r: Result, b: Builder, e: Exp, m: Mem, pc: nat, res: Option<int>)
  {
    match res
    case None => r == Exit(0, FineMem(m, pc))
    case Some(w) => b.Ok() && r.At? && r.c == Here(b, r.c.vals, m) && Eval(e, r.c.vals) == w
  }

  lemma RunF64Arith(ir: Ir, rt: Rt, a: Builder, b: Builder, f: Exp, done: nat, v: Vals, m: Mem)
    requires Grows(a, b) && |a.blocks| <= done < |b.blocks| && Within(F64Arith(a, b, f, done), ir)
    requires done < |ir| && ir[done].param.Param?
    ensures Within(b, ir)
    ensures Delivered(ir, done, ExecN(ir, rt, Here(b, v, m), 3), m, BoxBits(Eval(f, v)))
  {
    hide BoxBits, BoxF64, Exec, ExecN, FloatUn, FloatBin, EnterBlock, Within, EvalBin, EvalUn;
    var (b1, e) := BoxF64(b, f);
    GrowsTrans(a, b, b1);
    WithinClose(ir, a, b1, done, e, done);
    var v' := RunBoxF64(ir, rt, b, f, v, m);
    RunClose(ir, rt, a, b1, done, e, done, v', m);
    Chain(ir, rt, Here(b, v, m), 2, Here(b1, v', m), 1);
  }

  lemma RunBoxedArith(ir: Ir, rt: Rt, x: Ctx, b: Builder, pc: nat, op: int, isNumber: Exp, isSmi: Exp,
                      ex: Exp, ey: Exp, fx: Exp, fy: Exp, v: Vals, m: Mem) returns (n: nat)
    requires b.Ok() && Exits(x, ir)
    requires Within(BoxedArith(b, x.fine, pc, op, isNumber, isSmi, ex, ey, fx, fy).0, ir)
    requires IsI64(Eval(ex, v)) && IsI64(Eval(ey, v))
    ensures Within(b, ir) && n > 0
    ensures var (b', e) := BoxedArith(b, x.fine, pc, op, isNumber, isSmi, ex, ey, fx, fy);
            Found(ir, ExecN(ir, rt, Here(b, v, m), n), b', e, m, pc,
              if Eval(isNumber, v) == 0 then None
              else if Eval(isSmi, v) != 0 then SmiResult(op, Eval(ex, v), Eval(ey, v))
              else Some(BoxBits(FloatArith(op, Eval(fx, v), Eval(fy, v)))))
  {
    hide BoxBits, BoxInt, FloatArith, SmiResult, SmiArith, F64Arith, FloatOp, Require, Split, Exec, ExecN, FloatUn,
        FloatBin, EvalBin, EvalUn, EnterBlock, Exits;
    var c := Here(b, v, m);
    var b1 := Require(b, isNumber, x.fine, Arg(K(pc)));
    var d := Split(b1, isSmi);
    GrowsTrans(b, b1, d.b);
    var o := Open(b, d.b, d.yes);
    var b2 := SmiArith(b, o, x.fine, pc, op, ex, ey, d.done, d.no);
    var f := FloatOp(op, fx, fy);
    var b3 := F64Arith(b, b2, f, d.done);
    ArithGrows(b, b1, d, o, b2, b3, op, isSmi, x.fine, pc, ex, ey, f, ir);
    n := RunRequireFine(ir, rt, x, b, isNumber, pc, v, m);
    if Eval(isNumber, v) != 0 {
      RunSplit(ir, rt, b1, isSmi, v, m);
      Chain(ir, rt, c, n, Here(b1, v, m), 1);
      n := n + 1;
      if Eval(isSmi, v) != 0 {
        var k := RunSmiArith(ir, rt, x, b, o, pc, op, ex, ey, d.done, d.no, v, m);
        Chain(ir, rt, c, n, Here(o, v, m), k);
        n := n + k;
      } else {
        RunF64Arith(ir, rt, b, b2, f, d.done, v, m);
        EvalFloatOp(op, fx, fy, v);
        Chain(ir, rt, c, n, Here(b2, v, m), 3);
        n := n + 3;
      }
    }
  }

  /** The blocks of a boxed operator: where each arm starts and that all of it is in `ir`. */
  lemma ArithGrows(b: Builder, b1: Builder, d: Diamond, o: Builder, b2: Builder, b3: Builder,
                   op: int, isSmi: Exp, fine: nat, pc: nat, ex: Exp, ey: Exp, f: Exp, ir: Ir)
    requires Grows(b, b1) && d == Split(b1, isSmi) && Grows(b, d.b)
    requires o == Open(b, d.b, d.yes) && b2 == SmiArith(b, o, fine, pc, op, ex, ey, d.done, d.no)
    requires Grows(b, b2) && b3 == F64Arith(b, b2, f, d.done) && Within(b3, ir)
    ensures Within(b2, ir) && Within(o, ir) && Within(d.b, ir) && Within(b1, ir)
    ensures b2.cur == d.no && b2.Len() == 0
    ensures b3.cur == d.done && b3.Len() == 0 && ir[d.done].param == Param(b1.vals)
  {
    hide SmiArith, F64Arith, Split;
    KeepsWithin(b2, b3, ir);
    KeepsWithin(o, b2, ir);
    GrowsWithin(b1, d.b, ir);
  }

  lemma KeepsWithin(a: Builder, b: Builder, ir: Ir)
    requires Keeps(a, b) && Within(b, ir)
    ensures Within(a, ir)
  {
    forall k | 0 <= k < |a.blocks|
      ensures a.blocks[k].param == ir[k].param && a.blocks[k].insts <= ir[k].insts
    {
      assert a.blocks[k].insts <= b.blocks[k].insts <= ir[k].insts;
    }
  }

  lemma RunBoxedInt(ir: Ir, rt: Rt, x: Ctx, b: Builder, pc: nat, isSmi: Exp, raw: Exp, v: Vals, m: Mem) returns (n: nat)
    requires b.Ok() && Exits(x, ir) && Within(BoxedInt(b, x.fine, pc, isSmi, raw).0, ir)
    ensures Within(b, ir) && n > 0
    ensures Found(ir, ExecN(ir, rt, Here(b, v, m), n), BoxedInt(b, x.fine, pc, isSmi, raw).0,
                  BoxedInt(b, x.fine, pc, isSmi, raw).1, m, pc,
                  if Eval(isSmi, v) == 0 then None else Some(BoxInt(Eval(raw, v))))
  {
    hide BoxInt, BoxI64, Require, Exec, ExecN;
    var b1 := Require(b, isSmi, x.fine, Arg(K(pc)));
    GrowsWithin(b1, BoxI64(b1, raw).0, ir);
    n := RunRequireFine(ir, rt, x, b, isSmi, pc, v, m);
    if Eval(isSmi, v) != 0 {
      var v' := RunBoxI64(ir, rt, b1, raw, v, m);
      Chain(ir, rt, Here(b, v, m), n, Here(b1, v, m), 2);
      n := n + 2;
    }
  }

  lemma RunBoxedFloat(ir: Ir, rt: Rt, x: Ctx, b: Builder, pc: nat, isNumber: Exp, f: Exp, v: Vals, m: Mem)
      returns (n: nat)
    requires b.Ok() && Exits(x, ir) && Within(BoxedFloat(b, x.fine, pc, isNumber, f).0, ir)
    ensures Within(b, ir) && n > 0
    ensures Found(ir, ExecN(ir, rt, Here(b, v, m), n), BoxedFloat(b, x.fine, pc, isNumber, f).0,
                  BoxedFloat(b, x.fine, pc, isNumber, f).1, m, pc,
                  if Eval(isNumber, v) == 0 then None else Some(BoxBits(Eval(f, v))))
  {
    hide BoxBits, BoxF64, Require, Exec, ExecN;
    var b1 := Require(b, isNumber, x.fine, Arg(K(pc)));
    GrowsWithin(b1, BoxF64(b1, f).0, ir);
    n := RunRequireFine(ir, rt, x, b, isNumber, pc, v, m);
    if Eval(isNumber, v) != 0 {
      var v' := RunBoxF64(ir, rt, b1, f, v, m);
      Chain(ir, rt, Here(b, v, m), n, Here(b1, v, m), 2);
      n := n + 2;
    }
  }

  lemma RunBoxedCompare(ir: Ir, rt: Rt, x: Ctx, b: Builder, pc: nat, op: int, l: Exp, r: Exp,
                        v: Vals, m: Mem, lw: Word, rw: Word) returns (n: nat)
    requires b.Ok() && Exits(x, ir) && Within(BoxedCompare(b, x.fine, pc, op, l, r).0, ir)
    requires IsCompare(op) && Eval(l, v) == lw && Eval(r, v) == rw
    ensures Within(b, ir) && n > 0
    ensures Found(ir, ExecN(ir, rt, Here(b, v, m), n), BoxedCompare(b, x.fine, pc, op, l, r).0,
                  BoxedCompare(b, x.fine, pc, op, l, r).1, m, pc, BoxedBinaryResult(op, lw, rw))
  {
    hide CmpInt, CmpFloat, Choose, Require, Exec, ExecN, IsNumberE, IsSmiE, UnboxSmiE, ToF64E, IsNumber, IsSmi, Unbox,
        FloatBits;
    var num, smi := Both(IsNumberE(l), IsNumberE(r)), Both(IsSmiE(l), IsSmiE(r));
    var yes, no := Bin(IntCmp(op), UnboxSmiE(l), UnboxSmiE(r)), Bin(FloatCmp(op), ToF64E(l), ToF64E(r));
    var b1 := Require(b, num, x.fine, Arg(K(pc)));
    GrowsWithin(b1, Choose(b1, smi, yes, no).0, ir);
    EvalTests(l, v, lw); EvalTests(r, v, rw);
    EvalToF64(l, v, lw); EvalToF64(r, v, rw);
    EvalBoth(IsNumberE(l), IsNumberE(r), v, IsNumber(lw), IsNumber(rw));
    EvalBoth(IsSmiE(l), IsSmiE(r), v, IsSmi(lw), IsSmi(rw));
    n := RunRequireFine(ir, rt, x, b, num, pc, v, m);
    if Eval(num, v) != 0 {
      RunChoose(ir, rt, b1, smi, yes, no, v, m);
      EvalIntCmp(op, UnboxSmiE(l), UnboxSmiE(r), v);
      EvalFloatCmp(op, ToF64E(l), ToF64E(r), v);
      Chain(ir, rt, Here(b, v, m), n, Here(b1, v, m), 2);
      n := n + 2;
    }
  }

  lemma RunBoxRem(ir: Ir, rt: Rt, b: Builder, rem: Exp, isNegZero: Exp, v: Vals, m: Mem) returns (v': Vals)
    requires b.Ok() && Within(BoxRem(b, rem, isNegZero).0, ir)
    ensures Within(b, ir)
    ensures ExecN(ir, rt, Here(b, v, m), 4) == At(Here(BoxRem(b, rem, isNegZero).0, v', m))
    ensures Eval(BoxRem(b, rem, isNegZero).1, v')
         == if Eval(isNegZero, v) != 0 then BoxBits(NEG_ZERO) else BoxInt(Eval(rem, v))
  {
    hide BoxBits, BoxInt, BoxI64, BoxF64, Split, Exec, ExecN, FloatUn, FloatBin, EvalBin, EvalUn, EnterBlock, Within;
    var c := Here(b, v, m);
    var d := Split(b, isNegZero);
    var o := Open(b, d.b, d.yes);
    var (b1, nz) := BoxF64(o, K(NEG_ZERO));
    GrowsTrans(b, o, b1);
    var b2 := Close(b, b1, d.done, nz, d.no);
    var (b3, i) := BoxI64(b2, rem);
    GrowsTrans(b, b2, b3);
    WithinClose(ir, b, b3, d.done, i, d.done);
    GrowsWithin(b2, b3, ir);
    WithinClose(ir, b, b1, d.done, nz, d.no);
    GrowsWithin(o, b1, ir);
    RunSplit(ir, rt, b, isNegZero, v, m);
    if Eval(isNegZero, v) != 0 {
      var w := RunBoxF64(ir, rt, o, K(NEG_ZERO), v, m);
      RunClose(ir, rt, b, b1, d.done, nz, d.no, w, m);
      Chain(ir, rt, c, 1, Here(o, v, m), 2);
      Chain(ir, rt, c, 3, Here(b1, w, m), 1);
      v' := w[b.vals := Eval(nz, w)];
    } else {
      var w := RunBoxI64(ir, rt, b2, rem, v, m);
      RunClose(ir, rt, b, b3, d.done, i, d.done, w, m);
      Chain(ir, rt, c, 1, Here(b2, v, m), 2);
      Chain(ir, rt, c, 3, Here(b3, w, m), 1);
      v' := w[b.vals := Eval(i, w)];
    }
  }

  lemma RunBoxedMod(ir: Ir, rt: Rt, x: Ctx, b: Builder, pc: nat, l: Exp, r: Exp, v: Vals, m: Mem,
                    lw: Word, rw: Word) returns (n: nat)
    requires b.Ok() && Exits(x, ir) && Within(BoxedMod(b, x.fine, pc, l, r).0, ir)
    requires Eval(l, v) == lw && Eval(r, v) == rw
    ensures Within(b, ir) && n > 0
    ensures Found(ir, ExecN(ir, rt, Here(b, v, m), n), BoxedMod(b, x.fine, pc, l, r).0,
                  BoxedMod(b, x.fine, pc, l, r).1, m, pc, ModResult(lw, rw))
  {
    hide BoxBits, BoxInt, BoxRem, RemE, RemIsNegZero, RemDefined, Require, Exec, ExecN, IsNumberE,
      IsNumber, IsSmi, Unbox, TruncRem, IsSmiE, UnboxSmiE, Within, Exits, EnterBlock, Eval, FloatUn, FloatBin;
    var c := Here(b, v, m);
    var num := Both(IsNumberE(l), IsNumberE(r));
    var b1 := Require(b, num, x.fine, Arg(K(pc)));
    var b2 := Require(b1, RemDefined(l, r), x.fine, Arg(K(pc)));
    var (b3, e) := BoxRem(b2, RemE(l, r), RemIsNegZero(l, r));
    GrowsWithin(b2, b3, ir);
    GrowsWithin(b1, b2, ir);
    EvalTests(l, v, lw); EvalTests(r, v, rw);
    EvalBoth(IsNumberE(l), IsNumberE(r), v, IsNumber(lw), IsNumber(rw));
    EvalRemDefined(l, r, v, lw, rw);
    EvalRem(l, r, v, lw, rw);
    n := RunRequireFine(ir, rt, x, b, num, pc, v, m);
    if Eval(num, v) != 0 {
      var k := RunRequireFine(ir, rt, x, b1, RemDefined(l, r), pc, v, m);
      Chain(ir, rt, c, n, Here(b1, v, m), k);
      n := n + k;
      if Eval(RemDefined(l, r), v) != 0 {
        var v' := RunBoxRem(ir, rt, b2, RemE(l, r), RemIsNegZero(l, r), v, m);
        Chain(ir, rt, c, n, Here(b2, v, m), 4);
        n := n + 4;
      }
    }
  }

  lemma EvalRemDefined(l: Exp, r: Exp, v: Vals, lw: Word, rw: Word)
    requires Eval(l, v) == lw && Eval(r, v) == rw
    ensures Eval(RemDefined(l, r), v) == B01(IsSmi(lw) && IsSmi(rw) && Unbox(rw) != 0)
  {
    hide FloatBin, FloatUn, IsNumberE, IsSmiE, UnboxSmiE, IsNumber, IsSmi, Unbox;
    EvalTests(l, v, lw); EvalTests(r, v, rw);
    EvalBoth(IsSmiE(l), IsSmiE(r), v, IsSmi(lw), IsSmi(rw));
    EvalBinary(INe, UnboxSmiE(r), K(0), v, Unbox(rw), 0);
    EvalBoth(Both(IsSmiE(l), IsSmiE(r)), Bin(INe, UnboxSmiE(r), K(0)), v, IsSmi(lw) && IsSmi(rw), Unbox(rw) != 0);
  }

  lemma EvalRem(l: Exp, r: Exp, v: Vals, lw: Word, rw: Word)
    requires Eval(l, v) == lw && Eval(r, v) == rw
    ensures Eval(RemE(l, r), v) == TruncRem(Unbox(lw), Unbox(rw))
    ensures Eval(RemIsNegZero(l, r), v) == B01(TruncRem(Unbox(lw), Unbox(rw)) == 0 && Unbox(lw) < 0)
  {
    hide FloatBin, FloatUn, IsNumberE, IsSmiE, UnboxSmiE, IsNumber, IsSmi, Unbox, TruncRem;
    EvalTests(l, v, lw); EvalTests(r, v, rw);
    var t := TruncRem(Unbox(lw), Unbox(rw));
    EvalBinary(Srem, UnboxSmiE(l), UnboxSmiE(r), v, Unbox(lw), Unbox(rw));
    EvalBinary(IEq, RemE(l, r), K(0), v, t, 0);
    EvalBinary(Slt, UnboxSmiE(l), K(0), v, Unbox(lw), 0);
    EvalBoth(Bin(IEq, RemE(l, r), K(0)), Bin(Slt, UnboxSmiE(l), K(0)), v, t == 0, Unbox(lw) < 0);
  }

  // ------------------------------------------------------------------ helpers

  lemma RunBrif(ir: Ir, rt: Rt, b: Builder, cond: Exp, t: nat, targ: Arg, f: nat, farg: Arg, v: Vals, m: Mem)
    requires b.Ok() && Within(Ins(b, Brif(cond, t, targ, f, farg)), ir)
    ensures Within(b, ir)
    ensures ExecN(ir, rt, Here(b, v, m), 1) ==
            if Eval(cond, v) != 0 then EnterBlock(ir, Here(b, v, m), t, targ)
                else EnterBlock(ir, Here(b, v, m), f, farg)
  {
    hide FloatUn, FloatBin, EvalBin, EvalUn, Help;
    FetchIns(ir, b, Brif(cond, t, targ, f, farg));
    One(ir, rt, Here(b, v, m));
  }

  lemma RunLoadFlag(ir: Ir, rt: Rt, b: Builder, b': Builder, v: Vals, m: Mem)
    requires b.Ok() && b' == Ins(b.(vals := b.vals + 1), LoadFlag(b.vals)) && Within(b', ir)
    ensures Within(b, ir)
    ensures ExecN(ir, rt, Here(b, v, m), 1) == At(Here(b', v[b.vals := m.flag], m))
  {
    FetchIns(ir, b.(vals := b.vals + 1), LoadFlag(b.vals));
    One(ir, rt, Here(b, v, m));
  }

  /** After a helper the flag decides: on, out as a throw, or out as an exact-pc deopt. */
  lemma RunAfterHelper(ir: Ir, rt: Rt, x: Ctx, b: Builder, pc: nat, v: Vals, m: Mem) returns (n: nat)
    requires b.Ok() && Exits(x, ir) && Within(AfterHelper(b, pc, x.fine, x.throwing), ir)
    ensures Within(b, ir)
    ensures ExecN(ir, rt, Here(b, v, m), n) ==
            if m.flag == 0 then At(Here(AfterHelper(b, pc, x.fine, x.throwing), v[b.vals := m.flag], m))
            else if m.flag == 2 then Exit(0, m) else Exit(0, FineMem(m, pc))
  {
    hide Exec, ExecN, FineMem, AfterHelper;
    var b1, b2, slow, cont := AfterHelperShape(ir, b, pc, x.fine, x.throwing);
    var c := Here(b, v, m);
    var v1 := v[b.vals := m.flag];
    RunLoadFlag(ir, rt, b, b1, v, m);
    RunFork(ir, rt, b1, Id(b.vals), v1, m);
    Chain(ir, rt, c, 1, Here(b1, v1, m), 1);
    n := 2;
    if m.flag != 0 {
      var b3 := Open(b1, b2, slow);
      var k := RunSlow(ir, rt, x, b3, Id(b.vals), pc, v1, m);
      Chain(ir, rt, c, 2, Here(b3, v1, m), k);
      n := 2 + k;
    }
  }

  lemma AfterHelperShape(ir: Ir, b: Builder, pc: nat, fine: nat, throwing: nat)
      returns (b1: Builder, b2: Builder, slow: nat, cont: nat)
    requires b.Ok() && Within(AfterHelper(b, pc, fine, throwing), ir)
    ensures b1 == Ins(b.(vals := b.vals + 1), LoadFlag(b.vals)) && (b2, slow, cont) == Fork(b1, Id(b.vals))
    ensures Within(b1, ir) && Within(b2, ir)
    ensures Within(Ins(Open(b1, b2, slow), Brif(Bin(IEq, Id(b.vals), K(2)), throwing, NoArg, fine, Arg(K(pc)))), ir)
    ensures var r := AfterHelper(b, pc, fine, throwing); r.cur == cont && r.Len() == 0
  {
    b1 := Ins(b.(vals := b.vals + 1), LoadFlag(b.vals));
    var fork := Fork(b1, Id(b.vals));
    b2, slow, cont := fork.0, fork.1, fork.2;
    hide Fork;
    var b3 := Open(b1, b2, slow);
    var b4 := Ins(b3, Brif(Bin(IEq, Id(b.vals), K(2)), throwing, NoArg, fine, Arg(K(pc))));
    var r := AfterHelper(b, pc, fine, throwing);
    assert r == Open(b1, b4, cont);
    assert b4.blocks[cont] == b2.blocks[cont] == Block(NoParam, []);
    assert Within(b4, ir) by { hide Grows; assert b4.blocks == r.blocks; }
    WithinPrefix(ir, b1, b2, b3, b4);
  }

  lemma WithinPrefix(ir: Ir, b1: Builder, b2: Builder, b3: Builder, b4: Builder)
    requires Grows(b1, b2) && Grows(b3, b4) && Within(b4, ir) && b3.blocks == b2.blocks && b2.Ok()
    ensures Within(b2, ir) && Within(b1, ir)
  {
    GrowsWithin(b3, b4, ir);
    GrowsWithin(b1, b2, ir);
  }

  lemma RunSlow(ir: Ir, rt: Rt, x: Ctx, b: Builder, missed: Exp, pc: nat, v: Vals, m: Mem) returns (n: nat)
    requires b.Ok() && Exits(x, ir) && Eval(missed, v) == m.flag
    requires Within(Ins(b, Brif(Bin(IEq, missed, K(2)), x.throwing, NoArg, x.fine, Arg(K(pc)))), ir)
    ensures ExecN(ir, rt, Here(b, v, m), n) == if m.flag == 2 then Exit(0, m) else Exit(0, FineMem(m, pc))
  {
    hide FloatBin, FloatUn, Exec, ExecN, FineMem;
    var c := Here(b, v, m);
    RunBrif(ir, rt, b, Bin(IEq, missed, K(2)), x.throwing, NoArg, x.fine, Arg(K(pc)), v, m);
    EvalBinary(IEq, missed, K(2), v, m.flag, 2);
    if m.flag == 2 {
      RunThrow(ir, rt, x, c);
      Chain(ir, rt, c, 1, EnterBlock(ir, c, x.throwing, NoArg).c, 1);
      n := 2;
    } else {
      RunFine(ir, rt, x, c, pc);
      Chain(ir, rt, c, 1, EnterBlock(ir, c, x.fine, Arg(K(pc))).c, 3);
      n := 4;
    }
  }
}
