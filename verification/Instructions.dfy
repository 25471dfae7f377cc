/** Every emitted instruction does one step of the middle machine. */
module Instructions {
  import opened Options
  import opened Bits
  import opened NanBox
  import opened Bytecode
  import opened Interp
  import opened Ir
  import opened Emit
  import opened Native
  import opened Fragments

  /** The IR result `r` of running an instruction is the middle machine's outcome `o`: out of the
      region with the same value and memory, on to what was emitted next, or at the start of the
      block of a jump target. */
  ghost predicate Agrees(x: Ctx, e: Emitted, r: Result, o: NOut, next: nat)
  {
    match o
    case Leave(w, m) => r == Exit(w, m)
    case Go(pc, m) =>
      if e.ended then pc in x.blockOf && r.At? && r.c == Config(x.blockOf[pc], 0, r.c.vals, m)
      else pc == next && e.b.Ok() && r.At? && r.c == Here(e.b, r.c.vals, m)
    case Bad => true
  }

  lemma RunStore(ir: Ir, rt: Rt, c: Config, n: nat, b: Builder, dst: nat, e: Exp, v: Vals, m: Mem, next: nat)
    requires b.Ok() && Within(StoreReg(b, dst, e), ir) && ExecN(ir, rt, c, n) == At(Here(b, v, m))
    ensures ExecN(ir, rt, c, n + 1) == At(Here(StoreReg(b, dst, e), v, Put(m, dst, Eval(e, v), next).m))
  {
    RunStoreReg(ir, rt, b, dst, e, v, m);
    Chain(ir, rt, c, n, Here(b, v, m), 1);
  }

  /** A found result is stored; a deopt stays a deopt. */
  lemma RunDeliver(ir: Ir, rt: Rt, x: Ctx, c: Config, n: nat, b: Builder, dst: nat, e: Exp, m: Mem, pc: nat, next: nat,
                   res: Option<int>) returns (k: nat)
    requires b.Ok() && Within(StoreReg(b, dst, e), ir)
    requires n > 0 && Found(ir, ExecN(ir, rt, c, n), b, e, m, pc, res)
    ensures k > 0
    ensures Agrees(x, Emitted(StoreReg(b, dst, e), false), ExecN(ir, rt, c, k), Deliver(res, m, pc, next, dst), next)
  {
    k := n;
    if res.Some? {
      var v := ExecN(ir, rt, c, n).c.vals;
      RunStore(ir, rt, c, n, b, dst, e, v, m, next);
      k := n + 1;
    }
  }

  lemma StoreWithin(ir: Ir, b: Builder, dst: nat, e: Exp)
    requires b.Ok() && Within(StoreReg(b, dst, e), ir)
    ensures Within(b, ir)
  {
    GrowsWithin(b, StoreReg(b, dst, e), ir);
  }

  /** INC, DEC and the other unary operators on the boxed lane, from the loaded operand. */
  lemma RunBoxedIncDec(ir: Ir, rt: Rt, x: Ctx, b: Builder, pc: nat, op: int, e: Exp, v: Vals, m: Mem, w: Word)
      returns (n: nat)
    requires b.Ok() && Exits(x, ir) && Within(BoxedIncDec(b, x.fine, pc, op, e).0, ir)
    requires Eval(e, v) == w && (op == INC || op == DEC)
    ensures Within(b, ir) && n > 0
    ensures Found(ir, ExecN(ir, rt, Here(b, v, m), n), BoxedIncDec(b, x.fine, pc, op, e).0,
                  BoxedIncDec(b, x.fine, pc, op, e).1, m, pc, BoxedUnaryResult(op, w))
  {
    hide BoxedArith, BoxBits, SmiResult, FloatArith, IsNumberE, IsSmiE, UnboxSmiE, ToF64E, IsNumber, IsSmi,
      FloatBits, ExecN, FloatUn, FloatBin;
    EvalTests(e, v, w);
    EvalToF64(e, v, w);
    n := RunBoxedArith(ir, rt, x, b, pc, op, IsNumberE(e), IsSmiE(e), UnboxSmiE(e), K(1), ToF64E(e),
        Un(FcvtInt, K(1)), v, m);
    assert Eval(Un(FcvtInt, K(1)), v) == FloatUn(FcvtInt, 1);
  }

  lemma RunBoxedBinary(ir: Ir, rt: Rt, x: Ctx, b: Builder, pc: nat, op: int, l: Exp, r: Exp, v: Vals, m: Mem,
                       lw: Word, rw: Word) returns (n: nat)
    requires b.Ok() && Exits(x, ir) && Within(BoxedBinary(b, x.fine, pc, op, l, r).0, ir)
    requires Eval(l, v) == lw && Eval(r, v) == rw && IsArith(op)
    ensures Within(b, ir) && n > 0
    ensures Found(ir, ExecN(ir, rt, Here(b, v, m), n), BoxedBinary(b, x.fine, pc, op, l, r).0,
                  BoxedBinary(b, x.fine, pc, op, l, r).1, m, pc, ArithResult(op, lw, rw))
  {
    hide BoxedArith, BoxBits, SmiResult, FloatArith, IsNumberE, IsSmiE, UnboxSmiE, ToF64E, IsNumber, IsSmi,
      FloatBits, ExecN;
    EvalTests(l, v, lw); EvalTests(r, v, rw);
    EvalToF64(l, v, lw); EvalToF64(r, v, rw);
    EvalBoth(IsNumberE(l), IsNumberE(r), v, IsNumber(lw), IsNumber(rw));
    EvalBoth(IsSmiE(l), IsSmiE(r), v, IsSmi(lw), IsSmi(rw));
    n := RunBoxedArith(ir, rt, x, b, pc, op, Both(IsNumberE(l), IsNumberE(r)), Both(IsSmiE(l), IsSmiE(r)),
      UnboxSmiE(l), UnboxSmiE(r), ToF64E(l), ToF64E(r), v, m);
  }

  /** The value of a boxed unary operator, once its operand is loaded. */
  lemma RunBoxedUnary(ir: Ir, rt: Rt, x: Ctx, b: Builder, pc: nat, op: int, e: Exp, v: Vals, m: Mem, w: Word,
                      r: Builder, res: Exp)
      returns (n: nat)
    requires b.Ok() && Exits(x, ir) && Within(r, ir) && Eval(e, v) == w
    requires (r, res) ==
      (if op == TO_NUMERIC then (Require(b, IsNumberE(e), x.fine, Arg(K(pc))), e)
       else if op == NOT then (Require(b, IsSmiE(e), x.fine, Arg(K(pc))), Bin(IEq, UnboxSmiE(e), K(0)))
       else if op == BIT_NOT then BoxedInt(b, x.fine, pc, IsSmiE(e), RawNot(UnboxSmiE(e)))
       else if op == NEG then BoxedFloat(b, x.fine, pc, IsNumberE(e), Un(Fneg, ToF64E(e)))
       else BoxedIncDec(b, x.fine, pc, op, e))
    requires op in {TO_NUMERIC, NOT, BIT_NOT, NEG, INC, DEC}
    ensures Within(b, ir) && n > 0
    ensures Found(ir, ExecN(ir, rt, Here(b, v, m), n), r, res, m, pc, BoxedUnaryResult(op, w))
  {
    hide Require, BoxedInt, BoxedFloat, BoxedIncDec, BoxBits, BoxInt, IncResult, IsNumberE, IsSmiE, UnboxSmiE, ToF64E,
      IsNumber, IsSmi, Unbox, FloatBits, RawNot, NotInt, ExecN, FloatUn, FloatBin;
    EvalTests(e, v, w);
    EvalToF64(e, v, w);
    if op == TO_NUMERIC {
      n := RunRequireFine(ir, rt, x, b, IsNumberE(e), pc, v, m);
    } else if op == NOT {
      n := RunRequireFine(ir, rt, x, b, IsSmiE(e), pc, v, m);
      EvalBinary(IEq, UnboxSmiE(e), K(0), v, Unbox(w), 0);
    } else if op == BIT_NOT {
      EvalRawNot(UnboxSmiE(e), v);
      n := RunBoxedInt(ir, rt, x, b, pc, IsSmiE(e), RawNot(UnboxSmiE(e)), v, m);
    } else if op == NEG {
      assert Eval(Un(Fneg, ToF64E(e)), v) == FloatUn(Fneg, FloatBits(w));
      n := RunBoxedFloat(ir, rt, x, b, pc, IsNumberE(e), Un(Fneg, ToF64E(e)), v, m);
    } else {
      n := RunBoxedIncDec(ir, rt, x, b, pc, op, e, v, m, w);
    }
  }

  /** The value of a boxed binary operator, once its operands are loaded. */
  lemma RunBoxedValue(ir: Ir, rt: Rt, x: Ctx, b: Builder, pc: nat, op: int, l: Exp, r: Exp, v: Vals, m: Mem, lw: Word,
                      rw: Word)
      returns (n: nat)
    requires b.Ok() && x.boxed && Exits(x, ir) && Eval(l, v) == lw && Eval(r, v) == rw
    requires BinaryValue(x, b, pc, op, l, r).Some? && Within(BinaryValue(x, b, pc, op, l, r).value.0, ir)
    ensures Within(b, ir) && n > 0
    ensures var p := BinaryValue(x, b, pc, op, l, r).value;
            Found(ir, ExecN(ir, rt, Here(b, v, m), n), p.0, p.1, m, pc, BoxedBinaryResult(op, lw, rw))
  {
    hide BoxedInt, BoxedFloat, BoxedBinary, BoxedCompare, BoxedMod, BoxBits, BoxInt, IsNumberE, IsSmiE, UnboxSmiE,
        ToF64E,
      IsNumber, IsSmi, Unbox, FloatBits, RawBits, BitsInt, CmpInt, CmpFloat, ArithResult, ModResult, ExecN, FloatUn,
          FloatBin;
    EvalTests(l, v, lw); EvalTests(r, v, rw);
    EvalToF64(l, v, lw); EvalToF64(r, v, rw);
    EvalBoth(IsNumberE(l), IsNumberE(r), v, IsNumber(lw), IsNumber(rw));
    EvalBoth(IsSmiE(l), IsSmiE(r), v, IsSmi(lw), IsSmi(rw));
    if IsArith(op) {
      n := RunBoxedBinary(ir, rt, x, b, pc, op, l, r, v, m, lw, rw);
    } else if IsBitBinary(op) {
      EvalRawBits(op, UnboxSmiE(l), UnboxSmiE(r), v);
      n := RunBoxedInt(ir, rt, x, b, pc, Both(IsSmiE(l), IsSmiE(r)), RawBits(op, UnboxSmiE(l), UnboxSmiE(r)), v, m);
    } else if IsCompare(op) {
      n := RunBoxedCompare(ir, rt, x, b, pc, op, l, r, v, m, lw, rw);
    } else if op == DIV {
      EvalBinary(Fdiv, ToF64E(l), ToF64E(r), v, FloatBits(lw), FloatBits(rw));
      n := RunBoxedFloat(ir, rt, x, b, pc, Both(IsNumberE(l), IsNumberE(r)), Bin(Fdiv, ToF64E(l), ToF64E(r)), v, m);
    } else {
      n := RunBoxedMod(ir, rt, x, b, pc, l, r, v, m, lw, rw);
    }
  }

  /** Running from a later point of the same emission. */
  lemma After(ir: Ir, rt: Rt, x: Ctx, e: Emitted, c: Config, n: nat, c': Config, k: nat, o: NOut, next: nat)
    requires ExecN(ir, rt, c, n) == At(c') && Agrees(x, e, ExecN(ir, rt, c', k), o, next)
    ensures Agrees(x, e, ExecN(ir, rt, c, n + k), o, next)
  {
    Chain(ir, rt, c, n, c', k);
  }

  lemma RunIntIncDec(ir: Ir, rt: Rt, x: Ctx, b: Builder, wide: Exp, dst: nat, v: Vals, m: Mem, r: int, next: nat)
      returns (n: nat)
    requires b.Ok() && Exits(x, ir) && Eval(wide, v) == r
    requires var p := GuardI128(b, x.deopt, NoArg, wide); Within(StoreReg(p.0, dst, p.1), ir)
    ensures Within(b, ir) && n > 0
    ensures var p := GuardI128(b, x.deopt, NoArg, wide);
            Agrees(x, Emitted(StoreReg(p.0, dst, p.1), false), ExecN(ir, rt, Here(b, v, m), n),
              if -F64_SAFE_INT <= r <= F64_SAFE_INT then Put(m, dst, r, next) else Coarse(m), next)
  {
    hide Exec, ExecN, GuardI128;
    var p := GuardI128(b, x.deopt, NoArg, wide);
    StoreWithin(ir, p.0, dst, p.1);
    RunGuardI128(ir, rt, b, x.deopt, NoArg, wide, v, m);
    if -F64_SAFE_INT <= r <= F64_SAFE_INT {
      RunStore(ir, rt, Here(b, v, m), 1, p.0, dst, p.1, v, m, next);
      n := 2;
    } else {
      RunDeopt(ir, rt, x, Here(b, v, m));
      Chain(ir, rt, Here(b, v, m), 1, EnterBlock(ir, Here(b, v, m), x.deopt, NoArg).c, 2);
      n := 3;
    }
  }

  lemma RunPureStore(ir: Ir, rt: Rt, x: Ctx, b: Builder, dst: nat, e: Exp, v: Vals, m: Mem, next: nat)
    requires b.Ok() && Within(StoreReg(b, dst, e), ir)
    ensures Within(b, ir)
    ensures Agrees(x, Emitted(StoreReg(b, dst, e), false), ExecN(ir, rt, Here(b, v, m), 1),
            Put(m, dst, Eval(e, v), next), next)
  {
    StoreWithin(ir, b, dst, e);
    RunStoreReg(ir, rt, b, dst, e, v, m);
  }

  lemma RunUnary(ir: Ir, rt: Rt, x: Ctx, b: Builder, pc: nat, op: int, dst: nat, src: nat, v: Vals, m: Mem, next: nat)
      returns (n: nat)
    requires b.Ok() && Exits(x, ir)
    requires EmitUnary(x, b, pc, op, dst, src).Some? && Within(EmitUnary(x, b, pc, op, dst, src).value.b, ir)
    ensures n > 0
    ensures Agrees(x, EmitUnary(x, b, pc, op, dst, src).value, ExecN(ir, rt, Here(b, v, m), n),
                   NUnary(x.boxed, m, pc, next, op, dst, src), next)
  {
    hide Require, BoxedInt, BoxedFloat, BoxedIncDec, GuardI128, IsNumberE, IsSmiE, UnboxSmiE, ToF64E, RawNot, WideOp,
      BoxedUnaryResult, NotInt, ExecN, FloatUn, FloatBin, StoreReg, Agrees, Put, Deliver;
    var e := EmitUnary(x, b, pc, op, dst, src).value;
    var (b1, a) := LoadReg(b, src);
    var w := GetReg(m.regs, src);
    var v1 := v[b.vals := w];
    var k: nat;
    if x.boxed && op != MOVE {
      var r, res := UnaryValue(x, b, pc, op, dst, src, b1, a);
      StoreWithin(ir, r, dst, res);
      k := RunBoxedUnary(ir, rt, x, b1, pc, op, a, v1, m, w, r, res);
      k := RunDeliver(ir, rt, x, Here(b1, v1, m), k, r, dst, res, m, pc, next, BoxedUnaryResult(op, w));
    } else if op == INC || op == DEC {
      EvalWide(op, a, K(1), v1, w, 1);
      k := RunIntIncDec(ir, rt, x, b1, WideOp(op, a, K(1)), dst, v1, m, WideInt(op, w, 1), next);
    } else if op == NOT {
      EvalBinary(IEq, a, K(0), v1, w, 0);
      RunPureStore(ir, rt, x, b1, dst, Bin(IEq, a, K(0)), v1, m, next);
      k := 1;
    } else if op == BIT_NOT {
      EvalRawNot(a, v1);
      RunPureStore(ir, rt, x, b1, dst, RawNot(a), v1, m, next);
      k := 1;
    } else {
      RunPureStore(ir, rt, x, b1, dst, a, v1, m, next);
      k := 1;
    }
    RunLoadReg(ir, rt, b, src, v, m);
    After(ir, rt, x, e, Here(b, v, m), 1, Here(b1, v1, m), k, NUnary(x.boxed, m, pc, next, op, dst, src), next);
    n := 1 + k;
  }

  /** The value part of a boxed unary instruction. */
  lemma UnaryValue(x: Ctx, b: Builder, pc: nat, op: int, dst: nat, src: nat, b1: Builder, e: Exp)
      returns (r: Builder, res: Exp)
    requires b.Ok() && x.boxed && op != MOVE && EmitUnary(x, b, pc, op, dst, src).Some? && (b1, e) == LoadReg(b, src)
    ensures op in {TO_NUMERIC, NOT, BIT_NOT, NEG, INC, DEC} && b1.Ok() && r.Ok()
    ensures (r, res) ==
      (if op == TO_NUMERIC then (Require(b1, IsNumberE(e), x.fine, Arg(K(pc))), e)
       else if op == NOT then (Require(b1, IsSmiE(e), x.fine, Arg(K(pc))), Bin(IEq, UnboxSmiE(e), K(0)))
       else if op == BIT_NOT then BoxedInt(b1, x.fine, pc, IsSmiE(e), RawNot(UnboxSmiE(e)))
       else if op == NEG then BoxedFloat(b1, x.fine, pc, IsNumberE(e), Un(Fneg, ToF64E(e)))
       else BoxedIncDec(b1, x.fine, pc, op, e))
    ensures EmitUnary(x, b, pc, op, dst, src).value == Emitted(StoreReg(r, dst, res), false)
  {
    hide Require, BoxedInt, BoxedFloat, BoxedIncDec, GuardI128, IsNumberE, IsSmiE, UnboxSmiE, ToF64E, RawNot, WideOp,
        StoreReg;
    var p :=
      (if op == TO_NUMERIC then (Require(b1, IsNumberE(e), x.fine, Arg(K(pc))), e)
       else if op == NOT then (Require(b1, IsSmiE(e), x.fine, Arg(K(pc))), Bin(IEq, UnboxSmiE(e), K(0)))
       else if op == BIT_NOT then BoxedInt(b1, x.fine, pc, IsSmiE(e), RawNot(UnboxSmiE(e)))
       else if op == NEG then BoxedFloat(b1, x.fine, pc, IsNumberE(e), Un(Fneg, ToF64E(e)))
       else BoxedIncDec(b1, x.fine, pc, op, e));
    r, res := p.0, p.1;
  }

  lemma RunBinary(ir: Ir, rt: Rt, x: Ctx, b: Builder, pc: nat, op: int, dst: nat, l: nat, r: nat, v: Vals, m: Mem,
                  next: nat) returns (n: nat)
    requires b.Ok() && Exits(x, ir) && op != GET_PROP_DYN
    requires EmitBinary(x, b, pc, op, dst, l, r).Some? && Within(EmitBinary(x, b, pc, op, dst, l, r).value.b, ir)
    ensures n > 0
    ensures Agrees(x, EmitBinary(x, b, pc, op, dst, l, r).value, ExecN(ir, rt, Here(b, v, m), n),
                   NBinary(x.boxed, m, pc, next, op, dst, l, r), next)
  {
    hide BinaryValue, WideOp, BoxedBinaryResult, BitsInt, CmpInt, ExecN, FloatUn, FloatBin, StoreReg, Agrees, Put,
        Deliver, Fine, Coarse;
    var e := EmitBinary(x, b, pc, op, dst, l, r).value;
    var (b1, lv) := LoadReg(b, l);
    var (b2, rv) := LoadReg(b1, r);
    var lw, rw := GetReg(m.regs, l), GetReg(m.regs, r);
    var v1 := v[b.vals := lw];
    var v2 := v1[b1.vals := rw];
    var p := BinaryValue(x, b2, pc, op, lv, rv).value;
    StoreWithin(ir, p.0, dst, p.1);
    var k: nat;
    if x.boxed {
      k := RunBoxedValue(ir, rt, x, b2, pc, op, lv, rv, v2, m, lw, rw);
      k := RunDeliver(ir, rt, x, Here(b2, v2, m), k, p.0, dst, p.1, m, pc, next, BoxedBinaryResult(op, lw, rw));
    } else {
      k := RunIntBinary(ir, rt, x, b2, pc, op, dst, lv, rv, v2, m, lw, rw, next);
    }
    RunLoadReg(ir, rt, b1, r, v1, m);
    RunLoadReg(ir, rt, b, l, v, m);
    Chain(ir, rt, Here(b, v, m), 1, Here(b1, v1, m), 1);
    After(ir, rt, x, e, Here(b, v, m), 2, Here(b2, v2, m), k, NBinary(x.boxed, m, pc, next, op, dst, l, r), next);
    n := 2 + k;
  }

  lemma RunIntBinary(ir: Ir, rt: Rt, x: Ctx, b: Builder, pc: nat, op: int, dst: nat, lv: Exp, rv: Exp, v: Vals, m: Mem,
                     lw: Word, rw: Word, next: nat) returns (n: nat)
    requires b.Ok() && Exits(x, ir) && !x.boxed && Eval(lv, v) == lw && Eval(rv, v) == rw
    requires BinaryValue(x, b, pc, op, lv, rv).Some?
    requires var p := BinaryValue(x, b, pc, op, lv, rv).value; Within(StoreReg(p.0, dst, p.1), ir)
    ensures Within(b, ir) && n > 0
    ensures var p := BinaryValue(x, b, pc, op, lv, rv).value;
            Agrees(x, Emitted(StoreReg(p.0, dst, p.1), false), ExecN(ir, rt, Here(b, v, m), n),
              if IsArith(op) then
                (if -F64_SAFE_INT <= WideInt(op, lw, rw) <= F64_SAFE_INT then Put(m, dst, WideInt(op, lw, rw), next)
                    else Coarse(m))
              else if IsBitBinary(op) then Put(m, dst, BitsInt(op, lw, rw), next)
              else Put(m, dst, B01(CmpInt(op, lw, rw)), next), next)
  {
    hide WideOp, BitsInt, CmpInt, ExecN, FloatUn, FloatBin, StoreReg, Agrees, Put, Coarse, GuardI128;
    if IsArith(op) {
      EvalWide(op, lv, rv, v, lw, rw);
      n := RunIntIncDec(ir, rt, x, b, WideOp(op, lv, rv), dst, v, m, WideInt(op, lw, rw), next);
    } else if IsBitBinary(op) {
      EvalRawBits(op, lv, rv, v);
      RunPureStore(ir, rt, x, b, dst, RawBits(op, lv, rv), v, m, next);
      n := 1;
    } else {
      EvalIntCmp(op, lv, rv, v);
      RunPureStore(ir, rt, x, b, dst, Bin(IntCmp(op), lv, rv), v, m, next);
      n := 1;
    }
  }

  // ------------------------------------------------------------------ property access and calls

  /** A helper call that binds its result, then the flag test, then the store of the result. */
  lemma RunHelperValue(ir: Ir, rt: Rt, x: Ctx, b: Builder, i: Inst, pc: nat, dst: nat, v: Vals, m: Mem, m': Mem,
                       w: Word, next: nat)
      returns (n: nat)
    requires b.Ok() && Exits(x, ir)
    requires var b1 := Ins(b.(vals := b.vals + 1), i);
             Within(StoreReg(AfterHelper(b1, pc, x.fine, x.throwing), dst, Id(b.vals)), ir)
    requires forall c: Config | c.blk < |ir| && c.idx < |ir[c.blk].insts| && ir[c.blk].insts[c.idx] == i
             && c.vals == v && c.mem == m ::
               Exec(ir, rt, c) == At(Config(c.blk, c.idx + 1, v[b.vals := w], m'))
    ensures Within(b, ir) && n > 0
    ensures var b1 := Ins(b.(vals := b.vals + 1), i);
            Agrees(x, Emitted(StoreReg(AfterHelper(b1, pc, x.fine, x.throwing), dst, Id(b.vals)), false),
              ExecN(ir, rt, Here(b, v, m), n), AfterHelp(m', pc, Put(m', dst, w, next)), next)
  {
    hide AfterHelper, StoreReg, Exec, ExecN, FineMem;
    var b0 := b.(vals := b.vals + 1);
    var b1 := Ins(b0, i);
    var b2 := AfterHelper(b1, pc, x.fine, x.throwing);
    StoreWithin(ir, b2, dst, Id(b.vals));
    var v1 := v[b.vals := w];
    var k := RunAfterHelper(ir, rt, x, b1, pc, v1, m');
    FetchIns(ir, b0, i);
    One(ir, rt, Here(b, v, m));
    Chain(ir, rt, Here(b, v, m), 1, Here(b1, v1, m'), k);
    n := 1 + k;
    if m'.flag == 0 {
      var v2 := v1[b1.vals := m'.flag];
      RunStore(ir, rt, Here(b, v, m), n, b2, dst, Id(b.vals), v2, m', next);
      n := n + 1;
    }
  }

  /** A helper call without a result, then the flag test. */
  lemma RunHelperEffect(ir: Ir, rt: Rt, x: Ctx, b: Builder, i: Inst, pc: nat, v: Vals, m: Mem, m': Mem, next: nat)
      returns (n: nat)
    requires b.Ok() && Exits(x, ir) && Within(AfterHelper(Ins(b, i), pc, x.fine, x.throwing), ir)
    requires forall c: Config | c.blk < |ir| && c.idx < |ir[c.blk].insts| && ir[c.blk].insts[c.idx] == i
             && c.vals == v && c.mem == m ::
               Exec(ir, rt, c) == At(Config(c.blk, c.idx + 1, v, m'))
    ensures Within(b, ir) && n > 0
    ensures Agrees(x, Emitted(AfterHelper(Ins(b, i), pc, x.fine, x.throwing), false),
              ExecN(ir, rt, Here(b, v, m), n), AfterHelp(m', pc, Go(next, m')), next)
  {
    hide AfterHelper, Exec, ExecN, FineMem;
    var b1 := Ins(b, i);
    var k := RunAfterHelper(ir, rt, x, b1, pc, v, m');
    FetchIns(ir, b, i);
    One(ir, rt, Here(b, v, m));
    Chain(ir, rt, Here(b, v, m), 1, Here(b1, v, m'), k);
    n := 1 + k;
  }

  lemma RunGetElem(ir: Ir, rt: Rt, x: Ctx, b: Builder, pc: nat, dst: nat, l: nat, r: nat, v: Vals, m: Mem, next: nat)
      returns (n: nat)
    requires b.Ok() && Exits(x, ir)
    requires EmitBinary(x, b, pc, GET_PROP_DYN, dst, l, r).Some?
    requires Within(EmitBinary(x, b, pc, GET_PROP_DYN, dst, l, r).value.b, ir)
    ensures n > 0
    ensures var (m', w) := Help(rt, m, Event(GET_PROP_DYN, [GetReg(m.regs, l), GetReg(m.regs, r)], ""));
            Agrees(x, EmitBinary(x, b, pc, GET_PROP_DYN, dst, l, r).value, ExecN(ir, rt, Here(b, v, m), n),
                   AfterHelp(m', pc, Put(m', dst, w, next)), next)
  {
    hide AfterHelper, StoreReg, Agrees, ExecN, Help, AfterHelp, Put;
    var e := EmitBinary(x, b, pc, GET_PROP_DYN, dst, l, r).value;
    var (b1, lv) := LoadReg(b, l);
    var (b2, rv) := LoadReg(b1, r);
    var v1 := v[b.vals := GetReg(m.regs, l)];
    var v2 := v1[b1.vals := GetReg(m.regs, r)];
    var i := GetElemHelper(b2.vals, lv, rv);
    var (m', w) := Help(rt, m, Event(GET_PROP_DYN, [GetReg(m.regs, l), GetReg(m.regs, r)], ""));
    var k := RunHelperValue(ir, rt, x, b2, i, pc, dst, v2, m, m', w, next);
    RunLoadReg(ir, rt, b1, r, v1, m);
    RunLoadReg(ir, rt, b, l, v, m);
    Chain(ir, rt, Here(b, v, m), 1, Here(b1, v1, m), 1);
    After(ir, rt, x, e, Here(b, v, m), 2, Here(b2, v2, m), k, AfterHelp(m', pc, Put(m', dst, w, next)), next);
    n := 2 + k;
  }

  lemma RunGetProp(ir: Ir, rt: Rt, x: Ctx, b: Builder, pc: nat, dst: nat, obj: nat, k: nat, v: Vals, m: Mem,
                   next: nat) returns (n: nat)
    requires b.Ok() && Exits(x, ir)
    requires EmitAccess(x, b, pc, GetProp(dst, obj, k)).Some?
    requires Within(EmitAccess(x, b, pc, GetProp(dst, obj, k)).value.b, ir)
    ensures n > 0
    ensures var (m', w) := Help(rt, m, Event(GET_PROP, [GetReg(m.regs, obj)], SiteKey(x.sites, pc).GetOr("")));
            Agrees(x, EmitAccess(x, b, pc, GetProp(dst, obj, k)).value, ExecN(ir, rt, Here(b, v, m), n),
                   AfterHelp(m', pc, Put(m', dst, w, next)), next)
  {
    hide AfterHelper, StoreReg, Agrees, ExecN, Help, AfterHelp, Put, SiteKey, GetReg;
    var e := EmitAccess(x, b, pc, GetProp(dst, obj, k)).value;
    var key := SiteKey(x.sites, pc).GetOr("");
    var (b1, recv) := LoadReg(b, obj);
    var v1 := v[b.vals := GetReg(m.regs, obj)];
    var i := GetPropHelper(b1.vals, recv, key);
    var (m', w) := Help(rt, m, Event(GET_PROP, [GetReg(m.regs, obj)], key));
    var j := RunHelperValue(ir, rt, x, b1, i, pc, dst, v1, m, m', w, next);
    RunLoadReg(ir, rt, b, obj, v, m);
    After(ir, rt, x, e, Here(b, v, m), 1, Here(b1, v1, m), j, AfterHelp(m', pc, Put(m', dst, w, next)), next);
    n := 1 + j;
  }

  lemma RunSetProp(ir: Ir, rt: Rt, x: Ctx, b: Builder, pc: nat, obj: nat, k: nat, val: nat, v: Vals, m: Mem,
                   next: nat) returns (n: nat)
    requires b.Ok() && Exits(x, ir)
    requires EmitAccess(x, b, pc, SetProp(obj, k, val)).Some?
    requires Within(EmitAccess(x, b, pc, SetProp(obj, k, val)).value.b, ir)
    ensures n > 0
    ensures var (m', w) := Help(rt, m, Event(SET_PROP, [GetReg(m.regs, obj), GetReg(m.regs, val)],
            SiteKey(x.sites, pc).GetOr("")));
            Agrees(x, EmitAccess(x, b, pc, SetProp(obj, k, val)).value, ExecN(ir, rt, Here(b, v, m), n),
                   AfterHelp(m', pc, Go(next, m')), next)
  {
    hide AfterHelper, Agrees, ExecN, Help, AfterHelp, SiteKey;
    var e := EmitAccess(x, b, pc, SetProp(obj, k, val)).value;
    var key := SiteKey(x.sites, pc).GetOr("");
    var (b1, recv) := LoadReg(b, obj);
    var (b2, sv) := LoadReg(b1, val);
    var v1 := v[b.vals := GetReg(m.regs, obj)];
    var v2 := v1[b1.vals := GetReg(m.regs, val)];
    var i := SetPropHelper(recv, key, sv);
    var (m', w) := Help(rt, m, Event(SET_PROP, [GetReg(m.regs, obj), GetReg(m.regs, val)], key));
    var j := RunHelperEffect(ir, rt, x, b2, i, pc, v2, m, m', next);
    RunLoadReg(ir, rt, b1, val, v1, m);
    RunLoadReg(ir, rt, b, obj, v, m);
    Chain(ir, rt, Here(b, v, m), 1, Here(b1, v1, m), 1);
    After(ir, rt, x, e, Here(b, v, m), 2, Here(b2, v2, m), j, AfterHelp(m', pc, Go(next, m')), next);
    n := 2 + j;
  }

  lemma SetElemEffect(ir: Ir, rt: Rt, i: Inst, e: Event, v: Vals, m: Mem)
    requires i.SetElemHelper?
    requires e == Event(SET_PROP_DYN, [AsWord(Eval(i.recv, v)), AsWord(Eval(i.elem, v)), AsWord(Eval(i.val, v))], "")
    ensures forall c: Config | c.blk < |ir| && c.idx < |ir[c.blk].insts| && ir[c.blk].insts[c.idx] == i && c.vals == v
            && c.mem == m ::
              Exec(ir, rt, c) == At(Config(c.blk, c.idx + 1, v, Help(rt, m, e).0))
  {
  }

  lemma RunSetElem(ir: Ir, rt: Rt, x: Ctx, b: Builder, pc: nat, obj: nat, key: nat, val: nat, v: Vals, m: Mem,
                   next: nat) returns (n: nat)
    requires b.Ok() && Exits(x, ir)
    requires EmitAccess(x, b, pc, SetElem(obj, key, val)).Some?
    requires Within(EmitAccess(x, b, pc, SetElem(obj, key, val)).value.b, ir)
    ensures n > 0
    ensures var (m', w) := Help(rt, m, Event(SET_PROP_DYN,
            [GetReg(m.regs, obj), GetReg(m.regs, key), GetReg(m.regs, val)], ""));
            Agrees(x, EmitAccess(x, b, pc, SetElem(obj, key, val)).value, ExecN(ir, rt, Here(b, v, m), n),
                   AfterHelp(m', pc, Go(next, m')), next)
  {
    hide AfterHelper, Agrees, Exec, ExecN, Help, AfterHelp, FloatUn, FloatBin, EvalBin, EvalUn, Within, Grows;
    var e := EmitAccess(x, b, pc, SetElem(obj, key, val)).value;
    var (b1, recv) := LoadReg(b, obj);
    var (b2, kv) := LoadReg(b1, key);
    var (b3, sv) := LoadReg(b2, val);
    var v1 := v[b.vals := GetReg(m.regs, obj)];
    var v2 := v1[b1.vals := GetReg(m.regs, key)];
    var v3 := v2[b2.vals := GetReg(m.regs, val)];
    var i := SetElemHelper(recv, kv, sv);
    var (m', w) := Help(rt, m, Event(SET_PROP_DYN, [GetReg(m.regs, obj), GetReg(m.regs, key), GetReg(m.regs, val)],
        ""));
    SetElemEffect(ir, rt, i, Event(SET_PROP_DYN, [GetReg(m.regs, obj), GetReg(m.regs, key), GetReg(m.regs, val)], ""),
        v3, m);
    var j := RunHelperEffect(ir, rt, x, b3, i, pc, v3, m, m', next);
    RunLoadReg(ir, rt, b2, val, v2, m);
    RunLoadReg(ir, rt, b1, key, v1, m);
    RunLoadReg(ir, rt, b, obj, v, m);
    Chain(ir, rt, Here(b, v, m), 1, Here(b1, v1, m), 1);
    Chain(ir, rt, Here(b, v, m), 2, Here(b2, v2, m), 1);
    After(ir, rt, x, e, Here(b, v, m), 3, Here(b3, v3, m), j, AfterHelp(m', pc, Go(next, m')), next);
    n := 3 + j;
  }

  lemma RunCall(ir: Ir, rt: Rt, x: Ctx, b: Builder, pc: nat, base: nat, nargs: nat, dst: nat, v: Vals, m: Mem,
                next: nat) returns (n: nat)
    requires b.Ok() && Exits(x, ir) && rt.vm
    requires EmitAccess(x, b, pc, Call(base, nargs, dst)).Some?
    requires Within(EmitAccess(x, b, pc, Call(base, nargs, dst)).value.b, ir)
    ensures n > 0
    ensures var (m', w) := Help(rt, m, CallEvent(m.regs, base, nargs));
            Agrees(x, EmitAccess(x, b, pc, Call(base, nargs, dst)).value, ExecN(ir, rt, Here(b, v, m), n),
                   if m'.flag == 0 then Put(m', dst, w, next) else Leave(0, m'), next)
  {
    hide Guard, CallEvent, FloatUn, FloatBin;
    var c := Here(b, v, m);
    var i := CallHelper(base, nargs, dst);
    var b1 := Ins(b, i);
    var b2 := Ins(b1.(vals := b1.vals + 1), LoadFlag(b1.vals));
    var b3 := Guard(b2, Id(b1.vals), x.throwing, NoArg);
    var (m', w) := Help(rt, m, CallEvent(m.regs, base, nargs));
    var m2 := if m'.flag == 0 then m'.(regs := SetReg(m'.regs, dst, w)) else m';
    var v2 := v[b1.vals := m'.flag];
    RunGuard(ir, rt, b2, Id(b1.vals), x.throwing, NoArg, v2, m2);
    RunLoadFlag(ir, rt, b1, b2, v, m2);
    FetchIns(ir, b, i);
    One(ir, rt, c);
    Chain(ir, rt, c, 1, Here(b1, v, m2), 1);
    Chain(ir, rt, c, 2, Here(b2, v2, m2), 1);
    n := 3;
    if m'.flag != 0 {
      RunThrow(ir, rt, x, Here(b2, v2, m2));
      Chain(ir, rt, c, 3, EnterBlock(ir, Here(b2, v2, m2), x.throwing, NoArg).c, 1);
      n := 4;
    }
  }

  // ------------------------------------------------------------------ control flow

  /** Every block set up for a leader is there and takes no parameter. */
  ghost predicate BlocksIn(x: Ctx, ir: Ir)
  {
    forall t :: t in x.blockOf ==> x.blockOf[t] < |ir| && ir[x.blockOf[t]].param == NoParam
  }

  lemma RunBr(ir: Ir, rt: Rt, b: Builder, to: nat, arg: Arg, v: Vals, m: Mem)
    requires b.Ok() && Within(Ins(b, Br(to, arg)), ir)
    ensures Within(b, ir)
    ensures ExecN(ir, rt, Here(b, v, m), 1) == EnterBlock(ir, Here(b, v, m), to, arg)
  {
    FetchIns(ir, b, Br(to, arg));
    One(ir, rt, Here(b, v, m));
  }

  lemma RunRet(ir: Ir, rt: Rt, b: Builder, e: Exp, v: Vals, m: Mem)
    requires b.Ok() && Within(Ins(b, Ret(e)), ir)
    ensures Within(b, ir)
    ensures ExecN(ir, rt, Here(b, v, m), 1) == Exit(AsWord(Eval(e, v)), m)
  {
    FetchIns(ir, b, Ret(e));
    One(ir, rt, Here(b, v, m));
  }

  lemma RunBranch(ir: Ir, rt: Rt, x: Ctx, b: Builder, op: int, cond: nat, target: int, next: nat, v: Vals, m: Mem)
      returns (n: nat)
    requires b.Ok() && BlocksIn(x, ir)
    requires EmitBranch(x, b, op, cond, target, next).Some?
    requires Within(EmitBranch(x, b, op, cond, target, next).value.b, ir)
    ensures n > 0
    ensures Agrees(x, EmitBranch(x, b, op, cond, target, next).value, ExecN(ir, rt, Here(b, v, m), n),
                   Go(if (GetReg(m.regs, cond) != 0) == (op == JMP_IF_TRUE) then target else next, m), next)
  {
    hide ExecN, FloatUn, FloatBin;
    var (b1, e) := LoadReg(b, cond);
    var w := GetReg(m.regs, cond);
    var v1 := v[b.vals := w];
    var isTrue := Bin(INe, e, K(0));
    var t, f := x.blockOf[target], x.blockOf[next];
    if op == JMP_IF_TRUE {
      RunBrif(ir, rt, b1, isTrue, t, NoArg, f, NoArg, v1, m);
    } else {
      RunBrif(ir, rt, b1, isTrue, f, NoArg, t, NoArg, v1, m);
    }
    EvalBinary(INe, e, K(0), v1, w, 0);
    RunLoadReg(ir, rt, b, cond, v, m);
    Chain(ir, rt, Here(b, v, m), 1, Here(b1, v1, m), 1);
    n := 2;
  }

  predicate IsAccess(i: Instr) { i.GetProp? || i.SetProp? || i.SetElem? || i.Call? || i.NewClosure? }

  lemma RunAccess(ir: Ir, rt: Rt, x: Ctx, b: Builder, pc: nat, i: Instr, v: Vals, m: Mem) returns (n: nat)
    requires b.Ok() && Exits(x, ir) && Whole(x.code, pc) && i == Fetch(x.code, pc) && IsAccess(i)
    requires EmitAccess(x, b, pc, i).Some? && Within(EmitAccess(x, b, pc, i).value.b, ir)
    ensures Agrees(x, EmitAccess(x, b, pc, i).value, ExecN(ir, rt, Here(b, v, m), n), NStep(x, rt, pc, m),
            Next(x.code, pc))
    ensures n > 0 || NStep(x, rt, pc, m).Bad?
  {
    hide Exec, ExecN, Help, AfterHelp, Fetch, Agrees, EmitAccess, Put;
    var next := Next(x.code, pc);
    n := 0;
    match i
    case GetProp(dst, obj, k) => n := RunGetProp(ir, rt, x, b, pc, dst, obj, k, v, m, next);
    case SetProp(obj, k, val) => n := RunSetProp(ir, rt, x, b, pc, obj, k, val, v, m, next);
    case SetElem(obj, key, val) => n := RunSetElem(ir, rt, x, b, pc, obj, key, val, v, m, next);
    case Call(base, nargs, dst) =>
      if rt.vm {
        n := RunCall(ir, rt, x, b, pc, base, nargs, dst, v, m, next);
      } else {
        AgreesBad(x, EmitAccess(x, b, pc, i).value, ExecN(ir, rt, Here(b, v, m), n), next);
      }
    case NewClosure(dst, idx) => n := RunNewClosure(ir, rt, x, b, pc, dst, idx, v, m, next);
  }

  lemma AgreesBad(x: Ctx, e: Emitted, r: Result, next: nat)
    ensures Agrees(x, e, r, Bad, next)
  {
  }

  lemma RunNewClosure(ir: Ir, rt: Rt, x: Ctx, b: Builder, pc: nat, dst: nat, idx: nat, v: Vals, m: Mem, next: nat)
      returns (n: nat)
    requires b.Ok() && Exits(x, ir)
    requires EmitAccess(x, b, pc, NewClosure(dst, idx)).Some?
    requires Within(EmitAccess(x, b, pc, NewClosure(dst, idx)).value.b, ir)
    ensures n > 0
    ensures Agrees(x, EmitAccess(x, b, pc, NewClosure(dst, idx)).value, ExecN(ir, rt, Here(b, v, m), n), Fine(m, pc),
            next)
  {
    hide Exec, ExecN;
    RunBr(ir, rt, b, x.fine, Arg(K(pc)), v, m);
    RunFine(ir, rt, x, Here(b, v, m), pc);
    Chain(ir, rt, Here(b, v, m), 1, EnterBlock(ir, Here(b, v, m), x.fine, Arg(K(pc))).c, 3);
    n := 4;
  }

  lemma RunJump(ir: Ir, rt: Rt, x: Ctx, b: Builder, target: int, v: Vals, m: Mem, next: nat)
    requires b.Ok() && BlocksIn(x, ir) && target in x.blockOf && Within(Ins(b, Br(x.blockOf[target], NoArg)), ir)
    ensures Agrees(x, Emitted(Ins(b, Br(x.blockOf[target], NoArg)), true), ExecN(ir, rt, Here(b, v, m), 1),
            Go(target, m), next)
  {
    RunBr(ir, rt, b, x.blockOf[target], NoArg, v, m);
  }

  predicate IsMove(i: Instr) { i.LoadK? || i.LoadLit? || i.GetName? || i.SetName? || i.Hoist? }

  lemma RunMove(ir: Ir, rt: Rt, x: Ctx, b: Builder, pc: nat, v: Vals, m: Mem) returns (n: nat)
    requires b.Ok() && Whole(x.code, pc) && IsMove(Fetch(x.code, pc))
    requires EmitInstr(x, b, pc).Some? && Within(EmitInstr(x, b, pc).value.b, ir)
    ensures Agrees(x, EmitInstr(x, b, pc).value, ExecN(ir, rt, Here(b, v, m), n), NStep(x, rt, pc, m), Next(x.code, pc))
    ensures n > 0 || Fetch(x.code, pc).Hoist?
  {
    hide EmitUnary, EmitBinary, EmitBranch, EmitAccess, NUnary, NBinary, Exec, ExecN, Help, AfterHelp, Fetch, StoreReg,
      Agrees, SlotOf, Put, FloatUn, FloatBin, EvalBin, EvalUn, Within, Grows;
    var next := Next(x.code, pc);
    n := 0;
    match Fetch(x.code, pc)
    case LoadK(dst, k) => n := RunLoadThenStore(ir, rt, x, b, Consts, k, dst, v, m, next);
    case LoadLit(op, dst) =>
      var e := K(if op == LOAD_TRUE then (if x.boxed then TRUE else 1) else if op == LOAD_FALSE
          then (if x.boxed then FALSE else 0) else 0);
      RunPureStore(ir, rt, x, b, dst, e, v, m, next);
      n := 1;
    case GetName(_, dst, k) => n := RunLoadThenStore(ir, rt, x, b, Locals, SlotOf(x.slots, k).value, dst, v, m, next);
    case SetName(_, k, src) => n := RunSetLocal(ir, rt, x, b, SlotOf(x.slots, k).value, src, v, m, next);
    case Hoist(_) => RunHoist(ir, rt, x, b, v, m, next);
  }

  /** One instruction, whatever it is. */
  lemma RunInstr(ir: Ir, rt: Rt, x: Ctx, b: Builder, pc: nat, v: Vals, m: Mem) returns (n: nat)
    requires b.Ok() && Exits(x, ir) && BlocksIn(x, ir) && Whole(x.code, pc)
    requires EmitInstr(x, b, pc).Some? && Within(EmitInstr(x, b, pc).value.b, ir)
    ensures Agrees(x, EmitInstr(x, b, pc).value, ExecN(ir, rt, Here(b, v, m), n), NStep(x, rt, pc, m), Next(x.code, pc))
    ensures n > 0 || Fetch(x.code, pc).Hoist? || NStep(x, rt, pc, m).Bad?
  {
    hide EmitUnary, EmitBinary, EmitBranch, EmitAccess, NUnary, NBinary, Exec, ExecN, Help, AfterHelp, Fetch, StoreReg,
      Agrees, SlotOf, Put;
    var next := Next(x.code, pc);
    var i := Fetch(x.code, pc);
    n := 0;
    if IsAccess(i) {
      n := RunAccess(ir, rt, x, b, pc, i, v, m);
    } else if IsMove(i) {
      n := RunMove(ir, rt, x, b, pc, v, m);
    } else {
      match i
      case Unary(op, dst, src) => n := RunUnary(ir, rt, x, b, pc, op, dst, src, v, m, next);
      case Binary(op, dst, l, r) =>
        if op == GET_PROP_DYN {
          n := RunGetElem(ir, rt, x, b, pc, dst, l, r, v, m, next);
        } else {
          n := RunBinary(ir, rt, x, b, pc, op, dst, l, r, v, m, next);
        }
      case Jump(rel) =>
        RunJump(ir, rt, x, b, next + rel, v, m, next);
        n := 1;
      case Branch(op, cond, rel) => n := RunBranch(ir, rt, x, b, op, cond, next + rel, next, v, m);
      case Return(src) => n := RunReturn(ir, rt, x, b, src, v, m, next);
      case Stop(_) => n := RunStop(ir, rt, x, b, v, m, next);
      case Other(_) =>
    }
  }

  lemma RunHoist(ir: Ir, rt: Rt, x: Ctx, b: Builder, v: Vals, m: Mem, next: nat)
    requires b.Ok()
    ensures Agrees(x, Emitted(b, false), ExecN(ir, rt, Here(b, v, m), 0), Go(next, m), next)
  {
    RunNothing(ir, rt, Here(b, v, m));
  }

  lemma RunStop(ir: Ir, rt: Rt, x: Ctx, b: Builder, v: Vals, m: Mem, next: nat) returns (n: nat)
    requires b.Ok() && Within(Ins(b, Ret(K(0))), ir)
    ensures n > 0 && Agrees(x, Emitted(Ins(b, Ret(K(0))), true), ExecN(ir, rt, Here(b, v, m), n), Leave(0, m), next)
  {
    RunRet(ir, rt, b, K(0), v, m);
    n := 1;
  }

  lemma RunNothing(ir: Ir, rt: Rt, c: Config)
    ensures ExecN(ir, rt, c, 0) == At(c)
  {
  }

  lemma RunLoadThenStore(ir: Ir, rt: Rt, x: Ctx, b: Builder, space: Space, idx: nat, dst: nat, v: Vals, m: Mem,
                         next: nat) returns (n: nat)
    requires b.Ok()
    requires Within(StoreReg(Ins(b.(vals := b.vals + 1), Load(b.vals, space, idx)), dst, Id(b.vals)), ir)
    ensures n > 0
    ensures Agrees(x, Emitted(StoreReg(Ins(b.(vals := b.vals + 1), Load(b.vals, space, idx)), dst, Id(b.vals)), false),
              ExecN(ir, rt, Here(b, v, m), n), Put(m, dst, Read(rt, m, space, idx), next), next)
  {
    hide StoreReg;
    var b0 := b.(vals := b.vals + 1);
    var b1 := Ins(b0, Load(b.vals, space, idx));
    StoreWithin(ir, b1, dst, Id(b.vals));
    FetchIns(ir, b0, Load(b.vals, space, idx));
    var v1 := v[b.vals := Read(rt, m, space, idx)];
    One(ir, rt, Here(b, v, m));
    RunStore(ir, rt, Here(b, v, m), 1, b1, dst, Id(b.vals), v1, m, next);
    n := 2;
  }

  lemma RunSetLocal(ir: Ir, rt: Rt, x: Ctx, b: Builder, slot: nat, src: nat, v: Vals, m: Mem, next: nat)
      returns (n: nat)
    requires b.Ok()
    requires var (b1, e) := LoadReg(b, src); Within(Ins(b1, Store(Locals, slot, e)), ir)
    ensures n > 0
    ensures var (b1, e) := LoadReg(b, src);
            Agrees(x, Emitted(Ins(b1, Store(Locals, slot, e)), false), ExecN(ir, rt, Here(b, v, m), n),
              Go(next, m.(locals := SetReg(m.locals, slot, GetReg(m.regs, src)))), next)
  {
    var (b1, e) := LoadReg(b, src);
    var v1 := v[b.vals := GetReg(m.regs, src)];
    FetchIns(ir, b1, Store(Locals, slot, e));
    One(ir, rt, Here(b1, v1, m));
    RunLoadReg(ir, rt, b, src, v, m);
    Chain(ir, rt, Here(b, v, m), 1, Here(b1, v1, m), 1);
    n := 2;
  }

  lemma RunReturn(ir: Ir, rt: Rt, x: Ctx, b: Builder, src: nat, v: Vals, m: Mem, next: nat) returns (n: nat)
    requires b.Ok()
    requires var (b1, e) := LoadReg(b, src); Within(Ins(b1, Ret(e)), ir)
    ensures var (b1, e) := LoadReg(b, src);
            n > 0 && Agrees(x, Emitted(Ins(b1, Ret(e)), true), ExecN(ir, rt, Here(b, v, m), n),
                Leave(GetReg(m.regs, src), m), next)
  {
    var (b1, e) := LoadReg(b, src);
    var v1 := v[b.vals := GetReg(m.regs, src)];
    RunRet(ir, rt, b1, e, v1, m);
    RunLoadReg(ir, rt, b, src, v, m);
    Chain(ir, rt, Here(b, v, m), 1, Here(b1, v1, m), 1);
    n := 2;
  }
}
