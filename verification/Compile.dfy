/** The translator in the form it is written in: a mutable function builder, emitters that append to
    it, and a loop over `pc` with mutable leaders, blocks and `terminated`. Every method is proved
    equal to the specification functions of Emit and Translate. */
module Compile {
  import opened Options
  import opened Bits
  import opened NanBox
  import opened Bytecode
  import opened Interp
  import opened Ir
  import opened Emit
  import opened Translate

  class FunctionBuilder {
    var blocks: Ir
    var cur: nat
    var vals: nat

    ghost predicate Valid() reads this { cur < |blocks| }

    function State(): Builder reads this { Builder(blocks, cur, vals) }

    constructor (b: Builder)
      requires b.Ok()
      ensures Valid() && State() == b
    {
      blocks, cur, vals := b.blocks, b.cur, b.vals;
    }

    // ---- the builder's own operations ----

    method CreateBlock() returns (k: nat)
      requires Valid()
      modifies this
      ensures Valid() && (State(), k) == NewBlock(old(State()))
    {
      k := |blocks|;
      blocks := blocks + [Block(NoParam, [])];
    }

    method CreateBlockWithParam() returns (k: nat, param: Exp)
      requires Valid()
      modifies this
      ensures Valid() && (State(), k) == NewBlockParam(old(State())) && param == Id(old(vals))
    {
      k, param := |blocks|, Id(vals);
      blocks, vals := blocks + [Block(Param(vals), [])], vals + 1;
    }

    method SwitchToBlock(k: nat)
      requires Valid() && k < |blocks|
      modifies this
      ensures Valid() && State() == SwitchTo(old(State()), k)
    {
      cur := k;
    }

    method Append(i: Inst)
      requires Valid()
      modifies this
      ensures Valid() && State() == Ins(old(State()), i)
    {
      blocks := blocks[cur := blocks[cur].(insts := blocks[cur].insts + [i])];
    }

    method FreshId() returns (id: nat)
      requires Valid()
      modifies this
      ensures Valid() && State() == old(State()).(vals := old(vals) + 1) && id == old(vals)
    {
      id := vals;
      vals := vals + 1;
    }

    method ReadReg(r: nat) returns (v: Exp)
      requires Valid()
      modifies this
      ensures Valid() && (State(), v) == LoadReg(old(State()), r)
    {
      var id := FreshId();
      Append(Load(id, Regs, r));
      v := Id(id);
    }

    method WriteReg(r: nat, e: Exp)
      requires Valid()
      modifies this
      ensures Valid() && State() == StoreReg(old(State()), r, e)
    {
      Append(Store(Regs, r, e));
    }

    // ---- guards and boxing ----

    method EmitGuard(bad: Exp, to: nat, arg: Arg)
      requires Valid()
      modifies this
      ensures Valid() && State() == Guard(old(State()), bad, to, arg)
    {
      var cont := CreateBlock();
      Append(Brif(bad, to, arg, cont, NoArg));
      SwitchToBlock(cont);
    }

    method EmitRequire(good: Exp, to: nat, arg: Arg)
      requires Valid()
      modifies this
      ensures Valid() && State() == Require(old(State()), good, to, arg)
    {
      var cont := CreateBlock();
      Append(Brif(good, cont, NoArg, to, arg));
      SwitchToBlock(cont);
    }

    /** `guard_i128_to_i64` */
    method GuardI128ToI64(deopt: nat, pc: Arg, val: Exp) returns (narrowed: Exp)
      requires Valid()
      modifies this
      ensures Valid() && (State(), narrowed) == GuardI128(old(State()), deopt, pc, val)
    {
      EmitGuard(OutOfBand(val), deopt, pc);
      narrowed := Un(Red64, val);
    }

    method JumpTo(to: nat, v: Exp, next: nat)
      requires Valid() && next < |blocks|
      modifies this
      ensures Valid() && State() == SwitchTo(Ins(old(State()), Br(to, Arg(v))), next)
    {
      Append(Br(to, Arg(v)));
      SwitchToBlock(next);
    }

    method EmitFork(cond: Exp) returns (yes: nat, no: nat)
      requires Valid()
      modifies this
      ensures Valid() && (State(), yes, no) == Fork(old(State()), cond)
    {
      yes := CreateBlock();
      no := CreateBlock();
      Append(Brif(cond, yes, NoArg, no, NoArg));
    }

    method EmitSplit(cond: Exp) returns (yes: nat, no: nat, done: nat, res: Exp)
      requires Valid()
      modifies this
      ensures Valid() && Diamond(State(), yes, no, done, res) == Split(old(State()), cond)
    {
      yes := CreateBlock();
      no := CreateBlock();
      done, res := CreateBlockWithParam();
      Append(Brif(cond, yes, NoArg, no, NoArg));
    }

    method EmitChoose(cond: Exp, yesVal: Exp, noVal: Exp) returns (res: Exp)
      requires Valid()
      modifies this
      ensures Valid() && (State(), res) == Choose(old(State()), cond, yesVal, noVal)
    {
      var yes, no, done, r := EmitSplit(cond);
      SwitchToBlock(yes);
      JumpTo(done, yesVal, no);
      JumpTo(done, noVal, done);
      res := r;
    }

    /** `emit_box_i64` */
    method EmitBoxI64(r: Exp) returns (res: Exp)
      requires Valid()
      modifies this
      ensures Valid() && (State(), res) == BoxI64(old(State()), r)
    {
      res := EmitChoose(InI32(r), SmiBitsE(Un(Red32, r)), Bin(Add64, Un(FcvtInt, r), K(OFFSET)));
    }

    /** `emit_box_f64` */
    method EmitBoxF64(f: Exp) returns (res: Exp)
      requires Valid()
      modifies this
      ensures Valid() && (State(), res) == BoxF64(old(State()), f)
    {
      res := EmitChoose(SmiOk(f), SmiBitsE(Un(FcvtSat32, f)), Bin(Add64, f, K(OFFSET)));
    }

    // ---- boxed operators ----

    /** Box a product, a zero through f64, and hand it to `done`. */
    method EmitProduct(ghost a: Builder, x: Exp, y: Exp, narrowed: Exp, done: nat, next: nat)
      requires Valid() && Grows(a, State()) && |a.blocks| <= next < |blocks|
      modifies this
      ensures Valid() && State() == Product(a, old(State()), x, y, narrowed, done, next)
    {
      var zbox, ibox := EmitFork(Bin(IEq, narrowed, K(0)));
      SwitchToBlock(zbox);
      var p := EmitBoxF64(FloatOp(MUL, Un(FcvtInt, x), Un(FcvtInt, y)));
      JumpTo(done, p, ibox);
      var i := EmitBoxI64(narrowed);
      JumpTo(done, i, next);
    }

    method EmitSmiArith(ghost a: Builder, fine: nat, pc: nat, op: int, x: Exp, y: Exp, done: nat, next: nat)
      requires Valid() && Grows(a, State()) && |a.blocks| <= next < |blocks|
      modifies this
      ensures Valid() && State() == SmiArith(a, old(State()), fine, pc, op, x, y, done, next)
    {
      ghost var b := State();
      var narrowed := GuardI128ToI64(fine, Arg(K(pc)), WideOp(op, x, y));
      GrowsTrans(a, b, State());
      if op == MUL {
        EmitProduct(a, x, y, narrowed, done, next);
      } else {
        var i := EmitBoxI64(narrowed);
        JumpTo(done, i, next);
      }
    }

    /** `emit_boxed_num_binop`, and the boxed INC and DEC */
    method EmitBoxedArith(fine: nat, pc: nat, op: int, isNumber: Exp, isSmi: Exp, x: Exp, y: Exp, fx: Exp, fy: Exp)
        returns (res: Exp)
      requires Valid()
      modifies this
      ensures Valid() && (State(), res) == BoxedArith(old(State()), fine, pc, op, isNumber, isSmi, x, y, fx, fy)
    {
      ghost var a := State();
      EmitRequire(isNumber, fine, Arg(K(pc)));
      ghost var b1 := State();
      var yes, no, done, r := EmitSplit(isSmi);
      GrowsTrans(a, b1, State());
      SwitchToBlock(yes);
      EmitSmiArith(a, fine, pc, op, x, y, done, no);
      var v := EmitBoxF64(FloatOp(op, fx, fy));
      JumpTo(done, v, done);
      res := r;
    }

    method EmitBoxedInt(fine: nat, pc: nat, isSmi: Exp, raw: Exp) returns (res: Exp)
      requires Valid()
      modifies this
      ensures Valid() && (State(), res) == BoxedInt(old(State()), fine, pc, isSmi, raw)
    {
      EmitRequire(isSmi, fine, Arg(K(pc)));
      res := EmitBoxI64(raw);
    }

    method EmitBoxedFloat(fine: nat, pc: nat, isNumber: Exp, f: Exp) returns (res: Exp)
      requires Valid()
      modifies this
      ensures Valid() && (State(), res) == BoxedFloat(old(State()), fine, pc, isNumber, f)
    {
      EmitRequire(isNumber, fine, Arg(K(pc)));
      res := EmitBoxF64(f);
    }

    /** `emit_mod` */
    method EmitMod(fine: nat, pc: nat, l: Exp, r: Exp) returns (res: Exp)
      requires Valid()
      modifies this
      ensures Valid() && (State(), res) == BoxedMod(old(State()), fine, pc, l, r)
    {
      EmitRequire(Both(IsNumberE(l), IsNumberE(r)), fine, Arg(K(pc)));
      EmitRequire(RemDefined(l, r), fine, Arg(K(pc)));
      var yes, no, done, d := EmitSplit(RemIsNegZero(l, r));
      SwitchToBlock(yes);
      var nz := EmitBoxF64(K(NEG_ZERO));
      JumpTo(done, nz, no);
      var i := EmitBoxI64(RemE(l, r));
      JumpTo(done, i, done);
      res := d;
    }

    method EmitCompare(fine: nat, pc: nat, op: int, l: Exp, r: Exp) returns (res: Exp)
      requires Valid()
      modifies this
      ensures Valid() && (State(), res) == BoxedCompare(old(State()), fine, pc, op, l, r)
    {
      EmitRequire(Both(IsNumberE(l), IsNumberE(r)), fine, Arg(K(pc)));
      res := EmitChoose(Both(IsSmiE(l), IsSmiE(r)),
        Bin(IntCmp(op), UnboxSmiE(l), UnboxSmiE(r)), Bin(FloatCmp(op), ToF64E(l), ToF64E(r)));
    }

    /** The miss protocol after a helper call. */
    method EmitAfterHelper(pc: nat, fine: nat, throwing: nat)
      requires Valid()
      modifies this
      ensures Valid() && State() == AfterHelper(old(State()), pc, fine, throwing)
    {
      var missed := FreshId();
      Append(LoadFlag(missed));
      var slow, cont := EmitFork(Id(missed));
      SwitchToBlock(slow);
      Append(Brif(Bin(IEq, Id(missed), K(2)), throwing, NoArg, fine, Arg(K(pc))));
      SwitchToBlock(cont);
    }

    // ---- one instruction ----

    /** Emitting left the builder at `e`, or aborted. */
    ghost predicate Emits(ok: bool, ended: bool, e: Option<Emitted>)
      reads this
    {
      ok == e.Some? && (ok ==> Valid() && Emitted(State(), ended) == e.value)
    }

    method EmitUnaryOp(x: Ctx, pc: nat, op: int, dst: nat, src: nat) returns (ok: bool)
      requires Valid()
      modifies this
      ensures Emits(ok, false, EmitUnary(x, old(State()), pc, op, dst, src))
    {
      var v := ReadReg(src);
      var res := v;
      if op == TO_NUMERIC && x.boxed {
        EmitRequire(IsNumberE(v), x.fine, Arg(K(pc)));
      } else if op == NOT && x.boxed {
        EmitRequire(IsSmiE(v), x.fine, Arg(K(pc)));
        res := Bin(IEq, UnboxSmiE(v), K(0));
      } else if op == NOT {
        res := Bin(IEq, v, K(0));
      } else if op == BIT_NOT && x.boxed {
        res := EmitBoxedInt(x.fine, pc, IsSmiE(v), RawNot(UnboxSmiE(v)));
      } else if op == BIT_NOT {
        res := RawNot(v);
      } else if (op == INC || op == DEC) && x.boxed {
        res := EmitBoxedArith(x.fine, pc, op, IsNumberE(v), IsSmiE(v), UnboxSmiE(v), K(1), ToF64E(v),
            Un(FcvtInt, K(1)));
      } else if op == INC || op == DEC {
        res := GuardI128ToI64(x.deopt, NoArg, WideOp(op, v, K(1)));
      } else if op == NEG && x.boxed {
        res := EmitBoxedFloat(x.fine, pc, IsNumberE(v), Un(Fneg, ToF64E(v)));
      } else if op != MOVE && op != TO_NUMERIC {
        return false;
      }
      WriteReg(dst, res);
      ok := true;
    }

    /** The value of a binary operator; `None` when the lane does not have it. */
    method EmitBinaryValue(x: Ctx, pc: nat, op: int, lv: Exp, rv: Exp) returns (res: Option<Exp>)
      requires Valid()
      modifies this
      ensures var r := BinaryValue(x, old(State()), pc, op, lv, rv);
              res.Some? == r.Some? && (r.Some? ==> Valid() && (State(), res.value) == r.value)
    {
      hide IsNumberE, IsSmiE, UnboxSmiE, ToF64E, BoxedArith, GuardI128, BoxedInt, BoxedFloat, BoxedCompare, BoxedMod,
          RawBits, WideOp;
      var v;
      if IsArith(op) && x.boxed {
        v := EmitBoxedArith(x.fine, pc, op, Both(IsNumberE(lv), IsNumberE(rv)), Both(IsSmiE(lv), IsSmiE(rv)),
          UnboxSmiE(lv), UnboxSmiE(rv), ToF64E(lv), ToF64E(rv));
      } else if IsArith(op) {
        v := GuardI128ToI64(x.deopt, NoArg, WideOp(op, lv, rv));
      } else if IsBitBinary(op) && x.boxed {
        v := EmitBoxedInt(x.fine, pc, Both(IsSmiE(lv), IsSmiE(rv)), RawBits(op, UnboxSmiE(lv), UnboxSmiE(rv)));
      } else if IsBitBinary(op) {
        v := RawBits(op, lv, rv);
      } else if IsCompare(op) && x.boxed {
        v := EmitCompare(x.fine, pc, op, lv, rv);
      } else if IsCompare(op) {
        v := Bin(IntCmp(op), lv, rv);
      } else if op == DIV && x.boxed {
        v := EmitBoxedFloat(x.fine, pc, Both(IsNumberE(lv), IsNumberE(rv)), Bin(Fdiv, ToF64E(lv), ToF64E(rv)));
      } else if op == MOD && x.boxed {
        v := EmitMod(x.fine, pc, lv, rv);
      } else {
        return None;
      }
      res := Some(v);
    }

    method EmitBinaryOp(x: Ctx, pc: nat, op: int, dst: nat, l: nat, r: nat) returns (ok: bool)
      requires Valid()
      modifies this
      ensures Emits(ok, false, EmitBinary(x, old(State()), pc, op, dst, l, r))
    {
      hide BinaryValue, AfterHelper, StoreReg;
      var lv := ReadReg(l);
      var rv := ReadReg(r);
      if op == GET_PROP_DYN {
        if !x.boxed { return false; }
        var id := FreshId();
        Append(GetElemHelper(id, lv, rv));
        EmitAfterHelper(pc, x.fine, x.throwing);
        WriteReg(dst, Id(id));
      } else {
        var res := EmitBinaryValue(x, pc, op, lv, rv);
        if res.None? { return false; }
        WriteReg(dst, res.value);
      }
      ok := true;
    }

    method EmitAccessOp(x: Ctx, pc: nat, i: Instr) returns (ok: bool)
      requires Valid() && (i.GetProp? || i.SetProp? || i.SetElem? || i.Call?)
      modifies this
      ensures Emits(ok, false, EmitAccess(x, old(State()), pc, i))
    {
      hide AfterHelper, StoreReg, Guard, SiteKey, LoadReg, Ins, Grows;
      if !x.boxed { return false; }
      ok := true;
      match i
      case GetProp(dst, obj, _) =>
        var key := SiteKey(x.sites, pc);
        if key.None? { return false; }
        var recv := ReadReg(obj);
        var id := FreshId();
        Append(GetPropHelper(id, recv, key.value));
        EmitAfterHelper(pc, x.fine, x.throwing);
        WriteReg(dst, Id(id));
      case SetProp(obj, _, val) =>
        var key := SiteKey(x.sites, pc);
        if key.None? { return false; }
        var recv := ReadReg(obj);
        var v := ReadReg(val);
        Append(SetPropHelper(recv, key.value, v));
        EmitAfterHelper(pc, x.fine, x.throwing);
      case SetElem(obj, key, val) =>
        var recv := ReadReg(obj);
        var k := ReadReg(key);
        var v := ReadReg(val);
        Append(SetElemHelper(recv, k, v));
        EmitAfterHelper(pc, x.fine, x.throwing);
      case Call(base, nargs, dst) =>
        Append(CallHelper(base, nargs, dst));
        var threw := FreshId();
        Append(LoadFlag(threw));
        EmitGuard(Id(threw), x.throwing, NoArg);
    }

    method EmitBranchOp(x: Ctx, op: int, cond: nat, target: int, next: int) returns (ok: bool)
      requires Valid()
      modifies this
      ensures Emits(ok, true, EmitBranch(x, old(State()), op, cond, target, next))
    {
      if (op != JMP_IF_TRUE && op != JMP_IF_FALSE) || target !in x.blockOf || next !in x.blockOf { return false; }
      var v := ReadReg(cond);
      var isTrue := Bin(INe, v, K(0));
      var t, f := x.blockOf[target], x.blockOf[next];
      if op == JMP_IF_TRUE {
        Append(Brif(isTrue, t, NoArg, f, NoArg));
      } else {
        Append(Brif(isTrue, f, NoArg, t, NoArg));
      }
      ok := true;
    }

    /** The body of the emission loop: the instruction at `pc`. */
    method EmitInstruction(x: Ctx, pc: nat) returns (ok: bool, ended: bool)
      requires Valid() && Whole(x.code, pc)
      modifies this
      ensures Emits(ok, ended, EmitInstr(x, old(State()), pc))
    {
      hide EmitUnary, EmitBinary, EmitBranch, EmitAccess, Ins, LoadReg, StoreReg, SlotOf, Fetch;
      ok, ended := true, false;
      var next := Next(x.code, pc);
      match Fetch(x.code, pc)
      case LoadK(dst, k) =>
        var id := FreshId();
        Append(Load(id, Consts, k));
        WriteReg(dst, Id(id));
      case LoadLit(op, dst) =>
        if op !in {LOAD_TRUE, LOAD_FALSE, LOAD_UNDEF} { return false, false; }
        WriteReg(dst, K(if op == LOAD_TRUE then (if x.boxed then TRUE else 1)
                        else if op == LOAD_FALSE then (if x.boxed then FALSE else 0) else 0));
      case Unary(op, dst, src) => ok := EmitUnaryOp(x, pc, op, dst, src);
      case Binary(op, dst, l, r) => ok := EmitBinaryOp(x, pc, op, dst, l, r);
      case GetName(op, dst, k) =>
        var slot := SlotOf(x.slots, k);
        if op != GET_GLOBAL || slot.None? { return false, false; }
        var id := FreshId();
        Append(Load(id, Space.Locals, slot.value));
        WriteReg(dst, Id(id));
      case SetName(_, k, src) =>
        var slot := SlotOf(x.slots, k);
        if slot.None? { return false, false; }
        var v := ReadReg(src);
        Append(Store(Space.Locals, slot.value, v));
      case Hoist(_) =>
      case Jump(rel) =>
        if next + rel !in x.blockOf { return false, false; }
        Append(Br(x.blockOf[next + rel], NoArg));
        ended := true;
      case Branch(op, cond, rel) =>
        ok := EmitBranchOp(x, op, cond, next + rel, next);
        ended := true;
      case Return(src) =>
        var v := ReadReg(src);
        Append(Ret(v));
        ended := true;
      case Stop(_) =>
        Append(Ret(K(0)));
        ended := true;
      case NewClosure(dst, idx) =>
        ClosureDeopts(x, State(), pc, dst, idx);
        if !x.boxed { return false, false; }
        Append(Br(x.fine, Arg(K(pc))));
        ended := true;
      case Other(_) => return false, false;
      case i => ok := EmitAccessOp(x, pc, i);
    }
  }

  lemma ClosureDeopts(x: Ctx, b: Builder, pc: nat, dst: nat, idx: nat)
    requires b.Ok()
    ensures EmitAccess(x, b, pc, NewClosure(dst, idx)) == if x.boxed
            then Some(Emitted(Ins(b, Br(x.fine, Arg(K(pc)))), true)) else None
  {
  }

  /** Pass 1 of `compile_int_block_impl`: validate and collect the block leaders. */
  method FindLeaders(r: Region) returns (res: Option<set<int>>)
    ensures res == Leaders(r.code, r.boxed, 0, {0})
  {
    hide InstrSize, Target;
    var code := r.code;
    var leaders: set<int> := {0};
    var pc := 0;
    while pc < |code|
      invariant Leaders(code, r.boxed, 0, {0}) == Leaders(code, r.boxed, pc, leaders)
      decreases |code| - pc
    {
      ghost var was := leaders;
      var op := code[pc];
      var size := RustSize(op, r.boxed);
      if size == 0 || pc + size > |code| { return None; }
      DecodesWhole(code, r.boxed, pc);
      var next := pc + size;
      JumpBytes(code, pc);
      if op == JMP {
        leaders := leaders + {next + ReadI16(code, pc + 1)};
      } else if op == JMP_IF_TRUE || op == JMP_IF_FALSE {
        leaders := leaders + {next + ReadI16(code, pc + 2), next};
      } else if op == NEW_CLOSURE && r.boxed {
        leaders := leaders + {next};
      }
      if op in {JMP, JMP_IF_TRUE, JMP_IF_FALSE, RETURN, RETURN_UNDEF, HALT} {
        leaders := leaders + {next};
      }
      assert leaders == was + LeadersAt(code, r.boxed, pc);
      pc := next;
    }
    res := Some(leaders);
  }

  /** The displacement sits in the last two bytes of a jump. */
  lemma JumpBytes(code: Code, pc: nat)
    requires Whole(code, pc)
    ensures code[pc] == JMP ==>
            pc + 3 == Next(code, pc) <= |code| && Target(code, pc) == Next(code, pc) + ReadI16(code, pc + 1)
    ensures code[pc] == JMP_IF_TRUE || code[pc] == JMP_IF_FALSE ==>
      pc + 4 == Next(code, pc) <= |code| && Target(code, pc) == Next(code, pc) + ReadI16(code, pc + 2)
  {
    hide ReadI16, ReadU16;
  }

  /** One block for each leader within the code, in ascending order. */
  method NumberBlocks(leaders: set<int>, n: nat) returns (blocks: map<int, nat>)
    ensures blocks == BlockMap(leaders, n)
  {
    hide BlockMap;
    blocks := map[];
    BlockStep(leaders, 0);
    for off := 0 to n
      invariant blocks == BlockMap(leaders, off)
    {
      BlockStep(leaders, off);
      if off in leaders { blocks := blocks[off := |blocks|]; }
    }
  }

  lemma BlockStep(leaders: set<int>, n: nat)
    ensures BlockMap(leaders, 0) == map[]
    ensures var m := BlockMap(leaders, n);
            BlockMap(leaders, n + 1) == if n in leaders then m[n as int := |m| as nat] else m
  {
  }

  /** The emission loop. */
  method EmitCode(x: Ctx, fb: FunctionBuilder) returns (ok: bool, terminated: bool)
    requires fb.Valid() && Ready(x, Pass(fb.State(), true))
    modifies fb
    ensures var r := EmitFrom(x, Pass(old(fb.State()), true), 0);
            ok == r.Some? && (ok ==> fb.Valid() && r == Some(Pass(fb.State(), terminated)))
  {
    hide EmitInstr, BlockMap;
    terminated := true;
    ghost var p0 := Pass(fb.State(), true);
    var pc := 0;
    while pc < |x.code|
      invariant fb.Valid() && Ready(x, Pass(fb.State(), terminated))
      invariant EmitFrom(x, p0, 0) == EmitFrom(x, Pass(fb.State(), terminated), pc)
      decreases |x.code| - pc
    {
      ghost var p := Pass(fb.State(), terminated);
      if RustSize(x.code[pc], x.boxed) == 0 || pc + RustSize(x.code[pc], x.boxed) > |x.code| { return false, false; }
      DecodesWhole(x.code, x.boxed, pc);
      if pc in x.blockOf && x.blockOf[pc] != fb.cur {
        if !terminated { fb.Append(Br(x.blockOf[pc], NoArg)); }
        fb.SwitchToBlock(x.blockOf[pc]);
        terminated := false;
      }
      assert Pass(fb.State(), terminated) == EnterLeader(x, p, pc);
      var ended;
      ok, ended := fb.EmitInstruction(x, pc);
      if !ok { return false, false; }
      if ended { terminated := true; }
      assert EmitOne(x, p, pc) == Some(Pass(fb.State(), terminated));
      pc := Next(x.code, pc);
    }
    ok := true;
  }

  /** `compile_int_block_impl` */
  method CompileIntBlock(r: Region) returns (res: Option<Compiled>)
    ensures res == Translation(r)
  {
    hide Leaders, EmitFrom, BlockMap, Defined, Grows;
    var leaders := FindLeaders(r);
    if leaders.None? { return None; }
    LeadersKeep(r.code, r.boxed, 0, {0});
    ReadyAtStart(r, leaders.value);
    var blocks := NumberBlocks(leaders.value, |r.code| + 1);
    var fb := new FunctionBuilder(Prologue(blocks));
    var ok, terminated := EmitCode(Context(r, blocks), fb);
    if !ok { return None; }
    if !terminated { fb.Append(Ret(K(0))); }
    if !Defined(fb.blocks) { return None; }
    res := Some(Compiled(fb.blocks, |blocks|));
  }
}
