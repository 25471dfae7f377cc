/** The expression compilers in the form they are written in: one mutable compiler with a register
    stack pointer, a chunk builder, and the list of optional guards waiting for their pad. Each is
    proved to emit exactly the code of Codegen. */
module FnCompilers {
  import opened Options
  import opened Bytecode
  import opened Interp
  import opened Emit
  import opened Chunk
  import opened Expr
  import opened Codegen
  import opened Guards

  const MAX_POOL: nat := 0x1_0000

  /** The builder went from `b0` to `b1` by emitting `o`. */
  ghost predicate Wrote(o: Out, b0: Built, b1: Built)
  {
    && b1.code == b0.code + o.code && b1.constants == o.pool && b1.overflow == (b0.overflow || !o.fits)
    && b0.lines <= b1.lines && |b1.lines| == |b1.code|
  }

  /** The pending guards after more were emitted. */
  function Pending(js: Option<seq<nat>>, more: seq<nat>): (r: Option<seq<nat>>)
    ensures r.Some? == js.Some?
  {
    match js case None => None case Some(gs) => Some(gs + more)
  }

  lemma PendingNone(js: Option<seq<nat>>)
    ensures Pending(js, []) == js
  {
    if js.Some? { assert js.value + [] == js.value; }
  }

  lemma PendingAdd(js: Option<seq<nat>>, a: seq<nat>, b: seq<nat>)
    ensures Pending(Pending(js, a), b) == Pending(js, a + b)
  {
    if js.Some? { assert js.value + a + b == js.value + (a + b); }
  }

  /** A zero displacement between `pre` and `suf`, overwritten. */
  lemma FillHole(pre: Code, suf: Code, v: int)
    ensures Write2(pre + Enc16(0) + suf, |pre|, v) == pre + Enc16(v) + suf
  {
    var c := pre + Enc16(0) + suf;
    assert c[..|pre|] == pre;
    assert c[|pre| + 2..] == suf;
  }

  class FnCompiler {
    const builder: ChunkBuilder
    const x: World
    var sp: nat
    var maxRegs: nat
    var optionalJumps: Option<seq<nat>>

    constructor (x: World)
      ensures fresh(builder) && this.x == x && sp == 0 && maxRegs == 0 && optionalJumps.None?
              && builder.State() == EMPTY
    {
      builder := new ChunkBuilder();
      this.x := x;
      sp, maxRegs, optionalJumps := 0, 0, None;
    }

    ghost predicate Valid() reads this, builder
    {
      |builder.lines| == |builder.code| && |builder.constants| <= MAX_POOL && sp <= maxRegs
    }

    /** Where an optional link compiled now would jump. */
    function Here(): Guard reads this { if optionalJumps.Some? then Hole else NoChain }

    /** The code an expression would get now. */
    function Next(e: Expr): Out reads this, builder { Gen(x, e, sp, |builder.code|, Here(), builder.constants) }

    // ---- registers ----

    method AllocReg() returns (r: nat)
      requires Valid() && sp < 255
      modifies this
      ensures r == old(sp) && sp == r + 1 && maxRegs == Max(old(maxRegs), sp) && optionalJumps == old(optionalJumps)
    {
      r := sp;
      sp := sp + 1;
      if sp > maxRegs { maxRegs := sp; }
    }

    method FreeReg()
      modifies this
      ensures sp == (if old(sp) > 0 then old(sp) - 1 else 0) && maxRegs == old(maxRegs)
              && optionalJumps == old(optionalJumps)
    {
      if sp > 0 { sp := sp - 1; }
    }

    // ---- instructions ----

    method Instr2(op: int, a: nat, line: nat)
      requires |builder.lines| == |builder.code|
      modifies builder
      ensures Wrote(Out(Two(op, a), old(builder.constants), 0, true), old(builder.State()), builder.State())
    {
      builder.EmitOpcode(Op8(op), line);
      builder.EmitByte(Reg(a));
      assert builder.code == old(builder.code) + Two(op, a);
    }

    method Instr3(op: int, a: nat, b: nat, line: nat)
      requires |builder.lines| == |builder.code|
      modifies builder
      ensures Wrote(Out(Three(op, a, b), old(builder.constants), 0, true), old(builder.State()), builder.State())
    {
      builder.EmitOpcode(Op8(op), line);
      builder.EmitByte(Reg(a));
      builder.EmitByte(Reg(b));
      assert builder.code == old(builder.code) + Three(op, a, b);
    }

    method Instr4(op: int, a: nat, b: nat, c: nat, line: nat)
      requires |builder.lines| == |builder.code|
      modifies builder
      ensures Wrote(Out(Four(op, a, b, c), old(builder.constants), 0, true), old(builder.State()), builder.State())
    {
      builder.EmitOpcode(Op8(op), line);
      builder.EmitByte(Reg(a));
      builder.EmitByte(Reg(b));
      builder.EmitByte(Reg(c));
      assert builder.code == old(builder.code) + Four(op, a, b, c);
    }

    /** A jump with a zero displacement; the offset of the displacement. */
    method Branch(op: int, s: nat, line: nat) returns (at: nat)
      requires |builder.lines| == |builder.code|
      modifies builder
      ensures at == |old(builder.code)| + 2
      ensures Wrote(Out(Two(op, s) + Enc16(0), old(builder.constants), 0, true), old(builder.State()), builder.State())
    {
      Instr2(op, s, line);
      at := builder.EmitJumpPlaceholder();
      assert builder.code == old(builder.code) + (Two(op, s) + Enc16(0));
    }

    method Jump(line: nat) returns (at: nat)
      requires |builder.lines| == |builder.code|
      modifies builder
      ensures at == |old(builder.code)| + 1
      ensures Wrote(Out([JMP as Byte] + Enc16(0), old(builder.constants), 0, true), old(builder.State()),
              builder.State())
    {
      builder.EmitOpcode(JMP, line);
      at := builder.EmitJumpPlaceholder();
      assert builder.code == old(builder.code) + ([JMP as Byte] + Enc16(0));
    }

    /** Point a displacement emitted between `pre` and `suf` to the current end of the code. */
    method PatchHere(at: nat, ghost pre: Code, ghost suf: Code)
      requires builder.code == pre + Enc16(0) + suf && at == |pre|
      modifies builder
      ensures builder.code == pre + Jump16(|suf|) + suf && builder.constants == old(builder.constants)
              && builder.lines == old(builder.lines)
      ensures builder.jumpOverflow == (old(builder.jumpOverflow) || !FitsI16(|suf|))
    {
      FillHole(pre, suf, Clamp16(|suf|));
      builder.Patch(at, |builder.code|);
    }

    method AddConst(c: Const) returns (k: Option<nat>)
      requires Valid()
      modifies builder
      ensures k.Some? <==> |Pooled(old(builder.constants), c)| <= MAX_POOL
      ensures k.Some? ==>
              k.value == PoolIndex(old(builder.constants), c) && builder.constants == Pooled(old(builder.constants), c)
      ensures k.Some? ==>
              builder.code == old(builder.code) && builder.lines == old(builder.lines)
              && builder.jumpOverflow == old(builder.jumpOverflow)
    {
      k := builder.AddConst(c);
    }

    /** An instruction with a register and a constant. */
    method LoadConst(op: Byte, c: Const, s: nat, line: nat) returns (ok: bool)
      requires Valid()
      modifies builder
      ensures ok <==> |Pooled(old(builder.constants), c)| <= MAX_POOL
      ensures ok ==> Wrote(Out(LoadName(op, s, PoolIndex(old(builder.constants), c)),
              Pooled(old(builder.constants), c), 0, true),
                           old(builder.State()), builder.State())
    {
      var k := AddConst(c);
      if k.None? { return false; }
      builder.EmitOpcode(op, line);
      builder.EmitByte(Reg(s));
      builder.EmitHalf(k.value);
      assert builder.code == old(builder.code) + LoadName(op, s, k.value);
      ok := true;
    }

    /** `emitStore` */
    method EmitStore(n: string, s: nat, line: nat) returns (ok: bool)
      requires Valid()
      modifies builder
      ensures ok <==> |PoolName(x, n, old(builder.constants))| <= MAX_POOL
      ensures ok ==> Wrote(Out(StoreName(NameIndex(x, n, old(builder.constants)), s),
              PoolName(x, n, old(builder.constants)), 0, true),
                           old(builder.State()), builder.State())
    {
      var k := AddConst(StrConst(x, n));
      if k.None? { return false; }
      builder.EmitOpcode(SET_GLOBAL, line);
      builder.EmitHalf(k.value);
      builder.EmitByte(Reg(s));
      assert builder.code == old(builder.code) + StoreName(k.value, s);
      ok := true;
    }

    /** `emitOptionalGuard` */
    method EmitOptionalGuard(optional: bool, s: nat, line: nat)
      requires |builder.lines| == |builder.code|
      modifies this`optionalJumps, builder
      ensures Wrote(Out(GuardCode(optional, s, |old(builder.code)|, old(Here())), old(builder.constants), 0, true),
              old(builder.State()), builder.State())
      ensures optionalJumps == Pending(old(optionalJumps), GuardAt(optional, |old(builder.code)|))
    {
      if optional && optionalJumps.Some? {
        var at := Branch(JMP_IF_NULLISH, s, line);
        optionalJumps := Some(optionalJumps.value + [at]);
      } else {
        assert builder.code + [] == builder.code;
        PendingNone(optionalJumps);
      }
    }

    // ---- expressions ----

    /** What compiling `e` promises: fails exactly when the pool would outgrow its limit, else emits
        the code of `e`, returns the register it started at, leaves the pointer one above it, counts
        the registers used, and adds its guards to the pending ones. */
    twostate predicate Compiles(e: Expr, ok: bool, r: nat)
      reads this, builder
    {
      var o := old(Next(e));
      && (ok <==> |o.pool| <= MAX_POOL)
      && (ok ==>
            && Valid() && r == old(sp) && sp == r + 1 && maxRegs == Max(old(maxRegs), o.top)
            && Wrote(o, old(builder.State()), builder.State())
            && optionalJumps == Pending(old(optionalJumps), GuardsOf(e, |old(builder.code)|)))
    }

    method CompileUnary(e: Expr, line: nat) returns (ok: bool, r: nat)
      requires Valid() && e.Unary? && Next(e).top <= 255
      modifies this, builder
      ensures Compiles(e, ok, r)
      decreases e, 1
    {
      hide Texts, Gen, GuardsOf, Size, Three, Two, Four, BranchTo, JumpTo, LoadName, StoreName, GetStatic, SetStatic,
          GuardCode, Pooled, PoolIndex, Enc16, Jump16, FitsI16, Pending;
      r := 0;
      ghost var s, at, g, pool, js := sp, |builder.code|, Here(), builder.constants, optionalJumps;
      ghost var pre := builder.code;
      ghost var ch := InChain(g);
      UnaryGen(x, e, s, at, g, pool);
      GenFacts(x, e.e, s, at, g, pool);
      ok, r := CompileExpr(e.e, line);
      if !ok { return; }
      sp := r;
      sp := sp + 1;
      Instr3(e.uop, r, r, line);
    }

    method CompileVoid(e: Expr, line: nat) returns (ok: bool, r: nat)
      requires Valid() && e.Void? && Next(e).top <= 255
      modifies this, builder
      ensures Compiles(e, ok, r)
      decreases e, 1
    {
      hide Texts, Gen, GuardsOf, Size, Three, Two, Four, BranchTo, JumpTo, LoadName, StoreName, GetStatic, SetStatic,
          GuardCode, Pooled, PoolIndex, Enc16, Jump16, FitsI16, Pending;
      r := 0;
      ghost var s, at, g, pool, js := sp, |builder.code|, Here(), builder.constants, optionalJumps;
      ghost var pre := builder.code;
      ghost var ch := InChain(g);
      VoidGen(x, e, s, at, g, pool);
      GenFacts(x, e.e, s, at, g, pool);
      ok, r := CompileExpr(e.e, line);
      if !ok { return; }
      FreeReg();
      r := AllocReg();
      Instr2(LOAD_UNDEF, r, line);
    }

    method CompileBinary(e: Expr, line: nat) returns (ok: bool, r: nat)
      requires Valid() && e.Binary? && Next(e).top <= 255
      modifies this, builder
      ensures Compiles(e, ok, r)
      decreases e, 1
    {
      hide Texts, Gen, GuardsOf, Size, Three, Two, Four, BranchTo, JumpTo, LoadName, StoreName, GetStatic, SetStatic,
          GuardCode, Pooled, PoolIndex, Enc16, Jump16, FitsI16, Pending;
      r := 0;
      ghost var s, at, g, pool, js := sp, |builder.code|, Here(), builder.constants, optionalJumps;
      ghost var pre := builder.code;
      ghost var ch := InChain(g);
      BinaryGen(x, e, s, at, g, pool);
      ghost var l := Gen(x, e.l, s, at, g, pool);
      GenFacts(x, e.l, s, at, g, pool);
      GenFacts(x, e.r, s + 1, at + Size(e.l, ch), g, l.pool);
      var rlhs, rrhs;
      ok, rlhs := CompileExpr(e.l, line);
      if !ok { return; }
      ok, rrhs := CompileExpr(e.r, line);
      if !ok { return; }
      PendingAdd(js, GuardsOf(e.l, at), GuardsOf(e.r, at + Size(e.l, ch)));
      sp := rlhs;
      sp := sp + 1;
      Instr4(e.bop, rlhs, rlhs, rrhs, line);
      r := rlhs;
      Assoc(pre, l.code, Gen(x, e.r, s + 1, at + Size(e.l, ch), g, l.pool).code, Four(e.bop, s, s, s + 1), []);
    }

    method CompileLogical(e: Expr, line: nat) returns (ok: bool, r: nat)
      requires Valid() && e.Logical? && Next(e).top <= 255
      modifies this, builder
      ensures Compiles(e, ok, r)
      decreases e, 1
    {
      hide Texts, Gen, GuardsOf, Size, Three, Two, Four, BranchTo, JumpTo, LoadName, StoreName, GetStatic, SetStatic,
          GuardCode, Pooled, PoolIndex, Enc16, Jump16, FitsI16, Pending;
      r := 0;
      ghost var s, at, g, pool, js := sp, |builder.code|, Here(), builder.constants, optionalJumps;
      ghost var pre := builder.code;
      ghost var ch := InChain(g);
      LogicalGen(x, e, s, at, g, pool);
      ghost var l := Gen(x, e.l, s, at, g, pool);
      ghost var at2 := at + Size(e.l, ch) + 4;
      ghost var o := Gen(x, e.r, s, at2, g, l.pool);
      GenFacts(x, e.l, s, at, g, pool);
      GenFacts(x, e.r, s, at2, g, l.pool);
      var rlhs, rrhs;
      ok, rlhs := CompileExpr(e.l, line);
      if !ok { return; }
      var patch := Branch(e.skip, rlhs, line);
      FreeReg();
      ok, rrhs := CompileExpr(e.r, line);
      if !ok { return; }
      PendingAdd(js, GuardsOf(e.l, at), GuardsOf(e.r, at2));
      // the right side always lands in the left side's register, so no MOVE is emitted
      assert rrhs == rlhs;
      BranchIs(e.skip, rlhs, |o.code|);
      BranchCode(pre, l.code, Two(e.skip, rlhs), o.code, Jump16(|o.code|));
      PatchHere(patch, pre + l.code + Two(e.skip, rlhs), o.code);
      r := rlhs;
    }

    /** The then branch of a conditional, the jump over the else branch, and the else jump patched to
        what follows; `head` is the code up to the displacement of the else jump. */
    method CompileThen(e: Expr, patchElse: nat, ghost head: Code, line: nat) returns (ok: bool, r: nat, patchEnd: nat)
      requires Valid() && Next(e).top <= 255 && builder.code == head + Enc16(0) && patchElse == |head|
      modifies this, builder
      ensures var o := old(Next(e));
              && (ok <==> |o.pool| <= MAX_POOL)
              && (ok ==>
                    && Valid() && r == old(sp) && sp == r + 1 && maxRegs == Max(old(maxRegs), o.top)
                    && builder.code == (head + Jump16(|o.code| + 3) + o.code + [JMP as Byte]) + Enc16(0)
                         && builder.constants == o.pool
                    && patchEnd == |builder.code| - 2
                    && builder.jumpOverflow == (old(builder.jumpOverflow) || !o.fits || !FitsI16(|o.code| + 3))
                    && old(builder.lines) <= builder.lines && |builder.lines| == |builder.code|
                    && optionalJumps == Pending(old(optionalJumps), GuardsOf(e, |old(builder.code)|)))
      decreases e, 3
    {
      hide Texts, Gen, GuardsOf, Size, Three, Two, Four, BranchTo, JumpTo, LoadName, StoreName, GetStatic, SetStatic,
          GuardCode, Pooled, PoolIndex, Enc16, Jump16, FitsI16, Pending;
      ghost var o := Next(e);
      patchEnd := 0;
      ok, r := CompileExpr(e, line);
      if !ok { return; }
      patchEnd := Jump(line);
      ghost var tail := o.code + [JMP as Byte] + Enc16(0);
      ThenCode(head, o.code, Jump16(|o.code| + 3));
      PatchHere(patchElse, head, tail);
    }

    /** The test of a conditional and the branch taken when it is false. */
    method CompileTest(e: Expr, line: nat) returns (ok: bool, patchElse: nat)
      requires Valid() && Next(e).top <= 255
      modifies this, builder
      ensures var o := old(Next(e));
              && (ok <==> |o.pool| <= MAX_POOL)
              && (ok ==>
                    && Valid() && sp == old(sp) && maxRegs == Max(old(maxRegs), o.top)
                    && builder.code == old(builder.code) + o.code + Two(JMP_IF_FALSE, sp) + Enc16(0)
                         && builder.constants == o.pool
                    && patchElse == |builder.code| - 2 && builder.jumpOverflow == (old(builder.jumpOverflow) || !o.fits)
                    && old(builder.lines) <= builder.lines
                    && optionalJumps == Pending(old(optionalJumps), GuardsOf(e, |old(builder.code)|)))
      decreases e, 3
    {
      hide Texts, Gen, GuardsOf, Two, Pending;
      patchElse := 0;
      ghost var o := Next(e);
      ghost var pre := builder.code;
      var rcond;
      ok, rcond := CompileExpr(e, line);
      if !ok { return; }
      FreeReg();
      patchElse := Branch(JMP_IF_FALSE, rcond, line);
      assert pre + o.code + (Two(JMP_IF_FALSE, sp) + Enc16(0)) == pre + o.code + Two(JMP_IF_FALSE, sp) + Enc16(0);
    }

    /** The else branch, in the register of the then branch, and the jump over it patched to its end. */
    method CompileElse(e: Expr, patchEnd: nat, ghost head: Code, line: nat) returns (ok: bool, r: nat)
      requires Valid() && sp > 0 && builder.code == head + Enc16(0) && patchEnd == |head|
      requires Gen(x, e, sp - 1, |builder.code|, Here(), builder.constants).top <= 255
      modifies this, builder
      ensures var o := old(Gen(x, e, sp - 1, |builder.code|, Here(), builder.constants));
              && (ok <==> |o.pool| <= MAX_POOL)
              && (ok ==>
                    && Valid() && r == old(sp) - 1 && sp == r + 1 && maxRegs == Max(old(maxRegs), o.top)
                    && builder.code == head + Jump16(|o.code|) + o.code && builder.constants == o.pool
                    && builder.jumpOverflow == (old(builder.jumpOverflow) || !o.fits || !FitsI16(|o.code|))
                    && old(builder.lines) <= builder.lines && |builder.lines| == |builder.code|
                    && optionalJumps == Pending(old(optionalJumps), GuardsOf(e, |old(builder.code)|)))
      decreases e, 3
    {
      hide Texts, Gen, GuardsOf, Enc16, Jump16, FitsI16, Pending;
      FreeReg();
      ghost var o := Next(e);
      ok, r := CompileExpr(e, line);
      if !ok { return; }
      PatchHere(patchEnd, head, o.code);
    }

    method CompileCond(e: Expr, line: nat) returns (ok: bool, r: nat)
      requires Valid() && e.Cond? && Next(e).top <= 255
      modifies this, builder
      ensures Compiles(e, ok, r)
      decreases e, 1
    {
      hide Texts, Gen, GuardsOf, Size, Three, Two, Four, BranchTo, JumpTo, LoadName, StoreName, GetStatic, SetStatic,
          GuardCode, Pooled, PoolIndex, Enc16, Jump16, FitsI16, Pending;
      r := 0;
      ghost var s, at, g, pool, js := sp, |builder.code|, Here(), builder.constants, optionalJumps;
      ghost var pre := builder.code;
      ghost var ch := InChain(g);
      CondGen(x, e, s, at, g, pool);
      ghost var a2 := at + Size(e.test, ch) + 4;
      ghost var a3 := a2 + Size(e.yes, ch) + 3;
      ghost var c := Gen(x, e.test, s, at, g, pool);
      ghost var t := Gen(x, e.yes, s, a2, g, c.pool);
      ghost var f := Gen(x, e.no, s, a3, g, t.pool);
      GenFacts(x, e.test, s, at, g, pool);
      GenFacts(x, e.yes, s, a2, g, c.pool);
      GenFacts(x, e.no, s, a3, g, t.pool);
      var patchElse, relse, patchEnd;
      ok, patchElse := CompileTest(e.test, line);
      if !ok { return; }
      ghost var head := pre + c.code + Two(JMP_IF_FALSE, s);
      CondCode(pre, c.code, Two(JMP_IF_FALSE, s), t.code, f.code, Jump16(|t.code| + 3), Jump16(|f.code|));
      ok, r, patchEnd := CompileThen(e.yes, patchElse, head, line);
      if !ok { return; }
      PendingAdd(js, GuardsOf(e.test, at), GuardsOf(e.yes, a2));
      ghost var upTo := head + Jump16(|t.code| + 3) + t.code + [JMP as Byte];
      ok, relse := CompileElse(e.no, patchEnd, upTo, line);
      if !ok { return; }
      PendingAdd(js, GuardsOf(e.test, at) + GuardsOf(e.yes, a2), GuardsOf(e.no, a3));
      // both branches land in the same register, so no MOVE is emitted
      assert relse == r;
      BranchIs(JMP_IF_FALSE, s, |t.code| + 3);
      JumpIs(|f.code|);
    }

    /** A fresh register loaded with a constant, or with the variable of that name. */
    method CompileLoad(op: Byte, c: Const, line: nat) returns (ok: bool, r: nat)
      requires Valid() && sp < 255
      modifies this, builder
      ensures ok <==> |Pooled(old(builder.constants), c)| <= MAX_POOL
      ensures ok ==>
              Valid() && r == old(sp) && sp == r + 1 && maxRegs == Max(old(maxRegs), sp)
              && optionalJumps == old(optionalJumps)
      ensures ok ==> Wrote(Literal(op, c, r, old(builder.constants)), old(builder.State()), builder.State())
    {
      hide LoadName, Pooled, PoolIndex;
      r := AllocReg();
      ok := LoadConst(op, c, r, line);
    }

    /** `x++` and the like on a variable, and `x = x + 1` by the peephole. */
    method CompileStep(op: int, n: string, line: nat) returns (ok: bool, r: nat)
      requires Valid() && sp < 255
      modifies this, builder
      ensures var o := StepCode(x, op, n, old(sp), old(builder.constants));
              && (ok <==> |o.pool| <= MAX_POOL)
              && (ok ==>
                   Valid() && r == old(sp) && sp == r + 1 && maxRegs == Max(old(maxRegs), sp)
                   && optionalJumps == old(optionalJumps)
                         && Wrote(o, old(builder.State()), builder.State()))
    {
      hide LoadName, StoreName, Three, Pooled, PoolIndex;
      ghost var p := PoolName(x, n, builder.constants);
      PoolGrows(p, StrConst(x, n));
      ok, r := CompileLoad(GET_GLOBAL, StrConst(x, n), line);
      if !ok { return; }
      Instr3(op, r, r, line);
      ok := EmitStore(n, r, line);
    }

    /** `x++`: the old value, made numeric, stays in the result register. */
    method CompilePostfix(op: int, n: string, line: nat) returns (ok: bool, r: nat)
      requires Valid() && sp < 254
      modifies this, builder
      ensures var o := PostfixCode(x, op, n, old(sp), old(builder.constants));
              && (ok <==> |o.pool| <= MAX_POOL)
              && (ok ==>
                   Valid() && r == old(sp) && sp == r + 1 && maxRegs == Max(old(maxRegs), sp + 1)
                   && optionalJumps == old(optionalJumps)
                         && Wrote(o, old(builder.State()), builder.State()))
    {
      hide LoadName, StoreName, Three, Pooled, PoolIndex;
      ghost var p := PoolName(x, n, builder.constants);
      PoolGrows(p, StrConst(x, n));
      ok, r := CompileLoad(GET_GLOBAL, StrConst(x, n), line);
      if !ok { return; }
      Instr3(TO_NUMERIC, r, r, line);
      var scratch := AllocReg();
      Instr3(op, scratch, r, line);
      ok := EmitStore(n, scratch, line);
      if !ok { return; }
      FreeReg();
    }

    method CompileAssign(e: Expr, line: nat) returns (ok: bool, r: nat)
      requires Valid() && e.Assign? && Next(e).top <= 255
      modifies this, builder
      ensures Compiles(e, ok, r)
      decreases e, 1
    {
      hide Texts, Gen, GuardsOf, Size, Three, Two, Four, BranchTo, JumpTo, LoadName, StoreName, GetStatic, SetStatic,
          GuardCode, Pooled, PoolIndex, Enc16, Jump16, FitsI16, Pending;
      r := 0;
      ghost var s, at, g, pool, js := sp, |builder.code|, Here(), builder.constants, optionalJumps;
      ghost var pre := builder.code;
      ghost var ch := InChain(g);
      AssignGen(x, e, s, at, g, pool);
      if IsStep(e.target, e.value) {
        PendingNone(js);
        ok, r := CompileStep(if e.value.bop == ADD then INC else DEC, e.target, line);
      } else {
        ghost var v := Gen(x, e.value, s, at, g, pool);
        GenFacts(x, e.value, s, at, g, pool);
        PoolGrows(v.pool, StrConst(x, e.target));
        ok, r := CompileExpr(e.value, line);
        if !ok { return; }
        ok := EmitStore(e.target, r, line);
      }
    }

    method CompileCompound(e: Expr, line: nat) returns (ok: bool, r: nat)
      requires Valid() && e.Compound? && Next(e).top <= 255
      modifies this, builder
      ensures Compiles(e, ok, r)
      decreases e, 1
    {
      hide Texts, Gen, GuardsOf, Size, Three, Two, Four, BranchTo, JumpTo, LoadName, StoreName, GetStatic, SetStatic,
          GuardCode, Pooled, PoolIndex, Enc16, Jump16, FitsI16, Pending;
      r := 0;
      ghost var s, at, g, pool, js := sp, |builder.code|, Here(), builder.constants, optionalJumps;
      ghost var pre := builder.code;
      ghost var ch := InChain(g);
      CompoundGen(x, e, s, at, g, pool);
      ghost var p := PoolName(x, e.target, pool);
      ghost var v := Gen(x, e.value, s + 1, at + 4, g, p);
      GenFacts(x, e.value, s + 1, at + 4, g, p);
      PoolGrows(pool, StrConst(x, e.target));
      PoolGrows(v.pool, StrConst(x, e.target));
      var rcur, rrhs;
      ok, rcur := CompileLoad(GET_GLOBAL, StrConst(x, e.target), line);
      if !ok { return; }
      ok, rrhs := CompileExpr(e.value, line);
      if !ok { return; }
      sp := rcur;
      sp := sp + 1;
      Instr4(e.bop, rcur, rcur, rrhs, line);
      ok := EmitStore(e.target, rcur, line);
      r := rcur;
      Assoc(pre, LoadName(GET_GLOBAL, s, NameIndex(x, e.target, pool)), v.code, Four(e.bop, s, s, s + 1),
        StoreName(NameIndex(x, e.target, v.pool), s));
    }

    method CompileLogicalAssign(e: Expr, line: nat) returns (ok: bool, r: nat)
      requires Valid() && e.LogicalAssign? && Next(e).top <= 255
      modifies this, builder
      ensures Compiles(e, ok, r)
      decreases e, 1
    {
      hide Texts, Gen, GuardsOf, Size, Three, Two, Four, BranchTo, JumpTo, LoadName, StoreName, GetStatic, SetStatic,
          GuardCode, Pooled, PoolIndex, Enc16, Jump16, FitsI16, Pending, NameIndex;
      r := 0;
      ghost var s, at, g, pool, js := sp, |builder.code|, Here(), builder.constants, optionalJumps;
      ghost var pre := builder.code;
      ghost var ch := InChain(g);
      LogicalAssignGen(x, e, s, at, g, pool);
      NameIs(x, e.target, pool);
      ghost var p := PoolName(x, e.target, pool);
      ghost var v := Gen(x, e.value, s, at + 8, g, p);
      ghost var ld, sv := LoadName(GET_GLOBAL, s, NameIndex(x, e.target, pool)),
          StoreName(NameIndex(x, e.target, v.pool), s);
      GenFacts(x, e.value, s, at + 8, g, p);
      PoolGrows(pool, StrConst(x, e.target));
      PoolGrows(v.pool, StrConst(x, e.target));
      var rcur, rrhs;
      ok, rcur := CompileLoad(GET_GLOBAL, StrConst(x, e.target), line);
      if !ok { return; }
      var patch := Branch(e.skip, rcur, line);
      FreeReg();
      ok, rrhs := CompileExpr(e.value, line);
      if !ok { return; }
      ok := EmitStore(e.target, rrhs, line);
      if !ok { return; }
      // the value lands in the target's register, so no MOVE is emitted
      assert rrhs == rcur;
      BranchIs(e.skip, rcur, |v.code| + 4);
      SkipCode(pre, ld, Two(e.skip, rcur), v.code, sv, Jump16(|v.code| + 4));
      PatchHere(patch, pre + ld + Two(e.skip, rcur), v.code + sv);
      r := rcur;
    }

    method CompileSequence(e: Expr, line: nat) returns (ok: bool, r: nat)
      requires Valid() && e.Sequence? && Next(e).top <= 255
      modifies this, builder
      ensures Compiles(e, ok, r)
      decreases e, 1
    {
      hide Texts, Gen, GuardsOf, Size, Three, Two, Four, BranchTo, JumpTo, LoadName, StoreName, GetStatic, SetStatic,
          GuardCode, Pooled, PoolIndex, Enc16, Jump16, FitsI16, Pending, GenRest, ArgsGuards;
      r := 0;
      ghost var s, at, g, pool, js := sp, |builder.code|, Here(), builder.constants, optionalJumps;
      ghost var pre := builder.code;
      ghost var ch := InChain(g);
      SequenceGen(x, e, s, at, g, pool);
      ghost var a := Gen(x, e.first, s, at, g, pool);
      ghost var at2 := at + Size(e.first, ch);
      ghost var all := GenRest(x, e.rest, s, at2, g, a.pool);
      GenFacts(x, e.first, s, at, g, pool);
      RestFacts(x, e.rest, s, at2, g, a.pool);
      ok, r := CompileExpr(e.first, line);
      if !ok { return; }
      ok := CompileRest(e.rest, r, line);
      if ok { PendingAdd(js, GuardsOf(e.first, at), ArgsGuards(e.rest, at2)); }
    }

    /** The rest of a sequence: every value but the last is discarded, so all use one register. */
    method CompileRest(rest: Args, r: nat, line: nat) returns (ok: bool)
      requires Valid() && sp == r + 1
      requires GenRest(x, rest, r, |builder.code|, Here(), builder.constants).top <= 255
      modifies this, builder
      ensures var o := GenRest(x, rest, r, |old(builder.code)|, old(Here()), old(builder.constants));
              && (ok <==> |o.pool| <= MAX_POOL)
              && (ok ==> Valid() && sp == r + 1 && maxRegs == Max(old(maxRegs), o.top)
                         && Wrote(o, old(builder.State()), builder.State())
                         && optionalJumps == Pending(old(optionalJumps), ArgsGuards(rest, |old(builder.code)|)))
      decreases rest, 3
    {
      hide Texts, Gen, GuardsOf, Size, Three, Two, Four, BranchTo, JumpTo, LoadName, StoreName, GetStatic, SetStatic,
          GuardCode, Pooled, PoolIndex, Enc16, Jump16, FitsI16, Pending;
      match rest
      case Nil =>
        PendingNone(optionalJumps);
        assert builder.code + [] == builder.code;
        ok := true;
      case Cons(e, more) =>
        ghost var at, g, pool, js := |builder.code|, Here(), builder.constants, optionalJumps;
        ghost var pre := builder.code;
        ghost var a := Gen(x, e, r, at, g, pool);
        ghost var at2 := at + Size(e, InChain(g));
        ghost var o := GenRest(x, more, r, at2, g, a.pool);
        GenFacts(x, e, r, at, g, pool);
        RestFacts(x, more, r, at2, g, a.pool);
        FreeReg();
        var r2;
        ok, r2 := CompileExpr(e, line);
        if !ok { return; }
        ok := CompileRest(more, r2, line);
        if ok {
          PendingAdd(js, GuardsOf(e, at), ArgsGuards(more, at2));
          assert pre + a.code + o.code == pre + (a.code + o.code);
        }
    }

    /** Each argument into the next register. */
    method CompileArgs(args: Args, line: nat) returns (ok: bool)
      requires Valid() && GenArgs(x, args, sp, |builder.code|, Here(), builder.constants).top <= 255
      modifies this, builder
      ensures var o := GenArgs(x, args, old(sp), |old(builder.code)|, old(Here()), old(builder.constants));
              && (ok <==> |o.pool| <= MAX_POOL)
              && (ok ==> Valid() && sp == old(sp) + Count(args) && maxRegs == Max(old(maxRegs), o.top)
                         && Wrote(o, old(builder.State()), builder.State())
                         && optionalJumps == Pending(old(optionalJumps), ArgsGuards(args, |old(builder.code)|)))
      decreases args, 3
    {
      hide Texts, Gen, GuardsOf, Size, Three, Two, Four, BranchTo, JumpTo, LoadName, StoreName, GetStatic, SetStatic,
          GuardCode, Pooled, PoolIndex, Enc16, Jump16, FitsI16, Pending;
      match args
      case Nil =>
        PendingNone(optionalJumps);
        assert builder.code + [] == builder.code;
        ok := true;
      case Cons(e, more) =>
        ghost var s, at, g, pool, js := sp, |builder.code|, Here(), builder.constants, optionalJumps;
        ghost var pre := builder.code;
        ghost var a := Gen(x, e, s, at, g, pool);
        ghost var at2 := at + Size(e, InChain(g));
        ghost var o := GenArgs(x, more, s + 1, at2, g, a.pool);
        GenFacts(x, e, s, at, g, pool);
        ArgsFacts(x, more, s + 1, at2, g, a.pool);
        var r;
        ok, r := CompileExpr(e, line);
        if !ok { return; }
        ok := CompileArgs(more, line);
        if ok {
          PendingAdd(js, GuardsOf(e, at), ArgsGuards(more, at2));
          assert pre + a.code + o.code == pre + (a.code + o.code);
        }
    }

    /** The property read through the base in `robj`, key included. */
    method CompileAccess(m: Expr, robj: nat, line: nat) returns (ok: bool)
      requires Valid() && m.Member? && sp == robj + 1
      requires AccessTail(x, m, robj, |builder.code|, Here(), builder.constants).top <= 255
      modifies this, builder
      ensures var o := AccessTail(x, m, robj, |old(builder.code)|, old(Here()), old(builder.constants));
              && (ok <==> |o.pool| <= MAX_POOL)
              && (ok ==>
                    && Valid() && sp == robj + 1 && maxRegs == Max(old(maxRegs), o.top)
                    && Wrote(o, old(builder.State()), builder.State())
                    && optionalJumps == Pending(old(optionalJumps), AccessGuards(m, |old(builder.code)|)))
      decreases m, 0
    {
      hide Texts, Gen, GuardsOf, Size, Three, Two, Four, BranchTo, JumpTo, LoadName, StoreName, GetStatic, SetStatic,
          GuardCode, Pooled, PoolIndex, Enc16, Jump16, FitsI16, Pending;
      if StaticSize(m.key) {
        PendingNone(optionalJumps);
        var k := AddConst(StrConst(x, KeyName(x, m.key)));
        if k.None? { return false; }
        EmitGetStatic(robj, k.value, line);
        ok := true;
      } else {
        GenFacts(x, m.key.e, sp, |builder.code|, Here(), builder.constants);
        var rkey;
        ok, rkey := CompileExpr(m.key.e, line);
        if !ok { return; }
        sp := robj;
        sp := sp + 1;
        Instr4(GET_PROP_DYN, robj, robj, rkey, line);
      }
    }

    method CompileMember(e: Expr, line: nat) returns (ok: bool, r: nat)
      requires Valid() && e.Member? && Next(e).top <= 255
      modifies this, builder
      ensures Compiles(e, ok, r)
      decreases e, 1
    {
      hide Texts, Gen, GuardsOf, Size, Three, Two, Four, BranchTo, JumpTo, LoadName, StoreName, GetStatic, SetStatic,
          GuardCode, Pooled, PoolIndex, Enc16, Jump16, FitsI16, Pending, AccessTail, AccessGuards;
      r := 0;
      ghost var s, at, g, pool, js := sp, |builder.code|, Here(), builder.constants, optionalJumps;
      ghost var pre := builder.code;
      ghost var here := at + Size(e.obj, InChain(g));
      ghost var go := here + GuardSize(e.optional, InChain(g));
      ghost var o := Gen(x, e.obj, s, at, g, pool);
      GenFacts(x, e.obj, s, at, g, pool);
      MemberTail(x, e, s, at, g, pool);
      ok, r := CompileExpr(e.obj, line);
      if !ok { return; }
      EmitOptionalGuard(e.optional, r, line);
      PendingAdd(js, GuardsOf(e.obj, at), GuardAt(e.optional, here));
      ok := CompileAccess(e, r, line);
      if !ok { return; }
      PendingAdd(js, GuardsOf(e.obj, at) + GuardAt(e.optional, here), AccessGuards(e, go));
      Assoc(pre, o.code, GuardCode(e.optional, s, here, g), AccessTail(x, e, s, go, g, o.pool).code, []);
    }

    method EmitGetStatic(s: nat, k: nat, line: nat)
      requires |builder.lines| == |builder.code|
      modifies builder
      ensures Wrote(Out(GetStatic(s, k), old(builder.constants), 0, true), old(builder.State()), builder.State())
    {
      builder.EmitOpcode(GET_PROP, line);
      builder.EmitByte(Reg(s));
      builder.EmitByte(Reg(s));
      builder.EmitHalf(k);
      assert builder.code == old(builder.code) + GetStatic(s, k);
    }

    method EmitSetStatic(o: nat, k: nat, v: nat, line: nat)
      requires |builder.lines| == |builder.code|
      modifies builder
      ensures Wrote(Out(SetStatic(o, k, v), old(builder.constants), 0, true), old(builder.State()), builder.State())
    {
      builder.EmitOpcode(SET_PROP, line);
      builder.EmitByte(Reg(o));
      builder.EmitHalf(k);
      builder.EmitByte(Reg(v));
      assert builder.code == old(builder.code) + SetStatic(o, k, v);
    }

    /** The key and the value of an assignment, and the store through the base below them. */
    method CompileStore(m: Expr, robj: nat, line: nat) returns (ok: bool, rhs: nat)
      requires Valid() && m.AssignMember? && sp == robj + 1
      requires StoreTail(x, m, robj, |builder.code|, Here(), builder.constants).top <= 255
      modifies this, builder
      ensures var o := StoreTail(x, m, robj, |old(builder.code)|, old(Here()), old(builder.constants));
              && (ok <==> |o.pool| <= MAX_POOL)
              && (ok ==>
                    && Valid() && rhs == ValueReg(m, robj) && maxRegs == Max(old(maxRegs), o.top)
                    && Wrote(o, old(builder.State()), builder.State())
                    && optionalJumps == Pending(old(optionalJumps), StoreGuards(m, |old(builder.code)|)))
      decreases m, 0
    {
      hide Texts, Gen, GuardsOf, Size, Three, Two, Four, BranchTo, JumpTo, LoadName, StoreName, GetStatic, SetStatic,
          GuardCode, Pooled, PoolIndex, Enc16, Jump16, FitsI16, Pending;
      rhs := 0;
      ghost var at, g, pool, js := |builder.code|, Here(), builder.constants, optionalJumps;
      if StaticSize(m.key) {
        GenFacts(x, m.value, sp, at, g, PoolName(x, KeyName(x, m.key), pool));
        var k := AddConst(StrConst(x, KeyName(x, m.key)));
        if k.None? { return false, 0; }
        ok, rhs := CompileExpr(m.value, line);
        if !ok { return; }
        EmitSetStatic(robj, k.value, rhs, line);
      } else {
        ghost var k := Gen(x, m.key.e, sp, at, g, pool);
        ghost var at2 := at + Size(m.key.e, InChain(g));
        GenFacts(x, m.key.e, sp, at, g, pool);
        GenFacts(x, m.value, sp + 1, at2, g, k.pool);
        var rkey;
        ok, rkey := CompileExpr(m.key.e, line);
        if !ok { return; }
        ok, rhs := CompileExpr(m.value, line);
        if !ok { return; }
        PendingAdd(js, GuardsOf(m.key.e, at), GuardsOf(m.value, at2));
        Instr4(SET_PROP_DYN, robj, rkey, rhs, line);
      }
    }

    method CompileAssignMember(e: Expr, line: nat) returns (ok: bool, r: nat)
      requires Valid() && e.AssignMember? && Next(e).top <= 255
      modifies this, builder
      ensures Compiles(e, ok, r)
      decreases e, 1
    {
      hide Texts, Gen, GuardsOf, Size, Three, Two, Four, BranchTo, JumpTo, LoadName, StoreName, GetStatic, SetStatic,
          GuardCode, Pooled, PoolIndex, Enc16, Jump16, FitsI16, Pending, StoreTail, StoreGuards, ValueReg;
      r := 0;
      ghost var s, at, g, pool, js := sp, |builder.code|, Here(), builder.constants, optionalJumps;
      ghost var pre := builder.code;
      ghost var here := at + Size(e.obj, InChain(g));
      ghost var o := Gen(x, e.obj, s + 1, at, g, pool);
      GenFacts(x, e.obj, s + 1, at, g, pool);
      AssignMemberTail(x, e, s, at, g, pool);
      // the result slot is reserved before the base and the key
      var rres := AllocReg();
      var robj, rhs;
      ok, robj := CompileExpr(e.obj, line);
      if !ok { return; }
      ok, rhs := CompileStore(e, robj, line);
      if !ok { return; }
      PendingAdd(js, GuardsOf(e.obj, at), StoreGuards(e, here));
      Instr3(MOVE, rres, rhs, line);
      Assoc(pre, o.code, StoreTail(x, e, s + 1, here, g, o.pool).code, Three(MOVE, rres, rhs), []);
      sp := rres + 1;
      r := rres;
    }

    /** The arguments of a call whose callee is in `base`, and the call. */
    method CompileInvoke(e: Expr, base: nat, line: nat) returns (ok: bool)
      requires Valid() && e.Call? && sp == base + 1
      requires CallTail(x, e, base, |builder.code|, Here(), builder.constants).top <= 255
      modifies this, builder
      ensures var o := CallTail(x, e, base, |old(builder.code)|, old(Here()), old(builder.constants));
              && (ok <==> |o.pool| <= MAX_POOL)
              && (ok ==>
                    && Valid() && sp == base + 1 && maxRegs == Max(old(maxRegs), o.top)
                    && Wrote(o, old(builder.State()), builder.State())
                    && optionalJumps == Pending(old(optionalJumps), ArgsGuards(e.args, |old(builder.code)|)))
      decreases e, 0
    {
      hide Texts, Gen, GuardsOf, Size, Three, Two, Four, BranchTo, JumpTo, LoadName, StoreName, GetStatic, SetStatic,
          GuardCode, Pooled, PoolIndex, Enc16, Jump16, FitsI16, Pending, GenArgs, ArgsGuards;
      ok := CompileArgs(e.args, line);
      if !ok { return; }
      Instr4(CALL, base, Count(e.args), base, line);
      sp := base + 1;
    }

    method CompileCall(e: Expr, line: nat) returns (ok: bool, r: nat)
      requires Valid() && e.Call? && Next(e).top <= 255
      modifies this, builder
      ensures Compiles(e, ok, r)
      decreases e, 1
    {
      hide Texts, Gen, GuardsOf, Size, Three, Two, Four, BranchTo, JumpTo, LoadName, StoreName, GetStatic, SetStatic,
          GuardCode, Pooled, PoolIndex, Enc16, Jump16, FitsI16, Pending, CallTail, ArgsGuards;
      r := 0;
      ghost var s, at, g, pool, js := sp, |builder.code|, Here(), builder.constants, optionalJumps;
      ghost var pre := builder.code;
      ghost var here := at + Size(e.callee, InChain(g));
      ghost var go := here + GuardSize(e.optional, InChain(g));
      ghost var c := Gen(x, e.callee, s, at, g, pool);
      GenFacts(x, e.callee, s, at, g, pool);
      CallParts(x, e, s, at, g, pool);
      var base := sp;
      var callee := AllocReg();
      var saved := sp;
      sp := base;
      ok, callee := CompileExpr(e.callee, line);
      if !ok { return; }
      sp := saved;
      EmitOptionalGuard(e.optional, base, line);
      PendingAdd(js, GuardsOf(e.callee, at), GuardAt(e.optional, here));
      ok := CompileInvoke(e, base, line);
      if !ok { return; }
      PendingAdd(js, GuardsOf(e.callee, at) + GuardAt(e.optional, here), ArgsGuards(e.args, go));
      Assoc(pre, c.code, GuardCode(e.optional, s, here, g), CallTail(x, e, s, go, g, c.pool).code, []);
      r := base;
    }

    /** Point every recorded guard to the pad. */
    method PatchGuards(jumps: seq<nat>, pad: nat)
      requires Inside(jumps, 0, |builder.code|)
      modifies builder
      ensures builder.code == WriteAll(old(builder.code), jumps, pad)
      ensures builder.constants == old(builder.constants) && builder.lines == old(builder.lines)
              && |builder.code| == |old(builder.code)|
      ensures builder.jumpOverflow == (old(builder.jumpOverflow) || !AllFit(jumps, pad))
    {
      var i := 0;
      while i < |jumps|
        invariant 0 <= i <= |jumps|
        invariant builder.code == WriteAll(old(builder.code), jumps[..i], pad)
        invariant builder.constants == old(builder.constants) && builder.lines == old(builder.lines)
                  && |builder.code| == |old(builder.code)|
        invariant builder.jumpOverflow == (old(builder.jumpOverflow) || !AllFit(jumps[..i], pad))
      {
        assert jumps[..i + 1] == jumps[..i] + [jumps[i]];
        WriteAppend(old(builder.code), jumps[..i], [jumps[i]], pad);
        FitAppend(jumps[..i], [jumps[i]], pad);
        WriteSingle(builder.code, jumps[i], pad);
        builder.Patch(jumps[i], pad);
        i := i + 1;
      }
      assert jumps[..i] == jumps;
    }

    /** The links of a chain jump to a pad behind its code; a nested chain has its own list. */
    method CompileChain(e: Expr, line: nat) returns (ok: bool, r: nat)
      requires Valid() && e.Chain? && Next(e).top <= 255
      modifies this, builder
      ensures Compiles(e, ok, r)
      decreases e, 1
    {
      hide Texts, Gen, GuardsOf, Size, Three, Two, Four, BranchTo, JumpTo, LoadName, StoreName, GetStatic, SetStatic,
          GuardCode, Pooled, PoolIndex, Enc16, Jump16, FitsI16, Pending, Patches, Fills, WriteAll, Inside;
      ghost var s, at, pool := sp, |builder.code|, builder.constants;
      ghost var pre := builder.code;
      ghost var pad := at + Size(e.inner, true) + 3;
      ghost var gs := GuardsOf(e.inner, at);
      ghost var h, t := Gen(x, e.inner, s, at, Hole, pool), Gen(x, e.inner, s, at, To(pad), pool);
      ChainGen(x, e, s, at, Here(), pool);
      GenFacts(x, e.inner, s, at, Hole, pool);
      ChainPatch(x, e.inner, s, pre, pool, pad);
      var saved := optionalJumps;
      optionalJumps := Some([]);
      ok, r := CompileExpr(e.inner, line);
      if !ok { return; }
      var jumps := optionalJumps.value;
      PendingFirst(gs);
      var patchEnd := Jump(line);
      PatchGuards(jumps, |builder.code|);
      Instr2(LOAD_UNDEF, r, line);
      ChainCode(pre, t.code, Two(LOAD_UNDEF, r));
      PatchHere(patchEnd, pre + t.code + [JMP as Byte], Two(LOAD_UNDEF, r));
      optionalJumps := saved;
      PendingNone(saved);
    }

    /** `compileExpr` */
    method CompileExpr(e: Expr, line: nat) returns (ok: bool, r: nat)
      requires Valid() && Next(e).top <= 255
      modifies this, builder
      ensures Compiles(e, ok, r)
      decreases e, 2
    {
      hide Texts, Size, Three, Two, LoadName, Pooled, PoolIndex, StepCode, PostfixCode, Compiles,
        GenUnary, GenVoid, GenBinary, GenLogical, GenCond, GenSequence, GenAssign, GenCompound, GenLogicalAssign,
        GenMember, GenAssignMember, GenChain, GenCall;
      r := 0;
      match e
      case Unary(_, _) => ok, r := CompileUnary(e, line);
      case Void(_) => ok, r := CompileVoid(e, line);
      case Binary(_, _, _) => ok, r := CompileBinary(e, line);
      case Logical(_, _, _) => ok, r := CompileLogical(e, line);
      case Cond(_, _, _) => ok, r := CompileCond(e, line);
      case Sequence(_, _) => ok, r := CompileSequence(e, line);
      case Assign(_, _) => ok, r := CompileAssign(e, line);
      case Compound(_, _, _) => ok, r := CompileCompound(e, line);
      case LogicalAssign(_, _, _) => ok, r := CompileLogicalAssign(e, line);
      case Member(_, _, _) => ok, r := CompileMember(e, line);
      case AssignMember(_, _, _) => ok, r := CompileAssignMember(e, line);
      case Chain(_) => ok, r := CompileChain(e, line);
      case Call(_, _, _) => ok, r := CompileCall(e, line);
      case _ => ok, r := CompileLeaf(e, line);
    }

    predicate IsLeaf(e: Expr)
    {
      e.Num? || e.Str? || e.Bool? || e.NullLit? || e.UndefLit? || e.Ident? || e.TypeofName? || e.Update?
    }

    /** Literals, variables, `typeof x`, and `x++` and its kin. */
    method CompileLeaf(e: Expr, line: nat) returns (ok: bool, r: nat)
      requires Valid() && IsLeaf(e) && Next(e).top <= 255
      modifies this, builder
      ensures Compiles(e, ok, r)
    {
      hide Texts, Size, Three, Two, LoadName, StoreName, Pooled, PoolIndex,
        GenUnary, GenVoid, GenBinary, GenLogical, GenCond, GenSequence, GenAssign, GenCompound, GenLogicalAssign,
        GenMember, GenAssignMember, GenChain, GenCall;
      ok, r := true, 0;
      PendingNone(optionalJumps);
      match e
      case Num(b) => ok, r := CompileLoad(LOAD_K, KNum(b), line);
      case Str(t) => ok, r := CompileLoad(LOAD_K, StrConst(x, t), line);
      case Bool(b) =>
        r := AllocReg();
        Instr2(if b then LOAD_TRUE else LOAD_FALSE, r, line);
      case NullLit =>
        r := AllocReg();
        Instr2(LOAD_NULL, r, line);
      case UndefLit =>
        r := AllocReg();
        Instr2(LOAD_UNDEF, r, line);
      case Ident(n) => ok, r := CompileLoad(GET_GLOBAL, StrConst(x, n), line);
      case TypeofName(n) =>
        ok, r := CompileLoad(GET_GLOBAL_OPT, StrConst(x, n), line);
        if ok { Instr3(TYPEOF, r, r, line); }
      case Update(inc, prefix, n) =>
        if prefix {
          ok, r := CompileStep(if inc then INC else DEC, n, line);
        } else {
          ok, r := CompilePostfix(if inc then INC else DEC, n, line);
        }
    }
  }

  lemma WriteSingle(code: Code, g: nat, pad: nat)
    ensures WriteAll(code, [g], pad) == WriteOne(code, g, pad)
  {
    assert [g][1..] == [];
  }

  lemma PendingFirst(gs: seq<nat>)
    ensures Pending(Some([]), gs) == Some(gs)
  {
    assert [] + gs == gs;
  }

  lemma ChainGen(x: World, e: Expr, s: nat, at: nat, g: Guard, pool: seq<Const>)
    requires e.Chain?
    ensures Gen(x, e, s, at, g, pool) == GenChain(x, e, s, at, g, pool) && GuardsOf(e, at) == []
  {
    hide Size, GenChain;
  }

  /** The guards of a chain's code, patched to the pad, with the jump over the pad behind it. */
  lemma ChainPatch(x: World, e: Expr, s: nat, pre: Code, pool: seq<Const>, pad: nat)
    ensures var at := |pre|;
            var h, t := Gen(x, e, s, at, Hole, pool), Gen(x, e, s, at, To(pad), pool);
            && WriteAll(pre + h.code + ([JMP as Byte] + Enc16(0)), GuardsOf(e, at), pad)
                 == pre + t.code + ([JMP as Byte] + Enc16(0))
            && Inside(GuardsOf(e, at), 0, |pre + h.code + ([JMP as Byte] + Enc16(0))|)
            && t.pool == h.pool && t.top == h.top && |t.code| == |h.code|
                 && (t.fits <==> h.fits && AllFit(GuardsOf(e, at), pad))
  {
    hide Texts, Gen, GuardsOf, Size, WriteAll, Enc16, AllFit;
    var at := |pre|;
    GenFills(x, e, s, pre, [JMP as Byte] + Enc16(0), pool, pad);
    GenFacts(x, e, s, at, Hole, pool);
    GuardsInside(e, at);
    InsideWider(GuardsOf(e, at), at, at + Size(e, true), 0,
        |pre + Gen(x, e, s, at, Hole, pool).code + ([JMP as Byte] + Enc16(0))|);
  }

  lemma ChainCode(pre: Code, t: Code, u: Code)
    requires |u| == 2
    ensures pre + t + ([JMP as Byte] + Enc16(0)) + u == (pre + t + [JMP as Byte]) + Enc16(0) + u
    ensures (pre + t + [JMP as Byte]) + Jump16(2) + u == pre + (t + JumpTo(2) + u)
    ensures FitsI16(2)
  {
  }

  /** Regrouping the code around a patched branch. */
  lemma BranchCode(pre: Code, l: Code, br: Code, r: Code, j: Code)
    ensures pre + l + (br + Enc16(0)) + r == (pre + l + br) + Enc16(0) + r
    ensures (pre + l + br) + j + r == pre + (l + (br + j) + r)
  {
  }

  lemma ThenCode(head: Code, t: Code, j1: Code)
    ensures head + Enc16(0) + t + ([JMP as Byte] + Enc16(0)) == head + Enc16(0) + (t + [JMP as Byte] + Enc16(0))
    ensures head + j1 + (t + [JMP as Byte] + Enc16(0)) == (head + j1 + t + [JMP as Byte]) + Enc16(0)
  {
  }

  lemma CondCode(pre: Code, c: Code, br: Code, t: Code, f: Code, j1: Code, j2: Code)
    ensures pre + c + (br + Enc16(0)) == (pre + c + br) + Enc16(0)
    ensures (pre + c + br + j1 + t + [JMP as Byte]) + j2 + f == pre + (c + (br + j1) + t + ([JMP as Byte] + j2) + f)
  {
  }

  lemma BranchIs(op: int, s: nat, delta: int)
    ensures BranchTo(op, s, delta) == Two(op, s) + Jump16(delta)
  {
  }

  lemma JumpIs(delta: int)
    ensures JumpTo(delta) == [JMP as Byte] + Jump16(delta)
  {
  }

  lemma UnaryGen(x: World, e: Expr, s: nat, at: nat, g: Guard, pool: seq<Const>)
    requires e.Unary?
    ensures Gen(x, e, s, at, g, pool) == GenUnary(x, e, s, at, g, pool)
    ensures GuardsOf(e, at) == GuardsOf(e.e, at)
  {
    hide Size, GenUnary;
  }

  lemma VoidGen(x: World, e: Expr, s: nat, at: nat, g: Guard, pool: seq<Const>)
    requires e.Void?
    ensures Gen(x, e, s, at, g, pool) == GenVoid(x, e, s, at, g, pool)
    ensures GuardsOf(e, at) == GuardsOf(e.e, at)
  {
    hide Size, GenVoid;
  }

  lemma BinaryGen(x: World, e: Expr, s: nat, at: nat, g: Guard, pool: seq<Const>)
    requires e.Binary?
    ensures Gen(x, e, s, at, g, pool) == GenBinary(x, e, s, at, g, pool)
    ensures GuardsOf(e, at) == GuardsOf(e.l, at) + GuardsOf(e.r, at + Size(e.l, true))
  {
    hide Size, GenBinary;
  }

  lemma LogicalGen(x: World, e: Expr, s: nat, at: nat, g: Guard, pool: seq<Const>)
    requires e.Logical?
    ensures Gen(x, e, s, at, g, pool) == GenLogical(x, e, s, at, g, pool)
    ensures GuardsOf(e, at) == GuardsOf(e.l, at) + GuardsOf(e.r, at + Size(e.l, true) + 4)
  {
    hide Size, GenLogical;
  }

  lemma CondGen(x: World, e: Expr, s: nat, at: nat, g: Guard, pool: seq<Const>)
    requires e.Cond?
    ensures Gen(x, e, s, at, g, pool) == GenCond(x, e, s, at, g, pool)
    ensures GuardsOf(e, at) == GuardsOf(e.test, at) + GuardsOf(e.yes, at + Size(e.test, true) + 4)
            + GuardsOf(e.no, at + Size(e.test, true) + 4 + Size(e.yes, true) + 3)
  {
    hide Size, GenCond;
  }

  lemma AssignGen(x: World, e: Expr, s: nat, at: nat, g: Guard, pool: seq<Const>)
    requires e.Assign?
    ensures Gen(x, e, s, at, g, pool) == GenAssign(x, e, s, at, g, pool)
    ensures GuardsOf(e, at) == if IsStep(e.target, e.value) then [] else GuardsOf(e.value, at)
  {
    hide Size, GenAssign;
  }

  lemma CompoundGen(x: World, e: Expr, s: nat, at: nat, g: Guard, pool: seq<Const>)
    requires e.Compound?
    ensures Gen(x, e, s, at, g, pool) == GenCompound(x, e, s, at, g, pool)
    ensures GuardsOf(e, at) == GuardsOf(e.value, at + 4)
  {
    hide Size, GenCompound;
  }

  lemma NameIs(x: World, n: string, pool: seq<Const>)
    ensures NameIndex(x, n, pool) == PoolIndex(pool, StrConst(x, n))
  {
    hide PoolIndex;
  }

  lemma LogicalAssignGen(x: World, e: Expr, s: nat, at: nat, g: Guard, pool: seq<Const>)
    requires e.LogicalAssign?
    ensures Gen(x, e, s, at, g, pool) == GenLogicalAssign(x, e, s, at, g, pool)
    ensures GuardsOf(e, at) == GuardsOf(e.value, at + 8)
  {
    hide Size, GenLogicalAssign;
  }

  lemma SequenceGen(x: World, e: Expr, s: nat, at: nat, g: Guard, pool: seq<Const>)
    requires e.Sequence?
    ensures Gen(x, e, s, at, g, pool) == GenSequence(x, e, s, at, g, pool)
    ensures GuardsOf(e, at) == GuardsOf(e.first, at) + ArgsGuards(e.rest, at + Size(e.first, true))
  {
    hide Size, GenSequence;
  }

  lemma MemberGen(x: World, e: Expr, s: nat, at: nat, g: Guard, pool: seq<Const>)
    requires e.Member?
    ensures Gen(x, e, s, at, g, pool) == GenMember(x, e, s, at, g, pool)
    ensures GuardsOf(e, at) == MemberGuards(e, at)
  {
    hide Size, GenMember;
  }

  lemma AssignMemberGen(x: World, e: Expr, s: nat, at: nat, g: Guard, pool: seq<Const>)
    requires e.AssignMember?
    ensures Gen(x, e, s, at, g, pool) == GenAssignMember(x, e, s, at, g, pool)
    ensures GuardsOf(e, at) == AssignMemberGuards(e, at)
  {
    hide Size, GenAssignMember;
  }

  /** What follows the base and its guard in a member read. */
  function AccessTail(x: World, e: Expr, s: nat, at: nat, g: Guard, pool: seq<Const>): Out
    requires e.Member?
  {
    if StaticSize(e.key) then
      Out(GetStatic(s, NameIndex(x, KeyName(x, e.key), pool)), PoolName(x, KeyName(x, e.key), pool), s + 1, true)
    else
      var k := Gen(x, e.key.e, s + 1, at, g, pool);
      k.(code := k.code + Four(GET_PROP_DYN, s, s, s + 1))
  }

  function AccessGuards(e: Expr, at: nat): seq<nat>
    requires e.Member?
  {
    if StaticSize(e.key) then [] else GuardsOf(e.key.e, at)
  }

  lemma MemberTail(x: World, e: Expr, s: nat, at: nat, g: Guard, pool: seq<Const>)
    requires e.Member?
    ensures var o := Gen(x, e.obj, s, at, g, pool);
            var here := at + Size(e.obj, InChain(g));
            var t := AccessTail(x, e, s, here + GuardSize(e.optional, InChain(g)), g, o.pool);
            && o.pool <= t.pool
            && Gen(x, e, s, at, g, pool)
               == Out(o.code + GuardCode(e.optional, s, here, g) + t.code, t.pool, Max(o.top, t.top),
                   o.fits && GuardFits(e.optional, here, g) && t.fits)
    ensures GuardsOf(e, at) == GuardsOf(e.obj, at) + GuardAt(e.optional, at + Size(e.obj, true))
      + AccessGuards(e, at + Size(e.obj, true) + GuardSize(e.optional, true))
  {
    hide Size, Pooled, PoolIndex, GetStatic, GuardCode, Four, KeyName, Gen, GuardsOf;
    var o := Gen(x, e.obj, s, at, g, pool);
    var go := at + Size(e.obj, InChain(g)) + GuardSize(e.optional, InChain(g));
    GenFacts(x, e.obj, s, at, g, pool);
    MemberGen(x, e, s, at, g, pool);
    if StaticSize(e.key) {
      PoolGrows(o.pool, StrConst(x, KeyName(x, e.key)));
    } else {
      var k := Gen(x, e.key.e, s + 1, go, g, o.pool);
      GenFacts(x, e.key.e, s + 1, go, g, o.pool);
      var b := o.code + GuardCode(e.optional, s, at + Size(e.obj, InChain(g)), g);
      assert b + k.code + Four(GET_PROP_DYN, s, s, s + 1) == b + (k.code + Four(GET_PROP_DYN, s, s, s + 1));
    }
  }

  /** The register the value of a member assignment is computed in. */
  function ValueReg(e: Expr, robj: nat): nat
    requires e.AssignMember?
  {
    if StaticSize(e.key) then robj + 1 else robj + 2
  }

  /** What follows the base, in register `s`, of a member assignment. */
  function StoreTail(x: World, e: Expr, s: nat, at: nat, g: Guard, pool: seq<Const>): Out
    requires e.AssignMember?
  {
    if StaticSize(e.key) then
      var v := Gen(x, e.value, s + 1, at, g, PoolName(x, KeyName(x, e.key), pool));
      v.(code := v.code + SetStatic(s, NameIndex(x, KeyName(x, e.key), pool), s + 1))
    else
      var k := Gen(x, e.key.e, s + 1, at, g, pool);
      var v := Gen(x, e.value, s + 2, at + Size(e.key.e, InChain(g)), g, k.pool);
      Out(k.code + v.code + Four(SET_PROP_DYN, s, s + 1, s + 2), v.pool, Max(k.top, v.top), k.fits && v.fits)
  }

  function StoreGuards(e: Expr, at: nat): seq<nat>
    requires e.AssignMember?
  {
    if StaticSize(e.key) then GuardsOf(e.value, at)
        else GuardsOf(e.key.e, at) + GuardsOf(e.value, at + Size(e.key.e, true))
  }

  lemma AssignMemberTail(x: World, e: Expr, s: nat, at: nat, g: Guard, pool: seq<Const>)
    requires e.AssignMember?
    ensures var o := Gen(x, e.obj, s + 1, at, g, pool);
            var t := StoreTail(x, e, s + 1, at + Size(e.obj, InChain(g)), g, o.pool);
            && o.pool <= t.pool
            && Gen(x, e, s, at, g, pool)
               == Out(o.code + t.code + Three(MOVE, s, ValueReg(e, s + 1)), t.pool, Max(o.top, t.top), o.fits && t.fits)
    ensures GuardsOf(e, at) == GuardsOf(e.obj, at) + StoreGuards(e, at + Size(e.obj, true))
  {
    hide Size, Pooled, PoolIndex, SetStatic, Three, Four, KeyName, Gen, GuardsOf;
    var ch := InChain(g);
    var o := Gen(x, e.obj, s + 1, at, g, pool);
    var here := at + Size(e.obj, ch);
    GenFacts(x, e.obj, s + 1, at, g, pool);
    AssignMemberGen(x, e, s, at, g, pool);
    if StaticSize(e.key) {
      var p := PoolName(x, KeyName(x, e.key), o.pool);
      var v := Gen(x, e.value, s + 2, here, g, p);
      PoolGrows(o.pool, StrConst(x, KeyName(x, e.key)));
      GenFacts(x, e.value, s + 2, here, g, p);
      var ss, mv := SetStatic(s + 1, NameIndex(x, KeyName(x, e.key), o.pool), s + 2), Three(MOVE, s, s + 2);
      Assoc(o.code, v.code, ss, mv, []);
    } else {
      var k := Gen(x, e.key.e, s + 2, here, g, o.pool);
      var v := Gen(x, e.value, s + 3, here + Size(e.key.e, ch), g, k.pool);
      GenFacts(x, e.key.e, s + 2, here, g, o.pool);
      GenFacts(x, e.value, s + 3, here + Size(e.key.e, ch), g, k.pool);
      var se, mv := Four(SET_PROP_DYN, s + 1, s + 2, s + 3), Three(MOVE, s, s + 3);
      Assoc(o.code, k.code, v.code, se, mv);
    }
  }

  /** What follows the callee and its guard in a call. */
  function CallTail(x: World, e: Expr, s: nat, at: nat, g: Guard, pool: seq<Const>): Out
    requires e.Call?
  {
    var a := GenArgs(x, e.args, s + 1, at, g, pool);
    a.(code := a.code + Four(CALL, s, Count(e.args), s))
  }

  lemma CallGen(x: World, e: Expr, s: nat, at: nat, g: Guard, pool: seq<Const>)
    requires e.Call?
    ensures Gen(x, e, s, at, g, pool) == GenCall(x, e, s, at, g, pool)
    ensures GuardsOf(e, at) == CallGuards(e, at)
  {
    hide Size, GenCall;
  }

  lemma CallParts(x: World, e: Expr, s: nat, at: nat, g: Guard, pool: seq<Const>)
    requires e.Call?
    ensures var c := Gen(x, e.callee, s, at, g, pool);
            var here := at + Size(e.callee, InChain(g));
            var t := CallTail(x, e, s, here + GuardSize(e.optional, InChain(g)), g, c.pool);
            && c.pool <= t.pool
            && Gen(x, e, s, at, g, pool)
               == Out(c.code + GuardCode(e.optional, s, here, g) + t.code, t.pool, Max(c.top, t.top),
                   c.fits && GuardFits(e.optional, here, g) && t.fits)
    ensures GuardsOf(e, at) == GuardsOf(e.callee, at) + GuardAt(e.optional, at + Size(e.callee, true))
      + ArgsGuards(e.args, at + Size(e.callee, true) + GuardSize(e.optional, true))
  {
    hide Size, Gen, GenArgs, GuardsOf, ArgsGuards, GuardCode, Four;
    var c := Gen(x, e.callee, s, at, g, pool);
    var here := at + Size(e.callee, InChain(g));
    var go := here + GuardSize(e.optional, InChain(g));
    GenFacts(x, e.callee, s, at, g, pool);
    ArgsFacts(x, e.args, s + 1, go, g, c.pool);
    CallGen(x, e, s, at, g, pool);
    Assoc(c.code, GuardCode(e.optional, s, here, g), GenArgs(x, e.args, s + 1, go, g, c.pool).code,
        Four(CALL, s, Count(e.args), s), []);
    assert c.code + GuardCode(e.optional, s, here, g)
        + (GenArgs(x, e.args, s + 1, go, g, c.pool).code + Four(CALL, s, Count(e.args), s))
        == c.code + GuardCode(e.optional, s, here, g) + GenArgs(x, e.args, s + 1, go, g, c.pool).code
            + Four(CALL, s, Count(e.args), s);
  }

  lemma Assoc(a: Code, b: Code, c: Code, d: Code, e: Code)
    ensures a + b + c + d == a + (b + c + d)
    ensures a + b + c + d + e == a + (b + c + d + e)
    ensures a + (b + c) + d == a + (b + c + d)
    ensures a + (b + c + d) + e == a + b + c + d + e
  {
  }

  lemma SkipCode(pre: Code, ld: Code, br: Code, v: Code, sv: Code, j: Code)
    ensures pre + ld + (br + Enc16(0)) + v + sv == (pre + ld + br) + Enc16(0) + (v + sv)
    ensures (pre + ld + br) + j + (v + sv) == pre + (ld + (br + j) + v + sv)
  {
  }
}
