/** Basic-block refinement: the translated code runs the instructions of the flat code, each from
    the one place it was emitted at, in the same order. */
module Blocks {
  import opened Options
  import opened Bits
  import opened NanBox
  import opened Bytecode
  import opened Interp
  import opened Ir
  import opened Emit
  import opened Native
  import opened Fragments
  import opened Instructions
  import opened Translate

  // ------------------------------------------------------------------ the emission invariant

  /** The leader blocks are distinct and come before the exits. */
  ghost predicate Layout(x: Ctx)
  {
    && (forall t :: t in x.blockOf ==> 0 <= t <= |x.code| && x.blockOf[t] < x.deopt)
    && (forall t, u :: t in x.blockOf && u in x.blockOf && x.blockOf[t] == x.blockOf[u] ==> t == u)
    && x.fine == x.deopt + 1 && x.throwing == x.deopt + 2
    && (forall pc: nat :: Boundary(x.code, 0, pc) && Whole(x.code, pc) ==>
          forall t | t in LeadersAt(x.code, x.boxed, pc) && 0 <= t <= |x.code| :: t in x.blockOf)
  }

  /** A leader whose block has not been entered when the loop reaches `pc`. */
  predicate Unentered(code: Code, t: int, pc: nat)
  {
    t >= pc || t < 0 || !Boundary(code, 0, t)
  }

  /** Between two rounds of the loop: exits untouched, blocks of leaders still ahead empty, and an
      ended block only just before a leader. */
  ghost predicate Inv(x: Ctx, p: Pass, pc: nat)
  {
    && Ready(x, p) && x.throwing < |p.b.blocks| && Exits(x, p.b.blocks) && BlocksIn(x, p.b.blocks)
    && p.b.cur !in {x.deopt, x.fine, x.throwing}
    && (forall t :: t in x.blockOf && Unentered(x.code, t, pc) ==>
          p.b.blocks[x.blockOf[t]].insts == [] && p.b.cur != x.blockOf[t])
    && (p.ended ==> pc in x.blockOf)
  }

  lemma {:induction false} NotBetween(code: Code, from: nat, pc: nat, t: nat)
    requires Boundary(code, from, pc) && Whole(code, pc) && pc < t < Next(code, pc)
    ensures !Boundary(code, from, t)
    decreases |code| - from
  {
    if from != pc {
      NotBetween(code, Next(code, from), pc, t);
    } else if Boundary(code, from, t) {
      BoundaryAtLeast(code, Next(code, from), t);
    }
  }

  lemma BoundaryAtLeast(code: Code, from: nat, pc: nat)
    requires Boundary(code, from, pc)
    ensures from <= pc
  {
  }

  /** Entering a leader's block starts it empty. */
  lemma EnterInv(x: Ctx, p: Pass, pc: nat)
    requires Layout(x) && Inv(x, p, pc) && pc < |x.code|
    ensures var q := EnterLeader(x, p, pc);
            && !q.ended && Within(p.b, q.b.blocks) && Exits(x, q.b.blocks) && BlocksIn(x, q.b.blocks)
            && q.b.cur !in {x.deopt, x.fine, x.throwing}
            && (pc in x.blockOf ==> q.b.cur == x.blockOf[pc] && q.b.Len() == 0)
            && (forall t :: t in x.blockOf && t != pc && Unentered(x.code, t, pc) ==>
                  q.b.blocks[x.blockOf[t]].insts == [] && q.b.cur != x.blockOf[t])
  {
  }

  lemma GrowsExits(x: Ctx, a: Builder, b: Builder)
    requires Grows(a, b) && Exits(x, a.blocks) && a.cur !in {x.deopt, x.fine, x.throwing}
    ensures Exits(x, b.blocks) && b.cur !in {x.deopt, x.fine, x.throwing}
  {
  }

  lemma GrowsBlocksIn(x: Ctx, a: Builder, b: Builder)
    requires Grows(a, b) && BlocksIn(x, a.blocks)
    ensures BlocksIn(x, b.blocks)
  {
    forall t | t in x.blockOf
      ensures x.blockOf[t] < |b.blocks| && b.blocks[x.blockOf[t]].param == NoParam
    {
      assert a.blocks[x.blockOf[t]].param == b.blocks[x.blockOf[t]].param;
    }
  }

  /** An instruction that ends its block is followed by a leader. */
  lemma EndedHasLeader(x: Ctx, b: Builder, pc: nat)
    requires Layout(x) && Boundary(x.code, 0, pc) && Whole(x.code, pc) && b.Ok()
    requires EmitInstr(x, b, pc).Some? && EmitInstr(x, b, pc).value.ended
    ensures Next(x.code, pc) in x.blockOf
  {
    assert Next(x.code, pc) in LeadersAt(x.code, x.boxed, pc) by {
      EndedIsLeader(x, b, pc);
    }
  }

  lemma EndedIsLeader(x: Ctx, b: Builder, pc: nat)
    requires Whole(x.code, pc) && b.Ok()
    requires EmitInstr(x, b, pc).Some? && EmitInstr(x, b, pc).value.ended
    ensures Next(x.code, pc) in LeadersAt(x.code, x.boxed, pc)
  {
    hide Ins, Guard, Require, AfterHelper, GuardI128, BoxedInt, BoxedFloat, BoxedIncDec, BoxedBinary, BoxedCompare,
        BoxedMod,
      StoreReg, LoadReg, ReadI16, ReadU16, SiteKey, SlotOf;
    match Fetch(x.code, pc)
    case Unary(op, dst, src) => UnaryGoesOn(x, b, pc, op, dst, src);
    case Binary(op, dst, l, r) => BinaryGoesOn(x, b, pc, op, dst, l, r);
    case _ =>
  }

  lemma UnaryGoesOn(x: Ctx, b: Builder, pc: nat, op: int, dst: nat, src: nat)
    requires b.Ok() && EmitUnary(x, b, pc, op, dst, src).Some?
    ensures !EmitUnary(x, b, pc, op, dst, src).value.ended
  {
    hide Ins, Require, GuardI128, BoxedInt, BoxedFloat, BoxedIncDec, StoreReg;
  }

  lemma BinaryGoesOn(x: Ctx, b: Builder, pc: nat, op: int, dst: nat, l: nat, r: nat)
    requires b.Ok() && EmitBinary(x, b, pc, op, dst, l, r).Some?
    ensures !EmitBinary(x, b, pc, op, dst, l, r).value.ended
  {
    hide BinaryValue, AfterHelper, StoreReg;
  }

  /** One round keeps the invariant and only adds to what was emitted. */
  lemma OneInv(x: Ctx, p: Pass, pc: nat)
    requires Layout(x) && Inv(x, p, pc) && Boundary(x.code, 0, pc) && Whole(x.code, pc)
    requires EmitOne(x, p, pc).Some?
    ensures var p' := EmitOne(x, p, pc).value;
            Inv(x, p', Next(x.code, pc)) && Within(p.b, p'.b.blocks)
  {
    hide EmitInstr;
    var q := EnterLeader(x, p, pc);
    var p' := EmitOne(x, p, pc).value;
    EnterInv(x, p, pc);
    GrowsExits(x, q.b, p'.b);
    GrowsBlocksIn(x, q.b, p'.b);
    if p'.ended {
      EndedHasLeader(x, q.b, pc);
    }
    WithinGrows(p.b, q.b, p'.b);
    StillEmpty(x, q, p', pc);
  }

  lemma WithinGrows(a: Builder, b: Builder, c: Builder)
    requires Within(a, b.blocks) && Grows(b, c)
    ensures Within(a, c.blocks)
  {
    forall k | 0 <= k < |a.blocks|
      ensures a.blocks[k].param == c.blocks[k].param && a.blocks[k].insts <= c.blocks[k].insts
    {
      assert a.blocks[k].insts <= b.blocks[k].insts <= c.blocks[k].insts;
    }
  }

  lemma StillEmpty(x: Ctx, q: Pass, p': Pass, pc: nat)
    requires Layout(x) && Boundary(x.code, 0, pc) && Whole(x.code, pc) && Grows(q.b, p'.b)
    requires forall t :: t in x.blockOf ==> x.blockOf[t] < |q.b.blocks|
    requires forall t :: t in x.blockOf && t != pc && Unentered(x.code, t, pc) ==>
               q.b.blocks[x.blockOf[t]].insts == [] && q.b.cur != x.blockOf[t]
    ensures forall t :: t in x.blockOf && Unentered(x.code, t, Next(x.code, pc)) ==>
              p'.b.blocks[x.blockOf[t]].insts == [] && p'.b.cur != x.blockOf[t]
  {
    forall t | t in x.blockOf && Unentered(x.code, t, Next(x.code, pc))
      ensures p'.b.blocks[x.blockOf[t]].insts == [] && p'.b.cur != x.blockOf[t]
    {
      assert t != pc;
      if t >= pc && t < Next(x.code, pc) {
        NotBetween(x.code, 0, pc, t);
      }
      assert Unentered(x.code, t, pc);
    }
  }

  // ------------------------------------------------------------------ where each instruction went

  /** The state of the loop when it reaches `pc`, when it was in state `p` at `from`. */
  function PassAt(x: Ctx, p: Pass, from: nat, pc: nat): (r: Option<Pass>)
    requires Ready(x, p)
    ensures r.Some? ==> Ready(x, r.value)
    decreases |x.code| - from
  {
    if from == pc then Some(p)
    else if !Decodes(x.code, x.boxed, from) then None
    else
      DecodesWhole(x.code, x.boxed, from);
      match EmitOne(x, p, from)
      case None => None
      case Some(p') => PassAt(x, p', Next(x.code, from), pc)
  }

  /** The instruction at `pc` was emitted, in full, inside `ir`. */
  ghost predicate Placed(x: Ctx, ir: Ir, p: Option<Pass>, pc: nat)
  {
    && p.Some? && Inv(x, p.value, pc)
    && (pc < |x.code| ==>
          && Decodes(x.code, x.boxed, pc) && Whole(x.code, pc) && EmitOne(x, p.value, pc).Some?
          && Within(EmitOne(x, p.value, pc).value.b, ir))
  }

  lemma {:induction false} AllPlaced(x: Ctx, p: Pass, from: nat, pc: nat, ir: Ir)
    requires Layout(x) && Inv(x, p, from) && Boundary(x.code, 0, from) && Boundary(x.code, from, pc) && pc <= |x.code|
    requires EmitFrom(x, p, from).Some? && Within(EmitFrom(x, p, from).value.b, ir)
    ensures Within(p.b, ir) && Placed(x, ir, PassAt(x, p, from, pc), pc)
    ensures pc == |x.code| ==> PassAt(x, p, from, pc) == EmitFrom(x, p, from)
    decreases |x.code| - from
  {
    hide EmitOne, Within;
    if from < |x.code| {
      DecodesWhole(x.code, x.boxed, from);
      var p' := EmitOne(x, p, from).value;
      var next := Next(x.code, from);
      OneInv(x, p, from);
      BoundaryStep(x.code, 0, from);
      var to := if from == pc then next else pc;
      AllPlaced(x, p', next, to, ir);
      WithinTrans(p.b, p'.b, ir);
    } else {
      BoundaryAtLeast(x.code, from, pc);
    }
  }

  lemma WithinTrans(a: Builder, b: Builder, ir: Ir)
    requires Within(a, b.blocks) && Within(b, ir)
    ensures Within(a, ir)
  {
    forall k | 0 <= k < |a.blocks|
      ensures a.blocks[k].param == ir[k].param && a.blocks[k].insts <= ir[k].insts
    {
      assert a.blocks[k].insts <= b.blocks[k].insts <= ir[k].insts;
    }
  }

  lemma {:induction false} PassAtNext(x: Ctx, p: Pass, from: nat, pc: nat)
    requires Ready(x, p) && Boundary(x.code, from, pc) && Decodes(x.code, x.boxed, pc)
    requires PassAt(x, p, from, pc).Some?
    ensures Whole(x.code, pc) && PassAt(x, p, from, Next(x.code, pc)) == EmitOne(x, PassAt(x, p, from, pc).value, pc)
    decreases |x.code| - from
  {
    hide EmitOne;
    DecodesWhole(x.code, x.boxed, pc);
    if from != pc {
      DecodesWhole(x.code, x.boxed, from);
      BoundaryAtLeast(x.code, Next(x.code, from), pc);
      PassAtNext(x, EmitOne(x, p, from).value, Next(x.code, from), pc);
    } else {
      match EmitOne(x, p, from)
      case Some(p') => assert PassAt(x, p', Next(x.code, from), Next(x.code, pc)) == Some(p');
      case None =>
    }
  }

  // ------------------------------------------------------------------ the start of the loop

  /** Everything a finished translation establishes. */
  ghost predicate Made(x: Ctx, p: Pass, ir: Ir)
  {
    && Layout(x) && Inv(x, p, 0) && EmitFrom(x, p, 0).Some?
    && ir == Sealed(EmitFrom(x, p, 0).value).blocks && Defined(ir)
  }

  lemma {:induction false} LeadersHave(code: Code, boxed: bool, from: nat, acc: set<int>, pc: nat)
    requires Leaders(code, boxed, from, acc).Some? && Boundary(code, from, pc) && pc < |code|
    ensures Decodes(code, boxed, pc) && Whole(code, pc)
    ensures LeadersAt(code, boxed, pc) <= Leaders(code, boxed, from, acc).value
    decreases |code| - from
  {
    BoundaryAtLeast(code, from, pc);
    DecodesWhole(code, boxed, from);
    var acc' := acc + LeadersAt(code, boxed, from);
    if from == pc {
      LeadersKeep(code, boxed, Next(code, from), acc');
    } else {
      LeadersHave(code, boxed, Next(code, from), acc', pc);
    }
  }

  lemma LayoutOf(r: Region)
    requires Leaders(r.code, r.boxed, 0, {0}).Some?
    ensures Layout(CtxOf(r)) && 0 in CtxOf(r).blockOf
  {
    var x := CtxOf(r);
    LeadersKeep(r.code, r.boxed, 0, {0});
    forall pc: nat, t | Boundary(x.code, 0, pc) && Whole(x.code, pc) && t in LeadersAt(x.code, x.boxed, pc)
        && 0 <= t <= |x.code|
      ensures t in x.blockOf
    {
      LeadersHave(r.code, r.boxed, 0, {0}, pc);
    }
  }

  lemma StartInv(r: Region)
    requires Leaders(r.code, r.boxed, 0, {0}).Some?
    ensures 0 in CtxOf(r).blockOf
    ensures Inv(CtxOf(r), Pass(Prologue(CtxOf(r).blockOf), true), 0)
  {
    LayoutOf(r);
    var m := CtxOf(r).blockOf;
    var b := Prologue(m);
    assert forall k | 0 <= k < |m| :: b.blocks[k] == Block(NoParam, []);
    assert b.blocks[|m| + 1] == Block(NoParam, [StoreFlag(1), Ret(K(0))]);
    assert b.blocks[|m| + 2] == Block(Param(0), [StoreResume(Id(0)), StoreFlag(3), Ret(K(0))]);
    assert b.blocks[|m| + 3] == Block(NoParam, [Ret(K(0))]);
  }

  lemma TranslationMade(r: Region) returns (p: Pass)
    requires Translation(r).Some?
    ensures Leaders(r.code, r.boxed, 0, {0}).Some? && 0 in CtxOf(r).blockOf
    ensures p == Pass(Prologue(CtxOf(r).blockOf), true)
    ensures Made(CtxOf(r), p, Translation(r).value.ir)
    ensures Translation(r).value.entry == |CtxOf(r).blockOf|
  {
    LayoutOf(r);
    StartInv(r);
    p := Pass(Prologue(CtxOf(r).blockOf), true);
  }

  /** Every instruction of accepted code sits in the final function. */
  lemma PlacedIn(x: Ctx, p: Pass, ir: Ir, pc: nat)
    requires Made(x, p, ir) && Boundary(x.code, 0, pc) && pc <= |x.code|
    ensures Placed(x, ir, PassAt(x, p, 0, pc), pc) && BlocksIn(x, ir) && Exits(x, ir)
    ensures pc == |x.code| ==> PassAt(x, p, 0, pc) == EmitFrom(x, p, 0)
  {
    hide EmitOne, EmitFrom, PassAt;
    var last := EmitFrom(x, p, 0).value;
    var b := Sealed(last);
    SealedWithin(last);
    AllPlaced(x, p, 0, pc, ir);
    LastInv(x, p, ir);
    GrowsExits(x, last.b, b);
    GrowsBlocksIn(x, last.b, b);
  }

  lemma SealedWithin(p: Pass)
    requires p.b.Ok()
    ensures Grows(p.b, Sealed(p)) && Within(p.b, Sealed(p).blocks)
  {
  }

  lemma LastInv(x: Ctx, p: Pass, ir: Ir)
    requires Made(x, p, ir)
    ensures Inv(x, EmitFrom(x, p, 0).value, |x.code|) && Boundary(x.code, 0, |x.code|)
  {
    EndReached(x, p, 0);
    SealedWithin(EmitFrom(x, p, 0).value);
    AllPlaced(x, p, 0, |x.code|, ir);
  }

  lemma {:induction false} EndReached(x: Ctx, p: Pass, from: nat)
    requires Ready(x, p) && from <= |x.code| && EmitFrom(x, p, from).Some?
    ensures Boundary(x.code, from, |x.code|)
    decreases |x.code| - from
  {
    hide EmitOne;
    if from < |x.code| {
      DecodesWhole(x.code, x.boxed, from);
      EndReached(x, EmitOne(x, p, from).value, Next(x.code, from));
    }
  }

  // ------------------------------------------------------------------ jumps land on leaders

  /** Accepted code only jumps to instruction starts before its end. */
  lemma JumpLands(x: Ctx, p: Pass, ir: Ir, t: int)
    requires Made(x, p, ir) && t in x.blockOf && Refers(ir, x.blockOf[t])
    ensures 0 <= t < |x.code| && Boundary(x.code, 0, t)
  {
    DefinedRefers(ir, x.blockOf[t]);
    LastInv(x, p, ir);
  }

  /** An instruction that ends its block names the block of where it goes. */
  lemma EndedNames(x: Ctx, rt: Rt, b: Builder, pc: nat, m: Mem, ir: Ir)
    requires b.Ok() && Whole(x.code, pc) && EmitInstr(x, b, pc).Some? && EmitInstr(x, b, pc).value.ended
    requires Within(EmitInstr(x, b, pc).value.b, ir) && NStep(x, rt, pc, m).Go?
    requires NStep(x, rt, pc, m).pc in x.blockOf
    ensures Refers(ir, x.blockOf[NStep(x, rt, pc, m).pc])
  {
    hide EmitUnary, EmitBinary, EmitAccess, NUnary, NBinary, Help, AfterHelp, ReadI16, ReadU16, SiteKey, SlotOf,
        StoreReg;
    match Fetch(x.code, pc)
    case Unary(op, dst, src) =>
      UnaryGoesOn(x, b, pc, op, dst, src);
    case Binary(op, dst, l, r) =>
      BinaryGoesOn(x, b, pc, op, dst, l, r);
    case Jump(rel) =>
      NamesBlock(ir, b, Br(x.blockOf[Next(x.code, pc) + rel], NoArg), x.blockOf[Next(x.code, pc) + rel]);
    case Branch(op, cond, rel) =>
      BranchNames(x, b, op, cond, Next(x.code, pc) + rel, Next(x.code, pc), ir);
    case Return(_) =>
    case Stop(_) =>
    case NewClosure(_, _) =>
    case GetProp(_, _, _) => AccessGoesOn(x, b, pc);
    case SetProp(_, _, _) => AccessGoesOn(x, b, pc);
    case SetElem(_, _, _) => AccessGoesOn(x, b, pc);
    case Call(_, _, _) => AccessGoesOn(x, b, pc);
    case _ =>
  }

  lemma AccessGoesOn(x: Ctx, b: Builder, pc: nat)
    requires b.Ok() && Whole(x.code, pc) && EmitInstr(x, b, pc).Some?
    requires var i := Fetch(x.code, pc); i.GetProp? || i.SetProp? || i.SetElem? || i.Call?
    ensures !EmitInstr(x, b, pc).value.ended
  {
    hide AfterHelper, StoreReg, Guard, SiteKey, ReadI16, ReadU16;
  }

  lemma NamesBlock(ir: Ir, b: Builder, i: Inst, k: nat)
    requires b.Ok() && Within(Ins(b, i), ir) && Names(i, k)
    ensures Refers(ir, k)
  {
    FetchIns(ir, b, i);
    assert Names(ir[b.cur].insts[b.Len()], k);
  }

  lemma BranchNames(x: Ctx, b: Builder, op: int, cond: nat, target: int, next: int, ir: Ir)
    requires b.Ok() && EmitBranch(x, b, op, cond, target, next).Some?
    requires Within(EmitBranch(x, b, op, cond, target, next).value.b, ir)
    ensures Refers(ir, x.blockOf[target]) && Refers(ir, x.blockOf[next])
  {
    var (b1, v) := LoadReg(b, cond);
    var isTrue := Bin(INe, v, K(0));
    var t, f := x.blockOf[target], x.blockOf[next];
    var i := if op == JMP_IF_TRUE then Brif(isTrue, t, NoArg, f, NoArg) else Brif(isTrue, f, NoArg, t, NoArg);
    NamesBlock(ir, b1, i, t);
    NamesBlock(ir, b1, i, f);
  }

  // ------------------------------------------------------------------ one instruction, two machines

  /** The IR is about to run the instruction at `pc`, with memory `m`. */
  ghost predicate Synced(x: Ctx, p: Pass, pc: nat, c: Config, m: Mem)
    requires Ready(x, p)
  {
    && pc <= |x.code| && Boundary(x.code, 0, pc) && PassAt(x, p, 0, pc).Some?
    && var q := PassAt(x, p, 0, pc).value;
       if pc < |x.code| then c == Here(EnterLeader(x, q, pc).b, c.vals, m)
       else c == Here(q.b, c.vals, m) && !q.ended
  }

  /** After the instruction at `pc` went on to `pc'`, in `n` IR steps. */
  lemma StepOn(x: Ctx, p: Pass, ir: Ir, rt: Rt, pc: nat, c: Config, m: Mem) returns (n: nat)
    requires Made(x, p, ir) && pc < |x.code| && Synced(x, p, pc, c, m) && NStep(x, rt, pc, m).Go?
    ensures var o := NStep(x, rt, pc, m);
            && ExecN(ir, rt, c, n).At? && o.pc >= 0
            && Synced(x, p, o.pc, ExecN(ir, rt, c, n).c, o.m)
            && (n > 0 || o.pc > pc)
  {
    hide EmitInstr, EmitFrom, PassAt, Exec, ExecN, NStep;
    PlacedIn(x, p, ir, pc);
    var q := PassAt(x, p, 0, pc).value;
    var l := EnterLeader(x, q, pc);
    EnterInv(x, q, pc);
    var e := EmitInstr(x, l.b, pc).value;
    var o := NStep(x, rt, pc, m);
    n := RunInstr(ir, rt, x, l.b, pc, c.vals, m);
    var c' := ExecN(ir, rt, c, n).c;
    PassAtNext(x, p, 0, pc);
    BoundaryStep(x.code, 0, pc);
    if e.ended {
      EndedNames(x, rt, l.b, pc, m, ir);
      JumpLands(x, p, ir, o.pc);
      Landed(x, p, ir, o.pc, c', o.m);
      EndedMoves(ir, rt, x, l.b, pc, c, n);
    } else {
      var k := FellThrough(x, p, ir, rt, o.pc, e.b, c', o.m);
      Chain(ir, rt, c, n, c', k);
      n := n + k;
    }
  }

  lemma EndedMoves(ir: Ir, rt: Rt, x: Ctx, b: Builder, pc: nat, c: Config, n: nat)
    requires Whole(x.code, pc) && b.Ok() && EmitInstr(x, b, pc).Some? && EmitInstr(x, b, pc).value.ended
    ensures !Fetch(x.code, pc).Hoist?
  {
  }

  /** A jump lands at the start of its target's block. */
  lemma Landed(x: Ctx, p: Pass, ir: Ir, t: nat, c: Config, m: Mem)
    requires Made(x, p, ir) && t < |x.code| && Boundary(x.code, 0, t) && t in x.blockOf
    requires c == Config(x.blockOf[t], 0, c.vals, m)
    ensures Synced(x, p, t, c, m)
  {
    hide EmitOne, EmitFrom, PassAt;
    PlacedIn(x, p, ir, t);
    EnterInv(x, PassAt(x, p, 0, t).value, t);
  }

  /** Falling through: straight on, or by a jump into the next leader's block. */
  lemma FellThrough(x: Ctx, p: Pass, ir: Ir, rt: Rt, next: nat, b: Builder, c: Config, m: Mem) returns (n: nat)
    requires Made(x, p, ir) && next <= |x.code| && Boundary(x.code, 0, next)
    requires PassAt(x, p, 0, next) == Some(Pass(b, false)) && b.Ok() && c == Here(b, c.vals, m)
    ensures ExecN(ir, rt, c, n).At? && Synced(x, p, next, ExecN(ir, rt, c, n).c, m)
  {
    hide EmitInstr, EmitFrom, PassAt, Exec, ExecN;
    PlacedIn(x, p, ir, next);
    n := 0;
    if next < |x.code| && next in x.blockOf {
      var i := Br(x.blockOf[next], NoArg);
      EnterInv(x, Pass(b, false), next);
      EnterWithin(x, Pass(b, false), next, ir);
      RunBr(ir, rt, b, x.blockOf[next], NoArg, c.vals, m);
      n := 1;
    } else {
      RunNothing(ir, rt, c);
    }
  }

  lemma EnterWithin(x: Ctx, p: Pass, pc: nat, ir: Ir)
    requires Ready(x, p) && Whole(x.code, pc) && EmitOne(x, p, pc).Some? && Within(EmitOne(x, p, pc).value.b, ir)
    requires !p.ended && pc in x.blockOf && x.blockOf[pc] != p.b.cur
    ensures Within(Ins(p.b, Br(x.blockOf[pc], NoArg)), ir)
  {
    var q := EnterLeader(x, p, pc);
    GrowsWithin(q.b, EmitOne(x, p, pc).value.b, ir);
  }

  /** An instruction that leaves the region does so in the IR with the same value and memory. */
  lemma StepOut(x: Ctx, p: Pass, ir: Ir, rt: Rt, pc: nat, c: Config, m: Mem) returns (n: nat)
    requires Made(x, p, ir) && Synced(x, p, pc, c, m) && NStep(x, rt, pc, m).Leave?
    ensures ExecN(ir, rt, c, n) == Exit(NStep(x, rt, pc, m).value, NStep(x, rt, pc, m).m)
  {
    hide EmitInstr, EmitFrom, PassAt, Exec, ExecN;
    PlacedIn(x, p, ir, pc);
    var q := PassAt(x, p, 0, pc).value;
    if pc < |x.code| {
      hide NStep;
      EnterInv(x, q, pc);
      n := RunInstr(ir, rt, x, EnterLeader(x, q, pc).b, pc, c.vals, m);
    } else {
      SelfWithin(q);
      RunRet(ir, rt, q.b, K(0), c.vals, m);
      n := 1;
    }
  }

  lemma SelfWithin(p: Pass)
    requires p.b.Ok() && !p.ended
    ensures Within(Ins(p.b, Ret(K(0))), Sealed(p).blocks)
  {
  }

  // ------------------------------------------------------------------ whole runs

  /** Every flat run has an IR run that visits the same instructions in the same order. */
  lemma {:induction false} RunOn(x: Ctx, p: Pass, ir: Ir, rt: Rt, pc: nat, c: Config, m: Mem, k: nat) returns (n: nat)
    requires Made(x, p, ir) && Synced(x, p, pc, c, m)
    ensures match NRun(x, rt, pc, m, k)
            case Go(pc', m') => ExecN(ir, rt, c, n).At? && pc' >= 0 && Synced(x, p, pc', ExecN(ir, rt, c, n).c, m')
            case Leave(w, m') => ExecN(ir, rt, c, n) == Exit(w, m')
            case Bad => true
    decreases k
  {
    hide NStep, Exec, ExecN, Synced, Layout, EmitFrom;
    n := 0;
    if k == 0 {
      RunNothing(ir, rt, c);
    } else {
      match NStep(x, rt, pc, m)
      case Go(pc', m') =>
        EndIsOut(x, rt, p, pc, c, m);
        n := StepOn(x, p, ir, rt, pc, c, m);
        var c' := ExecN(ir, rt, c, n).c;
        var n' := RunOn(x, p, ir, rt, pc', c', m', k - 1);
        Chain(ir, rt, c, n, c', n');
        n := n + n';
      case Leave(w, m') => n := StepOut(x, p, ir, rt, pc, c, m);
      case Bad =>
    }
  }

  lemma EndIsOut(x: Ctx, rt: Rt, p: Pass, pc: nat, c: Config, m: Mem)
    requires Ready(x, p) && Synced(x, p, pc, c, m) && NStep(x, rt, pc, m).Go?
    ensures pc < |x.code|
  {
  }

  /** Every IR run that exits follows a flat run that leaves with the same value and memory. */
  lemma {:induction false} RunBack(x: Ctx, p: Pass, ir: Ir, rt: Rt, pc: nat, c: Config, m: Mem, n: nat) returns (k: nat)
    requires Made(x, p, ir) && Synced(x, p, pc, c, m) && !ExecN(ir, rt, c, n).At?
    ensures NRun(x, rt, pc, m, k).Bad?
         || (NRun(x, rt, pc, m, k).Leave?
             && ExecN(ir, rt, c, n) == Exit(NRun(x, rt, pc, m, k).value, NRun(x, rt, pc, m, k).m))
    decreases n, if pc > |x.code| then 0 else |x.code| - pc
  {
    hide NStep, Exec, ExecN, Synced, Layout, EmitFrom;
    k := 1;
    match NStep(x, rt, pc, m)
    case Go(pc', m') =>
      EndIsOut(x, rt, p, pc, c, m);
      var j := StepOn(x, p, ir, rt, pc, c, m);
      var c' := ExecN(ir, rt, c, j).c;
      if j > n { ExecNAdd(ir, rt, c, n, j - n); }
      assert j <= n;
      Chain(ir, rt, c, j, c', n - j);
      InCode(x, p, pc', c', m');
      k := RunBack(x, p, ir, rt, pc', c', m', n - j);
      k := k + 1;
    case Leave(w, m') =>
      var j := StepOut(x, p, ir, rt, pc, c, m);
      SameExit(ir, rt, c, n, j);
    case Bad =>
  }

  lemma InCode(x: Ctx, p: Pass, pc: nat, c: Config, m: Mem)
    requires Ready(x, p) && Synced(x, p, pc, c, m)
    ensures pc <= |x.code|
  {
  }

  lemma SameExit(ir: Ir, rt: Rt, c: Config, n: nat, j: nat)
    requires !ExecN(ir, rt, c, n).At? && !ExecN(ir, rt, c, j).At?
    ensures ExecN(ir, rt, c, n) == ExecN(ir, rt, c, j)
  {
    if n < j { ExecNAdd(ir, rt, c, n, j - n); } else { ExecNAdd(ir, rt, c, j, n - j); }
  }

  /** Calling translated code. */
  function CallNative(f: Compiled, rt: Rt, m: Mem, n: nat): Result
  {
    ExecN(f.ir, rt, Config(f.entry, 0, map[], m), n)
  }

  lemma Started(r: Region, rt: Rt, m: Mem) returns (p: Pass, c: Config)
    requires Translation(r).Some? && |r.code| > 0
    ensures Leaders(r.code, r.boxed, 0, {0}).Some? && Made(CtxOf(r), p, Translation(r).value.ir)
    ensures CallNative(Translation(r).value, rt, m, 1) == At(c) && Synced(CtxOf(r), p, 0, c, m)
  {
    p := TranslationMade(r);
    var x := CtxOf(r);
    var ir := Translation(r).value.ir;
    var entry := |x.blockOf|;
    var c0 := Config(entry, 0, map[], m);
    c := Config(x.blockOf[0], 0, map[], m);
    EntryCode(x, p, ir, rt, c0, c);
    Landed(x, p, ir, 0, c, m);
  }

  lemma EntryCode(x: Ctx, p: Pass, ir: Ir, rt: Rt, c0: Config, c: Config)
    requires Made(x, p, ir) && 0 in x.blockOf && p == Pass(Prologue(x.blockOf), true)
    requires c0 == Config(|x.blockOf|, 0, map[], c0.mem) && c == Config(x.blockOf[0], 0, map[], c0.mem)
    ensures ExecN(ir, rt, c0, 1) == At(c)
  {
    hide EmitOne, EmitFrom, PassAt, ExecN;
    PlacedIn(x, p, ir, 0);
    EntryWithin(x, p, ir);
    assert p.b.blocks[|x.blockOf|].insts[0] == Br(x.blockOf[0], NoArg);
    One(ir, rt, c0);
  }

  lemma EntryWithin(x: Ctx, p: Pass, ir: Ir)
    requires Made(x, p, ir)
    ensures Within(p.b, ir)
  {
    hide EmitOne, EmitFrom, PassAt;
    LastInv(x, p, ir);
    SealedWithin(EmitFrom(x, p, 0).value);
    AllPlaced(x, p, 0, |x.code|, ir);
  }

  /** The flat machine leaves the region with value `w` and memory `m'`. */
  ghost predicate Leaves(x: Ctx, rt: Rt, m: Mem, w: Word, m': Mem)
  {
    exists k: nat :: NRun(x, rt, 0, m, k) == Leave(w, m')
  }

  /** The translated code returns `w` with memory `m'`. */
  ghost predicate Returns(f: Compiled, rt: Rt, m: Mem, w: Word, m': Mem)
  {
    exists n: nat :: CallNative(f, rt, m, n) == Exit(w, m')
  }

  lemma LeavesExits(r: Region, rt: Rt, m: Mem, k: nat)
    requires Translation(r).Some? && |r.code| > 0 && NRun(CtxOf(r), rt, 0, m, k).Leave?
    ensures var o := NRun(CtxOf(r), rt, 0, m, k); Returns(Translation(r).value, rt, m, o.value, o.m)
  {
    hide NRun, Exec, ExecN, Translation, Made, Synced;
    var f := Translation(r).value;
    var p, c := Started(r, rt, m);
    var n := FromStart(r, rt, m, p, c, k);
    Chain(f.ir, rt, Config(f.entry, 0, map[], m), 1, c, n);
    var o := NRun(CtxOf(r), rt, 0, m, k);
    assert CallNative(f, rt, m, 1 + n) == Exit(o.value, o.m);
  }

  lemma FromStart(r: Region, rt: Rt, m: Mem, p: Pass, c: Config, k: nat) returns (n: nat)
    requires Leaders(r.code, r.boxed, 0, {0}).Some? && Translation(r).Some?
    requires Made(CtxOf(r), p, Translation(r).value.ir) && Synced(CtxOf(r), p, 0, c, m)
    requires NRun(CtxOf(r), rt, 0, m, k).Leave?
    ensures ExecN(Translation(r).value.ir, rt, c, n)
            == Exit(NRun(CtxOf(r), rt, 0, m, k).value, NRun(CtxOf(r), rt, 0, m, k).m)
  {
    hide NRun, Exec, ExecN, Translation, CtxOf;
    n := RunOn(CtxOf(r), p, Translation(r).value.ir, rt, 0, c, m, k);
  }

  lemma ExitsLeaves(r: Region, rt: Rt, m: Mem, n: nat) returns (k: nat)
    requires Translation(r).Some? && |r.code| > 0 && !CallNative(Translation(r).value, rt, m, n).At?
    requires forall k: nat :: !NRun(CtxOf(r), rt, 0, m, k).Bad?
    ensures NRun(CtxOf(r), rt, 0, m, k).Leave?
    ensures CallNative(Translation(r).value, rt, m, n)
            == Exit(NRun(CtxOf(r), rt, 0, m, k).value, NRun(CtxOf(r), rt, 0, m, k).m)
  {
    hide NRun, Exec, Translation, Made, Synced, CtxOf;
    var f := Translation(r).value;
    var p, c := Started(r, rt, m);
    if n > 0 { Chain(f.ir, rt, Config(f.entry, 0, map[], m), 1, c, n - 1); }
    k := BackToStart(r, rt, m, p, c, n - 1);
  }

  lemma BackToStart(r: Region, rt: Rt, m: Mem, p: Pass, c: Config, n: nat) returns (k: nat)
    requires Leaders(r.code, r.boxed, 0, {0}).Some? && Translation(r).Some?
    requires Made(CtxOf(r), p, Translation(r).value.ir) && Synced(CtxOf(r), p, 0, c, m)
    requires !ExecN(Translation(r).value.ir, rt, c, n).At?
    requires forall k: nat :: !NRun(CtxOf(r), rt, 0, m, k).Bad?
    ensures NRun(CtxOf(r), rt, 0, m, k).Leave?
    ensures ExecN(Translation(r).value.ir, rt, c, n)
            == Exit(NRun(CtxOf(r), rt, 0, m, k).value, NRun(CtxOf(r), rt, 0, m, k).m)
  {
    hide NRun, Exec, ExecN, Translation, CtxOf;
    k := RunBack(CtxOf(r), p, Translation(r).value.ir, rt, 0, c, m, n);
  }

  /** Translated code and the flat machine leave with the same value and memory, or neither leaves,
      as long as the flat machine never meets an instruction it cannot run; and the translated code
      never runs off a block. */
  lemma TranslationRefines(r: Region, rt: Rt, m: Mem)
    requires Translation(r).Some? && |r.code| > 0
    requires forall k: nat :: !NRun(CtxOf(r), rt, 0, m, k).Bad?
    ensures forall w, m' :: Returns(Translation(r).value, rt, m, w, m') <==> Leaves(CtxOf(r), rt, m, w, m')
    ensures forall n: nat :: CallNative(Translation(r).value, rt, m, n) != Fault
  {
    hide NRun, CallNative, CtxOf;
    var f := Translation(r).value;
    forall n: nat ensures CallNative(f, rt, m, n) != Fault {
      if !CallNative(f, rt, m, n).At? { var k := ExitsLeaves(r, rt, m, n); }
    }
    forall w, m' ensures Returns(f, rt, m, w, m') <==> Leaves(CtxOf(r), rt, m, w, m') {
      if Returns(f, rt, m, w, m') {
        var n: nat :| CallNative(f, rt, m, n) == Exit(w, m');
        var k := ExitsLeaves(r, rt, m, n);
      }
      if Leaves(CtxOf(r), rt, m, w, m') {
        var k: nat :| NRun(CtxOf(r), rt, 0, m, k) == Leave(w, m');
        LeavesExits(r, rt, m, k);
      }
    }
  }
}
