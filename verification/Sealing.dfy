/** The emitters leave no block half-made: after each of them every block has instructions, but for the
    block being filled and those the caller left open; and they name only blocks that exist. */
module Sealing {
  import opened Options
  import opened NanBox
  import opened Bytecode
  import opened Ir
  import opened Emit
  import opened Translate
  import opened Blocks

  /** The blocks an instruction names exist and are not among the banned ones. */
  predicate Lands(i: Inst, n: nat, banned: set<nat>)
  {
    match i
    case Br(to, _) => to < n && to !in banned
    case Brif(_, t, _, f, _) => t < n && t !in banned && f < n && f !in banned
    case _ => true
  }

  /** Every block has instructions, but for the current one and those in `open`; every name lands. */
  ghost predicate Good(b: Builder, open: set<nat>, banned: set<nat>)
  {
    && b.Ok() && (forall k | k in banned :: k < |b.blocks|)
    && (forall k | 0 <= k < |b.blocks| :: |b.blocks[k].insts| > 0 || k == b.cur || k in open)
    && (forall k, j | 0 <= k < |b.blocks| && 0 <= j < |b.blocks[k].insts| ::
          Lands(b.blocks[k].insts[j], |b.blocks|, banned))
  }

  predicate May(b: Builder, to: nat, banned: set<nat>) { to < |b.blocks| && to !in banned }

  // ------------------------------------------------------------------ primitives

  lemma GoodOk(b: Builder, open: set<nat>, banned: set<nat>)
    requires Good(b, open, banned)
    ensures b.Ok() && forall k | k in banned :: k < |b.blocks|
  {
  }

  lemma GoodIns(b: Builder, i: Inst, open: set<nat>, banned: set<nat>)
    requires Good(b, open, banned) && Lands(i, |b.blocks|, banned)
    ensures Good(Ins(b, i), open, banned) && |Ins(b, i).blocks| == |b.blocks| && Ins(b, i).cur == b.cur
    ensures Ins(b, i).Len() > 0
  {
    var r := Ins(b, i);
    forall k, j | 0 <= k < |r.blocks| && 0 <= j < |r.blocks[k].insts|
      ensures Lands(r.blocks[k].insts[j], |r.blocks|, banned)
    {
      if k != b.cur || j < b.Len() { assert r.blocks[k].insts[j] == b.blocks[k].insts[j]; }
    }
  }

  lemma GoodVals(b: Builder, v: nat, open: set<nat>, banned: set<nat>)
    requires Good(b, open, banned)
    ensures Good(b.(vals := v), open, banned)
  {
  }

  /** Bind a value, then an instruction. */
  lemma GoodBind(b: Builder, i: Inst, open: set<nat>, banned: set<nat>)
    requires Good(b, open, banned) && Lands(i, |b.blocks|, banned)
    ensures var r := Ins(b.(vals := b.vals + 1), i);
            Good(r, open, banned) && |r.blocks| == |b.blocks| && r.cur == b.cur && r.Len() > 0
  {
    hide Good, Ins;
    GoodOk(b, open, banned);
    GoodVals(b, b.vals + 1, open, banned);
    GoodIns(b.(vals := b.vals + 1), i, open, banned);
  }

  lemma GoodNew(b: Builder, open: set<nat>, banned: set<nat>)
    requires Good(b, open, banned)
    ensures Good(NewBlock(b).0, open + {|b.blocks|}, banned) && |NewBlock(b).0.blocks| == |b.blocks| + 1
    ensures Good(NewBlockParam(b).0, open + {|b.blocks|}, banned) && |NewBlockParam(b).0.blocks| == |b.blocks| + 1
    ensures |b.blocks| !in banned && NewBlock(b).0.cur == NewBlockParam(b).0.cur == b.cur
  {
    forall r: Builder | r == NewBlock(b).0 || r == NewBlockParam(b).0
      ensures Good(r, open + {|b.blocks|}, banned)
    {
      forall k, j | 0 <= k < |r.blocks| && 0 <= j < |r.blocks[k].insts|
        ensures Lands(r.blocks[k].insts[j], |r.blocks|, banned)
      {
        assert k < |b.blocks| && r.blocks[k] == b.blocks[k];
      }
    }
  }

  /** Leaving a block that has instructions for one that was left open. */
  lemma GoodTurn(b: Builder, k: nat, more: set<nat>, open: set<nat>, banned: set<nat>)
    requires Good(b, more, banned) && more <= open + {k} && k < |b.blocks| && b.Len() > 0
    ensures Good(SwitchTo(b, k), open, banned)
  {
  }

  lemma GoodMore(b: Builder, few: set<nat>, open: set<nat>, banned: set<nat>)
    requires Good(b, few, banned) && few <= open
    ensures Good(b, open, banned)
  {
  }

  lemma GoodLoad(b: Builder, r: nat, open: set<nat>, banned: set<nat>)
    requires Good(b, open, banned)
    ensures Good(LoadReg(b, r).0, open, banned) && |LoadReg(b, r).0.blocks| == |b.blocks|
  {
    hide Good, Ins;
    GoodOk(b, open, banned);
    GoodBind(b, Load(b.vals, Regs, r), open, banned);
  }

  lemma GoodStore(b: Builder, r: nat, e: Exp, open: set<nat>, banned: set<nat>)
    requires Good(b, open, banned)
    ensures Good(StoreReg(b, r, e), open, banned)
  {
    hide Good, Ins;
    GoodOk(b, open, banned);
    GoodIns(b, Store(Regs, r, e), open, banned);
  }

  // ------------------------------------------------------------------ guards, forks, diamonds

  lemma GoodGuard(b: Builder, bad: Exp, to: nat, arg: Arg, open: set<nat>, banned: set<nat>)
    requires Good(b, open, banned) && May(b, to, banned)
    ensures Good(Guard(b, bad, to, arg), open, banned)
    ensures Good(Require(b, bad, to, arg), open, banned)
  {
    hide Good, Ins, NewBlock;
    GoodOk(b, open, banned);
    GoodNew(b, open, banned);
    var (b1, cont) := NewBlock(b);
    GoodIns(b1, Brif(bad, to, arg, cont, NoArg), open + {cont}, banned);
    GoodIns(b1, Brif(bad, cont, NoArg, to, arg), open + {cont}, banned);
    GoodTurn(Ins(b1, Brif(bad, to, arg, cont, NoArg)), cont, open + {cont}, open, banned);
    GoodTurn(Ins(b1, Brif(bad, cont, NoArg, to, arg)), cont, open + {cont}, open, banned);
  }

  lemma GoodFork(b: Builder, cond: Exp, open: set<nat>, banned: set<nat>)
    requires Good(b, open, banned)
    ensures var (r, yes, no) := Fork(b, cond);
            Good(r, open + {yes, no}, banned) && r.Len() > 0 && yes !in banned && no !in banned
  {
    hide Good, Ins, NewBlock;
    GoodOk(b, open, banned);
    GoodNew(b, open, banned);
    var (b1, yes) := NewBlock(b);
    GoodNew(b1, open + {yes}, banned);
    var (b2, no) := NewBlock(b1);
    var i := Brif(cond, yes, NoArg, no, NoArg);
    GoodIns(b2, i, open + {yes} + {no}, banned);
    GoodMore(Ins(b2, i), open + {yes} + {no}, open + {yes, no}, banned);
  }

  lemma GoodSplit(b: Builder, cond: Exp, open: set<nat>, banned: set<nat>)
    requires Good(b, open, banned)
    ensures var d := Split(b, cond);
            Good(d.b, open + {d.yes, d.no, d.done}, banned) && d.b.Len() > 0
            && d.yes !in banned && d.no !in banned && d.done !in banned
  {
    hide Good, Ins, NewBlock, NewBlockParam;
    GoodOk(b, open, banned);
    GoodNew(b, open, banned);
    var (b1, yes) := NewBlock(b);
    GoodNew(b1, open + {yes}, banned);
    var (b2, no) := NewBlock(b1);
    GoodNew(b2, open + {yes} + {no}, banned);
    var (b3, done) := NewBlockParam(b2);
    var i := Brif(cond, yes, NoArg, no, NoArg);
    GoodIns(b3, i, open + {yes} + {no} + {done}, banned);
    GoodMore(Ins(b3, i), open + {yes} + {no} + {done}, open + {yes, no, done}, banned);
  }

  lemma GoodClose(a: Builder, b: Builder, to: nat, v: Exp, k: nat, more: set<nat>, open: set<nat>,
                  banned: set<nat>)
    requires Grows(a, b) && |a.blocks| <= k < |b.blocks|
    requires Good(b, more, banned) && more <= open + {k} && May(b, to, banned)
    ensures Good(Close(a, b, to, v, k), open, banned) && |Close(a, b, to, v, k).blocks| == |b.blocks|
  {
    hide Good, Ins;
    GoodOk(b, more, banned);
    GoodIns(b, Br(to, Arg(v)), more, banned);
    GrowsTrans(a, b, Ins(b, Br(to, Arg(v))));
    GoodTurn(Ins(b, Br(to, Arg(v))), k, more, open, banned);
  }

  lemma GoodChoose(b: Builder, cond: Exp, yes: Exp, no: Exp, open: set<nat>, banned: set<nat>)
    requires Good(b, open, banned)
    ensures Good(Choose(b, cond, yes, no).0, open, banned)
  {
    hide Good, Split, Close;
    GoodOk(b, open, banned);
    var d := Split(b, cond);
    GoodSplit(b, cond, open, banned);
    GoodTurn(d.b, d.yes, open + {d.yes, d.no, d.done}, open + {d.no, d.done}, banned);
    var o := Open(b, d.b, d.yes);
    GoodClose(b, o, d.done, yes, d.no, open + {d.no, d.done}, open + {d.done}, banned);
    var b1 := Close(b, o, d.done, yes, d.no);
    GoodClose(b, b1, d.done, no, d.done, open + {d.done}, open, banned);
  }

  lemma GoodBox(b: Builder, e: Exp, open: set<nat>, banned: set<nat>)
    requires Good(b, open, banned)
    ensures Good(BoxI64(b, e).0, open, banned) && Good(BoxF64(b, e).0, open, banned)
  {
    hide Good, Choose;
    GoodOk(b, open, banned);
    GoodChoose(b, InI32(e), SmiBitsE(Un(Red32, e)), Bin(Add64, Un(FcvtInt, e), K(OFFSET)), open, banned);
    GoodChoose(b, SmiOk(e), SmiBitsE(Un(FcvtSat32, e)), Bin(Add64, e, K(OFFSET)), open, banned);
  }

  // ------------------------------------------------------------------ boxed operators

  lemma GoodProduct(a: Builder, b: Builder, x: Exp, y: Exp, narrowed: Exp, done: nat, next: nat, more: set<nat>,
                    open: set<nat>, banned: set<nat>)
    requires Grows(a, b) && |a.blocks| <= next < |b.blocks|
    requires Good(b, more, banned) && more <= open + {next} && May(b, done, banned)
    ensures Good(Product(a, b, x, y, narrowed, done, next), open, banned)
  {
    hide Good, Fork, Close, BoxF64, BoxI64;
    GoodOk(b, more, banned);
    var cond := Bin(IEq, narrowed, K(0));
    GoodFork(b, cond, more, banned);
    var (b2, zbox, ibox) := Fork(b, cond);
    GoodTurn(b2, zbox, more + {zbox, ibox}, more + {ibox}, banned);
    var o := Open(b, b2, zbox);
    var f := FloatOp(MUL, Un(FcvtInt, x), Un(FcvtInt, y));
    GoodBox(o, f, more + {ibox}, banned);
    var (b3, p) := BoxF64(o, f);
    GrowsTrans(b, o, b3);
    GoodClose(b, b3, done, p, ibox, more + {ibox}, more, banned);
    var b4 := Close(b, b3, done, p, ibox);
    GoodBox(b4, narrowed, more, banned);
    var (b5, i) := BoxI64(b4, narrowed);
    GrowsTrans(b, b4, b5); GrowsTrans(a, b, b5);
    GoodClose(a, b5, done, i, next, more, open, banned);
  }

  lemma GoodSmi(a: Builder, b: Builder, fine: nat, pc: nat, op: int, x: Exp, y: Exp, done: nat, next: nat,
                more: set<nat>, open: set<nat>, banned: set<nat>)
    requires Grows(a, b) && |a.blocks| <= next < |b.blocks|
    requires Good(b, more, banned) && more <= open + {next} && May(b, done, banned) && May(b, fine, banned)
    ensures Good(SmiArith(a, b, fine, pc, op, x, y, done, next), open, banned)
  {
    hide Good, Guard, Close, BoxI64, Product;
    GoodOk(b, more, banned);
    GoodGuard(b, OutOfBand(WideOp(op, x, y)), fine, Arg(K(pc)), more, banned);
    var (b1, narrowed) := GuardI128(b, fine, Arg(K(pc)), WideOp(op, x, y));
    GrowsTrans(a, b, b1);
    if op == MUL {
      GoodProduct(a, b1, x, y, narrowed, done, next, more, open, banned);
    } else {
      GoodBox(b1, narrowed, more, banned);
      var (b2, i) := BoxI64(b1, narrowed);
      GrowsTrans(b, b1, b2); GrowsTrans(a, b, b2);
      GoodClose(a, b2, done, i, next, more, open, banned);
    }
  }

  lemma GoodFloat(a: Builder, b: Builder, f: Exp, done: nat, more: set<nat>, open: set<nat>, banned: set<nat>)
    requires Grows(a, b) && |a.blocks| <= done < |b.blocks|
    requires Good(b, more, banned) && more <= open + {done} && May(b, done, banned)
    ensures Good(F64Arith(a, b, f, done), open, banned)
  {
    hide Good, Close, BoxF64;
    GoodOk(b, more, banned);
    GoodBox(b, f, more, banned);
    var (b1, v) := BoxF64(b, f);
    GrowsTrans(a, b, b1);
    GoodClose(a, b1, done, v, done, more, open, banned);
  }

  lemma GoodArith(b: Builder, fine: nat, pc: nat, op: int, isNumber: Exp, isSmi: Exp, x: Exp, y: Exp, fx: Exp, fy: Exp,
                  open: set<nat>, banned: set<nat>)
    requires Good(b, open, banned) && May(b, fine, banned)
    ensures Good(BoxedArith(b, fine, pc, op, isNumber, isSmi, x, y, fx, fy).0, open, banned)
  {
    hide Good, Require, Split, SmiArith, F64Arith;
    GoodOk(b, open, banned);
    GoodGuard(b, isNumber, fine, Arg(K(pc)), open, banned);
    var b1 := Require(b, isNumber, fine, Arg(K(pc)));
    GoodSplit(b1, isSmi, open, banned);
    var d := Split(b1, isSmi);
    GrowsTrans(b, b1, d.b);
    GoodTurn(d.b, d.yes, open + {d.yes, d.no, d.done}, open + {d.no, d.done}, banned);
    var o := Open(b, d.b, d.yes);
    GoodSmi(b, o, fine, pc, op, x, y, d.done, d.no, open + {d.no, d.done}, open + {d.done}, banned);
    var b2 := SmiArith(b, o, fine, pc, op, x, y, d.done, d.no);
    GoodFloat(b, b2, FloatOp(op, fx, fy), d.done, open + {d.done}, open, banned);
  }

  lemma GoodBoxed(b: Builder, fine: nat, pc: nat, test: Exp, e: Exp, open: set<nat>, banned: set<nat>)
    requires Good(b, open, banned) && May(b, fine, banned)
    ensures Good(BoxedInt(b, fine, pc, test, e).0, open, banned)
    ensures Good(BoxedFloat(b, fine, pc, test, e).0, open, banned)
  {
    hide Good, Require, BoxI64, BoxF64;
    GoodOk(b, open, banned);
    GoodGuard(b, test, fine, Arg(K(pc)), open, banned);
    GoodBox(Require(b, test, fine, Arg(K(pc))), e, open, banned);
  }

  lemma GoodRem(b: Builder, rem: Exp, isNegZero: Exp, open: set<nat>, banned: set<nat>)
    requires Good(b, open, banned)
    ensures Good(BoxRem(b, rem, isNegZero).0, open, banned)
  {
    hide Good, Split, Close, BoxF64, BoxI64;
    GoodOk(b, open, banned);
    GoodSplit(b, isNegZero, open, banned);
    var d := Split(b, isNegZero);
    GoodTurn(d.b, d.yes, open + {d.yes, d.no, d.done}, open + {d.no, d.done}, banned);
    var o := Open(b, d.b, d.yes);
    GoodBox(o, K(NEG_ZERO), open + {d.no, d.done}, banned);
    var (b1, nz) := BoxF64(o, K(NEG_ZERO));
    GrowsTrans(b, o, b1);
    GoodClose(b, b1, d.done, nz, d.no, open + {d.no, d.done}, open + {d.done}, banned);
    var b2 := Close(b, b1, d.done, nz, d.no);
    GoodBox(b2, rem, open + {d.done}, banned);
    var (b3, i) := BoxI64(b2, rem);
    GrowsTrans(b, b2, b3);
    GoodClose(b, b3, d.done, i, d.done, open + {d.done}, open, banned);
  }

  lemma GoodMod(b: Builder, fine: nat, pc: nat, l: Exp, r: Exp, open: set<nat>, banned: set<nat>)
    requires Good(b, open, banned) && May(b, fine, banned)
    ensures Good(BoxedMod(b, fine, pc, l, r).0, open, banned)
  {
    hide Good, Require, BoxRem;
    GoodOk(b, open, banned);
    var num := Both(IsNumberE(l), IsNumberE(r));
    GoodGuard(b, num, fine, Arg(K(pc)), open, banned);
    var b1 := Require(b, num, fine, Arg(K(pc)));
    GoodGuard(b1, RemDefined(l, r), fine, Arg(K(pc)), open, banned);
    GoodRem(Require(b1, RemDefined(l, r), fine, Arg(K(pc))), RemE(l, r), RemIsNegZero(l, r), open, banned);
  }

  lemma GoodCompare(b: Builder, fine: nat, pc: nat, op: int, l: Exp, r: Exp, open: set<nat>, banned: set<nat>)
    requires Good(b, open, banned) && May(b, fine, banned)
    ensures Good(BoxedCompare(b, fine, pc, op, l, r).0, open, banned)
  {
    hide Good, Require, Choose;
    GoodOk(b, open, banned);
    var num := Both(IsNumberE(l), IsNumberE(r));
    GoodGuard(b, num, fine, Arg(K(pc)), open, banned);
    GoodChoose(Require(b, num, fine, Arg(K(pc))), Both(IsSmiE(l), IsSmiE(r)),
      Bin(IntCmp(op), UnboxSmiE(l), UnboxSmiE(r)), Bin(FloatCmp(op), ToF64E(l), ToF64E(r)), open, banned);
  }

  lemma GoodAfter(b: Builder, pc: nat, fine: nat, throwing: nat, open: set<nat>, banned: set<nat>)
    requires Good(b, open, banned) && May(b, fine, banned) && May(b, throwing, banned)
    ensures Good(AfterHelper(b, pc, fine, throwing), open, banned)
  {
    hide Good, Fork, Ins;
    GoodOk(b, open, banned);
    var missed := Id(b.vals);
    GoodBind(b, LoadFlag(b.vals), open, banned);
    var b1 := Ins(b.(vals := b.vals + 1), LoadFlag(b.vals));
    GoodFork(b1, missed, open, banned);
    var (b2, slow, cont) := Fork(b1, missed);
    GrowsTrans(b, b1, b2);
    GoodTurn(b2, slow, open + {slow, cont}, open + {cont}, banned);
    var b3 := Open(b, b2, slow);
    var i := Brif(Bin(IEq, missed, K(2)), throwing, NoArg, fine, Arg(K(pc)));
    GoodIns(b3, i, open + {cont}, banned);
    GoodTurn(Ins(b3, i), cont, open + {cont}, open, banned);
  }

  // ------------------------------------------------------------------ one instruction

  /** The exits are there and may be named. */
  predicate Exits3(x: Ctx, b: Builder, banned: set<nat>)
  {
    May(b, x.deopt, banned) && May(b, x.fine, banned) && May(b, x.throwing, banned)
  }

  lemma GoodUnary(x: Ctx, b: Builder, pc: nat, op: int, dst: nat, src: nat, open: set<nat>, banned: set<nat>)
    requires Good(b, open, banned) && Exits3(x, b, banned) && EmitUnary(x, b, pc, op, dst, src).Some?
    ensures Good(EmitUnary(x, b, pc, op, dst, src).value.b, open, banned)
  {
    hide Good, Ins, Require, Guard, BoxedInt, BoxedFloat, BoxedArith, StoreReg;
    GoodOk(b, open, banned);
    GoodLoad(b, src, open, banned);
    var (b1, v) := LoadReg(b, src);
    if op == MOVE || (!x.boxed && op in {TO_NUMERIC, NOT, BIT_NOT}) {
      var e := if op == NOT then Bin(IEq, v, K(0)) else if op == BIT_NOT then RawNot(v) else v;
      GoodStore(b1, dst, e, open, banned);
    } else if op == TO_NUMERIC || op == NOT {
      var test := if op == NOT then IsSmiE(v) else IsNumberE(v);
      GoodGuard(b1, test, x.fine, Arg(K(pc)), open, banned);
      var b2 := Require(b1, test, x.fine, Arg(K(pc)));
      GoodStore(b2, dst, if op == NOT then Bin(IEq, UnboxSmiE(v), K(0)) else v, open, banned);
    } else if op == BIT_NOT {
      GoodBoxed(b1, x.fine, pc, IsSmiE(v), RawNot(UnboxSmiE(v)), open, banned);
      var (b2, e) := BoxedInt(b1, x.fine, pc, IsSmiE(v), RawNot(UnboxSmiE(v)));
      GoodStore(b2, dst, e, open, banned);
    } else if op == NEG {
      GoodBoxed(b1, x.fine, pc, IsNumberE(v), Un(Fneg, ToF64E(v)), open, banned);
      var (b2, e) := BoxedFloat(b1, x.fine, pc, IsNumberE(v), Un(Fneg, ToF64E(v)));
      GoodStore(b2, dst, e, open, banned);
    } else if x.boxed {
      GoodArith(b1, x.fine, pc, op, IsNumberE(v), IsSmiE(v), UnboxSmiE(v), K(1), ToF64E(v), Un(FcvtInt, K(1)), open,
          banned);
      var (b2, e) := BoxedIncDec(b1, x.fine, pc, op, v);
      GoodStore(b2, dst, e, open, banned);
    } else {
      GoodGuard(b1, OutOfBand(WideOp(op, v, K(1))), x.deopt, NoArg, open, banned);
      var (b2, e) := GuardI128(b1, x.deopt, NoArg, WideOp(op, v, K(1)));
      GoodStore(b2, dst, e, open, banned);
    }
  }

  lemma GoodBinaryValue(x: Ctx, b: Builder, pc: nat, op: int, l: Exp, r: Exp, open: set<nat>, banned: set<nat>)
    requires Good(b, open, banned) && Exits3(x, b, banned) && BinaryValue(x, b, pc, op, l, r).Some?
    ensures Good(BinaryValue(x, b, pc, op, l, r).value.0, open, banned)
  {
    hide Good, Guard, BoxedArith, BoxedInt, BoxedCompare, BoxedFloat, BoxedMod;
    GoodOk(b, open, banned);
    if IsArith(op) && x.boxed {
      GoodArith(b, x.fine, pc, op, Both(IsNumberE(l), IsNumberE(r)), Both(IsSmiE(l), IsSmiE(r)),
        UnboxSmiE(l), UnboxSmiE(r), ToF64E(l), ToF64E(r), open, banned);
    } else if IsArith(op) {
      GoodGuard(b, OutOfBand(WideOp(op, l, r)), x.deopt, NoArg, open, banned);
    } else if IsBitBinary(op) {
      GoodBoxed(b, x.fine, pc, Both(IsSmiE(l), IsSmiE(r)), RawBits(op, UnboxSmiE(l), UnboxSmiE(r)), open, banned);
    } else if IsCompare(op) {
      GoodCompare(b, x.fine, pc, op, l, r, open, banned);
    } else if op == DIV {
      GoodBoxed(b, x.fine, pc, Both(IsNumberE(l), IsNumberE(r)), Bin(Fdiv, ToF64E(l), ToF64E(r)), open, banned);
    } else {
      GoodMod(b, x.fine, pc, l, r, open, banned);
    }
  }

  lemma GoodBinary(x: Ctx, b: Builder, pc: nat, op: int, dst: nat, l: nat, r: nat, open: set<nat>, banned: set<nat>)
    requires Good(b, open, banned) && Exits3(x, b, banned) && EmitBinary(x, b, pc, op, dst, l, r).Some?
    ensures Good(EmitBinary(x, b, pc, op, dst, l, r).value.b, open, banned)
  {
    hide Good, Ins, AfterHelper, BinaryValue, StoreReg;
    GoodOk(b, open, banned);
    GoodLoad(b, l, open, banned);
    var (b1, lv) := LoadReg(b, l);
    GoodLoad(b1, r, open, banned);
    var (b2, rv) := LoadReg(b1, r);
    if op == GET_PROP_DYN {
      GoodBind(b2, GetElemHelper(b2.vals, lv, rv), open, banned);
      var b3 := Ins(b2.(vals := b2.vals + 1), GetElemHelper(b2.vals, lv, rv));
      GoodAfter(b3, pc, x.fine, x.throwing, open, banned);
      GoodStore(AfterHelper(b3, pc, x.fine, x.throwing), dst, Id(b2.vals), open, banned);
    } else {
      GoodBinaryValue(x, b2, pc, op, lv, rv, open, banned);
      var p := BinaryValue(x, b2, pc, op, lv, rv).value;
      GoodStore(p.0, dst, p.1, open, banned);
    }
  }

  lemma GoodAccess(x: Ctx, b: Builder, pc: nat, i: Instr, open: set<nat>, banned: set<nat>)
    requires Good(b, open, banned) && Exits3(x, b, banned) && EmitAccess(x, b, pc, i).Some?
    ensures var e := EmitAccess(x, b, pc, i).value; Good(e.b, open, banned) && (e.ended ==> e.b.Len() > 0)
  {
    hide Good, Ins, AfterHelper, StoreReg, Guard, SiteKey;
    GoodOk(b, open, banned);
    match i
    case GetProp(dst, obj, _) => GoodGet(x, b, pc, dst, obj, SiteKey(x.sites, pc).value, open, banned);
    case SetProp(obj, _, val) =>
      GoodLoad(b, obj, open, banned);
      var (b1, recv) := LoadReg(b, obj);
      GoodHelper(x, b1, pc, val, SetPropHelper(recv, SiteKey(x.sites, pc).value, Id(b1.vals)), open, banned);
    case SetElem(obj, key, val) =>
      GoodLoad(b, obj, open, banned);
      var (b1, recv) := LoadReg(b, obj);
      GoodLoad(b1, key, open, banned);
      var (b2, k) := LoadReg(b1, key);
      GoodHelper(x, b2, pc, val, SetElemHelper(recv, k, Id(b2.vals)), open, banned);
    case Call(base, nargs, dst) =>
      GoodIns(b, CallHelper(base, nargs, dst), open, banned);
      var b1 := Ins(b, CallHelper(base, nargs, dst));
      GoodBind(b1, LoadFlag(b1.vals), open, banned);
      GoodGuard(Ins(b1.(vals := b1.vals + 1), LoadFlag(b1.vals)), Id(b1.vals), x.throwing, NoArg, open, banned);
    case _ => GoodIns(b, Br(x.fine, Arg(K(pc))), open, banned);
  }

  lemma GoodGet(x: Ctx, b: Builder, pc: nat, dst: nat, obj: nat, key: string, open: set<nat>, banned: set<nat>)
    requires Good(b, open, banned) && Exits3(x, b, banned)
    ensures var (b1, recv) := LoadReg(b, obj);
            var b2 := Ins(b1.(vals := b1.vals + 1), GetPropHelper(b1.vals, recv, key));
            Good(StoreReg(AfterHelper(b2, pc, x.fine, x.throwing), dst, Id(b1.vals)), open, banned)
  {
    hide Good, Ins, AfterHelper, StoreReg;
    GoodOk(b, open, banned);
    GoodLoad(b, obj, open, banned);
    var (b1, recv) := LoadReg(b, obj);
    var h := GetPropHelper(b1.vals, recv, key);
    GoodBind(b1, h, open, banned);
    var b2 := Ins(b1.(vals := b1.vals + 1), h);
    GoodAfter(b2, pc, x.fine, x.throwing, open, banned);
    GoodStore(AfterHelper(b2, pc, x.fine, x.throwing), dst, Id(b1.vals), open, banned);
  }

  /** The last operand of a store loaded, then its helper. */
  lemma GoodHelper(x: Ctx, b: Builder, pc: nat, val: nat, h: Inst, open: set<nat>, banned: set<nat>)
    requires Good(b, open, banned) && Exits3(x, b, banned) && Lands(h, |b.blocks|, banned)
    ensures Good(AfterHelper(Ins(LoadReg(b, val).0, h), pc, x.fine, x.throwing), open, banned)
  {
    hide Good, Ins, AfterHelper;
    GoodOk(b, open, banned);
    GoodLoad(b, val, open, banned);
    var b1 := LoadReg(b, val).0;
    GoodIns(b1, h, open, banned);
    GoodAfter(Ins(b1, h), pc, x.fine, x.throwing, open, banned);
  }

  /** The blocks the jumps of the instruction name may be named. */
  ghost predicate MayJump(x: Ctx, b: Builder, pc: nat, banned: set<nat>)
    requires Whole(x.code, pc)
  {
    var i := Fetch(x.code, pc);
    && (i.Jump? || i.Branch? ==> Target(x.code, pc) in x.blockOf && May(b, x.blockOf[Target(x.code, pc)], banned))
    && (i.Branch? ==> Next(x.code, pc) in x.blockOf && May(b, x.blockOf[Next(x.code, pc)], banned))
  }

  /** A value loaded and put into a register. */
  lemma GoodMove(b: Builder, i: Inst, dst: nat, open: set<nat>, banned: set<nat>)
    requires Good(b, open, banned) && Lands(i, |b.blocks|, banned)
    ensures Good(StoreReg(Ins(b.(vals := b.vals + 1), i), dst, Id(b.vals)), open, banned)
  {
    hide Good, Ins, StoreReg;
    GoodOk(b, open, banned);
    GoodBind(b, i, open, banned);
    GoodStore(Ins(b.(vals := b.vals + 1), i), dst, Id(b.vals), open, banned);
  }

  /** A register loaded, and an instruction that uses it. */
  lemma GoodEnd(b: Builder, src: nat, i: Inst, open: set<nat>, banned: set<nat>)
    requires Good(b, open, banned) && Lands(i, |b.blocks|, banned)
    ensures Good(Ins(LoadReg(b, src).0, i), open, banned) && Ins(LoadReg(b, src).0, i).Len() > 0
  {
    hide Good, Ins;
    GoodOk(b, open, banned);
    GoodLoad(b, src, open, banned);
    GoodIns(LoadReg(b, src).0, i, open, banned);
  }

  /** Emitting constants, operators and variables. */
  lemma GoodPlain(x: Ctx, b: Builder, pc: nat, open: set<nat>, banned: set<nat>)
    requires Whole(x.code, pc) && Good(b, open, banned) && Exits3(x, b, banned)
    requires b.Ok() && EmitInstr(x, b, pc).Some?
    requires var i := Fetch(x.code, pc);
             i.LoadK? || i.LoadLit? || i.Unary? || i.Binary? || i.GetName? || i.SetName? || i.Hoist?
    ensures var e := EmitInstr(x, b, pc).value; Good(e.b, open, banned) && !e.ended
  {
    hide Good, Ins, EmitUnary, EmitBinary, EmitAccess, StoreReg, SlotOf, Fetch, Next, Exits3;
    match Fetch(x.code, pc)
    case LoadK(dst, k) => GoodMove(b, Load(b.vals, Consts, k), dst, open, banned);
    case LoadLit(op, dst) => forall e { GoodStore(b, dst, e, open, banned); }
    case Unary(op, dst, src) => GoodUnary(x, b, pc, op, dst, src, open, banned); UnaryGoesOn(x, b, pc, op, dst, src);
    case Binary(op, dst, l, r) =>
      GoodBinary(x, b, pc, op, dst, l, r, open, banned);
      BinaryGoesOn(x, b, pc, op, dst, l, r);
    case GetName(op, dst, k) => GoodMove(b, Load(b.vals, Locals, SlotOf(x.slots, k).value), dst, open, banned);
    case SetName(_, k, src) => GoodEnd(b, src, Store(Locals, SlotOf(x.slots, k).value, Id(b.vals)), open, banned);
    case Hoist(_) =>
  }

  /** Emitting any instruction. */
  lemma GoodInstr(x: Ctx, b: Builder, pc: nat, open: set<nat>, banned: set<nat>)
    requires Whole(x.code, pc) && Good(b, open, banned) && Exits3(x, b, banned) && MayJump(x, b, pc, banned)
    requires b.Ok() && EmitInstr(x, b, pc).Some?
    ensures var e := EmitInstr(x, b, pc).value; Good(e.b, open, banned) && (e.ended ==> e.b.Len() > 0)
  {
    hide Good, Ins, EmitUnary, EmitBinary, EmitAccess, StoreReg, SlotOf, Fetch, Exits3;
    match Fetch(x.code, pc)
    case Jump(rel) => GoodIns(b, Br(x.blockOf[Next(x.code, pc) + rel], NoArg), open, banned);
    case Branch(op, cond, rel) => GoodBranch(x, b, op, cond, Next(x.code, pc) + rel, Next(x.code, pc), open, banned);
    case Return(src) => GoodEnd(b, src, Ret(Id(b.vals)), open, banned);
    case Stop(_) => GoodIns(b, Ret(K(0)), open, banned);
    case GetProp(_, _, _) => GoodAccess(x, b, pc, Fetch(x.code, pc), open, banned);
    case SetProp(_, _, _) => GoodAccess(x, b, pc, Fetch(x.code, pc), open, banned);
    case SetElem(_, _, _) => GoodAccess(x, b, pc, Fetch(x.code, pc), open, banned);
    case Call(_, _, _) => GoodAccess(x, b, pc, Fetch(x.code, pc), open, banned);
    case NewClosure(_, _) => GoodAccess(x, b, pc, Fetch(x.code, pc), open, banned);
    case Other(_) =>
    case _ => GoodPlain(x, b, pc, open, banned);
  }

  lemma GoodBranch(x: Ctx, b: Builder, op: int, cond: nat, target: int, next: int, open: set<nat>, banned: set<nat>)
    requires Good(b, open, banned) && b.Ok() && EmitBranch(x, b, op, cond, target, next).Some?
    requires May(b, x.blockOf[target], banned) && May(b, x.blockOf[next], banned)
    ensures var e := EmitBranch(x, b, op, cond, target, next).value; Good(e.b, open, banned) && e.b.Len() > 0
  {
    hide Good, Ins;
    GoodLoad(b, cond, open, banned);
    var (b1, v) := LoadReg(b, cond);
    var isTrue, t, f := Bin(INe, v, K(0)), x.blockOf[target], x.blockOf[next];
    GoodIns(b1, if op == JMP_IF_TRUE then Brif(isTrue, t, NoArg, f, NoArg) else Brif(isTrue, f, NoArg, t, NoArg), open,
      banned);
  }
}
