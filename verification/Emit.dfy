/** The code emitters of jit-native/src (lib.rs, bitwise.rs, numeric.rs): each appends the IR of
    one instruction to the builder, following the source instruction by instruction. */
module Emit {
  import opened Options
  import opened Bits
  import opened NanBox
  import opened Bytecode
  import opened Ir

  /** The function builder: the blocks so far, the block being filled, the number of bound values. */
  datatype Builder = Builder(blocks: Ir, cur: nat, vals: nat)
  {
    predicate Ok() { cur < |blocks| }
    function Len(): nat requires Ok() { |blocks[cur].insts| }
  }

  /** `b'` continues `b`: existing instructions stay, and only the current block and blocks created
      since were appended to. */
  ghost predicate Grows(b: Builder, b': Builder)
  {
    && b.Ok() && b'.Ok()
    && |b.blocks| <= |b'.blocks| && b.vals <= b'.vals
    && (b'.cur == b.cur || b'.cur >= |b.blocks|)
    && (forall k | 0 <= k < |b.blocks| ::
          b.blocks[k].param == b'.blocks[k].param && b.blocks[k].insts <= b'.blocks[k].insts)
    && (forall k | 0 <= k < |b.blocks| && k != b.cur :: b.blocks[k] == b'.blocks[k])
  }

  /** As `Grows`, but the current block may be any block. */
  ghost predicate Keeps(b: Builder, b': Builder)
  {
    && b.Ok() && b'.Ok()
    && |b.blocks| <= |b'.blocks| && b.vals <= b'.vals
    && (forall k | 0 <= k < |b.blocks| ::
          b.blocks[k].param == b'.blocks[k].param && b.blocks[k].insts <= b'.blocks[k].insts)
    && (forall k | 0 <= k < |b.blocks| && k != b.cur :: b.blocks[k] == b'.blocks[k])
  }

  lemma GrowsKeeps(a: Builder, b: Builder, c: Builder)
    requires Grows(a, b) && Keeps(b, c)
    ensures Keeps(a, c)
  {
    forall k | 0 <= k < |a.blocks|
      ensures a.blocks[k].param == c.blocks[k].param && a.blocks[k].insts <= c.blocks[k].insts
    {
      assert a.blocks[k].insts <= b.blocks[k].insts <= c.blocks[k].insts;
    }
  }

  /** `ir` contains everything emitted into `b`. */
  ghost predicate Within(b: Builder, ir: Ir)
  {
    && b.Ok() && |b.blocks| <= |ir|
    && (forall k | 0 <= k < |b.blocks| ::
          b.blocks[k].param == ir[k].param && b.blocks[k].insts <= ir[k].insts)
  }

  lemma GrowsTrans(a: Builder, b: Builder, c: Builder)
    requires Grows(a, b) && Grows(b, c)
    ensures Grows(a, c)
  {
    forall k | 0 <= k < |a.blocks|
      ensures a.blocks[k].param == c.blocks[k].param && a.blocks[k].insts <= c.blocks[k].insts
    {
      assert a.blocks[k].insts <= b.blocks[k].insts <= c.blocks[k].insts;
    }
  }

  lemma GrowsWithin(a: Builder, b: Builder, ir: Ir)
    requires Grows(a, b) && Within(b, ir)
    ensures Within(a, ir)
  {
    forall k | 0 <= k < |a.blocks|
      ensures a.blocks[k].param == ir[k].param && a.blocks[k].insts <= ir[k].insts
    {
      assert a.blocks[k].insts <= b.blocks[k].insts <= ir[k].insts;
    }
  }

  /** Turning to a block created since `a` still continues `a`. */
  lemma SwitchGrows(a: Builder, b: Builder, k: nat)
    requires Grows(a, b) && |a.blocks| <= k < |b.blocks|
    ensures Grows(a, SwitchTo(b, k))
  {
  }

  // ------------------------------------------------------------------ builder primitives

  function Ins(b: Builder, i: Inst): (r: Builder)
    requires b.Ok()
    ensures Grows(b, r)
  {
    b.(blocks := b.blocks[b.cur := b.blocks[b.cur].(insts := b.blocks[b.cur].insts + [i])])
  }

  /** A fresh empty block. */
  function NewBlock(b: Builder): (r: (Builder, nat))
    requires b.Ok()
    ensures Grows(b, r.0) && r.1 == |b.blocks|
  {
    (b.(blocks := b.blocks + [Block(NoParam, [])]), |b.blocks|)
  }

  /** A fresh empty block with a parameter; the parameter is the value `Id(b.vals)`. */
  function NewBlockParam(b: Builder): (r: (Builder, nat))
    requires b.Ok()
    ensures Grows(b, r.0) && r.1 == |b.blocks|
  {
    (b.(blocks := b.blocks + [Block(Param(b.vals), [])], vals := b.vals + 1), |b.blocks|)
  }

  function SwitchTo(b: Builder, k: nat): (r: Builder)
    requires b.Ok() && k < |b.blocks|
  {
    b.(cur := k)
  }

  /** Bind a fresh value with an instruction made from its id. */
  function LoadReg(b: Builder, r: nat): (res: (Builder, Exp))
    requires b.Ok()
    ensures Grows(b, res.0)
  {
    (Ins(b.(vals := b.vals + 1), Load(b.vals, Regs, r)), Id(b.vals))
  }

  function StoreReg(b: Builder, r: nat, e: Exp): (res: Builder)
    requires b.Ok()
    ensures Grows(b, res)
  {
    Ins(b, Store(Regs, r, e))
  }

  // ------------------------------------------------------------------ value helpers

  function IsSmiE(v: Exp): Exp { Bin(IEq, Bin(AndI64, v, K(NUMBER_TAG)), K(NUMBER_TAG)) }
  function IsNumberE(v: Exp): Exp { Bin(INe, Bin(AndI64, v, K(NUMBER_TAG)), K(0)) }
  function UnboxSmiE(v: Exp): Exp { Un(Sext, Un(Red32, Bin(AndI64, v, K(0xFFFF_FFFF)))) }
  function ToF64E(v: Exp): Exp
  {
    Sel(IsSmiE(v), Un(FcvtInt, UnboxSmiE(v)), Bin(Add64, v, K(-OFFSET)))
  }
  function SmiBitsE(i32: Exp): Exp { Bin(OrI64, Un(Uext32, i32), K(NUMBER_TAG)) }

  const F64_SAFE_INT: int := 9_007_199_254_740_992
  const I32_MIN: int := -2147483648
  const I32_MAX: int := 2147483647

  // ------------------------------------------------------------------ guards and boxing

  /** A branch to `to` when `bad`, else on into a fresh block. */
  function Guard(b: Builder, bad: Exp, to: nat, arg: Arg): (r: Builder)
    requires b.Ok()
    ensures Grows(b, r)
  {
    var (b1, cont) := NewBlock(b);
    var b2 := Ins(b1, Brif(bad, to, arg, cont, NoArg));
    GrowsTrans(b, b1, b2);
    assert b2.blocks[cont] == Block(NoParam, []);
    SwitchTo(b2, cont)
  }

  /** On into a fresh block when `good`, else a branch to `to`. */
  function Require(b: Builder, good: Exp, to: nat, arg: Arg): (r: Builder)
    requires b.Ok()
    ensures Grows(b, r)
  {
    var (b1, cont) := NewBlock(b);
    var b2 := Ins(b1, Brif(good, cont, NoArg, to, arg));
    GrowsTrans(b, b1, b2);
    SwitchTo(b2, cont)
  }

  function OutOfBand(v: Exp): Exp
  {
    var lim := Un(Sext, K(F64_SAFE_INT));
    Bin(BOr, Bin(Sgt, v, lim), Bin(Slt, v, Un(Ineg128, lim)))
  }

  /** `guard_i128_to_i64`. */
  function GuardI128(b: Builder, deopt: nat, pc: Arg, val: Exp): (r: (Builder, Exp))
    requires b.Ok()
    ensures Grows(b, r.0)
  {
    (Guard(b, OutOfBand(val), deopt, pc), Un(Red64, val))
  }

  /** Two blocks that meet in a third, `done`, whose parameter carries the result. */
  datatype Diamond = Diamond(b: Builder, yes: nat, no: nat, done: nat, res: Exp)

  function Split(b: Builder, cond: Exp): (d: Diamond)
    requires b.Ok()
    ensures Grows(b, d.b) && d.b.cur == b.cur
    ensures |b.blocks| == d.yes && d.no == d.yes + 1 && d.done == d.yes + 2 && |d.b.blocks| == d.yes + 3
    ensures d.b.blocks[d.yes] == Block(NoParam, []) && d.b.blocks[d.no] == Block(NoParam, [])
    ensures d.b.blocks[d.done] == Block(Param(b.vals), []) && d.res == Id(b.vals) && d.b.vals == b.vals + 1
  {
    var (b1, yes) := NewBlock(b);
    var (b2, no) := NewBlock(b1);
    var (b3, done) := NewBlockParam(b2);
    var b4 := Ins(b3, Brif(cond, yes, NoArg, no, NoArg));
    GrowsTrans(b, b1, b2); GrowsTrans(b, b2, b3); GrowsTrans(b, b3, b4);
    Diamond(b4, yes, no, done, Id(b2.vals))
  }

  /** Turn to block `k`, created since `a`. */
  function Open(ghost a: Builder, b: Builder, k: nat): (r: Builder)
    requires Grows(a, b) && |a.blocks| <= k < |b.blocks|
    ensures Grows(a, r)
  {
    SwitchGrows(a, b, k);
    SwitchTo(b, k)
  }

  /** End the current block by handing `v` to block `to`, and turn to block `k`. */
  function Close(ghost a: Builder, b: Builder, to: nat, v: Exp, k: nat): (r: Builder)
    requires Grows(a, b) && |a.blocks| <= k < |b.blocks|
    ensures Grows(a, r) && Keeps(b, r) && r.cur == k
  {
    var b1 := Ins(b, Br(to, Arg(v)));
    GrowsTrans(a, b, b1);
    Open(a, b1, k)
  }

  /** A diamond whose two arms are pure values. */
  function Choose(b: Builder, cond: Exp, yes: Exp, no: Exp): (r: (Builder, Exp))
    requires b.Ok()
    ensures Grows(b, r.0)
  {
    var d := Split(b, cond);
    var b1 := Close(b, Open(b, d.b, d.yes), d.done, yes, d.no);
    (Close(b, b1, d.done, no, d.done), d.res)
  }

  function InI32(r: Exp): Exp { Bin(BAnd, Bin(Sge, r, K(I32_MIN)), Bin(Sle, r, K(I32_MAX))) }

  /** `emit_box_i64`. */
  function BoxI64(b: Builder, r: Exp): (res: (Builder, Exp))
    requires b.Ok()
    ensures Grows(b, res.0)
  {
    Choose(b, InI32(r), SmiBitsE(Un(Red32, r)), Bin(Add64, Un(FcvtInt, r), K(OFFSET)))
  }

  function SmiOk(f: Exp): Exp
  {
    var isInt := Bin(Feq, f, Un(Ftrunc, f));
    var ge := Bin(Fge, f, Un(FcvtInt, K(I32_MIN)));
    var le := Bin(Fle, f, Un(FcvtInt, K(I32_MAX)));
    var inRange := Bin(BAnd, Bin(BAnd, isInt, ge), le);
    var negZero := Bin(BAnd, Bin(Feq, f, K(0)), Bin(Slt, f, K(0)));
    Bin(BAnd, inRange, Bin(BXor, negZero, K(1)))
  }

  /** `emit_box_f64`. */
  function BoxF64(b: Builder, f: Exp): (res: (Builder, Exp))
    requires b.Ok()
    ensures Grows(b, res.0)
  {
    Choose(b, SmiOk(f), SmiBitsE(Un(FcvtSat32, f)), Bin(Add64, f, K(OFFSET)))
  }

  // ------------------------------------------------------------------ boxed operators

  function Both(p: Exp, q: Exp): Exp { Bin(BAnd, p, q) }

  function WideOp(op: int, x: Exp, y: Exp): Exp
  {
    Bin(if op == ADD || op == INC then Add128 else if op == SUB || op == DEC then Sub128 else Mul128,
        Un(Sext, x), Un(Sext, y))
  }

  function FloatOp(op: int, x: Exp, y: Exp): Exp
  {
    Bin(if op == ADD || op == INC then Fadd else if op == SUB || op == DEC then Fsub else Fmul, x, y)
  }

  /** Two fresh blocks and a branch between them. */
  function Fork(b: Builder, cond: Exp): (r: (Builder, nat, nat))
    requires b.Ok()
    ensures Grows(b, r.0) && r.0.cur == b.cur
    ensures r.1 == |b.blocks| && r.2 == |b.blocks| + 1 && |r.0.blocks| == |b.blocks| + 2
    ensures r.0.blocks[r.1] == Block(NoParam, []) && r.0.blocks[r.2] == Block(NoParam, [])
  {
    var (b1, yes) := NewBlock(b);
    var (b2, no) := NewBlock(b1);
    GrowsTrans(b, b1, b2);
    GrowsTrans(b, b2, Ins(b2, Brif(cond, yes, NoArg, no, NoArg)));
    (Ins(b2, Brif(cond, yes, NoArg, no, NoArg)), yes, no)
  }

  /** Box a product: a zero goes through f64 to keep its sign. */
  function Product(ghost a: Builder, b: Builder, x: Exp, y: Exp, narrowed: Exp, done: nat, next: nat): (r: Builder)
    requires Grows(a, b) && |a.blocks| <= next < |b.blocks|
    ensures Grows(a, r) && Keeps(b, r) && r.cur == next
  {
    var (b2, zbox, ibox) := Fork(b, Bin(IEq, narrowed, K(0)));
    var o := Open(b, b2, zbox);
    var (b3, p) := BoxF64(o, FloatOp(MUL, Un(FcvtInt, x), Un(FcvtInt, y)));
    GrowsTrans(b, o, b3);
    var b4 := Close(b, b3, done, p, ibox);
    var (b5, i) := BoxI64(b4, narrowed);
    GrowsTrans(b, b4, b5); GrowsTrans(a, b, b5);
    GrowsKeeps(b, b5, Close(a, b5, done, i, next));
    Close(a, b5, done, i, next)
  }

  /** The SMI arm of an arithmetic operator, ending with the boxed result handed to `done`. */
  function SmiArith(ghost a: Builder, b: Builder, fine: nat, pc: nat, op: int, x: Exp, y: Exp, done: nat,
                    next: nat): (r: Builder)
    requires Grows(a, b) && |a.blocks| <= next < |b.blocks|
    ensures Grows(a, r) && Keeps(b, r) && r.cur == next
  {
    var (b1, narrowed) := GuardI128(b, fine, Arg(K(pc)), WideOp(op, x, y));
    GrowsTrans(a, b, b1);
    if op == MUL then
      GrowsKeeps(b, b1, Product(a, b1, x, y, narrowed, done, next));
      Product(a, b1, x, y, narrowed, done, next)
    else
      var (b2, i) := BoxI64(b1, narrowed);
      GrowsTrans(b, b1, b2); GrowsTrans(a, b, b2);
      GrowsKeeps(b, b2, Close(a, b2, done, i, next));
      Close(a, b2, done, i, next)
  }

  /** The float arm, ending with the boxed result handed to `done`. */
  function F64Arith(ghost a: Builder, b: Builder, f: Exp, done: nat): (r: Builder)
    requires Grows(a, b) && |a.blocks| <= done < |b.blocks|
    ensures Grows(a, r) && Keeps(b, r) && r.cur == done
  {
    var (b1, v) := BoxF64(b, f);
    GrowsTrans(a, b, b1);
    GrowsKeeps(b, b1, Close(a, b1, done, v, done));
    Close(a, b1, done, v, done)
  }

  /** `emit_boxed_num_binop`, and the boxed INC/DEC when `r` is the constant 1. */
  function BoxedArith(b: Builder, fine: nat, pc: nat, op: int,
                      isNumber: Exp, isSmi: Exp, x: Exp, y: Exp, fx: Exp, fy: Exp): (r: (Builder, Exp))
    requires b.Ok()
    ensures Grows(b, r.0)
  {
    var b1 := Require(b, isNumber, fine, Arg(K(pc)));
    var d := Split(b1, isSmi);
    GrowsTrans(b, b1, d.b);
    var b2 := SmiArith(b, Open(b, d.b, d.yes), fine, pc, op, x, y, d.done, d.no);
    (F64Arith(b, b2, FloatOp(op, fx, fy), d.done), d.res)
  }

  function BoxedBinary(b: Builder, fine: nat, pc: nat, op: int, l: Exp, r: Exp): (res: (Builder, Exp))
    requires b.Ok()
    ensures Grows(b, res.0)
  {
    BoxedArith(b, fine, pc, op, Both(IsNumberE(l), IsNumberE(r)), Both(IsSmiE(l), IsSmiE(r)),
      UnboxSmiE(l), UnboxSmiE(r), ToF64E(l), ToF64E(r))
  }

  /** Boxed INC and DEC; the float arm adds the double 1.0. */
  function BoxedIncDec(b: Builder, fine: nat, pc: nat, op: int, v: Exp): (res: (Builder, Exp))
    requires b.Ok()
    ensures Grows(b, res.0)
  {
    BoxedArith(b, fine, pc, op, IsNumberE(v), IsSmiE(v), UnboxSmiE(v), K(1), ToF64E(v), Un(FcvtInt, K(1)))
  }

  /** `emit_raw_binary`. */
  function RawBits(op: int, l: Exp, r: Exp): Exp
  {
    var l32, r32 := Un(Red32, l), Un(Red32, r);
    var count := Bin(And32, r32, K(31));
    if op == BIT_AND then Un(Sext, Bin(And32, l32, r32))
    else if op == BIT_OR then Un(Sext, Bin(Or32, l32, r32))
    else if op == BIT_XOR then Un(Sext, Bin(Xor32, l32, r32))
    else if op == SHL then Un(Sext, Bin(Shl32, l32, count))
    else if op == SHR then Un(Sext, Bin(Sshr32, l32, count))
    else Un(Uext32, Bin(Ushr32, l32, count))
  }

  function RawNot(e: Exp): Exp { Un(Sext, Bin(Xor32, Un(Red32, e), K(-1))) }

  /** A pure i64 computed once the operands are known to be SMIs, then boxed. */
  function BoxedInt(b: Builder, fine: nat, pc: nat, isSmi: Exp, raw: Exp): (res: (Builder, Exp))
    requires b.Ok()
    ensures Grows(b, res.0)
  {
    var b1 := Require(b, isSmi, fine, Arg(K(pc)));
    var (b2, v) := BoxI64(b1, raw);
    GrowsTrans(b, b1, b2);
    (b2, v)
  }

  /** A pure f64 computed once the operands are known to be numbers, then boxed. */
  function BoxedFloat(b: Builder, fine: nat, pc: nat, isNumber: Exp, f: Exp): (res: (Builder, Exp))
    requires b.Ok()
    ensures Grows(b, res.0)
  {
    var b1 := Require(b, isNumber, fine, Arg(K(pc)));
    var (b2, v) := BoxF64(b1, f);
    GrowsTrans(b, b1, b2);
    (b2, v)
  }

  const NEG_ZERO: int := -0x8000_0000_0000_0000   // the bits of -0.0

  function RemE(l: Exp, r: Exp): Exp { Bin(Srem, UnboxSmiE(l), UnboxSmiE(r)) }
  function RemIsNegZero(l: Exp, r: Exp): Exp { Both(Bin(IEq, RemE(l, r), K(0)), Bin(Slt, UnboxSmiE(l), K(0))) }
  function RemDefined(l: Exp, r: Exp): Exp { Both(Both(IsSmiE(l), IsSmiE(r)), Bin(INe, UnboxSmiE(r), K(0))) }

  /** Box the remainder of two SMIs, re-deriving -0. */
  function BoxRem(b: Builder, rem: Exp, isNegZero: Exp): (res: (Builder, Exp))
    requires b.Ok()
    ensures Grows(b, res.0)
  {
    var d := Split(b, isNegZero);
    var o := Open(b, d.b, d.yes);
    var (b1, nz) := BoxF64(o, K(NEG_ZERO));
    GrowsTrans(b, o, b1);
    var b2 := Close(b, b1, d.done, nz, d.no);
    var (b3, i) := BoxI64(b2, rem);
    GrowsTrans(b, b2, b3);
    (Close(b, b3, d.done, i, d.done), d.res)
  }

  /** `emit_mod`. */
  function BoxedMod(b: Builder, fine: nat, pc: nat, l: Exp, r: Exp): (res: (Builder, Exp))
    requires b.Ok()
    ensures Grows(b, res.0)
  {
    var b1 := Require(b, Both(IsNumberE(l), IsNumberE(r)), fine, Arg(K(pc)));
    var b2 := Require(b1, RemDefined(l, r), fine, Arg(K(pc)));
    GrowsTrans(b, b1, b2);
    var (b3, e) := BoxRem(b2, RemE(l, r), RemIsNegZero(l, r));
    GrowsTrans(b, b2, b3);
    (b3, e)
  }

  function IntCmp(op: int): BinOp
  {
    if op == EQ || op == SEQ then IEq else if op == NEQ || op == SNEQ then INe
    else if op == LT then Slt else if op == LE then Sle else if op == GT then Sgt else Sge
  }

  function FloatCmp(op: int): BinOp
  {
    if op == EQ || op == SEQ then Feq else if op == NEQ || op == SNEQ then Fne
    else if op == LT then Flt else if op == LE then Fle else if op == GT then Fgt else Fge
  }

  /** A boxed comparison; the result is a raw 0 or 1. */
  function BoxedCompare(b: Builder, fine: nat, pc: nat, op: int, l: Exp, r: Exp): (res: (Builder, Exp))
    requires b.Ok()
    ensures Grows(b, res.0)
  {
    var b1 := Require(b, Both(IsNumberE(l), IsNumberE(r)), fine, Arg(K(pc)));
    var (b2, v) := Choose(b1, Both(IsSmiE(l), IsSmiE(r)),
      Bin(IntCmp(op), UnboxSmiE(l), UnboxSmiE(r)), Bin(FloatCmp(op), ToF64E(l), ToF64E(r)));
    GrowsTrans(b, b1, b2);
    (b2, v)
  }

  /** Test the flag a property helper left: 0 goes on, 2 exits as a throw, anything else is an
      exact-pc deopt. */
  function AfterHelper(b: Builder, pc: nat, fine: nat, throwing: nat): (r: Builder)
    requires b.Ok()
    ensures Grows(b, r)
  {
    var missed := Id(b.vals);
    var b1 := Ins(b.(vals := b.vals + 1), LoadFlag(b.vals));
    var (b2, slow, cont) := Fork(b1, missed);
    GrowsTrans(b, b1, b2);
    var b3 := Open(b, b2, slow);
    var b4 := Ins(b3, Brif(Bin(IEq, missed, K(2)), throwing, NoArg, fine, Arg(K(pc))));
    GrowsTrans(b, b3, b4);
    Open(b, b4, cont)
  }

  // ------------------------------------------------------------------ one instruction

  datatype PropSite = PropSite(pc: nat, key: string)

  /** What the translation of one region is given, and the blocks set up for it: the block of each
      leader offset and the three exits. */
  datatype Ctx = Ctx(
    code: Code, slots: seq<int>, boxed: bool, sites: seq<PropSite>,
    blockOf: map<int, nat>, deopt: nat, fine: nat, throwing: nat)

  /** The builder after an instruction, and whether the instruction ended its block. */
  datatype Emitted = Emitted(b: Builder, ended: bool)

  /** `slot_of`: the dense slot of a name constant, if it has one. */
  function SlotOf(slots: seq<int>, k: nat): Option<nat>
  {
    if k < |slots| && slots[k] >= 0 then Some(slots[k]) else None
  }

  function SiteKey(sites: seq<PropSite>, pc: nat): Option<string>
  {
    if |sites| == 0 then None
    else if sites[0].pc == pc then Some(sites[0].key)
    else SiteKey(sites[1..], pc)
  }

  /** The size table of the Rust translator; 0 means the opcode aborts compilation. */
  function RustSize(op: int, boxed: bool): nat
  {
    if IsBitBinary(op) then 4
    else if op == BIT_NOT || op == TO_NUMERIC then 3
    else if op == LOAD_K || op == GET_GLOBAL || op == SET_GLOBAL || op == DEFINE_GLOBAL then 4
    else if op == LOAD_TRUE || op == LOAD_FALSE || op == LOAD_UNDEF then 2
    else if op == MOVE || op == HOIST_VAR || op == INC || op == DEC || op == NOT || op == JMP then 3
    else if IsArith(op) || IsCompare(op) || op == JMP_IF_TRUE || op == JMP_IF_FALSE then 4
    else if op == RETURN then 2
    else if op == RETURN_UNDEF || op == HALT then 1
    else if op == GET_PROP || op == SET_PROP then 5
    else if op == SET_PROP_DYN || op == GET_PROP_DYN || op == CALL || op == NEW_CLOSURE then 4
    else if boxed && (op == DIV || op == MOD) then 4
    else if boxed && op == NEG then 3
    else 0
  }

  /** The Rust size table agrees with `instrSize` wherever it accepts an opcode. */
  lemma SizesAgree(op: int, boxed: bool)
    ensures RustSize(op, boxed) != 0 ==> RustSize(op, boxed) == InstrSize(op)
  {
  }

  /** Store the result register and go on. */
  function Result(b: Builder, dst: nat, e: Exp): (r: Option<Emitted>)
    requires b.Ok()
    ensures r.Some? && Grows(b, r.value.b)
  {
    Some(Emitted(StoreReg(b, dst, e), false))
  }

  function EmitUnary(x: Ctx, b: Builder, pc: nat, op: int, dst: nat, src: nat): (r: Option<Emitted>)
    requires b.Ok()
    ensures r.Some? ==> Grows(b, r.value.b)
  {
    var (b1, v) := LoadReg(b, src);
    if op == MOVE then
      GrowsTrans(b, b1, StoreReg(b1, dst, v));
      Result(b1, dst, v)
    else if op == TO_NUMERIC then
      if x.boxed then
        var b2 := Require(b1, IsNumberE(v), x.fine, Arg(K(pc)));
        GrowsTrans(b, b1, b2);
        GrowsTrans(b, b2, StoreReg(b2, dst, v));
        Result(b2, dst, v)
      else
        GrowsTrans(b, b1, StoreReg(b1, dst, v));
        Result(b1, dst, v)
    else if op == NOT then
      if x.boxed then
        var b2 := Require(b1, IsSmiE(v), x.fine, Arg(K(pc)));
        GrowsTrans(b, b1, b2);
        GrowsTrans(b, b2, StoreReg(b2, dst, Bin(IEq, UnboxSmiE(v), K(0))));
        Result(b2, dst, Bin(IEq, UnboxSmiE(v), K(0)))
      else
        GrowsTrans(b, b1, StoreReg(b1, dst, Bin(IEq, v, K(0))));
        Result(b1, dst, Bin(IEq, v, K(0)))
    else if op == BIT_NOT then
      if x.boxed then
        var (b2, e) := BoxedInt(b1, x.fine, pc, IsSmiE(v), RawNot(UnboxSmiE(v)));
        GrowsTrans(b, b1, b2);
        GrowsTrans(b, b2, StoreReg(b2, dst, e));
        Result(b2, dst, e)
      else
        GrowsTrans(b, b1, StoreReg(b1, dst, RawNot(v)));
        Result(b1, dst, RawNot(v))
    else if op == INC || op == DEC then
      var (b2, e) := if x.boxed then BoxedIncDec(b1, x.fine, pc, op, v)
                     else GuardI128(b1, x.deopt, NoArg, WideOp(op, v, K(1)));
      GrowsTrans(b, b1, b2);
      GrowsTrans(b, b2, StoreReg(b2, dst, e));
      Result(b2, dst, e)
    else if op == NEG && x.boxed then
      var (b2, e) := BoxedFloat(b1, x.fine, pc, IsNumberE(v), Un(Fneg, ToF64E(v)));
      GrowsTrans(b, b1, b2);
      GrowsTrans(b, b2, StoreReg(b2, dst, e));
      Result(b2, dst, e)
    else None
  }

  /** The result of a binary operator in either lane, as a builder and a value. */
  function BinaryValue(x: Ctx, b: Builder, pc: nat, op: int, l: Exp, r: Exp): (res: Option<(Builder, Exp)>)
    requires b.Ok()
    ensures res.Some? ==> Grows(b, res.value.0)
  {
    if IsArith(op) then
      Some(if x.boxed then BoxedBinary(b, x.fine, pc, op, l, r)
           else GuardI128(b, x.deopt, NoArg, WideOp(op, l, r)))
    else if IsBitBinary(op) then
      if x.boxed then
        Some(BoxedInt(b, x.fine, pc, Both(IsSmiE(l), IsSmiE(r)), RawBits(op, UnboxSmiE(l), UnboxSmiE(r))))
      else Some((b, RawBits(op, l, r)))
    else if IsCompare(op) then
      Some(if x.boxed then BoxedCompare(b, x.fine, pc, op, l, r) else (b, Bin(IntCmp(op), l, r)))
    else if op == DIV && x.boxed then
      Some(BoxedFloat(b, x.fine, pc, Both(IsNumberE(l), IsNumberE(r)), Bin(Fdiv, ToF64E(l), ToF64E(r))))
    else if op == MOD && x.boxed then Some(BoxedMod(b, x.fine, pc, l, r))
    else None
  }

  function EmitBinary(x: Ctx, b: Builder, pc: nat, op: int, dst: nat, l: nat, r: nat): (res: Option<Emitted>)
    requires b.Ok()
    ensures res.Some? ==> Grows(b, res.value.b)
  {
    var (b1, lv) := LoadReg(b, l);
    var (b2, rv) := LoadReg(b1, r);
    GrowsTrans(b, b1, b2);
    if op == GET_PROP_DYN then
      if !x.boxed then None else
      var got := Id(b2.vals);
      var b3 := Ins(b2.(vals := b2.vals + 1), GetElemHelper(b2.vals, lv, rv));
      GrowsTrans(b, b2, b3);
      var b4 := AfterHelper(b3, pc, x.fine, x.throwing);
      GrowsTrans(b, b3, b4);
      GrowsTrans(b, b4, StoreReg(b4, dst, got));
      Result(b4, dst, got)
    else match BinaryValue(x, b2, pc, op, lv, rv)
      case None => None
      case Some(p) =>
        GrowsTrans(b, b2, p.0);
        GrowsTrans(b, p.0, StoreReg(p.0, dst, p.1));
        Result(p.0, dst, p.1)
  }

  function EmitBranch(x: Ctx, b: Builder, op: int, cond: nat, target: int, next: int): (r: Option<Emitted>)
    requires b.Ok()
    ensures r.Some? ==> Grows(b, r.value.b) && r.value.ended
  {
    if (op != JMP_IF_TRUE && op != JMP_IF_FALSE) || target !in x.blockOf || next !in x.blockOf then None else
    var (b1, v) := LoadReg(b, cond);
    var isTrue := Bin(INe, v, K(0));
    var t, f := x.blockOf[target], x.blockOf[next];
    var b2 := Ins(b1, if op == JMP_IF_TRUE then Brif(isTrue, t, NoArg, f, NoArg) else Brif(isTrue, f, NoArg, t, NoArg));
    GrowsTrans(b, b1, b2);
    Some(Emitted(b2, true))
  }

  /** A boxed property access or call. */
  function EmitAccess(x: Ctx, b: Builder, pc: nat, i: Instr): (r: Option<Emitted>)
    requires b.Ok()
    ensures r.Some? ==> Grows(b, r.value.b)
  {
    if !x.boxed then None else
    match i
    case GetProp(dst, obj, _) =>
      var key := SiteKey(x.sites, pc);
      if key.None? then None else
      var (b1, recv) := LoadReg(b, obj);
      var got := Id(b1.vals);
      var b2 := Ins(b1.(vals := b1.vals + 1), GetPropHelper(b1.vals, recv, key.value));
      GrowsTrans(b, b1, b2);
      var b3 := AfterHelper(b2, pc, x.fine, x.throwing);
      GrowsTrans(b, b2, b3);
      GrowsTrans(b, b3, StoreReg(b3, dst, got));
      Result(b3, dst, got)
    case SetProp(obj, _, val) =>
      var key := SiteKey(x.sites, pc);
      if key.None? then None else
      var (b1, recv) := LoadReg(b, obj);
      var (b2, v) := LoadReg(b1, val);
      GrowsTrans(b, b1, b2);
      var b3 := Ins(b2, SetPropHelper(recv, key.value, v));
      GrowsTrans(b, b2, b3);
      GrowsTrans(b, b3, AfterHelper(b3, pc, x.fine, x.throwing));
      Some(Emitted(AfterHelper(b3, pc, x.fine, x.throwing), false))
    case SetElem(obj, key, val) =>
      var (b1, recv) := LoadReg(b, obj);
      var (b2, k) := LoadReg(b1, key);
      GrowsTrans(b, b1, b2);
      var (b3, v) := LoadReg(b2, val);
      GrowsTrans(b, b2, b3);
      var b4 := Ins(b3, SetElemHelper(recv, k, v));
      GrowsTrans(b, b3, b4);
      GrowsTrans(b, b4, AfterHelper(b4, pc, x.fine, x.throwing));
      Some(Emitted(AfterHelper(b4, pc, x.fine, x.throwing), false))
    case Call(base, nargs, dst) =>
      var b1 := Ins(b, CallHelper(base, nargs, dst));
      var threw := Id(b1.vals);
      var b2 := Ins(b1.(vals := b1.vals + 1), LoadFlag(b1.vals));
      GrowsTrans(b, b1, b2);
      var b3 := Guard(b2, threw, x.throwing, NoArg);
      GrowsTrans(b, b2, b3);
      Some(Emitted(b3, false))
    case _ => Some(Emitted(Ins(b, Br(x.fine, Arg(K(pc)))), true))   // NEW_CLOSURE
  }

  /** The emission of the instruction at `pc`; `None` aborts compilation. */
  function EmitInstr(x: Ctx, b: Builder, pc: nat): (r: Option<Emitted>)
    requires b.Ok() && Whole(x.code, pc)
    ensures r.Some? ==> Grows(b, r.value.b)
  {
    var next := Next(x.code, pc);
    match Fetch(x.code, pc)
    case LoadK(dst, k) =>
      var b1 := Ins(b.(vals := b.vals + 1), Load(b.vals, Consts, k));
      GrowsTrans(b, b1, StoreReg(b1, dst, Id(b.vals)));
      Result(b1, dst, Id(b.vals))
    case LoadLit(op, dst) =>
      if op == LOAD_TRUE then Result(b, dst, K(if x.boxed then TRUE else 1))
      else if op == LOAD_FALSE then Result(b, dst, K(if x.boxed then FALSE else 0))
      else if op == LOAD_UNDEF then Result(b, dst, K(0))
      else None
    case Unary(op, dst, src) => EmitUnary(x, b, pc, op, dst, src)
    case Binary(op, dst, l, r) => EmitBinary(x, b, pc, op, dst, l, r)
    case GetName(op, dst, k) =>
      var slot := SlotOf(x.slots, k);
      if op != GET_GLOBAL || slot.None? then None else
      var b1 := Ins(b.(vals := b.vals + 1), Load(b.vals, Locals, slot.value));
      GrowsTrans(b, b1, StoreReg(b1, dst, Id(b.vals)));
      Result(b1, dst, Id(b.vals))
    case SetName(_, k, src) =>
      var slot := SlotOf(x.slots, k);
      if slot.None? then None else
      var (b1, v) := LoadReg(b, src);
      GrowsTrans(b, b1, Ins(b1, Store(Locals, slot.value, v)));
      Some(Emitted(Ins(b1, Store(Locals, slot.value, v)), false))
    case Hoist(_) => Some(Emitted(b, false))
    case Jump(rel) =>
      if next + rel !in x.blockOf then None
      else Some(Emitted(Ins(b, Br(x.blockOf[next + rel], NoArg)), true))
    case Branch(op, cond, rel) => EmitBranch(x, b, op, cond, next + rel, next)
    case Return(src) =>
      var (b1, v) := LoadReg(b, src);
      GrowsTrans(b, b1, Ins(b1, Ret(v)));
      Some(Emitted(Ins(b1, Ret(v)), true))
    case Stop(_) => Some(Emitted(Ins(b, Ret(K(0))), true))
    case Other(_) => None
    case i => EmitAccess(x, b, pc, i)
  }
}
