/** The int lane end to end: on functions the gate accepts and whose registers are typed as the
    certificate says, native code and interpreter agree up to the sign of zero. */
module IntLane {
  import opened Options
  import opened Bits
  import opened Float64
  import opened NanBox
  import opened Bytecode
  import opened Interp
  import opened Ir
  import opened Emit
  import opened Native
  import opened Translate
  import opened Blocks
  import opened Analyze
  import opened Gate
  import opened Operators
  import opened Calls

  /** What is known before an instruction: registers that hold numbers, registers that hold a number
      or a comparison result, variables that hold numbers, names that are bound. */
  datatype Facts = Facts(nums: set<nat>, vals: set<nat>, vars: set<string>, bound: set<string>)
  {
    predicate Within(o: Facts) { nums <= o.nums && vals <= o.vals && vars <= o.vars && bound <= o.bound }
    function Num(r: nat): Facts { Facts(nums + {r}, vals + {r}, vars, bound) }
    function Val(r: nat): Facts { Facts(nums - {r}, vals + {r}, vars, bound) }
    predicate Known(r: nat) { r in nums || r in vals }
  }

  type Cert = map<nat, Facts>

  /** The instruction reads numbers where it needs numbers, variables that were assigned, and writes
      registers of the frame. */
  predicate Typed(f: Function, fa: Facts, i: Instr)
  {
    match i
    case LoadK(dst, _) => dst < f.numRegs
    case Unary(op, dst, src) => dst < f.numRegs && (if op == MOVE || op == NOT then fa.Known(src) else src in fa.nums)
    case Binary(_, dst, l, r) => dst < f.numRegs && l in fa.nums && r in fa.nums
    case GetName(_, dst, k) => dst < f.numRegs && IsString(f, k) && NameOf(f, k) in fa.vars
    case SetName(_, k, src) => IsString(f, k) && NameOf(f, k) in fa.bound && src in fa.nums
    case Branch(_, cond, _) => fa.Known(cond)
    case Hoist(k) => IsString(f, k)
    case Return(src) => fa.Known(src)
    case _ => true
  }

  /** What is known after it. */
  function After(f: Function, fa: Facts, i: Instr): Facts
  {
    match i
    case LoadK(dst, _) => fa.Num(dst)
    case Unary(op, dst, src) =>
      if op == NOT || (op == MOVE && src !in fa.nums) then fa.Val(dst) else fa.Num(dst)
    case Binary(op, dst, _, _) => if IsCompare(op) then fa.Val(dst) else fa.Num(dst)
    case GetName(_, dst, _) => fa.Num(dst)
    case SetName(_, k, _) => fa.(vars := fa.vars + {NameOf(f, k)})
    case Hoist(k) => fa.(bound := fa.bound + {NameOf(f, k)})
    case _ => fa
  }

  /** A call's starting facts: the parameters that got an argument hold numbers. */
  function Given(f: Function, argc: nat): Facts
  {
    var n := if argc < |f.params| then argc else |f.params|;
    Facts({}, {}, set i | 0 <= i < n :: f.params[i], set i | 0 <= i < |f.params| :: f.params[i])
  }

  /** The certificate is inductive: it holds on entry, its instructions are typed, and what follows
      an instruction carries over to wherever control may go. */
  ghost predicate Certified(f: Function, argc: nat, cert: Cert)
  {
    && 0 in cert && cert[0].Within(Given(f, argc))
    && forall pc :: pc in cert && Whole(f.code, pc) ==>
         && Typed(f, cert[pc], Fetch(f.code, pc))
         && forall t: nat | t in Succs(f.code, pc) ::
              t in cert && t < |f.code| && cert[t].Within(After(f, cert[pc], Fetch(f.code, pc)))
  }

  /** Every value the function returns is a number, never a comparison result. */
  ghost predicate ReturnsNumbers(f: Function, cert: Cert)
  {
    forall pc :: pc in cert && Whole(f.code, pc) ==> NumReturn(cert[pc], Fetch(f.code, pc))
  }

  predicate NumReturn(fa: Facts, i: Instr) { i.Return? ==> i.src in fa.nums }

  // ------------------------------------------------------------------ the range invariant

  /** Every register and local lies in [-2^53, 2^53]. */
  ghost predicate Banded(m: Mem)
  {
    && (forall i | 0 <= i < |m.regs| :: InBand(m.regs[i]))
    && (forall i | 0 <= i < |m.locals| :: InBand(m.locals[i]))
  }

  lemma RegInBand(m: Mem, r: nat)
    requires Banded(m)
    ensures InBand(GetReg(m.regs, r)) && InBand(GetReg(m.locals, r))
  {
  }

  lemma SetInBand(regs: seq<Word>, r: nat, w: Word)
    requires (forall i | 0 <= i < |regs| :: InBand(regs[i])) && InBand(w)
    ensures forall i | 0 <= i < |regs| :: InBand(SetReg(regs, r, w)[i])
  {
  }

  lemma PutBanded(m: Mem, dst: nat, w: int, next: int)
    requires Banded(m) && InBand(w)
    ensures Put(m, dst, w, next).Go? && Banded(Put(m, dst, w, next).m)
  {
    SetInBand(m.regs, dst, w);
  }

  lemma NotInBand(w: int)
    ensures InBand(NotInt(w))
  {
    S32Again(BitXor(U32(S32(w)), U32(-1)));
  }

  lemma UnaryBanded(m: Mem, pc: nat, next: int, op: int, dst: nat, src: nat)
    requires Banded(m) && op in {MOVE, NOT, BIT_NOT, INC, DEC, TO_NUMERIC}
    ensures var o := NUnary(false, m, pc, next, op, dst, src); o.Go? ==> Banded(o.m)
  {
    hide NotInt, Banded;
    RegInBand(m, src);
    NotInBand(GetReg(m.regs, src));
    var w := GetReg(m.regs, src);
    var r := if op == MOVE || op == TO_NUMERIC then w else if op == NOT then B01(w == 0)
             else if op == BIT_NOT then NotInt(w) else WideInt(op, w, 1);
    if InBand(r) { PutBanded(m, dst, r, next); }
  }

  lemma BinaryBanded(m: Mem, pc: nat, next: int, op: int, dst: nat, l: nat, r: nat)
    requires Banded(m) && (IsArith(op) || IsBitBinary(op) || IsCompare(op))
    ensures var o := NBinary(false, m, pc, next, op, dst, l, r); o.Go? ==> Banded(o.m)
  {
    hide BitsInt, CmpInt, Banded;
    var a, b := GetReg(m.regs, l), GetReg(m.regs, r);
    var w := if IsArith(op) then WideInt(op, a, b) else if IsBitBinary(op) then BitsInt(op, a, b)
        else B01(CmpInt(op, a, b));
    if IsBitBinary(op) { BitsRange(op, a, b); }
    if InBand(w) { PutBanded(m, dst, w, next); }
  }

  lemma PoolBanded(f: Function, k: nat)
    ensures InBand(GetReg(Pool(f, false), k))
  {
  }

  lemma StepBanded(x: Ctx, rt: Rt, pc: nat, m: Mem)
    requires Banded(m) && !x.boxed && Whole(x.code, pc) && IntInstr(Fetch(x.code, pc))
    requires forall k: nat :: InBand(GetReg(rt.consts, k))
    ensures NStep(x, rt, pc, m).Go? ==> Banded(NStep(x, rt, pc, m).m)
  {
    hide Put, Banded, SlotOf, Fetch, NUnary, NBinary, InBand, GetReg;
    var next := Next(x.code, pc);
    match Fetch(x.code, pc)
    case LoadK(dst, k) => PutBanded(m, dst, GetReg(rt.consts, k), next);
    case Unary(op, dst, src) => UnaryBanded(m, pc, next, op, dst, src);
    case Binary(op, dst, l, r) => BinaryBanded(m, pc, next, op, dst, l, r);
    case GetName(_, dst, k) =>
      if SlotOf(x.slots, k).Some? {
        RegInBand(m, SlotOf(x.slots, k).value);
        PutBanded(m, dst, GetReg(m.locals, SlotOf(x.slots, k).value), next);
      }
    case SetName(_, k, src) =>
      if SlotOf(x.slots, k).Some? {
        RegInBand(m, src);
        LocalBanded(m, SlotOf(x.slots, k).value, GetReg(m.regs, src));
      }
    case _ =>
  }

  /** One instruction of an accepted function keeps every register and local in the band, so the
      unguarded operators never see or make a larger integer. */
  lemma RangeKept(f: Function, p: Plan, rt: Rt, pc: nat, m: Mem)
    requires Accepts(f, false, p) && Admitted(f, false, p, pc) && rt.consts == p.consts && Banded(m)
    ensures NStep(PlanCtx(p), rt, pc, m).Go? ==> Banded(NStep(PlanCtx(p), rt, pc, m).m)
  {
    hide NStep, Pool, Translation, Admitted, Analysis, Banded, InBand;
    var cold := PlanParts(f, false, p);
    IntOnly(f, p, pc);
    AdmittedWhole(f, false, p, pc);
    forall k: nat ensures InBand(GetReg(rt.consts, k)) { PoolBanded(f, k); }
    StepBanded(PlanCtx(p), rt, pc, m);
  }

  lemma AdmittedWhole(f: Function, boxed: bool, p: Plan, pc: nat)
    requires Admitted(f, boxed, p, pc)
    ensures Whole(f.code, pc)
  {
  }

  lemma LocalBanded(m: Mem, i: nat, w: Word)
    requires Banded(m) && InBand(w)
    ensures Banded(m.(locals := SetReg(m.locals, i, w)))
  {
    SetInBand(m.locals, i, w);
  }

  /** The instructions the gate admits in the int lane. */
  predicate IntInstr(i: Instr)
  {
    match i
    case LoadK(_, _) => true
    case Unary(op, _, _) => op in {MOVE, NOT, BIT_NOT, INC, DEC, TO_NUMERIC}
    case Binary(op, _, _, _) => IsArith(op) || IsBitBinary(op) || IsCompare(op)
    case GetName(op, _, _) => op == GET_GLOBAL
    case SetName(_, _, _) => true
    case Hoist(_) => true
    case Jump(_) => true
    case Branch(op, _, _) => op == JMP_IF_TRUE || op == JMP_IF_FALSE
    case Return(_) => true
    case Stop(op) => op == RETURN_UNDEF
    case _ => false
  }

  lemma IntOnly(f: Function, p: Plan, pc: nat)
    requires Admitted(f, false, p, pc)
    ensures IntInstr(Fetch(f.code, pc))
  {
    hide ReadI16, ReadU16, FeedsJump, SiteRuling, Targets;
    var cold, e :| Rule(f, false, cold, p.region.slots, p.owned, Targets(f.code, 0), pc, e) !in {Refused, Cold};
  }

  /** In every reachable state of the int lane all registers and locals lie in [-2^53, 2^53]. */
  lemma {:induction false} RangeInvariant(f: Function, p: Plan, rt: Rt, pc: nat, m: Mem, k: nat)
    requires Accepts(f, false, p) && Boundary(f.code, 0, pc) && pc <= |f.code|
    requires rt.consts == p.consts && Banded(m)
    ensures NRun(PlanCtx(p), rt, pc, m, k).Go? ==> Banded(NRun(PlanCtx(p), rt, pc, m, k).m)
    decreases k
  {
    hide NStep, Banded, Accepts, Admitted, Boundary, Succs, Whole, Context;
    var x := PlanCtx(p);
    CodeOf(f, false, p);
    if k > 0 && pc < |f.code| && NStep(x, rt, pc, m).Go? {
      var o := NStep(x, rt, pc, m);
      SuccAdmitted(f, false, p, pc, 0);
      AdmittedWhole(f, false, p, pc);
      GoesToSucc(x, rt, pc, m);
      SuccAdmitted(f, false, p, pc, o.pc);
      RangeKept(f, p, rt, pc, m);
      RangeInvariant(f, p, rt, o.pc, o.m, k - 1);
    } else if pc == |f.code| {
      EndLeaves(x, rt, m);
    }
  }

  /** The same from the call: every state a compiled call reaches. */
  lemma CallInRange(f: Function, p: Plan, host: Host, outer: Env, args: seq<Word>, k: nat)
    requires Accepts(f, false, p)
    ensures var o := NRun(PlanCtx(p), RtFor(p, host), 0, StartMem(p, args, outer), k); o.Go? ==> Banded(o.m)
  {
    hide Accepts, Banded, NRun, StartMem;
    PlanRegs(f, p);
    PlanPool(f, p);
    StartBanded(p, args, outer);
    RangeInvariant(f, p, RtFor(p, host), 0, StartMem(p, args, outer), k);
  }

  lemma StartBanded(p: Plan, args: seq<Word>, outer: Env)
    requires !p.region.boxed && p.owned == |p.names|
    ensures Banded(StartMem(p, args, outer))
  {
  }

  lemma EndLeaves(x: Ctx, rt: Rt, m: Mem)
    ensures NStep(x, rt, |x.code|, m).Leave?
  {
  }

  lemma CodeOf(f: Function, boxed: bool, p: Plan)
    requires Accepts(f, boxed, p)
    ensures PlanCtx(p).code == f.code && PlanCtx(p).boxed == boxed && PlanCtx(p).slots == Slots(f, p.names)
    ensures Translation(p.region) == Some(p.native) && PlanCtx(p) == CtxOf(p.region) && |f.code| > 0
  {
    hide Analysis;
    var cold := PlanParts(f, boxed, p);
  }

  // ------------------------------------------------------------------ the simulation relation

  /** A number, up to the sign of zero, or a truth value. */
  ghost predicate SameValue(w: Word, i: int) { SameNum(w, i) || SameBool(w, i) }

  /** The interpreter state `s` and the native memory `m` agree on everything the facts speak of. */
  ghost predicate Rel(f: Function, names: seq<string>, fa: Facts, s: State, m: Mem)
  {
    && |s.regs| >= f.numRegs && |m.regs| >= f.numRegs && |m.locals| >= |names|
    && s.trace == [] && m.trace == [] && m.flag == 0
    && (forall r | r in fa.nums :: r < f.numRegs && SameNum(GetReg(s.regs, r), GetReg(m.regs, r)))
    && (forall r | r in fa.vals :: r < f.numRegs && SameValue(GetReg(s.regs, r), GetReg(m.regs, r)))
    && (forall n | n in fa.vars :: n in names && n in s.env && SameNum(s.env[n], GetReg(m.locals, IndexOf(names, n))))
    && (forall n | n in fa.bound :: n in s.env)
    && (s.fixed.Some? ==> s.fixed.value !in names)
  }

  /** The function's own name, bound by the call, is none of its variables, and its rest parameter is none
      of its other parameters. */
  predicate Unfixed(f: Function, p: Plan)
  {
    (BindsSelf(f) ==> f.selfName.value !in p.names) && (f.rest.Some? ==> f.rest.value !in f.params)
  }

  lemma RelWeaken(f: Function, names: seq<string>, fa: Facts, fb: Facts, s: State, m: Mem)
    requires Rel(f, names, fa, s, m) && fb.Within(fa)
    ensures Rel(f, names, fb, s, m)
  {
  }

  lemma PutNum(f: Function, names: seq<string>, fa: Facts, s: State, m: Mem, dst: nat, w: Word, i: int, next: nat)
    requires Rel(f, names, fa, s, m) && dst < f.numRegs && SameNum(w, i)
    ensures Put(m, dst, i, next).Go? && Put(m, dst, i, next).pc == next
    ensures Rel(f, names, fa.Num(dst), s.(pc := next, regs := SetReg(s.regs, dst, w)), Put(m, dst, i, next).m)
  {
    hide SameNum, SameBool;
    assert AsWord(i) == i by { ValueWord(w, i); }
  }

  lemma ValueWord(w: Word, i: int)
    requires SameValue(w, i)
    ensures AsWord(i) == i
  {
  }

  lemma PutVal(f: Function, names: seq<string>, fa: Facts, s: State, m: Mem, dst: nat, w: Word, i: int, next: nat)
    requires Rel(f, names, fa, s, m) && dst < f.numRegs && SameValue(w, i)
    ensures Put(m, dst, i, next).Go? && Put(m, dst, i, next).pc == next
    ensures Rel(f, names, fa.Val(dst), s.(pc := next, regs := SetReg(s.regs, dst, w)), Put(m, dst, i, next).m)
  {
    hide SameNum, SameBool;
    assert AsWord(i) == i by { ValueWord(w, i); }
  }

  lemma StoreVar(f: Function, names: seq<string>, fa: Facts, s: State, m: Mem, n: string, src: nat, next: nat)
    requires Rel(f, names, fa, s, m) && src in fa.nums && n in names && n in s.env && Distinct(names)
    ensures Rel(f, names, fa.(vars := fa.vars + {n}), s.(pc := next, env := s.env[n := GetReg(s.regs, src)]),
                m.(locals := SetReg(m.locals, IndexOf(names, n), GetReg(m.regs, src))))
  {
    hide SameNum, SameBool;
    var w, i := GetReg(s.regs, src), GetReg(m.regs, src);
    forall v | v in fa.vars + {n}
      ensures SameNum(s.env[n := w][v], GetReg(SetReg(m.locals, IndexOf(names, n), i), IndexOf(names, v)))
    {
    }
  }

  /** Native code asks for a re-run, and nothing has happened that a re-run would repeat. */
  predicate Unchanged(m: Mem) { m.flag == 1 && m.trace == [] }

  lemma RelTrace(f: Function, names: seq<string>, fa: Facts, s: State, m: Mem)
    requires Rel(f, names, fa, s, m)
    ensures m.trace == [] && m.flag == 0
  {
  }

  /** One step of both machines; `strict` when a returned value is known to be a number. */
  ghost predicate Agree(f: Function, names: seq<string>, fa: Facts, native: NOut, interp: Outcome, strict: bool)
  {
    match native
    case Go(pc, m) => interp.Running? && interp.state.pc == pc && Rel(f, names, fa, interp.state, m)
    case Leave(w, m) => Unchanged(m) || SameReturn(w, m, interp, strict)
    case Bad => false
  }

  ghost predicate SameReturn(w: Word, m: Mem, interp: Outcome, strict: bool)
  {
    && m.flag == 0 && m.trace == [] && interp.Returned? && interp.trace == []
    && SameValue(interp.value, w) && (strict ==> SameNum(interp.value, w))
  }

  lemma UnaryAgree(f: Function, host: Host, outer: Env, names: seq<string>, fa: Facts, s: State, m: Mem, op: int,
                   dst: nat, src: nat)
    requires Rel(f, names, fa, s, m) && Whole(f.code, s.pc) && Fetch(f.code, s.pc) == Unary(op, dst, src)
    requires Typed(f, fa, Unary(op, dst, src)) && IntInstr(Unary(op, dst, src))
    ensures Agree(f, names, After(f, fa, Unary(op, dst, src)),
            NUnary(false, m, s.pc, Next(f.code, s.pc), op, dst, src), Step(f, host, outer, s), true)
  {
    hide Put, SameNum, SameBool, NotInt, WordTruthy, Rel, SetReg, GetReg, Fetch, Perform;
    var w, i, next := GetReg(s.regs, src), GetReg(m.regs, src), Next(f.code, s.pc);
    RelReg(f, names, fa, s, m, src);
    RelTrace(f, names, fa, s, m);
    if op == MOVE {
      if src in fa.nums { PutNum(f, names, fa, s, m, dst, w, i, next); }
          else { PutVal(f, names, fa, s, m, dst, w, i, next); }
    } else if op == NOT {
      TruthAgrees(host, w, i);
      PutVal(f, names, fa, s, m, dst, FromBool(!WordTruthy(host, w)), B01(i == 0), next) by { NotBool(host, w, i); }
    } else {
      NumIsNumber(w, i);
      if op == TO_NUMERIC {
        PutNum(f, names, fa, s, m, dst, w, i, next);
      } else if op == BIT_NOT {
        BitNotAgrees(w, i);
        PutNum(f, names, fa, s, m, dst, NumUnary(op, w), NotInt(i), next);
      } else if InBand(WideInt(op, i, 1)) {
        IncAgrees(op, w, i);
        PutNum(f, names, fa, s, m, dst, NumUnary(op, w), WideInt(op, i, 1), next);
      }
    }
  }

  lemma NotBool(host: Host, w: Word, i: int)
    requires WordTruthy(host, w) <==> i != 0
    ensures SameValue(FromBool(!WordTruthy(host, w)), B01(i == 0))
  {
  }

  lemma NumIsNumber(w: Word, i: int)
    requires SameNum(w, i)
    ensures IsNumber(w) && InBand(i)
  {
  }

  lemma RelReg(f: Function, names: seq<string>, fa: Facts, s: State, m: Mem, r: nat)
    requires Rel(f, names, fa, s, m) && fa.Known(r)
    ensures r in fa.nums ==> SameNum(GetReg(s.regs, r), GetReg(m.regs, r))
    ensures SameValue(GetReg(s.regs, r), GetReg(m.regs, r))
  {
  }

  lemma BinaryAgree(f: Function, host: Host, outer: Env, names: seq<string>, fa: Facts, s: State, m: Mem, op: int,
                    dst: nat, l: nat, r: nat)
    requires Rel(f, names, fa, s, m) && Whole(f.code, s.pc) && Fetch(f.code, s.pc) == Binary(op, dst, l, r)
    requires Typed(f, fa, Binary(op, dst, l, r)) && IntInstr(Binary(op, dst, l, r))
    ensures Agree(f, names, After(f, fa, Binary(op, dst, l, r)),
            NBinary(false, m, s.pc, Next(f.code, s.pc), op, dst, l, r), Step(f, host, outer, s), true)
  {
    hide Put, SameNum, SameBool, BitsInt, CmpInt, NumBinary, Rel, SetReg, GetReg, Fetch, Perform;
    var a, b, i, j, next := GetReg(s.regs, l), GetReg(s.regs, r), GetReg(m.regs, l), GetReg(m.regs, r),
        Next(f.code, s.pc);
    RelReg(f, names, fa, s, m, l);
    RelReg(f, names, fa, s, m, r);
    RelTrace(f, names, fa, s, m);
    NumIsNumber(a, i); NumIsNumber(b, j);
    if IsArith(op) {
      if InBand(WideInt(op, i, j)) {
        ArithAgrees(op, a, b, i, j);
        PutNum(f, names, fa, s, m, dst, NumBinary(op, a, b), WideInt(op, i, j), next);
      }
    } else if IsBitBinary(op) {
      BitBinaryAgrees(op, a, b, i, j);
      PutNum(f, names, fa, s, m, dst, NumBinary(op, a, b), BitsInt(op, i, j), next);
    } else {
      CompareWord(op, a, b, i, j);
      PutVal(f, names, fa, s, m, dst, NumBinary(op, a, b), B01(CmpInt(op, i, j)), next);
    }
  }

  lemma CompareWord(op: int, a: Word, b: Word, i: int, j: int)
    requires IsCompare(op) && SameNum(a, i) && SameNum(b, j)
    ensures SameValue(NumBinary(op, a, b), B01(CmpInt(op, i, j)))
  {
    CompareAgrees(op, NumOf(a), NumOf(b), i, j);
  }

  /** An integral constant loads as its integer. */
  lemma ConstAgree(f: Function, k: nat)
    requires k < |f.constants| && IsIntConst(f.constants[k]) && f.constants[k].bits < TWO64
    ensures SameNum(ConstWord(f.constants[k]), GetReg(Pool(f, false), k))
  {
    var u := f.constants[k].bits;
    var d := Decode(u);
    var i := Truncate(d);
    assert GetReg(Pool(f, false), k) == i;
    if d.Fin? { DecodeIsDbl(u); IntegralIs(d); } else { ModUnique(0, One(), 0, 0); }
    PatternNum(u, i);
  }

  lemma PatternNum(u: nat, i: int)
    requires u < TWO64 && NumIs(Decode(u), i) && InBand(i)
    ensures SameNum(MakeNumber(u), i)
  {
    hide NumIs, Encode, OfInt;
    NumFinite(Decode(u), i);
    if SmiFits(Decode(u)) {
      FitsIsInt(Decode(u), i);
      SmiRoundTrip(i);
    } else {
      PatternBelow(u);
      DoubleRoundTrip(u);
    }
  }

  lemma NumFinite(d: Dbl, i: int)
    requires NumIs(d, i)
    ensures !d.NaN? && !d.Inf? && NumIs(OfInt(i), i)
  {
  }

  lemma PatternBelow(u: nat)
    requires u < TWO64 && !Decode(u).NaN?
    ensures u < 0xFFFC_0000_0000_0000
  {
    if u >= 0xFFFC_0000_0000_0000 { NaNPatternHigh(u); }
  }

  lemma NaNPatternHigh(u: nat)
    requires 0xFFFC_0000_0000_0000 <= u < TWO64
    ensures Decode(u).NaN?
  {
    ModUnique(u, SIGN, 1, u - SIGN);
    ModUnique(u - SIGN, HIDDEN, 2047, u - SIGN - 2047 * HIDDEN);
  }

  lemma FitsIsInt(d: Dbl, i: int)
    requires SmiFits(d) && NumIs(d, i)
    ensures d == OfInt(i) && Truncate(d) == i && IsI32(i)
  {
    SmiFitsInt(i);
  }

  /** Every number constant is a 64-bit pattern. */
  predicate ConstsFit(f: Function)
  {
    forall k | 0 <= k < |f.constants| :: f.constants[k].KNum? ==> f.constants[k].bits < TWO64
  }

  /** Reading and writing variables. */
  lemma NamesAgree(f: Function, p: Plan, host: Host, outer: Env, rt: Rt, x: Ctx, fa: Facts, s: State, m: Mem)
    requires Rel(f, p.names, fa, s, m) && Whole(f.code, s.pc) && x.code == f.code && !x.boxed
    requires x.slots == Slots(f, p.names) && Distinct(p.names)
    requires var i := Fetch(f.code, s.pc); Typed(f, fa, i) && IntInstr(i) && (i.GetName? || i.SetName?)
    requires var i := Fetch(f.code, s.pc); i.SetName? ==> NameOf(f, i.k) in p.names
    ensures Agree(f, p.names, After(f, fa, Fetch(f.code, s.pc)), NStep(x, rt, s.pc, m), Step(f, host, outer, s), true)
  {
    hide Put, SameNum, SameBool, Fetch, SlotOf, Slots, Perform, PerformStore;
    var next := Next(f.code, s.pc);
    match Fetch(f.code, s.pc)
    case GetName(op, dst, k) =>
      var n := NameOf(f, k);
      SlotMeaning(f, p.names, k);
      assert n in fa.vars;
      assert Step(f, host, outer, s) == Running(s.(pc := next, regs := SetReg(s.regs, dst, s.env[n])));
      PutNum(f, p.names, fa, s, m, dst, s.env[n], GetReg(m.locals, IndexOf(p.names, n)), next);
    case SetName(_, k, src) =>
      SlotMeaning(f, p.names, k);
      StoreVar(f, p.names, fa, s, m, NameOf(f, k), src, next);
  }

  /** The rest of the instructions. */
  lemma OtherAgree(f: Function, p: Plan, host: Host, outer: Env, rt: Rt, x: Ctx, fa: Facts, s: State, m: Mem)
    requires Rel(f, p.names, fa, s, m) && Whole(f.code, s.pc) && x.code == f.code && !x.boxed
    requires x.slots == Slots(f, p.names) && rt.consts == Pool(f, false) && Distinct(p.names)
    requires var i := Fetch(f.code, s.pc); Typed(f, fa, i) && IntInstr(i) && !i.Unary? && !i.Binary? && !i.Stop?
    requires var i := Fetch(f.code, s.pc);
             i.LoadK? ==> i.k < |f.constants| && IsIntConst(f.constants[i.k]) && f.constants[i.k].bits < TWO64
    requires var i := Fetch(f.code, s.pc); i.SetName? || i.Hoist? ==> NameOf(f, i.k) in p.names
    requires var i := Fetch(f.code, s.pc); (i.Jump? || i.Branch?) ==> Target(f.code, s.pc) >= 0
    ensures Agree(f, p.names, After(f, fa, Fetch(f.code, s.pc)), NStep(x, rt, s.pc, m), Step(f, host, outer, s),
            NumReturn(fa, Fetch(f.code, s.pc)))
  {
    hide Put, SameNum, SameBool, Fetch, SlotOf, Slots, Pool, WordTruthy, NumOf, ConstWord, IsIntConst, Perform,
        PerformStore;
    var next := Next(f.code, s.pc);
    match Fetch(f.code, s.pc)
    case LoadK(dst, k) =>
      ConstAgree(f, k);
      PutNum(f, p.names, fa, s, m, dst, ConstWord(f.constants[k]), GetReg(rt.consts, k), next);
    case GetName(op, dst, k) => NamesAgree(f, p, host, outer, rt, x, fa, s, m);
    case SetName(_, k, src) => NamesAgree(f, p, host, outer, rt, x, fa, s, m);
    case Hoist(k) =>
    case Jump(_) =>
    case Branch(op, cond, _) =>
      RelReg(f, p.names, fa, s, m, cond);
      TruthAgrees(host, GetReg(s.regs, cond), GetReg(m.regs, cond));
    case Return(src) =>
      RelReg(f, p.names, fa, s, m, src);
    case _ =>
  }

  /** The premises of one step that the gate provides. */
  lemma Gated(f: Function, p: Plan, pc: nat)
    requires Accepts(f, false, p) && ConstsFit(f) && Boundary(f.code, 0, pc) && pc < |f.code|
    requires f.code[pc] != RETURN_UNDEF
    ensures Whole(f.code, pc) && IntInstr(Fetch(f.code, pc)) && !Fetch(f.code, pc).Stop?
    ensures var i := Fetch(f.code, pc);
            i.LoadK? ==> i.k < |f.constants| && IsIntConst(f.constants[i.k]) && f.constants[i.k].bits < TWO64
    ensures var i := Fetch(f.code, pc); (i.SetName? || i.Hoist?) && IsString(f, i.k) ==> NameOf(f, i.k) in p.names
    ensures var i := Fetch(f.code, pc); (i.Jump? || i.Branch?) ==> Target(f.code, pc) >= 0
    ensures forall t | t in Succs(f.code, pc) ::
            0 <= t <= |f.code| && Boundary(f.code, 0, t) && (t < |f.code| ==> f.code[t] != RETURN_UNDEF)
  {
    hide Admitted, Accepts, ReadI16, ReadU16, Boundary, Targets, ConstsFit, IsIntConst, NameOf;
    SuccAdmitted(f, false, p, pc, 0);
    AdmittedWhole(f, false, p, pc);
    IntOnly(f, p, pc);
    if Fetch(f.code, pc).LoadK? { GatedConst(f, p, pc); }
    GatedName(f, p, pc);
    forall t | t in Succs(f.code, pc)
      ensures 0 <= t <= |f.code| && Boundary(f.code, 0, t) && (t < |f.code| ==> f.code[t] != RETURN_UNDEF)
    {
      SuccAdmitted(f, false, p, pc, t);
    }
  }

  lemma GatedConst(f: Function, p: Plan, pc: nat)
    requires Admitted(f, false, p, pc) && ConstsFit(f) && Fetch(f.code, pc).LoadK?
    ensures var k := Fetch(f.code, pc).k;
            k < |f.constants| && IsIntConst(f.constants[k]) && f.constants[k].bits < TWO64
  {
    hide ReadU16, IsIntConst, Targets;
    var cold, e :| Rule(f, false, cold, p.region.slots, p.owned, Targets(f.code, 0), pc, e) !in {Refused, Cold};
    KNumConst(f, Fetch(f.code, pc).k);
  }

  lemma KNumConst(f: Function, k: nat)
    requires ConstsFit(f) && k < |f.constants| && IsIntConst(f.constants[k])
    ensures f.constants[k].bits < TWO64
  {
  }

  lemma GatedName(f: Function, p: Plan, pc: nat)
    requires Accepts(f, false, p) && Admitted(f, false, p, pc)
    ensures var i := Fetch(f.code, pc); (i.SetName? || i.Hoist?) && IsString(f, i.k) ==> NameOf(f, i.k) in p.names
  {
    hide Analysis, Translation;
    var cold := PlanParts(f, false, p);
    DeclaredIsOwn(f, false, p, pc);
    var i := Fetch(f.code, pc);
    if i.SetName? && IsString(f, i.k) {
      var cold', e :| Rule(f, false, cold', p.region.slots, p.owned, Targets(f.code, 0), pc, e) !in {Refused, Cold};
      SlotMeaning(f, p.names, i.k);
    }
  }

  /** One instruction: the native step and the interpreter's agree, or native code deopts. */
  lemma StepAgree(f: Function, p: Plan, host: Host, outer: Env, rt: Rt, fa: Facts, s: State, m: Mem)
    requires Accepts(f, false, p) && ConstsFit(f) && Boundary(f.code, 0, s.pc) && s.pc < |f.code|
    requires f.code[s.pc] != RETURN_UNDEF
    requires Rel(f, p.names, fa, s, m) && Whole(f.code, s.pc) && Typed(f, fa, Fetch(f.code, s.pc))
    requires rt.consts == p.consts
    ensures Agree(f, p.names, After(f, fa, Fetch(f.code, s.pc)), NStep(PlanCtx(p), rt, s.pc, m),
            Step(f, host, outer, s),
                  NumReturn(fa, Fetch(f.code, s.pc)))
  {
    hide Rel, Typed, Boundary, Accepts, Step, Fetch, Agree, NUnary, NBinary;
    var x := PlanCtx(p);
    CodeOf(f, false, p);
    PlanPool(f, p);
    Gated(f, p, s.pc);
    match Fetch(f.code, s.pc)
    case Unary(op, dst, src) => UnaryAgree(f, host, outer, p.names, fa, s, m, op, dst, src);
    case Binary(op, dst, l, r) => BinaryAgree(f, host, outer, p.names, fa, s, m, op, dst, l, r);
    case SetName(_, _, _) =>
      TypedName(f, fa, s.pc);
      OtherAgree(f, p, host, outer, rt, x, fa, s, m);
    case Hoist(_) =>
      TypedName(f, fa, s.pc);
      OtherAgree(f, p, host, outer, rt, x, fa, s, m);
    case _ => OtherAgree(f, p, host, outer, rt, x, fa, s, m);
  }

  lemma TypedName(f: Function, fa: Facts, pc: nat)
    requires Whole(f.code, pc) && Typed(f, fa, Fetch(f.code, pc))
    requires Fetch(f.code, pc).SetName? || Fetch(f.code, pc).Hoist?
    ensures IsString(f, Fetch(f.code, pc).k)
  {
  }

  lemma PlanPool(f: Function, p: Plan)
    requires Accepts(f, false, p)
    ensures p.consts == Pool(f, false) && Distinct(p.names) && p.owned == |p.names|
  {
    hide Analysis;
    var cold := PlanParts(f, false, p);
  }

  // ------------------------------------------------------------------ whole runs

  /** Both machines stand before the same admitted instruction, in related states. */
  ghost predicate InSync(f: Function, p: Plan, cert: Cert, s: State, m: Mem)
  {
    && s.pc in cert && s.pc < |f.code| && Boundary(f.code, 0, s.pc) && f.code[s.pc] != RETURN_UNDEF
    && Rel(f, p.names, cert[s.pc], s, m)
  }

  lemma NextInSync(f: Function, p: Plan, argc: nat, cert: Cert, pc: nat, s: State, m: Mem)
    requires Accepts(f, false, p) && ConstsFit(f) && Certified(f, argc, cert)
    requires pc in cert && Boundary(f.code, 0, pc) && pc < |f.code| && f.code[pc] != RETURN_UNDEF && Whole(f.code, pc)
    requires s.pc in Succs(f.code, pc) && Rel(f, p.names, After(f, cert[pc], Fetch(f.code, pc)), s, m)
    ensures InSync(f, p, cert, s, m)
  {
    hide Rel, After, Succs, Typed, Accepts, ConstsFit, Boundary;
    Gated(f, p, pc);
    RelWeaken(f, p.names, After(f, cert[pc], Fetch(f.code, pc)), cert[s.pc], s, m);
  }

  lemma {:induction false} LockStep(f: Function, p: Plan, host: Host, outer: Env, argc: nat, cert: Cert, s: State,
                                    m: Mem, k: nat)
    requires Accepts(f, false, p) && ConstsFit(f) && Certified(f, argc, cert) && InSync(f, p, cert, s, m)
    ensures match NRun(PlanCtx(p), RtFor(p, host), s.pc, m, k)
            case Go(pc, m') =>
              var o := Run(f, host, outer, s, k); o.Running? && o.state.pc == pc && InSync(f, p, cert, o.state, m')
            case Leave(w, m') =>
              Unchanged(m') || SameReturn(w, m', Run(f, host, outer, s, k), ReturnsNumbers(f, cert))
            case Bad => false
    decreases k
  {
    hide NStep, Step, Rel, Accepts, ConstsFit, Boundary, After, Typed, SameReturn, ReturnsNumbers, NumReturn, Succs,
        Fetch, Certified;
    if k > 0 {
      CodeOf(f, false, p);
      Gated(f, p, s.pc);
      CertTyped(f, argc, cert, s.pc);
      StepAgree(f, p, host, outer, RtFor(p, host), cert[s.pc], s, m);
      var o := NStep(PlanCtx(p), RtFor(p, host), s.pc, m);
      if o.Leave? && !Unchanged(o.m) {
        Stricter(f, cert, s.pc, o.value, o.m, Step(f, host, outer, s));
      }
      if o.Go? {
        GoesToSucc(PlanCtx(p), RtFor(p, host), s.pc, m);
        var s' := Step(f, host, outer, s).state;
        NextInSync(f, p, argc, cert, s.pc, s', o.m);
        LockStep(f, p, host, outer, argc, cert, s', o.m, k - 1);
      }
    }
  }

  lemma Stricter(f: Function, cert: Cert, pc: nat, w: Word, m: Mem, o: Outcome)
    requires pc in cert && Whole(f.code, pc) && SameReturn(w, m, o, NumReturn(cert[pc], Fetch(f.code, pc)))
    ensures SameReturn(w, m, o, ReturnsNumbers(f, cert)) && o.Returned?
  {
    hide SameNum, SameValue, Fetch, Whole;
  }

  lemma CertTyped(f: Function, argc: nat, cert: Cert, pc: nat)
    requires Certified(f, argc, cert) && pc in cert && Whole(f.code, pc)
    ensures Typed(f, cert[pc], Fetch(f.code, pc))
  {
  }

  /** The frames a call starts with are related. */
  lemma StartRelated(f: Function, p: Plan, host: Host, outer: Env, args: seq<Word>, cert: Cert)
    requires Accepts(f, false, p) && Distinct(f.params) && Unfixed(f, p) && Certified(f, |args|, cert)
    requires forall i | 0 <= i < |args| :: IsSmi(args[i])
    ensures InSync(f, p, cert, Enter(f, host, args), StartMem(p, args, outer))
  {
    hide Certified, Accepts;
    CertStart(f, |args|, cert);
    CodeOf(f, false, p);
    SuccAdmitted(f, false, p, 0, 0);
    PlanPool(f, p);
    PlanRegs(f, p);
    ParamSlots(f, false, p);
    StartRel(f, p, host, outer, args);
    RelWeaken(f, p.names, Given(f, |args|), cert[0], Enter(f, host, args), StartMem(p, args, outer));
  }

  lemma PlanRegs(f: Function, p: Plan)
    requires Accepts(f, false, p)
    ensures p.numRegs == f.numRegs && !p.region.boxed
  {
    hide Analysis;
    var cold := PlanParts(f, false, p);
  }

  lemma CertStart(f: Function, argc: nat, cert: Cert)
    requires Certified(f, argc, cert)
    ensures 0 in cert && cert[0].Within(Given(f, argc))
  {
  }

  lemma {:induction false} BindAt(params: seq<string>, args: seq<Word>, n: nat, i: nat)
    requires Distinct(params) && i < n <= |params|
    ensures params[i] in Bind(params, args, n)
    ensures Bind(params, args, n)[params[i]] == if i < |args| then args[i] else UNDEFINED
  {
    if i < n - 1 { BindAt(params, args, n - 1, i); }
  }

  lemma StartRel(f: Function, p: Plan, host: Host, outer: Env, args: seq<Word>)
    requires Distinct(f.params) && Distinct(p.names) && |f.params| <= p.owned <= |p.names|
    requires p.names[..|f.params|] == f.params
    requires p.numRegs == f.numRegs && !p.region.boxed && Unfixed(f, p) && forall i | 0 <= i < |args| :: IsSmi(args[i])
    ensures Rel(f, p.names, Given(f, |args|), Enter(f, host, args), StartMem(p, args, outer))
  {
    hide SameNum, SameBool, Bind, CallEnv;
    var s, m := Enter(f, host, args), StartMem(p, args, outer);
    forall i | 0 <= i < |f.params|
      ensures f.params[i] in s.env && s.env[f.params[i]] == if i < |args| then args[i] else UNDEFINED
    {
      CallEnvAt(f, host, args, f.params[i]);
      BindAt(f.params, args, |f.params|, i);
    }
    forall n | n in Given(f, |args|).vars
      ensures n in p.names && n in s.env && SameNum(s.env[n], GetReg(m.locals, IndexOf(p.names, n)))
    {
      var i :| 0 <= i < |f.params| && i < |args| && f.params[i] == n;
      assert p.names[i] == p.names[..|f.params|][i];
      IndexUnique(p.names, i);
      SmiSame(args[i]);
    }
  }

  lemma SmiSame(w: Word)
    requires IsSmi(w)
    ensures SameNum(w, ArgWord(false, w))
  {
    SmiIsInt(w);
  }

  // ------------------------------------------------------------------ the theorem

  /** Equal outcomes, but a returned number may differ in the sign of zero. */
  ghost predicate SameUpToZero(a: Outcome, b: Outcome)
  {
    a == b || (a.Returned? && b.Returned? && a.trace == b.trace && exists i: int ::
        SameNum(a.value, i) && SameNum(b.value, i))
  }

  /** What a compiled call that returned says about interpretation: native code asked for a re-run,
      or interpretation returns the same value. */
  lemma NativeExit(f: Function, p: Plan, host: Host, outer: Env, args: seq<Word>, cert: Cert, w: Word, m: Mem)
    requires Accepts(f, false, p) && ConstsFit(f) && Distinct(f.params) && Unfixed(f, p) && Certified(f, |args|, cert)
    requires forall i | 0 <= i < |args| :: IsSmi(args[i])
    requires Returns(p.native, RtFor(p, host), StartMem(p, args, outer), w, m)
    ensures Unchanged(m) || exists o ::
            Ends(f, host, outer, Enter(f, host, args), o) && SameReturn(w, m, o, ReturnsNumbers(f, cert))
  {
    hide Accepts, Certified, ConstsFit, NRun, InSync, Run, SameNum, SameValue, ReturnsNumbers, SameReturn;
    var m0, s0, rt := StartMem(p, args, outer), Enter(f, host, args), RtFor(p, host);
    NeverBad(f, p, host, outer, args, cert);
    CodeOf(f, false, p);
    PlanRegs(f, p);
    TranslationRefines(p.region, rt, m0);
    var k: nat :| NRun(PlanCtx(p), rt, 0, m0, k) == Leave(w, m);
    StartRelated(f, p, host, outer, args, cert);
    LockStep(f, p, host, outer, |args|, cert, s0, m0, k);
    if !Unchanged(m) {
      var o := Run(f, host, outer, s0, k);
      SameReturnIs(w, m, o, ReturnsNumbers(f, cert));
      assert Ends(f, host, outer, s0, o);
    }
  }

  lemma SameReturnIs(w: Word, m: Mem, o: Outcome, strict: bool)
    requires SameReturn(w, m, o, strict)
    ensures m.flag == 0 && m.trace == [] && o.Returned? && o.trace == []
    ensures SameValue(o.value, w) && (strict ==> SameNum(o.value, w))
  {
  }

  /** Where interpretation ends, the compiled call returns. */
  lemma NativeEnds(f: Function, p: Plan, host: Host, outer: Env, args: seq<Word>, cert: Cert, out': Outcome)
    requires Accepts(f, false, p) && ConstsFit(f) && Distinct(f.params) && Unfixed(f, p) && Certified(f, |args|, cert)
    requires forall i | 0 <= i < |args| :: IsSmi(args[i])
    requires Ends(f, host, outer, Enter(f, host, args), out')
    ensures exists w: Word, m :: Returns(p.native, RtFor(p, host), StartMem(p, args, outer), w, m)
  {
    hide Accepts, Certified, ConstsFit, NRun, InSync, Run, SameReturn, ReturnsNumbers, StartMem;
    var m0, s0, rt := StartMem(p, args, outer), Enter(f, host, args), RtFor(p, host);
    NeverBad(f, p, host, outer, args, cert);
    CodeOf(f, false, p);
    StartFrame(f, p, args, outer);
    var k: nat :| Run(f, host, outer, s0, k) == out';
    StartRelated(f, p, host, outer, args, cert);
    LockStep(f, p, host, outer, |args|, cert, s0, m0, k);
    var o := NRun(PlanCtx(p), rt, 0, m0, k);
    TranslationRefines(p.region, rt, m0);
    assert Leaves(PlanCtx(p), rt, m0, o.value, o.m);
  }

  /** How a call finishes, given its native exit. */
  lemma FinishAs(f: Function, p: Plan, host: Host, outer: Env, args: seq<Word>, w: Word, m: Mem, strict: bool,
                 o: Outcome, out: Outcome)
    requires p.owned <= |p.names| && !p.region.boxed && SameReturn(w, m, o, strict)
    ensures Finishes(f, host, outer, p, args, w, m, out) <==> out == Outcome.Returned(BoxResult(w), [])
    ensures strict ==> SameUpToZero(Outcome.Returned(BoxResult(w), []), o)
    ensures SameUpToZero(Outcome.Returned(BoxResult(w), []), o) <==> IsNumber(o.value)
  {
    hide Ends, SameNum, SameBool, BoxResult;
    BoolOrNum(o.value, w);
  }

  lemma BoolOrNum(v: Word, w: Word)
    requires SameNum(v, w) || SameBool(v, w)
    ensures SameNum(v, w) <==> IsNumber(v)
    ensures IsNumber(v) ==> SameNum(BoxResult(w), w)
    ensures IsNumber(BoxResult(w)) && forall i: int | SameNum(v, i) :: IsNumber(v)
  {
    hide NumIs, BoxResult, NumOf, IsNumber;
    BooleansDiffer(v, w);
    BoxResultIs(w);
    if SameNum(v, w) { SameBoxed(v, w); }
  }

  lemma BooleansDiffer(v: Word, w: Word)
    ensures SameBool(v, w) ==> !IsNumber(v) && InBand(w)
    ensures SameNum(v, w) ==> IsNumber(v) && InBand(w)
  {
    hide NumIs, NumOf, IsNumber;
    WordKinds(v);
  }

  lemma SameBoxed(v: Word, w: Word)
    requires SameNum(v, w)
    ensures SameNum(BoxResult(w), w)
  {
    BoxResultIs(w);
  }

  /** For every accepted, certified function that returns numbers and every vector of SMI arguments,
      the outcomes of the compiled call are the outcomes of interpreting the bytecode, up to the sign
      of zero; so one ends exactly when the other does. */
  lemma IntLaneCorrect(f: Function, p: Plan, host: Host, outer: Env, args: seq<Word>, cert: Cert)
    requires Accepts(f, false, p) && ConstsFit(f) && Distinct(f.params) && Unfixed(f, p) && Certified(f, |args|, cert)
    requires ReturnsNumbers(f, cert)
    requires forall i | 0 <= i < |args| :: IsSmi(args[i])
    ensures p.owned <= |p.names|
    ensures forall out :: CallsTo(f, host, outer, p, args, out) ==>
              exists out' :: Ends(f, host, outer, Enter(f, host, args), out') && SameUpToZero(out, out')
    ensures forall out' :: Ends(f, host, outer, Enter(f, host, args), out') ==>
              exists out :: CallsTo(f, host, outer, p, args, out) && SameUpToZero(out, out')
  {
    hide Accepts, Ends, CallsTo, Certified, ConstsFit, ReturnsNumbers;
    PlanPool(f, p);
    forall out | CallsTo(f, host, outer, p, args, out)
      ensures exists out' :: Ends(f, host, outer, Enter(f, host, args), out') && SameUpToZero(out, out')
    {
      CallIsRun(f, p, host, outer, args, cert, out);
    }
    forall out' | Ends(f, host, outer, Enter(f, host, args), out')
      ensures exists out :: CallsTo(f, host, outer, p, args, out) && SameUpToZero(out, out')
    {
      RunIsCall(f, p, host, outer, args, cert, out');
    }
  }

  /** Without the premise on returned values: a native value is the interpreter's, up to the sign of
      zero, exactly when the interpreter returned a number. The gate lets a comparison result escape
      (`(a < b) && a`), and native code then returns 0 or 1 for false or true. */
  lemma IntLaneExact(f: Function, p: Plan, host: Host, outer: Env, args: seq<Word>, cert: Cert, w: Word, m: Mem,
                     out: Outcome)
    requires Accepts(f, false, p) && ConstsFit(f) && Distinct(f.params) && Unfixed(f, p) && Certified(f, |args|, cert)
    requires forall i | 0 <= i < |args| :: IsSmi(args[i])
    requires Returns(p.native, RtFor(p, host), StartMem(p, args, outer), w, m) && m.flag != 1
    requires Ends(f, host, outer, Enter(f, host, args), out)
    ensures out.Returned? && (SameUpToZero(Outcome.Returned(BoxResult(w), []), out) <==> IsNumber(out.value))
  {
    hide Accepts, Certified, ConstsFit, ReturnsNumbers, SameReturn, StartMem, Enter, Ends, Returns, Finishes;
    PlanPool(f, p);
    PlanRegs(f, p);
    NativeExit(f, p, host, outer, args, cert, w, m);
    var o :| Ends(f, host, outer, Enter(f, host, args), o) && SameReturn(w, m, o, ReturnsNumbers(f, cert));
    SameReturnIs(w, m, o, ReturnsNumbers(f, cert));
    OneEnd(f, host, outer, Enter(f, host, args), o, out);
    FinishAs(f, p, host, outer, args, w, m, ReturnsNumbers(f, cert), o, out);
  }

  lemma OneEnd(f: Function, host: Host, outer: Env, s: State, a: Outcome, b: Outcome)
    requires Ends(f, host, outer, s, a) && Ends(f, host, outer, s, b)
    ensures a == b
  {
    hide Run;
    var i: nat :| Run(f, host, outer, s, i) == a;
    var j: nat :| Run(f, host, outer, s, j) == b;
    if i <= j { RunLonger(f, host, outer, s, i, j); } else { RunLonger(f, host, outer, s, j, i); }
  }

  lemma StartFrame(f: Function, p: Plan, args: seq<Word>, outer: Env)
    requires Accepts(f, false, p)
    ensures |StartMem(p, args, outer).regs| == FrameSize(p.numRegs)
  {
  }

  /** The flat machine started by a call never meets an instruction it cannot run. */
  lemma NeverBad(f: Function, p: Plan, host: Host, outer: Env, args: seq<Word>, cert: Cert)
    requires Accepts(f, false, p) && ConstsFit(f) && Distinct(f.params) && Unfixed(f, p) && Certified(f, |args|, cert)
    requires forall i | 0 <= i < |args| :: IsSmi(args[i])
    ensures forall k: nat :: !NRun(PlanCtx(p), RtFor(p, host), 0, StartMem(p, args, outer), k).Bad?
  {
    hide Accepts, Certified, ConstsFit, NRun, InSync, Run, SameReturn;
    StartRelated(f, p, host, outer, args, cert);
    forall k: nat ensures !NRun(PlanCtx(p), RtFor(p, host), 0, StartMem(p, args, outer), k).Bad? {
      LockStep(f, p, host, outer, |args|, cert, Enter(f, host, args), StartMem(p, args, outer), k);
    }
  }

  lemma CallIsRun(f: Function, p: Plan, host: Host, outer: Env, args: seq<Word>, cert: Cert, out: Outcome)
    requires Accepts(f, false, p) && ConstsFit(f) && Distinct(f.params) && Unfixed(f, p) && Certified(f, |args|, cert)
    requires ReturnsNumbers(f, cert)
    requires forall i | 0 <= i < |args| :: IsSmi(args[i])
    requires p.owned == |p.names| && CallsTo(f, host, outer, p, args, out)
    ensures exists out' :: Ends(f, host, outer, Enter(f, host, args), out') && SameUpToZero(out, out')
  {
    hide Accepts, Certified, ConstsFit, ReturnsNumbers, SameReturn, StartMem, Enter, Ends, Returns, Finishes,
        SameUpToZero;
    PlanRegs(f, p);
    Itself(out);
    var w, m :| Returns(p.native, RtFor(p, host), StartMem(p, args, outer), w, m)
        && Finishes(f, host, outer, p, args, w, m, out);
    NativeExit(f, p, host, outer, args, cert, w, m);
    if Unchanged(m) {
      DeoptReruns(f, p, host, outer, args, w, m, out);
    } else {
      var o :| Ends(f, host, outer, Enter(f, host, args), o) && SameReturn(w, m, o, ReturnsNumbers(f, cert));
      FinishAs(f, p, host, outer, args, w, m, true, o, out);
    }
  }

  lemma Itself(out: Outcome)
    ensures SameUpToZero(out, out)
  {
  }

  lemma DeoptReruns(f: Function, p: Plan, host: Host, outer: Env, args: seq<Word>, w: Word, m: Mem, out: Outcome)
    requires p.owned <= |p.names| && Unchanged(m)
    ensures Finishes(f, host, outer, p, args, w, m, out) <==> Ends(f, host, outer, Enter(f, host, args), out)
  {
  }

  lemma RunIsCall(f: Function, p: Plan, host: Host, outer: Env, args: seq<Word>, cert: Cert, out': Outcome)
    requires Accepts(f, false, p) && ConstsFit(f) && Distinct(f.params) && Unfixed(f, p) && Certified(f, |args|, cert)
    requires ReturnsNumbers(f, cert)
    requires forall i | 0 <= i < |args| :: IsSmi(args[i])
    requires p.owned == |p.names| && Ends(f, host, outer, Enter(f, host, args), out')
    ensures exists out :: CallsTo(f, host, outer, p, args, out) && SameUpToZero(out, out')
  {
    hide Accepts, Certified, ConstsFit, ReturnsNumbers, SameReturn, StartMem, Enter, Ends, Returns, Finishes,
        SameUpToZero;
    PlanRegs(f, p);
    Itself(out');
    NativeEnds(f, p, host, outer, args, cert, out');
    var w: Word, m :| Returns(p.native, RtFor(p, host), StartMem(p, args, outer), w, m);
    NativeExit(f, p, host, outer, args, cert, w, m);
    if Unchanged(m) {
      DeoptReruns(f, p, host, outer, args, w, m, out');
      assert CallsTo(f, host, outer, p, args, out');
    } else {
      var o :| Ends(f, host, outer, Enter(f, host, args), o) && SameReturn(w, m, o, ReturnsNumbers(f, cert));
      OneEnd(f, host, outer, Enter(f, host, args), o, out');
      var out := Outcome.Returned(BoxResult(w), []);
      FinishAs(f, p, host, outer, args, w, m, true, o, out);
      assert CallsTo(f, host, outer, p, args, out);
    }
  }
}
