/** The interpreter on emitted instructions: what each does to the registers, the variables and the
    trace, in the terms expression evaluation uses. */
module Machine {
  import opened Bits
  import opened NanBox
  import opened Bytecode
  import opened Interp
  import opened Emit
  import opened Chunk
  import opened Expr
  import opened Codegen

  /** `code` sits at `at` in the function. */
  ghost predicate Placed(f: Function, at: nat, code: seq<Byte>)
  {
    at + |code| <= |f.code| && f.code[at..at + |code|] == code
  }

  lemma PlacedSplit(f: Function, at: nat, a: seq<Byte>, b: seq<Byte>)
    requires Placed(f, at, a + b)
    ensures Placed(f, at, a) && Placed(f, at + |a|, b)
  {
    assert f.code[at..at + |a|] == (a + b)[..|a|];
    assert f.code[at + |a|..at + |a| + |b|] == (a + b)[|a|..];
  }

  lemma PlacedAt(f: Function, at: nat, code: seq<Byte>, i: nat)
    requires Placed(f, at, code) && i < |code|
    ensures f.code[at + i] == code[i]
  {
    assert f.code[at..at + |code|][i] == code[i];
  }

  lemma SameTwo(f: Function, at: nat, code: seq<Byte>, i: nat)
    requires Placed(f, at, code) && i + 2 <= |code|
    ensures at + i + 2 <= |f.code| && f.code[at + i..at + i + 2] == code[i..i + 2]
  {
    PlacedAt(f, at, code, i);
    PlacedAt(f, at, code, i + 1);
    assert f.code[at + i..at + i + 2] == [f.code[at + i], f.code[at + i + 1]];
    assert code[i..i + 2] == [code[i], code[i + 1]];
  }

  lemma PlacedU16(f: Function, at: nat, code: seq<Byte>, i: nat, v: nat)
    requires Placed(f, at, code) && i + 2 <= |code| && code[i..i + 2] == Enc16(v) && v < 0x1_0000
    ensures ReadU16(f.code, at + i) == v
  {
    SameTwo(f, at, code, i);
    U16RoundTrip(f.code, at + i, v);
  }

  lemma PlacedI16(f: Function, at: nat, code: seq<Byte>, i: nat, v: int)
    requires Placed(f, at, code) && i + 2 <= |code| && code[i..i + 2] == Enc16(v) && FitsI16(v)
    ensures ReadI16(f.code, at + i) == v
  {
    SameTwo(f, at, code, i);
    I16RoundTrip(f.code, at + i, v);
  }

  // ------------------------------------------------------------------ decoding

  lemma FetchTwo(f: Function, pc: nat, op: int, a: nat)
    requires Placed(f, pc, Two(op, a)) && LOAD_TRUE <= op <= LOAD_UNDEF && a < 256
    ensures Whole(f.code, pc) && Next(f.code, pc) == pc + 2 && Fetch(f.code, pc) == LoadLit(op, a)
  {
    hide ReadU16, ReadI16;
    PlacedAt(f, pc, Two(op, a), 0); PlacedAt(f, pc, Two(op, a), 1);
  }

  predicate IsUnary(op: int) { op in {MOVE, NEG, BIT_NOT, INC, DEC, NOT, TYPEOF, TO_NUMBER, TO_NUMERIC} }

  lemma FetchThree(f: Function, pc: nat, op: int, a: nat, b: nat)
    requires Placed(f, pc, Three(op, a, b)) && IsUnary(op) && a < 256 && b < 256
    ensures Whole(f.code, pc) && Next(f.code, pc) == pc + 3 && Fetch(f.code, pc) == Instr.Unary(op, a, b)
  {
    hide ReadU16, ReadI16;
    PlacedAt(f, pc, Three(op, a, b), 0); PlacedAt(f, pc, Three(op, a, b), 1); PlacedAt(f, pc, Three(op, a, b), 2);
  }

  lemma FetchFour(f: Function, pc: nat, op: int, a: nat, b: nat, c: nat)
    requires Placed(f, pc, Four(op, a, b, c)) && a < 256 && b < 256 && c < 256
    requires IsOperator(op) || op == GET_PROP_DYN || op == SET_PROP_DYN || op == CALL
    ensures Whole(f.code, pc) && Next(f.code, pc) == pc + 4
    ensures Fetch(f.code, pc) == if op == SET_PROP_DYN then SetElem(a, b, c)
                                 else if op == CALL then Instr.Call(a, b, c) else Instr.Binary(op, a, b, c)
  {
    hide ReadU16, ReadI16;
    PlacedAt(f, pc, Four(op, a, b, c), 0); PlacedAt(f, pc, Four(op, a, b, c), 1);
    PlacedAt(f, pc, Four(op, a, b, c), 2); PlacedAt(f, pc, Four(op, a, b, c), 3);
  }

  lemma FetchLoad(f: Function, pc: nat, op: Byte, s: nat, k: nat)
    requires Placed(f, pc, LoadName(op, s, k)) && s < 256 && k < 0x1_0000
    requires op == LOAD_K || op == GET_GLOBAL || op == GET_GLOBAL_OPT
    ensures Whole(f.code, pc) && Next(f.code, pc) == pc + 4
    ensures Fetch(f.code, pc) == if op == LOAD_K then LoadK(s, k) else GetName(op, s, k)
  {
    var c := LoadName(op, s, k);
    PlacedAt(f, pc, c, 0); PlacedAt(f, pc, c, 1);
    assert c[2..4] == Enc16(k);
    PlacedU16(f, pc, c, 2, k);
  }

  lemma FetchStore(f: Function, pc: nat, k: nat, s: nat)
    requires Placed(f, pc, StoreName(k, s)) && s < 256 && k < 0x1_0000
    ensures Whole(f.code, pc) && Next(f.code, pc) == pc + 4 && Fetch(f.code, pc) == SetName(SET_GLOBAL, k, s)
  {
    var c := StoreName(k, s);
    PlacedAt(f, pc, c, 0); PlacedAt(f, pc, c, 3);
    assert c[1..3] == Enc16(k);
    PlacedU16(f, pc, c, 1, k);
  }

  lemma FetchBranch(f: Function, pc: nat, op: int, s: nat, delta: int)
    requires Placed(f, pc, BranchTo(op, s, delta)) && s < 256 && FitsI16(delta)
    requires IsSkip(op) || op == JMP_IF_NULLISH
    ensures Whole(f.code, pc) && Next(f.code, pc) == pc + 4 && Fetch(f.code, pc) == Branch(op, s, delta)
  {
    hide Fetch, Whole, Next, ReadI16;
    var c := BranchTo(op, s, delta);
    PlacedAt(f, pc, c, 0); PlacedAt(f, pc, c, 1);
    assert c[2..4] == Enc16(delta);
    PlacedI16(f, pc, c, 2, delta);
    BranchBytes(f.code, pc);
  }

  lemma BranchBytes(code: Code, pc: nat)
    requires pc + 4 <= |code| && JMP_IF_TRUE <= code[pc] <= JMP_IF_NOT_NULLISH
    ensures Whole(code, pc) && Next(code, pc) == pc + 4
            && Fetch(code, pc) == Branch(code[pc], code[pc + 1], ReadI16(code, pc + 2))
  {
    hide ReadI16;
  }

  lemma FetchJump(f: Function, pc: nat, delta: int)
    requires Placed(f, pc, JumpTo(delta)) && FitsI16(delta)
    ensures Whole(f.code, pc) && Next(f.code, pc) == pc + 3 && Fetch(f.code, pc) == Jump(delta)
  {
    var c := JumpTo(delta);
    PlacedAt(f, pc, c, 0);
    assert c[1..3] == Enc16(delta);
    PlacedI16(f, pc, c, 1, delta);
  }

  lemma FetchGetStatic(f: Function, pc: nat, s: nat, k: nat)
    requires Placed(f, pc, GetStatic(s, k)) && s < 256 && k < 0x1_0000
    ensures Whole(f.code, pc) && Next(f.code, pc) == pc + 5 && Fetch(f.code, pc) == GetProp(s, s, k)
  {
    var c := GetStatic(s, k);
    PlacedAt(f, pc, c, 0); PlacedAt(f, pc, c, 1); PlacedAt(f, pc, c, 2);
    assert c[3..5] == Enc16(k);
    PlacedU16(f, pc, c, 3, k);
  }

  lemma FetchSetStatic(f: Function, pc: nat, o: nat, k: nat, v: nat)
    requires Placed(f, pc, SetStatic(o, k, v)) && o < 256 && v < 256 && k < 0x1_0000
    ensures Whole(f.code, pc) && Next(f.code, pc) == pc + 5 && Fetch(f.code, pc) == SetProp(o, k, v)
  {
    var c := SetStatic(o, k, v);
    PlacedAt(f, pc, c, 0); PlacedAt(f, pc, c, 1); PlacedAt(f, pc, c, 4);
    assert c[2..4] == Enc16(k);
    PlacedU16(f, pc, c, 2, k);
  }

  // ------------------------------------------------------------------ where evaluation lands

  /** The interpreter is at `pc` with the variables and trace of `st`. */
  ghost predicate Stands(x: World, s: State, pc: nat, st: Memo)
  {
    s.pc == pc && s.env == st.env && s.trace == st.trace && s.reach == x.reach && s.strict == x.strict
    && s.fixed == x.fixed
  }

  /** Registers below `r` are as they were. */
  ghost predicate Below(a: State, b: State, r: nat)
  {
    |a.regs| == |b.regs| && forall i | 0 <= i < r && i < |a.regs| :: a.regs[i] == b.regs[i]
  }

  /** The run from `s0` ended as evaluation did: at `next` with the value in `r`, at the pad of the
      chain, or with the error; and no register below `r` changed. */
  ghost predicate Lands(x: World, s0: State, o: Outcome, ev: Ev, next: nat, g: Guard, r: nat)
  {
    match ev
    case Val(w, st) =>
      o.Running? && Stands(x, o.state, next, st) && Below(s0, o.state, r) && r < |s0.regs| && o.state.regs[r] == w
    case Short(st) => g.To? && o.Running? && Stands(x, o.state, g.pad, st) && Below(s0, o.state, r)
    case Err(e, t) => o == Outcome.Threw(e, t)
  }

  lemma BelowTrans(a: State, b: State, c: State, r: nat, r': nat)
    requires Below(a, b, r) && Below(b, c, r') && r <= r'
    ensures Below(a, c, r)
  {
  }

  /** Leaving early from a later point of the run. */
  lemma LandsEarly(x: World, s0: State, s1: State, o: Outcome, ev: Ev, next: nat, next': nat, g: Guard, r: nat, r': nat)
    requires Below(s0, s1, r) && r <= r' && Lands(x, s1, o, ev, next, g, r') && !ev.Val?
    ensures Lands(x, s0, o, ev, next', g, r)
  {
  }

  /** Landing at the same register from a later point of the run. */
  lemma LandsLater(x: World, s0: State, s1: State, o: Outcome, ev: Ev, next: nat, g: Guard, r: nat)
    requires Below(s0, s1, r) && Lands(x, s1, o, ev, next, g, r)
    ensures Lands(x, s0, o, ev, next, g, r)
  {
  }

  lemma RunOne(f: Function, host: Host, outer: Env, s: State)
    ensures Run(f, host, outer, s, 1) == Step(f, host, outer, s)
  {
    match Step(f, host, outer, s)
    case Running(s') => assert Run(f, host, outer, s', 0) == Running(s');
    case _ =>
  }

  // ------------------------------------------------------------------ one instruction

  lemma PutLands(x: World, s: State, st: Memo, next: nat, g: Guard, r: nat, w: Word)
    requires Stands(x, s, s.pc, st) && r < |s.regs|
    ensures Lands(x, s, Running(s.(pc := next, regs := SetReg(s.regs, r, w))), Val(w, st), next, g, r)
  {
  }

  lemma AskLands(x: World, s: State, st: Memo, next: nat, g: Guard, r: nat, ev: Event)
    requires Stands(x, s, s.pc, st) && r < |s.regs|
    ensures Lands(x, s, Perform(x.host, s, next, ev, r), Ask(x, st, ev), next, g, r)
  {
  }

  lemma StepUnary(f: Function, x: World, s: State, st: Memo, op: int, a: nat, b: nat, g: Guard)
    requires Stands(x, s, s.pc, st) && a < |s.regs| && b < |s.regs| && IsUnary(op) && op != MOVE
    requires Placed(f, s.pc, Three(op, a, b)) && a < 256 && b < 256
    ensures Lands(x, s, Step(f, x.host, x.outer, s), ApplyUnary(x, op, s.regs[b], st), s.pc + 3, g, a)
  {
    hide Fetch, NumUnary, WordTruthy, Coerce, HasNum, Perform, Ask, Three;
    FetchThree(f, s.pc, op, a, b);
    var w := s.regs[b];
    AskLands(x, s, st, s.pc + 3, g, a, Event(op, [w], ""));
    PutLands(x, s, st, s.pc + 3, g, a, NumUnary(op, Coerce(w)));
    PutLands(x, s, st, s.pc + 3, g, a, FromBool(!WordTruthy(x.host, w)));
  }

  lemma StepMove(f: Function, x: World, s: State, st: Memo, a: nat, b: nat, g: Guard)
    requires Stands(x, s, s.pc, st) && a < |s.regs| && b < |s.regs|
    requires Placed(f, s.pc, Three(MOVE, a, b)) && a < 256 && b < 256
    ensures Lands(x, s, Step(f, x.host, x.outer, s), Val(s.regs[b], st), s.pc + 3, g, a)
  {
    hide Fetch, Three;
    FetchThree(f, s.pc, MOVE, a, b);
    PutLands(x, s, st, s.pc + 3, g, a, s.regs[b]);
  }

  lemma StepBinary(f: Function, x: World, s: State, st: Memo, op: int, a: nat, b: nat, c: nat, g: Guard)
    requires Stands(x, s, s.pc, st) && a < |s.regs| && b < |s.regs| && c < |s.regs| && IsOperator(op)
    requires Placed(f, s.pc, Four(op, a, b, c)) && a < 256 && b < 256 && c < 256
    ensures Lands(x, s, Step(f, x.host, x.outer, s), ApplyBinary(x, op, s.regs[b], s.regs[c], st), s.pc + 4, g, a)
  {
    hide Fetch, NumBinary, Coerce, Computes, Perform, Ask, Four;
    FetchFour(f, s.pc, op, a, b, c);
    AskLands(x, s, st, s.pc + 4, g, a, Event(op, [s.regs[b], s.regs[c]], ""));
    PutLands(x, s, st, s.pc + 4, g, a, NumBinary(op, Coerce(s.regs[b]), Coerce(s.regs[c])));
  }

  lemma StepLit(f: Function, x: World, s: State, st: Memo, op: int, a: nat, w: Word, g: Guard)
    requires Stands(x, s, s.pc, st) && a < |s.regs| && a < 256 && Placed(f, s.pc, Two(op, a))
    requires LOAD_TRUE <= op <= LOAD_UNDEF
    requires w == if op == LOAD_TRUE then TRUE else if op == LOAD_FALSE then FALSE else if op == LOAD_NULL then NULL
             else UNDEFINED
    ensures Lands(x, s, Step(f, x.host, x.outer, s), Val(w, st), s.pc + 2, g, a)
  {
    hide Fetch, Two;
    FetchTwo(f, s.pc, op, a);
    PutLands(x, s, st, s.pc + 2, g, a, w);
  }

  /** Every text constant of the function stands for the word of its text. */
  ghost predicate TextPool(x: World, f: Function)
  {
    |f.constants| <= 0x1_0000 && forall k | 0 <= k < |f.constants| ::
        f.constants[k].KStr? ==> f.constants[k].ptr == x.host.ofText(f.constants[k].name)
  }

  /** A pooled constant is still at its index in the finished function. */
  lemma ConstantAt(x: World, f: Function, pool: seq<Const>, c: Const)
    requires Pooled(pool, c) <= f.constants && TextPool(x, f)
    requires c.KNum? || (c.KStr? && c.ptr == x.host.ofText(c.name))
    ensures var k := PoolIndex(pool, c);
            k < |f.constants| && k < 0x1_0000 && ConstWord(f.constants[k]) == ConstWord(c)
            && (c.KStr? ==> NameOf(f, k) == c.name)
  {
    PoolKeeps(pool, c);
    var k := PoolIndex(pool, c);
    assert f.constants[k] == Pooled(pool, c)[k];
  }

  lemma StepLoadK(f: Function, x: World, s: State, st: Memo, pool: seq<Const>, c: Const, a: nat, g: Guard)
    requires Stands(x, s, s.pc, st) && a < |s.regs| && a < 256
    requires Placed(f, s.pc, LoadName(LOAD_K, a, PoolIndex(pool, c)))
    requires Pooled(pool, c) <= f.constants && TextPool(x, f)
    requires c.KNum? || (c.KStr? && c.ptr == x.host.ofText(c.name))
    ensures Lands(x, s, Step(f, x.host, x.outer, s), Val(ConstWord(c), st), s.pc + 4, g, a)
  {
    hide Fetch, LoadName, Pooled, PoolIndex, ConstWord;
    ConstantAt(x, f, pool, c);
    FetchLoad(f, s.pc, LOAD_K, a, PoolIndex(pool, c));
    PutLands(x, s, st, s.pc + 4, g, a, ConstWord(c));
  }

  lemma StepRead(f: Function, x: World, s: State, st: Memo, pool: seq<Const>, op: Byte, n: string, a: nat, g: Guard)
    requires Stands(x, s, s.pc, st) && a < |s.regs| && a < 256 && (op == GET_GLOBAL || op == GET_GLOBAL_OPT)
    requires Placed(f, s.pc, LoadName(op, a, PoolIndex(pool, StrConst(x, n))))
    requires Pooled(pool, StrConst(x, n)) <= f.constants && TextPool(x, f)
    ensures Lands(x, s, Step(f, x.host, x.outer, s), ReadName(x, op, n, st), s.pc + 4, g, a)
  {
    hide Fetch, LoadName, Pooled, PoolIndex, Perform, Ask;
    var k := PoolIndex(pool, StrConst(x, n));
    ConstantAt(x, f, pool, StrConst(x, n));
    FetchLoad(f, s.pc, op, a, k);
    AskLands(x, s, st, s.pc + 4, g, a, Event(op, [], n));
    if n in st.env { PutLands(x, s, st, s.pc + 4, g, a, st.env[n]); }
    else if n in x.outer { PutLands(x, s, st, s.pc + 4, g, a, x.outer[n]); }
  }

  /** A store leaves every register alone. */
  ghost predicate Stored(x: World, s: State, o: Outcome, ev: Ev, next: nat)
  {
    match ev
    case Val(_, st) => o.Running? && Stands(x, o.state, next, st) && o.state.regs == s.regs
    case Short(_) => false
    case Err(e, t) => o == Outcome.Threw(e, t)
  }

  lemma StepWrite(f: Function, x: World, s: State, st: Memo, pool: seq<Const>, n: string, a: nat)
    requires Stands(x, s, s.pc, st) && a < |s.regs| && a < 256
    requires Placed(f, s.pc, StoreName(PoolIndex(pool, StrConst(x, n)), a))
    requires Pooled(pool, StrConst(x, n)) <= f.constants && TextPool(x, f)
    ensures Stored(x, s, Step(f, x.host, x.outer, s), WriteName(x, n, s.regs[a], st), s.pc + 4)
  {
    hide Fetch, StoreName, Pooled, PoolIndex;
    ConstantAt(x, f, pool, StrConst(x, n));
    FetchStore(f, s.pc, PoolIndex(pool, StrConst(x, n)), a);
  }

  lemma StepGetStatic(f: Function, x: World, s: State, st: Memo, pool: seq<Const>, n: string, a: nat, g: Guard)
    requires Stands(x, s, s.pc, st) && a < |s.regs| && a < 256
    requires Placed(f, s.pc, GetStatic(a, PoolIndex(pool, StrConst(x, n))))
    requires Pooled(pool, StrConst(x, n)) <= f.constants && TextPool(x, f)
    ensures Lands(x, s, Step(f, x.host, x.outer, s), Ask(x, st, Event(GET_PROP, [s.regs[a]], n)), s.pc + 5, g, a)
  {
    hide Fetch, GetStatic, Pooled, PoolIndex, Perform, Ask;
    ConstantAt(x, f, pool, StrConst(x, n));
    FetchGetStatic(f, s.pc, a, PoolIndex(pool, StrConst(x, n)));
    AskLands(x, s, st, s.pc + 5, g, a, Event(GET_PROP, [s.regs[a]], n));
  }

  lemma StepGetElem(f: Function, x: World, s: State, st: Memo, a: nat, g: Guard)
    requires Stands(x, s, s.pc, st) && a + 1 < |s.regs| && a + 1 < 256
    requires Placed(f, s.pc, Four(GET_PROP_DYN, a, a, a + 1))
    ensures Lands(x, s, Step(f, x.host, x.outer, s), Ask(x, st, Event(GET_PROP_DYN, [s.regs[a], s.regs[a + 1]], "")),
            s.pc + 4, g, a)
  {
    hide Fetch, Four, Perform, Ask, Computes;
    FetchFour(f, s.pc, GET_PROP_DYN, a, a, a + 1);
    NotComputed(s.regs[a], s.regs[a + 1]);
    AskLands(x, s, st, s.pc + 4, g, a, Event(GET_PROP_DYN, [s.regs[a], s.regs[a + 1]], ""));
  }

  lemma NotComputed(a: Word, b: Word)
    ensures !Computes(GET_PROP_DYN, a, b)
  {
  }

  lemma StepSetStatic(f: Function, x: World, s: State, st: Memo, pool: seq<Const>, n: string, o: nat, v: nat)
    requires Stands(x, s, s.pc, st) && o < |s.regs| && v < |s.regs| && o < 256 && v < 256
    requires Placed(f, s.pc, SetStatic(o, PoolIndex(pool, StrConst(x, n)), v))
    requires Pooled(pool, StrConst(x, n)) <= f.constants && TextPool(x, f)
    ensures Stored(x, s, Step(f, x.host, x.outer, s), Ask(x, st, Event(SET_PROP, [s.regs[o], s.regs[v]], n)), s.pc + 5)
  {
    hide Fetch, SetStatic, Pooled, PoolIndex;
    ConstantAt(x, f, pool, StrConst(x, n));
    FetchSetStatic(f, s.pc, o, PoolIndex(pool, StrConst(x, n)), v);
  }

  lemma StepSetElem(f: Function, x: World, s: State, st: Memo, o: nat)
    requires Stands(x, s, s.pc, st) && o + 2 < |s.regs| && o + 2 < 256
    requires Placed(f, s.pc, Four(SET_PROP_DYN, o, o + 1, o + 2))
    ensures Stored(x, s, Step(f, x.host, x.outer, s),
                   Ask(x, st, Event(SET_PROP_DYN, [s.regs[o], s.regs[o + 1], s.regs[o + 2]], "")), s.pc + 4)
  {
    hide Fetch, Four;
    FetchFour(f, s.pc, SET_PROP_DYN, o, o + 1, o + 2);
  }

  lemma CallArgs(regs: seq<Word>, base: nat, nargs: nat)
    requires base + nargs < |regs|
    ensures CallEvent(regs, base, nargs) == Event(CALL, regs[base..base + nargs + 1], "")
  {
    var a := CallEvent(regs, base, nargs).args;
    forall i: nat | i < nargs + 1 ensures |a| == nargs + 1 && a[i] == regs[base..base + nargs + 1][i] {
      assert a[i] == GetReg(regs, base + i);
    }
    assert a == regs[base..base + nargs + 1];
  }

  lemma StepCall(f: Function, x: World, s: State, st: Memo, base: nat, nargs: nat, g: Guard)
    requires Stands(x, s, s.pc, st) && base + nargs < |s.regs| && base < 256 && nargs < 256
    requires Placed(f, s.pc, Four(CALL, base, nargs, base))
    ensures Lands(x, s, Step(f, x.host, x.outer, s), Ask(x, st, Event(CALL, s.regs[base..base + nargs + 1], "")),
            s.pc + 4, g, base)
  {
    hide Fetch, Four, Perform, Ask;
    FetchFour(f, s.pc, CALL, base, nargs, base);
    var args := s.regs[base..base + nargs + 1];
    CallArgs(s.regs, base, nargs);
    AskLands(x, s, st, s.pc + 4, g, base, Event(CALL, args, ""));
  }

  lemma StepBranch(f: Function, x: World, s: State, st: Memo, op: int, a: nat, delta: int)
    requires Stands(x, s, s.pc, st) && a < |s.regs| && a < 256 && FitsI16(delta) && s.pc + 4 + delta >= 0
    requires (IsSkip(op) || op == JMP_IF_NULLISH) && Placed(f, s.pc, BranchTo(op, a, delta))
    ensures Step(f, x.host, x.outer, s) == Running(s.(pc := if Taken(x, op, s.regs[a]) then s.pc + 4 + delta
            else s.pc + 4))
  {
    hide Fetch, BranchTo, WordTruthy;
    FetchBranch(f, s.pc, op, a, delta);
  }

  lemma StepJump(f: Function, x: World, s: State, delta: nat)
    requires FitsI16(delta) && Placed(f, s.pc, JumpTo(delta))
    ensures Step(f, x.host, x.outer, s) == Running(s.(pc := s.pc + 3 + delta))
  {
    hide Fetch, JumpTo;
    FetchJump(f, s.pc, delta);
  }
}
