/** Compiler correctness: running the code of an expression does what evaluating it does. */
module Compiled {
  import opened Bits
  import opened NanBox
  import opened Bytecode
  import opened Interp
  import opened Emit
  import opened Chunk
  import opened Expr
  import opened Codegen
  import opened Machine

  /** The code `o` is in the function, complete, with room for its registers, and the interpreter is
      about to run it. */
  ghost predicate Set(f: Function, x: World, o: Out, at: nat, s0: State, st: Memo)
  {
    && Placed(f, at, o.code) && o.fits && o.top <= 256 && o.top <= |s0.regs| && o.pool <= f.constants && TextPool(x, f)
    && Stands(x, s0, at, st)
  }

  function ModeOf(g: Guard): Mode { Mode(true, InChain(g)) }

  /** Starting in `s0`, `n` steps do what `ev` says. */
  ghost predicate Does(f: Function, x: World, s0: State, n: nat, ev: Ev, next: nat, g: Guard, r: nat)
  {
    Lands(x, s0, Run(f, x.host, x.outer, s0, n), ev, next, g, r)
  }

  /** One more part after a run that reached `s1`: its early exits and its landing are the whole's. */
  lemma Then(f: Function, x: World, s0: State, n: nat, s1: State, k: nat, ev: Ev, next: nat, next': nat, g: Guard,
             r: nat, r': nat)
    requires Run(f, x.host, x.outer, s0, n) == Running(s1) && Below(s0, s1, r) && r <= r'
    requires Does(f, x, s1, k, ev, next, g, r')
    ensures !ev.Val? ==> Does(f, x, s0, n + k, ev, next', g, r)
    ensures r == r' ==> Does(f, x, s0, n + k, ev, next, g, r)
    ensures ev.Val? ==> var s2 := Run(f, x.host, x.outer, s1, k).state;
              Run(f, x.host, x.outer, s0, n + k) == Running(s2) && Below(s0, s2, r) && Below(s1, s2, r')
              && Stands(x, s2, next, ev.st) && s2.pc == next
              && r' < |s2.regs| && s2.regs[r'] == ev.w && |s2.regs| == |s0.regs|
  {
    hide Run;
    RunAdd(f, x.host, x.outer, s0, n, k);
    var o := Run(f, x.host, x.outer, s1, k);
    if !ev.Val? { LandsEarly(x, s0, s1, o, ev, next, next', g, r, r'); }
    if r == r' { LandsLater(x, s0, s1, o, ev, next, g, r); }
    if ev.Val? { BelowTrans(s0, s1, o.state, r, r'); }
  }

  /** The same for a first part, from the start. */
  lemma First(f: Function, x: World, s0: State, n: nat, ev: Ev, next: nat, next': nat, g: Guard, r: nat, r': nat)
    requires Does(f, x, s0, n, ev, next, g, r') && r <= r'
    ensures !ev.Val? ==> Does(f, x, s0, n, ev, next', g, r)
    ensures ev.Val? ==> var o := Run(f, x.host, x.outer, s0, n);
              o.Running? && Below(s0, o.state, r) && Stands(x, o.state, next, ev.st) && o.state.pc == next
              && r' < |o.state.regs| && o.state.regs[r'] == ev.w
              && |o.state.regs| == |s0.regs| && Below(s0, o.state, r')
  {
    hide Run;
  }

  /** A single instruction as a run. */
  lemma OneStep(f: Function, x: World, s: State, ev: Ev, next: nat, g: Guard, r: nat)
    requires Lands(x, s, Step(f, x.host, x.outer, s), ev, next, g, r)
    ensures Does(f, x, s, 1, ev, next, g, r)
  {
    RunOne(f, x.host, x.outer, s);
  }

  /** An instruction that only moves the pc, after a run that reached `s1`. */
  lemma Moved(f: Function, x: World, s0: State, n: nat, s1: State, st: Memo, pc: nat, r: nat)
    requires Run(f, x.host, x.outer, s0, n) == Running(s1) && Below(s0, s1, r)
    requires Step(f, x.host, x.outer, s1) == Running(s1.(pc := pc)) && Stands(x, s1, s1.pc, st)
    ensures Stands(x, s1.(pc := pc), pc, st)
    ensures Run(f, x.host, x.outer, s0, n + 1) == Running(s1.(pc := pc)) && Below(s0, s1.(pc := pc), r)
  {
    hide Run, Step;
    RunAdd(f, x.host, x.outer, s0, n, 1);
    RunOne(f, x.host, x.outer, s1);
  }

  /** A store after a run that reached `s1`, whose register `r` holds the value. */
  lemma StoreThen(f: Function, x: World, s0: State, n: nat, s1: State, ev: Ev, w: Word, next: nat, g: Guard, r: nat)
    requires Run(f, x.host, x.outer, s0, n) == Running(s1) && Below(s0, s1, r) && r < |s1.regs| && s1.regs[r] == w
    requires Stored(x, s1, Step(f, x.host, x.outer, s1), ev, next)
    ensures Does(f, x, s0, n + 1, Keep(ev, w), next, g, r)
  {
    RunAdd(f, x.host, x.outer, s0, n, 1);
    RunOne(f, x.host, x.outer, s1);
  }

  /** Splitting emitted code in two. */
  lemma Cut(f: Function, at: nat, a: seq<Byte>, b: seq<Byte>, code: seq<Byte>)
    requires Placed(f, at, code) && code == a + b
    ensures Placed(f, at, a) && Placed(f, at + |a|, b)
  {
    PlacedSplit(f, at, a, b);
  }

  lemma {:induction false} SimUnary(f: Function, x: World, e: Expr, s: nat, at: nat, g: Guard, pool: seq<Const>,
                                    s0: State, st: Memo) returns (n: nat)
    requires e.Unary? && Plain(e) && !g.Hole? && Set(f, x, GenUnary(x, e, s, at, g, pool), at, s0, st)
    ensures Does(f, x, s0, n, EvalUnary(x, ModeOf(g), e, st), at + Size(e, InChain(g)), g, s)
    decreases e, 1
  {
    hide Texts, Gen, Eval, Size, ApplyUnary, Three, Run, Below, Step, Lands;
    SizeIs(e, InChain(g));
    var a := Gen(x, e.e, s, at, g, pool);
    GenFacts(x, e.e, s, at, g, pool);
    Cut(f, at, a.code, Three(e.uop, s, s), a.code + Three(e.uop, s, s));
    n := Sim(f, x, e.e, s, at, g, pool, s0, st);
    var v := Eval(x, ModeOf(g), e.e, st);
    First(f, x, s0, n, v, at + |a.code|, at + |a.code| + 3, g, s, s);
    if v.Val? {
      var s1 := Run(f, x.host, x.outer, s0, n).state;
      StepUnary(f, x, s1, v.st, e.uop, s, s, g);
      OneStep(f, x, s1, ApplyUnary(x, e.uop, v.w, v.st), at + |a.code| + 3, g, s);
      Then(f, x, s0, n, s1, 1, ApplyUnary(x, e.uop, v.w, v.st), at + |a.code| + 3, at + |a.code| + 3, g, s, s);
      n := n + 1;
    }
  }

  lemma {:induction false} SimBinary(f: Function, x: World, e: Expr, s: nat, at: nat, g: Guard, pool: seq<Const>,
                                     s0: State, st: Memo) returns (n: nat)
    requires e.Binary? && Plain(e) && !g.Hole? && Set(f, x, GenBinary(x, e, s, at, g, pool), at, s0, st)
    ensures Does(f, x, s0, n, EvalBinary(x, ModeOf(g), e, st), at + Size(e, InChain(g)), g, s)
    decreases e, 1
  {
    hide Texts, Gen, Eval, Size, ApplyBinary, Four, Run, Below, Step, Lands;
    var ch := InChain(g);
    SizeIs(e, ch);
    var l := Gen(x, e.l, s, at, g, pool);
    var at2 := at + Size(e.l, ch);
    var r := Gen(x, e.r, s + 1, at2, g, l.pool);
    var op := Four(e.bop, s, s, s + 1);
    var at3 := at2 + Size(e.r, ch);
    GenFacts(x, e.l, s, at, g, pool);
    GenFacts(x, e.r, s + 1, at2, g, l.pool);
    Cut(f, at, l.code + r.code, op, l.code + r.code + op);
    Cut(f, at, l.code, r.code, l.code + r.code);
    n := Sim(f, x, e.l, s, at, g, pool, s0, st);
    var v := Eval(x, ModeOf(g), e.l, st);
    First(f, x, s0, n, v, at2, at3 + 4, g, s, s);
    if v.Val? {
      var s1 := Run(f, x.host, x.outer, s0, n).state;
      var k := Sim(f, x, e.r, s + 1, at2, g, l.pool, s1, v.st);
      var w := Eval(x, ModeOf(g), e.r, v.st);
      Then(f, x, s0, n, s1, k, w, at3, at3 + 4, g, s, s + 1);
      n := n + k;
      if w.Val? {
        var s2 := Run(f, x.host, x.outer, s0, n).state;
        KeptReg(s1, s2, s, s + 1);
        StepBinary(f, x, s2, w.st, e.bop, s, s, s + 1, g);
        OneStep(f, x, s2, ApplyBinary(x, e.bop, v.w, w.w, w.st), at3 + 4, g, s);
        Then(f, x, s0, n, s2, 1, ApplyBinary(x, e.bop, v.w, w.w, w.st), at3 + 4, at3 + 4, g, s, s);
        n := n + 1;
      }
    }
  }

  lemma KeptReg(a: State, b: State, i: nat, r: nat)
    requires Below(a, b, r) && i < r && i < |a.regs|
    ensures i < |b.regs| && b.regs[i] == a.regs[i]
  {
  }

  lemma {:induction false} SimLogical(f: Function, x: World, e: Expr, s: nat, at: nat, g: Guard, pool: seq<Const>,
                                      s0: State, st: Memo) returns (n: nat)
    requires e.Logical? && Plain(e) && !g.Hole? && Set(f, x, GenLogical(x, e, s, at, g, pool), at, s0, st)
    ensures Does(f, x, s0, n, EvalLogical(x, ModeOf(g), e, st), at + Size(e, InChain(g)), g, s)
    decreases e, 1
  {
    hide Texts, Gen, Eval, Size, Taken, BranchTo, Run, Below, Step, Lands;
    var ch := InChain(g);
    SizeIs(e, ch);
    var m := Size(e.r, ch);
    var l := Gen(x, e.l, s, at, g, pool);
    var at2 := at + Size(e.l, ch);
    var r := Gen(x, e.r, s, at2 + 4, g, l.pool);
    var op := BranchTo(e.skip, s, m);
    GenFacts(x, e.l, s, at, g, pool);
    GenFacts(x, e.r, s, at2 + 4, g, l.pool);
    Cut(f, at, l.code + op, r.code, l.code + op + r.code);
    Cut(f, at, l.code, op, l.code + op);
    n := Sim(f, x, e.l, s, at, g, pool, s0, st);
    var v := Eval(x, ModeOf(g), e.l, st);
    First(f, x, s0, n, v, at2, at2 + 4 + m, g, s, s);
    if v.Val? {
      var s1 := Run(f, x.host, x.outer, s0, n).state;
      StepBranch(f, x, s1, v.st, e.skip, s, m);
      var pc := if Taken(x, e.skip, v.w) then at2 + 4 + m else at2 + 4;
      Moved(f, x, s0, n, s1, v.st, pc, s);
      n := n + 1;
      var s2 := s1.(pc := pc);
      if Taken(x, e.skip, v.w) {
        Arrived(f, x, s0, n, s2, v.w, v.st, pc, g, s);
      } else {
        var k := Sim(f, x, e.r, s, at2 + 4, g, l.pool, s2, v.st);
        Then(f, x, s0, n, s2, k, Eval(x, ModeOf(g), e.r, v.st), at2 + 4 + m, at2 + 4 + m, g, s, s);
        n := n + k;
      }
    }
  }

  /** A run that stands at its goal with its value in place. */
  lemma Arrived(f: Function, x: World, s0: State, n: nat, s1: State, w: Word, st: Memo, next: nat, g: Guard, r: nat)
    requires Run(f, x.host, x.outer, s0, n) == Running(s1) && Below(s0, s1, r) && r < |s1.regs| && s1.regs[r] == w
    requires Stands(x, s1, next, st)
    ensures Does(f, x, s0, n, Val(w, st), next, g, r)
  {
  }

  lemma {:induction false} SimCond(f: Function, x: World, e: Expr, s: nat, at: nat, g: Guard, pool: seq<Const>,
                                   s0: State, st: Memo) returns (n: nat)
    requires e.Cond? && Plain(e) && !g.Hole? && Set(f, x, GenCond(x, e, s, at, g, pool), at, s0, st)
    ensures Does(f, x, s0, n, EvalCond(x, ModeOf(g), e, st), at + Size(e, InChain(g)), g, s)
    decreases e, 1
  {
    hide Texts, Gen, Eval, Size, WordTruthy, BranchTo, JumpTo, Run, Below, Step, Lands, Placed, FitsI16, Does;
    var ch := InChain(g);
    SizeIs(e, ch);
    var nt, nf := Size(e.yes, ch), Size(e.no, ch);
    var c := Gen(x, e.test, s, at, g, pool);
    var at2 := at + Size(e.test, ch) + 4;
    var t := Gen(x, e.yes, s, at2, g, c.pool);
    var at3 := at2 + nt + 3;
    var fe := Gen(x, e.no, s, at3, g, t.pool);
    var end := at3 + nf;
    GenFacts(x, e.test, s, at, g, pool);
    GenFacts(x, e.yes, s, at2, g, c.pool);
    GenFacts(x, e.no, s, at3, g, t.pool);
    var br, jp := BranchTo(JMP_IF_FALSE, s, nt + 3), JumpTo(nf);
    Cut(f, at, c.code + br + t.code + jp, fe.code, c.code + br + t.code + jp + fe.code);
    Cut(f, at, c.code + br + t.code, jp, c.code + br + t.code + jp);
    Cut(f, at, c.code + br, t.code, c.code + br + t.code);
    Cut(f, at, c.code, br, c.code + br);
    n := Sim(f, x, e.test, s, at, g, pool, s0, st);
    var v := Eval(x, ModeOf(g), e.test, st);
    First(f, x, s0, n, v, at2 - 4, end, g, s, s);
    if v.Val? {
      var s1 := Run(f, x.host, x.outer, s0, n).state;
      StepBranch(f, x, s1, v.st, JMP_IF_FALSE, s, nt + 3);
      var yes := WordTruthy(x.host, v.w);
      var pc := if yes then at2 else at3;
      Moved(f, x, s0, n, s1, v.st, pc, s);
      n := n + 1;
      var s2 := s1.(pc := pc);
      if yes {
        var k := Sim(f, x, e.yes, s, at2, g, c.pool, s2, v.st);
        var w := Eval(x, ModeOf(g), e.yes, v.st);
        Then(f, x, s0, n, s2, k, w, at2 + nt, end, g, s, s);
        n := n + k;
        if w.Val? {
          var s3 := Run(f, x.host, x.outer, s0, n).state;
          StepJump(f, x, s3, nf);
          Moved(f, x, s0, n, s3, w.st, end, s);
          n := n + 1;
          Arrived(f, x, s0, n, s3.(pc := end), w.w, w.st, end, g, s);
        }
      } else {
        var k := Sim(f, x, e.no, s, at3, g, t.pool, s2, v.st);
        Then(f, x, s0, n, s2, k, Eval(x, ModeOf(g), e.no, v.st), end, end, g, s, s);
        n := n + k;
      }
    }
  }

  lemma {:induction false} SimVoid(f: Function, x: World, e: Expr, s: nat, at: nat, g: Guard, pool: seq<Const>,
                                   s0: State, st: Memo) returns (n: nat)
    requires e.Void? && Plain(e) && !g.Hole? && Set(f, x, GenVoid(x, e, s, at, g, pool), at, s0, st)
    ensures Does(f, x, s0, n, EvalVoid(x, ModeOf(g), e, st), at + Size(e, InChain(g)), g, s)
    decreases e, 1
  {
    hide Texts, Gen, Eval, Size, Two, Run, Below, Step, Lands;
    SizeIs(e, InChain(g));
    var a := Gen(x, e.e, s, at, g, pool);
    GenFacts(x, e.e, s, at, g, pool);
    Cut(f, at, a.code, Two(LOAD_UNDEF, s), a.code + Two(LOAD_UNDEF, s));
    n := Sim(f, x, e.e, s, at, g, pool, s0, st);
    var v := Eval(x, ModeOf(g), e.e, st);
    var at2 := at + |a.code|;
    First(f, x, s0, n, v, at2, at2 + 2, g, s, s);
    if v.Val? {
      var s1 := Run(f, x.host, x.outer, s0, n).state;
      StepLit(f, x, s1, v.st, LOAD_UNDEF, s, UNDEFINED, g);
      OneStep(f, x, s1, Val(UNDEFINED, v.st), at2 + 2, g, s);
      Then(f, x, s0, n, s1, 1, Val(UNDEFINED, v.st), at2 + 2, at2 + 2, g, s, s);
      n := n + 1;
    }
  }

  lemma {:induction false} SimSequence(f: Function, x: World, e: Expr, s: nat, at: nat, g: Guard, pool: seq<Const>,
                                       s0: State, st: Memo) returns (n: nat)
    requires e.Sequence? && Plain(e) && !g.Hole? && Set(f, x, GenSequence(x, e, s, at, g, pool), at, s0, st)
    ensures Does(f, x, s0, n, EvalSequence(x, ModeOf(g), e, st), at + Size(e, InChain(g)), g, s)
    decreases e, 1
  {
    hide Texts, Gen, Eval, Size, ArgsSize, Run, Below, Step, Lands, GenRest, EvalLast;
    var ch := InChain(g);
    SizeIs(e, ch);
    var a := Gen(x, e.first, s, at, g, pool);
    var at2 := at + Size(e.first, ch);
    var r := GenRest(x, e.rest, s, at2, g, a.pool);
    GenFacts(x, e.first, s, at, g, pool);
    RestFacts(x, e.rest, s, at2, g, a.pool);
    Cut(f, at, a.code, r.code, a.code + r.code);
    n := Sim(f, x, e.first, s, at, g, pool, s0, st);
    var v := Eval(x, ModeOf(g), e.first, st);
    First(f, x, s0, n, v, at2, at2 + ArgsSize(e.rest, ch), g, s, s);
    if v.Val? {
      var s1 := Run(f, x.host, x.outer, s0, n).state;
      var k := SimRest(f, x, e.rest, s, at2, g, a.pool, s1, v.w, v.st);
      Then(f, x, s0, n, s1, k, EvalLast(x, ModeOf(g), e.rest, v.w, v.st), at2 + ArgsSize(e.rest, ch), at2, g, s, s);
      n := n + k;
    }
  }

  lemma {:induction false} SimRest(f: Function, x: World, rest: Args, s: nat, at: nat, g: Guard, pool: seq<Const>,
                                   s0: State, w: Word, st: Memo) returns (n: nat)
    requires PlainArgs(rest) && !g.Hole? && Set(f, x, GenRest(x, rest, s, at, g, pool), at, s0, st)
    requires s < |s0.regs| && s0.regs[s] == w
    ensures Does(f, x, s0, n, EvalLast(x, ModeOf(g), rest, w, st), at + ArgsSize(rest, InChain(g)), g, s)
    decreases rest, 3
  {
    hide Texts, Gen, Eval, Size, Run, Step, Lands;
    n := 0;
    match rest
    case Nil =>
      RunNone(f, x, s0);
      Arrived(f, x, s0, 0, s0, w, st, at, g, s);
    case Cons(e, more) =>
      var ch := InChain(g);
      var a := Gen(x, e, s, at, g, pool);
      var at2 := at + Size(e, ch);
      var r := GenRest(x, more, s, at2, g, a.pool);
      GenFacts(x, e, s, at, g, pool);
      RestFacts(x, more, s, at2, g, a.pool);
      Cut(f, at, a.code, r.code, a.code + r.code);
      n := Sim(f, x, e, s, at, g, pool, s0, st);
      var v := Eval(x, ModeOf(g), e, st);
      First(f, x, s0, n, v, at2, at2 + ArgsSize(more, ch), g, s, s);
      if v.Val? {
        var s1 := Run(f, x.host, x.outer, s0, n).state;
        var k := SimRest(f, x, more, s, at2, g, a.pool, s1, v.w, v.st);
        Then(f, x, s0, n, s1, k, EvalLast(x, ModeOf(g), more, v.w, v.st), at2 + ArgsSize(more, ch), at2, g, s, s);
        n := n + k;
      }
  }

  lemma RunNone(f: Function, x: World, s: State)
    ensures Run(f, x.host, x.outer, s, 0) == Running(s) && forall r :: Below(s, s, r)
  {
  }

  // ------------------------------------------------------------------ variables

  /** Load, increment or decrement in place, store. */
  lemma SimStep(f: Function, x: World, op: int, t: string, s: nat, at: nat, g: Guard, pool: seq<Const>, s0: State,
                st: Memo) returns (n: nat)
    requires (op == INC || op == DEC) && Set(f, x, StepCode(x, op, t, s, pool), at, s0, st)
    ensures Does(f, x, s0, n, StepName(x, op, t, st), at + 11, g, s)
  {
    hide ApplyUnary, ReadName, WriteName, Three, LoadName, StoreName, Run, Below, Step, Lands, Pooled;
    var p := PoolName(x, t, pool);
    var ld, up, sv := LoadName(GET_GLOBAL, s, NameIndex(x, t, pool)), Three(op, s, s), StoreName(NameIndex(x, t, p), s);
    Cut(f, at, ld + up, sv, ld + up + sv);
    Cut(f, at, ld, up, ld + up);
    PoolGrows(pool, StrConst(x, t)); PoolGrows(p, StrConst(x, t));
    StepRead(f, x, s0, st, pool, GET_GLOBAL, t, s, g);
    var v := ReadName(x, GET_GLOBAL, t, st);
    OneStep(f, x, s0, v, at + 4, g, s);
    n := 1;
    First(f, x, s0, n, v, at + 4, at + 11, g, s, s);
    if v.Val? {
      var s1 := Run(f, x.host, x.outer, s0, n).state;
      StepUnary(f, x, s1, v.st, op, s, s, g);
      var w := ApplyUnary(x, op, v.w, v.st);
      OneStep(f, x, s1, w, at + 7, g, s);
      Then(f, x, s0, n, s1, 1, w, at + 7, at + 11, g, s, s);
      n := 2;
      if w.Val? {
        var s2 := Run(f, x.host, x.outer, s0, n).state;
        StepWrite(f, x, s2, w.st, p, t, s);
        WriteKeeps(x, t, w.w, w.st);
        StoreThen(f, x, s0, n, s2, WriteName(x, t, w.w, w.st), w.w, at + 11, g, s);
        n := 3;
      }
    }
  }

  lemma WriteKeeps(x: World, n: string, w: Word, st: Memo)
    ensures Keep(WriteName(x, n, w, st), w) == WriteName(x, n, w, st)
  {
  }

  lemma SimPostfix(f: Function, x: World, op: int, t: string, s: nat, at: nat, g: Guard, pool: seq<Const>, s0: State,
                   st: Memo) returns (n: nat)
    requires (op == INC || op == DEC) && Set(f, x, PostfixCode(x, op, t, s, pool), at, s0, st)
    ensures Does(f, x, s0, n, PostfixName(x, op, t, st), at + 14, g, s)
  {
    hide ApplyUnary, ReadName, WriteName, Three, LoadName, StoreName, Run, Below, Step, Lands, Pooled;
    var p := PoolName(x, t, pool);
    var ld, tn, up, sv := LoadName(GET_GLOBAL, s, NameIndex(x, t, pool)), Three(TO_NUMERIC, s, s), Three(op, s + 1, s),
      StoreName(NameIndex(x, t, p), s + 1);
    Cut(f, at, ld + tn + up, sv, ld + tn + up + sv);
    Cut(f, at, ld + tn, up, ld + tn + up);
    Cut(f, at, ld, tn, ld + tn);
    PoolGrows(pool, StrConst(x, t)); PoolGrows(p, StrConst(x, t));
    StepRead(f, x, s0, st, pool, GET_GLOBAL, t, s, g);
    var v := ReadName(x, GET_GLOBAL, t, st);
    OneStep(f, x, s0, v, at + 4, g, s);
    n := 1;
    First(f, x, s0, n, v, at + 4, at + 14, g, s, s);
    if v.Val? {
      var s1 := Run(f, x.host, x.outer, s0, n).state;
      StepUnary(f, x, s1, v.st, TO_NUMERIC, s, s, g);
      var was := ApplyUnary(x, TO_NUMERIC, v.w, v.st);
      OneStep(f, x, s1, was, at + 7, g, s);
      Then(f, x, s0, n, s1, 1, was, at + 7, at + 14, g, s, s);
      n := 2;
      if was.Val? {
        var s2 := Run(f, x.host, x.outer, s0, n).state;
        StepUnary(f, x, s2, was.st, op, s + 1, s, g);
        var w := ApplyUnary(x, op, was.w, was.st);
        OneStep(f, x, s2, w, at + 10, g, s + 1);
        Then(f, x, s0, n, s2, 1, w, at + 10, at + 14, g, s, s + 1);
        n := 3;
        if w.Val? {
          var s3 := Run(f, x.host, x.outer, s0, n).state;
          KeptReg(s2, s3, s, s + 1);
          StepWrite(f, x, s3, w.st, p, t, s + 1);
          StoreThen(f, x, s0, n, s3, WriteName(x, t, w.w, w.st), was.w, at + 14, g, s);
          n := 4;
        }
      }
    }
  }

  lemma {:induction false} SimAssign(f: Function, x: World, e: Expr, s: nat, at: nat, g: Guard, pool: seq<Const>,
                                     s0: State, st: Memo) returns (n: nat)
    requires e.Assign? && Plain(e) && !g.Hole? && Set(f, x, GenAssign(x, e, s, at, g, pool), at, s0, st)
    ensures Does(f, x, s0, n, EvalAssign(x, ModeOf(g), e, st), at + Size(e, InChain(g)), g, s)
    decreases e, 1
  {
    hide Texts, Gen, Eval, Size, StoreName, Run, Below, Step, Lands, Pooled, WriteName, StepCode, StepName;
    SizeIs(e, InChain(g));
    if IsStep(e.target, e.value) {
      n := SimStep(f, x, if e.value.bop == ADD then INC else DEC, e.target, s, at, g, pool, s0, st);
    } else {
      var a := Gen(x, e.value, s, at, g, pool);
      var sv := StoreName(NameIndex(x, e.target, a.pool), s);
      GenFacts(x, e.value, s, at, g, pool);
      PoolGrows(a.pool, StrConst(x, e.target));
      Cut(f, at, a.code, sv, a.code + sv);
      n := Sim(f, x, e.value, s, at, g, pool, s0, st);
      var v := Eval(x, ModeOf(g), e.value, st);
      var at2 := at + |a.code|;
      First(f, x, s0, n, v, at2, at2 + 4, g, s, s);
      if v.Val? {
        var s1 := Run(f, x.host, x.outer, s0, n).state;
        StepWrite(f, x, s1, v.st, a.pool, e.target, s);
        WriteKeeps(x, e.target, v.w, v.st);
        StoreThen(f, x, s0, n, s1, WriteName(x, e.target, v.w, v.st), v.w, at2 + 4, g, s);
        n := n + 1;
      }
    }
  }

  lemma {:induction false} SimCompound(f: Function, x: World, e: Expr, s: nat, at: nat, g: Guard, pool: seq<Const>,
                                       s0: State, st: Memo) returns (n: nat)
    requires e.Compound? && Plain(e) && !g.Hole? && Set(f, x, GenCompound(x, e, s, at, g, pool), at, s0, st)
    ensures Does(f, x, s0, n, EvalCompound(x, ModeOf(g), e, st), at + Size(e, InChain(g)), g, s)
    decreases e, 1
  {
    hide Texts, Gen, Eval, Size, LoadName, StoreName, Four, Run, Below, Step, Lands, Pooled, ReadName, WriteName,
        ApplyBinary;
    SizeIs(e, InChain(g));
    var p := PoolName(x, e.target, pool);
    var a := Gen(x, e.value, s + 1, at + 4, g, p);
    var ld, op, sv := LoadName(GET_GLOBAL, s, NameIndex(x, e.target, pool)), Four(e.bop, s, s, s + 1),
      StoreName(NameIndex(x, e.target, a.pool), s);
    var at3 := at + 4 + Size(e.value, InChain(g));
    GenFacts(x, e.value, s + 1, at + 4, g, p);
    PoolGrows(pool, StrConst(x, e.target)); PoolGrows(a.pool, StrConst(x, e.target));
    Cut(f, at, ld + a.code + op, sv, ld + a.code + op + sv);
    Cut(f, at, ld + a.code, op, ld + a.code + op);
    Cut(f, at, ld, a.code, ld + a.code);
    StepRead(f, x, s0, st, pool, GET_GLOBAL, e.target, s, g);
    var v := ReadName(x, GET_GLOBAL, e.target, st);
    OneStep(f, x, s0, v, at + 4, g, s);
    n := 1;
    First(f, x, s0, n, v, at + 4, at3 + 8, g, s, s);
    if v.Val? {
      var s1 := Run(f, x.host, x.outer, s0, n).state;
      var k := Sim(f, x, e.value, s + 1, at + 4, g, p, s1, v.st);
      var w := Eval(x, ModeOf(g), e.value, v.st);
      Then(f, x, s0, n, s1, k, w, at3, at3 + 8, g, s, s + 1);
      n := n + k;
      if w.Val? {
        var s2 := Run(f, x.host, x.outer, s0, n).state;
        KeptReg(s1, s2, s, s + 1);
        StepBinary(f, x, s2, w.st, e.bop, s, s, s + 1, g);
        var r := ApplyBinary(x, e.bop, v.w, w.w, w.st);
        OneStep(f, x, s2, r, at3 + 4, g, s);
        Then(f, x, s0, n, s2, 1, r, at3 + 4, at3 + 8, g, s, s);
        n := n + 1;
        if r.Val? {
          var s3 := Run(f, x.host, x.outer, s0, n).state;
          StepWrite(f, x, s3, r.st, a.pool, e.target, s);
          WriteKeeps(x, e.target, r.w, r.st);
          StoreThen(f, x, s0, n, s3, WriteName(x, e.target, r.w, r.st), r.w, at3 + 8, g, s);
          n := n + 1;
        }
      }
    }
  }

  lemma {:induction false} SimLogicalAssign(f: Function, x: World, e: Expr, s: nat, at: nat, g: Guard,
                                            pool: seq<Const>, s0: State, st: Memo) returns (n: nat)
    requires e.LogicalAssign? && Plain(e) && !g.Hole? && Set(f, x, GenLogicalAssign(x, e, s, at, g, pool), at, s0, st)
    ensures Does(f, x, s0, n, EvalLogicalAssign(x, ModeOf(g), e, st), at + Size(e, InChain(g)), g, s)
    decreases e, 1
  {
    hide Texts, Gen, Eval, Size, LoadName, StoreName, BranchTo, Run, Below, Step, Lands, Pooled, ReadName, WriteName,
        Taken, Does;
    SizeIs(e, InChain(g));
    var p := PoolName(x, e.target, pool);
    var m := Size(e.value, InChain(g)) + 4;
    var a := Gen(x, e.value, s, at + 8, g, p);
    var ld, br, sv := LoadName(GET_GLOBAL, s, NameIndex(x, e.target, pool)), BranchTo(e.skip, s, m),
      StoreName(NameIndex(x, e.target, a.pool), s);
    var end := at + 8 + m;
    GenFacts(x, e.value, s, at + 8, g, p);
    PoolGrows(pool, StrConst(x, e.target)); PoolGrows(a.pool, StrConst(x, e.target));
    Cut(f, at, ld + br + a.code, sv, ld + br + a.code + sv);
    Cut(f, at, ld + br, a.code, ld + br + a.code);
    Cut(f, at, ld, br, ld + br);
    StepRead(f, x, s0, st, pool, GET_GLOBAL, e.target, s, g);
    var v := ReadName(x, GET_GLOBAL, e.target, st);
    OneStep(f, x, s0, v, at + 4, g, s);
    n := 1;
    First(f, x, s0, n, v, at + 4, end, g, s, s);
    if v.Val? {
      var s1 := Run(f, x.host, x.outer, s0, n).state;
      StepBranch(f, x, s1, v.st, e.skip, s, m);
      var taken := Taken(x, e.skip, v.w);
      var pc := if taken then end else at + 8;
      Moved(f, x, s0, n, s1, v.st, pc, s);
      n := 2;
      var s2 := s1.(pc := pc);
      if taken {
        Arrived(f, x, s0, n, s2, v.w, v.st, end, g, s);
      } else {
        var k := Sim(f, x, e.value, s, at + 8, g, p, s2, v.st);
        var w := Eval(x, ModeOf(g), e.value, v.st);
        Then(f, x, s0, n, s2, k, w, end - 4, end, g, s, s);
        n := n + k;
        if w.Val? {
          var s3 := Run(f, x.host, x.outer, s0, n).state;
          StepWrite(f, x, s3, w.st, a.pool, e.target, s);
          WriteKeeps(x, e.target, w.w, w.st);
          StoreThen(f, x, s0, n, s3, WriteName(x, e.target, w.w, w.st), w.w, end, g, s);
          n := n + 1;
        }
      }
    }
  }

  // ------------------------------------------------------------------ members, chains and calls

  /** The guard of an optional link: leave for the pad on a nullish base, else go on. */
  lemma SimGuard(f: Function, x: World, optional: bool, s: nat, here: nat, g: Guard, s0: State, n: nat, s1: State,
                 w: Word, st: Memo) returns (k: nat)
    requires !g.Hole? && Placed(f, here, GuardCode(optional, s, here, g)) && GuardFits(optional, here, g) && s < 256
    requires Run(f, x.host, x.outer, s0, n) == Running(s1) && Below(s0, s1, s) && Stands(x, s1, here, st)
    requires s < |s1.regs| && s1.regs[s] == w
    ensures if optional && InChain(g) && Taken(x, JMP_IF_NULLISH, w) then forall next ::
            Does(f, x, s0, k, Short(st), next, g, s)
            else var s2 := s1.(pc := here + GuardSize(optional, InChain(g)));
                 Run(f, x.host, x.outer, s0, k) == Running(s2) && Below(s0, s2, s)
  {
    hide Run, Step, BranchTo, Taken;
    k := n;
    if optional && InChain(g) {
      var delta := g.pad - (here + 4);
      assert GuardCode(optional, s, here, g) == BranchTo(JMP_IF_NULLISH, s, delta) by { GuardIsBranch(s, here, g); }
      StepBranch(f, x, s1, st, JMP_IF_NULLISH, s, delta);
      Moved(f, x, s0, n, s1, st, if Taken(x, JMP_IF_NULLISH, w) then g.pad else here + 4, s);
      k := n + 1;
    }
  }

  lemma GuardIsBranch(s: nat, here: nat, g: Guard)
    requires g.To?
    ensures GuardCode(true, s, here, g) == BranchTo(JMP_IF_NULLISH, s, g.pad - (here + 4))
  {
  }

  lemma KeySame(x: World, key: Key)
    ensures StaticSize(key) <==> StaticKey(x, key).Some?
    ensures StaticSize(key) ==> StaticKey(x, key).value == KeyName(x, key)
  {
  }

  lemma {:induction false} SimMember(f: Function, x: World, e: Expr, s: nat, at: nat, g: Guard, pool: seq<Const>,
                                     s0: State, st: Memo) returns (n: nat)
    requires e.Member? && Plain(e) && !g.Hole? && Set(f, x, GenMember(x, e, s, at, g, pool), at, s0, st)
    ensures Does(f, x, s0, n, EvalMember(x, ModeOf(g), e, st), at + Size(e, InChain(g)), g, s)
    decreases e, 1
  {
    hide Texts, Gen, Eval, Size, GuardCode, GetStatic, Four, Run, Below, Step, Lands, Pooled, Taken, Ask, StaticKey,
        KeyName;
    var ch := InChain(g);
    SizeIs(e, ch);
    KeySame(x, e.key);
    var o := Gen(x, e.obj, s, at, g, pool);
    var here := at + Size(e.obj, ch);
    var gc := GuardCode(e.optional, s, here, g);
    var go := here + GuardSize(e.optional, ch);
    GenFacts(x, e.obj, s, at, g, pool);
    MemberCut(f, x, e, s, at, g, pool);
    n := Sim(f, x, e.obj, s, at, g, pool, s0, st);
    var v := Eval(x, ModeOf(g), e.obj, st);
    var end := at + Size(e, ch);
    First(f, x, s0, n, v, here, end, g, s, s);
    if v.Val? {
      var s1 := Run(f, x.host, x.outer, s0, n).state;
      n := SimGuard(f, x, e.optional, s, here, g, s0, n, s1, v.w, v.st);
      if !(e.optional && ch && Taken(x, JMP_IF_NULLISH, v.w)) {
        n := SimAccess(f, x, e, s, at, g, pool, s0, n, s1.(pc := go), v.w, v.st);
      }
    }
  }

  /** The pieces of a member access and the pool it needs. */
  lemma MemberCut(f: Function, x: World, e: Expr, s: nat, at: nat, g: Guard, pool: seq<Const>)
    requires e.Member? && Placed(f, at, GenMember(x, e, s, at, g, pool).code)
    ensures var o := Gen(x, e.obj, s, at, g, pool);
            var here := at + Size(e.obj, InChain(g));
            var go := here + GuardSize(e.optional, InChain(g));
            && Placed(f, at, o.code) && Placed(f, here, GuardCode(e.optional, s, here, g))
            && o.pool <= GenMember(x, e, s, at, g, pool).pool
            && (if StaticSize(e.key) then Placed(f, go, GetStatic(s, NameIndex(x, KeyName(x, e.key), o.pool)))
                else var k := Gen(x, e.key.e, s + 1, go, g, o.pool);
                     Placed(f, go, k.code) && Placed(f, go + Size(e.key.e, InChain(g)),
                         Four(GET_PROP_DYN, s, s, s + 1)))
  {
    hide Texts, Gen, Size, GuardCode, GetStatic, Four, Pooled, KeyName, Placed, NameIndex;
    var ch := InChain(g);
    var o := Gen(x, e.obj, s, at, g, pool);
    var here := at + Size(e.obj, ch);
    var gc := GuardCode(e.optional, s, here, g);
    var go := here + GuardSize(e.optional, ch);
    GenFacts(x, e.obj, s, at, g, pool);
    if StaticSize(e.key) {
      var gs := GetStatic(s, NameIndex(x, KeyName(x, e.key), o.pool));
      PoolGrows(o.pool, StrConst(x, KeyName(x, e.key)));
      Cut(f, at, o.code + gc, gs, o.code + gc + gs);
    } else {
      var k := Gen(x, e.key.e, s + 1, go, g, o.pool);
      var ge := Four(GET_PROP_DYN, s, s, s + 1);
      GenFacts(x, e.key.e, s + 1, go, g, o.pool);
      Cut(f, at, o.code + gc + k.code, ge, o.code + gc + k.code + ge);
      Cut(f, at, o.code + gc, k.code, o.code + gc + k.code);
    }
    Cut(f, at, o.code, gc, o.code + gc);
  }

  /** Reading the property once the base is in place. */
  lemma {:induction false} SimAccess(f: Function, x: World, e: Expr, s: nat, at: nat, g: Guard, pool: seq<Const>,
                                     s0: State, n0: nat, s1: State, w: Word, st: Memo) returns (n: nat)
    requires e.Member? && Plain(e) && !g.Hole?
    requires var o := GenMember(x, e, s, at, g, pool);
             Placed(f, at, o.code) && o.fits && o.top <= 256 && o.top <= |s1.regs| && o.pool <= f.constants
             && TextPool(x, f)
    requires var go := at + Size(e.obj, InChain(g)) + GuardSize(e.optional, InChain(g)); Stands(x, s1, go, st)
    requires Run(f, x.host, x.outer, s0, n0) == Running(s1) && Below(s0, s1, s) && s < |s1.regs| && s1.regs[s] == w
    ensures var ev := if StaticKey(x, e.key).Some? then Ask(x, st, Event(GET_PROP, [w], StaticKey(x, e.key).value))
                      else (match Eval(x, ModeOf(g), e.key.e, st)
                            case Val(k, st2) => Ask(x, st2, Event(GET_PROP_DYN, [w, k], "")) case other => other);
            Does(f, x, s0, n, ev, at + Size(e, InChain(g)), g, s)
    decreases e, 0
  {
    hide Texts, Gen, Eval, Size, GuardCode, GetStatic, Four, Run, Below, Step, Lands, Pooled, Taken, Ask, StaticKey,
        KeyName;
    var ch := InChain(g);
    SizeIs(e, ch);
    KeySame(x, e.key);
    var o := Gen(x, e.obj, s, at, g, pool);
    GenFacts(x, e.obj, s, at, g, pool);
    MemberCut(f, x, e, s, at, g, pool);
    var go := at + Size(e.obj, ch) + GuardSize(e.optional, ch);
    var end := at + Size(e, ch);
    n := n0;
    if StaticSize(e.key) {
      StepGetStatic(f, x, s1, st, o.pool, KeyName(x, e.key), s, g);
      var ev := Ask(x, st, Event(GET_PROP, [w], KeyName(x, e.key)));
      OneStep(f, x, s1, ev, end, g, s);
      Then(f, x, s0, n, s1, 1, ev, end, end, g, s, s);
      n := n + 1;
    } else {
      GenFacts(x, e.key.e, s + 1, go, g, o.pool);
      var k := Sim(f, x, e.key.e, s + 1, go, g, o.pool, s1, st);
      var v := Eval(x, ModeOf(g), e.key.e, st);
      Then(f, x, s0, n, s1, k, v, end - 4, end, g, s, s + 1);
      n := n + k;
      if v.Val? {
        var s2 := Run(f, x.host, x.outer, s0, n).state;
        KeptReg(s1, s2, s, s + 1);
        StepGetElem(f, x, s2, v.st, s, g);
        var ev := Ask(x, v.st, Event(GET_PROP_DYN, [w, v.w], ""));
        OneStep(f, x, s2, ev, end, g, s);
        Then(f, x, s0, n, s2, 1, ev, end, end, g, s, s);
        n := n + 1;
      }
    }
  }

  /** Short-circuiting links land on the pad, which loads undefined; otherwise the pad is jumped. */
  lemma {:induction false} SimChain(f: Function, x: World, e: Expr, s: nat, at: nat, g: Guard, pool: seq<Const>,
                                    s0: State, st: Memo) returns (n: nat)
    requires e.Chain? && Plain(e) && !g.Hole? && Set(f, x, GenChain(x, e, s, at, g, pool), at, s0, st)
    ensures Does(f, x, s0, n, EvalChain(x, ModeOf(g), e, st), at + Size(e, InChain(g)), g, s)
    decreases e, 1
  {
    hide Texts, Gen, Eval, Size, JumpTo, Two, Run, Below, Step;
    SizeIs(e, InChain(g));
    var m := Size(e.inner, true);
    var pad := at + m + 3;
    var h := To(pad);
    var i := Gen(x, e.inner, s, at, h, pool);
    GenFacts(x, e.inner, s, at, h, pool);
    Cut(f, at, i.code + JumpTo(2), Two(LOAD_UNDEF, s), i.code + JumpTo(2) + Two(LOAD_UNDEF, s));
    Cut(f, at, i.code, JumpTo(2), i.code + JumpTo(2));
    n := Sim(f, x, e.inner, s, at, h, pool, s0, st);
    var v := Eval(x, ModeOf(h), e.inner, st);
    assert ModeOf(h) == ModeOf(g).(chain := true);
    match v
    case Val(w, st1) =>
      var s1 := Run(f, x.host, x.outer, s0, n).state;
      RegsSame(s0, s1, s);
      StepJump(f, x, s1, 2);
      Moved(f, x, s0, n, s1, st1, pad + 2, s);
      n := n + 1;
      Arrived(f, x, s0, n, s1.(pc := pad + 2), w, st1, pad + 2, g, s);
    case Short(st1) =>
      var s1 := Run(f, x.host, x.outer, s0, n).state;
      RegsSame(s0, s1, s);
      StepLit(f, x, s1, st1, LOAD_UNDEF, s, UNDEFINED, g);
      OneStep(f, x, s1, Val(UNDEFINED, st1), pad + 2, g, s);
      Then(f, x, s0, n, s1, 1, Val(UNDEFINED, st1), pad + 2, pad + 2, g, s, s);
      n := n + 1;
    case Err(_, _) =>
  }

  lemma RegsSame(a: State, b: State, r: nat)
    requires Below(a, b, r)
    ensures |a.regs| == |b.regs|
  {
  }

  lemma {:induction false} SimAssignMember(f: Function, x: World, e: Expr, s: nat, at: nat, g: Guard,
                                           pool: seq<Const>, s0: State, st: Memo) returns (n: nat)
    requires e.AssignMember? && Plain(e) && !g.Hole? && Set(f, x, GenAssignMember(x, e, s, at, g, pool), at, s0, st)
    ensures Does(f, x, s0, n, EvalAssignMember(x, ModeOf(g), e, st), at + Size(e, InChain(g)), g, s)
    decreases e, 1
  {
    hide Texts, Gen, Eval, Size, Run, Below, Step, Lands, Pooled, Ask, Keep, SetStatic, Three, Four, StaticKey, KeyName;
    var ch := InChain(g);
    SizeIs(e, ch);
    KeySame(x, e.key);
    var o := Gen(x, e.obj, s + 1, at, g, pool);
    var here := at + Size(e.obj, ch);
    var end := at + Size(e, ch);
    GenFacts(x, e.obj, s + 1, at, g, pool);
    AssignMemberCut(f, x, e, s, at, g, pool);
    n := Sim(f, x, e.obj, s + 1, at, g, pool, s0, st);
    var v := Eval(x, ModeOf(g), e.obj, st);
    First(f, x, s0, n, v, here, end, g, s, s + 1);
    if v.Val? {
      var s1 := Run(f, x.host, x.outer, s0, n).state;
      if StaticSize(e.key) {
        n := SimSetStatic(f, x, e, s, at, g, pool, s0, n, s1, v.w, v.st);
      } else {
        n := SimSetElem(f, x, e, s, at, g, pool, s0, n, s1, v.w, v.st);
      }
    }
  }

  lemma AssignMemberCut(f: Function, x: World, e: Expr, s: nat, at: nat, g: Guard, pool: seq<Const>)
    requires e.AssignMember? && Placed(f, at, GenAssignMember(x, e, s, at, g, pool).code)
    ensures var ch := InChain(g);
            var all := GenAssignMember(x, e, s, at, g, pool);
            var o := Gen(x, e.obj, s + 1, at, g, pool);
            var here := at + Size(e.obj, ch);
            && Placed(f, at, o.code) && o.pool <= all.pool
            && (if StaticSize(e.key) then
                  var p := PoolName(x, KeyName(x, e.key), o.pool);
                  var v := Gen(x, e.value, s + 2, here, g, p);
                  var a2 := here + Size(e.value, ch);
                  && Placed(f, here, v.code) && Placed(f, a2,
                       SetStatic(s + 1, NameIndex(x, KeyName(x, e.key), o.pool), s + 2))
                  && Placed(f, a2 + 5, Three(MOVE, s, s + 2)) && p <= all.pool
                else
                  var k := Gen(x, e.key.e, s + 2, here, g, o.pool);
                  var a1 := here + Size(e.key.e, ch);
                  var v := Gen(x, e.value, s + 3, a1, g, k.pool);
                  var a2 := a1 + Size(e.value, ch);
                  && Placed(f, here, k.code) && Placed(f, a1, v.code)
                       && Placed(f, a2, Four(SET_PROP_DYN, s + 1, s + 2, s + 3))
                  && Placed(f, a2 + 4, Three(MOVE, s, s + 3)) && k.pool <= all.pool)
  {
    hide Texts, Gen, Size, SetStatic, Three, Four, Pooled, KeyName, Placed;
    var ch := InChain(g);
    var o := Gen(x, e.obj, s + 1, at, g, pool);
    var here := at + Size(e.obj, ch);
    GenFacts(x, e.obj, s + 1, at, g, pool);
    if StaticSize(e.key) {
      var p := PoolName(x, KeyName(x, e.key), o.pool);
      var v := Gen(x, e.value, s + 2, here, g, p);
      GenFacts(x, e.value, s + 2, here, g, p);
      PoolGrows(o.pool, StrConst(x, KeyName(x, e.key)));
      var ss, mv := SetStatic(s + 1, NameIndex(x, KeyName(x, e.key), o.pool), s + 2), Three(MOVE, s, s + 2);
      Cut(f, at, o.code + v.code + ss, mv, o.code + v.code + ss + mv);
      Cut(f, at, o.code + v.code, ss, o.code + v.code + ss);
      Cut(f, at, o.code, v.code, o.code + v.code);
    } else {
      var k := Gen(x, e.key.e, s + 2, here, g, o.pool);
      var a1 := here + Size(e.key.e, ch);
      var v := Gen(x, e.value, s + 3, a1, g, k.pool);
      GenFacts(x, e.key.e, s + 2, here, g, o.pool);
      GenFacts(x, e.value, s + 3, a1, g, k.pool);
      var se, mv := Four(SET_PROP_DYN, s + 1, s + 2, s + 3), Three(MOVE, s, s + 3);
      Cut(f, at, o.code + k.code + v.code + se, mv, o.code + k.code + v.code + se + mv);
      Cut(f, at, o.code + k.code + v.code, se, o.code + k.code + v.code + se);
      Cut(f, at, o.code + k.code, v.code, o.code + k.code + v.code);
      Cut(f, at, o.code, k.code, o.code + k.code);
    }
  }

  /** A property store, then the value moved down to the reserved slot. */
  lemma FinishStore(f: Function, x: World, s0: State, n: nat, s1: State, st: Memo, ev: Ev, a: Word, pc: nat, g: Guard,
                    s: nat, from: nat)
    requires Run(f, x.host, x.outer, s0, n) == Running(s1) && Below(s0, s1, s) && from < |s1.regs|
    requires s1.regs[from] == a && s < |s1.regs|
    requires s < 256 && from < 256 && Stored(x, s1, Step(f, x.host, x.outer, s1), ev, pc)
    requires Placed(f, pc, Three(MOVE, s, from))
    ensures Does(f, x, s0, n + 2, Keep(ev, a), pc + 3, g, s)
  {
    hide Step, Run, Three, Below;
    RunAdd(f, x.host, x.outer, s0, n, 2);
    RunOne(f, x.host, x.outer, s1);
    match ev
    case Val(_, st2) =>
      var s2 := Step(f, x.host, x.outer, s1).state;
      BelowStored(s0, s1, s2, s);
      RunAdd(f, x.host, x.outer, s1, 1, 1);
      StepMove(f, x, s2, st2, s, from, g);
      OneStep(f, x, s2, Val(a, st2), pc + 3, g, s);
      LandsLater(x, s0, s2, Run(f, x.host, x.outer, s2, 1), Val(a, st2), pc + 3, g, s);
    case Err(_, _) => RunLonger(f, x.host, x.outer, s1, 1, 2);
  }

  lemma BelowStored(a: State, b: State, c: State, r: nat)
    requires Below(a, b, r) && c.regs == b.regs
    ensures Below(a, c, r)
  {
  }

  lemma {:induction false} SimSetStatic(f: Function, x: World, e: Expr, s: nat, at: nat, g: Guard, pool: seq<Const>,
                                        s0: State, n0: nat, s1: State, w: Word, st: Memo) returns (n: nat)
    requires e.AssignMember? && Plain(e) && !g.Hole? && StaticSize(e.key)
    requires var o := GenAssignMember(x, e, s, at, g, pool);
             Placed(f, at, o.code) && o.fits && o.top <= 256 && o.top <= |s1.regs| && o.pool <= f.constants
             && TextPool(x, f)
    requires Stands(x, s1, at + Size(e.obj, InChain(g)), st)
    requires Run(f, x.host, x.outer, s0, n0) == Running(s1) && Below(s0, s1, s) && s + 1 < |s1.regs|
    requires s1.regs[s + 1] == w
    ensures var ev := match Eval(x, ModeOf(g), e.value, st)
                      case Val(a, st2) => Keep(Ask(x, st2, Event(SET_PROP, [w, a], KeyName(x, e.key))), a)
                      case other => other;
            Does(f, x, s0, n, ev, at + Size(e, InChain(g)), g, s)
    decreases e, 0
  {
    hide Texts, Gen, Eval, Size, Run, Below, Step, Lands, Pooled, Ask, Keep, SetStatic, Three, Four, StaticKey, KeyName;
    var ch := InChain(g);
    SizeIs(e, ch);
    var o := Gen(x, e.obj, s + 1, at, g, pool);
    var here := at + Size(e.obj, ch);
    var end := at + Size(e, ch);
    AssignMemberCut(f, x, e, s, at, g, pool);
    var p := PoolName(x, KeyName(x, e.key), o.pool);
    var a2 := here + Size(e.value, ch);
    GenFacts(x, e.value, s + 2, here, g, p);
    var k := Sim(f, x, e.value, s + 2, here, g, p, s1, st);
    var v := Eval(x, ModeOf(g), e.value, st);
    Then(f, x, s0, n0, s1, k, v, a2, end, g, s, s + 2);
    n := n0 + k;
    if v.Val? {
      var s2 := Run(f, x.host, x.outer, s0, n).state;
      KeptReg(s1, s2, s + 1, s + 2);
      StepSetStatic(f, x, s2, v.st, o.pool, KeyName(x, e.key), s + 1, s + 2);
      var ev := Ask(x, v.st, Event(SET_PROP, [w, v.w], KeyName(x, e.key)));
      FinishStore(f, x, s0, n, s2, v.st, ev, v.w, a2 + 5, g, s, s + 2);
      n := n + 2;
    }
  }

  lemma {:induction false} SimSetElem(f: Function, x: World, e: Expr, s: nat, at: nat, g: Guard, pool: seq<Const>,
                                      s0: State, n0: nat, s1: State, w: Word, st: Memo) returns (n: nat)
    requires e.AssignMember? && Plain(e) && !g.Hole? && !StaticSize(e.key)
    requires var o := GenAssignMember(x, e, s, at, g, pool);
             Placed(f, at, o.code) && o.fits && o.top <= 256 && o.top <= |s1.regs| && o.pool <= f.constants
             && TextPool(x, f)
    requires Stands(x, s1, at + Size(e.obj, InChain(g)), st)
    requires Run(f, x.host, x.outer, s0, n0) == Running(s1) && Below(s0, s1, s) && s + 1 < |s1.regs|
    requires s1.regs[s + 1] == w
    ensures var ev := match Eval(x, ModeOf(g), e.key.e, st)
                      case Val(k, st2) => (match Eval(x, ModeOf(g), e.value, st2)
                        case Val(a, st3) => Keep(Ask(x, st3, Event(SET_PROP_DYN, [w, k, a], "")), a)
                        case other => other)
                      case other => other;
            Does(f, x, s0, n, ev, at + Size(e, InChain(g)), g, s)
    decreases e, 0
  {
    hide Texts, Gen, Eval, Size, Run, Below, Step, Lands, Pooled, Ask, Keep, SetStatic, Three, Four, StaticKey, KeyName,
        Does, PoolName, Placed, NameIndex;
    var ch := InChain(g);
    SizeIs(e, ch);
    var o := Gen(x, e.obj, s + 1, at, g, pool);
    var here := at + Size(e.obj, ch);
    var end := at + Size(e, ch);
    AssignMemberCut(f, x, e, s, at, g, pool);
    var kk := Gen(x, e.key.e, s + 2, here, g, o.pool);
    var a1 := here + Size(e.key.e, ch);
    var a2 := a1 + Size(e.value, ch);
    GenFacts(x, e.key.e, s + 2, here, g, o.pool);
    GenFacts(x, e.value, s + 3, a1, g, kk.pool);
    var k := Sim(f, x, e.key.e, s + 2, here, g, o.pool, s1, st);
    var v := Eval(x, ModeOf(g), e.key.e, st);
    Then(f, x, s0, n0, s1, k, v, a1, end, g, s, s + 2);
    n := n0 + k;
    if v.Val? {
      var s2 := Run(f, x.host, x.outer, s0, n).state;
      KeptReg(s1, s2, s + 1, s + 2);
      RegsSame(s1, s2, s + 2);
      var j := Sim(f, x, e.value, s + 3, a1, g, kk.pool, s2, v.st);
      var a := Eval(x, ModeOf(g), e.value, v.st);
      Then(f, x, s0, n, s2, j, a, a2, end, g, s, s + 3);
      n := n + j;
      if a.Val? {
        var s3 := Run(f, x.host, x.outer, s0, n).state;
        KeptReg(s2, s3, s + 1, s + 3);
        KeptReg(s2, s3, s + 2, s + 3);
        StepSetElem(f, x, s3, a.st, s + 1);
        var ev := Ask(x, a.st, Event(SET_PROP_DYN, [w, v.w, a.w], ""));
        FinishStore(f, x, s0, n, s3, a.st, ev, a.w, a2 + 4, g, s, s + 3);
        n := n + 2;
      }
    }
  }

  lemma {:induction false} SimCall(f: Function, x: World, e: Expr, s: nat, at: nat, g: Guard, pool: seq<Const>,
                                   s0: State, st: Memo) returns (n: nat)
    requires e.Call? && Plain(e) && !g.Hole? && Set(f, x, GenCall(x, e, s, at, g, pool), at, s0, st)
    ensures Does(f, x, s0, n, EvalCall(x, ModeOf(g), e, st), at + Size(e, InChain(g)), g, s)
    decreases e, 1
  {
    hide Texts, Gen, Eval, Size, GuardCode, Four, Run, Below, Step, Lands, Taken, GenArgs, EvalArgs, ArgsSize,
        TextPool, Placed;
    var ch := InChain(g);
    SizeIs(e, ch);
    var c := Gen(x, e.callee, s, at, g, pool);
    var here := at + Size(e.callee, ch);
    var gc := GuardCode(e.optional, s, here, g);
    var go := here + GuardSize(e.optional, ch);
    var a := GenArgs(x, e.args, s + 1, go, g, c.pool);
    var cl := Four(CALL, s, Count(e.args), s);
    var end := at + Size(e, ch);
    GenFacts(x, e.callee, s, at, g, pool);
    ArgsFacts(x, e.args, s + 1, go, g, c.pool);
    Cut(f, at, c.code + gc + a.code, cl, c.code + gc + a.code + cl);
    Cut(f, at, c.code + gc, a.code, c.code + gc + a.code);
    Cut(f, at, c.code, gc, c.code + gc);
    n := Sim(f, x, e.callee, s, at, g, pool, s0, st);
    var v := Eval(x, ModeOf(g), e.callee, st);
    First(f, x, s0, n, v, here, end, g, s, s);
    if v.Val? {
      var s1 := Run(f, x.host, x.outer, s0, n).state;
      n := SimGuard(f, x, e.optional, s, here, g, s0, n, s1, v.w, v.st);
      if !(e.optional && ch && Taken(x, JMP_IF_NULLISH, v.w)) {
        var s2 := s1.(pc := go);
        OneWord(s2.regs, s);
        var k := SimArgs(f, x, e.args, s, s + 1, Count(e.args), go, g, c.pool, s2, [v.w], v.st);
        Then(f, x, s0, n, s2, k, EvalArgs(x, ModeOf(g), e.args, [v.w], v.st), end, end, g, s, s);
        n := n + k;
      }
    }
  }

  lemma OneWord(regs: seq<Word>, s: nat)
    requires s < |regs|
    ensures regs[s..s + 1] == [regs[s]]
  {
  }

  /** The callee and the arguments so far are in `base` and up; `more` are still to come. */
  predicate Gathered(s0: State, base: nat, s: nat, done: seq<Word>, nargs: nat, more: nat)
  {
    base < s <= |s0.regs| && base < 256 && s0.regs[base..s] == done && nargs == s - base - 1 + more < 256
    && base + nargs < |s0.regs|
  }

  /** The arguments fill consecutive registers above the callee, then the call. */
  lemma {:induction false} SimArgs(f: Function, x: World, args: Args, base: nat, s: nat, nargs: nat, at: nat,
                                   g: Guard, pool: seq<Const>,
                                   s0: State, done: seq<Word>, st: Memo) returns (n: nat)
    requires PlainArgs(args) && !g.Hole? && Set(f, x, GenArgs(x, args, s, at, g, pool), at, s0, st)
    requires Gathered(s0, base, s, done, nargs, Count(args))
    requires Placed(f, at + ArgsSize(args, InChain(g)), Four(CALL, base, nargs, base))
    ensures Does(f, x, s0, n, EvalArgs(x, ModeOf(g), args, done, st), at + ArgsSize(args, InChain(g)) + 4, g, base)
    decreases args, 3
  {
    hide Texts, Gen, Eval, Size, Run, Step, Lands, Four, Below, Ask, Gathered, Set, Does, GenArgs, Stands, Plain;
    match args
    case Nil =>
      SetStands(f, x, GenArgs(x, args, s, at, g, pool), at, s0, st);
      CallNow(f, x, base, s, nargs, at, g, s0, done, st);
      n := 1;
    case Cons(e, more) =>
      var ch := InChain(g);
      var at2 := at + Size(e, ch);
      var end := at2 + ArgsSize(more, ch) + 4;
      ArgsCut(f, x, args, s, at, g, pool, s0, st);
      n := Sim(f, x, e, s, at, g, pool, s0, st);
      var v := Eval(x, ModeOf(g), e, st);
      BaseBelow(s0, base, s, done, nargs, Count(args));
      First(f, x, s0, n, v, at2, end, g, base, s);
      if v.Val? {
        var s1 := Run(f, x.host, x.outer, s0, n).state;
        Extended(s0, s1, base, s, v.w, done, nargs, Count(more));
        RegsSame(s0, s1, s);
        ArgsGoOn(f, x, args, s, at, g, pool, s0, st, s1, v.st);
        var k := SimArgs(f, x, more, base, s + 1, nargs, at2, g, Gen(x, e, s, at, g, pool).pool, s1, done + [v.w],
            v.st);
        Then(f, x, s0, n, s1, k, EvalArgs(x, ModeOf(g), more, done + [v.w], v.st), end, end, g, base, base);
        n := n + k;
      }
  }

  lemma SetStands(f: Function, x: World, o: Out, at: nat, s0: State, st: Memo)
    requires Set(f, x, o, at, s0, st)
    ensures Stands(x, s0, at, st)
  {
  }

  /** The first argument's code, and that of the others behind it. */
  lemma ArgsCut(f: Function, x: World, args: Args, s: nat, at: nat, g: Guard, pool: seq<Const>, s0: State, st: Memo)
    requires args.Cons? && Set(f, x, GenArgs(x, args, s, at, g, pool), at, s0, st)
    ensures Set(f, x, Gen(x, args.head, s, at, g, pool), at, s0, st)
  {
    hide Texts, Gen, Size, TextPool, Stands;
    var a := Gen(x, args.head, s, at, g, pool);
    var r := GenArgs(x, args.tail, s + 1, at + Size(args.head, InChain(g)), g, a.pool);
    GenFacts(x, args.head, s, at, g, pool);
    ArgsFacts(x, args.tail, s + 1, at + Size(args.head, InChain(g)), g, a.pool);
    Cut(f, at, a.code, r.code, a.code + r.code);
  }

  lemma ArgsGoOn(f: Function, x: World, args: Args, s: nat, at: nat, g: Guard, pool: seq<Const>, s0: State, st: Memo,
                 s1: State, st1: Memo)
    requires args.Cons? && Set(f, x, GenArgs(x, args, s, at, g, pool), at, s0, st)
    requires |s1.regs| == |s0.regs| && Stands(x, s1, at + Size(args.head, InChain(g)), st1)
    ensures var at2 := at + Size(args.head, InChain(g));
            Set(f, x, GenArgs(x, args.tail, s + 1, at2, g, Gen(x, args.head, s, at, g, pool).pool), at2, s1, st1)
  {
    hide Texts, Gen, Size, TextPool, Stands;
    var a := Gen(x, args.head, s, at, g, pool);
    var r := GenArgs(x, args.tail, s + 1, at + Size(args.head, InChain(g)), g, a.pool);
    GenFacts(x, args.head, s, at, g, pool);
    Cut(f, at, a.code, r.code, a.code + r.code);
  }

  lemma BaseBelow(s0: State, base: nat, s: nat, done: seq<Word>, nargs: nat, more: nat)
    requires Gathered(s0, base, s, done, nargs, more)
    ensures base < s && base < 256 && base < |s0.regs|
  {
  }

  lemma CallNow(f: Function, x: World, base: nat, s: nat, nargs: nat, at: nat, g: Guard, s0: State, done: seq<Word>,
                st: Memo)
    requires Stands(x, s0, at, st) && Gathered(s0, base, s, done, nargs, 0)
    requires Placed(f, at, Four(CALL, base, nargs, base))
    ensures Does(f, x, s0, 1, Ask(x, st, Event(CALL, done, "")), at + 4, g, base)
  {
    hide Run, Step, Lands, Four, Ask, Placed;
    StepCall(f, x, s0, st, base, nargs, g);
    OneStep(f, x, s0, Ask(x, st, Event(CALL, done, "")), at + 4, g, base);
  }

  lemma Extended(a: State, b: State, base: nat, s: nat, w: Word, done: seq<Word>, nargs: nat, more: nat)
    requires Below(a, b, s) && Gathered(a, base, s, done, nargs, more + 1) && s < |b.regs| && b.regs[s] == w
    ensures Gathered(b, base, s + 1, done + [w], nargs, more)
  {
    assert b.regs[base..s + 1] == a.regs[base..s] + [w];
  }

  /** The expressions without parts. */
  lemma SimLeaf(f: Function, x: World, e: Expr, s: nat, at: nat, g: Guard, pool: seq<Const>, s0: State, st: Memo)
      returns (n: nat)
    requires e.Num? || e.Str? || e.Bool? || e.NullLit? || e.UndefLit? || e.Ident?
    requires Plain(e) && !g.Hole? && Set(f, x, Gen(x, e, s, at, g, pool), at, s0, st)
    ensures Does(f, x, s0, n, Eval(x, ModeOf(g), e, st), at + Size(e, InChain(g)), g, s)
  {
    hide LoadName, Two, Run, Step, Lands, Pooled, PoolIndex, ReadName, Size, Below;
    SizeIs(e, InChain(g));
    n := 1;
    match e
    case Num(b) =>
      StepLoadK(f, x, s0, st, pool, KNum(b), s, g);
      OneStep(f, x, s0, Val(MakeNumber(b), st), at + 4, g, s);
    case Str(t) =>
      StepLoadK(f, x, s0, st, pool, StrConst(x, t), s, g);
      OneStep(f, x, s0, Val(x.host.ofText(t), st), at + 4, g, s);
    case Bool(b) =>
      StepLit(f, x, s0, st, if b then LOAD_TRUE else LOAD_FALSE, s, FromBool(b), g);
      OneStep(f, x, s0, Val(FromBool(b), st), at + 2, g, s);
    case NullLit =>
      StepLit(f, x, s0, st, LOAD_NULL, s, NULL, g);
      OneStep(f, x, s0, Val(NULL, st), at + 2, g, s);
    case UndefLit =>
      StepLit(f, x, s0, st, LOAD_UNDEF, s, UNDEFINED, g);
      OneStep(f, x, s0, Val(UNDEFINED, st), at + 2, g, s);
    case Ident(t) =>
      StepRead(f, x, s0, st, pool, GET_GLOBAL, t, s, g);
      OneStep(f, x, s0, ReadName(x, GET_GLOBAL, t, st), at + 4, g, s);
  }

  lemma SimTypeof(f: Function, x: World, t: string, s: nat, at: nat, g: Guard, pool: seq<Const>, s0: State, st: Memo)
      returns (n: nat)
    requires !g.Hole? && Set(f, x, Gen(x, TypeofName(t), s, at, g, pool), at, s0, st)
    ensures Does(f, x, s0, n, Eval(x, ModeOf(g), TypeofName(t), st), at + 7, g, s)
  {
    hide LoadName, Three, Run, Step, Lands, Pooled, PoolIndex, ReadName, ApplyUnary, Below;
    var ld := LoadName(GET_GLOBAL_OPT, s, PoolIndex(pool, StrConst(x, t)));
    Cut(f, at, ld, Three(TYPEOF, s, s), ld + Three(TYPEOF, s, s));
    StepRead(f, x, s0, st, pool, GET_GLOBAL_OPT, t, s, g);
    var v := ReadName(x, GET_GLOBAL_OPT, t, st);
    OneStep(f, x, s0, v, at + 4, g, s);
    n := 1;
    First(f, x, s0, n, v, at + 4, at + 7, g, s, s);
    if v.Val? {
      var s1 := Run(f, x.host, x.outer, s0, n).state;
      StepUnary(f, x, s1, v.st, TYPEOF, s, s, g);
      var w := ApplyUnary(x, TYPEOF, v.w, v.st);
      OneStep(f, x, s1, w, at + 7, g, s);
      Then(f, x, s0, n, s1, 1, w, at + 7, at + 7, g, s, s);
      n := 2;
    }
  }

  /** Compiler correctness, for any expression in scope, anywhere in a function: running its code
      from register `s` gives the value, variables and events of left-to-right evaluation, with the
      value in register `s` and every lower register as it was; or the error; or, inside an optional
      chain whose link met null or undefined, arrives at the chain's pad. */
  lemma {:induction false} Sim(f: Function, x: World, e: Expr, s: nat, at: nat, g: Guard, pool: seq<Const>, s0: State,
                               st: Memo) returns (n: nat)
    requires Plain(e) && !g.Hole? && Set(f, x, Gen(x, e, s, at, g, pool), at, s0, st)
    ensures Does(f, x, s0, n, Eval(x, ModeOf(g), e, st), at + Size(e, InChain(g)), g, s)
    decreases e, 2
  {
    hide Texts, Size, StepCode, PostfixCode, StepName, PostfixName, Does, Plain, Set,
      GenUnary, GenVoid, GenBinary, GenLogical, GenCond, GenSequence, GenAssign, GenCompound, GenLogicalAssign,
      GenMember, GenAssignMember, GenChain, GenCall,
      EvalUnary, EvalVoid, EvalBinary, EvalLogical, EvalCond, EvalSequence, EvalAssign, EvalCompound, EvalLogicalAssign,
      EvalMember, EvalAssignMember, EvalChain, EvalCall;
    match e
    case Unary(_, _) => n := SimUnary(f, x, e, s, at, g, pool, s0, st);
    case TypeofName(t) => SizeIs(e, InChain(g)); n := SimTypeof(f, x, t, s, at, g, pool, s0, st);
    case Void(_) => n := SimVoid(f, x, e, s, at, g, pool, s0, st);
    case Binary(_, _, _) => n := SimBinary(f, x, e, s, at, g, pool, s0, st);
    case Logical(_, _, _) => n := SimLogical(f, x, e, s, at, g, pool, s0, st);
    case Cond(_, _, _) => n := SimCond(f, x, e, s, at, g, pool, s0, st);
    case Sequence(_, _) => n := SimSequence(f, x, e, s, at, g, pool, s0, st);
    case Assign(_, _) => n := SimAssign(f, x, e, s, at, g, pool, s0, st);
    case Compound(_, _, _) => n := SimCompound(f, x, e, s, at, g, pool, s0, st);
    case LogicalAssign(_, _, _) => n := SimLogicalAssign(f, x, e, s, at, g, pool, s0, st);
    case Update(inc, prefix, t) =>
      SizeIs(e, InChain(g));
      if prefix { n := SimStep(f, x, if inc then INC else DEC, t, s, at, g, pool, s0, st); }
      else { n := SimPostfix(f, x, if inc then INC else DEC, t, s, at, g, pool, s0, st); }
    case Member(_, _, _) => n := SimMember(f, x, e, s, at, g, pool, s0, st);
    case AssignMember(_, _, _) => n := SimAssignMember(f, x, e, s, at, g, pool, s0, st);
    case Chain(_) => n := SimChain(f, x, e, s, at, g, pool, s0, st);
    case Call(_, _, _) => n := SimCall(f, x, e, s, at, g, pool, s0, st);
    case _ => n := SimLeaf(f, x, e, s, at, g, pool, s0, st);
  }
}
