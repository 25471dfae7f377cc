/** From the source of a function body `return e;` to native code: the compiler's bytecode, run by
    the interpreter or by compiled code, gives what evaluating `e` gives. */
module Pipeline {
  import opened Options
  import opened NanBox
  import opened Bytecode
  import opened Interp
  import opened Emit
  import opened Chunk
  import opened Expr
  import opened Codegen
  import opened Machine
  import opened Compiled
  import opened Guards
  import opened FnCompilers
  import opened Analyze
  import opened Gate
  import opened Calls
  import Laws = ExprLaws
  import IntLane
  import BoxedLane
  import Escape
  import Reading
  import Operators

  /** What a function says of itself before its body: parameters, whether it is an arrow, the name it
      binds to itself, whether it mentions `arguments`, and its rest parameter. */
  datatype Header = Header(
    params: seq<string>, isArrow: bool, selfName: Option<string>, usesArguments: bool, rest: Option<string>)

  function FunctionOf(h: Header, code: Code, pool: seq<Const>, numRegs: nat): Function
  {
    Function(code, pool, h.params, numRegs, |h.params|, false, false, false, h.isArrow, h.selfName,
             h.usesArguments && !h.isArrow, h.rest, {}, NoCaches(|code|))
  }

  /** The bytecode function of a sloppy body `return e;`. */
  function Returning(x: World, h: Header, e: Expr): Option<Function>
  {
    var o := Gen(x, e, 0, 0, NoChain, []);
    if |o.pool| > MAX_POOL || !o.fits then None
    else Some(FunctionOf(h, o.code + (Two(RETURN, 0) + [RETURN_UNDEF as Byte]), o.pool, o.top))
  }

  /** The world in which a call evaluates the body: sloppy, no closure out, its own name fixed. */
  predicate Fresh(x: World, f: Function)
  {
    x.reach.Kept? && !x.strict && x.fixed == if BindsSelf(f) then f.selfName else None
  }

  /** Property sites that have seen nothing yet, one per code byte. */
  function NoCaches(n: nat): seq<SiteCache> { seq(n, _ => SiteCache(false, 0)) }

  /** The expression, compiled by a fresh compiler. */
  method CompileFirst(fc: FnCompiler, e: Expr, line: nat) returns (ok: bool)
    requires fc.Valid() && fc.sp == 0 && fc.maxRegs == 0 && fc.optionalJumps.None? && fc.builder.State() == EMPTY
    requires fc.Next(e).top <= 255
    modifies fc, fc.builder
    ensures var o := Gen(fc.x, e, 0, 0, NoChain, []);
            && (ok <==> |o.pool| <= MAX_POOL)
            && (ok ==> && fc.Valid() && fc.builder.code == o.code && fc.builder.constants == o.pool
                       && fc.builder.jumpOverflow == !o.fits && fc.maxRegs == o.top && fc.sp == 1)
  {
    hide Gen, GuardsOf, Pending, Wrote;
    ghost var o, b0 := fc.Next(e), fc.builder.State();
    var r;
    ok, r := fc.CompileExpr(e, line);
    if ok { FirstWrote(o, b0, fc.builder.State()); }
  }

  lemma FirstWrote(o: Out, b0: Built, b1: Built)
    requires Wrote(o, b0, b1) && b0 == EMPTY
    ensures b1.code == o.code && b1.constants == o.pool && b1.overflow == !o.fits
  {
    Tail(o.code, [], []);
  }

  /** The statement `return e;`, and the RETURN_UNDEF that ends every body. */
  method CompileBody(fc: FnCompiler, e: Expr, line: nat) returns (ok: bool)
    requires fc.Valid() && fc.sp == 0 && fc.maxRegs == 0 && fc.optionalJumps.None? && fc.builder.State() == EMPTY
    requires fc.Next(e).top <= 255
    modifies fc, fc.builder
    ensures var o := Gen(fc.x, e, 0, 0, NoChain, []);
            && (ok <==> |o.pool| <= MAX_POOL)
            && (ok ==>
                 && fc.builder.code == o.code + (Two(RETURN, 0) + [RETURN_UNDEF as Byte])
                 && fc.builder.constants == o.pool
                       && fc.builder.jumpOverflow == !o.fits && fc.maxRegs == o.top)
  {
    hide Gen, Two;
    ghost var o := Gen(fc.x, e, 0, 0, NoChain, []);
    ok := CompileFirst(fc, e, line);
    if !ok { return; }
    Tail(o.code, Two(RETURN, 0), [RETURN_UNDEF as Byte]);
    fc.Instr2(RETURN, 0, line);
    fc.FreeReg();
    fc.builder.EmitOpcode(RETURN_UNDEF, 0);
  }

  lemma Tail(a: Code, b: Code, c: Code)
    ensures [] + a == a && a + b + c == a + (b + c)
  {
  }

  /** `compileFunctionImpl` on a sloppy body of one return statement. */
  method CompileReturning(x: World, h: Header, e: Expr, line: nat) returns (f: Option<Function>)
    requires Gen(x, e, 0, 0, NoChain, []).top <= 255
    ensures f == Returning(x, h, e)
  {
    hide Gen, Two;
    var fc := new FnCompiler(x);
    var ok := CompileBody(fc, e, line);
    if !ok { return None; }
    var chunk := fc.builder.Finalize();
    if chunk.None? { return None; }
    f := Some(FunctionOf(h, chunk.value.code, chunk.value.constants, fc.maxRegs));
  }

  /** What evaluating the body gives, in the environment of the call. */
  function Expected(x: World, d: Mode, e: Expr, env: Env): Outcome
  {
    match Eval(x, d, e, Memo(env, []))
    case Val(w, st) => Outcome.Returned(w, st.trace)
    case Short(_) => Stuck
    case Err(v, t) => Outcome.Threw(v, t)
  }

  /** Interpreting the compiled function ends, and ends as evaluation in the environment of the call
      does: with the parameters, `arguments`, the rest parameter and the function's own name bound. */
  lemma Interprets(x: World, h: Header, e: Expr, f: Function, args: seq<Word>)
    requires Plain(e) && Returning(x, h, e) == Some(f) && f.numRegs <= 255 && Fresh(x, f)
    ensures var want := Expected(x, Mode(true, false), e, CallEnv(f, x.host, args));
            && !want.Running?
            && forall out :: Ends(f, x.host, x.outer, Enter(f, x.host, args), out) <==> out == want
  {
    hide Gen, Eval, Run, Plain, Two, Placed, Size, CallEnv;
    var o := Gen(x, e, 0, 0, NoChain, []);
    var s0, st := Enter(f, x.host, args), Memo(CallEnv(f, x.host, args), []);
    GenFacts(x, e, 0, 0, NoChain, []);
    var tail := Two(RETURN, 0) + [RETURN_UNDEF as Byte];
    WholePlaced(f, o.code, tail);
    var n := Sim(f, x, e, 0, 0, NoChain, [], s0, st);
    var ev := Eval(x, Mode(true, false), e, st);
    var want := Expected(x, Mode(true, false), e, st.env);
    var k := n;
    if ev.Val? {
      var s1 := Run(f, x.host, x.outer, s0, n).state;
      Returns(f, x, s1, |o.code|, ev.w, ev.st);
      RunAdd(f, x.host, x.outer, s0, n, 1);
      k := n + 1;
    }
    assert Run(f, x.host, x.outer, s0, k) == want;
    assert Ends(f, x.host, x.outer, s0, want);
    forall out | Ends(f, x.host, x.outer, s0, out) ensures out == want {
      IntLane.OneEnd(f, x.host, x.outer, s0, out, want);
    }
  }

  lemma WholePlaced(f: Function, a: Code, tail: Code)
    requires f.code == a + tail
    ensures Placed(f, 0, a) && Placed(f, |a|, tail)
  {
    assert f.code[0..|a|] == a;
    assert f.code[|a|..|a| + |tail|] == tail;
  }

  /** The return instruction behind the code of the expression. */
  lemma Returns(f: Function, x: World, s: State, at: nat, w: Word, st: Memo)
    requires Placed(f, at, Two(RETURN, 0) + [RETURN_UNDEF as Byte]) && Stands(x, s, at, st) && 0 < |s.regs|
    requires s.regs[0] == w
    ensures Run(f, x.host, x.outer, s, 1) == Outcome.Returned(w, st.trace)
  {
    PlacedSplit(f, at, Two(RETURN, 0), [RETURN_UNDEF as Byte]);
    PlacedAt(f, at, Two(RETURN, 0), 0);
    PlacedAt(f, at, Two(RETURN, 0), 1);
    assert Fetch(f.code, at) == Return(0);
    assert Step(f, x.host, x.outer, s) == Outcome.Returned(w, st.trace);
  }

  /** From source to native code, boxed lane: on every call with at most as many arguments as
      parameters, the compiled function ends, in one way, and that way is what evaluating the body
      gives: the same value or error, after the same events. */
  lemma SourceToBoxed(x: World, h: Header, e: Expr, f: Function, p: Plan, cert: BoxedLane.Cert, args: seq<Word>)
    requires Plain(e) && Returning(x, h, e) == Some(f) && f.numRegs <= 255 && Fresh(x, f)
    requires Accepts(f, true, p) && Distinct(h.params) && |args| <= |h.params|
    requires BoxedLane.Certified(f, OwnNames(p), cert) && BoxedLane.Clear(f, p)
    requires BoxedLane.HelpersAgree(x.host) && BoxedLane.SafeRun(f, x.host, x.outer, Enter(f, x.host, args))
    ensures p.owned <= |p.names|
    ensures forall out :: CallsTo(f, x.host, x.outer, p, args, out)
                          <==> out == Expected(x, Mode(true, false), e, CallEnv(f, x.host, args))
  {
    hide Accepts, CallsTo, Ends, BoxedLane.Certified, BoxedLane.Clear, BoxedLane.HelpersAgree, BoxedLane.SafeRun;
    hide Gen, Eval, Plain, CallEnv, CallNames;
    BoxedLane.BoxedLaneCorrect(f, p, x.host, x.outer, args, cert);
    Interprets(x, h, e, f, args);
  }

  /** From source to native code, int lane: on every vector of SMI arguments the compiled function
      ends, and its value is the value of the body, up to the sign of zero. */
  lemma SourceToInt(x: World, h: Header, e: Expr, f: Function, p: Plan, cert: IntLane.Cert, args: seq<Word>)
    requires Plain(e) && Returning(x, h, e) == Some(f) && f.numRegs <= 255 && Fresh(x, f)
    requires Accepts(f, false, p) && IntLane.ConstsFit(f) && Distinct(h.params) && IntLane.Unfixed(f, p)
    requires IntLane.Certified(f, |args|, cert) && IntLane.ReturnsNumbers(f, cert)
    requires forall i | 0 <= i < |args| :: IsSmi(args[i])
    ensures p.owned <= |p.names| && exists out :: CallsTo(f, x.host, x.outer, p, args, out)
    ensures forall out :: CallsTo(f, x.host, x.outer, p, args, out) ==>
              IntLane.SameUpToZero(out, Expected(x, Mode(true, false), e, CallEnv(f, x.host, args)))
  {
    hide Accepts, CallsTo, Ends, Gen, Eval, Plain, CallEnv;
    hide IntLane.Certified, IntLane.ConstsFit, IntLane.ReturnsNumbers, IntLane.SameUpToZero, IntLane.Unfixed;
    IntLane.IntLaneCorrect(f, p, x.host, x.outer, args, cert);
    Interprets(x, h, e, f, args);
    var want := Expected(x, Mode(true, false), e, CallEnv(f, x.host, args));
    assert Ends(f, x.host, x.outer, Enter(f, x.host, args), want);
  }

  /** The peephole is invisible as long as each step `x = x + 1` finds a value that may be stepped:
      evaluation as the compiler means it is plain left-to-right evaluation. */
  lemma PlainMeaning(x: World, e: Expr, env: Env)
    requires Laws.StepsSafe(x, false, e, Memo(env, []))
    ensures Expected(x, Mode(true, false), e, env) == Expected(x, Mode(false, false), e, env)
  {
    hide Eval, Laws.StepsSafe;
    Laws.EvalKept(x, false, e, Memo(env, []));
  }

  /** An ordinary function with these parameters. */
  function Ordinary(params: seq<string>): Header { Header(params, false, None, false, None) }

  /** `(a < a) && a` */
  function EscapeSource(): Expr
  {
    Logical(JMP_IF_FALSE, Expr.Binary(LT, Ident("a"), Ident("a")), Ident("a"))
  }

  /** The function whose comparison escapes is what the compiler makes of `return (a < a) && a;`. */
  lemma EscapeIsCompiled(x: World)
    requires x.host.ofText("a") == 8
    ensures Returning(x, Ordinary(["a"]), EscapeSource()) == Some(Escape.Escaping())
  {
    hide Gen, Pooled, PoolIndex, Two, Size, Jump16;
    var e, c := EscapeSource(), StrConst(x, "a");
    OnePool(c);
    EscapeLeft(x, e.l);
    IdentCode(x, "a", 0, 16, [c]);
    EscapeSizes(e);
    Encodings();
    LogicalIs(x, e, 0, 0, NoChain, []);
    var o := Gen(x, e, 0, 0, NoChain, []);
    assert o == Out([6, 0, 0, 0, 6, 1, 0, 0, 30, 0, 0, 1, 38, 0, 4, 0, 6, 0, 0, 0], [c], 2, true);
    assert o.code + (Two(RETURN, 0) + [RETURN_UNDEF as Byte]) == Escape.Bytes();
    assert NoCaches(23) == seq(23, _ => SiteCache(false, 0));
  }

  lemma LogicalIs(x: World, e: Expr, s: nat, at: nat, g: Codegen.Guard, pool: seq<Const>)
    requires e.Logical?
    ensures Gen(x, e, s, at, g, pool) == GenLogical(x, e, s, at, g, pool)
  {
  }

  lemma EscapeSizes(e: Expr)
    requires e == EscapeSource()
    ensures Size(e.l, false) == 12 && Size(e.r, false) == 4
  {
    hide Size;
    IdentSize("a");
    SizeIs(e.l, false);
  }

  lemma IdentSize(n: string)
    ensures Size(Ident(n), false) == 4
  {
  }

  lemma Encodings()
    ensures Jump16(4) == [4, 0] && FitsI16(4) && Two(JMP_IF_FALSE, 0) == [38, 0] && Two(RETURN, 0) == [45, 0]
  {
  }

  lemma IdentCode(x: World, n: string, s: nat, at: nat, pool: seq<Const>)
    requires s < 256 && PoolIndex(pool, StrConst(x, n)) == 0
    ensures Gen(x, Ident(n), s, at, NoChain, pool) == Out([6, s, 0, 0], Pooled(pool, StrConst(x, n)), s + 1, true)
  {
    hide Pooled, PoolIndex;
  }

  lemma EscapeLeft(x: World, l: Expr)
    requires l == EscapeSource().l
    ensures Gen(x, l, 0, 0, NoChain, []) == Out([6, 0, 0, 0, 6, 1, 0, 0, 30, 0, 0, 1], [StrConst(x, "a")], 2, true)
  {
    hide Gen, Pooled, PoolIndex, Size;
    OnePool(StrConst(x, "a"));
    IdentCode(x, "a", 0, 0, []);
    IdentCode(x, "a", 1, 4, [StrConst(x, "a")]);
    assert Size(l.l, false) == 4 by { SizeIs(l.l, false); }
    BinaryUnfolds(x, l, 0, 0, NoChain, []);
  }

  lemma BinaryUnfolds(x: World, e: Expr, s: nat, at: nat, g: Codegen.Guard, pool: seq<Const>)
    requires e.Binary?
    ensures Gen(x, e, s, at, g, pool) == GenBinary(x, e, s, at, g, pool)
  {
  }

  lemma OnePool(c: Const)
    requires c.KStr?
    ensures Pooled([], c) == [c] && PoolIndex([], c) == 0 && Pooled([c], c) == [c] && PoolIndex([c], c) == 0
  {
  }

  /** The bodies `return o.x` and `return o` of `Reading` are the compiler's as well, so the premises of
      `SourceToBoxed` and `SourceToInt` hold together; and so is the function that reads its own name. */
  lemma ReadersAreCompiled(x: World)
    requires x.host.ofText("o") == 8 && x.host.ofText("x") == 16 && x.host.ofText("f") == 24
    ensures Returning(x, Ordinary(["o"]), Member(Ident("o"), Name("x"), false))
            == Some(Reading.Reader(Reading.ReadProp))
    ensures Returning(x, Ordinary(["o"]), Ident("o")) == Some(Reading.Reader(Reading.Plain))
    ensures Returning(x, Header(["x"], false, Some("f"), false, None), Ident("f"))
            == Some(Reading.Reader(Reading.OwnName))
  {
    hide Gen;
    OnePool(StrConst(x, "o"));
    OnePool(StrConst(x, "f"));
    Encodings();
    IdentCode(x, "o", 0, 0, []);
    IdentCode(x, "f", 0, 0, []);
    ReadCode(x);
    ReadBytes();
    assert NoCaches(7) == seq(7, _ => SiteCache(false, 0)) && NoCaches(12) == seq(12, _ => SiteCache(false, 0));
  }

  lemma ReadBytes()
    ensures Reading.Bytes(Reading.Plain) == Reading.Bytes(Reading.OwnName) == [6, 0, 0, 0] + ([45, 0] + [46])
    ensures Reading.Bytes(Reading.ReadProp) == [6, 0, 0, 0, 51, 0, 0, 1, 0] + ([45, 0] + [46])
  {
  }

  lemma ReadCode(x: World)
    ensures Gen(x, Member(Ident("o"), Name("x"), false), 0, 0, NoChain, [])
            == Out([6, 0, 0, 0, 51, 0, 0, 1, 0], [StrConst(x, "o"), StrConst(x, "x")], 1, true)
  {
    hide Gen, Pooled, PoolIndex, Size, GetStatic;
    var o, k := StrConst(x, "o"), StrConst(x, "x");
    OnePool(o);
    TwoPool(o, k);
    IdentCode(x, "o", 0, 0, []);
    GetCode();
    MemberUnfolds(x, Member(Ident("o"), Name("x"), false));
    assert [6, 0, 0, 0] + [] + [51, 0, 0, 1, 0] == [6, 0, 0, 0, 51, 0, 0, 1, 0];
  }

  lemma MemberUnfolds(x: World, e: Expr)
    requires e.Member?
    ensures Gen(x, e, 0, 0, NoChain, []) == GenMember(x, e, 0, 0, NoChain, [])
  {
  }

  lemma GetCode()
    ensures GetStatic(0, 1) == [51, 0, 0, 1, 0]
  {
  }

  lemma TwoPool(c: Const, d: Const)
    requires c.KStr? && d.KStr? && c.name != d.name
    ensures Pooled([c], d) == [c, d] && PoolIndex([c], d) == 1
  {
  }
}
