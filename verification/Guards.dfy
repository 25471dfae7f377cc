/** Back-patching is the same as knowing the target: the optional links of a chain are emitted with a
    zero displacement and recorded, and patching the recorded offsets gives the final code. */
module Guards {
  import opened Bytecode
  import opened Interp
  import opened Emit
  import opened Chunk
  import opened Expr
  import opened Codegen

  function GuardAt(optional: bool, here: nat): seq<nat> { if optional then [here + 2] else [] }

  /** The recorded displacement offsets of an expression inside a chain, in emission order; a nested
      chain keeps its own. */
  function GuardsOf(e: Expr, at: nat): seq<nat>
    decreases e, 2
  {
    match e
    case Unary(_, a) => GuardsOf(a, at)
    case Void(a) => GuardsOf(a, at)
    case Binary(_, l, r) => GuardsOf(l, at) + GuardsOf(r, at + Size(l, true))
    case Logical(_, l, r) => GuardsOf(l, at) + GuardsOf(r, at + Size(l, true) + 4)
    case Cond(_, _, _) => CondGuards(e, at)
    case Sequence(a, rest) => GuardsOf(a, at) + ArgsGuards(rest, at + Size(a, true))
    case Assign(n, v) => if IsStep(n, v) then [] else GuardsOf(v, at)
    case Compound(_, _, v) => GuardsOf(v, at + 4)
    case LogicalAssign(_, _, v) => GuardsOf(v, at + 8)
    case Member(_, _, _) => MemberGuards(e, at)
    case AssignMember(_, _, _) => AssignMemberGuards(e, at)
    case Call(_, _, _) => CallGuards(e, at)
    case _ => []
  }

  function CondGuards(e: Expr, at: nat): seq<nat>
    requires e.Cond?
    decreases e, 1
  {
    var a2 := at + Size(e.test, true) + 4;
    GuardsOf(e.test, at) + GuardsOf(e.yes, a2) + GuardsOf(e.no, a2 + Size(e.yes, true) + 3)
  }

  function MemberGuards(e: Expr, at: nat): seq<nat>
    requires e.Member?
    decreases e, 1
  {
    var here := at + Size(e.obj, true);
    GuardsOf(e.obj, at) + GuardAt(e.optional, here)
    + (if StaticSize(e.key) then [] else GuardsOf(e.key.e, here + GuardSize(e.optional, true)))
  }

  function AssignMemberGuards(e: Expr, at: nat): seq<nat>
    requires e.AssignMember?
    decreases e, 1
  {
    var here := at + Size(e.obj, true);
    GuardsOf(e.obj, at) +
    (if StaticSize(e.key) then GuardsOf(e.value, here)
     else GuardsOf(e.key.e, here) + GuardsOf(e.value, here + Size(e.key.e, true)))
  }

  function CallGuards(e: Expr, at: nat): seq<nat>
    requires e.Call?
    decreases e, 1
  {
    var here := at + Size(e.callee, true);
    GuardsOf(e.callee, at) + GuardAt(e.optional, here) + ArgsGuards(e.args, here + GuardSize(e.optional, true))
  }

  function ArgsGuards(args: Args, at: nat): seq<nat>
    decreases args, 3
  {
    match args
    case Nil => []
    case Cons(a, more) => GuardsOf(a, at) + ArgsGuards(more, at + Size(a, true))
  }

  // ------------------------------------------------------------------ patching a list

  function WriteOne(code: Code, g: nat, pad: nat): Code
  {
    if g + 2 <= |code| then Write2(code, g, Clamp16(pad - (g + 2))) else code
  }

  function WriteAll(code: Code, gs: seq<nat>, pad: nat): Code
    decreases |gs|
  {
    if |gs| == 0 then code else WriteAll(WriteOne(code, gs[0], pad), gs[1..], pad)
  }

  predicate AllFit(gs: seq<nat>, pad: nat)
  {
    forall i | 0 <= i < |gs| :: FitsI16(pad - (gs[i] + 2))
  }

  lemma {:induction false} WriteAppend(code: Code, a: seq<nat>, b: seq<nat>, pad: nat)
    ensures WriteAll(code, a + b, pad) == WriteAll(WriteAll(code, a, pad), b, pad)
    decreases |a|
  {
    if |a| == 0 {
      assert a + b == b;
    } else {
      assert (a + b)[0] == a[0] && (a + b)[1..] == a[1..] + b;
      WriteAppend(WriteOne(code, a[0], pad), a[1..], b, pad);
    }
  }

  lemma FitAppend(a: seq<nat>, b: seq<nat>, pad: nat)
    ensures AllFit(a + b, pad) <==> AllFit(a, pad) && AllFit(b, pad)
  {
    var c := a + b;
    assert forall i | 0 <= i < |a| :: c[i] == a[i];
    assert forall i | 0 <= i < |b| :: c[|a| + i] == b[i];
  }

  // ------------------------------------------------------------------ the two emissions

  /** Emitted with holes and then patched, `h` is `t`, within any surrounding code. */
  ghost predicate Patches(pre: Code, h: Out, t: Out, gs: seq<nat>, suf: Code, pad: nat)
  {
    && WriteAll(pre + h.code + suf, gs, pad) == pre + t.code + suf
    && t.pool == h.pool && t.top == h.top && (t.fits <==> h.fits && AllFit(gs, pad)) && |t.code| == |h.code|
  }

  lemma NothingToPatch(pre: Code, o: Out, suf: Code, pad: nat)
    ensures Patches(pre, o, o, [], suf, pad)
  {
  }

  /** Two pieces with fixed code before, between and after them. */
  function Glue(c0: Code, a: Out, c1: Code, b: Out, c2: Code): Out
  {
    Out(c0 + a.code + c1 + b.code + c2, b.pool, Max(a.top, b.top), a.fits && b.fits)
  }

  /** One piece with fixed code around it. */
  function Wrap(c0: Code, a: Out, c1: Code, pool: seq<Const>, top: nat, fits: bool): Out
  {
    Out(c0 + a.code + c1, pool, top, a.fits && fits)
  }

  lemma PatchGlue(pre: Code, c0: Code, h1: Out, t1: Out, g1: seq<nat>, c1: Code, h2: Out, t2: Out, g2: seq<nat>,
                  c2: Code, suf: Code, pad: nat)
    requires Patches(pre + c0, h1, t1, g1, c1 + h2.code + c2 + suf, pad)
    requires Patches(pre + c0 + t1.code + c1, h2, t2, g2, c2 + suf, pad)
    ensures Patches(pre, Glue(c0, h1, c1, h2, c2), Glue(c0, t1, c1, t2, c2), g1 + g2, suf, pad)
  {
    hide WriteAll;
    var h, t := c0 + h1.code + c1 + h2.code + c2, c0 + t1.code + c1 + t2.code + c2;
    WriteAppend(pre + h + suf, g1, g2, pad);
    FitAppend(g1, g2, pad);
    assert pre + h + suf == (pre + c0) + h1.code + (c1 + h2.code + c2 + suf);
    assert (pre + c0) + t1.code + (c1 + h2.code + c2 + suf) == (pre + c0 + t1.code + c1) + h2.code + (c2 + suf);
    assert (pre + c0 + t1.code + c1) + t2.code + (c2 + suf) == pre + t + suf;
  }

  lemma PatchWrap(pre: Code, c0: Code, h: Out, t: Out, gs: seq<nat>, c1: Code, suf: Code, pad: nat, pool: seq<Const>,
                  top: nat, fits: bool)
    requires Patches(pre + c0, h, t, gs, c1 + suf, pad)
    ensures Patches(pre, Wrap(c0, h, c1, pool, top, fits), Wrap(c0, t, c1, pool, top, fits), gs, suf, pad)
  {
    hide WriteAll;
    assert pre + (c0 + h.code + c1) + suf == (pre + c0) + h.code + (c1 + suf);
    assert (pre + c0) + t.code + (c1 + suf) == pre + (c0 + t.code + c1) + suf;
  }

  function GuardOut(optional: bool, s: nat, here: nat, g: Guard, pool: seq<Const>): Out
  {
    Out(GuardCode(optional, s, here, g), pool, 0, GuardFits(optional, here, g))
  }

  /** A guard emitted with a hole. */
  lemma PatchGuard(pre: Code, optional: bool, s: nat, suf: Code, pad: nat, pool: seq<Const>)
    ensures Patches(pre, GuardOut(optional, s, |pre|, Hole, pool), GuardOut(optional, s, |pre|, To(pad), pool),
            GuardAt(optional, |pre|), suf, pad)
  {
    var here := |pre|;
    if optional {
      var c := pre + GuardCode(optional, s, here, Hole) + suf;
      var gs := GuardAt(optional, here);
      assert gs[1..] == [];
      assert WriteAll(c, gs, pad) == WriteOne(c, here + 2, pad);
      var t := pre + GuardCode(optional, s, here, To(pad)) + suf;
      assert c[..here + 2] == t[..here + 2];
      assert c[here + 4..] == t[here + 4..];
      assert t == t[..here + 2] + Jump16(pad - (here + 4)) + t[here + 4..];
    }
  }

  // ------------------------------------------------------------------ every expression

  /** The statement for an expression emitted after `pre`. */
  ghost predicate Fills(x: World, e: Expr, s: nat, pre: Code, suf: Code, pool: seq<Const>, pad: nat)
  {
    Patches(pre, Gen(x, e, s, |pre|, Hole, pool), Gen(x, e, s, |pre|, To(pad), pool), GuardsOf(e, |pre|), suf, pad)
  }

  lemma SameOuter(x: World, e: Expr, s: nat, at: nat, pool: seq<Const>, pad: nat)
    ensures |Gen(x, e, s, at, Hole, pool).code| == |Gen(x, e, s, at, To(pad), pool).code| == Size(e, true)
  {
    hide Texts, Gen, Size;
    GenFacts(x, e, s, at, Hole, pool);
    GenFacts(x, e, s, at, To(pad), pool);
  }

  lemma {:induction false} UnaryFills(x: World, e: Expr, s: nat, pre: Code, suf: Code, pool: seq<Const>, pad: nat)
    requires e.Unary? || e.Void?
    ensures Fills(x, e, s, pre, suf, pool, pad)
    decreases e, 1
  {
    hide Texts, Gen, GuardsOf, Size, WriteAll, AllFit, Three, Two, Four, BranchTo, JumpTo, LoadName, StoreName,
        GetStatic, SetStatic, GuardCode, Pooled, PoolIndex;
    var at := |pre|;
    var op := if e.Unary? then Three(e.uop, s, s) else Two(LOAD_UNDEF, s);
    UnaryIs(x, e, s, at, Hole, pool); UnaryIs(x, e, s, at, To(pad), pool);
    assert pre + [] == pre;
    GenFills(x, e.e, s, pre, op + suf, pool, pad);
    var h, t := Gen(x, e.e, s, at, Hole, pool), Gen(x, e.e, s, at, To(pad), pool);
    PatchWrap(pre, [], h, t, GuardsOf(e.e, at), op, suf, pad, h.pool, h.top, true);
  }

  /** The pieces of the code. */
  function UnaryShape(x: World, e: Expr, s: nat, at: nat, g: Guard, pool: seq<Const>): Out
    requires e.Unary? || e.Void?
  {
    var a := Gen(x, e.e, s, at, g, pool);
    Wrap([], a, if e.Unary? then Three(e.uop, s, s) else Two(LOAD_UNDEF, s), a.pool, a.top, true)
  }

  lemma UnaryIs(x: World, e: Expr, s: nat, at: nat, g: Guard, pool: seq<Const>)
    requires (e.Unary? || e.Void?) && InChain(g)
    ensures Gen(x, e, s, at, g, pool) == UnaryShape(x, e, s, at, g, pool)
    ensures GuardsOf(e, at) == GuardsOf(e.e, at)
  {
    hide Texts, Size, Three, Two, Four, BranchTo, JumpTo, LoadName, StoreName, GetStatic, SetStatic, GuardCode,
        Pooled, PoolIndex, FitsI16;
    var a := Gen(x, e.e, s, at, g, pool);
    assert [] + a.code == a.code;
  }

  /** The pieces of the code. */
  function BinaryShape(x: World, e: Expr, s: nat, at: nat, g: Guard, pool: seq<Const>): Out
    requires e.Binary?
  {
    var l := Gen(x, e.l, s, at, g, pool);
    Glue([], l, [], Gen(x, e.r, s + 1, at + Size(e.l, true), g, l.pool), Four(e.bop, s, s, s + 1))
  }

  lemma BinaryIs(x: World, e: Expr, s: nat, at: nat, g: Guard, pool: seq<Const>)
    requires e.Binary? && InChain(g)
    ensures Gen(x, e, s, at, g, pool) == BinaryShape(x, e, s, at, g, pool)
    ensures GuardsOf(e, at) == GuardsOf(e.l, at) + GuardsOf(e.r, at + Size(e.l, true))
  {
    hide Texts, Size, Three, Two, Four, BranchTo, JumpTo, LoadName, StoreName, GetStatic, SetStatic, GuardCode,
        Pooled, PoolIndex, FitsI16;
    var l := Gen(x, e.l, s, at, g, pool);
    assert [] + l.code + [] == l.code;
  }

  lemma {:induction false} BinaryFills(x: World, e: Expr, s: nat, pre: Code, suf: Code, pool: seq<Const>, pad: nat)
    requires e.Binary?
    ensures Fills(x, e, s, pre, suf, pool, pad)
    decreases e, 1
  {
    hide Texts, Gen, GuardsOf, Size, WriteAll, AllFit, Three, Two, Four, BranchTo, JumpTo, LoadName, StoreName,
        GetStatic, SetStatic, GuardCode, Pooled, PoolIndex;
    var at, end := |pre|, Four(e.bop, s, s, s + 1);
    BinaryIs(x, e, s, at, Hole, pool); BinaryIs(x, e, s, at, To(pad), pool);
    Consecutive(x, e, e.l, e.r, s, s + 1, pre, [], [], end, suf, pool, pad);
  }

  /** The pieces of the code. */
  function LogicalShape(x: World, e: Expr, s: nat, at: nat, g: Guard, pool: seq<Const>): Out
    requires e.Logical?
  {
    var l := Gen(x, e.l, s, at, g, pool);
    var both := Glue([], l, BranchTo(e.skip, s, Size(e.r, true)), Gen(x, e.r, s, at + Size(e.l, true) + 4, g, l.pool),
        []);
    both.(fits := both.fits && FitsI16(Size(e.r, true)))
  }

  lemma LogicalIs(x: World, e: Expr, s: nat, at: nat, g: Guard, pool: seq<Const>)
    requires e.Logical? && InChain(g)
    ensures Gen(x, e, s, at, g, pool) == LogicalShape(x, e, s, at, g, pool)
    ensures GuardsOf(e, at) == GuardsOf(e.l, at) + GuardsOf(e.r, at + Size(e.l, true) + 4)
  {
    hide Texts, Size, Three, Two, Four, BranchTo, JumpTo, LoadName, StoreName, GetStatic, SetStatic, GuardCode,
        Pooled, PoolIndex, FitsI16;
    var l := Gen(x, e.l, s, at, g, pool);
    var r := Gen(x, e.r, s, at + Size(e.l, true) + 4, g, l.pool);
    assert [] + l.code == l.code;
    var c := l.code + BranchTo(e.skip, s, Size(e.r, true)) + r.code;
    assert c + [] == c;
  }

  lemma {:induction false} LogicalFills(x: World, e: Expr, s: nat, pre: Code, suf: Code, pool: seq<Const>, pad: nat)
    requires e.Logical?
    ensures Fills(x, e, s, pre, suf, pool, pad)
    decreases e, 1
  {
    hide Texts, Gen, GuardsOf, Size, WriteAll, AllFit, Three, Two, Four, BranchTo, JumpTo, LoadName, StoreName,
        GetStatic, SetStatic, GuardCode, Pooled, PoolIndex;
    var at, gap := |pre|, BranchTo(e.skip, s, Size(e.r, true));
    LogicalIs(x, e, s, at, Hole, pool); LogicalIs(x, e, s, at, To(pad), pool);
    Consecutive(x, e, e.l, e.r, s, s, pre, [], gap, [], suf, pool, pad);
  }

  lemma PatchedPool(pre: Code, h: Out, t: Out, gs: seq<nat>, suf: Code, pad: nat)
    requires Patches(pre, h, t, gs, suf, pad)
    ensures t.pool == h.pool
  {
  }

  /** Two subexpressions, one after the other, with fixed code around them. */
  lemma {:induction false} Consecutive(x: World, e: Expr, l: Expr, r: Expr, s: nat, s2: nat, pre: Code, c0: Code,
                                       c1: Code, c2: Code, suf: Code,
                                pool: seq<Const>, pad: nat)
    requires l < e && r < e
    ensures var at := |pre| + |c0|;
            var at2 := at + Size(l, true) + |c1|;
            var h1, t1 := Gen(x, l, s, at, Hole, pool), Gen(x, l, s, at, To(pad), pool);
            && t1.pool == h1.pool
            && Patches(pre, Glue(c0, h1, c1, Gen(x, r, s2, at2, Hole, h1.pool), c2),
                 Glue(c0, t1, c1, Gen(x, r, s2, at2, To(pad), t1.pool), c2),
                       GuardsOf(l, at) + GuardsOf(r, at2), suf, pad)
    decreases e, 0
  {
    hide Texts, Gen, GuardsOf, Size, WriteAll, AllFit, Patches, Glue;
    var at := |pre| + |c0|;
    var at2 := at + Size(l, true) + |c1|;
    var h1, t1 := Gen(x, l, s, at, Hole, pool), Gen(x, l, s, at, To(pad), pool);
    SameOuter(x, l, s, at, pool, pad);
    var h2 := Gen(x, r, s2, at2, Hole, h1.pool);
    var p1, p2 := pre + c0, pre + c0 + t1.code + c1;
    assert |p1| == at && |p2| == at2;
    GenFills(x, l, s, p1, c1 + h2.code + c2 + suf, pool, pad);
    PatchedPool(p1, h1, t1, GuardsOf(l, at), c1 + h2.code + c2 + suf, pad);
    GenFills(x, r, s2, p2, c2 + suf, h1.pool, pad);
    PatchGlue(pre, c0, h1, t1, GuardsOf(l, at), c1, h2, Gen(x, r, s2, at2, To(pad), h1.pool), GuardsOf(r, at2), c2,
        suf, pad);
  }

  /** The pieces of the code. */
  function CondShape(x: World, e: Expr, s: nat, at: nat, g: Guard, pool: seq<Const>): Out
    requires e.Cond?
  {
    var n, m := Size(e.yes, true), Size(e.no, true);
    var a2 := at + Size(e.test, true) + 4;
    var c := Gen(x, e.test, s, at, g, pool);
    var t := Gen(x, e.yes, s, a2, g, c.pool);
    var f := Gen(x, e.no, s, a2 + n + 3, g, t.pool);
    var all := Glue([], c, BranchTo(JMP_IF_FALSE, s, n + 3), Glue([], t, JumpTo(m), f, []), []);
    all.(fits := all.fits && FitsI16(n + 3) && FitsI16(m))
  }

  lemma CondIs(x: World, e: Expr, s: nat, at: nat, g: Guard, pool: seq<Const>)
    requires e.Cond? && InChain(g)
    ensures Gen(x, e, s, at, g, pool) == CondShape(x, e, s, at, g, pool)
    ensures GuardsOf(e, at) == GuardsOf(e.test, at)
            + (GuardsOf(e.yes, at + Size(e.test, true) + 4)
            + GuardsOf(e.no, at + Size(e.test, true) + 4 + Size(e.yes, true) + 3))
  {
    hide Texts, Size, Three, Two, Four, BranchTo, JumpTo, LoadName, StoreName, GetStatic, SetStatic, GuardCode,
        Pooled, PoolIndex, FitsI16, GuardFits;
    var n, m := Size(e.yes, true), Size(e.no, true);
    var a2 := at + Size(e.test, true) + 4;
    var c := Gen(x, e.test, s, at, g, pool);
    var t := Gen(x, e.yes, s, a2, g, c.pool);
    var f := Gen(x, e.no, s, a2 + n + 3, g, t.pool);
    var br, jp := BranchTo(JMP_IF_FALSE, s, n + 3), JumpTo(m);
    assert [] + c.code + br + ([] + t.code + jp + f.code + []) + [] == c.code + br + t.code + jp + f.code;
  }

  lemma {:induction false} CondFills(x: World, e: Expr, s: nat, pre: Code, suf: Code, pool: seq<Const>, pad: nat)
    requires e.Cond?
    ensures Fills(x, e, s, pre, suf, pool, pad)
    decreases e, 1
  {
    hide Texts, Gen, GuardsOf, Size, WriteAll, AllFit, Three, Two, Four, BranchTo, JumpTo, LoadName, StoreName,
        GetStatic, SetStatic, GuardCode, Pooled, PoolIndex;
    var at := |pre|;
    CondIs(x, e, s, at, Hole, pool); CondIs(x, e, s, at, To(pad), pool);
    var n, m := Size(e.yes, true), Size(e.no, true);
    var a2 := at + Size(e.test, true) + 4;
    var br, jp := BranchTo(JMP_IF_FALSE, s, n + 3), JumpTo(m);
    var h1, t1 := Gen(x, e.test, s, at, Hole, pool), Gen(x, e.test, s, at, To(pad), pool);
    SameOuter(x, e.test, s, at, pool, pad);
    var h2 := Glue([], Gen(x, e.yes, s, a2, Hole, h1.pool), jp,
        Gen(x, e.no, s, a2 + n + 3, Hole, Gen(x, e.yes, s, a2, Hole, h1.pool).pool), []);
    GenFills(x, e.test, s, pre + [], br + h2.code + [] + suf, pool, pad);
    Consecutive(x, e, e.yes, e.no, s, s, pre + [] + t1.code + br, [], jp, [], [] + suf, h1.pool, pad);
    var t2 := Glue([], Gen(x, e.yes, s, a2, To(pad), t1.pool), jp,
        Gen(x, e.no, s, a2 + n + 3, To(pad), Gen(x, e.yes, s, a2, To(pad), t1.pool).pool), []);
    PatchGlue(pre, [], h1, t1, GuardsOf(e.test, at), br, h2, t2, GuardsOf(e.yes, a2) + GuardsOf(e.no, a2 + n + 3), [],
        suf, pad);
  }

  /** The pieces of the code. */
  function AssignShape(x: World, e: Expr, s: nat, at: nat, g: Guard, pool: seq<Const>): Out
    requires e.Assign? && !IsStep(e.target, e.value)
  {
    var v := Gen(x, e.value, s, at, g, pool);
    Wrap([], v, StoreName(NameIndex(x, e.target, v.pool), s), PoolName(x, e.target, v.pool), v.top, true)
  }

  lemma AssignIs(x: World, e: Expr, s: nat, at: nat, g: Guard, pool: seq<Const>)
    requires (e.Assign? && !IsStep(e.target, e.value)) && InChain(g)
    ensures Gen(x, e, s, at, g, pool) == AssignShape(x, e, s, at, g, pool)
    ensures GuardsOf(e, at) == GuardsOf(e.value, at)
  {
    hide Texts, Size, Three, Two, Four, BranchTo, JumpTo, LoadName, StoreName, GetStatic, SetStatic, GuardCode,
        Pooled, PoolIndex, FitsI16, GuardFits;
    var v := Gen(x, e.value, s, at, g, pool);
    assert [] + v.code == v.code;
  }

  lemma {:induction false} AssignFills(x: World, e: Expr, s: nat, pre: Code, suf: Code, pool: seq<Const>, pad: nat)
    requires e.Assign? && !IsStep(e.target, e.value)
    ensures Fills(x, e, s, pre, suf, pool, pad)
    decreases e, 1
  {
    hide Texts, Gen, GuardsOf, Size, WriteAll, AllFit, Three, Two, Four, BranchTo, JumpTo, LoadName, StoreName,
        GetStatic, SetStatic, GuardCode, Pooled, PoolIndex;
    var at := |pre|;
    AssignIs(x, e, s, at, Hole, pool); AssignIs(x, e, s, at, To(pad), pool);
    var h, t := Gen(x, e.value, s, at, Hole, pool), Gen(x, e.value, s, at, To(pad), pool);
    var sv := StoreName(NameIndex(x, e.target, h.pool), s);
    GenFills(x, e.value, s, pre + [], sv + suf, pool, pad);
    PatchWrap(pre, [], h, t, GuardsOf(e.value, at), sv, suf, pad, PoolName(x, e.target, h.pool), h.top, true);
  }

  /** The pieces of the code. */
  function CompoundShape(x: World, e: Expr, s: nat, at: nat, g: Guard, pool: seq<Const>): Out
    requires e.Compound?
  {
    var v := Gen(x, e.value, s + 1, at + 4, g, PoolName(x, e.target, pool));
    Wrap(LoadName(GET_GLOBAL, s, NameIndex(x, e.target, pool)), v,
        Four(e.bop, s, s, s + 1) + StoreName(NameIndex(x, e.target, v.pool), s),
         PoolName(x, e.target, v.pool), v.top, true)
  }

  lemma CompoundIs(x: World, e: Expr, s: nat, at: nat, g: Guard, pool: seq<Const>)
    requires e.Compound? && InChain(g)
    ensures Gen(x, e, s, at, g, pool) == CompoundShape(x, e, s, at, g, pool)
    ensures GuardsOf(e, at) == GuardsOf(e.value, at + 4)
  {
    hide Texts, Size, Three, Two, Four, BranchTo, JumpTo, LoadName, StoreName, GetStatic, SetStatic, GuardCode,
        Pooled, PoolIndex, FitsI16, GuardFits;
    var v := Gen(x, e.value, s + 1, at + 4, g, PoolName(x, e.target, pool));
    var c := LoadName(GET_GLOBAL, s, NameIndex(x, e.target, pool)) + v.code;
    var op, sv := Four(e.bop, s, s, s + 1), StoreName(NameIndex(x, e.target, v.pool), s);
    assert c + (op + sv) == c + op + sv;
  }

  lemma {:induction false} CompoundFills(x: World, e: Expr, s: nat, pre: Code, suf: Code, pool: seq<Const>, pad: nat)
    requires e.Compound?
    ensures Fills(x, e, s, pre, suf, pool, pad)
    decreases e, 1
  {
    hide Texts, Gen, GuardsOf, Size, WriteAll, AllFit, Three, Two, Four, BranchTo, JumpTo, LoadName, StoreName,
        GetStatic, SetStatic, GuardCode, Pooled, PoolIndex;
    var at := |pre|;
    CompoundIs(x, e, s, at, Hole, pool); CompoundIs(x, e, s, at, To(pad), pool);
    var p := PoolName(x, e.target, pool);
    var ld := LoadName(GET_GLOBAL, s, NameIndex(x, e.target, pool));
    var h, t := Gen(x, e.value, s + 1, at + 4, Hole, p), Gen(x, e.value, s + 1, at + 4, To(pad), p);
    var end := Four(e.bop, s, s, s + 1) + StoreName(NameIndex(x, e.target, h.pool), s);
    GenFills(x, e.value, s + 1, pre + ld, end + suf, p, pad);
    PatchWrap(pre, ld, h, t, GuardsOf(e.value, at + 4), end, suf, pad, PoolName(x, e.target, h.pool), h.top, true);
  }

  /** The pieces of the code. */
  function LogicalAssignShape(x: World, e: Expr, s: nat, at: nat, g: Guard, pool: seq<Const>): Out
    requires e.LogicalAssign?
  {
    var v := Gen(x, e.value, s, at + 8, g, PoolName(x, e.target, pool));
    Wrap(LoadName(GET_GLOBAL, s, NameIndex(x, e.target, pool)) + BranchTo(e.skip, s, Size(e.value, true) + 4), v,
         StoreName(NameIndex(x, e.target, v.pool), s), PoolName(x, e.target, v.pool), v.top,
             FitsI16(Size(e.value, true) + 4))
  }

  lemma LogicalAssignIs(x: World, e: Expr, s: nat, at: nat, g: Guard, pool: seq<Const>)
    requires e.LogicalAssign? && InChain(g)
    ensures Gen(x, e, s, at, g, pool) == LogicalAssignShape(x, e, s, at, g, pool)
    ensures GuardsOf(e, at) == GuardsOf(e.value, at + 8)
  {
    hide Texts, Size, Three, Two, Four, BranchTo, JumpTo, LoadName, StoreName, GetStatic, SetStatic, GuardCode,
        Pooled, PoolIndex, FitsI16, GuardFits;
  }

  lemma {:induction false} LogicalAssignFills(x: World, e: Expr, s: nat, pre: Code, suf: Code, pool: seq<Const>,
                                              pad: nat)
    requires e.LogicalAssign?
    ensures Fills(x, e, s, pre, suf, pool, pad)
    decreases e, 1
  {
    hide Texts, Gen, GuardsOf, Size, WriteAll, AllFit, Three, Two, Four, BranchTo, JumpTo, LoadName, StoreName,
        GetStatic, SetStatic, GuardCode, Pooled, PoolIndex;
    var at := |pre|;
    LogicalAssignIs(x, e, s, at, Hole, pool); LogicalAssignIs(x, e, s, at, To(pad), pool);
    var p := PoolName(x, e.target, pool);
    var ld := LoadName(GET_GLOBAL, s, NameIndex(x, e.target, pool)) + BranchTo(e.skip, s, Size(e.value, true) + 4);
    var h, t := Gen(x, e.value, s, at + 8, Hole, p), Gen(x, e.value, s, at + 8, To(pad), p);
    var sv := StoreName(NameIndex(x, e.target, h.pool), s);
    GenFills(x, e.value, s, pre + ld, sv + suf, p, pad);
    PatchWrap(pre, ld, h, t, GuardsOf(e.value, at + 8), sv, suf, pad, PoolName(x, e.target, h.pool), h.top,
        FitsI16(Size(e.value, true) + 4));
  }

  /** A subexpression followed by its optional guard. */
  function Guarded(x: World, o: Expr, optional: bool, s: nat, at: nat, g: Guard, pool: seq<Const>): Out
  {
    var b := Gen(x, o, s, at, g, pool);
    Glue([], b, [], GuardOut(optional, s, at + Size(o, true), g, b.pool), [])
  }

  lemma {:induction false} GuardedFills(x: World, e: Expr, o: Expr, optional: bool, s: nat, pre: Code, suf: Code,
                                        pool: seq<Const>, pad: nat)
    requires o < e
    ensures var at := |pre|;
            Patches(pre, Guarded(x, o, optional, s, at, Hole, pool), Guarded(x, o, optional, s, at, To(pad), pool),
                    GuardsOf(o, at) + GuardAt(optional, at + Size(o, true)), suf, pad)
    ensures Gen(x, o, s, |pre|, Hole, pool).pool == Gen(x, o, s, |pre|, To(pad), pool).pool
    ensures |Guarded(x, o, optional, s, |pre|, To(pad), pool).code| == Size(o, true) + GuardSize(optional, true)
    decreases e, 0
  {
    hide Texts, Gen, GuardsOf, Size, WriteAll, AllFit, GuardCode, GuardFits;
    var at := |pre|;
    var here := at + Size(o, true);
    var h, t := Gen(x, o, s, at, Hole, pool), Gen(x, o, s, at, To(pad), pool);
    SameOuter(x, o, s, at, pool, pad);
    var hg := GuardOut(optional, s, here, Hole, h.pool);
    GenFills(x, o, s, pre + [], [] + hg.code + [] + suf, pool, pad);
    PatchGuard(pre + [] + t.code + [], optional, s, [] + suf, pad, h.pool);
    PatchGlue(pre, [], h, t, GuardsOf(o, at), [], hg, GuardOut(optional, s, here, To(pad), h.pool),
        GuardAt(optional, here), [], suf, pad);
  }

  /** The pieces of the code. */
  function MemberShape(x: World, e: Expr, s: nat, at: nat, g: Guard, pool: seq<Const>): Out
    requires e.Member?
  {
    var o := Gen(x, e.obj, s, at, g, pool);
    var b := Guarded(x, e.obj, e.optional, s, at, g, pool);
    if StaticSize(e.key) then
      Wrap([], b, GetStatic(s, NameIndex(x, KeyName(x, e.key), o.pool)), PoolName(x, KeyName(x, e.key), o.pool),
          o.top, true)
    else
      Glue([], b, [], Gen(x, e.key.e, s + 1, at + Size(e.obj, true) + GuardSize(e.optional, true), g, o.pool),
          Four(GET_PROP_DYN, s, s, s + 1))
  }

  lemma MemberIs(x: World, e: Expr, s: nat, at: nat, g: Guard, pool: seq<Const>)
    requires e.Member? && InChain(g)
    ensures Gen(x, e, s, at, g, pool) == MemberShape(x, e, s, at, g, pool)
    ensures GuardsOf(e, at) == GuardsOf(e.obj, at) + GuardAt(e.optional, at + Size(e.obj, true))
      + (if StaticSize(e.key) then [] else GuardsOf(e.key.e, at + Size(e.obj, true) + GuardSize(e.optional, true)))
  {
    hide Texts, Size, Three, Two, Four, BranchTo, JumpTo, LoadName, StoreName, GetStatic, SetStatic, GuardCode,
        Pooled, PoolIndex, FitsI16, GuardFits;
    var o := Gen(x, e.obj, s, at, g, pool);
    var gc := GuardCode(e.optional, s, at + Size(e.obj, true), g);
    assert [] + ([] + o.code + [] + gc + []) == o.code + gc;
    assert [] + ([] + o.code + [] + gc + []) + [] == o.code + gc;
  }

  lemma {:induction false} MemberFills(x: World, e: Expr, s: nat, pre: Code, suf: Code, pool: seq<Const>, pad: nat)
    requires e.Member?
    ensures Fills(x, e, s, pre, suf, pool, pad)
    decreases e, 1
  {
    hide Texts, Gen, GuardsOf, Size, WriteAll, AllFit, Three, Two, Four, BranchTo, JumpTo, LoadName, StoreName,
        GetStatic, SetStatic, GuardCode, Pooled, PoolIndex;
    var at := |pre|;
    MemberIs(x, e, s, at, Hole, pool); MemberIs(x, e, s, at, To(pad), pool);
    var end := at + Size(e.obj, true) + GuardSize(e.optional, true);
    var o, o' := Gen(x, e.obj, s, at, Hole, pool), Gen(x, e.obj, s, at, To(pad), pool);
    var h, t := Guarded(x, e.obj, e.optional, s, at, Hole, pool), Guarded(x, e.obj, e.optional, s, at, To(pad), pool);
    var gs := GuardsOf(e.obj, at) + GuardAt(e.optional, at + Size(e.obj, true));
    assert pre + [] == pre;
    if StaticSize(e.key) {
      var get := GetStatic(s, NameIndex(x, KeyName(x, e.key), o.pool));
      GuardedFills(x, e, e.obj, e.optional, s, pre, get + suf, pool, pad);
      SameTop(x, e.obj, s, pre, pool, pad);
      PatchWrap(pre, [], h, t, gs, get, suf, pad, PoolName(x, KeyName(x, e.key), o.pool), o.top, true);
      assert gs + [] == gs;
    } else {
      var get := Four(GET_PROP_DYN, s, s, s + 1);
      var hk := Gen(x, e.key.e, s + 1, end, Hole, o.pool);
      GuardedFills(x, e, e.obj, e.optional, s, pre, [] + hk.code + get + suf, pool, pad);
      GenFills(x, e.key.e, s + 1, pre + [] + t.code + [], get + suf, o.pool, pad);
      PatchGlue(pre, [], h, t, gs, [], hk, Gen(x, e.key.e, s + 1, end, To(pad), o.pool), GuardsOf(e.key.e, end), get,
          suf, pad);
    }
  }

  lemma {:induction false} SameTop(x: World, e: Expr, s: nat, pre: Code, pool: seq<Const>, pad: nat)
    ensures Gen(x, e, s, |pre|, Hole, pool).top == Gen(x, e, s, |pre|, To(pad), pool).top
    decreases e, 3
  {
    hide Texts, Gen, GuardsOf, WriteAll;
    GenFills(x, e, s, pre, [], pool, pad);
  }

  /** The pieces of the code. */
  function AssignMemberShape(x: World, e: Expr, s: nat, at: nat, g: Guard, pool: seq<Const>): Out
    requires e.AssignMember?
  {
    var here := at + Size(e.obj, true);
    var o := Gen(x, e.obj, s + 1, at, g, pool);
    if StaticSize(e.key) then
      var p := PoolName(x, KeyName(x, e.key), o.pool);
      Glue([], o, [], Gen(x, e.value, s + 2, here, g, p),
           SetStatic(s + 1, NameIndex(x, KeyName(x, e.key), o.pool), s + 2) + Three(MOVE, s, s + 2))
    else
      var k := Gen(x, e.key.e, s + 2, here, g, o.pool);
      var v := Gen(x, e.value, s + 3, here + Size(e.key.e, true), g, k.pool);
      Glue([], o, [], Glue([], k, [], v, Four(SET_PROP_DYN, s + 1, s + 2, s + 3) + Three(MOVE, s, s + 3)), [])
  }

  lemma AssignMemberUnfolds(x: World, e: Expr, s: nat, at: nat, g: Guard, pool: seq<Const>)
    requires e.AssignMember?
    ensures Gen(x, e, s, at, g, pool) == GenAssignMember(x, e, s, at, g, pool)
    ensures GuardsOf(e, at) == GuardsOf(e.obj, at) +
      (if StaticSize(e.key) then GuardsOf(e.value, at + Size(e.obj, true))
       else GuardsOf(e.key.e, at + Size(e.obj, true)) + GuardsOf(e.value, at + Size(e.obj, true) + Size(e.key.e, true)))
  {
    hide Size, GenAssignMember;
  }

  lemma AssignMemberIs(x: World, e: Expr, s: nat, at: nat, g: Guard, pool: seq<Const>)
    requires e.AssignMember? && InChain(g)
    ensures Gen(x, e, s, at, g, pool) == AssignMemberShape(x, e, s, at, g, pool)
    ensures GuardsOf(e, at) == GuardsOf(e.obj, at) +
      (if StaticSize(e.key) then GuardsOf(e.value, at + Size(e.obj, true))
       else GuardsOf(e.key.e, at + Size(e.obj, true)) + GuardsOf(e.value, at + Size(e.obj, true) + Size(e.key.e, true)))
  {
    hide Texts, Size, Three, Two, Four, BranchTo, JumpTo, LoadName, StoreName, GetStatic, SetStatic, GuardCode,
        Pooled, PoolIndex, FitsI16, GuardFits, Gen, GuardsOf;
    AssignMemberUnfolds(x, e, s, at, g, pool);
    var here := at + Size(e.obj, true);
    var o := Gen(x, e.obj, s + 1, at, g, pool);
    if StaticSize(e.key) {
      var v := Gen(x, e.value, s + 2, here, g, PoolName(x, KeyName(x, e.key), o.pool));
      var a, b := SetStatic(s + 1, NameIndex(x, KeyName(x, e.key), o.pool), s + 2), Three(MOVE, s, s + 2);
      Flat(o.code, v.code, a, b);
    } else {
      var k := Gen(x, e.key.e, s + 2, here, g, o.pool);
      var v := Gen(x, e.value, s + 3, here + Size(e.key.e, true), g, k.pool);
      var a, b := Four(SET_PROP_DYN, s + 1, s + 2, s + 3), Three(MOVE, s, s + 3);
      Flatter(o.code, k.code, v.code, a, b);
    }
  }

  lemma Flat(o: Code, v: Code, a: Code, b: Code)
    ensures [] + o + [] + v + (a + b) == o + v + a + b
  {
  }

  lemma Flatter(o: Code, k: Code, v: Code, a: Code, b: Code)
    ensures [] + o + [] + ([] + k + [] + v + (a + b)) + [] == o + k + v + a + b
  {
    Flat(k, v, a, b);
  }

  lemma {:induction false} AssignMemberFills(x: World, e: Expr, s: nat, pre: Code, suf: Code, pool: seq<Const>,
                                             pad: nat)
    requires e.AssignMember?
    ensures Fills(x, e, s, pre, suf, pool, pad)
    decreases e, 1
  {
    hide Texts, Gen, GuardsOf, Size, WriteAll, AllFit, Three, Two, Four, BranchTo, JumpTo, LoadName, StoreName,
        GetStatic, SetStatic, GuardCode, Pooled, PoolIndex;
    var at := |pre|;
    AssignMemberIs(x, e, s, at, Hole, pool); AssignMemberIs(x, e, s, at, To(pad), pool);
    var here := at + Size(e.obj, true);
    var o, o' := Gen(x, e.obj, s + 1, at, Hole, pool), Gen(x, e.obj, s + 1, at, To(pad), pool);
    SameOuter(x, e.obj, s + 1, at, pool, pad);
    if StaticSize(e.key) {
      var p := PoolName(x, KeyName(x, e.key), o.pool);
      var end := SetStatic(s + 1, NameIndex(x, KeyName(x, e.key), o.pool), s + 2) + Three(MOVE, s, s + 2);
      var hv := Gen(x, e.value, s + 2, here, Hole, p);
      GenFills(x, e.obj, s + 1, pre + [], [] + hv.code + end + suf, pool, pad);
      GenFills(x, e.value, s + 2, pre + [] + o'.code + [], end + suf, p, pad);
      PatchGlue(pre, [], o, o', GuardsOf(e.obj, at), [], hv, Gen(x, e.value, s + 2, here, To(pad), p),
          GuardsOf(e.value, here), end, suf, pad);
    } else {
      var a2 := here + Size(e.key.e, true);
      var end := Four(SET_PROP_DYN, s + 1, s + 2, s + 3) + Three(MOVE, s, s + 3);
      var hk, tk := Gen(x, e.key.e, s + 2, here, Hole, o.pool), Gen(x, e.key.e, s + 2, here, To(pad), o.pool);
      var hr := Glue([], hk, [], Gen(x, e.value, s + 3, a2, Hole, hk.pool), end);
      GenFills(x, e.obj, s + 1, pre + [], [] + hr.code + [] + suf, pool, pad);
      Consecutive(x, e, e.key.e, e.value, s + 2, s + 3, pre + [] + o'.code + [], [], [], end, [] + suf, o.pool, pad);
      var tr := Glue([], tk, [], Gen(x, e.value, s + 3, a2, To(pad), tk.pool), end);
      PatchGlue(pre, [], o, o', GuardsOf(e.obj, at), [], hr, tr, GuardsOf(e.key.e, here) + GuardsOf(e.value, a2), [],
          suf, pad);
    }
  }

  /** The pieces of the code. */
  function SequenceShape(x: World, e: Expr, s: nat, at: nat, g: Guard, pool: seq<Const>): Out
    requires e.Sequence?
  {
    var a := Gen(x, e.first, s, at, g, pool);
    Glue([], a, [], GenRest(x, e.rest, s, at + Size(e.first, true), g, a.pool), [])
  }

  lemma SequenceIs(x: World, e: Expr, s: nat, at: nat, g: Guard, pool: seq<Const>)
    requires e.Sequence? && InChain(g)
    ensures Gen(x, e, s, at, g, pool) == SequenceShape(x, e, s, at, g, pool)
    ensures GuardsOf(e, at) == GuardsOf(e.first, at) + ArgsGuards(e.rest, at + Size(e.first, true))
  {
    hide Texts, Size, Three, Two, Four, BranchTo, JumpTo, LoadName, StoreName, GetStatic, SetStatic, GuardCode,
        Pooled, PoolIndex, FitsI16, GuardFits;
    var a := Gen(x, e.first, s, at, g, pool);
    var r := GenRest(x, e.rest, s, at + Size(e.first, true), g, a.pool);
    assert [] + a.code + [] + r.code + [] == a.code + r.code;
  }

  lemma {:induction false} SequenceFills(x: World, e: Expr, s: nat, pre: Code, suf: Code, pool: seq<Const>, pad: nat)
    requires e.Sequence?
    ensures Fills(x, e, s, pre, suf, pool, pad)
    decreases e, 1
  {
    hide Texts, Gen, GuardsOf, GenRest, ArgsGuards, Size, WriteAll, AllFit, Three, Two, Four, BranchTo, JumpTo,
        LoadName, StoreName, GetStatic, SetStatic, GuardCode, Pooled, PoolIndex;
    var at := |pre|;
    SequenceIs(x, e, s, at, Hole, pool); SequenceIs(x, e, s, at, To(pad), pool);
    var at2 := at + Size(e.first, true);
    var h1, t1 := Gen(x, e.first, s, at, Hole, pool), Gen(x, e.first, s, at, To(pad), pool);
    SameOuter(x, e.first, s, at, pool, pad);
    var h2 := GenRest(x, e.rest, s, at2, Hole, h1.pool);
    GenFills(x, e.first, s, pre + [], [] + h2.code + [] + suf, pool, pad);
    RestFills(x, e.rest, s, pre + [] + t1.code + [], [] + suf, h1.pool, pad);
    PatchGlue(pre, [], h1, t1, GuardsOf(e.first, at), [], h2, GenRest(x, e.rest, s, at2, To(pad), h1.pool),
        ArgsGuards(e.rest, at2), [], suf, pad);
  }

  lemma {:induction false} RestFills(x: World, args: Args, s: nat, pre: Code, suf: Code, pool: seq<Const>, pad: nat)
    ensures var at := |pre|;
            Patches(pre, GenRest(x, args, s, at, Hole, pool), GenRest(x, args, s, at, To(pad), pool),
                ArgsGuards(args, at), suf, pad)
    decreases args, 3
  {
    hide Texts, Gen, GuardsOf, Size, WriteAll, AllFit;
    var at := |pre|;
    match args
    case Nil => NothingToPatch(pre, Out([], pool, s, true), suf, pad);
    case Cons(e, more) =>
      var at2 := at + Size(e, true);
      var h1, t1 := Gen(x, e, s, at, Hole, pool), Gen(x, e, s, at, To(pad), pool);
      SameOuter(x, e, s, at, pool, pad);
      var h2, t2 := GenRest(x, more, s, at2, Hole, h1.pool), GenRest(x, more, s, at2, To(pad), h1.pool);
      GenFills(x, e, s, pre + [], [] + h2.code + [] + suf, pool, pad);
      RestFills(x, more, s, pre + [] + t1.code + [], [] + suf, h1.pool, pad);
      PatchGlue(pre, [], h1, t1, GuardsOf(e, at), [], h2, t2, ArgsGuards(more, at2), [], suf, pad);
      assert [] + h1.code + [] + h2.code + [] == h1.code + h2.code;
      assert [] + t1.code + [] + t2.code + [] == t1.code + t2.code;
  }

  lemma {:induction false} ArgsFills(x: World, args: Args, s: nat, pre: Code, suf: Code, pool: seq<Const>, pad: nat)
    ensures var at := |pre|;
            Patches(pre, GenArgs(x, args, s, at, Hole, pool), GenArgs(x, args, s, at, To(pad), pool),
                ArgsGuards(args, at), suf, pad)
    decreases args, 3
  {
    hide Texts, Gen, GuardsOf, Size, WriteAll, AllFit;
    var at := |pre|;
    match args
    case Nil => NothingToPatch(pre, Out([], pool, s, true), suf, pad);
    case Cons(e, more) =>
      var at2 := at + Size(e, true);
      var h1, t1 := Gen(x, e, s, at, Hole, pool), Gen(x, e, s, at, To(pad), pool);
      SameOuter(x, e, s, at, pool, pad);
      var h2, t2 := GenArgs(x, more, s + 1, at2, Hole, h1.pool), GenArgs(x, more, s + 1, at2, To(pad), h1.pool);
      GenFills(x, e, s, pre + [], [] + h2.code + [] + suf, pool, pad);
      ArgsFills(x, more, s + 1, pre + [] + t1.code + [], [] + suf, h1.pool, pad);
      PatchGlue(pre, [], h1, t1, GuardsOf(e, at), [], h2, t2, ArgsGuards(more, at2), [], suf, pad);
      assert [] + h1.code + [] + h2.code + [] == h1.code + h2.code;
      assert [] + t1.code + [] + t2.code + [] == t1.code + t2.code;
  }

  /** The pieces of the code. */
  function CallShape(x: World, e: Expr, s: nat, at: nat, g: Guard, pool: seq<Const>): Out
    requires e.Call?
  {
    var c := Gen(x, e.callee, s, at, g, pool);
    var b := Guarded(x, e.callee, e.optional, s, at, g, pool);
    var a := GenArgs(x, e.args, s + 1, at + Size(e.callee, true) + GuardSize(e.optional, true), g, c.pool);
    Glue([], b, [], a, Four(CALL, s, Count(e.args), s))
  }

  lemma CallIs(x: World, e: Expr, s: nat, at: nat, g: Guard, pool: seq<Const>)
    requires e.Call? && InChain(g)
    ensures Gen(x, e, s, at, g, pool) == CallShape(x, e, s, at, g, pool)
    ensures GuardsOf(e, at) == GuardsOf(e.callee, at) + GuardAt(e.optional, at + Size(e.callee, true))
      + ArgsGuards(e.args, at + Size(e.callee, true) + GuardSize(e.optional, true))
  {
    hide Texts, Size, Three, Two, Four, BranchTo, JumpTo, LoadName, StoreName, GetStatic, SetStatic, GuardCode,
        Pooled, PoolIndex, FitsI16, GuardFits;
    var c := Gen(x, e.callee, s, at, g, pool);
    var gc := GuardCode(e.optional, s, at + Size(e.callee, true), g);
    assert [] + ([] + c.code + [] + gc + []) + [] == c.code + gc;
  }

  lemma {:induction false} CallFills(x: World, e: Expr, s: nat, pre: Code, suf: Code, pool: seq<Const>, pad: nat)
    requires e.Call?
    ensures Fills(x, e, s, pre, suf, pool, pad)
    decreases e, 1
  {
    hide Texts, Gen, GuardsOf, GenArgs, ArgsGuards, Size, WriteAll, AllFit, Three, Two, Four, BranchTo, JumpTo,
        LoadName, StoreName, GetStatic, SetStatic, GuardCode, Pooled, PoolIndex;
    var at := |pre|;
    CallIs(x, e, s, at, Hole, pool); CallIs(x, e, s, at, To(pad), pool);
    var end := at + Size(e.callee, true) + GuardSize(e.optional, true);
    var c := Gen(x, e.callee, s, at, Hole, pool);
    var h, t := Guarded(x, e.callee, e.optional, s, at, Hole, pool),
        Guarded(x, e.callee, e.optional, s, at, To(pad), pool);
    var gs := GuardsOf(e.callee, at) + GuardAt(e.optional, at + Size(e.callee, true));
    var cl := Four(CALL, s, Count(e.args), s);
    var ha := GenArgs(x, e.args, s + 1, end, Hole, c.pool);
    assert pre + [] == pre;
    GuardedFills(x, e, e.callee, e.optional, s, pre, [] + ha.code + cl + suf, pool, pad);
    ArgsFills(x, e.args, s + 1, pre + [] + t.code + [], cl + suf, c.pool, pad);
    PatchGlue(pre, [], h, t, gs, [], ha, GenArgs(x, e.args, s + 1, end, To(pad), c.pool), ArgsGuards(e.args, end), cl,
        suf, pad);
  }

  predicate Markless(e: Expr)
  {
    e.Num? || e.Str? || e.Bool? || e.NullLit? || e.UndefLit? || e.Ident? || e.TypeofName? || e.Update? || e.Chain?
    || (e.Assign? && IsStep(e.target, e.value))
  }

  /** Expressions that record no guard in the chain around them have the same code with and without
      a known pad. */
  lemma Unguardable(x: World, e: Expr, s: nat, at: nat, pool: seq<Const>, pad: nat)
    requires Markless(e)
    ensures Gen(x, e, s, at, Hole, pool) == Gen(x, e, s, at, To(pad), pool) && GuardsOf(e, at) == []
  {
    hide Size, Literal, StepCode, PostfixCode, Two;
  }

  /** For every expression compiled inside a chain: patching the recorded guards of its code to any
      pad gives the code emitted for that pad, and nothing around it changes. */
  lemma {:induction false} GenFills(x: World, e: Expr, s: nat, pre: Code, suf: Code, pool: seq<Const>, pad: nat)
    ensures Fills(x, e, s, pre, suf, pool, pad)
    decreases e, 2
  {
    hide Texts, Gen, GuardsOf, Size, Patches, IsStep;
    if Markless(e) {
      Unguardable(x, e, s, |pre|, pool, pad);
      NothingToPatch(pre, Gen(x, e, s, |pre|, Hole, pool), suf, pad);
    } else {
      match e
      case Unary(_, _) => UnaryFills(x, e, s, pre, suf, pool, pad);
      case Void(_) => UnaryFills(x, e, s, pre, suf, pool, pad);
      case Binary(_, _, _) => BinaryFills(x, e, s, pre, suf, pool, pad);
      case Logical(_, _, _) => LogicalFills(x, e, s, pre, suf, pool, pad);
      case Cond(_, _, _) => CondFills(x, e, s, pre, suf, pool, pad);
      case Sequence(_, _) => SequenceFills(x, e, s, pre, suf, pool, pad);
      case Assign(_, _) => AssignFills(x, e, s, pre, suf, pool, pad);
      case Compound(_, _, _) => CompoundFills(x, e, s, pre, suf, pool, pad);
      case LogicalAssign(_, _, _) => LogicalAssignFills(x, e, s, pre, suf, pool, pad);
      case Member(_, _, _) => MemberFills(x, e, s, pre, suf, pool, pad);
      case AssignMember(_, _, _) => AssignMemberFills(x, e, s, pre, suf, pool, pad);
      case Call(_, _, _) => CallFills(x, e, s, pre, suf, pool, pad);
      case _ =>
    }
  }

  // ------------------------------------------------------------------ where the guards are

  predicate Inside(gs: seq<nat>, lo: nat, hi: nat)
  {
    forall i | 0 <= i < |gs| :: lo <= gs[i] && gs[i] + 2 <= hi
  }

  lemma InsideBoth(a: seq<nat>, b: seq<nat>, lo: nat, mid: nat, mid2: nat, hi: nat)
    requires Inside(a, lo, mid) && Inside(b, mid2, hi) && lo <= mid <= mid2 <= hi
    ensures Inside(a + b, lo, hi)
  {
  }

  lemma InsideWider(a: seq<nat>, lo: nat, hi: nat, lo2: nat, hi2: nat)
    requires Inside(a, lo, hi) && lo2 <= lo && hi <= hi2
    ensures Inside(a, lo2, hi2)
  {
  }

  /** Every recorded displacement lies within the code of its expression. */
  lemma {:induction false} GuardsInside(e: Expr, at: nat)
    ensures Inside(GuardsOf(e, at), at, at + Size(e, true))
    decreases e, 2
  {
    hide Size, Inside, ArgsSize, ArgsGuards, CondGuards, MemberGuards, AssignMemberGuards, CallGuards;
    SizeIs(e, true);
    var end := at + Size(e, true);
    match e
    case Unary(_, a) => PartInside(e, a, at, at, end);
    case Void(a) => PartInside(e, a, at, at, end);
    case Binary(_, l, r) => PairInside(e, l, r, at, 0, end);
    case Logical(_, l, r) => PairInside(e, l, r, at, 4, end);
    case Cond(_, _, _) => CondInside(e, at);
    case Sequence(a, rest) =>
      GuardsInside(a, at);
      ArgsInside(rest, at + Size(a, true));
      InsideBoth(GuardsOf(a, at), ArgsGuards(rest, at + Size(a, true)), at, at + Size(a, true), at + Size(a, true),
          end);
    case Assign(n, v) =>
      NoneInside(at, end);
      if !IsStep(n, v) { PartInside(e, v, at, at, end); }
    case Compound(_, _, v) => PartInside(e, v, at, at + 4, end);
    case LogicalAssign(_, _, v) => PartInside(e, v, at, at + 8, end);
    case Member(_, _, _) => MemberInside(e, at);
    case AssignMember(_, _, _) => AssignMemberInside(e, at);
    case Call(callee, args, optional) => CallInside(e, at);
    case _ => NoneInside(at, end);
  }

  lemma {:induction false} PartInside(e: Expr, a: Expr, lo: nat, at: nat, hi: nat)
    requires a < e && lo <= at && at + Size(a, true) <= hi
    ensures Inside(GuardsOf(a, at), lo, hi)
    decreases e, 0
  {
    hide Size, GuardsOf;
    GuardsInside(a, at);
  }

  lemma {:induction false} CondInside(e: Expr, at: nat)
    requires e.Cond?
    ensures Inside(CondGuards(e, at), at, at + Size(e, true))
    decreases e, 1
  {
    hide Size, Inside, GuardsOf;
    SizeIs(e, true);
    var a2 := at + Size(e.test, true) + 4;
    var a3 := a2 + Size(e.yes, true) + 3;
    PairInside(e, e.test, e.yes, at, 4, a2 + Size(e.yes, true));
    GuardsInside(e.no, a3);
    InsideBoth(GuardsOf(e.test, at) + GuardsOf(e.yes, a2), GuardsOf(e.no, a3), at, a2 + Size(e.yes, true), a3,
        at + Size(e, true));
  }

  lemma {:induction false} MemberInside(e: Expr, at: nat)
    requires e.Member?
    ensures Inside(MemberGuards(e, at), at, at + Size(e, true))
    decreases e, 1
  {
    hide Size, Inside, GuardsOf;
    SizeIs(e, true);
    var here := at + Size(e.obj, true);
    var go := here + GuardSize(e.optional, true);
    var end := at + Size(e, true);
    BaseInside(e, e.obj, e.optional, at);
    NoneInside(go, end);
    if !StaticSize(e.key) { PartInside(e, e.key.e, go, go, end); }
    InsideBoth(GuardsOf(e.obj, at) + GuardAt(e.optional, here),
        if StaticSize(e.key) then [] else GuardsOf(e.key.e, go), at, go, go, end);
  }

  lemma {:induction false} AssignMemberInside(e: Expr, at: nat)
    requires e.AssignMember?
    ensures Inside(AssignMemberGuards(e, at), at, at + Size(e, true))
    decreases e, 1
  {
    hide Size, Inside, GuardsOf;
    SizeIs(e, true);
    var here := at + Size(e.obj, true);
    var end := at + Size(e, true);
    GuardsInside(e.obj, at);
    if StaticSize(e.key) {
      PartInside(e, e.value, here, here, end);
      InsideBoth(GuardsOf(e.obj, at), GuardsOf(e.value, here), at, here, here, end);
    } else {
      PairInside(e, e.key.e, e.value, here, 0, end);
      InsideBoth(GuardsOf(e.obj, at), GuardsOf(e.key.e, here) + GuardsOf(e.value, here + Size(e.key.e, true)), at,
          here, here, end);
    }
  }

  lemma {:induction false} CallInside(e: Expr, at: nat)
    requires e.Call?
    ensures Inside(CallGuards(e, at), at, at + Size(e, true))
    decreases e, 1
  {
    hide Size, Inside, GuardsOf, ArgsGuards, ArgsSize;
    SizeIs(e, true);
    var here := at + Size(e.callee, true);
    var go := here + GuardSize(e.optional, true);
    var end := at + Size(e, true);
    BaseInside(e, e.callee, e.optional, at);
    ArgsInside(e.args, go);
    InsideWider(ArgsGuards(e.args, go), go, go + ArgsSize(e.args, true), go, end);
    InsideBoth(GuardsOf(e.callee, at) + GuardAt(e.optional, here), ArgsGuards(e.args, go), at, go, go, end);
  }

  lemma NoneInside(lo: nat, hi: nat)
    ensures Inside([], lo, hi)
  {
  }

  lemma {:induction false} PairInside(e: Expr, l: Expr, r: Expr, at: nat, gap: nat, hi: nat)
    requires l < e && r < e && at + Size(l, true) + gap + Size(r, true) <= hi
    ensures Inside(GuardsOf(l, at) + GuardsOf(r, at + Size(l, true) + gap), at, hi)
    decreases e, 0
  {
    hide Size, GuardsOf;
    var at2 := at + Size(l, true) + gap;
    GuardsInside(l, at);
    GuardsInside(r, at2);
    InsideBoth(GuardsOf(l, at), GuardsOf(r, at2), at, at + Size(l, true), at2, at2 + Size(r, true));
  }

  lemma {:induction false} BaseInside(e: Expr, o: Expr, optional: bool, at: nat)
    requires o < e
    ensures Inside(GuardsOf(o, at) + GuardAt(optional, at + Size(o, true)), at,
            at + Size(o, true) + GuardSize(optional, true))
    decreases e, 0
  {
    hide Size, GuardsOf;
    GuardsInside(o, at);
  }

  lemma {:induction false} ArgsInside(args: Args, at: nat)
    ensures Inside(ArgsGuards(args, at), at, at + ArgsSize(args, true))
    decreases args, 3
  {
    hide Size, GuardsOf;
    if args.Cons? {
      var at2 := at + Size(args.head, true);
      GuardsInside(args.head, at);
      ArgsInside(args.tail, at2);
      InsideBoth(GuardsOf(args.head, at), ArgsGuards(args.tail, at2), at, at2, at2, at2 + ArgsSize(args.tail, true));
    }
  }
}
