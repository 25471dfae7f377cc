/** Code said without the emitters. Property keys that are known when the code is compiled: `o.s`, `o["s"]`
    and `o[5]` read and write the same property, in evaluation and in code, and it is the property the source
    spells. Assignments: which ones become an increment. */
module CodeLaws {
  import opened Options
  import opened Bytecode
  import opened Interp
  import opened Emit
  import opened Chunk
  import opened Expr
  import opened Codegen

  /** The key spells `s`: as a name, as a text literal, or as a number literal. */
  ghost predicate Spells(x: World, key: Key, s: string)
  {
    key == Name(s) || key == Computed(Str(s)) || exists bits :: key == Computed(Num(bits)) && s == x.numText(bits)
  }

  /** Reading through such a key asks the base for the property `s`, unless the link is optional and
      leaves its chain. */
  lemma KeyRead(x: World, d: Mode, o: Expr, key: Key, s: string, optional: bool, st: Memo)
    requires Spells(x, key, s)
    ensures Eval(x, d, Member(o, key, optional), st) ==
            match Eval(x, d, o, st)
            case Val(w, st1) =>
              if optional && d.chain && Nullish(w) then Short(st1) else Ask(x, st1, Event(GET_PROP, [w], s))
            case other => other
    ensures Eval(x, d, Member(o, key, optional), st) == Eval(x, d, Member(o, Name(s), optional), st)
  {
    hide Eval, Ask;
    MemberIs(x, d, Member(o, key, optional), st);
    MemberIs(x, d, Member(o, Name(s), optional), st);
  }

  lemma MemberIs(x: World, d: Mode, e: Expr, st: Memo)
    requires e.Member?
    ensures Eval(x, d, e, st) == EvalMember(x, d, e, st)
  {
    hide EvalMember;
  }

  /** Writing through it stores the value under `s`, after base and value, and yields the value. */
  lemma KeyWrite(x: World, d: Mode, o: Expr, key: Key, s: string, v: Expr, st: Memo)
    requires Spells(x, key, s)
    ensures Eval(x, d, AssignMember(o, key, v), st) ==
            match Eval(x, d, o, st)
            case Val(w, st1) => (match Eval(x, d, v, st1)
              case Val(a, st2) => (match Ask(x, st2, Event(SET_PROP, [w, a], s))
                case Val(_, st3) => Val(a, st3)
                case other => other)
              case other => other)
            case other => other
    ensures Eval(x, d, AssignMember(o, key, v), st) == Eval(x, d, AssignMember(o, Name(s), v), st)
  {
    hide Eval, Ask;
    AssignMemberIs(x, d, AssignMember(o, key, v), st);
    AssignMemberIs(x, d, AssignMember(o, Name(s), v), st);
  }

  lemma AssignMemberIs(x: World, d: Mode, e: Expr, st: Memo)
    requires e.AssignMember?
    ensures Eval(x, d, e, st) == EvalAssignMember(x, d, e, st)
  {
    hide EvalAssignMember;
  }

  // ------------------------------------------------------------------ the code

  /** The same code, whichever way the key is spelled. */
  lemma KeyCode(x: World, o: Expr, key: Key, s: string, optional: bool, v: Expr, r: nat, at: nat, g: Guard,
                pool: seq<Const>)
    requires Spells(x, key, s)
    ensures Gen(x, Member(o, key, optional), r, at, g, pool) == Gen(x, Member(o, Name(s), optional), r, at, g, pool)
    ensures Gen(x, AssignMember(o, key, v), r, at, g, pool) == Gen(x, AssignMember(o, Name(s), v), r, at, g, pool)
  {
    hide Gen, GenMember, GenAssignMember, Spells;
    SpelledOut(x, key, s);
    MemberCode(x, Member(o, key, optional), r, at, g, pool);
    MemberCode(x, Member(o, Name(s), optional), r, at, g, pool);
    MemberByName(x, o, key, s, optional, r, at, g, pool);
    AssignMemberCode(x, AssignMember(o, key, v), r, at, g, pool);
    AssignMemberCode(x, AssignMember(o, Name(s), v), r, at, g, pool);
    AssignMemberByName(x, o, key, s, v, r, at, g, pool);
  }

  lemma SpelledOut(x: World, key: Key, s: string)
    requires Spells(x, key, s)
    ensures StaticSize(key) && KeyName(x, key) == s && KeyName(x, Name(s)) == s
  {
  }

  lemma MemberByName(x: World, o: Expr, key: Key, s: string, optional: bool, r: nat, at: nat, g: Guard,
                     pool: seq<Const>)
    requires StaticSize(key) && KeyName(x, key) == KeyName(x, Name(s))
    ensures GenMember(x, Member(o, key, optional), r, at, g, pool)
            == GenMember(x, Member(o, Name(s), optional), r, at, g, pool)
  {
    hide Gen, Size, KeyName, Pooled, PoolIndex, GuardCode, GetStatic;
  }

  lemma AssignMemberByName(x: World, o: Expr, key: Key, s: string, v: Expr, r: nat, at: nat, g: Guard,
                           pool: seq<Const>)
    requires StaticSize(key) && KeyName(x, key) == KeyName(x, Name(s))
    ensures GenAssignMember(x, AssignMember(o, key, v), r, at, g, pool)
            == GenAssignMember(x, AssignMember(o, Name(s), v), r, at, g, pool)
  {
    hide Gen, Size, KeyName, Pooled, PoolIndex, SetStatic, Three;
  }

  lemma MemberCode(x: World, e: Expr, r: nat, at: nat, g: Guard, pool: seq<Const>)
    requires e.Member?
    ensures Gen(x, e, r, at, g, pool) == GenMember(x, e, r, at, g, pool)
  {
    hide GenMember;
  }

  lemma AssignMemberCode(x: World, e: Expr, r: nat, at: nat, g: Guard, pool: seq<Const>)
    requires e.AssignMember?
    ensures Gen(x, e, r, at, g, pool) == GenAssignMember(x, e, r, at, g, pool)
  {
    hide GenAssignMember;
  }

  /** The constant whose index stands at `at` is the name `s`. */
  predicate NamesText(o: Out, at: nat, s: string)
  {
    at + 2 <= |o.code| && (|o.pool| <= 0x1_0000 ==>
      var k := ReadU16(o.code, at); k < |o.pool| && o.pool[k].KStr? && o.pool[k].name == s)
  }

  /** A read ends with a GET_PROP, a write with a SET_PROP and a MOVE, of the property `s`. */
  lemma KeyInCode(x: World, o: Expr, key: Key, s: string, optional: bool, v: Expr, r: nat, at: nat, g: Guard,
                  pool: seq<Const>)
    requires Spells(x, key, s)
    ensures var c := Gen(x, Member(o, key, optional), r, at, g, pool); var n := |c.code|;
            n >= 5 && c.code[n - 5] == GET_PROP && NamesText(c, n - 2, s)
    ensures var c := Gen(x, AssignMember(o, key, v), r, at, g, pool); var n := |c.code|;
            n >= 8 && c.code[n - 8] == SET_PROP && NamesText(c, n - 6, s)
  {
    hide Gen, Pooled, PoolIndex, NamesText, Size;
    KeyCode(x, o, key, s, optional, v, r, at, g, pool);
    ReadTail(x, Member(o, Name(s), optional), s, r, at, g, pool);
    WriteTail(x, AssignMember(o, Name(s), v), s, r, at, g, pool);
  }

  lemma ReadTail(x: World, e: Expr, s: string, r: nat, at: nat, g: Guard, pool: seq<Const>)
    requires e.Member? && e.key == Name(s)
    ensures var c := Gen(x, e, r, at, g, pool); var n := |c.code|;
            n >= 5 && c.code[n - 5] == GET_PROP && NamesText(c, n - 2, s)
  {
    hide Gen, Pooled, PoolIndex, Size, GuardCode, NamesText;
    MemberCode(x, e, r, at, g, pool);
    var o := Gen(x, e.obj, r, at, g, pool);
    var c := Gen(x, e, r, at, g, pool);
    var base := o.code + GuardCode(e.optional, r, at + Size(e.obj, InChain(g)), g);
    var k := PoolIndex(o.pool, StrConst(x, s));
    assert c.code == (base + [GET_PROP as Byte, Reg(r), Reg(r)]) + Enc16(k) + [];
    Index16(c, base + [GET_PROP as Byte, Reg(r), Reg(r)], [], o.pool, StrConst(x, s));
  }

  lemma WriteTail(x: World, e: Expr, s: string, r: nat, at: nat, g: Guard, pool: seq<Const>)
    requires e.AssignMember? && e.key == Name(s)
    ensures var c := Gen(x, e, r, at, g, pool); var n := |c.code|;
            n >= 8 && c.code[n - 8] == SET_PROP && NamesText(c, n - 6, s)
  {
    hide Gen, Pooled, PoolIndex, Size, NamesText;
    AssignMemberCode(x, e, r, at, g, pool);
    var o := Gen(x, e.obj, r + 1, at, g, pool);
    var here := at + Size(e.obj, InChain(g));
    var p := PoolName(x, s, o.pool);
    var v := Gen(x, e.value, r + 2, here, g, p);
    var c := Gen(x, e, r, at, g, pool);
    var k := PoolIndex(o.pool, StrConst(x, s));
    GenFacts(x, e.value, r + 2, here, g, p);
    var pre := o.code + v.code + [SET_PROP as Byte, Reg(r + 1)];
    var suf := [Reg(r + 2)] + Three(MOVE, r, r + 2);
    assert c.code == pre + Enc16(k) + suf;
    Index16(c, pre, suf, o.pool, StrConst(x, s));
  }

  /** An index handed out by the pool, emitted between `pre` and `suf`. */
  lemma Index16(o: Out, pre: Code, suf: Code, pool: seq<Const>, c: Const)
    requires c.KStr? && Pooled(pool, c) <= o.pool && o.code == pre + Enc16(PoolIndex(pool, c)) + suf
    ensures NamesText(o, |pre|, c.name)
  {
    hide Pooled, PoolIndex;
    PoolKeeps(pool, c);
    var k := PoolIndex(pool, c);
    assert o.pool[k] == Pooled(pool, c)[k];
    assert o.code[|pre|] == Lo(k) && o.code[|pre| + 1] == Hi(k);
  }

  // ------------------------------------------------------------------ the increment peephole

  /** The bits of 1.0. */
  const ONE_BITS: nat := 0x3FF0_0000_0000_0000

  /** `n = n + 1` and `n = n - 1`, with the literal 1, load the variable, increment or decrement it in place and
      store it. */
  lemma StepIsShort(x: World, n: string, op: int, s: nat, at: nat, g: Guard, pool: seq<Const>)
    requires op == ADD || op == SUB
    ensures var c := Gen(x, Assign(n, Expr.Binary(op, Ident(n), Num(ONE_BITS))), s, at, g, pool).code;
            && |c| == 11 && c[0] == GET_GLOBAL && c[4] == (if op == ADD then INC else DEC) && c[7] == SET_GLOBAL
            && c[1] == c[5] == c[6] == c[10] == Reg(s)
  {
    hide Pooled, PoolIndex;
  }

  /** Every other assignment evaluates its value and stores it. */
  lemma OthersStore(x: World, n: string, v: Expr, s: nat, at: nat, g: Guard, pool: seq<Const>)
    requires !(v.Binary? && v.bop in {ADD, SUB} && v.l == Ident(n) && v.r == Num(ONE_BITS))
    ensures var o, c := Gen(x, v, s, at, g, pool), Gen(x, Assign(n, v), s, at, g, pool);
            && |c.code| == |o.code| + 4 && o.code <= c.code && c.code[|o.code|] == SET_GLOBAL
            && c.code[|o.code| + 3] == Reg(s)
  {
    hide Gen, Pooled, PoolIndex;
    AssignIs(x, Assign(n, v), s, at, g, pool);
  }

  lemma AssignIs(x: World, e: Expr, s: nat, at: nat, g: Guard, pool: seq<Const>)
    requires e.Assign?
    ensures Gen(x, e, s, at, g, pool) == GenAssign(x, e, s, at, g, pool)
  {
    hide GenAssign;
  }
}
