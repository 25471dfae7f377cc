/** A function the gate lets into the int lane although it returns a comparison result: the body
    `return (a < a) && a`. The premise `ReturnsNumbers` of `IntLaneCorrect` is needed. */
module Escape {
  import opened Options
  import opened Bits
  import opened Float64
  import opened NanBox
  import opened Bytecode
  import opened Interp
  import opened Ir
  import opened Emit
  import opened Native
  import opened Translate
  import opened Blocks
  import opened Analyze
  import opened Gate
  import opened Operators
  import opened Calls
  import opened IntLane
  import Complete

  /** GET_GLOBAL r0; GET_GLOBAL r1; LT r0 r0 r1; JMP_IF_FALSE r0 +4; GET_GLOBAL r0; RETURN r0; RETURN_UNDEF. */
  function Bytes(): Code
  {
    [6, 0, 0, 0, 6, 1, 0, 0, 30, 0, 0, 1, 38, 0, 4, 0, 6, 0, 0, 0, 45, 0, 46]
  }

  function Escaping(): Function
  {
    Function(Bytes(), [KStr("a", 8)], ["a"], 2, 1, false, false, false, false, None, false, None, {},
             seq(23, _ => SiteCache(false, 0)))
  }

  lemma Decoded()
    ensures var c := Bytes(); |c| == 23 && (forall pc | pc in {0, 4, 8, 12, 16, 20, 22} :: Whole(c, pc))
    ensures var c := Bytes();
            && Fetch(c, 0) == GetName(GET_GLOBAL, 0, 0) && Fetch(c, 4) == GetName(GET_GLOBAL, 1, 0)
            && Fetch(c, 8) == Binary(LT, 0, 0, 1) && Fetch(c, 12) == Branch(JMP_IF_FALSE, 0, 4)
            && Fetch(c, 16) == GetName(GET_GLOBAL, 0, 0) && Fetch(c, 20) == Return(0)
    ensures var c := Bytes();
            Next(c, 0) == 4 && Next(c, 4) == 8 && Next(c, 8) == 12 && Next(c, 12) == 16 && Next(c, 16) == 20
            && Next(c, 20) == 22
  {
  }

  /** The opcode pass admits every instruction. */
  lemma GateAdmits()
    ensures var f := Escaping();
            CheckFrom(f, false, false, Slots(f, ["a"]), 1, Targets(f.code, 0), 0, false, []) == Sites([])
  {
    hide Targets, CheckFrom;
    var f, t := Escaping(), [20];
    var slots := Slots(f, ["a"]);
    TargetsAre();
    assert slots == [0];
    CheckTail(f, slots, t);
    CheckHead(f, slots, t);
  }

  lemma CheckHead(f: Function, slots: seq<int>, t: seq<int>)
    requires f == Escaping() && slots == [0] && t == [20]
    requires CheckFrom(f, false, false, slots, 1, t, 12, false, []) == Sites([])
    ensures CheckFrom(f, false, false, slots, 1, t, 0, false, []) == Sites([])
  {
    Decoded();
    assert FeedsJump(f.code, 8);
    assert CheckFrom(f, false, false, slots, 1, t, 8, false, []) == Sites([]);
    assert CheckFrom(f, false, false, slots, 1, t, 4, false, []) == Sites([]);
  }

  lemma TargetsAre()
    ensures Targets(Bytes(), 0) == [20]
  {
    hide Fetch, Whole, Next;
    var c := Bytes();
    Decoded();
    LastIs();
    assert Targets(c, 22) == [];
    assert Targets(c, 20) == [];
    assert Targets(c, 12) == [20];
    assert Targets(c, 4) == [20];
  }

  lemma CheckTail(f: Function, slots: seq<int>, t: seq<int>)
    requires f == Escaping() && slots == [0] && t == [20]
    ensures CheckFrom(f, false, false, slots, 1, t, 12, false, []) == Sites([])
  {
    Decoded();
    assert CheckFrom(f, false, false, slots, 1, t, 22, true, []) == Sites([]);
    assert CheckFrom(f, false, false, slots, 1, t, 20, false, []) == Sites([]);
    assert CheckFrom(f, false, false, slots, 1, t, 16, false, []) == Sites([]);
  }

  /** What is known along the way: both operands are numbers, then r0 is a truth value, and where
      the two paths meet r0 may be either. */
  function Known(): Cert
  {
    var a: set<string> := {"a"};
    map[0 := Facts({}, {}, a, a), 4 := Facts({0}, {0}, a, a), 8 := Facts({0, 1}, {0, 1}, a, a),
        12 := Facts({1}, {0, 1}, a, a), 16 := Facts({1}, {0, 1}, a, a), 20 := Facts({1}, {0, 1}, a, a)]
  }

  lemma KnownHolds()
    ensures Certified(Escaping(), 1, Known())
  {
    hide Fetch, Whole, Next, Typed, After, Succs, Given;
    Decoded();
    GivenIs();
    forall pc | pc in Known() ensures KnownAt(pc) {
      assert pc in {0, 4, 8, 12, 16, 20};
      KnownStep(pc);
    }
  }

  ghost predicate KnownAt(pc: nat)
  {
    var f, cert := Escaping(), Known();
    pc in cert && Whole(f.code, pc) ==>
      && Typed(f, cert[pc], Fetch(f.code, pc))
      && forall t: nat | t in Succs(f.code, pc) ::
           t in cert && t < |f.code| && cert[t].Within(After(f, cert[pc], Fetch(f.code, pc)))
  }

  lemma KnownStep(pc: nat)
    requires pc in {0, 4, 8, 12, 16, 20}
    ensures KnownAt(pc)
  {
    hide Fetch, Whole, Next, Succs;
    Decoded();
    Landings();
  }

  lemma GivenIs()
    ensures Given(Escaping(), 1) == Facts({}, {}, {"a"}, {"a"})
  {
    var f := Escaping();
    assert f.params[0] == "a";
    assert Given(f, 1).bound == {"a"} by {
      assert "a" in (set i | 0 <= i < 1 :: f.params[i]);
    }
    assert Given(f, 1).vars == {"a"};
  }

  /** Where each instruction may go. */
  lemma Landings()
    ensures var c := Bytes();
            Whole(c, 0) && Whole(c, 4) && Whole(c, 8) && Whole(c, 12) && Whole(c, 16) && Whole(c, 20) &&
            Succs(c, 0) == {4} && Succs(c, 4) == {8} && Succs(c, 8) == {12} && Succs(c, 12) == {16, 20}
            && Succs(c, 16) == {20} && Succs(c, 20) == {}
  {
    hide Whole, Fetch, Next;
    Decoded();
  }

  /** The states the interpreter goes through: at the second load, the comparison, the jump. */
  function Before(s0: State, pc: nat, w: Word): State
  {
    s0.(pc := pc, regs := if pc == 4 then [w, UNDEFINED] else if pc == 8 then [w, w] else [FALSE, w])
  }

  /** The two loads. */
  lemma LoadSteps(host: Host, outer: Env, s0: State, w: Word)
    requires s0.pc == 0 && s0.regs == [w, UNDEFINED] && "a" in s0.env && s0.env["a"] == w
    ensures Step(Escaping(), host, outer, s0) == Running(Before(s0, 4, w))
    ensures Step(Escaping(), host, outer, Before(s0, 4, w)) == Running(Before(s0, 8, w))
  {
    hide Fetch, Whole, Next, NumBinary, NumUnary, Computes, Coerce, Perform, PerformStore, WordTruthy, Bytes, HasNum;
    Decoded();
    assert Escaping().code == Bytes() && NameOf(Escaping(), 0) == "a";
  }

  /** The comparison, the jump over the last load, the return. */
  lemma TestSteps(host: Host, outer: Env, s0: State, w: Word)
    requires IsSmi(w)
    ensures Step(Escaping(), host, outer, Before(s0, 8, w)) == Running(Before(s0, 12, w))
    ensures Step(Escaping(), host, outer, Before(s0, 12, w)) == Running(Before(s0, 20, w))
    ensures Step(Escaping(), host, outer, Before(s0, 20, w)) == Outcome.Returned(FALSE, s0.trace)
  {
    hide Fetch, Whole, Next, NumBinary, NumUnary, Computes, Coerce, Perform, PerformStore, Bytes, IsSmi, HasNum;
    Decoded();
    NotLess(w);
    assert Escaping().code == Bytes();
  }

  /** The interpreter answers false. */
  lemma Interpreted(host: Host, outer: Env, w: Word)
    requires IsSmi(w)
    ensures Ends(Escaping(), host, outer, Enter(Escaping(), host, [w]), Outcome.Returned(FALSE, []))
  {
    hide Step, Enter, Before;
    var f, out := Escaping(), Outcome.Returned(FALSE, []);
    var s0 := Enter(f, host, [w]);
    EnterIs(host, w);
    LoadSteps(host, outer, s0, w);
    TestSteps(host, outer, s0, w);
    assert Run(f, host, outer, Before(s0, 12, w), 2) == out;
    assert Run(f, host, outer, Before(s0, 8, w), 3) == out;
    assert Run(f, host, outer, Before(s0, 4, w), 4) == out;
    assert Run(f, host, outer, s0, 5) == out;
  }

  lemma EnterIs(host: Host, w: Word)
    ensures Enter(Escaping(), host, [w])
            == State(0, [w, UNDEFINED], map[NEW_TARGET := UNDEFINED, "a" := w], [], Kept, false, None)
  {
    var s := Enter(Escaping(), host, [w]);
    assert Bind(["a"], [w], 0) == map[];
    assert Bind(["a"], [w], 1) == map["a" := w];
    assert s.regs == [w, UNDEFINED];
  }

  lemma NotLess(w: Word)
    requires IsSmi(w)
    ensures Computes(LT, w, w) && NumBinary(LT, Coerce(w), Coerce(w)) == FALSE
  {
    SmiSame(w);
    hide NumIs, NumOf;
    CompareAgrees(LT, NumOf(w), NumOf(w), S32(w), S32(w));
  }

  /** Native code answers the number 0 where the interpreter answers false. */
  lemma NativeAnswersZero(p: Plan, host: Host, outer: Env, w: Word)
    requires Accepts(Escaping(), false, p) && IsSmi(w)
    ensures exists m: Mem :: m.flag == 0 && Blocks.Returns(p.native, RtFor(p, host), StartMem(p, [w], outer), 0, m)
    ensures !SameUpToZero(Outcome.Returned(BoxResult(0), []), Outcome.Returned(FALSE, []))
  {
    hide Accepts, Ends, Certified, StartMem, Enter, Blocks.Returns, SameUpToZero, IsNumber, BoxResult, SameNum;
    var f := Escaping();
    BooleansDiffer(FALSE, 0);
    KnownHolds();
    Interpreted(host, outer, w);
    var m := NativeRun(p, host, outer, w);
    IntLaneExact(f, p, host, outer, [w], Known(), 0, m, Outcome.Returned(FALSE, []));
  }

  lemma NativeRun(p: Plan, host: Host, outer: Env, w: Word) returns (m: Mem)
    requires Accepts(Escaping(), false, p) && IsSmi(w)
    ensures m.flag == 0 && Blocks.Returns(p.native, RtFor(p, host), StartMem(p, [w], outer), 0, m)
  {
    hide Accepts, Certified, NRun, StartMem, SlotOf, PlanCtx;
    var f := Escaping();
    var x, rt, m0 := PlanCtx(p), RtFor(p, host), StartMem(p, [w], outer);
    KnownHolds();
    CodeOf(f, false, p);
    SlotIs(p);
    NeverBad(f, p, host, outer, [w], Known());
    TranslationRefines(p.region, rt, m0);
    StartIs(p, outer, w);
    m := FlatRun(x, rt, m0, S32(w));
    assert Leaves(x, rt, m0, 0, m);
  }

  /** The parameter has the first slot. */
  lemma SlotIs(p: Plan)
    requires Accepts(Escaping(), false, p)
    ensures SlotOf(PlanCtx(p).slots, 0) == Some(0) && p.owned == |p.names| > 0
  {
    hide Accepts;
    var f := Escaping();
    CodeOf(f, false, p);
    PlanPool(f, p);
    ParamSlots(f, false, p);
    SlotMeaning(f, p.names, 0);
    assert p.names[0] == p.names[..1][0];
  }

  lemma StartIs(p: Plan, outer: Env, w: Word)
    requires Accepts(Escaping(), false, p) && IsSmi(w) && p.owned == |p.names| > 0
    ensures var m := StartMem(p, [w], outer);
            m.regs == [0, 0] && |m.locals| > 0 && m.locals[0] == S32(w) && m.flag == 0
  {
    hide Accepts;
    PlanRegs(Escaping(), p);
  }

  lemma FlatRun(x: Ctx, rt: Rt, m0: Mem, i: Word) returns (m: Mem)
    requires x.code == Bytes() && !x.boxed && SlotOf(x.slots, 0) == Some(0) && AsWord(i) == i
    requires m0.regs == [0, 0] && |m0.locals| > 0 && m0.locals[0] == i && m0.flag == 0
    ensures m.flag == 0 && NRun(x, rt, 0, m0, 5) == Leave(0, m)
  {
    hide Fetch, Whole, Next, SlotOf, Bytes, WideInt, BitsInt, NotInt;
    Decoded();
    var m1, m2, m3 := m0.(regs := [i, 0]), m0.(regs := [i, i]), m0.(regs := [0, i]);
    assert NStep(x, rt, 0, m0) == Go(4, m1);
    assert NStep(x, rt, 4, m1) == Go(8, m2);
    assert NStep(x, rt, 8, m2) == Go(12, m3);
    assert NStep(x, rt, 12, m3) == Go(20, m3);
    m := m3;
    assert NStep(x, rt, 20, m3) == Leave(0, m);
    assert NRun(x, rt, 20, m3, 1) == Leave(0, m);
    assert NRun(x, rt, 12, m3, 2) == Leave(0, m);
    assert NRun(x, rt, 8, m2, 3) == Leave(0, m);
    assert NRun(x, rt, 4, m1, 4) == Leave(0, m);
  }

  // ------------------------------------------------------------------ the gate's answer is a plan

  lemma LastIs()
    ensures Whole(Bytes(), 22) && Fetch(Bytes(), 22) == Stop(RETURN_UNDEF) && Bytes()[22] == RETURN_UNDEF
    ensures Next(Bytes(), 22) == 23 && !Whole(Bytes(), 23)
  {
  }

  /** The region the gate hands to the translator. */
  function EscapeRegion(): Region { Region(Bytes(), [0], false, []) }

  lemma Boundaries(pc: nat)
    requires Boundary(Bytes(), 0, pc)
    ensures pc in {0, 4, 8, 12, 16, 20, 22, 23}
  {
    hide Fetch, Whole, Next;
    Decoded();
    LastIs();
    var c := Bytes();
    assert pc == 0 || Boundary(c, 4, pc);
    assert pc in {0, 4} || Boundary(c, 8, pc);
    assert pc in {0, 4, 8} || Boundary(c, 12, pc);
    assert pc in {0, 4, 8, 12} || Boundary(c, 16, pc);
    assert pc in {0, 4, 8, 12, 16} || Boundary(c, 20, pc);
    assert pc in {0, 4, 8, 12, 16, 20} || Boundary(c, 22, pc);
    assert pc in {0, 4, 8, 12, 16, 20, 22} || Boundary(c, 23, pc);
  }

  lemma StartsAre()
    ensures forall t | t in {0, 4, 8, 12, 16, 20, 22} :: Complete.Starts(Bytes(), t)
  {
    hide Fetch, Whole, Next;
    Decoded();
    LastIs();
    var c := Bytes();
    BoundaryStep(c, 0, 0); BoundaryStep(c, 0, 4); BoundaryStep(c, 0, 8); BoundaryStep(c, 0, 12);
    BoundaryStep(c, 0, 16); BoundaryStep(c, 0, 20);
  }

  /** The opcodes of the example. */
  lemma OpsAre()
    ensures var c := Bytes();
            c[0] == c[4] == c[16] == GET_GLOBAL && c[8] == LT && c[12] == JMP_IF_FALSE && c[20] == RETURN
    ensures Whole(Bytes(), 12) && Target(Bytes(), 12) == 20
  {
    hide Whole, Next;
    Decoded();
  }

  /** The translator compiles it: every instruction fits. */
  lemma Translates()
    ensures Translation(EscapeRegion()).Some?
  {
    hide Translation, Fetch, Whole, Next, Boundary, Complete.Starts;
    var r := EscapeRegion();
    Decoded();
    LastIs();
    OpsAre();
    StartsAre();
    forall pc: nat | Complete.Starts(r.code, pc) ensures Complete.Fit(r, pc) {
      StartIn(pc);
    }
    Complete.TranslatesExactly(r);
  }

  lemma StartIn(pc: nat)
    requires Complete.Starts(Bytes(), pc)
    ensures pc in {0, 4, 8, 12, 16, 20, 22}
  {
    Boundaries(pc);
  }

  lemma DeclaredIs()
    ensures Declared(Escaping(), 0, AddNames([], ["a"], 0)) == Some(["a"])
  {
    hide Fetch, Whole, Next, AddNames;
    var f, names := Escaping(), ["a"];
    Decoded();
    LastIs();
    NamesAre();
    assert Declared(f, 22, names) == Some(names);
    assert Declared(f, 20, names) == Some(names);
    assert Declared(f, 16, names) == Some(names);
    assert Declared(f, 12, names) == Some(names);
    assert Declared(f, 8, names) == Some(names);
    assert Declared(f, 4, names) == Some(names);
  }

  lemma NamesAre()
    ensures AddNames([], ["a"], 0) == ["a"]
  {
    assert AddNames(["a"], ["a"], 1) == ["a"];
  }

  /** The gate accepts the function. */
  lemma GateAccepts() returns (p: Plan)
    ensures Accepts(Escaping(), false, p)
  {
    hide Translation, CheckFrom, Declared, Targets, AddNames;
    var f := Escaping();
    DeclaredIs();
    GateAdmits();
    Translates();
    assert Slots(f, ["a"]) == [0];
    p := Plan(EscapeRegion(), Translation(EscapeRegion()).value, Pool(f, false), ["a"], 1, 2, 1);
    assert Analysis(f, false, false) == Accepted(p);
  }

  /** The counterexample in full: the gate accepts the function, and on every SMI its native code
      answers the number 0 where interpretation answers false. */
  lemma ComparisonEscapes(host: Host, outer: Env, w: Word) returns (p: Plan)
    requires IsSmi(w)
    ensures Accepts(Escaping(), false, p)
    ensures exists m: Mem :: m.flag == 0 && Blocks.Returns(p.native, RtFor(p, host), StartMem(p, [w], outer), 0, m)
    ensures Ends(Escaping(), host, outer, Enter(Escaping(), host, [w]), Outcome.Returned(FALSE, []))
    ensures !SameUpToZero(Outcome.Returned(BoxResult(0), []), Outcome.Returned(FALSE, []))
  {
    p := GateAccepts();
    NativeAnswersZero(p, host, outer, w);
    Interpreted(host, outer, w);
  }
}
