/** Three bodies carried through gate, translator and machines: `return o.x` and `return f` in the boxed
    lane, `return o` in the integer lane. The premises of the lanes' theorems hold of the first and the
    last; reading a property of undefined, and a function expression that reads its own name, show where
    the boxed lane and the interpreter part. */
module Reading {
  import opened Options
  import opened Bits
  import opened NanBox
  import opened Bytecode
  import opened Interp
  import opened Ir
  import opened Emit
  import opened Native
  import opened Translate
  import opened Blocks
  import opened Analyze
  import opened Gate
  import opened Operators
  import opened Calls
  import Complete
  import BoxedLane
  import IntLane

  /** `return o.x`, `return o`, and `return f` in a function expression named f. */
  datatype Body = ReadProp | Plain | OwnName

  predicate Lane(b: Body) { b != Plain }
  predicate HasRead(b: Body) { b == ReadProp }

  /** The parameter, the variable that is read, and the variables in the order of their slots. */
  function Param(b: Body): string { if b == OwnName then "x" else "o" }
  function Var(b: Body): string { if b == OwnName then "f" else "o" }
  function Vars(b: Body): seq<string> { if b == OwnName then ["x", "f"] else ["o"] }
  function SlotAt(b: Body): Word { if b == OwnName then 1 else 0 }

  /** GET_GLOBAL r0; GET_PROP r0 r0 "x" (in the first); RETURN r0; RETURN_UNDEF. */
  function Bytes(b: Body): Code
  {
    if HasRead(b) then [6, 0, 0, 0, 51, 0, 0, 1, 0, 45, 0, 46] else [6, 0, 0, 0, 45, 0, 46]
  }

  /** Where the RETURN is. */
  function Out(b: Body): nat { if HasRead(b) then 9 else 4 }

  function Reader(b: Body): Function
  {
    Function(Bytes(b), if HasRead(b) then [KStr("o", 8), KStr("x", 16)]
        else [KStr(Var(b), if b == OwnName then 24 else 8)], [Param(b)], 1, 1,
             false, false, false, false, if b == OwnName then Some("f") else None, false, None, {},
             seq(|Bytes(b)|, _ => SiteCache(false, 0)))
  }

  function Stops(b: Body): set<nat> { {0, 4, Out(b), Out(b) + 2} }

  lemma Decoded(b: Body)
    ensures var c := Bytes(b);
            && |c| == Out(b) + 3 && (forall pc | pc in Stops(b) :: Whole(c, pc) && Decodes(c, Lane(b), pc))
                 && !Whole(c, |c|)
            && Fetch(c, 0) == GetName(GET_GLOBAL, 0, 0) && (HasRead(b) ==> Fetch(c, 4) == GetProp(0, 0, 1))
            && Fetch(c, Out(b)) == Return(0) && Fetch(c, Out(b) + 2) == Stop(RETURN_UNDEF)
            && Next(c, 0) == 4 && (HasRead(b) ==> Next(c, 4) == 9) && Next(c, Out(b)) == Out(b) + 2
                 && Next(c, Out(b) + 2) == |c|
            && c[0] == GET_GLOBAL && (HasRead(b) ==> c[4] == GET_PROP) && c[Out(b)] == RETURN
                 && c[Out(b) + 2] == RETURN_UNDEF
  {
    if HasRead(b) { DecodedBoxed(); } else { DecodedInt(); }
  }

  lemma DecodedBoxed()
    ensures var c := Bytes(ReadProp);
            && |c| == 12 && (forall pc | pc in {0, 4, 9, 11} :: Whole(c, pc) && Decodes(c, true, pc)) && !Whole(c, 12)
            && Fetch(c, 0) == GetName(GET_GLOBAL, 0, 0) && Fetch(c, 4) == GetProp(0, 0, 1) && Fetch(c, 9) == Return(0)
                 && Fetch(c, 11) == Stop(RETURN_UNDEF)
            && Next(c, 0) == 4 && Next(c, 4) == 9 && Next(c, 9) == 11 && Next(c, 11) == 12
            && c[0] == GET_GLOBAL && c[4] == GET_PROP && c[9] == RETURN && c[11] == RETURN_UNDEF
  {
  }

  lemma DecodedInt()
    ensures var c := Bytes(Plain);
            && |c| == 7 && (forall pc | pc in {0, 4, 6} :: Whole(c, pc) && Decodes(c, false, pc)) && !Whole(c, 7)
            && Fetch(c, 0) == GetName(GET_GLOBAL, 0, 0) && Fetch(c, 4) == Return(0) && Fetch(c, 6) == Stop(RETURN_UNDEF)
            && Next(c, 0) == 4 && Next(c, 4) == 6 && Next(c, 6) == 7
            && c[0] == GET_GLOBAL && c[4] == RETURN && c[6] == RETURN_UNDEF
  {
  }

  // ------------------------------------------------------------------ the gate

  function SlotsOf(b: Body): seq<int> { if HasRead(b) then [0, -1] else [SlotAt(b)] }
  function SitesOf(b: Body): seq<PropSite> { if HasRead(b) then [PropSite(4, "x")] else [] }

  lemma GateAdmits(b: Body)
    ensures var f := Reader(b);
            Slots(f, Vars(b)) == SlotsOf(b) && Targets(f.code, 0) == []
            && CheckFrom(f, Lane(b), true, SlotsOf(b), 1, [], 0, false, []) == Sites(SitesOf(b))
  {
    hide Fetch, Whole, Next, CheckFrom, Slots;
    var f := Reader(b);
    Decoded(b);
    SlotsAre(b);
    var r, s, t := Out(b), SlotsOf(b), SitesOf(b);
    assert Targets(f.code, r + 2) == [];
    assert Targets(f.code, r) == [];
    assert Targets(f.code, 4) == [];
    CheckOut(b);
    if HasRead(b) { CheckRead(); }
    CheckName(b);
  }

  lemma SlotsAre(b: Body)
    ensures Slots(Reader(b), Vars(b)) == SlotsOf(b)
  {
    if b == OwnName { assert IndexOf(["x", "f"], "f") == 1; }
  }

  lemma CheckOut(b: Body)
    ensures CheckFrom(Reader(b), Lane(b), true, SlotsOf(b), 1, [], Out(b), false, SitesOf(b)) == Sites(SitesOf(b))
  {
    hide Fetch, Whole, Next;
    Decoded(b);
    assert CheckFrom(Reader(b), Lane(b), true, SlotsOf(b), 1, [], Out(b) + 2, true, SitesOf(b)) == Sites(SitesOf(b));
  }

  lemma CheckRead()
    requires CheckFrom(Reader(ReadProp), true, true, [0, -1], 1, [], 9, false, [PropSite(4, "x")])
             == Sites([PropSite(4, "x")])
    ensures CheckFrom(Reader(ReadProp), true, true, [0, -1], 1, [], 4, false, []) == Sites([PropSite(4, "x")])
  {
    Decoded(ReadProp);
    assert [] + [PropSite(4, "x")] == [PropSite(4, "x")];
  }

  lemma CheckName(b: Body)
    requires CheckFrom(Reader(b), Lane(b), true, SlotsOf(b), 1, [], 4, false, []) == Sites(SitesOf(b))
    ensures CheckFrom(Reader(b), Lane(b), true, SlotsOf(b), 1, [], 0, false, []) == Sites(SitesOf(b))
  {
    Decoded(b);
  }

  lemma NamesAre(b: Body)
    ensures var f := Reader(b); Declared(f, 0, AddNames([], f.params, 0)) == Some(f.params)
  {
    hide Fetch, Whole, Next;
    var f, names := Reader(b), [Param(b)];
    Decoded(b);
    assert AddNames([], names, 0) == names by { assert AddNames(names, names, 1) == names; }
    var r := Out(b);
    assert Declared(f, r + 2, names) == Some(names);
    assert Declared(f, r, names) == Some(names);
    assert Declared(f, 4, names) == Some(names);
  }

  lemma CapturesAre(b: Body)
    requires Lane(b)
    ensures Captured(Reader(b), 0, [Param(b)]) == Some(Vars(b))
  {
    hide Fetch, Whole, Next;
    var f, r, names := Reader(b), Out(b), Vars(b);
    Decoded(b);
    assert b == OwnName ==> [Param(b)] + ["f"] == names;
    assert Captured(f, r + 2, names) == Some(names);
    assert Captured(f, r, names) == Some(names);
    assert Captured(f, 4, names) == Some(names);
  }

  // ------------------------------------------------------------------ the translator

  function RegionOf(b: Body): Region { Region(Bytes(b), SlotsOf(b), Lane(b), SitesOf(b)) }

  /** The translator compiles it: every instruction fits. */
  lemma Translates(b: Body)
    ensures Translation(RegionOf(b)).Some?
  {
    hide Translation, Fetch, Whole, Next, Boundary;
    var r := RegionOf(b);
    Decoded(b);
    forall pc: nat | Complete.Starts(r.code, pc) ensures Complete.Fit(r, pc) {
      Boundaries(b, pc);
      if HasRead(b) && pc == 4 { assert r.sites[0].pc == pc; }
    }
    Complete.TranslatesExactly(r);
  }

  lemma Boundaries(b: Body, pc: nat)
    requires Boundary(Bytes(b), 0, pc)
    ensures pc in Stops(b) || pc == |Bytes(b)|
  {
    hide Fetch, Whole, Next;
    Decoded(b);
    var c := Bytes(b);
    assert pc == 0 || Boundary(c, 4, pc);
    assert pc in {0, 4} || Boundary(c, Out(b), pc);
    assert pc in {0, 4, Out(b)} || Boundary(c, Out(b) + 2, pc);
    assert pc in Stops(b) || Boundary(c, |c|, pc);
  }

  // ------------------------------------------------------------------ the premises hold

  /** The gate accepts the function. */
  lemma GateAccepts(b: Body) returns (p: Plan)
    ensures Accepts(Reader(b), Lane(b), p) && p.names == Vars(b) && p.owned == 1 && p.numRegs == 1
            && p.region == RegionOf(b)
    ensures OwnNames(p) == [Param(b)]
  {
    hide Translation, CheckFrom, Declared, Captured, Targets, AddNames;
    var f := Reader(b);
    NamesAre(b);
    if Lane(b) { CapturesAre(b); }
    GateAdmits(b);
    Translates(b);
    p := Plan(RegionOf(b), Translation(RegionOf(b)).value, Pool(f, Lane(b)), Vars(b), 1, 1, 1);
    assert Analysis(f, Lane(b), true) == Accepted(p);
  }

  function BoxedCert(b: Body): BoxedLane.Cert
  {
    var bound: set<string> := {Param(b)};
    var c: BoxedLane.Cert := map[0 := BoxedLane.Facts({}, None, bound), 4 := BoxedLane.Facts({0}, None, bound)];
    if HasRead(b) then c[9 := BoxedLane.Facts({0}, None, bound)] else c
  }

  function IntCert(): IntLane.Cert
  {
    var vars: set<string> := {"o"};
    map[0 := IntLane.Facts({}, {}, vars, vars), 4 := IntLane.Facts({0}, {0}, vars, vars)]
  }

  lemma GivenIs(b: Body)
    ensures BoxedLane.Given(Reader(b)) == BoxedLane.Facts({}, None, {Param(b)})
    ensures b == Plain ==> IntLane.Given(Reader(b), 1) == IntLane.Facts({}, {}, {"o"}, {"o"})
  {
    assert Reader(b).params[0] == Param(b);
    assert Param(b) in (set i | 0 <= i < 1 :: Reader(b).params[i]);
    assert IntLane.Given(Reader(Plain), 1).vars == IntLane.Given(Reader(Plain), 1).bound;
    assert BoxedLane.Given(Reader(b)).bound == {Param(b)};
  }

  lemma Landings(b: Body)
    ensures Whole(Bytes(b), 0) && Succs(Bytes(b), 0) == {4} && Whole(Bytes(b), Out(b)) && Succs(Bytes(b), Out(b)) == {}
    ensures HasRead(b) ==> Whole(Bytes(b), 4) && Succs(Bytes(b), 4) == {9}
  {
    hide Whole, Fetch, Next;
    Decoded(b);
  }

  lemma BoxedCertified(b: Body)
    requires Lane(b)
    ensures BoxedLane.Certified(Reader(b), [Param(b)], BoxedCert(b))
  {
    hide Fetch, Whole, Next, Succs;
    var f, own, cert := Reader(b), [Param(b)], BoxedCert(b);
    Decoded(b);
    Landings(b);
    GivenIs(b);
    assert f.code == Bytes(b) && NameOf(f, 0) == Var(b) && own[0] == Param(b);
    forall pc | pc in cert
      ensures BoxedLane.Typed(f, own, cert[pc], Fetch(f.code, pc))
      ensures forall t: nat | t in Succs(f.code, pc) ::
                t in cert && t < |f.code| && cert[t].Within(BoxedLane.After(f, cert[pc], Fetch(f.code, pc)))
    {
      assert pc in {0, 4, 9};
    }
  }

  lemma IntCertified()
    ensures IntLane.Certified(Reader(Plain), 1, IntCert()) && IntLane.ReturnsNumbers(Reader(Plain), IntCert())
    ensures IntLane.ConstsFit(Reader(Plain))
  {
    hide Fetch, Whole, Next, Succs;
    var f, cert := Reader(Plain), IntCert();
    Decoded(Plain);
    Landings(Plain);
    GivenIs(Plain);
    assert f.code == Bytes(Plain) && NameOf(f, 0) == "o";
    forall pc | pc in cert
      ensures IntLane.Typed(f, cert[pc], Fetch(f.code, pc)) && IntLane.NumReturn(cert[pc], Fetch(f.code, pc))
      ensures forall t: nat | t in Succs(f.code, pc) ::
                t in cert && t < |f.code| && cert[t].Within(IntLane.After(f, cert[pc], Fetch(f.code, pc)))
    {
      assert pc in {0, 4};
    }
  }

  /** The premises of the integer lane's theorem, together, on `return o`. */
  lemma IntPremises() returns (p: Plan, cert: IntLane.Cert)
    ensures Accepts(Reader(Plain), false, p) && IntLane.ConstsFit(Reader(Plain)) && Distinct(Reader(Plain).params)
    ensures IntLane.Unfixed(Reader(Plain), p)
    ensures IntLane.Certified(Reader(Plain), 1, cert) && IntLane.ReturnsNumbers(Reader(Plain), cert)
  {
    IntCertified();
    p := GateAccepts(Plain);
    cert := IntCert();
  }

  lemma Public(b: Body)
    requires Lane(b)
    ensures BoxedLane.NoPrivate(Reader(b))
  {
    hide Fetch, Whole, Next, Boundary;
    var f := Reader(b);
    Decoded(b);
    assert f.code == Bytes(b) && (HasRead(b) ==> NameOf(f, 1) == "x");
    forall pc: nat | Boundary(f.code, 0, pc) && Whole(f.code, pc)
      ensures pc in Stops(b)
    {
      Boundaries(b, pc);
    }
  }

  /** The premises of the boxed lane's theorem, together, on `return o.x` and any base that has
      properties. */
  lemma BoxedPremises(host: Host, outer: Env, o: Word) returns (p: Plan, cert: BoxedLane.Cert)
    requires !Nullish(o)
    ensures var f := Reader(ReadProp);
            && Accepts(f, true, p) && Distinct(f.params) && BoxedLane.Certified(f, OwnNames(p), cert)
            && BoxedLane.Clear(f, p) && BoxedLane.NoLeak(f) && BoxedLane.NoPrivate(f)
            && BoxedLane.SafeRun(f, host, outer, Enter(f, host, [o]))
  {
    hide Accepts, BoxedLane.Certified, BoxedLane.SafeRun, BoxedLane.NoPrivate, Enter;
    BoxedCertified(ReadProp);
    p := GateAccepts(ReadProp);
    cert := BoxedCert(ReadProp);
    ReadIsSafe(host, outer, o);
    Public(ReadProp);
    assert CallNames(Reader(ReadProp)) == {NEW_TARGET};
  }

  // ------------------------------------------------------------------ interpretation

  /** The frame of a call with one argument. */
  function EnvOf(b: Body, host: Host, w: Word): Env
  {
    var env: Env := map[NEW_TARGET := UNDEFINED, Param(b) := w];
    if b == OwnName then env["f" := host.callObject(Itself, [w])] else env
  }

  lemma Entering(b: Body, host: Host, w: Word)
    ensures Enter(Reader(b), host, [w])
            == State(0, [w], EnvOf(b, host, w), [], Kept, false, if b == OwnName then Some("f") else None)
  {
    var f, s := Reader(b), Enter(Reader(b), host, [w]);
    assert Bind(f.params, [w], 0) == map[];
    assert Bind(f.params, [w], 1) == map[Param(b) := w];
    assert s.env == EnvOf(b, host, w);
    assert s.regs == [w];
  }

  /** The interpretation of `return o.x`: read the variable, read the property, return. */
  lemma Interpreted(host: Host, outer: Env, o: Word)
    ensures var f := Reader(ReadProp); var s := Enter(f, host, [o]);
            Step(f, host, outer, s) == Running(s.(pc := 4, regs := [o]))
    ensures var f := Reader(ReadProp); var s := Enter(f, host, [o]).(pc := 4, regs := [o]);
            Step(f, host, outer, s) == Perform(host, s, 9, Event(GET_PROP, [o], "x"), 0)
    ensures forall s: State | s.pc == 9 :: Step(Reader(ReadProp), host, outer, s).Returned?
  {
    hide Fetch, Whole, Next, Perform, PerformStore, Enter, NumBinary, NumUnary, Computes, Coerce, WordTruthy;
    Decoded(ReadProp);
    Entering(ReadProp, host, o);
    var f := Reader(ReadProp);
    assert f.code == Bytes(ReadProp) && NameOf(f, 0) == "o" && NameOf(f, 1) == "x";
  }

  lemma ReadIsSafe(host: Host, outer: Env, o: Word)
    requires !Nullish(o)
    ensures BoxedLane.SafeRun(Reader(ReadProp), host, outer, Enter(Reader(ReadProp), host, [o]))
  {
    hide Step, Enter, Operate, Fetch, Whole;
    var f := Reader(ReadProp);
    var s := Enter(f, host, [o]);
    var s1 := s.(pc := 4, regs := [o]);
    Decoded(ReadProp);
    Entering(ReadProp, host, o);
    Interpreted(host, outer, o);
    var p := Perform(host, s1, 9, Event(GET_PROP, [o], "x"), 0);
    forall n: nat ensures Run(f, host, outer, s, n).Running? ==>
        BoxedLane.SafeAt(f, host, Run(f, host, outer, s, n).state) {
      if n == 0 { assert Run(f, host, outer, s, 0) == Running(s); }
      else if n == 1 { assert Run(f, host, outer, s, 1) == Run(f, host, outer, s1, 0) == Running(s1); }
      else {
        assert Run(f, host, outer, s, n) == Run(f, host, outer, s1, n - 1);
        assert Run(f, host, outer, s1, n - 1) == if p.Running? then Run(f, host, outer, p.state, n - 2) else p;
      }
    }
  }

  // ------------------------------------------------------------------ reading a property of undefined

  /** Where the lanes part: on undefined or null, the accepted function's native code returns undefined
      and interpretation throws a TypeError. */
  lemma UndefinedReads(host: Host, outer: Env, o: Word) returns (p: Plan)
    requires Nullish(o)
    ensures Accepts(Reader(ReadProp), true, p) && p.owned <= |p.names|
    ensures CallsTo(Reader(ReadProp), host, outer, p, [o], Outcome.Returned(UNDEFINED, []))
    ensures forall out :: Ends(Reader(ReadProp), host, outer, Enter(Reader(ReadProp), host, [o]), out)
                          <==> out == Outcome.Threw(host.typeError(NullishBase(Event(GET_PROP, [o], "x"))), [])
  {
    hide Accepts, Ends, Blocks.Returns;
    p := GateAccepts(ReadProp);
    ReadThrows(host, outer, o);
    var m := NativeReads(p, host, outer, o);
    assert p.names[p.owned..] == [];
    assert Finishes(Reader(ReadProp), host, outer, p, [o], 0, m, Outcome.Returned(UNDEFINED, []));
  }

  lemma ReadThrows(host: Host, outer: Env, o: Word)
    requires Nullish(o)
    ensures forall out :: Ends(Reader(ReadProp), host, outer, Enter(Reader(ReadProp), host, [o]), out)
                          <==> out == Outcome.Threw(host.typeError(NullishBase(Event(GET_PROP, [o], "x"))), [])
  {
    hide Step, Enter, Raw;
    var f := Reader(ReadProp);
    var s := Enter(f, host, [o]);
    var s1 := s.(pc := 4, regs := [o]);
    Entering(ReadProp, host, o);
    Interpreted(host, outer, o);
    var want := Outcome.Threw(host.typeError(NullishBase(Event(GET_PROP, [o], "x"))), []);
    assert Step(f, host, outer, s1) == want;
    assert Run(f, host, outer, s1, 1) == want;
    assert Run(f, host, outer, s, 2) == want;
    assert Ends(f, host, outer, s, want);
    forall out | Ends(f, host, outer, s, out) ensures out == want { IntLane.OneEnd(f, host, outer, s, out, want); }
  }

  /** The plan the gate makes. */
  ghost predicate PlanOf(b: Body, p: Plan)
  {
    && Accepts(Reader(b), Lane(b), p) && p.names == Vars(b) && p.owned == 1 && p.numRegs == 1
    && p.region == RegionOf(b)
  }

  lemma NativeReads(p: Plan, host: Host, outer: Env, o: Word) returns (m: Mem)
    requires PlanOf(ReadProp, p) && Nullish(o)
    ensures m.flag == 0 && m.trace == [] && Blocks.Returns(p.native, RtFor(p, host), StartMem(p, [o], outer), 0, m)
  {
    hide Accepts, NRun, StartMem, NStep;
    BoxedLane.PlanFacts(Reader(ReadProp), p);
    var x, rt, m0 := PlanCtx(p), RtFor(p, host), StartMem(p, [o], outer);
    StartsWith(ReadProp, p, outer, o);
    m := FlatRun(x, rt, m0, o);
    TranslationRefines(p.region, rt, m0);
    assert Leaves(x, rt, m0, 0, m);
  }

  lemma StartsWith(b: Body, p: Plan, outer: Env, o: Word)
    requires Lane(b) && PlanOf(b, p) && (b == OwnName ==> "f" in outer)
    ensures var m := StartMem(p, [o], outer);
            m.regs == [0] && m.flag == 0 && m.trace == [] && m.locals == if b == OwnName then [o, outer["f"]] else [o]
  {
    hide Accepts;
    assert StartMem(p, [o], outer).locals[0] == o;
  }

  lemma FlatRun(x: Ctx, rt: Rt, m0: Mem, o: Word) returns (m: Mem)
    requires x.code == Bytes(ReadProp) && x.boxed && x.slots == Slots(Reader(ReadProp), ["o"])
    requires x.sites == SitesOf(ReadProp) && rt.vm && Nullish(o)
    requires m0.regs == [0] && m0.locals == [o] && m0.flag == 0 && m0.trace == []
    ensures m.flag == 0 && m.trace == [] && NRun(x, rt, 0, m0, 3) == Leave(0, m)
    ensures forall k: nat :: !NRun(x, rt, 0, m0, k).Bad?
  {
    hide Fetch, Whole, Next;
    Decoded(ReadProp);
    SlotsAre(ReadProp);
    m := m0.(regs := [UNDEFINED]);
    var m1 := m0.(regs := [o]);
    assert NStep(x, rt, 0, m0) == Go(4, m1);
    assert NStep(x, rt, 4, m1) == Go(9, m);
    assert NStep(x, rt, 9, m) == Leave(0, m);
    assert NRun(x, rt, 9, m, 1) == Leave(0, m);
    assert NRun(x, rt, 4, m1, 2) == Leave(0, m);
    forall k: nat ensures !NRun(x, rt, 0, m0, k).Bad? {
      if k > 0 { assert NRun(x, rt, 0, m0, k) == NRun(x, rt, 4, m1, k - 1); }
      if k > 1 { assert NRun(x, rt, 4, m1, k - 1) == NRun(x, rt, 9, m, k - 2); }
    }
  }

  // ------------------------------------------------------------------ a function that reads its own name

  /** Where they part a second time: `function (x) { return f; }`, named f by the call. Every premise but
      `Clear` holds; interpretation returns the function, its native code returns whatever `f` is outside. */
  lemma OwnNameReads(host: Host, outer: Env, w: Word) returns (p: Plan, cert: BoxedLane.Cert)
    requires "f" in outer
    ensures var f := Reader(OwnName);
            && Accepts(f, true, p) && p.owned <= |p.names| && BoxedLane.Certified(f, OwnNames(p), cert)
            && BoxedLane.NoLeak(f) && BoxedLane.NoPrivate(f)
            && BoxedLane.SafeRun(f, host, outer, Enter(f, host, [w])) && !BoxedLane.Clear(f, p)
    ensures CallsTo(Reader(OwnName), host, outer, p, [w], Outcome.Returned(outer["f"], []))
    ensures forall out :: Ends(Reader(OwnName), host, outer, Enter(Reader(OwnName), host, [w]), out)
                          <==> out == Outcome.Returned(host.callObject(Itself, [w]), [])
  {
    hide Accepts, Ends, Blocks.Returns, BoxedLane.Certified, BoxedLane.SafeRun, BoxedLane.NoPrivate, Enter;
    BoxedCertified(OwnName);
    p := GateAccepts(OwnName);
    cert := BoxedCert(OwnName);
    OwnNameRuns(host, outer, w);
    Public(OwnName);
    var m := NativeOwnName(p, host, outer, w);
    assert p.names[p.owned..] == ["f"];
    assert Finishes(Reader(OwnName), host, outer, p, [w], outer["f"], m, Outcome.Returned(outer["f"], []));
    assert "f" in CallNames(Reader(OwnName)) && p.names[1] == "f";
  }

  lemma OwnNameRuns(host: Host, outer: Env, w: Word)
    ensures var f := Reader(OwnName); var s := Enter(f, host, [w]);
            && BoxedLane.SafeRun(f, host, outer, s)
            && forall out :: Ends(f, host, outer, s, out) <==> out == Outcome.Returned(host.callObject(Itself, [w]), [])
  {
    hide Step, Enter, Fetch, Whole;
    var f, v := Reader(OwnName), host.callObject(Itself, [w]);
    var s := Enter(f, host, [w]);
    var s1, want := s.(pc := 4, regs := [v]), Outcome.Returned(v, []);
    Decoded(OwnName);
    OwnNameSteps(host, outer, w);
    assert Run(f, host, outer, s1, 1) == want;
    assert Run(f, host, outer, s, 2) == want;
    assert Ends(f, host, outer, s, want);
    forall out | Ends(f, host, outer, s, out) ensures out == want { IntLane.OneEnd(f, host, outer, s, out, want); }
    forall n: nat ensures Run(f, host, outer, s, n).Running? ==>
        BoxedLane.SafeAt(f, host, Run(f, host, outer, s, n).state) {
      if n == 0 { assert Run(f, host, outer, s, 0) == Running(s); }
      else if n == 1 { assert Run(f, host, outer, s, 1) == Run(f, host, outer, s1, 0) == Running(s1); }
      else { RunLonger(f, host, outer, s, 2, n); }
    }
  }

  lemma OwnNameSteps(host: Host, outer: Env, w: Word)
    ensures var f, v := Reader(OwnName), host.callObject(Itself, [w]);
            var s := Enter(f, host, [w]);
            && s.pc == 0 && Step(f, host, outer, s) == Running(s.(pc := 4, regs := [v]))
            && Step(f, host, outer, s.(pc := 4, regs := [v])) == Outcome.Returned(v, [])
  {
    hide Fetch, Whole, Next, Enter;
    Decoded(OwnName);
    Entering(OwnName, host, w);
    assert Reader(OwnName).code == Bytes(OwnName) && NameOf(Reader(OwnName), 0) == "f";
  }

  lemma NativeOwnName(p: Plan, host: Host, outer: Env, w: Word) returns (m: Mem)
    requires PlanOf(OwnName, p) && "f" in outer
    ensures m.flag == 0 && m.trace == []
    ensures Blocks.Returns(p.native, RtFor(p, host), StartMem(p, [w], outer), outer["f"], m)
  {
    hide Accepts, NRun, StartMem, NStep;
    BoxedLane.PlanFacts(Reader(OwnName), p);
    var x, rt, m0 := PlanCtx(p), RtFor(p, host), StartMem(p, [w], outer);
    StartsWith(OwnName, p, outer, w);
    m := OwnNameFlat(x, rt, m0, outer["f"]);
    TranslationRefines(p.region, rt, m0);
    assert Leaves(x, rt, m0, outer["f"], m);
  }

  lemma OwnNameFlat(x: Ctx, rt: Rt, m0: Mem, v: Word) returns (m: Mem)
    requires x.code == Bytes(OwnName) && x.boxed && x.slots == Slots(Reader(OwnName), ["x", "f"])
    requires m0.regs == [0] && |m0.locals| == 2 && m0.locals[1] == v && m0.flag == 0 && m0.trace == []
    ensures m.flag == 0 && m.trace == [] && NRun(x, rt, 0, m0, 2) == Leave(v, m)
    ensures forall k: nat :: !NRun(x, rt, 0, m0, k).Bad?
  {
    hide Fetch, Whole, Next;
    Decoded(OwnName);
    SlotsAre(OwnName);
    m := m0.(regs := [v]);
    assert NStep(x, rt, 0, m0) == Go(4, m);
    assert NStep(x, rt, 4, m) == Leave(v, m);
    assert NRun(x, rt, 4, m, 1) == Leave(v, m);
    forall k: nat ensures !NRun(x, rt, 0, m0, k).Bad? {
      if k > 0 { assert NRun(x, rt, 0, m0, k) == NRun(x, rt, 4, m, k - 1); }
    }
  }
}
