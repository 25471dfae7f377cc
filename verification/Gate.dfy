/** What the soundness gate guarantees about a function it accepts. */
module Gate {
  import opened Options
  import opened Bits
  import opened Float64
  import opened NanBox
  import opened Bytecode
  import opened Interp
  import opened Ir
  import opened Emit
  import opened Native
  import opened Translate
  import opened Blocks
  import opened Analyze

  predicate Distinct(names: seq<string>)
  {
    forall i, j | 0 <= i < j < |names| :: names[i] != names[j]
  }

  /** The plan's own names, without the captured ones. */
  function OwnNames(p: Plan): seq<string> { if p.owned <= |p.names| then p.names[..p.owned] else p.names }

  lemma {:induction false} AddNamesFacts(names: seq<string>, more: seq<string>, i: nat)
    requires Distinct(names) && i <= |more|
    ensures var r := AddNames(names, more, i);
            Distinct(r) && names <= r && (forall j | i <= j < |more| :: more[j] in r)
    decreases |more| - i
  {
    if i < |more| {
      AddNamesFacts(AddName(names, more[i]), more, i + 1);
      assert more[i] in AddName(names, more[i]);
    }
  }

  /** Distinct new names are appended as they come. */
  lemma {:induction false} AddNamesFresh(names: seq<string>, more: seq<string>, i: nat)
    requires Distinct(more) && i <= |more| && forall j | i <= j < |more| :: more[j] !in names
    ensures AddNames(names, more, i) == names + more[i..]
    decreases |more| - i
  {
    if i < |more| {
      AddNamesFresh(names + [more[i]], more, i + 1);
      assert names + [more[i]] + more[i + 1..] == names + more[i..];
    }
  }

  lemma {:induction false} DeclaredFacts(f: Function, from: nat, names: seq<string>)
    requires Distinct(names) && Declared(f, from, names).Some?
    ensures var r := Declared(f, from, names).value;
            && Distinct(r) && names <= r
            && forall pc: nat :: Boundary(f.code, from, pc) && pc < |f.code| ==>
                 Whole(f.code, pc) && (Declares(f, pc).Some? ==> Declares(f, pc).value in r)
    decreases |f.code| - from
  {
    if from < |f.code| {
      var names' := match Declares(f, from) case None => names case Some(n) => AddName(names, n);
      DeclaredFacts(f, Next(f.code, from), names');
      var r := Declared(f, from, names).value;
      assert Declares(f, from).Some? ==> Declares(f, from).value in names';
      forall pc: nat | Boundary(f.code, from, pc) && pc < |f.code|
        ensures Whole(f.code, pc) && (Declares(f, pc).Some? ==> Declares(f, pc).value in r)
      {
        if pc != from { assert Boundary(f.code, Next(f.code, from), pc); }
      }
    } else {
      forall pc: nat | Boundary(f.code, from, pc) && pc < |f.code| ensures false {
        BoundaryAtLeast(f.code, from, pc);
      }
    }
  }

  lemma {:induction false} CapturedFacts(f: Function, from: nat, names: seq<string>)
    requires Distinct(names) && Captured(f, from, names).Some?
    ensures var r := Captured(f, from, names).value; Distinct(r) && names <= r
    decreases |f.code| - from
  {
    if from < |f.code| {
      if f.code[from] == GET_GLOBAL {
        CapturedFacts(f, Next(f.code, from), AddName(names, f.constants[ReadU16(f.code, from + 2)].name));
      } else {
        CapturedFacts(f, Next(f.code, from), names);
      }
    }
  }

  lemma {:induction false} TargetsHave(code: Code, from: nat, pc: nat)
    requires Boundary(code, from, pc) && Whole(code, pc) && IsJump(code[pc])
    ensures Target(code, pc) in Targets(code, from)
    decreases |code| - from
  {
    if from != pc { TargetsHave(code, Next(code, from), pc); }
  }

  /** Whether the instruction before `pc` never falls through to it. */
  predicate ExitBefore(code: Code, prev: nat)
    requires prev < |code|
  {
    code[prev] == RETURN || code[prev] == JMP
  }

  /** Every instruction passed, the first one with `afterExit` false, every later one knowing
      whether the instruction before it can fall through. */
  lemma {:induction false} Ruled(f: Function, boxed: bool, cold: bool, slots: seq<int>, owned: nat, targets: seq<int>,
                                 from: nat, exit: bool, sites: seq<PropSite>, pc: nat)
    requires CheckFrom(f, boxed, cold, slots, owned, targets, from, exit, sites).Sites?
    requires Boundary(f.code, from, pc) && pc < |f.code|
    ensures Whole(f.code, pc)
    ensures from == pc ==> Rule(f, boxed, cold, slots, owned, targets, pc, exit) !in {Refused, Cold}
    ensures exists e :: Rule(f, boxed, cold, slots, owned, targets, pc, e) !in {Refused, Cold}
    ensures var next := Next(f.code, pc);
            next < |f.code| ==>
              Whole(f.code, next)
              && Rule(f, boxed, cold, slots, owned, targets, next, ExitBefore(f.code, pc)) !in {Refused, Cold}
    decreases |f.code| - from
  {
    hide Rule;
    BoundaryAtLeast(f.code, from, pc);
    var next := Next(f.code, from);
    var exit' := ExitBefore(f.code, from);
    var rule := Rule(f, boxed, cold, slots, owned, targets, from, exit);
    var sites' := if rule.Site? then sites + [PropSite(from, rule.key)] else sites;
    assert CheckFrom(f, boxed, cold, slots, owned, targets, next, exit', sites').Sites?;
    if from != pc {
      Ruled(f, boxed, cold, slots, owned, targets, next, exit', sites', pc);
    } else if next < |f.code| {
      Ruled(f, boxed, cold, slots, owned, targets, next, exit', sites', next);
    }
  }

  /** The sites found so far are behind `pc`. */
  predicate Behind(sites: seq<PropSite>, pc: nat)
  {
    forall i | 0 <= i < |sites| :: sites[i].pc < pc
  }

  lemma {:induction false} SiteAppended(sites: seq<PropSite>, more: seq<PropSite>, pc: nat)
    ensures SiteKey(sites + more, pc)
         == if SiteKey(sites, pc).Some? then SiteKey(sites, pc) else SiteKey(more, pc)
  {
    if |sites| > 0 {
      assert (sites + more)[1..] == sites[1..] + more;
      SiteAppended(sites[1..], more, pc);
    } else {
      assert sites + more == more;
    }
  }

  lemma {:induction false} NotBehind(sites: seq<PropSite>, pc: nat)
    requires Behind(sites, pc)
    ensures SiteKey(sites, pc).None?
  {
    if |sites| > 0 { NotBehind(sites[1..], pc); }
  }

  /** Every accepted property access has its site, with its own key. */
  lemma {:induction false} SitesFound(f: Function, boxed: bool, cold: bool, slots: seq<int>, owned: nat,
                                      targets: seq<int>,
                                      from: nat, exit: bool, sites: seq<PropSite>, pc: nat) returns (e: bool)
    requires CheckFrom(f, boxed, cold, slots, owned, targets, from, exit, sites).Sites? && Behind(sites, from)
    requires Boundary(f.code, from, pc) && pc < |f.code|
    ensures sites <= CheckFrom(f, boxed, cold, slots, owned, targets, from, exit, sites).sites
    ensures Whole(f.code, pc)
    ensures var r := Rule(f, boxed, cold, slots, owned, targets, pc, e);
            && r !in {Refused, Cold}
            && (r.Site? ==>
                 SiteKey(CheckFrom(f, boxed, cold, slots, owned, targets, from, exit, sites).sites, pc) == Some(r.key))
    decreases |f.code| - from
  {
    hide Rule;
    BoundaryAtLeast(f.code, from, pc);
    var all := CheckFrom(f, boxed, cold, slots, owned, targets, from, exit, sites).sites;
    var next := Next(f.code, from);
    var exit' := ExitBefore(f.code, from);
    var rule := Rule(f, boxed, cold, slots, owned, targets, from, exit);
    var sites' := if rule.Site? then sites + [PropSite(from, rule.key)] else sites;
    assert CheckFrom(f, boxed, cold, slots, owned, targets, next, exit', sites') == Sites(all);
    SitesGrow(f, boxed, cold, slots, owned, targets, next, exit', sites');
    if from != pc {
      e := SitesFound(f, boxed, cold, slots, owned, targets, next, exit', sites', pc);
    } else {
      e := exit;
      if rule.Site? {
        NotBehind(sites, from);
        var here := [PropSite(from, rule.key)];
        SiteAppended(sites, here, from);
        assert all == sites' + all[|sites'|..];
        SiteAppended(sites', all[|sites'|..], from);
      }
    }
  }

  lemma {:induction false} SitesGrow(f: Function, boxed: bool, cold: bool, slots: seq<int>, owned: nat,
                                     targets: seq<int>,
                                     from: nat, exit: bool, sites: seq<PropSite>)
    requires CheckFrom(f, boxed, cold, slots, owned, targets, from, exit, sites).Sites?
    ensures sites <= CheckFrom(f, boxed, cold, slots, owned, targets, from, exit, sites).sites
    decreases |f.code| - from
  {
    hide Rule;
    if from < |f.code| {
      var exit' := ExitBefore(f.code, from);
      var rule := Rule(f, boxed, cold, slots, owned, targets, from, exit);
      SitesGrow(f, boxed, cold, slots, owned, targets, Next(f.code, from), exit',
        if rule.Site? then sites + [PropSite(from, rule.key)] else sites);
    }
  }

  // ------------------------------------------------------------------ accepted functions

  ghost predicate Accepts(f: Function, boxed: bool, p: Plan)
  {
    exists cold: bool :: Analysis(f, boxed, cold) == Accepted(p)
  }

  /** The context the plan's region was translated in. */
  function PlanCtx(p: Plan): Ctx
  {
    Context(p.region,
      match Leaders(p.region.code, p.region.boxed, 0, {0}) case None => map[] case Some(l) => BlocksFor(p.region, l))
  }

  /** The name constant `k` of `f` is the name of slot `i`, or it has none. */
  lemma SlotMeaning(f: Function, names: seq<string>, k: nat)
    ensures SlotOf(Slots(f, names), k)
         == if IsString(f, k) && f.constants[k].name in names then Some(IndexOf(names, f.constants[k].name)) else None
    ensures ReadSlot(Slots(f, names), k) >= 0 <==> SlotOf(Slots(f, names), k).Some?
  {
  }

  lemma IndexUnique(names: seq<string>, i: nat)
    requires Distinct(names) && i < |names|
    ensures IndexOf(names, names[i]) == i
  {
  }

  lemma OwnIndex(names: seq<string>, owned: nat, n: string)
    requires Distinct(names) && n in names && owned <= |names|
    ensures n in names[..owned] <==> IndexOf(names, n) < owned
  {
    var i := IndexOf(names, n);
    if i < owned { assert names[..owned][i] == n; }
    if n in names[..owned] {
      var j :| 0 <= j < owned && names[..owned][j] == n;
      assert names[j] == n;
      IndexUnique(names, j);
    }
  }

  /** The parts of an accepted plan. */
  lemma PlanParts(f: Function, boxed: bool, p: Plan) returns (cold: bool)
    requires Accepts(f, boxed, p)
    ensures Analysis(f, boxed, cold) == Accepted(p)
    ensures |f.code| > 0 && p.region == Region(f.code, Slots(f, p.names), boxed, p.region.sites)
    ensures Translation(p.region) == Some(p.native) && p.consts == Pool(f, boxed) && p.numRegs == f.numRegs
    ensures Distinct(p.names) && p.owned <= |p.names|
    ensures CheckFrom(f, boxed, cold, p.region.slots, p.owned, Targets(f.code, 0), 0, false, [])
            == Sites(p.region.sites)
    ensures Declared(f, 0, AddNames([], f.params, 0)) == Some(OwnNames(p))
    ensures !boxed ==> p.owned == |p.names|
  {
    hide CheckFrom, Translation, Slots, Pool;
    cold :| Analysis(f, boxed, cold) == Accepted(p);
    var own := Declared(f, 0, AddNames([], f.params, 0)).value;
    AddNamesFacts([], f.params, 0);
    DeclaredFacts(f, 0, AddNames([], f.params, 0));
    if boxed { CapturedFacts(f, 0, own); }
    assert OwnNames(p) == own;
  }

  /** With distinct parameter names, the parameters have the first slots, in order. */
  lemma ParamSlots(f: Function, boxed: bool, p: Plan)
    requires Accepts(f, boxed, p) && Distinct(f.params)
    ensures |f.params| <= p.owned <= |p.names| && p.names[..|f.params|] == f.params
  {
    hide Accepts, Declared, AddNames, Declares, Boundary, Translation, CheckFrom, Targets, Slots, Pool;
    var cold := PlanParts(f, boxed, p);
    AddNamesFacts([], f.params, 0);
    AddNamesFresh([], f.params, 0);
    DeclaredFacts(f, 0, AddNames([], f.params, 0));
    assert f.params <= OwnNames(p);
  }

  /** A name the function declares is one of its own. */
  lemma DeclaredIsOwn(f: Function, boxed: bool, p: Plan, pc: nat)
    requires Accepts(f, boxed, p) && Boundary(f.code, 0, pc) && pc < |f.code|
    ensures Whole(f.code, pc) && (Declares(f, pc).Some? ==> Declares(f, pc).value in OwnNames(p))
  {
    var cold := PlanParts(f, boxed, p);
    AddNamesFacts([], f.params, 0);
    DeclaredFacts(f, 0, AddNames([], f.params, 0));
  }

  /** The translator only accepts code whose jumps land on instruction starts before its end. */
  lemma TargetLands(r: Region, pc: nat)
    requires Translation(r).Some? && Boundary(r.code, 0, pc) && pc < |r.code|
    ensures Decodes(r.code, r.boxed, pc) && Whole(r.code, pc)
    ensures IsJump(r.code[pc]) ==> 0 <= Target(r.code, pc) < |r.code| && Boundary(r.code, 0, Target(r.code, pc))
    ensures r.code[pc] == JMP_IF_TRUE || r.code[pc] == JMP_IF_FALSE ==> Next(r.code, pc) < |r.code|
  {
    hide EmitFrom, PassAt, Translation, EmitInstr;
    var p := TranslationMade(r);
    var x := CtxOf(r);
    var ir := Translation(r).value.ir;
    PlacedIn(x, p, ir, pc);
    var l := EnterLeader(x, PassAt(x, p, 0, pc).value, pc);
    if IsJump(r.code[pc]) {
      JumpRefers(x, l.b, pc, ir);
      JumpLands(x, p, ir, Target(r.code, pc));
      if r.code[pc] != JMP { JumpLands(x, p, ir, Next(r.code, pc)); }
    }
  }

  lemma JumpRefers(x: Ctx, b: Builder, pc: nat, ir: Ir)
    requires b.Ok() && Whole(x.code, pc) && EmitInstr(x, b, pc).Some? && Within(EmitInstr(x, b, pc).value.b, ir)
    requires IsJump(x.code[pc])
    ensures Target(x.code, pc) in x.blockOf && Refers(ir, x.blockOf[Target(x.code, pc)])
    ensures x.code[pc] != JMP ==> Next(x.code, pc) in x.blockOf && Refers(ir, x.blockOf[Next(x.code, pc)])
  {
    hide EmitUnary, EmitBinary, EmitAccess, ReadI16, ReadU16;
    match Fetch(x.code, pc)
    case Jump(rel) =>
      NamesBlock(ir, b, Br(x.blockOf[Next(x.code, pc) + rel], NoArg), x.blockOf[Next(x.code, pc) + rel]);
    case Branch(op, cond, rel) =>
      BranchNames(x, b, op, cond, Next(x.code, pc) + rel, Next(x.code, pc), ir);
    case _ =>
  }

  // ------------------------------------------------------------------ successors

  /** Where control may go from `pc`. */
  function Succs(code: Code, pc: nat): set<int>
    requires Whole(code, pc)
  {
    match Fetch(code, pc)
    case Jump(_) => {Target(code, pc)}
    case Branch(_, _, _) => {Target(code, pc), Next(code, pc)}
    case Return(_) => {}
    case Stop(_) => {}
    case _ => {Next(code, pc)}
  }

  /** `pc` starts an instruction the analyser passed. */
  predicate Admitted(f: Function, boxed: bool, p: Plan, pc: nat)
  {
    && Whole(f.code, pc) && Boundary(f.code, 0, pc) && Decodes(f.code, boxed, pc)
    && (exists cold, e :: Rule(f, boxed, cold, p.region.slots, p.owned, Targets(f.code, 0), pc, e) !in {Refused, Cold})
  }

  /** Control stays on admitted instructions, and in the int lane never reaches a RETURN_UNDEF. */
  lemma SuccAdmitted(f: Function, boxed: bool, p: Plan, pc: nat, t: int)
    requires Accepts(f, boxed, p) && Boundary(f.code, 0, pc) && pc < |f.code|
    ensures Admitted(f, boxed, p, pc)
    ensures t in Succs(f.code, pc) ==> 0 <= t <= |f.code| && Boundary(f.code, 0, t)
    ensures t in Succs(f.code, pc) && t < |f.code| && !boxed ==> f.code[t] != RETURN_UNDEF
    ensures !boxed ==> f.code[0] != RETURN_UNDEF
  {
    hide Translation, CheckFrom, Rule, Targets, Slots, Pool, Analysis;
    var cold := PlanParts(f, boxed, p);
    var targets := Targets(f.code, 0);
    Ruled(f, boxed, cold, p.region.slots, p.owned, targets, 0, false, [], pc);
    Ruled(f, boxed, cold, p.region.slots, p.owned, targets, 0, false, [], 0);
    TargetLands(p.region, pc);
    BoundaryStep(f.code, 0, pc);
    if IsJump(f.code[pc]) { TargetsHave(f.code, 0, pc); }
    if !boxed {
      DeadUndef(f, cold, p.region.slots, p.owned, targets, 0, false);
      if t in Succs(f.code, pc) && t != |f.code| {
        if t == Next(f.code, pc) && !IsJump(f.code[pc]) {
          DeadUndef(f, cold, p.region.slots, p.owned, targets, t, ExitBefore(f.code, pc));
        } else if t in targets {
          Ruled(f, boxed, cold, p.region.slots, p.owned, targets, 0, false, [], t);
          var e :| Rule(f, boxed, cold, p.region.slots, p.owned, targets, t, e) !in {Refused, Cold};
          DeadUndef(f, cold, p.region.slots, p.owned, targets, t, e);
        } else {
          DeadUndef(f, cold, p.region.slots, p.owned, targets, t, ExitBefore(f.code, pc));
        }
      }
    }
  }

  lemma DeadUndef(f: Function, cold: bool, slots: seq<int>, owned: nat, targets: seq<int>, pc: nat, exit: bool)
    requires Whole(f.code, pc) && Rule(f, false, cold, slots, owned, targets, pc, exit) !in {Refused, Cold}
    ensures f.code[pc] == RETURN_UNDEF ==> pc !in targets && exit
  {
  }

  /** Control only goes to successors. */
  lemma GoesToSucc(x: Ctx, rt: Rt, pc: nat, m: Mem)
    requires Whole(x.code, pc) && NStep(x, rt, pc, m).Go?
    ensures NStep(x, rt, pc, m).pc in Succs(x.code, pc)
  {
    hide Help, NUnary, NBinary, SlotOf, SiteKey, ReadI16, ReadU16, CallEvent;
    UnaryGoes(x.boxed, m, pc);
    BinaryGoes(x.boxed, m, pc);
  }

  lemma UnaryGoes(boxed: bool, m: Mem, pc: nat)
    ensures forall op, dst: nat, src: nat, next ::
      var o := NUnary(boxed, m, pc, next, op, dst, src); !o.Bad? && (o.Go? ==> o.pc == next)
  {
    hide BoxedUnaryResult, NotInt;
  }

  lemma BinaryGoes(boxed: bool, m: Mem, pc: nat)
    ensures forall op, dst: nat, l: nat, r: nat, next ::
      var o := NBinary(boxed, m, pc, next, op, dst, l, r); !o.Bad? && (o.Go? ==> o.pc == next)
  {
    hide BoxedBinaryResult, BitsInt, CmpInt;
  }
}
