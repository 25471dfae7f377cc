/** Exactly which regions the translator compiles, in terms of their instructions alone. */
module Complete {
  import opened Options
  import opened NanBox
  import opened Bytecode
  import opened Interp
  import opened Ir
  import opened Emit
  import opened Translate
  import opened Blocks
  import opened Sealing
  import opened Instructions
  import Analyze
  import Gate

  /** The opcodes the translator knows, lane by lane. */
  predicate Known(op: int, boxed: bool)
  {
    || op in {LOAD_K, LOAD_TRUE, LOAD_FALSE, LOAD_UNDEF, MOVE, GET_GLOBAL, SET_GLOBAL, DEFINE_GLOBAL, HOIST_VAR}
    || op in {ADD, SUB, MUL, BIT_AND, BIT_OR, BIT_XOR, SHL, SHR, USHR, BIT_NOT, TO_NUMERIC, INC, DEC}
    || op in {NOT, EQ, NEQ, SEQ, SNEQ, LT, LE, GT, GE, JMP, JMP_IF_TRUE, JMP_IF_FALSE, RETURN, RETURN_UNDEF, HALT}
    || (boxed && op in {DIV, MOD, NEG, GET_PROP, SET_PROP, GET_PROP_DYN, SET_PROP_DYN, CALL, NEW_CLOSURE})
  }

  /** The instruction is whole and known; a variable has a slot; a property access has a site; a jump lands
      on an instruction, and so does a conditional one that is not taken. */
  predicate Fit(r: Region, pc: nat)
  {
    && Whole(r.code, pc) && Known(r.code[pc], r.boxed)
    && match Fetch(r.code, pc)
       case GetName(_, _, k) => k < |r.slots| && r.slots[k] >= 0
       case SetName(_, k, _) => k < |r.slots| && r.slots[k] >= 0
       case GetProp(_, _, _) => exists i :: 0 <= i < |r.sites| && r.sites[i].pc == pc
       case SetProp(_, _, _) => exists i :: 0 <= i < |r.sites| && r.sites[i].pc == pc
       case Jump(_) => Starts(r.code, Target(r.code, pc))
       case Branch(_, _, _) => Starts(r.code, Target(r.code, pc)) && Starts(r.code, Next(r.code, pc))
       case _ => true
  }

  /** An instruction starts at `t`. */
  predicate Starts(code: Code, t: int) { 0 <= t < |code| && Boundary(code, 0, t) }

  ghost predicate CanTranslate(r: Region)
  {
    |r.code| > 0 && forall pc: nat | Starts(r.code, pc) :: Fit(r, pc)
  }

  // ------------------------------------------------------------------ one instruction

  /** The size table of the translator has the opcodes it knows, with their sizes. */
  lemma KnownSize(op: int, boxed: bool)
    requires Known(op, boxed)
    ensures RustSize(op, boxed) == InstrSize(op) > 0
  {
  }

  lemma {:induction false} SiteThere(sites: seq<PropSite>, pc: nat)
    ensures SiteKey(sites, pc).Some? <==> exists i :: 0 <= i < |sites| && sites[i].pc == pc
  {
    if |sites| > 0 {
      var rest := sites[1..];
      SiteThere(rest, pc);
      if i :| 0 <= i < |rest| && rest[i].pc == pc { assert sites[i + 1].pc == pc; }
      if i :| 0 <= i < |sites| && sites[i].pc == pc && i > 0 { assert rest[i - 1].pc == pc; }
    }
  }

  /** The jumps of the instruction have blocks. */
  predicate JumpsHaveBlocks(x: Ctx, pc: nat)
    requires Whole(x.code, pc)
  {
    var i := Fetch(x.code, pc);
    && (i.Jump? || i.Branch? ==> Target(x.code, pc) in x.blockOf)
    && (i.Branch? ==> Next(x.code, pc) in x.blockOf)
  }

  /** The emitter takes an instruction exactly when it fits, once jumps have blocks. */
  lemma EmitsKnown(x: Ctx, b: Builder, pc: nat)
    requires Whole(x.code, pc) && Decodes(x.code, x.boxed, pc) && b.Ok()
    ensures EmitInstr(x, b, pc).Some? <==>
            && Known(x.code[pc], x.boxed) && JumpsHaveBlocks(x, pc)
            && match Fetch(x.code, pc)
               case GetName(_, _, k) => SlotOf(x.slots, k).Some?
               case SetName(_, k, _) => SlotOf(x.slots, k).Some?
               case GetProp(_, _, _) => SiteKey(x.sites, pc).Some?
               case SetProp(_, _, _) => SiteKey(x.sites, pc).Some?
               case _ => true
  {
    hide Ins, Require, Guard, BoxedInt, BoxedFloat, BoxedArith, BoxedMod, BoxedCompare, StoreReg, LoadReg, AfterHelper,
      SlotOf, SiteKey, ReadI16, ReadU16;
  }

  // ------------------------------------------------------------------ pass 1

  lemma {:induction false} LeadersThere(r: Region, pc: nat, acc: set<int>)
    requires CanTranslate(r) && Boundary(r.code, 0, pc)
    ensures Leaders(r.code, r.boxed, pc, acc).Some?
    decreases |r.code| - pc
  {
    hide Fit, Boundary, LeadersAt;
    if pc < |r.code| {
      FitDecodes(r, pc);
      DecodesWhole(r.code, r.boxed, pc);
      BoundaryStep(r.code, 0, pc);
      LeadersThere(r, Next(r.code, pc), acc + LeadersAt(r.code, r.boxed, pc));
    }
  }

  lemma FitDecodes(r: Region, pc: nat)
    requires CanTranslate(r) && Starts(r.code, pc)
    ensures Fit(r, pc) && Whole(r.code, pc) && Decodes(r.code, r.boxed, pc)
  {
    hide Known, Fetch, Boundary;
    KnownSize(r.code[pc], r.boxed);
  }

  /** Leaders are instruction starts, or the end. */
  lemma {:induction false} LeadersStart(r: Region, pc: nat, acc: set<int>)
    requires CanTranslate(r) && Boundary(r.code, 0, pc) && Leaders(r.code, r.boxed, pc, acc).Some?
    requires forall t | t in acc :: Starts(r.code, t) || t == |r.code|
    ensures forall t | t in Leaders(r.code, r.boxed, pc, acc).value :: Starts(r.code, t) || t == |r.code|
    decreases |r.code| - pc
  {
    hide Fit, Boundary, LeadersAt, Starts;
    if pc < |r.code| {
      IsStart(r.code, pc);
      FitDecodes(r, pc);
      DecodesWhole(r.code, r.boxed, pc);
      BoundaryStep(r.code, 0, pc);
      LeadsToStarts(r, pc);
      LeadersStart(r, Next(r.code, pc), acc + LeadersAt(r.code, r.boxed, pc));
    }
  }

  lemma IsStart(code: Code, pc: nat)
    requires pc < |code| && Boundary(code, 0, pc)
    ensures Starts(code, pc)
  {
  }

  lemma LeadsToStarts(r: Region, pc: nat)
    requires Whole(r.code, pc) && Boundary(r.code, 0, Next(r.code, pc)) && Fit(r, pc)
    ensures forall t | t in LeadersAt(r.code, r.boxed, pc) :: Starts(r.code, t) || t == |r.code|
  {
    hide Boundary, ReadI16, ReadU16;
  }

  // ------------------------------------------------------------------ the emission loop

  /** The block behind the end, if it is a leader; nothing may name it, since nothing fills it. */
  ghost function Banned(x: Ctx): set<nat> { if |x.code| in x.blockOf then {x.blockOf[|x.code|]} else {} }

  /** The blocks of the leaders from `pc` on. */
  ghost function Ahead(x: Ctx, pc: nat): set<nat> { set t | t in x.blockOf && t >= pc :: x.blockOf[t] }

  /** Between two rounds: every block is done, but for those ahead and the current one. */
  ghost predicate Going(r: Region, x: Ctx, p: Pass, pc: nat)
  {
    && Inv(x, p, pc) && Good(p.b, Ahead(x, pc), Banned(x)) && (p.ended ==> p.b.Len() > 0)
  }

  ghost predicate Setting(r: Region, x: Ctx)
  {
    && CanTranslate(r) && x.code == r.code && x.boxed == r.boxed && x.slots == r.slots && x.sites == r.sites
    && Layout(x) && (forall t :: t in x.blockOf ==> Starts(x.code, t) || t == |x.code|)
  }

  lemma EnterGood(r: Region, x: Ctx, p: Pass, pc: nat)
    requires Setting(r, x) && Going(r, x, p, pc) && Starts(x.code, pc) && Whole(x.code, pc)
    ensures Good(EnterLeader(x, p, pc).b, Ahead(x, Next(x.code, pc)), Banned(x))
  {
    hide Good, Ins, Boundary;
    var next := Next(x.code, pc);
    GoodOk(p.b, Ahead(x, pc), Banned(x));
    AheadStep(r, x, pc);
    if pc in x.blockOf {
      var k := x.blockOf[pc];
      InvCur(x, p, pc);
      if !p.ended { GoodIns(p.b, Br(k, NoArg), Ahead(x, pc), Banned(x)); }
      GoodTurn(if p.ended then p.b else Ins(p.b, Br(k, NoArg)), k, Ahead(x, pc), Ahead(x, next), Banned(x));
    } else {
      GoodMore(p.b, Ahead(x, pc), Ahead(x, next), Banned(x));
    }
  }

  lemma InvCur(x: Ctx, p: Pass, pc: nat)
    requires Inv(x, p, pc) && pc in x.blockOf && Layout(x) && pc < |x.code|
    ensures x.blockOf[pc] != p.b.cur && x.blockOf[pc] < |p.b.blocks| && x.blockOf[pc] !in Banned(x)
  {
  }

  /** Past an instruction, only its own leader is no longer ahead. */
  lemma AheadStep(r: Region, x: Ctx, pc: nat)
    requires Setting(r, x) && Starts(x.code, pc) && Whole(x.code, pc)
    ensures Ahead(x, pc) <= Ahead(x, Next(x.code, pc)) + (if pc in x.blockOf then {x.blockOf[pc]} else {})
  {
    hide Layout;
    forall t | t in x.blockOf && t >= pc && t != pc ensures t >= Next(x.code, pc) {
      if t < Next(x.code, pc) { NotBetween(x.code, 0, pc, t); }
    }
  }

  /** One round of the loop, on an instruction that fits. */
  lemma RoundGood(r: Region, x: Ctx, p: Pass, pc: nat)
    requires Setting(r, x) && Going(r, x, p, pc) && Starts(x.code, pc) && Whole(x.code, pc)
    ensures EmitOne(x, p, pc).Some? && Going(r, x, EmitOne(x, p, pc).value, Next(x.code, pc))
  {
    hide Good, EmitInstr, Fit, Boundary, Ahead, Inv, Layout, Banned, Decodes, CanTranslate, JumpsHaveBlocks, MayJump;
    InvParts(x, p, pc);
    var q := EnterLeader(x, p, pc);
    EnterGood(r, x, p, pc);
    EnterInv(x, p, pc);
    FitDecodes(r, pc);
    JumpsLand(r, x, q.b, pc);
    FitEmits(r, x, q.b, pc);
    ExitsStay(x, p, q.b, pc);
    GoodInstr(x, q.b, pc, Ahead(x, Next(x.code, pc)), Banned(x));
    OneInv(x, p, pc);
  }

  lemma InvParts(x: Ctx, p: Pass, pc: nat)
    requires Inv(x, p, pc)
    ensures Ready(x, p) && x.throwing < |p.b.blocks|
  {
  }

  lemma ExitsStay(x: Ctx, p: Pass, b: Builder, pc: nat)
    requires Layout(x) && Inv(x, p, pc) && b == EnterLeader(x, p, pc).b
    ensures Exits3(x, b, Banned(x))
  {
  }

  /** The jumps of an instruction that fits have blocks, and these may be named. */
  lemma JumpsLand(r: Region, x: Ctx, b: Builder, pc: nat)
    requires Setting(r, x) && Starts(x.code, pc) && Whole(x.code, pc) && Fit(r, pc) && BlocksIn(x, b.blocks)
    ensures JumpsHaveBlocks(x, pc) && MayJump(x, b, pc, Banned(x))
  {
    hide Boundary, ReadI16, ReadU16, Fetch, Known, Decodes;
    LeadersOfJump(x, pc);
  }

  lemma LeadersOfJump(x: Ctx, pc: nat)
    requires Whole(x.code, pc) && Known(x.code[pc], x.boxed)
    ensures var i := Fetch(x.code, pc);
            && (i.Jump? || i.Branch? ==> Target(x.code, pc) in LeadersAt(x.code, x.boxed, pc))
            && (i.Branch? ==> Next(x.code, pc) in LeadersAt(x.code, x.boxed, pc))
  {
    hide ReadI16, ReadU16;
  }

  lemma FitEmits(r: Region, x: Ctx, b: Builder, pc: nat)
    requires Setting(r, x) && Whole(x.code, pc) && Fit(r, pc) && Decodes(x.code, x.boxed, pc) && b.Ok()
    requires JumpsHaveBlocks(x, pc)
    ensures EmitInstr(x, b, pc).Some?
  {
    hide EmitInstr, Boundary, Fetch, Known, Decodes, SiteKey;
    EmitsKnown(x, b, pc);
    SiteThere(x.sites, pc);
  }

  lemma {:induction false} LoopGood(r: Region, x: Ctx, p: Pass, pc: nat)
    requires Setting(r, x) && Going(r, x, p, pc) && Boundary(x.code, 0, pc) && pc <= |x.code|
    ensures Ready(x, p) && EmitFrom(x, p, pc).Some? && Going(r, x, EmitFrom(x, p, pc).value, |x.code|)
    decreases |x.code| - pc
  {
    hide EmitOne, Good, Inv, Fit, Boundary, Layout, Decodes, Ahead, Banned, Setting;
    GoingReady(r, x, p, pc);
    if pc < |x.code| {
      IsStart(x.code, pc);
      SettingFits(r, x, pc);
      RoundGood(r, x, p, pc);
      BoundaryStep(x.code, 0, pc);
      LoopGood(r, x, EmitOne(x, p, pc).value, Next(x.code, pc));
    }
  }

  lemma GoingReady(r: Region, x: Ctx, p: Pass, pc: nat)
    requires Going(r, x, p, pc)
    ensures Ready(x, p)
  {
  }

  lemma SettingFits(r: Region, x: Ctx, pc: nat)
    requires Setting(r, x) && Starts(x.code, pc)
    ensures Whole(x.code, pc) && Decodes(x.code, x.boxed, pc)
  {
    FitDecodes(r, pc);
  }

  // ------------------------------------------------------------------ start and end

  /** Every block number below the count is some leader's. */
  ghost predicate Onto(m: map<int, nat>) { forall k: nat | k < |m| :: HasBlock(m, k) }
  ghost predicate HasBlock(m: map<int, nat>, k: nat) { exists t :: t in m && m[t] == k }

  lemma {:induction false} BlockMapOnto(leaders: set<int>, n: nat)
    ensures Onto(BlockMap(leaders, n))
  {
    hide BlockMap, Onto;
    MapStep(leaders, n);
    if n == 0 {
      EmptyOnto();
    } else {
      BlockMapOnto(leaders, n - 1);
      if n - 1 in leaders { OntoStep(BlockMap(leaders, n - 1), n - 1); }
    }
  }

  lemma EmptyOnto()
    ensures Onto(map[])
  {
  }

  lemma KeyOf(m: map<int, nat>, k: nat) returns (t: int)
    requires Onto(m) && k < |m|
    ensures t in m && m[t] == k
  {
    assert HasBlock(m, k);
    t :| t in m && m[t] == k;
  }

  lemma OntoStep(m: map<int, nat>, u: int)
    requires Onto(m) && u !in m
    ensures Onto(m[u := |m|])
  {
    var m' := m[u := |m|];
    forall k: nat | k < |m'| ensures HasBlock(m', k) {
      if k < |m| {
        var t := KeyOf(m, k);
        assert m'[t] == k;
      } else {
        assert m'[u] == k;
      }
    }
  }

  lemma MapStep(leaders: set<int>, n: nat)
    ensures n == 0 ==> BlockMap(leaders, n) == map[]
    ensures n > 0 ==>
            var m := BlockMap(leaders, n - 1);
            n - 1 !in m && BlockMap(leaders, n) == (if n - 1 in leaders then m[n - 1 := |m|] else m)
  {
  }

  lemma StartGood(r: Region, x: Ctx)
    requires Setting(r, x) && Leaders(r.code, r.boxed, 0, {0}).Some? && x == CtxOf(r) && 0 in x.blockOf
    ensures Going(r, x, Pass(Prologue(x.blockOf), true), 0)
  {
    hide Boundary, Leaders, BlockMap, CanTranslate, Good, Inv, Layout;
    StartInv(r);
    StartBlocks(r, x);
    StartNames(r, x);
    GoodAtStart(Prologue(x.blockOf), Ahead(x, 0), Banned(x), |x.blockOf|);
  }

  lemma GoodAtStart(b: Builder, open: set<nat>, banned: set<nat>, n: nat)
    requires b.Ok() && n <= |b.blocks| && (forall k | k in banned :: k < |b.blocks|)
    requires forall k: nat | k < n :: k in open && b.blocks[k] == Block(NoParam, [])
    requires forall k | n <= k < |b.blocks| ::
               |b.blocks[k].insts| > 0 && forall i | i in b.blocks[k].insts :: Lands(i, |b.blocks|, banned)
    ensures Good(b, open, banned)
  {
  }

  lemma StartBlocks(r: Region, x: Ctx)
    requires Setting(r, x) && Leaders(r.code, r.boxed, 0, {0}).Some? && x == CtxOf(r) && 0 in x.blockOf
    ensures forall k: nat | k < |x.blockOf| :: k in Ahead(x, 0) && Prologue(x.blockOf).blocks[k] == Block(NoParam, [])
  {
    hide Boundary, Leaders, BlockMap, CanTranslate, Layout;
    var all := Leaders(r.code, r.boxed, 0, {0}).value;
    BlockMapOnto(all, |r.code| + 1);
    forall k: nat | k < |x.blockOf| ensures k in Ahead(x, 0) {
      var t := KeyOf(x.blockOf, k);
      assert x.blockOf[t] == k && t >= 0;
    }
  }

  lemma StartNames(r: Region, x: Ctx)
    requires Setting(r, x) && 0 in x.blockOf && x == Context(r, x.blockOf)
    ensures var b := Prologue(x.blockOf);
            && b.Ok() && b.Len() > 0 && (forall k | k in Banned(x) :: k < |b.blocks|)
            && forall k | |x.blockOf| <= k < |b.blocks| ::
                 |b.blocks[k].insts| > 0 && forall i | i in b.blocks[k].insts :: Lands(i, |b.blocks|, Banned(x))
  {
    hide Boundary;
  }

  lemma EndGood(r: Region, x: Ctx, p: Pass)
    requires Setting(r, x) && Going(r, x, p, |x.code|)
    ensures p.b.Ok() && Defined(Sealed(p).blocks)
  {
    hide Ins, Inv, Layout;
    GoodOk(p.b, Ahead(x, |x.code|), Banned(x));
    if !p.ended { GoodIns(p.b, Ret(K(0)), Ahead(x, |x.code|), Banned(x)); }
    var b := Sealed(p);
    forall k | 0 <= k < |b.blocks| && k !in Banned(x) ensures |b.blocks[k].insts| > 0 {
      if k in Ahead(x, |x.code|) {
        var t :| t in x.blockOf && t >= |x.code| && x.blockOf[t] == k;
        assert t == |x.code|;
      }
    }
    forall k, j | 0 <= k < |b.blocks| && 0 <= j < |b.blocks[k].insts|
      ensures NamesFilled(b.blocks, b.blocks[k].insts[j])
    {
      assert Lands(b.blocks[k].insts[j], |b.blocks|, Banned(x));
    }
  }

  /** A region whose instructions fit is translated. */
  lemma Translates(r: Region)
    requires CanTranslate(r)
    ensures Translation(r).Some?
  {
    hide EmitFrom, Leaders, BlockMap, Defined, Going, Fit, Prologue, Sealed, Boundary;
    AtZero(r.code);
    LeadersThere(r, 0, {0});
    LeadersStart(r, 0, {0});
    LayoutOf(r);
    var x := CtxOf(r);
    StartInv(r);
    StartGood(r, x);
    LoopGood(r, x, Pass(Prologue(x.blockOf), true), 0);
    EndGood(r, x, EmitFrom(x, Pass(Prologue(x.blockOf), true), 0).value);
  }

  lemma AtZero(code: Code)
    ensures Boundary(code, 0, 0) && (|code| > 0 ==> Starts(code, 0))
  {
  }

  // ------------------------------------------------------------------ and only these

  /** The emitter took every instruction of a translated region. */
  lemma TookInstr(r: Region, pc: nat)
    requires Translation(r).Some? && Starts(r.code, pc)
    ensures Whole(r.code, pc) && Decodes(r.code, r.boxed, pc) && Leaders(r.code, r.boxed, 0, {0}).Some?
    ensures exists b: Builder :: b.Ok() && EmitInstr(CtxOf(r), b, pc).Some?
  {
    hide EmitFrom, PassAt, Translation, EmitInstr, Inv, Made, Within;
    var p := TranslationMade(r);
    var x := CtxOf(r);
    MadeReady(x, p, Translation(r).value.ir);
    PlacedIn(x, p, Translation(r).value.ir, pc);
    var q := PassAt(x, p, 0, pc).value;
    var b := EnterLeader(x, q, pc).b;
    assert EmitOne(x, q, pc).Some?;
    assert EmitInstr(x, b, pc).Some?;
  }

  lemma MadeReady(x: Ctx, p: Pass, ir: Ir)
    requires Made(x, p, ir)
    ensures Ready(x, p)
  {
  }

  lemma TookFits(r: Region, pc: nat)
    requires Translation(r).Some? && Starts(r.code, pc)
    ensures Fit(r, pc)
  {
    hide EmitInstr, Translation, Boundary, Known, Decodes, SiteKey, ReadI16, ReadU16, Leaders;
    Gate.TargetLands(r, pc);
    TookInstr(r, pc);
    BoundaryStep(r.code, 0, pc);
    var x := CtxOf(r);
    var b: Builder :| b.Ok() && EmitInstr(x, b, pc).Some?;
    EmitsKnown(x, b, pc);
    SiteThere(r.sites, pc);
    BranchOp(r.code, pc, r.boxed);
  }

  lemma BranchOp(code: Code, pc: nat, boxed: bool)
    requires Whole(code, pc) && Known(code[pc], boxed)
    ensures var i := Fetch(code, pc);
            && (i.Jump? || i.Branch? ==> Analyze.IsJump(code[pc]))
            && (i.Branch? ==> code[pc] == JMP_IF_TRUE || code[pc] == JMP_IF_FALSE)
  {
    hide ReadI16, ReadU16;
  }

  /** Empty code has no block to start in. */
  lemma EmptyFails(r: Region)
    requires r.code == []
    ensures Translation(r).None?
  {
    var m := BlocksFor(r, {0});
    ReadyAtStart(r, {0});
    assert Leaders(r.code, r.boxed, 0, {0}) == Some({0});
    var b := Prologue(m);
    assert b.blocks[|m|].insts[0] == Br(m[0], NoArg) && b.blocks[m[0]].insts == [];
    assert !NamesFilled(b.blocks, b.blocks[|m|].insts[0]);
  }

  /** Exactly the regions that have an instruction, and whose instructions all fit, are translated. */
  lemma TranslatesExactly(r: Region)
    ensures Translation(r).Some? <==> CanTranslate(r)
  {
    hide Translation, Fit, Starts;
    if CanTranslate(r) { Translates(r); }
    if Translation(r).Some? {
      if r.code == [] { EmptyFails(r); }
      forall pc: nat | Starts(r.code, pc) ensures Fit(r, pc) { TookFits(r, pc); }
    }
  }
}
