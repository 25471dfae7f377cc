/** The translation loop of `compile_int_block_impl`: leaders, blocks, emission. */
module Translate {
  import opened Options
  import opened Bits
  import opened NanBox
  import opened Bytecode
  import opened Interp
  import opened Ir
  import opened Emit

  /** What is translated: the code, the dense slot of each name constant (-1 for none), the lane
      and the property sites. */
  datatype Region = Region(code: Code, slots: seq<int>, boxed: bool, sites: seq<PropSite>)

  /** Translated code: its blocks and the block it starts in. */
  datatype Compiled = Compiled(ir: Ir, entry: nat)

  // ------------------------------------------------------------------ pass 1

  /** The translator decodes a whole instruction at `pc`. */
  predicate Decodes(code: Code, boxed: bool, pc: nat)
  {
    pc < |code| && RustSize(code[pc], boxed) > 0 && pc + RustSize(code[pc], boxed) <= |code|
  }

  lemma DecodesWhole(code: Code, boxed: bool, pc: nat)
    requires Decodes(code, boxed, pc)
    ensures Whole(code, pc) && Next(code, pc) == pc + RustSize(code[pc], boxed)
  {
    SizesAgree(code[pc], boxed);
  }

  /** The block leaders an instruction gives rise to. */
  function LeadersAt(code: Code, boxed: bool, pc: nat): set<int>
    requires Whole(code, pc)
  {
    var op, next := code[pc], Next(code, pc);
    if op == JMP || op == JMP_IF_TRUE || op == JMP_IF_FALSE then {Target(code, pc), next}
    else if op == RETURN || op == RETURN_UNDEF || op == HALT || (op == NEW_CLOSURE && boxed) then {next}
    else {}
  }

  /** The leaders found from `pc` on, added to `acc`; `None` when an instruction is unknown or cut
      short. */
  function Leaders(code: Code, boxed: bool, pc: nat, acc: set<int>): Option<set<int>>
    decreases |code| - pc
  {
    if pc >= |code| then Some(acc)
    else if !Decodes(code, boxed, pc) then None
    else
      DecodesWhole(code, boxed, pc);
      Leaders(code, boxed, Next(code, pc), acc + LeadersAt(code, boxed, pc))
  }

  // ------------------------------------------------------------------ blocks

  /** One block for each leader below `n`, numbered in ascending order. */
  function BlockMap(leaders: set<int>, n: nat): (m: map<int, nat>)
    ensures forall t :: t in m <==> t in leaders && 0 <= t < n
    ensures forall t :: t in m ==> m[t] < |m|
    ensures forall t, u :: t in m && u in m && m[t] == m[u] ==> t == u
  {
    if n == 0 then map[]
    else
      var m := BlockMap(leaders, n - 1);
      if n - 1 in leaders then m[n - 1 := |m|] else m
  }

  /** The leader blocks, all empty, then the entry and the three exits. */
  function Prologue(m: map<int, nat>): (b: Builder)
    requires 0 in m
    ensures b.Ok() && |b.blocks| == |m| + 4
  {
    Builder(
      seq(|m|, _ => Block(NoParam, [])) +
      [Block(NoParam, [Br(m[0], NoArg)]),
       Block(NoParam, [StoreFlag(1), Ret(K(0))]),
       Block(Param(0), [StoreResume(Id(0)), StoreFlag(3), Ret(K(0))]),
       Block(NoParam, [Ret(K(0))])],
      |m|, 1)
  }

  function Context(r: Region, m: map<int, nat>): Ctx
  {
    Ctx(r.code, r.slots, r.boxed, r.sites, m, |m| + 1, |m| + 2, |m| + 3)
  }

  // ------------------------------------------------------------------ emission

  /** The builder between two instructions, and whether the current block is already ended. */
  datatype Pass = Pass(b: Builder, ended: bool)

  ghost predicate Ready(x: Ctx, p: Pass)
  {
    p.b.Ok() && forall t :: t in x.blockOf ==> x.blockOf[t] < |p.b.blocks|
  }

  /** At a leader, fall through into its block and turn to it. */
  function EnterLeader(x: Ctx, p: Pass, pc: nat): (q: Pass)
    requires Ready(x, p)
    ensures Ready(x, q) && |q.b.blocks| == |p.b.blocks|
  {
    if pc in x.blockOf && x.blockOf[pc] != p.b.cur then
      Pass(SwitchTo(if p.ended then p.b else Ins(p.b, Br(x.blockOf[pc], NoArg)), x.blockOf[pc]), false)
    else p
  }

  /** One round of the emission loop. */
  function EmitOne(x: Ctx, p: Pass, pc: nat): (r: Option<Pass>)
    requires Ready(x, p) && Whole(x.code, pc)
    ensures r.Some? ==> Ready(x, r.value)
  {
    var q := EnterLeader(x, p, pc);
    match EmitInstr(x, q.b, pc)
    case None => None
    case Some(e) => Some(Pass(e.b, e.ended || q.ended))
  }

  function EmitFrom(x: Ctx, p: Pass, pc: nat): (r: Option<Pass>)
    requires Ready(x, p)
    ensures r.Some? ==> Ready(x, r.value)
    decreases |x.code| - pc
  {
    if pc >= |x.code| then Some(p)
    else if !Decodes(x.code, x.boxed, pc) then None
    else
      DecodesWhole(x.code, x.boxed, pc);
      match EmitOne(x, p, pc)
      case None => None
      case Some(p') => EmitFrom(x, p', Next(x.code, pc))
  }

  /** The instruction names block `k`. */
  predicate Names(i: Inst, k: nat)
  {
    match i
    case Br(to, _) => k == to
    case Brif(_, t, _, f, _) => k == t || k == f
    case _ => false
  }

  ghost predicate Refers(ir: Ir, k: nat)
  {
    exists b, j :: 0 <= b < |ir| && 0 <= j < |ir[b].insts| && Names(ir[b].insts[j], k)
  }

  /** Every block an instruction names was filled; the code generator refuses anything else. */
  predicate Defined(ir: Ir)
  {
    forall b, j | 0 <= b < |ir| && 0 <= j < |ir[b].insts| :: NamesFilled(ir, ir[b].insts[j])
  }

  predicate NamesFilled(ir: Ir, i: Inst)
  {
    match i
    case Br(to, _) => to < |ir| && |ir[to].insts| > 0
    case Brif(_, t, _, f, _) => t < |ir| && |ir[t].insts| > 0 && f < |ir| && |ir[f].insts| > 0
    case _ => true
  }

  lemma DefinedRefers(ir: Ir, k: nat)
    requires Defined(ir) && Refers(ir, k)
    ensures k < |ir| && |ir[k].insts| > 0
  {
    var b, j :| 0 <= b < |ir| && 0 <= j < |ir[b].insts| && Names(ir[b].insts[j], k);
    assert NamesFilled(ir, ir[b].insts[j]);
  }

  /** Fall off the end by returning 0. */
  function Sealed(p: Pass): Builder
    requires p.b.Ok()
  {
    if p.ended then p.b else Ins(p.b, Ret(K(0)))
  }

  function Finish(p: Pass, entry: nat): Option<Compiled>
    requires p.b.Ok()
  {
    if Defined(Sealed(p).blocks) then Some(Compiled(Sealed(p).blocks, entry)) else None
  }

  function BlocksFor(r: Region, leaders: set<int>): map<int, nat>
  {
    BlockMap(leaders, |r.code| + 1)
  }

  lemma LeadersKeep(code: Code, boxed: bool, pc: nat, acc: set<int>)
    requires Leaders(code, boxed, pc, acc).Some?
    ensures acc <= Leaders(code, boxed, pc, acc).value
    decreases |code| - pc
  {
    if pc < |code| {
      DecodesWhole(code, boxed, pc);
      LeadersKeep(code, boxed, Next(code, pc), acc + LeadersAt(code, boxed, pc));
    }
  }

  lemma ReadyAtStart(r: Region, leaders: set<int>)
    requires 0 in leaders
    ensures 0 in BlocksFor(r, leaders)
    ensures var m := BlocksFor(r, leaders); Ready(Context(r, m), Pass(Prologue(m), true))
  {
  }

  /** The translation of a region; `None` leaves it to the interpreter. */
  function Translation(r: Region): Option<Compiled>
  {
    match Leaders(r.code, r.boxed, 0, {0})
    case None => None
    case Some(leaders) =>
      LeadersKeep(r.code, r.boxed, 0, {0});
      ReadyAtStart(r, leaders);
      var m := BlocksFor(r, leaders);
      match EmitFrom(Context(r, m), Pass(Prologue(m), true), 0)
      case None => None
      case Some(p) => Finish(p, |m|)
  }

  /** The blocks chosen for a region's leaders. */
  function CtxOf(r: Region): Ctx
    requires Leaders(r.code, r.boxed, 0, {0}).Some?
  {
    Context(r, BlocksFor(r, Leaders(r.code, r.boxed, 0, {0}).value))
  }
}
