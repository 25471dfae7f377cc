/** The soundness gate of the JIT (`analyze` in src/jit/int_fn_jit.zig): which functions are
    compiled, with which slots, constants and property sites. */
module Analyze {
  import opened Options
  import opened Bits
  import opened Float64
  import opened NanBox
  import opened Bytecode
  import opened Interp
  import opened Emit
  import opened Translate

  /** A compiled function: the region, its code and how `run` must set it up. */
  datatype Plan = Plan(
    region: Region, native: Compiled, consts: seq<Word>, names: seq<string>, owned: nat, numRegs: nat, arity: nat)

  datatype Verdict = Accepted(plan: Plan) | Retry | Never

  // ------------------------------------------------------------------ pass A: names

  function AddName(names: seq<string>, n: string): seq<string> { if n in names then names else names + [n] }

  function AddNames(names: seq<string>, more: seq<string>, i: nat): seq<string>
    requires i <= |more|
    decreases |more| - i
  {
    if i == |more| then names else AddNames(AddName(names, more[i]), more, i + 1)
  }

  predicate IsString(f: Function, k: nat) { k < |f.constants| && f.constants[k].KStr? }

  /** The name an instruction declares, if it declares one. */
  function Declares(f: Function, pc: nat): Option<string>
    requires Whole(f.code, pc)
  {
    if f.code[pc] in {DEFINE_GLOBAL, HOIST_VAR, HOIST_LEX, INIT_LEX} && IsString(f, ReadU16(f.code, pc + 1))
    then Some(f.constants[ReadU16(f.code, pc + 1)].name) else None
  }

  /** The function's own names, in slot order; `None` when an instruction is cut short. */
  function Declared(f: Function, pc: nat, names: seq<string>): Option<seq<string>>
    decreases |f.code| - pc
  {
    if pc >= |f.code| then Some(names)
    else if !Whole(f.code, pc) then None
    else Declared(f, Next(f.code, pc),
           match Declares(f, pc) case None => names case Some(n) => AddName(names, n))
  }

  predicate IsJump(op: int) { op == JMP || op == JMP_IF_TRUE || op == JMP_IF_FALSE }

  /** The targets of the jumps from `pc` on. */
  function Targets(code: Code, pc: nat): seq<int>
    decreases |code| - pc
  {
    if !Whole(code, pc) then []
    else (if IsJump(code[pc]) then [Target(code, pc)] else []) + Targets(code, Next(code, pc))
  }

  /** The names read from the defining environment, added after the function's own. */
  function Captured(f: Function, pc: nat, names: seq<string>): Option<seq<string>>
    decreases |f.code| - pc
  {
    if pc >= |f.code| then Some(names)
    else if !Whole(f.code, pc) then None
    else if f.code[pc] != GET_GLOBAL then Captured(f, Next(f.code, pc), names)
    else if !IsString(f, ReadU16(f.code, pc + 2)) then None
    else Captured(f, Next(f.code, pc), AddName(names, f.constants[ReadU16(f.code, pc + 2)].name))
  }

  // ------------------------------------------------------------------ pass B: slots and constants

  /** The position of a name, or -1. */
  function IndexOf(names: seq<string>, n: string): (i: int)
    ensures -1 <= i < |names|
    ensures i >= 0 ==> names[i] == n
    ensures i < 0 <==> n !in names
  {
    if |names| == 0 then -1
    else if names[0] == n then 0
    else
      var i := IndexOf(names[1..], n);
      if i < 0 then -1 else i + 1
  }

  /** An integral number of magnitude below 2^53. */
  predicate IsIntConst(c: Const)
  {
    c.KNum? && var d := Decode(c.bits);
    (d.Zero? || (d.Fin? && d.mag % One() == 0)) && -SAFE < Truncate(d) < SAFE
  }

  function SlotFor(c: Const, names: seq<string>): int
  {
    if c.KStr? then IndexOf(names, c.name) else -1
  }

  function PoolWord(c: Const, boxed: bool): Word
  {
    if boxed then ConstWord(c)
    else if IsIntConst(c) then IntWord(c) else 0
  }

  function IntWord(c: Const): Word
    requires IsIntConst(c)
  {
    Truncate(Decode(c.bits))
  }

  function Slots(f: Function, names: seq<string>): seq<int>
  {
    seq(|f.constants|, k requires 0 <= k < |f.constants| => SlotFor(f.constants[k], names))
  }

  function Pool(f: Function, boxed: bool): seq<Word>
  {
    seq(|f.constants|, k requires 0 <= k < |f.constants| => PoolWord(f.constants[k], boxed))
  }

  // ------------------------------------------------------------------ pass C: the opcode subset

  datatype Ruling = Allowed | Site(key: string) | Cold | Refused

  function ReadSlot(slots: seq<int>, k: nat): int { if k < |slots| then slots[k] else -1 }

  /** A comparison must be followed by a conditional jump on its own result. */
  predicate FeedsJump(code: Code, pc: nat)
    requires Whole(code, pc)
  {
    var next := Next(code, pc);
    && next + 1 < |code| && (code[next] == JMP_IF_TRUE || code[next] == JMP_IF_FALSE)
    && code[next + 1] == code[pc + 1]
  }

  function SiteRuling(f: Function, pc: nat, k: nat, cold: bool): Ruling
  {
    if !IsString(f, k) || pc >= |f.caches| then Refused
    else if cold then Cold else Site(f.constants[k].name)
  }

  /** What pass C says of the instruction at `pc`. */
  function Rule(f: Function, boxed: bool, allowCold: bool, slots: seq<int>, owned: nat, targets: seq<int>,
                pc: nat, afterExit: bool): Ruling
    requires Whole(f.code, pc)
  {
    var op := f.code[pc];
    if op == RETURN_UNDEF then
      if !boxed && (pc in targets || !afterExit) then Refused else Allowed
    else if op == LOAD_K then
      var k := ReadU16(f.code, pc + 2);
      if k < |f.constants| && (boxed || IsIntConst(f.constants[k])) then Allowed else Refused
    else if op == GET_GLOBAL then
      if ReadSlot(slots, ReadU16(f.code, pc + 2)) < 0 then Refused else Allowed
    else if op == SET_GLOBAL || op == DEFINE_GLOBAL then
      if 0 <= ReadSlot(slots, ReadU16(f.code, pc + 1)) < owned then Allowed else Refused
    else if op == GET_PROP then
      if !boxed then Refused else SiteRuling(f, pc, ReadU16(f.code, pc + 3),
        !allowCold && pc < |f.caches| && !f.caches[pc].filled && f.caches[pc].chain == 0)
    else if op == SET_PROP then
      if !boxed then Refused else SiteRuling(f, pc, ReadU16(f.code, pc + 2),
        !allowCold && pc < |f.caches| && !f.caches[pc].filled)
    else if op in {CALL, NEW_CLOSURE, DIV, MOD, NEG, GET_PROP_DYN, SET_PROP_DYN} then
      if boxed then Allowed else Refused
    else if op in {HOIST_VAR, HOIST_LEX, INIT_LEX, BIT_NOT, TO_NUMERIC, INC, DEC, MOVE, RETURN}
         || IsArith(op) || IsBitBinary(op) || IsJump(op) then Allowed
    else if IsCompare(op) || op == NOT then
      if FeedsJump(f.code, pc) then Allowed else Refused
    else Refused
  }

  datatype Checked = Sites(sites: seq<PropSite>) | ColdSite | Unsupported

  function CheckFrom(f: Function, boxed: bool, allowCold: bool, slots: seq<int>, owned: nat, targets: seq<int>,
                     pc: nat, afterExit: bool, sites: seq<PropSite>): Checked
    decreases |f.code| - pc
  {
    if pc >= |f.code| then Sites(sites)
    else if !Whole(f.code, pc) then Unsupported
    else
      var exit := f.code[pc] == RETURN || f.code[pc] == JMP;
      match Rule(f, boxed, allowCold, slots, owned, targets, pc, afterExit)
      case Refused => Unsupported
      case Cold => ColdSite
      case Allowed => CheckFrom(f, boxed, allowCold, slots, owned, targets, Next(f.code, pc), exit, sites)
      case Site(key) =>
        CheckFrom(f, boxed, allowCold, slots, owned, targets, Next(f.code, pc), exit, sites + [PropSite(pc, key)])
  }

  // ------------------------------------------------------------------ the whole gate

  function PlanFor(f: Function, boxed: bool, names: seq<string>, owned: nat, sites: seq<PropSite>): Verdict
  {
    var region := Region(f.code, Slots(f, names), boxed, sites);
    match Translation(region)
    case None => Never
    case Some(native) => Accepted(Plan(region, native, Pool(f, boxed), names, owned, f.numRegs, f.arity))
  }

  function Analysis(f: Function, boxed: bool, allowCold: bool): Verdict
  {
    if f.isGenerator || f.isAsync || |f.code| == 0 || |f.constants| == 0 then Never
    else match Declared(f, 0, AddNames([], f.params, 0))
      case None => Never
      case Some(own) =>
        match (if boxed then Captured(f, 0, own) else Some(own))
        case None => Never
        case Some(names) =>
          match CheckFrom(f, boxed, allowCold, Slots(f, names), |own|, Targets(f.code, 0), 0, false, [])
          case Unsupported => Never
          case ColdSite => Retry
          case Sites(sites) => PlanFor(f, boxed, names, |own|, sites)
  }
}
