/** `analyze` in the form it is written in: passes of `while` loops over `pc`, appending to lists. */
module Analyzer {
  import opened Options
  import opened Bits
  import opened Float64
  import opened NanBox
  import opened Bytecode
  import opened Interp
  import opened Emit
  import opened Translate
  import opened Analyze
  import Compile

  /** `isLocalName` */
  method FindName(names: seq<string>, n: string) returns (slot: int)
    ensures slot == IndexOf(names, n)
  {
    for i := 0 to |names|
      invariant n !in names[..i]
    {
      if names[i] == n {
        FirstIndex(names, n, i);
        return i;
      }
    }
    assert names[..|names|] == names;
    slot := -1;
  }

  lemma {:induction false} FirstIndex(names: seq<string>, n: string, i: nat)
    requires i < |names| && names[i] == n && n !in names[..i]
    ensures IndexOf(names, n) == i
  {
    if i > 0 {
      assert names[..i][0] == names[0] && names[1..][..i - 1] == names[..i][1..];
      FirstIndex(names[1..], n, i - 1);
    }
  }

  method Remember(names: seq<string>, n: string) returns (r: seq<string>)
    ensures r == AddName(names, n)
  {
    var slot := FindName(names, n);
    r := if slot < 0 then names + [n] else names;
  }

  method CollectParams(params: seq<string>) returns (names: seq<string>)
    ensures names == AddNames([], params, 0)
  {
    names := [];
    for i := 0 to |params|
      invariant AddNames(names, params, i) == AddNames([], params, 0)
    {
      names := Remember(names, params[i]);
    }
  }

  lemma NamesStep(f: Function, pc: nat, names: seq<string>)
    requires Whole(f.code, pc)
    ensures pc < Next(f.code, pc) <= |f.code|
    ensures Declared(f, pc, names)
         == Declared(f, Next(f.code, pc), if Declares(f, pc).Some? then AddName(names, Declares(f, pc).value)
             else names)
    ensures Targets(f.code, pc) == (if IsJump(f.code[pc]) then [Target(f.code, pc)] else [])
            + Targets(f.code, Next(f.code, pc))
  {
    hide InstrSize, Declares, Target;
  }

  lemma NamesEnd(f: Function, pc: nat, names: seq<string>)
    ensures pc < |f.code| && !Whole(f.code, pc) ==> Declared(f, pc, names).None?
    ensures pc >= |f.code| ==> Declared(f, pc, names) == Some(names) && Targets(f.code, pc) == []
  {
  }

  /** Pass A: the function's own names and its jump targets. */
  method CollectNames(f: Function) returns (ok: bool, names: seq<string>, targets: seq<int>)
    ensures var d := Declared(f, 0, AddNames([], f.params, 0));
            ok == d.Some? && (ok ==> names == d.value && targets == Targets(f.code, 0))
  {
    hide InstrSize, Declares, Target, AddNames, AddName, Next, Declared, Targets;
    targets := [];
    names := CollectParams(f.params);
    var pc := 0;
    while pc < |f.code|
      invariant pc >= 0
      invariant Declared(f, pc, names) == Declared(f, 0, AddNames([], f.params, 0))
      invariant Targets(f.code, 0) == targets + Targets(f.code, pc)
      decreases |f.code| - pc
    {
      if !Whole(f.code, pc) {
        NamesEnd(f, pc, names);
        return false, [], [];
      }
      NamesStep(f, pc, names);
      var n := Declares(f, pc);
      if n.Some? { names := Remember(names, n.value); }
      if IsJump(f.code[pc]) { targets := targets + [Target(f.code, pc)]; }
      pc := Next(f.code, pc);
    }
    ok := true;
    NamesEnd(f, pc, names);
  }

  /** The captured names, appended after the function's own. */
  method CollectCaptures(f: Function, own: seq<string>) returns (res: Option<seq<string>>)
    ensures res == Captured(f, 0, own)
  {
    var names := own;
    var pc := 0;
    while pc < |f.code|
      invariant Captured(f, pc, names) == Captured(f, 0, own)
      decreases |f.code| - pc
    {
      if InstrSize(f.code[pc]) == 0 || pc + InstrSize(f.code[pc]) > |f.code| { return None; }
      if f.code[pc] == GET_GLOBAL {
        var k := ReadU16(f.code, pc + 2);
        if !IsString(f, k) { return None; }
        names := Remember(names, f.constants[k].name);
      }
      pc := Next(f.code, pc);
    }
    res := Some(names);
  }

  /** Pass B: the slot of every name constant and the native constant pool. */
  method BuildPools(f: Function, names: seq<string>, boxed: bool) returns (slots: array<int>, pool: array<Word>)
    ensures slots[..] == Slots(f, names) && pool[..] == Pool(f, boxed)
  {
    slots := new int[|f.constants|](_ => -1);
    pool := new Word[|f.constants|](_ => 0);
    for k := 0 to |f.constants|
      invariant forall j | 0 <= j < k ::
                slots[j] == SlotFor(f.constants[j], names) && pool[j] == PoolWord(f.constants[j], boxed)
    {
      var c := f.constants[k];
      slots[k] := -1;
      pool[k] := 0;
      if c.KStr? {
        var slot := FindName(names, c.name);
        slots[k] := slot;
      }
      if boxed {
        pool[k] := ConstWord(c);
      } else if IsIntConst(c) {
        pool[k] := IntWord(c);
      }
    }
  }

  /** Pass C: the opcode subset, name locality, the compare-then-jump rule, the property sites. */
  method CheckCode(f: Function, boxed: bool, allowCold: bool, slots: seq<int>, owned: nat, targets: seq<int>)
      returns (res: Checked)
    ensures res == CheckFrom(f, boxed, allowCold, slots, owned, targets, 0, false, [])
  {
    hide Rule;
    var sites: seq<PropSite> := [];
    var prevTerminates := false;
    var pc := 0;
    while pc < |f.code|
      invariant CheckFrom(f, boxed, allowCold, slots, owned, targets, pc, prevTerminates, sites)
             == CheckFrom(f, boxed, allowCold, slots, owned, targets, 0, false, [])
      decreases |f.code| - pc
    {
      if InstrSize(f.code[pc]) == 0 || pc + InstrSize(f.code[pc]) > |f.code| { return Unsupported; }
      match Rule(f, boxed, allowCold, slots, owned, targets, pc, prevTerminates) {
        case Refused => return Unsupported;
        case Cold => return ColdSite;
        case Allowed =>
        case Site(key) => sites := sites + [PropSite(pc, key)];
      }
      prevTerminates := f.code[pc] == RETURN || f.code[pc] == JMP;
      pc := Next(f.code, pc);
    }
    res := Sites(sites);
  }

  /** `analyze` */
  method AnalyzeFunction(f: Function, boxed: bool, allowCold: bool) returns (v: Verdict)
    ensures v == Analysis(f, boxed, allowCold)
  {
    if f.isGenerator || f.isAsync || |f.code| == 0 || |f.constants| == 0 { return Never; }
    var ok, own, targets := CollectNames(f);
    if !ok { return Never; }
    var names := own;
    if boxed {
      var captured := CollectCaptures(f, own);
      if captured.None? { return Never; }
      names := captured.value;
    }
    var slots, pool := BuildPools(f, names, boxed);
    var checked := CheckCode(f, boxed, allowCold, slots[..], |own|, targets);
    match checked {
      case Unsupported => return Never;
      case ColdSite => return Retry;
      case Sites(sites) =>
        var region := Region(f.code, slots[..], boxed, sites);
        var native := Compile.CompileIntBlock(region);
        if native.None? { return Never; }
        return Accepted(Plan(region, native.value, pool[..], names, |own|, f.numRegs, f.arity));
    }
  }
}
