/** Calling compiled code (`run` in src/jit/int_fn_jit.zig and its callers in src/vm/bc_vm.zig):
    the arguments in, and a value, a re-run or an exact-pc resume out. */
module Calls {
  import opened Options
  import opened Bits
  import opened Float64
  import opened NanBox
  import opened Bytecode
  import opened Interp
  import opened Ir
  import opened Emit
  import opened Blocks
  import opened Analyze
  import opened Gate
  import opened Operators

  /** The slot of an argument: unboxed in the int lane. */
  function ArgWord(boxed: bool, w: Word): Word { if boxed then w else IntOf(w) }
  function IntOf(w: Word): Word { S32(w) }

  predicate Resolves(p: Plan, outer: Env)
    requires p.owned <= |p.names|
  {
    forall n | n in p.names[p.owned..] :: n in outer
  }

  /** Arguments fill the owned slots in order, captures follow, everything else is 0. */
  function LocalAt(p: Plan, args: seq<Word>, outer: Env, i: nat): Word
  {
    if i < p.owned then (if i < |args| then ArgWord(p.region.boxed, args[i]) else 0)
    else if i < |p.names| && p.names[i] in outer then outer[p.names[i]] else 0
  }

  function LocalsFor(p: Plan, args: seq<Word>, outer: Env): seq<Word>
  {
    seq(if |p.names| > 0 then |p.names| else 1, i requires 0 <= i => LocalAt(p, args, outer, i))
  }

  function StartMem(p: Plan, args: seq<Word>, outer: Env): Mem
  {
    Mem(seq(FrameSize(p.numRegs), _ => 0), LocalsFor(p, args, outer), 0, 0xFFFF_FFFF, [], 0)
  }

  /** Fill the locals buffer the way `run` does; `None` is its early deopt on an unresolved capture. */
  method Marshal(p: Plan, args: seq<Word>, outer: Env) returns (res: Option<seq<Word>>)
    requires p.owned <= |p.names|
    ensures res.Some? <==> Resolves(p, outer)
    ensures res.Some? ==> res.value == LocalsFor(p, args, outer)
  {
    var n := if |p.names| > 0 then |p.names| else 1;
    var locals := new Word[n](_ => 0);
    var i := 0;
    while i < |args| && i < p.owned
      invariant 0 <= i <= p.owned && i <= |args|
      invariant forall j | 0 <= j < n :: locals[j] == if j < i then ArgWord(p.region.boxed, args[j]) else 0
    {
      locals[i] := ArgWord(p.region.boxed, args[i]);
      i := i + 1;
    }
    i := p.owned;
    while i < |p.names|
      invariant p.owned <= i <= |p.names|
      invariant forall j | p.owned <= j < i :: p.names[j] in outer
      invariant forall j | 0 <= j < n :: locals[j] == if j < i then LocalAt(p, args, outer, j) else 0
    {
      if p.names[i] !in outer { return None; }
      locals[i] := outer[p.names[i]];
      i := i + 1;
    }
    assert locals[..] == LocalsFor(p, args, outer);
    return Some(locals[..]);
  }

  datatype RunOut = Value(w: Word) | Deopt | Threw | Resumed(regs: seq<Word>, locals: seq<Word>, pc: int)

  /** What `run` reports of a native exit. */
  function Report(p: Plan, w: Word, m: Mem): RunOut
  {
    if m.flag == 2 then RunOut.Threw
    else if m.flag == 3 then Resumed(m.regs, m.locals, m.resume)
    else if m.flag != 0 then Deopt
    else if p.region.boxed then Value(w)
    else Value(BoxResult(w))
  }

  /** The own variables rebuilt from the native locals. */
  function Rebuilt(p: Plan, locals: seq<Word>, i: nat): Env
    requires i <= |p.names|
  {
    if i == 0 then map[] else Rebuilt(p, locals, i - 1)[p.names[i - 1] := GetReg(locals, i - 1)]
  }

  /** The interpreter frame an exact-pc deopt resumes in. */
  function ResumeState(f: Function, p: Plan, m: Mem): State
    requires p.owned <= |p.names|
  {
    State(if m.resume >= 0 then m.resume else 0,
      seq(FrameSize(f.numRegs), i requires 0 <= i => GetReg(m.regs, i)),
      Rebuilt(p, m.locals, p.owned), m.trace, Kept, f.strict, None)
  }

  /** The runtime a call gives its native code. */
  function RtFor(p: Plan, host: Host): Rt { Rt(p.consts, host, true) }

  /** The frame of a re-run from the start: a fresh one, after whatever native code has already done. */
  function Rerun(f: Function, host: Host, args: seq<Word>, m: Mem): State
  {
    Enter(f, host, args).(trace := m.trace)
  }

  /** How the caller finishes a call whose native code exited with `w` and memory `m`. */
  ghost predicate Finishes(f: Function, host: Host, outer: Env, p: Plan, args: seq<Word>, w: Word, m: Mem, out: Outcome)
    requires p.owned <= |p.names|
  {
    match Report(p, w, m)
    case Value(v) => out == Outcome.Returned(v, m.trace)
    case Threw => out == Outcome.Threw(m.pending, m.trace)
    case Deopt => Ends(f, host, outer, Rerun(f, host, args, m), out)
    case Resumed(_, _, _) => Ends(f, host, outer, ResumeState(f, p, m), out)
  }

  /** A call through compiled code has outcome `out`. */
  ghost predicate CallsTo(f: Function, host: Host, outer: Env, p: Plan, args: seq<Word>, out: Outcome)
    requires p.owned <= |p.names|
  {
    if !Resolves(p, outer) then Ends(f, host, outer, Enter(f, host, args), out)
    else exists w, m ::
      Blocks.Returns(p.native, RtFor(p, host), StartMem(p, args, outer), w, m)
      && Finishes(f, host, outer, p, args, w, m, out)
  }
}
