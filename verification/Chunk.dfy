/** The chunk builder (src/bytecode/chunk.zig): code bytes, line table, constant pool and patched
    jumps. */
module Chunk {
  import opened Options
  import opened Bits
  import opened Bytecode
  import opened Interp
  import opened Emit

  // ------------------------------------------------------------------ bytes

  function Lo(v: int): Byte { v % 256 }
  function Hi(v: int): Byte { v / 256 % 256 }
  function Enc16(v: int): (r: seq<Byte>) ensures |r| == 2 { [Lo(v), Hi(v)] }

  predicate FitsI16(v: int) { -0x8000 <= v < 0x8000 }
  function Clamp16(v: int): int { if v < -0x8000 then -0x8000 else if v >= 0x8000 then 0x7FFF else v }

  /** The two bytes of a displacement decode to it. */
  lemma I16RoundTrip(code: Code, at: nat, v: int)
    requires at + 2 <= |code| && code[at..at + 2] == Enc16(v) && FitsI16(v)
    ensures ReadI16(code, at) == v
  {
    assert code[at] == code[at..at + 2][0] && code[at + 1] == code[at..at + 2][1];
    assert v % 256 + 256 * (v / 256 % 256) == v % 0x1_0000;
  }

  lemma U16RoundTrip(code: Code, at: nat, v: nat)
    requires at + 2 <= |code| && code[at..at + 2] == Enc16(v) && v < 0x1_0000
    ensures ReadU16(code, at) == v
  {
    assert code[at] == code[at..at + 2][0] && code[at + 1] == code[at..at + 2][1];
  }

  /** Overwrite two bytes. */
  function Write2(code: Code, at: nat, v: int): (r: Code)
    requires at + 2 <= |code|
    ensures |r| == |code|
  {
    code[..at] + Enc16(v) + code[at + 2..]
  }

  // ------------------------------------------------------------------ the constant pool

  /** The constants the pool treats as one: equal number bits or equal text. */
  predicate SameConst(a: Const, b: Const)
  {
    (a.KNum? && b.KNum? && a.bits == b.bits) || (a.KStr? && b.KStr? && a.name == b.name)
  }

  function Find(pool: seq<Const>, c: Const): (i: Option<nat>)
    ensures i.Some? ==> i.value < |pool| && SameConst(pool[i.value], c)
    ensures i.None? ==> forall k | 0 <= k < |pool| :: !SameConst(pool[k], c)
  {
    if |pool| == 0 then None
    else if SameConst(pool[0], c) then Some(0)
    else match Find(pool[1..], c) case None => None case Some(i) => Some(i + 1)
  }

  function Pooled(pool: seq<Const>, c: Const): seq<Const> { if Find(pool, c).Some? then pool else pool + [c] }
  function PoolIndex(pool: seq<Const>, c: Const): nat { if Find(pool, c).Some? then Find(pool, c).value else |pool| }

  predicate NoDuplicates(pool: seq<Const>)
  {
    forall i, j | 0 <= i < j < |pool| :: !SameConst(pool[i], pool[j])
  }

  /** The index handed out denotes the constant, now and in every later pool. */
  lemma PoolKeeps(pool: seq<Const>, c: Const)
    ensures pool <= Pooled(pool, c) && PoolIndex(pool, c) < |Pooled(pool, c)|
    ensures var k := Pooled(pool, c)[PoolIndex(pool, c)]; k == c || SameConst(k, c)
    ensures NoDuplicates(pool) ==> NoDuplicates(Pooled(pool, c))
  {
  }

  // ------------------------------------------------------------------ the builder as a value

  datatype Built = Built(code: Code, lines: seq<nat>, constants: seq<Const>, overflow: bool)

  datatype Act =
    | EmitOp(op: Byte, line: nat)
    | EmitU8(v: Byte)
    | EmitU16(w: nat)
    | AddConstant(c: Const)
    | Placeholder
    | PatchJump(at: nat, target: nat)

  function LastLine(lines: seq<nat>): nat { if |lines| > 0 then lines[|lines| - 1] else 0 }

  /** The pool has room for `c`. */
  predicate HasRoom(pool: seq<Const>, c: Const) { Find(pool, c).Some? || |pool| <= 0xFFFF }

  predicate Possible(b: Built, a: Act)
  {
    match a
    case AddConstant(c) => HasRoom(b.constants, c)
    case PatchJump(at, _) => at + 2 <= |b.code|
    case _ => true
  }

  function Append(b: Built, bytes: seq<Byte>): Built
  {
    b.(code := b.code + bytes, lines := b.lines + seq(|bytes|, _ => LastLine(b.lines)))
  }

  function Apply(b: Built, a: Act): Built
    requires Possible(b, a)
  {
    match a
    case EmitOp(op, line) => b.(code := b.code + [op], lines := b.lines + [line])
    case EmitU8(v) => Append(b, [v])
    case EmitU16(w) => Append(b, Enc16(w))
    case AddConstant(c) => b.(constants := Pooled(b.constants, c))
    case Placeholder => Append(b, Enc16(0))
    case PatchJump(at, target) =>
      var delta := target - (at + 2);
      b.(code := Write2(b.code, at, Clamp16(delta)), overflow := b.overflow || !FitsI16(delta))
  }

  const EMPTY := Built([], [], [], false)

  // ------------------------------------------------------------------ the builder as it is

  datatype Finished = Finished(code: Code, constants: seq<Const>, lines: seq<nat>)

  class ChunkBuilder {
    var code: Code
    var constants: seq<Const>
    var lines: seq<nat>
    var jumpOverflow: bool

    function State(): Built reads this { Built(code, lines, constants, jumpOverflow) }

    constructor ()
      ensures State() == EMPTY
    {
      code, constants, lines, jumpOverflow := [], [], [], false;
    }

    method EmitOpcode(op: Byte, line: nat)
      modifies this
      ensures State() == Apply(old(State()), Act.EmitOp(op, line))
    {
      code := code + [op];
      lines := lines + [line];
    }

    method EmitByte(v: Byte)
      modifies this
      ensures State() == Apply(old(State()), Act.EmitU8(v))
    {
      code := code + [v];
      var lastLine := if |lines| > 0 then lines[|lines| - 1] else 0;
      lines := lines + [lastLine];
    }

    method EmitHalf(v: nat)
      modifies this
      ensures State() == Apply(old(State()), Act.EmitU16(v))
    {
      EmitByte(Lo(v));
      EmitByte(Hi(v));
      assert old(code) + [Lo(v)] + [Hi(v)] == old(code) + Enc16(v);
      assert lines == old(lines) + seq(2, _ => LastLine(old(lines)));
    }

    /** Add a constant, reusing an equal number or string; `None` when the pool is full. */
    method AddConst(c: Const) returns (idx: Option<nat>)
      modifies this
      ensures idx.Some? <==> HasRoom(old(constants), c)
      ensures idx.Some? ==>
              State() == Apply(old(State()), Act.AddConstant(c)) && idx.value == PoolIndex(old(constants), c)
      ensures idx.None? ==> State() == old(State())
    {
      for i := 0 to |constants|
        invariant State() == old(State())
        invariant forall k | 0 <= k < i :: !SameConst(constants[k], c)
      {
        if SameConst(constants[i], c) {
          FindFirst(constants, c, i);
          return Some(i);
        }
      }
      FindNone(constants, c);
      if |constants| > 0xFFFF { return None; }
      idx := Some(|constants|);
      constants := constants + [c];
    }

    /** Emit a zero displacement to be patched; its offset. */
    method EmitJumpPlaceholder() returns (at: nat)
      modifies this
      ensures State() == Apply(old(State()), Act.Placeholder) && at == |old(code)|
    {
      at := |code|;
      EmitHalf(0);
    }

    /** Point the displacement at `at` to `target`, clamping and flagging one that does not fit. */
    method Patch(at: nat, target: nat)
      requires at + 2 <= |code|
      modifies this
      ensures State() == Apply(old(State()), Act.PatchJump(at, target))
    {
      var delta := target - (at + 2);
      if delta < -0x8000 || delta > 0x7FFF {
        jumpOverflow := true;
        delta := if delta < 0 then -0x8000 else 0x7FFF;
      }
      code := code[at := Lo(delta)][at + 1 := Hi(delta)];
      assert code == Write2(old(code), at, delta);
    }

    method Finalize() returns (chunk: Option<Finished>)
      ensures chunk == if jumpOverflow then None else Some(Finished(code, constants, lines))
    {
      chunk := if jumpOverflow then None else Some(Finished(code, constants, lines));
    }
  }

  lemma {:induction false} FindFirst(pool: seq<Const>, c: Const, i: nat)
    requires i < |pool| && SameConst(pool[i], c) && forall k | 0 <= k < i :: !SameConst(pool[k], c)
    ensures Find(pool, c) == Some(i)
  {
    if i > 0 { FindFirst(pool[1..], c, i - 1); }
  }

  lemma FindNone(pool: seq<Const>, c: Const)
    requires forall k | 0 <= k < |pool| :: !SameConst(pool[k], c)
    ensures Find(pool, c).None?
  {
  }

  // ------------------------------------------------------------------ any run of the builder

  /** What a client of the builder holds: its open placeholders, the jumps it patched, and the
      constants it added with the indices it was given. */
  datatype Client = Client(holes: set<nat>, patched: map<nat, nat>, ks: seq<(Const, nat)>)

  const NOBODY := Client({}, map[], [])

  function Note(b: Built, cl: Client, a: Act): Client
  {
    match a
    case Placeholder => cl.(holes := cl.holes + {|b.code|})
    case PatchJump(at, target) => cl.(holes := cl.holes - {at}, patched := cl.patched[at := target])
    case AddConstant(c) => cl.(ks := cl.ks + [(c, PoolIndex(b.constants, c))])
    case _ => cl
  }

  /** Every action is possible and patches an open placeholder, each at most once. */
  predicate Proper(b: Built, cl: Client, acts: seq<Act>)
    decreases |acts|
  {
    |acts| == 0 ||
    (Possible(b, acts[0]) && (acts[0].PatchJump? ==> acts[0].at in cl.holes)
     && Proper(Apply(b, acts[0]), Note(b, cl, acts[0]), acts[1..]))
  }

  function Replay(b: Built, cl: Client, acts: seq<Act>): (Built, Client)
    requires Proper(b, cl, acts)
    decreases |acts|
  {
    if |acts| == 0 then (b, cl) else Replay(Apply(b, acts[0]), Note(b, cl, acts[0]), acts[1..])
  }

  /** The slots of jumps do not overlap. */
  ghost predicate Apart(cl: Client, n: nat)
  {
    && (forall a | a in cl.holes :: a + 2 <= n && a !in cl.patched)
    && (forall a | a in cl.patched :: a + 2 <= n)
    && (forall a, b | (a in cl.holes || a in cl.patched) && (b in cl.holes || b in cl.patched) && a != b ::
         a + 2 <= b || b + 2 <= a)
  }

  /** What holds between any two actions. */
  ghost predicate Sound(b: Built, cl: Client)
  {
    && |b.lines| == |b.code| && NoDuplicates(b.constants) && Apart(cl, |b.code|)
    && (!b.overflow ==> forall a | a in cl.patched ::
         a + 2 <= |b.code| && ReadI16(b.code, a) == cl.patched[a] - (a + 2))
    && (forall i | 0 <= i < |cl.ks| ::
          var (c, k) := cl.ks[i]; k < |b.constants| && (b.constants[k] == c || SameConst(b.constants[k], c)))
  }

  lemma PatchSound(b: Built, cl: Client, at: nat, target: nat)
    requires Sound(b, cl) && at in cl.holes
    ensures Possible(b, PatchJump(at, target))
            && Sound(Apply(b, PatchJump(at, target)), Note(b, cl, PatchJump(at, target)))
  {
    var b' := Apply(b, PatchJump(at, target));
    var cl' := Note(b, cl, PatchJump(at, target));
    if !b'.overflow {
      assert b'.code[at..at + 2] == Enc16(target - (at + 2));
      I16RoundTrip(b'.code, at, target - (at + 2));
      forall a | a in cl'.patched
        ensures a + 2 <= |b'.code| && ReadI16(b'.code, a) == cl'.patched[a] - (a + 2)
      {
        if a != at { assert b'.code[a] == b.code[a] && b'.code[a + 1] == b.code[a + 1]; }
      }
    }
  }

  lemma StepSound(b: Built, cl: Client, a: Act)
    requires Sound(b, cl) && Possible(b, a) && (a.PatchJump? ==> a.at in cl.holes)
    ensures Sound(Apply(b, a), Note(b, cl, a))
  {
    match a
    case PatchJump(at, target) => PatchSound(b, cl, at, target);
    case AddConstant(c) => PoolKeeps(b.constants, c);
    case _ =>
      var b' := Apply(b, a);
      forall p | p in cl.patched && !b.overflow ensures ReadI16(b'.code, p) == ReadI16(b.code, p) {
        assert b'.code[..|b.code|] == b.code;
        assert b'.code[p] == b.code[p] && b'.code[p + 1] == b.code[p + 1];
      }
  }

  /** For every sequence of emits, constants and patches at distinct placeholders: unless a jump
      overflowed, every patched displacement decodes to its target; the line table is as long as the
      code; every index handed out still denotes an equal constant; the pool has no duplicates. */
  lemma {:induction false} BuilderRun(b: Built, cl: Client, acts: seq<Act>)
    requires Sound(b, cl) && Proper(b, cl, acts)
    ensures var (b', cl') := Replay(b, cl, acts); Sound(b', cl')
    ensures Sound(EMPTY, NOBODY)
    decreases |acts|
  {
    hide Sound, Apply, Note, Possible;
    if |acts| > 0 {
      StepSound(b, cl, acts[0]);
      BuilderRun(Apply(b, acts[0]), Note(b, cl, acts[0]), acts[1..]);
    } else {
      EmptySound();
    }
  }

  lemma EmptySound()
    ensures Sound(EMPTY, NOBODY)
  {
  }

  /** A builder that overflowed stays overflowed, and `finalize` fails exactly then. */
  lemma {:induction false} OverflowSticks(b: Built, cl: Client, acts: seq<Act>)
    requires Proper(b, cl, acts)
    ensures var b' := Replay(b, cl, acts).0;
            b'.overflow <==> b.overflow || exists i | 0 <= i < |acts| ::
                acts[i].PatchJump? && !FitsI16(acts[i].target - (acts[i].at + 2))
    decreases |acts|
  {
    if |acts| > 0 {
      OverflowSticks(Apply(b, acts[0]), Note(b, cl, acts[0]), acts[1..]);
      var rest := acts[1..];
      assert forall i | 0 <= i < |rest| :: rest[i] == acts[i + 1];
      if i :| 0 <= i < |acts| && acts[i].PatchJump? && !FitsI16(acts[i].target - (acts[i].at + 2)) && i > 0 {
        assert rest[i - 1] == acts[i];
      }
    }
  }
}
