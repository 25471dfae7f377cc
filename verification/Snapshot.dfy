/** The snapshot codec (src/bytecode/snapshot.zig): the binary image of a compiled function tree, its
    writer and its cursor-based reader. */
module Snapshot {
  import opened Options
  import opened Bits
  import F = Float64
  import opened Bytecode
  import opened Emit

  type Bytes = seq<Byte>

  /** A constant. Objects, symbols and the like have no image. */
  datatype Value = Undef | Null | Bool(b: bool) | Number(bits: nat) | Text(s: Bytes) | Exotic(word: int)

  /** A function without its children. */
  datatype Head = Head(
    name: Option<Bytes>, source: Bytes, arity: nat, numRegs: nat, numLocals: nat, strict: bool,
    params: seq<Bytes>, code: Bytes, lines: seq<nat>, constants: seq<Value>)

  datatype Func = Func(head: Head, children: seq<Func>)

  datatype Error = BadMagic | UnsupportedVersion | Truncated | UnsupportedConstant | BadTag

  /** A value read and the position after it, or an error. */
  datatype Res<T> = Ok(value: T, pos: nat) | Fail(error: Error)

  const MAGIC: Bytes := [74, 83, 90, 66]
  const VERSION := 1

  // ------------------------------------------------------------------ little-endian integers

  function Little(k: nat, v: nat): (r: Bytes)
    ensures |r| == k
  {
    if k == 0 then [] else [v % 256] + Little(k - 1, v / 256)
  }

  function FromLittle(b: Bytes): nat { if |b| == 0 then 0 else (b[0] as nat) + 256 * FromLittle(b[1..]) }

  function Span(k: nat): nat { if k == 0 then 1 else 256 * Span(k - 1) }

  lemma {:induction false} LittleRoundTrip(k: nat, v: nat)
    requires v < Span(k)
    ensures FromLittle(Little(k, v)) == v
  {
    if k > 0 {
      assert Little(k, v)[1..] == Little(k - 1, v / 256);
      LittleRoundTrip(k - 1, v / 256);
    }
  }

  lemma Spans()
    ensures Span(1) == 256 && Span(2) == 0x1_0000 && Span(4) == 0x1_0000_0000 && Span(8) == 0x1_0000_0000_0000_0000
  {
    assert Span(3) == 0x100_0000 && Span(5) == 0x100_0000_0000 && Span(6) == 0x1_0000_0000_0000;
  }

  // ------------------------------------------------------------------ the image

  function EncStr(s: Bytes): Bytes { Little(4, |s|) + s }
  function EncOpt(s: Option<Bytes>): Bytes { if s.None? then [0] else [1] + EncStr(s.value) }

  function EncValue(v: Value): Bytes
  {
    match v
    case Undef => [0]
    case Null => [1]
    case Bool(b) => [if b then 3 else 2]
    case Number(bits) => [4] + Little(8, bits)
    case Text(s) => [5] + EncStr(s)
    case Exotic(_) => []
  }

  function EncAll<T>(enc: T -> Bytes, items: seq<T>): Bytes
  {
    if |items| == 0 then [] else enc(items[0]) + EncAll(enc, items[1..])
  }

  function EncWord(v: nat): Bytes { Little(4, v) }

  function EncHead(h: Head): Bytes
  {
    EncOpt(h.name) + (EncStr(h.source) + (Little(2, h.arity)
        + (Little(2, h.numRegs) + (Little(2, h.numLocals) + ([if h.strict then 1 else 0]
    + ((Little(2, |h.params|) + EncAll(EncStr, h.params))
        + (EncStr(h.code) + ((Little(4, |h.lines|) + EncAll(EncWord, h.lines))
    + (Little(2, |h.constants|) + EncAll(EncValue, h.constants))))))))))
  }

  function EncFunc(f: Func): Bytes
    decreases f, 1
  {
    EncHead(f.head) + (Little(2, |f.children|) + EncChildren(f.children))
  }

  function EncChildren(fs: seq<Func>): Bytes
    decreases fs, 0
  {
    if |fs| == 0 then [] else EncFunc(fs[0]) + EncChildren(fs[1..])
  }

  function Image(f: Func): Bytes { MAGIC + (Little(4, VERSION) + EncFunc(f)) }

  // ------------------------------------------------------------------ what can be written

  predicate Plain(v: Value) { !v.Exotic? }

  /** No constant anywhere in the tree is of an unsupported kind. */
  predicate Supported(f: Func)
    decreases f, 1
  {
    (forall i | 0 <= i < |f.head.constants| :: Plain(f.head.constants[i])) && AllSupported(f.children)
  }

  predicate AllSupported(fs: seq<Func>)
    decreases fs, 0
  {
    |fs| == 0 || (Supported(fs[0]) && AllSupported(fs[1..]))
  }

  /** The value of a number constant: one NaN pattern, as `makeNumber` keeps it. */
  function Canonical(bits: nat): nat { if F.Decode(bits).NaN? then F.QUIET_NAN else bits }

  predicate Short(s: Bytes) { |s| < 0x1_0000_0000 }
  predicate ValueFits(v: Value)
  {
    match v
    case Number(bits) => bits < 0x1_0000_0000_0000_0000 && Canonical(bits) == bits
    case Text(s) => Short(s)
    case _ => true
  }

  /** Every length and counter fits its field. */
  predicate HeadFits(h: Head)
  {
    && (h.name.Some? ==> Short(h.name.value)) && Short(h.source) && h.arity < 0x1_0000 && h.numRegs < 0x1_0000
         && h.numLocals < 0x1_0000
    && |h.params| < 0x1_0000 && (forall i | 0 <= i < |h.params| :: Short(h.params[i])) && Short(h.code)
    && |h.lines| < 0x1_0000_0000 && (forall i | 0 <= i < |h.lines| :: h.lines[i] < 0x1_0000_0000)
    && |h.constants| < 0x1_0000 && (forall i | 0 <= i < |h.constants| :: ValueFits(h.constants[i]))
  }

  predicate Fits(f: Func)
    decreases f, 1
  {
    HeadFits(f.head) && |f.children| < 0x1_0000 && AllFit(f.children)
  }

  predicate AllFit(fs: seq<Func>)
    decreases fs, 0
  {
    |fs| == 0 || (Fits(fs[0]) && AllFit(fs[1..]))
  }

  // ------------------------------------------------------------------ reading

  function UIntAt(k: nat, d: Bytes, p: nat): Res<nat>
  {
    if p + k > |d| then Fail(Truncated) else Ok(FromLittle(d[p..p + k]), p + k)
  }

  function RawAt(n: nat, d: Bytes, p: nat): Res<Bytes>
  {
    if p + n > |d| then Fail(Truncated) else Ok(d[p..p + n], p + n)
  }

  function WordAt(d: Bytes, p: nat): Res<nat> { UIntAt(4, d, p) }

  function StrAt(d: Bytes, p: nat): Res<Bytes>
  {
    match UIntAt(4, d, p) case Fail(e) => Fail(e) case Ok(n, q) => RawAt(n, d, q)
  }

  function OptAt(d: Bytes, p: nat): Res<Option<Bytes>>
  {
    match UIntAt(1, d, p)
    case Fail(e) => Fail(e)
    case Ok(present, q) =>
      if present == 0 then Ok(None, q)
      else match StrAt(d, q) case Fail(e) => Fail(e) case Ok(s, q2) => Ok(Some(s), q2)
  }

  function FlagAt(d: Bytes, p: nat): Res<bool>
  {
    match UIntAt(1, d, p) case Fail(e) => Fail(e) case Ok(v, q) => Ok(v != 0, q)
  }

  function ValueAt(d: Bytes, p: nat): Res<Value>
  {
    match UIntAt(1, d, p)
    case Fail(e) => Fail(e)
    case Ok(tag, q) =>
      if tag == 0 then Ok(Undef, q)
      else if tag == 1 then Ok(Null, q)
      else if tag == 2 then Ok(Bool(false), q)
      else if tag == 3 then Ok(Bool(true), q)
      else if tag == 4 then (match UIntAt(8, d, q) case Fail(e) => Fail(e) case Ok(bits, q2) =>
          Ok(Number(Canonical(bits)), q2))
      else if tag == 5 then (match StrAt(d, q) case Fail(e) => Fail(e) case Ok(s, q2) => Ok(Text(s), q2))
      else Fail(BadTag)
  }

  /** A reader: bytes and a position in, a value and a later position out. */
  type Reads<!T> = (Bytes, nat) -> Res<T>

  function ManyAt<T>(item: Reads<T>, n: nat, d: Bytes, p: nat): Res<seq<T>>
    decreases n
  {
    if n == 0 then Ok([], p)
    else match item(d, p)
      case Fail(e) => Fail(e)
      case Ok(v, q) => (match ManyAt(item, n - 1, d, q) case Fail(e) => Fail(e) case Ok(vs, q2) => Ok([v] + vs, q2))
  }

  /** A count of `k` bytes, then that many items. */
  function ListAt<T>(k: nat, item: Reads<T>, d: Bytes, p: nat): Res<seq<T>>
  {
    match UIntAt(k, d, p) case Fail(e) => Fail(e) case Ok(n, q) => ManyAt(item, n, d, q)
  }

  function HeadAt(d: Bytes, p: nat): Res<Head>
  {
    match OptAt(d, p) case Fail(e) => Fail(e) case Ok(name, p1) =>
    match StrAt(d, p1) case Fail(e) => Fail(e) case Ok(source, p2) =>
    NumbersAt(name, source, d, p2)
  }

  /** The fixed-size fields of a head. */
  function NumbersAt(name: Option<Bytes>, source: Bytes, d: Bytes, p: nat): Res<Head>
  {
    match UIntAt(2, d, p) case Fail(e) => Fail(e) case Ok(arity, p1) =>
    match UIntAt(2, d, p1) case Fail(e) => Fail(e) case Ok(regs, p2) =>
    match UIntAt(2, d, p2) case Fail(e) => Fail(e) case Ok(locals, p3) =>
    match FlagAt(d, p3) case Fail(e) => Fail(e) case Ok(strict, p4) =>
    TailAt(name, source, arity, regs, locals, strict, d, p4)
  }

  /** The variable-length lists of a head. */
  function TailAt(name: Option<Bytes>, source: Bytes, arity: nat, regs: nat, locals: nat, strict: bool, d: Bytes,
                  p: nat): Res<Head>
  {
    match ListAt(2, StrAt, d, p) case Fail(e) => Fail(e) case Ok(params, p1) =>
    match StrAt(d, p1) case Fail(e) => Fail(e) case Ok(code, p2) =>
    match ListAt(4, WordAt, d, p2) case Fail(e) => Fail(e) case Ok(lines, p3) =>
    match ListAt(2, ValueAt, d, p3) case Fail(e) => Fail(e) case Ok(constants, p4) =>
    Ok(Head(name, source, arity, regs, locals, strict, params, code, lines, constants), p4)
  }

  // ------------------------------------------------------------------ every reader is well-behaved

  /** More bytes do not change what a reader makes of the bytes it had, unless it ran out of them; and
      it stays within the bytes. */
  ghost predicate Steady<T>(a: Res<T>, b: Res<T>, d: Bytes, p: nat)
  {
    && (a != Fail(Truncated) ==> b == a)
    && (a.Ok? ==> p <= a.pos <= |d|)
  }

  ghost predicate SteadyReader<T>(item: Reads<T>)
  {
    forall d: Bytes, more: Bytes, p: nat | p <= |d| :: Steady(item(d, p), item(d + more, p), d, p)
  }

  lemma UIntSteady(k: nat, d: Bytes, more: Bytes, p: nat)
    ensures Steady(UIntAt(k, d, p), UIntAt(k, d + more, p), d, p)
  {
    if p + k <= |d| { assert (d + more)[p..p + k] == d[p..p + k]; }
  }

  lemma RawSteady(n: nat, d: Bytes, more: Bytes, p: nat)
    ensures Steady(RawAt(n, d, p), RawAt(n, d + more, p), d, p)
  {
    if p + n <= |d| { assert (d + more)[p..p + n] == d[p..p + n]; }
  }

  lemma StrSteady(d: Bytes, more: Bytes, p: nat)
    ensures Steady(StrAt(d, p), StrAt(d + more, p), d, p)
  {
    hide UIntAt, RawAt;
    UIntSteady(4, d, more, p);
    var n := UIntAt(4, d, p);
    if n.Ok? { RawSteady(n.value, d, more, n.pos); }
  }

  lemma OptSteady(d: Bytes, more: Bytes, p: nat)
    ensures Steady(OptAt(d, p), OptAt(d + more, p), d, p)
  {
    hide UIntAt, StrAt;
    UIntSteady(1, d, more, p);
    var n := UIntAt(1, d, p);
    if n.Ok? { StrSteady(d, more, n.pos); }
  }

  lemma FlagSteady(d: Bytes, more: Bytes, p: nat)
    ensures Steady(FlagAt(d, p), FlagAt(d + more, p), d, p)
  {
    hide UIntAt;
    UIntSteady(1, d, more, p);
  }

  lemma ValueSteady(d: Bytes, more: Bytes, p: nat)
    ensures Steady(ValueAt(d, p), ValueAt(d + more, p), d, p)
  {
    hide UIntAt, StrAt, Canonical;
    UIntSteady(1, d, more, p);
    var n := UIntAt(1, d, p);
    if n.Ok? { StrSteady(d, more, n.pos); UIntSteady(8, d, more, n.pos); }
  }

  lemma ItemsSteady()
    ensures SteadyReader(StrAt) && SteadyReader(WordAt) && SteadyReader(ValueAt)
  {
    hide StrAt, UIntAt, ValueAt;
    forall d: Bytes, more: Bytes, p: nat | p <= |d|
      ensures Steady(StrAt(d, p), StrAt(d + more, p), d, p)
      ensures Steady(WordAt(d, p), WordAt(d + more, p), d, p)
      ensures Steady(ValueAt(d, p), ValueAt(d + more, p), d, p)
    {
      StrSteady(d, more, p); UIntSteady(4, d, more, p); ValueSteady(d, more, p);
    }
  }

  lemma {:induction false} ManySteady<T>(item: Reads<T>, n: nat, d: Bytes, more: Bytes, p: nat)
    requires SteadyReader(item) && p <= |d|
    ensures Steady(ManyAt(item, n, d, p), ManyAt(item, n, d + more, p), d, p)
    decreases n
  {
    if n > 0 {
      var v := item(d, p);
      assert Steady(v, item(d + more, p), d, p);
      if v.Ok? { ManySteady(item, n - 1, d, more, v.pos); }
    }
  }

  lemma ListSteady<T>(k: nat, item: Reads<T>, d: Bytes, more: Bytes, p: nat)
    requires SteadyReader(item) && p <= |d|
    ensures Steady(ListAt(k, item, d, p), ListAt(k, item, d + more, p), d, p)
  {
    hide UIntAt, ManyAt, SteadyReader;
    UIntSteady(k, d, more, p);
    var n := UIntAt(k, d, p);
    if n.Ok? { ManySteady(item, n.value, d, more, n.pos); }
  }

  lemma TailSteady(name: Option<Bytes>, source: Bytes, arity: nat, regs: nat, locals: nat, strict: bool, d: Bytes,
                   more: Bytes, p: nat)
    requires p <= |d|
    ensures Steady(TailAt(name, source, arity, regs, locals, strict, d, p),
            TailAt(name, source, arity, regs, locals, strict, d + more, p), d, p)
  {
    hide StrAt, ListAt, SteadyReader;
    ItemsSteady();
    ListSteady(2, StrAt, d, more, p);
    var a := ListAt(2, StrAt, d, p);
    if a.Ok? {
      StrSteady(d, more, a.pos);
      var b := StrAt(d, a.pos);
      if b.Ok? {
        ListSteady(4, WordAt, d, more, b.pos);
        var c := ListAt(4, WordAt, d, b.pos);
        if c.Ok? { ListSteady(2, ValueAt, d, more, c.pos); }
      }
    }
  }

  lemma HeadSteady(d: Bytes, more: Bytes, p: nat)
    requires p <= |d|
    ensures Steady(HeadAt(d, p), HeadAt(d + more, p), d, p)
  {
    hide OptAt, StrAt, UIntAt, FlagAt, TailAt;
    OptSteady(d, more, p);
    var a := OptAt(d, p);
    if a.Ok? {
      StrSteady(d, more, a.pos);
      var b := StrAt(d, a.pos);
      if b.Ok? { NumbersSteady(a.value, b.value, d, more, b.pos); }
    }
  }

  lemma NumbersSteady(name: Option<Bytes>, source: Bytes, d: Bytes, more: Bytes, p2: nat)
    requires p2 <= |d|
    ensures Steady(NumbersAt(name, source, d, p2), NumbersAt(name, source, d + more, p2), d, p2)
  {
    hide UIntAt, FlagAt, TailAt;
    UIntSteady(2, d, more, p2);
    var a := UIntAt(2, d, p2);
    if a.Ok? {
      UIntSteady(2, d, more, a.pos);
      var b := UIntAt(2, d, a.pos);
      if b.Ok? {
        UIntSteady(2, d, more, b.pos);
        var c := UIntAt(2, d, b.pos);
        if c.Ok? {
          FlagSteady(d, more, c.pos);
          var f := FlagAt(d, c.pos);
          if f.Ok? { TailSteady(name, source, a.value, b.value, c.value, f.value, d, more, f.pos); }
        }
      }
    }
  }

  // ------------------------------------------------------------------ function trees

  function FuncAt(d: Bytes, p: nat): (r: Res<Func>)
    requires p <= |d|
    ensures r.Ok? ==> p < r.pos <= |d|
    decreases |d| - p, 0
  {
    HeadSteady(d, [], p);
    match HeadAt(d, p) case Fail(e) => Fail(e) case Ok(head, p1) =>
    match UIntAt(2, d, p1) case Fail(e) => Fail(e) case Ok(n, p2) =>
    match ChildrenAt(d, p2, n) case Fail(e) => Fail(e) case Ok(children, p3) =>
    Ok(Func(head, children), p3)
  }

  /** Each child consumes bytes, so reading a tree terminates on any input. */
  function ChildrenAt(d: Bytes, p: nat, n: nat): (r: Res<seq<Func>>)
    requires p <= |d|
    ensures r.Ok? ==> p <= r.pos <= |d|
    decreases |d| - p, 1
  {
    if n == 0 then Ok([], p)
    else match FuncAt(d, p)
      case Fail(e) => Fail(e)
      case Ok(f, q) => (match ChildrenAt(d, q, n - 1) case Fail(e) => Fail(e) case Ok(fs, q2) => Ok([f] + fs, q2))
  }

  function Restored(d: Bytes): Res<Func>
  {
    if |d| < 4 then Fail(Truncated)
    else if d[..4] != MAGIC then Fail(BadMagic)
    else match UIntAt(4, d, 4) case Fail(e) => Fail(e) case Ok(v, p) =>
      if v != VERSION then Fail(UnsupportedVersion) else FuncAt(d, p)
  }

  lemma {:induction false} FuncSteady(d: Bytes, more: Bytes, p: nat)
    requires p <= |d|
    ensures Steady(FuncAt(d, p), FuncAt(d + more, p), d, p)
    decreases |d| - p, 0
  {
    hide HeadAt, UIntAt;
    HeadSteady(d, more, p);
    HeadSteady(d + more, [], p);
    var h := HeadAt(d, p);
    if h.Ok? {
      UIntSteady(2, d, more, h.pos);
      var n := UIntAt(2, d, h.pos);
      TwoBytes(d, h.pos);
      if n.Ok? { ChildrenSteady(d, more, n.pos, n.value); }
    }
  }

  lemma TwoBytes(d: Bytes, p: nat)
    ensures UIntAt(2, d, p).Ok? ==> UIntAt(2, d, p).pos == p + 2
  {
  }

  lemma {:induction false} ChildrenSteady(d: Bytes, more: Bytes, p: nat, n: nat)
    requires p <= |d|
    ensures Steady(ChildrenAt(d, p, n), ChildrenAt(d + more, p, n), d, p)
    decreases |d| - p, 1
  {
    if n > 0 {
      FuncSteady(d, more, p);
      var f := FuncAt(d, p);
      if f.Ok? { ChildrenSteady(d, more, f.pos, n - 1); }
    }
  }

  /** Framing: bytes appended after anything but a cut-off image do not change what is read. */
  lemma SuffixIgnored(d: Bytes, more: Bytes)
    requires Restored(d) != Fail(Truncated)
    ensures Restored(d + more) == Restored(d)
    ensures Restored(d).Ok? ==> Restored(d).pos <= |d|
  {
    hide UIntAt, FuncAt;
    assert (d + more)[..4] == d[..4];
    if d[..4] == MAGIC {
      UIntSteady(4, d, more, 4);
      var v := UIntAt(4, d, 4);
      if v.Ok? && v.value == VERSION { FuncSteady(d, more, v.pos); }
    }
  }

  // ------------------------------------------------------------------ writing then reading

  lemma Here(d: Bytes, p: nat, a: Bytes, b: Bytes)
    requires p + |a + b| <= |d| && d[p..p + |a + b|] == a + b
    ensures p + |a| <= |d| && d[p..p + |a|] == a
    ensures p + |a| + |b| == p + |a + b| && d[p + |a|..p + |a| + |b|] == b
  {
    assert d[p..p + |a|] == (a + b)[..|a|];
    assert d[p + |a|..p + |a| + |b|] == (a + b)[|a|..];
  }

  lemma UIntSpells(k: nat, v: nat, d: Bytes, p: nat)
    requires v < Span(k) && p + k <= |d| && d[p..p + k] == Little(k, v)
    ensures UIntAt(k, d, p) == Ok(v, p + k)
  {
    LittleRoundTrip(k, v);
  }

  lemma StrSpells(s: Bytes, d: Bytes, p: nat)
    requires Short(s) && p + |EncStr(s)| <= |d| && d[p..p + |EncStr(s)|] == EncStr(s)
    ensures StrAt(d, p) == Ok(s, p + |EncStr(s)|)
  {
    Spans();
    Here(d, p, Little(4, |s|), s);
    UIntSpells(4, |s|, d, p);
  }

  lemma OptSpells(s: Option<Bytes>, d: Bytes, p: nat)
    requires (s.Some? ==> Short(s.value)) && p + |EncOpt(s)| <= |d| && d[p..p + |EncOpt(s)|] == EncOpt(s)
    ensures OptAt(d, p) == Ok(s, p + |EncOpt(s)|)
  {
    hide EncStr;
    Spans();
    if s.None? {
      OneByte(0, d, p);
    } else {
      Here(d, p, [1], EncStr(s.value));
      OneByte(1, d, p);
      StrSpells(s.value, d, p + 1);
    }
  }

  lemma OneByte(v: Byte, d: Bytes, p: nat)
    requires p + 1 <= |d| && d[p..p + 1] == [v]
    ensures UIntAt(1, d, p) == Ok(v as nat, p + 1)
  {
    Spans();
    assert Little(0, (v as nat) / 256) == [];
    assert Little(1, v) == [v];
    UIntSpells(1, v, d, p);
  }

  lemma ValueSpells(v: Value, d: Bytes, p: nat)
    requires Plain(v) && ValueFits(v) && p + |EncValue(v)| <= |d| && d[p..p + |EncValue(v)|] == EncValue(v)
    ensures ValueAt(d, p) == Ok(v, p + |EncValue(v)|)
  {
    hide EncStr, UIntAt, StrAt, Canonical;
    Spans();
    match v
    case Undef => OneByte(0, d, p);
    case Null => OneByte(1, d, p);
    case Bool(b) => OneByte(if b then 3 else 2, d, p);
    case Number(bits) =>
      Here(d, p, [4], Little(8, bits));
      OneByte(4, d, p);
      UIntSpells(8, bits, d, p + 1);
    case Text(s) =>
      Here(d, p, [5], EncStr(s));
      OneByte(5, d, p);
      StrSpells(s, d, p + 1);
    case Exotic(_) =>
  }

  /** A reader undoes an encoder on the items `ok` admits. */
  ghost predicate Undoes<T>(item: Reads<T>, enc: T -> Bytes, items: seq<T>)
  {
    forall i, d: Bytes, p: nat | 0 <= i < |items| && p + |enc(items[i])| <= |d|
        && d[p..p + |enc(items[i])|] == enc(items[i]) ::
      item(d, p) == Ok(items[i], p + |enc(items[i])|)
  }

  lemma UndoesRest<T>(item: Reads<T>, enc: T -> Bytes, items: seq<T>)
    requires Undoes(item, enc, items) && |items| > 0
    ensures Undoes(item, enc, items[1..])
  {
  }

  lemma UndoesFirst<T>(item: Reads<T>, enc: T -> Bytes, items: seq<T>, d: Bytes, p: nat)
    requires Undoes(item, enc, items) && |items| > 0
    requires p + |enc(items[0])| <= |d| && d[p..p + |enc(items[0])|] == enc(items[0])
    ensures item(d, p) == Ok(items[0], p + |enc(items[0])|)
  {
  }

  lemma {:induction false} ManySpells<T>(item: Reads<T>, enc: T -> Bytes, items: seq<T>, d: Bytes, p: nat)
    requires Undoes(item, enc, items)
    requires p + |EncAll(enc, items)| <= |d| && d[p..p + |EncAll(enc, items)|] == EncAll(enc, items)
    ensures ManyAt(item, |items|, d, p) == Ok(items, p + |EncAll(enc, items)|)
    decreases |items|
  {
    hide Undoes;
    if |items| > 0 {
      var b, rest := enc(items[0]), EncAll(enc, items[1..]);
      Here(d, p, b, rest);
      UndoesFirst(item, enc, items, d, p);
      UndoesRest(item, enc, items);
      ManySpells(item, enc, items[1..], d, p + |b|);
      Rejoin(items);
    }
  }

  lemma ListSpells<T>(k: nat, item: Reads<T>, enc: T -> Bytes, items: seq<T>, d: Bytes, p: nat)
    requires Undoes(item, enc, items) && |items| < Span(k)
    requires var b := Little(k, |items|) + EncAll(enc, items); p + |b| <= |d| && d[p..p + |b|] == b
    ensures ListAt(k, item, d, p) == Ok(items, p + |Little(k, |items|) + EncAll(enc, items)|)
  {
    hide ManyAt, Undoes, EncAll;
    Here(d, p, Little(k, |items|), EncAll(enc, items));
    UIntSpells(k, |items|, d, p);
    ManySpells(item, enc, items, d, p + k);
  }

  lemma ItemsUndo(h: Head)
    requires HeadFits(h) && forall i | 0 <= i < |h.constants| :: Plain(h.constants[i])
    ensures Undoes(StrAt, EncStr, h.params) && Undoes(WordAt, EncWord, h.lines)
            && Undoes(ValueAt, EncValue, h.constants)
  {
    hide StrAt, EncStr, ValueAt, EncValue, UIntAt, Little;
    Spans();
    forall i, d: Bytes, p: nat | 0 <= i < |h.params| && p + |EncStr(h.params[i])| <= |d|
        && d[p..p + |EncStr(h.params[i])|] == EncStr(h.params[i])
      ensures StrAt(d, p) == Ok(h.params[i], p + |EncStr(h.params[i])|)
    {
      StrSpells(h.params[i], d, p);
    }
    forall i, d: Bytes, p: nat | 0 <= i < |h.lines| && p + |EncWord(h.lines[i])| <= |d|
        && d[p..p + |EncWord(h.lines[i])|] == EncWord(h.lines[i])
      ensures WordAt(d, p) == Ok(h.lines[i], p + |EncWord(h.lines[i])|)
    {
      UIntSpells(4, h.lines[i], d, p);
    }
    forall i, d: Bytes, p: nat | 0 <= i < |h.constants| && p + |EncValue(h.constants[i])| <= |d|
        && d[p..p + |EncValue(h.constants[i])|] == EncValue(h.constants[i])
      ensures ValueAt(d, p) == Ok(h.constants[i], p + |EncValue(h.constants[i])|)
    {
      ValueSpells(h.constants[i], d, p);
    }
  }

  function EncTail(h: Head): Bytes
  {
    (Little(2, |h.params|) + EncAll(EncStr, h.params))
        + (EncStr(h.code) + ((Little(4, |h.lines|) + EncAll(EncWord, h.lines))
    + (Little(2, |h.constants|) + EncAll(EncValue, h.constants))))
  }

  function EncNumbers(h: Head): Bytes
  {
    Little(2, h.arity) + (Little(2, h.numRegs) + (Little(2, h.numLocals) + ([if h.strict then 1 else 0] + EncTail(h))))
  }

  lemma TailSpells(h: Head, d: Bytes, p: nat)
    requires HeadFits(h) && forall i | 0 <= i < |h.constants| :: Plain(h.constants[i])
    requires p + |EncTail(h)| <= |d| && d[p..p + |EncTail(h)|] == EncTail(h)
    ensures TailAt(h.name, h.source, h.arity, h.numRegs, h.numLocals, h.strict, d, p) == Ok(h, p + |EncTail(h)|)
  {
    hide ListAt, StrAt, EncAll, EncStr, Undoes, Little;
    Spans();
    ItemsUndo(h);
    var a, b := Little(2, |h.params|) + EncAll(EncStr, h.params), EncStr(h.code);
    var c, e := Little(4, |h.lines|) + EncAll(EncWord, h.lines),
        Little(2, |h.constants|) + EncAll(EncValue, h.constants);
    Here(d, p, a, b + (c + e));
    Here(d, p + |a|, b, c + e);
    Here(d, p + |a| + |b|, c, e);
    ListSpells(2, StrAt, EncStr, h.params, d, p);
    StrSpells(h.code, d, p + |a|);
    ListSpells(4, WordAt, EncWord, h.lines, d, p + |a| + |b|);
    ListSpells(2, ValueAt, EncValue, h.constants, d, p + |a| + |b| + |c|);
  }

  lemma NumbersSpells(h: Head, d: Bytes, p: nat)
    requires HeadFits(h) && forall i | 0 <= i < |h.constants| :: Plain(h.constants[i])
    requires p + |EncNumbers(h)| <= |d| && d[p..p + |EncNumbers(h)|] == EncNumbers(h)
    ensures NumbersAt(h.name, h.source, d, p) == Ok(h, p + |EncNumbers(h)|)
  {
    hide TailAt, EncTail, UIntAt, Little;
    Spans();
    var a, b, c, f, t := Little(2, h.arity), Little(2, h.numRegs), Little(2, h.numLocals),
        [if h.strict then 1 else 0], EncTail(h);
    Here(d, p, a, b + (c + (f + t)));
    Here(d, p + 2, b, c + (f + t));
    Here(d, p + 4, c, f + t);
    Here(d, p + 6, f, t);
    UIntSpells(2, h.arity, d, p);
    UIntSpells(2, h.numRegs, d, p + 2);
    UIntSpells(2, h.numLocals, d, p + 4);
    OneByte(f[0], d, p + 6);
    TailSpells(h, d, p + 7);
  }

  lemma HeadSpells(h: Head, d: Bytes, p: nat)
    requires HeadFits(h) && forall i | 0 <= i < |h.constants| :: Plain(h.constants[i])
    requires p + |EncHead(h)| <= |d| && d[p..p + |EncHead(h)|] == EncHead(h)
    ensures HeadAt(d, p) == Ok(h, p + |EncHead(h)|)
  {
    hide EncOpt, EncStr, EncNumbers, NumbersAt, OptAt, StrAt;
    var a, b, c := EncOpt(h.name), EncStr(h.source), EncNumbers(h);
    assert EncHead(h) == a + (b + c) by { HeadShape(h); }
    Here(d, p, a, b + c);
    Here(d, p + |a|, b, c);
    OptSpells(h.name, d, p);
    StrSpells(h.source, d, p + |a|);
    NumbersSpells(h, d, p + |a| + |b|);
  }

  lemma HeadShape(h: Head)
    ensures EncHead(h) == EncOpt(h.name) + (EncStr(h.source) + EncNumbers(h))
  {
    hide EncOpt, EncStr, EncAll, Little;
  }

  lemma {:induction false} FuncSpells(f: Func, d: Bytes, p: nat)
    requires Fits(f) && Supported(f) && p + |EncFunc(f)| <= |d| && d[p..p + |EncFunc(f)|] == EncFunc(f)
    ensures FuncAt(d, p) == Ok(f, p + |EncFunc(f)|)
    decreases f, 1
  {
    hide EncHead, HeadAt, UIntAt, Little;
    Spans();
    var a, b, c := EncHead(f.head), Little(2, |f.children|), EncChildren(f.children);
    Here(d, p, a, b + c);
    Here(d, p + |a|, b, c);
    HeadSpells(f.head, d, p);
    UIntSpells(2, |f.children|, d, p + |a|);
    ChildrenSpells(f.children, d, p + |a| + 2);
  }

  lemma {:induction false} ChildrenSpells(fs: seq<Func>, d: Bytes, p: nat)
    requires AllFit(fs) && AllSupported(fs) && p + |EncChildren(fs)| <= |d|
    requires d[p..p + |EncChildren(fs)|] == EncChildren(fs)
    ensures ChildrenAt(d, p, |fs|) == Ok(fs, p + |EncChildren(fs)|)
    decreases fs, 0
  {
    hide EncFunc, FuncAt, Fits, Supported;
    if |fs| > 0 {
      var a, rest := EncFunc(fs[0]), EncChildren(fs[1..]);
      Here(d, p, a, rest);
      FuncSpells(fs[0], d, p);
      ChildrenSpells(fs[1..], d, p + |a|);
      Rejoin(fs);
    }
  }

  lemma Rejoin<T>(s: seq<T>)
    requires |s| > 0
    ensures [s[0]] + s[1..] == s
  {
  }

  /** Round trip, at every depth of the tree, whatever follows the image. */
  lemma RoundTrip(f: Func, more: Bytes)
    requires Fits(f) && Supported(f)
    ensures Restored(Image(f) + more) == Ok(f, |Image(f)|)
  {
    hide EncFunc, FuncAt, UIntAt, Little;
    Spans();
    var d := Image(f) + more;
    assert d[0..0 + |Image(f)|] == Image(f);
    Here(d, 0, MAGIC, Little(4, VERSION) + EncFunc(f));
    Here(d, 4, Little(4, VERSION), EncFunc(f));
    assert d[..4] == d[0..4];
    UIntSpells(4, VERSION, d, 4);
    FuncSpells(f, d, 8);
  }

  /** Every strict prefix of an image is rejected as truncated. */
  lemma PrefixTruncated(f: Func, n: nat)
    requires Fits(f) && Supported(f) && n < |Image(f)|
    ensures Restored(Image(f)[..n]) == Fail(Truncated)
  {
    hide Restored, Image;
    var d := Image(f)[..n];
    RoundTrip(f, []);
    assert d + Image(f)[n..] == Image(f) && Image(f) + [] == Image(f);
    if Restored(d) != Fail(Truncated) { SuffixIgnored(d, Image(f)[n..]); }
  }
}
