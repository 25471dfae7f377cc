/** The snapshot writer and reader in the form they are written in: a growing buffer, and a cursor
    that advances over the image. */
module SnapshotIO {
  import opened Options
  import opened Bytecode
  import opened Emit
  import opened Snapshot

  // ------------------------------------------------------------------ lists, built from the left

  lemma {:induction false} EncAllSnoc<T>(enc: T -> Bytes, items: seq<T>, i: nat)
    requires i < |items|
    ensures EncAll(enc, items[..i + 1]) == EncAll(enc, items[..i]) + enc(items[i])
  {
    if i > 0 {
      EncAllSnoc(enc, items[1..], i - 1);
      assert items[..i + 1][1..] == items[1..][..i] && items[..i][1..] == items[1..][..i - 1];
    } else {
      assert items[..1][1..] == [] && items[..0] == [];
    }
  }

  lemma {:induction false} ChildrenSnoc(fs: seq<Func>, i: nat)
    requires i < |fs|
    ensures EncChildren(fs[..i + 1]) == EncChildren(fs[..i]) + EncFunc(fs[i])
  {
    hide EncFunc;
    if i > 0 {
      ChildrenSnoc(fs[1..], i - 1);
      assert fs[..i + 1][1..] == fs[1..][..i] && fs[..i][1..] == fs[1..][..i - 1];
    } else {
      assert fs[..1][1..] == [] && fs[..0] == [];
    }
  }

  lemma {:induction false} SupportedAt(fs: seq<Func>, i: nat)
    requires i < |fs|
    ensures AllSupported(fs) ==> Supported(fs[i])
  {
    hide Supported;
    if i > 0 { SupportedAt(fs[1..], i - 1); }
  }

  lemma {:induction false} SupportedAll(fs: seq<Func>)
    requires forall i | 0 <= i < |fs| :: Supported(fs[i])
    ensures AllSupported(fs)
  {
    hide Supported;
    if |fs| > 0 {
      assert forall i | 0 <= i < |fs[1..]| :: fs[1..][i] == fs[i + 1];
      SupportedAll(fs[1..]);
    }
  }

  class Writer {
    var buf: Bytes

    constructor () ensures buf == [] { buf := []; }

    method Raw(b: Bytes) modifies this ensures buf == old(buf) + b { buf := buf + b; }

    method UInt(k: nat, v: nat) modifies this ensures buf == old(buf) + Little(k, v)
    {
      var n: nat, rest: nat := k, v;
      ghost var b0 := buf;
      while n > 0
        invariant n <= k && b0 + Little(k, v) == buf + Little(n, rest)
      {
        assert Little(n, rest) == [(rest % 256) as Byte] + Little(n - 1, rest / 256);
        assert buf + Little(n, rest) == buf + [(rest % 256) as Byte] + Little(n - 1, rest / 256);
        buf := buf + [rest % 256];
        n, rest := n - 1, rest / 256;
      }
    }

    method Str(s: Bytes) modifies this ensures buf == old(buf) + EncStr(s)
    {
      UInt(4, |s|);
      Raw(s);
      assert old(buf) + Little(4, |s|) + s == old(buf) + (Little(4, |s|) + s);
    }

    method OptStr(s: Option<Bytes>) modifies this ensures buf == old(buf) + EncOpt(s)
    {
      hide EncStr;
      match s
      case None => Raw([0]);
      case Some(x) =>
        Raw([1]);
        Str(x);
        assert old(buf) + [1] + EncStr(x) == old(buf) + ([1] + EncStr(x));
    }

    method Constant(v: Value) returns (ok: bool)
      modifies this
      ensures ok == Plain(v) && (ok ==> buf == old(buf) + EncValue(v))
    {
      hide EncStr, Little;
      ok := true;
      match v
      case Undef => Raw([0]);
      case Null => Raw([1]);
      case Bool(b) => Raw([if b then 3 else 2]);
      case Number(bits) =>
        Raw([4]);
        UInt(8, bits);
        assert old(buf) + [4] + Little(8, bits) == old(buf) + ([4] + Little(8, bits));
      case Text(s) =>
        Raw([5]);
        Str(s);
        assert old(buf) + [5] + EncStr(s) == old(buf) + ([5] + EncStr(s));
      case Exotic(_) => ok := false;
    }

    method Strings(items: seq<Bytes>) modifies this ensures buf == old(buf) + EncAll(EncStr, items)
    {
      hide EncStr, EncAll;
      NoItems(EncStr);
      for i := 0 to |items|
        invariant buf == old(buf) + EncAll(EncStr, items[..i])
      {
        EncAllSnoc(EncStr, items, i);
        Str(items[i]);
      }
      assert items[..|items|] == items;
    }

    method Words(items: seq<nat>) modifies this ensures buf == old(buf) + EncAll(EncWord, items)
    {
      hide EncAll, Little;
      NoItems(EncWord);
      for i := 0 to |items|
        invariant buf == old(buf) + EncAll(EncWord, items[..i])
      {
        EncAllSnoc(EncWord, items, i);
        UInt(4, items[i]);
      }
      assert items[..|items|] == items;
    }

    /** Stops at the first constant without an image. */
    method Constants(items: seq<Value>) returns (ok: bool)
      modifies this
      ensures ok <==> forall i | 0 <= i < |items| :: Plain(items[i])
      ensures ok ==> buf == old(buf) + EncAll(EncValue, items)
    {
      hide EncValue, EncAll;
      NoItems(EncValue);
      for i := 0 to |items|
        invariant forall j | 0 <= j < i :: Plain(items[j])
        invariant buf == old(buf) + EncAll(EncValue, items[..i])
      {
        EncAllSnoc(EncValue, items, i);
        var fine := Constant(items[i]);
        if !fine { return false; }
      }
      assert items[..|items|] == items;
      ok := true;
    }

    method WriteHead(h: Head) returns (ok: bool)
      modifies this
      ensures ok <==> forall i | 0 <= i < |h.constants| :: Plain(h.constants[i])
      ensures ok ==> buf == old(buf) + EncHead(h)
    {
      hide EncOpt, EncStr, EncAll, Little, EncHead;
      ghost var b0 := buf;
      OptStr(h.name);
      Str(h.source);
      UInt(2, h.arity);
      UInt(2, h.numRegs);
      UInt(2, h.numLocals);
      Raw([if h.strict then 1 else 0]);
      ghost var b1 := buf;
      UInt(2, |h.params|);
      Strings(h.params);
      Str(h.code);
      UInt(4, |h.lines|);
      Words(h.lines);
      UInt(2, |h.constants|);
      ok := Constants(h.constants);
      if ok {
        HeadFront(h, b0);
        HeadBack(h, b1);
        HeadJoin(h, b0);
      }
    }

    /** `writeFunction`: the function, then its children, recursively. */
    method WriteFunction(f: Func) returns (ok: bool)
      modifies this
      ensures ok == Supported(f)
      ensures ok ==> buf == old(buf) + EncFunc(f)
      decreases f
    {
      hide EncHead, EncChildren, Little, AllSupported;
      ghost var b0 := buf;
      ok := WriteHead(f.head);
      if !ok { return; }
      UInt(2, |f.children|);
      ghost var b1 := buf;
      NoChildren();
      for i := 0 to |f.children|
        invariant forall j | 0 <= j < i :: Supported(f.children[j])
        invariant buf == b1 + EncChildren(f.children[..i])
      {
        ChildrenSnoc(f.children, i);
        var fine := WriteFunction(f.children[i]);
        if !fine {
          SupportedAt(f.children, i);
          return false;
        }
      }
      SupportedAll(f.children);
      assert f.children[..|f.children|] == f.children;
      TreeJoin(b0, EncHead(f.head), Little(2, |f.children|), EncChildren(f.children));
    }
  }

  lemma NoItems<T>(enc: T -> Bytes)
    ensures forall items: seq<T> :: EncAll(enc, items[..0]) == []
  {
  }

  lemma NoChildren()
    ensures forall fs: seq<Func> :: EncChildren(fs[..0]) == []
  {
  }

  lemma TreeJoin(b0: Bytes, a: Bytes, b: Bytes, c: Bytes)
    ensures b0 + a + b + c == b0 + (a + (b + c))
  {
  }

  lemma FourJoin(b0: Bytes, a: Bytes, b: Bytes, c: Bytes, d: Bytes)
    ensures b0 + a + b + c + d == b0 + (a + (b + (c + d)))
  {
  }

  lemma HeadFront(h: Head, b0: Bytes)
    ensures b0 + EncOpt(h.name) + EncStr(h.source) + Little(2, h.arity) + Little(2, h.numRegs)
            + Little(2, h.numLocals) + [if h.strict then 1 else 0] + EncTail(h)
         == b0 + (EncOpt(h.name) + (EncStr(h.source) + EncNumbers(h)))
  {
    hide EncOpt, EncStr, Little, EncTail;
    var b1 := b0 + EncOpt(h.name) + EncStr(h.source);
    var f: Bytes := [if h.strict then 1 else 0];
    FourJoin(b1, Little(2, h.arity), Little(2, h.numRegs), Little(2, h.numLocals), f + EncTail(h));
    var b2 := b1 + Little(2, h.arity) + Little(2, h.numRegs) + Little(2, h.numLocals);
    assert b2 + f + EncTail(h) == b2 + (f + EncTail(h));
    TreeJoin(b0, EncOpt(h.name), EncStr(h.source), EncNumbers(h));
  }

  lemma HeadBack(h: Head, b1: Bytes)
    ensures b1 + Little(2, |h.params|) + EncAll(EncStr, h.params) + EncStr(h.code) + Little(4, |h.lines|)
            + EncAll(EncWord, h.lines)
              + Little(2, |h.constants|) + EncAll(EncValue, h.constants)
         == b1 + EncTail(h)
  {
    hide EncAll, EncStr, Little;
    var p, c := Little(2, |h.params|) + EncAll(EncStr, h.params), EncStr(h.code);
    var l, k := Little(4, |h.lines|) + EncAll(EncWord, h.lines),
        Little(2, |h.constants|) + EncAll(EncValue, h.constants);
    var b2 := b1 + Little(2, |h.params|) + EncAll(EncStr, h.params);
    assert b2 == b1 + p;
    var b3 := b2 + c + Little(4, |h.lines|) + EncAll(EncWord, h.lines);
    assert b3 == b2 + c + l;
    assert b3 + Little(2, |h.constants|) + EncAll(EncValue, h.constants) == b3 + k;
    FourJoin(b1, p, c, l, k);
  }

  lemma HeadJoin(h: Head, b0: Bytes)
    ensures b0 + EncHead(h) == b0 + (EncOpt(h.name) + (EncStr(h.source) + EncNumbers(h)))
  {
    hide EncHead;
    HeadShape(h);
  }

  datatype Saved = Saved(image: Bytes) | Failed(error: Error)

  /** `serialize`: fails with UnsupportedConstant exactly when some constant in the tree has no image. */
  method Serialize(f: Func) returns (r: Saved)
    ensures r == if Supported(f) then Saved.Saved(Image(f)) else Failed(UnsupportedConstant)
  {
    hide EncFunc, Little, Supported;
    var w := new Writer();
    w.Raw(MAGIC);
    w.UInt(4, VERSION);
    var ok := w.WriteFunction(f);
    if !ok { return Failed(UnsupportedConstant); }
    assert [] + MAGIC + Little(4, VERSION) + EncFunc(f) == Image(f);
    r := Saved.Saved(w.buf);
  }

  // ------------------------------------------------------------------ reading

  class Reader {
    const data: Bytes
    var pos: nat

    constructor (d: Bytes) ensures data == d && pos == 0 { data := d; pos := 0; }

    ghost predicate Valid() reads this { pos <= |data| }

    /** What reading a value means for the cursor. */
    ghost predicate Reading<T>(r: Res<T>, spec: Res<T>) reads this
    {
      r == spec && (r.Ok? ==> Valid() && pos == r.pos)
    }

    method UInt(k: nat) returns (r: Res<nat>)
      requires Valid()
      modifies this
      ensures Reading(r, UIntAt(k, data, old(pos)))
    {
      if pos + k > |data| { return Fail(Truncated); }
      var v := FromLittle(data[pos..pos + k]);
      pos := pos + k;
      r := Ok(v, pos);
    }

    method Raw(n: nat) returns (r: Res<Bytes>)
      requires Valid()
      modifies this
      ensures Reading(r, RawAt(n, data, old(pos)))
    {
      if pos + n > |data| { return Fail(Truncated); }
      var v := data[pos..pos + n];
      pos := pos + n;
      r := Ok(v, pos);
    }

    method Str() returns (r: Res<Bytes>)
      requires Valid()
      modifies this
      ensures Reading(r, StrAt(data, old(pos)))
    {
      hide UIntAt, RawAt;
      var n := UInt(4);
      if n.Fail? { return Fail(n.error); }
      r := Raw(n.value);
    }

    method OptStr() returns (r: Res<Option<Bytes>>)
      requires Valid()
      modifies this
      ensures Reading(r, OptAt(data, old(pos)))
    {
      hide UIntAt, StrAt;
      var present := UInt(1);
      if present.Fail? { return Fail(present.error); }
      if present.value == 0 { return Ok(None, pos); }
      var s := Str();
      if s.Fail? { return Fail(s.error); }
      r := Ok(Some(s.value), pos);
    }

    method Constant() returns (r: Res<Value>)
      requires Valid()
      modifies this
      ensures Reading(r, ValueAt(data, old(pos)))
    {
      hide UIntAt, StrAt, Canonical;
      var tag := UInt(1);
      if tag.Fail? { return Fail(tag.error); }
      if tag.value == 0 { return Ok(Undef, pos); }
      if tag.value == 1 { return Ok(Null, pos); }
      if tag.value == 2 { return Ok(Bool(false), pos); }
      if tag.value == 3 { return Ok(Bool(true), pos); }
      if tag.value == 4 {
        var bits := UInt(8);
        if bits.Fail? { return Fail(bits.error); }
        return Ok(Number(Canonical(bits.value)), pos);
      }
      if tag.value == 5 {
        var s := Str();
        if s.Fail? { return Fail(s.error); }
        return Ok(Text(s.value), pos);
      }
      r := Fail(BadTag);
    }

    method Strings() returns (r: Res<seq<Bytes>>)
      requires Valid()
      modifies this
      ensures Reading(r, ListAt(2, StrAt, data, old(pos)))
    {
      hide UIntAt, StrAt, ManyAt;
      var n := UInt(2);
      if n.Fail? { return Fail(n.error); }
      var items: seq<Bytes> := [];
      ghost var p0 := pos;
      PrependNone(items, ManyAt(StrAt, n.value, data, p0), 0);
      for i := 0 to n.value
        invariant Valid()
        invariant ManyAt(StrAt, n.value, data, p0) == Prepend(items, ManyAt(StrAt, n.value - i, data, pos))
      {
        ManyStep(StrAt, n.value - i, data, pos);
        var s := Str();
        if s.Fail? { return Fail(s.error); }
        PrependOne(items, s.value, ManyAt(StrAt, n.value - i - 1, data, pos));
        items := items + [s.value];
      }
      ManyEnd(StrAt, data, pos);
      PrependNone(items, ManyAt(StrAt, 0, data, pos), pos);
      r := Ok(items, pos);
    }

    method Words() returns (r: Res<seq<nat>>)
      requires Valid()
      modifies this
      ensures Reading(r, ListAt(4, WordAt, data, old(pos)))
    {
      hide UIntAt, ManyAt;
      var n := UInt(4);
      if n.Fail? { return Fail(n.error); }
      var items: seq<nat> := [];
      ghost var p0 := pos;
      PrependNone(items, ManyAt(WordAt, n.value, data, p0), 0);
      for i := 0 to n.value
        invariant Valid()
        invariant ManyAt(WordAt, n.value, data, p0) == Prepend(items, ManyAt(WordAt, n.value - i, data, pos))
      {
        ManyStep(WordAt, n.value - i, data, pos);
        var s := UInt(4);
        if s.Fail? { return Fail(s.error); }
        PrependOne(items, s.value, ManyAt(WordAt, n.value - i - 1, data, pos));
        items := items + [s.value];
      }
      ManyEnd(WordAt, data, pos);
      PrependNone(items, ManyAt(WordAt, 0, data, pos), pos);
      r := Ok(items, pos);
    }

    method Constants() returns (r: Res<seq<Value>>)
      requires Valid()
      modifies this
      ensures Reading(r, ListAt(2, ValueAt, data, old(pos)))
    {
      hide UIntAt, ValueAt, ManyAt;
      var n := UInt(2);
      if n.Fail? { return Fail(n.error); }
      var items: seq<Value> := [];
      ghost var p0 := pos;
      PrependNone(items, ManyAt(ValueAt, n.value, data, p0), 0);
      for i := 0 to n.value
        invariant Valid()
        invariant ManyAt(ValueAt, n.value, data, p0) == Prepend(items, ManyAt(ValueAt, n.value - i, data, pos))
      {
        ManyStep(ValueAt, n.value - i, data, pos);
        var s := Constant();
        if s.Fail? { return Fail(s.error); }
        PrependOne(items, s.value, ManyAt(ValueAt, n.value - i - 1, data, pos));
        items := items + [s.value];
      }
      ManyEnd(ValueAt, data, pos);
      PrependNone(items, ManyAt(ValueAt, 0, data, pos), pos);
      r := Ok(items, pos);
    }

    method ReadHead() returns (r: Res<Head>)
      requires Valid()
      modifies this
      ensures Reading(r, HeadAt(data, old(pos)))
    {
      hide UIntAt, StrAt, OptAt, ListAt;
      var name := OptStr();
      if name.Fail? { return Fail(name.error); }
      var source := Str();
      if source.Fail? { return Fail(source.error); }
      var arity := UInt(2);
      if arity.Fail? { return Fail(arity.error); }
      var regs := UInt(2);
      if regs.Fail? { return Fail(regs.error); }
      var locals := UInt(2);
      if locals.Fail? { return Fail(locals.error); }
      var strict := UInt(1);
      if strict.Fail? { return Fail(strict.error); }
      var params := Strings();
      if params.Fail? { return Fail(params.error); }
      var code := Str();
      if code.Fail? { return Fail(code.error); }
      var lines := Words();
      if lines.Fail? { return Fail(lines.error); }
      var constants := Constants();
      if constants.Fail? { return Fail(constants.error); }
      r := Ok(Head(name.value, source.value, arity.value, regs.value, locals.value, strict.value != 0,
                   params.value, code.value, lines.value, constants.value), pos);
    }

    /** `readFunction` */
    method ReadFunction() returns (r: Res<Func>)
      requires Valid()
      modifies this
      ensures Reading(r, FuncAt(data, old(pos)))
      decreases |data| - pos
    {
      hide HeadAt, UIntAt, ChildrenAt;
      HeadSteady(data, [], pos);
      ghost var start := pos;
      var head := ReadHead();
      if head.Fail? { return Fail(head.error); }
      var n := UInt(2);
      TwoBytes(data, head.pos);
      if n.Fail? { return Fail(n.error); }
      var children: seq<Func> := [];
      ghost var p0 := pos;
      PrependNone(children, ChildrenAt(data, p0, n.value), 0);
      var i := 0;
      while i < n.value
        invariant 0 <= i <= n.value && Valid() && pos > start
        invariant ChildrenAt(data, p0, n.value) == Prepend(children, ChildrenAt(data, pos, n.value - i))
      {
        ChildStep(data, pos, n.value - i);
        var f := ReadFunction();
        if f.Fail? { return Fail(f.error); }
        PrependOne(children, f.value, ChildrenAt(data, pos, n.value - i - 1));
        children := children + [f.value];
        i := i + 1;
      }
      ChildEnd(data, pos);
      PrependNone(children, ChildrenAt(data, pos, 0), pos);
      r := Ok(Func(head.value, children), pos);
    }
  }

  /** Items already read, before what is still to be read. */
  function Prepend<T>(items: seq<T>, r: Res<seq<T>>): Res<seq<T>>
  {
    match r case Fail(e) => Fail(e) case Ok(vs, p) => Ok(items + vs, p)
  }

  lemma PrependNone<T>(items: seq<T>, r: Res<seq<T>>, p: nat)
    ensures Prepend([], r) == r && Prepend(items, Ok([], p)) == Ok(items, p)
  {
    if r.Ok? { assert [] + r.value == r.value; }
    assert items + [] == items;
  }

  lemma PrependOne<T>(items: seq<T>, v: T, r: Res<seq<T>>)
    ensures Prepend(items, Prepend([v], r)) == Prepend(items + [v], r)
  {
    if r.Ok? { assert items + ([v] + r.value) == items + [v] + r.value; }
  }

  lemma ManyStep<T>(item: Reads<T>, n: nat, d: Bytes, p: nat)
    requires n > 0
    ensures ManyAt(item, n, d, p) ==
      match item(d, p) case Fail(e) => Fail(e) case Ok(v, q) => Prepend([v], ManyAt(item, n - 1, d, q))
  {
  }

  lemma ManyEnd<T>(item: Reads<T>, d: Bytes, p: nat)
    ensures ManyAt(item, 0, d, p) == Ok([], p)
  {
  }

  lemma ChildStep(d: Bytes, p: nat, n: nat)
    requires p <= |d| && n > 0
    ensures ChildrenAt(d, p, n) ==
      match FuncAt(d, p) case Fail(e) => Fail(e) case Ok(f, q) => Prepend([f], ChildrenAt(d, q, n - 1))
  {
    hide FuncAt;
  }

  lemma ChildEnd(d: Bytes, p: nat)
    requires p <= |d|
    ensures ChildrenAt(d, p, 0) == Ok([], p)
  {
  }

  /** `deserialize` */
  method Deserialize(d: Bytes) returns (r: Res<Func>)
    ensures r == Restored(d)
  {
    hide UIntAt, FuncAt;
    if |d| < 4 { return Fail(Truncated); }
    if d[..4] != MAGIC { return Fail(BadMagic); }
    var reader := new Reader(d);
    reader.pos := 4;
    var v := reader.UInt(4);
    if v.Fail? { return Fail(v.error); }
    if v.value != VERSION { return Fail(UnsupportedVersion); }
    r := reader.ReadFunction();
  }

  /** Writing and reading back, run one after the other. */
  method SaveAndRestore(f: Func) returns (r: Res<Func>)
    requires Fits(f) && Supported(f)
    ensures r.Ok? && r.value == f
  {
    hide Image, Restored;
    var s := Serialize(f);
    RoundTrip(f, []);
    assert Image(f) + [] == Image(f);
    r := Deserialize(s.image);
  }
}
