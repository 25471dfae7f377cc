/** The bytes of a snapshot, spelled out: one function with a constant of every kind, and what each
    broken header is refused as. */
module SnapshotFormat {
  import opened Options
  import opened Bytecode
  import opened Snapshot
  import F = Float64

  /** `function (a) { ... }` without a name, from the source "s", strict, with all six tags in its pool. */
  function Sample(): Func
  {
    Func(Head(None, [115], 1, 2, 258, true, [[97]], [46], [7],
              [Undef, Null, Bool(false), Bool(true), Number(0x3FF0_0000_0000_0000), Text([120, 121])]), [])
  }

  /** Its image: "JSZB", version 1, the fields of the function in order, lengths and numbers little-endian. */
  lemma SampleImage()
    ensures Image(Sample()) ==
            [74, 83, 90, 66] + [1, 0, 0, 0]        // magic, version
            + [0]                                  // no name
            + [1, 0, 0, 0, 115]                    // the source's name
            + [1, 0] + [2, 0] + [2, 1] + [1]       // arity, registers, locals, strict
            + [1, 0] + [1, 0, 0, 0, 97]            // parameters
            + [1, 0, 0, 0, 46]                     // code
            + [1, 0, 0, 0] + [7, 0, 0, 0]          // lines
            + [6, 0]                               // constants
            + [0] + [1] + [2] + [3] + [4, 0, 0, 0, 0, 0, 0, 240, 63] + [5, 2, 0, 0, 0, 120, 121]
            + [0, 0]                               // no children
  {
    hide EncHead, EncAll, EncStr, Little;
    var h := Sample().head;
    SmallNumbers();
    HeadParts(h);
    SampleStrings();
    SampleLists();
    assert EncChildren(Sample().children) == [];
  }

  lemma SmallNumbers()
    ensures Little(4, 1) == [1, 0, 0, 0] && Little(4, 2) == [2, 0, 0, 0] && Little(4, 7) == [7, 0, 0, 0]
    ensures Little(2, 0) == [0, 0] && Little(2, 1) == [1, 0] && Little(2, 2) == [2, 0] && Little(2, 6) == [6, 0]
    ensures Little(2, 258) == [2, 1]
  {
    assert Little(3, 0) == [0, 0, 0] && Little(2, 0) == [0, 0] && Little(1, 0) == [0] && Little(1, 1) == [1];
  }

  lemma DoubleOne()
    ensures Little(8, 0x3FF0_0000_0000_0000) == [0, 0, 0, 0, 0, 0, 240, 63]
  {
    assert Little(1, 63) == [63];
    assert Little(2, 0x3FF0) == [240, 63];
    assert Little(3, 0x3FF0_00) == [0, 240, 63];
    assert Little(4, 0x3FF0_0000) == [0, 0, 240, 63];
    assert Little(5, 0x3FF0_0000_00) == [0, 0, 0, 240, 63];
    assert Little(6, 0x3FF0_0000_0000) == [0, 0, 0, 0, 240, 63];
    assert Little(7, 0x3FF0_0000_0000_00) == [0, 0, 0, 0, 0, 240, 63];
  }

  lemma HeadParts(h: Head)
    ensures EncHead(h) == EncOpt(h.name) + (EncStr(h.source) + (Little(2, h.arity)
            + (Little(2, h.numRegs) + (Little(2, h.numLocals) + ([if h.strict then 1 else 0] + EncTail(h))))))
  {
    hide EncOpt, EncStr, EncAll, Little;
  }

  lemma SampleStrings()
    ensures EncStr([115]) == [1, 0, 0, 0, 115] && EncStr([97]) == [1, 0, 0, 0, 97] && EncStr([46]) == [1, 0, 0, 0, 46]
    ensures EncStr([120, 121]) == [2, 0, 0, 0, 120, 121] && EncOpt(None) == [0]
  {
    hide Little;
    SmallNumbers();
  }

  lemma SampleLists()
    ensures var h := Sample().head;
            && EncAll(EncStr, h.params) == [1, 0, 0, 0, 97] && EncAll(EncWord, h.lines) == [7, 0, 0, 0]
            && EncAll(EncValue, h.constants)
               == [0] + [1] + [2] + [3] + [4, 0, 0, 0, 0, 0, 0, 240, 63] + [5, 2, 0, 0, 0, 120, 121]
  {
    hide Little, EncStr, EncAll;
    SmallNumbers();
    EncCons(EncStr, [97], []);
    EncCons(EncWord, 7, []);
    assert [[97 as Byte]] + [] == Sample().head.params && [7] + [] == Sample().head.lines;
    SampleStrings();
    SamplePool();
  }

  lemma SamplePool()
    ensures EncAll(EncValue, Sample().head.constants)
            == [0] + [1] + [2] + [3] + [4, 0, 0, 0, 0, 0, 0, 240, 63] + [5, 2, 0, 0, 0, 120, 121]
  {
    hide Little, EncStr, EncAll;
    DoubleOne();
    SampleStrings();
    var c := Sample().head.constants;
    EncCons(EncValue, c[0], c[1..]); EncCons(EncValue, c[1], c[2..]); EncCons(EncValue, c[2], c[3..]);
    EncCons(EncValue, c[3], c[4..]); EncCons(EncValue, c[4], c[5..]); EncCons(EncValue, c[5], []);
    assert [c[0]] + c[1..] == c && [c[1]] + c[2..] == c[1..] && [c[2]] + c[3..] == c[2..];
    assert [c[3]] + c[4..] == c[3..] && [c[4]] + c[5..] == c[4..] && [c[5]] + [] == c[5..];
  }

  lemma EncCons<T>(enc: T -> Bytes, v: T, rest: seq<T>)
    ensures EncAll(enc, [v] + rest) == enc(v) + EncAll(enc, rest) && EncAll(enc, []) == []
  {
    assert ([v] + rest)[1..] == rest;
  }

  /** Which error a broken header is: too short, then the magic, then the version. */
  lemma HeaderErrors(d: Bytes)
    ensures |d| < 4 ==> Restored(d) == Fail(Truncated)
    ensures |d| >= 4 && d[..4] != [74, 83, 90, 66] ==> Restored(d) == Fail(BadMagic)
    ensures 4 <= |d| < 8 && d[..4] == [74, 83, 90, 66] ==> Restored(d) == Fail(Truncated)
    ensures |d| >= 8 && d[..4] == [74, 83, 90, 66] && d[4..8] != [1, 0, 0, 0] ==>
            Restored(d) == Fail(UnsupportedVersion)
    ensures |d| >= 8 && d[..4] == [74, 83, 90, 66] && d[4..8] == [1, 0, 0, 0] ==> Restored(d) == FuncAt(d, 8)
  {
    hide FuncAt;
    if |d| >= 8 { VersionBytes(d[4..8]); }
  }

  lemma VersionBytes(b: Bytes)
    requires |b| == 4
    ensures FromLittle(b) == 1 <==> b == [1, 0, 0, 0]
  {
    assert FromLittle(b) == b[0] as int + 256 * (b[1] as int + 256 * (b[2] as int + 256 * b[3] as int)) by {
      assert b[1..][1..] == b[2..] && b[2..][1..] == b[3..] && b[3..][1..] == [];
      assert FromLittle(b[3..]) == b[3] && FromLittle(b[2..]) == b[2] as int + 256 * FromLittle(b[3..]);
    }
  }

  /** Reading a constant by its tag; any other tag is refused. */
  lemma TagErrors(d: Bytes, p: nat)
    requires p < |d|
    ensures d[p] > 5 ==> ValueAt(d, p) == Fail(BadTag)
    ensures d[p] == 0 ==> ValueAt(d, p) == Ok(Undef, p + 1)
    ensures d[p] == 1 ==> ValueAt(d, p) == Ok(Null, p + 1)
    ensures d[p] == 2 || d[p] == 3 ==> ValueAt(d, p) == Ok(Bool(d[p] == 3), p + 1)
  {
    assert d[p..p + 1] == [d[p]] && FromLittle([d[p]]) == d[p];
  }

  /** A number constant keeps its bits, but every NaN becomes the quiet one. */
  lemma CanonicalIs(bits: nat)
    ensures !F.Decode(bits).NaN? ==> Canonical(bits) == bits
    ensures F.Decode(bits).NaN? ==> Canonical(bits) == 0x7FF8_0000_0000_0000
  {
  }
}
