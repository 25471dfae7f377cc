/** Canonical code-point ranges (tools/gen_unicode_props.py): merging and table sharing. */
module Ranges {
  datatype Range = Range(lo: int, hi: int)

  ghost predicate Covers(rs: seq<Range>, c: int) { exists i :: 0 <= i < |rs| && rs[i].lo <= c <= rs[i].hi }
  predicate Proper(rs: seq<Range>) { forall i | 0 <= i < |rs| :: rs[i].lo <= rs[i].hi }

  /** Sorted, disjoint and not even adjacent. */
  predicate Canonical(rs: seq<Range>)
  {
    Proper(rs) && forall i, j | 0 <= i < j < |rs| :: rs[i].hi + 1 < rs[j].lo
  }

  ghost predicate SameCodePoints(a: seq<Range>, b: seq<Range>) { forall c :: Covers(a, c) <==> Covers(b, c) }

  // ------------------------------------------------------------------ sorting

  predicate Before(a: Range, b: Range) { a.lo < b.lo || (a.lo == b.lo && a.hi <= b.hi) }
  predicate InOrder(rs: seq<Range>) { forall i, j | 0 <= i < j < |rs| :: Before(rs[i], rs[j]) }

  function Insert(r: Range, rs: seq<Range>): seq<Range>
  {
    if |rs| == 0 || Before(r, rs[0]) then [r] + rs else [rs[0]] + Insert(r, rs[1..])
  }

  function Sorted(rs: seq<Range>): seq<Range> { if |rs| == 0 then [] else Insert(rs[0], Sorted(rs[1..])) }

  lemma {:induction false} InsertKeeps(r: Range, rs: seq<Range>)
    requires InOrder(rs)
    ensures InOrder(Insert(r, rs)) && |Insert(r, rs)| == |rs| + 1
    ensures forall x :: x in Insert(r, rs) <==> x == r || x in rs
    ensures multiset(Insert(r, rs)) == multiset(rs) + multiset{r}
  {
    if |rs| > 0 && !Before(r, rs[0]) {
      InsertKeeps(r, rs[1..]);
      assert rs == [rs[0]] + rs[1..];
      var t := Insert(r, rs[1..]);
      forall j | 0 <= j < |t| ensures Before(rs[0], t[j]) { assert t[j] in t; }
    } else if |rs| > 0 {
      forall j | 0 <= j < |rs| ensures Before(r, rs[j]) { }
    }
  }

  lemma {:induction false} SortedKeeps(rs: seq<Range>)
    ensures InOrder(Sorted(rs)) && |Sorted(rs)| == |rs| && multiset(Sorted(rs)) == multiset(rs)
    ensures forall x :: x in Sorted(rs) <==> x in rs
  {
    if |rs| > 0 {
      SortedKeeps(rs[1..]);
      InsertKeeps(rs[0], Sorted(rs[1..]));
      assert rs == [rs[0]] + rs[1..];
    }
  }

  lemma SameMembers(a: seq<Range>, b: seq<Range>)
    requires forall x :: x in a <==> x in b
    ensures SameCodePoints(a, b) && (Proper(a) <==> Proper(b))
  {
    forall c ensures Covers(a, c) <==> Covers(b, c) {
      if Covers(a, c) { var i :| 0 <= i < |a| && a[i].lo <= c <= a[i].hi; assert a[i] in b; }
      if Covers(b, c) { var i :| 0 <= i < |b| && b[i].lo <= c <= b[i].hi; assert b[i] in a; }
    }
    if Proper(a) { forall i | 0 <= i < |b| ensures b[i].lo <= b[i].hi { assert b[i] in a; } }
    if Proper(b) { forall i | 0 <= i < |a| ensures a[i].lo <= a[i].hi { assert a[i] in b; } }
  }

  // ------------------------------------------------------------------ merging

  lemma ExtendLast(out: seq<Range>, r: Range, done: seq<Range>, out': seq<Range>)
    requires |out| > 0 && Canonical(out) && r.lo <= r.hi && SameCodePoints(out, done)
    requires var last := out[|out| - 1]; last.lo <= r.lo <= last.hi + 1
    requires out' == out[..|out| - 1] + [Range(out[|out| - 1].lo,
             if out[|out| - 1].hi >= r.hi then out[|out| - 1].hi else r.hi)]
    ensures Canonical(out') && SameCodePoints(out', done + [r])
  {
    var n := |out| - 1;
    forall c ensures Covers(out', c) <==> Covers(done + [r], c) {
      CoversSnoc(done, r, c);
      CoversSnoc(out[..n], out[n], c);
      CoversSnoc(out[..n], out'[n], c);
      assert out[..n] + [out[n]] == out;
      assert Covers(out, c) <==> Covers(done, c);
    }
  }

  lemma CoversSnoc(rs: seq<Range>, r: Range, c: int)
    ensures Covers(rs + [r], c) <==> Covers(rs, c) || r.lo <= c <= r.hi
  {
    var t := rs + [r];
    if Covers(rs, c) { var i :| 0 <= i < |rs| && rs[i].lo <= c <= rs[i].hi; assert t[i] == rs[i]; }
    if r.lo <= c <= r.hi { assert t[|rs|] == r; }
  }

  lemma OpenNew(out: seq<Range>, r: Range, done: seq<Range>)
    requires |out| > 0 && Canonical(out) && r.lo <= r.hi && SameCodePoints(out, done) && out[|out| - 1].hi + 1 < r.lo
    ensures Canonical(out + [r]) && SameCodePoints(out + [r], done + [r])
  {
    forall c ensures Covers(out + [r], c) <==> Covers(done + [r], c) {
      CoversSnoc(out, r, c);
      CoversSnoc(done, r, c);
      assert Covers(out, c) <==> Covers(done, c);
    }
  }

  lemma NoRanges()
    ensures Canonical([]) && SameCodePoints([], [])
  {
  }

  lemma OneRange(r: Range)
    ensures r.lo <= r.hi ==> Canonical([r])
    ensures SameCodePoints([r], [r])
  {
  }

  lemma Ordered(s: seq<Range>, i: nat)
    requires InOrder(s) && 0 < i < |s|
    ensures s[i - 1].lo <= s[i].lo
  {
    assert Before(s[i - 1], s[i]);
  }

  lemma LastIs(out: seq<Range>)
    requires Canonical(out) && |out| > 0
    ensures out[|out| - 1].lo <= out[|out| - 1].hi
  {
  }

  lemma SameTrans(a: seq<Range>, b: seq<Range>, c: seq<Range>)
    requires SameCodePoints(a, b) && SameCodePoints(b, c)
    ensures SameCodePoints(a, c)
  {
    forall p ensures Covers(a, p) <==> Covers(c, p) { assert Covers(a, p) <==> Covers(b, p); }
  }

  /** `merge`: sort, then extend the last range in place or open a new one. */
  method Merge(ranges: seq<Range>) returns (out: seq<Range>)
    requires Proper(ranges)
    ensures Canonical(out) && SameCodePoints(out, ranges)
  {
    hide Covers, Before, InOrder, Sorted, SameCodePoints, Canonical;
    if |ranges| == 0 {
      NoRanges();
      return [];
    }
    var s := Sorted(ranges);
    SortedKeeps(ranges);
    SameMembers(s, ranges);
    OneRange(s[0]);
    assert s[..1] == [s[0]];
    out := [s[0]];
    var i := 1;
    while i < |s|
      invariant 1 <= i <= |s| && |out| > 0
      invariant Canonical(out) && SameCodePoints(out, s[..i])
      invariant out[|out| - 1].lo <= s[i - 1].lo
    {
      Ordered(s, i);
      LastIs(out);
      assert s[..i + 1] == s[..i] + [s[i]];
      var lo, hi := s[i].lo, s[i].hi;
      var last := out[|out| - 1];
      if lo <= last.hi + 1 {
        ghost var was := out;
        out := out[|out| - 1 := Range(last.lo, if last.hi >= hi then last.hi else hi)];
        ExtendLast(was, s[i], s[..i], out);
      } else {
        OpenNew(out, s[i], s[..i]);
        out := out + [Range(lo, hi)];
      }
      i := i + 1;
    }
    assert s[..i] == s;
    SameTrans(out, s, ranges);
  }

  // ------------------------------------------------------------------ one list per set of code points

  lemma CoversTail(a: seq<Range>, c: int)
    requires |a| > 0 && Canonical(a)
    ensures Covers(a[1..], c) <==> Covers(a, c) && c > a[0].hi
  {
    if Covers(a, c) && c > a[0].hi {
      var i :| 0 <= i < |a| && a[i].lo <= c <= a[i].hi;
      assert a[1..][i - 1] == a[i];
    }
    if Covers(a[1..], c) {
      var i :| 0 <= i < |a| - 1 && a[1..][i].lo <= c <= a[1..][i].hi;
      assert a[i + 1] == a[1..][i];
    }
  }

  /** The first range starts at the least covered code point and ends before a gap. */
  lemma FirstRange(a: seq<Range>)
    requires Canonical(a) && |a| > 0
    ensures Covers(a, a[0].lo) && !Covers(a, a[0].hi + 1)
    ensures forall c :: Covers(a, c) ==> c >= a[0].lo
    ensures forall c :: a[0].lo <= c <= a[0].hi ==> Covers(a, c)
  {
    assert a[0].lo <= a[0].lo <= a[0].hi;
  }

  lemma {:induction false} CanonicalUnique(a: seq<Range>, b: seq<Range>)
    requires Canonical(a) && Canonical(b) && SameCodePoints(a, b)
    ensures a == b
  {
    if |a| > 0 { FirstRange(a); }
    if |b| > 0 { FirstRange(b); }
    if |a| > 0 && |b| > 0 {
      assert Covers(a, b[0].lo) && Covers(b, a[0].lo) && a[0].lo == b[0].lo;
      assert !Covers(a, b[0].hi + 1) && !Covers(b, a[0].hi + 1) && a[0].hi == b[0].hi;
      forall c ensures Covers(a[1..], c) <==> Covers(b[1..], c) { CoversTail(a, c); CoversTail(b, c); }
      CanonicalUnique(a[1..], b[1..]);
      assert a == [a[0]] + a[1..] && b == [b[0]] + b[1..];
    }
  }

  /** Two merged lists are the same list exactly when the originals cover the same code points. */
  lemma SharedTable(a: seq<Range>, b: seq<Range>, ma: seq<Range>, mb: seq<Range>)
    requires Canonical(ma) && SameCodePoints(ma, a) && Canonical(mb) && SameCodePoints(mb, b)
    ensures ma == mb <==> SameCodePoints(a, b)
  {
    if SameCodePoints(a, b) {
      forall c ensures Covers(ma, c) <==> Covers(mb, c) {
        assert Covers(ma, c) <==> Covers(a, c);
        assert Covers(mb, c) <==> Covers(b, c);
        assert Covers(a, c) <==> Covers(b, c);
      }
      CanonicalUnique(ma, mb);
    }
    if ma == mb {
      forall c ensures Covers(a, c) <==> Covers(b, c) {
        assert Covers(ma, c) <==> Covers(a, c);
        assert Covers(mb, c) <==> Covers(b, c);
      }
    }
  }

  /** The numbers below `n` are all in use, each for the first time after the one before it. */
  ghost predicate Numbered(index: seq<nat>, n: nat)
  {
    && (forall t: nat | t < n :: t in index)
    && forall k | 0 <= k < |index| && index[k] > 0 :: index[k] - 1 in index[..k]
  }

  lemma NumberedNext(index: seq<nat>, n: nat, k: nat)
    requires Numbered(index, n) && k <= n
    ensures Numbered(index + [k], if k == n then n + 1 else n)
  {
    var more := index + [k];
    forall j | 0 <= j < |more| && more[j] > 0 ensures more[j] - 1 in more[..j] {
      PrefixSame(index, k, j);
    }
    forall t: nat | t < n || t == k ensures t in more { PrefixSame(index, k, |index|); }
  }

  lemma PrefixSame(index: seq<nat>, k: nat, j: nat)
    requires j <= |index|
    ensures (index + [k])[..j] == index[..j] && (j == |index| ==> index[..j] == index)
    ensures j < |index| ==> (index + [k])[j] == index[j]
    ensures (index + [k])[|index|] == k && forall t | t in index :: t in index + [k]
  {
  }

  /** The lists so far have the tables their numbers say; the tables are distinct and all in use. */
  ghost predicate Tabled(lists: seq<seq<Range>>, tables: seq<seq<Range>>, index: seq<nat>)
  {
    && |index| <= |lists| && (forall k | 0 <= k < |index| :: index[k] < |tables| && tables[index[k]] == lists[k])
    && (forall i, j | 0 <= i < j < |tables| :: tables[i] != tables[j])
    && (forall t | 0 <= t < |tables| :: tables[t] in lists)
  }

  lemma TabledNext(lists: seq<seq<Range>>, tables: seq<seq<Range>>, index: seq<nat>, k: nat)
    requires Tabled(lists, tables, index) && |index| < |lists| && k <= |tables|
    requires var list := lists[|index|]; if k < |tables| then tables[k] == list else list !in tables
    ensures Tabled(lists, if k < |tables| then tables else tables + [lists[|index|]], index + [k])
  {
  }

  /** The table sharing of `main`: each distinct list once, in order of first use; two properties share
      a table exactly when their lists are equal. */
  method Share(lists: seq<seq<Range>>) returns (tables: seq<seq<Range>>, index: seq<nat>)
    ensures |index| == |lists|
    ensures forall i | 0 <= i < |lists| :: index[i] < |tables| && tables[index[i]] == lists[i]
    ensures forall i, j | 0 <= i < j < |tables| :: tables[i] != tables[j]
    ensures forall t | t in tables :: t in lists
    ensures forall i, j | 0 <= i < |lists| && 0 <= j < |lists| :: index[i] == index[j] <==> lists[i] == lists[j]
    ensures forall i | 0 <= i < |lists| && index[i] > 0 :: index[i] - 1 in index[..i]
  {
    hide Numbered, Tabled;
    tables, index := [], [];
    NothingShared(lists);
    for i := 0 to |lists|
      invariant |index| == i && Tabled(lists, tables, index) && Numbered(index, |tables|)
    {
      var k := FindTable(tables, lists[i]);
      NumberedNext(index, |tables|, k);
      TabledNext(lists, tables, index, k);
      if k == |tables| { tables := tables + [lists[i]]; }
      index := index + [k];
    }
    AllShared(lists, tables, index);
  }

  lemma NothingShared(lists: seq<seq<Range>>)
    ensures Numbered([], 0) && Tabled(lists, [], [])
  {
  }

  lemma AllShared(lists: seq<seq<Range>>, tables: seq<seq<Range>>, index: seq<nat>)
    requires Tabled(lists, tables, index) && Numbered(index, |tables|) && |index| == |lists|
    ensures forall i | 0 <= i < |lists| :: index[i] < |tables| && tables[index[i]] == lists[i]
    ensures forall i, j | 0 <= i < j < |tables| :: tables[i] != tables[j]
    ensures forall t | t in tables :: t in lists
    ensures forall i, j | 0 <= i < |lists| && 0 <= j < |lists| :: index[i] == index[j] <==> lists[i] == lists[j]
    ensures forall i | 0 <= i < |lists| && index[i] > 0 :: index[i] - 1 in index[..i]
  {
    forall i, j | 0 <= i < |lists| && 0 <= j < |lists| ensures index[i] == index[j] <==> lists[i] == lists[j] {
      assert tables[index[i]] == lists[i] && tables[index[j]] == lists[j];
    }
  }

  /** The first table equal to the list, or the number of tables. */
  method FindTable(tables: seq<seq<Range>>, list: seq<Range>) returns (k: nat)
    ensures k <= |tables| && (if k < |tables| then tables[k] == list else list !in tables)
  {
    k := 0;
    while k < |tables| && tables[k] != list
      invariant 0 <= k <= |tables| && forall j | 0 <= j < k :: tables[j] != list
    {
      k := k + 1;
    }
  }
}
