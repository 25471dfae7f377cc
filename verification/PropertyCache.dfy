/** The inline cache of a property site (src/vm/ic.zig) and the fast paths of the JIT's property
    helpers over it (src/jit/int_fn_jit.zig), against the full property machinery. */
module PropertyCache {
  import opened Options
  import opened NanBox
  import opened Emit

  type Shape = nat
  type Ref = nat

  datatype Kind = Ordinary | ArrayLike | ProxyLike
  datatype Attr = Attr(accessor: bool, writable: bool)

  datatype Obj = Obj(shape: Shape, slots: seq<Word>, attrs: seq<Attr>, proto: Option<Ref>)

  /** What never changes: the slot of every key in every shape, and what kind of object each is. */
  datatype Fixed = Fixed(slotOf: (Shape, string) -> Option<nat>, kind: Ref -> Kind)

  type Heap = map<Ref, Obj>

  predicate IsAccessor(o: Obj, slot: nat) { slot < |o.attrs| && o.attrs[slot].accessor }
  predicate IsReadOnly(o: Obj, slot: nat) { slot < |o.attrs| && !o.attrs[slot].writable }

  // ------------------------------------------------------------------ the full machinery

  /** A [[Get]]: a data value, a getter to run, nothing found, or machinery outside this model (a
      receiver with its own rules, an unsuccessful walk past an object with its own rules, a chain
      longer than the given number of steps). */
  datatype Got = Data(value: Word) | Getter(holder: Ref, slot: nat) | Nothing | Beyond

  function Get(fx: Fixed, h: Heap, o: Ref, key: string, steps: nat): Got
  {
    if o !in h || fx.kind(o) != Ordinary then Beyond else Find(fx, h, o, key, steps, true)
  }

  /** `findProperty`: the first shape on the prototype chain that has the key, whatever the kinds of
      the objects; only a walk that finds nothing asks whether all of them were plain. */
  function Find(fx: Fixed, h: Heap, o: Ref, key: string, steps: nat, plain: bool): Got
    decreases steps
  {
    if o !in h then Beyond
    else match fx.slotOf(h[o].shape, key)
      case Some(slot) =>
        if IsAccessor(h[o], slot) then Getter(o, slot)
        else if slot < |h[o].slots| then Data(h[o].slots[slot]) else Beyond
      case None =>
        var plain' := plain && fx.kind(o) == Ordinary;
        if h[o].proto.None? then (if plain' then Nothing else Beyond)
        else if steps == 0 then Beyond
        else Find(fx, h, h[o].proto.value, key, steps - 1, plain')
  }

  /** An ordinary [[Set]] that finds an own property: `None` unless it is writable data. */
  function SetOwn(fx: Fixed, h: Heap, o: Ref, key: string, v: Word): Option<Heap>
  {
    if o !in h || fx.kind(o) != Ordinary then None
    else match fx.slotOf(h[o].shape, key)
      case None => None
      case Some(slot) =>
        if IsAccessor(h[o], slot) || IsReadOnly(h[o], slot) || slot >= |h[o].slots| then None
        else Some(h[o := h[o].(slots := h[o].slots[slot := v])])
  }

  /** The set in terms of the object alone: it stores if and only if the key has a slot that holds data
      and may be written (a slot without attributes may), and it changes that one slot. */
  lemma SetOwnExact(fx: Fixed, h: Heap, o: Ref, key: string, v: Word)
    requires o in h && fx.kind(o) == Ordinary
    ensures SetOwn(fx, h, o, key, v).Some? <==>
            && fx.slotOf(h[o].shape, key).Some?
            && var slot := fx.slotOf(h[o].shape, key).value;
               slot < |h[o].slots| && (slot < |h[o].attrs| ==> !h[o].attrs[slot].accessor && h[o].attrs[slot].writable)
    ensures SetOwn(fx, h, o, key, v).Some? ==>
            var h' := SetOwn(fx, h, o, key, v).value;
            && h'.Keys == h.Keys && (forall p | p in h && p != o :: h'[p] == h[p])
            && h'[o].shape == h[o].shape && h'[o].attrs == h[o].attrs && h'[o].proto == h[o].proto
            && |h'[o].slots| == |h[o].slots|
            && forall i | 0 <= i < |h[o].slots| ::
                 h'[o].slots[i] == if fx.slotOf(h[o].shape, key) == Some(i) then v else h[o].slots[i]
  {
  }

  // ------------------------------------------------------------------ the cache

  datatype Entry = Entry(shape: Shape, slot: nat)
  datatype Guard = Guard(obj: Ref, shape: Shape)
  datatype State = Uninitialized | Monomorphic | Polymorphic | Megamorphic

  const POLY_CAP: nat := 8
  const PROTO_DEPTH: nat := 5

  class InlineCache {
    var state: State
    var key: Option<string>
    var mono: Option<Entry>
    var poly: array<Entry>
    var polyLen: nat
    var mega: Option<map<Shape, nat>>
    var protoRecv: Shape
    var protoSlot: nat
    var protoChain: array<Guard>
    var protoLen: nat

    constructor ()
      ensures Valid() && fresh(poly) && fresh(protoChain) && state == Uninitialized && key.None? && Entries() == {}
              && protoLen == 0
    {
      state, key, mono, polyLen, mega := Uninitialized, None, None, 0, None;
      protoRecv, protoSlot, protoLen := 0, 0, 0;
      poly := new Entry[POLY_CAP](_ => Entry(0, 0));
      protoChain := new Guard[PROTO_DEPTH](_ => Guard(0, 0));
    }

    predicate Valid() reads this
    {
      && poly.Length == POLY_CAP && polyLen <= POLY_CAP && protoChain.Length == PROTO_DEPTH && protoLen <= PROTO_DEPTH
      && (key.None? ==> state == Uninitialized && protoLen == 0)
      && (state == Monomorphic ==> mono.Some?)
    }

    /** The shapes the cache answers for, with their slots. */
    ghost function Entries(): set<Entry>
      requires Valid()
      reads this, poly
    {
      match state
      case Uninitialized => {}
      case Monomorphic => {mono.value}
      case Polymorphic => set e | e in poly[..polyLen]
      case Megamorphic => if mega.None? then {} else set s | s in mega.value :: Entry(s, mega.value[s])
    }

    /** The recorded prototype chain. */
    ghost function Guards(): seq<Guard>
      requires Valid()
      reads this, protoChain
    {
      protoChain[..protoLen]
    }

    /** Every entry is right: its shape keeps the site's key in its slot; and the recorded chain leads
        from a shape without the key, over objects without it, to a holder that has it. */
    ghost predicate Correct(fx: Fixed)
      reads this, poly, protoChain
    {
      && Valid()
      && (key.Some? ==>
            && (forall e | e in Entries() :: fx.slotOf(e.shape, key.value) == Some(e.slot))
            && (protoLen > 0 ==> ChainRight(fx, key.value, protoRecv, protoChain[..protoLen], protoSlot)))
    }

    method Lookup(k: string, shape: Shape) returns (slot: Option<nat>)
      requires Valid()
      ensures slot.Some? ==> key == Some(k) && Entry(shape, slot.value) in Entries()
      ensures slot.None? && key == Some(k) ==> forall e | e in Entries() :: e.shape != shape
    {
      if key != Some(k) { return None; }
      match state {
        case Uninitialized => return None;
        case Monomorphic => return if mono.value.shape == shape then Some(mono.value.slot) else None;
        case Polymorphic =>
          var i := 0;
          while i < polyLen
            invariant 0 <= i <= polyLen && forall j | 0 <= j < i :: poly[j].shape != shape
          {
            if poly[i].shape == shape { return Some(poly[i].slot); }
            i := i + 1;
          }
          return None;
        case Megamorphic =>
          if mega.Some? && shape in mega.value { return Some(mega.value[shape]); }
          return None;
      }
    }

    /** `record`: remember that `shape` keeps `k` in `slot`; a different key spoils the site. */
    method Record(fx: Fixed, k: string, shape: Shape, slot: nat)
      requires Correct(fx) && fx.slotOf(shape, k) == Some(slot)
      modifies this, poly
      ensures Correct(fx) && poly == old(poly) && protoChain == old(protoChain)
      ensures key == if old(key).None? then Some(k) else old(key)
      ensures old(key).Some? && old(key) != Some(k) ==> state == Megamorphic && Entries() == {}
      ensures key == Some(k) && !(old(state) == Megamorphic && old(mega).None?) ==>
                Entries() == old(Entries()) + {Entry(shape, slot)}
      ensures key == Some(k) && old(state) == Megamorphic && old(mega).None? ==> Entries() == {}
      ensures protoLen == old(protoLen) && protoRecv == old(protoRecv) && protoSlot == old(protoSlot)
    {
      ghost var before := Entries();
      if key.None? {
        key := Some(k);
      } else if key != Some(k) {
        state, mono, polyLen, mega := Megamorphic, None, 0, None;
        return;
      }
      match state {
        case Megamorphic =>
          if mega.Some? {
            MegaPut(fx, k, shape, slot);
          }
        case Uninitialized =>
          mono, state := Some(Entry(shape, slot)), Monomorphic;
        case Monomorphic =>
          if mono.value.shape == shape {
            assert mono.value in before;
            return;
          }
          poly[0], poly[1] := mono.value, Entry(shape, slot);
          polyLen, mono, state := 2, None, Polymorphic;
          assert poly[..2] == [poly[0], poly[1]];
        case Polymorphic => RecordPoly(fx, k, shape, slot);
      }
    }

    method MegaPut(fx: Fixed, k: string, shape: Shape, slot: nat)
      requires Correct(fx) && key == Some(k) && state == Megamorphic && mega.Some? && fx.slotOf(shape, k) == Some(slot)
      modifies this`mega
      ensures Correct(fx) && mega.Some?
      ensures Entries() == old(Entries()) + {Entry(shape, slot)}
    {
      var m := mega.value;
      if shape in m { assert Entry(shape, m[shape]) in Entries(); }
      mega := Some(m[shape := slot]);
      MegaAdd(m, shape, slot);
    }

    method RecordPoly(fx: Fixed, k: string, shape: Shape, slot: nat)
      requires Correct(fx) && key == Some(k) && state == Polymorphic && fx.slotOf(shape, k) == Some(slot)
      modifies this, poly
      ensures Correct(fx) && poly == old(poly) && protoChain == old(protoChain) && key == Some(k)
      ensures Entries() == old(Entries()) + {Entry(shape, slot)}
      ensures protoLen == old(protoLen) && protoRecv == old(protoRecv) && protoSlot == old(protoSlot)
    {
      var i := 0;
      while i < polyLen
        invariant 0 <= i <= polyLen && forall j | 0 <= j < i :: poly[j].shape != shape
      {
        if poly[i].shape == shape {
          assert poly[i] in poly[..polyLen] && poly[i] in Entries();
          return;
        }
        i := i + 1;
      }
      if polyLen < POLY_CAP {
        AppendPoly(fx, k, shape, slot);
      } else {
        var m := PolyMap(fx, k);
        MegaAdd(m, shape, slot);
        mega, state, polyLen := Some(m[shape := slot]), Megamorphic, 0;
      }
    }

    method AppendPoly(fx: Fixed, k: string, shape: Shape, slot: nat)
      requires Correct(fx) && key == Some(k) && state == Polymorphic && fx.slotOf(shape, k) == Some(slot)
      requires polyLen < POLY_CAP
      modifies this`polyLen, poly
      ensures Correct(fx) && Entries() == old(Entries()) + {Entry(shape, slot)}
    {
      ghost var known := poly[..polyLen];
      poly[polyLen] := Entry(shape, slot);
      polyLen := polyLen + 1;
      assert poly[..polyLen] == known + [Entry(shape, slot)];
    }

    /** The map of all polymorphic entries. */
    method PolyMap(fx: Fixed, k: string) returns (m: map<Shape, nat>)
      requires Correct(fx) && key == Some(k) && state == Polymorphic
      ensures (set s | s in m :: Entry(s, m[s])) == Entries()
      ensures forall s | s in m :: fx.slotOf(s, k) == Some(m[s])
    {
      m := map[];
      var j := 0;
      while j < polyLen
        invariant 0 <= j <= polyLen
        invariant forall s | s in m :: Entry(s, m[s]) in poly[..j] && fx.slotOf(s, k) == Some(m[s])
        invariant forall e | e in poly[..j] :: e.shape in m && m[e.shape] == e.slot
      {
        assert poly[..j + 1] == poly[..j] + [poly[j]];
        assert poly[j] in poly[..polyLen] && poly[j] in Entries();
        m := m[poly[j].shape := poly[j].slot];
        j := j + 1;
      }
    }

    /** `protoRecord`: remember where walking the prototype chain finds `k`. */
    method ProtoRecord(fx: Fixed, k: string, recv: Shape, guards: seq<Guard>, slot: nat)
      requires Correct(fx) && (0 < |guards| <= PROTO_DEPTH ==> ChainRight(fx, k, recv, guards, slot))
      modifies this, protoChain
      ensures Correct(fx) && poly == old(poly) && protoChain == old(protoChain) && Entries() == old(Entries())
              && state == old(state)
      ensures var takes := 0 < |guards| <= PROTO_DEPTH && (old(key).None? || old(key) == Some(k));
              && key == (if takes then Some(k) else old(key))
              && (takes ==> protoRecv == recv && protoSlot == slot && Guards() == guards)
              && (!takes ==> protoRecv == old(protoRecv) && protoSlot == old(protoSlot) && Guards() == old(Guards()))
    {
      if |guards| == 0 || |guards| > PROTO_DEPTH { return; }
      if key.Some? {
        if key.value != k { return; }
      } else {
        key := Some(k);
      }
      protoRecv, protoSlot := recv, slot;
      var i := 0;
      while i < |guards|
        invariant 0 <= i <= |guards| && protoChain == old(protoChain) && poly == old(poly) && Valid()
        invariant protoChain[..i] == guards[..i]
        invariant key == Some(k) && Entries() == old(Entries()) && state == old(state) && protoRecv == recv
                  && protoSlot == slot
      {
        protoChain[i] := guards[i];
        i := i + 1;
      }
      protoLen := |guards|;
      assert protoChain[..protoLen] == guards;
    }

    method ProtoKeyMatches(k: string) returns (r: bool)
      ensures r <==> protoLen != 0 && key == Some(k)
    {
      r := protoLen != 0 && key == Some(k);
    }
  }

  lemma MegaAdd(m: map<Shape, nat>, shape: Shape, slot: nat)
    requires shape in m ==> m[shape] == slot
    ensures var m' := m[shape := slot];
            (set s | s in m' :: Entry(s, m'[s])) == (set s | s in m :: Entry(s, m[s])) + {Entry(shape, slot)}
  {
    var m' := m[shape := slot];
    var all := set s | s in m' :: Entry(s, m'[s]);
    var before := set s | s in m :: Entry(s, m[s]);
    forall e | e in before ensures e in all { assert e.shape in m' && e == Entry(e.shape, m'[e.shape]); }
    assert shape in m' && Entry(shape, m'[shape]) in all;
  }

  /** Neither the receiver's shape nor any guard before the last has the key; the last has it. */
  predicate ChainRight(fx: Fixed, key: string, recv: Shape, guards: seq<Guard>, slot: nat)
  {
    && |guards| > 0 && fx.slotOf(recv, key).None?
    && (forall i | 0 <= i < |guards| - 1 :: fx.slotOf(guards[i].shape, key).None?)
    && fx.slotOf(guards[|guards| - 1].shape, key) == Some(slot)
  }

  // ------------------------------------------------------------------ the fast paths

  /** Whether the helpers leave a receiver or key to the full machinery at once. */
  predicate Special(fx: Fixed, h: Heap, o: Ref, key: string, read: bool)
  {
    o !in h || fx.kind(o) != Ordinary || key == "length" || (read && key == "size")
  }

  /** The prototype chain from `o` runs over the guarded objects, each still of its recorded shape. */
  ghost predicate ChainHolds(h: Heap, o: Ref, guards: seq<Guard>)
    decreases |guards|
  {
    |guards| == 0
    || (o in h && h[o].proto == Some(guards[0].obj) && guards[0].obj in h && h[guards[0].obj].shape == guards[0].shape
        && ChainHolds(h, guards[0].obj, guards[1..]))
  }

  lemma {:induction false} ChainGet(fx: Fixed, h: Heap, o: Ref, key: string, guards: seq<Guard>, slot: nat,
                                    steps: nat, plain: bool)
    requires o in h && ChainHolds(h, o, guards) && ChainRight(fx, key, h[o].shape, guards, slot)
    requires steps >= |guards|
    ensures var last := guards[|guards| - 1].obj;
            && last in h && h[last].shape == guards[|guards| - 1].shape
            && Find(fx, h, o, key, steps, plain) == Find(fx, h, last, key, steps - |guards|, false)
    decreases |guards|
  {
    var next := guards[0].obj;
    if |guards| > 1 {
      var rest := guards[1..];
      assert forall i | 0 <= i < |rest| :: rest[i] == guards[i + 1];
      ChainGet(fx, h, next, key, rest, slot, steps - 1, plain && fx.kind(o) == Ordinary);
    }
  }

  /** The cache knows the receiver's own slot for the key. */
  ghost predicate KnowsOwn(h: Heap, o: Ref, key: string, ic: InlineCache)
    requires ic.Valid() && o in h
    reads ic, ic.poly
  {
    ic.key == Some(key) && exists e :: e in ic.Entries() && e.shape == h[o].shape
  }

  /** The cache knows the way to the holder of the key, and the way is as it was. */
  ghost predicate KnowsChain(h: Heap, o: Ref, key: string, ic: InlineCache)
    requires ic.Valid() && o in h
    reads ic, ic.protoChain
  {
    ic.key == Some(key) && ic.protoLen > 0 && ic.protoRecv == h[o].shape && ChainHolds(h, o, ic.Guards())
  }

  /** The read fast path of `jsz_jit_get_prop`; `None` goes to the full machinery. A hit is what the
      full prototype-chain walk returns in the heap as it is now, and the path hits exactly when the
      cache knows where to look and a data value is there. */
  method FastGet(fx: Fixed, h: Heap, o: Ref, key: string, ic: InlineCache) returns (hit: Option<Word>)
    requires ic.Correct(fx)
    ensures hit.Some? ==> forall steps: nat | steps >= PROTO_DEPTH :: Get(fx, h, o, key, steps) == Data(hit.value)
    ensures hit.Some? ==> key != "length" && key != "size" && o in h && fx.kind(o) == Ordinary
    ensures hit.Some? <==> !Special(fx, h, o, key, true) && (KnowsOwn(h, o, key, ic) || KnowsChain(h, o, key, ic))
                           && Get(fx, h, o, key, PROTO_DEPTH).Data?
  {
    if Special(fx, h, o, key, true) { return None; }
    var shape := h[o].shape;
    var own := ic.Lookup(key, shape);
    if own.Some? {
      if IsAccessor(h[o], own.value) { return None; }
      if own.value < |h[o].slots| { return Some(h[o].slots[own.value]); }
    }
    var matches := ic.ProtoKeyMatches(key);
    if matches && ic.protoRecv == shape {
      var cur := o;
      var n := 0;
      ghost var guards := ic.protoChain[..ic.protoLen];
      while n < ic.protoLen
        invariant 0 <= n <= ic.protoLen && cur in h
        invariant n > 0 ==> cur == guards[n - 1].obj && h[cur].shape == guards[n - 1].shape
        invariant ChainHolds(h, cur, guards[n..]) <==> ChainHolds(h, o, guards)
        invariant n == 0 ==> cur == o
      {
        assert guards[n..][0] == ic.protoChain[n] && guards[n..][1..] == guards[n + 1..];
        if h[cur].proto.None? { return None; }
        var next := h[cur].proto.value;
        var g := ic.protoChain[n];
        if next != g.obj || next !in h || h[next].shape != g.shape { return None; }
        cur, n := next, n + 1;
      }
      assert ChainHolds(h, o, guards);
      var slot := ic.protoSlot;
      ChainGet(fx, h, o, key, guards, slot, PROTO_DEPTH, true);
      if IsAccessor(h[cur], slot) { return None; }
      if slot < |h[cur].slots| {
        forall steps: nat | steps >= PROTO_DEPTH ensures Get(fx, h, o, key, steps) == Data(h[cur].slots[slot]) {
          ChainGet(fx, h, o, key, guards, slot, steps, true);
        }
        return Some(h[cur].slots[slot]);
      }
    }
    hit := None;
  }

  /** The store fast path of `jsz_jit_set_own`; `None` goes to the full machinery with the heap as it
      was. It stores exactly when the cache knows the slot and an ordinary set would store there. */
  method FastSet(fx: Fixed, h: Heap, o: Ref, key: string, v: Word, ic: InlineCache) returns (hit: Option<Heap>)
    requires ic.Correct(fx)
    ensures hit == if Special(fx, h, o, key, false) || !KnowsOwn(h, o, key, ic) then None else SetOwn(fx, h, o, key, v)
    ensures hit.Some? <==>
            && key != "length" && o in h && fx.kind(o) == Ordinary && KnowsOwn(h, o, key, ic)
            && exists slot ::
                 && fx.slotOf(h[o].shape, key) == Some(slot) && slot < |h[o].slots|
                 && (slot < |h[o].attrs| ==> !h[o].attrs[slot].accessor && h[o].attrs[slot].writable)
  {
    if o in h && fx.kind(o) == Ordinary { SetOwnExact(fx, h, o, key, v); }
    if Special(fx, h, o, key, false) { return None; }
    var shape := h[o].shape;
    var own := ic.Lookup(key, shape);
    if own.Some? {
      var slot := own.value;
      if slot < |h[o].attrs| && (h[o].attrs[slot].accessor || !h[o].attrs[slot].writable) { return None; }
      if slot < |h[o].slots| { return Some(h[o := h[o].(slots := h[o].slots[slot := v])]); }
    }
    hit := None;
  }

  // ------------------------------------------------------------------ laws

  /** A walk that meets an object with the key gives what is in the slot: the getter of an accessor, the
      value of a data slot. */
  lemma {:induction false} FoundAt(fx: Fixed, h: Heap, p: Ref, o: Ref, key: string, steps: nat, plain: bool)
    requires Meets(fx, h, p, o, key, steps) && o in h && fx.slotOf(h[o].shape, key).Some?
    ensures var slot := fx.slotOf(h[o].shape, key).value;
            Find(fx, h, p, key, steps, plain) ==
            if slot < |h[o].attrs| && h[o].attrs[slot].accessor then Getter(o, slot)
            else if slot < |h[o].slots| then Data(h[o].slots[slot])
            else Beyond
    decreases steps
  {
    if p != o { FoundAt(fx, h, h[p].proto.value, o, key, steps - 1, plain && fx.kind(p) == Ordinary); }
  }

  /** A walk that gives a value has met a data slot that holds it; one that gives a getter, an accessor;
      one that gives nothing has met no object with the key. */
  lemma {:induction false} FoundFrom(fx: Fixed, h: Heap, p: Ref, key: string, steps: nat, plain: bool) returns (o: Ref)
    ensures var got := Find(fx, h, p, key, steps, plain);
            && (got.Data? || got.Getter? ==>
                 && Meets(fx, h, p, o, key, steps) && o in h && fx.slotOf(h[o].shape, key).Some?
                 && var slot := fx.slotOf(h[o].shape, key).value;
                    var accessor := slot < |h[o].attrs| && h[o].attrs[slot].accessor;
                    if got.Getter? then accessor && got.holder == o && got.slot == slot
                    else !accessor && slot < |h[o].slots| && got.value == h[o].slots[slot])
            && (got.Nothing? ==> forall q | Meets(fx, h, p, q, key, steps) && q in h ::
                 fx.slotOf(h[q].shape, key).None?)
    decreases steps
  {
    o := p;
    if steps > 0 && p in h && fx.slotOf(h[p].shape, key).None? && h[p].proto.Some? {
      o := FoundFrom(fx, h, h[p].proto.value, key, steps - 1, plain && fx.kind(p) == Ordinary);
    }
  }

  /** Walking from `p` for a key meets `o` before anything that ends the walk. */
  predicate Meets(fx: Fixed, h: Heap, p: Ref, o: Ref, key: string, steps: nat)
    decreases steps
  {
    p == o || (p in h && fx.slotOf(h[p].shape, key).None? && h[p].proto.Some? && steps > 0
               && Meets(fx, h, h[p].proto.value, o, key, steps - 1))
  }

  lemma {:induction false} StoredIsFound(fx: Fixed, h: Heap, o: Ref, key: string, v: Word, p: Ref, k: string,
                                         steps: nat, plain: bool)
    requires SetOwn(fx, h, o, key, v).Some?
    ensures var h' := SetOwn(fx, h, o, key, v).value;
            Find(fx, h', p, key, steps, plain) == if Meets(fx, h, p, o, key, steps) then Data(v)
                else Find(fx, h, p, key, steps, plain)
    ensures k != key && (forall s: Shape, a, b ::
            a != b && fx.slotOf(s, a).Some? ==> fx.slotOf(s, a) != fx.slotOf(s, b)) ==>
              Find(fx, SetOwn(fx, h, o, key, v).value, p, k, steps, plain) == Find(fx, h, p, k, steps, plain)
    decreases steps
  {
    if steps > 0 && p in h && h[p].proto.Some? {
      StoredIsFound(fx, h, o, key, v, h[p].proto.value, k, steps - 1, plain && fx.kind(p) == Ordinary);
    }
  }

  /** After a store, reading the key from a plain receiver gives the value stored wherever the walk
      meets the object stored to, and what it gave before everywhere else; every other key reads as
      before. */
  lemma StoredIsRead(fx: Fixed, h: Heap, o: Ref, key: string, v: Word, p: Ref, k: string, steps: nat)
    requires SetOwn(fx, h, o, key, v).Some?
    ensures var h' := SetOwn(fx, h, o, key, v).value;
            Get(fx, h', p, key, steps)
            == if fx.kind(p) == Ordinary && Meets(fx, h, p, o, key, steps) then Data(v) else Get(fx, h, p, key, steps)
    ensures k != key && (forall s: Shape, a, b ::
            a != b && fx.slotOf(s, a).Some? ==> fx.slotOf(s, a) != fx.slotOf(s, b)) ==>
              Get(fx, SetOwn(fx, h, o, key, v).value, p, k, steps) == Get(fx, h, p, k, steps)
  {
    StoredIsFound(fx, h, o, key, v, p, k, steps, true);
  }
}
