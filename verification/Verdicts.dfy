/** The verdict of the gate, in terms of the function's decoded instructions: when it accepts, when it asks
    to be tried again, and every reason for never compiling a function. */
module Verdicts {
  import opened Options
  import opened Bits
  import opened Float64
  import opened NanBox
  import opened Bytecode
  import opened Interp
  import opened Emit
  import opened Translate
  import opened Blocks
  import opened Analyze
  import opened Gate
  import opened Complete
  import NumberLaws

  // ------------------------------------------------------------------ what the gate asks of an instruction

  /** The constant is the name `n`. */
  predicate Named(f: Function, k: nat, n: string)
  {
    k < |f.constants| && f.constants[k].KStr? && f.constants[k].name == n
  }

  /** `n` is a parameter, or some instruction declares it. */
  ghost predicate OwnName(f: Function, n: string)
  {
    n in f.params || exists pc :: Starts(f.code, pc) && DeclaresName(f, pc, n)
  }

  predicate DeclaresName(f: Function, pc: nat, n: string)
    requires pc < |f.code|
  {
    && Whole(f.code, pc) && f.code[pc] in {DEFINE_GLOBAL, HOIST_VAR, HOIST_LEX, INIT_LEX}
    && Named(f, ReadU16(f.code, pc + 1), n)
  }

  /** A whole number of magnitude below 2^53. */
  ghost predicate WholeNumber(c: Const)
  {
    c.KNum? && exists i: nat :: i < SAFE && IsUnits(Decode(c.bits), i)
  }

  predicate IsUnits(d: Dbl, i: nat) { (d.Zero? || d.Fin?) && Abs(d.Units()) == i * One() }

  /** The very next instruction is a conditional jump on register `r`. */
  predicate Tested(code: Code, next: nat, r: nat)
  {
    next + 1 < |code| && code[next] in {JMP_IF_TRUE, JMP_IF_FALSE} && code[next + 1] == r
  }

  /** The instruction before never goes on to `pc`. */
  ghost predicate AfterExit(code: Code, pc: nat)
  {
    exists prev :: Starts(code, prev) && EndsAt(code, prev, pc)
  }

  predicate EndsAt(code: Code, prev: nat, pc: nat)
    requires prev < |code|
  {
    Next(code, prev) == pc && code[prev] in {RETURN, JMP}
  }

  /** Some jump goes to `pc`. */
  ghost predicate JumpedTo(code: Code, pc: nat)
  {
    exists at :: Starts(code, at) && JumpsTo(code, at, pc)
  }

  predicate JumpsTo(code: Code, at: nat, pc: nat)
    requires at < |code|
  {
    Whole(code, at) && code[at] in {JMP, JMP_IF_TRUE, JMP_IF_FALSE} && Target(code, at) == pc
  }

  /** The gate passes the instruction, whatever its cache. */
  ghost predicate Passes(f: Function, boxed: bool, pc: nat)
    requires Whole(f.code, pc)
  {
    var next := Next(f.code, pc);
    match Fetch(f.code, pc)
    case LoadK(_, k) => k < |f.constants| && (boxed || WholeNumber(f.constants[k]))
    case Unary(op, dst, _) =>
      || op in {MOVE, BIT_NOT, TO_NUMERIC, INC, DEC} || (boxed && op == NEG)
      || (op == NOT && Tested(f.code, next, dst))
    case Binary(op, dst, _, _) =>
      || op in {ADD, SUB, MUL, BIT_AND, BIT_OR, BIT_XOR, SHL, SHR, USHR} || (boxed && op in {DIV, MOD, GET_PROP_DYN})
      || (op in {EQ, NEQ, SEQ, SNEQ, LT, LE, GT, GE} && Tested(f.code, next, dst))
    case GetName(op, _, k) => op == GET_GLOBAL && exists n :: Named(f, k, n) && (boxed || OwnName(f, n))
    case SetName(_, k, _) => exists n :: Named(f, k, n) && OwnName(f, n)
    case Branch(op, _, _) => op in {JMP_IF_TRUE, JMP_IF_FALSE}
    case GetProp(_, _, k) => boxed && IsString(f, k) && pc < |f.caches|
    case SetProp(_, k, _) => boxed && IsString(f, k) && pc < |f.caches|
    case SetElem(_, _, _) => boxed
    case Call(_, _, _) => boxed
    case NewClosure(_, _) => boxed
    case Stop(op) => op == RETURN_UNDEF && (boxed || (AfterExit(f.code, pc) && !JumpedTo(f.code, pc)))
    case Hoist(_) => true
    case Jump(_) => true
    case Return(_) => true
    case LoadLit(_, _) => false
    case Other(op) => op in {HOIST_LEX, INIT_LEX}
  }

  /** The inline cache of a property access has seen nothing; for a read, no prototype chain either. */
  predicate ColdAt(f: Function, pc: nat)
    requires Whole(f.code, pc)
  {
    match Fetch(f.code, pc)
    case GetProp(_, _, _) => pc < |f.caches| && !f.caches[pc].filled && f.caches[pc].chain == 0
    case SetProp(_, _, _) => pc < |f.caches| && !f.caches[pc].filled
    case _ => false
  }

  // ------------------------------------------------------------------ the verdicts

  /** All instructions are whole, and names read in the boxed lane are names. */
  ghost predicate Readable(f: Function, boxed: bool)
  {
    && (forall pc: nat | Starts(f.code, pc) :: Whole(f.code, pc))
    && (boxed ==> forall pc: nat | Starts(f.code, pc) && f.code[pc] == GET_GLOBAL ::
         IsString(f, ReadU16(f.code, pc + 2)))
  }

  /** A function that may be compiled at all. */
  predicate Ordinary(f: Function) { !f.isGenerator && !f.isAsync && |f.code| > 0 && |f.constants| > 0 }

  /** All instructions before `pc` pass, with caches that are warm enough. */
  ghost predicate PassedUpTo(f: Function, boxed: bool, allowCold: bool, pc: nat)
  {
    forall q: nat | Starts(f.code, q) && q < pc ::
        Whole(f.code, q) && Passes(f, boxed, q) && (allowCold || !ColdAt(f, q))
  }

  /** The jumps of an instruction land on instructions, and the translator knows it. */
  predicate Lands(f: Function, pc: nat)
    requires Whole(f.code, pc)
  {
    match Fetch(f.code, pc)
    case Jump(_) => Starts(f.code, Target(f.code, pc))
    case Branch(_, _, _) => Starts(f.code, Target(f.code, pc)) && Starts(f.code, Next(f.code, pc))
    case Other(op) => op !in {HOIST_LEX, INIT_LEX}
    case _ => true
  }

  /** Try again later: a property access that nothing refuses has a cold cache, and so far all is well. */
  ghost predicate TryLater(f: Function, boxed: bool, allowCold: bool)
  {
    && Ordinary(f) && Readable(f, boxed) && !allowCold
    && exists pc: nat :: Starts(f.code, pc) && PassedUpTo(f, boxed, allowCold, pc) && ColdHere(f, boxed, pc)
  }

  ghost predicate ColdHere(f: Function, boxed: bool, pc: nat)
  {
    Whole(f.code, pc) && Passes(f, boxed, pc) && ColdAt(f, pc)
  }

  /** Compile: every instruction passes, every cache is warm enough, every jump lands. */
  ghost predicate CompileNow(f: Function, boxed: bool, allowCold: bool)
  {
    && Ordinary(f) && Readable(f, boxed) && PassedUpTo(f, boxed, allowCold, |f.code|)
    && forall pc: nat | Starts(f.code, pc) :: Whole(f.code, pc) && Lands(f, pc)
  }

  /** Every reason for never compiling a function: it is a generator, async or empty; an instruction is cut
      short; a name that is read is none; an instruction does not pass, and no cold cache comes first; or a
      jump does not land. */
  ghost predicate NeverBecause(f: Function, boxed: bool, allowCold: bool)
  {
    || f.isGenerator || f.isAsync || |f.code| == 0 || |f.constants| == 0
    || (exists pc: nat :: Starts(f.code, pc) && !Whole(f.code, pc))
    || (boxed && exists pc: nat :: Starts(f.code, pc) && Nameless(f, pc))
    || (exists pc: nat :: Starts(f.code, pc) && PassedUpTo(f, boxed, allowCold, pc) && RefusedHere(f, boxed, pc))
    || (PassedUpTo(f, boxed, allowCold, |f.code|) && exists pc: nat :: Starts(f.code, pc) && AstrayHere(f, pc))
  }

  predicate Nameless(f: Function, pc: nat)
  {
    Whole(f.code, pc) && f.code[pc] == GET_GLOBAL && !IsString(f, ReadU16(f.code, pc + 2))
  }

  ghost predicate RefusedHere(f: Function, boxed: bool, pc: nat) { Whole(f.code, pc) && !Passes(f, boxed, pc) }
  predicate AstrayHere(f: Function, pc: nat) { Whole(f.code, pc) && !Lands(f, pc) }

  // ------------------------------------------------------------------ walking over instruction starts

  /** A boundary behind another is behind the instruction there. */
  lemma {:induction false} Through(code: Code, a: nat, from: nat, pc: nat)
    requires Boundary(code, a, from) && Boundary(code, a, pc) && from < pc
    ensures Whole(code, from) && Next(code, from) <= pc
    decreases |code| - a
  {
    if a == from { BoundaryAtLeast(code, Next(code, from), pc); } else {
      BoundaryAtLeast(code, Next(code, a), from);
      Through(code, Next(code, a), from, pc);
    }
  }

  /** The starts from `from` on are `from` and those from the next instruction on. */
  lemma StartsSplit(code: Code, from: nat)
    requires Boundary(code, 0, from) && from < |code|
    ensures Starts(code, from)
    ensures forall pc: nat | Starts(code, pc) && pc > from :: Whole(code, from) && pc >= Next(code, from)
    ensures Whole(code, from) ==> Next(code, from) <= |code| && Boundary(code, 0, Next(code, from))
  {
    forall pc: nat | Starts(code, pc) && pc > from ensures Whole(code, from) && pc >= Next(code, from) {
      Through(code, 0, from, pc);
    }
    if Whole(code, from) { BoundaryStep(code, 0, from); }
  }

  // ------------------------------------------------------------------ names

  /** An instruction from `from` on declares `n`. */
  predicate DeclaredFrom(f: Function, from: nat, pc: nat, n: string)
  {
    from <= pc && Starts(f.code, pc) && DeclaresName(f, pc, n)
  }

  lemma DeclaresIs(f: Function, pc: nat, n: string)
    requires Whole(f.code, pc)
    ensures DeclaresName(f, pc, n) <==> Declares(f, pc) == Some(n)
  {
    hide ReadU16;
  }

  lemma {:induction false} DeclaredExactly(f: Function, from: nat, names: seq<string>, n: string)
    requires Boundary(f.code, 0, from) && from <= |f.code|
    ensures Declared(f, from, names).Some? <==> forall pc: nat | Starts(f.code, pc) && pc >= from :: Whole(f.code, pc)
    ensures Declared(f, from, names).Some? ==>
            (n in Declared(f, from, names).value <==> n in names || exists pc: nat :: DeclaredFrom(f, from, pc, n))
    decreases |f.code| - from
  {
    hide Whole, Starts, Boundary, Declares, DeclaresName;
    if from < |f.code| {
      StartsSplit(f.code, from);
      if Whole(f.code, from) {
        WholeMoves(f.code, from);
        DeclaresIs(f, from, n);
        var next := Next(f.code, from);
        var names' := match Declares(f, from) case None => names case Some(m) => AddName(names, m);
        DeclaredExactly(f, next, names', n);
        if pc: nat :| DeclaredFrom(f, from, pc, n) && pc != from { assert DeclaredFrom(f, next, pc, n); }
        if pc: nat :| DeclaredFrom(f, next, pc, n) { assert DeclaredFrom(f, from, pc, n); }
        assert DeclaresName(f, from, n) ==> DeclaredFrom(f, from, from, n);
      }
    } else {
      NoStarts(f.code, from);
    }
  }

  lemma WholeMoves(code: Code, pc: nat)
    requires Whole(code, pc)
    ensures pc < Next(code, pc) <= |code|
  {
  }

  lemma NoStarts(code: Code, from: nat)
    requires from >= |code|
    ensures forall pc: nat | Starts(code, pc) :: pc < from
  {
  }

  lemma {:induction false} AddNamesHave(names: seq<string>, more: seq<string>, i: nat, n: string)
    requires i <= |more|
    ensures n in AddNames(names, more, i) <==> n in names || n in more[i..]
    decreases |more| - i
  {
    if i < |more| {
      AddNamesHave(AddName(names, more[i]), more, i + 1, n);
      assert more[i..] == [more[i]] + more[i + 1..];
    }
  }

  /** The gate's own names. */
  lemma OwnExactly(f: Function, n: string)
    ensures var d := Declared(f, 0, AddNames([], f.params, 0));
            && (d.Some? <==> forall pc: nat | Starts(f.code, pc) :: Whole(f.code, pc))
            && (d.Some? ==> (n in d.value <==> OwnName(f, n)))
  {
    hide Declared, AddNames, Boundary, DeclaresName, Whole;
    var names := AddNames([], f.params, 0);
    AtZero(f.code);
    DeclaredExactly(f, 0, names, n);
    AddNamesHave([], f.params, 0, n);
    assert f.params[0..] == f.params;
    if pc: nat :| Starts(f.code, pc) && DeclaresName(f, pc, n) { assert DeclaredFrom(f, 0, pc, n); }
    if pc: nat :| DeclaredFrom(f, 0, pc, n) { assert Starts(f.code, pc) && DeclaresName(f, pc, n); }
  }

  /** An instruction from `from` on reads the name `n`. */
  predicate ReadFrom(f: Function, from: nat, pc: nat, n: string)
  {
    from <= pc && Starts(f.code, pc) && ReadsName(f, pc, n)
  }

  predicate ReadsName(f: Function, pc: nat, n: string)
    requires pc < |f.code|
  {
    Whole(f.code, pc) && f.code[pc] == GET_GLOBAL && Named(f, ReadU16(f.code, pc + 2), n)
  }

  lemma {:induction false} CapturedExactly(f: Function, from: nat, names: seq<string>, n: string)
    requires Boundary(f.code, 0, from) && from <= |f.code|
    requires forall pc: nat | Starts(f.code, pc) :: Whole(f.code, pc)
    ensures Captured(f, from, names).Some? <==> forall pc: nat | Starts(f.code, pc) && pc >= from :: !Nameless(f, pc)
    ensures Captured(f, from, names).Some? ==>
            (n in Captured(f, from, names).value <==> n in names || exists pc: nat :: ReadFrom(f, from, pc, n))
    decreases |f.code| - from
  {
    hide Whole, Starts, Boundary, ReadsName, Nameless;
    if from < |f.code| {
      StartsSplit(f.code, from);
      WholeMoves(f.code, from);
      ReadHere(f, from, n);
      var next := Next(f.code, from);
      if f.code[from] != GET_GLOBAL {
        CapturedExactly(f, next, names, n);
      } else if !Nameless(f, from) {
        CapturedExactly(f, next, AddName(names, f.constants[ReadU16(f.code, from + 2)].name), n);
      }
      if pc: nat :| ReadFrom(f, from, pc, n) && pc != from { assert ReadFrom(f, next, pc, n); }
      if pc: nat :| ReadFrom(f, next, pc, n) { assert ReadFrom(f, from, pc, n); }
      assert ReadsName(f, from, n) ==> ReadFrom(f, from, from, n);
    } else {
      NoStarts(f.code, from);
    }
  }

  lemma ReadHere(f: Function, pc: nat, n: string)
    requires Whole(f.code, pc)
    ensures f.code[pc] == GET_GLOBAL ==>
            && pc + 4 <= |f.code| && (Nameless(f, pc) <==> !IsString(f, ReadU16(f.code, pc + 2)))
            && (!Nameless(f, pc) ==> (ReadsName(f, pc, n) <==> f.constants[ReadU16(f.code, pc + 2)].name == n))
    ensures f.code[pc] != GET_GLOBAL ==> !Nameless(f, pc) && !ReadsName(f, pc, n)
  {
    hide ReadU16;
  }

  // ------------------------------------------------------------------ jump targets, exits

  predicate JumpFrom(code: Code, from: nat, at: nat, pc: nat)
  {
    from <= at && Starts(code, at) && JumpsTo(code, at, pc)
  }

  lemma {:induction false} TargetsExactly(code: Code, from: nat, pc: nat)
    requires Boundary(code, 0, from) && from <= |code| && forall t: nat | Starts(code, t) :: Whole(code, t)
    ensures pc in Targets(code, from) <==> exists at: nat :: JumpFrom(code, from, at, pc)
    decreases |code| - from
  {
    hide Whole, Starts, Boundary, JumpsTo;
    if from < |code| {
      StartsSplit(code, from);
      WholeMoves(code, from);
      JumpHere(code, from, pc);
      var next := Next(code, from);
      TargetsExactly(code, next, pc);
      if at: nat :| JumpFrom(code, from, at, pc) && at != from { assert JumpFrom(code, next, at, pc); }
      if at: nat :| JumpFrom(code, next, at, pc) { assert JumpFrom(code, from, at, pc); }
      assert JumpsTo(code, from, pc) ==> JumpFrom(code, from, from, pc);
    } else {
      NoStarts(code, from);
      NotWhole(code, from);
    }
  }

  lemma JumpHere(code: Code, at: nat, pc: nat)
    requires Whole(code, at)
    ensures JumpsTo(code, at, pc) <==> IsJump(code[at]) && Target(code, at) == pc
  {
    hide Target;
  }

  lemma NotWhole(code: Code, pc: nat)
    requires pc >= |code|
    ensures !Whole(code, pc)
  {
  }

  /** The gate's list of targets has the instructions that are jumped to. */
  lemma TargetsAre(code: Code, pc: nat)
    requires forall t: nat | Starts(code, t) :: Whole(code, t)
    ensures pc in Targets(code, 0) <==> JumpedTo(code, pc)
  {
    hide Whole, Boundary, JumpsTo, Targets;
    AtZero(code);
    TargetsExactly(code, 0, pc);
    if at: nat :| Starts(code, at) && JumpsTo(code, at, pc) { assert JumpFrom(code, 0, at, pc); }
    if at: nat :| JumpFrom(code, 0, at, pc) { assert Starts(code, at) && JumpsTo(code, at, pc); }
  }

  /** Behind an instruction, whether it goes on is what decides. */
  lemma ExitNext(code: Code, from: nat)
    requires Starts(code, from) && forall t: nat | Starts(code, t) :: Whole(code, t)
    ensures AfterExit(code, Next(code, from)) <==> code[from] in {RETURN, JMP}
  {
    hide Whole, Boundary;
    WholeMoves(code, from);
    var next := Next(code, from);
    if code[from] in {RETURN, JMP} { assert EndsAt(code, from, next); }
    if prev: nat :| Starts(code, prev) && EndsAt(code, prev, next) {
      IsBoundary(code, from); IsBoundary(code, prev);
      WholeMoves(code, prev);
      if prev < from { Through(code, 0, prev, from); } else if from < prev { Through(code, 0, from, prev); }
    }
  }

  lemma IsBoundary(code: Code, pc: nat)
    requires Starts(code, pc)
    ensures Boundary(code, 0, pc) && pc < |code|
  {
  }

  lemma NoExitAtStart(code: Code)
    requires forall t: nat | Starts(code, t) :: Whole(code, t)
    ensures !AfterExit(code, 0)
  {
    hide Whole, Boundary;
    forall prev: nat | Starts(code, prev) ensures !EndsAt(code, prev, 0) { WholeMoves(code, prev); }
  }

  // ------------------------------------------------------------------ one instruction

  lemma IntConstIs(c: Const)
    ensures IsIntConst(c) <==> WholeNumber(c)
  {
    hide Decode, One;
    if c.KNum? {
      var d := Decode(c.bits);
      if IsIntConst(c) {
        var i := Quotient(Abs(d.Units()), One());
        WholePart(Abs(d.Units()), One(), i);
        assert IsUnits(d, i);
      }
      if WholeNumber(c) {
        var i: nat :| i < SAFE && IsUnits(d, i);
        ModUnique(Abs(d.Units()), One(), i, 0);
      }
    }
  }

  lemma WholePart(m: nat, u: nat, i: nat)
    requires u > 0 && i == m / u
    ensures m % u == 0 ==> m == i * u
  {
  }

  /** The names the gate works with: the function's own first, then those it reads. */
  ghost predicate KnowsNames(f: Function, boxed: bool, all: seq<string>, owned: nat)
  {
    && Distinct(all) && owned <= |all| && (!boxed ==> owned == |all|)
    && (forall n :: n in all[..owned] <==> OwnName(f, n))
    && (boxed ==> forall pc: nat, n | Starts(f.code, pc) && ReadsName(f, pc, n) :: n in all)
  }

  lemma SlotIs(f: Function, all: seq<string>, owned: nat, k: nat)
    requires Distinct(all) && owned <= |all|
    ensures ReadSlot(Slots(f, all), k) >= 0 <==> exists n :: Named(f, k, n) && n in all
    ensures 0 <= ReadSlot(Slots(f, all), k) < owned <==> exists n :: Named(f, k, n) && n in all[..owned]
  {
    SlotMeaning(f, all, k);
    if IsString(f, k) {
      var n := f.constants[k].name;
      assert Named(f, k, n);
      if n in all { OwnIndex(all, owned, n); }
    }
  }

  lemma ReadRules(f: Function, boxed: bool, all: seq<string>, owned: nat, pc: nat)
    requires KnowsNames(f, boxed, all, owned) && Starts(f.code, pc) && Whole(f.code, pc) && f.code[pc] == GET_GLOBAL
    ensures pc + 4 <= |f.code|
    ensures var k := ReadU16(f.code, pc + 2);
            ReadSlot(Slots(f, all), k) >= 0 <==> exists n :: Named(f, k, n) && (boxed || OwnName(f, n))
  {
    hide Boundary, ReadU16, Slots, ReadSlot, OwnName;
    var k := ReadU16(f.code, pc + 2);
    SlotIs(f, all, owned, k);
    assert !boxed ==> all[..owned] == all;
    if n :| Named(f, k, n) && (boxed || OwnName(f, n)) {
      assert boxed ==> ReadsName(f, pc, n);
      assert n in all;
    }
    if n :| Named(f, k, n) && n in all { assert boxed || OwnName(f, n); }
  }

  lemma WriteRules(f: Function, boxed: bool, all: seq<string>, owned: nat, k: nat)
    requires KnowsNames(f, boxed, all, owned)
    ensures 0 <= ReadSlot(Slots(f, all), k) < owned <==> exists n :: Named(f, k, n) && OwnName(f, n)
  {
    hide Slots, ReadSlot, OwnName;
    SlotIs(f, all, owned, k);
    if n :| Named(f, k, n) && OwnName(f, n) { assert n in all[..owned]; }
    if n :| Named(f, k, n) && n in all[..owned] { assert OwnName(f, n); }
  }

  /** A comparison or a negation is tested by what follows when the bytes say so. */
  lemma TestedIs(code: Code, pc: nat)
    requires Whole(code, pc)
    ensures var i := Fetch(code, pc);
            i.Unary? || i.Binary? ==> (FeedsJump(code, pc) <==> Tested(code, Next(code, pc), i.dst))
  {
    hide ReadU16, ReadI16;
  }

  /** What pass C says of a property access. */
  lemma PropRules(f: Function, boxed: bool, allowCold: bool, slots: seq<int>, owned: nat, targets: seq<int>, pc: nat,
                  exit: bool)
    requires Whole(f.code, pc) && (Fetch(f.code, pc).GetProp? || Fetch(f.code, pc).SetProp?)
    ensures var r := Rule(f, boxed, allowCold, slots, owned, targets, pc, exit);
            (r == Refused <==> !Passes(f, boxed, pc))
            && (r == Cold <==> Passes(f, boxed, pc) && !allowCold && ColdAt(f, pc))
  {
    hide ReadU16, ReadI16;
  }

  /** Pass C rules on an instruction as `Passes` and `ColdAt` say. */
  lemma RuleMeans(f: Function, boxed: bool, allowCold: bool, all: seq<string>, owned: nat, pc: nat, exit: bool)
    requires KnowsNames(f, boxed, all, owned) && Starts(f.code, pc) && Whole(f.code, pc)
    requires forall t: nat | Starts(f.code, t) :: Whole(f.code, t)
    requires exit <==> AfterExit(f.code, pc)
    ensures var r := Rule(f, boxed, allowCold, Slots(f, all), owned, Targets(f.code, 0), pc, exit);
            (r == Refused <==> !Passes(f, boxed, pc))
            && (r == Cold <==> Passes(f, boxed, pc) && !allowCold && ColdAt(f, pc))
  {
    hide Boundary, Targets, Slots, Rule, Passes, ColdAt, JumpedTo, AfterExit, OwnName, KnowsNames, Starts, Fetch;
    var i := Fetch(f.code, pc);
    if i.GetProp? || i.SetProp? {
      PropRules(f, boxed, allowCold, Slots(f, all), owned, Targets(f.code, 0), pc, exit);
    } else {
      TargetsAre(f.code, pc);
      OtherRules(f, boxed, allowCold, all, owned, pc, exit);
    }
  }

  lemma OtherRules(f: Function, boxed: bool, allowCold: bool, all: seq<string>, owned: nat, pc: nat, exit: bool)
    requires KnowsNames(f, boxed, all, owned) && Starts(f.code, pc) && Whole(f.code, pc)
    requires !Fetch(f.code, pc).GetProp? && !Fetch(f.code, pc).SetProp?
    requires (exit <==> AfterExit(f.code, pc)) && (pc in Targets(f.code, 0) <==> JumpedTo(f.code, pc))
    ensures var r := Rule(f, boxed, allowCold, Slots(f, all), owned, Targets(f.code, 0), pc, exit);
            r != Cold && !ColdAt(f, pc) && (r == Refused <==> !Passes(f, boxed, pc))
  {
    hide Boundary, Targets, ReadU16, ReadI16, Slots, ReadSlot, IsIntConst, WholeNumber, AfterExit, JumpedTo, OwnName,
      KnowsNames, Tested, FeedsJump, Starts, SiteRuling;
    var i := Fetch(f.code, pc);
    TestedIs(f.code, pc);
    if i.LoadK? && i.k < |f.constants| { IntConstIs(f.constants[i.k]); }
    if f.code[pc] == GET_GLOBAL { ReadRules(f, boxed, all, owned, pc); }
    if i.SetName? { WriteRules(f, boxed, all, owned, i.k); }
  }

  // ------------------------------------------------------------------ pass C

  /** The instruction lets the gate go on. */
  ghost predicate GoesOn(f: Function, boxed: bool, allowCold: bool, pc: nat)
  {
    Whole(f.code, pc) && Passes(f, boxed, pc) && (allowCold || !ColdAt(f, pc))
  }

  /** From `from` on, the gate goes on up to `pc`. */
  ghost predicate GoesTo(f: Function, boxed: bool, allowCold: bool, from: nat, pc: nat)
  {
    forall q: nat | Starts(f.code, q) && from <= q < pc :: GoesOn(f, boxed, allowCold, q)
  }

  ghost predicate ColdStop(f: Function, boxed: bool, allowCold: bool, from: nat, pc: nat)
  {
    from <= pc && Starts(f.code, pc) && GoesTo(f, boxed, allowCold, from, pc) && !allowCold && ColdHere(f, boxed, pc)
  }

  ghost predicate RefusedStop(f: Function, boxed: bool, allowCold: bool, from: nat, pc: nat)
  {
    from <= pc && Starts(f.code, pc) && GoesTo(f, boxed, allowCold, from, pc) && RefusedHere(f, boxed, pc)
  }

  /** Pass C from any instruction: it ends at the first cold access or refused instruction, or at the end. */
  lemma {:induction false} CheckMeans(f: Function, boxed: bool, allowCold: bool, all: seq<string>, owned: nat,
                                      from: nat, exit: bool, sites: seq<PropSite>)
    requires KnowsNames(f, boxed, all, owned) && forall t: nat | Starts(f.code, t) :: Whole(f.code, t)
    requires Boundary(f.code, 0, from) && from <= |f.code| && (from < |f.code| ==> (exit <==> AfterExit(f.code, from)))
    ensures var r := CheckFrom(f, boxed, allowCold, Slots(f, all), owned, Targets(f.code, 0), from, exit, sites);
            && (r.Sites? <==> GoesTo(f, boxed, allowCold, from, |f.code|))
            && (r.ColdSite? <==> exists pc: nat :: ColdStop(f, boxed, allowCold, from, pc))
            && (r.Unsupported? <==> exists pc: nat :: RefusedStop(f, boxed, allowCold, from, pc))
    decreases |f.code| - from
  {
    hide Rule, KnowsNames, Whole, Boundary, Passes, ColdAt, AfterExit, Targets, Slots;
    if from < |f.code| {
      StartsSplit(f.code, from);
      WholeMoves(f.code, from);
      RuleMeans(f, boxed, allowCold, all, owned, from, exit);
      var next := Next(f.code, from);
      ExitNext(f.code, from);
      var rule := Rule(f, boxed, allowCold, Slots(f, all), owned, Targets(f.code, 0), from, exit);
      if rule == Refused {
        assert RefusedStop(f, boxed, allowCold, from, from);
      } else if rule == Cold {
        assert ColdStop(f, boxed, allowCold, from, from);
      } else {
        var exit' := f.code[from] == RETURN || f.code[from] == JMP;
        var sites' := if rule.Site? then sites + [PropSite(from, rule.key)] else sites;
        CheckMeans(f, boxed, allowCold, all, owned, next, exit', sites');
        Shift(f, boxed, allowCold, from);
      }
      FirstStops(f, boxed, allowCold, from);
    } else {
      NoStarts(f.code, from);
    }
  }

  /** Past an instruction that goes on, the stops are the same. */
  lemma Shift(f: Function, boxed: bool, allowCold: bool, from: nat)
    requires Boundary(f.code, 0, from) && from < |f.code| && GoesOn(f, boxed, allowCold, from)
    ensures GoesTo(f, boxed, allowCold, from, |f.code|) <==> GoesTo(f, boxed, allowCold, Next(f.code, from), |f.code|)
    ensures forall pc: nat :: ColdStop(f, boxed, allowCold, from, pc)
                              <==> ColdStop(f, boxed, allowCold, Next(f.code, from), pc)
    ensures forall pc: nat :: RefusedStop(f, boxed, allowCold, from, pc)
                              <==> RefusedStop(f, boxed, allowCold, Next(f.code, from), pc)
  {
    hide Passes, ColdAt, Boundary;
    StartsSplit(f.code, from);
    forall pc: nat
      ensures GoesTo(f, boxed, allowCold, from, pc) <==> GoesTo(f, boxed, allowCold, Next(f.code, from), pc)
    {
    }
  }

  /** A stop is behind nothing that stops. */
  lemma FirstStops(f: Function, boxed: bool, allowCold: bool, from: nat)
    requires Starts(f.code, from)
    ensures !GoesOn(f, boxed, allowCold, from) ==>
              !GoesTo(f, boxed, allowCold, from, |f.code|)
              && forall pc: nat | ColdStop(f, boxed, allowCold, from, pc)
                   || RefusedStop(f, boxed, allowCold, from, pc) ::
                   pc == from
  {
    hide Passes, ColdAt, Boundary;
  }

  // ------------------------------------------------------------------ the translator's part

  /** The region of a function whose instructions all pass. */
  ghost predicate Checked(f: Function, boxed: bool, allowCold: bool, all: seq<string>, owned: nat, sites: seq<PropSite>)
  {
    && KnowsNames(f, boxed, all, owned) && (forall t: nat | Starts(f.code, t) :: Whole(f.code, t))
    && GoesTo(f, boxed, allowCold, 0, |f.code|)
    && CheckFrom(f, boxed, allowCold, Slots(f, all), owned, Targets(f.code, 0), 0, false, []) == Sites(sites)
  }

  /** An instruction the gate passed fits the translator if and only if it lands. */
  lemma FitIsLands(f: Function, boxed: bool, allowCold: bool, all: seq<string>, owned: nat, sites: seq<PropSite>,
                   pc: nat)
    requires Checked(f, boxed, allowCold, all, owned, sites) && Starts(f.code, pc)
    ensures Whole(f.code, pc) && (Fit(Region(f.code, Slots(f, all), boxed, sites), pc) <==> Lands(f, pc))
  {
    hide Boundary, ReadU16, ReadI16, Slots, CheckFrom, Targets, KnowsNames, Fetch, Known, Starts, SiteKey, Tested,
      WholeNumber, AfterExit, JumpedTo, OwnName;
    assert GoesOn(f, boxed, allowCold, pc) by { IsBoundary(f.code, pc); }
    PassesKnown(f, boxed, pc);
    SlotsThere(f, boxed, all, owned, pc);
    SitesThere(f, boxed, allowCold, all, owned, sites, pc);
  }

  /** The translator knows what passes, declarations of `let` and `const` apart. */
  lemma PassesKnown(f: Function, boxed: bool, pc: nat)
    requires Whole(f.code, pc) && Passes(f, boxed, pc)
    ensures Known(f.code[pc], boxed) <==> !Fetch(f.code, pc).Other?
    ensures Fetch(f.code, pc).Other? ==> Fetch(f.code, pc).op in {HOIST_LEX, INIT_LEX}
  {
    hide ReadU16, ReadI16, Tested, WholeNumber, AfterExit, JumpedTo, OwnName, IsString;
  }

  lemma SlotsThere(f: Function, boxed: bool, all: seq<string>, owned: nat, pc: nat)
    requires KnowsNames(f, boxed, all, owned) && Starts(f.code, pc) && Whole(f.code, pc) && Passes(f, boxed, pc)
    ensures var i := Fetch(f.code, pc);
            i.GetName? || i.SetName? ==> i.k < |Slots(f, all)| && Slots(f, all)[i.k] >= 0
  {
    hide Boundary, ReadU16, ReadI16, KnowsNames, Slots, Tested, WholeNumber, AfterExit, JumpedTo, OwnName;
    var i := Fetch(f.code, pc);
    if f.code[pc] == GET_GLOBAL { ReadRules(f, boxed, all, owned, pc); }
    if i.SetName? { WriteRules(f, boxed, all, owned, i.k); }
  }

  lemma SitesThere(f: Function, boxed: bool, allowCold: bool, all: seq<string>, owned: nat, sites: seq<PropSite>,
                   pc: nat)
    requires Checked(f, boxed, allowCold, all, owned, sites) && Starts(f.code, pc) && Whole(f.code, pc)
    ensures var i := Fetch(f.code, pc); i.GetProp? || i.SetProp? ==> exists j :: 0 <= j < |sites| && sites[j].pc == pc
  {
    hide Boundary, Slots, CheckFrom, Targets, KnowsNames, Starts, Rule, GoesTo, Fetch;
    IsBoundary(f.code, pc);
    var e := SitesFound(f, boxed, allowCold, Slots(f, all), owned, Targets(f.code, 0), 0, false, [], pc);
    PropIsSite(f, boxed, allowCold, Slots(f, all), owned, Targets(f.code, 0), pc, e);
    SiteThere(sites, pc);
  }

  lemma PropIsSite(f: Function, boxed: bool, allowCold: bool, slots: seq<int>, owned: nat, targets: seq<int>, pc: nat,
                   e: bool)
    requires Whole(f.code, pc)
    ensures var i := Fetch(f.code, pc); var r := Rule(f, boxed, allowCold, slots, owned, targets, pc, e);
            (i.GetProp? || i.SetProp?) && r !in {Refused, Cold} ==> r.Site?
  {
    hide ReadU16, ReadI16;
  }

  lemma TranslatesIfLands(f: Function, boxed: bool, allowCold: bool, all: seq<string>, owned: nat, sites: seq<PropSite>)
    requires Checked(f, boxed, allowCold, all, owned, sites) && |f.code| > 0
    ensures PlanFor(f, boxed, all, owned, sites).Accepted? <==>
            forall pc: nat | Starts(f.code, pc) :: Whole(f.code, pc) && Lands(f, pc)
    ensures !PlanFor(f, boxed, all, owned, sites).Accepted? ==> PlanFor(f, boxed, all, owned, sites) == Never
  {
    hide Translation, Checked, Fit, Lands, Boundary, Whole, Slots;
    var r := Region(f.code, Slots(f, all), boxed, sites);
    TranslatesExactly(r);
    forall pc: nat | Starts(f.code, pc) ensures Whole(f.code, pc) && (Fit(r, pc) <==> Lands(f, pc)) {
      FitIsLands(f, boxed, allowCold, all, owned, sites, pc);
    }
  }

  // ------------------------------------------------------------------ the verdict

  /** The two passes over names. */
  lemma NamesKnown(f: Function, boxed: bool)
    ensures var d := Declared(f, 0, AddNames([], f.params, 0));
            && (d.Some? <==> forall t: nat | Starts(f.code, t) :: Whole(f.code, t))
            && (d.Some? ==>
                 var c := if boxed then Captured(f, 0, d.value) else d;
                 && (c.Some? <==> (boxed ==> forall t: nat | Starts(f.code, t) :: !Nameless(f, t)))
                 && (c.Some? ==> KnowsNames(f, boxed, c.value, |d.value|)))
  {
    hide Declared, Captured, AddNames, Whole, Boundary, Nameless, OwnName, ReadsName;
    AtZero(f.code);
    OwnExactly(f, "");
    var d := Declared(f, 0, AddNames([], f.params, 0));
    if d.Some? {
      var own := d.value;
      forall n ensures n in own <==> OwnName(f, n) { OwnExactly(f, n); }
      OwnDistinct(f);
      assert own[..|own|] == own;
      if boxed {
        CapturedExactly(f, 0, own, "");
        var c := Captured(f, 0, own);
        if c.Some? {
          CapturedFacts(f, 0, own);
          assert c.value[..|own|] == own;
          forall pc: nat, n | Starts(f.code, pc) && ReadsName(f, pc, n) ensures n in c.value {
            CapturedExactly(f, 0, own, n);
            assert ReadFrom(f, 0, pc, n);
          }
        }
      }
    }
  }

  lemma OwnDistinct(f: Function)
    ensures var d := Declared(f, 0, AddNames([], f.params, 0)); d.Some? ==> Distinct(d.value)
  {
    AddNamesFacts([], f.params, 0);
    if Declared(f, 0, AddNames([], f.params, 0)).Some? { DeclaredFacts(f, 0, AddNames([], f.params, 0)); }
  }

  /** The stops of pass C from the start are those of the verdicts. */
  lemma StopsAre(f: Function, boxed: bool, allowCold: bool)
    ensures forall pc: nat :: GoesTo(f, boxed, allowCold, 0, pc) <==> PassedUpTo(f, boxed, allowCold, pc)
    ensures (exists pc: nat :: ColdStop(f, boxed, allowCold, 0, pc)) <==>
            !allowCold && exists pc: nat ::
              Starts(f.code, pc) && PassedUpTo(f, boxed, allowCold, pc) && ColdHere(f, boxed, pc)
    ensures (exists pc: nat :: RefusedStop(f, boxed, allowCold, 0, pc)) <==>
            exists pc: nat :: Starts(f.code, pc) && PassedUpTo(f, boxed, allowCold, pc) && RefusedHere(f, boxed, pc)
  {
    hide Boundary, Passes, ColdAt, Whole;
    forall pc: nat ensures GoesTo(f, boxed, allowCold, 0, pc) <==> PassedUpTo(f, boxed, allowCold, pc) { }
    if pc: nat :| ColdStop(f, boxed, allowCold, 0, pc) {
      assert Starts(f.code, pc) && PassedUpTo(f, boxed, allowCold, pc) && ColdHere(f, boxed, pc);
    }
    if pc: nat :| !allowCold && Starts(f.code, pc) && PassedUpTo(f, boxed, allowCold, pc) && ColdHere(f, boxed, pc) {
      assert ColdStop(f, boxed, allowCold, 0, pc);
    }
    if pc: nat :| RefusedStop(f, boxed, allowCold, 0, pc) {
      assert Starts(f.code, pc) && PassedUpTo(f, boxed, allowCold, pc) && RefusedHere(f, boxed, pc);
    }
    if pc: nat :| Starts(f.code, pc) && PassedUpTo(f, boxed, allowCold, pc) && RefusedHere(f, boxed, pc) {
      assert RefusedStop(f, boxed, allowCold, 0, pc);
    }
  }

  /** The verdict, exactly: the gate accepts, asks for another try, or gives up for one of the reasons. */
  lemma VerdictIs(f: Function, boxed: bool, allowCold: bool)
    ensures Analysis(f, boxed, allowCold).Accepted? <==> CompileNow(f, boxed, allowCold)
    ensures Analysis(f, boxed, allowCold) == Retry <==> TryLater(f, boxed, allowCold)
    ensures Analysis(f, boxed, allowCold) == Never <==> NeverBecause(f, boxed, allowCold)
  {
    hide Declared, Captured, AddNames, KnowsNames, CheckFrom, Targets, Slots, Boundary, PlanFor, Passes, ColdAt, Whole,
      Nameless, Lands, ColdStop, RefusedStop, GoesTo, PassedUpTo;
    NamesKnown(f, boxed);
    var d := Declared(f, 0, AddNames([], f.params, 0));
    if d.Some? { NamelessIs(f); }
    if Ordinary(f) && d.Some? {
      var c := if boxed then Captured(f, 0, d.value) else d;
      if c.Some? {
        AtZero(f.code);
        NoExitAtStart(f.code);
        CheckMeans(f, boxed, allowCold, c.value, |d.value|, 0, false, []);
        StopsAre(f, boxed, allowCold);
        var r := CheckFrom(f, boxed, allowCold, Slots(f, c.value), |d.value|, Targets(f.code, 0), 0, false, []);
        if r.Sites? { TranslatesIfLands(f, boxed, allowCold, c.value, |d.value|, r.sites); }
      }
    }
  }

  lemma NamelessIs(f: Function)
    requires forall t: nat | Starts(f.code, t) :: Whole(f.code, t)
    ensures (forall t: nat | Starts(f.code, t) :: !Nameless(f, t)) <==> Readable(f, true)
  {
    hide Boundary, ReadU16;
  }

  // ------------------------------------------------------------------ the plan

  /** What an accepted plan says: the function's code, its registers and arity, the lane's constants; the own
      names first, then, in the boxed lane, the names it reads besides. */
  lemma PlanIs(f: Function, boxed: bool, allowCold: bool, p: Plan)
    requires Analysis(f, boxed, allowCold) == Accepted(p)
    ensures p.region.code == f.code && p.region.boxed == boxed && p.numRegs == f.numRegs && p.arity == f.arity
    ensures p.owned <= |p.names| && Distinct(p.names) && (!boxed ==> p.owned == |p.names|)
    ensures forall n :: n in p.names[..p.owned] <==> OwnName(f, n)
    ensures boxed ==>
            forall n :: n in p.names <==> OwnName(f, n) || exists pc: nat :: Starts(f.code, pc) && ReadsName(f, pc, n)
    ensures |p.consts| == |f.constants|
    ensures boxed ==> forall k | 0 <= k < |p.consts| :: p.consts[k] == ConstWord(f.constants[k])
  {
    hide Declared, Captured, AddNames, CheckFrom, Targets, Slots, Boundary, Translation, OwnName, ReadsName, Whole,
        Pool;
    NamesKnown(f, boxed);
    var d := Declared(f, 0, AddNames([], f.params, 0)).value;
    if boxed {
      forall n
        ensures n in p.names <==> OwnName(f, n) || exists pc: nat :: Starts(f.code, pc) && ReadsName(f, pc, n)
      {
        OwnExactly(f, n);
        NamesOf(f, d, n);
      }
    }
    PoolIs(f, boxed);
  }

  /** And it has a site for every property access, with its key. */
  lemma PlanSites(f: Function, boxed: bool, allowCold: bool, p: Plan, pc: nat)
    requires Analysis(f, boxed, allowCold) == Accepted(p) && Starts(f.code, pc)
    ensures Whole(f.code, pc)
    ensures var i := Fetch(f.code, pc);
            i.GetProp? || i.SetProp? ==> IsString(f, i.k) && SiteKey(p.region.sites, pc) == Some(f.constants[i.k].name)
  {
    hide Declared, Captured, AddNames, CheckFrom, Targets, Slots, Boundary, Translation, Rule, Fetch, Pool;
    var d := Declared(f, 0, AddNames([], f.params, 0)).value;
    assert CheckFrom(f, boxed, allowCold, Slots(f, p.names), |d|, Targets(f.code, 0), 0, false, [])
           == Sites(p.region.sites);
    var e := SitesFound(f, boxed, allowCold, Slots(f, p.names), |d|, Targets(f.code, 0), 0, false, [], pc);
    PropSiteKey(f, boxed, allowCold, Slots(f, p.names), |d|, Targets(f.code, 0), pc, e);
  }

  lemma NamesOf(f: Function, own: seq<string>, n: string)
    requires forall t: nat | Starts(f.code, t) :: Whole(f.code, t)
    requires n in own <==> OwnName(f, n)
    requires Captured(f, 0, own).Some?
    ensures n in Captured(f, 0, own).value <==>
            OwnName(f, n) || exists pc: nat :: Starts(f.code, pc) && ReadsName(f, pc, n)
  {
    hide Captured, Whole, Boundary, OwnName, ReadsName;
    AtZero(f.code);
    CapturedExactly(f, 0, own, n);
    if pc: nat :| ReadFrom(f, 0, pc, n) { assert Starts(f.code, pc) && ReadsName(f, pc, n); }
    if pc: nat :| Starts(f.code, pc) && ReadsName(f, pc, n) { assert ReadFrom(f, 0, pc, n); }
  }

  lemma PoolIs(f: Function, boxed: bool)
    ensures |Pool(f, boxed)| == |f.constants|
    ensures boxed ==> forall k | 0 <= k < |f.constants| :: Pool(f, boxed)[k] == ConstWord(f.constants[k])
  {
    hide ConstWord;
  }

  lemma PropSiteKey(f: Function, boxed: bool, allowCold: bool, slots: seq<int>, owned: nat, targets: seq<int>, pc: nat,
                    e: bool)
    requires Whole(f.code, pc)
    ensures var i := Fetch(f.code, pc); var r := Rule(f, boxed, allowCold, slots, owned, targets, pc, e);
            (i.GetProp? || i.SetProp?) && r !in {Refused, Cold} ==>
              IsString(f, i.k) && r == Site(f.constants[i.k].name)
  {
    hide ReadU16, ReadI16;
  }
}
