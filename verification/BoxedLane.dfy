/** The boxed lane end to end: up to the first unsafe access native code does exactly what the
    interpreter does, event by event, and where it stops early the interpreter can take over at the
    very instruction. */
module BoxedLane {
  import opened Options
  import opened Bits
  import opened Float64
  import opened NanBox
  import opened Bytecode
  import opened Interp
  import opened Ir
  import opened Emit
  import opened Native
  import opened Translate
  import opened Blocks
  import opened Analyze
  import opened Gate
  import opened Operators
  import opened Calls

  /** What is known before an instruction: registers that may be read, the register holding a
      comparison result that only a jump may test, and names that are bound. */
  datatype Facts = Facts(live: set<nat>, cmp: Option<nat>, bound: set<string>)
  {
    predicate Within(o: Facts) { live <= o.live && (cmp.None? || cmp == o.cmp) && bound <= o.bound }
    function Set(r: nat): Facts { Facts(live + {r}, None, bound) }
    function Test(r: nat): Facts { Facts(live - {r}, Some(r), bound) }
    function Pass(): Facts { Facts(live, None, bound) }
  }

  type Cert = map<nat, Facts>

  /** Arguments and callee sit in live registers. */
  predicate LiveRange(fa: Facts, base: nat, n: nat) { forall r | base <= r <= base + n :: r in fa.live }

  /** The instruction reads live registers and bound or captured names, tests only a fresh
      comparison, and creates closures only once every own name is bound. */
  predicate Typed(f: Function, own: seq<string>, fa: Facts, i: Instr)
  {
    match i
    case LoadK(dst, _) => dst < f.numRegs
    case Unary(_, dst, src) => dst < f.numRegs && src in fa.live
    case Binary(_, dst, l, r) => dst < f.numRegs && l in fa.live && r in fa.live
    case GetName(_, dst, k) => dst < f.numRegs && IsString(f, k) && (NameOf(f, k) in fa.bound || NameOf(f, k) !in own)
    case SetName(_, k, src) => IsString(f, k) && NameOf(f, k) in fa.bound && src in fa.live
    case Hoist(k) => IsString(f, k)
    case Branch(_, cond, _) => fa.cmp == Some(cond)
    case GetProp(dst, obj, k) => dst < f.numRegs && obj in fa.live
    case SetProp(obj, k, val) => obj in fa.live && val in fa.live
    case SetElem(obj, key, val) => obj in fa.live && key in fa.live && val in fa.live
    case Call(base, nargs, dst) => dst < f.numRegs && LiveRange(fa, base, nargs)
    case NewClosure(dst, _) => dst < f.numRegs && forall n | n in own :: n in fa.bound
    case Return(src) => src in fa.live
    case _ => true
  }

  /** What is known after it. */
  function After(f: Function, fa: Facts, i: Instr): Facts
  {
    match i
    case LoadK(dst, _) => fa.Set(dst)
    case Unary(op, dst, _) => if op == NOT then fa.Test(dst) else fa.Set(dst)
    case Binary(op, dst, _, _) => if IsCompare(op) then fa.Test(dst) else fa.Set(dst)
    case GetName(_, dst, _) => fa.Set(dst)
    case Hoist(k) => Facts(fa.live, None, fa.bound + {NameOf(f, k)})
    case GetProp(dst, _, _) => fa.Set(dst)
    case Call(_, _, dst) => fa.Set(dst)
    case NewClosure(dst, _) => fa.Set(dst)
    case _ => fa.Pass()
  }

  /** Before anything ran: no register may be read, the parameters are bound. */
  function Given(f: Function): Facts { Facts({}, None, set i | 0 <= i < |f.params| :: f.params[i]) }

  ghost predicate Certified(f: Function, own: seq<string>, cert: Cert)
  {
    && 0 in cert && cert[0].Within(Given(f))
    && forall pc :: pc in cert && Whole(f.code, pc) ==>
         && Typed(f, own, cert[pc], Fetch(f.code, pc))
         && forall t: nat | t in Succs(f.code, pc) ::
              t in cert && t < |f.code| && cert[t].Within(After(f, cert[pc], Fetch(f.code, pc)))
  }

  // ------------------------------------------------------------------ native against interpreter

  function Lookup(env: Env, n: string): Word { if n in env then env[n] else UNDEFINED }

  /** The native locals are the own variables, then the captured ones; the interpreter's environment
      also binds the names the call binds by itself. */
  ghost predicate SameVars(names: seq<string>, owned: nat, hidden: set<string>, env: Env, outer: Env, locals: seq<Word>)
  {
    && owned <= |names| <= |locals|
    && (forall i | 0 <= i < owned :: locals[i] == Lookup(env, names[i]))
    && (forall i | owned <= i < |names| :: names[i] in outer && locals[i] == outer[names[i]])
    && (forall n | n in env :: n in names[..owned] || n in hidden)
  }

  ghost predicate SameRegs(fa: Facts, a: seq<Word>, b: seq<Word>)
  {
    && |a| == |b|
    && (forall r | r in fa.live :: r < |a| && a[r] == b[r])
    && (fa.cmp.Some? ==> fa.cmp.value < |a| && SameBool(a[fa.cmp.value], b[fa.cmp.value]))
  }

  ghost predicate Rel(f: Function, p: Plan, outer: Env, fa: Facts, s: State, m: Mem)
  {
    && |s.regs| == FrameSize(f.numRegs) && s.trace == m.trace && m.flag == 0 && s.reach.Kept? && s.strict == f.strict
    && SameRegs(fa, s.regs, m.regs)
    && SameVars(p.names, p.owned, CallNames(f), s.env, outer, m.locals)
    && (forall n | n in fa.bound :: n in s.env)
    && (s.fixed.Some? ==> s.fixed.value in CallNames(f))
  }

  /** No name of the plan is one the call binds by itself. */
  ghost predicate Clear(f: Function, p: Plan) { forall n | n in CallNames(f) :: n !in p.names }

  /** No name the function declares is. */
  ghost predicate OwnClear(f: Function, p: Plan) { forall n | n in CallNames(f) :: n !in OwnNames(p) }

  /** No closure of the function mentions one. */
  predicate NoLeak(f: Function) { f.closureNames !! CallNames(f) }

  lemma RelWeaken(f: Function, p: Plan, outer: Env, fa: Facts, fb: Facts, s: State, m: Mem)
    requires Rel(f, p, outer, fa, s, m) && fb.Within(fa)
    ensures Rel(f, p, outer, fb, s, m)
  {
    hide SameBool, SameVars;
  }

  lemma LiveReg(fa: Facts, a: seq<Word>, b: seq<Word>, r: nat)
    requires SameRegs(fa, a, b) && r in fa.live
    ensures GetReg(a, r) == GetReg(b, r)
  {
  }

  lemma SetLive(fa: Facts, a: seq<Word>, b: seq<Word>, dst: nat, w: Word)
    requires SameRegs(fa, a, b) && dst < |a|
    ensures SameRegs(fa.Set(dst), SetReg(a, dst, w), SetReg(b, dst, w))
  {
  }

  lemma SetTest(fa: Facts, a: seq<Word>, b: seq<Word>, dst: nat, w: Word, i: Word)
    requires SameRegs(fa, a, b) && dst < |a| && SameBool(w, i)
    ensures SameRegs(fa.Test(dst), SetReg(a, dst, w), SetReg(b, dst, i))
  {
    hide SameBool;
  }

  lemma PutLive(f: Function, p: Plan, outer: Env, fa: Facts, s: State, m: Mem, dst: nat, w: Word, next: nat)
    requires Rel(f, p, outer, fa, s, m) && dst < f.numRegs
    ensures Put(m, dst, w, next) == Go(next, m.(regs := SetReg(m.regs, dst, w)))
    ensures Rel(f, p, outer, fa.Set(dst), s.(pc := next, regs := SetReg(s.regs, dst, w)),
            m.(regs := SetReg(m.regs, dst, w)))
  {
    hide SameRegs, SameVars;
    RegsCount(f, p, outer, fa, s, m);
    SetLive(fa, s.regs, m.regs, dst, w);
  }

  lemma RegsCount(f: Function, p: Plan, outer: Env, fa: Facts, s: State, m: Mem)
    requires Rel(f, p, outer, fa, s, m)
    ensures |s.regs| == |m.regs| == FrameSize(f.numRegs)
  {
  }

  lemma PutTest(f: Function, p: Plan, outer: Env, fa: Facts, s: State, m: Mem, dst: nat, w: Word, i: int, next: nat)
    requires Rel(f, p, outer, fa, s, m) && dst < f.numRegs && SameBool(w, i) && AsWord(i) == i
    ensures Put(m, dst, i, next) == Go(next, m.(regs := SetReg(m.regs, dst, AsWord(i))))
    ensures Rel(f, p, outer, fa.Test(dst), s.(pc := next, regs := SetReg(s.regs, dst, w)),
            m.(regs := SetReg(m.regs, dst, AsWord(i))))
  {
    hide SameRegs, SameVars, SameBool;
    RegsCount(f, p, outer, fa, s, m);
    SetTest(fa, s.regs, m.regs, dst, w, AsWord(i));
  }

  /** One step of both machines: together, out together, or the native code hands over here. */
  ghost predicate Agree(f: Function, p: Plan, outer: Env, fa: Facts, pc: nat, m0: Mem, native: NOut, interp: Outcome)
  {
    match native
    case Go(to, m) => interp.Running? && interp.state.pc == to && Rel(f, p, outer, fa, interp.state, m)
    case Leave(w, m) =>
      if m.flag == 0 then interp == Outcome.Returned(w, m.trace)
      else if m.flag == 2 then interp == Outcome.Threw(m.pending, m.trace)
      else m == FineMem(m0, pc)
    case Bad => false
  }

  lemma UnaryAgree(f: Function, p: Plan, host: Host, outer: Env, fa: Facts, s: State, m: Mem, op: int, dst: nat,
                   src: nat)
    requires Rel(f, p, outer, fa, s, m) && Whole(f.code, s.pc) && Fetch(f.code, s.pc) == Unary(op, dst, src)
    requires dst < f.numRegs && src in fa.live && (op == MOVE || BoxedUnaryOp(op))
    ensures Agree(f, p, outer, After(f, fa, Unary(op, dst, src)), s.pc, m,
                  NUnary(true, m, s.pc, Next(f.code, s.pc), op, dst, src), Step(f, host, outer, s))
  {
    hide Put, SameBool, BoxedUnaryResult, NumUnary, WordTruthy, Rel, SetReg, GetReg, Fetch;
    var w, next := GetReg(s.regs, src), Next(f.code, s.pc);
    SameSource(f, p, outer, fa, s, m, src);
    if op == MOVE {
      PutLive(f, p, outer, fa, s, m, dst, w, next);
    } else if BoxedUnaryResult(op, w).Some? {
      BoxedUnaryAgrees(host, op, w);
      var v := BoxedUnaryResult(op, w).value;
      if op == NOT {
        PutTest(f, p, outer, fa, s, m, dst, FromBool(!WordTruthy(host, w)), v, next);
      } else {
        PutLive(f, p, outer, fa, s, m, dst, NumUnary(op, w), next);
      }
    }
  }

  lemma SameSource(f: Function, p: Plan, outer: Env, fa: Facts, s: State, m: Mem, r: nat)
    requires Rel(f, p, outer, fa, s, m) && r in fa.live
    ensures GetReg(s.regs, r) == GetReg(m.regs, r)
  {
    LiveReg(fa, s.regs, m.regs, r);
  }

  lemma BinaryAgree(f: Function, p: Plan, host: Host, outer: Env, fa: Facts, s: State, m: Mem, op: int, dst: nat,
                    l: nat, r: nat)
    requires Rel(f, p, outer, fa, s, m) && Whole(f.code, s.pc) && Fetch(f.code, s.pc) == Binary(op, dst, l, r)
    requires dst < f.numRegs && l in fa.live && r in fa.live && BoxedBinaryOp(op)
    ensures Agree(f, p, outer, After(f, fa, Binary(op, dst, l, r)), s.pc, m,
                  NBinary(true, m, s.pc, Next(f.code, s.pc), op, dst, l, r), Step(f, host, outer, s))
  {
    hide Put, SameBool, BoxedBinaryResult, NumBinary, Rel, SetReg, GetReg, Fetch;
    var a, b, next := GetReg(s.regs, l), GetReg(s.regs, r), Next(f.code, s.pc);
    SameSource(f, p, outer, fa, s, m, l);
    SameSource(f, p, outer, fa, s, m, r);
    if BoxedBinaryResult(op, a, b).Some? {
      BoxedBinaryAgrees(op, a, b);
      var v := BoxedBinaryResult(op, a, b).value;
      if IsCompare(op) {
        PutTest(f, p, outer, fa, s, m, dst, NumBinary(op, a, b), v, next);
      } else {
        PutLive(f, p, outer, fa, s, m, dst, NumBinary(op, a, b), next);
      }
    }
  }

  // ------------------------------------------------------------------ events

  /** The operations native code leaves to a helper. */
  predicate Helped(ev: Event) { IsStatic(ev) || IsDynamic(ev) || ev.op == CALL }

  /** Where the helper does what the opcode does: the base of a static-key access is an object or a
      primitive with properties (the opcode throws on undefined and null, the helper lets them pass),
      a store in strict code succeeds (the opcode throws, the helper does not look), the callee can be
      called (both throw, but not the same error) and is no class constructor (the opcode throws, the
      helper may run it), and the key is no private name. */
  predicate SafeAccess(host: Host, strict: bool, trace: Trace, ev: Event)
  {
    && !IsPrivate(ev)
    && (IsStatic(ev) ==> !Nullish(Base(ev)))
    && (IsStore(ev) && strict && !Nullish(Base(ev)) ==> host.answer(map[], trace, ev) != Ok(FALSE))
    && (ev.op == CALL ==> Callable(host, Base(ev)) && !host.isClass(Base(ev)))
  }

  predicate IsClassCall(host: Host, ev: Event) { ev.op == CALL && Callable(host, Base(ev)) && host.isClass(Base(ev)) }

  /** The helpers' copy of the property and call machinery answers as the interpreter's does, private
      names and class constructors apart. */
  ghost predicate HelpersAgree(host: Host)
  {
    forall t, ev ::
        Helped(ev) && !IsPrivate(ev) && !IsClassCall(host, ev) ==> host.helper(t, ev) == host.answer(map[], t, ev)
  }

  /** The error of a call whose callee cannot be called is the same in both. */
  predicate SameCallError(host: Host, m: Mem, ev: Event)
  {
    ev.op == CALL && !Callable(host, Base(ev)) &&
    (if Base(ev) == UNDEFINED then m.pending else host.typeError(NotAFunction)) == host.typeError(NotFunction(Base(ev)))
  }

  /** The helper answers this event as the interpreter's machinery does, or the opcode asks for no
      answer. */
  predicate Answers(host: Host, trace: Trace, ev: Event)
  {
    !IsPrivate(ev) && (IsClassCall(host, ev) || host.helper(trace, ev) == host.answer(map[], trace, ev))
  }

  /** What the helper does next to what the opcode does. */
  lemma HelpIs(host: Host, rt: Rt, env: Env, m: Mem, strict: bool, ev: Event)
    requires rt.host == host && rt.vm && Helped(ev) && m.flag == 0 && Answers(host, m.trace, ev)
    ensures var (m', w) := Help(rt, m, ev);
            var d := Operate(host, strict, Kept, env, m.trace, ev);
            if SafeAccess(host, strict, m.trace, ev) then
              match d
              case Done(v, env', t) => m' == m.(trace := t) && w == v && env' == env
              case Failed(e, t) => m' == m.(flag := 2, trace := t, pending := e)
            else
              && d.Failed? && (m'.flag == 0 ==> ev.op != CALL || IsClassCall(host, ev))
              && (m'.flag != 0 ==> m'.flag == 2 && ev.op == CALL
                                   && (m'.trace == d.trace && m'.pending == d.error <==> SameCallError(host, m, ev)))
    ensures var (m', _) := Help(rt, m, ev); m' == m.(flag := m'.flag, trace := m'.trace, pending := m'.pending)
  {
  }

  /** A helper that delivers a value against the interpreter's own access: they agree exactly where the
      access is safe, or both throw the same error. */
  lemma HelpAgree(f: Function, p: Plan, host: Host, outer: Env, rt: Rt, fa: Facts, s: State, m: Mem, ev: Event,
                  dst: nat, next: nat)
    requires Rel(f, p, outer, fa, s, m) && rt.host == host && rt.vm && dst < f.numRegs
    requires Helped(ev) && Answers(host, s.trace, ev)
    ensures var (m', w) := Help(rt, m, ev);
            Agree(f, p, outer, fa.Set(dst), s.pc, m, AfterHelp(m', s.pc, Put(m', dst, w, next)),
                Perform(host, s, next, ev, dst))
            <==> SafeAccess(host, f.strict, s.trace, ev) || SameCallError(host, m, ev)
    ensures var (m', w) := Help(rt, m, ev);
            Agree(f, p, outer, fa.Set(dst), s.pc, m, if m'.flag == 0 then Put(m', dst, w, next) else Leave(0, m'),
                Perform(host, s, next, ev, dst))
            <==> SafeAccess(host, f.strict, s.trace, ev) || SameCallError(host, m, ev)
  {
    hide Put, SameRegs, SameVars, SetReg, Help, Operate, SafeAccess, SameCallError;
    RelParts(f, p, outer, fa, s, m);
    HelpIs(host, rt, s.env, m, f.strict, ev);
    CallErrorUnsafe(host, f.strict, m, ev);
    var (m', w) := Help(rt, m, ev);
    if m'.flag == 0 {
      PutLive(f, p, outer, fa, s.(trace := m'.trace), m', dst, w, next);
    }
  }

  lemma RelParts(f: Function, p: Plan, outer: Env, fa: Facts, s: State, m: Mem)
    requires Rel(f, p, outer, fa, s, m)
    ensures s.trace == m.trace && m.flag == 0 && s.reach.Kept? && s.strict == f.strict
  {
  }

  lemma CallErrorUnsafe(host: Host, strict: bool, m: Mem, ev: Event)
    ensures SameCallError(host, m, ev) ==> !SafeAccess(host, strict, m.trace, ev) && ev.op == CALL
    ensures ev.op == CALL && !SafeAccess(host, strict, m.trace, ev) ==>
            !Callable(host, Base(ev)) || host.isClass(Base(ev))
    ensures IsClassCall(host, ev) ==> !SafeAccess(host, strict, m.trace, ev) && !SameCallError(host, m, ev)
  {
  }

  /** The same for a helper without a value. */
  lemma EffectAgree(f: Function, p: Plan, host: Host, outer: Env, rt: Rt, fa: Facts, s: State, m: Mem, ev: Event,
                    next: nat)
    requires Rel(f, p, outer, fa, s, m) && rt.host == host && rt.vm
    requires IsStore(ev) && Answers(host, s.trace, ev)
    ensures var (m', _) := Help(rt, m, ev);
            Agree(f, p, outer, fa.Pass(), s.pc, m, AfterHelp(m', s.pc, Go(next, m')), PerformStore(host, s, next, ev))
            <==> SafeAccess(host, f.strict, s.trace, ev)
  {
    hide SameVars, SameBool, Help, Operate, SafeAccess, SameCallError;
    RelParts(f, p, outer, fa, s, m);
    HelpIs(host, rt, s.env, m, f.strict, ev);
    CallErrorUnsafe(host, f.strict, m, ev);
  }

  lemma SameCall(f: Function, p: Plan, outer: Env, fa: Facts, s: State, m: Mem, base: nat, nargs: nat)
    requires Rel(f, p, outer, fa, s, m) && LiveRange(fa, base, nargs)
    ensures CallEvent(s.regs, base, nargs) == CallEvent(m.regs, base, nargs)
  {
    hide Rel;
    var a, b := CallEvent(s.regs, base, nargs).args, CallEvent(m.regs, base, nargs).args;
    forall i | 0 <= i < |a| ensures a[i] == b[i] {
      SameSource(f, p, outer, fa, s, m, base + i);
    }
    assert a == b;
  }

  // ------------------------------------------------------------------ variables

  lemma ReadVar(p: Plan, hidden: set<string>, env: Env, outer: Env, locals: seq<Word>, n: string)
    requires SameVars(p.names, p.owned, hidden, env, outer, locals) && n in p.names && Distinct(p.names)
    requires n in env || n !in p.names[..p.owned]
    ensures n !in p.names[..p.owned] ==> n in outer
    ensures GetReg(locals, IndexOf(p.names, n)) == if n in p.names[..p.owned] then env[n] else outer[n]
  {
    OwnIndex(p.names, p.owned, n);
  }

  lemma WriteVar(p: Plan, hidden: set<string>, env: Env, outer: Env, locals: seq<Word>, n: string, w: Word)
    requires SameVars(p.names, p.owned, hidden, env, outer, locals) && n in p.names[..p.owned] && Distinct(p.names)
    ensures SameVars(p.names, p.owned, hidden, env[n := w], outer, SetReg(locals, IndexOf(p.names, n), w))
  {
    hide Lookup, SetReg;
    OwnIndex(p.names, p.owned, n);
    var k := IndexOf(p.names, n);
    var locals' := SetReg(locals, k, w);
    forall i | 0 <= i < |p.names|
      ensures locals'[i] == if i == k then w else locals[i]
      ensures i != k ==> p.names[i] != n
    {
      SetRegAt(locals, k, w, i);
      if p.names[i] == n { IndexUnique(p.names, i); }
    }
    forall i | 0 <= i < p.owned ensures locals'[i] == Lookup(env[n := w], p.names[i]) {
      LookupWrite(env, n, w, p.names[i]);
    }
  }

  lemma SetRegAt(regs: seq<Word>, k: nat, w: Word, i: nat)
    requires i < |regs|
    ensures SetReg(regs, k, w)[i] == if i == k then w else regs[i]
  {
  }

  lemma LookupWrite(env: Env, n: string, w: Word, v: string)
    ensures Lookup(env[n := w], v) == if v == n then w else Lookup(env, v)
  {
  }

  lemma HoistVar(p: Plan, hidden: set<string>, env: Env, outer: Env, locals: seq<Word>, n: string)
    requires SameVars(p.names, p.owned, hidden, env, outer, locals) && n in p.names[..p.owned]
    ensures SameVars(p.names, p.owned, hidden, if n in env then env else env[n := UNDEFINED], outer, locals)
  {
  }

  // ------------------------------------------------------------------ one instruction

  /** The instructions the gate admits in the boxed lane. */
  predicate BoxedInstr(i: Instr)
  {
    match i
    case LoadK(_, _) => true
    case Unary(op, _, _) => op == MOVE || BoxedUnaryOp(op)
    case Binary(op, _, _, _) => op == GET_PROP_DYN || BoxedBinaryOp(op)
    case GetName(op, _, _) => op == GET_GLOBAL
    case Branch(op, _, _) => op == JMP_IF_TRUE || op == JMP_IF_FALSE
    case LoadLit(_, _) => false
    case Stop(op) => op == RETURN_UNDEF
    case Other(_) => false
    case _ => true
  }

  lemma BoxedOnly(f: Function, p: Plan, pc: nat)
    requires Admitted(f, true, p, pc)
    ensures BoxedInstr(Fetch(f.code, pc))
  {
    hide IsIntConst, ReadSlot, Boundary, ReadI16, ReadU16, FeedsJump, SiteRuling, Targets;
    var cold, e :| Rule(f, true, cold, p.region.slots, p.owned, Targets(f.code, 0), pc, e) !in {Refused, Cold};
  }

  /** A name read here means the same to both machines: an own one, or a captured one that the call does
      not bind by itself, or binds to the word it has outside. */
  predicate NameAgrees(f: Function, own: seq<string>, outer: Env, s: State)
    requires Whole(f.code, s.pc)
  {
    match Fetch(f.code, s.pc)
    case GetName(_, _, k) => var n := NameOf(f, k); n !in own && n in s.env ==> n in outer && s.env[n] == outer[n]
    case _ => true
  }

  /** Different words in a register that may be read are a difference. */
  lemma PutOther(f: Function, p: Plan, outer: Env, fa: Facts, s: State, m: Mem, dst: nat, w: Word, v: Word, next: nat)
    requires Rel(f, p, outer, fa, s, m) && dst < f.numRegs
    ensures Put(m, dst, v, next) == Go(next, m.(regs := SetReg(m.regs, dst, v)))
    ensures v != w ==>
              !Rel(f, p, outer, fa.Set(dst), s.(pc := next, regs := SetReg(s.regs, dst, w)),
                  m.(regs := SetReg(m.regs, dst, v)))
  {
    hide SameVars, SameBool;
  }

  lemma VarAgree(f: Function, p: Plan, host: Host, outer: Env, rt: Rt, x: Ctx, fa: Facts, s: State, m: Mem)
    requires Rel(f, p, outer, fa, s, m) && Whole(f.code, s.pc) && x.code == f.code && x.slots == Slots(f, p.names)
    requires Distinct(p.names)
    requires var i := Fetch(f.code, s.pc);
             Typed(f, OwnNames(p), fa, i) && BoxedInstr(i) && (i.GetName? || i.SetName? || i.Hoist?)
    requires var i := Fetch(f.code, s.pc); NameOf(f, i.k) in p.names && (i.GetName? || NameOf(f, i.k) in OwnNames(p))
    requires OwnClear(f, p) && p.owned <= |p.names|
    ensures Agree(f, p, outer, After(f, fa, Fetch(f.code, s.pc)), s.pc, m, NStep(x, rt, s.pc, m),
            Step(f, host, outer, s))
            <==> NameAgrees(f, OwnNames(p), outer, s)
  {
    hide Put, SameRegs, SameVars, Fetch, SlotOf, Slots, GetReg, CallNames;
    var next := Next(f.code, s.pc);
    var n := NameOf(f, Fetch(f.code, s.pc).k);
    SlotMeaning(f, p.names, Fetch(f.code, s.pc).k);
    match Fetch(f.code, s.pc)
    case GetName(op, dst, k) =>
      ReadVar(p, CallNames(f), s.env, outer, m.locals, n);
      var w := if n in s.env then s.env[n] else outer[n];
      PutLive(f, p, outer, fa, s, m, dst, w, next);
      PutOther(f, p, outer, fa, s, m, dst, w, GetReg(m.locals, IndexOf(p.names, n)), next);
    case SetName(_, k, src) =>
      SameSource(f, p, outer, fa, s, m, src);
      WriteVar(p, CallNames(f), s.env, outer, m.locals, n, GetReg(m.regs, src));
      PassRegs(fa, s.regs, m.regs);
    case Hoist(k) =>
      HoistVar(p, CallNames(f), s.env, outer, m.locals, n);
      PassRegs(fa, s.regs, m.regs);
  }

  lemma PassRegs(fa: Facts, a: seq<Word>, b: seq<Word>)
    requires SameRegs(fa, a, b)
    ensures forall bound :: SameRegs(Facts(fa.live, None, bound), a, b)
  {
  }

  /** The operation native code leaves to a helper at this instruction, if it does. */
  function Accessed(f: Function, s: State): Option<Event>
    requires Whole(f.code, s.pc)
  {
    match Fetch(f.code, s.pc)
    case GetProp(_, obj, k) => Some(Event(GET_PROP, [GetReg(s.regs, obj)], NameOf(f, k)))
    case SetProp(obj, k, val) => Some(Event(SET_PROP, [GetReg(s.regs, obj), GetReg(s.regs, val)], NameOf(f, k)))
    case SetElem(obj, key, val) =>
      Some(Event(SET_PROP_DYN, [GetReg(s.regs, obj), GetReg(s.regs, key), GetReg(s.regs, val)], ""))
    case Binary(op, _, l, r) =>
      if op == GET_PROP_DYN then Some(Event(GET_PROP_DYN, [GetReg(s.regs, l), GetReg(s.regs, r)], "")) else None
    case Call(base, nargs, _) => Some(CallEvent(s.regs, base, nargs))
    case _ => None
  }

  /** The helper answers this operation as the interpreter's machinery does. */
  predicate Known(host: Host, s: State, o: Option<Event>)
  {
    o.Some? ==> Answers(host, s.trace, o.value)
  }

  predicate AgreesAt(host: Host, s: State, m: Mem, o: Option<Event>)
  {
    o.Some? ==> SafeAccess(host, s.strict, s.trace, o.value) || SameCallError(host, m, o.value)
  }

  lemma AccessAgree(f: Function, p: Plan, host: Host, outer: Env, rt: Rt, x: Ctx, fa: Facts, s: State, m: Mem)
    requires Rel(f, p, outer, fa, s, m) && Whole(f.code, s.pc) && x.code == f.code && rt.host == host && rt.vm
    requires Typed(f, OwnNames(p), fa, Fetch(f.code, s.pc)) && Accessed(f, s).Some? && Known(host, s, Accessed(f, s))
    requires var i := Fetch(f.code, s.pc); i.GetProp? || i.SetProp? ==> SiteKey(x.sites, s.pc) == Some(NameOf(f, i.k))
    ensures Agree(f, p, outer, After(f, fa, Fetch(f.code, s.pc)), s.pc, m, NStep(x, rt, s.pc, m),
            Step(f, host, outer, s))
            <==> AgreesAt(host, s, m, Accessed(f, s))
  {
    hide Put, Rel, Fetch, GetReg, Help, AfterHelp, Perform, PerformStore, Agree, SetReg, SiteKey, CallEvent,
        SafeAccess, SameCallError, Computes, NUnary, NBinary, WordTruthy;
    var next := Next(f.code, s.pc);
    RelParts(f, p, outer, fa, s, m);
    match Fetch(f.code, s.pc)
    case GetProp(dst, obj, k) =>
      SameSource(f, p, outer, fa, s, m, obj);
      HelpAgree(f, p, host, outer, rt, fa, s, m, Event(GET_PROP, [GetReg(s.regs, obj)], NameOf(f, k)), dst, next);
    case SetProp(obj, k, val) =>
      SameSource(f, p, outer, fa, s, m, obj);
      SameSource(f, p, outer, fa, s, m, val);
      StoreNoCall(host, m, Accessed(f, s).value);
      EffectAgree(f, p, host, outer, rt, fa, s, m,
          Event(SET_PROP, [GetReg(s.regs, obj), GetReg(s.regs, val)], NameOf(f, k)), next);
    case SetElem(obj, key, val) =>
      SameSource(f, p, outer, fa, s, m, obj);
      SameSource(f, p, outer, fa, s, m, key);
      SameSource(f, p, outer, fa, s, m, val);
      StoreNoCall(host, m, Accessed(f, s).value);
      EffectAgree(f, p, host, outer, rt, fa, s, m,
        Event(SET_PROP_DYN, [GetReg(s.regs, obj), GetReg(s.regs, key), GetReg(s.regs, val)], ""), next);
    case Binary(op, dst, l, r) =>
      SameSource(f, p, outer, fa, s, m, l);
      SameSource(f, p, outer, fa, s, m, r);
      NoComputing(GetReg(s.regs, l), GetReg(s.regs, r));
      HelpAgree(f, p, host, outer, rt, fa, s, m, Event(GET_PROP_DYN, [GetReg(s.regs, l), GetReg(s.regs, r)], ""), dst,
          next);
    case Call(base, nargs, dst) =>
      SameCall(f, p, outer, fa, s, m, base, nargs);
      CallIs(s.regs, base, nargs);
      HelpAgree(f, p, host, outer, rt, fa, s, m, CallEvent(s.regs, base, nargs), dst, next);
  }

  lemma NoComputing(a: Word, b: Word)
    ensures !Computes(GET_PROP_DYN, a, b)
  {
  }

  lemma CallIs(regs: seq<Word>, base: nat, nargs: nat)
    ensures CallEvent(regs, base, nargs).op == CALL
  {
  }

  lemma StoreNoCall(host: Host, m: Mem, ev: Event)
    requires IsStore(ev)
    ensures !SameCallError(host, m, ev)
  {
  }

  lemma HandsOver(f: Function, p: Plan, outer: Env, fa: Facts, pc: nat, m: Mem, o: Outcome)
    ensures Agree(f, p, outer, fa, pc, m, Fine(m, pc), o)
  {
  }

  /** The rest: constants and control flow. */
  lemma OtherAgree(f: Function, p: Plan, host: Host, outer: Env, rt: Rt, x: Ctx, fa: Facts, s: State, m: Mem)
    requires Rel(f, p, outer, fa, s, m) && Whole(f.code, s.pc) && x.code == f.code && rt.host == host && rt.vm
    requires rt.consts == Pool(f, true)
    requires var i := Fetch(f.code, s.pc);
             Typed(f, OwnNames(p), fa, i) && BoxedInstr(i) && (i.LoadK? || i.Jump? || i.Branch? || i.Return? || i.Stop?)
    requires var i := Fetch(f.code, s.pc); i.LoadK? ==> i.k < |f.constants|
    requires var i := Fetch(f.code, s.pc); (i.Jump? || i.Branch?) ==> Target(f.code, s.pc) >= 0
    ensures Agree(f, p, outer, After(f, fa, Fetch(f.code, s.pc)), s.pc, m, NStep(x, rt, s.pc, m),
            Step(f, host, outer, s))
  {
    hide Put, SameVars, SameRegs, Fetch, GetReg, Help, AfterHelp, Perform, SetReg, ConstWord;
    var next := Next(f.code, s.pc);
    match Fetch(f.code, s.pc)
    case LoadK(dst, k) =>
      PoolAt(f, k);
      PutLive(f, p, outer, fa, s, m, dst, ConstWord(f.constants[k]), next);
    case Jump(_) => PassRegs(fa, s.regs, m.regs);
    case Branch(op, cond, _) =>
      PassRegs(fa, s.regs, m.regs);
      CmpReg(fa, s.regs, m.regs, cond);
      TruthAgrees(host, GetReg(s.regs, cond), GetReg(m.regs, cond));
    case Return(src) => SameSource(f, p, outer, fa, s, m, src);
    case Stop(_) =>
  }

  /** A conditional jump on any boxed word, which the gate admits: native code tests the bits, so it goes
      where the interpreter goes exactly when "not all zero" is the truth of the word. */
  lemma BranchExact(f: Function, host: Host, outer: Env, x: Ctx, rt: Rt, s: State, m: Mem)
    requires Whole(f.code, s.pc) && x.code == f.code && Fetch(f.code, s.pc).Branch? && Target(f.code, s.pc) >= 0
    requires var i := Fetch(f.code, s.pc);
             (i.op == JMP_IF_TRUE || i.op == JMP_IF_FALSE) && i.rel != 0
             && GetReg(s.regs, i.cond) == GetReg(m.regs, i.cond)
    ensures var o := Step(f, host, outer, s);
            var w := GetReg(s.regs, Fetch(f.code, s.pc).cond);
            o.Running? && (NStep(x, rt, s.pc, m) == Go(o.state.pc, m) <==> ((w != 0) == WordTruthy(host, w)))
  {
    hide Fetch, WordTruthy, GetReg;
  }

  /** The words it takes for true although they are not, among those that are no cells. Of undefined this
      speaks of the zero word only: undefined may also be a cell, with a word that is not zero. */
  lemma BranchOnWords(host: Host)
    ensures forall w | w in {FALSE, NULL, FromSmi(0)} :: (w != 0) != WordTruthy(host, w)
    ensures forall w | w in {TRUE, UNDEFINED, FromSmi(1)} :: (w != 0) == WordTruthy(host, w)
  {
    hide WordTruthy, FromSmi;
    SmallTruth(host, 0); SmallTruth(host, 1);
    OddTruth(host);
    SmisAreTagged();
  }

  lemma SmisAreTagged()
    ensures FromSmi(0) != 0 && FromSmi(1) != 0
  {
  }

  lemma SmallTruth(host: Host, i: int)
    requires IsI32(i)
    ensures WordTruthy(host, FromSmi(i)) <==> i != 0
  {
    hide FromSmi, NumOf, WordTruthy;
    SmiRoundTrip(i);
    SmiSameNum(i);
    TruthAgrees(host, FromSmi(i), i);
  }

  lemma SmiSameNum(i: int)
    requires IsI32(i)
    ensures SameNum(FromSmi(i), i)
  {
    hide FromSmi, NumOf, IsNumber;
    SmiRoundTrip(i);
    SelfNum(i);
  }

  lemma OddTruth(host: Host)
    ensures !WordTruthy(host, FALSE) && !WordTruthy(host, NULL) && !WordTruthy(host, UNDEFINED)
            && WordTruthy(host, TRUE)
  {
  }

  lemma PoolAt(f: Function, k: nat)
    requires k < |f.constants|
    ensures GetReg(Pool(f, true), k) == ConstWord(f.constants[k])
  {
  }

  lemma CmpReg(fa: Facts, a: seq<Word>, b: seq<Word>, r: nat)
    requires SameRegs(fa, a, b) && fa.cmp == Some(r)
    ensures SameBool(GetReg(a, r), GetReg(b, r))
  {
  }

  // ------------------------------------------------------------------ what the gate provides

  lemma Gated(f: Function, p: Plan, pc: nat)
    requires Accepts(f, true, p) && Boundary(f.code, 0, pc) && pc < |f.code|
    ensures Whole(f.code, pc) && BoxedInstr(Fetch(f.code, pc))
    ensures var i := Fetch(f.code, pc); i.LoadK? ==> i.k < |f.constants|
    ensures var i := Fetch(f.code, pc); i.GetProp? || i.SetProp? ==> SiteKey(p.region.sites, pc) == Some(NameOf(f, i.k))
    ensures var i := Fetch(f.code, pc); (i.GetName? || i.SetName? || i.Hoist?) && IsString(f, i.k) ==>
              NameOf(f, i.k) in p.names && (i.GetName? || NameOf(f, i.k) in OwnNames(p))
    ensures var i := Fetch(f.code, pc); (i.Jump? || i.Branch?) ==> Target(f.code, pc) >= 0
    ensures forall t | t in Succs(f.code, pc) :: 0 <= t <= |f.code| && Boundary(f.code, 0, t)
  {
    hide Admitted, Accepts, ReadI16, ReadU16, Boundary, Targets;
    SuccAdmitted(f, true, p, pc, 0);
    IsWhole(f, p, pc);
    BoxedOnly(f, p, pc);
    GatedSite(f, p, pc);
    GatedName(f, p, pc);
    if Fetch(f.code, pc).LoadK? { GatedConst(f, p, pc); }
    forall t | t in Succs(f.code, pc) ensures 0 <= t <= |f.code| && Boundary(f.code, 0, t) {
      SuccAdmitted(f, true, p, pc, t);
    }
  }

  lemma IsWhole(f: Function, p: Plan, pc: nat)
    requires Admitted(f, true, p, pc)
    ensures Whole(f.code, pc)
  {
  }

  lemma GatedConst(f: Function, p: Plan, pc: nat)
    requires Admitted(f, true, p, pc) && Fetch(f.code, pc).LoadK?
    ensures Fetch(f.code, pc).k < |f.constants|
  {
    hide ReadU16, IsIntConst, Targets;
    var cold, e :| Rule(f, true, cold, p.region.slots, p.owned, Targets(f.code, 0), pc, e) !in {Refused, Cold};
  }

  lemma SiteRule(f: Function, cold: bool, slots: seq<int>, owned: nat, targets: seq<int>, pc: nat, e: bool)
    requires Whole(f.code, pc) && Rule(f, true, cold, slots, owned, targets, pc, e) !in {Refused, Cold}
    ensures var i := Fetch(f.code, pc);
            i.GetProp? || i.SetProp? ==> Rule(f, true, cold, slots, owned, targets, pc, e) == Site(NameOf(f, i.k))
  {
    hide ReadU16;
  }

  lemma GatedSite(f: Function, p: Plan, pc: nat)
    requires Accepts(f, true, p) && Boundary(f.code, 0, pc) && pc < |f.code|
    ensures Whole(f.code, pc)
    ensures var i := Fetch(f.code, pc); i.GetProp? || i.SetProp? ==> SiteKey(p.region.sites, pc) == Some(NameOf(f, i.k))
  {
    hide Rule, Translation, Analysis, Fetch, Boundary, Targets;
    var cold := PlanParts(f, true, p);
    var e := SiteFound(f, p, cold, pc);
    SiteRule(f, cold, p.region.slots, p.owned, Targets(f.code, 0), pc, e);
  }

  lemma SiteFound(f: Function, p: Plan, cold: bool, pc: nat) returns (e: bool)
    requires CheckFrom(f, true, cold, p.region.slots, p.owned, Targets(f.code, 0), 0, false, [])
             == Sites(p.region.sites)
    requires Boundary(f.code, 0, pc) && pc < |f.code|
    ensures Whole(f.code, pc)
    ensures var r := Rule(f, true, cold, p.region.slots, p.owned, Targets(f.code, 0), pc, e);
            r !in {Refused, Cold} && (r.Site? ==> SiteKey(p.region.sites, pc) == Some(r.key))
  {
    hide Rule, Boundary, Targets;
    e := SitesFound(f, true, cold, p.region.slots, p.owned, Targets(f.code, 0), 0, false, [], pc);
  }

  lemma GatedName(f: Function, p: Plan, pc: nat)
    requires Accepts(f, true, p) && Admitted(f, true, p, pc)
    ensures var i := Fetch(f.code, pc);
      (i.GetName? || i.SetName? || i.Hoist?) && IsString(f, i.k) ==>
        NameOf(f, i.k) in p.names && (i.GetName? || NameOf(f, i.k) in OwnNames(p))
  {
    hide Analysis, Translation, CheckFrom, Targets;
    var cold := PlanParts(f, true, p);
    DeclaredIsOwn(f, true, p, pc);
    var i := Fetch(f.code, pc);
    OwnSubset(p);
    if (i.GetName? || i.SetName?) && IsString(f, i.k) {
      NameRule(f, p, pc, i.k);
    }
  }

  lemma OwnSubset(p: Plan)
    requires p.owned <= |p.names|
    ensures forall n | n in OwnNames(p) :: n in p.names
  {
  }

  lemma NameRule(f: Function, p: Plan, pc: nat, k: nat)
    requires Admitted(f, true, p, pc) && p.region.slots == Slots(f, p.names) && Distinct(p.names)
    requires p.owned <= |p.names|
    requires var i := Fetch(f.code, pc); (i.GetName? || i.SetName?) && k == i.k && IsString(f, k)
    ensures NameOf(f, k) in p.names && (Fetch(f.code, pc).SetName? ==> NameOf(f, k) in OwnNames(p))
  {
    hide ReadU16, Targets;
    var cold, e :| Rule(f, true, cold, p.region.slots, p.owned, Targets(f.code, 0), pc, e) !in {Refused, Cold};
    SlotMeaning(f, p.names, k);
    var n := NameOf(f, k);
    if n in p.names { OwnIndex(p.names, p.owned, n); }
  }

  lemma PlanFacts(f: Function, p: Plan)
    requires Accepts(f, true, p)
    ensures p.consts == Pool(f, true) && Distinct(p.names) && p.owned <= |p.names| && p.numRegs == f.numRegs
            && p.region.boxed
    ensures PlanCtx(p).code == f.code && PlanCtx(p).boxed && PlanCtx(p).slots == Slots(f, p.names)
    ensures PlanCtx(p).sites == p.region.sites
    ensures Translation(p.region) == Some(p.native) && PlanCtx(p) == CtxOf(p.region) && |f.code| > 0
  {
    hide Analysis;
    var cold := PlanParts(f, true, p);
  }

  // ------------------------------------------------------------------ never again from the start

  lemma GatedSlot(f: Function, p: Plan, pc: nat)
    requires Accepts(f, true, p) && Admitted(f, true, p, pc)
    ensures var i := Fetch(f.code, pc); i.GetName? || i.SetName? ==> SlotOf(Slots(f, p.names), i.k).Some?
  {
    hide Analysis, Translation, CheckFrom, Targets, ReadU16;
    var gate := PlanParts(f, true, p);
    var cold, e :| Rule(f, true, cold, p.region.slots, p.owned, Targets(f.code, 0), pc, e) !in {Refused, Cold};
    var i := Fetch(f.code, pc);
    if i.GetName? || i.SetName? { SlotMeaning(f, p.names, i.k); }
  }

  /** On accepted code every step of the boxed lane is defined, and where it leaves the code it leaves
      with a value, a throw or an exact-pc deopt. */
  lemma StepFlags(f: Function, p: Plan, rt: Rt, pc: nat, m: Mem)
    requires Accepts(f, true, p) && Boundary(f.code, 0, pc) && pc < |f.code| && rt.vm && m.flag == 0
    ensures match NStep(PlanCtx(p), rt, pc, m)
            case Go(t, m') => 0 <= t <= |f.code| && Boundary(f.code, 0, t) && m'.flag == 0
            case Leave(_, m') => m'.flag in {0, 2, 3}
            case Bad => false
  {
    hide Accepts, Boundary, Rule, Succs, Slots, SlotOf, NUnary, NBinary, CallEvent, GetReg;
    var x := PlanCtx(p);
    PlanFacts(f, p);
    Gated(f, p, pc);
    SuccAdmitted(f, true, p, pc, 0);
    GatedSlot(f, p, pc);
    FlagsOf(x, rt, pc, m);
    if NStep(x, rt, pc, m).Go? { GoesToSucc(x, rt, pc, m); }
  }

  lemma FlagsOf(x: Ctx, rt: Rt, pc: nat, m: Mem)
    requires Whole(x.code, pc) && BoxedInstr(Fetch(x.code, pc)) && x.boxed && rt.vm && m.flag == 0
    requires var i := Fetch(x.code, pc); i.GetName? || i.SetName? ==> SlotOf(x.slots, i.k).Some?
    ensures match NStep(x, rt, pc, m)
            case Go(_, m') => m'.flag == 0
            case Leave(_, m') => m'.flag in {0, 2, 3}
            case Bad => false
  {
    hide Fetch, Next, SlotOf, BoxedUnaryResult, BoxedBinaryResult, CallEvent, GetReg, SetReg, SiteKey, Help;
    match Fetch(x.code, pc)
    case Binary(op, _, l, r) => HelpFlags(rt, m, Event(GET_PROP_DYN, [GetReg(m.regs, l), GetReg(m.regs, r)], ""));
    case GetProp(_, obj, _) =>
      HelpFlags(rt, m, Event(GET_PROP, [GetReg(m.regs, obj)], SiteKey(x.sites, pc).GetOr("")));
    case SetProp(obj, _, val) =>
      HelpFlags(rt, m, Event(SET_PROP, [GetReg(m.regs, obj), GetReg(m.regs, val)], SiteKey(x.sites, pc).GetOr("")));
    case SetElem(obj, key, val) =>
      HelpFlags(rt, m, Event(SET_PROP_DYN, [GetReg(m.regs, obj), GetReg(m.regs, key), GetReg(m.regs, val)], ""));
    case Call(base, nargs, _) => HelpFlags(rt, m, CallEvent(m.regs, base, nargs));
    case _ =>
  }

  lemma HelpFlags(rt: Rt, m: Mem, ev: Event)
    requires rt.vm && m.flag == 0
    ensures Help(rt, m, ev).0.flag in {0, 2}
  {
  }

  lemma {:induction false} RunFlags(f: Function, p: Plan, rt: Rt, pc: nat, m: Mem, k: nat)
    requires Accepts(f, true, p) && Boundary(f.code, 0, pc) && pc <= |f.code| && rt.vm && m.flag == 0
    ensures var o := NRun(PlanCtx(p), rt, pc, m, k); !o.Bad? && (o.Leave? ==> o.m.flag in {0, 2, 3})
    decreases k
  {
    hide Accepts, Boundary, NStep, PlanCtx;
    PlanFacts(f, p);
    if k > 0 && pc < |f.code| {
      StepFlags(f, p, rt, pc, m);
      var o := NStep(PlanCtx(p), rt, pc, m);
      if o.Go? { RunFlags(f, p, rt, o.pc, o.m, k - 1); }
    } else if k > 0 {
      AtEnd(PlanCtx(p), rt, pc, m);
    }
  }

  lemma AtEnd(x: Ctx, rt: Rt, pc: nat, m: Mem)
    requires pc == |x.code|
    ensures NStep(x, rt, pc, m) == Leave(0, m)
  {
  }

  /** Once native code of the boxed lane has started, the call is never run again from the start: its
      exits are a value, a throw, or the exact state to go on from. So no event happens twice. */
  lemma NeverRerun(f: Function, p: Plan, host: Host, outer: Env, args: seq<Word>, w: Word, m: Mem)
    requires Accepts(f, true, p) && Returns(p.native, RtFor(p, host), StartMem(p, args, outer), w, m)
    ensures m.flag in {0, 2, 3} && Report(p, w, m) != Deopt
    ensures m.flag == 3 ==> Report(p, w, m) == Resumed(m.regs, m.locals, m.resume)
  {
    hide Accepts, NRun, Returns, Boundary;
    PlanFacts(f, p);
    var rt, m0 := RtFor(p, host), StartMem(p, args, outer);
    StartsAtBoundary(f.code);
    forall k: nat ensures var o := NRun(PlanCtx(p), rt, 0, m0, k); !o.Bad? && (o.Leave? ==> o.m.flag in {0, 2, 3}) {
      RunFlags(f, p, rt, 0, m0, k);
    }
    TranslationRefines(p.region, rt, m0);
    assert Leaves(PlanCtx(p), rt, m0, w, m);
  }

  /** One instruction: both go on together, leave together, or the native code hands over, exactly where
      the access is safe (or there is none, or both throw the same error) and a captured name that is
      read means the same to both. */
  lemma StepAgree(f: Function, p: Plan, host: Host, outer: Env, fa: Facts, s: State, m: Mem)
    requires Accepts(f, true, p) && Boundary(f.code, 0, s.pc) && s.pc < |f.code| && Whole(f.code, s.pc)
    requires Rel(f, p, outer, fa, s, m) && Typed(f, OwnNames(p), fa, Fetch(f.code, s.pc))
    requires Known(host, s, Accessed(f, s))
    requires OwnClear(f, p)
    ensures Agree(f, p, outer, After(f, fa, Fetch(f.code, s.pc)), s.pc, m, NStep(PlanCtx(p), RtFor(p, host), s.pc, m),
            Step(f, host, outer, s))
            <==> AgreesAt(host, s, m, Accessed(f, s)) && NameAgrees(f, OwnNames(p), outer, s)
  {
    hide Rel, Boundary, Accepts, Step, Fetch, Agree, NUnary, NBinary, Slots, SafeAccess, SameCallError, Known,
        CallEvent, GetReg, After, OwnClear;
    var x, rt := PlanCtx(p), RtFor(p, host);
    PlanFacts(f, p);
    Gated(f, p, s.pc);
    match Fetch(f.code, s.pc)
    case Unary(op, dst, src) => UnaryAgree(f, p, host, outer, fa, s, m, op, dst, src);
    case Binary(op, dst, l, r) =>
      if op == GET_PROP_DYN { AccessAgree(f, p, host, outer, rt, x, fa, s, m); }
      else { BinaryAgree(f, p, host, outer, fa, s, m, op, dst, l, r); }
    case GetName(_, _, _) => VarAgree(f, p, host, outer, rt, x, fa, s, m);
    case SetName(_, _, _) => VarAgree(f, p, host, outer, rt, x, fa, s, m);
    case Hoist(_) => VarAgree(f, p, host, outer, rt, x, fa, s, m);
    case GetProp(_, _, _) => AccessAgree(f, p, host, outer, rt, x, fa, s, m);
    case SetProp(_, _, _) => AccessAgree(f, p, host, outer, rt, x, fa, s, m);
    case SetElem(_, _, _) => AccessAgree(f, p, host, outer, rt, x, fa, s, m);
    case Call(_, _, _) => AccessAgree(f, p, host, outer, rt, x, fa, s, m);
    case NewClosure(_, _) =>
      HandsOver(f, p, outer, After(f, fa, Fetch(f.code, s.pc)), s.pc, m, Step(f, host, outer, s));
    case _ => OtherAgree(f, p, host, outer, rt, x, fa, s, m);
  }

  // ------------------------------------------------------------------ interpreter against interpreter

  /** The names the function declares, and those a call binds by itself. */
  datatype Names = Names(own: set<string>, hidden: set<string>)

  /** Two frames that differ only where the certificate says nobody looks: in dead registers, in unbound
      names, and in the names the call binds by itself, which closures that are out do not mention. */
  ghost predicate Like(own: Names, fa: Facts, a: State, b: State)
  {
    && a.pc == b.pc && a.trace == b.trace && a.reach == b.reach && a.strict == b.strict && |a.regs| == |b.regs|
    && (forall r | r in fa.live :: GetReg(a.regs, r) == GetReg(b.regs, r))
    && (fa.cmp.Some? ==> GetReg(a.regs, fa.cmp.value) == GetReg(b.regs, fa.cmp.value))
    && LikeEnv(own, fa.bound, a.env, b.env)
    && (a.reach.Escaped? ==> own.own <= a.env.Keys && own.own <= b.env.Keys && a.reach.seen !! own.hidden)
    && (a.fixed.Some? ==> a.fixed.value in own.hidden) && (b.fixed.Some? ==> b.fixed.value in own.hidden)
  }

  ghost predicate LikeEnv(own: Names, bound: set<string>, a: Env, b: Env)
  {
    && a.Keys <= own.own + own.hidden && b.Keys <= own.own + own.hidden
    && (forall n | n in own.own :: Lookup(a, n) == Lookup(b, n) && (n in bound ==> n in a && n in b))
  }

  lemma LikeWeaken(own: Names, fa: Facts, fb: Facts, a: State, b: State)
    requires Like(own, fa, a, b) && fb.Within(fa)
    ensures Like(own, fb, a, b)
  {
  }

  lemma LikeReg(own: Names, fa: Facts, a: State, b: State, r: nat)
    requires Like(own, fa, a, b) && (r in fa.live || fa.cmp == Some(r))
    ensures GetReg(a.regs, r) == GetReg(b.regs, r)
  {
  }

  /** With every own name bound, closures that do not mention the hidden names see the same. */
  lemma LikeSeen(own: Names, bound: set<string>, a: Env, b: Env, seen: set<string>)
    requires LikeEnv(own, bound, a, b) && own.own <= a.Keys && own.own <= b.Keys && seen !! own.hidden
    ensures Visible(a, seen) == Visible(b, seen) && Visible(a, seen).Keys <= own.own
  {
    assert Visible(a, seen).Keys == Visible(b, seen).Keys;
    forall n | n in Visible(a, seen) ensures a[n] == b[n] { assert Lookup(a, n) == Lookup(b, n); }
  }

  /** Two outcomes of like frames. */
  ghost predicate LikeOut(own: Names, fa: Facts, a: Outcome, b: Outcome)
  {
    if a.Running? then b.Running? && Like(own, fa, a.state, b.state) else a == b
  }

  lemma LikePut(own: Names, fa: Facts, fb: Facts, a: State, b: State, dst: nat, w: Word, next: nat)
    requires Like(own, fa, a, b) && fb.live <= fa.live + {dst} && fb.bound == fa.bound
    requires fb.cmp.None? || fb.cmp == Some(dst)
    ensures Like(own, fb, a.(pc := next, regs := SetReg(a.regs, dst, w)),
            b.(pc := next, regs := SetReg(b.regs, dst, w)))
  {
  }

  /** What an operation does to like environments: the same value, events and error; and environments
      that are still alike, with no name lost. */
  ghost predicate LikeDone(own: Names, bound: set<string>, a0: Env, b0: Env, d: Done, e: Done)
  {
    match d
    case Failed(_, _) => d == e
    case Done(v, env, t) =>
      && e.Done? && e.value == v && e.trace == t && LikeEnv(own, bound, env, e.env)
      && a0.Keys <= env.Keys && b0.Keys <= e.env.Keys
  }

  /** Environments that operations cannot tell apart. */
  ghost predicate Blind(own: Names, bound: set<string>, reach: Reach, a: Env, b: Env)
  {
    && LikeEnv(own, bound, a, b)
    && (reach.Escaped? ==> own.own <= a.Keys && own.own <= b.Keys && reach.seen !! own.hidden)
  }

  lemma LikeRaw(own: Names, bound: set<string>, host: Host, reach: Reach, a: Env, b: Env, trace: Trace, ev: Event)
    requires Blind(own, bound, reach, a, b)
    ensures Seen(reach, a) == Seen(reach, b)
    ensures LikeDone(own, bound, a, b, Raw(host, reach, a, trace, ev), Raw(host, reach, b, trace, ev))
  {
    if reach.Escaped? {
      LikeSeen(own, bound, a, b, reach.seen);
      var more := Visible(host.envAfter(trace + [ev], Seen(reach, a)), Seen(reach, a).Keys);
      assert more.Keys <= own.own;
      assert (a + more).Keys == a.Keys + more.Keys && (b + more).Keys == b.Keys + more.Keys;
      forall n | n in own.own ensures Lookup(a + more, n) == Lookup(b + more, n) {
        assert Lookup(a, n) == Lookup(b, n);
      }
    }
  }

  lemma LikeConvert(own: Names, bound: set<string>, host: Host, reach: Reach, a: Env, b: Env, trace: Trace, w: Word,
                    hint: string)
    requires Blind(own, bound, reach, a, b)
    ensures LikeDone(own, bound, a, b, Convert(host, reach, a, trace, w, hint), Convert(host, reach, b, trace, w, hint))
    ensures LikeDone(own, bound, a, b, Numerical(host, reach, a, trace, w), Numerical(host, reach, b, trace, w))
  {
    hide Raw, ToNum, HasNum, LikeEnv;
    LikeRaw(own, bound, host, reach, a, b, trace, Event(CONVERT, [w], hint));
    LikeRaw(own, bound, host, reach, a, b, trace, Event(CONVERT, [w], "number"));
  }

  lemma LikeUnaryDone(own: Names, bound: set<string>, host: Host, reach: Reach, a: Env, b: Env, trace: Trace, op: int,
                      w: Word)
    requires Blind(own, bound, reach, a, b)
    ensures LikeDone(own, bound, a, b, UnaryDone(host, reach, a, trace, op, w), UnaryDone(host, reach, b, trace, op, w))
  {
    hide Convert, Numerical, ToNum, NumUnary, HasNum, LikeEnv;
    LikeConvert(own, bound, host, reach, a, b, trace, w, "number");
  }

  lemma LikeOperand(own: Names, bound: set<string>, host: Host, reach: Reach, a: Env, b: Env, trace: Trace,
                    op: int, w: Word)
    requires Blind(own, bound, reach, a, b)
    ensures LikeDone(own, bound, a, b, Operand(host, reach, a, trace, op, w), Operand(host, reach, b, trace, op, w))
  {
    hide Convert, Numerical, LikeEnv;
    LikeConvert(own, bound, host, reach, a, b, trace, w, "default");
  }

  lemma LikeBinaryDone(own: Names, bound: set<string>, host: Host, reach: Reach, a: Env, b: Env, trace: Trace,
                       op: int, l: Word, r: Word)
    requires Blind(own, bound, reach, a, b)
    ensures LikeDone(own, bound, a, b, BinaryDone(host, reach, a, trace, op, l, r),
                     BinaryDone(host, reach, b, trace, op, l, r))
  {
    hide Operand, Combine, LikeEnv;
    LikeOperand(own, bound, host, reach, a, b, trace, op, l);
    var p, p' := Operand(host, reach, a, trace, op, l), Operand(host, reach, b, trace, op, l);
    if p.Done? {
      LikeOperand(own, bound, host, reach, p.env, p'.env, p.trace, op, r);
      var q, q' := Operand(host, reach, p.env, p.trace, op, r), Operand(host, reach, p'.env, p.trace, op, r);
      if q.Done? { LikeCombine(own, bound, host, q.env, q'.env, q.trace, op, p.value, q.value); }
    }
  }

  lemma LikeCombine(own: Names, bound: set<string>, host: Host, a: Env, b: Env, trace: Trace, op: int, p: Word, q: Word)
    requires LikeEnv(own, bound, a, b)
    ensures LikeDone(own, bound, a, b, Combine(host, a, trace, op, p, q), Combine(host, b, trace, op, p, q))
  {
    hide ToNum, NumBinary, HasNum, LikeEnv;
  }

  lemma LikeOperate(own: Names, bound: set<string>, host: Host, strict: bool, reach: Reach, a: Env, b: Env,
                    trace: Trace, ev: Event)
    requires Blind(own, bound, reach, a, b)
    ensures LikeDone(own, bound, a, b, Operate(host, strict, reach, a, trace, ev),
            Operate(host, strict, reach, b, trace, ev))
  {
    hide UnaryDone, BinaryDone, Raw, LikeEnv;
    LikeRaw(own, bound, host, reach, a, b, trace, ev);
    LikeUnaryDone(own, bound, host, reach, a, b, trace, ev.op, Base(ev));
    if |ev.args| == 2 { LikeBinaryDone(own, bound, host, reach, a, b, trace, ev.op, ev.args[0], ev.args[1]); }
  }

  /** Operations in like frames. */
  lemma LikePerform(own: Names, fa: Facts, fb: Facts, host: Host, a: State, b: State, next: nat, ev: Event, dst: nat)
    requires Like(own, fa, a, b) && fb.live <= fa.live + {dst} && fb.bound == fa.bound
    requires fb.cmp.None? || fb.cmp == Some(dst)
    ensures LikeOut(own, fb, Perform(host, a, next, ev, dst), Perform(host, b, next, ev, dst))
    ensures fb.live <= fa.live && fb.cmp.None? ==>
            LikeOut(own, fb, PerformStore(host, a, next, ev), PerformStore(host, b, next, ev))
  {
    hide Operate, LikeEnv;
    LikeOperate(own, fa.bound, host, a.strict, a.reach, a.env, b.env, a.trace, ev);
  }

  lemma LikeCall(own: Names, fa: Facts, a: State, b: State, base: nat, nargs: nat)
    requires Like(own, fa, a, b) && LiveRange(fa, base, nargs)
    ensures CallEvent(a.regs, base, nargs) == CallEvent(b.regs, base, nargs)
  {
    var x, y := CallEvent(a.regs, base, nargs).args, CallEvent(b.regs, base, nargs).args;
    forall i | 0 <= i < |x| ensures x[i] == y[i] { assert base + i in fa.live; }
    assert x == y;
  }

  lemma LikeName(f: Function, own: seq<string>, ks: Names, host: Host, outer: Env, fa: Facts, a: State, b: State)
    requires ks.own == (set n | n in own) && Like(ks, fa, a, b) && Whole(f.code, a.pc)
    requires var i := Fetch(f.code, a.pc); Typed(f, own, fa, i) && (i.GetName? || i.SetName? || i.Hoist?)
    requires var i := Fetch(f.code, a.pc); NameOf(f, i.k) !in ks.hidden && (i.GetName? || NameOf(f, i.k) in own)
    ensures LikeOut(ks, After(f, fa, Fetch(f.code, a.pc)), Step(f, host, outer, a), Step(f, host, outer, b))
  {
    hide Perform, PerformStore, Fetch, SetReg, GetReg, Like, WriteFixed;
    var next := Next(f.code, a.pc);
    LikePc(ks, fa, a, b);
    match Fetch(f.code, a.pc)
    case GetName(op, dst, k) =>
      var n := NameOf(f, k);
      LikeRead(own, ks, fa, a, b, n);
      LikePerform(ks, fa, fa.Set(dst), host, a, b, next, Event(op, [], n), dst);
      if n in a.env {
        LikePut(ks, fa, fa.Set(dst), a, b, dst, a.env[n], next);
      } else if n in outer {
        LikePut(ks, fa, fa.Set(dst), a, b, dst, outer[n], next);
      }
    case SetName(op, k, src) =>
      var n := NameOf(f, k);
      LikeReg(ks, fa, a, b, src);
      LikeWrite(ks, fa, a, b, n, GetReg(a.regs, src), next);
      LikePerform(ks, fa, fa.Pass(), host, a, b, next, Event(op, [GetReg(a.regs, src)], n), 0);
    case Hoist(k) =>
      LikeHoist(ks, fa, a, b, NameOf(f, k), next);
  }

  lemma LikePc(own: Names, fa: Facts, a: State, b: State)
    requires Like(own, fa, a, b)
    ensures a.pc == b.pc && a.reach == b.reach && a.trace == b.trace && a.strict == b.strict
    ensures a.fixed.Some? ==> a.fixed.value in own.hidden
    ensures b.fixed.Some? ==> b.fixed.value in own.hidden
  {
  }

  lemma LikeRead(own: seq<string>, ks: Names, fa: Facts, a: State, b: State, n: string)
    requires Like(ks, fa, a, b) && ks.own == (set n | n in own) && (n in fa.bound || n !in own) && n !in ks.hidden
    ensures n in a.env <==> n in b.env
    ensures n in a.env ==> a.env[n] == b.env[n]
  {
    if n in own { assert n in ks.own; assert Lookup(a.env, n) == Lookup(b.env, n); }
  }

  lemma LikeWrite(own: Names, fa: Facts, a: State, b: State, n: string, w: Word, next: nat)
    requires Like(own, fa, a, b) && n in own.own && n in fa.bound
    ensures n in a.env <==> n in b.env
    ensures Like(own, fa.Pass(), a.(pc := next, env := a.env[n := w]), b.(pc := next, env := b.env[n := w]))
  {
  }

  lemma LikeHoist(own: Names, fa: Facts, a: State, b: State, n: string, next: nat)
    requires Like(own, fa, a, b) && n in own.own
    ensures Like(own, Facts(fa.live, None, fa.bound + {n}),
                 a.(pc := next, env := if n in a.env then a.env else a.env[n := UNDEFINED]),
                 b.(pc := next, env := if n in b.env then b.env else b.env[n := UNDEFINED]))
  {
  }

  lemma LikeStep(f: Function, own: seq<string>, ks: Names, host: Host, outer: Env, fa: Facts, a: State, b: State)
    requires ks.own == (set n | n in own) && Like(ks, fa, a, b) && Whole(f.code, a.pc)
    requires Typed(f, own, fa, Fetch(f.code, a.pc))
    requires BoxedInstr(Fetch(f.code, a.pc))
    requires var i := Fetch(f.code, a.pc); i.SetName? || i.Hoist? ==> NameOf(f, i.k) in own
    requires var i := Fetch(f.code, a.pc); i.GetName? || i.SetName? || i.Hoist? ==> NameOf(f, i.k) !in ks.hidden
    requires f.closureNames !! ks.hidden
    ensures LikeOut(ks, After(f, fa, Fetch(f.code, a.pc)), Step(f, host, outer, a), Step(f, host, outer, b))
  {
    hide Perform, PerformStore, Fetch, SetReg, GetReg, Like, CallEvent, NumBinary, NumUnary, WordTruthy;
    var next := Next(f.code, a.pc);
    LikePc(ks, fa, a, b);
    match Fetch(f.code, a.pc)
    case LoadK(dst, k) =>
      if k < |f.constants| { LikePut(ks, fa, fa.Set(dst), a, b, dst, ConstWord(f.constants[k]), next); }
    case Unary(op, dst, src) => LikeUnary(f, own, ks, host, outer, fa, a, b, op, dst, src);
    case Binary(op, dst, l, r) => LikeBinary(f, own, ks, host, outer, fa, a, b, op, dst, l, r);
    case GetName(_, _, _) => LikeName(f, own, ks, host, outer, fa, a, b);
    case SetName(_, _, _) => LikeName(f, own, ks, host, outer, fa, a, b);
    case Hoist(_) => LikeName(f, own, ks, host, outer, fa, a, b);
    case Jump(_) => LikeGoto(ks, fa, a, b);
    case Branch(_, cond, _) =>
      LikeReg(ks, fa, a, b, cond);
      LikeGoto(ks, fa, a, b);
    case GetProp(dst, obj, k) =>
      LikeReg(ks, fa, a, b, obj);
      LikePerform(ks, fa, fa.Set(dst), host, a, b, next, Event(GET_PROP, [GetReg(a.regs, obj)], NameOf(f, k)), dst);
    case SetProp(obj, k, val) =>
      LikeReg(ks, fa, a, b, obj); LikeReg(ks, fa, a, b, val);
      LikePerform(ks, fa, fa.Pass(), host, a, b, next,
          Event(SET_PROP, [GetReg(a.regs, obj), GetReg(a.regs, val)], NameOf(f, k)), 0);
    case SetElem(obj, key, val) =>
      LikeReg(ks, fa, a, b, obj); LikeReg(ks, fa, a, b, key); LikeReg(ks, fa, a, b, val);
      LikePerform(ks, fa, fa.Pass(), host, a, b, next,
        Event(SET_PROP_DYN, [GetReg(a.regs, obj), GetReg(a.regs, key), GetReg(a.regs, val)], ""), 0);
    case Call(base, nargs, dst) =>
      LikeCall(ks, fa, a, b, base, nargs);
      LikePerform(ks, fa, fa.Set(dst), host, a, b, next, CallEvent(a.regs, base, nargs), dst);
    case NewClosure(dst, idx) =>
      LikeEscape(ks, fa, a, b, f.closureNames);
      LikePerform(ks, fa, fa.Set(dst), host, a.(reach := Escaped(f.closureNames)),
          b.(reach := Escaped(f.closureNames)), next,
        Event(NEW_CLOSURE, [FromSmi(idx)], ""), dst);
    case Return(src) => LikeReg(ks, fa, a, b, src);
    case Stop(_) =>
    case _ =>
  }

  lemma LikeGoto(own: Names, fa: Facts, a: State, b: State)
    requires Like(own, fa, a, b)
    ensures forall t :: LikeOut(own, fa.Pass(), Goto(a, t), Goto(b, t))
  {
  }

  lemma LikeEscape(own: Names, fa: Facts, a: State, b: State, seen: set<string>)
    requires Like(own, fa, a, b) && own.own <= fa.bound && seen !! own.hidden
    ensures Like(own, fa, a.(reach := Escaped(seen)), b.(reach := Escaped(seen)))
  {
  }

  lemma LikeUnary(f: Function, own: seq<string>, ks: Names, host: Host, outer: Env, fa: Facts, a: State, b: State,
                  op: int, dst: nat, src: nat)
    requires ks.own == (set n | n in own) && Like(ks, fa, a, b) && Whole(f.code, a.pc)
    requires Fetch(f.code, a.pc) == Unary(op, dst, src)
    requires src in fa.live && (op == MOVE || BoxedUnaryOp(op))
    ensures LikeOut(ks, After(f, fa, Unary(op, dst, src)), Step(f, host, outer, a), Step(f, host, outer, b))
  {
    hide Perform, Fetch, SetReg, GetReg, Like, NumUnary, WordTruthy, HasNum, Coerce;
    var next, w := Next(f.code, a.pc), GetReg(a.regs, src);
    var fb := After(f, fa, Unary(op, dst, src));
    LikePc(ks, fa, a, b);
    LikeReg(ks, fa, a, b, src);
    LikePerform(ks, fa, fb, host, a, b, next, Event(op, [w], ""), dst);
    LikePut(ks, fa, fb, a, b, dst, w, next);
    LikePut(ks, fa, fb, a, b, dst, NumUnary(op, Coerce(w)), next);
    LikePut(ks, fa, fb, a, b, dst, FromBool(!WordTruthy(host, w)), next);
  }

  lemma LikeBinary(f: Function, own: seq<string>, ks: Names, host: Host, outer: Env, fa: Facts, a: State, b: State,
                   op: int, dst: nat, l: nat, r: nat)
    requires ks.own == (set n | n in own) && Like(ks, fa, a, b) && Whole(f.code, a.pc)
    requires Fetch(f.code, a.pc) == Binary(op, dst, l, r)
    requires l in fa.live && r in fa.live
    ensures LikeOut(ks, After(f, fa, Binary(op, dst, l, r)), Step(f, host, outer, a), Step(f, host, outer, b))
  {
    hide Perform, Fetch, SetReg, GetReg, Like, NumBinary, Computes, Coerce;
    var next, v, w := Next(f.code, a.pc), GetReg(a.regs, l), GetReg(a.regs, r);
    var fb := After(f, fa, Binary(op, dst, l, r));
    LikePc(ks, fa, a, b);
    LikeReg(ks, fa, a, b, l);
    LikeReg(ks, fa, a, b, r);
    LikePerform(ks, fa, fb, host, a, b, next, Event(op, [v, w], ""), dst);
    LikePut(ks, fa, fb, a, b, dst, NumBinary(op, Coerce(v), Coerce(w)), next);
  }

  // ------------------------------------------------------------------ whole runs

  function OwnSet(p: Plan): set<string> { set n | n in OwnNames(p) }
  function NamesFor(f: Function, p: Plan): Names { Names(OwnSet(p), CallNames(f)) }

  /** Facts good enough to run the instruction at `pc` and be certified afterwards. */
  ghost predicate Fits(f: Function, own: seq<string>, cert: Cert, fa: Facts, pc: nat)
  {
    && pc < |f.code| && Whole(f.code, pc) && Typed(f, own, fa, Fetch(f.code, pc))
    && forall t: nat | t in Succs(f.code, pc) ::
         t in cert && t < |f.code| && cert[t].Within(After(f, fa, Fetch(f.code, pc)))
  }

  lemma CertFits(f: Function, own: seq<string>, cert: Cert, pc: nat)
    requires Certified(f, own, cert) && pc in cert && pc < |f.code| && Whole(f.code, pc)
    ensures Fits(f, own, cert, cert[pc], pc)
    ensures !Fetch(f.code, pc).Branch? ==> Fits(f, own, cert, cert[pc].Pass(), pc)
  {
    hide Fetch, Succs;
    assert After(f, cert[pc].Pass(), Fetch(f.code, pc)) == After(f, cert[pc], Fetch(f.code, pc));
  }

  /** The interpreter, too, only goes to successors. */
  lemma StepSucc(f: Function, host: Host, outer: Env, s: State)
    requires Whole(f.code, s.pc) && Step(f, host, outer, s).Running?
    ensures Step(f, host, outer, s).state.pc in Succs(f.code, s.pc)
  {
    hide ReadI16, ReadU16, CallEvent, NumBinary, NumUnary, WordTruthy, ConstWord, Operate, HasNum, Coerce, Computes,
        SetReg, GetReg;
  }

  /** Frames that differ only where nobody looks run alike to the end. */
  lemma {:induction false} LikeRun(f: Function, p: Plan, host: Host, outer: Env, cert: Cert, fa: Facts, a: State,
                                   b: State, n: nat)
    requires Accepts(f, true, p) && Certified(f, OwnNames(p), cert) && Boundary(f.code, 0, a.pc) && Clear(f, p)
    requires NoLeak(f)
    requires Fits(f, OwnNames(p), cert, fa, a.pc) && Like(NamesFor(f, p), fa, a, b)
    ensures var o, o' := Run(f, host, outer, a, n), Run(f, host, outer, b, n); o == o' || (o.Running? && o'.Running?)
    decreases n
  {
    hide Accepts, Step, Boundary, Fetch, Typed, After, Like, Succs;
    if n > 0 {
      Gated(f, p, a.pc);
      LikeStep2(f, p, host, outer, cert, fa, a, b);
      var o := Step(f, host, outer, a);
      if o.Running? {
        StepSucc(f, host, outer, a);
        Gated(f, p, o.state.pc);
        CertFits(f, OwnNames(p), cert, o.state.pc);
        LikeRun(f, p, host, outer, cert, cert[o.state.pc], o.state, Step(f, host, outer, b).state, n - 1);
      }
    }
  }

  lemma LikeStep2(f: Function, p: Plan, host: Host, outer: Env, cert: Cert, fa: Facts, a: State, b: State)
    requires Accepts(f, true, p) && Boundary(f.code, 0, a.pc) && Clear(f, p) && NoLeak(f)
    requires Fits(f, OwnNames(p), cert, fa, a.pc) && Like(NamesFor(f, p), fa, a, b)
    ensures var o, o' := Step(f, host, outer, a), Step(f, host, outer, b);
            if o.Running? then o'.Running? && o.state.pc in cert
                && Like(NamesFor(f, p), cert[o.state.pc], o.state, o'.state) else o == o'
  {
    hide Accepts, Step, Boundary, Fetch, After, Like, Succs;
    Gated(f, p, a.pc);
    TypedName(f, OwnNames(p), fa, a.pc);
    LikeStep(f, OwnNames(p), NamesFor(f, p), host, outer, fa, a, b);
    var o := Step(f, host, outer, a);
    if o.Running? {
      StepSucc(f, host, outer, a);
      LikeWeaken(NamesFor(f, p), After(f, fa, Fetch(f.code, a.pc)), cert[o.state.pc], o.state,
          Step(f, host, outer, b).state);
    }
  }

  lemma TypedName(f: Function, own: seq<string>, fa: Facts, pc: nat)
    requires Whole(f.code, pc) && Typed(f, own, fa, Fetch(f.code, pc))
    ensures var i := Fetch(f.code, pc); i.SetName? || i.Hoist? ==> IsString(f, i.k)
  {
  }

  /** Both machines stand before the same certified instruction, in related states. */
  ghost predicate InSync(f: Function, p: Plan, outer: Env, cert: Cert, s: State, m: Mem)
  {
    && s.pc in cert && s.pc < |f.code| && Boundary(f.code, 0, s.pc)
    && Rel(f, p, outer, cert[s.pc], s, m)
  }

  /** The native run stopped with deopt 3 just before the instruction the interpreter is about to
      execute in state `s`: same pc, same live registers, same variables, same events so far. */
  ghost predicate HandedOver(f: Function, p: Plan, outer: Env, cert: Cert, s: State, m: Mem)
  {
    && m.flag == 3 && m.resume == s.pc && InSync(f, p, outer, cert, s, m.(flag := 0))
    && Whole(f.code, s.pc) && !Fetch(f.code, s.pc).Branch?
  }

  /** The instruction about to run is safe; once a closure is out, native code has handed over and there
      is nothing to fear. */
  predicate SafeAt(f: Function, host: Host, s: State)
  {
    Whole(f.code, s.pc) && s.reach.Kept? && Accessed(f, s).Some? ==>
        SafeAccess(host, s.strict, s.trace, Accessed(f, s).value)
  }

  /** The first `k` instructions of the run from `s` are safe. */
  ghost predicate SafeFor(f: Function, host: Host, outer: Env, s: State, k: nat)
  {
    forall n: nat | n < k :: Run(f, host, outer, s, n).Running? ==> SafeAt(f, host, Run(f, host, outer, s, n).state)
  }

  ghost predicate SafeRun(f: Function, host: Host, outer: Env, s: State)
  {
    forall k: nat :: SafeFor(f, host, outer, s, k)
  }

  lemma SafeHere(f: Function, host: Host, outer: Env, s: State, k: nat)
    requires SafeFor(f, host, outer, s, k) && k > 0
    ensures SafeAt(f, host, s)
  {
    assert Run(f, host, outer, s, 0) == Running(s);
  }

  lemma SafeNext(f: Function, host: Host, outer: Env, s: State, k: nat)
    requires SafeFor(f, host, outer, s, k) && k > 0 && Step(f, host, outer, s).Running?
    ensures SafeFor(f, host, outer, Step(f, host, outer, s).state, k - 1)
  {
    hide Step, SafeAt;
    var s' := Step(f, host, outer, s).state;
    forall n: nat | n < k - 1 && Run(f, host, outer, s', n).Running?
        ensures SafeAt(f, host, Run(f, host, outer, s', n).state) {
      assert Run(f, host, outer, s, n + 1) == Run(f, host, outer, s', n);
    }
  }

  /** One instruction from related states: at a safe access, or none, the two machines stay together. */
  lemma SyncStep(f: Function, p: Plan, host: Host, outer: Env, cert: Cert, s: State, m: Mem)
    requires Accepts(f, true, p) && Certified(f, OwnNames(p), cert) && InSync(f, p, outer, cert, s, m) && Clear(f, p)
    requires HelpersAgree(host) && SafeAt(f, host, s)
    ensures match NStep(PlanCtx(p), RtFor(p, host), s.pc, m)
            case Go(pc, m') => var o := Step(f, host, outer, s);
              o.Running? && o.state.pc == pc && InSync(f, p, outer, cert, o.state, m')
            case Leave(w, m') =>
              if m'.flag == 0 then Step(f, host, outer, s) == Outcome.Returned(w, m'.trace)
              else if m'.flag == 2 then Step(f, host, outer, s) == Outcome.Threw(m'.pending, m'.trace)
              else HandedOver(f, p, outer, cert, s, m')
            case Bad => false
  {
    hide NStep, Step, Rel, Accepts, Boundary, After, Typed, Succs, Fetch, SafeAccess, NameAgrees, Known, AgreesAt,
        Clear, OwnClear;
    var x, rt := PlanCtx(p), RtFor(p, host);
    PlanFacts(f, p);
    Gated(f, p, s.pc);
    CertFits(f, OwnNames(p), cert, s.pc);
    RelParts(f, p, outer, cert[s.pc], s, m);
    SafeKnown(f, host, s);
    NamesClear(f, p, outer, cert[s.pc], s, m);
    StepAgree(f, p, host, outer, cert[s.pc], s, m);
    var o := NStep(x, rt, s.pc, m);
    if o.Go? {
      GoesToSucc(x, rt, s.pc, m);
      var s' := Step(f, host, outer, s).state;
      RelWeaken(f, p, outer, After(f, cert[s.pc], Fetch(f.code, s.pc)), cert[s'.pc], s', o.m);
    } else if o.Leave? && o.m.flag != 0 && o.m.flag != 2 {
      LeavesNotBranch(x, rt, s.pc, m);
      FlagBack(f, p, outer, cert[s.pc], s, m);
    }
  }

  /** Where no name of the plan is bound by the call itself, names mean the same to both machines. */
  lemma NamesClear(f: Function, p: Plan, outer: Env, fa: Facts, s: State, m: Mem)
    requires Rel(f, p, outer, fa, s, m) && Clear(f, p) && Whole(f.code, s.pc)
    requires Typed(f, OwnNames(p), fa, Fetch(f.code, s.pc))
    requires var i := Fetch(f.code, s.pc); i.GetName? && IsString(f, i.k) ==> NameOf(f, i.k) in p.names
    requires p.owned <= |p.names|
    ensures OwnClear(f, p) && NameAgrees(f, OwnNames(p), outer, s)
  {
    hide SameRegs, Fetch, CallNames;
  }

  lemma SafeKnown(f: Function, host: Host, s: State)
    requires HelpersAgree(host) && SafeAt(f, host, s) && Whole(f.code, s.pc) && s.reach.Kept?
    ensures Known(host, s, Accessed(f, s)) && forall m :: AgreesAt(host, s, m, Accessed(f, s))
  {
    hide Fetch, CallEvent;
    match Fetch(f.code, s.pc)
    case Call(base, nargs, _) => CallIs(s.regs, base, nargs);
    case _ =>
  }

  /** Native code and interpreter stay together up to the first unsafe access. */
  lemma {:induction false} LockStep(f: Function, p: Plan, host: Host, outer: Env, cert: Cert, s: State, m: Mem,
                                    k: nat) returns (j: nat)
    requires Accepts(f, true, p) && Certified(f, OwnNames(p), cert) && InSync(f, p, outer, cert, s, m) && Clear(f, p)
    requires HelpersAgree(host) && SafeFor(f, host, outer, s, k)
    ensures match NRun(PlanCtx(p), RtFor(p, host), s.pc, m, k)
            case Go(pc, m') => var o := Run(f, host, outer, s, k);
              o.Running? && o.state.pc == pc && InSync(f, p, outer, cert, o.state, m')
            case Leave(w, m') =>
              if m'.flag == 0 then Run(f, host, outer, s, k) == Outcome.Returned(w, m'.trace)
              else if m'.flag == 2 then Run(f, host, outer, s, k) == Outcome.Threw(m'.pending, m'.trace)
              else
                var o := Run(f, host, outer, s, j);
                o.Running? && HandedOver(f, p, outer, cert, o.state, m')
            case Bad => false
    decreases k
  {
    hide NStep, Step, InSync, Accepts, Certified, HandedOver, HelpersAgree, SafeFor, SafeAt;
    j := 0;
    if k > 0 {
      SafeHere(f, host, outer, s, k);
      SyncStep(f, p, host, outer, cert, s, m);
      var o := NStep(PlanCtx(p), RtFor(p, host), s.pc, m);
      if o.Go? {
        SafeNext(f, host, outer, s, k);
        j := LockStep(f, p, host, outer, cert, Step(f, host, outer, s).state, o.m, k - 1);
        j := j + 1;
      }
    }
  }

  /** And there they part: the interpreter throws a TypeError of its own, native code goes on, or throws
      another error. */
  lemma UnsafeParts(f: Function, p: Plan, host: Host, outer: Env, cert: Cert, s: State, m: Mem)
    requires Accepts(f, true, p) && Certified(f, OwnNames(p), cert) && InSync(f, p, outer, cert, s, m)
    requires Whole(f.code, s.pc)
    requires HelpersAgree(host) && !SafeAt(f, host, s) && !IsPrivate(Accessed(f, s).value)
    ensures Step(f, host, outer, s).Threw?
    ensures match NStep(PlanCtx(p), RtFor(p, host), s.pc, m)
            case Go(pc, m') => pc == Next(f.code, s.pc) && m'.flag == 0
            case Leave(_, m') => m'.flag == 2 && Accessed(f, s).value.op == CALL
                                 && (Outcome.Threw(m'.pending, m'.trace) == Step(f, host, outer, s) <==>
                                      SameCallError(host, m, Accessed(f, s).value))
            case Bad => false
  {
    hide Rel, Boundary, Accepts, Certified, After, Typed, Fetch, SafeAccess, SameCallError, Help, Operate, CallEvent,
        GetReg, Put, SiteKey, Computes;
    PlanFacts(f, p);
    Gated(f, p, s.pc);
    CertFits(f, OwnNames(p), cert, s.pc);
    RelParts(f, p, outer, cert[s.pc], s, m);
    var ev, rt := Accessed(f, s).value, RtFor(p, host);
    AccessSteps(f, p, host, outer, rt, PlanCtx(p), cert[s.pc], s, m);
    AccessFails(f, host, outer, s);
    HelpIs(host, rt, s.env, m, f.strict, ev);
    CallErrorUnsafe(host, f.strict, m, ev);
  }

  /** The interpreter's step at an access whose operation fails. */
  lemma AccessFails(f: Function, host: Host, outer: Env, s: State)
    requires Whole(f.code, s.pc) && Accessed(f, s).Some?
    ensures Helped(Accessed(f, s).value)
    ensures var d := Operate(host, s.strict, s.reach, s.env, s.trace, Accessed(f, s).value);
            d.Failed? ==> Step(f, host, outer, s) == Outcome.Threw(d.error, d.trace)
  {
    hide Fetch, GetReg, SetReg, CallEvent, Operate, Computes;
    match Fetch(f.code, s.pc)
    case Binary(op, dst, l, r) => NoComputing(GetReg(s.regs, l), GetReg(s.regs, r));
    case Call(base, nargs, dst) => CallIs(s.regs, base, nargs);
    case _ =>
  }

  /** At an unsafe access that is not private the interpreter throws. */
  lemma UnsafeThrows(f: Function, host: Host, outer: Env, s: State)
    requires Whole(f.code, s.pc) && !SafeAt(f, host, s) && !IsPrivate(Accessed(f, s).value)
    ensures Step(f, host, outer, s).Threw?
  {
    hide Accessed, Step;
    AccessFails(f, host, outer, s);
  }

  /** The native step at an access, in terms of the helper. */
  lemma AccessSteps(f: Function, p: Plan, host: Host, outer: Env, rt: Rt, x: Ctx, fa: Facts, s: State, m: Mem)
    requires Rel(f, p, outer, fa, s, m) && Whole(f.code, s.pc) && x.code == f.code && rt.host == host && rt.vm
    requires Typed(f, OwnNames(p), fa, Fetch(f.code, s.pc)) && Accessed(f, s).Some?
    requires var i := Fetch(f.code, s.pc); i.GetProp? || i.SetProp? ==> SiteKey(x.sites, s.pc) == Some(NameOf(f, i.k))
    ensures var (m', _) := Help(rt, m, Accessed(f, s).value);
            var o := NStep(x, rt, s.pc, m);
            && (m'.flag == 0 ==> o.Go? && o.pc == Next(f.code, s.pc) && o.m.flag == 0)
            && (m'.flag == 2 ==> o == Leave(0, m'))
  {
    hide Rel, Fetch, GetReg, Help, SetReg, SiteKey, CallEvent, Operate, Computes, BoxedBinaryResult, BoxedUnaryResult;
    match Fetch(f.code, s.pc)
    case GetProp(dst, obj, k) => SameSource(f, p, outer, fa, s, m, obj);
    case SetProp(obj, k, val) => SameSource(f, p, outer, fa, s, m, obj); SameSource(f, p, outer, fa, s, m, val);
    case SetElem(obj, key, val) =>
      SameSource(f, p, outer, fa, s, m, obj); SameSource(f, p, outer, fa, s, m, key);
      SameSource(f, p, outer, fa, s, m, val);
    case Binary(op, dst, l, r) =>
      SameSource(f, p, outer, fa, s, m, l);
      SameSource(f, p, outer, fa, s, m, r);
      NoComputing(GetReg(s.regs, l), GetReg(s.regs, r));
    case Call(base, nargs, dst) =>
      SameCall(f, p, outer, fa, s, m, base, nargs);
      CallIs(s.regs, base, nargs);
  }

  lemma LeavesNotBranch(x: Ctx, rt: Rt, pc: nat, m: Mem)
    requires Whole(x.code, pc) && NStep(x, rt, pc, m).Leave?
    ensures !Fetch(x.code, pc).Branch?
  {
  }

  lemma FlagBack(f: Function, p: Plan, outer: Env, fa: Facts, s: State, m: Mem)
    requires Rel(f, p, outer, fa, s, m)
    ensures Rel(f, p, outer, fa, s, FineMem(m, s.pc).(flag := 0))
  {
  }

  // ------------------------------------------------------------------ taking over

  lemma {:induction false} RebuiltAt(p: Plan, locals: seq<Word>, n: nat)
    requires n <= |p.names| && Distinct(p.names) && n <= |locals|
    ensures Rebuilt(p, locals, n).Keys == (set i | 0 <= i < n :: p.names[i])
    ensures forall i | 0 <= i < n :: Rebuilt(p, locals, n)[p.names[i]] == locals[i]
  {
    if n > 0 {
      RebuiltAt(p, locals, n - 1);
      assert forall i | 0 <= i < n - 1 :: p.names[i] != p.names[n - 1];
    }
  }

  /** The frame the interpreter resumes in is like the one it would have reached by itself. */
  lemma ResumeLike(f: Function, p: Plan, outer: Env, cert: Cert, s: State, m: Mem)
    requires HandedOver(f, p, outer, cert, s, m) && Distinct(p.names) && p.owned <= |p.names|
    ensures Like(NamesFor(f, p), cert[s.pc].Pass(), s, ResumeState(f, p, m))
  {
    hide Fetch, Boundary, SameBool, CallNames;
    var r := ResumeState(f, p, m);
    RebuiltAt(p, m.locals, p.owned);
    ResumeEnv(p, CallNames(f), outer, cert[s.pc].bound, s.env, m.locals);
  }

  lemma ResumeEnv(p: Plan, hidden: set<string>, outer: Env, bound: set<string>, env: Env, locals: seq<Word>)
    requires SameVars(p.names, p.owned, hidden, env, outer, locals) && Distinct(p.names) && p.owned <= |p.names|
    requires forall n | n in bound :: n in env
    ensures LikeEnv(Names(OwnSet(p), hidden), bound, env, Rebuilt(p, locals, p.owned))
  {
    RebuiltAt(p, locals, p.owned);
    var r := Rebuilt(p, locals, p.owned);
    forall n | n in OwnSet(p) ensures n in r && Lookup(env, n) == Lookup(r, n) {
      var i :| 0 <= i < p.owned && OwnNames(p)[i] == n;
      assert p.names[i] == n;
    }
    forall n | n in r ensures n in OwnSet(p) {
      var i :| 0 <= i < p.owned && p.names[i] == n;
      assert OwnNames(p)[i] == n;
    }
  }

  /** A run ends as its own suffix ends. */
  lemma EndsSuffix(f: Function, host: Host, outer: Env, s: State, j: nat, out: Outcome)
    requires Run(f, host, outer, s, j).Running?
    ensures Ends(f, host, outer, s, out) <==> Ends(f, host, outer, Run(f, host, outer, s, j).state, out)
  {
    hide Run;
    var s' := Run(f, host, outer, s, j).state;
    if Ends(f, host, outer, s, out) {
      var n: nat :| Run(f, host, outer, s, n) == out;
      if n >= j { RunAdd(f, host, outer, s, j, n - j); assert Run(f, host, outer, s', n - j) == out; }
      else { RunLonger(f, host, outer, s, n, j); }
    }
    if Ends(f, host, outer, s', out) {
      var n: nat :| Run(f, host, outer, s', n) == out;
      RunAdd(f, host, outer, s, j, n);
    }
  }

  /** Exact resume: from a deopt 3 the interpreter, started in the frame rebuilt from the native
      registers and locals, ends as the interpretation of the whole call ends. */
  lemma ExactResume(f: Function, p: Plan, host: Host, outer: Env, cert: Cert, s0: State, j: nat, m: Mem, out: Outcome)
    requires Accepts(f, true, p) && Certified(f, OwnNames(p), cert) && p.owned <= |p.names| && Clear(f, p) && NoLeak(f)
    requires Run(f, host, outer, s0, j).Running? && HandedOver(f, p, outer, cert, Run(f, host, outer, s0, j).state, m)
    ensures Ends(f, host, outer, ResumeState(f, p, m), out) <==> Ends(f, host, outer, s0, out)
  {
    hide Run, Accepts, Boundary, Fetch, Like;
    var s := Run(f, host, outer, s0, j).state;
    PlanFacts(f, p);
    ResumeLike(f, p, outer, cert, s, m);
    CertFits(f, OwnNames(p), cert, s.pc);
    EndsSuffix(f, host, outer, s0, j, out);
    var r := ResumeState(f, p, m);
    if Ends(f, host, outer, s, out) {
      var n: nat :| Run(f, host, outer, s, n) == out;
      LikeRun(f, p, host, outer, cert, cert[s.pc].Pass(), s, r, n);
    }
    if Ends(f, host, outer, r, out) {
      var n: nat :| Run(f, host, outer, r, n) == out;
      LikeRun(f, p, host, outer, cert, cert[s.pc].Pass(), s, r, n);
    }
  }

  // ------------------------------------------------------------------ the theorem

  lemma {:induction false} BindKeys(params: seq<string>, args: seq<Word>, n: nat)
    requires Distinct(params) && n <= |params|
    ensures Bind(params, args, n).Keys == set i | 0 <= i < n :: params[i]
    ensures forall i | 0 <= i < n :: Bind(params, args, n)[params[i]] == if i < |args| then args[i] else UNDEFINED
  {
    if n > 0 {
      BindKeys(params, args, n - 1);
      assert forall i | 0 <= i < n - 1 :: params[i] != params[n - 1];
    }
  }

  /** A name past the parameters is none of them. */
  lemma ParamAt(names: seq<string>, params: seq<string>, i: nat)
    requires Distinct(names) && |params| <= |names| && names[..|params|] == params && i < |names|
    ensures if i < |params| then names[i] == params[i] else names[i] !in params
  {
  }

  lemma ParamEnv(params: seq<string>, args: seq<Word>, n: string)
    requires Distinct(params)
    ensures n in Bind(params, args, |params|) <==> n in params
  {
    BindKeys(params, args, |params|);
  }

  lemma ParamValue(params: seq<string>, args: seq<Word>, i: nat)
    requires Distinct(params) && i < |params|
    ensures Lookup(Bind(params, args, |params|), params[i]) == if i < |args| then args[i] else UNDEFINED
  {
    BindKeys(params, args, |params|);
  }

  lemma StartVars(f: Function, p: Plan, host: Host, outer: Env, args: seq<Word>)
    requires Distinct(f.params) && Distinct(p.names) && |f.params| <= p.owned <= |p.names|
    requires p.names[..|f.params|] == f.params
    requires |args| <= |f.params| && Resolves(p, outer) && p.region.boxed && OwnClear(f, p)
    ensures SameVars(p.names, p.owned, CallNames(f), CallEnv(f, host, args), outer, LocalsFor(p, args, outer))
  {
    hide Bind, CallEnv, CallNames;
    var env := CallEnv(f, host, args);
    var n := |f.params|;
    forall i | 0 <= i < p.owned ensures LocalsFor(p, args, outer)[i] == Lookup(env, p.names[i]) {
      assert OwnNames(p)[i] == p.names[i];
      CallEnvAt(f, host, args, p.names[i]);
      ParamAt(p.names, f.params, i);
      if i < n { ParamValue(f.params, args, i); } else { ParamEnv(f.params, args, p.names[i]); }
    }
    forall i | p.owned <= i < |p.names| ensures p.names[i] in outer {
      assert p.names[p.owned..][i - p.owned] == p.names[i];
    }
    forall v | v in env && v !in CallNames(f) ensures v in p.names[..p.owned] {
      CallEnvAt(f, host, args, v);
      ParamEnv(f.params, args, v);
      assert f.params <= p.names[..p.owned];
    }
  }

  lemma StartRelated(f: Function, p: Plan, host: Host, outer: Env, args: seq<Word>, cert: Cert)
    requires Accepts(f, true, p) && Distinct(f.params) && |args| <= |f.params| && Certified(f, OwnNames(p), cert)
    requires p.owned <= |p.names| && Resolves(p, outer) && OwnClear(f, p)
    ensures InSync(f, p, outer, cert, Enter(f, host, args), StartMem(p, args, outer))
  {
    hide Accepts, SameVars, Bind, CallEnv, CallNames;
    PlanFacts(f, p);
    ParamSlots(f, true, p);
    StartVars(f, p, host, outer, args);
    StartBound(f, p, host, args);
    FixedHidden(f);
    RelWeaken(f, p, outer, Given(f), cert[0], Enter(f, host, args), StartMem(p, args, outer));
  }

  /** The parameters are bound. */
  lemma StartBound(f: Function, p: Plan, host: Host, args: seq<Word>)
    requires Distinct(f.params) && |f.params| <= p.owned <= |p.names| && p.names[..|f.params|] == f.params
    requires OwnClear(f, p)
    ensures forall n | n in Given(f).bound :: n in CallEnv(f, host, args)
  {
    hide Bind, CallEnv, CallNames;
    forall n | n in Given(f).bound ensures n in CallEnv(f, host, args) {
      var i :| 0 <= i < |f.params| && f.params[i] == n;
      assert OwnNames(p)[i] == p.names[..|f.params|][i];
      CallEnvAt(f, host, args, n);
      ParamEnv(f.params, args, n);
    }
  }

  lemma FixedHidden(f: Function)
    ensures BindsSelf(f) ==> f.selfName.value in CallNames(f)
  {
  }

  lemma NeverBad(f: Function, p: Plan, host: Host, outer: Env, args: seq<Word>, cert: Cert)
    requires Accepts(f, true, p) && Distinct(f.params) && |args| <= |f.params| && Certified(f, OwnNames(p), cert)
    requires p.owned <= |p.names| && Resolves(p, outer) && HelpersAgree(host)
    requires SafeRun(f, host, outer, Enter(f, host, args)) && Clear(f, p)
    ensures forall k: nat :: !NRun(PlanCtx(p), RtFor(p, host), 0, StartMem(p, args, outer), k).Bad?
  {
    hide Accepts, Certified, NRun, InSync, Run, HelpersAgree, SafeFor;
    StartRelated(f, p, host, outer, args, cert);
    forall k: nat ensures !NRun(PlanCtx(p), RtFor(p, host), 0, StartMem(p, args, outer), k).Bad? {
      var j := LockStep(f, p, host, outer, cert, Enter(f, host, args), StartMem(p, args, outer), k);
    }
  }

  /** What the caller makes of a native exit is how the interpretation of the call ends. */
  lemma ExitMeaning(f: Function, p: Plan, host: Host, outer: Env, args: seq<Word>, cert: Cert, k: nat, out: Outcome)
    requires Accepts(f, true, p) && Distinct(f.params) && |args| <= |f.params| && Certified(f, OwnNames(p), cert)
    requires p.owned <= |p.names| && Resolves(p, outer) && p.region.boxed
    requires NRun(PlanCtx(p), RtFor(p, host), 0, StartMem(p, args, outer), k).Leave?
    requires HelpersAgree(host) && SafeRun(f, host, outer, Enter(f, host, args)) && Clear(f, p) && NoLeak(f)
    ensures var o := NRun(PlanCtx(p), RtFor(p, host), 0, StartMem(p, args, outer), k);
            Finishes(f, host, outer, p, args, o.value, o.m, out) <==> Ends(f, host, outer, Enter(f, host, args), out)
  {
    hide Accepts, Certified, NRun, InSync, Run, ResumeState, HelpersAgree, SafeFor;
    var o := NRun(PlanCtx(p), RtFor(p, host), 0, StartMem(p, args, outer), k);
    var s := Enter(f, host, args);
    StartRelated(f, p, host, outer, args, cert);
    var j := LockStep(f, p, host, outer, cert, s, StartMem(p, args, outer), k);
    if o.m.flag == 0 || o.m.flag == 2 {
      EndsOnce(f, host, outer, s, k, out);
    } else {
      ExactResume(f, p, host, outer, cert, s, j, o.m, out);
    }
  }

  /** A run has one end. */
  lemma EndsOnce(f: Function, host: Host, outer: Env, s: State, k: nat, out: Outcome)
    requires !Run(f, host, outer, s, k).Running?
    ensures Ends(f, host, outer, s, out) <==> out == Run(f, host, outer, s, k)
  {
    hide Run;
    if Ends(f, host, outer, s, out) {
      var n: nat :| Run(f, host, outer, s, n) == out;
      if n <= k { RunLonger(f, host, outer, s, n, k); } else { RunLonger(f, host, outer, s, k, n); }
    }
  }

  /** For every accepted, certified function, any arguments and any behaviour of the rest of the
      engine: if every access of the interpretation is safe, the compiled call and the interpretation
      have exactly the same outcomes, the same value or error after the same events, each performed
      once; and one ends when the other does. `BoxedLaneExact` is the other half. */
  lemma BoxedLaneCorrect(f: Function, p: Plan, host: Host, outer: Env, args: seq<Word>, cert: Cert)
    requires Accepts(f, true, p) && Distinct(f.params) && |args| <= |f.params| && Certified(f, OwnNames(p), cert)
    requires HelpersAgree(host) && SafeRun(f, host, outer, Enter(f, host, args)) && Clear(f, p) && NoLeak(f)
    ensures p.owned <= |p.names|
    ensures forall out :: CallsTo(f, host, outer, p, args, out) <==> Ends(f, host, outer, Enter(f, host, args), out)
  {
    hide Accepts, Certified, Ends, Finishes, NRun, HelpersAgree, SafeRun;
    PlanFacts(f, p);
    if Resolves(p, outer) {
      var rt, m0 := RtFor(p, host), StartMem(p, args, outer);
      NeverBad(f, p, host, outer, args, cert);
      TranslationRefines(p.region, rt, m0);
      forall out ensures CallsTo(f, host, outer, p, args, out) <==> Ends(f, host, outer, Enter(f, host, args), out) {
        if CallsTo(f, host, outer, p, args, out) {
          CallEnds(f, p, host, outer, args, cert, out);
        }
        if Ends(f, host, outer, Enter(f, host, args), out) {
          EndsCall(f, p, host, outer, args, cert, out);
        }
      }
    }
  }

  lemma CallEnds(f: Function, p: Plan, host: Host, outer: Env, args: seq<Word>, cert: Cert, out: Outcome)
    requires Accepts(f, true, p) && Distinct(f.params) && |args| <= |f.params| && Certified(f, OwnNames(p), cert)
    requires p.owned <= |p.names| && Resolves(p, outer) && CallsTo(f, host, outer, p, args, out)
    requires HelpersAgree(host) && SafeRun(f, host, outer, Enter(f, host, args)) && Clear(f, p) && NoLeak(f)
    ensures Ends(f, host, outer, Enter(f, host, args), out)
  {
    hide Accepts, Certified, Ends, Finishes, NRun, Returns, HelpersAgree, SafeRun;
    PlanFacts(f, p);
    var rt, m0 := RtFor(p, host), StartMem(p, args, outer);
    var w, m :| Returns(p.native, rt, m0, w, m) && Finishes(f, host, outer, p, args, w, m, out);
    NeverBad(f, p, host, outer, args, cert);
    TranslationRefines(p.region, rt, m0);
    assert Leaves(PlanCtx(p), rt, m0, w, m);
    var k: nat :| NRun(PlanCtx(p), rt, 0, m0, k) == Leave(w, m);
    ExitMeaning(f, p, host, outer, args, cert, k, out);
  }

  lemma EndsCall(f: Function, p: Plan, host: Host, outer: Env, args: seq<Word>, cert: Cert, out: Outcome)
    requires Accepts(f, true, p) && Distinct(f.params) && |args| <= |f.params| && Certified(f, OwnNames(p), cert)
    requires p.owned <= |p.names| && Resolves(p, outer) && Ends(f, host, outer, Enter(f, host, args), out)
    requires HelpersAgree(host) && SafeRun(f, host, outer, Enter(f, host, args)) && Clear(f, p) && NoLeak(f)
    ensures CallsTo(f, host, outer, p, args, out)
  {
    hide Accepts, Certified, Finishes, NRun, Returns, InSync, Run, HelpersAgree, SafeFor;
    PlanFacts(f, p);
    var rt, m0, s := RtFor(p, host), StartMem(p, args, outer), Enter(f, host, args);
    var n: nat :| Run(f, host, outer, s, n) == out;
    StartRelated(f, p, host, outer, args, cert);
    var j := LockStep(f, p, host, outer, cert, s, m0, n);
    var o := NRun(PlanCtx(p), rt, 0, m0, n);
    NeverBad(f, p, host, outer, args, cert);
    TranslationRefines(p.region, rt, m0);
    assert Leaves(PlanCtx(p), rt, m0, o.value, o.m);
    ExitMeaning(f, p, host, outer, args, cert, n, out);
    assert Returns(p.native, rt, m0, o.value, o.m) && Finishes(f, host, outer, p, args, o.value, o.m, out);
  }

  // ------------------------------------------------------------------ and only then

  predicate PrivateKey(n: string) { |n| > 0 && n[0] == '#' }

  /** No instruction of the function names a private element. */
  ghost predicate NoPrivate(f: Function)
  {
    forall pc: nat :: Boundary(f.code, 0, pc) && Whole(f.code, pc) ==>
      match Fetch(f.code, pc)
      case GetProp(_, _, k) => !PrivateKey(NameOf(f, k))
      case SetProp(_, k, _) => !PrivateKey(NameOf(f, k))
      case _ => true
  }

  /** Interpretation stays on the starts of instructions. */
  lemma {:induction false} RunBoundary(f: Function, p: Plan, host: Host, outer: Env, s: State, n: nat)
    requires Accepts(f, true, p) && Boundary(f.code, 0, s.pc) && s.pc <= |f.code|
    requires Run(f, host, outer, s, n).Running?
    ensures Boundary(f.code, 0, Run(f, host, outer, s, n).state.pc)
    decreases n
  {
    hide Accepts, Step, Boundary;
    if n > 0 {
      if s.pc == |f.code| { EndStops(f, host, outer, s); }
      Gated(f, p, s.pc);
      StepSucc(f, host, outer, s);
      RunBoundary(f, p, host, outer, Step(f, host, outer, s).state, n - 1);
    }
  }

  lemma EndStops(f: Function, host: Host, outer: Env, s: State)
    requires s.pc == |f.code|
    ensures !Step(f, host, outer, s).Running?
  {
  }

  lemma PublicAccess(f: Function, s: State)
    requires NoPrivate(f) && Boundary(f.code, 0, s.pc) && Whole(f.code, s.pc) && Accessed(f, s).Some?
    ensures !IsPrivate(Accessed(f, s).value)
  {
    hide Boundary, GetReg;
    match Fetch(f.code, s.pc)
    case Call(base, nargs, _) => CallIs(s.regs, base, nargs);
    case _ =>
  }

  /** A run that meets an unsafe access ends there, in an error. */
  lemma UnsafeRunThrows(f: Function, p: Plan, host: Host, outer: Env, s: State, out: Outcome)
    requires Accepts(f, true, p) && NoPrivate(f) && s.pc == 0
    requires !SafeRun(f, host, outer, s) && Ends(f, host, outer, s, out)
    ensures out.Threw?
  {
    hide Accepts, NoPrivate, Run, Step, SafeAt, Boundary;
    var k: nat :| !SafeFor(f, host, outer, s, k);
    var n: nat :| n < k && Run(f, host, outer, s, n).Running? && !SafeAt(f, host, Run(f, host, outer, s, n).state);
    var t := Run(f, host, outer, s, n).state;
    StartsAtBoundary(f.code);
    RunBoundary(f, p, host, outer, s, n);
    NeedsSafety(f, host, t);
    PublicAccess(f, t);
    UnsafeThrows(f, host, outer, t);
    RunAdd(f, host, outer, s, n, 1);
    OneStep(f, host, outer, t);
    EndsOnce(f, host, outer, s, n + 1, out);
  }

  lemma StartsAtBoundary(c: Code)
    ensures Boundary(c, 0, 0)
  {
  }

  lemma NeedsSafety(f: Function, host: Host, s: State)
    requires !SafeAt(f, host, s)
    ensures Whole(f.code, s.pc) && Accessed(f, s).Some?
  {
  }

  lemma OneStep(f: Function, host: Host, outer: Env, s: State)
    ensures Run(f, host, outer, s, 1) == Step(f, host, outer, s)
  {
    hide Step;
    match Step(f, host, outer, s)
    case Running(s') => assert Run(f, host, outer, s', 0) == Running(s');
    case _ =>
  }

  /** For every accepted, certified function without private names, any arguments and any behaviour of
      the rest of the engine: a compiled call that returns a value has the outcome of the interpretation
      if and only if every access of the interpretation is safe. */
  lemma BoxedLaneExact(f: Function, p: Plan, host: Host, outer: Env, args: seq<Word>, cert: Cert, out: Outcome)
    requires Accepts(f, true, p) && Distinct(f.params) && |args| <= |f.params| && Certified(f, OwnNames(p), cert)
    requires HelpersAgree(host) && NoPrivate(f) && Clear(f, p) && NoLeak(f)
    requires p.owned <= |p.names| && CallsTo(f, host, outer, p, args, out) && out.Returned?
    ensures Ends(f, host, outer, Enter(f, host, args), out) <==> SafeRun(f, host, outer, Enter(f, host, args))
  {
    hide Accepts, Certified, HelpersAgree, NoPrivate, Clear, NoLeak, CallsTo, Ends, SafeRun;
    var s := Enter(f, host, args);
    if SafeRun(f, host, outer, s) {
      BoxedLaneCorrect(f, p, host, outer, args, cert);
    } else if Ends(f, host, outer, s, out) {
      UnsafeRunThrows(f, p, host, outer, s, out);
    }
  }
}
