/** Annex B function hoisting (section B.3.3 of ECMA-262): which block-level function declarations
    also get a variable of the enclosing function (src/bytecode/compiler.zig). */
module AnnexB {

  /** Statements, as far as the walk looks at them. A declaration carries its identity; the bodies of
      all cases of a switch are one list. */
  datatype Stmt =
    | Fun(id: nat, name: string, special: bool)
    | Declare(lexical: bool, name: string)
    | Block(scope: bool, body: seq<Stmt>)
    | If(clauses: seq<Stmt>)
    | Loop(inner: Stmt)
    | For(head: seq<Stmt>, inner: Stmt)
    | ForIn(left: Stmt, inner: Stmt)
    | Try(parts: seq<Stmt>)
    | Switch(body: seq<Stmt>)
    | Label(inner: Stmt)
    | Other

  type Names = set<string>

  // ------------------------------------------------------------------ binders

  /** The `let`, `const` and class names a statement declares in the scope around it. */
  function Lexical(s: Stmt): Names
    decreases s, 1
  {
    match s
    case Declare(lexical, n) => if lexical then {n} else {}
    case Block(scope, body) => if scope then {} else LexicalAll(body)
    case If(clauses) => LexicalAll(clauses)
    case Loop(inner) => Lexical(inner)
    case For(_, inner) => Lexical(inner)
    case ForIn(_, inner) => Lexical(inner)
    case Try(parts) => LexicalAll(parts)
    case Label(inner) => Lexical(inner)
    case _ => {}
  }

  function LexicalAll(ss: seq<Stmt>): Names
    decreases ss, 0
  {
    if |ss| == 0 then {} else Lexical(ss[0]) + LexicalAll(ss[1..])
  }

  /** The statements inside a statement that share the scope around it. */
  function SameScope(s: Stmt): seq<Stmt>
  {
    match s
    case Block(scope, body) => if scope then [] else body
    case If(clauses) => clauses
    case Loop(inner) => [inner]
    case For(_, inner) => [inner]
    case ForIn(_, inner) => [inner]
    case Try(parts) => parts
    case Label(inner) => [inner]
    case _ => []
  }

  /** Steps down that stay in the scope lead from `s` to a `let`, `const` or class named `n`. */
  predicate DeclaresAt(s: Stmt, path: seq<nat>, n: string)
    decreases |path|
  {
    if |path| == 0 then s.Declare? && s.lexical && s.name == n
    else path[0] < |SameScope(s)| && DeclaresAt(SameScope(s)[path[0]], path[1..], n)
  }

  /** The lexical names of a statement are those declared somewhere in its scope. */
  lemma LexicalIsDeclared(s: Stmt, n: string)
    ensures n in Lexical(s) ==> exists path :: DeclaresAt(s, path, n)
    ensures forall path | DeclaresAt(s, path, n) :: n in Lexical(s)
  {
    if n in Lexical(s) { var path := DeclaredPath(s, n); }
    forall path | DeclaresAt(s, path, n) ensures n in Lexical(s) { PathDeclared(s, path, n); }
  }

  lemma {:induction false} DeclaredPath(s: Stmt, n: string) returns (path: seq<nat>)
    requires n in Lexical(s)
    ensures DeclaresAt(s, path, n)
    decreases s
  {
    LexicalSteps(s, n);
    path := [];
    if !(s.Declare? && s.lexical && s.name == n) {
      var i: nat :| Has(SameScope(s), i, n);
      var rest := DeclaredPath(SameScope(s)[i], n);
      path := [i] + rest;
      assert path[1..] == rest;
    }
  }

  lemma {:induction false} PathDeclared(s: Stmt, path: seq<nat>, n: string)
    requires DeclaresAt(s, path, n)
    ensures n in Lexical(s)
    decreases |path|
  {
    LexicalSteps(s, n);
    if |path| > 0 {
      PathDeclared(SameScope(s)[path[0]], path[1..], n);
      assert Has(SameScope(s), path[0], n);
    }
  }

  /** The statement at `i` has the lexical name `n`. */
  predicate Has(ss: seq<Stmt>, i: nat, n: string) { i < |ss| && n in Lexical(ss[i]) }

  /** A name is declared by the statement itself or by one inside it. */
  lemma LexicalSteps(s: Stmt, n: string)
    ensures n in Lexical(s) <==>
            (s.Declare? && s.lexical && s.name == n) || exists i: nat :: Has(SameScope(s), i, n)
  {
    var parts := SameScope(s);
    match s
    case Block(scope, body) => InLexicalAll(body, n); InLexicalAll([], n);
    case If(clauses) => InLexicalAll(clauses, n);
    case Try(parts) => InLexicalAll(parts, n);
    case Loop(inner) => OneHas(inner, n);
    case For(_, inner) => OneHas(inner, n);
    case ForIn(_, inner) => OneHas(inner, n);
    case Label(inner) => OneHas(inner, n);
    case _ =>
  }

  lemma OneHas(inner: Stmt, n: string)
    ensures (exists i: nat :: Has([inner], i, n)) <==> n in Lexical(inner)
  {
    assert [inner][0] == inner;
    assert Has([inner], 0, n) <==> n in Lexical(inner);
  }

  lemma {:induction false} InLexicalAll(ss: seq<Stmt>, n: string)
    ensures n in LexicalAll(ss) <==> exists i: nat :: Has(ss, i, n)
    decreases |ss|
  {
    if |ss| > 0 {
      InLexicalAll(ss[1..], n);
      assert Has(ss, 0, n) <==> n in Lexical(ss[0]);
      if i: nat :| Has(ss[1..], i, n) { assert Has(ss, i + 1, n); }
      if i: nat :| Has(ss, i, n) && i > 0 { assert Has(ss[1..], i - 1, n); }
    }
  }

  function FunNames(ss: seq<Stmt>): Names { set s | s in ss && s.Fun? :: s.name }

  /** A step down: the child, the names the step binds on the way, and whether it is a nesting. */
  datatype Step = Step(child: Stmt, binds: Names, nests: bool)

  /** Everything directly inside a statement. A block's own functions are bound for what is nested
      deeper, not for each other. */
  function Inside(s: Stmt): seq<Step>
  {
    match s
    case Block(scope, body) =>
      seq(|body|, i requires 0 <= i < |body| =>
        if !scope then Step(body[i], {}, false)
        else Step(body[i], LexicalAll(body) + (if body[i].Fun? then {} else FunNames(body)), true))
    case If(clauses) => seq(|clauses|, i requires 0 <= i < |clauses| => Step(clauses[i], {}, true))
    case Loop(inner) => [Step(inner, {}, true)]
    case For(head, inner) => [Step(inner, LexicalAll(head), true)]
    case ForIn(left, inner) => [Step(inner, Lexical(left), true)]
    case Try(parts) => seq(|parts|, i requires 0 <= i < |parts| => Step(parts[i], {}, false))
    case Switch(body) => seq(|body|, i requires 0 <= i < |body| => Step(body[i], LexicalAll(body), true))
    case Label(inner) => [Step(inner, {}, false)]
    case _ => []
  }

  // ------------------------------------------------------------------ the definition by paths

  /** A path names one child after another, from the scope root to a declaration. */
  type Path = seq<nat>

  /** Following `path` from `s` arrives at `d`. */
  predicate Arrives(s: Stmt, path: Path, d: Stmt)
    decreases |path|
  {
    if |path| == 0 then s == d
    else path[0] < |Inside(s)| && Arrives(Inside(s)[path[0]].child, path[1..], d)
  }

  /** The names bound on the way. */
  function Binders(s: Stmt, path: Path): Names
    decreases |path|
  {
    if |path| == 0 || path[0] >= |Inside(s)| then {}
    else Inside(s)[path[0]].binds + Binders(Inside(s)[path[0]].child, path[1..])
  }

  predicate Nests(s: Stmt, path: Path)
    decreases |path|
  {
    |path| > 0 && path[0] < |Inside(s)| && (Inside(s)[path[0]].nests || Nests(Inside(s)[path[0]].child, path[1..]))
  }

  /** `d` is a plain function declaration that some path reaches by at least one nesting (or from an
      already nested root) and without meeting a binder of its name. */
  ghost predicate Eligible(s: Stmt, blocked: Names, nested: bool, d: Stmt)
  {
    d.Fun? && !d.special && exists path ::
        Arrives(s, path, d) && (nested || Nests(s, path)) && d.name !in blocked + Binders(s, path)
  }

  // ------------------------------------------------------------------ the walk

  /** The declarations the walk records, in its order. */
  function Walk(s: Stmt, blocked: Names, nested: bool): seq<Stmt>
    decreases s, 2
  {
    match s
    case Fun(_, name, special) => if nested && !special && name !in blocked then [s] else []
    case Block(scope, body) =>
      if !scope then WalkAll(body, blocked, nested)
      else WalkFuns(body, blocked + LexicalAll(body)) + WalkRest(body, blocked + LexicalAll(body) + FunNames(body))
    case If(clauses) => WalkAll(clauses, blocked, true)
    case Loop(inner) => Walk(inner, blocked, true)
    case For(head, inner) => Walk(inner, blocked + LexicalAll(head), true)
    case ForIn(left, inner) => Walk(inner, blocked + Lexical(left), true)
    case Try(parts) => WalkAll(parts, blocked, nested)
    case Switch(body) => WalkAll(body, blocked + LexicalAll(body), true)
    case Label(inner) => Walk(inner, blocked, nested)
    case _ => []
  }

  function WalkAll(ss: seq<Stmt>, blocked: Names, nested: bool): seq<Stmt>
    decreases ss, 0
  {
    if |ss| == 0 then [] else Walk(ss[0], blocked, nested) + WalkAll(ss[1..], blocked, nested)
  }

  /** A block's functions first. */
  function WalkFuns(ss: seq<Stmt>, blocked: Names): seq<Stmt>
    decreases ss, 0
  {
    if |ss| == 0 then [] else (if ss[0].Fun? then Walk(ss[0], blocked, true) else []) + WalkFuns(ss[1..], blocked)
  }

  function WalkRest(ss: seq<Stmt>, blocked: Names): seq<Stmt>
    decreases ss, 0
  {
    if |ss| == 0 then [] else (if ss[0].Fun? then [] else Walk(ss[0], blocked, true)) + WalkRest(ss[1..], blocked)
  }

  // ------------------------------------------------------------------ the walk is the definition

  lemma {:induction false} InAll(ss: seq<Stmt>, blocked: Names, nested: bool, d: Stmt)
    ensures d in WalkAll(ss, blocked, nested) <==> exists i :: 0 <= i < |ss| && d in Walk(ss[i], blocked, nested)
    decreases |ss|
  {
    hide Walk;
    if |ss| > 0 {
      InAll(ss[1..], blocked, nested, d);
      Split(ss, d, (s: Stmt) => d in Walk(s, blocked, nested));
    }
  }

  lemma {:induction false} InFuns(ss: seq<Stmt>, blocked: Names, d: Stmt)
    ensures d in WalkFuns(ss, blocked) <==> exists i :: 0 <= i < |ss| && ss[i].Fun? && d in Walk(ss[i], blocked, true)
    decreases |ss|
  {
    hide Walk;
    if |ss| > 0 {
      InFuns(ss[1..], blocked, d);
      Split(ss, d, (s: Stmt) => s.Fun? && d in Walk(s, blocked, true));
    }
  }

  lemma {:induction false} InRest(ss: seq<Stmt>, blocked: Names, d: Stmt)
    ensures d in WalkRest(ss, blocked) <==> exists i :: 0 <= i < |ss| && !ss[i].Fun? && d in Walk(ss[i], blocked, true)
    decreases |ss|
  {
    hide Walk;
    if |ss| > 0 {
      InRest(ss[1..], blocked, d);
      Split(ss, d, (s: Stmt) => !s.Fun? && d in Walk(s, blocked, true));
    }
  }

  /** Some element satisfies `p`: the first, or one of the others. */
  lemma Split(ss: seq<Stmt>, d: Stmt, p: Stmt -> bool)
    requires |ss| > 0
    ensures (exists i :: 0 <= i < |ss| && p(ss[i])) <==> p(ss[0]) || exists i :: 0 <= i < |ss[1..]| && p(ss[1..][i])
  {
    if i :| 0 <= i < |ss| && p(ss[i]) && i > 0 { assert ss[1..][i - 1] == ss[i]; }
    if i :| 0 <= i < |ss[1..]| && p(ss[1..][i]) { assert ss[i + 1] == ss[1..][i]; }
  }

  /** What the walk records is recorded in one of the steps down. */
  ghost predicate InStep(s: Stmt, blocked: Names, nested: bool, d: Stmt, i: nat)
  {
    i < |Inside(s)| && var t := Inside(s)[i]; d in Walk(t.child, blocked + t.binds, nested || t.nests)
  }

  lemma WalkSteps(s: Stmt, blocked: Names, nested: bool, d: Stmt)
    requires !s.Fun?
    ensures d in Walk(s, blocked, nested) <==> exists i: nat :: InStep(s, blocked, nested, d, i)
  {
    hide WalkAll, WalkFuns, WalkRest, Lexical, LexicalAll, FunNames;
    assert blocked + {} == blocked;
    match s
    case Block(scope, body) =>
      if scope { BlockSteps(s, blocked, nested, d); } else { ListSteps(s, body, blocked, blocked, nested, nested, d); }
    case If(clauses) => ListSteps(s, clauses, blocked, blocked, nested, true, d);
    case Try(parts) => ListSteps(s, parts, blocked, blocked, nested, nested, d);
    case Switch(body) => ListSteps(s, body, blocked, blocked + LexicalAll(body), nested, true, d);
    case Loop(inner) => OneStep(s, blocked, nested, d);
    case For(head, inner) => OneStep(s, blocked, nested, d);
    case ForIn(left, inner) => OneStep(s, blocked, nested, d);
    case Label(inner) => OneStep(s, blocked, nested, d);
    case _ => NoStep(s, blocked, nested, d);
  }

  lemma OneStep(s: Stmt, blocked: Names, nested: bool, d: Stmt)
    requires |Inside(s)| == 1
    ensures (exists i: nat :: InStep(s, blocked, nested, d, i)) <==>
            var t := Inside(s)[0]; d in Walk(t.child, blocked + t.binds, nested || t.nests)
  {
    hide Walk;
    assert InStep(s, blocked, nested, d, 0) <==> var t := Inside(s)[0];
    d in Walk(t.child, blocked + t.binds, nested || t.nests);
  }

  lemma NoStep(s: Stmt, blocked: Names, nested: bool, d: Stmt)
    requires |Inside(s)| == 0
    ensures !exists i: nat :: InStep(s, blocked, nested, d, i)
  {
  }

  /** A list of children walked alike. */
  lemma ListSteps(s: Stmt, ss: seq<Stmt>, blocked: Names, inner: Names, nested: bool, deep: bool, d: Stmt)
    requires |Inside(s)| == |ss|
    requires forall i | 0 <= i < |ss| ::
      Inside(s)[i].child == ss[i] && blocked + Inside(s)[i].binds == inner && deep == (nested || Inside(s)[i].nests)
    ensures d in WalkAll(ss, inner, deep) <==> exists i: nat :: InStep(s, blocked, nested, d, i)
  {
    hide Walk, WalkAll;
    InAll(ss, inner, deep, d);
    if i: nat :| InStep(s, blocked, nested, d, i) { assert d in Walk(ss[i], inner, deep); }
    if d in WalkAll(ss, inner, deep) {
      var i :| 0 <= i < |ss| && d in Walk(ss[i], inner, deep);
      assert InStep(s, blocked, nested, d, i);
    }
  }

  lemma BlockSteps(s: Stmt, blocked: Names, nested: bool, d: Stmt)
    requires s.Block? && s.scope
    ensures d in Walk(s, blocked, nested) <==> exists i: nat :: InStep(s, blocked, nested, d, i)
  {
    hide WalkFuns, WalkRest, LexicalAll, FunNames;
    var lex := blocked + LexicalAll(s.body);
    var all := lex + FunNames(s.body);
    assert Walk(s, blocked, nested) == WalkFuns(s.body, lex) + WalkRest(s.body, all);
    hide Walk;
    InFuns(s.body, lex, d);
    InRest(s.body, all, d);
    forall i | 0 <= i < |s.body|
      ensures InStep(s, blocked, nested, d, i) <==> d in Walk(s.body[i], if s.body[i].Fun? then lex else all, true)
    {
      assert blocked + Inside(s)[i].binds == if s.body[i].Fun? then lex else all;
    }
    if i: nat :| InStep(s, blocked, nested, d, i) { assert 0 <= i < |s.body|; }
    if d in WalkFuns(s.body, lex) {
      var i :| 0 <= i < |s.body| && s.body[i].Fun? && d in Walk(s.body[i], lex, true);
      assert InStep(s, blocked, nested, d, i);
    }
    if d in WalkRest(s.body, all) {
      var i :| 0 <= i < |s.body| && !s.body[i].Fun? && d in Walk(s.body[i], all, true);
      assert InStep(s, blocked, nested, d, i);
    }
  }

  lemma ChildSmaller(s: Stmt, i: nat)
    requires i < |Inside(s)|
    ensures Inside(s)[i].child < s
  {
  }

  /** Refinement: for every statement, blocked names and nesting, the walk records a declaration exactly
      when some path to it meets no binder of its name. */
  lemma {:induction false} WalkIsEligible(s: Stmt, blocked: Names, nested: bool, d: Stmt)
    ensures d in Walk(s, blocked, nested) <==> Eligible(s, blocked, nested, d)
    decreases s
  {
    hide Walk, Eligible, Inside;
    if s.Fun? {
      FunEligible(s, blocked, nested, d);
    } else {
      WalkSteps(s, blocked, nested, d);
      if i: nat :| InStep(s, blocked, nested, d, i) {
        var t := Inside(s)[i];
        ChildSmaller(s, i);
        WalkIsEligible(t.child, blocked + t.binds, nested || t.nests, d);
        EligibleUp(s, blocked, nested, d, i);
      }
      if Eligible(s, blocked, nested, d) {
        var i := EligibleDown(s, blocked, nested, d);
        var t := Inside(s)[i];
        ChildSmaller(s, i);
        WalkIsEligible(t.child, blocked + t.binds, nested || t.nests, d);
        assert InStep(s, blocked, nested, d, i);
      }
    }
  }

  lemma FunEligible(s: Stmt, blocked: Names, nested: bool, d: Stmt)
    requires s.Fun?
    ensures d in Walk(s, blocked, nested) <==> Eligible(s, blocked, nested, d)
  {
    if d in Walk(s, blocked, nested) {
      assert Arrives(s, [], d) && Binders(s, []) == {} && d.name !in blocked + Binders(s, []);
    }
    if Eligible(s, blocked, nested, d) {
      var path :| Arrives(s, path, d) && (nested || Nests(s, path)) && d.name !in blocked + Binders(s, path);
    }
  }

  lemma EligibleUp(s: Stmt, blocked: Names, nested: bool, d: Stmt, i: nat)
    requires i < |Inside(s)|
    requires Eligible(Inside(s)[i].child, blocked + Inside(s)[i].binds, nested || Inside(s)[i].nests, d)
    ensures Eligible(s, blocked, nested, d)
  {
    hide Inside;
    var t := Inside(s)[i];
    var path :| Arrives(t.child, path, d) && (nested || t.nests || Nests(t.child, path))
        && d.name !in blocked + t.binds + Binders(t.child, path);
    var p := [i] + path;
    assert p[1..] == path;
    assert Arrives(s, p, d) && (nested || Nests(s, p)) && d.name !in blocked + Binders(s, p);
  }

  lemma EligibleDown(s: Stmt, blocked: Names, nested: bool, d: Stmt) returns (i: nat)
    requires !s.Fun? && Eligible(s, blocked, nested, d)
    ensures i < |Inside(s)| && Eligible(Inside(s)[i].child, blocked + Inside(s)[i].binds,
            nested || Inside(s)[i].nests, d)
  {
    hide Inside;
    var path :| Arrives(s, path, d) && (nested || Nests(s, path)) && d.name !in blocked + Binders(s, path);
    i := path[0];
    var t := Inside(s)[i];
    assert Arrives(t.child, path[1..], d) && (nested || t.nests || Nests(t.child, path[1..]))
        && d.name !in blocked + t.binds + Binders(t.child, path[1..]);
  }

  /** What is recorded is a plain function declaration whose name is not blocked. */
  lemma WalkUnblocked(s: Stmt, blocked: Names, nested: bool, d: Stmt)
    requires d in Walk(s, blocked, nested)
    ensures d.Fun? && !d.special && d.name !in blocked
  {
    hide Walk;
    WalkIsEligible(s, blocked, nested, d);
  }

  /** Some statement of the list is a `let`, `const` or class named `n`, or a function of that name. */
  predicate Binds(body: seq<Stmt>, n: string) { exists t :: t in body && t.Declare? && t.lexical && t.name == n }
  predicate HasFunction(body: seq<Stmt>, n: string) { exists t :: t in body && t.Fun? && t.name == n }

  lemma BindsLexical(body: seq<Stmt>, n: string)
    requires Binds(body, n)
    ensures n in LexicalAll(body)
  {
    var t :| t in body && t.Declare? && t.lexical && t.name == n;
    var i: nat :| i < |body| && body[i] == t;
    InLexicalAll(body, n);
    assert Has(body, i, n);
  }

  /** A block shadows: nothing recorded in it has the name of one of its `let`s; nor, unless it is one of
      the block's own functions, the name of one of these. */
  lemma BlockShadows(body: seq<Stmt>, blocked: Names, nested: bool, d: Stmt)
    requires d.Fun? && d in Walk(Block(true, body), blocked, nested)
    ensures !Binds(body, d.name) && (d !in body ==> !HasFunction(body, d.name))
  {
    hide Walk, Binds;
    var lex := blocked + LexicalAll(body);
    var all := lex + FunNames(body);
    BlockWalk(body, blocked, nested);
    InFuns(body, lex, d);
    InRest(body, all, d);
    if i :| 0 <= i < |body| && body[i].Fun? && d in Walk(body[i], lex, true) {
      WalkUnblocked(body[i], lex, true, d);
      FunOnly(body[i], lex, d);
    } else {
      var i :| 0 <= i < |body| && !body[i].Fun? && d in Walk(body[i], all, true);
      WalkUnblocked(body[i], all, true, d);
    }
    if Binds(body, d.name) { BindsLexical(body, d.name); }
  }

  lemma BlockWalk(body: seq<Stmt>, blocked: Names, nested: bool)
    ensures Walk(Block(true, body), blocked, nested)
            == WalkFuns(body, blocked + LexicalAll(body)) + WalkRest(body, blocked + LexicalAll(body) + FunNames(body))
  {
    hide WalkFuns, WalkRest, LexicalAll, FunNames;
  }

  lemma FunOnly(s: Stmt, blocked: Names, d: Stmt)
    requires s.Fun? && d in Walk(s, blocked, true)
    ensures d == s
  {
  }

  /** So do the cases of a switch and the head of a loop. */
  lemma HeadsShadow(head: seq<Stmt>, left: Stmt, inner: Stmt, blocked: Names, nested: bool, d: Stmt)
    requires d.Fun?
    ensures d in Walk(Switch(head), blocked, nested) ==> !Binds(head, d.name)
    ensures d in Walk(For(head, inner), blocked, nested) ==> !Binds(head, d.name)
    ensures d in Walk(ForIn(left, inner), blocked, nested) && left.Declare? && left.lexical ==> d.name != left.name
  {
    hide Walk, Binds;
    HeadWalks(head, left, inner, blocked, nested);
    if d in Walk(Switch(head), blocked, nested) {
      InAll(head, blocked + LexicalAll(head), true, d);
      var i :| 0 <= i < |head| && d in Walk(head[i], blocked + LexicalAll(head), true);
      WalkUnblocked(head[i], blocked + LexicalAll(head), true, d);
    }
    if d in Walk(For(head, inner), blocked, nested) { WalkUnblocked(inner, blocked + LexicalAll(head), true, d); }
    if d in Walk(ForIn(left, inner), blocked, nested) { WalkUnblocked(inner, blocked + Lexical(left), true, d); }
    if Binds(head, d.name) { BindsLexical(head, d.name); }
  }

  lemma HeadWalks(head: seq<Stmt>, left: Stmt, inner: Stmt, blocked: Names, nested: bool)
    ensures Walk(Switch(head), blocked, nested) == WalkAll(head, blocked + LexicalAll(head), true)
    ensures Walk(For(head, inner), blocked, nested) == Walk(inner, blocked + LexicalAll(head), true)
    ensures Walk(ForIn(left, inner), blocked, nested) == Walk(inner, blocked + Lexical(left), true)
  {
    hide WalkAll, LexicalAll, Lexical;
  }

  // ------------------------------------------------------------------ the walk as it is written

  function AddName(list: seq<string>, n: string): seq<string> { if n in list then list else list + [n] }

  function NamesOf(ss: seq<Stmt>, list: seq<string>): seq<string>
    decreases |ss|
  {
    if |ss| == 0 then list else NamesOf(ss[1..], if ss[0].Fun? then AddName(list, ss[0].name) else list)
  }

  function SetOf(list: seq<string>): Names { set n | n in list }

  lemma {:induction false} NamesAppend(a: seq<Stmt>, b: seq<Stmt>, list: seq<string>)
    ensures NamesOf(a + b, list) == NamesOf(b, NamesOf(a, list))
    decreases |a|
  {
    if |a| == 0 { assert a + b == b; }
    else {
      assert (a + b)[1..] == a[1..] + b;
      NamesAppend(a[1..], b, if a[0].Fun? then AddName(list, a[0].name) else list);
    }
  }

  /** The names to hoist are the names of the recorded sites, each once. */
  lemma {:induction false} NamesAreSites(ss: seq<Stmt>, list: seq<string>)
    ensures forall n ::
            n in NamesOf(ss, list) <==> n in list || exists i :: 0 <= i < |ss| && ss[i].Fun? && ss[i].name == n
    ensures (forall i, j | 0 <= i < j < |list| :: list[i] != list[j]) ==>
              forall i, j | 0 <= i < j < |NamesOf(ss, list)| :: NamesOf(ss, list)[i] != NamesOf(ss, list)[j]
    decreases |ss|
  {
    if |ss| > 0 {
      var list' := if ss[0].Fun? then AddName(list, ss[0].name) else list;
      NamesAreSites(ss[1..], list');
      var rest := ss[1..];
      assert forall i | 0 <= i < |rest| :: rest[i] == ss[i + 1];
      forall n ensures n in NamesOf(ss, list) <==>
          n in list || exists i :: 0 <= i < |ss| && ss[i].Fun? && ss[i].name == n {
        if i :| 0 <= i < |ss| && ss[i].Fun? && ss[i].name == n && i > 0 { assert rest[i - 1].name == n; }
      }
    }
  }

  class Walker {
    var blocked: seq<string>
    var out: seq<string>
    var sites: seq<Stmt>

    constructor (params: seq<string>)
      ensures blocked == params && out == [] && sites == []
    {
      blocked, out, sites := params, [], [];
    }

    /** `addHoistName` on the blocked names. */
    method AddBlocked(n: string)
      modifies this`blocked
      ensures old(blocked) <= blocked && SetOf(blocked) == SetOf(old(blocked)) + {n}
    {
      for i := 0 to |blocked|
        invariant blocked == old(blocked) && n !in blocked[..i]
      {
        if blocked[i] == n { return; }
      }
      assert blocked[..|blocked|] == blocked;
      blocked := blocked + [n];
    }

    /** `collectLexicalNames` into the blocked names. */
    method CollectLexical(s: Stmt)
      modifies this`blocked
      ensures old(blocked) <= blocked && SetOf(blocked) == SetOf(old(blocked)) + Lexical(s)
      decreases s, 1
    {
      hide SetOf;
      match s
      case Declare(lexical, n) => if lexical { AddBlocked(n); }
      case Block(scope, body) => if !scope { CollectLexicals(body); }
      case If(clauses) => CollectLexicals(clauses);
      case Loop(inner) => CollectLexical(inner);
      case For(_, inner) => CollectLexical(inner);
      case ForIn(_, inner) => CollectLexical(inner);
      case Try(parts) => CollectLexicals(parts);
      case Label(inner) => CollectLexical(inner);
      case _ =>
    }

    method CollectLexicals(ss: seq<Stmt>)
      modifies this`blocked
      ensures old(blocked) <= blocked && SetOf(blocked) == SetOf(old(blocked)) + LexicalAll(ss)
      decreases ss, 0
    {
      hide SetOf, Lexical;
      NoLexical(ss);
      for i := 0 to |ss|
        invariant old(blocked) <= blocked && SetOf(blocked) == SetOf(old(blocked)) + LexicalAll(ss[..i])
      {
        LexicalSnoc(ss, i);
        CollectLexical(ss[i]);
      }
      assert ss[..|ss|] == ss;
    }

    /** What a walk leaves behind: the blocked names as they were, the recorded sites and names added. */
    twostate predicate Walked(found: seq<Stmt>)
      reads this
    {
      blocked == old(blocked) && sites == old(sites) + found && out == NamesOf(found, old(out))
    }

    /** `collectAnnexBNames` */
    method Collect(s: Stmt, nested: bool)
      modifies this
      ensures Walked(Walk(s, SetOf(old(blocked)), nested))
      decreases s, 2
    {
      hide LexicalAll, Lexical, WalkAll, WalkFuns, WalkRest, FunNames;
      ghost var b0 := SetOf(blocked);
      var mark := |blocked|;
      match s
      case Fun(_, name, special) =>
        assert sites + [] == sites;
        if !nested || special { return; }
        for i := 0 to |blocked|
          invariant name !in blocked[..i] && Walked([])
        {
          if blocked[i] == name { return; }
        }
        assert blocked[..|blocked|] == blocked;
        OneName(s, out);
        out := AddName(out, name);
        sites := sites + [s];
      case Block(scope, body) =>
        if !scope {
          CollectAll(body, nested);
        } else {
          CollectLexicals(body);
          CollectFuns(body);
          ghost var funs := WalkFuns(body, b0 + LexicalAll(body));
          BlockFuns(body);
          CollectRest(body);
          ghost var rest := WalkRest(body, b0 + LexicalAll(body) + FunNames(body));
          NamesAppend(funs, rest, old(out));
          assert old(sites) + funs + rest == old(sites) + (funs + rest);
          blocked := blocked[..mark];
        }
      case If(clauses) => CollectAll(clauses, true);
      case Loop(inner) => Collect(inner, true);
      case For(head, inner) =>
        CollectLexicals(head);
        Collect(inner, true);
        blocked := blocked[..mark];
      case ForIn(left, inner) =>
        CollectLexical(left);
        Collect(inner, true);
        blocked := blocked[..mark];
      case Try(parts) => CollectAll(parts, nested);
      case Switch(body) =>
        CollectLexicals(body);
        CollectAll(body, true);
        blocked := blocked[..mark];
      case Label(inner) => Collect(inner, nested);
      case _ => assert sites + [] == sites;
    }

    method CollectAll(ss: seq<Stmt>, nested: bool)
      modifies this
      ensures Walked(WalkAll(ss, SetOf(old(blocked)), nested))
      decreases ss, 0
    {
      hide Walk, SetOf;
      ghost var b0 := SetOf(blocked);
      NoWalk(ss, b0, nested);
      assert sites + [] == sites;
      for i := 0 to |ss|
        invariant Walked(WalkAll(ss[..i], b0, nested))
      {
        WalkSnoc(ss, i, b0, nested);
        ghost var found := WalkAll(ss[..i], b0, nested);
        NamesAppend(found, Walk(ss[i], b0, nested), old(out));
        Collect(ss[i], nested);
        assert old(sites) + found + Walk(ss[i], b0, nested) == old(sites) + (found + Walk(ss[i], b0, nested));
      }
      assert ss[..|ss|] == ss;
    }

    method CollectFuns(ss: seq<Stmt>)
      modifies this
      ensures Walked(WalkFuns(ss, SetOf(old(blocked))))
      decreases ss, 0
    {
      hide Walk, SetOf;
      ghost var b0 := SetOf(blocked);
      NoWalk(ss, b0, true);
      assert sites + [] == sites;
      for i := 0 to |ss|
        invariant Walked(WalkFuns(ss[..i], b0))
      {
        WalkSnoc(ss, i, b0, true);
        ghost var found := WalkFuns(ss[..i], b0);
        assert found + [] == found;
        NamesAppend(found, Walk(ss[i], b0, true), old(out));
        if ss[i].Fun? {
          Collect(ss[i], true);
          assert old(sites) + found + Walk(ss[i], b0, true) == old(sites) + (found + Walk(ss[i], b0, true));
        }
      }
      assert ss[..|ss|] == ss;
    }

    method CollectRest(ss: seq<Stmt>)
      modifies this
      ensures Walked(WalkRest(ss, SetOf(old(blocked))))
      decreases ss, 0
    {
      hide Walk, SetOf;
      ghost var b0 := SetOf(blocked);
      NoWalk(ss, b0, true);
      assert sites + [] == sites;
      for i := 0 to |ss|
        invariant Walked(WalkRest(ss[..i], b0))
      {
        WalkSnoc(ss, i, b0, true);
        ghost var found := WalkRest(ss[..i], b0);
        assert found + [] == found;
        NamesAppend(found, Walk(ss[i], b0, true), old(out));
        if !ss[i].Fun? {
          Collect(ss[i], true);
          assert old(sites) + found + Walk(ss[i], b0, true) == old(sites) + (found + Walk(ss[i], b0, true));
        }
      }
      assert ss[..|ss|] == ss;
    }

    method BlockFuns(ss: seq<Stmt>)
      modifies this`blocked
      ensures old(blocked) <= blocked && SetOf(blocked) == SetOf(old(blocked)) + FunNames(ss)
    {
      hide SetOf;
      for i := 0 to |ss|
        invariant old(blocked) <= blocked && SetOf(blocked) == SetOf(old(blocked)) + FunNames(ss[..i])
      {
        FunSnoc(ss, i);
        if ss[i].Fun? { AddBlocked(ss[i].name); }
      }
      assert ss[..|ss|] == ss;
    }
  }

  lemma OneName(s: Stmt, list: seq<string>)
    requires s.Fun?
    ensures NamesOf([s], list) == AddName(list, s.name)
  {
    assert [s][1..] == [];
  }

  lemma NoLexical(ss: seq<Stmt>)
    ensures LexicalAll(ss[..0]) == {}
  {
  }

  lemma NoWalk(ss: seq<Stmt>, b: Names, nested: bool)
    ensures WalkAll(ss[..0], b, nested) == [] && WalkFuns(ss[..0], b) == [] && WalkRest(ss[..0], b) == []
  {
  }

  lemma FunSnoc(ss: seq<Stmt>, i: nat)
    requires i < |ss|
    ensures FunNames(ss[..i + 1]) == FunNames(ss[..i]) + if ss[i].Fun? then {ss[i].name} else {}
  {
    assert ss[..i + 1] == ss[..i] + [ss[i]];
  }

  lemma {:induction false} LexicalSnoc(ss: seq<Stmt>, i: nat)
    requires i < |ss|
    ensures LexicalAll(ss[..i + 1]) == LexicalAll(ss[..i]) + Lexical(ss[i])
  {
    hide Lexical;
    if i > 0 {
      LexicalSnoc(ss[1..], i - 1);
      assert ss[..i + 1][1..] == ss[1..][..i] && ss[..i][1..] == ss[1..][..i - 1];
    } else {
      assert ss[..1][1..] == [] && ss[..0] == [];
    }
  }

  lemma WalkSnoc(ss: seq<Stmt>, i: nat, b: Names, nested: bool)
    requires i < |ss|
    ensures WalkAll(ss[..i + 1], b, nested) == WalkAll(ss[..i], b, nested) + Walk(ss[i], b, nested)
    ensures WalkFuns(ss[..i + 1], b) == WalkFuns(ss[..i], b) + (if ss[i].Fun? then Walk(ss[i], b, true) else [])
    ensures WalkRest(ss[..i + 1], b) == WalkRest(ss[..i], b) + (if ss[i].Fun? then [] else Walk(ss[i], b, true))
  {
    hide WalkAll, WalkFuns, WalkRest, Walk;
    AllSnoc(ss, i, b, nested);
    FunsSnoc(ss, i, b);
    RestSnoc(ss, i, b);
  }

  lemma {:induction false} AllSnoc(ss: seq<Stmt>, i: nat, b: Names, nested: bool)
    requires i < |ss|
    ensures WalkAll(ss[..i + 1], b, nested) == WalkAll(ss[..i], b, nested) + Walk(ss[i], b, nested)
  {
    hide Walk;
    if i > 0 {
      AllSnoc(ss[1..], i - 1, b, nested);
      assert ss[..i + 1][1..] == ss[1..][..i] && ss[..i][1..] == ss[1..][..i - 1];
    } else {
      assert ss[..1][1..] == [] && ss[..0] == [];
    }
  }

  lemma {:induction false} FunsSnoc(ss: seq<Stmt>, i: nat, b: Names)
    requires i < |ss|
    ensures WalkFuns(ss[..i + 1], b) == WalkFuns(ss[..i], b) + (if ss[i].Fun? then Walk(ss[i], b, true) else [])
  {
    hide Walk;
    if i > 0 {
      FunsSnoc(ss[1..], i - 1, b);
      assert ss[..i + 1][1..] == ss[1..][..i] && ss[..i][1..] == ss[1..][..i - 1];
    } else {
      assert ss[..1][1..] == [] && ss[..0] == [];
    }
  }

  lemma {:induction false} RestSnoc(ss: seq<Stmt>, i: nat, b: Names)
    requires i < |ss|
    ensures WalkRest(ss[..i + 1], b) == WalkRest(ss[..i], b) + (if ss[i].Fun? then [] else Walk(ss[i], b, true))
  {
    hide Walk;
    if i > 0 {
      RestSnoc(ss[1..], i - 1, b);
      assert ss[..i + 1][1..] == ss[1..][..i] && ss[..i][1..] == ss[1..][..i - 1];
    } else {
      assert ss[..1][1..] == [] && ss[..0] == [];
    }
  }
}
