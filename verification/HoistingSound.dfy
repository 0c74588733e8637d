/** Hoisting keeps the meaning of programs. */
module HoistingSound {
  import opened Numbers
  import opened SExpressions
  import opened Machine
  import opened BigStep
  import opened Syntax
  import opened AssignForms
  import opened AssignWeight
  import opened Semantics
  import opened InliningSound
  import opened CompilerCorrect
  import opened Gensyms
  import opened Hoisting
  import opened HoistingNames

  // ---- Conditions ------------------------------------------------------------------------------

  /** A pattern that reads back as an expression for its value: names only, no captures. */
  predicate PlainPattern(p: SExp) {
    match p
    case Cons(a, b) => IsAtCapture(a, b) == None && PlainPattern(a) && PlainPattern(b)
    case Atom(a) => a != [] && a != AT && a != AT_ENV
    case Integer(_) => false
    case _ => true
  }

  /** A pattern leaves alone the names that hoisting writes. */
  predicate LeavesAlone(p: SExp) {
    p != Atom(AT) && !Binds(p, REST_NAME) && !Binds(p, CONS_NAME) && !Binds(p, AT) && !Binds(p, AT_ENV)
  }

  ghost predicate Disjoint(p: SExp, q: SExp) {
    forall name :: !(Binds(p, name) && Binds(q, name))
  }

  /** A group of bindings made inside something with given arguments. */
  ghost predicate GroupFits(args: SExp, inlined: bool, bs: seq<Binding>) {
    var group := PatternList(bs);
    Disjoint(args, group) && LeavesAlone(group) && LeavesAlone(Cons(args, group))
    && (inlined ==> PlainPattern(args) && PlainPattern(group) && IsAtCapture(args, group) == None)
  }

  /** No binder hides another, as after renaming; no name in use is one that will be invented from
      `count` on; no sequential let is empty. */
  ghost predicate Scoped(count: nat, args: SExp, e: BodyForm)
    decreases Weight(e), 1
  {
    match e
    case Let(Sequential, inlined, bs, inner) => bs != [] && SequenceScoped(count, args, inlined, bs, inner)
    case Let(Parallel, inlined, bs, inner) =>
      GroupFits(args, inlined, bs) && BindingsScoped(count, args, bs) && Scoped(count, Cons(args, PatternList(bs)), inner)
    case Let(Assign, inlined, bs, inner) =>
      bs != [] && HoistAssign(inlined, bs, inner).Some?
      && (HoistedAssignIsLighter(inlined, bs, inner); Scoped(count, args, HoistAssign(inlined, bs, inner).value))
    case Value(Atom(a)) => Before(a, count)
    case Value(Integer(i)) => Before(U8FromNumber(i), count)
    case Call(forms, tail) =>
      WeightParts(e);
      forms != [] && (CallName(forms[0]).Some? ==> Before(CallName(forms[0]).value, count))
      && FormsScoped(count, args, forms[1..]) && (tail.Some? ==> Scoped(count, args, tail.value))
    case _ => true
  }

  ghost predicate SequenceScoped(count: nat, args: SExp, inlined: bool, bs: seq<Binding>, inner: BodyForm)
    decreases BindingsWeight(bs, 1) + Weight(inner), 2
  {
    if bs == [] then Scoped(count, args, inner)
    else
      BindingParts(bs, 1);
      GroupFits(args, inlined, [bs[0]]) && Scoped(count, args, bs[0].body)
      && SequenceScoped(count, Cons(args, PatternList([bs[0]])), inlined, bs[1..], inner)
  }

  ghost predicate BindingsScoped(count: nat, args: SExp, bs: seq<Binding>)
    decreases BindingsWeight(bs, 1), 2
  {
    bs == [] || (BindingParts(bs, 1); Scoped(count, args, bs[0].body) && BindingsScoped(count, args, bs[1..]))
  }

  ghost predicate FormsScoped(count: nat, args: SExp, forms: seq<BodyForm>)
    decreases FormsWeight(forms), 2
  {
    forms == [] || (Scoped(count, args, forms[0]) && FormsScoped(count, args, forms[1..]))
  }

  ghost predicate DefunScoped(count: nat, f: Defun) {
    LeavesAlone(f.args) && (f.inline ==> PlainPattern(f.args)) && Scoped(count, f.args, f.body)
  }

  ghost predicate DefunsScoped(count: nat, defuns: seq<Defun>) {
    defuns == [] || (DefunScoped(count, defuns[0]) && DefunsScoped(count, defuns[1..]))
  }

  // ---- Rebuilding the arguments ----------------------------------------------------------------

  /** The value that the pattern, read as an expression, has. */
  function Rebuilt(params: SExp, given: SExp, p: SExp): SExp {
    match p
    case Cons(a, b) => Cons(Rebuilt(params, given, a), Rebuilt(params, given, b))
    case Atom(a) =>
      if Binds(params, a) && Destructure(params, given, a).Some? then Destructure(params, given, a).value else p
    case _ => p
  }

  lemma {:induction false} CoveredNames(params: SExp, given: SExp, name: bytes)
    requires Covers(params, given) && Binds(params, name)
    ensures Destructure(params, given, name).Some?
    decreases Size(params)
  {
    if params.Cons? {
      var at := IsAtCapture(params.first, params.rest);
      if at.Some? {
        if at.value.0 != name {
          CoveredNames(at.value.1, given, name);
        }
      } else if Binds(params.first, name) {
        CoveredNames(params.first, given.first, name);
      } else {
        CoveredNames(params.rest, given.rest, name);
      }
    }
  }

  lemma {:induction false} RebuiltCovers(params: SExp, given: SExp, p: SExp)
    requires PlainPattern(p)
    ensures Covers(p, Rebuilt(params, given, p))
    decreases Size(p)
  {
    if p.Cons? {
      RebuiltCovers(params, given, p.first);
      RebuiltCovers(params, given, p.rest);
    }
  }

  /** Each name of the pattern has in the rebuilt value what it had in the original one. */
  lemma {:induction false} RebuiltAgrees(params: SExp, given: SExp, p: SExp, name: bytes)
    requires PlainPattern(p) && Binds(p, name) && Binds(params, name) && Destructure(params, given, name).Some?
    ensures Destructure(p, Rebuilt(params, given, p), name) == Destructure(params, given, name)
    decreases Size(p)
  {
    if p.Cons? {
      if Binds(p.first, name) {
        RebuiltAgrees(params, given, p.first, name);
      } else {
        RebuiltAgrees(params, given, p.rest, name);
      }
    }
  }

  /** The pattern read as an expression means the rebuilt value, where all its names are supplied. */
  lemma {:induction false} EnvExpressionMeans(w: World, n: nat, params: SExp, given: SExp, p: SExp)
    requires PlainPattern(p) && Covers(params, given) && MeansOp(w, [Scope(params, given)], CONS_NAME, CONS_OP)
    requires forall name :: Binds(p, name) ==> Binds(params, name)
    ensures Sem(w, n, [Scope(params, given)], EnvExpression(p)) == Success(Rebuilt(params, given, p))
    decreases Size(p)
  {
    var scopes := [Scope(params, given)];
    match p
    case Cons(a, b) =>
      forall name | Binds(a, name) ensures Binds(params, name) { assert Binds(p, name); }
      forall name | Binds(b, name) ensures Binds(params, name) { assert Binds(p, name); }
      EnvExpressionMeans(w, n, params, given, a);
      EnvExpressionMeans(w, n, params, given, b);
      var va, vb := Rebuilt(params, given, a), Rebuilt(params, given, b);
      ConsExpression(w, n, scopes, EnvExpression(a), EnvExpression(b), va, vb);
    case Atom(a) =>
      assert Binds(p, a);
      CoveredNames(params, given, a);
      OneScope(params, given, a);
    case _ =>
  }

  /** A pattern of ordinary names, possibly with @ captures. */
  predicate OrdinaryPattern(p: SExp)
    decreases Size(p)
  {
    match p
    case Cons(a, b) =>
      (match IsAtCapture(a, b)
       case Some(c) => OrdinaryPattern(Atom(c.0)) && OrdinaryPattern(c.1) && b == Cons(Atom(c.0), Cons(c.1, Nil))
       case None => OrdinaryPattern(a) && OrdinaryPattern(b))
    case Atom(a) => a != [] && a != AT && a != AT_ENV
    case Integer(_) => false
    case _ => true
  }

  /** No name is bound twice. */
  ghost predicate BindsOnce(p: SExp)
    decreases Size(p)
  {
    p.Cons? ==>
      match IsAtCapture(p.first, p.rest)
      case Some(c) => !Binds(c.1, c.0) && BindsOnce(c.1)
      case None => Disjoint(p.first, p.rest) && BindsOnce(p.first) && BindsOnce(p.rest)
  }

  predicate NoCapture(p: SExp) { p.Cons? ==> IsAtCapture(p.first, p.rest) == None && NoCapture(p.first) && NoCapture(p.rest) }

  lemma {:induction false} PlainIsUncaptured(p: SExp)
    requires OrdinaryPattern(p)
    ensures PlainPattern(p) <==> NoCapture(p)
    decreases Size(p)
  {
    if p.Cons? && IsAtCapture(p.first, p.rest) == None {
      PlainIsUncaptured(p.first);
      PlainIsUncaptured(p.rest);
    }
  }

  /** The value of a pattern read as an expression where `@` means `env`. */
  function Remade(env: SExp, params: SExp, given: SExp, p: SExp): SExp {
    match p
    case Cons(a, b) => Cons(Remade(env, params, given, a), Remade(env, params, given, b))
    case Atom(a) => if a == AT then env else Rebuilt(params, given, p)
    case _ => p
  }

  /** Every leaf is `@`, a parameter or a constant. */
  predicate LeavesBound(params: SExp, p: SExp) {
    match p
    case Cons(a, b) => LeavesBound(params, a) && LeavesBound(params, b)
    case Atom(a) => a == AT || (a != [] && a != AT_ENV && Binds(params, a))
    case Integer(_) => false
    case _ => true
  }

  lemma {:induction false} OrdinaryLeaves(params: SExp, p: SExp)
    requires OrdinaryPattern(p) && forall name :: Binds(p, name) ==> Binds(params, name)
    ensures LeavesBound(params, p)
    decreases Size(p)
  {
    if p.Cons? {
      var c := IsAtCapture(p.first, p.rest);
      if c.Some? {
        assert forall name :: Binds(c.value.1, name) ==> Binds(p, name);
        OrdinaryLeaves(params, c.value.1);
        assert Binds(p, c.value.0);
        assert LeavesBound(params, Cons(c.value.1, Nil)) && LeavesBound(params, Atom(c.value.0)) && LeavesBound(params, p.first);
        assert LeavesBound(params, p.rest);
      } else {
        assert forall name :: Binds(p.first, name) || Binds(p.rest, name) ==> Binds(p, name);
        OrdinaryLeaves(params, p.first);
        OrdinaryLeaves(params, p.rest);
      }
    } else if p.Atom? {
      assert Binds(p, p.name);
    }
  }

  lemma {:induction false} EnvExpressionRemakes(w: World, n: nat, params: SExp, given: SExp, p: SExp)
    requires w.left.Some? && LeavesBound(params, p) && Covers(params, given) && MeansOp(w, [Scope(params, given)], CONS_NAME, CONS_OP)
    ensures Sem(w, n, [Scope(params, given)], EnvExpression(p)) == Success(Remade(Cons(w.left.value, given), params, given, p))
  {
    var env := Cons(w.left.value, given);
    match p
    case Cons(a, b) =>
      EnvExpressionRemakes(w, n, params, given, a);
      EnvExpressionRemakes(w, n, params, given, b);
      ConsExpression(w, n, [Scope(params, given)], EnvExpression(a), EnvExpression(b), Remade(env, params, given, a), Remade(env, params, given, b));
    case Atom(a) =>
      if a != AT {
        CoveredNames(params, given, a);
        OneScope(params, given, a);
      }
    case _ =>
  }

  lemma {:induction false} PlainIsRemade(env: SExp, params: SExp, given: SExp, p: SExp)
    requires PlainPattern(p)
    ensures Remade(env, params, given, p) == Rebuilt(params, given, p)
  {
    if p.Cons? {
      PlainIsRemade(env, params, given, p.first);
      PlainIsRemade(env, params, given, p.rest);
    }
  }

  /** The name of an outermost capture gets a value that holds the one it should have, and more. */
  lemma {:induction false} CaptureGrows(env: SExp, params: SExp, given: SExp, q: SExp) returns (name: bytes)
    requires OrdinaryPattern(q) && BindsOnce(q) && !NoCapture(q) && Covers(params, given)
    requires forall x :: Binds(q, x) ==> Binds(params, x)
    ensures Binds(q, name) && Destructure(params, given, name).Some? && Destructure(q, Remade(env, params, given, q), name).Some?
    ensures Size(Destructure(q, Remade(env, params, given, q), name).value) > Size(Destructure(params, given, name).value)
    decreases Size(q)
  {
    var c := IsAtCapture(q.first, q.rest);
    if c.Some? {
      name := c.value.0;
      assert Binds(q, name);
      CoveredNames(params, given, name);
      assert Remade(env, params, given, q.rest).first == Destructure(params, given, name).value;
    } else if !NoCapture(q.first) {
      assert forall x :: Binds(q.first, x) ==> Binds(q, x);
      name := CaptureGrows(env, params, given, q.first);
    } else {
      assert forall x :: Binds(q.rest, x) ==> Binds(q, x);
      name := CaptureGrows(env, params, given, q.rest);
    }
  }

  /** The arguments are passed on by an expression that rebuilds them.  For patterns of ordinary names
      that bind none twice, and values that have all their parts, every name finds in the rebuilt value
      what it finds in the arguments exactly when the pattern has no @ captures. */
  lemma {:induction false} CapturesAreNotRebuilt(w: World, n: nat, p: SExp, given: SExp)
    requires w.left.Some? && OrdinaryPattern(p) && BindsOnce(p) && Covers(p, given) && MeansOp(w, [Scope(p, given)], CONS_NAME, CONS_OP)
    ensures var r := Sem(w, n, [Scope(p, given)], EnvExpression(p));
            r.Success?
            && ((forall name :: Binds(p, name) ==> Destructure(p, r.value, name) == Destructure(p, given, name)) <==> NoCapture(p))
  {
    var env := Cons(w.left.value, given);
    OrdinaryLeaves(p, p);
    EnvExpressionRemakes(w, n, p, given, p);
    if NoCapture(p) {
      PlainIsUncaptured(p);
      PlainIsRemade(env, p, given, p);
      forall name | Binds(p, name) ensures Destructure(p, Rebuilt(p, given, p), name) == Destructure(p, given, name) {
        CoveredNames(p, given, name);
        RebuiltAgrees(p, given, p, name);
      }
    } else {
      var name := CaptureGrows(env, p, given, p);
      assert Destructure(p, Remade(env, p, given, p), name) != Destructure(p, given, name);
    }
  }

  lemma {:induction false} ConsExpression(w: World, n: nat, scopes: seq<Scope>, a: BodyForm, b: BodyForm, va: SExp, vb: SExp)
    requires MeansOp(w, scopes, CONS_NAME, CONS_OP)
    requires Sem(w, n, scopes, a) == Success(va) && Sem(w, n, scopes, b) == Success(vb)
    ensures Sem(w, n, scopes, Call([Var(CONS_NAME), a, b], None)) == Success(Cons(va, vb))
  {
    TwoSemArgs(w, n, scopes, a, b, va, vb);
    OpCallMeans(w, n, scopes, Var(CONS_NAME), [a, b], CONS_OP, Cons(va, Cons(vb, Nil)), Cons(va, vb));
    assert [Var(CONS_NAME)] + [a, b] == [Var(CONS_NAME), a, b];
  }

  /** `(r @*env*)` means the arguments. */
  lemma {:induction false} WholeArgsMean(w: World, n: nat, params: SExp, given: SExp)
    requires w.left.Some? && MeansOp(w, [Scope(params, given)], REST_NAME, REST_OP)
    ensures Sem(w, n, [Scope(params, given)], WHOLE_ARGS) == Success(given)
  {
    var scopes, env := [Scope(params, given)], Cons(w.left.value, given);
    assert Sem(w, n, scopes, Var(AT_ENV)) == Success(env);
    OneArg(w, n, scopes, Var(AT_ENV), env);
    OpCallMeans(w, n, scopes, Var(REST_NAME), [Var(AT_ENV)], REST_OP, Cons(env, Nil), given);
    assert [Var(REST_NAME)] + [Var(AT_ENV)] == WHOLE_ARGS.forms;
  }

  // ---- The hoisted program ---------------------------------------------------------------------

  /** A primitive that no function hides. */
  ghost predicate PrimIs(w: World, name: bytes, op: int) {
    FindDefun(w.defuns, name) == None && Primitive(w.prims, name).Some? && AtomValue(Primitive(w.prims, name).value) == Some(op)
  }

  /** A world and the one after hoisting: the functions of the first are all there, and every other
      name is a new one. */
  ghost predicate Hoisted(w: World, w': World, raws: seq<Defun>, count: nat) {
    w.covered && w' == w.(defuns := w'.defuns, covered := false) && w.left.Some?
    && PrimIs(w', REST_NAME, REST_OP) && PrimIs(w', CONS_NAME, CONS_OP)
    && (forall f :: f in w.defuns ==> f in raws)
    && (forall name :: Before(name, count) && FindDefun(w'.defuns, name).Some? ==> FindDefun(w.defuns, name).Some?)
    && DefunsScoped(count, w.defuns)
  }

  /** A function is found under its name with its body hoisted. */
  ghost predicate DoneIn(w': World, raws: seq<Defun>, f: Defun) {
    FindDefun(w'.defuns, f.name).Some? && Follows(f, FindDefun(w'.defuns, f.name).value, raws)
  }

  ghost predicate Ready(w: World, w': World, raws: seq<Defun>, count: nat, fs: seq<Defun>) {
    if fs == [] then Hoisted(w, w', raws, count)
    else DoneIn(w', raws, fs[0]) && Ready(w, w', raws, count, fs[1..])
  }

  lemma {:induction false} ReadyHoisted(w: World, w': World, raws: seq<Defun>, count: nat, fs: seq<Defun>)
    requires Ready(w, w', raws, count, fs)
    ensures Hoisted(w, w', raws, count)
  {
    if fs != [] {
      ReadyHoisted(w, w', raws, count, fs[1..]);
    }
  }

  lemma {:induction false} ReadyAt(w: World, w': World, raws: seq<Defun>, count: nat, fs: seq<Defun>, f: Defun)
    requires Ready(w, w', raws, count, fs) && f in fs
    ensures DoneIn(w', raws, f)
  {
    if fs[0] != f {
      ReadyAt(w, w', raws, count, fs[1..], f);
    }
  }

  lemma {:induction false} ScopedAt(count: nat, defuns: seq<Defun>, f: Defun)
    requires DefunsScoped(count, defuns) && f in defuns
    ensures DefunScoped(count, f)
  {
    if defuns[0] != f {
      ScopedAt(count, defuns[1..], f);
    }
  }

  /** What became of a function. */
  lemma {:induction false} DoneAs(w: World, w': World, raws: seq<Defun>, count: nat, f: Defun) returns (done: Defun, c: nat)
    requires Ready(w, w', raws, count, raws) && f in raws
    ensures FindDefun(w'.defuns, f.name) == Some(done) && HoistsTo(f, done, raws, c)
  {
    ReadyAt(w, w', raws, count, raws, f);
    done := FindDefun(w'.defuns, f.name).value;
    c :| HoistsTo(f, done, raws, c);
  }

  // ---- Where expressions stand -----------------------------------------------------------------

  /** Scopes in the source, and the one pattern and value they become. */
  datatype Place = Place(scopes: seq<Scope>, args: SExp, given: SExp, outer: Option<SExp>)

  ghost predicate Agree(scopes: seq<Scope>, args: SExp, given: SExp) {
    forall name :: LookupVar(scopes, name) == LookupVar([Scope(args, given)], name)
  }

  ghost predicate Stands(p: Place) {
    Agree(p.scopes, p.args, p.given) && Covers(p.args, p.given) && LeavesAlone(p.args)
    && p.scopes != [] && (|p.scopes| == 1 ==> p.scopes == [Scope(p.args, p.given)])
    && (p.outer == None || (p.outer == Some(p.args) && PlainPattern(p.args)))
  }

  function Inside(p: Place): seq<Scope> { [Scope(p.args, p.given)] }

  lemma {:induction false} GlueMeans(w': World, p: Place)
    requires Stands(p) && PrimIs(w', REST_NAME, REST_OP) && PrimIs(w', CONS_NAME, CONS_OP)
    ensures MeansOp(w', Inside(p), REST_NAME, REST_OP) && MeansOp(w', Inside(p), CONS_NAME, CONS_OP)
  {
    OneScope(p.args, p.given, REST_NAME);
    OneScope(p.args, p.given, CONS_NAME);
  }

  /** The arguments as a hoisted function is passed them: the same part for every name. */
  function Passed(p: Place): SExp { if p.outer == None then p.given else Rebuilt(p.args, p.given, p.args) }

  lemma {:induction false} PassEnvMeans(w': World, n: nat, p: Place)
    requires Stands(p) && w'.left.Some? && PrimIs(w', REST_NAME, REST_OP) && PrimIs(w', CONS_NAME, CONS_OP)
    ensures Sem(w', n, Inside(p), PassEnv(p.outer)) == Success(Passed(p)) && Covers(p.args, Passed(p))
    ensures forall name :: Binds(p.args, name) ==> Destructure(p.args, Passed(p), name) == Destructure(p.args, p.given, name)
  {
    GlueMeans(w', p);
    if p.outer == None {
      WholeArgsMean(w', n, p.args, p.given);
    } else {
      EnvExpressionMeans(w', n, p.args, p.given, p.args);
      RebuiltCovers(p.args, p.given, p.args);
      forall name | Binds(p.args, name) ensures Destructure(p.args, Passed(p), name) == Destructure(p.args, p.given, name) {
        CoveredNames(p.args, p.given, name);
        RebuiltAgrees(p.args, p.given, p.args, name);
      }
    }
  }

  /** Where the body of a let stands. */
  function Under(p: Place, inlined: bool, bs: seq<Binding>, vs: SExp): Place {
    var args := Cons(p.args, PatternList(bs));
    Place([Scope(PatternList(bs), vs)] + p.scopes, args, Cons(Passed(p), vs), if inlined then Some(args) else None)
  }

  lemma {:induction false} UnderStands(p: Place, inlined: bool, bs: seq<Binding>, vs: SExp)
    requires Stands(p) && GroupFits(p.args, inlined, bs) && Covers(PatternList(bs), vs)
    requires Covers(p.args, Passed(p))
    requires forall name :: Binds(p.args, name) ==> Destructure(p.args, Passed(p), name) == Destructure(p.args, p.given, name)
    ensures Stands(Under(p, inlined, bs, vs))
  {
    var q := Under(p, inlined, bs, vs);
    forall name ensures LookupVar(q.scopes, name) == LookupVar([Scope(q.args, q.given)], name) {
      UnderAgrees(p, inlined, bs, vs, name);
    }
  }

  lemma {:induction false} UnderAgrees(p: Place, inlined: bool, bs: seq<Binding>, vs: SExp, name: bytes)
    requires Stands(p) && GroupFits(p.args, inlined, bs)
    requires Binds(p.args, name) ==> Destructure(p.args, Passed(p), name) == Destructure(p.args, p.given, name)
    ensures var q := Under(p, inlined, bs, vs); LookupVar(q.scopes, name) == LookupVar([Scope(q.args, q.given)], name)
  {
    var q := Under(p, inlined, bs, vs);
    assert q.scopes[1..] == p.scopes;
    assert IsAtCapture(p.args, PatternList(bs)) == None;
    OneScope(p.args, p.given, name);
    OneScope(q.args, q.given, name);
  }

  lemma {:induction false} TopStands(f: Defun, argv: SExp, count: nat)
    requires DefunScoped(count, f) && Covers(f.args, argv)
    ensures Stands(Place([Scope(f.args, argv)], f.args, argv, Context(f)))
  {
  }

  // ---- Names -----------------------------------------------------------------------------------

  /** A name in use finds the same kind of function after hoisting, or none as before. */
  lemma {:induction false} SameFunctions(w: World, w': World, raws: seq<Defun>, count: nat, name: bytes)
    requires Ready(w, w', raws, count, raws) && Before(name, count)
    ensures FindDefun(w.defuns, name).Some? <==> FindDefun(w'.defuns, name).Some?
    ensures FindDefun(w.defuns, name).Some? ==>
              FindDefun(w.defuns, name).value.inline == FindDefun(w'.defuns, name).value.inline
  {
    ReadyHoisted(w, w', raws, count, raws);
    var f := FindDefun(w.defuns, name);
    if f.Some? {
      var done, c := DoneAs(w, w', raws, count, f.value);
    }
  }

  lemma {:induction false} AtomHoists(w: World, w': World, raws: seq<Defun>, count: nat, p: Place, a: bytes, v: SExp)
    requires Ready(w, w', raws, count, raws) && Stands(p) && Before(a, count)
    requires AtomMeaning(w, p.scopes, a) == Success(v)
    ensures AtomMeaning(w', Inside(p), a) == Success(v)
  {
    ReadyHoisted(w, w', raws, count, raws);
    SameFunctions(w, w', raws, count, a);
    assert LookupVar(p.scopes, a) == LookupVar([Scope(p.args, p.given)], a);
  }

  // ---- The proof -------------------------------------------------------------------------------

  predicate AllIn(hs: seq<Defun>, raws: seq<Defun>) { forall h :: h in hs ==> h in raws }

  /** If an expression means v, what hoisting leaves of it means v where its functions are defined. */
  lemma {:induction false} ValueHoists(w: World, w': World, raws: seq<Defun>, count: nat, p: Place, x: SExp, v: SExp)
    requires Ready(w, w', raws, count, raws) && Stands(p) && Scoped(count, p.args, Value(x)) && ValueMeaning(w, p.scopes, x) == Success(v)
    ensures ValueMeaning(w', Inside(p), x) == Success(v)
  {
    CoveredWorld(w, w', raws, count);
    if x.Atom? {
      AtomHoists(w, w', raws, count, p, x.name, v);
    } else if x.Integer? && !w.strict {
      AtomHoists(w, w', raws, count, p, U8FromNumber(x.value), v);
    }
  }

  lemma {:induction false} HoistMeans(w: World, w': World, raws: seq<Defun>, count: nat, n: nat, p: Place, e: BodyForm,
                                      c: nat, v: SExp) returns (n': nat)
    requires Ready(w, w', raws, count, raws) && Stands(p) && Scoped(count, p.args, e)
    requires HoistBody(p.outer, p.args, e, c).Some? && AllIn(HoistBody(p.outer, p.args, e, c).value.helpers, raws)
    requires Sem(w, n, p.scopes, e) == Success(v)
    ensures Sem(w', n', Inside(p), HoistBody(p.outer, p.args, e, c).value.body) == Success(v)
    decreases n, Weight(e), 5
  {
    n' := 0;
    match e
    case Let(Sequential, inlined, bs, inner) =>
      n' := HoistSequenceMeans(w, w', raws, count, n, p, inlined, bs, inner, c, v);
    case Let(Parallel, inlined, bs, inner) =>
      var vs := SemBindings(w, n, p.scopes, bs).value;
      CoveredWorld(w, w', raws, count);
      n' := HoistLetMeans(w, w', raws, count, n, p, inlined, bs, inner, c, vs, v);
    case Let(Assign, inlined, bs, inner) =>
      HoistedAssignIsLighter(inlined, bs, inner);
      n' := HoistMeans(w, w', raws, count, n, p, HoistAssign(inlined, bs, inner).value, c, v);
    case Call(forms, tail) =>
      n' := HoistCallMeans(w, w', raws, count, n, p, forms, tail, c, v);
    case Value(x) => ValueHoists(w, w', raws, count, p, x, v);
    case _ =>
  }

  lemma {:induction false} CoveredWorld(w: World, w': World, raws: seq<Defun>, count: nat)
    requires Ready(w, w', raws, count, raws)
    ensures w.covered && w' == w.(defuns := w'.defuns, covered := false)
  {
    ReadyHoisted(w, w', raws, count, raws);
  }

  /** A sequential let binds its first name in parallel and goes on. */
  lemma {:induction false} SequentialIsNested(w: World, n: nat, scopes: seq<Scope>, inlined: bool, bs: seq<Binding>, inner: BodyForm, v: SExp)
    returns (vs: SExp)
    requires bs != [] && Sem(w, n, scopes, Let(Sequential, inlined, bs, inner)) == Success(v)
    ensures SemBindings(w, n, scopes, [bs[0]]) == Success(vs) && Accepts(w, PatternList([bs[0]]), vs)
    ensures Sem(w, n, [Scope(PatternList([bs[0]]), vs)] + scopes, AfterFirst(inlined, bs, inner)) == Success(v)
  {
    BindingParts(bs, 1);
    BindingParts([bs[0]], 1);
    var x := Sem(w, n, scopes, bs[0].body).value;
    vs := Cons(x, Nil);
    assert [bs[0]][1..] == [];
    assert SemBindings(w, n, scopes, []) == Success(Nil);
    var rest := SemSequence(w, n, [Scope(PatternList([bs[0]]), vs)] + scopes, bs[1..], inner);
    assert rest == Success(v);
    if |bs| == 1 {
      assert bs[1..] == [];
    }
  }

  lemma {:induction false} NestedScoped(count: nat, args: SExp, inlined: bool, bs: seq<Binding>, inner: BodyForm)
    requires bs != [] && SequenceScoped(count, args, inlined, bs, inner)
    ensures GroupFits(args, inlined, [bs[0]]) && BindingsScoped(count, args, [bs[0]])
    ensures Scoped(count, Cons(args, PatternList([bs[0]])), AfterFirst(inlined, bs, inner))
  {
    BindingParts([bs[0]], 1);
    assert [bs[0]][1..] == [];
    assert BindingsScoped(count, args, [bs[0]][1..]);
    if |bs| == 1 {
      assert bs[1..] == [];
    }
  }

  function LetWeight(bs: seq<Binding>, inner: BodyForm): nat {
    Weight(inner) + if bs == [] then 1 else BindingsWeight(bs, 1)
  }

  lemma {:induction false} NestedLighter(inlined: bool, bs: seq<Binding>, inner: BodyForm)
    requires bs != []
    ensures LetWeight([bs[0]], AfterFirst(inlined, bs, inner)) <= Weight(Let(Sequential, inlined, bs, inner))
  {
    BindingParts(bs, 1);
    BindingParts([bs[0]], 1);
    assert [bs[0]][1..] == [];
  }

  lemma {:induction false} HoistSequenceMeans(w: World, w': World, raws: seq<Defun>, count: nat, n: nat, p: Place, inlined: bool,
                                              bs: seq<Binding>, inner: BodyForm, c: nat, v: SExp) returns (n': nat)
    requires Ready(w, w', raws, count, raws) && Stands(p) && Scoped(count, p.args, Let(Sequential, inlined, bs, inner)) && bs != []
    requires HoistLet(p.outer, p.args, inlined, [bs[0]], AfterFirst(inlined, bs, inner), c).Some?
    requires AllIn(HoistLet(p.outer, p.args, inlined, [bs[0]], AfterFirst(inlined, bs, inner), c).value.helpers, raws)
    requires Sem(w, n, p.scopes, Let(Sequential, inlined, bs, inner)) == Success(v)
    ensures Sem(w', n', Inside(p), HoistLet(p.outer, p.args, inlined, [bs[0]], AfterFirst(inlined, bs, inner), c).value.body) == Success(v)
    decreases n, Weight(Let(Sequential, inlined, bs, inner)), 4
  {
    var vs := SequentialIsNested(w, n, p.scopes, inlined, bs, inner, v);
    NestedScoped(count, p.args, inlined, bs, inner);
    NestedLighter(inlined, bs, inner);
    n' := HoistLetMeans(w, w', raws, count, n, p, inlined, [bs[0]], AfterFirst(inlined, bs, inner), c, vs, v);
  }

  lemma {:induction false} HoistLetMeans(w: World, w': World, raws: seq<Defun>, count: nat, n: nat, p: Place, inlined: bool,
                                         bs: seq<Binding>, inner: BodyForm, c: nat, vs: SExp, v: SExp) returns (n': nat)
    requires Ready(w, w', raws, count, raws) && Stands(p)
    requires GroupFits(p.args, inlined, bs) && BindingsScoped(count, p.args, bs)
    requires Scoped(count, Cons(p.args, PatternList(bs)), inner)
    requires HoistLet(p.outer, p.args, inlined, bs, inner, c).Some?
    requires AllIn(HoistLet(p.outer, p.args, inlined, bs, inner, c).value.helpers, raws)
    requires SemBindings(w, n, p.scopes, bs) == Success(vs) && Accepts(w, PatternList(bs), vs)
    requires Sem(w, n, [Scope(PatternList(bs), vs)] + p.scopes, inner) == Success(v)
    ensures Sem(w', n', Inside(p), HoistLet(p.outer, p.args, inlined, bs, inner, c).value.body) == Success(v)
    decreases n, LetWeight(bs, inner), 3
  {
    ReadyHoisted(w, w', raws, count, raws);
    var h := HoistBindings(p.outer, p.args, bs, c + 1).value;
    var f := LetDefun(Gensym(LETBINDING_NAME, c), inlined, p.args, bs, inner);
    LastIn(h.helpers, f, raws);
    var n1 := HoistBindingsMean(w, w', raws, count, n, p, bs, c + 1, vs);
    var done, c2 := DoneAs(w, w', raws, count, f);
    PassEnvMeans(w', n1, p);
    UnderStands(p, inlined, bs, vs);
    var n2 := HoistMeans(w, w', raws, count, n, Under(p, inlined, bs, vs), inner, c2, v);
    n' := LetCallMeans(w', p, n1, n2, done, h.body, vs, v);
  }

  lemma {:induction false} LastIn(hs: seq<Defun>, f: Defun, raws: seq<Defun>)
    requires AllIn(hs + [f], raws)
    ensures AllIn(hs, raws) && f in raws
  {
    assert f in hs + [f];
    assert forall h :: h in hs ==> h in hs + [f];
  }

  lemma {:induction false} BothIn(a: seq<Defun>, b: seq<Defun>, raws: seq<Defun>)
    requires AllIn(a + b, raws)
    ensures AllIn(a, raws) && AllIn(b, raws)
  {
    assert forall h :: h in a ==> h in a + b;
    assert forall h :: h in b ==> h in a + b;
  }

  /** Calling a hoisted function with the arguments passed on and the values bound. */
  lemma {:induction false} LetCallMeans(w': World, p: Place, n1: nat, n2: nat, f: Defun, bodies: seq<BodyForm>, vs: SExp, v: SExp)
    returns (n': nat)
    requires FindDefun(w'.defuns, f.name) == Some(f) && !w'.covered
    requires Sem(w', n1, Inside(p), PassEnv(p.outer)) == Success(Passed(p))
    requires SemArgs(w', n1, Inside(p), bodies, None) == Success(vs)
    requires Sem(w', n2, [Scope(f.args, Cons(Passed(p), vs))], f.body) == Success(v)
    ensures Sem(w', n', Inside(p), Call([Var(f.name), PassEnv(p.outer)] + bodies, None)) == Success(v)
  {
    n' := n1 + n2 + 1;
    var argv := Cons(Passed(p), vs);
    var args := [PassEnv(p.outer)] + bodies;
    assert args[1..] == bodies;
    assert SemArgs(w', n1, Inside(p), args, None) == Success(argv);
    SemArgsMono(w', n1, n', Inside(p), args, None);
    DefunCallMeans(w', n', n2 + 1, Inside(p), Var(f.name), args, None, f, argv, v);
    assert [Var(f.name)] + args == [Var(f.name), PassEnv(p.outer)] + bodies;
  }

  lemma {:induction false} HoistBindingsMean(w: World, w': World, raws: seq<Defun>, count: nat, n: nat, p: Place,
                                             bs: seq<Binding>, c: nat, vs: SExp) returns (n': nat)
    requires Ready(w, w', raws, count, raws) && Stands(p) && BindingsScoped(count, p.args, bs)
    requires HoistBindings(p.outer, p.args, bs, c).Some?
    requires AllIn(HoistBindings(p.outer, p.args, bs, c).value.helpers, raws)
    requires SemBindings(w, n, p.scopes, bs) == Success(vs)
    ensures SemArgs(w', n', Inside(p), HoistBindings(p.outer, p.args, bs, c).value.body, None) == Success(vs)
    decreases n, BindingsWeight(bs, 1), 5
  {
    if bs == [] {
      n' := 0;
    } else {
      BindingParts(bs, 1);
      var f := HoistBody(p.outer, p.args, bs[0].body, c).value;
      var h := HoistBindings(p.outer, p.args, bs[1..], f.next).value;
      BothIn(f.helpers, h.helpers, raws);
      var n1 := HoistMeans(w, w', raws, count, n, p, bs[0].body, c, vs.first);
      var n2 := HoistBindingsMean(w, w', raws, count, n, p, bs[1..], f.next, vs.rest);
      n' := MoreArgs(w', Inside(p), n1, n2, f.body, h.body, None, vs.first, vs.rest);
    }
  }

  lemma {:induction false} MoreArgs(w': World, scopes: seq<Scope>, n1: nat, n2: nat, first: BodyForm, rest: seq<BodyForm>,
                 tail: Option<BodyForm>, v: SExp, vs: SExp) returns (n': nat)
    requires Sem(w', n1, scopes, first) == Success(v) && SemArgs(w', n2, scopes, rest, tail) == Success(vs)
    ensures SemArgs(w', n', scopes, [first] + rest, tail) == Success(Cons(v, vs))
  {
    n' := n1 + n2;
    SemMono(w', n1, n', scopes, first);
    SemArgsMono(w', n2, n', scopes, rest, tail);
    assert ([first] + rest)[1..] == rest;
  }

  lemma {:induction false} HoistArgsMean(w: World, w': World, raws: seq<Defun>, count: nat, n: nat, p: Place,
                                         forms: seq<BodyForm>, tail: Option<BodyForm>, c: nat, vs: SExp) returns (n': nat)
    requires Ready(w, w', raws, count, raws) && Stands(p) && FormsScoped(count, p.args, forms)
    requires tail.Some? ==> Scoped(count, p.args, tail.value)
    requires HoistForms(p.outer, p.args, forms, c).Some?
    requires HoistTail(p.outer, p.args, tail, HoistForms(p.outer, p.args, forms, c).value.next).Some?
    requires AllIn(HoistForms(p.outer, p.args, forms, c).value.helpers, raws)
    requires AllIn(HoistTail(p.outer, p.args, tail, HoistForms(p.outer, p.args, forms, c).value.next).value.helpers, raws)
    requires SemArgs(w, n, p.scopes, forms, tail) == Success(vs)
    ensures SemArgs(w', n', Inside(p), HoistForms(p.outer, p.args, forms, c).value.body,
                    HoistTail(p.outer, p.args, tail, HoistForms(p.outer, p.args, forms, c).value.next).value.body) == Success(vs)
    decreases n, FormsWeight(forms) + TailWeight(tail), 6
  {
    if forms == [] {
      n' := 0;
      if tail.Some? {
        n' := HoistMeans(w, w', raws, count, n, p, tail.value, c, vs);
      }
    } else {
      var f := HoistBody(p.outer, p.args, forms[0], c).value;
      var h := HoistForms(p.outer, p.args, forms[1..], f.next).value;
      BothIn(f.helpers, h.helpers, raws);
      var n1 := HoistMeans(w, w', raws, count, n, p, forms[0], c, vs.first);
      var n2 := HoistArgsMean(w, w', raws, count, n, p, forms[1..], tail, f.next, vs.rest);
      n' := MoreArgs(w', Inside(p), n1, n2, f.body, h.body, HoistTail(p.outer, p.args, tail, h.next).value.body,
                     vs.first, vs.rest);
    }
  }

  lemma {:induction false} HoistCallMeans(w: World, w': World, raws: seq<Defun>, count: nat, n: nat, p: Place,
                                          forms: seq<BodyForm>, tail: Option<BodyForm>, c: nat, v: SExp) returns (n': nat)
    requires Ready(w, w', raws, count, raws) && Stands(p) && Scoped(count, p.args, Call(forms, tail))
    requires HoistBody(p.outer, p.args, Call(forms, tail), c).Some?
    requires AllIn(HoistBody(p.outer, p.args, Call(forms, tail), c).value.helpers, raws)
    requires Sem(w, n, p.scopes, Call(forms, tail)) == Success(v)
    ensures Sem(w', n', Inside(p), HoistBody(p.outer, p.args, Call(forms, tail), c).value.body) == Success(v)
    decreases n, Weight(Call(forms, tail)), 0
  {
    WeightParts(Call(forms, tail));
    ReadyHoisted(w, w', raws, count, raws);
    var f := HoistForms(p.outer, p.args, forms[1..], c).value;
    var t := HoistTail(p.outer, p.args, tail, f.next).value;
    BothIn(f.helpers, t.helpers, raws);
    var name := CallName(forms[0]).value;
    SameFunctions(w, w', raws, count, name);
    if FindDefun(w.defuns, name).Some? {
      var g := FindDefun(w.defuns, name).value;
      var argv := DefunCallMeaning(w, n, p.scopes, forms, tail, g, v);
      var n1 := HoistArgsMean(w, w', raws, count, n, p, forms[1..], tail, c, argv);
      n' := HoistedDefunMeans(w, w', raws, count, n, p, forms[0], g, f.body, t.body, n1, argv, v);
    } else {
      n' := HoistOtherMeans(w, w', raws, count, n, p, forms, tail, c, v);
    }
  }

  /** A call of one of the program's own functions. */
  lemma {:induction false} HoistedDefunMeans(w: World, w': World, raws: seq<Defun>, count: nat, n: nat, p: Place,
                                             head: BodyForm, g: Defun, args: seq<BodyForm>, tail: Option<BodyForm>,
                                             n1: nat, argv: SExp, v: SExp) returns (n': nat)
    requires Ready(w, w', raws, count, raws) && n > 0
    requires CallName(head).Some? && FindDefun(w.defuns, CallName(head).value) == Some(g)
    requires SemArgs(w', n1, Inside(p), args, tail) == Success(argv) && Accepts(w, g.args, argv)
    requires Sem(w, n - 1, [Scope(g.args, argv)], g.body) == Success(v)
    ensures Sem(w', n', Inside(p), Call([head] + args, tail)) == Success(v)
    decreases n, 0, 1
  {
    var n2 := HoistedBodyMeans(w, w', raws, count, n, g, argv, v);
    n' := n1 + n2 + 1;
    SemArgsMono(w', n1, n', Inside(p), args, tail);
    var done := FindDefun(w'.defuns, g.name).value;
    DefunCallMeans(w', n', n2 + 1, Inside(p), head, args, tail, done, argv, v);
  }

  /** The body of a function after hoisting. */
  lemma {:induction false} HoistedBodyMeans(w: World, w': World, raws: seq<Defun>, count: nat, n: nat, g: Defun, argv: SExp, v: SExp)
    returns (n2: nat)
    requires Ready(w, w', raws, count, raws) && n > 0 && FindDefun(w.defuns, g.name) == Some(g)
    requires Accepts(w, g.args, argv) && Sem(w, n - 1, [Scope(g.args, argv)], g.body) == Success(v)
    ensures var done := FindDefun(w'.defuns, g.name);
            done.Some? && done.value.name == g.name && done.value.args == g.args && Accepts(w', g.args, argv)
            && Sem(w', n2, [Scope(g.args, argv)], done.value.body) == Success(v)
    decreases n, 0, 0
  {
    ReadyHoisted(w, w', raws, count, raws);
    ScopedAt(count, w.defuns, g);
    TopStands(g, argv, count);
    var done, c2 := DoneAs(w, w', raws, count, g);
    var place := Place([Scope(g.args, argv)], g.args, argv, Context(g));
    n2 := HoistMeans(w, w', raws, count, n - 1, place, g.body, c2, v);
  }

  /** An operator, or a path form. */
  lemma {:induction false} HoistOtherMeans(w: World, w': World, raws: seq<Defun>, count: nat, n: nat, p: Place,
                                           forms: seq<BodyForm>, tail: Option<BodyForm>, c: nat, v: SExp) returns (n': nat)
    requires Ready(w, w', raws, count, raws) && Stands(p) && Scoped(count, p.args, Call(forms, tail))
    requires forms != [] && CallName(forms[0]).Some? && FindDefun(w.defuns, CallName(forms[0]).value) == None
    requires FindDefun(w'.defuns, CallName(forms[0]).value) == None
    requires HoistBody(p.outer, p.args, Call(forms, tail), c).Some?
    requires AllIn(HoistBody(p.outer, p.args, Call(forms, tail), c).value.helpers, raws)
    requires Sem(w, n, p.scopes, Call(forms, tail)) == Success(v)
    ensures Sem(w', n', Inside(p), HoistBody(p.outer, p.args, Call(forms, tail), c).value.body) == Success(v)
    decreases n, FormsWeight(forms[1..]) + TailWeight(tail), 7
  {
    ReadyHoisted(w, w', raws, count, raws);
    var name := CallName(forms[0]).value;
    var f := HoistForms(p.outer, p.args, forms[1..], c).value;
    var t := HoistTail(p.outer, p.args, tail, f.next).value;
    BothIn(f.helpers, t.helpers, raws);
    assert LookupVar(p.scopes, name) == LookupVar([Scope(p.args, p.given)], name);
    if Primitive(w.prims, name).Some? {
      var op := AtomValue(Primitive(w.prims, name).value).value;
      var argv := SemArgs(w, n, p.scopes, forms[1..], None).value;
      var n1 := HoistArgsMean(w, w', raws, count, n, p, forms[1..], None, c, argv);
      n' := n + n1;
      SemArgsMono(w', n1, n', Inside(p), f.body, None);
      OperateMono(w.machine, n, n', Integer(op), argv);
      OpCallMeans(w', n', Inside(p), forms[0], f.body, op, argv, v);
    } else {
      n' := 0;
      PathFormHoists(w, w', n, p, forms, tail, c, v);
    }
  }

  lemma {:induction false} PathFormHoists(w: World, w': World, n: nat, p: Place, forms: seq<BodyForm>, tail: Option<BodyForm>, c: nat, v: SExp)
    requires Stands(p) && w' == w.(defuns := w'.defuns, covered := false)
    requires forms != [] && CallName(forms[0]).Some? && FindDefun(w.defuns, CallName(forms[0]).value) == None
    requires FindDefun(w'.defuns, CallName(forms[0]).value) == None && Primitive(w.prims, CallName(forms[0]).value) == None
    requires LookupVar(p.scopes, CallName(forms[0]).value) == LookupVar(Inside(p), CallName(forms[0]).value)
    requires HoistBody(p.outer, p.args, Call(forms, tail), c).Some?
    requires Sem(w, n, p.scopes, Call(forms, tail)) == Success(v)
    ensures Sem(w', 0, Inside(p), HoistBody(p.outer, p.args, Call(forms, tail), c).value.body) == Success(v)
  {
    assert forms[1..] == [forms[1]];
    assert [forms[1]][1..] == [];
    assert HoistBody(p.outer, p.args, forms[1], c) == Some(Hoist([], forms[1], c));
    assert HoistForms(p.outer, p.args, [forms[1]], c).value.body == [forms[1]] + [] == [forms[1]];
    var hoisted := HoistBody(p.outer, p.args, Call(forms, tail), c).value.body;
    assert hoisted.forms == [forms[0]] + [forms[1]];
  }
}
