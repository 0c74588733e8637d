/** Replacing names by the full names of the helpers they stand for, and collecting those helpers:
    `resolve_namespaces`. */
module Resolution {
  import opened Numbers
  import opened SExpressions
  import opened Syntax
  import opened Toposort
  import opened AssignForms
  import opened Namespaces
  import opened NamespaceSearch
  import opened Worklists

  /** Where names are looked up: the program's helpers, the primitives, and how deep imports are
      followed. */
  datatype Scene = Scene(helpers: seq<Helper>, prims: map<bytes, SExp>, depth: nat)

  const COM: bytes := [99, 111, 109]     // "com"

  /** `is_compiler_builtin`. */
  predicate IsBuiltin(name: bytes) { name == COM || name == AT }

  /** A name without namespace that names a primitive, or spells its number. */
  predicate IsPrimitive(prims: map<bytes, SExp>, name: bytes) {
    Parent(ParseName(name)) == None
    && (Child(ParseName(name)) in prims || exists k :: k in prims && EqualTo(prims[k], Atom(name)))
  }

  /** `capture_scope`. */
  function ScopeNames(args: SExp): Names
    decreases Size(args)
  {
    match args
    case Cons(a, b) =>
      (match IsAtCapture(a, b)
       case Some(p) => {p.0} + ScopeNames(p.1)
       case None => ScopeNames(a) + ScopeNames(b))
    case Atom(a) => {a}
    case _ => {}
  }

  // ---- Expressions -----------------------------------------------------------------------------

  function ResolveName(c: Scene, ns: Option<LongName>, scope: Names, name: bytes): (r: Option<Linked<bytes>>) {
    if name in scope then Some(Linked(name, {}))
    else match Find(c.depth, c.helpers, ns, name, ParseName(name))
      case Found(full, _) => Some(Linked(Render(full), {full}))
      case Endless => None
      case Missing => if IsBuiltin(name) || IsPrimitive(c.prims, name) then Some(Linked(name, {})) else None
  }

  /** `resolve_namespaces_in_expr`; None for its errors. */
  function ResolveExpr(c: Scene, ns: Option<LongName>, scope: Names, e: BodyForm): (r: Option<Linked<BodyForm>>)
    decreases Weight(e), 1
  {
    match e
    case Call(forms, tail) =>
      WeightParts(e);
      (match (ResolveTail(c, ns, scope, tail), ResolveForms(c, ns, scope, forms))
       case (Some(t), Some(f)) => Some(Linked(Call(f.value, t.value), t.found + f.found))
       case _ => None)
    case Value(Atom(name)) =>
      (match ResolveName(c, ns, scope, name)
       case None => None
       case Some(l) => Some(Linked(Value(Atom(l.value)), l.found)))
    case Let(Sequential, inlined, bs, inner) =>
      (match (ResolveSequence(c, ns, scope, bs), ResolveExpr(c, ns, scope + Atoms(PatternList(bs)), inner))
       case (Some(l), Some(body)) => Some(Linked(Let(Sequential, inlined, l.value, body.value), l.found + body.found))
       case _ => None)
    case Let(Parallel, inlined, bs, inner) =>
      (match (ResolveBindings(c, ns, scope, bs), ResolveExpr(c, ns, scope + Atoms(PatternList(bs)), inner))
       case (Some(l), Some(body)) => Some(Linked(Let(Parallel, inlined, l.value, body.value), l.found + body.found))
       case _ => None)
    case Let(Assign, inlined, bs, inner) =>
      (match (ResolveAssign(c, ns, scope, bs), ResolveExpr(c, ns, scope + Atoms(PatternList(bs)), inner))
       case (Some(l), Some(body)) => Some(Linked(Let(Assign, inlined, l.value, body.value), l.found + body.found))
       case _ => None)
    case Lambda(captureArgs, args, captures, body) =>
      (match (ResolveExpr(c, ns, scope, captures), ResolveExpr(c, ns, scope + ScopeNames(captureArgs) + ScopeNames(args), body))
       case (Some(l), Some(b)) => Some(Linked(Lambda(captureArgs, args, l.value, b.value), l.found + b.found))
       case _ => None)
    case _ => Some(Linked(e, {}))
  }

  function ResolveTail(c: Scene, ns: Option<LongName>, scope: Names, tail: Option<BodyForm>): (r: Option<Linked<Option<BodyForm>>>)
    decreases TailWeight(tail), 2
  {
    match tail
    case None => Some(Linked(None, {}))
    case Some(t) =>
      match ResolveExpr(c, ns, scope, t)
      case None => None
      case Some(l) => Some(Linked(Some(l.value), l.found))
  }

  function ResolveForms(c: Scene, ns: Option<LongName>, scope: Names, forms: seq<BodyForm>): (r: Option<Linked<seq<BodyForm>>>)
    decreases FormsWeight(forms), 2
  {
    if forms == [] then Some(Linked([], {}))
    else match (ResolveExpr(c, ns, scope, forms[0]), ResolveForms(c, ns, scope, forms[1..]))
      case (Some(first), Some(rest)) => Some(Linked([first.value] + rest.value, first.found + rest.found))
      case _ => None
  }

  function ResolveBindings(c: Scene, ns: Option<LongName>, scope: Names, bs: seq<Binding>): (r: Option<Linked<seq<Binding>>>)
    decreases BindingsWeight(bs, 1), 2
  {
    if bs == [] then Some(Linked([], {}))
    else
      BindingParts(bs, 1);
      match (ResolveExpr(c, ns, scope, bs[0].body), ResolveBindings(c, ns, scope, bs[1..]))
      case (Some(first), Some(rest)) => Some(Linked([Binding(bs[0].pattern, first.value)] + rest.value, first.found + rest.found))
      case _ => None
  }

  /** Each binding is in scope for the ones after it. */
  function ResolveSequence(c: Scene, ns: Option<LongName>, scope: Names, bs: seq<Binding>): (r: Option<Linked<seq<Binding>>>)
    decreases BindingsWeight(bs, 1), 2
  {
    if bs == [] then Some(Linked([], {}))
    else
      BindingParts(bs, 1);
      match (ResolveExpr(c, ns, scope, bs[0].body), ResolveSequence(c, ns, scope + Atoms(PatternOf(bs[0])), bs[1..]))
      case (Some(first), Some(rest)) => Some(Linked([Binding(bs[0].pattern, first.value)] + rest.value, first.found + rest.found))
      case _ => None
  }

  function ResolveAssign(c: Scene, ns: Option<LongName>, scope: Names, bs: seq<Binding>): (r: Option<Linked<seq<Binding>>>)
    decreases BindingsWeight(bs, 2), 3
  {
    match SortBindings(bs)
    case Unknown => None
    case Known(order) =>
      SortedInRange(bs);
      ResolveOrdered(c, ns, scope, bs, order, bs)
  }

  /** Each binding is in scope for the ones that come after it in dependency order; the list keeps
      its own order. */
  function ResolveOrdered(c: Scene, ns: Option<LongName>, scope: Names, bs: seq<Binding>, order: seq<Spec>, done: seq<Binding>)
    : (r: Option<Linked<seq<Binding>>>)
    requires |done| == |bs| && forall s :: s in order ==> s.index < |bs|
    decreases BindingsWeight(bs, 2), 2, |order|
  {
    if order == [] then Some(Linked(done, {}))
    else
      assert order[0] in order;
      var i := order[0].index;
      BodyIsLighter(bs, i);
      match ResolveExpr(c, ns, scope, bs[i].body)
      case None => None
      case Some(l) =>
        match ResolveOrdered(c, ns, scope + Atoms(PatternOf(bs[i])), bs, order[1..], done[i := Binding(bs[i].pattern, l.value)])
        case None => None
        case Some(rest) => Some(Linked(rest.value, l.found + rest.found))
  }

  // ---- Names left in the output ----------------------------------------------------------------

  /** The names an expression refers to that nothing around them binds. */
  function Globals(scope: Names, e: BodyForm): Names
    decreases Weight(e), 1
  {
    match e
    case Call(forms, tail) =>
      WeightParts(e);
      FormsGlobals(scope, forms) + (match tail case None => {} case Some(t) => Globals(scope, t))
    case Value(Atom(name)) => {name} - scope
    case Let(Sequential, _, bs, inner) => SequenceGlobals(scope, bs) + Globals(scope + Atoms(PatternList(bs)), inner)
    case Let(Parallel, _, bs, inner) => BindingsGlobals(scope, bs) + Globals(scope + Atoms(PatternList(bs)), inner)
    case Let(Assign, _, bs, inner) =>
      WeightPerBinding(bs);
      BindingsGlobals(scope + Atoms(PatternList(bs)), bs) + Globals(scope + Atoms(PatternList(bs)), inner)
    case Lambda(captureArgs, args, captures, body) =>
      Globals(scope, captures) + Globals(scope + ScopeNames(captureArgs) + ScopeNames(args), body)
    case _ => {}
  }

  function FormsGlobals(scope: Names, forms: seq<BodyForm>): Names
    decreases FormsWeight(forms), 2
  {
    if forms == [] then {} else Globals(scope, forms[0]) + FormsGlobals(scope, forms[1..])
  }

  function BindingsGlobals(scope: Names, bs: seq<Binding>): Names
    decreases BindingsWeight(bs, 1), 2
  {
    if bs == [] then {}
    else
      BindingParts(bs, 1);
      Globals(scope, bs[0].body) + BindingsGlobals(scope, bs[1..])
  }

  function SequenceGlobals(scope: Names, bs: seq<Binding>): Names
    decreases BindingsWeight(bs, 1), 2
  {
    if bs == [] then {}
    else
      BindingParts(bs, 1);
      Globals(scope, bs[0].body) + SequenceGlobals(scope + Atoms(PatternOf(bs[0])), bs[1..])
  }

  /** A name that the output may be left with. */
  ghost predicate Settled(prims: map<bytes, SExp>, found: set<LongName>, name: bytes) {
    IsBuiltin(name) || IsPrimitive(prims, name) || exists full :: full in found && Render(full) == name
  }

  ghost predicate AllSettled(prims: map<bytes, SExp>, found: set<LongName>, names: Names) {
    forall x :: x in names ==> Settled(prims, found, x)
  }

  lemma {:induction false} SettledMore(prims: map<bytes, SExp>, found: set<LongName>, names: Names, more: set<LongName>, fewer: Names)
    requires AllSettled(prims, found, names) && found <= more && fewer <= names
    ensures AllSettled(prims, more, fewer)
  {
    forall x | x in fewer ensures Settled(prims, more, x) {
      assert Settled(prims, found, x);
    }
  }

  lemma {:induction false} SettledBoth(prims: map<bytes, SExp>, found: set<LongName>, names: Names, found': set<LongName>, names': Names)
    requires AllSettled(prims, found, names) && AllSettled(prims, found', names')
    ensures AllSettled(prims, found + found', names + names')
  {
    SettledMore(prims, found, names, found + found', names);
    SettledMore(prims, found', names', found + found', names');
  }

  /** More names in scope, fewer global names. */
  lemma {:induction false} WiderScope(scope: Names, wider: Names, e: BodyForm)
    requires scope <= wider
    ensures Globals(wider, e) <= Globals(scope, e)
    decreases Weight(e), 1
  {
    match e
    case Call(forms, tail) =>
      WeightParts(e);
      WiderForms(scope, wider, forms);
      if tail.Some? {
        WiderScope(scope, wider, tail.value);
      }
    case Let(kind, _, bs, inner) =>
      WeightPerBinding(bs);
      WiderScope(scope + Atoms(PatternList(bs)), wider + Atoms(PatternList(bs)), inner);
      if kind == Sequential {
        WiderSequence(scope, wider, bs);
      } else if kind == Parallel {
        WiderBindings(scope, wider, bs);
      } else {
        WiderBindings(scope + Atoms(PatternList(bs)), wider + Atoms(PatternList(bs)), bs);
      }
    case Lambda(captureArgs, args, captures, body) =>
      WiderScope(scope, wider, captures);
      WiderScope(scope + ScopeNames(captureArgs) + ScopeNames(args), wider + ScopeNames(captureArgs) + ScopeNames(args), body);
    case _ =>
  }

  lemma {:induction false} WiderForms(scope: Names, wider: Names, forms: seq<BodyForm>)
    requires scope <= wider
    ensures FormsGlobals(wider, forms) <= FormsGlobals(scope, forms)
    decreases FormsWeight(forms), 2
  {
    if forms != [] {
      WiderScope(scope, wider, forms[0]);
      WiderForms(scope, wider, forms[1..]);
    }
  }

  lemma {:induction false} WiderBindings(scope: Names, wider: Names, bs: seq<Binding>)
    requires scope <= wider
    ensures BindingsGlobals(wider, bs) <= BindingsGlobals(scope, bs)
    decreases BindingsWeight(bs, 1), 2
  {
    if bs != [] {
      BindingParts(bs, 1);
      WiderScope(scope, wider, bs[0].body);
      WiderBindings(scope, wider, bs[1..]);
    }
  }

  lemma {:induction false} WiderSequence(scope: Names, wider: Names, bs: seq<Binding>)
    requires scope <= wider
    ensures SequenceGlobals(wider, bs) <= SequenceGlobals(scope, bs)
    decreases BindingsWeight(bs, 1), 2
  {
    if bs != [] {
      BindingParts(bs, 1);
      WiderScope(scope, wider, bs[0].body);
      WiderSequence(scope + Atoms(PatternOf(bs[0])), wider + Atoms(PatternOf(bs[0])), bs[1..]);
    }
  }

  /** What resolution leaves settled. */
  ghost predicate Closed(c: Scene, scope: Names, l: Linked<BodyForm>) { AllSettled(c.prims, l.found, Globals(scope, l.value)) }

  /** After resolving an expression every name in it that nothing binds is a helper's full name, a
      primitive or a builtin. */
  lemma {:induction false} ResolvedIsClosed(c: Scene, ns: Option<LongName>, scope: Names, e: BodyForm)
    requires ResolveExpr(c, ns, scope, e).Some?
    ensures Closed(c, scope, ResolveExpr(c, ns, scope, e).value)
    decreases Weight(e), 1
  {
    match e
    case Call(forms, tail) =>
      WeightParts(e);
      ResolvedFormsClosed(c, ns, scope, forms);
      var f := ResolveForms(c, ns, scope, forms).value;
      if tail.Some? {
        ResolvedIsClosed(c, ns, scope, tail.value);
        var t := ResolveExpr(c, ns, scope, tail.value).value;
        SettledBoth(c.prims, f.found, FormsGlobals(scope, f.value), t.found, Globals(scope, t.value));
        assert t.found + f.found == f.found + t.found;
      } else {
        assert {} + f.found == f.found;
      }
    case Value(Atom(name)) => ResolvedName(c, ns, scope, name);
    case Let(kind, inlined, bs, inner) =>
      var within := scope + Atoms(PatternList(bs));
      ResolvedIsClosed(c, ns, within, inner);
      var body := ResolveExpr(c, ns, within, inner).value;
      if kind == Sequential {
        ResolvedSequenceClosed(c, ns, scope, bs);
        var l := ResolveSequence(c, ns, scope, bs).value;
        SettledBoth(c.prims, l.found, SequenceGlobals(scope, l.value), body.found, Globals(within, body.value));
      } else if kind == Parallel {
        ResolvedBindingsClosed(c, ns, scope, bs);
        var l := ResolveBindings(c, ns, scope, bs).value;
        SettledBoth(c.prims, l.found, BindingsGlobals(scope, l.value), body.found, Globals(within, body.value));
      } else {
        ResolvedAssignClosed(c, ns, scope, bs);
        var l := ResolveAssign(c, ns, scope, bs).value;
        SettledBoth(c.prims, l.found, BindingsGlobals(within, l.value), body.found, Globals(within, body.value));
      }
    case Lambda(captureArgs, args, captures, body) =>
      var within := scope + ScopeNames(captureArgs) + ScopeNames(args);
      ResolvedIsClosed(c, ns, scope, captures);
      ResolvedIsClosed(c, ns, within, body);
      var l, b := ResolveExpr(c, ns, scope, captures).value, ResolveExpr(c, ns, within, body).value;
      SettledBoth(c.prims, l.found, Globals(scope, l.value), b.found, Globals(within, b.value));
    case _ =>
  }

  lemma {:induction false} ResolvedName(c: Scene, ns: Option<LongName>, scope: Names, name: bytes)
    requires ResolveName(c, ns, scope, name).Some?
    ensures var l := ResolveName(c, ns, scope, name).value; AllSettled(c.prims, l.found, {l.value} - scope)
  {
    var l := ResolveName(c, ns, scope, name).value;
    forall x | x in {l.value} - scope ensures Settled(c.prims, l.found, x) {
      if l.found != {} {
        var full :| full in l.found;
        assert Render(full) == x;
      }
    }
  }

  lemma {:induction false} ResolvedFormsClosed(c: Scene, ns: Option<LongName>, scope: Names, forms: seq<BodyForm>)
    requires ResolveForms(c, ns, scope, forms).Some?
    ensures var l := ResolveForms(c, ns, scope, forms).value; AllSettled(c.prims, l.found, FormsGlobals(scope, l.value))
    decreases FormsWeight(forms), 2
  {
    if forms != [] {
      ResolvedIsClosed(c, ns, scope, forms[0]);
      ResolvedFormsClosed(c, ns, scope, forms[1..]);
      var first, rest := ResolveExpr(c, ns, scope, forms[0]).value, ResolveForms(c, ns, scope, forms[1..]).value;
      SettledBoth(c.prims, first.found, Globals(scope, first.value), rest.found, FormsGlobals(scope, rest.value));
      assert ([first.value] + rest.value)[1..] == rest.value;
    }
  }

  lemma {:induction false} ResolvedBindingsClosed(c: Scene, ns: Option<LongName>, scope: Names, bs: seq<Binding>)
    requires ResolveBindings(c, ns, scope, bs).Some?
    ensures var l := ResolveBindings(c, ns, scope, bs).value;
            AllSettled(c.prims, l.found, BindingsGlobals(scope, l.value)) && PatternList(l.value) == PatternList(bs)
    decreases BindingsWeight(bs, 1), 2
  {
    if bs != [] {
      BindingParts(bs, 1);
      ResolvedIsClosed(c, ns, scope, bs[0].body);
      ResolvedBindingsClosed(c, ns, scope, bs[1..]);
      var first, rest := ResolveExpr(c, ns, scope, bs[0].body).value, ResolveBindings(c, ns, scope, bs[1..]).value;
      SettledBoth(c.prims, first.found, Globals(scope, first.value), rest.found, BindingsGlobals(scope, rest.value));
      var l := [Binding(bs[0].pattern, first.value)] + rest.value;
      assert l[1..] == rest.value && PatternOf(l[0]) == PatternOf(bs[0]);
    }
  }

  lemma {:induction false} ResolvedSequenceClosed(c: Scene, ns: Option<LongName>, scope: Names, bs: seq<Binding>)
    requires ResolveSequence(c, ns, scope, bs).Some?
    ensures var l := ResolveSequence(c, ns, scope, bs).value;
            AllSettled(c.prims, l.found, SequenceGlobals(scope, l.value)) && PatternList(l.value) == PatternList(bs)
    decreases BindingsWeight(bs, 1), 2
  {
    if bs != [] {
      BindingParts(bs, 1);
      var within := scope + Atoms(PatternOf(bs[0]));
      ResolvedIsClosed(c, ns, scope, bs[0].body);
      ResolvedSequenceClosed(c, ns, within, bs[1..]);
      var first, rest := ResolveExpr(c, ns, scope, bs[0].body).value, ResolveSequence(c, ns, within, bs[1..]).value;
      SettledBoth(c.prims, first.found, Globals(scope, first.value), rest.found, SequenceGlobals(within, rest.value));
      var l := [Binding(bs[0].pattern, first.value)] + rest.value;
      assert l[1..] == rest.value && PatternOf(l[0]) == PatternOf(bs[0]);
    }
  }

  // ---- Assign forms ----------------------------------------------------------------------------

  predicate SamePattern(a: seq<Binding>, b: seq<Binding>) { |a| == |b| && forall i :: 0 <= i < |a| ==> a[i].pattern == b[i].pattern }

  lemma {:induction false} SamePatternList(a: seq<Binding>, b: seq<Binding>)
    requires SamePattern(a, b)
    ensures PatternList(a) == PatternList(b)
  {
    if a != [] {
      SamePatternList(a[1..], b[1..]);
    }
  }

  lemma {:induction false} AtomsOfOne(bs: seq<Binding>, i: nat)
    requires i < |bs|
    ensures Atoms(PatternOf(bs[i])) <= Atoms(PatternList(bs))
  {
    if i > 0 {
      AtomsOfOne(bs[1..], i - 1);
    }
  }

  /** Which bindings have been dealt with. */
  ghost predicate DoneAre(c: Scene, within: Names, found: set<LongName>, done: seq<Binding>, indices: set<int>) {
    forall i :: 0 <= i < |done| && i in indices ==> AllSettled(c.prims, found, Globals(within, done[i].body))
  }

  lemma {:induction false} OneMoreDone(c: Scene, scope: Names, within: Names, earlier: set<LongName>, done: seq<Binding>, indices: set<int>, i: nat,
                                       pattern: BindingPattern, l: Linked<BodyForm>)
    requires i < |done| && scope <= within && DoneAre(c, within, earlier, done, indices) && Closed(c, scope, l)
    ensures DoneAre(c, within, earlier + l.found, done[i := Binding(pattern, l.value)], indices + {i})
  {
    var next := done[i := Binding(pattern, l.value)];
    WiderScope(scope, within, l.value);
    forall j | 0 <= j < |next| && j in indices + {i} ensures AllSettled(c.prims, earlier + l.found, Globals(within, next[j].body)) {
      if j == i {
        SettledMore(c.prims, l.found, Globals(scope, l.value), earlier + l.found, Globals(within, l.value));
      } else {
        SettledMore(c.prims, earlier, Globals(within, done[j].body), earlier + l.found, Globals(within, done[j].body));
      }
    }
  }

  lemma {:induction false} FirstIndex(order: seq<Spec>, indices: set<int>)
    requires order != []
    ensures indices + {order[0].index} + (set s | s in order[1..] :: s.index) == indices + (set s | s in order :: s.index)
  {
    assert order == [order[0]] + order[1..];
  }

  lemma {:induction false} ResolvedOrderedClosed(c: Scene, ns: Option<LongName>, scope: Names, bs: seq<Binding>, order: seq<Spec>, done: seq<Binding>,
                                                 earlier: set<LongName>, indices: set<int>)
    requires |done| == |bs| && (forall s :: s in order ==> s.index < |bs|) && SamePattern(done, bs)
    requires ResolveOrdered(c, ns, scope, bs, order, done).Some?
    requires DoneAre(c, scope + Atoms(PatternList(bs)), earlier, done, indices)
    ensures var l := ResolveOrdered(c, ns, scope, bs, order, done).value;
            SamePattern(l.value, bs)
            && DoneAre(c, scope + Atoms(PatternList(bs)), earlier + l.found, l.value, indices + set s | s in order :: s.index)
    decreases BindingsWeight(bs, 2), 2, |order|
  {
    if order == [] {
      assert earlier + {} == earlier;
      assert indices + (set s | s in order :: s.index) == indices;
    } else {
      assert order[0] in order;
      var i, within := order[0].index, scope + Atoms(PatternList(bs));
      BodyIsLighter(bs, i);
      ResolvedIsClosed(c, ns, scope, bs[i].body);
      var l := ResolveExpr(c, ns, scope, bs[i].body).value;
      AtomsOfOne(bs, i);
      var more, next := scope + Atoms(PatternOf(bs[i])), done[i := Binding(bs[i].pattern, l.value)];
      assert more + Atoms(PatternList(bs)) == within;
      OneMoreDone(c, scope, within, earlier, done, indices, i, bs[i].pattern, l);
      ResolvedOrderedClosed(c, ns, more, bs, order[1..], next, earlier + l.found, indices + {i});
      var rest := ResolveOrdered(c, ns, more, bs, order[1..], next).value;
      assert earlier + l.found + rest.found == earlier + (l.found + rest.found);
      FirstIndex(order, indices);
    }
  }

  lemma {:induction false} EachSettled(c: Scene, within: Names, found: set<LongName>, bs: seq<Binding>)
    requires forall i :: 0 <= i < |bs| ==> AllSettled(c.prims, found, Globals(within, bs[i].body))
    ensures AllSettled(c.prims, found, BindingsGlobals(within, bs))
  {
    if bs != [] {
      EachSettled(c, within, found, bs[1..]);
      SettledBoth(c.prims, found, Globals(within, bs[0].body), found, BindingsGlobals(within, bs[1..]));
      assert found + found == found;
    }
  }

  lemma {:induction false} ResolvedAssignClosed(c: Scene, ns: Option<LongName>, scope: Names, bs: seq<Binding>)
    requires ResolveAssign(c, ns, scope, bs).Some?
    ensures var l, within := ResolveAssign(c, ns, scope, bs).value, scope + Atoms(PatternList(bs));
            AllSettled(c.prims, l.found, BindingsGlobals(within, l.value)) && PatternList(l.value) == PatternList(bs)
    decreases BindingsWeight(bs, 2), 3
  {
    SortedInRange(bs);
    var order, within := SortBindings(bs).value, scope + Atoms(PatternList(bs));
    ResolvedOrderedClosed(c, ns, scope, bs, order, bs, {}, {});
    var l := ResolveOrdered(c, ns, scope, bs, order, bs).value;
    assert {} + l.found == l.found;
    forall i | 0 <= i < |l.value| ensures AllSettled(c.prims, l.found, Globals(within, l.value[i].body)) {
      EveryIndexSorted(bs, i);
      assert i in {} + set s | s in order :: s.index;
    }
    EachSettled(c, within, l.found, l.value);
    SamePatternList(l.value, bs);
  }
}
