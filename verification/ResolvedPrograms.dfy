/** Resolving all names of a program: `resolve_namespaces`. */
module ResolvedPrograms {
  import opened Numbers
  import opened SExpressions
  import opened Syntax
  import opened AssignForms
  import opened Namespaces
  import opened NamespaceSearch
  import opened Worklists
  import opened Resolution
  import opened Renaming

  /** `namespace_helper`. */
  function NamespaceHelper(full: LongName, h: Helper): (r: Helper) {
    match h
    case Function(f) => Function(f.(name := Render(full)))
    case Constant(_, value) => Constant(Render(full), value)
    case Macro(_) => Macro(Render(full))
    case _ => h
  }

  /** `resolve_namespaces_in_helper`. */
  function ResolveHelper(c: Scene, ns: Option<LongName>, h: Helper): (r: Option<Linked<Helper>>)
    decreases h, 0
  {
    match h
    case Function(f) =>
      (match ResolveExpr(c, ns, ScopeNames(f.args), f.body)
       case None => None
       case Some(l) => Some(Linked(Function(f.(body := l.value)), l.found)))
    case Constant(name, value) =>
      (match ResolveExpr(c, ns, {}, value)
       case None => None
       case Some(l) => Some(Linked(Constant(name, l.value), l.found)))
    case Macro(_) => None
    case NsRef(_, _) => Some(Linked(h, {}))
    case Namespace(long, inside) =>
      (match ResolveHelpers(c, Some(long), inside)
       case None => None
       case Some(l) => Some(Linked(Namespace(long, l.value), l.found)))
  }

  function ResolveHelpers(c: Scene, ns: Option<LongName>, hs: seq<Helper>): (r: Option<Linked<seq<Helper>>>)
    decreases hs, 1
  {
    if hs == [] then Some(Linked([], {}))
    else match (ResolveHelper(c, ns, hs[0]), ResolveHelpers(c, ns, hs[1..]))
      case (Some(first), Some(rest)) => Some(Linked([first.value] + rest.value, first.found + rest.found))
      case _ => None
  }

  /** The names a helper refers to that nothing in it binds. */
  function HelperGlobals(h: Helper): Names {
    match h
    case Function(f) => Globals(ScopeNames(f.args), f.body)
    case Constant(_, value) => Globals({}, value)
    case _ => {}
  }

  // ---- What is reached -------------------------------------------------------------------------

  /** How helpers are renamed when they are found: where the gensym counter stood for each, and how lets
      without an inline hint are treated. */
  datatype Counters = Counters(hintless: bool, at: LongName -> nat)

  /** `rename_args_helperform`. */
  function RenameHelper(hintless: bool, h: Helper, count: nat): (r: Helper)
    ensures IsNamed(r) == IsNamed(h) && (IsNamed(h) ==> HelperName(r) == HelperName(h))
  {
    match h
    case Function(f) => Function(RenameDefun(hintless, f, count).value)
    case Constant(name, value) => Constant(name, RenameArgs(hintless, value, count).value)
    case _ => h
  }

  /** The helper that a full name ends up as. */
  function Outcome(c: Scene, counters: Counters, full: LongName): (r: Option<Linked<Helper>>) {
    match At(c.helpers, full)
    case None => None
    case Some(h) => ResolveHelper(c, Parent(full), NamespaceHelper(full, RenameHelper(counters.hintless, h, counters.at(full))))
  }

  /** All full names that name a helper. */
  function AllNames(helpers: seq<Helper>): set<LongName> {
    set p | p in Tour(None, helpers) :: (match p.namespace case None => [HelperName(p.helper)] case Some(ns) => ns + [HelperName(p.helper)])
  }

  lemma {:induction false} NamedIsListed(helpers: seq<Helper>, full: LongName)
    requires At(helpers, full).Some? && full != []
    ensures full in AllNames(helpers)
  {
    var p :| p in Home(helpers, Parent(full)) && p.helper == At(helpers, full).value;
    assert p in Tour(None, helpers) && p.namespace == Parent(full) && HelperName(p.helper) == Child(full);
    assert full == if |full| > 1 then full[..|full| - 1] + [Child(full)] else [Child(full)];
  }

  // ---- What expressions find names helpers -----------------------------------------------------

  ghost predicate AllNamed(c: Scene, found: set<LongName>) { forall full :: full in found ==> At(c.helpers, full).Some? && full != [] }

  /** A place to resolve in: the root or a named namespace. */
  predicate Somewhere(ns: Option<LongName>) { ns != Some([]) }

  lemma {:induction false} FoundAreNamed(c: Scene, ns: Option<LongName>, scope: Names, e: BodyForm)
    requires ImportsNamed(c.helpers) && Somewhere(ns) && ResolveExpr(c, ns, scope, e).Some?
    ensures AllNamed(c, ResolveExpr(c, ns, scope, e).value.found)
    decreases Weight(e), 1
  {
    match e
    case Call(forms, tail) =>
      WeightParts(e);
      FormsFoundNamed(c, ns, scope, forms);
      if tail.Some? {
        FoundAreNamed(c, ns, scope, tail.value);
      }
    case Value(Atom(name)) =>
      if name !in scope && Find(c.depth, c.helpers, ns, name, ParseName(name)).Found? {
        assert Child(ParseName(name)) in ParseName(name);
        FoundIsNamed(c.depth, c.helpers, ns, name, ParseName(name));
      }
    case Let(kind, inlined, bs, inner) =>
      FoundAreNamed(c, ns, scope + Atoms(PatternList(bs)), inner);
      WeightPerBinding(bs);
      if kind == Sequential {
        SequenceFoundNamed(c, ns, scope, bs);
      } else if kind == Parallel {
        BindingsFoundNamed(c, ns, scope, bs);
      } else {
        SortedInRange(bs);
        OrderedFoundNamed(c, ns, scope, bs, SortBindings(bs).value, bs);
      }
    case Lambda(captureArgs, args, captures, body) =>
      FoundAreNamed(c, ns, scope, captures);
      FoundAreNamed(c, ns, scope + ScopeNames(captureArgs) + ScopeNames(args), body);
    case _ =>
  }

  lemma {:induction false} FormsFoundNamed(c: Scene, ns: Option<LongName>, scope: Names, forms: seq<BodyForm>)
    requires ImportsNamed(c.helpers) && Somewhere(ns) && ResolveForms(c, ns, scope, forms).Some?
    ensures AllNamed(c, ResolveForms(c, ns, scope, forms).value.found)
    decreases FormsWeight(forms), 2
  {
    if forms != [] {
      FoundAreNamed(c, ns, scope, forms[0]);
      FormsFoundNamed(c, ns, scope, forms[1..]);
    }
  }

  lemma {:induction false} BindingsFoundNamed(c: Scene, ns: Option<LongName>, scope: Names, bs: seq<Binding>)
    requires ImportsNamed(c.helpers) && Somewhere(ns) && ResolveBindings(c, ns, scope, bs).Some?
    ensures AllNamed(c, ResolveBindings(c, ns, scope, bs).value.found)
    decreases BindingsWeight(bs, 1), 2
  {
    if bs != [] {
      BindingParts(bs, 1);
      FoundAreNamed(c, ns, scope, bs[0].body);
      BindingsFoundNamed(c, ns, scope, bs[1..]);
    }
  }

  lemma {:induction false} SequenceFoundNamed(c: Scene, ns: Option<LongName>, scope: Names, bs: seq<Binding>)
    requires ImportsNamed(c.helpers) && Somewhere(ns) && ResolveSequence(c, ns, scope, bs).Some?
    ensures AllNamed(c, ResolveSequence(c, ns, scope, bs).value.found)
    decreases BindingsWeight(bs, 1), 2
  {
    if bs != [] {
      BindingParts(bs, 1);
      FoundAreNamed(c, ns, scope, bs[0].body);
      SequenceFoundNamed(c, ns, scope + Atoms(PatternOf(bs[0])), bs[1..]);
    }
  }

  lemma {:induction false} OrderedFoundNamed(c: Scene, ns: Option<LongName>, scope: Names, bs: seq<Binding>, order: seq<Spec>, done: seq<Binding>)
    requires ImportsNamed(c.helpers) && Somewhere(ns) && |done| == |bs| && (forall s :: s in order ==> s.index < |bs|)
    requires ResolveOrdered(c, ns, scope, bs, order, done).Some?
    ensures AllNamed(c, ResolveOrdered(c, ns, scope, bs, order, done).value.found)
    decreases BindingsWeight(bs, 2), 2, |order|
  {
    if order != [] {
      assert order[0] in order;
      var i := order[0].index;
      BodyIsLighter(bs, i);
      FoundAreNamed(c, ns, scope, bs[i].body);
      var l := ResolveExpr(c, ns, scope, bs[i].body).value;
      OrderedFoundNamed(c, ns, scope + Atoms(PatternOf(bs[i])), bs, order[1..], done[i := Binding(bs[i].pattern, l.value)]);
    }
  }

  lemma {:induction false} OutcomeIsClosed(c: Scene, counters: Counters, full: LongName)
    requires ImportsNamed(c.helpers) && full != [] && Outcome(c, counters, full).Some?
    ensures var l := Outcome(c, counters, full).value;
            AllSettled(c.prims, l.found, HelperGlobals(l.value)) && AllNamed(c, l.found) && HelperName(l.value) == Render(full)
  {
    var h := RenameHelper(counters.hintless, At(c.helpers, full).value, counters.at(full));
    match h
    case Function(f) =>
      ResolvedIsClosed(c, Parent(full), ScopeNames(f.args), f.body);
      FoundAreNamed(c, Parent(full), ScopeNames(f.args), f.body);
    case Constant(_, value) =>
      ResolvedIsClosed(c, Parent(full), {}, value);
      FoundAreNamed(c, Parent(full), {}, value);
    case _ =>
  }

  // ---- The program -----------------------------------------------------------------------------

  datatype Resolved = Resolved(helpers: map<LongName, Helper>, main: BodyForm)

  /** The names of the output's helpers. */
  function OutputNames(helpers: map<LongName, Helper>): Names { set full | full in helpers :: HelperName(helpers[full]) }

  /** Every name left is a helper of the output, a primitive or a builtin. */
  ghost predicate SelfContained(prims: map<bytes, SExp>, names: Names, globals: Names) {
    forall x :: x in globals ==> x in names || IsBuiltin(x) || IsPrimitive(prims, x)
  }

  ghost predicate FullyNamed(helpers: map<LongName, Helper>) { forall full :: full in helpers ==> HelperName(helpers[full]) == Render(full) }

  lemma {:induction false} SettledIsContained(prims: map<bytes, SExp>, helpers: map<LongName, Helper>, found: set<LongName>, globals: Names)
    requires AllSettled(prims, found, globals) && found <= helpers.Keys && FullyNamed(helpers)
    ensures SelfContained(prims, OutputNames(helpers), globals)
  {
    forall x | x in globals ensures x in OutputNames(helpers) || IsBuiltin(x) || IsPrimitive(prims, x) {
      assert Settled(prims, found, x);
      if full :| full in found && Render(full) == x {
        assert full in helpers && HelperName(helpers[full]) in OutputNames(helpers);
      }
    }
  }

  lemma {:induction false} ListedIsClosed(c: Scene, counters: Counters, outcome: Outcomes)
    requires ImportsNamed(c.helpers) && forall full :: outcome(full) == Outcome(c, counters, full)
    ensures ClosedUnder(outcome, AllNames(c.helpers))
  {
    forall full | full in AllNames(c.helpers) ensures LeadsInto(outcome, full, AllNames(c.helpers)) {
      if outcome(full).Some? {
        OutcomeIsClosed(c, counters, full);
        forall next | next in outcome(full).value.found ensures next in AllNames(c.helpers) {
          NamedIsListed(c.helpers, next);
        }
      }
    }
  }

  lemma {:induction false} OutputIsContained(c: Scene, counters: Counters, outcome: Outcomes, start: set<LongName>,
                                             helpers: map<LongName, Helper>)
    requires ImportsNamed(c.helpers) && (forall full :: outcome(full) == Outcome(c, counters, full))
    requires IsOutput(outcome, start, helpers) && helpers.Keys <= AllNames(c.helpers)
    ensures FullyNamed(helpers) && HelpersContained(c.prims, helpers)
  {
    forall full | full in helpers ensures HelperName(helpers[full]) == Render(full) {
      OutcomeIsClosed(c, counters, full);
    }
    forall full | full in helpers ensures SelfContained(c.prims, OutputNames(helpers), HelperGlobals(helpers[full])) {
      OutcomeIsClosed(c, counters, full);
      SettledIsContained(c.prims, helpers, outcome(full).value.found, HelperGlobals(helpers[full]));
    }
  }

  ghost predicate HelpersContained(prims: map<bytes, SExp>, helpers: map<LongName, Helper>) {
    forall full :: full in helpers ==> SelfContained(prims, OutputNames(helpers), HelperGlobals(helpers[full]))
  }

  lemma {:induction false} ReachedIsListed(outcome: Outcomes, start: set<LongName>, helpers: map<LongName, Helper>, all: set<LongName>)
    requires IsOutput(outcome, start, helpers) && start <= all && ClosedUnder(outcome, all)
    ensures helpers.Keys <= all
  {
    forall full | full in helpers.Keys ensures full in all {
      assert Reachable(outcome, start, full);
      assert ReachedWithin(outcome, start, full, all);
    }
  }

  /** `resolve_namespaces`: it ends; it fails exactly when the main expression or a helper reached from
      it cannot be resolved; otherwise the program has exactly the helpers that are reached, each
      under its full name, and no name in it is left unexplained. */
  method ResolveNamespaces(c: Scene, counters: Counters, args: SExp, main: BodyForm) returns (r: Option<Resolved>)
    requires ImportsNamed(c.helpers)
    ensures var m, outcome := ResolveExpr(c, None, ScopeNames(args), main), full => Outcome(c, counters, full);
            r == None <==> m == None || exists full :: Reachable(outcome, m.value.found, full) && Outcome(c, counters, full) == None
    ensures r.Some? ==>
              var m, outcome := ResolveExpr(c, None, ScopeNames(args), main).value, full => Outcome(c, counters, full);
              r.value.main == m.value && IsOutput(outcome, m.found, r.value.helpers) && FullyNamed(r.value.helpers)
    ensures r.Some? ==>
              SelfContained(c.prims, OutputNames(r.value.helpers), Globals(ScopeNames(args), r.value.main))
              && HelpersContained(c.prims, r.value.helpers)
  {
    var m := ResolveExpr(c, None, ScopeNames(args), main);
    if m == None {
      return None;
    }
    ResolvedIsClosed(c, None, ScopeNames(args), main);
    FoundAreNamed(c, None, ScopeNames(args), main);
    var outcome := full => Outcome(c, counters, full);
    ghost var all := AllNames(c.helpers);
    forall full | full in m.value.found ensures full in all {
      NamedIsListed(c.helpers, full);
    }
    ListedIsClosed(c, counters, outcome);
    var helpers := CollectHelpers(outcome, m.value.found, all);
    if helpers == None {
      return None;
    }
    ReachedIsListed(outcome, m.value.found, helpers.value, all);
    OutputIsContained(c, counters, outcome, m.value.found, helpers.value);
    SettledIsContained(c.prims, helpers.value, m.value.found, Globals(ScopeNames(args), m.value.value));
    return Some(Resolved(helpers.value, m.value.value));
  }
}
