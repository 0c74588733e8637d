/** After renaming, no two binders anywhere share a name. */
module RenamingApart {
  import opened Numbers
  import opened SExpressions
  import opened Syntax
  import opened AssignForms
  import opened AssignWeight
  import opened Gensyms
  import opened HoistingNames
  import opened CodeGeneration
  import opened Renaming
  import opened RenamingNames

  // ---- Binders that differ ---------------------------------------------------------------------

  /** A pattern names nothing twice. */
  predicate NamesOnce(p: SExp) { p.Cons? ==> Named(p.first) !! Named(p.rest) && NamesOnce(p.first) && NamesOnce(p.rest) }

  /** Every name bound anywhere in an expression is bound at one place only. */
  predicate BindersApart(e: BodyForm) {
    match e
    case Let(_, _, bs, inner) =>
      NamesOnce(PatternList(bs)) && BindingsApart(bs) && BindersApart(inner)
      && Named(PatternList(bs)) !! BindingsBinders(bs) && (Named(PatternList(bs)) + BindingsBinders(bs)) !! Binders(inner)
    case Call(forms, tail) =>
      FormsApart(forms) && (tail.Some? ==> BindersApart(tail.value) && FormsBinders(forms) !! Binders(tail.value))
    case _ => true
  }

  predicate BodyApart(b: Binding) { BindersApart(b.body) }

  predicate BindingsApart(bs: seq<Binding>) {
    bs == [] || (BodyApart(bs[0]) && BodyBinders(bs[0]) !! BindingsBinders(bs[1..]) && BindingsApart(bs[1..]))
  }

  predicate FormsApart(forms: seq<BodyForm>) {
    forms == [] || (BindersApart(forms[0]) && Binders(forms[0]) !! FormsBinders(forms[1..]) && FormsApart(forms[1..]))
  }

  /** No single pattern of an expression names anything twice. */
  predicate PatternsOnce(e: BodyForm) {
    match e
    case Let(_, _, bs, inner) => BindingsOnce(bs) && PatternsOnce(inner)
    case Call(forms, tail) => FormsOnce(forms) && (tail.Some? ==> PatternsOnce(tail.value))
    case _ => true
  }

  predicate BindingOnce(b: Binding) { NamesOnce(PatternOf(b)) && PatternsOnce(b.body) }

  predicate BindingsOnce(bs: seq<Binding>) { bs == [] || (BindingOnce(bs[0]) && BindingsOnce(bs[1..])) }

  predicate FormsOnce(forms: seq<BodyForm>) { forms == [] || (PatternsOnce(forms[0]) && FormsOnce(forms[1..])) }

  // ---- What may be renamed ---------------------------------------------------------------------

  /** Patterns that are renamed leaf by leaf, assign forms that can be put in order, no lambdas. */
  predicate Bindable(e: BodyForm) {
    match e
    case Let(kind, _, bs, inner) =>
      (kind == Assign ==> SortBindings(bs).Known? && AllComplex(bs)) && BindingsBindable(bs) && Bindable(inner)
    case Call(forms, tail) => FormsBindable(forms) && (tail.Some? ==> Bindable(tail.value))
    case Lambda(_, _, _, _) => false
    case _ => true
  }

  predicate BindingBindable(b: Binding) { Renameable(PatternOf(b)) && Bindable(b.body) }

  predicate BindingsBindable(bs: seq<Binding>) { bs == [] || (BindingBindable(bs[0]) && BindingsBindable(bs[1..])) }

  predicate FormsBindable(forms: seq<BodyForm>) { forms == [] || (Bindable(forms[0]) && FormsBindable(forms[1..])) }

  // ---- Sets of invented names ------------------------------------------------------------------

  lemma {:induction false} SpansApart(a: Names, lo: nat, mid: nat, b: Names, mid': nat, hi: nat)
    requires AllFresh(a, lo, mid) && AllFresh(b, mid', hi) && mid <= mid'
    ensures a !! b
  {
    forall x | x in a ensures x !in b {
      if x in b {
        FreshApart(x, lo, mid, x, mid', hi);
      }
    }
  }

  lemma {:induction false} SpansJoin(a: Names, lo: nat, mid: nat, b: Names, mid': nat, hi: nat)
    requires AllFresh(a, lo, mid) && AllFresh(b, mid', hi) && lo <= mid' && mid <= hi
    ensures AllFresh(a + b, lo, hi)
  {
    FreshAllWider(a, lo, mid, lo, hi);
    FreshAllWider(b, mid', hi, lo, hi);
  }

  // ---- Patterns --------------------------------------------------------------------------------

  /** Every name of a pattern is mapped to one invented for it in a span; `@` stays. */
  ghost predicate NewFor(m: NameMap, names: Names, lo: nat, hi: nat) { AT !in m && forall x :: x in names ==> InventedAs(m, x, lo, hi) }

  lemma {:induction false} InventsFor(p: SExp, m: NameMap, count: nat)
    requires AT !in m
    ensures var r := InventNames(p, m, count);
            NewFor(r.names, Named(p), count, r.next) && m.Keys <= r.names.Keys
            && forall x :: x in m && x !in Named(p) ==> r.names[x] == m[x]
  {
    match p
    case Cons(a, b) =>
      InventsFor(a, m, count);
      var left := InventNames(a, m, count);
      InventsFor(b, left.names, left.next);
      var r := InventNames(p, m, count);
      forall x | x in Named(p) ensures InventedAs(r.names, x, count, r.next) {
        if x in Named(b) {
          assert InventedAs(r.names, x, left.next, r.next);
        } else {
          assert InventedAs(left.names, x, count, left.next);
        }
      }
    case _ =>
  }

  lemma {:induction false} NewNamesFresh(m: NameMap, p: SExp, lo: nat, hi: nat)
    requires NewFor(m, Named(p), lo, hi)
    ensures AllFresh(Named(RenamePattern(m, p)), lo, hi)
  {
    match p
    case Atom(a) =>
      if a != AT {
        InventedName(m, a, lo, hi);
      }
    case Cons(a, b) =>
      NewNamesFresh(m, a, lo, hi);
      NewNamesFresh(m, b, lo, hi);
    case _ =>
  }

  lemma {:induction false} InventedName(m: NameMap, x: bytes, lo: nat, hi: nat)
    requires InventedAs(m, x, lo, hi)
    ensures FreshName(m[x], lo, hi) && m[x] != AT
  {
    var j: nat :| lo <= j < hi && m[x] == Gensym(x, j);
    assert |m[x]| > |AT|;
  }

  /** The new names of different names differ. */
  lemma {:induction false} RenamedApart(m: NameMap, p: SExp, q: SExp, lo: nat, hi: nat)
    requires NewFor(m, Named(p) + Named(q), lo, hi)
    ensures Named(RenamePattern(m, p)) !! Named(RenamePattern(m, q)) <==> Named(p) !! Named(q)
  {
    forall y ensures y in Named(RenamePattern(m, p)) <==> exists x :: x in Named(p) && m[x] == y { RenamedFrom(m, p, y, lo, hi); }
    forall y ensures y in Named(RenamePattern(m, q)) <==> exists x :: x in Named(q) && m[x] == y { RenamedFrom(m, q, y, lo, hi); }
    if x :| x in Named(p) && x in Named(q) {
      assert m[x] in Named(RenamePattern(m, p)) && m[x] in Named(RenamePattern(m, q));
    }
    if y :| y in Named(RenamePattern(m, p)) && y in Named(RenamePattern(m, q)) {
      var a :| a in Named(p) && m[a] == y;
      var b :| b in Named(q) && m[b] == y;
      InventedApart(m, lo, hi, a, b);
    }
  }

  lemma {:induction false} RenamedFrom(m: NameMap, p: SExp, y: bytes, lo: nat, hi: nat)
    requires NewFor(m, Named(p), lo, hi)
    ensures y in Named(RenamePattern(m, p)) <==> exists x :: x in Named(p) && m[x] == y
  {
    match p
    case Atom(a) =>
      if a != AT {
        InventedName(m, a, lo, hi);
        assert Named(p) == {a};
      }
    case Cons(a, b) =>
      RenamedFrom(m, a, y, lo, hi);
      RenamedFrom(m, b, y, lo, hi);
      assert Named(p) == Named(a) + Named(b);
    case _ =>
  }

  lemma {:induction false} RenamedOnce(m: NameMap, p: SExp, lo: nat, hi: nat)
    requires NewFor(m, Named(p), lo, hi)
    ensures NamesOnce(RenamePattern(m, p)) <==> NamesOnce(p)
  {
    if p.Cons? {
      RenamedApart(m, p.first, p.rest, lo, hi);
      RenamedOnce(m, p.first, lo, hi);
      RenamedOnce(m, p.rest, lo, hi);
    }
  }

  /** A pattern and what renaming makes of it. */
  ghost predicate NewPattern(p: SExp, r: SExp, lo: nat, hi: nat) { AllFresh(Named(r), lo, hi) && (NamesOnce(r) <==> NamesOnce(p)) }

  lemma {:induction false} MakesNewPattern(p: BindingPattern, count: nat)
    requires Renameable(PatternOf(Binding(p, Quoted(Nil))))
    ensures var u := MakeUnique(p, count);
            NewPattern(PatternOf(Binding(p, Quoted(Nil))), PatternOf(Binding(u.pattern, Quoted(Nil))), count, u.next)
  {
    var u := MakeUnique(p, count);
    match p
    case Name(n) => assert Named(Atom(Gensym(n, count))) <= {Gensym(n, count)};
    case Complex(s) => InventsNewPattern(s, map[], count);
  }

  lemma {:induction false} InventsNewPattern(p: SExp, m: NameMap, count: nat)
    requires Renameable(p) && AT !in m
    ensures var own := InventNames(p, m, count);
            NewPattern(p, RenameInCons(own.names, p, false), count, own.next) && NewPattern(p, RenameInCons(own.names, p, true), count, own.next)
            && AT !in own.names
  {
    var own := InventNames(p, m, count);
    InventsFor(p, m, count);
    RenamesEveryLeaf(own.names, p, false);
    RenamesEveryLeaf(own.names, p, true);
    NewNamesFresh(own.names, p, count, own.next);
    RenamedOnce(own.names, p, count, own.next);
  }

  // ---- Replacing free names --------------------------------------------------------------------

  /** Replacing free names leaves binders where they are. */
  lemma {:induction false} ReplacingKeepsBinders(m: NameMap, e: BodyForm)
    ensures Binders(RenameIn(m, e)) == Binders(e) && (BindersApart(RenameIn(m, e)) <==> BindersApart(e))
    decreases Weight(e), 1
  {
    match e
    case Let(_, _, bs, inner) =>
      WeightPerBinding(bs);
      SamePatterns(m, bs);
      ReplacingKeepsBindings(m, bs);
      ReplacingKeepsBinders(m, inner);
    case Call(forms, tail) =>
      WeightParts(e);
      if tail.Some? {
        ReplacingKeepsBinders(m, tail.value);
      }
      if forms != [] {
        ReplacingKeepsForms(m, forms[1..]);
        var r := RenameIn(m, e).forms;
        assert r[0] == forms[0] && r[1..] == RenameInForms(m, forms[1..]);
      }
    case _ =>
  }

  lemma {:induction false} ReplacingKeepsBindings(m: NameMap, bs: seq<Binding>)
    ensures var r := RenameInBindings(m, bs); BindingsBinders(r) == BindingsBinders(bs) && (BindingsApart(r) <==> BindingsApart(bs))
    decreases BindingsWeight(bs, 1), 2
  {
    if bs != [] {
      BindingParts(bs, 1);
      ReplacingKeepsBinders(m, bs[0].body);
      ReplacingKeepsBindings(m, bs[1..]);
      var b := RenameInBody(m, bs[0]);
      assert BodyBinders(b) == BodyBinders(bs[0]) && (BodyApart(b) <==> BodyApart(bs[0]));
      assert RenameInBindings(m, bs)[1..] == RenameInBindings(m, bs[1..]);
    }
  }

  lemma {:induction false} ReplacingKeepsForms(m: NameMap, forms: seq<BodyForm>)
    ensures var r := RenameInForms(m, forms); FormsBinders(r) == FormsBinders(forms) && (FormsApart(r) <==> FormsApart(forms))
    decreases FormsWeight(forms), 2
  {
    if forms != [] {
      ReplacingKeepsBinders(m, forms[0]);
      ReplacingKeepsForms(m, forms[1..]);
      assert RenameInForms(m, forms)[1..] == RenameInForms(m, forms[1..]);
    }
  }

  // ---- Renaming --------------------------------------------------------------------------------

  /** What renaming an expression makes of its binders. */
  ghost predicate NewBinders(e: BodyForm, r: BodyForm, lo: nat, hi: nat) {
    AllFresh(Binders(r), lo, hi) && (BindersApart(r) <==> PatternsOnce(e))
  }

  ghost predicate NewBodies(bs: seq<Binding>, r: seq<BodyForm>, lo: nat, hi: nat) {
    AllFresh(FormsBinders(r), lo, hi) && |r| == |bs| && (FormsApart(r) <==> BodiesOnce(bs))
  }

  predicate BodyOnce(b: Binding) { PatternsOnce(b.body) }

  predicate BodiesOnce(bs: seq<Binding>) { bs == [] || (BodyOnce(bs[0]) && BodiesOnce(bs[1..])) }

  predicate EachOnce(bs: seq<Binding>) { bs == [] || (NamesOnce(PatternOf(bs[0])) && EachOnce(bs[1..])) }

  lemma {:induction false} OnceParts(bs: seq<Binding>)
    ensures BindingsOnce(bs) <==> EachOnce(bs) && BodiesOnce(bs)
  {
    if bs != [] {
      OnceParts(bs[1..]);
      assert BindingOnce(bs[0]) <==> NamesOnce(PatternOf(bs[0])) && BodyOnce(bs[0]);
    }
  }

  lemma {:induction false} NewGroup(bs: seq<Binding>, m: NameMap, count: nat)
    requires BindingsBindable(bs)
    ensures var u := MakeAllUnique(bs, m, count);
            AllFresh(Named(PatternsList(u.patterns)), count, u.next) && (NamesOnce(PatternsList(u.patterns)) <==> EachOnce(bs))
  {
    if bs != [] {
      var b := bs[0];
      assert BindingBindable(b) && PatternOf(Binding(b.pattern, Quoted(Nil))) == PatternOf(b);
      MakesNewPattern(b.pattern, count);
      var u := MakeUnique(b.pattern, count);
      NewGroup(bs[1..], m + u.names, u.next);
      var rest := MakeAllUnique(bs[1..], m + u.names, u.next);
      var p, q := PatternOf(Binding(u.pattern, Quoted(Nil))), PatternsList(rest.patterns);
      SpansApart(Named(p), count, u.next, Named(q), u.next, rest.next);
      SpansJoin(Named(p), count, u.next, Named(q), u.next, rest.next);
      assert PatternsList([u.pattern] + rest.patterns) == Cons(p, q) by { assert ([u.pattern] + rest.patterns)[1..] == rest.patterns; }
      assert Named(Cons(p, q)) == Named(p) + Named(q);
    }
  }

  lemma {:induction false} BodiesBinders(ps: seq<BindingPattern>, bodies: seq<BodyForm>)
    requires |ps| == |bodies|
    ensures var bs := WithBodies(ps, bodies); BindingsBinders(bs) == FormsBinders(bodies) && (BindingsApart(bs) <==> FormsApart(bodies))
  {
    if ps != [] {
      var bs := WithBodies(ps, bodies);
      BodiesBinders(ps[1..], bodies[1..]);
      assert bs[1..] == WithBodies(ps[1..], bodies[1..]);
      assert BodyBinders(bs[0]) == Binders(bodies[0]) && (BodyApart(bs[0]) <==> BindersApart(bodies[0]));
    }
  }

  /** A group of bindings whose binders are new and differ. */
  ghost predicate NewRun(bs: seq<Binding>, r: seq<Binding>, lo: nat, hi: nat) {
    AllFresh(Named(PatternList(r)) + BindingsBinders(r), lo, hi) && Named(PatternList(r)) !! BindingsBinders(r)
    && (NamesOnce(PatternList(r)) <==> EachOnce(bs)) && (BindingsApart(r) <==> BodiesOnce(bs))
  }

  lemma {:induction false} ParallelRun(bs: seq<Binding>, ps: seq<BindingPattern>, bodies: seq<BodyForm>, lo: nat, mid: nat, hi: nat)
    requires |ps| == |bodies| && lo <= mid <= hi
    requires AllFresh(Named(PatternsList(ps)), lo, mid) && (NamesOnce(PatternsList(ps)) <==> EachOnce(bs)) && NewBodies(bs, bodies, mid, hi)
    ensures NewRun(bs, WithBodies(ps, bodies), lo, hi)
  {
    PatternsOnly(ps, bodies);
    BodiesBinders(ps, bodies);
    SpansApart(Named(PatternsList(ps)), lo, mid, FormsBinders(bodies), mid, hi);
    SpansJoin(Named(PatternsList(ps)), lo, mid, FormsBinders(bodies), mid, hi);
  }

  /** A let put together from such a group and a body whose binders were invented later. */
  lemma {:induction false} LetApart(e: BodyForm, kind: LetKind, inlined: bool, bs: seq<Binding>, m: NameMap, inner: BodyForm,
                                    lo: nat, mid: nat, hi: nat)
    requires e.Let? && lo <= mid <= hi && NewRun(e.bindings, bs, lo, mid) && NewBinders(e.inner, inner, mid, hi)
    ensures NewBinders(e, Let(kind, inlined, bs, RenameIn(m, inner)), lo, hi)
  {
    ReplacingKeepsBinders(m, inner);
    OnceParts(e.bindings);
    var own, rest := Named(PatternList(bs)) + BindingsBinders(bs), Binders(inner);
    SpansApart(own, lo, mid, rest, mid, hi);
    SpansJoin(own, lo, mid, rest, mid, hi);
  }

  // ---- Assign forms ----------------------------------------------------------------------------

  lemma {:induction false} NamedBoth(a: seq<Binding>, b: seq<Binding>)
    ensures Named(PatternList(a + b)) == Named(PatternList(a)) + Named(PatternList(b))
    ensures BindingsBinders(a + b) == BindingsBinders(a) + BindingsBinders(b)
    ensures NamesOnce(PatternList(a + b)) <==>
            NamesOnce(PatternList(a)) && NamesOnce(PatternList(b)) && Named(PatternList(a)) !! Named(PatternList(b))
    ensures BindingsApart(a + b) <==> BindingsApart(a) && BindingsApart(b) && BindingsBinders(a) !! BindingsBinders(b)
  {
    if a == [] {
      assert a + b == b;
    } else {
      NamedBoth(a[1..], b);
      assert (a + b)[0] == a[0] && (a + b)[1..] == a[1..] + b;
      assert Named(PatternList(a)) == Named(PatternOf(a[0])) + Named(PatternList(a[1..]));
      assert Named(PatternList(a + b)) == Named(PatternOf(a[0])) + Named(PatternList(a[1..] + b));
    }
  }

  lemma {:induction false} OneBinding(b: Binding)
    ensures Named(PatternList([b])) == Named(PatternOf(b)) && BindingsBinders([b]) == BodyBinders(b)
    ensures (NamesOnce(PatternList([b])) <==> NamesOnce(PatternOf(b))) && (BindingsApart([b]) <==> BodyApart(b))
  {
    assert [b][1..] == [];
    assert PatternList([b]) == Cons(PatternOf(b), PatternList([])) == Cons(PatternOf(b), Nil) && NamesOnce(Nil);
    assert Atoms(PatternList([b])) == Atoms(PatternOf(b)) + Atoms(Nil) == Atoms(PatternOf(b));
    assert BindingsBinders([]) == {} && BindingsApart([]) && BindingsBinders([b]) == BodyBinders(b) + BindingsBinders([]);
    assert BindingsApart([b]) <==> BodyApart(b) && BodyBinders(b) !! BindingsBinders([b][1..]) && BindingsApart([b][1..]);
  }

  lemma {:induction false} BackwardsApart(s: seq<Binding>)
    ensures var r := Backwards(s);
            Named(PatternList(r)) == Named(PatternList(s)) && BindingsBinders(r) == BindingsBinders(s)
            && (NamesOnce(PatternList(r)) <==> NamesOnce(PatternList(s))) && (BindingsApart(r) <==> BindingsApart(s))
  {
    if s != [] {
      BackwardsApart(s[1..]);
      NamedBoth(Backwards(s[1..]), [s[0]]);
      NamedBoth([s[0]], s[1..]);
      OneBinding(s[0]);
      assert [s[0]] + s[1..] == s;
    }
  }

  lemma {:induction false} OnceMembers(bs: seq<Binding>)
    ensures EachOnce(bs) <==> forall b :: b in bs ==> NamesOnce(PatternOf(b))
    ensures BodiesOnce(bs) <==> forall b :: b in bs ==> BodyOnce(b)
    ensures BindingsBindable(bs) <==> forall b :: b in bs ==> BindingBindable(b)
  {
    if bs != [] {
      OnceMembers(bs[1..]);
      forall b ensures b in bs <==> b == bs[0] || b in bs[1..] { assert bs == [bs[0]] + bs[1..]; }
      assert bs[0] in bs;
    }
  }

  lemma {:induction false} InOrderOnce(bs: seq<Binding>)
    requires SortBindings(bs).Known?
    ensures EachOnce(InOrder(bs)) <==> EachOnce(bs)
    ensures BodiesOnce(InOrder(bs)) <==> BodiesOnce(bs)
    ensures BindingsBindable(InOrder(bs)) <==> BindingsBindable(bs)
    ensures AllComplex(bs) ==> AllComplex(InOrder(bs))
  {
    InOrderHolds(bs);
    OnceMembers(bs);
    OnceMembers(InOrder(bs));
  }

  lemma {:induction false} NewFirst(bs: seq<Binding>, first: Binding, rest: seq<Binding>, body: BodyForm, m: NameMap,
                                    lo: nat, own: nat, mid: nat, hi: nat)
    requires bs != [] && lo <= own <= mid <= hi && first.body == RenameIn(m, body)
    requires NewPattern(PatternOf(bs[0]), PatternOf(first), lo, own) && NewBinders(bs[0].body, body, own, mid) && NewRun(bs[1..], rest, mid, hi)
    ensures NewRun(bs, [first] + rest, lo, hi)
  {
    ReplacingKeepsBinders(m, body);
    NamedBoth([first], rest);
    OneBinding(first);
    var p, inside, later := Named(PatternOf(first)), Binders(body), Named(PatternList(rest)) + BindingsBinders(rest);
    assert BodyBinders(first) == inside && (BodyApart(first) <==> BindersApart(body)) && (BodyOnce(bs[0]) <==> PatternsOnce(bs[0].body));
    SpansApart(p, lo, own, inside, own, mid);
    SpansJoin(p, lo, own, inside, own, mid);
    SpansApart(p + inside, lo, mid, later, mid, hi);
    SpansJoin(p + inside, lo, mid, later, mid, hi);
  }

  lemma {:induction false} RenamedInOrderDiffers(hintless: bool, bs: seq<Binding>, m: NameMap, count: nat)
    requires BindingsBindable(bs) && AllComplex(bs) && AT !in m
    ensures var g := RenameInOrder(hintless, bs, m, count); NewRun(bs, g.bindings, count, g.next)
    decreases BindingsWeight(bs, 1), 2
  {
    if bs != [] {
      BindingParts(bs, 1);
      assert BindingBindable(bs[0]) && bs[0].pattern.Complex?;
      var p := bs[0].pattern.pattern;
      InventsNewPattern(p, m, count);
      var own := InventNames(p, m, count);
      RenamedBindersDiffer(hintless, bs[0].body, own.next);
      var body := RenameArgs(hintless, bs[0].body, own.next);
      assert AllComplex(bs[1..]);
      RenamedInOrderDiffers(hintless, bs[1..], own.names, body.next);
      var rest := RenameInOrder(hintless, bs[1..], own.names, body.next);
      var first := Binding(Complex(RenameInCons(own.names, p, false)), RenameIn(own.names, body.value));
      NewFirst(bs, first, rest.bindings, body.value, own.names, count, own.next, body.next, rest.next);
    }
  }

  lemma {:induction false} RenamedAssignDiffers(hintless: bool, e: BodyForm, count: nat)
    requires e.Let? && e.kind == Assign && Bindable(e)
    ensures var r := RenameArgs(hintless, e, count); NewBinders(e, r.value, count, r.next)
    decreases Weight(e), 0
  {
    var Let(_, inlined, bs, inner) := e;
    InOrderWeight(bs);
    WeightPerBinding(bs);
    InOrderOnce(bs);
    RenamedInOrderDiffers(hintless, InOrder(bs), map[], count);
    var g := RenameInOrder(hintless, InOrder(bs), map[], count);
    BackwardsApart(g.bindings);
    RenamedBindersDiffer(hintless, inner, g.next);
    var body := RenameArgs(hintless, inner, g.next);
    LetApart(e, Assign, inlined, Backwards(g.bindings), g.names, body.value, count, g.next, body.next);
  }

  // ---- The proof -------------------------------------------------------------------------------

  /** Renaming gives every binder a name of its own: binders at different places never share one, and
      one pattern names something twice only if it did so before. */
  lemma {:induction false} RenamedBindersDiffer(hintless: bool, e: BodyForm, count: nat)
    requires Bindable(e)
    ensures var r := RenameArgs(hintless, e, count); NewBinders(e, r.value, count, r.next)
    decreases Weight(e), 1
  {
    match e
    case Let(Sequential, _, bs, inner) => RenamedSequenceDiffers(hintless, bs, inner, count);
    case Let(Parallel, inlined, bs, inner) =>
      WeightPerBinding(bs);
      NewGroup(bs, map[], count);
      var u := MakeAllUnique(bs, map[], count);
      RenamedBodiesDiffer(hintless, bs, u.next);
      var bodies := RenameBodies(hintless, bs, u.next);
      RenamedBindersDiffer(hintless, inner, bodies.next);
      var body := RenameArgs(hintless, inner, bodies.next);
      ParallelRun(bs, u.patterns, bodies.value, count, u.next, bodies.next);
      LetApart(e, Parallel, inlined, WithBodies(u.patterns, bodies.value), u.names, body.value, count, bodies.next, body.next);
    case Let(Assign, _, _, _) => RenamedAssignDiffers(hintless, e, count);
    case Call(forms, tail) =>
      WeightParts(e);
      RenamedFormsDiffer(hintless, forms, count);
      if tail.Some? {
        var args := RenameForms(hintless, forms, count);
        RenamedBindersDiffer(hintless, tail.value, args.next);
        var last := RenameArgs(hintless, tail.value, args.next);
        SpansApart(FormsBinders(args.value), count, args.next, Binders(last.value), args.next, last.next);
        SpansJoin(FormsBinders(args.value), count, args.next, Binders(last.value), args.next, last.next);
      }
    case _ =>
  }

  lemma {:induction false} RenamedSequenceDiffers(hintless: bool, bs: seq<Binding>, inner: BodyForm, count: nat)
    requires BindingsBindable(bs) && Bindable(inner)
    ensures var r := RenameSequence(hintless, bs, inner, count); NewBinders(Let(Sequential, false, bs, inner), r.value, count, r.next)
    decreases BindingsWeight(bs, 1) + Weight(inner), 2
  {
    if bs == [] {
      RenamedBindersDiffer(hintless, inner, count);
    } else {
      BindingParts(bs, 1);
      var one := [bs[0]];
      assert one[1..] == [] && BindingBindable(bs[0]);
      NewGroup(one, map[], count);
      var u := MakeAllUnique(one, map[], count);
      RenamedBindersDiffer(hintless, bs[0].body, u.next);
      var first := RenameArgs(hintless, bs[0].body, u.next);
      RenamedSequenceDiffers(hintless, bs[1..], inner, first.next);
      var body := RenameSequence(hintless, bs[1..], inner, first.next);
      OneBody(first.value);
      var rest := Let(Sequential, false, bs[1..], inner);
      assert BodiesOnce(one) <==> PatternsOnce(bs[0].body) by { assert BodyOnce(bs[0]) <==> PatternsOnce(bs[0].body); }
      ParallelRun(one, u.patterns, [first.value], count, u.next, first.next);
      LetApart(Let(Parallel, false, one, rest), Parallel, hintless, WithBodies(u.patterns, [first.value]), u.names, body.value,
               count, first.next, body.next);
      assert BindingsOnce(one) <==> BindingOnce(bs[0]);
    }
  }

  lemma {:induction false} OneBody(e: BodyForm)
    ensures FormsBinders([e]) == Binders(e) && (FormsApart([e]) <==> BindersApart(e))
  {
    assert [e][1..] == [];
  }

  lemma {:induction false} RenamedBodiesDiffer(hintless: bool, bs: seq<Binding>, count: nat)
    requires BindingsBindable(bs)
    ensures var r := RenameBodies(hintless, bs, count); NewBodies(bs, r.value, count, r.next)
    decreases BindingsWeight(bs, 1), 2
  {
    if bs != [] {
      BindingParts(bs, 1);
      assert BindingBindable(bs[0]);
      RenamedBindersDiffer(hintless, bs[0].body, count);
      var first := RenameArgs(hintless, bs[0].body, count);
      RenamedBodiesDiffer(hintless, bs[1..], first.next);
      var rest := RenameBodies(hintless, bs[1..], first.next);
      SpansApart(Binders(first.value), count, first.next, FormsBinders(rest.value), first.next, rest.next);
      SpansJoin(Binders(first.value), count, first.next, FormsBinders(rest.value), first.next, rest.next);
      assert ([first.value] + rest.value)[1..] == rest.value;
      assert BodyOnce(bs[0]) <==> PatternsOnce(bs[0].body);
    }
  }

  lemma {:induction false} RenamedFormsDiffer(hintless: bool, forms: seq<BodyForm>, count: nat)
    requires FormsBindable(forms)
    ensures var r := RenameForms(hintless, forms, count);
            AllFresh(FormsBinders(r.value), count, r.next) && (FormsApart(r.value) <==> FormsOnce(forms))
    decreases FormsWeight(forms), 2
  {
    if forms != [] {
      RenamedBindersDiffer(hintless, forms[0], count);
      var first := RenameArgs(hintless, forms[0], count);
      RenamedFormsDiffer(hintless, forms[1..], first.next);
      var rest := RenameForms(hintless, forms[1..], first.next);
      SpansApart(Binders(first.value), count, first.next, FormsBinders(rest.value), first.next, rest.next);
      SpansJoin(Binders(first.value), count, first.next, FormsBinders(rest.value), first.next, rest.next);
      assert ([first.value] + rest.value)[1..] == rest.value;
    }
  }

  // ---- Programs --------------------------------------------------------------------------------

  function FunctionBinders(f: Defun): Names { Named(f.args) + Binders(f.body) }

  predicate FunctionApart(f: Defun) { NamesOnce(f.args) && Named(f.args) !! Binders(f.body) && BindersApart(f.body) }

  function DefunsBinders(ds: seq<Defun>): Names { if ds == [] then {} else FunctionBinders(ds[0]) + DefunsBinders(ds[1..]) }

  predicate DefunsApart(ds: seq<Defun>) {
    ds == [] || (FunctionApart(ds[0]) && FunctionBinders(ds[0]) !! DefunsBinders(ds[1..]) && DefunsApart(ds[1..]))
  }

  predicate DefunsOnce(ds: seq<Defun>) { ds == [] || (NamesOnce(ds[0].args) && PatternsOnce(ds[0].body) && DefunsOnce(ds[1..])) }

  predicate DefunsBindable(ds: seq<Defun>) { ds == [] || (Renameable(ds[0].args) && Bindable(ds[0].body) && DefunsBindable(ds[1..])) }

  /** All parameters and all other binders of all functions, those of the main expression and the
      program's own arguments. */
  predicate ProgramApart(src: Source) {
    DefunsApart(src.defuns) && BindersApart(src.main) && DefunsBinders(src.defuns) !! Binders(src.main)
    && Named(src.args) !! (DefunsBinders(src.defuns) + Binders(src.main))
  }

  lemma {:induction false} RenamedFunctionDiffers(hintless: bool, f: Defun, count: nat)
    requires Renameable(f.args) && Bindable(f.body)
    ensures var r := RenameDefun(hintless, f, count);
            AllFresh(FunctionBinders(r.value), count, r.next) && (FunctionApart(r.value) <==> NamesOnce(f.args) && PatternsOnce(f.body))
  {
    InventsNewPattern(f.args, map[], count);
    var own := InventNames(f.args, map[], count);
    RenamedBindersDiffer(hintless, f.body, own.next);
    var body := RenameArgs(hintless, f.body, own.next);
    ReplacingKeepsBinders(own.names, body.value);
    var r := RenameDefun(hintless, f, count).value;
    SpansApart(Named(r.args), count, own.next, Binders(body.value), own.next, body.next);
    SpansJoin(Named(r.args), count, own.next, Binders(body.value), own.next, body.next);
  }

  lemma {:induction false} RenamedFunctionsDiffer(hintless: bool, ds: seq<Defun>, count: nat)
    requires DefunsBindable(ds)
    ensures var r := RenameDefuns(hintless, ds, count);
            AllFresh(DefunsBinders(r.value), count, r.next) && (DefunsApart(r.value) <==> DefunsOnce(ds))
  {
    if ds != [] {
      RenamedFunctionDiffers(hintless, ds[0], count);
      var first := RenameDefun(hintless, ds[0], count);
      RenamedFunctionsDiffer(hintless, ds[1..], first.next);
      var rest := RenameDefuns(hintless, ds[1..], first.next);
      SpansApart(FunctionBinders(first.value), count, first.next, DefunsBinders(rest.value), first.next, rest.next);
      SpansJoin(FunctionBinders(first.value), count, first.next, DefunsBinders(rest.value), first.next, rest.next);
      assert ([first.value] + rest.value)[1..] == rest.value;
    }
  }

  /** In a renamed program no two binders share a name, wherever in the program they are, provided that
      no single pattern names something twice; and only then. */
  lemma {:induction false} RenamedProgramDiffers(hintless: bool, src: Source, count: nat)
    requires DefunsBindable(src.defuns) && Bindable(src.main) && forall x :: x in Named(src.args) ==> Before(x, count)
    ensures ProgramApart(RenameChildren(hintless, src, count).value) <==> DefunsOnce(src.defuns) && PatternsOnce(src.main)
  {
    RenamedFunctionsDiffer(hintless, src.defuns, count);
    var defuns := RenameDefuns(hintless, src.defuns, count);
    RenamedBindersDiffer(hintless, src.main, defuns.next);
    var main := RenameArgs(hintless, src.main, defuns.next);
    SpansApart(DefunsBinders(defuns.value), count, defuns.next, Binders(main.value), defuns.next, main.next);
    SpansJoin(DefunsBinders(defuns.value), count, defuns.next, Binders(main.value), defuns.next, main.next);
    forall x | x in Named(src.args) ensures x !in DefunsBinders(defuns.value) + Binders(main.value) {
      if x in DefunsBinders(defuns.value) + Binders(main.value) {
        FreshAfter(x, count, main.next, x);
      }
    }
  }
}
