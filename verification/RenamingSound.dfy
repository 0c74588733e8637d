/** Renaming keeps the meaning of expressions. */
module RenamingSound {
  import opened Numbers
  import opened SExpressions
  import opened Machine
  import opened Syntax
  import opened AssignForms
  import opened AssignWeight
  import opened Toposort
  import opened Semantics
  import opened Relevance
  import opened AssignMeaning
  import opened HoistingNames
  import opened Renaming
  import opened RenamingNames
  import opened RenamingAssigns
  import opened RenamingMentions
  import opened RenamingPatterns
  import opened RenamingOrder

  // ---- Replacing free names --------------------------------------------------------------------

  /** Scopes in which the new names stand for what the old names do in other scopes. */
  ghost predicate Through(m: NameMap, names: Names, s: seq<Scope>, t: seq<Scope>) {
    |s| == |t| && (|s| == 1 ==> s[0].value == t[0].value) && forall x :: x in names ==> Carries(m, s, t, x)
  }

  predicate Carries(m: NameMap, s: seq<Scope>, t: seq<Scope>, x: bytes) {
    LookupVar(t, NewName(m, x)) == LookupVar(s, x) && (x in m ==> LookupVar(s, x) != Unbound)
  }

  lemma {:induction false} ThroughFewer(m: NameMap, names: Names, fewer: Names, s: seq<Scope>, t: seq<Scope>)
    requires Through(m, names, s, t) && fewer <= names
    ensures Through(m, fewer, s, t)
  {
  }

  lemma {:induction false} ThroughOne(m: NameMap, names: Names, s: seq<Scope>, t: seq<Scope>, x: bytes)
    requires Through(m, names, s, t) && x in names
    ensures Carries(m, s, t, x)
  {
  }

  lemma {:induction false} FreshFewer(names: Names, fewer: Names, lo: nat, hi: nat)
    requires AllFresh(names, lo, hi) && fewer <= names
    ensures AllFresh(fewer, lo, hi)
  {
  }

  /** Inner binders neither are old names nor hide the new ones. */
  lemma {:induction false} ThroughBinder(m: NameMap, lo: nat, mid: nat, hi: nat, names: Names, inner: Names, s: seq<Scope>, t: seq<Scope>,
                                         scope: Scope)
    requires Replaces(m, lo, mid) && Through(m, names, s, t) && inner <= names && s != []
    requires Renameable(scope.pattern) && AllFresh(Named(scope.pattern), mid, hi)
    ensures Through(m, inner, [scope] + s, [scope] + t)
  {
    forall x | x in inner ensures Carries(m, [scope] + s, [scope] + t, x) {
      assert Carries(m, s, t, x);
      assert ([scope] + s)[1..] == s && ([scope] + t)[1..] == t;
      if x in m {
        InventedIsFresh(m, x, lo, mid);
        if Binds(scope.pattern, x) {
          BindsAtoms(scope.pattern, x);
          FreshAfter(x, mid, hi, x);
        }
        if Binds(scope.pattern, m[x]) {
          BindsAtoms(scope.pattern, m[x]);
          FreshApart(m[x], lo, mid, m[x], mid, hi);
        }
      }
    }
  }

  lemma {:induction false} AtomThrough(w: World, m: NameMap, lo: nat, mid: nat, s: seq<Scope>, t: seq<Scope>, x: bytes, v: SExp)
    requires Invents(m, lo, mid) && Carries(m, s, t, x) && |s| == |t| && (|s| == 1 ==> s[0].value == t[0].value)
    requires AtomMeaning(w, s, x) == Success(v)
    ensures AtomMeaning(w, t, NewName(m, x)) == Success(v)
  {
    if x in m {
      InventedIsFresh(m, x, lo, mid);
    }
  }

  lemma {:induction false} RenameInMeans(w: World, n: nat, m: NameMap, lo: nat, mid: nat, hi: nat, s: seq<Scope>, t: seq<Scope>, e: BodyForm,
                                         v: SExp)
    requires Replaces(m, lo, mid) && s != [] && Through(m, Reads(e), s, t)
    requires Unfolded(e) && AllFresh(Binders(e), mid, hi) && Fixed(w.strict, e) !! m.Keys
    requires Sem(w, n, s, e) == Success(v)
    ensures Sem(w, n, t, RenameIn(m, e)) == Success(v)
    decreases Weight(e), 1
  {
    match e
    case Let(Assign, _, _, _) => RenameInAssignMeans(w, n, m, lo, mid, hi, s, t, e, v);
    case Let(Parallel, _, bs, inner) =>
      RenameInBindingsMeans(w, n, m, lo, mid, hi, s, t, bs);
      SamePatterns(m, bs);
      var scope := Scope(PatternList(bs), SemBindings(w, n, s, bs).value);
      ThroughBinder(m, lo, mid, hi, Reads(e), Reads(inner), s, t, scope);
      RenameInMeans(w, n, m, lo, mid, hi, [scope] + s, [scope] + t, inner, v);
    case Value(Atom(x)) =>
      assert Carries(m, s, t, x);
      AtomThrough(w, m, lo, mid, s, t, x, v);
    case Value(Integer(i)) =>
      if !w.strict {
        assert Carries(m, s, t, U8FromNumber(i));
        AtomThrough(w, m, lo, mid, s, t, U8FromNumber(i), v);
      }
    case Call(forms, tail) => RenameInCallMeans(w, n, m, lo, mid, hi, s, t, e, v);
    case _ =>
  }

  lemma {:induction false} RenameInAssignMeans(w: World, n: nat, m: NameMap, lo: nat, mid: nat, hi: nat, s: seq<Scope>, t: seq<Scope>, e: BodyForm,
                                               v: SExp)
    requires e.Let? && e.kind == Assign && Replaces(m, lo, mid) && s != [] && Through(m, Reads(e), s, t)
    requires Unfolded(e) && AllFresh(Binders(e), mid, hi) && Fixed(w.strict, e) !! m.Keys
    requires Sem(w, n, s, e) == Success(v)
    ensures Sem(w, n, t, RenameIn(m, e)) == Success(v)
    decreases Weight(e), 0
  {
    var Let(_, inlined, bs, inner) := e;
    var hoisted := HoistAssign(inlined, bs, inner).value;
    HoistedAssignIsLighter(inlined, bs, inner);
    HoistedParts(w.strict, inlined, bs, inner);
    FreshFewer(Binders(e), Named(PatternList(bs)), mid, hi);
    FreshFewer(Binders(e), Binders(hoisted), mid, hi);
    ThroughFewer(m, Reads(e), Reads(hoisted), s, t);
    HoistingCommutes(m, lo, mid, hi, inlined, bs, inner);
    RenameInMeans(w, n, m, lo, mid, hi, s, t, hoisted, v);
  }

  lemma {:induction false} RenameInCallMeans(w: World, n: nat, m: NameMap, lo: nat, mid: nat, hi: nat, s: seq<Scope>, t: seq<Scope>, e: BodyForm,
                                             v: SExp)
    requires e.Call? && Replaces(m, lo, mid) && s != [] && Through(m, Reads(e), s, t)
    requires Unfolded(e) && AllFresh(Binders(e), mid, hi) && Fixed(w.strict, e) !! m.Keys
    requires Sem(w, n, s, e) == Success(v)
    ensures Sem(w, n, t, RenameIn(m, e)) == Success(v)
    decreases Weight(e), 0
  {
    var Call(forms, tail) := e;
    WeightParts(e);
    var name := CallName(forms[0]).value;
    HeadRead(forms[0]);
    assert FormsRead(forms) == Reads(forms[0]) + FormsRead(forms[1..]);
    ThroughOne(m, Reads(e), s, t, name);
    ArgumentParts(w.strict, m, mid, hi, s, t, forms, tail);
    if FindDefun(w.defuns, name).Some? {
      RenameInArgsMeans(w, n, m, lo, mid, hi, s, t, forms[1..], tail);
    } else if Primitive(w.prims, name).Some? {
      RenameInArgsMeans(w, n, m, lo, mid, hi, s, t, forms[1..], None);
    }
    RenamedCallMeans(w, n, m, s, t, forms, tail, v);
  }

  lemma {:induction false} ArgumentParts(strict: bool, m: NameMap, mid: nat, hi: nat, s: seq<Scope>, t: seq<Scope>, forms: seq<BodyForm>,
                                         tail: Option<BodyForm>)
    requires forms != [] && Through(m, Reads(Call(forms, tail)), s, t) && Unfolded(Call(forms, tail))
    requires AllFresh(Binders(Call(forms, tail)), mid, hi) && Fixed(strict, Call(forms, tail)) !! m.Keys
    ensures Through(m, FormsRead(forms[1..]) + (if tail.Some? then Reads(tail.value) else {}), s, t)
    ensures Through(m, FormsRead(forms[1..]) + {}, s, t)
    ensures FormsUnfolded(forms[1..]) && AllFresh(FormsBinders(forms[1..]), mid, hi) && FormsFixed(strict, forms[1..]) !! m.Keys
    ensures tail.Some? ==> Unfolded(tail.value) && AllFresh(Binders(tail.value), mid, hi) && Fixed(strict, tail.value) !! m.Keys
  {
    var e := Call(forms, tail);
    assert FormsRead(forms) == Reads(forms[0]) + FormsRead(forms[1..]);
    assert FormsBinders(forms) == Binders(forms[0]) + FormsBinders(forms[1..]);
    ThroughFewer(m, Reads(e), FormsRead(forms[1..]) + (if tail.Some? then Reads(tail.value) else {}), s, t);
    ThroughFewer(m, Reads(e), FormsRead(forms[1..]) + {}, s, t);
    FreshFewer(Binders(e), FormsBinders(forms[1..]), mid, hi);
    if tail.Some? {
      FreshFewer(Binders(e), Binders(tail.value), mid, hi);
    }
  }

  /** A call after replacement, given that its arguments keep their values. */
  lemma {:induction false} RenamedCallMeans(w: World, n: nat, m: NameMap, s: seq<Scope>, t: seq<Scope>, forms: seq<BodyForm>,
                                            tail: Option<BodyForm>, v: SExp)
    requires Sem(w, n, s, Call(forms, tail)) == Success(v) && Carries(m, s, t, CallName(forms[0]).value)
    requires |s| == |t| && (|s| == 1 ==> s[0].value == t[0].value)
    requires var name := CallName(forms[0]).value;
             var last := match tail case None => None case Some(l) => Some(RenameIn(m, l));
             if FindDefun(w.defuns, name).Some? then SemArgs(w, n, t, RenameInForms(m, forms[1..]), last) == SemArgs(w, n, s, forms[1..], tail)
             else Primitive(w.prims, name).Some? ==> SemArgs(w, n, t, RenameInForms(m, forms[1..]), None) == SemArgs(w, n, s, forms[1..], None)
    ensures Sem(w, n, t, RenameIn(m, Call(forms, tail))) == Success(v)
  {
    var r := RenameIn(m, Call(forms, tail));
    assert r.forms[0] == forms[0] && r.forms[1..] == RenameInForms(m, forms[1..]);
    var name := CallName(forms[0]).value;
    if FindDefun(w.defuns, name) == None && Primitive(w.prims, name) == None {
      assert |r.forms| == 2;
      assert r.forms[1] == RenameIn(m, forms[1]);
      assert PathLiteral(r.forms[1]) == PathLiteral(forms[1]);
    }
  }

  lemma {:induction false} RenameInArgsMeans(w: World, n: nat, m: NameMap, lo: nat, mid: nat, hi: nat, s: seq<Scope>, t: seq<Scope>,
                                             args: seq<BodyForm>, tail: Option<BodyForm>)
    requires Replaces(m, lo, mid) && s != [] && Through(m, FormsRead(args) + (if tail.Some? then Reads(tail.value) else {}), s, t)
    requires FormsUnfolded(args) && AllFresh(FormsBinders(args), mid, hi) && FormsFixed(w.strict, args) !! m.Keys
    requires tail.Some? ==> Unfolded(tail.value) && AllFresh(Binders(tail.value), mid, hi) && Fixed(w.strict, tail.value) !! m.Keys
    requires SemArgs(w, n, s, args, tail).Success?
    ensures SemArgs(w, n, t, RenameInForms(m, args), match tail case None => None case Some(l) => Some(RenameIn(m, l)))
            == SemArgs(w, n, s, args, tail)
    decreases FormsWeight(args) + TailWeight(tail), 2
  {
    if args == [] {
      if tail.Some? {
        RenameInMeans(w, n, m, lo, mid, hi, s, t, tail.value, Sem(w, n, s, tail.value).value);
      }
    } else {
      RenameInArgsMeans(w, n, m, lo, mid, hi, s, t, args[1..], tail);
      RenameInMeans(w, n, m, lo, mid, hi, s, t, args[0], Sem(w, n, s, args[0]).value);
      assert RenameInForms(m, args)[1..] == RenameInForms(m, args[1..]);
    }
  }

  lemma {:induction false} RenameInBindingsMeans(w: World, n: nat, m: NameMap, lo: nat, mid: nat, hi: nat, s: seq<Scope>, t: seq<Scope>,
                                                 bs: seq<Binding>)
    requires Replaces(m, lo, mid) && s != [] && Through(m, BindingsRead(bs), s, t)
    requires BindingsUnfolded(bs) && AllFresh(BindingsBinders(bs), mid, hi) && BindingsFixed(w.strict, bs) !! m.Keys
    requires SemBindings(w, n, s, bs).Success?
    ensures SemBindings(w, n, t, RenameInBindings(m, bs)) == SemBindings(w, n, s, bs)
    decreases BindingsWeight(bs, 1), 2
  {
    if bs != [] {
      BindingParts(bs, 1);
      assert BodyUnfolded(bs[0]) && BodyReads(bs[0]) == Reads(bs[0].body);
      assert BodyFixed(w.strict, bs[0]) == Fixed(w.strict, bs[0].body) && BodyBinders(bs[0]) == Binders(bs[0].body);
      RenameInMeans(w, n, m, lo, mid, hi, s, t, bs[0].body, Sem(w, n, s, bs[0].body).value);
      RenameInBindingsMeans(w, n, m, lo, mid, hi, s, t, bs[1..]);
      assert RenameInBindings(m, bs)[1..] == RenameInBindings(m, bs[1..]);
    }
  }

  // ---- Renaming binders ------------------------------------------------------------------------

  /** Replacing, inside a let or a function, the names that it binds. */
  lemma {:induction false} GroupMeans(w: World, n: nat, s: seq<Scope>, p: SExp, vs: SExp, m: NameMap, lo: nat, mid: nat, hi: nat, base: Names,
                                      inner: BodyForm, v: SExp)
    requires Invents(m, lo, mid) && lo <= mid <= hi && m.Keys == Named(p) && Renameable(p) && NamesBefore(Named(p), lo) && NamesBefore(base, lo)
    requires Unfolded(inner) && ReadsFrom(Reads(inner), base, mid, hi) && AllFresh(Binders(inner), mid, hi)
    requires Fixed(w.strict, inner) !! m.Keys
    requires Sem(w, n, [Scope(p, vs)] + s, inner) == Success(v)
    ensures Sem(w, n, [Scope(RenamePattern(m, p), vs)] + s, RenameIn(m, inner)) == Success(v)
  {
    var s1, t1 := [Scope(p, vs)] + s, [Scope(RenamePattern(m, p), vs)] + s;
    forall x | x in Atoms(p) ensures Outside(x, lo, mid) {
      if x == AT {
        SpecialNames();
        UnmarkedIsBefore(x, lo);
      }
      BeforeIsOutside(x, lo, mid);
    }
    forall x | x in Reads(inner) ensures Carries(m, s1, t1, x) {
      if x in base {
        BeforeIsOutside(x, lo, mid);
      } else if FreshName(x, lo, mid) {
        FreshApart(x, lo, mid, x, mid, hi);
      }
      RenamedBinds(m, lo, mid, p, vs, x);
      assert s1[1..] == s && t1[1..] == s;
      if x in m {
        NamedIsBound(p, x);
      }
    }
    RenameInMeans(w, n, m, lo, mid, hi, s1, t1, inner, v);
  }

  /** What renaming asks of a function. */
  ghost predicate DefunNameable(strict: bool, f: Defun, count: nat) {
    Renameable(f.args) && Nameable(strict, f.body) && Fixed(strict, f.body) !! Named(f.args)
    && NamesBefore(Named(f.args), count) && NamesBefore(Mentions(f.body), count)
  }

  ghost predicate RenamedFunction(strict: bool, defuns: seq<Defun>, renamed: seq<Defun>, hintless: bool, name: bytes) {
    match FindDefun(defuns, name)
    case None => FindDefun(renamed, name) == None
    case Some(f) => exists c: nat :: DefunNameable(strict, f, c) && FindDefun(renamed, name) == Some(RenameDefun(hintless, f, c).value)
  }

  /** Worlds whose functions are each other's renamings. */
  ghost predicate RenamedWorld(w: World, w': World, hintless: bool) {
    w' == w.(defuns := w'.defuns) && forall name :: RenamedFunction(w.strict, w.defuns, w'.defuns, hintless, name)
  }

  lemma {:induction false} RenamedValueMeans(w: World, w': World, hintless: bool, s: seq<Scope>, x: SExp, v: SExp)
    requires RenamedWorld(w, w', hintless) && ValueMeaning(w, s, x) == Success(v)
    ensures ValueMeaning(w', s, x) == Success(v)
  {
    if x.Atom? {
      assert RenamedFunction(w.strict, w.defuns, w'.defuns, hintless, x.name);
    } else if x.Integer? {
      assert RenamedFunction(w.strict, w.defuns, w'.defuns, hintless, U8FromNumber(x.value));
    }
  }

  lemma {:induction false} RenameMeans(w: World, w': World, hintless: bool, n: nat, s: seq<Scope>, e: BodyForm, count: nat, v: SExp)
    requires RenamedWorld(w, w', hintless) && Nameable(w.strict, e) && NamesBefore(Mentions(e), count)
    requires s != [] && Sem(w, n, s, e) == Success(v)
    ensures Sem(w', n, s, RenameArgs(hintless, e, count).value) == Success(v)
    decreases n, Weight(e), 1
  {
    match e
    case Let(Sequential, _, bs, inner) => RenameSequenceMeans(w, w', hintless, n, s, bs, inner, count, v);
    case Let(Parallel, _, bs, inner) => RenameParallelMeans(w, w', hintless, n, s, e, count, v);
    case Let(Assign, _, _, _) => RenameAssignMeans(w, w', hintless, n, s, e, count, v);
    case Call(_, _) => RenameCallMeans(w, w', hintless, n, s, e, count, v);
    case Value(x) => RenamedValueMeans(w, w', hintless, s, x, v);
    case _ =>
  }

  lemma {:induction false} InnerShaped(strict: bool, hintless: bool, inner: BodyForm, lo: nat, count: nat)
    requires Nameable(strict, inner) && lo <= count
    ensures var r := RenameArgs(hintless, inner, count); Shaped(strict, inner, r.value, lo, r.next)
  {
    var r := RenameArgs(hintless, inner, count);
    RenameArgsShape(strict, hintless, inner, count);
    ShapedWider(strict, inner, r.value, count, r.next, lo, r.next);
  }

  lemma {:induction false} RenameParallelMeans(w: World, w': World, hintless: bool, n: nat, s: seq<Scope>, e: BodyForm, count: nat, v: SExp)
    requires e.Let? && e.kind == Parallel
    requires RenamedWorld(w, w', hintless) && Nameable(w.strict, e) && NamesBefore(Mentions(e), count)
    requires s != [] && Sem(w, n, s, e) == Success(v)
    ensures Sem(w', n, s, RenameArgs(hintless, e, count).value) == Success(v)
    decreases n, Weight(e), 0
  {
    var Let(_, _, bs, inner) := e;
    var p, vs := PatternList(bs), SemBindings(w, n, s, bs).value;
    UniqueGroupRenames(bs, map[], count, count);
    var u := MakeAllUnique(bs, map[], count);
    var bodies := RenameBodies(hintless, bs, u.next);
    var body := RenameArgs(hintless, inner, bodies.next);
    BeforeFewer(Mentions(e), BindingsMention(bs), count, u.next);
    RenameBodiesMeans(w, w', hintless, n, s, bs, u.next, u.patterns);
    BeforeFewer(Mentions(e), Mentions(inner), count, bodies.next);
    RenameMeans(w, w', hintless, n, [Scope(p, vs)] + s, inner, bodies.next, v);
    InnerShaped(w.strict, hintless, inner, u.next, bodies.next);
    LetStep(w', n, s, bs, vs, u, bodies.value, e, body.value, count, body.next, v);
  }

  /** A renamed parallel let, given that its parts keep their meaning. */
  lemma {:induction false} LetStep(w: World, n: nat, s: seq<Scope>, bs: seq<Binding>, vs: SExp, u: UniqueGroup, bodies: seq<BodyForm>, e: BodyForm,
                                   body: BodyForm, lo: nat, hi: nat, v: SExp)
    requires e.Let? && e.bindings == bs && GroupNameable(bs) && |u.patterns| == |bodies| && lo <= u.next <= hi
    requires Invents(u.names, lo, u.next) && u.names.Keys == Named(PatternList(bs)) && PatternsList(u.patterns) == RenamePattern(u.names, PatternList(bs))
    requires NamesBefore(Mentions(e), lo)
    requires Shaped(w.strict, e.inner, body, u.next, hi) && Fixed(w.strict, e.inner) !! Named(PatternList(bs))
    requires SemBindings(w, n, s, WithBodies(u.patterns, bodies)) == Success(vs) && Accepts(w, PatternList(bs), vs)
    requires Sem(w, n, [Scope(PatternList(bs), vs)] + s, body) == Success(v)
    ensures forall inlined :: Sem(w, n, s, Let(Parallel, inlined, WithBodies(u.patterns, bodies), RenameIn(u.names, body))) == Success(v)
  {
    var p := PatternList(bs);
    GroupIsRenameable(bs);
    PatternsOnly(u.patterns, bodies);
    RenamedCovers(u.names, lo, u.next, p, vs);
    NamedAreMentioned(bs);
    ReadsAreMentioned(e.inner);
    BeforeFewer(Mentions(e), Named(p), lo, lo);
    BeforeFewer(Mentions(e), Reads(e.inner), lo, lo);
    GroupMeans(w, n, s, p, vs, u.names, lo, u.next, hi, Reads(e.inner), body, v);
  }

  // ---- Assign forms ----------------------------------------------------------------------------

  function PickedValues(bs: seq<Binding>, vals: seq<SExp>): (r: seq<SExp>)
    requires SortBindings(bs).Known? && |vals| == |bs|
    ensures |r| == |InOrder(bs)|
  {
    SortedInRange(bs);
    var order := SortBindings(bs).value;
    seq(|order|, k requires 0 <= k < |order| => (assert order[k] in order; vals[order[k].index]))
  }

  lemma {:induction false} AtomOfOne(bs: seq<Binding>, x: bytes)
    requires x in Atoms(PatternList(bs))
    ensures exists k :: 0 <= k < |bs| && x in Atoms(PatternOf(bs[k]))
  {
    if x !in Atoms(PatternOf(bs[0])) {
      AtomOfOne(bs[1..], x);
      var k :| 0 <= k < |bs[1..]| && x in Atoms(PatternOf(bs[1..][k]));
      assert x in Atoms(PatternOf(bs[k + 1]));
    }
  }

  /** The scope of an assign form and the scope of the renamed one. */
  function AssignScope(hintless: bool, bs: seq<Binding>, count: nat, vals: seq<SExp>, s: seq<Scope>): seq<Scope>
    requires SortBindings(bs).Known? && |vals| == |bs|
  {
    [GroupScope(Backwards(RenamedRun(hintless, bs, count).bindings), Backwards(PickedValues(bs, vals)))] + s
  }

  /** One binding before and after renaming. */
  lemma {:induction false} SamePart(strict: bool, hintless: bool, bs: seq<Binding>, inner: BodyForm, count: nat, k: nat, v: SExp, x: bytes)
    requires Startable(strict, bs, inner, count) && k < |InOrder(bs)| && Outside(x, count, RenamedRun(hintless, bs, count).next)
    ensures var g, p := RenamedRun(hintless, bs, count), PatternOf(InOrder(bs)[k]);
            (Binds(PatternOf(g.bindings[k]), NewName(g.names, x)) <==> Binds(p, x))
            && (Binds(p, x) ==> Part(PatternOf(g.bindings[k]), v, NewName(g.names, x)) == Part(p, v, x))
  {
    var g, p := RenamedRun(hintless, bs, count), PatternOf(InOrder(bs)[k]);
    OrderlyStart(strict, hintless, bs, inner, count);
    RunIsFine(strict, hintless, bs, inner, count, k);
    PickedBinding(strict, bs, inner, count, k);
    forall y | y in Atoms(p) ensures Outside(y, count, g.next) {
      if y == AT {
        SpecialNames();
        UnmarkedIsBefore(y, count);
      }
      BeforeIsOutside(y, count, g.next);
    }
    RenamedBinds(g.names, count, g.next, p, v, x);
  }

  /** A name that the map of a renamed group treats as it should: a variable of the group is in the map
      used, and no other name is spelled like a new variable. */
  ghost predicate Minded(g: RenamedGroup, group: Names, own: NameMap, x: bytes) {
    x != AT && (x in group ==> x in own) && (x !in group ==> x !in own && forall y :: y in g.names ==> g.names[y] != x)
  }

  lemma {:induction false} AssignCarries(strict: bool, hintless: bool, bs: seq<Binding>, inner: BodyForm, count: nat, vals: seq<SExp>, s: seq<Scope>,
                                         own: NameMap, x: bytes)
    requires Startable(strict, bs, inner, count) && |vals| == |bs|
    requires Extends(RenamedRun(hintless, bs, count).names, own) && Minded(RenamedRun(hintless, bs, count), Named(PatternList(bs)), own, x)
    ensures Carries(own, [GroupScope(bs, vals)] + s, AssignScope(hintless, bs, count, vals, s), x)
  {
    OrderlyStart(strict, hintless, bs, inner, count);
    if x in Named(PatternList(bs)) {
      var picked := InOrder(bs);
      AtomOfOne(picked, x);
      var k :| 0 <= k < |picked| && x in Atoms(PatternOf(picked[k]));
      VariableCarries(strict, hintless, bs, inner, count, vals, s, k, x);
    } else {
      OtherCarries(strict, hintless, bs, inner, count, vals, s, x);
    }
  }

  lemma {:induction false} OtherCarries(strict: bool, hintless: bool, bs: seq<Binding>, inner: BodyForm, count: nat, vals: seq<SExp>, s: seq<Scope>,
                                        x: bytes)
    requires Startable(strict, bs, inner, count) && |vals| == |bs| && x != AT && x !in Named(PatternList(bs))
    requires forall y :: y in RenamedRun(hintless, bs, count).names ==> RenamedRun(hintless, bs, count).names[y] != x
    ensures LookupVar(AssignScope(hintless, bs, count, vals, s), x) == LookupVar([GroupScope(bs, vals)] + s, x)
  {
    var l, pv, none := RenamedRun(hintless, bs, count).bindings, PickedValues(bs, vals), Quoted(Nil);
    var r, rv := Backwards(l), Backwards(pv);
    GroupIsRegular(strict, bs, inner);
    RenamedIsRegular(strict, hintless, bs, inner, count, none);
    forall i ensures !BoundBy(bs, i, x) {
      if BoundBy(bs, i, x) {
        Member(strict, bs, bs[i]);
        GroupIsRenameable(bs);
        BindsAtoms(PatternOf(bs[i]), x);
      }
    }
    forall i ensures !BoundBy(r, i, x) {
      if 0 <= i < |r| {
        NotBoundAfter(strict, hintless, bs, inner, count, |l| - 1 - i, x);
        BackwardsAt(l, |l| - 1 - i);
      }
    }
    GroupSkips(bs, vals, inner, s, x);
    GroupSkips(r, rv, none, s, x);
  }

  lemma {:induction false} VariableCarries(strict: bool, hintless: bool, bs: seq<Binding>, inner: BodyForm, count: nat, vals: seq<SExp>,
                                           s: seq<Scope>, k: nat, x: bytes)
    requires Startable(strict, bs, inner, count) && |vals| == |bs| && k < |InOrder(bs)| && x in Named(PatternOf(InOrder(bs)[k]))
    ensures var z := NewName(RenamedRun(hintless, bs, count).names, x);
            LookupVar(AssignScope(hintless, bs, count, vals, s), z) == LookupVar([GroupScope(bs, vals)] + s, x)
            && LookupVar([GroupScope(bs, vals)] + s, x) != Unbound
  {
    PickedBinding(strict, bs, inner, count, k);
    NamedIsBound(PatternOf(InOrder(bs)[k]), x);
    PickedIsOutside(strict, hintless, bs, inner, count, k, x);
    SamePart(strict, hintless, bs, inner, count, k, PickedValues(bs, vals)[k], x);
    OldVariable(strict, bs, inner, count, vals, s, k, x);
    NewVariable(strict, hintless, bs, inner, count, vals, s, k, NewName(RenamedRun(hintless, bs, count).names, x));
  }

  lemma {:induction false} PickedIsOutside(strict: bool, hintless: bool, bs: seq<Binding>, inner: BodyForm, count: nat, k: nat, x: bytes)
    requires Startable(strict, bs, inner, count) && k < |InOrder(bs)| && x in Named(PatternOf(InOrder(bs)[k]))
    ensures Outside(x, count, RenamedRun(hintless, bs, count).next)
  {
    RunIsFine(strict, hintless, bs, inner, count, k);
    BeforeIsOutside(x, count, RenamedRun(hintless, bs, count).next);
  }

  lemma {:induction false} OldVariable(strict: bool, bs: seq<Binding>, inner: BodyForm, count: nat, vals: seq<SExp>, s: seq<Scope>, k: nat, x: bytes)
    requires Startable(strict, bs, inner, count) && |vals| == |bs| && k < |InOrder(bs)| && Binds(PatternOf(InOrder(bs)[k]), x)
    ensures LookupVar([GroupScope(bs, vals)] + s, x) == Part(PatternOf(InOrder(bs)[k]), PickedValues(bs, vals)[k], x)
  {
    GroupIsRegular(strict, bs, inner);
    InOrderHolds(bs);
    GroupFinds(bs, vals, inner, s, SortBindings(bs).value[k].index, x);
  }

  lemma {:induction false} NewVariable(strict: bool, hintless: bool, bs: seq<Binding>, inner: BodyForm, count: nat, vals: seq<SExp>, s: seq<Scope>,
                                       k: nat, z: bytes)
    requires Startable(strict, bs, inner, count) && |vals| == |bs| && k < |InOrder(bs)|
    requires Binds(PatternOf(RenamedRun(hintless, bs, count).bindings[k]), z)
    ensures LookupVar(AssignScope(hintless, bs, count, vals, s), z) ==
            Part(PatternOf(RenamedRun(hintless, bs, count).bindings[k]), PickedValues(bs, vals)[k], z)
  {
    var l, pv, none := RenamedRun(hintless, bs, count).bindings, PickedValues(bs, vals), Quoted(Nil);
    RenamedIsRegular(strict, hintless, bs, inner, count, none);
    BackwardsAt(l, k);
    BackwardsAt(pv, k);
    assert BoundBy(Backwards(l), |l| - 1 - k, z);
    GroupFinds(Backwards(l), Backwards(pv), none, s, |l| - 1 - k, z);
  }

  lemma {:induction false} NotBoundAfter(strict: bool, hintless: bool, bs: seq<Binding>, inner: BodyForm, count: nat, k: nat, x: bytes)
    requires Startable(strict, bs, inner, count) && k < |InOrder(bs)| && x != AT && x !in Named(PatternList(bs))
    requires forall y :: y in RenamedRun(hintless, bs, count).names ==> RenamedRun(hintless, bs, count).names[y] != x
    ensures !Binds(PatternOf(RenamedRun(hintless, bs, count).bindings[k]), x)
  {
    var g, p := RenamedRun(hintless, bs, count), PatternOf(InOrder(bs)[k]);
    RunIsFine(strict, hintless, bs, inner, count, k);
    if Binds(PatternOf(g.bindings[k]), x) {
      BindsAtoms(PatternOf(g.bindings[k]), x);
      RenamedAtoms(g.names, p, x);
    }
  }

  lemma {:induction false} PickedEquation(w: World, n: nat, s: seq<Scope>, bs: seq<Binding>, vals: seq<SExp>, k: nat)
    requires SortBindings(bs).Known? && Equations(w, n, s, bs, vals) && k < |InOrder(bs)|
    ensures var b, v := InOrder(bs)[k], PickedValues(bs, vals)[k];
            Weight(b.body) < BindingsWeight(bs, 2) && Sem(w, n, [GroupScope(bs, vals)] + s, b.body) == Success(v) && Accepts(w, PatternOf(b), v)
  {
    InOrderHolds(bs);
    var i := SortBindings(bs).value[k].index;
    BodyIsLighter(bs, i);
    assert BodyValue(w, n, [GroupScope(bs, vals)] + s, bs[i]) == Success(vals[i]) && Accepts(w, PatternOf(bs[i]), vals[i]);
  }

  /** What one binding of an assign form, in order, brings along. */
  lemma {:induction false} EquationStart(w: World, hintless: bool, n: nat, s: seq<Scope>, bs: seq<Binding>, inner: BodyForm, count: nat,
                                         vals: seq<SExp>, k: nat) returns (own: NameMap, c: nat)
    requires Startable(w.strict, bs, inner, count) && s != [] && Equations(w, n, s, bs, vals) && k < |InOrder(bs)|
    ensures count <= c && Invents(own, count, c) && own.Keys == Named(PatternList(InOrder(bs)[..k + 1]))
    ensures var g := RenamedRun(hintless, bs, count); RenamedAt(hintless, InOrder(bs)[k], g.bindings[k], g, own, c)
    ensures var b, v := InOrder(bs)[k], PickedValues(bs, vals)[k];
            Weight(b.body) < BindingsWeight(bs, 2) && Nameable(w.strict, b.body) && NamesBefore(Mentions(b.body), c)
            && Sem(w, n, [GroupScope(bs, vals)] + s, b.body) == Success(v) && Accepts(w, PatternOf(b), v)
  {
    var b, v := InOrder(bs)[k], PickedValues(bs, vals)[k];
    OrderlyStart(w.strict, hintless, bs, inner, count);
    PickedEquation(w, n, s, bs, vals, k);
    PickedBinding(w.strict, bs, inner, count, k);
    own, c := InOrderAt(w.strict, hintless, InOrder(bs), map[], count, count, k);
    BeforeFewer(BodyMentions(b), Mentions(b.body), count, c);
  }

  /** The value of one binding of a renamed assign form. */
  lemma {:induction false} RenamedEquation(w: World, w': World, hintless: bool, n: nat, s: seq<Scope>, bs: seq<Binding>, inner: BodyForm, count: nat,
                                           vals: seq<SExp>, k: nat)
    requires RenamedWorld(w, w', hintless) && Startable(w.strict, bs, inner, count) && s != [] && Equations(w, n, s, bs, vals)
    requires k < |InOrder(bs)|
    ensures var b, v := RenamedRun(hintless, bs, count).bindings[k], PickedValues(bs, vals)[k];
            BodyValue(w', n, AssignScope(hintless, bs, count, vals, s), b) == Success(v) && Accepts(w', PatternOf(b), v)
    decreases n, BindingsWeight(bs, 2), 2
  {
    var b, v := InOrder(bs)[k], PickedValues(bs, vals)[k];
    var own, c := EquationStart(w, hintless, n, s, bs, inner, count, vals, k);
    RenameMeans(w, w', hintless, n, [GroupScope(bs, vals)] + s, b.body, c, v);
    EquationStep(w', hintless, n, s, bs, inner, count, vals, k, own, c);
  }

  lemma {:induction false} EquationStep(w: World, hintless: bool, n: nat, s: seq<Scope>, bs: seq<Binding>, inner: BodyForm, count: nat,
                                        vals: seq<SExp>, k: nat, own: NameMap, c: nat)
    requires Startable(w.strict, bs, inner, count) && |vals| == |bs| && k < |InOrder(bs)| && s != []
    requires var g := RenamedRun(hintless, bs, count); RenamedAt(hintless, InOrder(bs)[k], g.bindings[k], g, own, c)
    requires count <= c && Invents(own, count, c) && own.Keys == Named(PatternList(InOrder(bs)[..k + 1]))
    requires var b, v := InOrder(bs)[k], PickedValues(bs, vals)[k];
             Accepts(w, PatternOf(b), v) && Sem(w, n, [GroupScope(bs, vals)] + s, RenameArgs(hintless, b.body, c).value) == Success(v)
    ensures var r, v := RenamedRun(hintless, bs, count).bindings[k], PickedValues(bs, vals)[k];
            BodyValue(w, n, AssignScope(hintless, bs, count, vals, s), r) == Success(v) && Accepts(w, PatternOf(r), v)
  {
    var g, b, v := RenamedRun(hintless, bs, count), InOrder(bs)[k], PickedValues(bs, vals)[k];
    OrderlyStart(w.strict, hintless, bs, inner, count);
    PickedBinding(w.strict, bs, inner, count, k);
    RunIsFine(w.strict, hintless, bs, inner, count, k);
    RenamedCovers(g.names, count, g.next, PatternOf(b), v);
    BodyThrough(w.strict, hintless, bs, inner, count, vals, s, k, own, c);
    var body := RenameArgs(hintless, b.body, c);
    RenameArgsShape(w.strict, hintless, b.body, c);
    OwnReplaces(w.strict, bs, inner, count, k, own, c);
    RenameInMeans(w, n, own, count, c, body.next, [GroupScope(bs, vals)] + s, AssignScope(hintless, bs, count, vals, s), body.value, v);
  }

  lemma {:induction false} OwnReplaces(strict: bool, bs: seq<Binding>, inner: BodyForm, count: nat, k: nat, own: NameMap, c: nat)
    requires Startable(strict, bs, inner, count) && k < |InOrder(bs)| && count <= c && Invents(own, count, c)
    requires own.Keys == Named(PatternList(InOrder(bs)[..k + 1]))
    ensures Replaces(own, count, c) && own.Keys <= Named(PatternList(bs)) && Fixed(strict, InOrder(bs)[k].body) !! own.Keys
  {
    var picked := InOrder(bs);
    InOrderGroup(strict, bs);
    assert forall b :: b in picked[..k + 1] ==> b in picked;
    Members(strict, picked[..k + 1], picked);
    NamedAreMentioned(bs);
    BeforeFewer(BindingsMention(bs), own.Keys, count, c);
    Member(strict, picked, picked[k]);
    assert BodyFixed(strict, picked[k]) == Fixed(strict, picked[k].body);
  }

  lemma {:induction false} BodyThrough(strict: bool, hintless: bool, bs: seq<Binding>, inner: BodyForm, count: nat, vals: seq<SExp>, s: seq<Scope>,
                                       k: nat, own: NameMap, c: nat)
    requires Startable(strict, bs, inner, count) && |vals| == |bs| && k < |InOrder(bs)| && s != []
    requires var g := RenamedRun(hintless, bs, count); RenamedAt(hintless, InOrder(bs)[k], g.bindings[k], g, own, c)
    requires count <= c && Invents(own, count, c) && own.Keys == Named(PatternList(InOrder(bs)[..k + 1]))
    ensures Through(own, Reads(RenameArgs(hintless, InOrder(bs)[k].body, c).value), [GroupScope(bs, vals)] + s,
                    AssignScope(hintless, bs, count, vals, s))
  {
    var b, g := InOrder(bs)[k], RenamedRun(hintless, bs, count);
    var body := RenameArgs(hintless, b.body, c);
    OwnReplaces(strict, bs, inner, count, k, own, c);
    PickedBinding(strict, bs, inner, count, k);
    RenameArgsShape(strict, hintless, b.body, c);
    ReadsAreMentioned(b.body);
    OrderlyStart(strict, hintless, bs, inner, count);
    forall x | x in Reads(body.value)
      ensures Carries(own, [GroupScope(bs, vals)] + s, AssignScope(hintless, bs, count, vals, s), x)
    {
      ReadIsMinded(strict, hintless, bs, inner, count, k, own, c, x);
      AssignCarries(strict, hintless, bs, inner, count, vals, s, own, x);
    }
  }

  lemma {:induction false} ReadIsMinded(strict: bool, hintless: bool, bs: seq<Binding>, inner: BodyForm, count: nat, k: nat, own: NameMap, c: nat,
                                        x: bytes)
    requires Startable(strict, bs, inner, count) && k < |InOrder(bs)|
    requires var g := RenamedRun(hintless, bs, count); RenamedAt(hintless, InOrder(bs)[k], g.bindings[k], g, own, c)
    requires count <= c && Invents(own, count, c) && own.Keys == Named(PatternList(InOrder(bs)[..k + 1]))
    requires x in Reads(RenameArgs(hintless, InOrder(bs)[k].body, c).value)
    ensures Minded(RenamedRun(hintless, bs, count), Named(PatternList(bs)), own, x)
  {
    var b, g := InOrder(bs)[k], RenamedRun(hintless, bs, count);
    var body := RenameArgs(hintless, b.body, c);
    OwnReplaces(strict, bs, inner, count, k, own, c);
    PickedBinding(strict, bs, inner, count, k);
    RenameArgsShape(strict, hintless, b.body, c);
    ReadsAreMentioned(b.body);
    OrderlyStart(strict, hintless, bs, inner, count);
    if x in Reads(b.body) {
      OldIsMinded(strict, hintless, bs, inner, count, k, own, c, x);
    } else {
      InnerIsMinded(g, Named(PatternList(bs)), own, count, c, body.next, x);
    }
  }

  lemma {:induction false} OldIsMinded(strict: bool, hintless: bool, bs: seq<Binding>, inner: BodyForm, count: nat, k: nat, own: NameMap, c: nat,
                                       x: bytes)
    requires Startable(strict, bs, inner, count) && k < |InOrder(bs)| && own.Keys == Named(PatternList(InOrder(bs)[..k + 1]))
    requires own.Keys <= Named(PatternList(bs)) && x in Mentions(InOrder(bs)[k].body)
    ensures Minded(RenamedRun(hintless, bs, count), Named(PatternList(bs)), own, x)
  {
    var b, g, picked := InOrder(bs)[k], RenamedRun(hintless, bs, count), InOrder(bs);
    PickedBinding(strict, bs, inner, count, k);
    OrderlyStart(strict, hintless, bs, inner, count);
    assert x in BodyMentions(b);
    if x in Named(PatternList(bs)) {
      NeedsEarlier(bs, k, x);
      assert forall a :: a in picked[..k] ==> a in picked[..k + 1];
      Members(strict, picked[..k], picked[..k + 1]);
    } else {
      OldIsNotNew(g, count, x);
    }
  }

  lemma {:induction false} OldIsNotNew(g: RenamedGroup, count: nat, x: bytes)
    requires Invents(g.names, count, g.next) && Before(x, count)
    ensures forall y :: y in g.names ==> g.names[y] != x
  {
    forall y | y in g.names ensures g.names[y] != x {
      InventedIsFresh(g.names, y, count, g.next);
      FreshAfter(g.names[y], count, g.next, x);
    }
  }

  lemma {:induction false} InnerIsMinded(g: RenamedGroup, group: Names, own: NameMap, count: nat, c: nat, next: nat, x: bytes)
    requires Extends(g.names, own) && Invents(own, count, c) && count <= c <= next && FreshName(x, c, next) && own.Keys <= group
    requires NamesBefore(group, count) && forall y :: y in g.names && y !in own ==> FreshName(g.names[y], next, g.next)
    ensures Minded(g, group, own, x)
  {
    SpecialNames();
    UnmarkedIsBefore(AT, c);
    FreshAfter(x, c, next, AT);
    if x in group {
      FreshWider(x, c, next, count, next);
      FreshAfter(x, count, next, x);
    }
    forall y | y in g.names ensures g.names[y] != x {
      if y in own {
        assert NewName(g.names, y) == own[y];
        InventedIsFresh(own, y, count, c);
        FreshApart(own[y], count, c, x, c, next);
      } else {
        FreshApart(x, c, next, g.names[y], next, g.next);
      }
    }
  }

  /** The renamed bindings have the values that the bindings had. */
  lemma {:induction false} RenamedEquations(w: World, w': World, hintless: bool, n: nat, s: seq<Scope>, bs: seq<Binding>, inner: BodyForm, count: nat,
                                            vals: seq<SExp>)
    requires RenamedWorld(w, w', hintless) && Startable(w.strict, bs, inner, count) && s != [] && Equations(w, n, s, bs, vals)
    ensures Equations(w', n, s, Backwards(RenamedRun(hintless, bs, count).bindings), Backwards(PickedValues(bs, vals)))
    decreases n, BindingsWeight(bs, 2), 3
  {
    var l, pv := RenamedRun(hintless, bs, count).bindings, PickedValues(bs, vals);
    var r, rv := Backwards(l), Backwards(pv);
    forall i | 0 <= i < |r|
      ensures Accepts(w', PatternOf(r[i]), rv[i]) && BodyValue(w', n, [GroupScope(r, rv)] + s, r[i]) == Success(rv[i])
    {
      RenamedEquation(w, w', hintless, n, s, bs, inner, count, vals, |l| - 1 - i);
      BackwardsAt(l, |l| - 1 - i);
      BackwardsAt(pv, |l| - 1 - i);
    }
  }

  lemma {:induction false} RenameAssignMeans(w: World, w': World, hintless: bool, n: nat, s: seq<Scope>, e: BodyForm, count: nat, v: SExp)
    requires e.Let? && e.kind == Assign
    requires RenamedWorld(w, w', hintless) && Nameable(w.strict, e) && NamesBefore(Mentions(e), count)
    requires s != [] && Sem(w, n, s, e) == Success(v)
    ensures Sem(w', n, s, RenameArgs(hintless, e, count).value) == Success(v)
    decreases n, Weight(e), 0
  {
    var Let(_, inlined, bs, inner) := e;
    BeforeFewer(Mentions(e), BindingsMention(bs), count, count);
    GroupIsRegular(w.strict, bs, inner);
    AssignIsEquations(w, n, s, inlined, bs, inner, v);
    var vals :| Equations(w, n, s, bs, vals) && Sem(w, n, [GroupScope(bs, vals)] + s, inner) == Success(v);
    RenamedEquations(w, w', hintless, n, s, bs, inner, count, vals);
    var g := RenamedRun(hintless, bs, count);
    BeforeFewer(Mentions(e), Mentions(inner), count, g.next);
    RenameMeans(w, w', hintless, n, [GroupScope(bs, vals)] + s, inner, g.next, v);
    BeforeFewer(Mentions(e), Mentions(inner), count, count);
    RenamedInnerMeans(w', hintless, n, s, bs, inner, count, vals, v);
    AssignStep(w', hintless, n, s, inlined, bs, inner, count, Backwards(PickedValues(bs, vals)), v);
  }

  lemma {:induction false} RenamedInnerMeans(w: World, hintless: bool, n: nat, s: seq<Scope>, bs: seq<Binding>, inner: BodyForm, count: nat,
                                             vals: seq<SExp>, v: SExp)
    requires Startable(w.strict, bs, inner, count) && Nameable(w.strict, inner) && NamesBefore(Mentions(inner), count) && s != [] && |vals| == |bs|
    requires Sem(w, n, [GroupScope(bs, vals)] + s, RenameArgs(hintless, inner, RenamedRun(hintless, bs, count).next).value) == Success(v)
    ensures var g := RenamedRun(hintless, bs, count);
            Sem(w, n, AssignScope(hintless, bs, count, vals, s), RenameIn(g.names, RenameArgs(hintless, inner, g.next).value)) == Success(v)
  {
    var g := RenamedRun(hintless, bs, count);
    var body := RenameArgs(hintless, inner, g.next);
    InnerThrough(w.strict, hintless, bs, inner, count, vals, s);
    InnerReady(w.strict, hintless, bs, inner, count);
    RenameInMeans(w, n, g.names, count, g.next, body.next, [GroupScope(bs, vals)] + s, AssignScope(hintless, bs, count, vals, s), body.value, v);
  }

  lemma {:induction false} InnerReady(strict: bool, hintless: bool, bs: seq<Binding>, inner: BodyForm, count: nat)
    requires Startable(strict, bs, inner, count) && Nameable(strict, inner)
    ensures var g := RenamedRun(hintless, bs, count);
            var body := RenameArgs(hintless, inner, g.next);
            Replaces(g.names, count, g.next) && Unfolded(body.value) && AllFresh(Binders(body.value), g.next, body.next)
            && Fixed(strict, body.value) !! g.names.Keys
  {
    var g := RenamedRun(hintless, bs, count);
    OrderlyStart(strict, hintless, bs, inner, count);
    RenameArgsShape(strict, hintless, inner, g.next);
    BeforeFewer(Named(PatternList(bs)), Named(PatternList(bs)), count, g.next);
  }

  lemma {:induction false} InnerThrough(strict: bool, hintless: bool, bs: seq<Binding>, inner: BodyForm, count: nat, vals: seq<SExp>, s: seq<Scope>)
    requires Startable(strict, bs, inner, count) && Nameable(strict, inner) && NamesBefore(Mentions(inner), count) && s != [] && |vals| == |bs|
    ensures var g := RenamedRun(hintless, bs, count);
            Through(g.names, Reads(RenameArgs(hintless, inner, g.next).value), [GroupScope(bs, vals)] + s, AssignScope(hintless, bs, count, vals, s))
  {
    var g := RenamedRun(hintless, bs, count);
    var body := RenameArgs(hintless, inner, g.next);
    forall x | x in Reads(body.value) ensures Carries(g.names, [GroupScope(bs, vals)] + s, AssignScope(hintless, bs, count, vals, s), x) {
      InnerReadIsMinded(strict, hintless, bs, inner, count, x);
      AssignCarries(strict, hintless, bs, inner, count, vals, s, g.names, x);
    }
  }

  lemma {:induction false} InnerReadIsMinded(strict: bool, hintless: bool, bs: seq<Binding>, inner: BodyForm, count: nat, x: bytes)
    requires Startable(strict, bs, inner, count) && Nameable(strict, inner) && NamesBefore(Mentions(inner), count)
    requires x in Reads(RenameArgs(hintless, inner, RenamedRun(hintless, bs, count).next).value)
    ensures var g := RenamedRun(hintless, bs, count); Minded(g, Named(PatternList(bs)), g.names, x) && Extends(g.names, g.names)
  {
    var g := RenamedRun(hintless, bs, count);
    if x in Reads(inner) {
      OldReadIsMinded(strict, hintless, bs, inner, count, x);
    } else {
      NewReadIsFresh(strict, hintless, inner, g.next, x);
      OrderlyStart(strict, hintless, bs, inner, count);
      InnerIsMinded(g, Named(PatternList(bs)), g.names, count, g.next, RenameArgs(hintless, inner, g.next).next, x);
    }
  }

  lemma {:induction false} NewReadIsFresh(strict: bool, hintless: bool, e: BodyForm, count: nat, x: bytes)
    requires Nameable(strict, e) && x in Reads(RenameArgs(hintless, e, count).value) && x !in Reads(e)
    ensures FreshName(x, count, RenameArgs(hintless, e, count).next)
  {
    RenameArgsShape(strict, hintless, e, count);
  }

  lemma {:induction false} OldReadIsMinded(strict: bool, hintless: bool, bs: seq<Binding>, inner: BodyForm, count: nat, x: bytes)
    requires Startable(strict, bs, inner, count) && NamesBefore(Mentions(inner), count) && x in Reads(inner)
    ensures var g := RenamedRun(hintless, bs, count); Minded(g, Named(PatternList(bs)), g.names, x)
  {
    ReadsAreMentioned(inner);
    OrderlyStart(strict, hintless, bs, inner, count);
    OldIsNotNew(RenamedRun(hintless, bs, count), count, x);
  }

  /** A renamed assign form, given values for its bindings and the meaning of its body. */
  lemma {:induction false} AssignStep(w: World, hintless: bool, n: nat, s: seq<Scope>, inlined: bool, bs: seq<Binding>, inner: BodyForm, count: nat,
                                      rv: seq<SExp>, v: SExp)
    requires Startable(w.strict, bs, inner, count) && Nameable(w.strict, inner) && s != []
    requires Equations(w, n, s, Backwards(RenamedRun(hintless, bs, count).bindings), rv)
    requires var g := RenamedRun(hintless, bs, count);
             Sem(w, n, [GroupScope(Backwards(g.bindings), rv)] + s, RenameIn(g.names, RenameArgs(hintless, inner, g.next).value)) == Success(v)
    ensures Sem(w, n, s, RenameArgs(hintless, Let(Assign, inlined, bs, inner), count).value) == Success(v)
  {
    var g := RenamedRun(hintless, bs, count);
    var r, body := Backwards(g.bindings), RenameIn(g.names, RenameArgs(hintless, inner, g.next).value);
    InnerWithoutEnv(w.strict, hintless, bs, inner, count);
    RenamedIsRegular(w.strict, hintless, bs, inner, count, body);
    RenamedSorts(w.strict, hintless, bs, inner, count);
    InOrderHolds(bs);
    assert |r| == |bs|;
    EquationsMean(w, n, s, inlined, r, body, rv, v);
    AssignUnfolds(hintless, inlined, bs, inner, count);
  }

  lemma {:induction false} AssignUnfolds(hintless: bool, inlined: bool, bs: seq<Binding>, inner: BodyForm, count: nat)
    requires SortBindings(bs).Known?
    ensures var g := RenamedRun(hintless, bs, count);
            RenameArgs(hintless, Let(Assign, inlined, bs, inner), count).value ==
            Let(Assign, inlined, Backwards(g.bindings), RenameIn(g.names, RenameArgs(hintless, inner, g.next).value))
  {
  }

  lemma {:induction false} EquationsMean(w: World, n: nat, s: seq<Scope>, inlined: bool, bs: seq<Binding>, inner: BodyForm, vals: seq<SExp>, v: SExp)
    requires bs != [] && s != [] && Regular(bs, inner) && SortBindings(bs).Known? && Equations(w, n, s, bs, vals)
    requires Sem(w, n, [GroupScope(bs, vals)] + s, inner) == Success(v)
    ensures Sem(w, n, s, Let(Assign, inlined, bs, inner)) == Success(v)
  {
    AssignIsEquations(w, n, s, inlined, bs, inner, v);
  }

  lemma {:induction false} InnerWithoutEnv(strict: bool, hintless: bool, bs: seq<Binding>, inner: BodyForm, count: nat)
    requires Startable(strict, bs, inner, count) && Nameable(strict, inner)
    ensures var g := RenamedRun(hintless, bs, count); NoEnv(Reads(RenameIn(g.names, RenameArgs(hintless, inner, g.next).value)))
  {
    var g := RenamedRun(hintless, bs, count);
    var body := RenameArgs(hintless, inner, g.next);
    OrderlyStart(strict, hintless, bs, inner, count);
    RenameArgsShape(strict, hintless, inner, g.next);
    RenamedInnerShape(strict, g.names, inner, body.value, count, g.next, body.next);
    SpecialNames();
    forall x | x in {AT, AT_ENV} ensures x !in Reads(RenameIn(g.names, body.value)) {
      UnmarkedIsBefore(x, count);
      if FreshName(x, count, body.next) {
        FreshAfter(x, count, body.next, x);
      }
    }
  }

  lemma {:induction false} RenameSequenceMeans(w: World, w': World, hintless: bool, n: nat, s: seq<Scope>, bs: seq<Binding>, inner: BodyForm,
                                               count: nat, v: SExp)
    requires RenamedWorld(w, w', hintless) && SequenceNameable(w.strict, bs, inner)
    requires NamesBefore(Mentions(Let(Sequential, false, bs, inner)), count)
    requires s != [] && SemSequence(w, n, s, bs, inner) == Success(v)
    ensures Sem(w', n, s, RenameSequence(hintless, bs, inner, count).value) == Success(v)
    decreases n, BindingsWeight(bs, 1) + Weight(inner), 2
  {
    var e := Let(Sequential, false, bs, inner);
    BeforeFewer(Mentions(e), Mentions(inner), count, count);
    if bs == [] {
      RenameMeans(w, w', hintless, n, s, inner, count, v);
    } else {
      BindingParts(bs, 1);
      var rest := Let(Sequential, false, bs[1..], inner);
      var value, next := Sem(w, n, s, bs[0].body).value, MakeAllUnique([bs[0]], map[], count).next;
      var first := RenameArgs(hintless, bs[0].body, next);
      SequenceNames(bs, inner, count);
      BeforeFewer(Mentions(bs[0].body), Mentions(bs[0].body), count, next);
      RenameMeans(w, w', hintless, n, s, bs[0].body, next, value);
      BeforeFewer(Mentions(rest), Mentions(rest), count, first.next);
      RenameSequenceMeans(w, w', hintless, n, [Scope(PatternList([bs[0]]), Cons(value, Nil))] + s, bs[1..], inner, first.next, v);
      SequenceLetStep(w', hintless, n, s, bs, inner, count, value, v);
    }
  }

  /** A renamed sequential let, given that its first binding and the rest of it keep their meaning. */
  lemma {:induction false} SequenceLetStep(w: World, hintless: bool, n: nat, s: seq<Scope>, bs: seq<Binding>, inner: BodyForm, count: nat,
                                           value: SExp, v: SExp)
    requires bs != [] && SequenceNameable(w.strict, bs, inner)
    requires NamesBefore(Mentions(Let(Sequential, false, bs, inner)), count)
    requires Accepts(w, PatternList([bs[0]]), Cons(value, Nil))
    requires var first := RenameArgs(hintless, bs[0].body, MakeAllUnique([bs[0]], map[], count).next);
             Sem(w, n, s, first.value) == Success(value)
             && Sem(w, n, [Scope(PatternList([bs[0]]), Cons(value, Nil))] + s, RenameSequence(hintless, bs[1..], inner, first.next).value) == Success(v)
    ensures Sem(w, n, s, RenameSequence(hintless, bs, inner, count).value) == Success(v)
  {
    var one, rest := [bs[0]], Let(Sequential, false, bs[1..], inner);
    var u := MakeAllUnique(one, map[], count);
    var first := RenameArgs(hintless, bs[0].body, u.next);
    var body := RenameSequence(hintless, bs[1..], inner, first.next);
    SequenceNames(bs, inner, count);
    SequenceParts(w.strict, hintless, bs, inner, count);
    OneBinding(w, n, s, u.patterns, first.value, value);
    LetStep(w, n, s, one, Cons(value, Nil), u, [first.value], Let(Parallel, hintless, one, rest), body.value, count, body.next, v);
  }

  lemma {:induction false} SequenceParts(strict: bool, hintless: bool, bs: seq<Binding>, inner: BodyForm, count: nat)
    requires bs != [] && SequenceNameable(strict, bs, inner)
    ensures var u := MakeAllUnique([bs[0]], map[], count);
            var first := RenameArgs(hintless, bs[0].body, u.next);
            var body := RenameSequence(hintless, bs[1..], inner, first.next);
            Invents(u.names, count, u.next) && u.names.Keys == Named(PatternList([bs[0]]))
            && PatternsList(u.patterns) == RenamePattern(u.names, PatternList([bs[0]])) && GroupNameable([bs[0]])
            && count <= u.next <= body.next && Shaped(strict, Let(Sequential, false, bs[1..], inner), body.value, u.next, body.next)
            && Fixed(strict, Let(Sequential, false, bs[1..], inner)) !! Named(PatternList([bs[0]]))
  {
    BindingParts(bs, 1);
    UniqueGroupRenames([bs[0]], map[], count, count);
    var u := MakeAllUnique([bs[0]], map[], count);
    var first := RenameArgs(hintless, bs[0].body, u.next);
    var body := RenameSequence(hintless, bs[1..], inner, first.next);
    SequenceShape(strict, hintless, bs[1..], inner, first.next);
    ShapedWider(strict, Let(Sequential, false, bs[1..], inner), body.value, first.next, body.next, u.next, body.next);
  }

  lemma {:induction false} SequenceNames(bs: seq<Binding>, inner: BodyForm, count: nat)
    requires bs != [] && NamesBefore(Mentions(Let(Sequential, false, bs, inner)), count)
    ensures NamesBefore(Mentions(bs[0].body), count)
    ensures var rest := Let(Sequential, false, bs[1..], inner); NamesBefore(Mentions(rest), count)
    ensures forall hintless :: var step := Let(Parallel, hintless, [bs[0]], Let(Sequential, false, bs[1..], inner));
                               NamesBefore(Mentions(step), count)
  {
    var e, rest := Let(Sequential, false, bs, inner), Let(Sequential, false, bs[1..], inner);
    assert BodyMentions(bs[0]) == Mentions(bs[0].body);
    assert BindingsMention(bs) == SExpNames(PatternOf(bs[0])) + Mentions(bs[0].body) + BindingsMention(bs[1..]);
    BeforeFewer(Mentions(e), Mentions(bs[0].body), count, count);
    BeforeFewer(Mentions(e), Mentions(rest), count, count);
    forall hintless
      ensures var step := Let(Parallel, hintless, [bs[0]], rest); NamesBefore(Mentions(step), count)
    {
      var step := Let(Parallel, hintless, [bs[0]], rest);
      assert [bs[0]][1..] == [];
      assert BindingsMention([bs[0]]) == SExpNames(PatternOf(bs[0])) + Mentions(bs[0].body) + BindingsMention([bs[0]][1..]);
      assert Mentions(step) == {LET_NAME} + BindingsMention([bs[0]]) + Mentions(rest);
      LetIsBefore(count);
      forall x | x in Mentions(step) ensures Before(x, count) {
        assert x == LET_NAME || x in Mentions(e);
      }
    }
  }

  lemma {:induction false} OneBinding(w: World, n: nat, s: seq<Scope>, ps: seq<BindingPattern>, body: BodyForm, value: SExp)
    requires |ps| == 1 && Sem(w, n, s, body) == Success(value)
    ensures SemBindings(w, n, s, WithBodies(ps, [body])) == Success(Cons(value, Nil))
  {
    var bs := WithBodies(ps, [body]);
    BindingParts(bs, 1);
    assert bs[1..] == [];
    assert SemBindings(w, n, s, bs[1..]) == Success(Nil);
  }

  lemma {:induction false} RenameBodiesMeans(w: World, w': World, hintless: bool, n: nat, s: seq<Scope>, bs: seq<Binding>, count: nat,
                                             ps: seq<BindingPattern>)
    requires RenamedWorld(w, w', hintless) && BindingsNameable(w.strict, bs) && |ps| == |bs|
    requires NamesBefore(BindingsMention(bs), count)
    requires s != [] && SemBindings(w, n, s, bs).Success?
    ensures SemBindings(w', n, s, WithBodies(ps, RenameBodies(hintless, bs, count).value)) == SemBindings(w, n, s, bs)
    decreases n, BindingsWeight(bs, 1), 2
  {
    if bs != [] {
      BindingParts(bs, 1);
      assert BodyMentions(bs[0]) == Mentions(bs[0].body);
      BeforeFewer(BindingsMention(bs), Mentions(bs[0].body), count, count);
      RenameMeans(w, w', hintless, n, s, bs[0].body, count, Sem(w, n, s, bs[0].body).value);
      var first := RenameArgs(hintless, bs[0].body, count);
      BeforeFewer(BindingsMention(bs), BindingsMention(bs[1..]), count, first.next);
      RenameBodiesMeans(w, w', hintless, n, s, bs[1..], first.next, ps[1..]);
      var rest := RenameBodies(hintless, bs[1..], first.next);
      var all := WithBodies(ps, [first.value] + rest.value);
      BindingParts(all, 1);
      assert all[1..] == WithBodies(ps[1..], rest.value);
    }
  }

  lemma {:induction false} RenameFormsMeans(w: World, w': World, hintless: bool, n: nat, s: seq<Scope>, args: seq<BodyForm>, tail: Option<BodyForm>,
                                            count: nat, last: nat)
    requires RenamedWorld(w, w', hintless) && FormsNameable(w.strict, args) && NamesBefore(FormsMention(args), count)
    requires tail.Some? ==> Nameable(w.strict, tail.value) && NamesBefore(Mentions(tail.value), last)
    requires s != [] && SemArgs(w, n, s, args, tail).Success?
    ensures SemArgs(w', n, s, RenameForms(hintless, args, count).value, RenameTail(hintless, tail, last)) == SemArgs(w, n, s, args, tail)
    decreases n, FormsWeight(args) + TailWeight(tail), 2
  {
    if args == [] {
      if tail.Some? {
        RenameMeans(w, w', hintless, n, s, tail.value, last, Sem(w, n, s, tail.value).value);
      }
    } else {
      BeforeFewer(FormsMention(args), Mentions(args[0]), count, count);
      RenameMeans(w, w', hintless, n, s, args[0], count, Sem(w, n, s, args[0]).value);
      var first := RenameArgs(hintless, args[0], count);
      BeforeFewer(FormsMention(args), FormsMention(args[1..]), count, first.next);
      RenameFormsMeans(w, w', hintless, n, s, args[1..], tail, first.next, last);
      var rest := RenameForms(hintless, args[1..], first.next);
      assert ([first.value] + rest.value)[1..] == rest.value;
    }
  }

  function RenameTail(hintless: bool, tail: Option<BodyForm>, count: nat): Option<BodyForm> {
    match tail case None => None case Some(t) => Some(RenameArgs(hintless, t, count).value)
  }

  lemma {:induction false} RenameCallMeans(w: World, w': World, hintless: bool, n: nat, s: seq<Scope>, e: BodyForm, count: nat, v: SExp)
    requires e.Call? && RenamedWorld(w, w', hintless) && Nameable(w.strict, e) && NamesBefore(Mentions(e), count)
    requires s != [] && Sem(w, n, s, e) == Success(v)
    ensures Sem(w', n, s, RenameArgs(hintless, e, count).value) == Success(v)
    decreases n, Weight(e), 0
  {
    var Call(forms, tail) := e;
    var name := CallName(forms[0]).value;
    var start, last := RenameArgs(hintless, forms[0], count).next, RenameForms(hintless, forms, count).next;
    CallNames(w.strict, forms, tail, count, start, last);
    WeightParts(e);
    var f := FindDefun(w.defuns, name);
    assert RenamedFunction(w.strict, w.defuns, w'.defuns, hintless, name);
    if f.Some? {
      RenameCalleeMeans(w, w', hintless, n, s, forms[1..], tail, start, last, f.value, v);
    } else if Primitive(w.prims, name).Some? {
      RenameFormsMeans(w, w', hintless, n, s, forms[1..], None, start, last);
    }
    CallStep(w, w', hintless, n, s, forms, tail, count, v);
  }

  lemma {:induction false} RenameCalleeMeans(w: World, w': World, hintless: bool, n: nat, s: seq<Scope>, args: seq<BodyForm>, tail: Option<BodyForm>,
                                             count: nat, last: nat, f: Defun, v: SExp)
    requires RenamedWorld(w, w', hintless) && FormsNameable(w.strict, args) && NamesBefore(FormsMention(args), count)
    requires tail.Some? ==> Nameable(w.strict, tail.value) && NamesBefore(Mentions(tail.value), last)
    requires FindDefun(w.defuns, f.name) == Some(f) && s != [] && n > 0 && SemArgs(w, n, s, args, tail).Success?
    requires Accepts(w, f.args, SemArgs(w, n, s, args, tail).value)
    requires Sem(w, n - 1, [Scope(f.args, SemArgs(w, n, s, args, tail).value)], f.body) == Success(v)
    ensures SemArgs(w', n, s, RenameForms(hintless, args, count).value, RenameTail(hintless, tail, last)) == SemArgs(w, n, s, args, tail)
    ensures var f', given := FindDefun(w'.defuns, f.name), SemArgs(w, n, s, args, tail).value;
            f'.Some? && Accepts(w', f'.value.args, given) && Sem(w', n - 1, [Scope(f'.value.args, given)], f'.value.body) == Success(v)
    decreases n, FormsWeight(args) + TailWeight(tail), 3
  {
    RenameFormsMeans(w, w', hintless, n, s, args, tail, count, last);
    assert RenamedFunction(w.strict, w.defuns, w'.defuns, hintless, f.name);
    var c: nat :| DefunNameable(w.strict, f, c) && FindDefun(w'.defuns, f.name) == Some(RenameDefun(hintless, f, c).value);
    RenameDefunMeans(w, w', hintless, n - 1, f, c, SemArgs(w, n, s, args, tail).value, v);
  }

  lemma {:induction false} CallNames(strict: bool, forms: seq<BodyForm>, tail: Option<BodyForm>, count: nat, start: nat, last: nat)
    requires forms != [] && Nameable(strict, Call(forms, tail)) && count <= start && count <= last
    requires NamesBefore(Mentions(Call(forms, tail)), count)
    ensures FormsNameable(strict, forms[1..]) && NamesBefore(FormsMention(forms[1..]), start)
    ensures tail.Some? ==> Nameable(strict, tail.value) && NamesBefore(Mentions(tail.value), last)
  {
    var e := Call(forms, tail);
    assert FormsMention(forms) == Mentions(forms[0]) + FormsMention(forms[1..]);
    BeforeFewer(Mentions(e), FormsMention(forms[1..]), count, start);
    if tail.Some? {
      assert TailMentions(tail) == {AMP_REST} + Mentions(tail.value);
      BeforeFewer(Mentions(e), Mentions(tail.value), count, last);
    }
  }

  /** A renamed call, given that its arguments and the function it calls keep their meaning. */
  lemma {:induction false} CallStep(w: World, w': World, hintless: bool, n: nat, s: seq<Scope>, forms: seq<BodyForm>, tail: Option<BodyForm>,
                                    count: nat, v: SExp)
    requires w' == w.(defuns := w'.defuns) && Sem(w, n, s, Call(forms, tail)) == Success(v)
    requires var start, last := RenameArgs(hintless, forms[0], count).next, RenameForms(hintless, forms, count).next;
             var f, f' := FindDefun(w.defuns, CallName(forms[0]).value), FindDefun(w'.defuns, CallName(forms[0]).value);
             f.Some? == f'.Some?
             && if f.Some? then
                  SemArgs(w', n, s, RenameForms(hintless, forms[1..], start).value, RenameTail(hintless, tail, last)) == SemArgs(w, n, s, forms[1..], tail)
                  && n > 0 && var args := SemArgs(w, n, s, forms[1..], tail).value;
                              Accepts(w', f'.value.args, args) && Sem(w', n - 1, [Scope(f'.value.args, args)], f'.value.body) == Success(v)
                else Primitive(w.prims, CallName(forms[0]).value).Some? ==>
                       SemArgs(w', n, s, RenameForms(hintless, forms[1..], start).value, None) == SemArgs(w, n, s, forms[1..], None)
    ensures Sem(w', n, s, RenameArgs(hintless, Call(forms, tail), count).value) == Success(v)
  {
    var start := RenameArgs(hintless, forms[0], count).next;
    var r := RenameArgs(hintless, Call(forms, tail), count).value;
    assert r.forms[0] == forms[0];
    assert r.forms[1..] == RenameForms(hintless, forms[1..], start).value;
    assert r.tail == RenameTail(hintless, tail, RenameForms(hintless, forms, count).next);
    var name := CallName(forms[0]).value;
    if FindDefun(w.defuns, name) == None && Primitive(w.prims, name) == None {
      assert |r.forms| == 2 && PathLiteral(forms[1]).Some?;
      assert r.forms[1] == RenameArgs(hintless, forms[1], start).value == forms[1];
    }
  }

  lemma {:induction false} RenameDefunMeans(w: World, w': World, hintless: bool, n: nat, f: Defun, c: nat, args: SExp, v: SExp)
    requires RenamedWorld(w, w', hintless) && DefunNameable(w.strict, f, c) && Accepts(w, f.args, args)
    requires Sem(w, n, [Scope(f.args, args)], f.body) == Success(v)
    ensures var f' := RenameDefun(hintless, f, c).value;
            Accepts(w', f'.args, args) && Sem(w', n, [Scope(f'.args, args)], f'.body) == Success(v)
    decreases n, Weight(f.body), 2
  {
    InventsNames(f.args, map[], c, c);
    var own := InventNames(f.args, map[], c);
    RenamesEveryLeaf(own.names, f.args, true);
    RenamedCovers(own.names, c, own.next, f.args, args);
    var body := RenameArgs(hintless, f.body, own.next);
    BeforeFewer(Mentions(f.body), Mentions(f.body), c, own.next);
    ReadsAreMentioned(f.body);
    BeforeFewer(Mentions(f.body), Reads(f.body), c, c);
    RenameMeans(w, w', hintless, n, [Scope(f.args, args)], f.body, own.next, v);
    RenameArgsShape(w.strict, hintless, f.body, own.next);
    assert [Scope(f.args, args)] + [] == [Scope(f.args, args)];
    GroupMeans(w', n, [], f.args, args, own.names, c, own.next, body.next, Reads(f.body), body.value, v);
    assert [Scope(RenamePattern(own.names, f.args), args)] + [] == [Scope(RenamePattern(own.names, f.args), args)];
  }
}
