/** The names an expression reads that nothing in it binds, and how its calls are written; both pass
    through renaming. */
module FreeNames {
  import opened Numbers
  import opened SExpressions
  import opened Syntax
  import opened Toposort
  import opened AssignForms
  import opened AssignWeight
  import opened Relevance
  import opened HoistingNames
  import opened Renaming
  import opened RenamingNames
  import opened RenamingMentions
  import opened RenamingPatterns
  import opened RenamingOrder

  // ---- Free names ------------------------------------------------------------------------------

  /** The names read that are not bound on the way, `@` aside; where numbers are names, those too. */
  function Free(strict: bool, e: BodyForm): Names
    decreases Weight(e), 1
  {
    match e
    case Let(Parallel, _, bs, inner) => BindingsFree(strict, bs) + (Free(strict, inner) - Named(PatternList(bs)))
    case Let(Sequential, _, bs, inner) => SequenceFree(strict, bs, inner)
    case Let(Assign, _, bs, inner) =>
      WeightPerBinding(bs);
      BindingsFree(strict, bs) + Free(strict, inner) - Named(PatternList(bs))
    case Value(Atom(a)) => {a} - {AT, AT_ENV}
    case Value(Integer(i)) => if strict then {} else {U8FromNumber(i)} - {AT, AT_ENV}
    case Call(forms, tail) =>
      WeightParts(e);
      (if forms == [] then {} else FormsFree(strict, forms[1..])) + (if tail.Some? then Free(strict, tail.value) else {})
    case _ => {}
  }

  function SequenceFree(strict: bool, bs: seq<Binding>, inner: BodyForm): Names
    decreases BindingsWeight(bs, 1) + Weight(inner), 2
  {
    if bs == [] then Free(strict, inner)
    else
      BindingParts(bs, 1);
      Free(strict, bs[0].body) + (SequenceFree(strict, bs[1..], inner) - Named(PatternList([bs[0]])))
  }

  function BindingsFree(strict: bool, bs: seq<Binding>): Names
    decreases BindingsWeight(bs, 1), 2
  {
    if bs == [] then {}
    else
      BindingParts(bs, 1);
      Free(strict, bs[0].body) + BindingsFree(strict, bs[1..])
  }

  function FormsFree(strict: bool, forms: seq<BodyForm>): Names
    decreases FormsWeight(forms), 2
  {
    if forms == [] then {} else Free(strict, forms[0]) + FormsFree(strict, forms[1..])
  }

  lemma {:induction false} FreeIsRead(strict: bool, e: BodyForm)
    ensures Free(strict, e) <= Reads(e) && AT !in Free(strict, e) && AT_ENV !in Free(strict, e)
    decreases Weight(e), 1
  {
    match e
    case Let(Sequential, _, bs, inner) => SequenceFreeIsRead(strict, bs, inner);
    case Let(_, _, bs, inner) =>
      WeightPerBinding(bs);
      BindingsFreeAreRead(strict, bs);
      FreeIsRead(strict, inner);
    case Call(forms, tail) =>
      WeightParts(e);
      if forms != [] {
        FormsFreeAreRead(strict, forms[1..]);
      }
      if tail.Some? {
        FreeIsRead(strict, tail.value);
      }
    case _ =>
  }

  lemma {:induction false} SequenceFreeIsRead(strict: bool, bs: seq<Binding>, inner: BodyForm)
    ensures var r := SequenceFree(strict, bs, inner); r <= BindingsRead(bs) + Reads(inner) && AT !in r && AT_ENV !in r
    decreases BindingsWeight(bs, 1) + Weight(inner), 2
  {
    if bs == [] {
      FreeIsRead(strict, inner);
    } else {
      BindingParts(bs, 1);
      FreeIsRead(strict, bs[0].body);
      SequenceFreeIsRead(strict, bs[1..], inner);
      assert BodyReads(bs[0]) == Reads(bs[0].body);
    }
  }

  lemma {:induction false} BindingsFreeAreRead(strict: bool, bs: seq<Binding>)
    ensures var r := BindingsFree(strict, bs); r <= BindingsRead(bs) && AT !in r && AT_ENV !in r
    decreases BindingsWeight(bs, 1), 2
  {
    if bs != [] {
      BindingParts(bs, 1);
      FreeIsRead(strict, bs[0].body);
      BindingsFreeAreRead(strict, bs[1..]);
      assert BodyReads(bs[0]) == Reads(bs[0].body);
    }
  }

  lemma {:induction false} FormsFreeAreRead(strict: bool, forms: seq<BodyForm>)
    ensures var r := FormsFree(strict, forms); r <= FormsRead(forms) && AT !in r && AT_ENV !in r
    decreases FormsWeight(forms), 2
  {
    if forms != [] {
      FreeIsRead(strict, forms[0]);
      FormsFreeAreRead(strict, forms[1..]);
    }
  }

  function BodyFree(strict: bool, b: Binding): Names { Free(strict, b.body) }

  lemma {:induction false} FreeOfMember(strict: bool, bs: seq<Binding>, b: Binding)
    requires b in bs
    ensures BodyFree(strict, b) <= BindingsFree(strict, bs)
  {
    BindingParts(bs, 1);
    if b != bs[0] {
      assert bs == [bs[0]] + bs[1..];
      FreeOfMember(strict, bs[1..], b);
    }
  }

  /** A set that holds what each body reads free. */
  lemma {:induction false} FreeOfAll(strict: bool, bs: seq<Binding>, names: Names)
    requires forall b :: b in bs ==> BodyFree(strict, b) <= names
    ensures BindingsFree(strict, bs) <= names
  {
    if bs != [] {
      BindingParts(bs, 1);
      assert bs[0] in bs && BodyFree(strict, bs[0]) <= names;
      forall b | b in bs[1..] ensures BodyFree(strict, b) <= names { assert b in bs; }
      FreeOfAll(strict, bs[1..], names);
    }
  }

  // ---- Replacing names -------------------------------------------------------------------------

  /** Names that come from others by replacing. */
  ghost predicate CameFrom(m: NameMap, after: Names, before: Names) { forall y :: y in after ==> exists x :: x in before && NewName(m, x) == y }

  lemma {:induction false} CameTogether(m: NameMap, a: Names, b: Names, a': Names, b': Names)
    requires CameFrom(m, a, a') && CameFrom(m, b, b')
    ensures CameFrom(m, a + b, a' + b')
  {
    forall y | y in a + b ensures exists x :: x in a' + b' && NewName(m, x) == y {
      if y in a {
        var x :| x in a' && NewName(m, x) == y;
        assert x in a' + b';
      } else {
        var x :| x in b' && NewName(m, x) == y;
        assert x in a' + b';
      }
    }
  }

  lemma {:induction false} CameWithout(m: NameMap, a: Names, a': Names, bound: Names)
    requires CameFrom(m, a, a') && bound !! m.Keys
    ensures CameFrom(m, a - bound, a' - bound)
  {
    forall y | y in a - bound ensures exists x :: x in a' - bound && NewName(m, x) == y {
      var x :| x in a' && NewName(m, x) == y;
      assert x in a' - bound;
    }
  }

  /** What `RenameIn` may be used on. */
  ghost predicate Replaceable(strict: bool, m: NameMap, e: BodyForm) {
    Unfolded(e) && Fixed(strict, e) !! m.Keys && Binders(e) !! m.Keys && AT !in m && AT_ENV !in m && forall x :: x in m ==> m[x] != AT && m[x] != AT_ENV
  }

  lemma {:induction false} FreeReplaced(strict: bool, m: NameMap, e: BodyForm)
    requires Replaceable(strict, m, e)
    ensures CameFrom(m, Free(strict, RenameIn(m, e)), Free(strict, e))
    decreases Weight(e), 1
  {
    match e
    case Let(kind, _, bs, inner) =>
      WeightPerBinding(bs);
      SamePatterns(m, bs);
      BindingsFreeReplaced(strict, m, bs);
      FreeReplaced(strict, m, inner);
      var bodies, bodies' := BindingsFree(strict, RenameInBindings(m, bs)), BindingsFree(strict, bs);
      var body, body' := Free(strict, RenameIn(m, inner)), Free(strict, inner);
      var bound := Named(PatternList(bs));
      if kind == Parallel {
        CameWithout(m, body, body', bound);
        CameTogether(m, bodies, body - bound, bodies', body' - bound);
      } else {
        CameTogether(m, bodies, body, bodies', body');
        CameWithout(m, bodies + body, bodies' + body', bound);
      }
    case Value(Atom(a)) => if a !in {AT, AT_ENV} { assert a in Free(strict, e); }
    case Value(Integer(i)) => if !strict { assert U8FromNumber(i) in Fixed(strict, e); }
    case Call(forms, tail) =>
      WeightParts(e);
      var args, args': Names := {}, {};
      if forms != [] {
        assert FormsFixed(strict, forms) == Fixed(strict, forms[0]) + FormsFixed(strict, forms[1..]);
        assert FormsBinders(forms) == Binders(forms[0]) + FormsBinders(forms[1..]);
        assert FormsUnfolded(forms);
        assert FormsUnfolded(forms[1..]);
        FormsFreeReplaced(strict, m, forms[1..]);
        assert RenameIn(m, e).forms[1..] == RenameInForms(m, forms[1..]);
        args, args' := FormsFree(strict, RenameInForms(m, forms[1..])), FormsFree(strict, forms[1..]);
      }
      if tail.Some? {
        FreeReplaced(strict, m, tail.value);
        CameTogether(m, args, Free(strict, RenameIn(m, tail.value)), args', Free(strict, tail.value));
      }
    case _ =>
  }

  lemma {:induction false} BindingsFreeReplaced(strict: bool, m: NameMap, bs: seq<Binding>)
    requires BindingsUnfolded(bs) && BindingsFixed(strict, bs) !! m.Keys && BindingsBinders(bs) !! m.Keys && AT !in m && AT_ENV !in m
    requires forall x :: x in m ==> m[x] != AT && m[x] != AT_ENV
    ensures CameFrom(m, BindingsFree(strict, RenameInBindings(m, bs)), BindingsFree(strict, bs))
    decreases BindingsWeight(bs, 1), 2
  {
    if bs != [] {
      BindingParts(bs, 1);
      BindingParts(RenameInBindings(m, bs), 1);
      assert BodyUnfolded(bs[0]) && BodyFixed(strict, bs[0]) == Fixed(strict, bs[0].body) && BodyBinders(bs[0]) == Binders(bs[0].body);
      FreeReplaced(strict, m, bs[0].body);
      BindingsFreeReplaced(strict, m, bs[1..]);
      assert RenameInBindings(m, bs)[1..] == RenameInBindings(m, bs[1..]);
      CameTogether(m, Free(strict, RenameIn(m, bs[0].body)), BindingsFree(strict, RenameInBindings(m, bs[1..])),
                   Free(strict, bs[0].body), BindingsFree(strict, bs[1..]));
    }
  }

  lemma {:induction false} FormsFreeReplaced(strict: bool, m: NameMap, forms: seq<BodyForm>)
    requires FormsUnfolded(forms) && FormsFixed(strict, forms) !! m.Keys && FormsBinders(forms) !! m.Keys && AT !in m && AT_ENV !in m
    requires forall x :: x in m ==> m[x] != AT && m[x] != AT_ENV
    ensures CameFrom(m, FormsFree(strict, RenameInForms(m, forms)), FormsFree(strict, forms))
    decreases FormsWeight(forms), 2
  {
    if forms != [] {
      FreeReplaced(strict, m, forms[0]);
      FormsFreeReplaced(strict, m, forms[1..]);
      assert RenameInForms(m, forms)[1..] == RenameInForms(m, forms[1..]);
      CameTogether(m, Free(strict, RenameIn(m, forms[0])), FormsFree(strict, RenameInForms(m, forms[1..])),
                   Free(strict, forms[0]), FormsFree(strict, forms[1..]));
    }
  }

  // ---- Renaming --------------------------------------------------------------------------------

  /** Replacing a group's names by new ones: what is left free was free outside the group. */
  lemma {:induction false} FreeOutside(m: NameMap, lo: nat, hi: nat, after: Names, before: Names, group: SExp)
    requires Invents(m, lo, hi) && Renameable(group) && m.Keys == Named(group) && CameFrom(m, after, before)
    ensures after - Named(RenamePattern(m, group)) <= before - Named(group)
  {
    forall y | y in after && y !in Named(RenamePattern(m, group)) ensures y in before && y !in Named(group) {
      var x :| x in before && NewName(m, x) == y;
      if x in m {
        InventedIsFresh(m, x, lo, hi);
        NewNameIsNamed(m, group, x);
      }
    }
  }

  lemma {:induction false} NewNameIsNamed(m: NameMap, p: SExp, x: bytes)
    requires x in Named(p) && x in m && m[x] != AT
    ensures m[x] in Named(RenamePattern(m, p))
  {
    if p.Cons? {
      if x in Named(p.first) {
        NewNameIsNamed(m, p.first, x);
      } else {
        NewNameIsNamed(m, p.rest, x);
      }
    }
  }

  lemma {:induction false} InventedAreOrdinary(m: NameMap, lo: nat, hi: nat)
    requires Invents(m, lo, hi)
    ensures AT !in m && AT_ENV !in m && forall x :: x in m ==> m[x] != AT && m[x] != AT_ENV
  {
    forall x | x in m ensures m[x] != AT && m[x] != AT_ENV && x != AT_ENV {
      InventedIsFresh(m, x, lo, hi);
    }
  }

  lemma {:induction false} OldKeys(names: Names, keys: Names, lo: nat, hi: nat)
    requires AllFresh(names, lo, hi) && forall x :: x in keys ==> Before(x, lo)
    ensures names !! keys
  {
    forall x | x in names ensures x !in keys {
      if x in keys {
        FreshAfter(x, lo, hi, x);
      }
    }
  }

  /** A renamed body inside a renamed group. */
  lemma {:induction false} FreeInGroup(strict: bool, m: NameMap, lo: nat, mid: nat, hi: nat, e: BodyForm, r: BodyForm, group: SExp)
    requires Invents(m, lo, mid) && Renameable(group) && m.Keys == Named(group) && (forall x :: x in m ==> Before(x, mid))
    requires Shaped(strict, e, r, mid, hi) && Fixed(strict, e) !! m.Keys && Free(strict, r) <= Free(strict, e)
    ensures Free(strict, RenameIn(m, r)) - Named(RenamePattern(m, group)) <= Free(strict, e) - Named(group)
  {
    InventedAreOrdinary(m, lo, mid);
    OldKeys(Binders(r), m.Keys, mid, hi);
    FreeReplaced(strict, m, r);
    FreeOutside(m, lo, mid, Free(strict, RenameIn(m, r)), Free(strict, r), group);
  }

  lemma {:induction false} WithBodiesFree(strict: bool, ps: seq<BindingPattern>, bodies: seq<BodyForm>)
    requires |ps| == |bodies|
    ensures BindingsFree(strict, WithBodies(ps, bodies)) == FormsFree(strict, bodies)
  {
    if ps != [] {
      WithBodiesFree(strict, ps[1..], bodies[1..]);
      var bs := WithBodies(ps, bodies);
      BindingParts(bs, 1);
      assert bs[1..] == WithBodies(ps[1..], bodies[1..]);
    }
  }

  /** Renaming an expression frees no name. */
  lemma {:induction false} RenamingFreesNone(strict: bool, hintless: bool, e: BodyForm, count: nat)
    requires Nameable(strict, e) && NamesBefore(Mentions(e), count)
    ensures Free(strict, RenameArgs(hintless, e, count).value) <= Free(strict, e)
    decreases Weight(e), 1
  {
    match e
    case Let(Sequential, _, bs, inner) => SequenceFreesNone(strict, hintless, bs, inner, count);
    case Let(Parallel, inlined, bs, inner) =>
      UniqueGroupRenames(bs, map[], count, count);
      var u := MakeAllUnique(bs, map[], count);
      BeforeFewer(Mentions(e), BindingsMention(bs), count, u.next);
      BodiesFreeNone(strict, hintless, bs, u.next);
      var bodies := RenameBodies(hintless, bs, u.next);
      BeforeFewer(Mentions(e), Mentions(inner), count, bodies.next);
      BeforeFewer(Mentions(e), BindingsMention(bs), count, count);
      RenameArgsShape(strict, hintless, inner, bodies.next);
      RenamingFreesNone(strict, hintless, inner, bodies.next);
      var body := RenameArgs(hintless, inner, bodies.next);
      ParallelFreesNone(strict, e, u, bodies.value, body.value, count, bodies.next, body.next);
    case Let(Assign, _, _, _) => AssignFreesNone(strict, hintless, e, count);
    case Call(forms, tail) =>
      WeightParts(e);
      var args := RenameForms(hintless, forms, count);
      BeforeFewer(Mentions(e), FormsMention(forms), count, count);
      CallFreesNone(strict, hintless, forms, count);
      if tail.Some? {
        assert Mentions(e) == FormsMention(forms) + TailMentions(tail) && TailMentions(tail) == {AMP_REST} + Mentions(tail.value);
        BeforeFewer(Mentions(e), Mentions(tail.value), count, args.next);
        RenamingFreesNone(strict, hintless, tail.value, args.next);
      }
    case _ =>
  }

  lemma {:induction false} ParallelFreesNone(strict: bool, e: BodyForm, u: UniqueGroup, bodies: seq<BodyForm>, body: BodyForm, lo: nat, mid: nat, hi: nat)
    requires e.Let? && e.kind == Parallel && |u.patterns| == |bodies| && lo <= u.next <= mid <= hi && GroupNameable(e.bindings) && NamesBefore(BindingsMention(e.bindings), lo)
    requires Invents(u.names, lo, u.next) && u.names.Keys == Named(PatternList(e.bindings))
    requires PatternsList(u.patterns) == RenamePattern(u.names, PatternList(e.bindings)) && Fixed(strict, e.inner) !! u.names.Keys
    requires FormsFree(strict, bodies) <= BindingsFree(strict, e.bindings) && Shaped(strict, e.inner, body, mid, hi) && Free(strict, body) <= Free(strict, e.inner)
    ensures forall inlined :: Free(strict, Let(Parallel, inlined, WithBodies(u.patterns, bodies), RenameIn(u.names, body))) <= Free(strict, e)
  {
    var group := PatternList(e.bindings);
    GroupIsRenameable(e.bindings);
    NamedAreMentioned(e.bindings);
    BeforeFewer(BindingsMention(e.bindings), Named(group), lo, u.next);
    ShapedWider(strict, e.inner, body, mid, hi, u.next, hi);
    FreeInGroup(strict, u.names, lo, u.next, hi, e.inner, body, group);
    PatternsOnly(u.patterns, bodies);
    WithBodiesFree(strict, u.patterns, bodies);
  }

  lemma {:induction false} SequenceFreesNone(strict: bool, hintless: bool, bs: seq<Binding>, inner: BodyForm, count: nat)
    requires SequenceNameable(strict, bs, inner) && NamesBefore(BindingsMention(bs) + Mentions(inner), count)
    ensures Free(strict, RenameSequence(hintless, bs, inner, count).value) <= SequenceFree(strict, bs, inner)
    decreases BindingsWeight(bs, 1) + Weight(inner), 2
  {
    if bs == [] {
      RenamingFreesNone(strict, hintless, inner, count);
    } else {
      BindingParts(bs, 1);
      UniqueGroupRenames([bs[0]], map[], count, count);
      var u := MakeAllUnique([bs[0]], map[], count);
      var whole, later := BindingsMention(bs) + Mentions(inner), Let(Sequential, false, bs[1..], inner);
      OneMention(bs[0]);
      BeforeFewer(whole, Mentions(bs[0].body), count, u.next);
      RenamingFreesNone(strict, hintless, bs[0].body, u.next);
      var first := RenameArgs(hintless, bs[0].body, u.next);
      BeforeFewer(whole, BindingsMention(bs[1..]) + Mentions(inner), count, first.next);
      BeforeFewer(whole, BindingsMention([bs[0]]), count, count);
      SequenceShape(strict, hintless, bs[1..], inner, first.next);
      SequenceFreesNone(strict, hintless, bs[1..], inner, first.next);
      var body := RenameSequence(hintless, bs[1..], inner, first.next);
      SequenceStepFrees(strict, hintless, bs, inner, u, first.value, body.value, count, first.next, body.next);
    }
  }

  lemma {:induction false} SequenceStepFrees(strict: bool, hintless: bool, bs: seq<Binding>, inner: BodyForm, u: UniqueGroup, first: BodyForm,
                                             body: BodyForm, lo: nat, mid: nat, hi: nat)
    requires bs != [] && |u.patterns| == 1 && lo <= u.next <= mid <= hi && GroupNameable([bs[0]]) && NamesBefore(BindingsMention([bs[0]]), lo)
    requires Invents(u.names, lo, u.next) && u.names.Keys == Named(PatternList([bs[0]]))
    requires PatternsList(u.patterns) == RenamePattern(u.names, PatternList([bs[0]]))
    requires (BindingsFixed(strict, bs[1..]) + Fixed(strict, inner)) !! u.names.Keys
    requires Free(strict, first) <= Free(strict, bs[0].body) && Shaped(strict, Let(Sequential, false, bs[1..], inner), body, mid, hi)
    requires Free(strict, body) <= SequenceFree(strict, bs[1..], inner)
    ensures Free(strict, Let(Parallel, hintless, WithBodies(u.patterns, [first]), RenameIn(u.names, body))) <= SequenceFree(strict, bs, inner)
  {
    var later := Let(Sequential, false, bs[1..], inner);
    OneFree(strict, first);
    OneBindingFree(strict, bs[0]);
    BindingParts(bs, 1);
    ParallelFreesNone(strict, Let(Parallel, false, [bs[0]], later), u, [first], body, lo, mid, hi);
  }

  lemma {:induction false} OneMention(b: Binding)
    ensures BindingsMention([b]) == SExpNames(PatternOf(b)) + Mentions(b.body)
  {
    assert [b][1..] == [] && BodyMentions(b) == Mentions(b.body) && BindingsMention([]) == {};
    assert BindingsMention([b]) == SExpNames(PatternOf(b)) + BodyMentions(b) + BindingsMention([b][1..]);
  }

  lemma {:induction false} OneFree(strict: bool, e: BodyForm)
    ensures FormsFree(strict, [e]) == Free(strict, e)
  {
    assert [e][1..] == [];
  }

  lemma {:induction false} OneBindingFree(strict: bool, b: Binding)
    ensures BindingsFree(strict, [b]) == Free(strict, b.body)
  {
    BindingParts([b], 1);
    assert [b][1..] == [];
  }

  lemma {:induction false} BodiesFreeNone(strict: bool, hintless: bool, bs: seq<Binding>, count: nat)
    requires BindingsNameable(strict, bs) && NamesBefore(BindingsMention(bs), count)
    ensures FormsFree(strict, RenameBodies(hintless, bs, count).value) <= BindingsFree(strict, bs)
    decreases BindingsWeight(bs, 1), 2
  {
    if bs != [] {
      BindingParts(bs, 1);
      assert BodyMentions(bs[0]) == Mentions(bs[0].body);
      BeforeFewer(BindingsMention(bs), Mentions(bs[0].body), count, count);
      RenamingFreesNone(strict, hintless, bs[0].body, count);
      var first := RenameArgs(hintless, bs[0].body, count);
      BeforeFewer(BindingsMention(bs), BindingsMention(bs[1..]), count, first.next);
      BodiesFreeNone(strict, hintless, bs[1..], first.next);
      var rest := RenameBodies(hintless, bs[1..], first.next);
      assert ([first.value] + rest.value)[1..] == rest.value;
    }
  }

  lemma {:induction false} CallFreesNone(strict: bool, hintless: bool, forms: seq<BodyForm>, count: nat)
    requires FormsNameable(strict, forms) && NamesBefore(FormsMention(forms), count)
    ensures var r := RenameForms(hintless, forms, count).value; forms != [] ==> FormsFree(strict, r[1..]) <= FormsFree(strict, forms[1..])
    decreases FormsWeight(forms), 3
  {
    if forms != [] {
      var first := RenameArgs(hintless, forms[0], count);
      BeforeFewer(FormsMention(forms), FormsMention(forms[1..]), count, first.next);
      FormsFreeNone(strict, hintless, forms[1..], first.next);
      var rest := RenameForms(hintless, forms[1..], first.next);
      assert ([first.value] + rest.value)[1..] == rest.value;
    }
  }

  lemma {:induction false} FormsFreeNone(strict: bool, hintless: bool, forms: seq<BodyForm>, count: nat)
    requires FormsNameable(strict, forms) && NamesBefore(FormsMention(forms), count)
    ensures FormsFree(strict, RenameForms(hintless, forms, count).value) <= FormsFree(strict, forms)
    decreases FormsWeight(forms), 2
  {
    if forms != [] {
      BeforeFewer(FormsMention(forms), Mentions(forms[0]), count, count);
      RenamingFreesNone(strict, hintless, forms[0], count);
      var first := RenameArgs(hintless, forms[0], count);
      BeforeFewer(FormsMention(forms), FormsMention(forms[1..]), count, first.next);
      FormsFreeNone(strict, hintless, forms[1..], first.next);
      var rest := RenameForms(hintless, forms[1..], first.next);
      assert ([first.value] + rest.value)[1..] == rest.value;
    }
  }

  // ---- Assign forms ----------------------------------------------------------------------------

  /** A binding of an assign form, renamed: its names are replaced by new ones up to its own, and later
      ones it does not mention. */
  lemma {:induction false} RunFreesNone(strict: bool, hintless: bool, bs: seq<Binding>, inner: BodyForm, count: nat, k: nat)
    requires Startable(strict, bs, inner, count) && k < |InOrder(bs)|
    ensures var g := RenamedRun(hintless, bs, count);
            BodyFree(strict, g.bindings[k]) - Named(RenamePattern(g.names, PatternList(InOrder(bs)))) <= BodyFree(strict, InOrder(bs)[k]) - Named(PatternList(bs))
    decreases BindingsWeight(bs, 2), 3
  {
    var ordered, g := InOrder(bs), RenamedRun(hintless, bs, count);
    OrderlyStart(strict, hintless, bs, inner, count);
    var own, c := InOrderAt(strict, hintless, ordered, map[], count, count, k);
    var b := ordered[k];
    InOrderHolds(bs);
    BodyIsLighter(bs, SortBindings(bs).value[k].index);
    OneMentioned(b, bs);
    BeforeFewer(BindingsMention(bs), Mentions(b.body), count, c);
    Member(strict, bs, b);
    RenameArgsShape(strict, hintless, b.body, c);
    RenamingFreesNone(strict, hintless, b.body, c);
    var body := RenameArgs(hintless, b.body, c);
    OwnIsOld(bs, own, k, count, c);
    assert Fixed(strict, b.body) == BodyFixed(strict, b);
    InventedAreOrdinary(own, count, c);
    OldKeys(Binders(body.value), own.Keys, c, body.next);
    FreeReplaced(strict, own, body.value);
    assert RenamedAt(hintless, b, g.bindings[k], g, own, c);
    OneOfRun(strict, hintless, bs, inner, count, k, own, c, body.value);
  }

  lemma {:induction false} OneOfRun(strict: bool, hintless: bool, bs: seq<Binding>, inner: BodyForm, count: nat, k: nat, own: NameMap, c: nat,
                                    body: BodyForm)
    requires Startable(strict, bs, inner, count) && k < |InOrder(bs)| && Invents(own, count, c)
    requires own.Keys == Named(PatternList(InOrder(bs)[..k + 1])) && own.Keys <= Named(PatternList(bs))
    requires Extends(RenamedRun(hintless, bs, count).names, own) && RenamedRun(hintless, bs, count).bindings[k].body == RenameIn(own, body)
    requires Free(strict, body) <= BodyFree(strict, InOrder(bs)[k]) && CameFrom(own, Free(strict, RenameIn(own, body)), Free(strict, body))
    ensures var g := RenamedRun(hintless, bs, count);
            BodyFree(strict, g.bindings[k]) - Named(RenamePattern(g.names, PatternList(InOrder(bs)))) <= BodyFree(strict, InOrder(bs)[k]) - Named(PatternList(bs))
  {
    var ordered, g := InOrder(bs), RenamedRun(hintless, bs, count);
    var b := ordered[k];
    OrderlyStart(strict, hintless, bs, inner, count);
    forall y | y in BodyFree(strict, g.bindings[k]) && y !in Named(RenamePattern(g.names, PatternList(ordered)))
      ensures y in BodyFree(strict, b) && y !in Named(PatternList(bs)) {
      var x :| x in Free(strict, body) && NewName(own, x) == y;
      if x in own {
        InventedIsFresh(own, x, count, c);
        NewNameIsNamed(g.names, PatternList(ordered), x);
      } else if x in Named(PatternList(bs)) {
        LaterIsNotRead(strict, bs, k, x);
      }
    }
  }

  lemma {:induction false} OwnIsOld(bs: seq<Binding>, own: NameMap, k: nat, count: nat, c: nat)
    requires SortBindings(bs).Known? && k < |InOrder(bs)| && own.Keys == Named(PatternList(InOrder(bs)[..k + 1])) && count <= c
    requires NamesBefore(Named(PatternList(bs)), count)
    ensures own.Keys <= Named(PatternList(bs)) && forall x :: x in own.Keys ==> Before(x, c)
  {
    InOrderHolds(bs);
    forall b | b in InOrder(bs)[..k + 1] ensures b in bs { assert b in InOrder(bs); }
    Members(true, InOrder(bs)[..k + 1], bs);
    BeforeFewer(Named(PatternList(bs)), own.Keys, count, c);
  }

  /** What a binding of an assign form reads is not provided later. */
  lemma {:induction false} LaterIsNotRead(strict: bool, bs: seq<Binding>, k: nat, x: bytes)
    requires SortBindings(bs).Known? && WordsOnly(PatternList(bs)) && k < |InOrder(bs)|
    requires x in BodyFree(strict, InOrder(bs)[k]) && x in Named(PatternList(bs))
    ensures x in Named(PatternList(InOrder(bs)[..k + 1]))
  {
    var b := InOrder(bs)[k];
    FreeIsRead(strict, b.body);
    ReadsAreMentioned(b.body);
    assert BodyMentions(b) == Mentions(b.body);
    NeedsEarlier(bs, k, x);
    var some, more := InOrder(bs)[..k], InOrder(bs)[..k + 1];
    forall c | c in some ensures c in more { assert more[..k] == some; }
    Members(strict, some, more);
  }

  lemma {:induction false} AssignFreesNone(strict: bool, hintless: bool, e: BodyForm, count: nat)
    requires e.Let? && e.kind == Assign && Nameable(strict, e) && NamesBefore(Mentions(e), count)
    ensures Free(strict, RenameArgs(hintless, e, count).value) <= Free(strict, e)
    decreases Weight(e), 0
  {
    var Let(_, inlined, bs, inner) := e;
    BeforeFewer(Mentions(e), BindingsMention(bs), count, count);
    var ordered, g := InOrder(bs), RenamedRun(hintless, bs, count);
    OrderlyStart(strict, hintless, bs, inner, count);
    GroupIsRenameable(ordered);
    BeforeFewer(Mentions(e), Mentions(inner), count, g.next);
    RenameArgsShape(strict, hintless, inner, g.next);
    RenamingFreesNone(strict, hintless, inner, g.next);
    var body := RenameArgs(hintless, inner, g.next);
    BeforeFewer(Named(PatternList(bs)), g.names.Keys, count, g.next);
    FreeInGroup(strict, g.names, count, g.next, body.next, inner, body.value, PatternList(ordered));
    forall k | 0 <= k < |ordered|
      ensures BodyFree(strict, g.bindings[k]) - Named(RenamePattern(g.names, PatternList(ordered))) <= BodyFree(strict, ordered[k]) - Named(PatternList(bs)) {
      RunFreesNone(strict, hintless, bs, inner, count, k);
    }
    AssignedFreesNone(strict, e, g, body.value);
  }

  lemma {:induction false} AssignedFreesNone(strict: bool, e: BodyForm, g: RenamedGroup, body: BodyForm)
    requires e.Let? && e.kind == Assign && SortBindings(e.bindings).Known? && |g.bindings| == |InOrder(e.bindings)|
    requires PatternList(g.bindings) == RenamePattern(g.names, PatternList(InOrder(e.bindings)))
    requires forall k :: 0 <= k < |g.bindings| ==>
               BodyFree(strict, g.bindings[k]) - Named(PatternList(g.bindings)) <= BodyFree(strict, InOrder(e.bindings)[k]) - Named(PatternList(e.bindings))
    requires Free(strict, RenameIn(g.names, body)) - Named(PatternList(g.bindings)) <= Free(strict, e.inner) - Named(PatternList(e.bindings))
    ensures Free(strict, Let(Assign, e.inlined, Backwards(g.bindings), RenameIn(g.names, body))) <= Free(strict, e)
  {
    var bs, r, new' := e.bindings, Backwards(g.bindings), Named(PatternList(g.bindings));
    BackwardsHolds(g.bindings);
    Members(strict, r, g.bindings);
    Members(strict, g.bindings, r);
    InOrderHolds(bs);
    var old', all := Named(PatternList(bs)), BindingsFree(strict, bs);
    forall b | b in r ensures BodyFree(strict, b) <= (all - old') + new' {
      assert b in g.bindings;
      var k :| 0 <= k < |g.bindings| && g.bindings[k] == b;
      var c := InOrder(bs)[k];
      assert c in InOrder(bs);
      FreeOfMember(strict, bs, c);
      Without(BodyFree(strict, b), new', BodyFree(strict, c), old', all);
    }
    var allowed := (all - old') + new';
    FreeOfAll(strict, r, allowed);
    AssignedFree(strict, e, r, RenameIn(g.names, body), new');
  }

  lemma {:induction false} Without(a: Names, a': Names, b: Names, b': Names, all: Names)
    requires a - a' <= b - b' && b <= all
    ensures a <= (all - b') + a'
  {
    forall x | x in a ensures x in (all - b') + a' {
      if x !in a' {
        assert x in a - a';
      }
    }
  }

  lemma {:induction false} AssignedFree(strict: bool, e: BodyForm, r: seq<Binding>, inner: BodyForm, new': Names)
    requires e.Let? && e.kind == Assign && new' == Named(PatternList(r))
    requires BindingsFree(strict, r) <= (BindingsFree(strict, e.bindings) - Named(PatternList(e.bindings))) + new'
    requires Free(strict, inner) - new' <= Free(strict, e.inner) - Named(PatternList(e.bindings))
    ensures Free(strict, Let(Assign, e.inlined, r, inner)) <= Free(strict, e)
  {
    var a, b := BindingsFree(strict, r), Free(strict, inner);
    var old' := Named(PatternList(e.bindings));
    forall x | x in a + b && x !in new' ensures x in BindingsFree(strict, e.bindings) + Free(strict, e.inner) && x !in old' {
      if x !in a {
        assert x in b - new';
      }
    }
    assert Free(strict, Let(Assign, e.inlined, r, inner)) == a + b - new';
    assert Free(strict, e) == BindingsFree(strict, e.bindings) + Free(strict, e.inner) - old';
  }
}
