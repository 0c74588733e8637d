/** Which names a renamed expression mentions. */
module RenamingMentions {
  import opened Numbers
  import opened SExpressions
  import opened Syntax
  import opened Toposort
  import opened AssignForms
  import opened AssignWeight
  import opened Gensyms
  import opened HoistingNames
  import opened Renaming
  import opened RenamingNames

  // ---- Replacing free names --------------------------------------------------------------------

  /** A name that was there, or the new name of one that was. */
  ghost predicate Came(m: NameMap, names: Names, x: bytes) { x in names || exists y :: y in m && y in names && m[y] == x }

  ghost predicate AllCame(m: NameMap, names': Names, names: Names) { forall x :: x in names' ==> Came(m, names, x) }

  lemma {:induction false} CameBoth(m: NameMap, a': Names, a: Names, b': Names, b: Names)
    requires AllCame(m, a', a) && AllCame(m, b', b)
    ensures AllCame(m, a' + b', a + b)
  {
    forall x | x in a' + b' ensures Came(m, a + b, x) {
      if x in a' {
        assert Came(m, a, x);
      } else {
        assert Came(m, b, x);
      }
    }
  }

  lemma {:induction false} RenameInCame(m: NameMap, e: BodyForm)
    ensures AllCame(m, Mentions(RenameIn(m, e)), Mentions(e))
    decreases Weight(e), 1
  {
    match e
    case Let(kind, _, bs, inner) =>
      WeightPerBinding(bs);
      RenameInBindingsCame(m, bs);
      RenameInCame(m, inner);
      CameBoth(m, {Marker(kind)}, {Marker(kind)}, BindingsMention(RenameInBindings(m, bs)), BindingsMention(bs));
      CameBoth(m, {Marker(kind)} + BindingsMention(RenameInBindings(m, bs)), {Marker(kind)} + BindingsMention(bs),
               Mentions(RenameIn(m, inner)), Mentions(inner));
    case Quoted(Atom(n)) => CameBoth(m, {Q_NAME}, {Q_NAME}, {NewName(m, n)}, {n});
    case Value(Atom(n)) => assert Came(m, {n}, NewName(m, n));
    case Call(forms, tail) =>
      WeightParts(e);
      RenameInCallCame(m, forms);
      if tail.Some? {
        RenameInCame(m, tail.value);
        CameBoth(m, {AMP_REST}, {AMP_REST}, Mentions(RenameIn(m, tail.value)), Mentions(tail.value));
      }
      var r := RenameIn(m, e);
      CameBoth(m, FormsMention(r.forms), FormsMention(forms), TailMentions(r.tail), TailMentions(tail));
    case _ =>
  }

  lemma {:induction false} RenameInCallCame(m: NameMap, forms: seq<BodyForm>)
    ensures AllCame(m, FormsMention(if forms == [] then [] else [forms[0]] + RenameInForms(m, forms[1..])), FormsMention(forms))
    decreases FormsWeight(forms), 2
  {
    if forms != [] {
      RenameInFormsCame(m, forms[1..]);
      var rest := RenameInForms(m, forms[1..]);
      var r := [forms[0]] + rest;
      assert r[1..] == rest;
      CameBoth(m, Mentions(forms[0]), Mentions(forms[0]), FormsMention(rest), FormsMention(forms[1..]));
    }
  }

  lemma {:induction false} RenameInFormsCame(m: NameMap, forms: seq<BodyForm>)
    ensures AllCame(m, FormsMention(RenameInForms(m, forms)), FormsMention(forms))
    decreases FormsWeight(forms), 2
  {
    if forms != [] {
      RenameInCame(m, forms[0]);
      RenameInFormsCame(m, forms[1..]);
      CameBoth(m, Mentions(RenameIn(m, forms[0])), Mentions(forms[0]), FormsMention(RenameInForms(m, forms[1..])), FormsMention(forms[1..]));
    }
  }

  lemma {:induction false} RenameInBindingsCame(m: NameMap, bs: seq<Binding>)
    ensures AllCame(m, BindingsMention(RenameInBindings(m, bs)), BindingsMention(bs))
    decreases BindingsWeight(bs, 1), 2
  {
    if bs != [] {
      BindingParts(bs, 1);
      RenameInCame(m, bs[0].body);
      RenameInBindingsCame(m, bs[1..]);
      var b, names := RenameInBody(m, bs[0]), SExpNames(PatternOf(bs[0]));
      CameBoth(m, names, names, Mentions(b.body), Mentions(bs[0].body));
      CameBoth(m, names + Mentions(b.body), names + Mentions(bs[0].body), BindingsMention(RenameInBindings(m, bs[1..])), BindingsMention(bs[1..]));
      assert BodyMentions(b) == Mentions(b.body) && BodyMentions(bs[0]) == Mentions(bs[0].body) && PatternOf(b) == PatternOf(bs[0]);
    }
  }

  // ---- Renaming binders ------------------------------------------------------------------------

  /** Names that were there, the word for parallel lets, and invented names. */
  ghost predicate MentionsFrom(names: Names, base: Names, lo: nat, hi: nat) {
    forall x :: x in names ==> x in base || x == LET_NAME || FreshName(x, lo, hi)
  }

  lemma {:induction false} FromWider(names: Names, base: Names, lo: nat, hi: nat, base': Names, lo': nat, hi': nat)
    requires MentionsFrom(names, base, lo, hi) && base <= base' && lo' <= lo && hi <= hi'
    ensures MentionsFrom(names, base', lo', hi')
  {
    forall x | x in names ensures x in base' || x == LET_NAME || FreshName(x, lo', hi') {
      if x !in base && x != LET_NAME {
        FreshWider(x, lo, hi, lo', hi');
      }
    }
  }

  lemma {:induction false} CameIsFrom(m: NameMap, lo: nat, mid: nat, hi: nat, names': Names, names: Names, base: Names)
    requires Invents(m, lo, mid) && lo <= mid <= hi && AllCame(m, names', names) && MentionsFrom(names, base, mid, hi)
    ensures MentionsFrom(names', base, lo, hi)
  {
    FromWider(names, base, mid, hi, base, lo, hi);
    forall x | x in names' ensures x in base || x == LET_NAME || FreshName(x, lo, hi) {
      assert Came(m, names, x);
      if x !in names {
        var y :| y in m && y in names && m[y] == x;
        InventedIsFresh(m, y, lo, mid);
        FreshWider(x, lo, mid, lo, hi);
      }
    }
  }

  lemma {:induction false} PatternMentions(m: NameMap, lo: nat, hi: nat, p: SExp)
    requires Invents(m, lo, hi)
    ensures MentionsFrom(SExpNames(RenamePattern(m, p)), SExpNames(p), lo, hi)
  {
    match p
    case Atom(a) =>
      if a in m {
        InventedIsFresh(m, a, lo, hi);
      }
    case Cons(a, b) =>
      PatternMentions(m, lo, hi, a);
      PatternMentions(m, lo, hi, b);
    case _ =>
  }

  /** The names in patterns alone. */
  function PatternNames(bs: seq<Binding>): Names { if bs == [] then {} else SExpNames(PatternOf(bs[0])) + PatternNames(bs[1..]) }

  function BodyNames(bs: seq<Binding>): Names { if bs == [] then {} else BodyMentions(bs[0]) + BodyNames(bs[1..]) }

  lemma {:induction false} BindingsAreBoth(bs: seq<Binding>)
    ensures BindingsMention(bs) == PatternNames(bs) + BodyNames(bs) && PatternNames(bs) == SExpNames(PatternList(bs))
  {
    if bs != [] {
      BindingsAreBoth(bs[1..]);
    }
  }

  lemma {:induction false} BodyNamesOnly(ps: seq<BindingPattern>, bodies: seq<BodyForm>)
    requires |ps| == |bodies|
    ensures BodyNames(WithBodies(ps, bodies)) == FormsMention(bodies)
  {
    if ps != [] {
      var bs := WithBodies(ps, bodies);
      BodyNamesOnly(ps[1..], bodies[1..]);
      assert bs[1..] == WithBodies(ps[1..], bodies[1..]) && BodyMentions(bs[0]) == Mentions(bodies[0]);
    }
  }

  lemma {:induction false} MembersMention(a: seq<Binding>, bs: seq<Binding>)
    requires forall b :: b in a ==> b in bs
    ensures BindingsMention(a) <= BindingsMention(bs) && BodyNames(a) <= BodyNames(bs)
  {
    if a != [] {
      assert a[0] in bs;
      OneMentioned(a[0], bs);
      MembersMention(a[1..], bs);
    }
  }

  lemma {:induction false} OneMentioned(b: Binding, bs: seq<Binding>)
    requires b in bs
    ensures SExpNames(PatternOf(b)) + BodyMentions(b) <= BindingsMention(bs) && BodyMentions(b) <= BodyNames(bs)
  {
    if b != bs[0] {
      OneMentioned(b, bs[1..]);
    }
  }

  /** The mentions of a renamed let, from those of its parts. */
  lemma {:induction false} LetMentions(kind: LetKind, kind': LetKind, inlined: bool, inlined': bool, bs: seq<Binding>, inner: BodyForm,
                                       r: seq<Binding>, inner': BodyForm, m: NameMap, lo: nat, mid: nat, hi: nat)
    requires Invents(m, lo, mid) && lo <= mid <= hi && (kind' == kind || kind' == Parallel)
    requires MentionsFrom(PatternNames(r), PatternNames(bs), lo, mid) && MentionsFrom(BodyNames(r), BodyNames(bs), lo, hi)
    requires MentionsFrom(Mentions(inner'), Mentions(inner), mid, hi)
    ensures MentionsFrom(Mentions(Let(kind', inlined', r, RenameIn(m, inner'))), Mentions(Let(kind, inlined, bs, inner)), lo, hi)
  {
    var base := Mentions(Let(kind, inlined, bs, inner));
    BindingsAreBoth(bs);
    BindingsAreBoth(r);
    RenameInCame(m, inner');
    CameIsFrom(m, lo, mid, hi, Mentions(RenameIn(m, inner')), Mentions(inner'), Mentions(inner));
    FromWider(Mentions(RenameIn(m, inner')), Mentions(inner), lo, hi, base, lo, hi);
    FromWider(PatternNames(r), PatternNames(bs), lo, mid, base, lo, hi);
    FromWider(BodyNames(r), BodyNames(bs), lo, hi, base, lo, hi);
  }

  lemma {:induction false} RenameArgsMentions(strict: bool, hintless: bool, e: BodyForm, count: nat)
    requires Nameable(strict, e)
    ensures var r := RenameArgs(hintless, e, count); MentionsFrom(Mentions(r.value), Mentions(e), count, r.next)
    decreases Weight(e), 1
  {
    match e
    case Let(Sequential, _, bs, inner) => SequenceMentions(strict, hintless, bs, inner, count);
    case Let(Parallel, inlined, bs, inner) =>
      UniqueGroupRenames(bs, map[], count, count);
      var u := MakeAllUnique(bs, map[], count);
      RenameBodiesMentions(strict, hintless, bs, u.next);
      var bodies := RenameBodies(hintless, bs, u.next);
      RenameArgsMentions(strict, hintless, inner, bodies.next);
      var body := RenameArgs(hintless, inner, bodies.next);
      GroupMentions(bs, inner, u, bodies.value, body.value, Parallel, inlined, inlined, count, bodies.next, body.next);
    case Let(Assign, _, _, _) => AssignMentions(strict, hintless, e, count);
    case Call(forms, tail) =>
      WeightParts(e);
      RenameFormsMentions(strict, hintless, forms, count);
      var args := RenameForms(hintless, forms, count);
      FromWider(FormsMention(args.value), FormsMention(forms), count, args.next, Mentions(e), count, RenameArgs(hintless, e, count).next);
      if tail.Some? {
        RenameArgsMentions(strict, hintless, tail.value, args.next);
        var last := RenameArgs(hintless, tail.value, args.next);
        assert TailMentions(tail) == {AMP_REST} + Mentions(tail.value);
        FromWider(Mentions(last.value), Mentions(tail.value), args.next, last.next, Mentions(e), count, last.next);
      }
    case _ =>
  }

  lemma {:induction false} GroupMentions(bs: seq<Binding>, inner: BodyForm, u: UniqueGroup, bodies: seq<BodyForm>, body: BodyForm, kind: LetKind,
                                         inlined: bool, inlined': bool, lo: nat, mid: nat, hi: nat)
    requires |u.patterns| == |bodies| && lo <= u.next <= mid <= hi && Invents(u.names, lo, u.next)
    requires PatternsList(u.patterns) == RenamePattern(u.names, PatternList(bs))
    requires MentionsFrom(FormsMention(bodies), BodyNames(bs), u.next, mid) && MentionsFrom(Mentions(body), Mentions(inner), mid, hi)
    ensures MentionsFrom(Mentions(Let(Parallel, inlined', WithBodies(u.patterns, bodies), RenameIn(u.names, body))),
                         Mentions(Let(kind, inlined, bs, inner)), lo, hi)
  {
    var r := WithBodies(u.patterns, bodies);
    PatternsOnly(u.patterns, bodies);
    BodyNamesOnly(u.patterns, bodies);
    BindingsAreBoth(bs);
    BindingsAreBoth(r);
    PatternMentions(u.names, lo, u.next, PatternList(bs));
    FromWider(BodyNames(r), BodyNames(bs), u.next, mid, BodyNames(bs), lo, hi);
    FromWider(Mentions(body), Mentions(inner), mid, hi, Mentions(inner), u.next, hi);
    LetMentions(kind, Parallel, inlined, inlined', bs, inner, r, body, u.names, lo, u.next, hi);
  }

  lemma {:induction false} SequenceMentions(strict: bool, hintless: bool, bs: seq<Binding>, inner: BodyForm, count: nat)
    requires SequenceNameable(strict, bs, inner)
    ensures var r := RenameSequence(hintless, bs, inner, count);
            MentionsFrom(Mentions(r.value), BindingsMention(bs) + Mentions(inner), count, r.next)
    decreases BindingsWeight(bs, 1) + Weight(inner), 2
  {
    if bs == [] {
      RenameArgsMentions(strict, hintless, inner, count);
      var r := RenameArgs(hintless, inner, count);
      FromWider(Mentions(r.value), Mentions(inner), count, r.next, BindingsMention(bs) + Mentions(inner), count, r.next);
    } else {
      BindingParts(bs, 1);
      UniqueGroupRenames([bs[0]], map[], count, count);
      var u := MakeAllUnique([bs[0]], map[], count);
      RenameArgsMentions(strict, hintless, bs[0].body, u.next);
      var first := RenameArgs(hintless, bs[0].body, u.next);
      SequenceMentions(strict, hintless, bs[1..], inner, first.next);
      SequenceMentionsStep(hintless, bs, inner, u, first.value, RenameSequence(hintless, bs[1..], inner, first.next).value, count, first.next,
                           RenameSequence(hintless, bs[1..], inner, first.next).next);
    }
  }

  lemma {:induction false} SequenceMentionsStep(hintless: bool, bs: seq<Binding>, inner: BodyForm, u: UniqueGroup, first: BodyForm, body: BodyForm,
                                                lo: nat, mid: nat, hi: nat)
    requires bs != [] && |u.patterns| == 1 && lo <= u.next <= mid <= hi && Invents(u.names, lo, u.next)
    requires PatternsList(u.patterns) == RenamePattern(u.names, PatternList([bs[0]]))
    requires MentionsFrom(Mentions(first), Mentions(bs[0].body), u.next, mid)
    requires MentionsFrom(Mentions(body), BindingsMention(bs[1..]) + Mentions(inner), mid, hi)
    ensures MentionsFrom(Mentions(Let(Parallel, hintless, WithBodies(u.patterns, [first]), RenameIn(u.names, body))),
                         BindingsMention(bs) + Mentions(inner), lo, hi)
  {
    var rest := Let(Parallel, hintless, bs[1..], inner);
    assert Mentions(rest) == {LET_NAME} + BindingsMention(bs[1..]) + Mentions(inner);
    FromWider(Mentions(body), BindingsMention(bs[1..]) + Mentions(inner), mid, hi, Mentions(rest), mid, hi);
    assert [bs[0]][1..] == [] && BodyNames([bs[0]]) == BodyMentions(bs[0]) == Mentions(bs[0].body);
    assert FormsMention([first]) == Mentions(first) + FormsMention([first][1..]) == Mentions(first);
    GroupMentions([bs[0]], rest, u, [first], body, Parallel, hintless, hintless, lo, mid, hi);
    var e := Let(Parallel, hintless, [bs[0]], rest);
    BindingsAreBoth([bs[0]]);
    assert BindingsMention([bs[0]]) == SExpNames(PatternOf(bs[0])) + BodyMentions(bs[0]) + BindingsMention([bs[0]][1..]);
    assert Mentions(e) == {LET_NAME} + BindingsMention([bs[0]]) + Mentions(rest);
    assert Mentions(e) <= {LET_NAME} + BindingsMention(bs) + Mentions(inner);
  }

  lemma {:induction false} RenameBodiesMentions(strict: bool, hintless: bool, bs: seq<Binding>, count: nat)
    requires BindingsNameable(strict, bs)
    ensures var r := RenameBodies(hintless, bs, count); MentionsFrom(FormsMention(r.value), BodyNames(bs), count, r.next)
    decreases BindingsWeight(bs, 1), 2
  {
    if bs != [] {
      BindingParts(bs, 1);
      RenameArgsMentions(strict, hintless, bs[0].body, count);
      var first := RenameArgs(hintless, bs[0].body, count);
      RenameBodiesMentions(strict, hintless, bs[1..], first.next);
      var rest := RenameBodies(hintless, bs[1..], first.next);
      assert BodyMentions(bs[0]) == Mentions(bs[0].body);
      FromWider(Mentions(first.value), Mentions(bs[0].body), count, first.next, BodyNames(bs), count, rest.next);
      FromWider(FormsMention(rest.value), BodyNames(bs[1..]), first.next, rest.next, BodyNames(bs), count, rest.next);
      assert ([first.value] + rest.value)[1..] == rest.value;
    }
  }

  lemma {:induction false} RenameFormsMentions(strict: bool, hintless: bool, forms: seq<BodyForm>, count: nat)
    requires FormsNameable(strict, forms)
    ensures var r := RenameForms(hintless, forms, count); MentionsFrom(FormsMention(r.value), FormsMention(forms), count, r.next)
    decreases FormsWeight(forms), 2
  {
    if forms != [] {
      RenameArgsMentions(strict, hintless, forms[0], count);
      var first := RenameArgs(hintless, forms[0], count);
      RenameFormsMentions(strict, hintless, forms[1..], first.next);
      var rest := RenameForms(hintless, forms[1..], first.next);
      FromWider(Mentions(first.value), Mentions(forms[0]), count, first.next, FormsMention(forms), count, rest.next);
      FromWider(FormsMention(rest.value), FormsMention(forms[1..]), first.next, rest.next, FormsMention(forms), count, rest.next);
      assert ([first.value] + rest.value)[1..] == rest.value;
    }
  }

  lemma {:induction false} AssignMentions(strict: bool, hintless: bool, e: BodyForm, count: nat)
    requires e.Let? && e.kind == Assign && Nameable(strict, e)
    ensures var r := RenameArgs(hintless, e, count); MentionsFrom(Mentions(r.value), Mentions(e), count, r.next)
    decreases Weight(e), 0
  {
    var Let(_, inlined, bs, inner) := e;
    WeightPerBinding(bs);
    InOrderWeight(bs);
    InOrderGroup(strict, bs);
    RenameInOrderShape(strict, hintless, InOrder(bs), map[], count, count);
    var g := RenameInOrder(hintless, InOrder(bs), map[], count);
    OrderMentions(strict, hintless, InOrder(bs), map[], count, count);
    RenameArgsMentions(strict, hintless, inner, g.next);
    var body := RenameArgs(hintless, inner, g.next);
    var r := Backwards(g.bindings);
    BackwardsHolds(g.bindings);
    MembersMention(r, g.bindings);
    InOrderHolds(bs);
    MembersMention(InOrder(bs), bs);
    BindingsAreBoth(r);
    BindingsAreBoth(bs);
    PatternsBackwards(strict, bs, g, count);
    FromWider(BodyNames(g.bindings), BodyNames(InOrder(bs)), count, g.next, BodyNames(bs), count, body.next);
    FromWider(BodyNames(r), BodyNames(bs), count, body.next, BodyNames(bs), count, body.next);
    LetMentions(Assign, Assign, inlined, inlined, bs, inner, r, body.value, g.names, count, g.next, body.next);
  }

  lemma {:induction false} PatternsBackwards(strict: bool, bs: seq<Binding>, g: RenamedGroup, lo: nat)
    requires SortBindings(bs).Known? && GroupNameable(bs) && AllComplex(bs) && BindingsNameable(strict, bs) && WordsOnly(PatternList(bs)) && bs != []
    requires OrderShaped(strict, InOrder(bs), map[], g, lo)
    ensures MentionsFrom(PatternNames(Backwards(g.bindings)), PatternNames(bs), lo, g.next)
  {
    var r := Backwards(g.bindings);
    BackwardsShaped(strict, bs, g, lo);
    BackwardsHolds(g.bindings);
    Members(strict, r, g.bindings);
    InOrderGroup(strict, bs);
    WordsAreAtoms(PatternList(r));
    WordsAreAtoms(PatternList(bs));
    WordsAreAtoms(PatternList(InOrder(bs)));
    BindingsAreBoth(r);
    BindingsAreBoth(bs);
    PatternMentions(g.names, lo, g.next, PatternList(InOrder(bs)));
    WordsRenamed(g.names, PatternList(InOrder(bs)));
    WordsAreAtoms(PatternList(g.bindings));
  }

  lemma {:induction false} OrderMentions(strict: bool, hintless: bool, bs: seq<Binding>, m: NameMap, lo: nat, count: nat)
    requires BindingsNameable(strict, bs) && GroupNameable(bs) && AllComplex(bs) && Invents(m, lo, count) && lo <= count
    ensures var g := RenameInOrder(hintless, bs, m, count); MentionsFrom(BodyNames(g.bindings), BodyNames(bs), lo, g.next)
    decreases BindingsWeight(bs, 1), 2
  {
    if bs != [] {
      BindingParts(bs, 1);
      assert bs[0].pattern.Complex? && AllComplex(bs[1..]);
      var p := bs[0].pattern.pattern;
      InventsNames(p, m, lo, count);
      var own := InventNames(p, m, count);
      RenameArgsMentions(strict, hintless, bs[0].body, own.next);
      var body := RenameArgs(hintless, bs[0].body, own.next);
      InventsLater(own.names, lo, own.next, body.next);
      OrderMentions(strict, hintless, bs[1..], own.names, lo, body.next);
      var rest := RenameInOrder(hintless, bs[1..], own.names, body.next);
      RenameInCame(own.names, body.value);
      CameIsFrom(own.names, lo, own.next, body.next, Mentions(RenameIn(own.names, body.value)), Mentions(body.value), Mentions(bs[0].body));
      var first := Binding(Complex(RenameInCons(own.names, p, false)), RenameIn(own.names, body.value));
      var g := RenameInOrder(hintless, bs, m, count);
      assert g.bindings == [first] + rest.bindings && g.bindings[1..] == rest.bindings;
      assert BodyMentions(first) == Mentions(first.body) && BodyMentions(bs[0]) == Mentions(bs[0].body);
      FromWider(BodyMentions(first), BodyMentions(bs[0]), lo, body.next, BodyNames(bs), lo, rest.next);
      FromWider(BodyNames(rest.bindings), BodyNames(bs[1..]), lo, rest.next, BodyNames(bs), lo, rest.next);
    }
  }

  // ---- Older names -----------------------------------------------------------------------------

  ghost predicate NamesBefore(names: Names, count: nat) { forall x :: x in names ==> Before(x, count) }

  lemma {:induction false} BeforeFewer(names: Names, fewer: Names, lo: nat, count: nat)
    requires NamesBefore(names, lo) && fewer <= names && lo <= count
    ensures NamesBefore(fewer, count)
  {
  }

  lemma {:induction false} LetIsBefore(count: nat)
    ensures Before(LET_NAME, count)
  {
    if Marked(LET_NAME) {
      MarkedHasBar(LET_NAME);
    }
    UnmarkedIsBefore(LET_NAME, count);
  }
}
