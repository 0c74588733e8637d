/** Renamed programs are what hoisting asks for; the whole compiler from source to machine. */
module RenamedPrograms {
  import opened Numbers
  import opened SExpressions
  import opened Machine
  import opened Syntax
  import opened AssignForms
  import opened AssignWeight
  import opened Semantics
  import opened Relevance
  import opened AssignMeaning
  import opened CodeGeneration
  import opened HoistingNames
  import opened HoistingSound
  import opened Desugaring
  import opened Renaming
  import opened RenamingNames
  import opened RenamingAssigns
  import opened RenamingMentions
  import opened RenamingPatterns
  import opened RenamingOrder
  import opened RenamingSound

  // ---- Patterns --------------------------------------------------------------------------------

  /** A pattern that hoisting can pass on: `@` is not a name in it and, where arguments are rebuilt,
      nothing is captured. */
  predicate Passable(plain: bool, p: SExp) { p != Atom(AT) && !Binds(p, AT) && (plain ==> PlainPattern(p)) }

  lemma {:induction false} RenamedIsPlain(m: NameMap, lo: nat, hi: nat, p: SExp)
    requires Invents(m, lo, hi) && Renameable(p) && PlainPattern(p)
    ensures PlainPattern(RenamePattern(m, p))
  {
    match p
    case Atom(a) =>
      if a in m {
        InventedIsFresh(m, a, lo, hi);
      }
    case Cons(a, b) =>
      SameCapture(m, lo, hi, a, b);
      RenamedIsPlain(m, lo, hi, a);
      RenamedIsPlain(m, lo, hi, b);
    case _ =>
  }

  /** A pattern that binds only names invented in a span of the counter. */
  ghost predicate BindsFresh(p: SExp, lo: nat, hi: nat) { forall x :: Binds(p, x) ==> FreshName(x, lo, hi) }

  /** A pattern that binds none of those. */
  ghost predicate BindsOutside(p: SExp, lo: nat, hi: nat) { forall x :: Binds(p, x) ==> Outside(x, lo, hi) }

  lemma {:induction false} AtBefore(count: nat)
    ensures Before(AT, count) && Before(AT_ENV, count) && Before(REST_NAME, count) && Before(CONS_NAME, count)
  {
    SpecialNames();
    UnmarkedIsBefore(AT, count);
    UnmarkedIsBefore(AT_ENV, count);
    UnmarkedIsBefore(REST_NAME, count);
    UnmarkedIsBefore(CONS_NAME, count);
  }

  /** A renamed pattern binds invented names only. */
  lemma {:induction false} RenamedPasses(m: NameMap, lo: nat, hi: nat, p: SExp, plain: bool)
    requires Invents(m, lo, hi) && Renameable(p) && m.Keys == Named(p) && NamesBefore(Named(p), lo) && Passable(plain, p)
    ensures var r := RenamePattern(m, p);
            Passable(plain, r) && LeavesAlone(r) && BindsFresh(r, lo, hi)
  {
    var r := RenamePattern(m, p);
    AtBefore(lo);
    forall x | x in Atoms(p) ensures Outside(x, lo, hi) {
      BeforeIsOutside(x, lo, hi);
    }
    BeforeIsOutside(AT, lo, hi);
    RenamedBinds(m, lo, hi, p, Nil, AT);
    RenamedPattern(m, lo, hi, p);
    forall x | Binds(r, x) ensures FreshName(x, lo, hi) {
      BindsAtoms(r, x);
    }
    forall x | x in {AT_ENV, REST_NAME, CONS_NAME} ensures !Binds(r, x) {
      BeforeIsOutside(x, lo, hi);
    }
    if p.Atom? && p.name in m {
      InventedIsFresh(m, p.name, lo, hi);
    }
    if plain {
      RenamedIsPlain(m, lo, hi, p);
    }
  }

  lemma {:induction false} GroupFitsInside(args: SExp, inlined: bool, bs: seq<Binding>, plain: bool)
    requires LeavesAlone(args) && Passable(plain, args) && (inlined ==> plain) && Disjoint(args, PatternList(bs))
    requires Passable(plain, PatternList(bs)) && LeavesAlone(PatternList(bs))
    ensures GroupFits(args, inlined, bs)
  {
    assert IsAtCapture(args, PatternList(bs)) == None;
  }

  // ---- Expressions -----------------------------------------------------------------------------

  /** What hoisting asks of an expression beyond its names: patterns it can pass on, no captures where
      arguments are rebuilt, no empty calls. */
  predicate Hoistable(plain: bool, hintless: bool, e: BodyForm)
    decreases Weight(e), 1
  {
    match e
    case Let(Parallel, inlined, bs, inner) =>
      (inlined ==> plain) && Passable(plain, PatternList(bs)) && BindingsHoistable(plain, hintless, bs) && Hoistable(plain, hintless, inner)
    case Let(Assign, inlined, bs, inner) =>
      WeightPerBinding(bs);
      (inlined ==> plain) && EachPassable(plain, bs) && BindingsHoistable(plain, hintless, bs) && Hoistable(plain, hintless, inner)
    case Let(Sequential, _, bs, inner) => (hintless ==> plain) && SequenceHoistable(plain, hintless, bs, inner)
    case Call(forms, tail) =>
      WeightParts(e);
      forms != [] && FormsHoistable(plain, hintless, forms) && (tail.Some? ==> Hoistable(plain, hintless, tail.value))
    case Lambda(_, _, _, _) => false
    case _ => true
  }

  predicate EachPassable(plain: bool, bs: seq<Binding>) { forall i :: 0 <= i < |bs| ==> Passable(plain, PatternOf(bs[i])) }

  predicate SequenceHoistable(plain: bool, hintless: bool, bs: seq<Binding>, inner: BodyForm)
    decreases BindingsWeight(bs, 1) + Weight(inner), 2
  {
    if bs == [] then Hoistable(plain, hintless, inner)
    else
      BindingParts(bs, 1);
      Passable(plain, PatternList([bs[0]])) && Hoistable(plain, hintless, bs[0].body) && SequenceHoistable(plain, hintless, bs[1..], inner)
  }

  predicate BindingsHoistable(plain: bool, hintless: bool, bs: seq<Binding>)
    decreases BindingsWeight(bs, 1), 2
  {
    bs == [] || (BindingParts(bs, 1); Hoistable(plain, hintless, bs[0].body) && BindingsHoistable(plain, hintless, bs[1..]))
  }

  predicate FormsHoistable(plain: bool, hintless: bool, forms: seq<BodyForm>)
    decreases FormsWeight(forms), 2
  {
    forms == [] || (Hoistable(plain, hintless, forms[0]) && FormsHoistable(plain, hintless, forms[1..]))
  }

  /** Replacing free names by invented ones keeps binders apart. */
  lemma {:induction false} RenameInScoped(m: NameMap, lo: nat, mid: nat, hi: nat, total: nat, args: SExp, e: BodyForm)
    requires Replaces(m, lo, mid) && mid <= total && Unfolded(e) && AllFresh(Binders(e), mid, hi) && Scoped(total, args, e)
    ensures Scoped(total, args, RenameIn(m, e))
    decreases Weight(e), 1
  {
    match e
    case Let(Assign, inlined, bs, inner) => RenameInAssignScoped(m, lo, mid, hi, total, args, e);
    case Let(Parallel, inlined, bs, inner) =>
      RenameInBindingsScoped(m, lo, mid, hi, total, args, bs);
      SamePatterns(m, bs);
      RenameInScoped(m, lo, mid, hi, total, Cons(args, PatternList(bs)), inner);
    case Value(Atom(a)) =>
      if a in m {
        InventedIsFresh(m, a, lo, mid);
        FreshIsBefore(m[a], lo, mid);
      }
    case Call(forms, tail) =>
      WeightParts(e);
      assert FormsBinders(forms) == Binders(forms[0]) + FormsBinders(forms[1..]);
      FreshFewer(Binders(e), FormsBinders(forms[1..]), mid, hi);
      RenameInFormsScoped(m, lo, mid, hi, total, args, forms[1..]);
      if tail.Some? {
        FreshFewer(Binders(e), Binders(tail.value), mid, hi);
        RenameInScoped(m, lo, mid, hi, total, args, tail.value);
      }
      var r := RenameIn(m, e);
      assert r.forms[0] == forms[0] && r.forms[1..] == RenameInForms(m, forms[1..]);
    case _ =>
  }

  lemma {:induction false} RenameInAssignScoped(m: NameMap, lo: nat, mid: nat, hi: nat, total: nat, args: SExp, e: BodyForm)
    requires e.Let? && e.kind == Assign
    requires Replaces(m, lo, mid) && mid <= total && Unfolded(e) && AllFresh(Binders(e), mid, hi) && Scoped(total, args, e)
    ensures Scoped(total, args, RenameIn(m, e))
    decreases Weight(e), 0
  {
    var Let(_, inlined, bs, inner) := e;
    var hoisted := HoistAssign(inlined, bs, inner).value;
    HoistedAssignIsLighter(inlined, bs, inner);
    HoistedParts(true, inlined, bs, inner);
    FreshFewer(Binders(e), Named(PatternList(bs)), mid, hi);
    FreshFewer(Binders(e), Binders(hoisted), mid, hi);
    HoistingCommutes(m, lo, mid, hi, inlined, bs, inner);
    RenameInScoped(m, lo, mid, hi, total, args, hoisted);
    HoistedAssignIsLighter(inlined, RenameInBindings(m, bs), RenameIn(m, inner));
  }

  lemma {:induction false} RenameInBindingsScoped(m: NameMap, lo: nat, mid: nat, hi: nat, total: nat, args: SExp, bs: seq<Binding>)
    requires Replaces(m, lo, mid) && mid <= total && BindingsUnfolded(bs) && AllFresh(BindingsBinders(bs), mid, hi) && BindingsScoped(total, args, bs)
    ensures BindingsScoped(total, args, RenameInBindings(m, bs))
    decreases BindingsWeight(bs, 1), 2
  {
    if bs != [] {
      BindingParts(bs, 1);
      assert BodyUnfolded(bs[0]) && BodyBinders(bs[0]) == Binders(bs[0].body);
      RenameInScoped(m, lo, mid, hi, total, args, bs[0].body);
      RenameInBindingsScoped(m, lo, mid, hi, total, args, bs[1..]);
      var r := RenameInBindings(m, bs);
      BindingParts(r, 1);
      assert r[1..] == RenameInBindings(m, bs[1..]);
    }
  }

  lemma {:induction false} RenameInFormsScoped(m: NameMap, lo: nat, mid: nat, hi: nat, total: nat, args: SExp, forms: seq<BodyForm>)
    requires Replaces(m, lo, mid) && mid <= total && FormsUnfolded(forms) && AllFresh(FormsBinders(forms), mid, hi) && FormsScoped(total, args, forms)
    ensures FormsScoped(total, args, RenameInForms(m, forms))
    decreases FormsWeight(forms), 2
  {
    if forms != [] {
      RenameInScoped(m, lo, mid, hi, total, args, forms[0]);
      RenameInFormsScoped(m, lo, mid, hi, total, args, forms[1..]);
      assert RenameInForms(m, forms)[1..] == RenameInForms(m, forms[1..]);
    }
  }

  /** The arguments around an expression that is renamed while the counter is in a span. */
  ghost predicate Around(plain: bool, args: SExp, lo: nat, hi: nat) { LeavesAlone(args) && BindsOutside(args, lo, hi) && Passable(plain, args) }

  lemma {:induction false} AroundWithin(plain: bool, args: SExp, lo: nat, hi: nat, lo': nat, hi': nat)
    requires Around(plain, args, lo, hi) && lo <= lo' && hi' <= hi
    ensures Around(plain, args, lo', hi')
  {
    forall x | Binds(args, x) ensures Outside(x, lo', hi') {
      if FreshName(x, lo', hi') {
        FreshWider(x, lo', hi', lo, hi);
      }
    }
  }

  lemma {:induction false} AroundMore(plain: bool, args: SExp, group: SExp, lo: nat, mid: nat, hi: nat)
    requires Around(plain, args, lo, hi) && lo <= mid <= hi && Passable(plain, group) && LeavesAlone(group) && BindsFresh(group, lo, mid)
    ensures Around(plain, Cons(args, group), mid, hi)
  {
    assert IsAtCapture(args, group) == None;
    AroundWithin(plain, args, lo, hi, mid, hi);
    forall x | Binds(group, x) ensures Outside(x, mid, hi) {
      if FreshName(x, mid, hi) {
        FreshApart(x, lo, mid, x, mid, hi);
      }
    }
  }

  lemma {:induction false} OutsideIsApart(args: SExp, group: SExp, lo: nat, mid: nat, hi: nat)
    requires BindsOutside(args, lo, hi) && BindsFresh(group, lo, mid) && mid <= hi
    ensures Disjoint(args, group)
  {
    forall x ensures !(Binds(args, x) && Binds(group, x)) {
      if Binds(group, x) {
        FreshWider(x, lo, mid, lo, hi);
      }
    }
  }

  /** The renamed patterns of a group fit inside what is around them. */
  lemma {:induction false} GroupScopes(plain: bool, args: SExp, bs: seq<Binding>, u: UniqueGroup, count: nat, hi: nat)
    requires GroupNameable(bs) && Around(plain, args, count, hi) && Passable(plain, PatternList(bs)) && NamesBefore(Named(PatternList(bs)), count)
    requires Invents(u.names, count, u.next) && count <= u.next <= hi && u.names.Keys == Named(PatternList(bs))
    ensures Around(plain, Cons(args, RenamePattern(u.names, PatternList(bs))), u.next, hi)
    ensures var r := RenamePattern(u.names, PatternList(bs));
            Passable(plain, r) && LeavesAlone(r) && Disjoint(args, r) && Replaces(u.names, count, u.next)
  {
    var r := RenamePattern(u.names, PatternList(bs));
    GroupIsRenameable(bs);
    RenamedPasses(u.names, count, u.next, PatternList(bs), plain);
    AroundMore(plain, args, r, count, u.next, hi);
    OutsideIsApart(args, r, count, u.next, hi);
    BeforeFewer(Named(PatternList(bs)), Named(PatternList(bs)), count, u.next);
  }

  lemma {:induction false} LetIsScoped(total: nat, args: SExp, plain: bool, inlined: bool, bs: seq<Binding>, u: UniqueGroup, bodies: seq<BodyForm>,
                                       inner: BodyForm, count: nat, hi: nat)
    requires GroupNameable(bs) && Around(plain, args, count, hi) && Passable(plain, PatternList(bs)) && NamesBefore(Named(PatternList(bs)), count)
    requires Invents(u.names, count, u.next) && count <= u.next <= hi <= total && u.names.Keys == Named(PatternList(bs))
    requires PatternsList(u.patterns) == RenamePattern(u.names, PatternList(bs)) && |u.patterns| == |bodies| && (inlined ==> plain)
    requires BindingsScoped(total, args, WithBodies(u.patterns, bodies))
    requires Scoped(total, Cons(args, RenamePattern(u.names, PatternList(bs))), inner) && Unfolded(inner) && AllFresh(Binders(inner), u.next, hi)
    ensures Scoped(total, args, Let(Parallel, inlined, WithBodies(u.patterns, bodies), RenameIn(u.names, inner)))
  {
    var r := WithBodies(u.patterns, bodies);
    PatternsOnly(u.patterns, bodies);
    GroupScopes(plain, args, bs, u, count, hi);
    GroupFitsInside(args, inlined, r, plain);
    RenameInScoped(u.names, count, u.next, hi, total, Cons(args, PatternList(r)), inner);
  }

  /** After renaming no binder hides another. */
  lemma {:induction false} RenamedIsScoped(strict: bool, plain: bool, hintless: bool, args: SExp, e: BodyForm, count: nat, hi: nat, total: nat)
    requires Nameable(strict, e) && Hoistable(plain, hintless, e) && NamesBefore(Mentions(e), count)
    requires Around(plain, args, count, hi) && RenameArgs(hintless, e, count).next <= hi <= total
    ensures Scoped(total, args, RenameArgs(hintless, e, count).value)
    decreases Weight(e), 1
  {
    match e
    case Let(Sequential, _, bs, inner) => RenamedSequenceIsScoped(strict, plain, hintless, args, bs, inner, count, hi, total);
    case Let(Parallel, _, _, _) => RenamedLetIsScoped(strict, plain, hintless, args, e, count, hi, total);
    case Let(Assign, _, _, _) => RenamedAssignIsScoped(strict, plain, hintless, args, e, count, hi, total);
    case Call(forms, tail) => RenamedCallIsScoped(strict, plain, hintless, args, forms, tail, count, hi, total);
    case Value(Atom(a)) => assert a in Mentions(e);
    case Value(Integer(i)) => assert U8FromNumber(i) in Mentions(e);
    case _ =>
  }

  lemma {:induction false} RenamedLetIsScoped(strict: bool, plain: bool, hintless: bool, args: SExp, e: BodyForm, count: nat, hi: nat, total: nat)
    requires e.Let? && e.kind == Parallel && Nameable(strict, e) && Hoistable(plain, hintless, e) && NamesBefore(Mentions(e), count)
    requires Around(plain, args, count, hi) && RenameArgs(hintless, e, count).next <= hi <= total
    ensures Scoped(total, args, RenameArgs(hintless, e, count).value)
    decreases Weight(e), 0
  {
    var Let(_, inlined, bs, inner) := e;
    UniqueGroupRenames(bs, map[], count, count);
    var u := MakeAllUnique(bs, map[], count);
    var bodies := RenameBodies(hintless, bs, u.next);
    var body := RenameArgs(hintless, inner, bodies.next);
    var group := RenamePattern(u.names, PatternList(bs));
    NamedAreMentioned(bs);
    BeforeFewer(Mentions(e), Named(PatternList(bs)), count, count);
    GroupScopes(plain, args, bs, u, count, hi);
    AroundWithin(plain, args, count, hi, u.next, hi);
    AroundWithin(plain, Cons(args, group), u.next, hi, bodies.next, hi);
    BeforeFewer(Mentions(e), BindingsMention(bs), count, u.next);
    RenamedBodiesAreScoped(strict, plain, hintless, args, bs, u.next, hi, total, u.patterns);
    BeforeFewer(Mentions(e), Mentions(inner), count, bodies.next);
    RenamedIsScoped(strict, plain, hintless, Cons(args, group), inner, bodies.next, hi, total);
    RenameArgsShape(strict, hintless, inner, bodies.next);
    FreshAllWider(Binders(body.value), bodies.next, body.next, u.next, hi);
    LetIsScoped(total, args, plain, inlined, bs, u, bodies.value, body.value, count, hi);
  }

  lemma {:induction false} RenamedCallIsScoped(strict: bool, plain: bool, hintless: bool, args: SExp, forms: seq<BodyForm>, tail: Option<BodyForm>,
                                               count: nat, hi: nat, total: nat)
    requires Nameable(strict, Call(forms, tail)) && Hoistable(plain, hintless, Call(forms, tail)) && NamesBefore(Mentions(Call(forms, tail)), count)
    requires Around(plain, args, count, hi) && RenameArgs(hintless, Call(forms, tail), count).next <= hi <= total
    ensures Scoped(total, args, RenameArgs(hintless, Call(forms, tail), count).value)
    decreases Weight(Call(forms, tail)), 0
  {
    var e := Call(forms, tail);
    WeightParts(e);
    var start, last := RenameArgs(hintless, forms[0], count).next, RenameForms(hintless, forms, count).next;
    CallNames(strict, forms, tail, count, start, last);
    AroundWithin(plain, args, count, hi, start, hi);
    AroundWithin(plain, args, count, hi, last, hi);
    RenamedFormsAreScoped(strict, plain, hintless, args, forms[1..], start, hi, total);
    if tail.Some? {
      RenamedIsScoped(strict, plain, hintless, args, tail.value, last, hi, total);
    }
    var r := RenameArgs(hintless, e, count).value;
    assert r.forms[1..] == RenameForms(hintless, forms[1..], start).value;
    if CallName(r.forms[0]).Some? {
      HeadBefore(strict, hintless, forms, tail, count, total);
    }
  }

  lemma {:induction false} HeadBefore(strict: bool, hintless: bool, forms: seq<BodyForm>, tail: Option<BodyForm>, count: nat, total: nat)
    requires forms != [] && Nameable(strict, forms[0]) && NamesBefore(Mentions(Call(forms, tail)), count)
    requires RenameArgs(hintless, forms[0], count).next <= total && CallName(RenameArgs(hintless, forms[0], count).value).Some?
    ensures Before(CallName(RenameArgs(hintless, forms[0], count).value).value, total)
  {
    var head := RenameArgs(hintless, forms[0], count);
    HeadRead(head.value);
    RenameArgsShape(strict, hintless, forms[0], count);
    var name := CallName(head.value).value;
    ReadsAreMentioned(forms[0]);
    if name in Reads(forms[0]) {
      assert FormsMention(forms) == Mentions(forms[0]) + FormsMention(forms[1..]);
      assert name in Mentions(Call(forms, tail));
      assert Before(name, count);
    } else {
      FreshIsBefore(name, count, head.next);
    }
  }

  lemma {:induction false} RenamedFormsAreScoped(strict: bool, plain: bool, hintless: bool, args: SExp, forms: seq<BodyForm>, count: nat, hi: nat,
                                                 total: nat)
    requires FormsNameable(strict, forms) && FormsHoistable(plain, hintless, forms) && NamesBefore(FormsMention(forms), count)
    requires Around(plain, args, count, hi) && RenameForms(hintless, forms, count).next <= hi <= total
    ensures FormsScoped(total, args, RenameForms(hintless, forms, count).value)
    decreases FormsWeight(forms), 2
  {
    if forms != [] {
      var first := RenameArgs(hintless, forms[0], count);
      BeforeFewer(FormsMention(forms), Mentions(forms[0]), count, count);
      BeforeFewer(FormsMention(forms), FormsMention(forms[1..]), count, first.next);
      AroundWithin(plain, args, count, hi, first.next, hi);
      RenamedIsScoped(strict, plain, hintless, args, forms[0], count, hi, total);
      RenamedFormsAreScoped(strict, plain, hintless, args, forms[1..], first.next, hi, total);
      var rest := RenameForms(hintless, forms[1..], first.next);
      assert ([first.value] + rest.value)[1..] == rest.value;
    }
  }

  lemma {:induction false} RenamedBodiesAreScoped(strict: bool, plain: bool, hintless: bool, args: SExp, bs: seq<Binding>, count: nat, hi: nat,
                                                  total: nat, ps: seq<BindingPattern>)
    requires BindingsNameable(strict, bs) && BindingsHoistable(plain, hintless, bs) && |ps| == |bs| && NamesBefore(BindingsMention(bs), count)
    requires Around(plain, args, count, hi) && RenameBodies(hintless, bs, count).next <= hi <= total
    ensures BindingsScoped(total, args, WithBodies(ps, RenameBodies(hintless, bs, count).value))
    decreases BindingsWeight(bs, 1), 2
  {
    if bs != [] {
      BindingParts(bs, 1);
      var first := RenameArgs(hintless, bs[0].body, count);
      assert BodyMentions(bs[0]) == Mentions(bs[0].body);
      BeforeFewer(BindingsMention(bs), Mentions(bs[0].body), count, count);
      BeforeFewer(BindingsMention(bs), BindingsMention(bs[1..]), count, first.next);
      AroundWithin(plain, args, count, hi, first.next, hi);
      RenamedIsScoped(strict, plain, hintless, args, bs[0].body, count, hi, total);
      RenamedBodiesAreScoped(strict, plain, hintless, args, bs[1..], first.next, hi, total, ps[1..]);
      var rest := RenameBodies(hintless, bs[1..], first.next);
      var all := WithBodies(ps, [first.value] + rest.value);
      BindingParts(all, 1);
      assert all[1..] == WithBodies(ps[1..], rest.value);
    }
  }

  lemma {:induction false} RenamedSequenceIsScoped(strict: bool, plain: bool, hintless: bool, args: SExp, bs: seq<Binding>, inner: BodyForm,
                                                   count: nat, hi: nat, total: nat)
    requires SequenceNameable(strict, bs, inner) && SequenceHoistable(plain, hintless, bs, inner) && (hintless ==> plain)
    requires NamesBefore(Mentions(Let(Sequential, false, bs, inner)), count)
    requires Around(plain, args, count, hi) && RenameSequence(hintless, bs, inner, count).next <= hi <= total
    ensures Scoped(total, args, RenameSequence(hintless, bs, inner, count).value)
    decreases BindingsWeight(bs, 1) + Weight(inner), 2
  {
    var e := Let(Sequential, false, bs, inner);
    if bs == [] {
      BeforeFewer(Mentions(e), Mentions(inner), count, count);
      RenamedIsScoped(strict, plain, hintless, args, inner, count, hi, total);
    } else {
      BindingParts(bs, 1);
      var one, rest := [bs[0]], Let(Sequential, false, bs[1..], inner);
      UniqueGroupRenames(one, map[], count, count);
      var u := MakeAllUnique(one, map[], count);
      var first := RenameArgs(hintless, bs[0].body, u.next);
      var body := RenameSequence(hintless, bs[1..], inner, first.next);
      SequenceNames(bs, inner, count);
      OneName(bs, inner, count);
      GroupScopes(plain, args, one, u, count, hi);
      BeforeFewer(Mentions(bs[0].body), Mentions(bs[0].body), count, u.next);
      AroundWithin(plain, args, count, hi, u.next, hi);
      RenamedIsScoped(strict, plain, hintless, args, bs[0].body, u.next, hi, total);
      BeforeFewer(Mentions(rest), Mentions(rest), count, first.next);
      var group := RenamePattern(u.names, PatternList(one));
      AroundWithin(plain, Cons(args, group), u.next, hi, first.next, hi);
      RenamedSequenceIsScoped(strict, plain, hintless, Cons(args, group), bs[1..], inner, first.next, hi, total);
      SequenceShape(strict, hintless, bs[1..], inner, first.next);
      FreshAllWider(Binders(body.value), first.next, body.next, u.next, hi);
      OneIsScoped(total, args, u.patterns, first.value);
      LetIsScoped(total, args, plain, hintless, one, u, [first.value], body.value, count, hi);
    }
  }

  lemma {:induction false} OneName(bs: seq<Binding>, inner: BodyForm, count: nat)
    requires bs != [] && NamesBefore(Mentions(Let(Sequential, false, bs, inner)), count)
    ensures NamesBefore(Named(PatternList([bs[0]])), count)
  {
    assert PatternList([bs[0]]) == Cons(PatternOf(bs[0]), PatternList([bs[0]][1..]));
    assert Atoms(PatternList([bs[0]])) == Atoms(PatternOf(bs[0]));
    NamedAreMentioned(bs);
    BeforeFewer(Mentions(Let(Sequential, false, bs, inner)), Named(PatternList([bs[0]])), count, count);
  }

  lemma {:induction false} OneIsScoped(total: nat, args: SExp, ps: seq<BindingPattern>, body: BodyForm)
    requires |ps| == 1 && Scoped(total, args, body)
    ensures BindingsScoped(total, args, WithBodies(ps, [body]))
  {
    var bs := WithBodies(ps, [body]);
    BindingParts(bs, 1);
    assert bs[1..] == [];
    assert BindingsScoped(total, args, bs[1..]);
  }

  // ---- Assign forms ----------------------------------------------------------------------------

  /** Arguments with some of a renamed group's variables among them. */
  ghost predicate GroupAround(plain: bool, args: SExp, g: RenamedGroup, r: seq<Binding>, used: set<int>, lo: nat, hi: nat) {
    LeavesAlone(args) && Passable(plain, args) && forall x :: Binds(args, x) ==> Outside(x, lo, hi) || FromUsed(g, r, used, x)
  }

  ghost predicate FromUsed(g: RenamedGroup, r: seq<Binding>, used: set<int>, x: bytes) {
    (exists y :: y in g.names && g.names[y] == x) && exists i :: i in used && 0 <= i < |r| && x in Named(PatternOf(r[i]))
  }

  /** Around a part renamed in a span of its own no variable of that span is bound. */
  lemma {:induction false} GroupToSpan(plain: bool, args: SExp, g: RenamedGroup, r: seq<Binding>, used: set<int>, lo: nat, hi: nat, lo': nat, hi': nat)
    requires GroupAround(plain, args, g, r, used, lo, hi) && lo <= lo' && hi' <= hi
    requires forall y :: y in g.names ==> Outside(g.names[y], lo', hi')
    ensures Around(plain, args, lo', hi')
  {
    forall x | Binds(args, x) ensures Outside(x, lo', hi') {
      if Outside(x, lo, hi) && FreshName(x, lo', hi') {
        FreshWider(x, lo', hi', lo, hi);
      }
    }
  }

  lemma {:induction false} NewOutside(g: RenamedGroup, own: NameMap, count: nat, c: nat, next: nat)
    requires Extends(g.names, own) && Invents(own, count, c) && forall x :: x in g.names && x !in own ==> FreshName(g.names[x], next, g.next)
    ensures forall y :: y in g.names ==> Outside(g.names[y], c, next)
  {
    forall y | y in g.names ensures Outside(g.names[y], c, next) {
      if FreshName(g.names[y], c, next) {
        if y in own {
          assert NewName(g.names, y) == own[y];
          InventedIsFresh(own, y, count, c);
          FreshApart(own[y], count, c, own[y], c, next);
        } else {
          FreshApart(g.names[y], c, next, g.names[y], next, g.next);
        }
      }
    }
  }

  /** One binding of a renamed assign form, wherever it ends up. */
  lemma {:induction false} RenamedBodyScoped(strict: bool, plain: bool, hintless: bool, args: SExp, bs: seq<Binding>, inner: BodyForm, count: nat,
                                             hi: nat, total: nat, k: nat, used: set<int>)
    requires Startable(strict, bs, inner, count) && BindingsHoistable(plain, hintless, bs) && k < |InOrder(bs)|
    requires var g := RenamedRun(hintless, bs, count); GroupAround(plain, args, g, Backwards(g.bindings), used, count, hi) && g.next <= hi <= total
    ensures Scoped(total, args, RenamedRun(hintless, bs, count).bindings[k].body)
    decreases BindingsWeight(bs, 2), 4
  {
    var g, b := RenamedRun(hintless, bs, count), InOrder(bs)[k];
    OrderlyStart(strict, hintless, bs, inner, count);
    InOrderHolds(bs);
    BodyIsLighter(bs, SortBindings(bs).value[k].index);
    PickedBinding(strict, bs, inner, count, k);
    HoistableAt(plain, hintless, bs, b);
    var own, c := InOrderAt(strict, hintless, InOrder(bs), map[], count, count, k);
    var body := RenameArgs(hintless, b.body, c);
    NewOutside(g, own, count, c, body.next);
    GroupToSpan(plain, args, g, Backwards(g.bindings), used, count, hi, c, body.next);
    BeforeFewer(BodyMentions(b), Mentions(b.body), count, c);
    RenamedIsScoped(strict, plain, hintless, args, b.body, c, body.next, total);
    OwnStaysScoped(strict, hintless, args, bs, inner, count, k, own, c, total);
  }

  lemma {:induction false} OwnStaysScoped(strict: bool, hintless: bool, args: SExp, bs: seq<Binding>, inner: BodyForm, count: nat, k: nat, own: NameMap,
                                          c: nat, total: nat)
    requires Startable(strict, bs, inner, count) && k < |InOrder(bs)| && count <= c && Invents(own, count, c)
    requires own.Keys == Named(PatternList(InOrder(bs)[..k + 1])) && Scoped(total, args, RenameArgs(hintless, InOrder(bs)[k].body, c).value)
    requires Nameable(strict, InOrder(bs)[k].body) && c <= total
    ensures Scoped(total, args, RenameIn(own, RenameArgs(hintless, InOrder(bs)[k].body, c).value))
  {
    var b := InOrder(bs)[k];
    var body := RenameArgs(hintless, b.body, c);
    RenameArgsShape(strict, hintless, b.body, c);
    OwnReplaces(strict, bs, inner, count, k, own, c);
    RenameInScoped(own, count, c, body.next, total, args, body.value);
  }

  lemma {:induction false} HoistableAt(plain: bool, hintless: bool, bs: seq<Binding>, b: Binding)
    requires BindingsHoistable(plain, hintless, bs) && b in bs
    ensures Hoistable(plain, hintless, b.body)
  {
    BindingParts(bs, 1);
    if b != bs[0] {
      HoistableAt(plain, hintless, bs[1..], b);
    }
  }

  lemma {:induction false} EachScoped(total: nat, args: SExp, bs: seq<Binding>)
    requires forall i :: 0 <= i < |bs| ==> Scoped(total, args, bs[i].body)
    ensures BindingsScoped(total, args, bs)
  {
    if bs != [] {
      BindingParts(bs, 1);
      EachScoped(total, args, bs[1..]);
    }
  }

  lemma {:induction false} PassableList(plain: bool, bs: seq<Binding>)
    requires EachPassable(plain, bs)
    ensures Passable(plain, PatternList(bs))
  {
    if bs != [] {
      forall i | 0 <= i < |bs[1..]| ensures Passable(plain, PatternOf(bs[1..][i])) { assert Passable(plain, PatternOf(bs[i + 1])); }
      PassableList(plain, bs[1..]);
      assert Passable(plain, PatternOf(bs[0]));
      assert IsAtCapture(PatternOf(bs[0]), PatternList(bs[1..])) == None;
    }
  }

  /** The facts about each renamed binding that a stage needs. */
  lemma {:induction false} RenamedOne(strict: bool, plain: bool, hintless: bool, bs: seq<Binding>, inner: BodyForm, count: nat, i: nat)
    requires Startable(strict, bs, inner, count) && EachPassable(plain, bs) && i < |RenamedRun(hintless, bs, count).bindings|
    ensures var g := RenamedRun(hintless, bs, count);
            var p := PatternOf(Backwards(g.bindings)[i]);
            Passable(plain, p) && Renameable(p)
            && forall x :: x in Named(p) ==> FreshName(x, count, g.next) && exists y :: y in g.names && g.names[y] == x
  {
    var g := RenamedRun(hintless, bs, count);
    var l, k := g.bindings, |g.bindings| - 1 - i;
    BackwardsAt(l, k);
    OrderlyStart(strict, hintless, bs, inner, count);
    RunIsFine(strict, hintless, bs, inner, count, k);
    PickedBinding(strict, bs, inner, count, k);
    var b := InOrder(bs)[k];
    var j :| 0 <= j < |bs| && bs[j] == b;
    assert Passable(plain, PatternOf(bs[j]));
    if plain {
      RenamedIsPlain(g.names, count, g.next, PatternOf(b));
    }
    forall x | x in Named(PatternOf(l[k])) ensures FreshName(x, count, g.next) && exists y :: y in g.names && g.names[y] == x {
      RenamedAtoms(g.names, PatternOf(b), x);
      var y :| y in Atoms(PatternOf(b)) && NewName(g.names, y) == x;
      InventedIsFresh(g.names, y, count, g.next);
    }
  }

  /** A stage binds what its bindings bind. */
  lemma {:induction false} StageBinds(r: seq<Binding>, stage: seq<Spec>, x: bytes)
    requires InBounds(r, stage) && (forall i :: 0 <= i < |r| ==> PatternOf(r[i]) != Atom(AT) && Renameable(PatternOf(r[i])) && !Binds(PatternOf(r[i]), AT))
    requires Binds(PatternList(Pick(r, stage)), x)
    ensures exists i :: i in Indices(stage) && 0 <= i < |r| && x in Named(PatternOf(r[i]))
  {
    var picked := Pick(r, stage);
    forall q | 0 <= q < |picked| ensures PatternOf(picked[q]) != Atom(AT) { assert picked[q] == r[stage[q].index]; assert stage[q] in stage; }
    ListBinds(picked, x);
    var q :| BoundBy(picked, q, x);
    assert stage[q] in stage;
    var i := stage[q].index;
    BindsAtoms(PatternOf(r[i]), x);
    assert i in Indices(stage) && x in Named(PatternOf(r[i]));
  }

  lemma {:induction false} StageFits(strict: bool, plain: bool, hintless: bool, args: SExp, inlined: bool, bs: seq<Binding>, inner: BodyForm,
                                     count: nat, hi: nat, stage: seq<Spec>, used: set<int>)
    requires Startable(strict, bs, inner, count) && EachPassable(plain, bs) && (inlined ==> plain) && RenamedRun(hintless, bs, count).next <= hi
    requires var g := RenamedRun(hintless, bs, count);
             var r := Backwards(g.bindings);
             InBounds(r, stage) && Indices(stage) !! used && GroupAround(plain, args, g, r, used, count, hi)
    ensures var g := RenamedRun(hintless, bs, count);
            var r := Backwards(g.bindings);
            GroupFits(args, inlined, Pick(r, stage))
            && GroupAround(plain, Cons(args, PatternList(Pick(r, stage))), g, r, used + Indices(stage), count, hi)
  {
    var g := RenamedRun(hintless, bs, count);
    var r := Backwards(g.bindings);
    var picked := Pick(r, stage);
    var group := PatternList(picked);
    forall i | 0 <= i < |r|
      ensures Passable(plain, PatternOf(r[i])) && Renameable(PatternOf(r[i]))
              && forall x :: x in Named(PatternOf(r[i])) ==> FreshName(x, count, g.next) && exists y :: y in g.names && g.names[y] == x
    {
      RenamedOne(strict, plain, hintless, bs, inner, count, i);
    }
    assert EachPassable(plain, picked) by {
      forall q | 0 <= q < |picked| ensures Passable(plain, PatternOf(picked[q])) { assert stage[q] in stage; }
    }
    PassableList(plain, picked);
    AtBefore(count);
    forall x | Binds(group, x)
      ensures FreshName(x, count, g.next) && FromUsed(g, r, used + Indices(stage), x) && !Binds(args, x) && Before(AT_ENV, count)
    {
      StageBinds(r, stage, x);
      var i :| i in Indices(stage) && 0 <= i < |r| && x in Named(PatternOf(r[i]));
      NotAround(strict, plain, hintless, args, bs, inner, count, hi, used, i, x);
    }
    StageLeavesAlone(group, count, g.next);
    GroupFitsInside(args, inlined, picked, plain);
    assert IsAtCapture(args, group) == None;
    forall x | Binds(Cons(args, group), x) ensures Outside(x, count, hi) || FromUsed(g, r, used + Indices(stage), x) {
      if Binds(args, x) && !Outside(x, count, hi) {
        var i :| i in used && 0 <= i < |r| && x in Named(PatternOf(r[i]));
        assert i in used + Indices(stage);
      }
    }
  }

  lemma {:induction false} StageLeavesAlone(group: SExp, lo: nat, hi: nat)
    requires !group.Atom? && (forall x :: Binds(group, x) ==> FreshName(x, lo, hi))
    ensures LeavesAlone(group)
  {
    AtBefore(lo);
    forall x | x in {AT, AT_ENV, REST_NAME, CONS_NAME} ensures !Binds(group, x) {
      if Binds(group, x) {
        FreshAfter(x, lo, hi, x);
      }
    }
  }

  /** A variable of a binding that is not among those in use is not bound by what is around. */
  lemma {:induction false} NotAround(strict: bool, plain: bool, hintless: bool, args: SExp, bs: seq<Binding>, inner: BodyForm, count: nat, hi: nat,
                                     used: set<int>, i: nat, x: bytes)
    requires Startable(strict, bs, inner, count) && RenamedRun(hintless, bs, count).next <= hi
    requires var g := RenamedRun(hintless, bs, count);
             GroupAround(plain, args, g, Backwards(g.bindings), used, count, hi) && i < |g.bindings| && i !in used
             && x in Named(PatternOf(Backwards(g.bindings)[i])) && FreshName(x, count, g.next)
    ensures !Binds(args, x)
  {
    var g := RenamedRun(hintless, bs, count);
    var r := Backwards(g.bindings);
    FreshWider(x, count, g.next, count, hi);
    forall j | j in used && 0 <= j < |r| ensures x !in Named(PatternOf(r[j])) {
      OnlyOneNames(strict, hintless, bs, inner, count, i, j, x);
    }
  }

  lemma {:induction false} OnlyOneNames(strict: bool, hintless: bool, bs: seq<Binding>, inner: BodyForm, count: nat, i: nat, j: nat, x: bytes)
    requires Startable(strict, bs, inner, count) && i < |RenamedRun(hintless, bs, count).bindings| && j < |RenamedRun(hintless, bs, count).bindings|
    requires i != j && x in Named(PatternOf(Backwards(RenamedRun(hintless, bs, count).bindings)[i]))
    ensures x !in Named(PatternOf(Backwards(RenamedRun(hintless, bs, count).bindings)[j]))
  {
    var l := RenamedRun(hintless, bs, count).bindings;
    BackwardsAt(l, |l| - 1 - i);
    BackwardsAt(l, |l| - 1 - j);
    if i < j {
      RunIsApart(strict, hintless, bs, inner, count, |l| - 1 - j, |l| - 1 - i);
    } else {
      RunIsApart(strict, hintless, bs, inner, count, |l| - 1 - i, |l| - 1 - j);
    }
  }

  lemma {:induction false} StageScoped(strict: bool, plain: bool, hintless: bool, args: SExp, bs: seq<Binding>, inner: BodyForm, count: nat, hi: nat,
                                       total: nat, stage: seq<Spec>, used: set<int>)
    requires Startable(strict, bs, inner, count) && BindingsHoistable(plain, hintless, bs)
    requires var g := RenamedRun(hintless, bs, count);
             InBounds(Backwards(g.bindings), stage) && GroupAround(plain, args, g, Backwards(g.bindings), used, count, hi) && g.next <= hi <= total
    ensures BindingsScoped(total, args, Pick(Backwards(RenamedRun(hintless, bs, count).bindings), stage))
    decreases BindingsWeight(bs, 2), 5
  {
    var l := RenamedRun(hintless, bs, count).bindings;
    var picked := Pick(Backwards(l), stage);
    forall q | 0 <= q < |picked| ensures Scoped(total, args, picked[q].body) {
      assert stage[q] in stage;
      var i := stage[q].index;
      BackwardsAt(l, |l| - 1 - i);
      RenamedBodyScoped(strict, plain, hintless, args, bs, inner, count, hi, total, |l| - 1 - i, used);
    }
    EachScoped(total, args, picked);
  }

  /** The nested lets of a renamed assign form, from some stage inwards. */
  lemma {:induction false} NestScoped(strict: bool, plain: bool, hintless: bool, args: SExp, inlined: bool, bs: seq<Binding>, inner: BodyForm,
                                      count: nat, hi: nat, total: nat, stages: seq<seq<Spec>>, used: set<int>)
    requires Startable(strict, bs, inner, count) && EachPassable(plain, bs) && BindingsHoistable(plain, hintless, bs) && (inlined ==> plain)
    requires Nameable(strict, inner) && Hoistable(plain, hintless, inner) && NamesBefore(Mentions(inner), count)
    requires var g := RenamedRun(hintless, bs, count);
             var r := Backwards(g.bindings);
             InRange(r, stages) && StagesFresh(stages, used) && GroupAround(plain, args, g, r, used, count, hi)
             && g.next <= RenameArgs(hintless, inner, g.next).next <= hi <= total
    ensures var g := RenamedRun(hintless, bs, count);
            Scoped(total, args, Nest(inlined, Backwards(g.bindings), stages, RenameIn(g.names, RenameArgs(hintless, inner, g.next).value)))
    decreases BindingsWeight(bs, 2) + Weight(inner), 6, |stages|
  {
    var g := RenamedRun(hintless, bs, count);
    var r := Backwards(g.bindings);
    if stages == [] {
      InnerScoped(strict, plain, hintless, args, bs, inner, count, hi, total, used);
    } else {
      StageFits(strict, plain, hintless, args, inlined, bs, inner, count, hi, stages[0], used);
      StageScoped(strict, plain, hintless, args, bs, inner, count, hi, total, stages[0], used);
      NestScoped(strict, plain, hintless, Cons(args, PatternList(Pick(r, stages[0]))), inlined, bs, inner, count, hi, total, stages[1..],
                 used + Indices(stages[0]));
    }
  }

  lemma {:induction false} InnerScoped(strict: bool, plain: bool, hintless: bool, args: SExp, bs: seq<Binding>, inner: BodyForm, count: nat, hi: nat,
                                       total: nat, used: set<int>)
    requires Startable(strict, bs, inner, count) && Nameable(strict, inner) && Hoistable(plain, hintless, inner) && NamesBefore(Mentions(inner), count)
    requires var g := RenamedRun(hintless, bs, count);
             GroupAround(plain, args, g, Backwards(g.bindings), used, count, hi) && g.next <= RenameArgs(hintless, inner, g.next).next <= hi <= total
    ensures var g := RenamedRun(hintless, bs, count); Scoped(total, args, RenameIn(g.names, RenameArgs(hintless, inner, g.next).value))
    decreases BindingsWeight(bs, 2) + Weight(inner), 5
  {
    var g := RenamedRun(hintless, bs, count);
    var body := RenameArgs(hintless, inner, g.next);
    OrderlyStart(strict, hintless, bs, inner, count);
    NewOutside(g, g.names, count, g.next, body.next);
    GroupToSpan(plain, args, g, Backwards(g.bindings), used, count, hi, g.next, body.next);
    BeforeFewer(Mentions(inner), Mentions(inner), count, g.next);
    InnerReady(strict, hintless, bs, inner, count);
    RenamedIsScoped(strict, plain, hintless, args, inner, g.next, body.next, total);
    RenameInScoped(g.names, count, g.next, body.next, total, args, body.value);
  }

  lemma {:induction false} RenamedAssignIsScoped(strict: bool, plain: bool, hintless: bool, args: SExp, e: BodyForm, count: nat, hi: nat, total: nat)
    requires e.Let? && e.kind == Assign && Nameable(strict, e) && Hoistable(plain, hintless, e) && NamesBefore(Mentions(e), count)
    requires Around(plain, args, count, hi) && RenameArgs(hintless, e, count).next <= hi <= total
    ensures Scoped(total, args, RenameArgs(hintless, e, count).value)
    decreases Weight(e), 0
  {
    var Let(_, inlined, bs, inner) := e;
    BeforeFewer(Mentions(e), BindingsMention(bs), count, count);
    BeforeFewer(Mentions(e), Mentions(inner), count, count);
    var g := RenamedRun(hintless, bs, count);
    var r, body := Backwards(g.bindings), RenameIn(g.names, RenameArgs(hintless, inner, g.next).value);
    RenamedSorts(strict, hintless, bs, inner, count);
    StagesDescribe(r);
    AssignUnfolds(hintless, inlined, bs, inner, count);
    NestScoped(strict, plain, hintless, args, inlined, bs, inner, count, hi, total, Stages(SortBindings(r).value, {}, {}, []), {});
    InOrderHolds(bs);
    HoistedAssignIsLighter(inlined, r, body);
  }

  // ---- Functions and programs ------------------------------------------------------------------

  /** What hoisting asks of a function that is to be renamed. */
  ghost predicate DefunHoistable(hintless: bool, f: Defun) {
    exists plain :: Passable(plain, f.args) && (f.inline ==> plain) && Hoistable(plain, hintless, f.body)
  }

  ghost predicate MainHoistable(hintless: bool, src: Source) {
    exists plain :: Passable(plain, src.args) && Hoistable(plain, hintless, src.main)
  }

  ghost predicate DefunsNameable(strict: bool, defuns: seq<Defun>, count: nat) {
    forall i :: 0 <= i < |defuns| ==> DefunNameable(strict, defuns[i], count)
  }

  ghost predicate DefunsHoistable(hintless: bool, defuns: seq<Defun>) { forall i :: 0 <= i < |defuns| ==> DefunHoistable(hintless, defuns[i]) }

  lemma {:induction false} FreshIsOutside(p: SExp, lo: nat, mid: nat, hi: nat)
    requires BindsFresh(p, lo, mid)
    ensures BindsOutside(p, mid, hi)
  {
    forall x | Binds(p, x) ensures Outside(x, mid, hi) {
      if FreshName(x, mid, hi) {
        FreshApart(x, lo, mid, x, mid, hi);
      }
    }
  }

  lemma {:induction false} NameableLater(strict: bool, f: Defun, start: nat, count: nat)
    requires DefunNameable(strict, f, start) && start <= count
    ensures DefunNameable(strict, f, count)
  {
    BeforeFewer(Named(f.args), Named(f.args), start, count);
    BeforeFewer(Mentions(f.body), Mentions(f.body), start, count);
  }

  lemma {:induction false} RenamedDefunIsScoped(strict: bool, hintless: bool, f: Defun, count: nat, total: nat)
    requires DefunNameable(strict, f, count) && DefunHoistable(hintless, f) && RenameDefun(hintless, f, count).next <= total
    ensures DefunScoped(total, RenameDefun(hintless, f, count).value)
  {
    var plain :| Passable(plain, f.args) && (f.inline ==> plain) && Hoistable(plain, hintless, f.body);
    InventsNames(f.args, map[], count, count);
    var own := InventNames(f.args, map[], count);
    RenamesEveryLeaf(own.names, f.args, true);
    BeforeFewer(Mentions(f.body), Mentions(f.body), count, own.next);
    RenamedPasses(own.names, count, own.next, f.args, plain);
    var args := RenamePattern(own.names, f.args);
    var body := RenameArgs(hintless, f.body, own.next);
    FreshIsOutside(args, count, own.next, body.next);
    RenamedIsScoped(strict, plain, hintless, args, f.body, own.next, body.next, total);
    RenameArgsShape(strict, hintless, f.body, own.next);
    BeforeFewer(Named(f.args), Named(f.args), count, own.next);
    RenameInScoped(own.names, count, own.next, body.next, total, args, body.value);
  }

  lemma {:induction false} RenamedFunctions(strict: bool, hintless: bool, defuns: seq<Defun>, start: nat, count: nat)
    requires DefunsNameable(strict, defuns, start) && start <= count
    ensures var r := RenameDefuns(hintless, defuns, count).value;
            (forall i :: 0 <= i < |defuns| ==> r[i].name == defuns[i].name)
            && forall name :: RenamedFunction(strict, defuns, r, hintless, name)
  {
    if defuns != [] {
      var first := RenameDefun(hintless, defuns[0], count);
      NameableLater(strict, defuns[0], start, count);
      assert DefunsNameable(strict, defuns[1..], start);
      RenamedFunctions(strict, hintless, defuns[1..], start, first.next);
      var rest := RenameDefuns(hintless, defuns[1..], first.next);
      var r := [first.value] + rest.value;
      assert r[1..] == rest.value;
      forall i | 0 <= i < |defuns| ensures r[i].name == defuns[i].name {
        if i > 0 {
          assert rest.value[i - 1].name == defuns[1..][i - 1].name;
        }
      }
      forall name ensures RenamedFunction(strict, defuns, r, hintless, name) {
        assert RenamedFunction(strict, defuns[1..], rest.value, hintless, name);
      }
    }
  }

  lemma {:induction false} RenamedDefunsScoped(strict: bool, hintless: bool, defuns: seq<Defun>, start: nat, count: nat, total: nat)
    requires DefunsNameable(strict, defuns, start) && DefunsHoistable(hintless, defuns) && start <= count
    requires RenameDefuns(hintless, defuns, count).next <= total
    ensures DefunsScoped(total, RenameDefuns(hintless, defuns, count).value)
  {
    if defuns != [] {
      var first := RenameDefun(hintless, defuns[0], count);
      NameableLater(strict, defuns[0], start, count);
      assert DefunHoistable(hintless, defuns[0]);
      RenamedDefunIsScoped(strict, hintless, defuns[0], count, total);
      assert DefunsNameable(strict, defuns[1..], start);
      assert DefunsHoistable(hintless, defuns[1..]) by {
        forall i | 0 <= i < |defuns[1..]| ensures DefunHoistable(hintless, defuns[1..][i]) { assert DefunHoistable(hintless, defuns[i + 1]); }
      }
      RenamedDefunsScoped(strict, hintless, defuns[1..], start, first.next, total);
      var rest := RenameDefuns(hintless, defuns[1..], first.next);
      assert ([first.value] + rest.value)[1..] == rest.value;
    }
  }

  /** A program that may be renamed. */
  ghost predicate MayRename(strict: bool, src: Source, count: nat) {
    DefunsNameable(strict, src.defuns, count) && Nameable(strict, src.main) && NamesBefore(Mentions(src.main), count)
  }

  /** A program whose renamed form may be hoisted. */
  ghost predicate MayHoist(hintless: bool, src: Source, count: nat) {
    Distinct(src.defuns) && AllBefore(src.defuns, count) && DefunsHoistable(hintless, src.defuns) && MainHoistable(hintless, src)
    && LeavesAlone(src.args) && forall x :: Binds(src.args, x) ==> Before(x, count)
  }

  /** Renaming keeps the meaning of programs. */
  lemma {:induction false} RenamingKeepsMeaning(w: World, hintless: bool, src: Source, count: nat, n: nat, given: SExp, v: SExp)
    requires w.defuns == src.defuns && MayRename(w.strict, src, count)
    requires Sem(w, n, [Scope(src.args, given)], src.main) == Success(v)
    ensures var out := RenameChildren(hintless, src, count).value;
            Sem(w.(defuns := out.defuns), n, [Scope(out.args, given)], out.main) == Success(v)
  {
    var r := RenameChildren(hintless, src, count);
    RenamedFunctions(w.strict, hintless, src.defuns, count, count);
    var next := RenameDefuns(hintless, src.defuns, count).next;
    BeforeFewer(Mentions(src.main), Mentions(src.main), count, next);
    RenameMeans(w, w.(defuns := r.value.defuns), hintless, n, [Scope(src.args, given)], src.main, next, v);
  }

  /** Renamed programs are as hoisting wants them: no binder hides another. */
  lemma {:induction false} RenamedIsTidy(w: World, hintless: bool, src: Source, count: nat)
    requires w.defuns == src.defuns && MayRename(w.strict, src, count) && MayHoist(hintless, src, count)
    requires PrimIs(w, REST_NAME, REST_OP) && PrimIs(w, CONS_NAME, CONS_OP)
    ensures var r := RenameChildren(hintless, src, count); Tidy(w.(defuns := r.value.defuns), r.value, r.next)
  {
    var r := RenameChildren(hintless, src, count);
    RenamedFunctions(w.strict, hintless, src.defuns, count, count);
    RenamedDefunsScoped(w.strict, hintless, src.defuns, count, count, r.next);
    assert RenamedFunction(w.strict, src.defuns, r.value.defuns, hintless, REST_NAME);
    assert RenamedFunction(w.strict, src.defuns, r.value.defuns, hintless, CONS_NAME);
    RenamedMainIsScoped(w.strict, hintless, src, count);
    assert forall i :: 0 <= i < |src.defuns| ==> Before(src.defuns[i].name, count);
  }

  lemma {:induction false} RenamedMainIsScoped(strict: bool, hintless: bool, src: Source, count: nat)
    requires MayRename(strict, src, count) && MayHoist(hintless, src, count)
    ensures var r := RenameChildren(hintless, src, count); Scoped(r.next, src.args, r.value.main)
  {
    var plain :| Passable(plain, src.args) && Hoistable(plain, hintless, src.main);
    var next, last := RenameDefuns(hintless, src.defuns, count).next, RenameChildren(hintless, src, count).next;
    BeforeFewer(Mentions(src.main), Mentions(src.main), count, next);
    forall x | Binds(src.args, x) ensures Outside(x, next, last) {
      BeforeIsOutside(x, next, last);
    }
    RenamedIsScoped(strict, plain, hintless, src.args, src.main, next, last, last);
  }
}
