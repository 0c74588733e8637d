/** Where renaming does not keep the meaning of a let. */
module RenamingLimits {
  import opened Numbers
  import opened SExpressions
  import opened Machine
  import opened Syntax
  import opened AssignForms
  import opened AssignWeight
  import opened Semantics
  import opened Gensyms
  import opened HoistingNames
  import opened Renaming
  import opened RenamingNames
  import opened RenamingApart

  predicate Ordinary(x: bytes) { Renames(x) && x != AT }

  /** (let ((x (q . a))) e) after renaming. */
  lemma {:induction false} RenamedLet(hintless: bool, inlined: bool, x: bytes, a: SExp, e: BodyForm, count: nat)
    requires e.Value? || e.Quoted?
    ensures RenameArgs(hintless, Let(Parallel, inlined, [Binding(Name(x), Quoted(a))], e), count).value ==
            Let(Parallel, inlined, [Binding(Name(Gensym(x, count)), Quoted(a))], RenameIn(map[x := Gensym(x, count)], e))
  {
    var bs, none: NameMap := [Binding(Name(x), Quoted(a))], map[];
    var u := MakeAllUnique(bs, none, count);
    assert bs[1..] == [] && none + map[x := Gensym(x, count)] == map[x := Gensym(x, count)];
    assert MakeUnique(Name(x), count) == Unique(map[x := Gensym(x, count)], Name(Gensym(x, count)), count + 1);
    assert MakeAllUnique(bs[1..], map[x := Gensym(x, count)], count + 1) == UniqueGroup(map[x := Gensym(x, count)], [], count + 1);
    assert u == UniqueGroup(map[x := Gensym(x, count)], [Name(Gensym(x, count))] + [], count + 1);
    var bodies := RenameBodies(hintless, bs, u.next);
    assert RenameBodies(hintless, bs[1..], u.next).value == [];
    assert RenameArgs(hintless, bs[0].body, u.next) == Renamed(Quoted(a), u.next);
    assert bodies.value == [Quoted(a)] + [];
    assert WithBodies(u.patterns, bodies.value) == [Binding(Name(Gensym(x, count)), Quoted(a))];
  }

  /** A quoted bare word is renamed like the variable it is spelled as: (let ((x 1)) (q . x)) means x
      before renaming and another word after. */
  lemma {:induction false} QuotedWordChanges(w: World, n: nat, s: seq<Scope>, hintless: bool, inlined: bool, x: bytes, a: SExp, count: nat)
    requires Ordinary(x)
    ensures var e := Let(Parallel, inlined, [Binding(Name(x), Quoted(a))], Quoted(Atom(x)));
            Sem(w, n, s, e) == Success(Atom(x))
            && Sem(w, n, s, RenameArgs(hintless, e, count).value) == Success(Atom(Gensym(x, count))) && Gensym(x, count) != x
  {
    RenamedLet(hintless, inlined, x, a, Quoted(Atom(x)), count);
    OneQuoted(w, n, s, inlined, x, a, Atom(x));
    OneQuoted(w, n, s, inlined, Gensym(x, count), a, Atom(Gensym(x, count)));
    assert |Gensym(x, count)| > |x|;
  }

  lemma {:induction false} OneQuoted(w: World, n: nat, s: seq<Scope>, inlined: bool, x: bytes, a: SExp, q: SExp)
    ensures Sem(w, n, s, Let(Parallel, inlined, [Binding(Name(x), Quoted(a))], Quoted(q))) == Success(q)
  {
    var bs := [Binding(Name(x), Quoted(a))];
    assert bs[1..] == [];
    BindingParts(bs, 1);
    assert SemBindings(w, n, s, bs[1..]) == Success(Nil);
    assert SemBindings(w, n, s, bs) == Success(Cons(a, Nil));
    assert PatternList(bs) == Cons(Atom(x), PatternList(bs[1..])) == Cons(Atom(x), Nil);
    assert IsAtCapture(Atom(x), Nil) == None;
    assert Covers(PatternList(bs), Cons(a, Nil));
  }

  /** The two bindings of (let ((x a) (y b)) ...). */
  function Two(x: bytes, a: SExp, y: bytes, b: SExp): seq<Binding> { [Binding(Name(x), Quoted(a)), Binding(Name(y), Quoted(b))] }

  lemma {:induction false} TwoValues(w: World, n: nat, s: seq<Scope>, inlined: bool, x: bytes, a: SExp, y: bytes, b: SExp, e: BodyForm)
    requires x != AT
    ensures Sem(w, n, s, Let(Parallel, inlined, Two(x, a, y, b), e)) ==
            Sem(w, n, [Scope(Cons(Atom(x), Cons(Atom(y), Nil)), Cons(a, Cons(b, Nil)))] + s, e)
  {
    var bs := Two(x, a, y, b);
    assert bs[1..] == [Binding(Name(y), Quoted(b))] && bs[1..][1..] == [];
    BindingParts(bs, 1);
    BindingParts(bs[1..], 1);
    assert SemBindings(w, n, s, bs[1..][1..]) == Success(Nil);
    assert SemBindings(w, n, s, bs[1..]) == Success(Cons(b, Nil));
    assert SemBindings(w, n, s, bs) == Success(Cons(a, Cons(b, Nil)));
    assert PatternList(bs[1..]) == Cons(Atom(y), PatternList(bs[1..][1..])) == Cons(Atom(y), Nil);
    assert PatternList(bs) == Cons(Atom(x), Cons(Atom(y), Nil));
    assert IsAtCapture(Atom(x), Cons(Atom(y), Nil)) == None;
    assert IsAtCapture(Atom(y), Nil) == None;
    assert Covers(Atom(y), b) && Covers(Nil, Nil) && Covers(Atom(x), a);
    assert Covers(Cons(Atom(y), Nil), Cons(b, Nil));
    assert Covers(Cons(Atom(x), Cons(Atom(y), Nil)), Cons(a, Cons(b, Nil)));
  }

  /** Of a name bound twice by one let the first binding counts before renaming and the last one after
      it: (let ((x a) (x b)) x) changes from a to b. */
  lemma {:induction false} DuplicateChanges(w: World, n: nat, s: seq<Scope>, hintless: bool, inlined: bool, x: bytes, a: SExp, b: SExp, count: nat)
    requires Ordinary(x)
    ensures var e := Let(Parallel, inlined, Two(x, a, x, b), Var(x));
            Sem(w, n, s, e) == Success(a) && Sem(w, n, s, RenameArgs(hintless, e, count).value) == Success(b)
  {
    var e := Let(Parallel, inlined, Two(x, a, x, b), Var(x));
    var first, second := Gensym(x, count), Gensym(x, count + 1);
    RenamedTwo(hintless, inlined, x, a, b, count);
    GensymIsMarked(x, count);
    GensymIsMarked(x, count + 1);
    SpecialNames();
    TwoValues(w, n, s, inlined, x, a, x, b, Var(x));
    TwoValues(w, n, s, inlined, first, a, second, b, Var(second));
    if first == second {
      GensymInjective(x, count, x, count + 1);
    }
    FirstOfTwo(w, n, s, x, a, x, b);
    SecondOfTwo(w, n, s, first, a, second, b);
  }

  lemma {:induction false} FirstOfTwo(w: World, n: nat, s: seq<Scope>, x: bytes, a: SExp, y: bytes, b: SExp)
    requires Ordinary(x)
    ensures Sem(w, n, [Scope(Cons(Atom(x), Cons(Atom(y), Nil)), Cons(a, Cons(b, Nil)))] + s, Var(x)) == Success(a)
  {
    var p := Cons(Atom(x), Cons(Atom(y), Nil));
    assert IsAtCapture(Atom(x), Cons(Atom(y), Nil)) == None;
    assert Binds(Atom(x), x) && Destructure(Atom(x), a, x) == Some(a);
    assert Binds(p, x) && Destructure(p, Cons(a, Cons(b, Nil)), x) == Some(a);
  }

  lemma {:induction false} SecondOfTwo(w: World, n: nat, s: seq<Scope>, x: bytes, a: SExp, y: bytes, b: SExp)
    requires Ordinary(x) && Ordinary(y) && x != y
    ensures Sem(w, n, [Scope(Cons(Atom(x), Cons(Atom(y), Nil)), Cons(a, Cons(b, Nil)))] + s, Var(y)) == Success(b)
  {
    var p := Cons(Atom(x), Cons(Atom(y), Nil));
    assert IsAtCapture(Atom(x), Cons(Atom(y), Nil)) == None;
    assert IsAtCapture(Atom(y), Nil) == None;
    assert !Binds(Atom(x), y) && Binds(Atom(y), y);
    assert Binds(Cons(Atom(y), Nil), y) && Destructure(Cons(Atom(y), Nil), Cons(b, Nil), y) == Some(b);
    assert Binds(p, y) && Destructure(p, Cons(a, Cons(b, Nil)), y) == Some(b);
  }

  lemma {:induction false} RenamedTwo(hintless: bool, inlined: bool, x: bytes, a: SExp, b: SExp, count: nat)
    requires Ordinary(x)
    ensures RenameArgs(hintless, Let(Parallel, inlined, Two(x, a, x, b), Var(x)), count).value ==
            Let(Parallel, inlined, Two(Gensym(x, count), a, Gensym(x, count + 1), b), Var(Gensym(x, count + 1)))
  {
    var bs, none: NameMap := Two(x, a, x, b), map[];
    var first, second := Gensym(x, count), Gensym(x, count + 1);
    assert bs[1..] == [Binding(Name(x), Quoted(b))] && bs[1..][1..] == [];
    var m1: NameMap := map[x := first];
    var m2: NameMap := map[x := second];
    assert none + m1 == m1 && m1 + m2 == m2;
    assert MakeUnique(Name(x), count + 1) == Unique(m2, Name(second), count + 2);
    assert MakeAllUnique(bs[1..], m1, count + 1) == UniqueGroup(m2, [Name(second)], count + 2);
    var u := MakeAllUnique(bs, none, count);
    assert MakeUnique(Name(x), count) == Unique(m1, Name(first), count + 1);
    assert u == UniqueGroup(m2, [Name(first), Name(second)], count + 2);
    assert RenameBodies(hintless, bs[1..], u.next).value == [Quoted(b)];
    var bodies := RenameBodies(hintless, bs, u.next);
    assert RenameArgs(hintless, bs[0].body, u.next) == Renamed(Quoted(a), u.next);
    assert bodies.value == [Quoted(a)] + [Quoted(b)];
    assert WithBodies(u.patterns, bodies.value) == Two(first, a, second, b);
  }

  // ---- Quoted words: exactly when --------------------------------------------------------------

  /** The quoted bare words of an expression, call heads aside. */
  function Words(e: BodyForm): Names {
    match e
    case Let(_, _, bs, inner) => BindingsWords(bs) + Words(inner)
    case Quoted(Atom(n)) => {n}
    case Call(forms, tail) => (if forms == [] then {} else FormsWords(forms[1..])) + (if tail.Some? then Words(tail.value) else {})
    case _ => {}
  }

  function BodyWords(b: Binding): Names { Words(b.body) }

  function BindingsWords(bs: seq<Binding>): Names { if bs == [] then {} else BodyWords(bs[0]) + BindingsWords(bs[1..]) }

  function FormsWords(forms: seq<BodyForm>): Names { if forms == [] then {} else Words(forms[0]) + FormsWords(forms[1..]) }

  /** No quoted bare word is a name bound around it; in an assign form the names bound around a binding's
      body are its own and those of the bindings before it in dependency order. */
  predicate Untouched(e: BodyForm)
    decreases Weight(e), 1
  {
    match e
    case Let(Parallel, _, bs, inner) => Words(inner) !! Named(PatternList(bs)) && BindingsUntouched(bs) && Untouched(inner)
    case Let(Sequential, _, bs, inner) => SequenceUntouched(bs, inner)
    case Let(Assign, _, bs, inner) =>
      if SortBindings(bs).Unknown? then true
      else
        InOrderWeight(bs);
        RunUntouched(InOrder(bs), {}) && Words(inner) !! Named(PatternList(InOrder(bs))) && Untouched(inner)
    case Call(forms, tail) =>
      WeightParts(e);
      (forms != [] ==> FormsUntouched(forms[1..])) && (tail.Some? ==> Untouched(tail.value))
    case _ => true
  }

  predicate SequenceUntouched(bs: seq<Binding>, inner: BodyForm)
    decreases BindingsWeight(bs, 1) + Weight(inner), 2
  {
    if bs == [] then Untouched(inner)
    else
      BindingParts(bs, 1);
      (BindingsWords(bs[1..]) + Words(inner)) !! Named(PatternList([bs[0]])) && Untouched(bs[0].body) && SequenceUntouched(bs[1..], inner)
  }

  predicate RunUntouched(bs: seq<Binding>, names: Names)
    decreases BindingsWeight(bs, 1), 2
  {
    bs == [] || (BindingParts(bs, 1);
                 BodyWords(bs[0]) !! (names + Named(PatternOf(bs[0]))) && Untouched(bs[0].body) && RunUntouched(bs[1..], names + Named(PatternOf(bs[0]))))
  }

  predicate BindingsUntouched(bs: seq<Binding>)
    decreases BindingsWeight(bs, 1), 2
  {
    bs == [] || (BindingParts(bs, 1); Untouched(bs[0].body) && BindingsUntouched(bs[1..]))
  }

  predicate FormsUntouched(forms: seq<BodyForm>)
    decreases FormsWeight(forms), 2
  {
    forms == [] || (Untouched(forms[0]) && FormsUntouched(forms[1..]))
  }

  /** Patterns are not just `@`. */
  predicate NoBareAt(e: BodyForm) {
    match e
    case Let(_, _, bs, inner) => BindingsNoBareAt(bs) && NoBareAt(inner)
    case Call(forms, tail) => FormsNoBareAt(forms) && (tail.Some? ==> NoBareAt(tail.value))
    case _ => true
  }

  predicate BindingNoBareAt(b: Binding) { PatternOf(b) != Atom(AT) && NoBareAt(b.body) }

  predicate BindingsNoBareAt(bs: seq<Binding>) { bs == [] || (BindingNoBareAt(bs[0]) && BindingsNoBareAt(bs[1..])) }

  predicate FormsNoBareAt(forms: seq<BodyForm>) { forms == [] || (NoBareAt(forms[0]) && FormsNoBareAt(forms[1..])) }

  // ---- What replacing names does to words ------------------------------------------------------

  function Replaced(m: NameMap, names: Names): Names { set x | x in names :: NewName(m, x) }

  lemma {:induction false} ReplacedBoth(m: NameMap, a: Names, b: Names)
    ensures Replaced(m, a + b) == Replaced(m, a) + Replaced(m, b)
  {
  }

  lemma {:induction false} WordsReplaced(m: NameMap, e: BodyForm)
    ensures Words(RenameIn(m, e)) == (if e.Lambda? then {} else Replaced(m, Words(e)))
    decreases Weight(e), 1
  {
    match e
    case Let(_, _, bs, inner) =>
      WeightPerBinding(bs);
      BindingsWordsReplaced(m, bs);
      WordsReplaced(m, inner);
      ReplacedBoth(m, BindingsWords(bs), Words(inner));
    case Call(forms, tail) =>
      WeightParts(e);
      if tail.Some? {
        WordsReplaced(m, tail.value);
      }
      if forms != [] {
        FormsWordsReplaced(m, forms[1..]);
        assert RenameIn(m, e).forms[1..] == RenameInForms(m, forms[1..]);
        ReplacedBoth(m, FormsWords(forms[1..]), if tail.Some? then Words(tail.value) else {});
      }
    case _ =>
  }

  lemma {:induction false} BindingsWordsReplaced(m: NameMap, bs: seq<Binding>)
    ensures BindingsWords(RenameInBindings(m, bs)) == Replaced(m, BindingsWords(bs))
    decreases BindingsWeight(bs, 1), 2
  {
    if bs != [] {
      BindingParts(bs, 1);
      WordsReplaced(m, bs[0].body);
      BindingsWordsReplaced(m, bs[1..]);
      assert BodyWords(RenameInBody(m, bs[0])) == Replaced(m, BodyWords(bs[0]));
      assert RenameInBindings(m, bs)[1..] == RenameInBindings(m, bs[1..]);
      ReplacedBoth(m, BodyWords(bs[0]), BindingsWords(bs[1..]));
    }
  }

  lemma {:induction false} FormsWordsReplaced(m: NameMap, forms: seq<BodyForm>)
    ensures FormsWords(RenameInForms(m, forms)) == Replaced(m, FormsWords(forms))
    decreases FormsWeight(forms), 2
  {
    if forms != [] {
      WordsReplaced(m, forms[0]);
      FormsWordsReplaced(m, forms[1..]);
      assert RenameInForms(m, forms)[1..] == RenameInForms(m, forms[1..]);
      ReplacedBoth(m, Words(forms[0]), FormsWords(forms[1..]));
    }
  }

  // ---- Following words through renaming --------------------------------------------------------

  ghost predicate SomeFresh(names: Names, lo: nat, hi: nat) { exists x :: x in names && FreshName(x, lo, hi) }

  /** Words before and after: the same if untouched, otherwise with an invented one among them. */
  ghost predicate Tracks(before: Names, after: Names, untouched: bool, lo: nat, hi: nat) {
    (if untouched then after == before else SomeFresh(after, lo, hi)) && ReadsFrom(after, before, lo, hi)
  }

  lemma {:induction false} TracksWider(before: Names, after: Names, untouched: bool, lo: nat, hi: nat, lo': nat, hi': nat)
    requires Tracks(before, after, untouched, lo, hi) && lo' <= lo && hi <= hi'
    ensures Tracks(before, after, untouched, lo', hi')
  {
    ReadsWider(after, before, lo, hi, lo', hi');
    if !untouched {
      var x :| x in after && FreshName(x, lo, hi);
      FreshWider(x, lo, hi, lo', hi');
    }
  }

  lemma {:induction false} TracksBoth(a: Names, a': Names, ua: bool, b: Names, b': Names, ub: bool, lo: nat, mid: nat, hi: nat)
    requires Tracks(a, a', ua, lo, mid) && Tracks(b, b', ub, mid, hi) && lo <= mid <= hi
    ensures Tracks(a + b, a' + b', ua && ub, lo, hi)
  {
    TracksWider(a, a', ua, lo, mid, lo, hi);
    TracksWider(b, b', ub, mid, hi, lo, hi);
    if !ua {
      var x :| x in a' && FreshName(x, lo, hi);
      assert x in a' + b';
    } else if !ub {
      var x :| x in b' && FreshName(x, lo, hi);
      assert x in a' + b';
    }
  }

  ghost predicate AllOld(names: Names, count: nat) { forall x :: x in names ==> Before(x, count) }

  /** A map from old names to names invented in a span. */
  ghost predicate Inventing(m: NameMap, names: Names, lo: nat, hi: nat) {
    m.Keys == names && forall x :: x in names ==> InventedAs(m, x, lo, hi)
  }

  lemma {:induction false} TracksReplaced(m: NameMap, names: Names, before: Names, after: Names, untouched: bool, lo: nat, mid: nat, hi: nat)
    requires Inventing(m, names, lo, mid) && AllOld(names, lo) && Tracks(before, after, untouched, mid, hi) && lo <= mid <= hi
    ensures Tracks(before, Replaced(m, after), untouched && before !! names, lo, hi)
  {
    var r := Replaced(m, after);
    forall y | y in r ensures y in before || FreshName(y, lo, hi) {
      var x :| x in after && NewName(m, x) == y;
      if x in m {
        InventedName(m, x, lo, mid);
        FreshWider(y, lo, mid, lo, hi);
      } else if x !in before {
        FreshWider(x, mid, hi, lo, hi);
      }
    }
    if !untouched {
      var x :| x in after && FreshName(x, mid, hi);
      FreshWider(x, mid, hi, lo, hi);
      if x in names {
        FreshAfter(x, lo, hi, x);
      }
      assert NewName(m, x) == x && x in r;
    } else if !(before !! names) {
      var x :| x in before && x in names;
      InventedName(m, x, lo, mid);
      FreshWider(m[x], lo, mid, lo, hi);
      assert NewName(m, x) == m[x] && m[x] in r;
    } else {
      assert r == before;
    }
  }

  lemma {:induction false} OneInvented(a: bytes, m: NameMap, names: Names, lo: nat, count: nat)
    requires Inventing(m, names, lo, count) && lo <= count
    ensures Inventing(m[a := Gensym(a, count)], names + {a}, lo, count + 1)
  {
    var r := m[a := Gensym(a, count)];
    forall x | x in names + {a} ensures InventedAs(r, x, lo, count + 1) {
      if x == a { assert r[a] == Gensym(a, count); } else { assert InventedAs(m, x, lo, count); }
    }
  }

  lemma {:induction false} InventsExactly(p: SExp, m: NameMap, names: Names, lo: nat, count: nat)
    requires Inventing(m, names, lo, count) && lo <= count
    ensures var r := InventNames(p, m, count); Inventing(r.names, names + Named(p), lo, r.next)
  {
    match p
    case Atom(a) =>
      if a != AT {
        OneInvented(a, m, names, lo, count);
        assert Named(p) == {a};
      } else {
        assert Named(p) == {} && names + {} == names;
      }
    case Cons(a, b) =>
      InventsExactly(a, m, names, lo, count);
      var left := InventNames(a, m, count);
      InventsExactly(b, left.names, names + Named(a), lo, left.next);
      assert names + Named(p) == names + Named(a) + Named(b);
    case _ =>
  }

  lemma {:induction false} InventedTogether(m: NameMap, names: Names, more: NameMap, others: Names, lo: nat, mid: nat, hi: nat)
    requires Inventing(m, names, lo, mid) && Inventing(more, others, mid, hi) && lo <= mid <= hi
    ensures Inventing(m + more, names + others, lo, hi)
  {
    forall x | x in names + others ensures InventedAs(m + more, x, lo, hi) {
      if x in others { assert InventedAs(more, x, mid, hi); } else { assert InventedAs(m, x, lo, mid); }
    }
  }

  lemma {:induction false} GroupInvents(bs: seq<Binding>, m: NameMap, names: Names, lo: nat, count: nat)
    requires Inventing(m, names, lo, count) && lo <= count && BindingsNoBareAt(bs)
    ensures var u := MakeAllUnique(bs, m, count); Inventing(u.names, names + Named(PatternList(bs)), lo, u.next)
  {
    if bs != [] {
      assert BindingNoBareAt(bs[0]);
      var p, u := PatternOf(bs[0]), MakeUnique(bs[0].pattern, count);
      assert Inventing(u.names, Named(p), count, u.next) by {
        match bs[0].pattern
        case Name(n) => assert InventedAs(u.names, n, count, count + 1);
        case Complex(s) => InventsExactly(s, map[], {}, count, count);
      }
      var both := m + u.names;
      InventedTogether(m, names, u.names, Named(p), lo, count, u.next);
      GroupInvents(bs[1..], both, names + Named(p), lo, u.next);
      assert Named(PatternList(bs)) == Named(p) + Named(PatternList(bs[1..]));
      assert names + Named(PatternList(bs)) == names + Named(p) + Named(PatternList(bs[1..]));
    }
  }

  lemma {:induction false} WithBodiesWords(ps: seq<BindingPattern>, bodies: seq<BodyForm>)
    requires |ps| == |bodies|
    ensures BindingsWords(WithBodies(ps, bodies)) == AllWords(bodies)
  {
    if ps != [] {
      WithBodiesWords(ps[1..], bodies[1..]);
      var bs := WithBodies(ps, bodies);
      assert bs[1..] == WithBodies(ps[1..], bodies[1..]) && BodyWords(bs[0]) == Words(bodies[0]);
    }
  }

  function AllWords(bodies: seq<BodyForm>): Names { if bodies == [] then {} else Words(bodies[0]) + AllWords(bodies[1..]) }

  /** The words of an expression that may be renamed, before and after. */
  ghost predicate WordsTracked(hintless: bool, e: BodyForm, count: nat) {
    var r := RenameArgs(hintless, e, count); Tracks(Words(e), Words(r.value), Untouched(e), count, r.next)
  }

  lemma {:induction false} OldLater(names: Names, count: nat, count': nat)
    requires AllOld(names, count) && count <= count'
    ensures AllOld(names, count')
  {
    forall x | x in names ensures Before(x, count') {
      assert Before(x, count);
    }
  }

  lemma {:induction false} FollowWords(hintless: bool, e: BodyForm, count: nat)
    requires Bindable(e) && NoBareAt(e) && AllOld(Binders(e), count)
    ensures WordsTracked(hintless, e, count)
    decreases Weight(e), 1
  {
    match e
    case Let(Sequential, _, bs, inner) => FollowSequence(hintless, bs, inner, count);
    case Let(Parallel, _, _, _) => FollowParallel(hintless, e, count);
    case Let(Assign, _, _, _) => FollowAssign(hintless, e, count);
    case Call(forms, tail) => FollowCall(hintless, forms, tail, count);
    case _ =>
  }

  lemma {:induction false} FollowCall(hintless: bool, forms: seq<BodyForm>, tail: Option<BodyForm>, count: nat)
    requires Bindable(Call(forms, tail)) && NoBareAt(Call(forms, tail)) && AllOld(Binders(Call(forms, tail)), count)
    ensures WordsTracked(hintless, Call(forms, tail), count)
    decreases Weight(Call(forms, tail)), 0
  {
    WeightParts(Call(forms, tail));
    var args := RenameForms(hintless, forms, count);
    FollowCallForms(hintless, forms, count);
    if tail.Some? {
      OldLater(Binders(tail.value), count, args.next);
      FollowWords(hintless, tail.value, args.next);
      var last := RenameArgs(hintless, tail.value, args.next);
      TracksBoth(CallWords(forms), CallWords(args.value), CallUntouched(forms), Words(tail.value), Words(last.value), Untouched(tail.value),
                 count, args.next, last.next);
    }
  }

  lemma {:induction false} FollowParallel(hintless: bool, e: BodyForm, count: nat)
    requires e.Let? && e.kind == Parallel && Bindable(e) && NoBareAt(e) && AllOld(Binders(e), count)
    ensures WordsTracked(hintless, e, count)
    decreases Weight(e), 0
  {
    var Let(_, inlined, bs, inner) := e;
    GroupInvents(bs, map[], {}, count, count);
    var u := MakeAllUnique(bs, map[], count);
    OldLater(BindingsBinders(bs), count, u.next);
    FollowBodies(hintless, bs, u.next);
    var bodies := RenameBodies(hintless, bs, u.next);
    OldLater(Binders(inner), count, bodies.next);
    FollowWords(hintless, inner, bodies.next);
    var body := RenameArgs(hintless, inner, bodies.next);
    NoLambdaComes(hintless, inner, bodies.next);
    FollowLet(bs, inner, u, bodies.value, body.value, count, bodies.next, body.next);
    WithBodiesWords(u.patterns, bodies.value);
  }

  function CallWords(forms: seq<BodyForm>): Names { if forms == [] then {} else FormsWords(forms[1..]) }

  predicate CallUntouched(forms: seq<BodyForm>) { forms != [] ==> FormsUntouched(forms[1..]) }

  lemma {:induction false} FollowCallForms(hintless: bool, forms: seq<BodyForm>, count: nat)
    requires FormsBindable(forms) && FormsNoBareAt(forms) && AllOld(FormsBinders(forms), count)
    ensures var r := RenameForms(hintless, forms, count); Tracks(CallWords(forms), CallWords(r.value), CallUntouched(forms), count, r.next)
    decreases FormsWeight(forms), 3
  {
    if forms != [] {
      var first := RenameArgs(hintless, forms[0], count);
      OldLater(FormsBinders(forms[1..]), count, first.next);
      FollowForms(hintless, forms[1..], first.next);
      var rest := RenameForms(hintless, forms[1..], first.next);
      assert ([first.value] + rest.value)[1..] == rest.value;
      TracksWider(FormsWords(forms[1..]), FormsWords(rest.value), FormsUntouched(forms[1..]), first.next, rest.next, count, rest.next);
    }
  }

  lemma {:induction false} FollowLet(bs: seq<Binding>, inner: BodyForm, u: UniqueGroup, bodies: seq<BodyForm>, body: BodyForm,
                                     lo: nat, mid: nat, hi: nat)
    requires Inventing(u.names, Named(PatternList(bs)), lo, u.next) && AllOld(Named(PatternList(bs)), lo) && lo <= u.next <= mid <= hi
    requires Tracks(BindingsWords(bs), AllWords(bodies), BindingsUntouched(bs), u.next, mid)
    requires Tracks(Words(inner), Words(body), Untouched(inner), mid, hi) && !body.Lambda?
    ensures Tracks(BindingsWords(bs) + Words(inner), AllWords(bodies) + Words(RenameIn(u.names, body)),
                   BindingsUntouched(bs) && Untouched(inner) && Words(inner) !! Named(PatternList(bs)), lo, hi)
  {
    var names := Named(PatternList(bs));
    WordsReplaced(u.names, body);
    TracksWider(Words(inner), Words(body), Untouched(inner), mid, hi, u.next, hi);
    TracksReplaced(u.names, names, Words(inner), Words(body), Untouched(inner), lo, u.next, hi);
    TracksWider(BindingsWords(bs), AllWords(bodies), BindingsUntouched(bs), u.next, mid, lo, hi);
    TracksUnion(BindingsWords(bs), AllWords(bodies), BindingsUntouched(bs), Words(inner), Replaced(u.names, Words(body)),
                Untouched(inner) && Words(inner) !! names, lo, hi);
  }

  lemma {:induction false} TracksUnion(a: Names, a': Names, ua: bool, b: Names, b': Names, ub: bool, lo: nat, hi: nat)
    requires Tracks(a, a', ua, lo, hi) && Tracks(b, b', ub, lo, hi)
    ensures Tracks(a + b, a' + b', ua && ub, lo, hi)
  {
    if !ua {
      var x :| x in a' && FreshName(x, lo, hi);
      assert x in a' + b';
    } else if !ub {
      var x :| x in b' && FreshName(x, lo, hi);
      assert x in a' + b';
    }
  }

  lemma {:induction false} NoLambdaComes(hintless: bool, e: BodyForm, count: nat)
    requires Bindable(e)
    ensures !RenameArgs(hintless, e, count).value.Lambda?
    decreases Weight(e), 1
  {
    if e.Let? && e.kind == Sequential {
      NoLambdaFromSequence(hintless, e.bindings, e.inner, count);
    }
  }

  lemma {:induction false} NoLambdaFromSequence(hintless: bool, bs: seq<Binding>, inner: BodyForm, count: nat)
    requires Bindable(inner)
    ensures !RenameSequence(hintless, bs, inner, count).value.Lambda?
    decreases BindingsWeight(bs, 1) + Weight(inner), 2
  {
    if bs == [] {
      NoLambdaComes(hintless, inner, count);
    }
  }

  lemma {:induction false} OneBindingWords(ps: seq<BindingPattern>, first: BodyForm)
    requires |ps| == 1
    ensures BindingsWords(WithBodies(ps, [first])) == Words(first)
  {
    assert [first][1..] == [];
    assert AllWords([first]) == Words(first);
    WithBodiesWords(ps, [first]);
  }

  lemma {:induction false} FollowSequence(hintless: bool, bs: seq<Binding>, inner: BodyForm, count: nat)
    requires BindingsBindable(bs) && BindingsNoBareAt(bs) && Bindable(inner) && NoBareAt(inner)
    requires AllOld(Binders(Let(Sequential, false, bs, inner)), count)
    ensures var r := RenameSequence(hintless, bs, inner, count);
            Tracks(BindingsWords(bs) + Words(inner), Words(r.value), SequenceUntouched(bs, inner), count, r.next)
    decreases BindingsWeight(bs, 1) + Weight(inner), 2
  {
    if bs == [] {
      FollowWords(hintless, inner, count);
      assert BindingsWords(bs) + Words(inner) == Words(inner);
    } else {
      BindingParts(bs, 1);
      var one := [bs[0]];
      assert one[1..] == [] && BindingBindable(bs[0]) && BindingNoBareAt(bs[0]);
      GroupInvents(one, map[], {}, count, count);
      var u := MakeAllUnique(one, map[], count);
      SequenceBinders(bs, inner, count);
      OldLater(Binders(bs[0].body), count, u.next);
      FollowWords(hintless, bs[0].body, u.next);
      var first := RenameArgs(hintless, bs[0].body, u.next);
      OldLater(Binders(Let(Sequential, false, bs[1..], inner)), count, first.next);
      FollowSequence(hintless, bs[1..], inner, first.next);
      var body := RenameSequence(hintless, bs[1..], inner, first.next);
      NoLambdaFromSequence(hintless, bs[1..], inner, first.next);
      FollowOne(bs, inner, u, first.value, body.value, count, first.next, body.next);
      OneBindingWords(u.patterns, first.value);
    }
  }

  lemma {:induction false} SequenceBinders(bs: seq<Binding>, inner: BodyForm, count: nat)
    requires bs != [] && AllOld(Binders(Let(Sequential, false, bs, inner)), count)
    ensures AllOld(Named(PatternList([bs[0]])), count) && AllOld(Binders(bs[0].body), count)
    ensures AllOld(Binders(Let(Sequential, false, bs[1..], inner)), count)
  {
    OneBinding(bs[0]);
    var e, rest := Let(Sequential, false, bs, inner), Let(Sequential, false, bs[1..], inner);
    assert Named(PatternList(bs)) == Named(PatternOf(bs[0])) + Named(PatternList(bs[1..]));
    assert BodyBinders(bs[0]) == Binders(bs[0].body);
    assert Binders(e) == Named(PatternList(bs)) + BindingsBinders(bs) + Binders(inner);
    assert Binders(rest) == Named(PatternList(bs[1..])) + BindingsBinders(bs[1..]) + Binders(inner);
    OldFewer(Binders(e), Named(PatternList([bs[0]])), count);
    OldFewer(Binders(e), Binders(bs[0].body), count);
    OldFewer(Binders(e), Binders(rest), count);
  }

  lemma {:induction false} OldFewer(names: Names, fewer: Names, count: nat)
    requires AllOld(names, count) && fewer <= names
    ensures AllOld(fewer, count)
  {
    forall x | x in fewer ensures Before(x, count) {
      assert x in names;
    }
  }

  lemma {:induction false} FollowOne(bs: seq<Binding>, inner: BodyForm, u: UniqueGroup, first: BodyForm, body: BodyForm, lo: nat, mid: nat, hi: nat)
    requires bs != [] && lo <= u.next <= mid <= hi && !body.Lambda?
    requires Inventing(u.names, Named(PatternList([bs[0]])), lo, u.next) && AllOld(Named(PatternList([bs[0]])), lo)
    requires Tracks(Words(bs[0].body), Words(first), Untouched(bs[0].body), u.next, mid)
    requires Tracks(BindingsWords(bs[1..]) + Words(inner), Words(body), SequenceUntouched(bs[1..], inner), mid, hi)
    ensures Tracks(BindingsWords(bs) + Words(inner), Words(first) + Words(RenameIn(u.names, body)), SequenceUntouched(bs, inner), lo, hi)
  {
    BindingParts(bs, 1);
    var names, later := Named(PatternList([bs[0]])), BindingsWords(bs[1..]) + Words(inner);
    WordsReplaced(u.names, body);
    TracksWider(later, Words(body), SequenceUntouched(bs[1..], inner), mid, hi, u.next, hi);
    TracksReplaced(u.names, names, later, Words(body), SequenceUntouched(bs[1..], inner), lo, u.next, hi);
    TracksWider(Words(bs[0].body), Words(first), Untouched(bs[0].body), u.next, mid, lo, hi);
    TracksUnion(Words(bs[0].body), Words(first), Untouched(bs[0].body), later, Replaced(u.names, Words(body)),
                SequenceUntouched(bs[1..], inner) && later !! names, lo, hi);
    assert BindingsWords(bs) + Words(inner) == Words(bs[0].body) + later by { assert BodyWords(bs[0]) == Words(bs[0].body); }
  }

  lemma {:induction false} FollowBodies(hintless: bool, bs: seq<Binding>, count: nat)
    requires BindingsBindable(bs) && BindingsNoBareAt(bs) && AllOld(BindingsBinders(bs), count)
    ensures var r := RenameBodies(hintless, bs, count); Tracks(BindingsWords(bs), AllWords(r.value), BindingsUntouched(bs), count, r.next)
    decreases BindingsWeight(bs, 1), 2
  {
    if bs != [] {
      BindingParts(bs, 1);
      assert BindingBindable(bs[0]) && BindingNoBareAt(bs[0]) && BodyBinders(bs[0]) == Binders(bs[0].body);
      FollowWords(hintless, bs[0].body, count);
      var first := RenameArgs(hintless, bs[0].body, count);
      OldLater(BindingsBinders(bs[1..]), count, first.next);
      FollowBodies(hintless, bs[1..], first.next);
      var rest := RenameBodies(hintless, bs[1..], first.next);
      assert BodyWords(bs[0]) == Words(bs[0].body) && ([first.value] + rest.value)[1..] == rest.value;
      TracksBoth(BodyWords(bs[0]), Words(first.value), Untouched(bs[0].body), BindingsWords(bs[1..]), AllWords(rest.value), BindingsUntouched(bs[1..]),
                 count, first.next, rest.next);
    }
  }

  lemma {:induction false} FollowForms(hintless: bool, forms: seq<BodyForm>, count: nat)
    requires FormsBindable(forms) && FormsNoBareAt(forms) && AllOld(FormsBinders(forms), count)
    ensures var r := RenameForms(hintless, forms, count); Tracks(FormsWords(forms), FormsWords(r.value), FormsUntouched(forms), count, r.next)
    decreases FormsWeight(forms), 2
  {
    if forms != [] {
      FollowWords(hintless, forms[0], count);
      var first := RenameArgs(hintless, forms[0], count);
      OldLater(FormsBinders(forms[1..]), count, first.next);
      FollowForms(hintless, forms[1..], first.next);
      var rest := RenameForms(hintless, forms[1..], first.next);
      assert ([first.value] + rest.value)[1..] == rest.value;
      TracksBoth(Words(forms[0]), Words(first.value), Untouched(forms[0]), FormsWords(forms[1..]), FormsWords(rest.value), FormsUntouched(forms[1..]),
                 count, first.next, rest.next);
    }
  }

  // ---- Assign forms ----------------------------------------------------------------------------

  lemma {:induction false} FollowRun(hintless: bool, bs: seq<Binding>, m: NameMap, names: Names, lo: nat, count: nat)
    requires BindingsBindable(bs) && BindingsNoBareAt(bs) && AllComplex(bs) && AllOld(BindingsBinders(bs) + Named(PatternList(bs)), lo)
    requires Inventing(m, names, lo, count) && AllOld(names, lo) && lo <= count
    ensures var g := RenameInOrder(hintless, bs, m, count);
            Tracks(BindingsWords(bs), BindingsWords(g.bindings), RunUntouched(bs, names), lo, g.next)
            && Inventing(g.names, names + Named(PatternList(bs)), lo, g.next)
    decreases BindingsWeight(bs, 1), 2
  {
    if bs != [] {
      BindingParts(bs, 1);
      assert bs[0].pattern.Complex? && BindingBindable(bs[0]) && BindingNoBareAt(bs[0]) && BodyBinders(bs[0]) == Binders(bs[0].body);
      var p := bs[0].pattern.pattern;
      assert Named(PatternList(bs)) == Named(p) + Named(PatternList(bs[1..]));
      InventsExactly(p, m, names, lo, count);
      var own := InventNames(p, m, count);
      OldLater(Binders(bs[0].body), lo, own.next);
      FollowWords(hintless, bs[0].body, own.next);
      var body := RenameArgs(hintless, bs[0].body, own.next);
      NoLambdaComes(hintless, bs[0].body, own.next);
      assert AllComplex(bs[1..]);
      InventingLater(own.names, names + Named(p), lo, own.next, body.next);
      FollowRun(hintless, bs[1..], own.names, names + Named(p), lo, body.next);
      var rest := RenameInOrder(hintless, bs[1..], own.names, body.next);
      FollowFirst(bs, names, own.names, p, body.value, rest, lo, own.next, body.next);
      assert names + Named(PatternList(bs)) == names + Named(p) + Named(PatternList(bs[1..]));
    }
  }

  lemma {:induction false} InventingLater(m: NameMap, names: Names, lo: nat, hi: nat, hi': nat)
    requires Inventing(m, names, lo, hi) && hi <= hi'
    ensures Inventing(m, names, lo, hi')
  {
    forall x | x in names ensures InventedAs(m, x, lo, hi') {
      assert InventedAs(m, x, lo, hi);
    }
  }

  lemma {:induction false} FollowFirst(bs: seq<Binding>, names: Names, m: NameMap, p: SExp, body: BodyForm, rest: RenamedGroup,
                                       lo: nat, own: nat, mid: nat)
    requires bs != [] && PatternOf(bs[0]) == p && Inventing(m, names + Named(p), lo, own) && AllOld(names + Named(p), lo) && lo <= own <= mid <= rest.next
    requires Tracks(Words(bs[0].body), Words(body), Untouched(bs[0].body), own, mid) && !body.Lambda?
    requires Tracks(BindingsWords(bs[1..]), BindingsWords(rest.bindings), RunUntouched(bs[1..], names + Named(p)), lo, rest.next)
    ensures Tracks(BindingsWords(bs), BindingsWords([Binding(Complex(RenameInCons(m, p, false)), RenameIn(m, body))] + rest.bindings),
                   RunUntouched(bs, names), lo, rest.next)
  {
    BindingParts(bs, 1);
    var first := Binding(Complex(RenameInCons(m, p, false)), RenameIn(m, body));
    var all := [first] + rest.bindings;
    assert all[0] == first && all[1..] == rest.bindings && BodyWords(first) == Words(RenameIn(m, body)) && BodyWords(bs[0]) == Words(bs[0].body);
    WordsReplaced(m, body);
    TracksReplaced(m, names + Named(p), BodyWords(bs[0]), Words(body), Untouched(bs[0].body), lo, own, mid);
    var mine := Untouched(bs[0].body) && BodyWords(bs[0]) !! (names + Named(p));
    TracksWider(BodyWords(bs[0]), BodyWords(first), mine, lo, mid, lo, rest.next);
    TracksUnion(BodyWords(bs[0]), BodyWords(first), mine, BindingsWords(bs[1..]), BindingsWords(rest.bindings),
                RunUntouched(bs[1..], names + Named(p)), lo, rest.next);
  }

  lemma {:induction false} WordsFew(a: seq<Binding>, b: seq<Binding>)
    requires forall x :: x in a ==> x in b
    ensures BindingsWords(a) <= BindingsWords(b) && BindingsBinders(a) <= BindingsBinders(b) && Named(PatternList(a)) <= Named(PatternList(b))
  {
    if a != [] {
      assert a[0] in a;
      WordsIn(b, a[0]);
      forall x | x in a[1..] ensures x in b { assert x in a; }
      WordsFew(a[1..], b);
      assert Named(PatternList(a)) == Named(PatternOf(a[0])) + Named(PatternList(a[1..]));
    } else {
      assert Named(PatternList(a)) == {};
    }
  }

  lemma {:induction false} WordsIn(bs: seq<Binding>, b: Binding)
    requires b in bs
    ensures BodyWords(b) <= BindingsWords(bs) && BodyBinders(b) <= BindingsBinders(bs) && Named(PatternOf(b)) <= Named(PatternList(bs))
  {
    assert Named(PatternList(bs)) == Named(PatternOf(bs[0])) + Named(PatternList(bs[1..]));
    if b != bs[0] {
      assert bs == [bs[0]] + bs[1..];
      WordsIn(bs[1..], b);
    }
  }

  lemma {:induction false} SameMembers(a: seq<Binding>, b: seq<Binding>)
    requires forall x :: x in a <==> x in b
    ensures BindingsWords(a) == BindingsWords(b) && BindingsBinders(a) == BindingsBinders(b) && Named(PatternList(a)) == Named(PatternList(b))
  {
    WordsFew(a, b);
    WordsFew(b, a);
  }

  lemma {:induction false} NoBareAtMembers(bs: seq<Binding>)
    ensures BindingsNoBareAt(bs) <==> forall b :: b in bs ==> BindingNoBareAt(b)
  {
    if bs != [] {
      NoBareAtMembers(bs[1..]);
      forall b ensures b in bs <==> b == bs[0] || b in bs[1..] { assert bs == [bs[0]] + bs[1..]; }
      assert bs[0] in bs;
    }
  }

  lemma {:induction false} FollowAssign(hintless: bool, e: BodyForm, count: nat)
    requires e.Let? && e.kind == Assign && Bindable(e) && NoBareAt(e) && AllOld(Binders(e), count)
    ensures WordsTracked(hintless, e, count)
    decreases Weight(e), 0
  {
    var Let(_, inlined, bs, inner) := e;
    var ordered := InOrder(bs);
    InOrderWeight(bs);
    InOrderHolds(bs);
    InOrderOnce(bs);
    WeightPerBinding(bs);
    SameMembers(ordered, bs);
    NoBareAtMembers(bs);
    NoBareAtMembers(ordered);
    FollowRun(hintless, ordered, map[], {}, count, count);
    var g := RenameInOrder(hintless, ordered, map[], count);
    BackwardsHolds(g.bindings);
    SameMembers(Backwards(g.bindings), g.bindings);
    OldLater(Binders(inner), count, g.next);
    FollowWords(hintless, inner, g.next);
    var body := RenameArgs(hintless, inner, g.next);
    NoLambdaComes(hintless, inner, g.next);
    FollowAssigned(e, g, body.value, count, body.next);
  }

  lemma {:induction false} FollowAssigned(e: BodyForm, g: RenamedGroup, body: BodyForm, lo: nat, hi: nat)
    requires e.Let? && e.kind == Assign && SortBindings(e.bindings).Known? && lo <= g.next <= hi && !body.Lambda?
    requires BindingsWords(InOrder(e.bindings)) == BindingsWords(e.bindings) && BindingsWords(Backwards(g.bindings)) == BindingsWords(g.bindings)
    requires Tracks(BindingsWords(e.bindings), BindingsWords(g.bindings), RunUntouched(InOrder(e.bindings), {}), lo, g.next)
    requires Inventing(g.names, Named(PatternList(InOrder(e.bindings))), lo, g.next) && AllOld(Named(PatternList(InOrder(e.bindings))), lo)
    requires Tracks(Words(e.inner), Words(body), Untouched(e.inner), g.next, hi)
    ensures Tracks(Words(e), Words(Let(Assign, e.inlined, Backwards(g.bindings), RenameIn(g.names, body))), Untouched(e), lo, hi)
  {
    var names := Named(PatternList(InOrder(e.bindings)));
    var run := RunUntouched(InOrder(e.bindings), {});
    WordsReplaced(g.names, body);
    TracksReplaced(g.names, names, Words(e.inner), Words(body), Untouched(e.inner), lo, g.next, hi);
    TracksWider(BindingsWords(e.bindings), BindingsWords(g.bindings), run, lo, g.next, lo, hi);
    TracksUnion(BindingsWords(e.bindings), BindingsWords(g.bindings), run, Words(e.inner), Replaced(g.names, Words(body)),
                Untouched(e.inner) && Words(e.inner) !! names, lo, hi);
  }

  /** Renaming leaves every quoted bare word of an expression as it is written exactly when none of them
      is a name bound around it. */
  lemma {:induction false} QuotedWordsAreRenamed(hintless: bool, e: BodyForm, count: nat)
    requires Bindable(e) && NoBareAt(e) && AllOld(Binders(e) + Words(e), count)
    ensures Words(RenameArgs(hintless, e, count).value) == Words(e) <==> Untouched(e)
  {
    FollowWords(hintless, e, count);
    if !Untouched(e) {
      var r := RenameArgs(hintless, e, count);
      var x :| x in Words(r.value) && FreshName(x, count, r.next);
      if x in Words(e) {
        FreshAfter(x, count, r.next, x);
      }
    }
  }

  // ---- Names bound twice: exactly when ---------------------------------------------------------

  /** The first and the last binding of a group that names something. */
  function FirstNaming(bs: seq<Binding>, x: bytes): (i: nat)
    requires x in Named(PatternList(bs))
    ensures i < |bs| && x in Named(PatternOf(bs[i])) && forall j :: 0 <= j < i ==> x !in Named(PatternOf(bs[j]))
  {
    assert Named(PatternList(bs)) == Named(PatternOf(bs[0])) + Named(PatternList(bs[1..]));
    if x in Named(PatternOf(bs[0])) then 0 else 1 + FirstNaming(bs[1..], x)
  }

  function LastNaming(bs: seq<Binding>, x: bytes): (i: nat)
    requires x in Named(PatternList(bs))
    ensures i < |bs| && x in Named(PatternOf(bs[i])) && forall j :: i < j < |bs| ==> x !in Named(PatternOf(bs[j]))
  {
    assert Named(PatternList(bs)) == Named(PatternOf(bs[0])) + Named(PatternList(bs[1..]));
    if x in Named(PatternList(bs[1..])) then 1 + LastNaming(bs[1..], x)
    else
      NamedNowhere(bs[1..], x);
      0
  }

  lemma {:induction false} NamedNowhere(bs: seq<Binding>, x: bytes)
    requires x !in Named(PatternList(bs))
    ensures forall j :: 0 <= j < |bs| ==> x !in Named(PatternOf(bs[j]))
  {
    if bs != [] {
      assert Named(PatternList(bs)) == Named(PatternOf(bs[0])) + Named(PatternList(bs[1..]));
      NamedNowhere(bs[1..], x);
    }
  }

  /** Two bindings of a group name the same. */
  predicate Repeated(bs: seq<Binding>, x: bytes) {
    exists i, j :: 0 <= i < j < |bs| && x in Named(PatternOf(bs[i])) && x in Named(PatternOf(bs[j]))
  }

  /** Which renamed bindings name the new name of x. */
  ghost predicate NamedAt(all: seq<Binding>, y: bytes, k: nat) {
    forall i :: 0 <= i < |all| ==> (y in Named(PatternOf(all[i])) <==> i == k)
  }

  /** A renamed group's first binding and the rest. */
  lemma {:induction false} GroupFirst(bs: seq<Binding>, m: NameMap, count: nat, bodies: seq<BodyForm>)
    requires bs != [] && BindingsBindable(bs) && BindingsNoBareAt(bs) && |bodies| == |bs|
    ensures var u, own := MakeAllUnique(bs, m, count), MakeUnique(bs[0].pattern, count);
            var rest, all := MakeAllUnique(bs[1..], m + own.names, own.next), WithBodies(u.patterns, bodies);
            u.names == rest.names && u.next == rest.next && all[1..] == WithBodies(rest.patterns, bodies[1..])
            && PatternOf(all[0]) == RenamePattern(own.names, PatternOf(bs[0])) && AllFresh(Named(PatternOf(all[0])), count, own.next)
            && Invents(own.names, count, own.next) && own.names.Keys == Named(PatternOf(bs[0]))
            && forall i :: 0 < i < |bs| ==> AllFresh(Named(PatternOf(all[i])), own.next, u.next)
  {
    assert BindingBindable(bs[0]) && BindingNoBareAt(bs[0]);
    var b := Binding(bs[0].pattern, Quoted(Nil));
    assert PatternOf(b) == PatternOf(bs[0]);
    var u, own := MakeAllUnique(bs, m, count), MakeUnique(bs[0].pattern, count);
    var rest, all := MakeAllUnique(bs[1..], m + own.names, own.next), WithBodies(u.patterns, bodies);
    UniqueBinding(bs[0].pattern, count);
    RenamedPattern(own.names, count, own.next, PatternOf(b));
    var tail := WithBodies(rest.patterns, bodies[1..]);
    assert all[1..] == tail;
    forall i | 0 < i < |bs| ensures AllFresh(Named(PatternOf(all[i])), own.next, u.next) {
      assert all[i] == tail[i - 1];
      GroupFresh(bs[1..], m + own.names, own.next, bodies[1..], i - 1);
    }
  }

  /** The new name of a name is the one invented for its last binding. */
  lemma {:induction false} NewNameIsLast(bs: seq<Binding>, m: NameMap, count: nat, bodies: seq<BodyForm>, x: bytes)
    requires BindingsBindable(bs) && BindingsNoBareAt(bs) && |bodies| == |bs| && x in Named(PatternList(bs))
    ensures var u := MakeAllUnique(bs, m, count);
            x in u.names && FreshName(u.names[x], count, u.next) && NamedAt(WithBodies(u.patterns, bodies), u.names[x], LastNaming(bs, x))
  {
    GroupFirst(bs, m, count, bodies);
    var u, own := MakeAllUnique(bs, m, count), MakeUnique(bs[0].pattern, count);
    var all := WithBodies(u.patterns, bodies);
    assert Named(PatternList(bs)) == Named(PatternOf(bs[0])) + Named(PatternList(bs[1..]));
    if x in Named(PatternList(bs[1..])) {
      NewNameIsLast(bs[1..], m + own.names, own.next, bodies[1..], x);
      FreshWider(u.names[x], own.next, u.next, count, u.next);
      LaterNamed(all, u.names[x], LastNaming(bs[1..], x), count, own.next, u.next);
    } else {
      OnlyOwn(bs[1..], m + own.names, own.next, x);
      assert u.names[x] == own.names[x] && InventedAs(own.names, x, count, own.next);
      InventedIsFresh(own.names, x, count, own.next);
      RenamedHas(own.names, PatternOf(bs[0]), x);
      FreshWider(u.names[x], count, own.next, count, u.next);
      FirstNamed(all, u.names[x], count, own.next, u.next);
    }
  }

  lemma {:induction false} LaterNamed(all: seq<Binding>, y: bytes, k: nat, lo: nat, mid: nat, hi: nat)
    requires all != [] && NamedAt(all[1..], y, k) && FreshName(y, mid, hi) && AllFresh(Named(PatternOf(all[0])), lo, mid)
    ensures NamedAt(all, y, k + 1)
  {
    forall i | 0 <= i < |all| ensures y in Named(PatternOf(all[i])) <==> i == k + 1 {
      if i == 0 {
        if y in Named(PatternOf(all[0])) {
          FreshApart(y, lo, mid, y, mid, hi);
        }
      } else {
        assert all[i] == all[1..][i - 1];
      }
    }
  }

  lemma {:induction false} FirstNamed(all: seq<Binding>, y: bytes, lo: nat, mid: nat, hi: nat)
    requires all != [] && y in Named(PatternOf(all[0])) && FreshName(y, lo, mid)
    requires forall i :: 0 < i < |all| ==> AllFresh(Named(PatternOf(all[i])), mid, hi)
    ensures NamedAt(all, y, 0)
  {
    forall i | 0 < i < |all| ensures y !in Named(PatternOf(all[i])) {
      if y in Named(PatternOf(all[i])) {
        FreshApart(y, lo, mid, y, mid, hi);
      }
    }
  }

  lemma {:induction false} RenamedHas(m: NameMap, p: SExp, x: bytes)
    requires x in Named(p) && x in m && m[x] != AT
    ensures m[x] in Named(RenamePattern(m, p))
  {
    if p.Cons? {
      if x in Named(p.first) {
        RenamedHas(m, p.first, x);
      } else {
        RenamedHas(m, p.rest, x);
      }
    }
  }

  lemma {:induction false} OnlyOwn(bs: seq<Binding>, m: NameMap, count: nat, x: bytes)
    requires x in m && x !in Named(PatternList(bs)) && BindingsNoBareAt(bs) && BindingsBindable(bs)
    ensures var u := MakeAllUnique(bs, m, count); x in u.names && u.names[x] == m[x]
  {
    if bs != [] {
      assert BindingNoBareAt(bs[0]) && BindingBindable(bs[0]);
      assert PatternOf(Binding(bs[0].pattern, Quoted(Nil))) == PatternOf(bs[0]);
      assert Named(PatternList(bs)) == Named(PatternOf(bs[0])) + Named(PatternList(bs[1..]));
      UniqueBinding(bs[0].pattern, count);
      var own := MakeUnique(bs[0].pattern, count);
      OnlyOwn(bs[1..], m + own.names, own.next, x);
    }
  }

  /** The names of a renamed group's patterns are invented in its span. */
  lemma {:induction false} GroupFresh(bs: seq<Binding>, m: NameMap, count: nat, bodies: seq<BodyForm>, i: nat)
    requires BindingsBindable(bs) && |bodies| == |bs| && i < |bs|
    ensures var u := MakeAllUnique(bs, m, count); AllFresh(Named(PatternOf(WithBodies(u.patterns, bodies)[i])), count, u.next)
  {
    NewGroup(bs, m, count);
    var u := MakeAllUnique(bs, m, count);
    PatternsOnly(u.patterns, bodies);
    PatternIn(WithBodies(u.patterns, bodies), i);
  }

  lemma {:induction false} PatternIn(bs: seq<Binding>, i: nat)
    requires i < |bs|
    ensures Named(PatternOf(bs[i])) <= Named(PatternList(bs))
  {
    assert Named(PatternList(bs)) == Named(PatternOf(bs[0])) + Named(PatternList(bs[1..]));
    if i > 0 {
      PatternIn(bs[1..], i - 1);
    }
  }

  /** Before renaming the first binding of a name counts, after it the last one: in a renamed let a name
      is still read from its first binding exactly when no other binding of the let names it. */
  lemma {:induction false} LaterDuplicateWins(hintless: bool, inlined: bool, bs: seq<Binding>, inner: BodyForm, count: nat, x: bytes)
    requires BindingsBindable(bs) && BindingsNoBareAt(bs) && x in Named(PatternList(bs))
    ensures var u, r := MakeAllUnique(bs, map[], count), RenameArgs(hintless, Let(Parallel, inlined, bs, inner), count).value;
            x in u.names && u.names[x] in Named(PatternList(r.bindings)) && FirstNaming(r.bindings, u.names[x]) == LastNaming(bs, x)
            && (FirstNaming(r.bindings, u.names[x]) == FirstNaming(bs, x) <==> !Repeated(bs, x))
  {
    var u := MakeAllUnique(bs, map[], count);
    var bodies := RenameBodies(hintless, bs, u.next).value;
    NewNameIsLast(bs, map[], count, bodies, x);
    var r := WithBodies(u.patterns, bodies);
    PatternIn(r, LastNaming(bs, x));
    assert FirstNaming(r, u.names[x]) == LastNaming(bs, x);
    var first, last := FirstNaming(bs, x), LastNaming(bs, x);
    if first != last {
      assert Repeated(bs, x);
    }
  }
}
