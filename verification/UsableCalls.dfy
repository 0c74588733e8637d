/** How calls are written and where `@` is used: what compiling asks of that, and that renaming keeps it. */
module UsableCalls {
  import opened Numbers
  import opened SExpressions
  import opened Machine
  import opened Syntax
  import opened AssignForms
  import opened AssignWeight
  import opened Semantics
  import opened HoistingNames
  import opened CodegenEnds
  import opened Renaming
  import opened RenamingNames
  import opened RenamingMentions
  import opened RenamingCleans

  /** What calls are judged by: the machine's operators, the names of primitives, the program's functions
      and own arguments, the names bound inside it and where the counter stands. */
  datatype Ground = Ground(machine: Config, prims: map<bytes, SExp>, strict: bool, defuns: seq<Defun>, own: SExp, binders: Names, count: nat)

  /** A head that code generation understands: a function, an inline one spelled as a word; or the name of
      a plain primitive or of the environment that nothing binds.  `inl` says whether the call ends up in an
      inline function, which may not look at the environment as a whole. */
  ghost predicate HeadUsable(g: Ground, inl: bool, head: BodyForm) {
    CallName(head).Some?
    && var name := CallName(head).value;
       if !Before(name, g.count) then head == Var(name)
       else
         match FindDefun(g.defuns, name)
         case Some(f) => f.inline ==> head.value.Atom?
         case None =>
           !Binds(g.own, name) && name !in g.binders && (inl ==> name != AT && name != AT_ENV)
           && (Primitive(g.prims, name).Some? ==> PlainPrim(g.machine, Primitive(g.prims, name).value))
  }

  /** A number whose bytes spell nothing that is bound in the program. */
  predicate NotAVariable(g: Ground, name: bytes) { name !in {AT, AT_ENV} && !Binds(g.own, name) && name !in g.binders }

  /** All heads of an expression are usable.  The body of a let ends up in a function of its own, which is
      inline if the let is; so do the later bindings of let* and assign. */
  ghost predicate Usable(g: Ground, hintless: bool, inl: bool, e: BodyForm)
    decreases Weight(e), 1
  {
    match e
    case Let(kind, inlined, bs, inner) =>
      WeightPerBinding(bs);
      BindingsUsable(g, hintless, ForBindings(hintless, inl, e), bs) && Usable(g, hintless, ForInner(hintless, inl, e), inner)
    case Value(Atom(a)) => a == AT ==> !inl
    case Value(Integer(i)) => g.strict || NotAVariable(g, U8FromNumber(i))
    case Call(forms, tail) =>
      WeightParts(e);
      forms != [] && HeadUsable(g, inl, forms[0]) && FormsUsable(g, hintless, inl, forms[1..]) && (tail.Some? ==> Usable(g, hintless, inl, tail.value))
    case Lambda(_, _, _, _) => false
    case _ => true
  }

  function ForInner(hintless: bool, inl: bool, e: BodyForm): bool
    requires e.Let?
  {
    if e.kind != Sequential then e.inlined else if e.bindings == [] then inl else hintless
  }

  function ForBindings(hintless: bool, inl: bool, e: BodyForm): bool
    requires e.Let?
  {
    inl || (e.kind != Parallel && ForInner(hintless, inl, e))
  }

  ghost predicate BindingsUsable(g: Ground, hintless: bool, inl: bool, bs: seq<Binding>)
    decreases BindingsWeight(bs, 1), 2
  {
    bs == [] || (BindingParts(bs, 1); Usable(g, hintless, inl, bs[0].body) && BindingsUsable(g, hintless, inl, bs[1..]))
  }

  ghost predicate FormsUsable(g: Ground, hintless: bool, inl: bool, forms: seq<BodyForm>)
    decreases FormsWeight(forms), 2
  {
    forms == [] || (Usable(g, hintless, inl, forms[0]) && FormsUsable(g, hintless, inl, forms[1..]))
  }

  lemma {:induction false} UsableMember(g: Ground, hintless: bool, inl: bool, bs: seq<Binding>, b: Binding)
    requires BindingsUsable(g, hintless, inl, bs) && b in bs
    ensures Usable(g, hintless, inl, b.body)
  {
    BindingParts(bs, 1);
    if b != bs[0] {
      assert bs == [bs[0]] + bs[1..];
      UsableMember(g, hintless, inl, bs[1..], b);
    }
  }

  lemma {:induction false} UsableMembers(g: Ground, hintless: bool, inl: bool, bs: seq<Binding>)
    requires forall b :: b in bs ==> Usable(g, hintless, inl, b.body)
    ensures BindingsUsable(g, hintless, inl, bs)
  {
    if bs != [] {
      BindingParts(bs, 1);
      assert bs[0] in bs;
      forall b | b in bs[1..] ensures Usable(g, hintless, inl, b.body) { assert b in bs; }
      UsableMembers(g, hintless, inl, bs[1..]);
    }
  }

  /** What is usable in inline functions is usable in others. */
  lemma {:induction false} UsableOutside(g: Ground, hintless: bool, inl: bool, inl': bool, e: BodyForm)
    requires Usable(g, hintless, inl, e) && (inl' ==> inl)
    ensures Usable(g, hintless, inl', e)
    decreases Weight(e), 1
  {
    match e
    case Let(_, _, bs, inner) =>
      WeightPerBinding(bs);
      BindingsUsableOutside(g, hintless, ForBindings(hintless, inl, e), ForBindings(hintless, inl', e), bs);
      UsableOutside(g, hintless, ForInner(hintless, inl, e), ForInner(hintless, inl', e), inner);
    case Call(forms, tail) =>
      WeightParts(e);
      FormsUsableOutside(g, hintless, inl, inl', forms[1..]);
      if tail.Some? {
        UsableOutside(g, hintless, inl, inl', tail.value);
      }
    case _ =>
  }

  lemma {:induction false} BindingsUsableOutside(g: Ground, hintless: bool, inl: bool, inl': bool, bs: seq<Binding>)
    requires BindingsUsable(g, hintless, inl, bs) && (inl' ==> inl)
    ensures BindingsUsable(g, hintless, inl', bs)
    decreases BindingsWeight(bs, 1), 2
  {
    if bs != [] {
      BindingParts(bs, 1);
      UsableOutside(g, hintless, inl, inl', bs[0].body);
      BindingsUsableOutside(g, hintless, inl, inl', bs[1..]);
    }
  }

  lemma {:induction false} FormsUsableOutside(g: Ground, hintless: bool, inl: bool, inl': bool, forms: seq<BodyForm>)
    requires FormsUsable(g, hintless, inl, forms) && (inl' ==> inl)
    ensures FormsUsable(g, hintless, inl', forms)
    decreases FormsWeight(forms), 2
  {
    if forms != [] {
      UsableOutside(g, hintless, inl, inl', forms[0]);
      FormsUsableOutside(g, hintless, inl, inl', forms[1..]);
    }
  }

  // ---- Replacing names -------------------------------------------------------------------------

  lemma {:induction false} UsableReplaced(g: Ground, hintless: bool, inl: bool, m: NameMap, e: BodyForm)
    requires Usable(g, hintless, inl, e) && forall x :: x in m ==> m[x] != AT
    ensures Usable(g, hintless, inl, RenameIn(m, e))
    decreases Weight(e), 1
  {
    match e
    case Let(_, _, bs, inner) =>
      WeightPerBinding(bs);
      BindingsUsableReplaced(g, hintless, ForBindings(hintless, inl, e), m, bs);
      UsableReplaced(g, hintless, ForInner(hintless, inl, e), m, inner);
    case Call(forms, tail) =>
      WeightParts(e);
      FormsUsableReplaced(g, hintless, inl, m, forms[1..]);
      assert RenameIn(m, e).forms[0] == forms[0] && RenameIn(m, e).forms[1..] == RenameInForms(m, forms[1..]);
      if tail.Some? {
        UsableReplaced(g, hintless, inl, m, tail.value);
      }
    case _ =>
  }

  lemma {:induction false} BindingsUsableReplaced(g: Ground, hintless: bool, inl: bool, m: NameMap, bs: seq<Binding>)
    requires BindingsUsable(g, hintless, inl, bs) && forall x :: x in m ==> m[x] != AT
    ensures BindingsUsable(g, hintless, inl, RenameInBindings(m, bs))
    decreases BindingsWeight(bs, 1), 2
  {
    if bs != [] {
      BindingParts(bs, 1);
      BindingParts(RenameInBindings(m, bs), 1);
      UsableReplaced(g, hintless, inl, m, bs[0].body);
      BindingsUsableReplaced(g, hintless, inl, m, bs[1..]);
      assert RenameInBindings(m, bs)[1..] == RenameInBindings(m, bs[1..]);
    }
  }

  lemma {:induction false} FormsUsableReplaced(g: Ground, hintless: bool, inl: bool, m: NameMap, forms: seq<BodyForm>)
    requires FormsUsable(g, hintless, inl, forms) && forall x :: x in m ==> m[x] != AT
    ensures FormsUsable(g, hintless, inl, RenameInForms(m, forms))
    decreases FormsWeight(forms), 2
  {
    if forms != [] {
      UsableReplaced(g, hintless, inl, m, forms[0]);
      FormsUsableReplaced(g, hintless, inl, m, forms[1..]);
      assert RenameInForms(m, forms)[1..] == RenameInForms(m, forms[1..]);
    }
  }

  lemma {:induction false} NoneIsAt(m: NameMap, lo: nat, hi: nat)
    requires Invents(m, lo, hi)
    ensures forall x :: x in m ==> m[x] != AT
  {
    forall x | x in m ensures m[x] != AT {
      InventedIsFresh(m, x, lo, hi);
    }
  }

  // ---- Renaming --------------------------------------------------------------------------------

  lemma {:induction false} UsableRenamed(g: Ground, strict: bool, hintless: bool, inl: bool, e: BodyForm, count: nat)
    requires Nameable(strict, e) && Usable(g, hintless, inl, e)
    ensures Usable(g, hintless, inl, RenameArgs(hintless, e, count).value)
    decreases Weight(e), 1
  {
    match e
    case Let(Sequential, _, bs, inner) => UsableSequence(g, strict, hintless, inl, bs, inner, count);
    case Let(Parallel, inlined, bs, inner) => UsableParallel(g, strict, hintless, inl, inlined, bs, inner, count);
    case Let(Assign, _, _, _) => UsableAssign(g, strict, hintless, inl, e, count);
    case Call(forms, tail) => UsableCall(g, strict, hintless, inl, forms, tail, count);
    case _ =>
  }

  lemma {:induction false} UsableParallel(g: Ground, strict: bool, hintless: bool, inl: bool, inlined: bool, bs: seq<Binding>, inner: BodyForm,
                                          count: nat)
    requires Nameable(strict, Let(Parallel, inlined, bs, inner)) && Usable(g, hintless, inl, Let(Parallel, inlined, bs, inner))
    ensures Usable(g, hintless, inl, RenameArgs(hintless, Let(Parallel, inlined, bs, inner), count).value)
    decreases Weight(Let(Parallel, inlined, bs, inner)), 0
  {
    UniqueGroupRenames(bs, map[], count, count);
    var u := MakeAllUnique(bs, map[], count);
    NoneIsAt(u.names, count, u.next);
    UsableBodies(g, strict, hintless, inl, bs, u.next);
    var bodies := RenameBodies(hintless, bs, u.next);
    UsableWithBodies(g, hintless, inl, u.patterns, bodies.value);
    UsableRenamed(g, strict, hintless, inlined, inner, bodies.next);
    UsableReplaced(g, hintless, inlined, u.names, RenameArgs(hintless, inner, bodies.next).value);
  }

  lemma {:induction false} UsableCall(g: Ground, strict: bool, hintless: bool, inl: bool, forms: seq<BodyForm>, tail: Option<BodyForm>, count: nat)
    requires Nameable(strict, Call(forms, tail)) && Usable(g, hintless, inl, Call(forms, tail))
    ensures Usable(g, hintless, inl, RenameArgs(hintless, Call(forms, tail), count).value)
    decreases Weight(Call(forms, tail)), 0
  {
    WeightParts(Call(forms, tail));
    assert RenameArgs(hintless, forms[0], count) == Renamed(forms[0], count);
    UsableForms(g, strict, hintless, inl, forms[1..], count);
    var rest, all := RenameForms(hintless, forms[1..], count), RenameForms(hintless, forms, count);
    assert all.value == [forms[0]] + rest.value && all.value[1..] == rest.value;
    if tail.Some? {
      UsableRenamed(g, strict, hintless, inl, tail.value, all.next);
    }
  }

  lemma {:induction false} UsableWithBodies(g: Ground, hintless: bool, inl: bool, ps: seq<BindingPattern>, bodies: seq<BodyForm>)
    requires |ps| == |bodies| && FormsUsable(g, hintless, inl, bodies)
    ensures BindingsUsable(g, hintless, inl, WithBodies(ps, bodies))
  {
    if ps != [] {
      UsableWithBodies(g, hintless, inl, ps[1..], bodies[1..]);
      var bs := WithBodies(ps, bodies);
      BindingParts(bs, 1);
      assert bs[1..] == WithBodies(ps[1..], bodies[1..]);
    }
  }

  /** A sequential let becomes parallel lets inside each other, all as hintless lets are. */
  lemma {:induction false} UsableSequence(g: Ground, strict: bool, hintless: bool, inl: bool, bs: seq<Binding>, inner: BodyForm, count: nat)
    requires SequenceNameable(strict, bs, inner) && BindingsUsable(g, hintless, inl || hintless, bs)
    requires Usable(g, hintless, if bs == [] then inl else hintless, inner)
    ensures Usable(g, hintless, inl, RenameSequence(hintless, bs, inner, count).value)
    decreases BindingsWeight(bs, 1) + Weight(inner), 2
  {
    if bs == [] {
      UsableRenamed(g, strict, hintless, inl, inner, count);
    } else {
      BindingParts(bs, 1);
      UniqueGroupRenames([bs[0]], map[], count, count);
      var u := MakeAllUnique([bs[0]], map[], count);
      NoneIsAt(u.names, count, u.next);
      UsableOutside(g, hintless, inl || hintless, inl, bs[0].body);
      UsableRenamed(g, strict, hintless, inl, bs[0].body, u.next);
      var first := RenameArgs(hintless, bs[0].body, u.next);
      BindingsUsableOutside(g, hintless, inl || hintless, hintless, bs[1..]);
      UsableSequence(g, strict, hintless, hintless, bs[1..], inner, first.next);
      var body := RenameSequence(hintless, bs[1..], inner, first.next);
      UsableOneLet(g, hintless, inl, u.patterns, first.value, u.names, body.value);
    }
  }

  lemma {:induction false} UsableOneLet(g: Ground, hintless: bool, inl: bool, ps: seq<BindingPattern>, first: BodyForm, m: NameMap, body: BodyForm)
    requires |ps| == 1 && Usable(g, hintless, inl, first) && Usable(g, hintless, hintless, body) && (forall x :: x in m ==> m[x] != AT)
    ensures Usable(g, hintless, inl, Let(Parallel, hintless, WithBodies(ps, [first]), RenameIn(m, body)))
  {
    assert [first][1..] == [];
    UsableWithBodies(g, hintless, inl, ps, [first]);
    UsableReplaced(g, hintless, hintless, m, body);
  }

  lemma {:induction false} UsableBodies(g: Ground, strict: bool, hintless: bool, inl: bool, bs: seq<Binding>, count: nat)
    requires BindingsNameable(strict, bs) && BindingsUsable(g, hintless, inl, bs)
    ensures FormsUsable(g, hintless, inl, RenameBodies(hintless, bs, count).value)
    decreases BindingsWeight(bs, 1), 2
  {
    if bs != [] {
      BindingParts(bs, 1);
      UsableRenamed(g, strict, hintless, inl, bs[0].body, count);
      var first := RenameArgs(hintless, bs[0].body, count);
      UsableBodies(g, strict, hintless, inl, bs[1..], first.next);
      var rest := RenameBodies(hintless, bs[1..], first.next);
      assert ([first.value] + rest.value)[1..] == rest.value;
    }
  }

  lemma {:induction false} UsableForms(g: Ground, strict: bool, hintless: bool, inl: bool, forms: seq<BodyForm>, count: nat)
    requires FormsNameable(strict, forms) && FormsUsable(g, hintless, inl, forms)
    ensures FormsUsable(g, hintless, inl, RenameForms(hintless, forms, count).value)
    decreases FormsWeight(forms), 2
  {
    if forms != [] {
      UsableRenamed(g, strict, hintless, inl, forms[0], count);
      var first := RenameArgs(hintless, forms[0], count);
      UsableForms(g, strict, hintless, inl, forms[1..], first.next);
      var rest := RenameForms(hintless, forms[1..], first.next);
      assert ([first.value] + rest.value)[1..] == rest.value;
    }
  }

  /** The bindings of an assign form, renamed in order. */
  lemma {:induction false} UsableRun(g: Ground, strict: bool, hintless: bool, inl: bool, bs: seq<Binding>, m: NameMap, lo: nat, count: nat)
    requires BindingsNameable(strict, bs) && GroupNameable(bs) && AllComplex(bs) && BindingsUsable(g, hintless, inl, bs) && Invents(m, lo, count) && lo <= count
    ensures BindingsUsable(g, hintless, inl, RenameInOrder(hintless, bs, m, count).bindings)
    decreases BindingsWeight(bs, 1), 2
  {
    if bs != [] {
      BindingParts(bs, 1);
      assert bs[0].pattern.Complex? && AllComplex(bs[1..]);
      var p := bs[0].pattern.pattern;
      InventsNames(p, m, lo, count);
      var own := InventNames(p, m, count);
      NoneIsAt(own.names, lo, own.next);
      UsableRenamed(g, strict, hintless, inl, bs[0].body, own.next);
      var body := RenameArgs(hintless, bs[0].body, own.next);
      UsableReplaced(g, hintless, inl, own.names, body.value);
      InventsLater(own.names, lo, own.next, body.next);
      UsableRun(g, strict, hintless, inl, bs[1..], own.names, lo, body.next);
      var r := RenameInOrder(hintless, bs, m, count).bindings;
      BindingParts(r, 1);
      assert r[1..] == RenameInOrder(hintless, bs[1..], own.names, body.next).bindings;
    }
  }

  lemma {:induction false} UsableInOrder(g: Ground, hintless: bool, inl: bool, bs: seq<Binding>)
    requires SortBindings(bs).Known? && BindingsUsable(g, hintless, inl, bs)
    ensures BindingsUsable(g, hintless, inl, InOrder(bs))
  {
    InOrderHolds(bs);
    forall b | b in InOrder(bs) ensures Usable(g, hintless, inl, b.body) { UsableMember(g, hintless, inl, bs, b); }
    UsableMembers(g, hintless, inl, InOrder(bs));
  }

  lemma {:induction false} UsableBackwards(g: Ground, hintless: bool, inl: bool, bs: seq<Binding>)
    requires BindingsUsable(g, hintless, inl, bs)
    ensures BindingsUsable(g, hintless, inl, Backwards(bs))
  {
    BackwardsHolds(bs);
    forall b | b in Backwards(bs) ensures Usable(g, hintless, inl, b.body) { UsableMember(g, hintless, inl, bs, b); }
    UsableMembers(g, hintless, inl, Backwards(bs));
  }

  lemma {:induction false} UsableAssign(g: Ground, strict: bool, hintless: bool, inl: bool, e: BodyForm, count: nat)
    requires e.Let? && e.kind == Assign && Nameable(strict, e) && Usable(g, hintless, inl, e)
    ensures Usable(g, hintless, inl, RenameArgs(hintless, e, count).value)
    decreases Weight(e), 0
  {
    var Let(_, inlined, bs, inner) := e;
    var ordered, inl' := InOrder(bs), ForBindings(hintless, inl, e);
    InOrderWeight(bs);
    InOrderGroup(strict, bs);
    WeightPerBinding(bs);
    UsableInOrder(g, hintless, inl', bs);
    UsableRun(g, strict, hintless, inl', ordered, map[], count, count);
    RenameInOrderShape(strict, hintless, ordered, map[], count, count);
    var r := RenameInOrder(hintless, ordered, map[], count);
    UsableBackwards(g, hintless, inl', r.bindings);
    NoneIsAt(r.names, count, r.next);
    UsableRenamed(g, strict, hintless, inlined, inner, r.next);
    UsableReplaced(g, hintless, inlined, r.names, RenameArgs(hintless, inner, r.next).value);
  }

  // ---- What may be renamed and hoisted ----------------------------------------------------------

  /** Where calls are usable and patterns may be renamed, hoisting leaves no let. */
  lemma {:induction false} UsableIsStraight(g: Ground, strict: bool, hintless: bool, inl: bool, e: BodyForm)
    requires Nameable(strict, e) && Usable(g, hintless, inl, e)
    ensures Straight(e)
    decreases Weight(e), 1
  {
    match e
    case Let(kind, _, bs, inner) =>
      WeightPerBinding(bs);
      if kind == Sequential {
        SequenceParts(strict, bs, inner);
      }
      BindingsAreStraight(g, strict, hintless, ForBindings(hintless, inl, e), bs);
      UsableIsStraight(g, strict, hintless, ForInner(hintless, inl, e), inner);
    case Call(forms, tail) =>
      WeightParts(e);
      assert forms[0].Value?;
      FormsAreStraight(g, strict, hintless, inl, forms[1..]);
      if tail.Some? {
        UsableIsStraight(g, strict, hintless, inl, tail.value);
      }
    case _ =>
  }

  lemma {:induction false} SequenceParts(strict: bool, bs: seq<Binding>, inner: BodyForm)
    requires SequenceNameable(strict, bs, inner)
    ensures BindingsNameable(strict, bs) && Nameable(strict, inner)
  {
    if bs != [] {
      BindingParts(bs, 1);
      SequenceParts(strict, bs[1..], inner);
    }
  }

  lemma {:induction false} BindingsAreStraight(g: Ground, strict: bool, hintless: bool, inl: bool, bs: seq<Binding>)
    requires BindingsNameable(strict, bs) && BindingsUsable(g, hintless, inl, bs)
    ensures BindingsStraight(bs)
    decreases BindingsWeight(bs, 1), 2
  {
    if bs != [] {
      BindingParts(bs, 1);
      UsableIsStraight(g, strict, hintless, inl, bs[0].body);
      BindingsAreStraight(g, strict, hintless, inl, bs[1..]);
      assert BodyStraight(bs[0]);
    }
  }

  lemma {:induction false} FormsAreStraight(g: Ground, strict: bool, hintless: bool, inl: bool, forms: seq<BodyForm>)
    requires FormsNameable(strict, forms) && FormsUsable(g, hintless, inl, forms)
    ensures FormsStraight(forms)
    decreases FormsWeight(forms), 2
  {
    if forms != [] {
      UsableIsStraight(g, strict, hintless, inl, forms[0]);
      FormsAreStraight(g, strict, hintless, inl, forms[1..]);
    }
  }

  // ---- Later grounds ---------------------------------------------------------------------------

  function Kind(defuns: seq<Defun>, name: bytes): Option<bool> {
    match FindDefun(defuns, name) case None => None case Some(f) => Some(f.inline)
  }

  /** The ground of a renamed program: the same kinds of functions, more names bound, all of them new, and
      the counter has moved. */
  ghost predicate LaterGround(g: Ground, g': Ground) {
    g' == g.(defuns := g'.defuns, binders := g'.binders, count := g'.count) && g.count <= g'.count && g.binders <= g'.binders
    && (forall name :: Kind(g'.defuns, name) == Kind(g.defuns, name))
    && forall x :: x in g'.binders && x !in g.binders ==> FreshName(x, g.count, g'.count)
  }

  lemma {:induction false} StaysUsable(g: Ground, g': Ground, hintless: bool, inl: bool, e: BodyForm)
    requires LaterGround(g, g') && Usable(g, hintless, inl, e) && NamesBefore(Mentions(e), g.count)
    ensures Usable(g', hintless, inl, e)
    decreases Weight(e), 1
  {
    match e
    case Let(_, _, bs, inner) =>
      WeightPerBinding(bs);
      BindingsStayUsable(g, g', hintless, ForBindings(hintless, inl, e), bs);
      StaysUsable(g, g', hintless, ForInner(hintless, inl, e), inner);
    case Call(forms, tail) =>
      WeightParts(e);
      assert FormsMention(forms) == Mentions(forms[0]) + FormsMention(forms[1..]);
      HeadStaysUsable(g, g', inl, forms[0]);
      FormsStayUsable(g, g', hintless, inl, forms[1..]);
      if tail.Some? {
        assert TailMentions(tail) == {AMP_REST} + Mentions(tail.value);
        StaysUsable(g, g', hintless, inl, tail.value);
      }
    case Value(Integer(i)) =>
      var name := U8FromNumber(i);
      assert name in Mentions(e);
      if name in g'.binders && name !in g.binders {
        FreshAfter(name, g.count, g'.count, name);
      }
    case _ =>
  }

  lemma {:induction false} HeadStaysUsable(g: Ground, g': Ground, inl: bool, head: BodyForm)
    requires LaterGround(g, g') && HeadUsable(g, inl, head) && NamesBefore(Mentions(head), g.count)
    ensures HeadUsable(g', inl, head)
  {
    var name := CallName(head).value;
    assert name in Mentions(head);
    assert Before(name, g.count) && Kind(g'.defuns, name) == Kind(g.defuns, name);
    if name in g'.binders && name !in g.binders {
      FreshAfter(name, g.count, g'.count, name);
    }
    assert Before(name, g'.count);
  }

  lemma {:induction false} BindingsStayUsable(g: Ground, g': Ground, hintless: bool, inl: bool, bs: seq<Binding>)
    requires LaterGround(g, g') && BindingsUsable(g, hintless, inl, bs) && NamesBefore(BindingsMention(bs), g.count)
    ensures BindingsUsable(g', hintless, inl, bs)
    decreases BindingsWeight(bs, 1), 2
  {
    if bs != [] {
      BindingParts(bs, 1);
      assert BodyMentions(bs[0]) == Mentions(bs[0].body);
      StaysUsable(g, g', hintless, inl, bs[0].body);
      BindingsStayUsable(g, g', hintless, inl, bs[1..]);
    }
  }

  lemma {:induction false} FormsStayUsable(g: Ground, g': Ground, hintless: bool, inl: bool, forms: seq<BodyForm>)
    requires LaterGround(g, g') && FormsUsable(g, hintless, inl, forms) && NamesBefore(FormsMention(forms), g.count)
    ensures FormsUsable(g', hintless, inl, forms)
    decreases FormsWeight(forms), 2
  {
    if forms != [] {
      StaysUsable(g, g', hintless, inl, forms[0]);
      FormsStayUsable(g, g', hintless, inl, forms[1..]);
    }
  }

  /** Without sequential lets it does not matter how lets without hints are treated. */
  lemma {:induction false} HintDoesNotMatter(g: Ground, hintless: bool, hintless': bool, inl: bool, e: BodyForm)
    requires Usable(g, hintless, inl, e) && Unfolded(e)
    ensures Usable(g, hintless', inl, e)
    decreases Weight(e), 1
  {
    match e
    case Let(_, inlined, bs, inner) =>
      WeightPerBinding(bs);
      BindingsHint(g, hintless, hintless', ForBindings(hintless, inl, e), bs);
      HintDoesNotMatter(g, hintless, hintless', inlined, inner);
    case Call(forms, tail) =>
      WeightParts(e);
      assert FormsUnfolded(forms);
      FormsHint(g, hintless, hintless', inl, forms[1..]);
      if tail.Some? {
        HintDoesNotMatter(g, hintless, hintless', inl, tail.value);
      }
    case _ =>
  }

  lemma {:induction false} BindingsHint(g: Ground, hintless: bool, hintless': bool, inl: bool, bs: seq<Binding>)
    requires BindingsUsable(g, hintless, inl, bs) && BindingsUnfolded(bs)
    ensures BindingsUsable(g, hintless', inl, bs)
    decreases BindingsWeight(bs, 1), 2
  {
    if bs != [] {
      BindingParts(bs, 1);
      assert BodyUnfolded(bs[0]);
      HintDoesNotMatter(g, hintless, hintless', inl, bs[0].body);
      BindingsHint(g, hintless, hintless', inl, bs[1..]);
    }
  }

  lemma {:induction false} FormsHint(g: Ground, hintless: bool, hintless': bool, inl: bool, forms: seq<BodyForm>)
    requires FormsUsable(g, hintless, inl, forms) && FormsUnfolded(forms)
    ensures FormsUsable(g, hintless', inl, forms)
    decreases FormsWeight(forms), 2
  {
    if forms != [] {
      HintDoesNotMatter(g, hintless, hintless', inl, forms[0]);
      FormsHint(g, hintless, hintless', inl, forms[1..]);
    }
  }
}
