/** After renaming there are no sequential lets, empty or not, so hoisting leaves no let. */
module RenamingCleans {
  import opened SExpressions
  import opened Syntax
  import opened AssignForms
  import opened AssignWeight
  import opened HoistingComplete
  import opened Renaming
  import opened RenamingNames

  /** No lambdas, no lets in call heads, and assign forms that can be put in order. */
  predicate Straight(e: BodyForm) {
    match e
    case Let(kind, _, bs, inner) =>
      (kind == Assign ==> SortBindings(bs).Known? && AllComplex(bs)) && BindingsStraight(bs) && Straight(inner)
    case Call(forms, tail) => HeadLetFree(forms) && FormsStraight(forms) && (tail.Some? ==> Straight(tail.value))
    case Lambda(_, _, _, _) => false
    case _ => true
  }

  predicate HeadLetFree(forms: seq<BodyForm>) { forms != [] ==> LetFree(forms[0]) }

  predicate BodyStraight(b: Binding) { Straight(b.body) }

  predicate BindingsStraight(bs: seq<Binding>) { bs == [] || (BodyStraight(bs[0]) && BindingsStraight(bs[1..])) }

  predicate FormsStraight(forms: seq<BodyForm>) { forms == [] || (Straight(forms[0]) && FormsStraight(forms[1..])) }

  /** No lambdas, no lets in call heads, no sequential lets. */
  predicate NoneSequential(e: BodyForm) {
    match e
    case Let(kind, _, bs, inner) => kind != Sequential && BindingsNotSequential(bs) && NoneSequential(inner)
    case Call(forms, tail) => HeadLetFree(forms) && FormsNotSequential(forms) && (tail.Some? ==> NoneSequential(tail.value))
    case Lambda(_, _, _, _) => false
    case _ => true
  }

  predicate BodyNotSequential(b: Binding) { NoneSequential(b.body) }

  predicate BindingsNotSequential(bs: seq<Binding>) { bs == [] || (BodyNotSequential(bs[0]) && BindingsNotSequential(bs[1..])) }

  predicate FormsNotSequential(forms: seq<BodyForm>) { forms == [] || (NoneSequential(forms[0]) && FormsNotSequential(forms[1..])) }

  lemma {:induction false} NotSequentialMembers(bs: seq<Binding>)
    ensures BindingsNotSequential(bs) <==> forall b :: b in bs ==> BodyNotSequential(b)
    ensures BindingsStraight(bs) <==> forall b :: b in bs ==> BodyStraight(b)
  {
    if bs != [] {
      NotSequentialMembers(bs[1..]);
      forall b ensures b in bs <==> b == bs[0] || b in bs[1..] { assert bs == [bs[0]] + bs[1..]; }
      assert bs[0] in bs;
    }
  }

  // ---- Hoisting leaves nothing of them ---------------------------------------------------------

  lemma {:induction false} NotSequentialIsClean(e: BodyForm)
    requires NoneSequential(e)
    ensures Clean(1, e)
    decreases Weight(e), 1
  {
    match e
    case Let(Parallel, _, bs, inner) =>
      BindingsAreClean(bs, 1);
      NotSequentialIsClean(inner);
    case Let(Assign, inlined, bs, inner) =>
      if HoistAssign(inlined, bs, inner) != None {
        forall i | 0 <= i < |bs| ensures Clean(1, bs[i].body) {
          BodyIsLighter(bs, i);
          NotSequentialMembers(bs);
          assert bs[i] in bs && BodyNotSequential(bs[i]);
          NotSequentialIsClean(bs[i].body);
        }
        NotSequentialIsClean(inner);
        StagesInRange(bs);
        NestIsClean(inlined, bs, Stages(SortBindings(bs).value, {}, {}, []), inner);
      }
    case Call(forms, tail) =>
      WeightParts(e);
      if forms != [] {
        FormsAreClean(forms[1..]);
        if tail.Some? {
          NotSequentialIsClean(tail.value);
        }
      }
    case _ =>
  }

  lemma {:induction false} BindingsAreClean(bs: seq<Binding>, each: nat)
    requires BindingsNotSequential(bs) && each <= 2
    ensures BindingsClean(1, bs)
    decreases BindingsWeight(bs, each), 2, |bs|
  {
    if bs != [] {
      BindingParts(bs, each);
      assert BodyNotSequential(bs[0]);
      NotSequentialIsClean(bs[0].body);
      BindingsAreClean(bs[1..], each);
    }
  }

  lemma {:induction false} FormsAreClean(forms: seq<BodyForm>)
    requires FormsNotSequential(forms)
    ensures FormsClean(1, forms)
    decreases FormsWeight(forms), 2
  {
    if forms != [] {
      NotSequentialIsClean(forms[0]);
      FormsAreClean(forms[1..]);
    }
  }

  lemma {:induction false} EachClean(bs: seq<Binding>)
    requires forall i :: 0 <= i < |bs| ==> Clean(1, bs[i].body)
    ensures BindingsClean(1, bs)
  {
    if bs != [] {
      forall i | 0 <= i < |bs[1..]| ensures Clean(1, bs[1..][i].body) { assert bs[1..][i] == bs[i + 1]; }
      EachClean(bs[1..]);
    }
  }

  lemma {:induction false} NestIsClean(inlined: bool, bs: seq<Binding>, stages: seq<seq<Spec>>, body: BodyForm)
    requires InRange(bs, stages) && (forall i :: 0 <= i < |bs| ==> Clean(1, bs[i].body)) && Clean(1, body)
    ensures Clean(1, Nest(inlined, bs, stages, body))
    decreases |stages|
  {
    if stages != [] {
      NestIsClean(inlined, bs, stages[1..], body);
      var picked := Pick(bs, stages[0]);
      forall i | 0 <= i < |picked| ensures Clean(1, picked[i].body) {
        assert stages[0][i] in stages[0];
      }
      EachClean(picked);
    }
  }

  // ---- Renaming makes them ---------------------------------------------------------------------

  lemma {:induction false} ReplacingStaysUnfolded(m: NameMap, e: BodyForm)
    requires NoneSequential(e)
    ensures NoneSequential(RenameIn(m, e))
    decreases Weight(e), 1
  {
    match e
    case Let(_, _, bs, inner) =>
      WeightPerBinding(bs);
      ReplacingInBindings(m, bs);
      ReplacingStaysUnfolded(m, inner);
    case Call(forms, tail) =>
      WeightParts(e);
      if tail.Some? {
        ReplacingStaysUnfolded(m, tail.value);
      }
      if forms != [] {
        ReplacingInForms(m, forms[1..]);
        var r := RenameIn(m, e).forms;
        assert r[0] == forms[0] && r[1..] == RenameInForms(m, forms[1..]);
      }
    case _ =>
  }

  lemma {:induction false} ReplacingInBindings(m: NameMap, bs: seq<Binding>)
    requires BindingsNotSequential(bs)
    ensures BindingsNotSequential(RenameInBindings(m, bs))
    decreases BindingsWeight(bs, 1), 2
  {
    if bs != [] {
      BindingParts(bs, 1);
      assert BodyNotSequential(bs[0]);
      ReplacingStaysUnfolded(m, bs[0].body);
      ReplacingInBindings(m, bs[1..]);
      assert BodyNotSequential(RenameInBody(m, bs[0]));
      assert RenameInBindings(m, bs)[1..] == RenameInBindings(m, bs[1..]);
    }
  }

  lemma {:induction false} ReplacingInForms(m: NameMap, forms: seq<BodyForm>)
    requires FormsNotSequential(forms)
    ensures FormsNotSequential(RenameInForms(m, forms))
    decreases FormsWeight(forms), 2
  {
    if forms != [] {
      ReplacingStaysUnfolded(m, forms[0]);
      ReplacingInForms(m, forms[1..]);
      assert RenameInForms(m, forms)[1..] == RenameInForms(m, forms[1..]);
    }
  }

  lemma {:induction false} LetFreeStays(hintless: bool, e: BodyForm, count: nat)
    requires LetFree(e)
    ensures LetFree(RenameArgs(hintless, e, count).value)
    decreases Weight(e), 1
  {
    if e.Call? {
      WeightParts(e);
      AllLetFreeStay(hintless, e.forms, count);
      if e.tail.Some? {
        LetFreeStays(hintless, e.tail.value, RenameForms(hintless, e.forms, count).next);
      }
    }
  }

  lemma {:induction false} AllLetFreeStay(hintless: bool, forms: seq<BodyForm>, count: nat)
    requires AllLetFree(forms)
    ensures AllLetFree(RenameForms(hintless, forms, count).value)
    decreases FormsWeight(forms), 2
  {
    if forms != [] {
      LetFreeStays(hintless, forms[0], count);
      var first := RenameArgs(hintless, forms[0], count);
      AllLetFreeStay(hintless, forms[1..], first.next);
      assert ([first.value] + RenameForms(hintless, forms[1..], first.next).value)[1..] == RenameForms(hintless, forms[1..], first.next).value;
    }
  }

  lemma {:induction false} WithBodiesNotSequential(ps: seq<BindingPattern>, bodies: seq<BodyForm>)
    requires |ps| == |bodies| && FormsNotSequential(bodies)
    ensures BindingsNotSequential(WithBodies(ps, bodies))
  {
    if ps != [] {
      WithBodiesNotSequential(ps[1..], bodies[1..]);
      var bs := WithBodies(ps, bodies);
      assert bs[1..] == WithBodies(ps[1..], bodies[1..]) && BodyNotSequential(bs[0]);
    }
  }

  lemma {:induction false} RenamingUnfolds(hintless: bool, e: BodyForm, count: nat)
    requires Straight(e)
    ensures NoneSequential(RenameArgs(hintless, e, count).value)
    decreases Weight(e), 1
  {
    match e
    case Let(Sequential, _, bs, inner) => RenamingUnfoldsSequence(hintless, bs, inner, count);
    case Let(Parallel, _, bs, inner) =>
      var u := MakeAllUnique(bs, map[], count);
      RenamingUnfoldsBodies(hintless, bs, u.next);
      var bodies := RenameBodies(hintless, bs, u.next);
      RenamingUnfolds(hintless, inner, bodies.next);
      ReplacingStaysUnfolded(u.names, RenameArgs(hintless, inner, bodies.next).value);
      WithBodiesNotSequential(u.patterns, bodies.value);
    case Let(Assign, _, bs, inner) =>
      InOrderWeight(bs);
      InOrderHolds(bs);
      NotSequentialMembers(bs);
      NotSequentialMembers(InOrder(bs));
      RenamingUnfoldsRun(hintless, InOrder(bs), map[], count);
      var g := RenameInOrder(hintless, InOrder(bs), map[], count);
      BackwardsHolds(g.bindings);
      NotSequentialMembers(g.bindings);
      NotSequentialMembers(Backwards(g.bindings));
      RenamingUnfolds(hintless, inner, g.next);
      ReplacingStaysUnfolded(g.names, RenameArgs(hintless, inner, g.next).value);
    case Call(forms, tail) =>
      WeightParts(e);
      RenamingUnfoldsForms(hintless, forms, count);
      if forms != [] {
        LetFreeStays(hintless, forms[0], count);
      }
      if tail.Some? {
        RenamingUnfolds(hintless, tail.value, RenameForms(hintless, forms, count).next);
      }
    case _ =>
  }

  lemma {:induction false} RenamingUnfoldsRun(hintless: bool, bs: seq<Binding>, m: NameMap, count: nat)
    requires BindingsStraight(bs) && AllComplex(bs)
    ensures BindingsNotSequential(RenameInOrder(hintless, bs, m, count).bindings)
    decreases BindingsWeight(bs, 1), 2
  {
    if bs != [] {
      BindingParts(bs, 1);
      assert bs[0].pattern.Complex? && BodyStraight(bs[0]) && AllComplex(bs[1..]);
      var own := InventNames(bs[0].pattern.pattern, m, count);
      RenamingUnfolds(hintless, bs[0].body, own.next);
      var body := RenameArgs(hintless, bs[0].body, own.next);
      ReplacingStaysUnfolded(own.names, body.value);
      RenamingUnfoldsRun(hintless, bs[1..], own.names, body.next);
      var r := RenameInOrder(hintless, bs, m, count).bindings;
      assert r[1..] == RenameInOrder(hintless, bs[1..], own.names, body.next).bindings && BodyNotSequential(r[0]);
    }
  }

  lemma {:induction false} RenamingUnfoldsSequence(hintless: bool, bs: seq<Binding>, inner: BodyForm, count: nat)
    requires BindingsStraight(bs) && Straight(inner)
    ensures NoneSequential(RenameSequence(hintless, bs, inner, count).value)
    decreases BindingsWeight(bs, 1) + Weight(inner), 2
  {
    if bs == [] {
      RenamingUnfolds(hintless, inner, count);
    } else {
      BindingParts(bs, 1);
      assert BodyStraight(bs[0]);
      var u := MakeAllUnique([bs[0]], map[], count);
      RenamingUnfolds(hintless, bs[0].body, u.next);
      var first := RenameArgs(hintless, bs[0].body, u.next);
      RenamingUnfoldsSequence(hintless, bs[1..], inner, first.next);
      ReplacingStaysUnfolded(u.names, RenameSequence(hintless, bs[1..], inner, first.next).value);
      assert [first.value][1..] == [];
      WithBodiesNotSequential(u.patterns, [first.value]);
    }
  }

  lemma {:induction false} RenamingUnfoldsBodies(hintless: bool, bs: seq<Binding>, count: nat)
    requires BindingsStraight(bs)
    ensures FormsNotSequential(RenameBodies(hintless, bs, count).value)
    decreases BindingsWeight(bs, 1), 2
  {
    if bs != [] {
      BindingParts(bs, 1);
      assert BodyStraight(bs[0]);
      RenamingUnfolds(hintless, bs[0].body, count);
      var first := RenameArgs(hintless, bs[0].body, count);
      RenamingUnfoldsBodies(hintless, bs[1..], first.next);
      assert ([first.value] + RenameBodies(hintless, bs[1..], first.next).value)[1..] == RenameBodies(hintless, bs[1..], first.next).value;
    }
  }

  lemma {:induction false} RenamingUnfoldsForms(hintless: bool, forms: seq<BodyForm>, count: nat)
    requires FormsStraight(forms)
    ensures FormsNotSequential(RenameForms(hintless, forms, count).value)
    decreases FormsWeight(forms), 2
  {
    if forms != [] {
      RenamingUnfolds(hintless, forms[0], count);
      var first := RenameArgs(hintless, forms[0], count);
      RenamingUnfoldsForms(hintless, forms[1..], first.next);
      assert ([first.value] + RenameForms(hintless, forms[1..], first.next).value)[1..] == RenameForms(hintless, forms[1..], first.next).value;
    }
  }

  /** A renamed expression is clean: hoisting leaves no let of it, whatever empty let* it had. */
  lemma {:induction false} RenamedIsClean(hintless: bool, e: BodyForm, count: nat)
    requires Straight(e)
    ensures Clean(1, RenameArgs(hintless, e, count).value)
  {
    RenamingUnfolds(hintless, e, count);
    NotSequentialIsClean(RenameArgs(hintless, e, count).value);
  }

  /** The same within a function, whose parameters are replaced as well. */
  lemma {:induction false} RenamedFunctionIsClean(hintless: bool, f: Defun, count: nat)
    requires Straight(f.body)
    ensures Clean(1, RenameDefun(hintless, f, count).value.body)
  {
    var own := InventNames(f.args, map[], count);
    RenamingUnfolds(hintless, f.body, own.next);
    ReplacingStaysUnfolded(own.names, RenameArgs(hintless, f.body, own.next).value);
    NotSequentialIsClean(RenameDefun(hintless, f, count).value.body);
  }
}
