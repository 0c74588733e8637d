/** Renaming and hoisting leave calls headed by words. */
module HeadsKept {
  import opened Numbers
  import opened SExpressions
  import opened Syntax
  import opened AssignForms
  import opened AssignWeight
  import opened Inlining
  import opened CodeGeneration
  import opened Lambdas
  import opened Gensyms
  import opened Hoisting
  import opened Desugaring
  import opened Renaming
  import opened RenamingNames
  import opened Heads

  // ---- Renaming ----------------------------------------------------------------------------------

  lemma {:induction false} ReplacingKeepsWords(m: NameMap, e: BodyForm)
    requires WordHeads(e)
    ensures WordHeads(RenameIn(m, e))
    decreases Weight(e), 1
  {
    match e
    case Let(_, _, bs, inner) =>
      WeightPerBinding(bs);
      ReplacingInBindings(m, bs);
      ReplacingKeepsWords(m, inner);
    case Call(forms, tail) =>
      WeightParts(e);
      if tail.Some? {
        ReplacingKeepsWords(m, tail.value);
      }
      ReplacingInForms(m, forms[1..]);
      CallInWords(forms[0], RenameInForms(m, forms[1..]), RenameIn(m, e).tail);
    case _ =>
  }

  lemma {:induction false} ReplacingInBindings(m: NameMap, bs: seq<Binding>)
    requires BindingsInWords(bs)
    ensures BindingsInWords(RenameInBindings(m, bs))
    decreases BindingsWeight(bs, 1), 2
  {
    if bs != [] {
      BindingParts(bs, 1);
      assert BodyInWords(bs[0]);
      ReplacingKeepsWords(m, bs[0].body);
      ReplacingInBindings(m, bs[1..]);
      assert BodyInWords(RenameInBody(m, bs[0]));
      assert RenameInBindings(m, bs)[1..] == RenameInBindings(m, bs[1..]);
    }
  }

  lemma {:induction false} ReplacingInForms(m: NameMap, forms: seq<BodyForm>)
    requires FormsInWords(forms)
    ensures FormsInWords(RenameInForms(m, forms))
    decreases FormsWeight(forms), 2
  {
    if forms != [] {
      ReplacingKeepsWords(m, forms[0]);
      ReplacingInForms(m, forms[1..]);
      assert RenameInForms(m, forms)[1..] == RenameInForms(m, forms[1..]);
    }
  }

  lemma {:induction false} WithBodiesInWords(ps: seq<BindingPattern>, bodies: seq<BodyForm>)
    requires |ps| == |bodies| && FormsInWords(bodies)
    ensures BindingsInWords(WithBodies(ps, bodies))
  {
    if ps != [] {
      WithBodiesInWords(ps[1..], bodies[1..]);
      var bs := WithBodies(ps, bodies);
      assert bs[1..] == WithBodies(ps[1..], bodies[1..]) && BodyInWords(bs[0]);
    }
  }

  lemma {:induction false} RenamingKeepsWords(hintless: bool, e: BodyForm, count: nat)
    requires WordHeads(e)
    ensures WordHeads(RenameArgs(hintless, e, count).value)
    decreases Weight(e), 1
  {
    match e
    case Let(Sequential, _, bs, inner) => SequenceKeepsWords(hintless, bs, inner, count);
    case Let(Parallel, _, bs, inner) =>
      var u := MakeAllUnique(bs, map[], count);
      BodiesKeepWords(hintless, bs, u.next);
      var bodies := RenameBodies(hintless, bs, u.next);
      RenamingKeepsWords(hintless, inner, bodies.next);
      ReplacingKeepsWords(u.names, RenameArgs(hintless, inner, bodies.next).value);
      WithBodiesInWords(u.patterns, bodies.value);
    case Let(Assign, _, bs, inner) =>
      if SortBindings(bs).Known? {
        InOrderWeight(bs);
        InOrderHolds(bs);
        EachBindingInWords(bs);
        EachBindingInWords(InOrder(bs));
        RunKeepsWords(hintless, InOrder(bs), map[], count);
        var g := RenameInOrder(hintless, InOrder(bs), map[], count);
        BackwardsHolds(g.bindings);
        EachBindingInWords(g.bindings);
        EachBindingInWords(Backwards(g.bindings));
        RenamingKeepsWords(hintless, inner, g.next);
        ReplacingKeepsWords(g.names, RenameArgs(hintless, inner, g.next).value);
      }
    case Call(forms, tail) => RenamedCallInWords(hintless, forms, tail, count);
    case _ =>
  }

  lemma {:induction false} RenamedCallInWords(hintless: bool, forms: seq<BodyForm>, tail: Option<BodyForm>, count: nat)
    requires WordHeads(Call(forms, tail))
    ensures WordHeads(RenameArgs(hintless, Call(forms, tail), count).value)
    decreases Weight(Call(forms, tail)), 0
  {
    WeightParts(Call(forms, tail));
    FormsKeepWords(hintless, forms[1..], count);
    var rest := RenameForms(hintless, forms[1..], count);
    assert RenameArgs(hintless, forms[0], count) == Renamed(forms[0], count);
    assert RenameForms(hintless, forms, count) == Renamed([forms[0]] + rest.value, rest.next);
    if tail.Some? {
      RenamingKeepsWords(hintless, tail.value, rest.next);
    }
    CallInWords(forms[0], rest.value, RenameArgs(hintless, Call(forms, tail), count).value.tail);
  }

  lemma {:induction false} RunKeepsWords(hintless: bool, bs: seq<Binding>, m: NameMap, count: nat)
    requires BindingsInWords(bs)
    ensures BindingsInWords(RenameInOrder(hintless, bs, m, count).bindings)
    decreases BindingsWeight(bs, 1), 2
  {
    if bs != [] {
      BindingParts(bs, 1);
      assert BodyInWords(bs[0]);
      var r := RenameInOrder(hintless, bs, m, count).bindings;
      if bs[0].pattern.Name? {
        RunKeepsWords(hintless, bs[1..], m, count);
        assert r[1..] == RenameInOrder(hintless, bs[1..], m, count).bindings;
      } else {
        var own := InventNames(bs[0].pattern.pattern, m, count);
        RenamingKeepsWords(hintless, bs[0].body, own.next);
        var body := RenameArgs(hintless, bs[0].body, own.next);
        ReplacingKeepsWords(own.names, body.value);
        RunKeepsWords(hintless, bs[1..], own.names, body.next);
        assert r[1..] == RenameInOrder(hintless, bs[1..], own.names, body.next).bindings && BodyInWords(r[0]);
      }
    }
  }

  lemma {:induction false} SequenceKeepsWords(hintless: bool, bs: seq<Binding>, inner: BodyForm, count: nat)
    requires BindingsInWords(bs) && WordHeads(inner)
    ensures WordHeads(RenameSequence(hintless, bs, inner, count).value)
    decreases BindingsWeight(bs, 1) + Weight(inner), 2
  {
    if bs == [] {
      RenamingKeepsWords(hintless, inner, count);
    } else {
      BindingParts(bs, 1);
      assert BodyInWords(bs[0]);
      var u := MakeAllUnique([bs[0]], map[], count);
      RenamingKeepsWords(hintless, bs[0].body, u.next);
      var first := RenameArgs(hintless, bs[0].body, u.next);
      SequenceKeepsWords(hintless, bs[1..], inner, first.next);
      ReplacingKeepsWords(u.names, RenameSequence(hintless, bs[1..], inner, first.next).value);
      assert [first.value][1..] == [];
      WithBodiesInWords(u.patterns, [first.value]);
    }
  }

  lemma {:induction false} BodiesKeepWords(hintless: bool, bs: seq<Binding>, count: nat)
    requires BindingsInWords(bs)
    ensures FormsInWords(RenameBodies(hintless, bs, count).value)
    decreases BindingsWeight(bs, 1), 2
  {
    if bs != [] {
      BindingParts(bs, 1);
      assert BodyInWords(bs[0]);
      RenamingKeepsWords(hintless, bs[0].body, count);
      var first := RenameArgs(hintless, bs[0].body, count);
      BodiesKeepWords(hintless, bs[1..], first.next);
      assert ([first.value] + RenameBodies(hintless, bs[1..], first.next).value)[1..] == RenameBodies(hintless, bs[1..], first.next).value;
    }
  }

  lemma {:induction false} FormsKeepWords(hintless: bool, forms: seq<BodyForm>, count: nat)
    requires FormsInWords(forms)
    ensures FormsInWords(RenameForms(hintless, forms, count).value)
    decreases FormsWeight(forms), 2
  {
    if forms != [] {
      RenamingKeepsWords(hintless, forms[0], count);
      var first := RenameArgs(hintless, forms[0], count);
      FormsKeepWords(hintless, forms[1..], first.next);
      assert ([first.value] + RenameForms(hintless, forms[1..], first.next).value)[1..] == RenameForms(hintless, forms[1..], first.next).value;
    }
  }

  lemma {:induction false} RenamedDefunsInWords(hintless: bool, defuns: seq<Defun>, count: nat)
    requires DefunsInWords(defuns)
    ensures DefunsInWords(RenameDefuns(hintless, defuns, count).value)
  {
    if defuns != [] {
      var f := defuns[0];
      var own := InventNames(f.args, map[], count);
      assert f in defuns && DefunInWords(f);
      RenamingKeepsWords(hintless, f.body, own.next);
      ReplacingKeepsWords(own.names, RenameArgs(hintless, f.body, own.next).value);
      RenamedDefunsInWords(hintless, defuns[1..], RenameDefun(hintless, f, count).next);
    }
  }

  // ---- Hoisting ----------------------------------------------------------------------------------

  lemma {:induction false} EnvInWords(args: SExp)
    ensures WordHeads(EnvExpression(args))
  {
    if args.Cons? {
      EnvInWords(args.first);
      EnvInWords(args.rest);
      TwoInWords(Var(CONS_NAME), EnvExpression(args.first), EnvExpression(args.rest));
    }
  }

  lemma {:induction false} TwoInWords(head: BodyForm, a: BodyForm, b: BodyForm)
    requires IsWord(head) && WordHeads(a) && WordHeads(b)
    ensures WordHeads(Call([head, a, b], None))
  {
    assert [head, a, b][1..] == [a, b] && [a, b][1..] == [b] && [b][1..] == [];
    assert FormsInWords([b]);
  }

  lemma {:induction false} PassedInWords(outer: Option<SExp>)
    ensures WordHeads(PassEnv(outer))
  {
    match outer
    case None => assert WHOLE_ARGS.forms[1..] == [Var(AT_ENV)] && [Var(AT_ENV)][1..] == [];
    case Some(args) => EnvInWords(args);
  }

  lemma {:induction false} LambdaCodeInWords(name: bytes, captures: BodyForm)
    requires WordHeads(captures)
    ensures WordHeads(LambdaCodegen(name, captures))
  {
    LambdaCodegenParts(name, captures);
    var quoted := MakeCons(LITERAL_ONE, Quoted(Nil));
    TwoInWords(Var([4]), LITERAL_ONE, captures);
    TwoInWords(Var([4]), LITERAL_ONE, Quoted(Nil));
    TwoInWords(Var([4]), MakeCons(LITERAL_ONE, captures), quoted);
    var inner := MakeCons(LITERAL_CONS, MakeCons(MakeCons(LITERAL_ONE, captures), quoted));
    TwoInWords(Var([4]), LITERAL_CONS, MakeCons(MakeCons(LITERAL_ONE, captures), quoted));
    TwoInWords(Var([4]), inner, Quoted(Nil));
    TwoInWords(Var([4]), LITERAL_ONE, Var(name));
    TwoInWords(Var([4]), MakeCons(LITERAL_ONE, Var(name)), MakeCons(inner, Quoted(Nil)));
    TwoInWords(Var([4]), LITERAL_APPLY, MakeCons(MakeCons(LITERAL_ONE, Var(name)), MakeCons(inner, Quoted(Nil))));
  }

  lemma {:induction false} HoistingKeepsWords(outer: Option<SExp>, args: SExp, e: BodyForm, count: nat)
    requires WordHeads(e) && HoistBody(outer, args, e, count).Some?
    ensures var h := HoistBody(outer, args, e, count).value; WordHeads(h.body) && DefunsInWords(h.helpers)
    decreases Weight(e), 1
  {
    match e
    case Let(Sequential, inlined, bs, inner) =>
      if bs != [] {
        OneBindingWeight(bs);
        assert BodyInWords(bs[0]) && [bs[0]][1..] == [] && BindingsInWords([bs[0]]);
        HoistedLetInWords(outer, args, inlined, [bs[0]], AfterFirst(inlined, bs, inner), count);
      }
    case Let(Parallel, inlined, bs, inner) => HoistedLetInWords(outer, args, inlined, bs, inner, count);
    case Let(Assign, inlined, bs, inner) =>
      HoistedAssignIsLighter(inlined, bs, inner);
      HoistedAssignInWords(inlined, bs, inner);
      HoistingKeepsWords(outer, args, HoistAssign(inlined, bs, inner).value, count);
    case Call(forms, tail) => HoistedCallInWords(outer, args, forms, tail, count);
    case Lambda(captureArgs, lambdaArgs, captures, body) =>
      var functionArgs := Cons(captureArgs, lambdaArgs);
      HoistingKeepsWords(Some(functionArgs), functionArgs, body, count + 1);
      LambdaCodeInWords(Gensym(LAMBDA_NAME, count), captures);
    case _ =>
  }

  lemma {:induction false} HoistedCallInWords(outer: Option<SExp>, args: SExp, forms: seq<BodyForm>, tail: Option<BodyForm>, count: nat)
    requires WordHeads(Call(forms, tail)) && HoistBody(outer, args, Call(forms, tail), count).Some?
    ensures var h := HoistBody(outer, args, Call(forms, tail), count).value; WordHeads(h.body) && DefunsInWords(h.helpers)
    decreases Weight(Call(forms, tail)), 0
  {
    WeightParts(Call(forms, tail));
    HoistedFormsInWords(outer, args, forms[1..], count);
    var f := HoistForms(outer, args, forms[1..], count).value;
    if tail.Some? {
      HoistingKeepsWords(outer, args, tail.value, f.next);
    }
    CallInWords(forms[0], f.body, HoistTail(outer, args, tail, f.next).value.body);
  }

  lemma {:induction false} HoistedLetInWords(outer: Option<SExp>, args: SExp, inlined: bool, bs: seq<Binding>, inner: BodyForm, count: nat)
    requires BindingsInWords(bs) && WordHeads(inner) && HoistLet(outer, args, inlined, bs, inner, count).Some?
    ensures var h := HoistLet(outer, args, inlined, bs, inner, count).value; WordHeads(h.body) && DefunsInWords(h.helpers)
    decreases BindingsWeight(bs, 1), 3
  {
    HoistedBindingsInWords(outer, args, bs, count + 1);
    var h := HoistBindings(outer, args, bs, count + 1).value;
    LetCallInWords(Gensym(LETBINDING_NAME, count), outer, h.body);
  }

  lemma {:induction false} LetCallInWords(name: bytes, outer: Option<SExp>, bodies: seq<BodyForm>)
    requires FormsInWords(bodies)
    ensures WordHeads(Call([Var(name), PassEnv(outer)] + bodies, None))
  {
    PassedInWords(outer);
    assert ([PassEnv(outer)] + bodies)[1..] == bodies;
    assert [Var(name), PassEnv(outer)] + bodies == [Var(name)] + ([PassEnv(outer)] + bodies);
    CallInWords(Var(name), [PassEnv(outer)] + bodies, None);
  }

  lemma {:induction false} HoistedBindingsInWords(outer: Option<SExp>, args: SExp, bs: seq<Binding>, count: nat)
    requires BindingsInWords(bs) && HoistBindings(outer, args, bs, count).Some?
    ensures var h := HoistBindings(outer, args, bs, count).value; FormsInWords(h.body) && DefunsInWords(h.helpers)
    decreases BindingsWeight(bs, 1), 2
  {
    if bs != [] {
      BindingParts(bs, 1);
      assert BodyInWords(bs[0]);
      HoistingKeepsWords(outer, args, bs[0].body, count);
      var f := HoistBody(outer, args, bs[0].body, count).value;
      HoistedBindingsInWords(outer, args, bs[1..], f.next);
      assert ([f.body] + HoistBindings(outer, args, bs[1..], f.next).value.body)[1..] == HoistBindings(outer, args, bs[1..], f.next).value.body;
    }
  }

  lemma {:induction false} HoistedFormsInWords(outer: Option<SExp>, args: SExp, forms: seq<BodyForm>, count: nat)
    requires FormsInWords(forms) && HoistForms(outer, args, forms, count).Some?
    ensures var h := HoistForms(outer, args, forms, count).value; FormsInWords(h.body) && DefunsInWords(h.helpers)
    decreases FormsWeight(forms), 2
  {
    if forms != [] {
      HoistingKeepsWords(outer, args, forms[0], count);
      var f := HoistBody(outer, args, forms[0], count).value;
      HoistedFormsInWords(outer, args, forms[1..], f.next);
      assert ([f.body] + HoistForms(outer, args, forms[1..], f.next).value.body)[1..] == HoistForms(outer, args, forms[1..], f.next).value.body;
    }
  }

  lemma {:induction false} ProcessedInWords(todo: seq<Defun>, count: nat)
    requires DefunsInWords(todo) && ProcessHelpers(todo, count).Some?
    ensures DefunsInWords(ProcessHelpers(todo, count).value.defuns)
    decreases HelpersCount(todo)
  {
    if todo != [] {
      var f := todo[0];
      assert f in todo && DefunInWords(f);
      var h := HoistDefun(f, count).value;
      HoistShrinks(Context(f), f.args, f.body, count);
      HelpersCountBoth(h.helpers, todo[1..]);
      HoistingKeepsWords(Context(f), f.args, f.body, count);
      ProcessedInWords(h.helpers + todo[1..], h.next);
    }
  }

  // ---- Programs ----------------------------------------------------------------------------------

  /** From a program as the frontend makes it to the one that code is generated for, every call is headed
      by a word. */
  lemma {:induction false} CompiledInWords(hintless: bool, src: Source, count: nat)
    requires DefunsInWords(src.defuns) && WordHeads(src.main)
    requires var r := RenameChildren(hintless, src, count); Desugar(r.value, r.next).Some?
    ensures var r := RenameChildren(hintless, src, count);
            var out := Desugar(r.value, r.next).value; DefunsInWords(out.defuns) && WordHeads(out.main)
  {
    var r := RenameChildren(hintless, src, count);
    RenamedDefunsInWords(hintless, src.defuns, count);
    RenamingKeepsWords(hintless, src.main, RenameDefuns(hintless, src.defuns, count).next);
    HoistingKeepsWords(None, src.args, r.value.main, r.next);
    var h := HoistBody(None, src.args, r.value.main, r.next).value;
    ProcessedInWords(r.value.defuns + h.helpers, h.next);
  }
}
