/** After hoisting, no let and no lambda is left anywhere, and the new functions have new names. */
module HoistingComplete {
  import opened Numbers
  import opened SExpressions
  import opened Syntax
  import opened AssignForms
  import opened AssignWeight
  import opened Gensyms
  import opened Inlining
  import opened Lambdas
  import opened Hoisting

  // ---- Nothing left ----------------------------------------------------------------------------

  predicate LetFree(e: BodyForm) {
    match e
    case Let(_, _, _, _) => false
    case Lambda(_, _, _, _) => false
    case Call(forms, tail) => AllLetFree(forms) && (tail.Some? ==> LetFree(tail.value))
    case _ => true
  }

  predicate AllLetFree(forms: seq<BodyForm>) { forms == [] || (LetFree(forms[0]) && AllLetFree(forms[1..])) }

  /** What `passes` passes of hoisting free of lets.  An empty sequential let is replaced by its body as
      it stands, and captures are left as they are, so that both need to be clean one pass earlier; call
      heads are not looked into.  A let's body moves into a function, which is passed once; a lambda's
      body is passed before it moves and once more after it. */
  predicate Clean(passes: nat, e: BodyForm)
    decreases Weight(e), 1
  {
    if passes == 0 then LetFree(e)
    else
      match e
      case Let(Sequential, inlined, bs, inner) =>
        if bs == [] then Clean(passes - 1, inner)
        else
          BindingParts(bs, 1);
          Clean(passes, bs[0].body) && Clean(1, AfterFirst(inlined, bs, inner))
      case Let(Parallel, _, bs, inner) => BindingsClean(passes, bs) && Clean(1, inner)
      case Let(Assign, inlined, bs, inner) =>
        HoistAssign(inlined, bs, inner) == None
        || (HoistedAssignIsLighter(inlined, bs, inner); Clean(passes, HoistAssign(inlined, bs, inner).value))
      case Call(forms, tail) =>
        WeightParts(e);
        forms != [] ==> LetFree(forms[0]) && FormsClean(passes, forms[1..]) && (tail.Some? ==> Clean(passes, tail.value))
      case Lambda(_, _, captures, body) => Clean(passes - 1, captures) && Clean(2, body)
      case _ => true
  }

  predicate BindingsClean(passes: nat, bs: seq<Binding>)
    decreases BindingsWeight(bs, 1), 2
  {
    bs == [] || (BindingParts(bs, 1); Clean(passes, bs[0].body) && BindingsClean(passes, bs[1..]))
  }

  predicate FormsClean(passes: nat, forms: seq<BodyForm>)
    decreases FormsWeight(forms), 2
  {
    forms == [] || (Clean(passes, forms[0]) && FormsClean(passes, forms[1..]))
  }

  predicate DefunsClean(ds: seq<Defun>) { ds == [] || (Clean(1, ds[0].body) && DefunsClean(ds[1..])) }

  predicate DefunsLetFree(ds: seq<Defun>) { ds == [] || (LetFree(ds[0].body) && DefunsLetFree(ds[1..])) }

  lemma {:induction false} LetFreeIsClean(passes: nat, e: BodyForm)
    requires LetFree(e)
    ensures Clean(passes, e)
    decreases Weight(e), 1
  {
    if e.Call? && e.forms != [] {
      WeightParts(e);
      AllLetFreeIsClean(passes, e.forms[1..]);
      if e.tail.Some? {
        LetFreeIsClean(passes, e.tail.value);
      }
      assert [e.forms[0]] + e.forms[1..] == e.forms;
      CallClean(passes, e.forms[0], e.forms[1..], e.tail);
    }
  }

  lemma {:induction false} AllLetFreeIsClean(passes: nat, forms: seq<BodyForm>)
    requires AllLetFree(forms)
    ensures FormsClean(passes, forms)
    decreases FormsWeight(forms), 2
  {
    if forms != [] {
      LetFreeIsClean(passes, forms[0]);
      AllLetFreeIsClean(passes, forms[1..]);
    }
  }

  lemma {:induction false} NoPassNeeded(forms: seq<BodyForm>)
    ensures FormsClean(0, forms) <==> AllLetFree(forms)
  {
    if forms != [] {
      NoPassNeeded(forms[1..]);
    }
  }

  lemma {:induction false} CallClean(passes: nat, head: BodyForm, args: seq<BodyForm>, tail: Option<BodyForm>)
    ensures Clean(passes, Call([head] + args, tail)) <==>
            LetFree(head) && FormsClean(passes, args) && (tail.Some? ==> Clean(passes, tail.value))
  {
    var e := Call([head] + args, tail);
    assert e.forms[0] == head && e.forms[1..] == args;
    NoPassNeeded(args);
    if passes == 0 {
      assert AllLetFree(e.forms) <==> LetFree(head) && AllLetFree(args);
    }
  }

  lemma {:induction false} TwoClean(passes: nat, a: BodyForm, b: BodyForm)
    ensures FormsClean(passes, [a, b]) <==> Clean(passes, a) && Clean(passes, b)
  {
    assert [a, b][1..] == [b] && [b][1..] == [];
    assert FormsClean(passes, [b]) <==> Clean(passes, b);
  }

  lemma {:induction false} ConsFormClean(passes: nat, head: BodyForm, a: BodyForm, b: BodyForm)
    requires LetFree(head)
    ensures Clean(passes, Call([head, a, b], None)) <==> Clean(passes, a) && Clean(passes, b)
  {
    assert [head] + [a, b] == [head, a, b];
    CallClean(passes, head, [a, b], None);
    TwoClean(passes, a, b);
  }

  lemma {:induction false} DefunsCleanBoth(a: seq<Defun>, b: seq<Defun>)
    ensures DefunsClean(a + b) <==> DefunsClean(a) && DefunsClean(b)
  {
    if a == [] {
      assert a + b == b;
    } else {
      assert (a + b)[1..] == a[1..] + b;
      DefunsCleanBoth(a[1..], b);
    }
  }

  lemma {:induction false} OneDefunClean(f: Defun)
    ensures DefunsClean([f]) <==> Clean(1, f.body)
  {
    assert [f][1..] == [];
  }

  lemma {:induction false} EnvExpressionClean(passes: nat, args: SExp)
    ensures Clean(passes, EnvExpression(args))
  {
    if args.Cons? {
      EnvExpressionClean(passes, args.first);
      EnvExpressionClean(passes, args.rest);
      ConsFormClean(passes, Var(CONS_NAME), EnvExpression(args.first), EnvExpression(args.rest));
    }
  }

  lemma {:induction false} PassEnvClean(passes: nat, outer: Option<SExp>)
    ensures Clean(passes, PassEnv(outer))
  {
    if outer.Some? {
      EnvExpressionClean(passes, outer.value);
    } else {
      assert [Var(REST_NAME)] + [Var(AT_ENV)] == WHOLE_ARGS.forms;
      CallClean(passes, Var(REST_NAME), [Var(AT_ENV)], None);
      assert [Var(AT_ENV)][1..] == [];
      assert FormsClean(passes, [Var(AT_ENV)]);
    }
  }

  lemma {:induction false} MakeConsClean(passes: nat, a: BodyForm, b: BodyForm)
    ensures Clean(passes, MakeCons(a, b)) <==> Clean(passes, a) && Clean(passes, b)
  {
    ConsFormClean(passes, Var([4]), a, b);
  }

  lemma {:induction false} LambdaCodegenClean(passes: nat, name: bytes, captures: BodyForm)
    ensures Clean(passes, LambdaCodegen(name, captures)) <==> Clean(passes, captures)
  {
    LambdaCodegenParts(name, captures);
    MakeConsClean(passes, LITERAL_ONE, captures);
    MakeConsClean(passes, LITERAL_ONE, Var(name));
    MakeConsClean(passes, LITERAL_ONE, Quoted(Nil));
    var pair := MakeCons(MakeCons(LITERAL_ONE, captures), MakeCons(LITERAL_ONE, Quoted(Nil)));
    MakeConsClean(passes, MakeCons(LITERAL_ONE, captures), MakeCons(LITERAL_ONE, Quoted(Nil)));
    var inner := MakeCons(LITERAL_CONS, pair);
    MakeConsClean(passes, LITERAL_CONS, pair);
    MakeConsClean(passes, inner, Quoted(Nil));
    MakeConsClean(passes, MakeCons(LITERAL_ONE, Var(name)), MakeCons(inner, Quoted(Nil)));
    MakeConsClean(passes, LITERAL_APPLY, MakeCons(MakeCons(LITERAL_ONE, Var(name)), MakeCons(inner, Quoted(Nil))));
  }

  /** One pass of hoisting: an expression is clean exactly when what is left of it is, with one pass
      less, and what was hoisted out of it is. */
  lemma {:induction false} HoistCleans(passes: nat, outer: Option<SExp>, args: SExp, e: BodyForm, count: nat)
    requires HoistBody(outer, args, e, count).Some?
    ensures var h := HoistBody(outer, args, e, count).value;
            Clean(passes + 1, e) <==> Clean(passes, h.body) && DefunsClean(h.helpers)
    decreases Weight(e), 1
  {
    match e
    case Let(Sequential, inlined, bs, inner) =>
      if bs != [] {
        OneBindingWeight(bs);
        BindingParts(bs, 1);
        BindingParts([bs[0]], 1);
        assert [bs[0]][1..] == [];
        assert BindingsClean(passes + 1, [bs[0]]) <==> Clean(passes + 1, bs[0].body);
        HoistLetCleans(passes, outer, args, inlined, [bs[0]], AfterFirst(inlined, bs, inner), count);
      }
    case Let(Parallel, inlined, bs, inner) => HoistLetCleans(passes, outer, args, inlined, bs, inner, count);
    case Let(Assign, inlined, bs, inner) =>
      HoistedAssignIsLighter(inlined, bs, inner);
      HoistCleans(passes, outer, args, HoistAssign(inlined, bs, inner).value, count);
    case Call(forms, tail) => HoistCallCleans(passes, outer, args, forms, tail, count);
    case Lambda(captureArgs, lambdaArgs, captures, body) =>
      var functionArgs := Cons(captureArgs, lambdaArgs);
      HoistCleans(1, Some(functionArgs), functionArgs, body, count + 1);
      var h := HoistBody(Some(functionArgs), functionArgs, body, count + 1).value;
      var f := Defun(Gensym(LAMBDA_NAME, count), false, functionArgs, h.body);
      OneDefunClean(f);
      DefunsCleanBoth(h.helpers, [f]);
      LambdaCodegenClean(passes, f.name, captures);
    case _ => LetFreeIsClean(passes, e);
  }

  lemma {:induction false} HoistCallCleans(passes: nat, outer: Option<SExp>, args: SExp, forms: seq<BodyForm>,
                                           tail: Option<BodyForm>, count: nat)
    requires HoistBody(outer, args, Call(forms, tail), count).Some?
    ensures var h := HoistBody(outer, args, Call(forms, tail), count).value;
            Clean(passes + 1, Call(forms, tail)) <==> Clean(passes, h.body) && DefunsClean(h.helpers)
    decreases Weight(Call(forms, tail)), 0
  {
    WeightParts(Call(forms, tail));
    HoistFormsClean(passes, outer, args, forms[1..], count);
    var f := HoistForms(outer, args, forms[1..], count).value;
    if tail.Some? {
      HoistCleans(passes, outer, args, tail.value, f.next);
    }
    var t := HoistTail(outer, args, tail, f.next).value;
    DefunsCleanBoth(f.helpers, t.helpers);
    CallClean(passes, forms[0], f.body, t.body);
  }

  lemma {:induction false} HoistLetCleans(passes: nat, outer: Option<SExp>, args: SExp, inlined: bool, bs: seq<Binding>,
                                          inner: BodyForm, count: nat)
    requires HoistLet(outer, args, inlined, bs, inner, count).Some?
    ensures var h := HoistLet(outer, args, inlined, bs, inner, count).value;
            BindingsClean(passes + 1, bs) && Clean(1, inner) <==> Clean(passes, h.body) && DefunsClean(h.helpers)
    decreases BindingsWeight(bs, 1), 3
  {
    HoistBindingsClean(passes, outer, args, bs, count + 1);
    var h := HoistBindings(outer, args, bs, count + 1).value;
    var f := LetDefun(Gensym(LETBINDING_NAME, count), inlined, args, bs, inner);
    OneDefunClean(f);
    DefunsCleanBoth(h.helpers, [f]);
    PassEnvClean(passes, outer);
    var forms := [PassEnv(outer)] + h.body;
    assert forms[1..] == h.body && [Var(f.name)] + forms == [Var(f.name), PassEnv(outer)] + h.body;
    CallClean(passes, Var(f.name), forms, None);
  }

  lemma {:induction false} HoistBindingsClean(passes: nat, outer: Option<SExp>, args: SExp, bs: seq<Binding>, count: nat)
    requires HoistBindings(outer, args, bs, count).Some?
    ensures var h := HoistBindings(outer, args, bs, count).value;
            BindingsClean(passes + 1, bs) <==> FormsClean(passes, h.body) && DefunsClean(h.helpers)
    decreases BindingsWeight(bs, 1), 2
  {
    if bs != [] {
      BindingParts(bs, 1);
      HoistCleans(passes, outer, args, bs[0].body, count);
      var f := HoistBody(outer, args, bs[0].body, count).value;
      HoistBindingsClean(passes, outer, args, bs[1..], f.next);
      var h := HoistBindings(outer, args, bs[1..], f.next).value;
      DefunsCleanBoth(f.helpers, h.helpers);
      assert ([f.body] + h.body)[1..] == h.body;
    }
  }

  lemma {:induction false} HoistFormsClean(passes: nat, outer: Option<SExp>, args: SExp, forms: seq<BodyForm>, count: nat)
    requires HoistForms(outer, args, forms, count).Some?
    ensures var h := HoistForms(outer, args, forms, count).value;
            FormsClean(passes + 1, forms) <==> FormsClean(passes, h.body) && DefunsClean(h.helpers)
    decreases FormsWeight(forms), 2
  {
    if forms != [] {
      HoistCleans(passes, outer, args, forms[0], count);
      var f := HoistBody(outer, args, forms[0], count).value;
      HoistFormsClean(passes, outer, args, forms[1..], f.next);
      var h := HoistForms(outer, args, forms[1..], f.next).value;
      DefunsCleanBoth(f.helpers, h.helpers);
      assert ([f.body] + h.body)[1..] == h.body;
    }
  }

  /** After the worklist no function's body holds a let or a lambda exactly when all of them were clean
      before it. */
  lemma {:induction false} ProcessingLeavesNone(todo: seq<Defun>, count: nat)
    requires ProcessHelpers(todo, count).Some?
    ensures DefunsLetFree(ProcessHelpers(todo, count).value.defuns) <==> DefunsClean(todo)
    decreases HelpersCount(todo)
  {
    if todo != [] {
      var f := todo[0];
      HoistCleans(0, Context(f), f.args, f.body, count);
      var h := HoistDefun(f, count).value;
      HoistShrinks(Context(f), f.args, f.body, count);
      HelpersCountBoth(h.helpers, todo[1..]);
      DefunsCleanBoth(h.helpers, todo[1..]);
      ProcessingLeavesNone(h.helpers + todo[1..], h.next);
      var p := ProcessHelpers(h.helpers + todo[1..], h.next).value;
      assert ([f.(body := h.body)] + p.defuns)[1..] == p.defuns;
    }
  }

  /** Hoisting an expression and then everything hoisted out of it leaves no let and no lambda exactly
      when the expression is clean. */
  lemma {:induction false} HoistLeavesNone(outer: Option<SExp>, args: SExp, e: BodyForm, count: nat)
    requires HoistBody(outer, args, e, count).Some?
    requires ProcessHelpers(HoistBody(outer, args, e, count).value.helpers, HoistBody(outer, args, e, count).value.next).Some?
    ensures var h := HoistBody(outer, args, e, count).value;
            LetFree(h.body) && DefunsLetFree(ProcessHelpers(h.helpers, h.next).value.defuns) <==> Clean(1, e)
  {
    var h := HoistBody(outer, args, e, count).value;
    HoistCleans(0, outer, args, e, count);
    ProcessingLeavesNone(h.helpers, h.next);
  }

  /** An empty let* is where lets survive: (let* () inner) is clean exactly when inner holds none. */
  lemma {:induction false} EmptyLetStarSurvives(outer: Option<SExp>, args: SExp, inlined: bool, inner: BodyForm, count: nat)
    ensures var h := HoistBody(outer, args, Let(Sequential, inlined, [], inner), count);
            h.Some? && ProcessHelpers(h.value.helpers, h.value.next).Some?
            && (LetFree(h.value.body) && DefunsLetFree(ProcessHelpers(h.value.helpers, h.value.next).value.defuns) <==> LetFree(inner))
  {
    HoistLeavesNone(outer, args, Let(Sequential, inlined, [], inner), count);
  }
}
