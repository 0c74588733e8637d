/** Turning lets and lambdas into functions: `hoist_body_let_binding` and
    `process_helper_let_bindings`. */
module Hoisting {
  import opened Numbers
  import opened SExpressions
  import opened Syntax
  import opened AssignForms
  import opened AssignWeight
  import opened Gensyms
  import opened Inlining
  import opened Lambdas

  const LETBINDING_NAME: bytes := [108, 101, 116, 98, 105, 110, 100, 105, 110, 103]   // "letbinding"

  /** `create_let_env_expression`: the argument pattern read as an expression for its value. */
  function EnvExpression(args: SExp): BodyForm {
    match args
    case Cons(a, b) => Call([Var(CONS_NAME), EnvExpression(a), EnvExpression(b)], None)
    case _ => Value(args)
  }

  /** `(r @*env*)`: the arguments a function was called with. */
  const WHOLE_ARGS: BodyForm := Call([Var(REST_NAME), Var(AT_ENV)], None)

  /** How a hoisted function is passed the arguments around it. */
  function PassEnv(outer: Option<SExp>): BodyForm {
    match outer case None => WHOLE_ARGS case Some(args) => EnvExpression(args)
  }

  /** The functions a body turned into, and what is left of the body; `next` is the gensym counter
      afterwards. */
  datatype Hoist<T> = Hoist(helpers: seq<Defun>, body: T, next: nat)

  /** `generate_let_defun`. */
  function LetDefun(name: bytes, inlined: bool, args: SExp, bs: seq<Binding>, body: BodyForm): Defun {
    Defun(name, inlined, Cons(args, PatternList(bs)), body)
  }

  /** What a sequential let leaves after its first binding. */
  function AfterFirst(inlined: bool, bs: seq<Binding>, inner: BodyForm): BodyForm
    requires bs != []
  {
    if |bs| == 1 then inner else Let(Sequential, inlined, bs[1..], inner)
  }

  lemma {:induction false} OneBindingWeight(bs: seq<Binding>)
    requires bs != []
    ensures BindingsWeight([bs[0]], 1) <= BindingsWeight(bs, 1)
  {
    BindingParts(bs, 1);
    BindingParts([bs[0]], 1);
    assert [bs[0]][1..] == [];
  }

  /** `hoist_body_let_binding`; None for an assign form that cannot be ordered or is empty, and for
      a call without a head. */
  function HoistBody(outer: Option<SExp>, args: SExp, e: BodyForm, count: nat): (r: Option<Hoist<BodyForm>>)
    decreases Weight(e), 1
  {
    match e
    case Let(Sequential, inlined, bs, inner) =>
      if bs == [] then Some(Hoist([], inner, count))
      else
        OneBindingWeight(bs);
        HoistLet(outer, args, inlined, [bs[0]], AfterFirst(inlined, bs, inner), count)
    case Let(Parallel, inlined, bs, inner) => HoistLet(outer, args, inlined, bs, inner, count)
    case Let(Assign, inlined, bs, inner) =>
      if bs == [] || HoistAssign(inlined, bs, inner) == None then None
      else
        HoistedAssignIsLighter(inlined, bs, inner);
        HoistBody(outer, args, HoistAssign(inlined, bs, inner).value, count)
    case Call(forms, tail) =>
      if forms == [] then None
      else
        WeightParts(e);
        (match HoistForms(outer, args, forms[1..], count)
         case None => None
         case Some(f) =>
           match HoistTail(outer, args, tail, f.next)
           case None => None
           case Some(t) => Some(Hoist(f.helpers + t.helpers, Call([forms[0]] + f.body, t.body), t.next)))
    case Lambda(captureArgs, lambdaArgs, captures, body) =>
      var functionArgs := Cons(captureArgs, lambdaArgs);
      var name := Gensym(LAMBDA_NAME, count);
      (match HoistBody(Some(functionArgs), functionArgs, body, count + 1)
       case None => None
       case Some(h) =>
         Some(Hoist(h.helpers + [Defun(name, false, functionArgs, h.body)], LambdaCodegen(name, captures), h.next)))
    case _ => Some(Hoist([], e, count))
  }

  /** A parallel let becomes a call of a new function with the arguments around it and the values
      bound; the let's body is not looked into. */
  function HoistLet(outer: Option<SExp>, args: SExp, inlined: bool, bs: seq<Binding>, inner: BodyForm, count: nat)
    : (r: Option<Hoist<BodyForm>>)
    decreases BindingsWeight(bs, 1), 3
  {
    var name := Gensym(LETBINDING_NAME, count);
    match HoistBindings(outer, args, bs, count + 1)
    case None => None
    case Some(h) =>
      Some(Hoist(h.helpers + [LetDefun(name, inlined, args, bs, inner)], Call([Var(name), PassEnv(outer)] + h.body, None),
                 h.next))
  }

  function HoistBindings(outer: Option<SExp>, args: SExp, bs: seq<Binding>, count: nat): (r: Option<Hoist<seq<BodyForm>>>)
    decreases BindingsWeight(bs, 1), 2
  {
    if bs == [] then Some(Hoist([], [], count))
    else
      BindingParts(bs, 1);
      match HoistBody(outer, args, bs[0].body, count)
      case None => None
      case Some(f) =>
        match HoistBindings(outer, args, bs[1..], f.next)
        case None => None
        case Some(h) => Some(Hoist(f.helpers + h.helpers, [f.body] + h.body, h.next))
  }

  function HoistForms(outer: Option<SExp>, args: SExp, forms: seq<BodyForm>, count: nat): (r: Option<Hoist<seq<BodyForm>>>)
    decreases FormsWeight(forms), 2
  {
    if forms == [] then Some(Hoist([], [], count))
    else
      match HoistBody(outer, args, forms[0], count)
      case None => None
      case Some(f) =>
        match HoistForms(outer, args, forms[1..], f.next)
        case None => None
        case Some(h) => Some(Hoist(f.helpers + h.helpers, [f.body] + h.body, h.next))
  }

  function HoistTail(outer: Option<SExp>, args: SExp, tail: Option<BodyForm>, count: nat)
    : (r: Option<Hoist<Option<BodyForm>>>)
    decreases TailWeight(tail), 2
  {
    match tail
    case None => Some(Hoist([], None, count))
    case Some(t) =>
      match HoistBody(outer, args, t, count)
      case None => None
      case Some(h) => Some(Hoist(h.helpers, Some(h.body), h.next))
  }

  // ---- How much there is to hoist --------------------------------------------------------------

  /** How many functions an expression can turn into, counting those that come out of them. */
  function Count(e: BodyForm): nat
    decreases Weight(e), 1
  {
    match e
    case Let(Sequential, _, bs, inner) => |bs| + BindingsCount(bs) + Count(inner)
    case Let(Parallel, _, bs, inner) => 1 + BindingsCount(bs) + Count(inner)
    case Let(Assign, inlined, bs, inner) =>
      if HoistAssign(inlined, bs, inner) == None then 0
      else
        HoistedAssignIsLighter(inlined, bs, inner);
        Count(HoistAssign(inlined, bs, inner).value)
    case Call(forms, tail) =>
      WeightParts(e);
      FormsCount(forms) + TailCount(tail)
    case Lambda(_, _, captures, body) => 1 + Count(captures) + Count(body)
    case _ => 0
  }

  function BindingsCount(bs: seq<Binding>): nat
    decreases BindingsWeight(bs, 1), 2
  {
    if bs == [] then 0
    else
      BindingParts(bs, 1);
      Count(bs[0].body) + BindingsCount(bs[1..])
  }

  function FormsCount(forms: seq<BodyForm>): nat
    decreases FormsWeight(forms), 2
  {
    if forms == [] then 0 else Count(forms[0]) + FormsCount(forms[1..])
  }

  function TailCount(tail: Option<BodyForm>): nat
    decreases TailWeight(tail), 2
  {
    match tail case None => 0 case Some(t) => Count(t)
  }

  function HelpersCount(hs: seq<Defun>): nat {
    if hs == [] then 0 else 1 + Count(hs[0].body) + HelpersCount(hs[1..])
  }

  lemma {:induction false} HelpersCountBoth(a: seq<Defun>, b: seq<Defun>)
    ensures HelpersCount(a + b) == HelpersCount(a) + HelpersCount(b)
  {
    if a == [] {
      assert a + b == b;
    } else {
      assert (a + b)[1..] == a[1..] + b;
      HelpersCountBoth(a[1..], b);
    }
  }

  lemma {:induction false} OneHelper(h: Defun)
    ensures HelpersCount([h]) == 1 + Count(h.body)
  {
    assert [h][1..] == [];
  }

  lemma {:induction false} TwoForms(head: BodyForm, a: BodyForm, rest: seq<BodyForm>)
    ensures FormsCount([head, a] + rest) == Count(head) + Count(a) + FormsCount(rest)
  {
    assert ([head, a] + rest)[1..] == [a] + rest && ([a] + rest)[1..] == rest;
  }

  lemma {:induction false} EnvExpressionCount(args: SExp)
    ensures Count(EnvExpression(args)) == 0
  {
    if args.Cons? {
      EnvExpressionCount(args.first);
      EnvExpressionCount(args.rest);
      TwoForms(Var(CONS_NAME), EnvExpression(args.first), [EnvExpression(args.rest)]);
      OneForm(EnvExpression(args.rest));
      assert [Var(CONS_NAME), EnvExpression(args.first)] + [EnvExpression(args.rest)] == EnvExpression(args).forms;
    }
  }

  lemma {:induction false} OneForm(e: BodyForm)
    ensures FormsCount([e]) == Count(e)
  {
    assert [e][1..] == [];
    assert FormsCount([e]) == Count(e) + FormsCount([e][1..]);
  }

  lemma {:induction false} PassEnvCount(outer: Option<SExp>)
    ensures Count(PassEnv(outer)) == 0
  {
    match outer
    case None =>
      assert WHOLE_ARGS.forms == [Var(REST_NAME), Var(AT_ENV)] + [];
      TwoForms(Var(REST_NAME), Var(AT_ENV), []);
    case Some(args) => EnvExpressionCount(args);
  }

  lemma {:induction false} MakeConsCount(a: BodyForm, b: BodyForm)
    ensures Count(MakeCons(a, b)) == Count(a) + Count(b)
  {
    assert [Var([4]), a] + [b] == [Var([4]), a, b];
    TwoForms(Var([4]), a, [b]);
    OneForm(b);
  }

  lemma {:induction false} LambdaCodegenCount(name: bytes, captures: BodyForm)
    ensures Count(LambdaCodegen(name, captures)) == Count(captures)
  {
    MakeConsCount(LITERAL_ONE, captures);
    MakeConsCount(LITERAL_ONE, Var(name));
    MakeConsCount(LITERAL_ONE, Quoted(Nil));
    MakeConsCount(MakeCons(LITERAL_ONE, captures), MakeCons(LITERAL_ONE, Quoted(Nil)));
    MakeConsCount(LITERAL_CONS, MakeCons(MakeCons(LITERAL_ONE, captures), MakeCons(LITERAL_ONE, Quoted(Nil))));
    var inner := MakeCons(LITERAL_CONS, MakeCons(MakeCons(LITERAL_ONE, captures), MakeCons(LITERAL_ONE, Quoted(Nil))));
    MakeConsCount(inner, Quoted(Nil));
    MakeConsCount(MakeCons(LITERAL_ONE, Var(name)), MakeCons(inner, Quoted(Nil)));
    MakeConsCount(LITERAL_APPLY, MakeCons(MakeCons(LITERAL_ONE, Var(name)), MakeCons(inner, Quoted(Nil))));
    LambdaCodegenParts(name, captures);
  }

  /** Hoisting moves work from an expression into functions and leaves less of it. */
  lemma {:induction false} HoistShrinks(outer: Option<SExp>, args: SExp, e: BodyForm, count: nat)
    requires HoistBody(outer, args, e, count).Some?
    ensures var h := HoistBody(outer, args, e, count).value;
            HelpersCount(h.helpers) + Count(h.body) <= Count(e)
    decreases Weight(e), 1
  {
    match e
    case Let(Sequential, inlined, bs, inner) =>
      if bs != [] {
        OneBindingWeight(bs);
        HoistLetShrinks(outer, args, inlined, [bs[0]], AfterFirst(inlined, bs, inner), count);
        FirstBindingCount(inlined, bs, inner);
      }
    case Let(Parallel, inlined, bs, inner) => HoistLetShrinks(outer, args, inlined, bs, inner, count);
    case Let(Assign, inlined, bs, inner) =>
      HoistedAssignIsLighter(inlined, bs, inner);
      HoistShrinks(outer, args, HoistAssign(inlined, bs, inner).value, count);
    case Call(forms, tail) => HoistCallShrinks(outer, args, forms, tail, count);
    case Lambda(captureArgs, lambdaArgs, captures, body) =>
      var functionArgs := Cons(captureArgs, lambdaArgs);
      HoistShrinks(Some(functionArgs), functionArgs, body, count + 1);
      LambdaShrinks(functionArgs, captures, body, count);
    case _ =>
  }

  lemma {:induction false} FirstBindingCount(inlined: bool, bs: seq<Binding>, inner: BodyForm)
    requires bs != []
    ensures 1 + BindingsCount([bs[0]]) + Count(AfterFirst(inlined, bs, inner)) == Count(Let(Sequential, inlined, bs, inner))
  {
    assert [bs[0]][1..] == [];
    assert BindingsCount([bs[0]]) == Count(bs[0].body) + BindingsCount([bs[0]][1..]);
    if |bs| == 1 {
      assert BindingsCount(bs[1..]) == 0;
    }
  }

  lemma {:induction false} LambdaShrinks(functionArgs: SExp, captures: BodyForm, body: BodyForm, count: nat)
    requires HoistBody(Some(functionArgs), functionArgs, body, count + 1).Some?
    requires var h := HoistBody(Some(functionArgs), functionArgs, body, count + 1).value;
             HelpersCount(h.helpers) + Count(h.body) <= Count(body)
    ensures var h := HoistBody(Some(functionArgs), functionArgs, body, count + 1).value;
            var name := Gensym(LAMBDA_NAME, count);
            HelpersCount(h.helpers + [Defun(name, false, functionArgs, h.body)]) + Count(LambdaCodegen(name, captures))
            <= 1 + Count(captures) + Count(body)
  {
    var h := HoistBody(Some(functionArgs), functionArgs, body, count + 1).value;
    var f := Defun(Gensym(LAMBDA_NAME, count), false, functionArgs, h.body);
    HelpersCountBoth(h.helpers, [f]);
    OneHelper(f);
    LambdaCodegenCount(f.name, captures);
  }

  lemma {:induction false} HoistCallShrinks(outer: Option<SExp>, args: SExp, forms: seq<BodyForm>, tail: Option<BodyForm>, count: nat)
    requires HoistBody(outer, args, Call(forms, tail), count).Some?
    ensures var h := HoistBody(outer, args, Call(forms, tail), count).value;
            HelpersCount(h.helpers) + Count(h.body) <= Count(Call(forms, tail))
    decreases Weight(Call(forms, tail)), 0
  {
    WeightParts(Call(forms, tail));
    HoistFormsShrink(outer, args, forms[1..], count);
    var f := HoistForms(outer, args, forms[1..], count).value;
    if tail.Some? {
      HoistShrinks(outer, args, tail.value, f.next);
    }
    var t := HoistTail(outer, args, tail, f.next).value;
    HelpersCountBoth(f.helpers, t.helpers);
    assert ([forms[0]] + f.body)[1..] == f.body;
  }

  lemma {:induction false} HoistLetShrinks(outer: Option<SExp>, args: SExp, inlined: bool, bs: seq<Binding>,
                                           inner: BodyForm, count: nat)
    requires HoistLet(outer, args, inlined, bs, inner, count).Some?
    ensures var h := HoistLet(outer, args, inlined, bs, inner, count).value;
            HelpersCount(h.helpers) + Count(h.body) <= 1 + BindingsCount(bs) + Count(inner)
    decreases BindingsWeight(bs, 1), 3
  {
    HoistBindingsShrink(outer, args, bs, count + 1);
    var h := HoistBindings(outer, args, bs, count + 1).value;
    var f := LetDefun(Gensym(LETBINDING_NAME, count), inlined, args, bs, inner);
    HelpersCountBoth(h.helpers, [f]);
    OneHelper(f);
    PassEnvCount(outer);
    TwoForms(Var(f.name), PassEnv(outer), h.body);
  }

  lemma {:induction false} HoistBindingsShrink(outer: Option<SExp>, args: SExp, bs: seq<Binding>, count: nat)
    requires HoistBindings(outer, args, bs, count).Some?
    ensures var h := HoistBindings(outer, args, bs, count).value;
            HelpersCount(h.helpers) + FormsCount(h.body) <= BindingsCount(bs)
    decreases BindingsWeight(bs, 1), 2
  {
    if bs != [] {
      BindingParts(bs, 1);
      HoistShrinks(outer, args, bs[0].body, count);
      var f := HoistBody(outer, args, bs[0].body, count).value;
      HoistBindingsShrink(outer, args, bs[1..], f.next);
      var h := HoistBindings(outer, args, bs[1..], f.next).value;
      HelpersCountBoth(f.helpers, h.helpers);
      assert ([f.body] + h.body)[1..] == h.body;
    }
  }

  lemma {:induction false} HoistFormsShrink(outer: Option<SExp>, args: SExp, forms: seq<BodyForm>, count: nat)
    requires HoistForms(outer, args, forms, count).Some?
    ensures var h := HoistForms(outer, args, forms, count).value;
            HelpersCount(h.helpers) + FormsCount(h.body) <= FormsCount(forms)
    decreases FormsWeight(forms), 2
  {
    if forms != [] {
      HoistShrinks(outer, args, forms[0], count);
      var f := HoistBody(outer, args, forms[0], count).value;
      HoistFormsShrink(outer, args, forms[1..], f.next);
      var h := HoistForms(outer, args, forms[1..], f.next).value;
      HelpersCountBoth(f.helpers, h.helpers);
      assert ([f.body] + h.body)[1..] == h.body;
    }
  }

  // ---- The worklist ----------------------------------------------------------------------------

  /** The context a function's body is hoisted in. */
  function Context(f: Defun): Option<SExp> { if f.inline then Some(f.args) else None }

  function HoistDefun(f: Defun, count: nat): Option<Hoist<BodyForm>> { HoistBody(Context(f), f.args, f.body, count) }

  datatype Processed = Processed(defuns: seq<Defun>, next: nat)

  /** `process_helper_let_bindings`: functions hoisted out of a function are processed right after
      it. */
  function ProcessHelpers(todo: seq<Defun>, count: nat): (r: Option<Processed>)
    decreases HelpersCount(todo)
  {
    if todo == [] then Some(Processed([], count))
    else
      match HoistDefun(todo[0], count)
      case None => None
      case Some(h) =>
        HoistShrinks(Context(todo[0]), todo[0].args, todo[0].body, count);
        HelpersCountBoth(h.helpers, todo[1..]);
        match ProcessHelpers(h.helpers + todo[1..], h.next)
        case None => None
        case Some(p) => Some(Processed([todo[0].(body := h.body)] + p.defuns, p.next))
  }

  /** What is finished, put before what the rest becomes. */
  function Preceded(before: seq<Defun>, rest: Option<Processed>): (r: Option<Processed>) {
    match rest case None => None case Some(p) => Some(Processed(before + p.defuns, p.next))
  }

  /** One turn of the worklist. */
  lemma {:induction false} ProcessNext(before: seq<Defun>, todo: seq<Defun>, count: nat)
    requires todo != [] && HoistDefun(todo[0], count).Some?
    ensures var h := HoistDefun(todo[0], count).value;
            Preceded(before, ProcessHelpers(todo, count)) ==
            Preceded(before + [todo[0].(body := h.body)], ProcessHelpers(h.helpers + todo[1..], h.next))
            && HelpersCount(h.helpers + todo[1..]) < HelpersCount(todo)
  {
    var h := HoistDefun(todo[0], count).value;
    HoistShrinks(Context(todo[0]), todo[0].args, todo[0].body, count);
    HelpersCountBoth(h.helpers, todo[1..]);
    var rest := ProcessHelpers(h.helpers + todo[1..], h.next);
    if rest.Some? {
      assert before + ([todo[0].(body := h.body)] + rest.value.defuns) == (before + [todo[0].(body := h.body)]) + rest.value.defuns;
    }
  }

  /** The loop of `process_helper_let_bindings`, inserting while it scans. */
  method ProcessHelperLetBindings(helpers: seq<Defun>, counter: nat) returns (r: Option<Processed>)
    ensures r == ProcessHelpers(helpers, counter)
  {
    var result := helpers;
    var i, count := 0, counter;
    assert result[0..] == helpers && result[..0] == [];
    StartsEmpty(ProcessHelpers(helpers, counter));
    while i < |result|
      invariant i <= |result|
      invariant ProcessHelpers(helpers, counter) == Preceded(result[..i], ProcessHelpers(result[i..], count))
      decreases HelpersCount(result[i..])
    {
      var defun := result[i];
      var helperResult := HoistDefun(defun, count);
      if helperResult == None {
        return None;
      }
      ghost var todo, before := result[i..], result[..i];
      ProcessNext(before, todo, count);
      var hoisted := defun.(body := helperResult.value.body);
      result := result[..i] + [hoisted] + helperResult.value.helpers + result[i + 1..];
      i := i + 1;
      count := helperResult.value.next;
      assert result[i..] == helperResult.value.helpers + todo[1..];
      assert result[..i] == before + [hoisted];
    }
    assert result[i..] == [] && result[..i] + [] == result;
    return Some(Processed(result, count));
  }

  lemma {:induction false} StartsEmpty(r: Option<Processed>)
    ensures Preceded([], r) == r
  {
    if r.Some? {
      assert [] + r.value.defuns == r.value.defuns;
    }
  }
}
