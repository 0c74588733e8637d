/** Expansion of inline functions ends in a result or in a recursion error, and exactly when in which. */
module InliningEnds {
  import opened Numbers
  import opened SExpressions
  import opened Machine
  import opened Syntax
  import opened Semantics
  import opened Inlining
  import opened InliningSound

  /** How many arguments a parameter list takes one by one. */
  function Positional(params: SExp): nat { if params.Cons? then 1 + Positional(params.rest) else 0 }

  /** An expression that expansion can work on: no lets, calls of something that can be called, and calls
      of inline functions with an argument for each positional parameter; neither they nor path forms
      have a rest argument. */
  predicate Suitable(cg: Codegen, e: BodyForm) {
    match e
    case Let(_, _, _, _) => false
    case Lambda(_, _, captures, _) => Suitable(cg, captures)
    case Call(forms, tail) =>
      forms != [] && SuitableCall(cg, forms, tail) && AllSuitable(cg, forms[1..]) && (tail.Some? ==> Suitable(cg, tail.value))
    case _ => true
  }

  predicate AllSuitable(cg: Codegen, forms: seq<BodyForm>) { forms == [] || (Suitable(cg, forms[0]) && AllSuitable(cg, forms[1..])) }

  predicate SuitableCall(cg: Codegen, forms: seq<BodyForm>, tail: Option<BodyForm>)
    requires forms != []
  {
    (CallName(forms[0]) == Some(AT) || CallName(forms[0]) == Some(AT_ENV) ==> tail == None)
    && match GetInlineCallable(cg, forms[0])
       case None => false
       case Some(CallInline(next)) => tail == None && Positional(next.args) < |forms|
       case _ => true
  }

  predicate InlinesSuitable(cg: Codegen) { forall f :: f in cg.defuns && f.inline ==> Suitable(cg, f.body) }

  /** Following the inline calls written in an expression, and in what they call, meets one again that is
      being expanded. */
  predicate Reenters(cg: Codegen, visited: set<bytes>, e: BodyForm)
    decreases |Unvisited(cg.defuns, visited)|, Weight(e), 1
  {
    match e
    case Lambda(_, _, captures, _) =>
      WeightOfLambda(e);
      Reenters(cg, visited, captures)
    case Call(forms, tail) =>
      WeightParts(e);
      forms != [] && (AnyReenters(cg, visited, forms[1..]) || (tail.Some? && Reenters(cg, visited, tail.value)) || HeadReenters(cg, visited, forms[0]))
    case _ => false
  }

  predicate AnyReenters(cg: Codegen, visited: set<bytes>, forms: seq<BodyForm>)
    decreases |Unvisited(cg.defuns, visited)|, FormsWeight(forms), 2
  {
    forms != [] && (Reenters(cg, visited, forms[0]) || AnyReenters(cg, visited, forms[1..]))
  }

  predicate HeadReenters(cg: Codegen, visited: set<bytes>, head: BodyForm)
    decreases |Unvisited(cg.defuns, visited)|, 0, 0
  {
    match GetInlineCallable(cg, head)
    case Some(CallInline(next)) =>
      next.name in visited
      || (assert next.name in Unvisited(cg.defuns, visited);
          FewerUnvisited(cg.defuns, visited, next.name);
          Reenters(cg, visited + {next.name}, next.body))
    case _ => false
  }

  // ---- Exactly when expansion fails ------------------------------------------------------------

  lemma {:induction false} NoneMissing(pattern: SExp, args: seq<BodyForm>, k: nat, name: bytes)
    requires k + Positional(pattern) <= |args|
    ensures ArgLookup(pattern, args, k, name) != MissingArg
    decreases Size(pattern)
  {
    if pattern.Cons? {
      NoneMissing(pattern.rest, args, k + 1, name);
    }
  }

  /** Expansion fails exactly when an inline function is met again while it is expanded; the arguments,
      which are put in but not expanded, have no part in that. */
  lemma {:induction false} FailsOnReentry(cg: Codegen, visited: set<bytes>, inline: Defun, args: seq<BodyForm>, e: BodyForm)
    requires InlinesSuitable(cg) && Suitable(cg, e) && Positional(inline.args) <= |args|
    ensures ReplaceInlineBody(cg, visited, inline, args, e) == None <==> Reenters(cg, visited, e)
    decreases |Unvisited(cg.defuns, visited)|, Weight(e), 1
  {
    match e
    case Lambda(_, _, captures, _) =>
      WeightOfLambda(e);
      FailsOnReentry(cg, visited, inline, args, captures);
    case Call(forms, tail) =>
      WeightParts(e);
      FormsFailOnReentry(cg, visited, inline, args, forms[1..]);
      if tail.Some? {
        FailsOnReentry(cg, visited, inline, args, tail.value);
      }
      var newArgs := ReplaceForms(cg, visited, inline, args, forms[1..]);
      if newArgs.Some? {
        HeadFailsOnReentry(cg, visited, forms, tail, newArgs.value);
      }
    case Value(Atom(a)) => NoneMissing(inline.args, args, 0, a);
    case _ =>
  }

  lemma {:induction false} HeadFailsOnReentry(cg: Codegen, visited: set<bytes>, forms: seq<BodyForm>, tail: Option<BodyForm>, newArgs: seq<BodyForm>)
    requires InlinesSuitable(cg) && forms != [] && SuitableCall(cg, forms, tail) && |newArgs| == |forms| - 1
    ensures var how := GetInlineCallable(cg, forms[0]).value;
            if how.CallInline? && how.inlined.name !in visited then
              ReplaceInlineBody(cg, visited + {how.inlined.name}, how.inlined, newArgs, how.inlined.body) == None <==> HeadReenters(cg, visited, forms[0])
            else how.CallInline? <==> HeadReenters(cg, visited, forms[0])
    decreases |Unvisited(cg.defuns, visited)|, 0, 0
  {
    var how := GetInlineCallable(cg, forms[0]).value;
    if how.CallInline? && how.inlined.name !in visited {
      var next := how.inlined;
      assert next.name in Unvisited(cg.defuns, visited);
      FewerUnvisited(cg.defuns, visited, next.name);
      FailsOnReentry(cg, visited + {next.name}, next, newArgs, next.body);
    }
  }

  lemma {:induction false} FormsFailOnReentry(cg: Codegen, visited: set<bytes>, inline: Defun, args: seq<BodyForm>, forms: seq<BodyForm>)
    requires InlinesSuitable(cg) && AllSuitable(cg, forms) && Positional(inline.args) <= |args|
    ensures ReplaceForms(cg, visited, inline, args, forms) == None <==> AnyReenters(cg, visited, forms)
    decreases |Unvisited(cg.defuns, visited)|, FormsWeight(forms), 2
  {
    if forms != [] {
      FailsOnReentry(cg, visited, inline, args, forms[0]);
      FormsFailOnReentry(cg, visited, inline, args, forms[1..]);
    }
  }

  /** A call of an inline function expands to something unless a function is met again. */
  lemma {:induction false} ExpansionEnds(cg: Codegen, f: Defun, args: seq<BodyForm>)
    requires InlinesSuitable(cg) && f in cg.defuns && f.inline && Positional(f.args) <= |args|
    ensures ExpandCall(cg, f, args) == None <==> Reenters(cg, {f.name}, f.body)
  {
    FailsOnReentry(cg, {f.name}, f, args, f.body);
  }

  // ---- What has a value is never met again ------------------------------------------------------

  /** A function's body has a value for some arguments, with calls nested at most `n` deep. */
  ghost predicate Returns(w: World, n: nat, f: Defun) { exists given :: Sem(w, n, [Scope(f.args, given)], f.body).Success? }

  ghost predicate ReturnsUnder(w: World, n: nat, name: bytes) { FindDefun(w.defuns, name).Some? && Returns(w, n, FindDefun(w.defuns, name).value) }

  /** None of some functions returns within fewer than `d` nested calls. */
  ghost predicate NoneReturns(w: World, names: set<bytes>, d: nat) {
    forall name, j: nat :: name in names && j < d ==> !ReturnsUnder(w, j, name)
  }

  lemma {:induction false} Quickest(w: World, n: nat, name: bytes) returns (j: nat)
    requires ReturnsUnder(w, n, name)
    ensures j <= n && ReturnsUnder(w, j, name) && NoneReturns(w, {name}, j)
  {
    if i: nat :| i < n && ReturnsUnder(w, i, name) {
      j := Quickest(w, i, name);
    } else {
      j := n;
    }
  }

  /** An expression that has a value meets no inline function again: each would have to return within
      fewer nested calls than it needs. */
  lemma {:induction false} ValuesDoNotReenter(w: World, cg: Codegen, visited: set<bytes>, d: nat, scopes: seq<Scope>, e: BodyForm)
    requires cg.defuns == w.defuns && InlinesSuitable(cg) && Suitable(cg, e) && NoneReturns(w, visited, d)
    requires Sem(w, d, scopes, e).Success?
    ensures !Reenters(cg, visited, e)
    decreases |Unvisited(cg.defuns, visited)|, Weight(e), 1
  {
    if e.Call? {
      WeightParts(e);
      var name := CallName(e.forms[0]).value;
      var f := FindDefun(w.defuns, name);
      if f.Some? {
        ArgsDoNotReenter(w, cg, visited, d, scopes, e.forms[1..], e.tail);
        var argv := SemArgs(w, d, scopes, e.forms[1..], e.tail).value;
        assert Sem(w, d - 1, [Scope(f.value.args, argv)], f.value.body).Success?;
        assert ReturnsUnder(w, d - 1, name);
        CalledDoNotReenter(w, cg, visited, d, e.forms[0]);
      } else {
        OthersDoNotReenter(w, cg, visited, d, scopes, e);
      }
    }
  }

  lemma {:induction false} OthersDoNotReenter(w: World, cg: Codegen, visited: set<bytes>, d: nat, scopes: seq<Scope>, e: BodyForm)
    requires cg.defuns == w.defuns && InlinesSuitable(cg) && Suitable(cg, e) && NoneReturns(w, visited, d) && e.Call?
    requires CallName(e.forms[0]).Some? && FindDefun(w.defuns, CallName(e.forms[0]).value) == None && Sem(w, d, scopes, e).Success?
    ensures !Reenters(cg, visited, e)
    decreases |Unvisited(cg.defuns, visited)|, Weight(e), 0
  {
    WeightParts(e);
    assert !HeadReenters(cg, visited, e.forms[0]);
    if Primitive(w.prims, CallName(e.forms[0]).value).Some? {
      ArgsDoNotReenter(w, cg, visited, d, scopes, e.forms[1..], None);
    } else {
      assert e.forms[1..] == [e.forms[1]] && [e.forms[1]][1..] == [];
      assert !Reenters(cg, visited, e.forms[1]) && !AnyReenters(cg, visited, []);
      assert !AnyReenters(cg, visited, [e.forms[1]]);
      PathFormOnly(w, d, scopes, e);
    }
  }

  lemma {:induction false} PathFormOnly(w: World, d: nat, scopes: seq<Scope>, e: BodyForm)
    requires e.Call? && e.forms != [] && CallName(e.forms[0]).Some? && FindDefun(w.defuns, CallName(e.forms[0]).value) == None
    requires Primitive(w.prims, CallName(e.forms[0]).value) == None && Sem(w, d, scopes, e).Success?
    ensures |e.forms| == 2 && PathLiteral(e.forms[1]).Some? && CallName(e.forms[0]).value in {AT, AT_ENV}
  {
  }

  lemma {:induction false} CalledDoNotReenter(w: World, cg: Codegen, visited: set<bytes>, d: nat, head: BodyForm)
    requires cg.defuns == w.defuns && InlinesSuitable(cg) && NoneReturns(w, visited, d) && d > 0
    requires CallName(head).Some? && ReturnsUnder(w, d - 1, CallName(head).value)
    ensures !HeadReenters(cg, visited, head)
    decreases |Unvisited(cg.defuns, visited)|, 0, 0
  {
    var how := GetInlineCallable(cg, head);
    if how.Some? && how.value.CallInline? {
      var next, name := how.value.inlined, CallName(head).value;
      assert FindDefun(w.defuns, name) == Some(next) && next.name == name;
      var j := Quickest(w, d - 1, name);
      var given :| Sem(w, j, [Scope(next.args, given)], next.body).Success?;
      assert name !in visited;
      assert name in Unvisited(cg.defuns, visited);
      FewerUnvisited(cg.defuns, visited, name);
      forall x, i: nat | x in visited + {name} && i < j ensures !ReturnsUnder(w, i, x) {
        if x == name {
          assert x in {name};
        }
      }
      ValuesDoNotReenter(w, cg, visited + {name}, j, [Scope(next.args, given)], next.body);
    }
  }

  lemma {:induction false} ArgsDoNotReenter(w: World, cg: Codegen, visited: set<bytes>, d: nat, scopes: seq<Scope>, forms: seq<BodyForm>,
                                            tail: Option<BodyForm>)
    requires cg.defuns == w.defuns && InlinesSuitable(cg) && AllSuitable(cg, forms) && (tail.Some? ==> Suitable(cg, tail.value))
    requires NoneReturns(w, visited, d) && SemArgs(w, d, scopes, forms, tail).Success?
    ensures !AnyReenters(cg, visited, forms) && (tail.Some? ==> !Reenters(cg, visited, tail.value))
    decreases |Unvisited(cg.defuns, visited)|, FormsWeight(forms) + TailWeight(tail), 2
  {
    if forms != [] {
      ValuesDoNotReenter(w, cg, visited, d, scopes, forms[0]);
      ArgsDoNotReenter(w, cg, visited, d, scopes, forms[1..], tail);
    } else if tail.Some? {
      ValuesDoNotReenter(w, cg, visited, d, scopes, tail.value);
    }
  }

  /** A call of an inline function that has a value has an expansion, and that has the same value. */
  lemma {:induction false} CallsThatReturnExpand(w: World, cg: Codegen, n: nat, scopes: seq<Scope>, head: BodyForm, f: Defun, args: seq<BodyForm>, v: SExp)
    requires Expandable(w, cg, scopes) && InlinesSuitable(cg) && f.inline && Positional(f.args) <= |args|
    requires CallName(head).Some? && FindDefun(w.defuns, CallName(head).value) == Some(f)
    requires Sem(w, n, scopes, Call([head] + args, None)) == Success(v)
    ensures ExpandCall(cg, f, args).Some? && Sem(w, n, scopes, ExpandCall(cg, f, args).value) == Success(v)
  {
    assert ([head] + args)[1..] == args && ([head] + args)[0] == head;
    var argv := DefunCallMeaning(w, n, scopes, [head] + args, None, f, v);
    assert ReturnsUnder(w, n - 1, f.name);
    var j := Quickest(w, n - 1, f.name);
    var given :| Sem(w, j, [Scope(f.args, given)], f.body).Success?;
    ValuesDoNotReenter(w, cg, {f.name}, j, [Scope(f.args, given)], f.body);
    ExpansionEnds(cg, f, args);
    ExpansionRefinesCall(w, cg, n, scopes, head, f, args, v);
  }
}
