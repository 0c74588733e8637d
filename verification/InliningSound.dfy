/** Expanding an inline function keeps the meaning of calling it. */
module InliningSound {
  import opened Numbers
  import opened SExpressions
  import opened Machine
  import opened BigStep
  import opened Syntax
  import opened Semantics
  import opened Inlining

  // ---- When expansion can be trusted -----------------------------------------------------------

  /** A name is the primitive with a given number, and nothing else. */
  ghost predicate MeansOp(w: World, scopes: seq<Scope>, name: bytes, op: int) {
    FindDefun(w.defuns, name) == None && LookupVar(scopes, name) == Unbound
    && Primitive(w.prims, name).Some? && AtomValue(Primitive(w.prims, name).value) == Some(op)
  }

  /** The names expansion writes into the result mean what it intends. */
  ghost predicate GlueNames(w: World, scopes: seq<Scope>) {
    MeansOp(w, scopes, FIRST_NAME, FIRST_OP) && MeansOp(w, scopes, REST_NAME, REST_OP)
    && MeansOp(w, scopes, [4], CONS_OP)
    && FindDefun(w.defuns, AT) == None && LookupVar(scopes, AT) == Unbound && Primitive(w.prims, AT) == None
  }

  /** No leaf of the pattern is a number, which `create_name_lookup_` would take for a name and
      expansion would not. */
  predicate NoNumbers(pattern: SExp) {
    match pattern
    case Integer(_) => false
    case Cons(a, b) => NoNumbers(a) && NoNumbers(b)
    case _ => true
  }

  /** The parameter list itself is not an @-capture, at any position. */
  predicate PlainSpine(pattern: SExp) {
    pattern.Cons? ==> IsAtCapture(pattern.first, pattern.rest) == None && PlainSpine(pattern.rest)
  }

  predicate PlainParams(f: Defun) {
    NoNumbers(f.args) && PlainSpine(f.args) && !Binds(f.args, [])
  }

  /** A name a function body leaves free is not captured where the body is expanded. */
  predicate FreeHere(scopes: seq<Scope>, params: SExp, name: bytes) {
    Binds(params, name) || LookupVar(scopes, name) == Unbound
  }

  /** An expression over a function's parameters may be moved to where the function is called: it
      does not look at the whole environment through `@`, none of its free names is captured
      there, and no number in it is read as a parameter. */
  predicate Fits(w: World, scopes: seq<Scope>, params: SExp, e: BodyForm) {
    match e
    case Value(Atom(a)) => a != AT && (a == AT_ENV || FreeHere(scopes, params, a))
    case Value(Integer(i)) =>
      w.strict || (U8FromNumber(i) != AT && U8FromNumber(i) != AT_ENV
                   && !Binds(params, U8FromNumber(i)) && LookupVar(scopes, U8FromNumber(i)) == Unbound)
    case Call(forms, tail) =>
      forms != [] && HeadFits(w, scopes, forms[0]) && AllFit(w, scopes, params, forms[1..])
      && (tail.Some? ==> Fits(w, scopes, params, tail.value))
    case _ => true
  }

  predicate HeadFits(w: World, scopes: seq<Scope>, head: BodyForm) {
    CallName(head).Some?
    && (FindDefun(w.defuns, CallName(head).value).Some?
        || (CallName(head).value != AT && CallName(head).value != AT_ENV
            && LookupVar(scopes, CallName(head).value) == Unbound))
  }

  predicate AllFit(w: World, scopes: seq<Scope>, params: SExp, forms: seq<BodyForm>) {
    forms == [] || (Fits(w, scopes, params, forms[0]) && AllFit(w, scopes, params, forms[1..]))
  }

  /** The names expansion uses mean what it intends, and every inline function fits. */
  ghost predicate InlinesFit(w: World, scopes: seq<Scope>, defuns: seq<Defun>) {
    if defuns == [] then |scopes| == 1 && GlueNames(w, scopes)
    else (defuns[0].inline ==> PlainParams(defuns[0]) && Fits(w, scopes, defuns[0].args, defuns[0].body))
         && InlinesFit(w, scopes, defuns[1..])
  }

  /** Every inline function may be expanded at a place. */
  ghost predicate Expandable(w: World, cg: Codegen, scopes: seq<Scope>) {
    cg.defuns == w.defuns && cg.prims == w.prims && cg.strict == w.strict && InlinesFit(w, scopes, w.defuns)
  }

  lemma {:induction false} GlueFits(w: World, scopes: seq<Scope>, defuns: seq<Defun>)
    requires InlinesFit(w, scopes, defuns)
    ensures |scopes| == 1 && GlueNames(w, scopes)
  {
    if defuns != [] {
      GlueFits(w, scopes, defuns[1..]);
    }
  }

  lemma {:induction false} InlineFits(w: World, scopes: seq<Scope>, defuns: seq<Defun>, f: Defun)
    requires InlinesFit(w, scopes, defuns) && f in defuns && f.inline
    ensures PlainParams(f) && Fits(w, scopes, f.args, f.body)
  {
    if defuns[0] != f {
      InlineFits(w, scopes, defuns[1..], f);
    }
  }

  // ---- The pieces of an expansion --------------------------------------------------------------

  lemma {:induction false} OneArg(w: World, n: nat, scopes: seq<Scope>, e: BodyForm, v: SExp)
    requires Sem(w, n, scopes, e) == Success(v)
    ensures SemArgs(w, n, scopes, [e], None) == Success(Cons(v, Nil))
    ensures ProperList(Cons(v, Nil)) == Some([v])
  {
    assert [e][1..] == [];
    assert SemArgs(w, n, scopes, [], None) == Success(Nil);
    assert [v] + [] == [v];
  }

  lemma {:induction false} TwoSemArgs(w: World, n: nat, scopes: seq<Scope>, a: BodyForm, b: BodyForm, va: SExp, vb: SExp)
    requires Sem(w, n, scopes, a) == Success(va) && Sem(w, n, scopes, b) == Success(vb)
    ensures SemArgs(w, n, scopes, [a, b], None) == Success(Cons(va, Cons(vb, Nil)))
    ensures ProperList(Cons(va, Cons(vb, Nil))) == Some([va, vb])
  {
    OneArg(w, n, scopes, b, vb);
    assert [a, b][1..] == [b];
    assert [va] + [vb] == [va, vb];
  }

  lemma {:induction false} OpCallMeans(w: World, n: nat, scopes: seq<Scope>, head: BodyForm, args: seq<BodyForm>, op: int, argv: SExp, v: SExp)
    requires CallName(head).Some? && MeansOp(w, scopes, CallName(head).value, op) && op != 1
    requires SemArgs(w, n, scopes, args, None) == Success(argv)
    requires Operate(w.machine, n, Integer(op), argv) == Success(v)
    ensures Sem(w, n, scopes, Call([head] + args, None)) == Success(v)
  {
    assert ([head] + args)[1..] == args;
  }

  lemma {:induction false} PartsOperate(m: Config, n: nat, v: SExp)
    requires v.Cons?
    ensures Operate(m, n, Integer(FIRST_OP), Cons(v, Nil)) == Success(v.first) && Operate(m, n, Integer(REST_OP), Cons(v, Nil)) == Success(v.rest)
  {
    assert [v] + [] == [v];
    assert ProperList(Cons(v, Nil)) == Some([v]);
  }

  lemma {:induction false} ConsOperates(m: Config, n: nat, va: SExp, vb: SExp)
    ensures Operate(m, n, Integer(CONS_OP), Cons(va, Cons(vb, Nil))) == Success(Cons(va, vb))
  {
    assert [vb] + [] == [vb] && [va] + [vb] == [va, vb];
    assert ProperList(Cons(vb, Nil)) == Some([vb]);
    assert ProperList(Cons(va, Cons(vb, Nil))) == Some([va, vb]);
  }

  lemma {:induction false} ApplyFnMeans(w: World, n: nat, scopes: seq<Scope>, e: BodyForm, v: SExp)
    requires GlueNames(w, scopes) && Sem(w, n, scopes, e) == Success(v) && v.Cons?
    ensures Sem(w, n, scopes, ApplyFn(FIRST_NAME, e)) == Success(v.first)
    ensures Sem(w, n, scopes, ApplyFn(REST_NAME, e)) == Success(v.rest)
  {
    OneArg(w, n, scopes, e, v);
    PartsOperate(w.machine, n, v);
    OpCallMeans(w, n, scopes, Var(FIRST_NAME), [e], FIRST_OP, Cons(v, Nil), v.first);
    OpCallMeans(w, n, scopes, Var(REST_NAME), [e], REST_OP, Cons(v, Nil), v.rest);
    assert [Var(FIRST_NAME)] + [e] == [Var(FIRST_NAME), e] && [Var(REST_NAME)] + [e] == [Var(REST_NAME), e];
  }

  lemma {:induction false} FourIsCons(w: World, scopes: seq<Scope>, head: BodyForm)
    requires GlueNames(w, scopes) && (head == FOUR || head == Var([4]))
    ensures CallName(head) == Some([4]) && MeansOp(w, scopes, [4], CONS_OP)
  {
    assert U8FromNumber(4) == [4];
  }

  lemma {:induction false} ConsMeans(w: World, n: nat, scopes: seq<Scope>, head: BodyForm, a: BodyForm, b: BodyForm, va: SExp, vb: SExp)
    requires GlueNames(w, scopes) && (head == FOUR || head == Var([4]))
    requires Sem(w, n, scopes, a) == Success(va) && Sem(w, n, scopes, b) == Success(vb)
    ensures Sem(w, n, scopes, Call([head, a, b], None)) == Success(Cons(va, vb))
  {
    TwoSemArgs(w, n, scopes, a, b, va, vb);
    FourIsCons(w, scopes, head);
    ConsOperates(w.machine, n, va, vb);
    OpCallMeans(w, n, scopes, head, [a, b], CONS_OP, Cons(va, Cons(vb, Nil)), Cons(va, vb));
    assert [head] + [a, b] == [head, a, b];
  }

  lemma {:induction false} EnlistMeans(w: World, n: nat, scopes: seq<Scope>, args: seq<BodyForm>, v: SExp)
    requires GlueNames(w, scopes) && SemArgs(w, n, scopes, args, None) == Success(v)
    ensures Sem(w, n, scopes, EnlistArgs(args)) == Success(v)
    ensures Sem(w, n, scopes, ConsArgs(args)) == Success(v)
  {
    if args != [] {
      EnlistMeans(w, n, scopes, args[1..], v.rest);
      ConsMeans(w, n, scopes, FOUR, args[0], EnlistArgs(args[1..]), v.first, v.rest);
      ConsMeans(w, n, scopes, Var([4]), args[0], ConsArgs(args[1..]), v.first, v.rest);
    }
  }

  /** The steps picked out of an argument reach the bound part of its value. */
  lemma {:induction false} PickMeans(w: World, n: nat, scopes: seq<Scope>, pattern: SExp, e: BodyForm, v: SExp, name: bytes)
    requires GlueNames(w, scopes) && NoNumbers(pattern) && Sem(w, n, scopes, e) == Success(v)
    requires Binds(pattern, name) && Destructure(pattern, v, name).Some?
    ensures PickValue(pattern, e, name).Some?
    ensures Sem(w, n, scopes, PickValue(pattern, e, name).value) == Success(Destructure(pattern, v, name).value)
    decreases Size(pattern)
  {
    if pattern.Cons? {
      var Cons(a, b) := pattern;
      var at := IsAtCapture(a, b);
      if at.Some? {
        if at.value.0 != name {
          CaptureNoNumbers(a, b);
          PickMeans(w, n, scopes, at.value.1, e, v, name);
        }
      } else {
        ApplyFnMeans(w, n, scopes, e, v);
        if Binds(a, name) {
          PickMeans(w, n, scopes, a, ApplyFn(FIRST_NAME, e), v.first, name);
        } else {
          PickOnlyBound(a, ApplyFn(FIRST_NAME, e), name);
          PickMeans(w, n, scopes, b, ApplyFn(REST_NAME, e), v.rest, name);
        }
      }
    }
  }

  lemma {:induction false} PickOnlyBound(pattern: SExp, e: BodyForm, name: bytes)
    requires !Binds(pattern, name)
    ensures PickValue(pattern, e, name) == None
    decreases Size(pattern)
  {
    if pattern.Cons? {
      var at := IsAtCapture(pattern.first, pattern.rest);
      if at.Some? {
        PickOnlyBound(at.value.1, e, name);
      } else {
        PickOnlyBound(pattern.first, ApplyFn(FIRST_NAME, e), name);
        PickOnlyBound(pattern.rest, ApplyFn(REST_NAME, e), name);
      }
    }
  }

  lemma {:induction false} ListNoNumbers(s: SExp)
    requires NoNumbers(s) && ProperList(s).Some?
    ensures forall i :: 0 <= i < |ProperList(s).value| ==> NoNumbers(ProperList(s).value[i])
  {
    if s.Cons? {
      ListNoNumbers(s.rest);
    }
  }

  lemma {:induction false} CaptureNoNumbers(a: SExp, b: SExp)
    requires NoNumbers(b) && IsAtCapture(a, b).Some?
    ensures NoNumbers(IsAtCapture(a, b).value.1)
  {
    ListNoNumbers(b);
  }

  /** A parameter looked up among the argument expressions has the parameter's value. */
  lemma {:induction false} ArgLookupMeans(w: World, n: nat, scopes: seq<Scope>, pattern: SExp, args: seq<BodyForm>,
                                          k: nat, v: SExp, name: bytes)
    requires GlueNames(w, scopes) && NoNumbers(pattern) && PlainSpine(pattern) && k <= |args|
    requires SemArgs(w, n, scopes, args[k..], None) == Success(v)
    requires Binds(pattern, name) ==> Destructure(pattern, v, name).Some?
    requires ArgLookup(pattern, args, k, name) != MissingArg
    ensures Binds(pattern, name) <==> ArgLookup(pattern, args, k, name).Replaced?
    ensures Binds(pattern, name) ==>
              Sem(w, n, scopes, ArgLookup(pattern, args, k, name).with) == Success(Destructure(pattern, v, name).value)
    decreases Size(pattern)
  {
    if pattern.Cons? {
      assert args[k..][0] == args[k] && args[k..][1..] == args[k + 1..];
      if Binds(pattern.first, name) {
        PickMeans(w, n, scopes, pattern.first, args[k], v.first, name);
      } else {
        PickOnlyBound(pattern.first, args[k], name);
        ArgLookupMeans(w, n, scopes, pattern.rest, args, k + 1, v.rest, name);
      }
    } else {
      EnlistMeans(w, n, scopes, args[k..], v);
    }
  }

  // ---- The expansion ---------------------------------------------------------------------------

  /** If a function body has a value for given argument values, its expansion over expressions
      with those values has the same value where it is put. */
  lemma {:induction false} ReplaceMeans(w: World, cg: Codegen, n: nat, d: nat, scopes: seq<Scope>, visited: set<bytes>,
                                        inline: Defun, args: seq<BodyForm>, argv: SExp, e: BodyForm, v: SExp)
    requires Expandable(w, cg, scopes) && d <= n
    requires PlainParams(inline) && Fits(w, scopes, inline.args, e)
    requires SemArgs(w, n, scopes, args, None) == Success(argv)
    requires Sem(w, d, [Scope(inline.args, argv)], e) == Success(v)
    requires ReplaceInlineBody(cg, visited, inline, args, e).Some?
    ensures Sem(w, n, scopes, ReplaceInlineBody(cg, visited, inline, args, e).value) == Success(v)
    decreases |Unvisited(cg.defuns, visited)|, Weight(e), 1
  {
    match e
    case Call(forms, tail) => ReplaceCallMeans(w, cg, n, d, scopes, visited, inline, args, argv, forms, tail, v);
    case Value(Atom(a)) => ReplaceAtomMeans(w, cg, n, d, scopes, visited, inline, args, argv, a, v);
    case Value(Integer(i)) =>
      var inner := [Scope(inline.args, argv)];
      assert LookupVar(inner[1..], U8FromNumber(i)) == Unbound;
    case _ =>
  }

  /** A reference to the whole environment becomes code that builds what the call would have. */
  lemma {:induction false} ReplaceEnvMeans(w: World, n: nat, scopes: seq<Scope>, args: seq<BodyForm>, argv: SExp)
    requires |scopes| == 1 && GlueNames(w, scopes) && w.left.Some?
    requires SemArgs(w, n, scopes, args, None) == Success(argv)
    ensures Sem(w, n, scopes, MakeCons(Call([Var(AT), Value(Integer(2))], None), ConsArgs(args))) == Success(Cons(w.left.value, argv))
  {
    EnlistMeans(w, n, scopes, args, argv);
    var left := Call([Var(AT), Value(Integer(2))], None);
    LeftMeans(w, n, scopes);
    ConsMeans(w, n, scopes, Var([4]), left, ConsArgs(args), w.left.value, argv);
  }

  lemma {:induction false} LeftMeans(w: World, n: nat, scopes: seq<Scope>)
    requires |scopes| == 1 && GlueNames(w, scopes) && w.left.Some?
    ensures Sem(w, n, scopes, Call([Var(AT), Value(Integer(2))], None)) == Success(w.left.value)
  {
    var left := Call([Var(AT), Value(Integer(2))], None);
    FlattenNonNegative(2);
    assert left.forms[1] == Value(Integer(2)) && WholeEnv(w, scopes).Success?;
    assert ChoosePath(2, WholeEnv(w, scopes).value) == ChoosePath(1, w.left.value);
  }

  lemma {:induction false} ReplaceAtomMeans(w: World, cg: Codegen, n: nat, d: nat, scopes: seq<Scope>, visited: set<bytes>,
                         inline: Defun, args: seq<BodyForm>, argv: SExp, a: bytes, v: SExp)
    requires Expandable(w, cg, scopes) && d <= n
    requires PlainParams(inline) && Fits(w, scopes, inline.args, Var(a))
    requires SemArgs(w, n, scopes, args, None) == Success(argv)
    requires Sem(w, d, [Scope(inline.args, argv)], Var(a)) == Success(v)
    requires ReplaceInlineBody(cg, visited, inline, args, Var(a)).Some?
    ensures Sem(w, n, scopes, ReplaceInlineBody(cg, visited, inline, args, Var(a)).value) == Success(v)
  {
    var inner := [Scope(inline.args, argv)];
    GlueFits(w, scopes, w.defuns);
    if a == AT_ENV {
      ReplaceEnvMeans(w, n, scopes, args, argv);
    } else {
      assert args[0..] == args;
      assert LookupVar(inner, a) == (if Binds(inline.args, a) then
                                       match Destructure(inline.args, argv, a) case None => Absent case Some(x) => Found(x)
                                     else LookupVar(inner[1..], a));
      ArgLookupMeans(w, n, scopes, inline.args, args, 0, argv, a);
    }
  }

  /** What an expanded call is made of. */
  lemma {:induction false} ReplacedCall(cg: Codegen, visited: set<bytes>, inline: Defun, args: seq<BodyForm>, forms: seq<BodyForm>,
                     tail: Option<BodyForm>)
    returns (newArgs: seq<BodyForm>, newTail: Option<BodyForm>, how: Callable)
    requires forms != [] && ReplaceInlineBody(cg, visited, inline, args, Call(forms, tail)).Some?
    ensures ReplaceForms(cg, visited, inline, args, forms[1..]) == Some(newArgs)
    ensures ReplaceTail(cg, visited, inline, args, tail) == Some(newTail)
    ensures GetInlineCallable(cg, forms[0]) == Some(how)
    ensures how.CallInline? ==>
              how.inlined.name in Unvisited(cg.defuns, visited) && newTail == None
              && ReplaceInlineBody(cg, visited, inline, args, Call(forms, tail)) ==
                 ReplaceInlineBody(cg, visited + {how.inlined.name}, how.inlined, newArgs, how.inlined.body)
    ensures !how.CallInline? ==>
              ReplaceInlineBody(cg, visited, inline, args, Call(forms, tail)) == Some(Call([forms[0]] + newArgs, newTail))
  {
    newArgs := ReplaceForms(cg, visited, inline, args, forms[1..]).value;
    newTail := ReplaceTail(cg, visited, inline, args, tail).value;
    how := GetInlineCallable(cg, forms[0]).value;
  }

  lemma {:induction false} FittingCall(w: World, scopes: seq<Scope>, params: SExp, forms: seq<BodyForm>, tail: Option<BodyForm>)
    requires Fits(w, scopes, params, Call(forms, tail))
    ensures forms != [] && HeadFits(w, scopes, forms[0]) && AllFit(w, scopes, params, forms[1..])
    ensures tail.Some? ==> Fits(w, scopes, params, tail.value)
  {
  }

  /** Only a named inline function is expanded further. */
  lemma {:induction false} InlinesOnlyDefuns(w: World, cg: Codegen, scopes: seq<Scope>, head: BodyForm, how: Callable)
    requires Expandable(w, cg, scopes) && GetInlineCallable(cg, head) == Some(how) && how.CallInline?
    ensures CallName(head).Some? && FindDefun(w.defuns, CallName(head).value) == Some(how.inlined)
    ensures PlainParams(how.inlined) && Fits(w, scopes, how.inlined.args, how.inlined.body)
  {
    InlineFits(w, scopes, w.defuns, how.inlined);
  }

  lemma {:induction false} ReplaceCallMeans(w: World, cg: Codegen, n: nat, d: nat, scopes: seq<Scope>, visited: set<bytes>,
                                            inline: Defun, args: seq<BodyForm>, argv: SExp,
                                            forms: seq<BodyForm>, tail: Option<BodyForm>, v: SExp)
    requires Expandable(w, cg, scopes) && d <= n
    requires PlainParams(inline) && Fits(w, scopes, inline.args, Call(forms, tail))
    requires SemArgs(w, n, scopes, args, None) == Success(argv)
    requires Sem(w, d, [Scope(inline.args, argv)], Call(forms, tail)) == Success(v)
    requires ReplaceInlineBody(cg, visited, inline, args, Call(forms, tail)).Some?
    ensures Sem(w, n, scopes, ReplaceInlineBody(cg, visited, inline, args, Call(forms, tail)).value) == Success(v)
    decreases |Unvisited(cg.defuns, visited)|, Weight(Call(forms, tail)), 0
  {
    FittingCall(w, scopes, inline.args, forms, tail);
    var newArgs, newTail, how := ReplacedCall(cg, visited, inline, args, forms, tail);
    WeightParts(Call(forms, tail));
    if FindDefun(w.defuns, CallName(forms[0]).value) == None {
      ReplacePrimCall(w, cg, n, d, scopes, visited, inline, args, argv, forms, tail, newArgs, newTail, how, v);
    } else {
      var f := FindDefun(w.defuns, CallName(forms[0]).value).value;
      var callArgs := DefunCallMeaning(w, d, [Scope(inline.args, argv)], forms, tail, f, v);
      ReplaceFormsMean(w, cg, n, d, scopes, visited, inline, args, argv, forms[1..], tail, callArgs);
      ReplaceDefunCall(w, cg, n, d, scopes, visited, forms[0], f, callArgs, newArgs, newTail, how, v);
    }
  }

  lemma {:induction false} ReplacePrimCall(w: World, cg: Codegen, n: nat, d: nat, scopes: seq<Scope>, visited: set<bytes>,
                                           inline: Defun, args: seq<BodyForm>, argv: SExp, forms: seq<BodyForm>,
                                           tail: Option<BodyForm>, newArgs: seq<BodyForm>, newTail: Option<BodyForm>,
                                           how: Callable, v: SExp)
    requires Expandable(w, cg, scopes) && d <= n && PlainParams(inline)
    requires forms != [] && HeadFits(w, scopes, forms[0]) && AllFit(w, scopes, inline.args, forms[1..])
    requires FindDefun(w.defuns, CallName(forms[0]).value) == None
    requires SemArgs(w, n, scopes, args, None) == Success(argv)
    requires Sem(w, d, [Scope(inline.args, argv)], Call(forms, tail)) == Success(v)
    requires ReplaceForms(cg, visited, inline, args, forms[1..]) == Some(newArgs)
    requires ReplaceTail(cg, visited, inline, args, tail) == Some(newTail)
    requires GetInlineCallable(cg, forms[0]) == Some(how)
    ensures !how.CallInline? && Sem(w, n, scopes, Call([forms[0]] + newArgs, newTail)) == Success(v)
    decreases |Unvisited(cg.defuns, visited)|, FormsWeight(forms[1..]) + TailWeight(tail), 3
  {
    if how.CallInline? {
      InlinesOnlyDefuns(w, cg, scopes, forms[0], how);
    }
    var op, callArgs := PrimCallMeaning(w, d, [Scope(inline.args, argv)], forms, tail, v);
    ReplaceFormsMean(w, cg, n, d, scopes, visited, inline, args, argv, forms[1..], None, callArgs);
    OperateMono(w.machine, d, n, Integer(op), callArgs);
    OpCallMeans(w, n, scopes, forms[0], newArgs, op, callArgs, v);
  }

  /** A call of a function whose arguments have been expanded. */
  lemma {:induction false} ReplaceDefunCall(w: World, cg: Codegen, n: nat, d: nat, scopes: seq<Scope>, visited: set<bytes>,
                                            head: BodyForm, f: Defun, callArgs: SExp, newArgs: seq<BodyForm>,
                                            newTail: Option<BodyForm>, how: Callable, v: SExp)
    requires Expandable(w, cg, scopes) && 0 < d <= n && CallName(head).Some?
    requires FindDefun(w.defuns, CallName(head).value) == Some(f)
    requires SemArgs(w, n, scopes, newArgs, newTail) == Success(callArgs) && Accepts(w, f.args, callArgs)
    requires Sem(w, d - 1, [Scope(f.args, callArgs)], f.body) == Success(v)
    requires GetInlineCallable(cg, head) == Some(how)
    requires how.CallInline? ==>
               how.inlined.name in Unvisited(cg.defuns, visited) && newTail == None
               && ReplaceInlineBody(cg, visited + {how.inlined.name}, how.inlined, newArgs, how.inlined.body).Some?
    ensures how.CallInline? ==>
              Sem(w, n, scopes, ReplaceInlineBody(cg, visited + {how.inlined.name}, how.inlined, newArgs,
                                                  how.inlined.body).value) == Success(v)
    ensures !how.CallInline? ==> Sem(w, n, scopes, Call([head] + newArgs, newTail)) == Success(v)
    decreases |Unvisited(cg.defuns, visited)|, 0, 1
  {
    if how.CallInline? {
      InlinesOnlyDefuns(w, cg, scopes, head, how);
      ReplaceNextBody(w, cg, n, d - 1, scopes, visited, f, newArgs, callArgs, v);
    } else {
      DefunCallMeans(w, n, d, scopes, head, newArgs, newTail, f, callArgs, v);
    }
  }

  /** Expansion goes on in the body of an inline function that is called. */
  lemma {:induction false} ReplaceNextBody(w: World, cg: Codegen, n: nat, d: nat, scopes: seq<Scope>, visited: set<bytes>,
                                           f: Defun, args: seq<BodyForm>, argv: SExp, v: SExp)
    requires Expandable(w, cg, scopes) && d <= n && PlainParams(f) && Fits(w, scopes, f.args, f.body)
    requires SemArgs(w, n, scopes, args, None) == Success(argv)
    requires Sem(w, d, [Scope(f.args, argv)], f.body) == Success(v)
    requires f.name in Unvisited(cg.defuns, visited)
    requires ReplaceInlineBody(cg, visited + {f.name}, f, args, f.body).Some?
    ensures Sem(w, n, scopes, ReplaceInlineBody(cg, visited + {f.name}, f, args, f.body).value) == Success(v)
    decreases |Unvisited(cg.defuns, visited)|, 0, 0
  {
    FewerUnvisited(cg.defuns, visited, f.name);
    ReplaceMeans(w, cg, n, d, scopes, visited + {f.name}, f, args, argv, f.body, v);
  }

  /** What a successful call of a function consists of, and what makes one. */
  lemma {:induction false} DefunCallMeaning(w: World, n: nat, scopes: seq<Scope>, forms: seq<BodyForm>, tail: Option<BodyForm>, f: Defun, v: SExp)
    returns (argv: SExp)
    requires forms != [] && CallName(forms[0]).Some? && FindDefun(w.defuns, CallName(forms[0]).value) == Some(f)
    requires Sem(w, n, scopes, Call(forms, tail)) == Success(v)
    ensures n > 0 && SemArgs(w, n, scopes, forms[1..], tail) == Success(argv) && Accepts(w, f.args, argv)
    ensures Sem(w, n - 1, [Scope(f.args, argv)], f.body) == Success(v)
  {
    argv := SemArgs(w, n, scopes, forms[1..], tail).value;
  }

  lemma {:induction false} DefunCallMeans(w: World, n: nat, d: nat, scopes: seq<Scope>, head: BodyForm, args: seq<BodyForm>,
                       tail: Option<BodyForm>, f: Defun, argv: SExp, v: SExp)
    requires CallName(head).Some? && FindDefun(w.defuns, CallName(head).value) == Some(f)
    requires 0 < d <= n && SemArgs(w, n, scopes, args, tail) == Success(argv) && Accepts(w, f.args, argv)
    requires Sem(w, d - 1, [Scope(f.args, argv)], f.body) == Success(v)
    ensures Sem(w, n, scopes, Call([head] + args, tail)) == Success(v)
  {
    SemMono(w, d - 1, n - 1, [Scope(f.args, argv)], f.body);
    assert ([head] + args)[1..] == args;
  }

  /** The same for an operator; here a path form is not one. */
  lemma {:induction false} PrimCallMeaning(w: World, n: nat, scopes: seq<Scope>, forms: seq<BodyForm>, tail: Option<BodyForm>, v: SExp)
    returns (op: int, argv: SExp)
    requires forms != [] && CallName(forms[0]).Some? && FindDefun(w.defuns, CallName(forms[0]).value) == None
    requires CallName(forms[0]).value != AT && CallName(forms[0]).value != AT_ENV
    requires Sem(w, n, scopes, Call(forms, tail)) == Success(v)
    ensures tail == None && Primitive(w.prims, CallName(forms[0]).value).Some?
    ensures AtomValue(Primitive(w.prims, CallName(forms[0]).value).value) == Some(op) && op != 1
    ensures SemArgs(w, n, scopes, forms[1..], None) == Success(argv)
    ensures Operate(w.machine, n, Integer(op), argv) == Success(v)
  {
    op := AtomValue(Primitive(w.prims, CallName(forms[0]).value).value).value;
    argv := SemArgs(w, n, scopes, forms[1..], None).value;
  }

  lemma {:induction false} ReplaceFormsMean(w: World, cg: Codegen, n: nat, d: nat, scopes: seq<Scope>, visited: set<bytes>,
                                            inline: Defun, args: seq<BodyForm>, argv: SExp,
                                            forms: seq<BodyForm>, tail: Option<BodyForm>, v: SExp)
    requires Expandable(w, cg, scopes) && d <= n
    requires PlainParams(inline) && AllFit(w, scopes, inline.args, forms)
    requires tail.Some? ==> Fits(w, scopes, inline.args, tail.value)
    requires SemArgs(w, n, scopes, args, None) == Success(argv)
    requires SemArgs(w, d, [Scope(inline.args, argv)], forms, tail) == Success(v)
    requires ReplaceForms(cg, visited, inline, args, forms).Some?
    requires ReplaceTail(cg, visited, inline, args, tail).Some?
    ensures SemArgs(w, n, scopes, ReplaceForms(cg, visited, inline, args, forms).value,
                    ReplaceTail(cg, visited, inline, args, tail).value) == Success(v)
    decreases |Unvisited(cg.defuns, visited)|, FormsWeight(forms) + TailWeight(tail), 2
  {
    if forms == [] {
      if tail.Some? {
        ReplaceMeans(w, cg, n, d, scopes, visited, inline, args, argv, tail.value, v);
      }
    } else {
      ReplaceMeans(w, cg, n, d, scopes, visited, inline, args, argv, forms[0], v.first);
      ReplaceFormsMean(w, cg, n, d, scopes, visited, inline, args, argv, forms[1..], tail, v.rest);
      var x := ReplaceInlineBody(cg, visited, inline, args, forms[0]).value;
      var rest := ReplaceForms(cg, visited, inline, args, forms[1..]).value;
      assert ([x] + rest)[1..] == rest;
    }
  }

  /** Expanding an inline call refines calling: if the call has a value, so does its expansion, and
      it is the same. */
  lemma {:induction false} ExpansionRefinesCall(w: World, cg: Codegen, n: nat, scopes: seq<Scope>, head: BodyForm, f: Defun,
                             args: seq<BodyForm>, v: SExp)
    requires Expandable(w, cg, scopes) && f.inline
    requires CallName(head).Some? && FindDefun(w.defuns, CallName(head).value) == Some(f)
    requires Sem(w, n, scopes, Call([head] + args, None)) == Success(v)
    requires ExpandCall(cg, f, args).Some?
    ensures Sem(w, n, scopes, ExpandCall(cg, f, args).value) == Success(v)
  {
    assert ([head] + args)[1..] == args && ([head] + args)[0] == head;
    var argv := DefunCallMeaning(w, n, scopes, [head] + args, None, f, v);
    InlineFits(w, scopes, w.defuns, f);
    ReplaceMeans(w, cg, n, n - 1, scopes, {f.name}, f, args, argv, f.body, v);
  }
}
