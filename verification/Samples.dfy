/** Three expressions that can stand for any other as an argument of an inline call: whether code generation
    ends for the call, and in an error or not, depends only on which of them the arguments are like. */
module Samples {
  import opened Numbers
  import opened SExpressions
  import opened Machine
  import opened Syntax
  import opened Semantics
  import opened Inlining
  import opened CodeGeneration
  import opened CodegenEnds

  // ---- Ending ------------------------------------------------------------------------------------

  /** Generation needs no more than `k` nested expansions. */
  predicate EndsBy(cg: Codegen, k: nat, e: BodyForm) { !GenExpr(cg, k, e).Timeout? }

  ghost predicate Ends(cg: Codegen, e: BodyForm) { exists k: nat :: EndsBy(cg, k, e) }

  predicate ArgsEndBy(cg: Codegen, k: nat, args: seq<BodyForm>, tail: Option<BodyForm>, withPrimcons: bool) {
    !GenArgs(cg, k, args, tail, withPrimcons).Timeout?
  }

  lemma {:induction false} EndsLater(cg: Codegen, k: nat, k': nat, e: BodyForm)
    requires EndsBy(cg, k, e) && (k <= k' || EndsBy(cg, k', e))
    ensures EndsBy(cg, k', e) && GenExpr(cg, k', e) == GenExpr(cg, k, e)
  {
    if k <= k' {
      GenMono(cg, k, k', e);
    } else {
      GenMono(cg, k', k, e);
    }
  }

  // ---- Samples -----------------------------------------------------------------------------------

  const FAILING: BodyForm := Call([], None)
  const PLAIN: BodyForm := Quoted(Nil)
  const LITERAL: BodyForm := Quoted(Integer(0))

  predicate IsSample(s: BodyForm) { s == FAILING || s == PLAIN || s == LITERAL }

  lemma {:induction false} SamplesEnd(cg: Codegen, k: nat, s: BodyForm)
    requires IsSample(s)
    ensures EndsBy(cg, k, s) && (GenExpr(cg, k, s).Success? <==> s != FAILING)
  {
  }

  /** A sample that stands for an expression: a literal for a literal number, and one that fails for one
      that fails.  Where `given` is set, that is only asked if the expression ends by then; it has to end
      within `within`. */
  predicate Stands(cg: Codegen, within: nat, given: Option<nat>, s: BodyForm, e: BodyForm) {
    IsSample(s) && (PathLiteral(e).Some? <==> s == LITERAL)
    && (given == None || EndsBy(cg, given.value, e) ==> EndsBy(cg, within, e) && (GenExpr(cg, within, e).Success? <==> s != FAILING))
  }

  /** The same expression up to samples. */
  predicate Like(cg: Codegen, within: nat, given: Option<nat>, s: BodyForm, e: BodyForm) {
    s == e || Stands(cg, within, given, s, e) || (s.Lambda? && e.Lambda?)
    || (s.Call? && e.Call? && s.forms != [] && e.forms != [] && s.forms[0] == e.forms[0]
        && AllLike(cg, within, given, s.forms[1..], e.forms[1..])
        && (match (s.tail, e.tail)
            case (Some(t), Some(u)) => Like(cg, within, given, t, u)
            case (None, None) => true
            case _ => false))
  }

  predicate AllLike(cg: Codegen, within: nat, given: Option<nat>, ss: seq<BodyForm>, es: seq<BodyForm>) {
    if ss == [] || es == [] then ss == es
    else Like(cg, within, given, ss[0], es[0]) && AllLike(cg, within, given, ss[1..], es[1..])
  }

  lemma {:induction false} LikeAt(cg: Codegen, within: nat, given: Option<nat>, ss: seq<BodyForm>, es: seq<BodyForm>, k: nat)
    requires AllLike(cg, within, given, ss, es) && k <= |ss|
    ensures |ss| == |es| && AllLike(cg, within, given, ss[k..], es[k..])
    ensures k < |ss| ==> Like(cg, within, given, ss[k], es[k])
  {
    if ss != [] {
      if k > 0 {
        LikeAt(cg, within, given, ss[1..], es[1..], k - 1);
        assert ss[1..][k - 1..] == ss[k..] && es[1..][k - 1..] == es[k..];
      } else {
        LikeAt(cg, within, given, ss[1..], es[1..], 0);
        assert ss[0..] == ss && es[0..] == es;
      }
    }
  }

  lemma {:induction false} LikeLiterals(cg: Codegen, within: nat, given: Option<nat>, s: BodyForm, e: BodyForm)
    requires Like(cg, within, given, s, e)
    ensures PathLiteral(s).Some? <==> PathLiteral(e).Some?
  {
  }

  lemma {:induction false} LikeCall(cg: Codegen, within: nat, given: Option<nat>, head: BodyForm, ss: seq<BodyForm>, es: seq<BodyForm>,
                                    t: Option<BodyForm>, u: Option<BodyForm>)
    requires AllLike(cg, within, given, ss, es) && (t.Some? <==> u.Some?) && (t.Some? ==> Like(cg, within, given, t.value, u.value))
    ensures Like(cg, within, given, Call([head] + ss, t), Call([head] + es, u))
  {
    assert ([head] + ss)[1..] == ss && ([head] + es)[1..] == es;
  }

  lemma {:induction false} LikeOne(cg: Codegen, within: nat, given: Option<nat>, name: bytes, s: BodyForm, e: BodyForm)
    requires Like(cg, within, given, s, e)
    ensures Like(cg, within, given, ApplyFn(name, s), ApplyFn(name, e))
  {
    assert [s][1..] == [] && [e][1..] == [];
    assert AllLike(cg, within, given, [s][1..], [e][1..]);
    LikeCall(cg, within, given, Var(name), [s], [e], None, None);
    assert [Var(name)] + [s] == [Var(name), s] && [Var(name)] + [e] == [Var(name), e];
  }

  lemma {:induction false} LikeTwo(cg: Codegen, within: nat, given: Option<nat>, head: BodyForm, s: BodyForm, s': BodyForm, e: BodyForm, e': BodyForm)
    requires Like(cg, within, given, s, e) && Like(cg, within, given, s', e')
    ensures Like(cg, within, given, Call([head, s, s'], None), Call([head, e, e'], None))
  {
    assert [s, s'][1..] == [s'] && [e, e'][1..] == [e'] && [s'][1..] == [] && [e'][1..] == [];
    assert AllLike(cg, within, given, [s'][1..], [e'][1..]);
    assert AllLike(cg, within, given, [s'], [e']);
    LikeCall(cg, within, given, head, [s, s'], [e, e'], None, None);
    assert [head] + [s, s'] == [head, s, s'] && [head] + [e, e'] == [head, e, e'];
  }

  // ---- Like arguments, like expansions -----------------------------------------------------------

  predicate LikeExpressions(cg: Codegen, within: nat, given: Option<nat>, s: Option<BodyForm>, e: Option<BodyForm>) {
    (s.Some? <==> e.Some?) && (s.Some? ==> Like(cg, within, given, s.value, e.value))
  }

  lemma {:induction false} LikePicks(cg: Codegen, within: nat, given: Option<nat>, pattern: SExp, s: BodyForm, e: BodyForm, name: bytes)
    requires Like(cg, within, given, s, e)
    ensures LikeExpressions(cg, within, given, PickValue(pattern, s, name), PickValue(pattern, e, name))
    decreases Size(pattern), 1
  {
    if pattern.Cons? {
      var at := IsAtCapture(pattern.first, pattern.rest);
      if at.Some? {
        LikePicks(cg, within, given, at.value.1, s, e, name);
      } else {
        LikePicksBelow(cg, within, given, pattern.first, FIRST_NAME, s, e, name);
        LikePicksBelow(cg, within, given, pattern.rest, REST_NAME, s, e, name);
      }
    }
  }

  lemma {:induction false} LikePicksBelow(cg: Codegen, within: nat, given: Option<nat>, pattern: SExp, step: bytes, s: BodyForm, e: BodyForm,
                                          name: bytes)
    requires Like(cg, within, given, s, e)
    ensures LikeExpressions(cg, within, given, PickValue(pattern, ApplyFn(step, s), name), PickValue(pattern, ApplyFn(step, e), name))
    decreases Size(pattern), 2
  {
    LikeOne(cg, within, given, step, s, e);
    LikePicks(cg, within, given, pattern, ApplyFn(step, s), ApplyFn(step, e), name);
  }

  lemma {:induction false} LikeLists(cg: Codegen, within: nat, given: Option<nat>, ss: seq<BodyForm>, es: seq<BodyForm>)
    requires AllLike(cg, within, given, ss, es)
    ensures Like(cg, within, given, EnlistArgs(ss), EnlistArgs(es)) && Like(cg, within, given, ConsArgs(ss), ConsArgs(es))
  {
    if ss != [] {
      LikeLists(cg, within, given, ss[1..], es[1..]);
      LikeTwo(cg, within, given, FOUR, ss[0], EnlistArgs(ss[1..]), es[0], EnlistArgs(es[1..]));
      LikeTwo(cg, within, given, Var([4]), ss[0], ConsArgs(ss[1..]), es[0], ConsArgs(es[1..]));
    }
  }

  predicate LikeResults(cg: Codegen, within: nat, given: Option<nat>, r: ArgResult, r': ArgResult) {
    (r.MissingArg? <==> r'.MissingArg?) && (r.Replaced? <==> r'.Replaced?)
    && (r.Replaced? ==> Like(cg, within, given, r.with, r'.with))
  }

  lemma {:induction false} LikeLookups(cg: Codegen, within: nat, given: Option<nat>, pattern: SExp, ss: seq<BodyForm>, es: seq<BodyForm>, k: nat,
                                       name: bytes)
    requires AllLike(cg, within, given, ss, es)
    ensures LikeResults(cg, within, given, ArgLookup(pattern, ss, k, name), ArgLookup(pattern, es, k, name))
    decreases Size(pattern)
  {
    LikeAt(cg, within, given, ss, es, if k <= |ss| then k else 0);
    if pattern.Cons? {
      if k < |ss| {
        LikePicks(cg, within, given, pattern.first, ss[k], es[k], name);
        LikeLookups(cg, within, given, pattern.rest, ss, es, k + 1, name);
      }
    } else {
      var left, left' := if k <= |ss| then ss[k..] else [], if k <= |es| then es[k..] else [];
      LikeLists(cg, within, given, left, left');
      LikePicks(cg, within, given, pattern, EnlistArgs(left), EnlistArgs(left'), name);
    }
  }

  predicate LikeForms(cg: Codegen, within: nat, given: Option<nat>, ss: Option<seq<BodyForm>>, es: Option<seq<BodyForm>>) {
    (ss.Some? <==> es.Some?) && (ss.Some? ==> AllLike(cg, within, given, ss.value, es.value))
  }

  lemma {:induction false} LikeBodies(cg: Codegen, within: nat, given: Option<nat>, visited: set<bytes>, inline: Defun, ss: seq<BodyForm>,
                                      es: seq<BodyForm>, body: BodyForm)
    requires AllLike(cg, within, given, ss, es)
    ensures LikeExpressions(cg, within, given, ReplaceInlineBody(cg, visited, inline, ss, body), ReplaceInlineBody(cg, visited, inline, es, body))
    decreases |Unvisited(cg.defuns, visited)|, Weight(body), 1
  {
    match body
    case Lambda(_, _, captures, _) =>
      WeightOfLambda(body);
      LikeBodies(cg, within, given, visited, inline, ss, es, captures);
    case Value(Atom(a)) =>
      LikeLists(cg, within, given, ss, es);
      var here := Call([Var(AT), Value(Integer(2))], None);
      LikeTwo(cg, within, given, Var([4]), here, ConsArgs(ss), here, ConsArgs(es));
      LikeLookups(cg, within, given, inline.args, ss, es, 0, a);
    case Call(forms, tail) => if forms != [] { LikeBodyCalls(cg, within, given, visited, inline, ss, es, forms, tail); }
    case _ =>
  }

  lemma {:induction false} LikeBodyCalls(cg: Codegen, within: nat, given: Option<nat>, visited: set<bytes>, inline: Defun, ss: seq<BodyForm>,
                                         es: seq<BodyForm>, forms: seq<BodyForm>, tail: Option<BodyForm>)
    requires AllLike(cg, within, given, ss, es) && forms != []
    ensures LikeExpressions(cg, within, given, ReplaceInlineBody(cg, visited, inline, ss, Call(forms, tail)),
                            ReplaceInlineBody(cg, visited, inline, es, Call(forms, tail)))
    decreases |Unvisited(cg.defuns, visited)|, Weight(Call(forms, tail)), 0
  {
    WeightParts(Call(forms, tail));
    LikeBodyForms(cg, within, given, visited, inline, ss, es, forms[1..]);
    if tail.Some? {
      LikeBodies(cg, within, given, visited, inline, ss, es, tail.value);
    }
    var newS, newE := ReplaceForms(cg, visited, inline, ss, forms[1..]), ReplaceForms(cg, visited, inline, es, forms[1..]);
    var tailS, tailE := ReplaceTail(cg, visited, inline, ss, tail), ReplaceTail(cg, visited, inline, es, tail);
    if newS.Some? && tailS.Some? {
      match GetInlineCallable(cg, forms[0])
      case Some(CallInline(next)) =>
        if next.name !in visited {
          assert next.name in Unvisited(cg.defuns, visited);
          FewerUnvisited(cg.defuns, visited, next.name);
          LikeBodies(cg, within, given, visited + {next.name}, next, newS.value, newE.value, next.body);
        }
      case Some(_) => LikeCall(cg, within, given, forms[0], newS.value, newE.value, tailS.value, tailE.value);
      case None =>
    }
  }

  lemma {:induction false} LikeBodyForms(cg: Codegen, within: nat, given: Option<nat>, visited: set<bytes>, inline: Defun, ss: seq<BodyForm>,
                                         es: seq<BodyForm>, forms: seq<BodyForm>)
    requires AllLike(cg, within, given, ss, es)
    ensures LikeForms(cg, within, given, ReplaceForms(cg, visited, inline, ss, forms), ReplaceForms(cg, visited, inline, es, forms))
    decreases |Unvisited(cg.defuns, visited)|, FormsWeight(forms), 2
  {
    if forms != [] {
      LikeBodies(cg, within, given, visited, inline, ss, es, forms[0]);
      LikeBodyForms(cg, within, given, visited, inline, ss, es, forms[1..]);
      var x, x' := ReplaceInlineBody(cg, visited, inline, ss, forms[0]), ReplaceInlineBody(cg, visited, inline, es, forms[0]);
      var rest, rest' := ReplaceForms(cg, visited, inline, ss, forms[1..]), ReplaceForms(cg, visited, inline, es, forms[1..]);
      if x.Some? && rest.Some? {
        assert ([x.value] + rest.value)[1..] == rest.value && ([x'.value] + rest'.value)[1..] == rest'.value;
      }
    }
  }

  // ---- Samples end when the expressions do -------------------------------------------------------

  predicate InTime(given: Option<nat>, m: nat) { given.Some? ==> m <= given.value }

  /** What ends for an expression ends as soon with samples in it, and in the same way. */
  lemma {:induction false} SamplesEndToo(cg: Codegen, within: nat, given: Option<nat>, m: nat, s: BodyForm, e: BodyForm)
    requires Like(cg, within, given, s, e) && EndsBy(cg, m, e) && InTime(given, m)
    ensures EndsBy(cg, m, s) && (GenExpr(cg, m, s).Success? <==> GenExpr(cg, m, e).Success?)
    decreases m, Weight(s), 1
  {
    if s == e {
    } else if Stands(cg, within, given, s, e) {
      if given.Some? {
        EndsLater(cg, m, given.value, e);
      }
      EndsLater(cg, m, within, e);
      SamplesEnd(cg, m, s);
    } else if s.Call? && CallName(s.forms[0]).Some? {
      SampleCallsEndToo(cg, within, given, m, s, e);
    }
  }

  lemma {:induction false} SampleCallsEndToo(cg: Codegen, within: nat, given: Option<nat>, m: nat, s: BodyForm, e: BodyForm)
    requires s.Call? && e.Call? && s.forms != [] && e.forms != [] && s.forms[0] == e.forms[0] && CallName(s.forms[0]).Some?
    requires AllLike(cg, within, given, s.forms[1..], e.forms[1..]) && (s.tail.Some? <==> e.tail.Some?)
    requires s.tail.Some? ==> Like(cg, within, given, s.tail.value, e.tail.value)
    requires EndsBy(cg, m, e) && InTime(given, m)
    ensures EndsBy(cg, m, s) && (GenExpr(cg, m, s).Success? <==> GenExpr(cg, m, e).Success?)
    decreases m, Weight(s), 0
  {
    WeightParts(s);
    CallOutcome(cg, m, s.forms, s.tail);
    CallOutcome(cg, m, e.forms, e.tail);
    LikeAt(cg, within, given, s.forms[1..], e.forms[1..], 0);
    match GetCallable(cg, CallName(s.forms[0]).value)
    case Some(CallInline(f)) =>
      LikeBodies(cg, within, given, {f.name}, f, s.forms[1..], e.forms[1..], f.body);
      if s.tail == None && ExpandCall(cg, f, e.forms[1..]).Some? {
        SamplesEndToo(cg, within, given, m - 1, ExpandCall(cg, f, s.forms[1..]).value, ExpandCall(cg, f, e.forms[1..]).value);
      }
    case Some(CallDefun(_)) => SampleArgsEndToo(cg, within, given, m, s.forms[1..], e.forms[1..], s.tail, e.tail, true);
    case Some(CallPrim(_)) => SampleArgsEndToo(cg, within, given, m, s.forms[1..], e.forms[1..], None, None, false);
    case Some(EnvPath) =>
      if |s.forms| == 2 {
        LikeLiterals(cg, within, given, s.forms[1], e.forms[1]);
      }
    case None =>
  }

  lemma {:induction false} SampleArgsEndToo(cg: Codegen, within: nat, given: Option<nat>, m: nat, ss: seq<BodyForm>, es: seq<BodyForm>,
                                            t: Option<BodyForm>, u: Option<BodyForm>, withPrimcons: bool)
    requires AllLike(cg, within, given, ss, es) && (t.Some? <==> u.Some?) && (t.Some? ==> Like(cg, within, given, t.value, u.value))
    requires ArgsEndBy(cg, m, es, u, withPrimcons) && InTime(given, m)
    ensures ArgsEndBy(cg, m, ss, t, withPrimcons)
            && (GenArgs(cg, m, ss, t, withPrimcons).Success? <==> GenArgs(cg, m, es, u, withPrimcons).Success?)
    decreases m, FormsWeight(ss) + TailWeight(t), 2
  {
    if ss == [] {
      if t.Some? {
        SamplesEndToo(cg, within, given, m, t.value, u.value);
      }
    } else {
      SampleArgsEndToo(cg, within, given, m, ss[1..], es[1..], t, u, withPrimcons);
      if GenArgs(cg, m, es[1..], u, withPrimcons).Success? {
        SamplesEndToo(cg, within, given, m, ss[0], es[0]);
      }
    }
  }

  // ---- Expressions end when the samples do -------------------------------------------------------

  /** What ends with samples ends for the expressions they stand for, at most as much later as those take. */
  lemma {:induction false} EndsWithoutSamples(cg: Codegen, within: nat, given: Option<nat>, k: nat, m: nat, s: BodyForm, e: BodyForm)
    requires Like(cg, within, given, s, e) && EndsBy(cg, k, s) && (given.Some? ==> m <= given.value && EndsBy(cg, m, e))
    ensures EndsBy(cg, k + within, e) && (GenExpr(cg, k + within, e).Success? <==> GenExpr(cg, k, s).Success?)
    decreases k, Weight(s), 1
  {
    if s == e {
      EndsLater(cg, k, k + within, e);
    } else if Stands(cg, within, given, s, e) {
      if given.Some? {
        EndsLater(cg, m, given.value, e);
      }
      EndsLater(cg, within, k + within, e);
      SamplesEnd(cg, k, s);
    } else if s.Call? && CallName(s.forms[0]).Some? {
      CallsEndWithoutSamples(cg, within, given, k, m, s, e);
    }
  }

  lemma {:induction false} CallsEndWithoutSamples(cg: Codegen, within: nat, given: Option<nat>, k: nat, m: nat, s: BodyForm, e: BodyForm)
    requires s.Call? && e.Call? && s.forms != [] && e.forms != [] && s.forms[0] == e.forms[0] && CallName(s.forms[0]).Some?
    requires AllLike(cg, within, given, s.forms[1..], e.forms[1..]) && (s.tail.Some? <==> e.tail.Some?)
    requires s.tail.Some? ==> Like(cg, within, given, s.tail.value, e.tail.value)
    requires EndsBy(cg, k, s) && (given.Some? ==> m <= given.value && EndsBy(cg, m, e))
    ensures EndsBy(cg, k + within, e) && (GenExpr(cg, k + within, e).Success? <==> GenExpr(cg, k, s).Success?)
    decreases k, Weight(s), 0
  {
    WeightParts(s);
    CallOutcome(cg, k, s.forms, s.tail);
    CallOutcome(cg, m, e.forms, e.tail);
    CallOutcome(cg, k + within, e.forms, e.tail);
    LikeAt(cg, within, given, s.forms[1..], e.forms[1..], 0);
    match GetCallable(cg, CallName(s.forms[0]).value)
    case Some(CallInline(f)) =>
      LikeBodies(cg, within, given, {f.name}, f, s.forms[1..], e.forms[1..], f.body);
      if s.tail == None && ExpandCall(cg, f, s.forms[1..]).Some? {
        EndsWithoutSamples(cg, within, given, k - 1, if given.Some? then m - 1 else 0, ExpandCall(cg, f, s.forms[1..]).value,
                           ExpandCall(cg, f, e.forms[1..]).value);
      }
    case Some(CallDefun(_)) => ArgsEndWithoutSamples(cg, within, given, k, m, s.forms[1..], e.forms[1..], s.tail, e.tail, true);
    case Some(CallPrim(_)) => ArgsEndWithoutSamples(cg, within, given, k, m, s.forms[1..], e.forms[1..], None, None, false);
    case Some(EnvPath) =>
      if |s.forms| == 2 {
        LikeLiterals(cg, within, given, s.forms[1], e.forms[1]);
      }
    case None =>
  }

  lemma {:induction false} ArgsEndWithoutSamples(cg: Codegen, within: nat, given: Option<nat>, k: nat, m: nat, ss: seq<BodyForm>, es: seq<BodyForm>,
                                                 t: Option<BodyForm>, u: Option<BodyForm>, withPrimcons: bool)
    requires AllLike(cg, within, given, ss, es) && (t.Some? <==> u.Some?) && (t.Some? ==> Like(cg, within, given, t.value, u.value))
    requires ArgsEndBy(cg, k, ss, t, withPrimcons) && (given.Some? ==> m <= given.value && ArgsEndBy(cg, m, es, u, withPrimcons))
    ensures ArgsEndBy(cg, k + within, es, u, withPrimcons)
            && (GenArgs(cg, k + within, es, u, withPrimcons).Success? <==> GenArgs(cg, k, ss, t, withPrimcons).Success?)
    decreases k, FormsWeight(ss) + TailWeight(t), 2
  {
    if ss == [] {
      if t.Some? {
        EndsWithoutSamples(cg, within, given, k, m, t.value, u.value);
      }
    } else {
      ArgsEndWithoutSamples(cg, within, given, k, m, ss[1..], es[1..], t, u, withPrimcons);
      if GenArgs(cg, k, ss[1..], t, withPrimcons).Success? {
        if given.Some? {
          ArgsGenMono(cg, if m < k + within then m else k + within, if m < k + within then k + within else m, es[1..], u, withPrimcons);
        }
        EndsWithoutSamples(cg, within, given, k, m, ss[0], es[0]);
      }
    }
  }

  // ---- Every expression has a sample -------------------------------------------------------------

  function SampleOf(cg: Codegen, k: nat, e: BodyForm): (s: BodyForm)
    ensures IsSample(s)
  {
    if PathLiteral(e).Some? then LITERAL else if GenExpr(cg, k, e).Success? then PLAIN else FAILING
  }

  lemma {:induction false} LiteralsSucceed(cg: Codegen, k: nat, e: BodyForm)
    requires PathLiteral(e).Some?
    ensures GenExpr(cg, k, e).Success?
  {
  }

  /** An expression that ends has a sample that stands for it. */
  lemma {:induction false} SampleStands(cg: Codegen, k: nat, given: Option<nat>, e: BodyForm)
    requires EndsBy(cg, k, e) || (given.Some? && !EndsBy(cg, given.value, e))
    ensures Like(cg, k, given, SampleOf(cg, k, e), e)
  {
    if PathLiteral(e).Some? {
      LiteralsSucceed(cg, k, e);
    }
    assert Stands(cg, k, given, SampleOf(cg, k, e), e);
  }
}
