/** How expressions are read: `compile_bodyform` and what it calls, nested programs aside. */
module Frontend {
  import opened Numbers
  import opened SExpressions
  import opened Syntax
  import opened AssignForms
  import opened RenamingNames
  import opened Heads

  const QUOTE: bytes := [113, 117, 111, 116, 101]                                              // "quote"
  const QUASIQUOTE: bytes := [113, 113]                                                        // "qq"
  const UNQUOTE: bytes := [117, 110, 113, 117, 111, 116, 101]                                  // "unquote"
  const MOD: bytes := [109, 111, 100]                                                          // "mod"
  const ASSIGN_LAMBDA: bytes := ASSIGN_NAME + [45, 108, 97, 109, 98, 100, 97]                  // "assign-lambda"
  const ASSIGN_INLINE: bytes := ASSIGN_NAME + [45, 105, 110, 108, 105, 110, 101]               // "assign-inline"

  /** How a dialect reads: whether numbers may be names, and whether lets without a hint are inlined. */
  datatype Dialect = Dialect(strict: bool, hintless: bool)

  datatype ArgsAndTail = ArgsAndTail(args: seq<BodyForm>, tail: Option<BodyForm>)

  predicate IsQuote(name: bytes) { name == Q_NAME || name == [1] }

  // ---- Sizes -------------------------------------------------------------------------------------

  predicate AllSmaller(l: seq<SExp>, bound: nat) { forall i :: 0 <= i < |l| ==> Size(l[i]) < bound }

  lemma {:induction false} ElementsAreSmaller(s: SExp)
    requires ProperList(s).Some?
    ensures var l := ProperList(s).value;
            AllSmaller(l, Size(s)) && (|l| > 0 ==> Size(l[0]) < Size(s)) && (|l| > 1 ==> Size(l[0]) + Size(l[1]) < Size(s))
  {
    if s.Cons? {
      ElementsAreSmaller(s.rest);
    }
  }

  // ---- Reading -----------------------------------------------------------------------------------

  /** `compile_bodyform`; None for an error and for a nested program.  A number at the head of a call is
      read as the word that its bytes spell. */
  function CompileBodyform(d: Dialect, body: SExp): (r: Option<BodyForm>)
    decreases Size(body), 2
  {
    match body
    case Cons(Atom(name), tail) => CompileForm(d, name, tail)
    case Cons(Integer(i), tail) => CompileForm(d, U8FromNumber(i), tail)
    case Cons(QuotedString(_, _), _) => Some(Value(body))
    case Cons(Nil, _) => Some(Quoted(body))
    case Cons(Cons(_, _), _) => None
    case _ => Some(Value(body))
  }

  /** A form headed by a word. */
  function CompileForm(d: Dialect, name: bytes, tail: SExp): (r: Option<BodyForm>)
    decreases Size(tail), 3
  {
    if IsQuote(name) then Some(Quoted(tail))
    else if ProperList(tail) == None then None
    else
      var v := ProperList(tail).value;
      ElementsAreSmaller(tail);
      if name == LET_NAME || name == LET_STAR then
        if |v| == 2 then CompileLet(d, if name == LET_NAME then Parallel else Sequential, v[0], v[1]) else None
      else if name == ASSIGN_NAME || name == ASSIGN_LAMBDA || name == ASSIGN_INLINE then
        if |v| % 2 == 0 then None else HandleAssign(d, name == ASSIGN_INLINE, v, Size(tail))
      else if name == QUOTE then if |v| == 1 then Some(Quoted(v[0])) else None
      else if name == QUASIQUOTE then if |v| == 1 then QqToExpression(d, v[0]) else None
      else if name == MOD then None
      else if name == LAMBDA_NAME then if |v| < 2 then None else HandleLambda(d, v[0], v[1])
      else
        match ArgsToExpressions(d, tail)
        case None => None
        case Some(a) => Some(Call([Var(name)] + a.args, a.tail))
  }

  /** `args_to_expression_list`. */
  function ArgsToExpressions(d: Dialect, body: SExp): (r: Option<ArgsAndTail>)
    decreases Size(body), 2
  {
    if Nilp(body) then Some(ArgsAndTail([], None))
    else if !body.Cons? then None
    else if body.first == Atom(AMP_REST) then
      match ArgsToExpressions(d, body.rest)
      case None => None
      case Some(a) => if a.tail.Some? || |a.args| != 1 then None else Some(ArgsAndTail([], Some(a.args[0])))
    else
      match (CompileBodyform(d, body.first), ArgsToExpressions(d, body.rest))
      case (Some(first), Some(a)) => Some(ArgsAndTail([first] + a.args, a.tail))
      case _ => None
  }

  function CompileLet(d: Dialect, kind: LetKind, bindings: SExp, body: SExp): (r: Option<BodyForm>)
    decreases Size(bindings) + Size(body), 3
  {
    match (MakeLetBindings(d, bindings), CompileBodyform(d, body))
    case (Some(bs), Some(inner)) => Some(Let(kind, d.hintless, bs, inner))
    case _ => None
  }

  /** `make_let_bindings`. */
  function MakeLetBindings(d: Dialect, body: SExp): (r: Option<seq<Binding>>)
    decreases Size(body), 2
  {
    match body
    case Nil => Some([])
    case Cons(head, tl) =>
      (match ProperList(head)
       case None => None
       case Some(x) =>
         ElementsAreSmaller(head);
         if |x| != 2 || BindingName(d, x[0]) == None then None
         else
           match (CompileBodyform(d, x[1]), MakeLetBindings(d, tl))
           case (Some(expr), Some(rest)) => Some([Binding(Name(BindingName(d, x[0]).value), expr)] + rest)
           case _ => None)
    case _ => None
  }

  /** A let's variable; in dialects that are not strict anything but a pair or nil names one. */
  function BindingName(d: Dialect, s: SExp): (r: Option<bytes>) {
    match s
    case Atom(name) => Some(name)
    case Integer(i) => if d.strict then None else Some(U8FromNumber(i))
    case QuotedString(_, t) => if d.strict then None else Some(t)
    case _ => None
  }

  /** `handle_assign_form`.  Without bindings the form is its body. */
  function HandleAssign(d: Dialect, inlined: bool, v: seq<SExp>, bound: nat): (r: Option<BodyForm>)
    requires |v| % 2 == 1 && AllSmaller(v, bound)
    decreases bound, 1
  {
    match (AssignBindings(d, v, 0, {}, bound), CompileBodyform(d, v[|v| - 1]))
    case (Some(bs), Some(inner)) => Some(if bs == [] then inner else Let(Assign, inlined, bs, inner))
    case _ => None
  }

  /** The bindings from place `k` on; `seen` are the names bound before. */
  function AssignBindings(d: Dialect, v: seq<SExp>, k: nat, seen: Names, bound: nat): (r: Option<seq<Binding>>)
    requires |v| % 2 == 1 && k % 2 == 0 && k < |v| && AllSmaller(v, bound)
    decreases bound, 0, |v| - k
  {
    if k == |v| - 1 then Some([])
    else if SExpNames(v[k]) * seen != {} then None
    else
      match (CompileBodyform(d, v[k + 1]), AssignBindings(d, v, k + 2, seen + SExpNames(v[k]), bound))
      case (Some(body), Some(rest)) => Some([Binding(Complex(v[k]), body)] + rest)
      case _ => None
  }

  /** The loop of `handle_assign_form`. */
  method HandleAssignForm(d: Dialect, inlined: bool, v: seq<SExp>) returns (r: Option<BodyForm>)
    ensures var bound := Bound(v);
            r == if |v| % 2 == 0 then None else HandleAssign(d, inlined, v, bound)
  {
    if |v| % 2 == 0 {
      return None;
    }
    ghost var bound := Bound(v);
    var bindings: seq<Binding> := [];
    var checkDuplicates: Names := {};
    var idx := 0;
    ghost var whole := AssignBindings(d, v, 0, {}, bound);
    assert whole.Some? ==> [] + whole.value == whole.value;
    while idx < |v| - 1
      invariant idx % 2 == 0 && idx <= |v| - 1
      invariant AssignBindings(d, v, 0, {}, bound) == Preceded(bindings, AssignBindings(d, v, idx, checkDuplicates, bound))
    {
      var body := CompileBodyform(d, v[idx + 1]);
      if body == None || SExpNames(v[idx]) * checkDuplicates != {} {
        return None;
      }
      ghost var rest := AssignBindings(d, v, idx + 2, checkDuplicates + SExpNames(v[idx]), bound);
      if rest.Some? {
        assert bindings + ([Binding(Complex(v[idx]), body.value)] + rest.value) == (bindings + [Binding(Complex(v[idx]), body.value)]) + rest.value;
      }
      checkDuplicates := checkDuplicates + SExpNames(v[idx]);
      bindings := bindings + [Binding(Complex(v[idx]), body.value)];
      idx := idx + 2;
    }
    assert bindings + [] == bindings;
    var compiledBody := CompileBodyform(d, v[|v| - 1]);
    if compiledBody == None {
      return None;
    }
    return Some(if bindings == [] then compiledBody.value else Let(Assign, inlined, bindings, compiledBody.value));
  }

  function Preceded(before: seq<Binding>, rest: Option<seq<Binding>>): (r: Option<seq<Binding>>) {
    match rest case None => None case Some(bs) => Some(before + bs)
  }

  function Bound(v: seq<SExp>): (n: nat)
    ensures AllSmaller(v, n)
  {
    if v == [] then 0
    else
      var rest := Bound(v[1..]);
      var n := if Size(v[0]) < rest then rest else Size(v[0]) + 1;
      assert forall i :: 0 < i < |v| ==> v[i] == v[1..][i - 1];
      n
  }

  /** `qq_to_expression`. */
  function QqToExpression(d: Dialect, body: SExp): (r: Option<BodyForm>)
    decreases Size(body), 1
  {
    match body
    case Cons(f, r) =>
      var op := match f case Atom(o) => o case QuotedString(_, s) => s case Integer(i) => U8FromNumber(i) case _ => [];
      if IsQuote(op) then Some(Quoted(body))
      else if ProperList(r).Some? && (op == QUOTE || op == UNQUOTE) then
        var l := ProperList(r).value;
        ElementsAreSmaller(r);
        if |l| != 1 then None else if op == QUOTE then Some(Quoted(l[0])) else CompileBodyform(d, l[0])
      else QqToExpressionList(d, body)
    case _ => Some(Quoted(body))
  }

  /** `qq_to_expression_list`. */
  function QqToExpressionList(d: Dialect, body: SExp): (r: Option<BodyForm>)
    decreases Size(body), 0
  {
    match body
    case Cons(f, r) =>
      (match (QqToExpression(d, f), QqToExpressionList(d, r))
       case (Some(a), Some(b)) => Some(Call([Var(CONS_NAME), a, b], None))
       case _ => None)
    case Nil => Some(Quoted(Nil))
    case _ => None
  }

  /** `handle_lambda`. */
  function HandleLambda(d: Dialect, args: SExp, body: SExp): (r: Option<BodyForm>)
    decreases Size(args) + Size(body), 3
  {
    if HasCaptures(args) then
      assert Size(args.first.rest) < Size(args.first) < Size(args);
      match (MakeCaptures(d, args.first.rest), CompileBodyform(d, body))
      case (Some(captures), Some(inner)) => Some(Lambda(args.first.rest, args.rest, captures, inner))
      case _ => None
    else
      match CompileBodyform(d, body)
      case Some(inner) => Some(Lambda(Nil, args, Quoted(Nil), inner))
      case None => None
  }

  predicate HasCaptures(args: SExp) { args.Cons? && args.first.Cons? && args.first.first == Atom(AMP) }

  /** `make_captures`. */
  function MakeCaptures(d: Dialect, s: SExp): (r: Option<BodyForm>)
    decreases Size(s), 3
  {
    if s.Cons? then
      match (MakeCaptures(d, s.first), MakeCaptures(d, s.rest))
      case (Some(a), Some(b)) => Some(Call([Var([4]), a, b], None))
      case _ => None
    else if !Truthy(s) then Some(Quoted(Nil))
    else CompileBodyform(d, s)
  }

  // ---- What is read ------------------------------------------------------------------------------

  /** Bindings that no two of bind the same name. */
  predicate Apart(bs: seq<Binding>) { forall i, j :: 0 <= i < j < |bs| ==> Provides(bs[i]) !! Provides(bs[j]) }

  /** Expressions as they are read: calls are headed by words, let and let* bind words, and assign forms
      bind something, by patterns, and nothing in two of their bindings. */
  predicate WellMade(e: BodyForm) {
    match e
    case Let(kind, _, bs, inner) =>
      (if kind == Assign then bs != [] && AllComplex(bs) && Apart(bs) else forall b :: b in bs ==> b.pattern.Name?)
      && BindingsWellMade(bs) && WellMade(inner)
    case Call(forms, tail) => forms != [] && IsWord(forms[0]) && FormsWellMade(forms[1..]) && (tail.Some? ==> WellMade(tail.value))
    case Lambda(_, _, captures, body) => WellMade(captures) && WellMade(body)
    case _ => true
  }

  predicate BodyWellMade(b: Binding) { WellMade(b.body) }

  predicate BindingsWellMade(bs: seq<Binding>) { bs == [] || (BodyWellMade(bs[0]) && BindingsWellMade(bs[1..])) }

  predicate FormsWellMade(forms: seq<BodyForm>) { forms == [] || (WellMade(forms[0]) && FormsWellMade(forms[1..])) }

  /** Whatever is read is well made. */
  lemma {:induction false} ReadIsWellMade(d: Dialect, body: SExp)
    requires CompileBodyform(d, body).Some?
    ensures WellMade(CompileBodyform(d, body).value)
    decreases Size(body), 2
  {
    match body
    case Cons(Atom(name), tail) => FormIsWellMade(d, name, tail);
    case Cons(Integer(i), tail) => FormIsWellMade(d, U8FromNumber(i), tail);
    case _ =>
  }

  lemma {:induction false} FormIsWellMade(d: Dialect, name: bytes, tail: SExp)
    requires CompileForm(d, name, tail).Some?
    ensures WellMade(CompileForm(d, name, tail).value)
    decreases Size(tail), 3
  {
    if !IsQuote(name) {
      var v := ProperList(tail).value;
      ElementsAreSmaller(tail);
      if name == LET_NAME || name == LET_STAR {
        LetIsWellMade(d, if name == LET_NAME then Parallel else Sequential, v[0], v[1]);
      } else if name == ASSIGN_NAME || name == ASSIGN_LAMBDA || name == ASSIGN_INLINE {
        AssignIsWellMade(d, name == ASSIGN_INLINE, v, Size(tail));
      } else if name == QUASIQUOTE {
        QqIsWellMade(d, v[0]);
      } else if name == LAMBDA_NAME {
        LambdaIsWellMade(d, v[0], v[1]);
      } else if name != QUOTE {
        ArgsAreWellMade(d, tail);
        assert ([Var(name)] + ArgsToExpressions(d, tail).value.args)[1..] == ArgsToExpressions(d, tail).value.args;
      }
    }
  }

  lemma {:induction false} ArgsAreWellMade(d: Dialect, body: SExp)
    requires ArgsToExpressions(d, body).Some?
    ensures var a := ArgsToExpressions(d, body).value; FormsWellMade(a.args) && (a.tail.Some? ==> WellMade(a.tail.value))
    decreases Size(body), 2
  {
    if !Nilp(body) {
      ArgsAreWellMade(d, body.rest);
      if body.first != Atom(AMP_REST) {
        ReadIsWellMade(d, body.first);
        var rest := ArgsToExpressions(d, body.rest).value.args;
        assert ([CompileBodyform(d, body.first).value] + rest)[1..] == rest;
      }
    }
  }

  lemma {:induction false} LetIsWellMade(d: Dialect, kind: LetKind, bindings: SExp, body: SExp)
    requires kind != Assign && CompileLet(d, kind, bindings, body).Some?
    ensures WellMade(CompileLet(d, kind, bindings, body).value)
    decreases Size(bindings) + Size(body), 3
  {
    BindingsAreWellMade(d, bindings);
    ReadIsWellMade(d, body);
  }

  lemma {:induction false} BindingsAreWellMade(d: Dialect, body: SExp)
    requires MakeLetBindings(d, body).Some?
    ensures var bs := MakeLetBindings(d, body).value; BindingsWellMade(bs) && forall b :: b in bs ==> b.pattern.Name?
    decreases Size(body), 2
  {
    if body.Cons? {
      ElementsAreSmaller(body.first);
      var x := ProperList(body.first).value;
      ReadIsWellMade(d, x[1]);
      BindingsAreWellMade(d, body.rest);
      var bs, rest := MakeLetBindings(d, body).value, MakeLetBindings(d, body.rest).value;
      assert bs[1..] == rest && BodyWellMade(bs[0]);
    }
  }

  lemma {:induction false} AssignIsWellMade(d: Dialect, inlined: bool, v: seq<SExp>, bound: nat)
    requires |v| % 2 == 1 && AllSmaller(v, bound) && HandleAssign(d, inlined, v, bound).Some?
    ensures WellMade(HandleAssign(d, inlined, v, bound).value)
    decreases bound, 1
  {
    AssignBindingsAreWellMade(d, v, 0, {}, bound);
    ReadIsWellMade(d, v[|v| - 1]);
  }

  /** Bindings as an assign form has them, that bind none of some names. */
  predicate Assignable(bs: seq<Binding>, seen: Names) {
    BindingsWellMade(bs) && AllComplex(bs) && Apart(bs) && forall i :: 0 <= i < |bs| ==> Provides(bs[i]) !! seen
  }

  lemma {:induction false} OneMore(pattern: SExp, body: BodyForm, rest: seq<Binding>, seen: Names)
    requires WellMade(body) && SExpNames(pattern) !! seen && Assignable(rest, seen + SExpNames(pattern))
    ensures Assignable([Binding(Complex(pattern), body)] + rest, seen)
  {
    var bs := [Binding(Complex(pattern), body)] + rest;
    assert bs[1..] == rest && BodyWellMade(bs[0]);
    forall i | 0 < i < |bs| ensures bs[i].pattern.Complex? && Provides(bs[i]) !! seen + SExpNames(pattern) {
      assert bs[i] == rest[i - 1];
    }
    forall i, j | 0 <= i < j < |bs| ensures Provides(bs[i]) !! Provides(bs[j]) {
      if i > 0 {
        assert bs[i] == rest[i - 1] && bs[j] == rest[j - 1];
      }
    }
  }

  lemma {:induction false} AssignBindingsAreWellMade(d: Dialect, v: seq<SExp>, k: nat, seen: Names, bound: nat)
    requires |v| % 2 == 1 && k % 2 == 0 && k < |v| && AllSmaller(v, bound) && AssignBindings(d, v, k, seen, bound).Some?
    ensures Assignable(AssignBindings(d, v, k, seen, bound).value, seen)
    decreases bound, 0, |v| - k
  {
    if k < |v| - 1 {
      ReadIsWellMade(d, v[k + 1]);
      AssignBindingsAreWellMade(d, v, k + 2, seen + SExpNames(v[k]), bound);
      OneMore(v[k], CompileBodyform(d, v[k + 1]).value, AssignBindings(d, v, k + 2, seen + SExpNames(v[k]), bound).value, seen);
    }
  }

  lemma {:induction false} TwoWellMade(head: BodyForm, a: BodyForm, b: BodyForm)
    requires IsWord(head) && WellMade(a) && WellMade(b)
    ensures WellMade(Call([head, a, b], None))
  {
    assert [head, a, b][1..] == [a, b] && [a, b][1..] == [b] && [b][1..] == [];
    assert FormsWellMade([b]);
  }

  lemma {:induction false} QqIsWellMade(d: Dialect, body: SExp)
    requires QqToExpression(d, body).Some?
    ensures WellMade(QqToExpression(d, body).value)
    decreases Size(body), 1
  {
    if body.Cons? {
      if ProperList(body.rest).Some? && |ProperList(body.rest).value| == 1 {
        ElementsAreSmaller(body.rest);
        var l := ProperList(body.rest).value;
        if CompileBodyform(d, l[0]).Some? {
          ReadIsWellMade(d, l[0]);
        }
      }
      if QqToExpressionList(d, body).Some? {
        QqListIsWellMade(d, body);
      }
    }
  }

  lemma {:induction false} QqListIsWellMade(d: Dialect, body: SExp)
    requires QqToExpressionList(d, body).Some?
    ensures WellMade(QqToExpressionList(d, body).value)
    decreases Size(body), 0
  {
    if body.Cons? {
      QqIsWellMade(d, body.first);
      QqListIsWellMade(d, body.rest);
      TwoWellMade(Var(CONS_NAME), QqToExpression(d, body.first).value, QqToExpressionList(d, body.rest).value);
    }
  }

  lemma {:induction false} LambdaIsWellMade(d: Dialect, args: SExp, body: SExp)
    requires HandleLambda(d, args, body).Some?
    ensures WellMade(HandleLambda(d, args, body).value)
    decreases Size(args) + Size(body), 3
  {
    ReadIsWellMade(d, body);
    if HasCaptures(args) {
      assert Size(args.first.rest) < Size(args.first) < Size(args);
      CapturesAreWellMade(d, args.first.rest);
    }
  }

  lemma {:induction false} CapturesAreWellMade(d: Dialect, s: SExp)
    requires MakeCaptures(d, s).Some?
    ensures WellMade(MakeCaptures(d, s).value)
    decreases Size(s), 3
  {
    if s.Cons? {
      CapturesAreWellMade(d, s.first);
      CapturesAreWellMade(d, s.rest);
      TwoWellMade(Var([4]), MakeCaptures(d, s.first).value, MakeCaptures(d, s.rest).value);
    } else if Truthy(s) {
      ReadIsWellMade(d, s);
    }
  }

  /** So every call that is read is headed by a word. */
  lemma {:induction false} WellMadeInWords(e: BodyForm)
    requires WellMade(e)
    ensures WordHeads(e)
    decreases Weight(e), 1
  {
    match e
    case Let(kind, _, bs, inner) =>
      WeightPerBinding(bs);
      BindingsMadeInWords(bs);
      WellMadeInWords(inner);
    case Call(forms, tail) =>
      WeightParts(e);
      FormsMadeInWords(forms[1..]);
      if tail.Some? {
        WellMadeInWords(tail.value);
      }
    case Lambda(_, _, captures, body) =>
      WellMadeInWords(captures);
      WellMadeInWords(body);
    case _ =>
  }

  lemma {:induction false} BindingsMadeInWords(bs: seq<Binding>)
    requires BindingsWellMade(bs)
    ensures BindingsInWords(bs)
    decreases BindingsWeight(bs, 1), 2
  {
    if bs != [] {
      BindingParts(bs, 1);
      assert BodyWellMade(bs[0]);
      WellMadeInWords(bs[0].body);
      BindingsMadeInWords(bs[1..]);
      assert BodyInWords(bs[0]);
    }
  }

  lemma {:induction false} FormsMadeInWords(forms: seq<BodyForm>)
    requires FormsWellMade(forms)
    ensures FormsInWords(forms)
    decreases FormsWeight(forms), 2
  {
    if forms != [] {
      WellMadeInWords(forms[0]);
      FormsMadeInWords(forms[1..]);
    }
  }

  lemma {:induction false} ReadInWords(d: Dialect, body: SExp)
    requires CompileBodyform(d, body).Some?
    ensures WordHeads(CompileBodyform(d, body).value)
  {
    ReadIsWellMade(d, body);
    WellMadeInWords(CompileBodyform(d, body).value);
  }
}
