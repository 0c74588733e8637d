/** The stepwise CLVM machine: `run_step`, `combine` and `run`. */
module Machine {
  import opened Numbers
  import opened SExpressions

  /** The result of something that may fail or may run out of its step budget. */
  datatype Outcome<+T> = Success(value: T) | Failure | Timeout {
    predicate IsFailure() { !Success? }
    function PropagateFailure<U>(): Outcome<U>
      requires !Success?
    {
      if Failure? then Failure else Timeout
    }
    function Extract(): T
      requires Success?
    {
      value
    }
  }

  /** The primitive names the machine translates, and the external operator runner, which is
      given a whole program and its environment. */
  datatype Config = Config(prims: map<bytes, SExp>, runner: (Tree, Tree) -> Option<Tree>)

  datatype RunStep =
    | Done(result: SExp)
    | OpResult(value: SExp, returnTo: RunStep)
    | Op(head: SExp, opContext: SExp, tail: SExp, remain: Option<seq<SExp>>, opParent: RunStep)
    | Step(program: SExp, context: SExp, parent: RunStep)

  const APPLY_OP := 2
  const IF_OP := 3
  const CONS_OP := 4
  const FIRST_OP := 5
  const REST_OP := 6

  /** `choose_path`: the lowest bit picks a side, a lone 1 stops. */
  function ChoosePath(path: nat, context: SExp): (r: Outcome<SExp>)
    ensures !r.Timeout?
    decreases context
  {
    if path == 1 then Success(context)
    else if context.Cons? then
      ChoosePath(path / 2, if path % 2 == 0 then context.first else context.rest)
    else Failure
  }

  /** The collecting loop of `eval_args`: the argument expressions and the list terminator. */
  function ArgList(s: SExp): (r: Option<(seq<SExp>, SExp)>) {
    if s.Cons? then
      match ArgList(s.rest)
      case None => None
      case Some(p) => Some(([s.first] + p.0, p.1))
    else if !Truthy(s) then Some(([], s))
    else None
  }

  method ArgListLoop(s: SExp) returns (r: Option<(seq<SExp>, SExp)>)
    ensures r == ArgList(s)
  {
    var evalList: seq<SExp> := [];
    var sexp := s;
    assert forall l: seq<SExp> :: [] + l == l;
    while sexp.Cons?
      invariant ArgList(s) ==
                match ArgList(sexp) case None => None case Some(p) => Some((evalList + p.0, p.1))
      decreases sexp
    {
      assert forall l: seq<SExp> :: evalList + ([sexp.first] + l) == (evalList + [sexp.first]) + l;
      evalList := evalList + [sexp.first];
      sexp := sexp.rest;
    }
    if !Truthy(sexp) {
      assert evalList + [] == evalList;
      return Some((evalList, sexp));
    }
    return None;
  }

  /** `generate_argument_refs`: an argument list replaced by the paths that reach its elements. */
  function GenerateArgumentRefs(start: nat, s: SExp): (r: SExp)
    decreases s
  {
    if s.Cons? then Cons(Integer(start), GenerateArgumentRefs(1 + 2 * start, s.rest)) else s
  }

  /** `apply_op`: run the operator externally on references into a copy of the arguments. */
  function ApplyOp(m: Config, head: SExp, args: SExp): (r: Outcome<SExp>) {
    var application := Cons(head, GenerateArgumentRefs(5, args));
    match m.runner(ConvertTo(application), ConvertTo(Cons(Nil, args)))
    case None => Failure
    case Some(t) => Success(ConvertFrom(t))
  }

  /** The number of arguments the built-in operators insist on. */
  function WantedArgs(aval: int): Option<nat> {
    if aval == IF_OP then Some(3)
    else if aval == CONS_OP || aval == APPLY_OP then Some(2)
    else if aval == FIRST_OP || aval == REST_OP then Some(1)
    else None
  }

  /** `combine` of a finished value with the step it returns to. */
  function Combine(value: SExp, parent: RunStep): (s: RunStep)
    decreases parent
  {
    match parent
    case Done(_) => Done(value)
    case Op(head, context, args, Some(remain), p) =>
      Op(head, context, Cons(value, args), Some(remain), p)
    case Op(_, _, _, None, p) => Combine(value, p)
    case Step(_, _, p) => Combine(value, p)
    case OpResult(_, _) => Done(value)
  }

  function TranslateNumber(m: Config, i: int): SExp {
    var b := U8FromNumber(i);
    if b in m.prims then m.prims[b] else Integer(i)
  }

  function TranslateAtom(m: Config, b: bytes): SExp {
    if b in m.prims then m.prims[b] else TranslateNumber(m, NumberFromU8(b))
  }

  /** `translate_head`.  A head that is itself a one-element list is run as a program; that
      nested run gets a budget one smaller than this one's. */
  function TranslateHead(m: Config, budget: nat, head: SExp, context: SExp): (r: Outcome<SExp>)
    decreases budget, 1
  {
    match head
    case Nil => Failure
    case QuotedString(_, t) => Success(TranslateAtom(m, t))
    case Atom(t) => Success(TranslateAtom(m, t))
    case Integer(i) => Success(TranslateNumber(m, i))
    case Cons(_, end) =>
      if end != Nil then Failure
      else if budget == 0 then Timeout
      else Run(m, budget - 1, head, context)
  }

  /** `run_step`. */
  function RunOneStep(m: Config, budget: nat, s: RunStep): (r: Outcome<RunStep>)
    decreases budget, 2
  {
    match s
    case OpResult(x, p) => Success(Combine(x, p))
    case Done(x) => Success(s)
    case Step(Integer(v), context, _) =>
      var x :- ChoosePath(FlattenSigned(v), context);
      Success(OpResult(x, s))
    case Step(QuotedString(_, t), context, p) => Success(Step(Integer(NumberFromU8(t)), context, p))
    case Step(Atom(t), context, p) => Success(Step(Integer(NumberFromU8(t)), context, p))
    case Step(Nil, _, _) => Success(OpResult(Nil, s))
    case Step(Cons(a, b), context, p) =>
      var head :- TranslateHead(m, budget, a, context);
      (match AtomValue(head)
       case None => Failure
       case Some(v) =>
         if v == 1 then Success(Combine(b, s))
         else match ArgList(b)
           case None => Failure
           case Some((list, end)) => Success(Op(head, context, end, Some(list), p)))
    case Op(head, context, tail, Some(rest), p) =>
      if rest == [] then Success(Op(head, context, tail, None, p))
      else
        var k := |rest| - 1;
        Success(Step(rest[k], context, Op(head, context, tail, Some(rest[..k]), p)))
    case Op(head, context, tail, None, p) => RunOperator(m, s)
  }

  /** `run_step` on an operator whose arguments are all evaluated. */
  function RunOperator(m: Config, s: RunStep): (r: Outcome<RunStep>)
    requires s.Op? && s.remain == None
  {
    match (AtomValue(s.head), ProperList(s.tail))
    case (None, _) => Failure
    case (_, None) => Failure
    case (Some(aval), Some(l)) =>
      if WantedArgs(aval).Some? && |l| != WantedArgs(aval).value then Failure
      else if aval == IF_OP then Success(Combine(if Truthy(l[0]) then l[1] else l[2], s))
      else if aval == CONS_OP then Success(OpResult(Cons(l[0], l[1]), s))
      else if aval == FIRST_OP || aval == REST_OP then
        if l[0].Cons?
        then Success(OpResult(if aval == FIRST_OP then l[0].first else l[0].rest, s))
        else Failure
      else if aval == APPLY_OP then Success(Step(l[0], l[1], s.opParent))
      else
        var x :- ApplyOp(m, s.head, s.tail);
        Success(OpResult(x, s))
  }

  /** `start_step`. */
  function StartStep(program: SExp, context: SExp): RunStep {
    Step(program, context, Done(program))
  }

  /** Up to `limit` iterations of the loop in `run`. */
  function Loop(m: Config, budget: nat, limit: nat, s: RunStep): (r: Outcome<SExp>)
    decreases budget, 3, limit
  {
    if limit == 0 then Timeout
    else
      var next :- RunOneStep(m, budget, s);
      if next.Done? then Success(next.result) else Loop(m, budget, limit - 1, next)
  }

  /** `run` with an iteration limit. */
  function Run(m: Config, limit: nat, program: SExp, context: SExp): (r: Outcome<SExp>)
    decreases limit, 4
  {
    Loop(m, limit, limit, StartStep(program, context))
  }

  /** The loop of `run` itself. */
  method RunLoop(m: Config, limit: nat, program: SExp, context: SExp) returns (r: Outcome<SExp>)
    ensures r == Run(m, limit, program, context)
  {
    var step := StartStep(program, context);
    var iters := 0;
    while true
      invariant iters <= limit
      invariant Loop(m, limit, limit - iters, step) == Run(m, limit, program, context)
      decreases limit - iters
    {
      if limit <= iters {
        return Timeout;
      }
      iters := iters + 1;
      var next := RunOneStep(m, limit, step);
      if next.IsFailure() {
        return next.PropagateFailure();
      }
      step := next.value;
      if step.Done? {
        return Success(step.result);
      }
    }
  }
}
