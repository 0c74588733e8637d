/** The stepwise machine and the recursive evaluator agree, in both directions and under every
    continuation. */
module MachineRefinement {
  import opened Numbers
  import opened SExpressions
  import opened Machine
  import opened BigStep

  /** Exactly `j` steps of the machine. */
  function Iter(m: Config, b: nat, j: nat, s: RunStep): (r: Outcome<RunStep>)
    decreases j
  {
    if j == 0 then Success(s)
    else
      var next :- RunOneStep(m, b, s);
      Iter(m, b, j - 1, next)
  }

  lemma {:induction false} IterConcat(m: Config, b: nat, i: nat, j: nat, s: RunStep)
    requires Iter(m, b, i, s).Success?
    ensures Iter(m, b, i + j, s) == Iter(m, b, j, Iter(m, b, i, s).value)
    decreases i
  {
    if i > 0 {
      IterConcat(m, b, i - 1, j, RunOneStep(m, b, s).value);
    }
  }

  lemma {:induction false} IterMono(m: Config, b: nat, b': nat, j: nat, s: RunStep)
    requires b <= b' && !Iter(m, b, j, s).Timeout?
    ensures Iter(m, b', j, s) == Iter(m, b, j, s)
    decreases j
  {
    if j > 0 {
      StepMono(m, b, b', s);
      var next := RunOneStep(m, b, s);
      if next.Success? {
        IterMono(m, b, b', j - 1, next.value);
      }
    }
  }

  /** Follow `i` steps by `j` more, under the larger of two budgets. */
  lemma {:induction false} Chain(m: Config, b1: nat, i: nat, b2: nat, j: nat, s: RunStep, t: RunStep) returns (b: nat)
    requires Iter(m, b1, i, s) == Success(t) && !Iter(m, b2, j, t).Timeout?
    ensures b >= b1 && b >= b2 && Iter(m, b, i + j, s) == Iter(m, b2, j, t)
  {
    b := if b1 > b2 then b1 else b2;
    IterMono(m, b1, b, i, s);
    IterMono(m, b2, b, j, t);
    IterConcat(m, b, i, j, s);
  }

  lemma {:induction false} IterToLoop(m: Config, b: nat, j: nat, s: RunStep)
    requires !s.Done?
    ensures Iter(m, b, j, s) == Failure ==> Loop(m, b, j, s) == Failure
    ensures Iter(m, b, j, s).Success? && Iter(m, b, j, s).value.Done?
            ==> Loop(m, b, j, s) == Success(Iter(m, b, j, s).value.result)
    decreases j
  {
    if j > 0 {
      var next := RunOneStep(m, b, s);
      if next.Success? {
        if next.value.Done? {
          DoneStays(m, b, j - 1, next.value);
        } else {
          IterToLoop(m, b, j - 1, next.value);
        }
      }
    }
  }

  lemma {:induction false} DoneStays(m: Config, b: nat, j: nat, s: RunStep)
    requires s.Done?
    ensures Iter(m, b, j, s) == Success(s)
    decreases j
  {
    if j > 0 {
      DoneStays(m, b, j - 1, s);
    }
  }

  /** What the machine must show once evaluation with result `r` has been handed to `k`. */
  predicate Returned(it: Outcome<RunStep>, r: Outcome<SExp>, k: RunStep) {
    match r
    case Success(v) => it == Success(Combine(v, k))
    case Failure => it == Failure
    case Timeout => false
  }

  // ---- From the evaluator to the machine ------------------------------------------------------

  /** If evaluation decides, a Step under any parent `k` returns that value to `k`. */
  lemma {:induction false} EvalToMachine(m: Config, n: nat, e: SExp, c: SExp, k: RunStep)
    returns (b: nat, j: nat)
    requires !Eval(m, n, e, c).Timeout?
    ensures Returned(Iter(m, b, j, Step(e, c, k)), Eval(m, n, e, c), k)
    decreases n, 0, e
  {
    var s := Step(e, c, k);
    if !e.Cons? {
      b := 0;
      j := LeafToMachine(m, e, c, k);
      EvalMono(m, 1, n, e, c);
      return;
    }
    b := HeadToMachine(m, n - 1, e.first, c);
    var h := EvalHead(m, n - 1, e.first, c);
    if h == Failure || AtomValue(h.value) == None || AtomValue(h.value) == Some(1) || ArgList(e.rest) == None {
      j := 1;
      assert Iter(m, b, 1, s) == (match RunOneStep(m, b, s) case Success(t) => Iter(m, b, 0, t) case Failure => Failure case Timeout => Timeout);
      return;
    }
    var (list, end) := ArgList(e.rest).value;
    var t := Op(h.value, c, end, Some(list), k);
    assert RunOneStep(m, b, s) == Success(t);
    assert Iter(m, b, 1, s) == Iter(m, b, 0, t) == Success(t);
    var b2, j2 := ArgsToMachine(m, n - 1, e.rest, h.value, c, [], k);
    assert [] + list == list;
    b := Chain(m, b, 1, b2, j2, s, t);
    j := 1 + j2;
    var args := EvalArgs(m, n - 1, e.rest, c);
    if args.Success? {
      var u := Op(h.value, c, args.value, Some([]), k);
      var b3, j3 := OperateToMachine(m, n - 1, h.value, c, args.value, k);
      b := Chain(m, b, j, b3, j3, s, u);
      j := j + j3;
    }
  }

  lemma {:induction false} LeafToMachine(m: Config, e: SExp, c: SExp, k: RunStep) returns (j: nat)
    requires !e.Cons?
    ensures Returned(Iter(m, 0, j, Step(e, c, k)), Eval(m, 1, e, c), k)
  {
    match e
    case Nil =>
      j := 2;
      OpResultReturns(m, Nil, Step(e, c, k));
    case Integer(v) =>
      j := 2;
      PathToMachine(m, v, c, k);
    case QuotedString(_, t) =>
      j := 3;
      PathToMachine(m, NumberFromU8(t), c, k);
    case Atom(t) =>
      j := 3;
      PathToMachine(m, NumberFromU8(t), c, k);
  }

  lemma {:induction false} OpResultReturns(m: Config, x: SExp, p: RunStep)
    ensures Iter(m, 0, 1, OpResult(x, p)) == Success(Combine(x, p))
  {
    assert Iter(m, 0, 0, Combine(x, p)) == Success(Combine(x, p));
  }

  lemma {:induction false} PathToMachine(m: Config, v: int, c: SExp, k: RunStep)
    ensures Returned(Iter(m, 0, 2, Step(Integer(v), c, k)), ChoosePath(FlattenSigned(v), c), k)
  {
    var r := ChoosePath(FlattenSigned(v), c);
    if r.Success? {
      OpResultReturns(m, r.value, Step(Integer(v), c, k));
    }
  }

  lemma {:induction false} HeadToMachine(m: Config, n: nat, a: SExp, c: SExp) returns (b: nat)
    requires !EvalHead(m, n, a, c).Timeout?
    ensures TranslateHead(m, b, a, c) == EvalHead(m, n, a, c)
    decreases n, 1, a
  {
    b := 0;
    if a.Cons? && a.rest == Nil {
      var b1, j1 := EvalToMachine(m, n, a, c, Done(a));
      IterToLoop(m, b1, j1, StartStep(a, c));
      var d := if b1 > j1 then b1 else j1;
      LoopMono(m, b1, d, j1, d, StartStep(a, c));
      b := d + 1;
    }
  }

  lemma {:induction false} ArgsToMachine(m: Config, n: nat, e: SExp, head: SExp, c: SExp, pre: seq<SExp>, k: RunStep)
    returns (b: nat, j: nat)
    requires !EvalArgs(m, n, e, c).Timeout? && ArgList(e).Some?
    ensures var it := Iter(m, b, j, Op(head, c, ArgList(e).value.1, Some(pre + ArgList(e).value.0), k));
            match EvalArgs(m, n, e, c)
            case Success(args) => it == Success(Op(head, c, args, Some(pre), k))
            case Failure => it == Failure
            case Timeout => false
    decreases n, 1, e
  {
    b, j := 0, 0;
    if !e.Cons? {
      assert pre + [] == pre;
      return;
    }
    var (list, end) := ArgList(e.rest).value;
    assert pre + ([e.first] + list) == (pre + [e.first]) + list;
    var s := Op(head, c, end, Some(pre + ([e.first] + list)), k);
    b, j := ArgsToMachine(m, n, e.rest, head, c, pre + [e.first], k);
    var rest := EvalArgs(m, n, e.rest, c);
    if rest.Success? {
      var t := Op(head, c, rest.value, Some(pre + [e.first]), k);
      var k' := Op(head, c, rest.value, Some(pre), k);
      assert (pre + [e.first])[..|pre|] == pre;
      assert RunOneStep(m, b, t) == Success(Step(e.first, c, k'));
      assert Iter(m, b, 1, t) == Iter(m, b, 0, Step(e.first, c, k')) == Success(Step(e.first, c, k'));
      var b2, j2 := EvalToMachine(m, n, e.first, c, k');
      b := Chain(m, b, j, b, 1, s, t);
      j := j + 1;
      b := Chain(m, b, j, b2, j2, s, Step(e.first, c, k'));
      j := j + j2;
    }
  }

  lemma {:induction false} OperateToMachine(m: Config, n: nat, head: SExp, c: SExp, args: SExp, k: RunStep)
    returns (b: nat, j: nat)
    requires !Operate(m, n, head, args).Timeout?
    ensures Returned(Iter(m, b, j, Op(head, c, args, Some([]), k)), Operate(m, n, head, args), k)
    decreases n, 1, args
  {
    var s := Op(head, c, args, Some([]), k);
    var t := Op(head, c, args, None, k);
    assert Iter(m, 0, 1, s) == Iter(m, 0, 0, t) == Success(t);
    var l := ProperList(args);
    if AtomValue(head) == Some(APPLY_OP) && l.Some? && |l.value| == 2 {
      var u := Step(l.value[0], l.value[1], k);
      assert Iter(m, 0, 1, t) == Iter(m, 0, 0, u) == Success(u);
      b := Chain(m, 0, 1, 0, 1, s, t);
      var b2, j2 := EvalToMachine(m, n, l.value[0], l.value[1], k);
      b := Chain(m, b, 2, b2, j2, s, u);
      j := 2 + j2;
    } else {
      b := 0;
      j := OperatorReturns(m, n, head, c, args, k);
      b := Chain(m, 0, 1, 0, j, s, t);
      j := 1 + j;
    }
  }

  lemma {:induction false} OperatorReturns(m: Config, n: nat, head: SExp, c: SExp, args: SExp, k: RunStep) returns (j: nat)
    requires !(AtomValue(head) == Some(APPLY_OP) && ProperList(args).Some? && |ProperList(args).value| == 2)
    ensures Returned(Iter(m, 0, j, Op(head, c, args, None, k)), Operate(m, n, head, args), k)
  {
    var t := Op(head, c, args, None, k);
    var r := RunOperator(m, t);
    j := 1;
    if r.Success? {
      assert Iter(m, 0, 1, t) == Iter(m, 0, 0, r.value) == r;
      if AtomValue(head) != Some(IF_OP) {
        OpResultReturns(m, r.value.value, t);
        IterConcat(m, 0, 1, 1, t);
        j := 2;
      }
    }
  }

  // ---- From the machine to the evaluator ------------------------------------------------------

  /** The step `s` still works on behalf of `k`: `k` is somewhere up its parent chain. */
  predicate Above(s: RunStep, k: RunStep) {
    match s
    case Done(_) => false
    case OpResult(_, p) => p == k || Above(p, k)
    case Op(_, _, _, _, p) => p == k || Above(p, k)
    case Step(_, _, p) => p == k || Above(p, k)
  }

  lemma {:induction false} AboveTransitive(s: RunStep, p: RunStep, k: RunStep)
    requires Above(s, p) && Above(p, k)
    ensures Above(s, k)
  {
    match s
    case OpResult(_, q) => if q != p { AboveTransitive(q, p, k); }
    case Op(_, _, _, _, q) => if q != p { AboveTransitive(q, p, k); }
    case Step(_, _, q) => if q != p { AboveTransitive(q, p, k); }
  }

  /** After some steps the machine has failed, or no longer works on behalf of `k`. */
  predicate Left(it: Outcome<RunStep>, k: RunStep) {
    it.Failure? || (it.Success? && !Above(it.value, k))
  }

  /** What leaving `k` behind says about an evaluation `r` that was started under it: either the
      evaluation failed, or it gave a value that was handed to `k` after `i` steps. */
  predicate CameFrom(m: Config, b: nat, j: nat, i: nat, it: Outcome<RunStep>, r: Outcome<SExp>, k: RunStep) {
    match r
    case Success(v) => i <= j && Iter(m, b, j - i, Combine(v, k)) == it
    case Failure => it == Failure
    case Timeout => false
  }

  lemma {:induction false} MachineToEval(m: Config, b: nat, j: nat, e: SExp, c: SExp, k: RunStep)
    returns (n: nat, i: nat)
    requires Left(Iter(m, b, j, Step(e, c, k)), k)
    ensures CameFrom(m, b, j, i, Iter(m, b, j, Step(e, c, k)), Eval(m, n, e, c), k)
    decreases b, j, 1, e
  {
    if !e.Cons? {
      n := 1;
      i := LeafFromMachine(m, b, j, e, c, k);
      return;
    }
    var n1 := HeadFromMachine(m, b, j, e.first, c);
    var h := EvalHead(m, n1, e.first, c);
    n, i := n1 + 1, 1;
    if h == Failure || AtomValue(h.value) == None || AtomValue(h.value) == Some(1) || ArgList(e.rest) == None {
      return;
    }
    n, i := CallFromMachine(m, b, j, e, c, k, n1, h.value);
  }

  /** A call evaluates as its parts do, each with what it needs. */
  lemma {:induction false} CallEvaluates(m: Config, n1: nat, n2: nat, n3: nat, e: SExp, c: SExp, h: SExp)
    requires e.Cons? && EvalHead(m, n1, e.first, c) == Success(h) && AtomValue(h) != None && AtomValue(h) != Some(1) && ArgList(e.rest).Some?
    requires var args := EvalArgs(m, n2, e.rest, c); !args.Timeout? && (args.Success? ==> !Operate(m, n3, h, args.value).Timeout?)
    ensures var args := EvalArgs(m, n2, e.rest, c);
            Eval(m, n1 + n2 + n3 + 1, e, c) == if args.Success? then Operate(m, n3, h, args.value) else Failure
  {
    var n, args := n1 + n2 + n3, EvalArgs(m, n2, e.rest, c);
    EvalHeadMono(m, n1, n, e.first, c);
    EvalArgsMono(m, n2, n, e.rest, c);
    if args.Success? {
      OperateMono(m, n3, n, h, args.value);
    }
  }

  /** A call whose head the machine has translated. */
  lemma {:induction false} CallFromMachine(m: Config, b: nat, j: nat, e: SExp, c: SExp, k: RunStep, n1: nat, h: SExp)
    returns (n: nat, i: nat)
    requires Left(Iter(m, b, j, Step(e, c, k)), k) && e.Cons? && EvalHead(m, n1, e.first, c) == Success(h)
    requires j > 0 && AtomValue(h) != None && AtomValue(h) != Some(1) && ArgList(e.rest).Some?
    requires RunOneStep(m, b, Step(e, c, k)) == Success(Op(h, c, ArgList(e.rest).value.1, Some(ArgList(e.rest).value.0), k))
    ensures CameFrom(m, b, j, i, Iter(m, b, j, Step(e, c, k)), Eval(m, n, e, c), k)
    decreases b, j, 0, e
  {
    var (list, end) := ArgList(e.rest).value;
    assert [] + list == list;
    var n2, i2 := ArgsFromMachine(m, b, j - 1, e.rest, h, c, [], k);
    var args := EvalArgs(m, n2, e.rest, c);
    var n3 := n2;
    i := 1 + i2;
    if args.Success? {
      var i3;
      n3, i3 := OperateFromMachine(m, b, j - 1 - i2, h, c, args.value, k);
      i := i + i3;
    }
    n := n1 + n2 + n3 + 1;
    CallEvaluates(m, n1, n2, n3, e, c, h);
  }

  lemma {:induction false} LeafFromMachine(m: Config, b: nat, j: nat, e: SExp, c: SExp, k: RunStep) returns (i: nat)
    requires !e.Cons? && Left(Iter(m, b, j, Step(e, c, k)), k)
    ensures CameFrom(m, b, j, i, Iter(m, b, j, Step(e, c, k)), Eval(m, 1, e, c), k)
  {
    match e
    case Nil =>
      i := 2;
      assert RunOneStep(m, b, Step(e, c, k)) == Success(OpResult(Nil, Step(e, c, k)));
      OpResultFrom(m, b, j - 1, Nil, Step(e, c, k), k);
    case Integer(v) =>
      i := PathFromMachine(m, b, j, v, c, k);
    case QuotedString(_, t) =>
      i := PathFromMachine(m, b, j - 1, NumberFromU8(t), c, k);
      i := i + 1;
    case Atom(t) =>
      i := PathFromMachine(m, b, j - 1, NumberFromU8(t), c, k);
      i := i + 1;
  }

  lemma {:induction false} OpResultFrom(m: Config, b: nat, j: nat, x: SExp, p: RunStep, k: RunStep)
    requires Above(p, k) && Left(Iter(m, b, j, OpResult(x, p)), k)
    ensures j >= 1 && Iter(m, b, j - 1, Combine(x, p)) == Iter(m, b, j, OpResult(x, p))
  {
    assert RunOneStep(m, b, OpResult(x, p)) == Success(Combine(x, p));
  }

  lemma {:induction false} PathFromMachine(m: Config, b: nat, j: nat, v: int, c: SExp, k: RunStep) returns (i: nat)
    requires Left(Iter(m, b, j, Step(Integer(v), c, k)), k)
    ensures CameFrom(m, b, j, i, Iter(m, b, j, Step(Integer(v), c, k)), ChoosePath(FlattenSigned(v), c), k)
  {
    i := 2;
    var r := ChoosePath(FlattenSigned(v), c);
    var s := Step(Integer(v), c, k);
    if r.Success? {
      assert RunOneStep(m, b, s) == Success(OpResult(r.value, s));
      OpResultFrom(m, b, j - 1, r.value, s, k);
    }
  }

  lemma {:induction false} HeadFromMachine(m: Config, b: nat, j: nat, a: SExp, c: SExp) returns (n: nat)
    requires !TranslateHead(m, b, a, c).Timeout?
    ensures EvalHead(m, n, a, c) == TranslateHead(m, b, a, c)
    decreases b, j, 0, a
  {
    n := 0;
    if a.Cons? && a.rest == Nil {
      var s := StartStep(a, c);
      var j' := LoopToIter(m, b - 1, b - 1, s);
      var i;
      n, i := MachineToEval(m, b - 1, j', a, c, Done(a));
      var r := Eval(m, n, a, c);
      if r.Success? {
        DoneStays(m, b - 1, j' - i, Done(r.value));
      }
    }
  }

  /** A decided loop has made a number of steps that ends in Done or in failure. */
  lemma {:induction false} LoopToIter(m: Config, b: nat, limit: nat, s: RunStep) returns (j: nat)
    requires !s.Done? && !Loop(m, b, limit, s).Timeout?
    ensures match Loop(m, b, limit, s)
            case Success(v) => Iter(m, b, j, s) == Success(Done(v))
            case Failure => Iter(m, b, j, s) == Failure
            case Timeout => false
    decreases limit
  {
    var next := RunOneStep(m, b, s);
    if next.Success? && !next.value.Done? {
      j := LoopToIter(m, b, limit - 1, next.value);
      j := j + 1;
    } else {
      j := 1;
    }
  }

  lemma {:induction false} ArgsFromMachine(m: Config, b: nat, j: nat, e: SExp, head: SExp, c: SExp, pre: seq<SExp>, k: RunStep)
    returns (n: nat, i: nat)
    requires ArgList(e).Some?
    requires Left(Iter(m, b, j, Op(head, c, ArgList(e).value.1, Some(pre + ArgList(e).value.0), k)), k)
    ensures var it := Iter(m, b, j, Op(head, c, ArgList(e).value.1, Some(pre + ArgList(e).value.0), k));
            match EvalArgs(m, n, e, c)
            case Success(args) => i <= j && Iter(m, b, j - i, Op(head, c, args, Some(pre), k)) == it
            case Failure => it == Failure
            case Timeout => false
    decreases b, j, 1, e
  {
    n, i := 0, 0;
    if !e.Cons? {
      assert pre + [] == pre;
      return;
    }
    var (list, end) := ArgList(e.rest).value;
    assert pre + ([e.first] + list) == (pre + [e.first]) + list;
    var n1, i1 := ArgsFromMachine(m, b, j, e.rest, head, c, pre + [e.first], k);
    var rest := EvalArgs(m, n1, e.rest, c);
    n, i := n1, i1;
    if rest.Success? {
      var t := Op(head, c, rest.value, Some(pre + [e.first]), k);
      var k' := Op(head, c, rest.value, Some(pre), k);
      assert (pre + [e.first])[..|pre|] == pre;
      assert RunOneStep(m, b, t) == Success(Step(e.first, c, k'));
      var it := Iter(m, b, j - i1 - 1, Step(e.first, c, k'));
      if it.Success? && Above(it.value, k') {
        AboveTransitive(it.value, k', k);
      }
      var n2, i2 := MachineToEval(m, b, j - i1 - 1, e.first, c, k');
      n, i := n1 + n2, i1 + 1 + i2;
      EvalArgsMono(m, n1, n, e.rest, c);
      EvalMono(m, n2, n, e.first, c);
    }
  }

  lemma {:induction false} OperateFromMachine(m: Config, b: nat, j: nat, head: SExp, c: SExp, args: SExp, k: RunStep)
    returns (n: nat, i: nat)
    requires Left(Iter(m, b, j, Op(head, c, args, Some([]), k)), k)
    ensures CameFrom(m, b, j, i, Iter(m, b, j, Op(head, c, args, Some([]), k)), Operate(m, n, head, args), k)
    decreases b, j, 1, args
  {
    var s := Op(head, c, args, Some([]), k);
    var t := Op(head, c, args, None, k);
    assert RunOneStep(m, b, s) == Success(t);
    assert RunOneStep(m, b, t) == RunOperator(m, t);
    assert Iter(m, b, j, s) == Iter(m, b, j - 1, t);
    var l := ProperList(args);
    n := 0;
    if AtomValue(head) == Some(APPLY_OP) && l.Some? && |l.value| == 2 {
      n, i := MachineToEval(m, b, j - 2, l.value[0], l.value[1], k);
      i := i + 2;
    } else if AtomValue(head) == Some(IF_OP) {
      i := 2;
    } else {
      i := 3;
      if RunOperator(m, t).Success? {
        OpResultFrom(m, b, j - 2, RunOperator(m, t).value.value, t, k);
      }
    }
  }

  // ---- The main results -----------------------------------------------------------------------

  /** Evaluation decides `o` for some nesting bound. */
  ghost predicate Evaluates(m: Config, e: SExp, c: SExp, o: Outcome<SExp>) {
    exists n: nat :: Eval(m, n, e, c) == o
  }

  /** The machine gets from `s` to `t` in some number of steps. */
  ghost predicate Reaches(m: Config, s: RunStep, t: RunStep) {
    exists b: nat, j: nat :: Iter(m, b, j, s) == Success(t)
  }

  lemma {:induction false} EvaluatesOnce(m: Config, e: SExp, c: SExp, o: Outcome<SExp>, o': Outcome<SExp>)
    requires Evaluates(m, e, c, o) && Evaluates(m, e, c, o') && !o.Timeout? && !o'.Timeout?
    ensures o == o'
  {
    var n: nat :| Eval(m, n, e, c) == o;
    var n': nat :| Eval(m, n', e, c) == o';
    EvalMono(m, n, n + n', e, c);
    EvalMono(m, n', n + n', e, c);
  }

  lemma {:induction false} CombineLeaves(v: SExp, k: RunStep, k0: RunStep)
    requires k == k0 || Above(k0, k)
    ensures !Above(Combine(v, k), k0)
    decreases k
  {
    match k
    case Op(_, _, _, None, p) =>
      if k != k0 { AboveTransitive(k0, k, p); }
      CombineLeaves(v, p, k0);
    case Step(_, _, p) =>
      if k != k0 { AboveTransitive(k0, k, p); }
      CombineLeaves(v, p, k0);
    case Op(_, _, _, Some(_), p) =>
      if k != k0 { AboveTransitive(k0, k, p); }
      assert Above(k0, p);
      if p == k0 || Above(p, k0) {
        if p != k0 { AboveTransitive(k0, p, k0); }
        NotAboveItself(k0);
      }
    case _ =>
  }

  function Depth(s: RunStep): nat {
    match s
    case Done(_) => 0
    case OpResult(_, p) => 1 + Depth(p)
    case Op(_, _, _, _, p) => 1 + Depth(p)
    case Step(_, _, p) => 1 + Depth(p)
  }

  lemma {:induction false} AboveIsDeeper(s: RunStep, k: RunStep)
    requires Above(s, k)
    ensures Depth(s) > Depth(k)
  {
    match s
    case OpResult(_, q) => if q != k { AboveIsDeeper(q, k); }
    case Op(_, _, _, _, q) => if q != k { AboveIsDeeper(q, k); }
    case Step(_, _, q) => if q != k { AboveIsDeeper(q, k); }
  }

  lemma {:induction false} NotAboveItself(k: RunStep)
    ensures !Above(k, k)
  {
    if Above(k, k) {
      AboveIsDeeper(k, k);
    }
  }

  /** A Step under parent `k` comes to the state in which `v` has been handed to `k` whenever its
      evaluation gives `v`; ... */
  lemma {:induction false} StepReturnsToParent(m: Config, e: SExp, c: SExp, k: RunStep, v: SExp)
    requires Evaluates(m, e, c, Success(v))
    ensures Reaches(m, Step(e, c, k), Combine(v, k)) && !Above(Combine(v, k), k)
  {
    var n: nat :| Eval(m, n, e, c) == Success(v);
    var b, j := EvalToMachine(m, n, e, c, k);
    assert Iter(m, b, j, Step(e, c, k)) == Success(Combine(v, k));
    CombineLeaves(v, k, k);
  }

  /** ... and it can leave `k` in no other way: any state reached from it that no longer works for
      `k` is reached through that one state. */
  lemma {:induction false} LeavesOnlyByReturning(m: Config, e: SExp, c: SExp, k: RunStep, t: RunStep)
    requires Reaches(m, Step(e, c, k), t) && !Above(t, k)
    ensures exists v :: Evaluates(m, e, c, Success(v)) && Reaches(m, Combine(v, k), t)
  {
    var b: nat, j: nat :| Iter(m, b, j, Step(e, c, k)) == Success(t);
    var n, i := MachineToEval(m, b, j, e, c, k);
    var r := Eval(m, n, e, c);
    assert Iter(m, b, j - i, Combine(r.value, k)) == Success(t);
    assert Evaluates(m, e, c, Success(r.value)) && Reaches(m, Combine(r.value, k), t);
  }

  /** Running a program to completion and evaluating it give the same decided outcomes. */
  lemma {:induction false} RunIsEval(m: Config, e: SExp, c: SExp, o: Outcome<SExp>)
    requires !o.Timeout?
    ensures (exists limit: nat :: Run(m, limit, e, c) == o) <==> Evaluates(m, e, c, o)
  {
    if Evaluates(m, e, c, o) {
      var n: nat :| Eval(m, n, e, c) == o;
      var limit := RunReaches(m, n, e, c);
      assert Run(m, limit, e, c) == o;
    }
    if limit: nat :| Run(m, limit, e, c) == o {
      var j := LoopToIter(m, limit, limit, StartStep(e, c));
      var n, i := MachineToEval(m, limit, j, e, c, Done(e));
      var r := Eval(m, n, e, c);
      if r.Success? {
        DoneStays(m, limit, j - i, Done(r.value));
      }
      assert Eval(m, n, e, c) == o;
    }
  }

  /** A decided evaluation gives a limit under which the loop of `run` decides the same. */
  lemma {:induction false} RunReaches(m: Config, n: nat, e: SExp, c: SExp) returns (limit: nat)
    requires !Eval(m, n, e, c).Timeout?
    ensures Run(m, limit, e, c) == Eval(m, n, e, c)
  {
    var b, j := EvalToMachine(m, n, e, c, Done(e));
    IterToLoop(m, b, j, StartStep(e, c));
    limit := if b > j then b else j;
    LoopMono(m, b, limit, j, limit, StartStep(e, c));
  }

  // ---- An invariant of every run --------------------------------------------------------------

  /** Every operator in flight, at any depth, has evaluated arguments forming a proper list. */
  predicate ProperTails(s: RunStep) {
    match s
    case Done(_) => true
    case OpResult(_, p) => ProperTails(p)
    case Op(_, _, tail, _, p) => ProperList(tail).Some? && ProperTails(p)
    case Step(_, _, p) => ProperTails(p)
  }

  lemma {:induction false} CombineKeepsProperTails(v: SExp, k: RunStep)
    requires ProperTails(k)
    ensures ProperTails(Combine(v, k))
    decreases k
  {
    match k
    case Op(_, _, _, None, p) => CombineKeepsProperTails(v, p);
    case Step(_, _, p) => CombineKeepsProperTails(v, p);
    case _ =>
  }

  lemma {:induction false} ArgListEndsProperly(s: SExp)
    requires ArgList(s).Some?
    ensures ProperList(ArgList(s).value.1) == Some([])
  {
    if s.Cons? {
      ArgListEndsProperly(s.rest);
    } else {
      NilpIsEmptyLeaf(s);
    }
  }

  /** In every run, every step has proper operator tails, so the improper-argument error of the
      operator step is never what stops the machine. */
  lemma {:induction false} ProperTailsAlways(m: Config, b: nat, j: nat, s: RunStep)
    requires ProperTails(s) && Iter(m, b, j, s).Success?
    ensures ProperTails(Iter(m, b, j, s).value)
    decreases j
  {
    if j > 0 {
      var t := RunOneStep(m, b, s).value;
      match s {
        case OpResult(x, p) => CombineKeepsProperTails(x, p);
        case Step(Cons(a, e), _, _) =>
          CombineKeepsProperTails(e, s);
          if ArgList(e).Some? {
            ArgListEndsProperly(e);
          }
        case Op(_, _, tail, None, _) =>
          var l := ProperList(tail).value;
          if |l| == 3 {
            CombineKeepsProperTails(if Truthy(l[0]) then l[1] else l[2], s);
          }
        case _ =>
      }
      ProperTailsAlways(m, b, j - 1, t);
    }
  }
}
