/** Turning CLVM code back into a frontend expression over an expression for its environment:
    `promote_program_to_bodyform` and what it uses. */
module Promotion {
  import opened Numbers
  import opened SExpressions
  import opened Machine
  import opened BigStep
  import opened Syntax
  import opened Semantics
  import opened InliningSound

  // ---- The translation -------------------------------------------------------------------------

  /** `match_atom_to_prim`. */
  predicate MatchAtomToPrim(name: bytes, p: byte, h: SExp) {
    match h
    case Atom(v) => v == name || (|v| == 1 && v[0] == p)
    case Integer(i) => i == p as int
    case _ => false
  }

  predicate IsQuoteAtom(h: SExp) { MatchAtomToPrim([113], 1, h) }

  predicate IsConsAtom(h: SExp) { MatchAtomToPrim(CONS_NAME, 4, h) }

  /** `match_cons`: the first two arguments of something that reads as a cons. */
  function MatchCons(e: BodyForm): (r: Option<(BodyForm, BodyForm)>) {
    match e
    case Call(v, None) =>
      if |v| >= 3 && v[0].Value? && IsConsAtom(v[0].value) then Some((v[1], v[2])) else None
    case _ => None
  }

  /** One step of a path, left or right, past a cons if one is in sight. */
  function StepForm(right: bool, form: BodyForm): BodyForm {
    match MatchCons(form)
    case Some(p) => if right then p.1 else p.0
    case None => Call([Var([if right then 6 else 5]), form], None)
  }

  function WalkForm(path: nat, form: BodyForm): BodyForm {
    if path <= 1 then form else WalkForm(path / 2, StepForm(path % 2 == 1, form))
  }

  /** `choose_from_env_by_path`.  The source does not end for negative paths. */
  function ChooseForm(path: nat, env: BodyForm): BodyForm {
    if path == 0 then Quoted(Nil) else WalkForm(path, env)
  }

  function Bits(path: nat): seq<bool> {
    if path <= 1 then [] else [path % 2 == 1] + Bits(path / 2)
  }

  function FollowBits(ops: seq<bool>, form: BodyForm): BodyForm {
    if ops == [] then form else FollowBits(ops[1..], StepForm(ops[0], form))
  }

  lemma {:induction false} WalkFollowsBits(path: nat, form: BodyForm)
    ensures WalkForm(path, form) == FollowBits(Bits(path), form)
  {
    if path > 1 {
      WalkFollowsBits(path / 2, StepForm(path % 2 == 1, form));
    }
  }

  /** The two loops of `choose_from_env_by_path`. */
  method ChooseFromEnvByPath(path_: nat, argsProgram: BodyForm) returns (resultForm: BodyForm)
    ensures resultForm == ChooseForm(path_, argsProgram)
  {
    var path := path_;
    var opList: seq<bool> := [];
    if path == 0 {
      return Quoted(Nil);
    }
    while path != 1
      invariant path > 0 && Bits(path_) == opList + Bits(path)
    {
      assert opList + ([path % 2 == 1] + Bits(path / 2)) == (opList + [path % 2 == 1]) + Bits(path / 2);
      opList := opList + [path % 2 == 1];
      path := path / 2;
    }
    resultForm := argsProgram;
    WalkFollowsBits(path_, argsProgram);
    assert opList == Bits(path_) == opList[0..];
    for i := 0 to |opList|
      invariant FollowBits(opList[i..], resultForm) == FollowBits(opList, argsProgram)
    {
      assert opList[i..][1..] == opList[i + 1..];
      var matched := MatchCons(resultForm);
      if matched.Some? {
        resultForm := if opList[i] then matched.value.1 else matched.value.0;
      } else {
        resultForm := Call([Var([if opList[i] then 6 else 5]), resultForm], None);
      }
    }
  }

  /** The path an atom stands for, where promotion has one. */
  predicate PathsNotNegative(program: SExp) {
    match program
    case Cons(h, t) => IsQuoteAtom(h) || ArgumentPathsNotNegative(t)
    case Integer(n) => n >= 0
    case QuotedString(_, v) => NumberFromU8(v) >= 0
    case Atom(v) => NumberFromU8(v) >= 0
    case Nil => true
  }

  predicate ArgumentPathsNotNegative(args: SExp) {
    args.Cons? ==> PathsNotNegative(args.first) && ArgumentPathsNotNegative(args.rest)
  }

  /** `promote_program_to_bodyform`; None for an improper argument list. */
  function Promote(program: SExp, env: BodyForm): (r: Option<BodyForm>)
    requires PathsNotNegative(program)
    decreases program, 0
  {
    match program
    case Cons(h, t) =>
      if IsQuoteAtom(h) then Some(Quoted(t))
      else (
        match PromoteArgs(t, env)
        case None => None
        case Some(args) => Some(Call([Value(h)] + args, None)))
    case Integer(n) => Some(ChooseForm(n, env))
    case QuotedString(_, v) => Some(ChooseForm(NumberFromU8(v), env))
    case Atom(v) => Some(ChooseForm(NumberFromU8(v), env))
    case Nil => Some(Quoted(Nil))
  }

  /** `promote_args_to_bodyform`, without the head. */
  function PromoteArgs(args: SExp, env: BodyForm): (r: Option<seq<BodyForm>>)
    requires ArgumentPathsNotNegative(args)
    decreases args, 1
  {
    if Nilp(args) then Some([])
    else if !args.Cons? then None
    else
      match (Promote(args.first, env), PromoteArgs(args.rest, env))
      case (Some(a), Some(rest)) => Some([a] + rest)
      case _ => None
  }

  // ---- Soundness -------------------------------------------------------------------------------

  /** An operator means the same to the machine and as the head of a call. */
  ghost predicate HeadAgrees(w: World, scopes: seq<Scope>, h: SExp) {
    CallName(Value(h)).Some?
    && (exists op :: op > 1 && MeansOp(w, scopes, CallName(Value(h)).value, op) && HeadIs(w.machine, h, op))
  }

  ghost predicate HeadIs(m: Config, h: SExp, op: int) {
    !h.Cons?
    && (forall n: nat, c :: var x := EvalHead(m, n, h, c);
          x.Success? && AtomValue(x.value) == Some(op) && ConvertTo(x.value) == ConvertTo(Integer(op)))
  }

  /** Every operator of a program agrees. */
  ghost predicate HeadsAgree(w: World, scopes: seq<Scope>, program: SExp) {
    program.Cons? && !IsQuoteAtom(program.first) ==>
      HeadAgrees(w, scopes, program.first) && ArgumentHeadsAgree(w, scopes, program.rest)
  }

  ghost predicate ArgumentHeadsAgree(w: World, scopes: seq<Scope>, args: SExp) {
    args.Cons? ==> HeadsAgree(w, scopes, args.first) && ArgumentHeadsAgree(w, scopes, args.rest)
  }

  /** What promotion writes and what it takes for a cons means that. */
  ghost predicate WalkNames(w: World, scopes: seq<Scope>) {
    MeansOp(w, scopes, [5], FIRST_OP) && MeansOp(w, scopes, [6], REST_OP)
    && MeansOp(w, scopes, [4], CONS_OP) && MeansOp(w, scopes, CONS_NAME, CONS_OP)
    && (forall n: nat, c, h :: IsQuoteAtom(h) ==> EvalHead(w.machine, n, h, c).Success?
                                                  && AtomValue(EvalHead(w.machine, n, h, c).value) == Some(1))
  }

  /** The arguments of something that reads as a cons have the parts of its value. */
  lemma {:induction false} ConsParts(w: World, n: nat, scopes: seq<Scope>, e: BodyForm, v: SExp)
    requires WalkNames(w, scopes) && MatchCons(e).Some? && Sem(w, n, scopes, e) == Success(v)
    ensures v.Cons? && Sem(w, n, scopes, MatchCons(e).value.0) == Success(v.first)
    ensures Sem(w, n, scopes, MatchCons(e).value.1) == Success(v.rest)
  {
    var forms := e.forms;
    ConsHead(forms[0].value);
    var name := CallName(forms[0]).value;
    assert MeansOp(w, scopes, name, CONS_OP);
    var op, argv := PrimCallMeaning(w, n, scopes, forms, None, v);
    assert forms[1..][0] == forms[1] && forms[1..][1..][0] == forms[2];
    assert SemArgs(w, n, scopes, forms[1..][1..], None) == Success(argv.rest);
    TwoOfList(argv);
  }

  lemma {:induction false} TwoOfList(s: SExp)
    requires ProperList(s).Some? && |ProperList(s).value| == 2
    ensures s.Cons? && s.rest.Cons? && ProperList(s).value == [s.first, s.rest.first]
  {
    assert ProperList(s).value == [s.first] + ProperList(s.rest).value;
    assert ProperList(s.rest).value == [s.rest.first] + ProperList(s.rest.rest).value;
  }

  lemma {:induction false} ConsHead(h: SExp)
    requires IsConsAtom(h)
    ensures CallName(Value(h)).Some? && CallName(Value(h)).value in {CONS_NAME, [4]}
  {
    if h.Atom? && h.name != CONS_NAME {
      assert h.name == [4];
    }
    assert U8FromNumber(4) == [4];
  }

  lemma {:induction false} StepMeans(w: World, n: nat, scopes: seq<Scope>, right: bool, form: BodyForm, value: SExp)
    requires WalkNames(w, scopes) && Sem(w, n, scopes, form) == Success(value) && value.Cons?
    ensures Sem(w, n, scopes, StepForm(right, form)) == Success(if right then value.rest else value.first)
  {
    if MatchCons(form).Some? {
      ConsParts(w, n, scopes, form, value);
    } else {
      var head := Var([if right then 6 else 5]);
      OneArg(w, n, scopes, form, value);
      OpCallMeans(w, n, scopes, head, [form], if right then REST_OP else FIRST_OP, Cons(value, Nil),
                  if right then value.rest else value.first);
      assert [head] + [form] == [head, form];
    }
  }

  /** Choosing by a path, shortcuts included, is walking the path in the environment's value. */
  lemma {:induction false} ChooseMeans(w: World, n: nat, scopes: seq<Scope>, path: nat, form: BodyForm, value: SExp, v: SExp)
    requires WalkNames(w, scopes) && path > 0
    requires Sem(w, n, scopes, form) == Success(value) && ChoosePath(path, value) == Success(v)
    ensures Sem(w, n, scopes, ChooseForm(path, form)) == Success(v)
    decreases path
  {
    if path > 1 {
      StepMeans(w, n, scopes, path % 2 == 1, form, value);
      ChooseMeans(w, n, scopes, path / 2, StepForm(path % 2 == 1, form), if path % 2 == 1 then value.rest else value.first, v);
    }
  }

  /** Path 0 selects nothing. */
  lemma {:induction false} ZeroPathFails(c: SExp)
    ensures ChoosePath(0, c) == Failure
  {
    if c.Cons? {
      ZeroPathFails(c.first);
    }
  }

  lemma {:induction false} PathMeans(w: World, n: nat, scopes: seq<Scope>, path: int, env: BodyForm, value: SExp, v: SExp)
    requires WalkNames(w, scopes) && path >= 0
    requires Sem(w, n, scopes, env) == Success(value) && ChoosePath(FlattenSigned(path), value) == Success(v)
    ensures Sem(w, n, scopes, ChooseForm(path, env)) == Success(v)
  {
    FlattenNonNegative(path);
    ZeroPathFails(value);
    ChooseMeans(w, n, scopes, path, env, value, v);
  }

  // ---- Argument lists that only differ in how they spell nil ---------------------------------

  /** The same elements, whatever spelling of nil ends the list. */
  predicate SameList(a: SExp, b: SExp) {
    if a.Cons? then b.Cons? && a.first == b.first && SameList(a.rest, b.rest) else Nilp(a) && Nilp(b)
  }

  lemma {:induction false} SameListAlike(a: SExp, b: SExp, start: nat)
    requires SameList(a, b)
    ensures ProperList(a) == ProperList(b) && ConvertTo(a) == ConvertTo(b)
    ensures ConvertTo(GenerateArgumentRefs(start, a)) == ConvertTo(GenerateArgumentRefs(start, b))
    decreases a
  {
    if a.Cons? {
      SameListAlike(a.rest, b.rest, 1 + 2 * start);
    } else {
      NilpIsEmptyLeaf(a);
      NilpIsEmptyLeaf(b);
    }
  }

  lemma {:induction false} ApplyOpAlike(m: Config, h: SExp, op: int, a: SExp, b: SExp)
    requires SameList(a, b) && ConvertTo(h) == ConvertTo(Integer(op))
    ensures ApplyOp(m, h, a) == ApplyOp(m, Integer(op), b)
  {
    SameListAlike(a, b, 5);
  }

  lemma {:induction false} OperateAlike(m: Config, n: nat, h: SExp, op: int, a: SExp, b: SExp)
    requires SameList(a, b) && AtomValue(h) == Some(op) && ConvertTo(h) == ConvertTo(Integer(op))
    ensures Operate(m, n, h, a) == Operate(m, n, Integer(op), b)
  {
    SameListAlike(a, b, 5);
    ApplyOpAlike(m, h, op, a, b);
    var l := ProperList(a);
    if l.Some? && !(WantedArgs(op).Some? && |l.value| != WantedArgs(op).value) && WantedArgs(op) == None {
      assert Operate(m, n, h, a) == ApplyOp(m, h, a);
      assert Operate(m, n, Integer(op), b) == ApplyOp(m, Integer(op), b);
    }
  }

  lemma {:induction false} PromotedCall(w: World, k: nat, n: nat, scopes: seq<Scope>, h: SExp, head: SExp, forms: seq<BodyForm>, op: int, args: SExp,
                                        args': SExp, v: SExp)
    requires CallName(Value(h)).Some? && MeansOp(w, scopes, CallName(Value(h)).value, op) && op != 1
    requires AtomValue(head) == Some(op) && ConvertTo(head) == ConvertTo(Integer(op)) && SameList(args, args') && k <= n
    requires SemArgs(w, n, scopes, forms, None) == Success(args') && Operate(w.machine, k, head, args) == Success(v)
    ensures Sem(w, n, scopes, Call([Value(h)] + forms, None)) == Success(v)
  {
    OperateAlike(w.machine, k, head, op, args, args');
    OperateMono(w.machine, k, n, Integer(op), args');
    OpCallMeans(w, n, scopes, Value(h), forms, op, args', v);
  }

  lemma {:induction false} PromoteArgsMeans(w: World, k: nat, n: nat, scopes: seq<Scope>, args: SExp, env: BodyForm,
                                            value: SExp, v: SExp) returns (forms: seq<BodyForm>, v': SExp)
    requires WalkNames(w, scopes) && ArgumentPathsNotNegative(args) && ArgumentHeadsAgree(w, scopes, args) && k <= n
    requires Sem(w, n, scopes, env) == Success(value)
    requires ArgList(args).Some? && EvalArgs(w.machine, k, args, value) == Success(v)
    ensures PromoteArgs(args, env) == Some(forms)
    ensures SemArgs(w, n, scopes, forms, None) == Success(v') && SameList(v, v')
    decreases k, args, 1
  {
    NilpIsEmptyLeaf(args);
    if args.Cons? {
      var rest, rest' := PromoteArgsMeans(w, k, n, scopes, args.rest, env, value, v.rest);
      PromoteMeans(w, k, n, scopes, args.first, env, value, v.first);
      var first := Promote(args.first, env).value;
      forms, v' := [first] + rest, Cons(v.first, rest');
      assert forms[1..] == rest;
    } else {
      forms, v' := [], Nil;
    }
  }

  /** Symbolic execution is sound: if a program run on the environment's value gives v, the
      expression promotion makes of it means v where the environment expression means that value. */
  lemma {:induction false} PromoteMeans(w: World, k: nat, n: nat, scopes: seq<Scope>, program: SExp, env: BodyForm,
                                        value: SExp, v: SExp)
    requires WalkNames(w, scopes) && PathsNotNegative(program) && HeadsAgree(w, scopes, program) && k <= n
    requires Sem(w, n, scopes, env) == Success(value) && Eval(w.machine, k, program, value) == Success(v)
    ensures Promote(program, env).Some? && Sem(w, n, scopes, Promote(program, env).value) == Success(v)
    decreases k, program, 0
  {
    match program
    case Nil =>
    case Integer(p) => PathMeans(w, n, scopes, p, env, value, v);
    case QuotedString(_, t) => PathMeans(w, n, scopes, NumberFromU8(t), env, value, v);
    case Atom(t) => PathMeans(w, n, scopes, NumberFromU8(t), env, value, v);
    case Cons(h, t) =>
      var head := EvalHead(w.machine, k - 1, h, value).value;
      if IsQuoteAtom(h) {
      } else {
        var op :| op > 1 && MeansOp(w, scopes, CallName(Value(h)).value, op) && HeadIs(w.machine, h, op);
        assert AtomValue(head) == Some(op);
        var args := EvalArgs(w.machine, k - 1, t, value).value;
        var forms, args' := PromoteArgsMeans(w, k - 1, n, scopes, t, env, value, args);
        PromotedCall(w, k - 1, n, scopes, h, head, forms, op, args, args', v);
      }
  }
}
