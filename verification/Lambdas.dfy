/** What a lambda turns into: `lambda_codegen`. */
module Lambdas {
  import opened Numbers
  import opened SExpressions
  import opened Machine
  import opened MachineRefinement
  import opened Syntax
  import opened Semantics
  import opened ClvmPrograms
  import opened Closures
  import opened Inlining
  import opened InliningSound

  const LITERAL_ONE: BodyForm := Value(Atom([1]))
  const LITERAL_APPLY: BodyForm := Value(Atom([2]))
  const LITERAL_CONS: BodyForm := Value(Atom([4]))

  /** `make_list` in lambda.rs. */
  function MakeListForm(args: seq<BodyForm>): BodyForm {
    if args == [] then Quoted(Nil) else MakeCons(args[0], MakeListForm(args[1..]))
  }

  method MakeListFormLoop(args: seq<BodyForm>) returns (res: BodyForm)
    ensures res == MakeListForm(args)
  {
    res := Quoted(Nil);
    for i := |args| downto 0
      invariant res == MakeListForm(args[i..])
    {
      assert args[i..][1..] == args[i + 1..];
      res := MakeCons(args[i], res);
    }
    assert args[0..] == args;
  }

  /** `lambda_codegen`: (list 2 (c 1 name) (list 4 (c 1 captures) 1)). */
  function LambdaCodegen(name: bytes, captures: BodyForm): BodyForm {
    MakeListForm([LITERAL_APPLY, MakeCons(LITERAL_ONE, Var(name)),
                  MakeListForm([LITERAL_CONS, MakeCons(LITERAL_ONE, captures), LITERAL_ONE])])
  }

  lemma {:induction false} ThreeForms(a: BodyForm, b: BodyForm, c: BodyForm)
    ensures MakeListForm([a, b, c]) == MakeCons(a, MakeCons(b, MakeCons(c, Quoted(Nil))))
  {
    assert [a, b, c][1..] == [b, c] && [b, c][1..] == [c] && [c][1..] == [];
    assert MakeListForm([c]) == MakeCons(c, Quoted(Nil));
    assert MakeListForm([b, c]) == MakeCons(b, MakeListForm([c]));
  }

  lemma {:induction false} LambdaCodegenParts(name: bytes, captures: BodyForm)
    ensures var inner := MakeCons(LITERAL_CONS, MakeCons(MakeCons(LITERAL_ONE, captures), MakeCons(LITERAL_ONE, Quoted(Nil))));
            LambdaCodegen(name, captures) ==
            MakeCons(LITERAL_APPLY, MakeCons(MakeCons(LITERAL_ONE, Var(name)), MakeCons(inner, Quoted(Nil))))
  {
    ThreeForms(LITERAL_CONS, MakeCons(LITERAL_ONE, captures), LITERAL_ONE);
    ThreeForms(LITERAL_APPLY, MakeCons(LITERAL_ONE, Var(name)),
               MakeListForm([LITERAL_CONS, MakeCons(LITERAL_ONE, captures), LITERAL_ONE]));
  }

  /** Single bytes stand for themselves. */
  ghost predicate LiteralBytes(w: World, scopes: seq<Scope>) {
    forall b: byte :: b in {1, 2, 4} ==> FindDefun(w.defuns, [b]) == None && LookupVar(scopes, [b]) == Unbound
  }

  lemma {:induction false} LiteralMeans(w: World, n: nat, scopes: seq<Scope>, b: byte)
    requires LiteralBytes(w, scopes) && b in {1, 2, 4}
    ensures Sem(w, n, scopes, Value(Atom([b]))) == Success(Atom([b]))
  {
    assert !PrintableByte([b][0], false);
    assert [b] != AT && [b] != AT_ENV && [b] != [] by { assert [b][0] == b && |[b]| == 1; }
  }

  lemma {:induction false} MakeConsMeans(w: World, n: nat, scopes: seq<Scope>, a: BodyForm, b: BodyForm, va: SExp, vb: SExp)
    requires MeansOp(w, scopes, [4], CONS_OP)
    requires Sem(w, n, scopes, a) == Success(va) && Sem(w, n, scopes, b) == Success(vb)
    ensures Sem(w, n, scopes, MakeCons(a, b)) == Success(Cons(va, vb))
  {
    TwoSemArgs(w, n, scopes, a, b, va, vb);
    OpCallMeans(w, n, scopes, Var([4]), [a, b], CONS_OP, Cons(va, Cons(vb, Nil)), Cons(va, vb));
    assert [Var([4])] + [a, b] == MakeCons(a, b).forms;
  }

  lemma {:induction false} ThreeMean(w: World, n: nat, scopes: seq<Scope>, a: BodyForm, b: BodyForm, c: BodyForm, va: SExp, vb: SExp, vc: SExp)
    requires MeansOp(w, scopes, [4], CONS_OP)
    requires Sem(w, n, scopes, a) == Success(va) && Sem(w, n, scopes, b) == Success(vb) && Sem(w, n, scopes, c) == Success(vc)
    ensures Sem(w, n, scopes, MakeListForm([a, b, c])) == Success(ListOf([va, vb, vc]))
  {
    ThreeForms(a, b, c);
    ThreeElements(va, vb, vc);
    MakeConsMeans(w, n, scopes, c, Quoted(Nil), vc, Nil);
    MakeConsMeans(w, n, scopes, b, MakeCons(c, Quoted(Nil)), vb, Cons(vc, Nil));
    MakeConsMeans(w, n, scopes, a, MakeCons(b, MakeCons(c, Quoted(Nil))), va, Cons(vb, Cons(vc, Nil)));
  }

  /** What a lambda turns into means a program that holds the hoisted function's closure and the
      captured values. */
  lemma {:induction false} LambdaCodegenMeans(w: World, n: nat, scopes: seq<Scope>, name: bytes, captures: BodyForm, captured: SExp)
    requires MeansOp(w, scopes, [4], CONS_OP) && LiteralBytes(w, scopes)
    requires name in w.refs && Sem(w, n, scopes, Var(name)) == Success(w.refs[name])
    requires Sem(w, n, scopes, captures) == Success(captured)
    ensures Sem(w, n, scopes, LambdaCodegen(name, captures)) == Success(LambdaValue(w.refs[name], captured))
  {
    LiteralMeans(w, n, scopes, 1);
    LiteralMeans(w, n, scopes, 2);
    LiteralMeans(w, n, scopes, 4);
    MakeConsMeans(w, n, scopes, LITERAL_ONE, captures, ONE_ATOM, captured);
    MakeConsMeans(w, n, scopes, LITERAL_ONE, Var(name), ONE_ATOM, w.refs[name]);
    ThreeMean(w, n, scopes, LITERAL_CONS, MakeCons(LITERAL_ONE, captures), LITERAL_ONE, CONS_ATOM, Cons(ONE_ATOM, captured), ONE_ATOM);
    var inner := ListOf([CONS_ATOM, Cons(ONE_ATOM, captured), ONE_ATOM]);
    ThreeMean(w, n, scopes, LITERAL_APPLY, MakeCons(LITERAL_ONE, Var(name)),
              MakeListForm([LITERAL_CONS, MakeCons(LITERAL_ONE, captures), LITERAL_ONE]),
              APPLY_ATOM, Cons(ONE_ATOM, w.refs[name]), inner);
  }

  /** Running a lambda's value on arguments is running the hoisted function's code on the captured
      values and the arguments, in the environment the function belongs to. */
  lemma {:induction false} LambdaRuns(m: Config, code: SExp, left: SExp, captured: SExp, args: SExp, o: Outcome<SExp>)
    requires PlainGlue(m) && !o.Timeout?
    ensures Evaluates(m, LambdaValue(LambdaValue(code, left), captured), args, o) <==>
            Evaluates(m, code, Cons(left, Cons(captured, args)), o)
  {
    ClosureRuns(m, LambdaValue(code, left), captured, args, o);
    ClosureRuns(m, code, left, Cons(captured, args), o);
  }
}
