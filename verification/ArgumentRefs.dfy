/** The external operator call: its argument references lead back to the arguments. */
module ArgumentRefs {
  import opened Numbers
  import opened SExpressions
  import opened Machine
  import opened BigStep

  /** The reference `generate_argument_refs` makes for the argument at a position. */
  function RefAt(k: nat): (p: nat) { if k == 0 then 5 else 1 + 2 * RefAt(k - 1) }

  /** The arguments from a position on. */
  function From(args: SExp, k: nat): (r: SExp) {
    if k == 0 || !args.Cons? then args else From(args.rest, k - 1)
  }

  lemma {:induction false} RefSelects(k: nat, x: SExp, args: SExp)
    requires From(args, k).Cons?
    ensures ChoosePath(RefAt(k), Cons(x, args)) == Success(From(args, k).first)
    decreases k
  {
    if k == 0 {
      assert ChoosePath(2, args) == ChoosePath(1, args.first) == Success(args.first);
    } else {
      RefSelects(k - 1, args.first, args.rest);
    }
  }

  lemma {:induction false} NextFrom(args: SExp, k: nat)
    requires From(args, k).Cons?
    ensures From(args, k + 1) == From(args, k).rest
  {
    if k > 0 {
      NextFrom(args.rest, k - 1);
    }
  }

  lemma {:induction false} RefsFrom(m: Config, args: SExp, k: nat, x: SExp)
    ensures EvalArgs(m, 1, GenerateArgumentRefs(RefAt(k), From(args, k)), Cons(x, args)) == Success(From(args, k))
    decreases From(args, k)
  {
    if From(args, k).Cons? {
      RefSelects(k, x, args);
      NextFrom(args, k);
      RefsFrom(m, args, k + 1, x);
      FlattenNonNegative(RefAt(k));
    }
  }

  /** The program handed to the external operator, evaluated in the environment handed over with it,
      sees exactly the arguments the machine has evaluated. */
  lemma {:induction false} RefsGiveArguments(m: Config, args: SExp)
    ensures EvalArgs(m, 1, GenerateArgumentRefs(5, args), Cons(Nil, args)) == Success(args)
  {
    RefsFrom(m, args, 0, Nil);
  }
}
