/** Finding a function in a compiled program by its tree hash and calling it from outside:
    `path_to_function`, `rewrite_in_program`, `extract_program_and_env`. */
module FunctionSearch {
  import opened Numbers
  import opened SExpressions
  import opened Machine
  import opened MachineRefinement
  import opened ClvmPrograms

  /** `path_to_function_inner`, with the tree hash as a parameter. */
  function PathToFunctionInner(hash: Tree -> bytes, program: SExp, target: bytes, pathMask: nat, currentPath: nat)
    : (r: Option<nat>)
    decreases program
  {
    var here := if hash(ConvertTo(program)) == target then Some(currentPath + pathMask) else None;
    if !program.Cons? then here
    else
      var left := PathToFunctionInner(hash, program.first, target, pathMask * 2, currentPath);
      if left.Some? then left
      else
        var right := PathToFunctionInner(hash, program.rest, target, pathMask * 2, currentPath + pathMask);
        if right.Some? then right else here
  }

  /** `path_to_function`. */
  function PathToFunction(hash: Tree -> bytes, program: SExp, target: bytes): (r: Option<nat>) {
    PathToFunctionInner(hash, program, target, 1, 0)
  }

  /** The place a walk reaches has the wanted hash. */
  ghost predicate HitAt(hash: Tree -> bytes, program: SExp, target: bytes, path: nat) {
    path > 0 && ChoosePath(path, program).Success?
    && hash(ConvertTo(ChoosePath(path, program).value)) == target
  }

  /** The running mask and prefix of the search accumulate exactly the path walked. */
  lemma {:induction false} Reassociate(mask: nat, q: nat)
    ensures mask * 2 * q == mask * (2 * q) && mask + mask * 2 * q == mask * (2 * q + 1)
  {
  }

  lemma {:induction false} SearchFindsRelativePath(hash: Tree -> bytes, program: SExp, target: bytes, mask: nat, current: nat)
    returns (p: nat)
    ensures var r := PathToFunctionInner(hash, program, target, mask, current);
            r.Some? ==> r.value == current + mask * p && HitAt(hash, program, target, p)
    decreases program
  {
    p := 1;
    if program.Cons? {
      var left := PathToFunctionInner(hash, program.first, target, mask * 2, current);
      var right := PathToFunctionInner(hash, program.rest, target, mask * 2, current + mask);
      if left.Some? {
        var q := SearchFindsRelativePath(hash, program.first, target, mask * 2, current);
        p := 2 * q;
        assert ChoosePath(p, program) == ChoosePath(q, program.first);
        Reassociate(mask, q);
      } else if right.Some? {
        var q := SearchFindsRelativePath(hash, program.rest, target, mask * 2, current + mask);
        p := 2 * q + 1;
        assert ChoosePath(p, program) == ChoosePath(q, program.rest);
        Reassociate(mask, q);
      }
    }
  }

  lemma {:induction false} SearchMissesNothing(hash: Tree -> bytes, program: SExp, target: bytes, mask: nat, current: nat, p: nat)
    requires HitAt(hash, program, target, p)
    ensures PathToFunctionInner(hash, program, target, mask, current).Some?
    decreases program
  {
    if p > 1 {
      if p % 2 == 0 {
        SearchMissesNothing(hash, program.first, target, mask * 2, current, p / 2);
      } else {
        SearchMissesNothing(hash, program.rest, target, mask * 2, current + mask, p / 2);
      }
    }
  }

  /** A path is found exactly when some subtree has the hash, and it leads to such a subtree. */
  lemma {:induction false} PathToFunctionIsExact(hash: Tree -> bytes, program: SExp, target: bytes)
    ensures PathToFunction(hash, program, target).Some? <==> exists p: nat :: HitAt(hash, program, target, p)
    ensures PathToFunction(hash, program, target).Some?
            ==> HitAt(hash, program, target, PathToFunction(hash, program, target).value)
  {
    var p := SearchFindsRelativePath(hash, program, target, 1, 0);
    if q: nat :| HitAt(hash, program, target, q) {
      SearchMissesNothing(hash, program, target, 1, 0, q);
    }
  }

  /** `rewrite_in_program`: (a (a (q . path/2) env) (c env 1)), for an environment that comes
      quoted. */
  function RewriteInProgram(path: nat, env: SExp): (r: SExp) {
    PrimApply(PrimApply(PrimQuote(Integer(path / 2)), env), PrimCons(env, Integer(1)))
  }

  /** A path into a quoted environment that goes past the quote lands in the environment. */
  lemma {:induction false} HitInsideQuote(env: SExp, path: nat)
    requires path >= 3 && path % 2 == 1
    ensures ChoosePath(path, PrimQuote(env)) == ChoosePath(path / 2, env) && path / 2 > 0
  {
  }

  /** For a function found inside the quoted environment, the rewritten program run on any
      arguments decides exactly as that function run in the environment and those arguments. */
  lemma {:induction false} RewriteRunsFunction(m: Config, env: SExp, path: nat, args: SExp, code: SExp, o: Outcome<SExp>)
    requires PlainGlue(m) && !o.Timeout?
    requires path >= 3 && path % 2 == 1 && ChoosePath(path, PrimQuote(env)) == Success(code)
    ensures Evaluates(m, RewriteInProgram(path, PrimQuote(env)), args, o)
            <==> Evaluates(m, code, Cons(env, args), o)
  {
    var q := PrimQuote(env);
    HitInsideQuote(env, path);
    QuoteGives(m, Integer(path / 2), args);
    QuoteGives(m, env, args);
    PathGives(m, path / 2, env, code);
    ApplyGives(m, Integer(2), PrimQuote(Integer(path / 2)), q, args, Integer(path / 2), env, code);
    PathGives(m, 1, args, args);
    ConsGives(m, Integer(4), q, Integer(1), args, env, args);
    ApplyEvaluates(m, Integer(2), PrimApply(PrimQuote(Integer(path / 2)), q), PrimCons(q, Integer(1)),
                   args, code, Cons(env, args), o);
  }

  /** `is_operator` and its three uses. */
  predicate IsOperator(op: int, s: SExp) {
    AtomValue(s) == Some(op)
  }

  /** `extract_program_and_env`: recognise (2 main (4 env 1)). */
  function ExtractProgramAndEnv(program: SExp): (r: Option<(SExp, SExp)>) {
    match ProperList(program)
    case None => None
    case Some(lst) =>
      if |lst| != 3 then None
      else match ProperList(lst[2])
        case None => None
        case Some(cexp) =>
          if !IsOperator(2, lst[0]) || |cexp| != 3 || !IsOperator(4, cexp[0]) || !IsOperator(1, cexp[2])
          then None
          else Some((lst[1], cexp[1]))
  }

  lemma {:induction false} ThreeList(x: SExp, y: SExp, z: SExp)
    ensures ProperList(Cons(x, Cons(y, Cons(z, Nil)))) == Some([x, y, z])
  {
    var l := [x, y, z];
    assert l[1..] == [y, z] && l[1..][1..] == [z] && l[1..][1..][1..] == [];
    assert ListOf([z]) == Cons(z, ListOf([])) && ListOf([y, z]) == Cons(y, ListOf([z]));
    assert ListOf(l) == Cons(x, Cons(y, Cons(z, Nil)));
    ProperListOfList(l);
  }

  /** It recovers exactly what the compiler's final wrapping put together; and whatever it
      accepts, running the program is applying the extracted part to the extracted environment
      expression consed onto the arguments. */
  lemma {:induction false} ExtractInvertsWrapping(main: SExp, env: SExp)
    ensures ExtractProgramAndEnv(PrimApply(main, PrimCons(env, Integer(1)))) == Some((main, env))
  {
    ThreeList(Integer(2), main, PrimCons(env, Integer(1)));
    ThreeList(Integer(4), env, Integer(1));
  }
}
