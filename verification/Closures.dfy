/** Functions as values: the code `lambda_for_defun` emits and what it builds. */
module Closures {
  import opened Numbers
  import opened SExpressions
  import opened Machine
  import opened MachineRefinement
  import opened ClvmPrograms
  import opened Syntax
  import opened Environments

  const ONE_ATOM: SExp := Atom([1])
  const APPLY_ATOM: SExp := Atom([2])
  const CONS_ATOM: SExp := Atom([4])

  /** `lambda_for_defun`: code for a program that carries the left environment along.  `lookup`
      reaches the function's code, `envExpr` the left environment. */
  function LambdaForDefun(lookup: SExp, envExpr: SExp): SExp {
    MakeList([PrimQuote(APPLY_ATOM),
              PrimCons(PrimQuote(ONE_ATOM), lookup),
              MakeList([PrimQuote(CONS_ATOM), PrimCons(PrimQuote(ONE_ATOM), envExpr), PrimQuote(ONE_ATOM)])])
  }

  /** The program it builds: (2 (1 . code) (4 (1 . left) 1)). */
  function LambdaValue(code: SExp, left: SExp): SExp {
    ListOf([APPLY_ATOM, Cons(ONE_ATOM, code), ListOf([CONS_ATOM, Cons(ONE_ATOM, left), ONE_ATOM])])
  }

  /** The environment expression that leaves out what is not common: `(c 4 ())`. */
  const COMMON_ONLY: SExp := PrimCons(CONS_ATOM, Nil)

  lemma {:induction false} LambdaForDefunGives(m: Config, lookup: SExp, envExpr: SExp, c: SExp, code: SExp, left: SExp)
    requires PlainGlue(m) && Gives(m, lookup, c, code) && Gives(m, envExpr, c, left)
    ensures Gives(m, LambdaForDefun(lookup, envExpr), c, LambdaValue(code, left))
  {
    QuoteGives(m, APPLY_ATOM, c);
    QuoteGives(m, ONE_ATOM, c);
    QuoteGives(m, CONS_ATOM, c);
    ConsGives(m, Integer(4), PrimQuote(ONE_ATOM), lookup, c, ONE_ATOM, code);
    ConsGives(m, Integer(4), PrimQuote(ONE_ATOM), envExpr, c, ONE_ATOM, left);
    MakeListGives(m, [PrimQuote(CONS_ATOM), PrimCons(PrimQuote(ONE_ATOM), envExpr), PrimQuote(ONE_ATOM)], c,
                  [CONS_ATOM, Cons(ONE_ATOM, left), ONE_ATOM]);
    var inner := ListOf([CONS_ATOM, Cons(ONE_ATOM, left), ONE_ATOM]);
    MakeListGives(m, [PrimQuote(APPLY_ATOM), PrimCons(PrimQuote(ONE_ATOM), lookup),
                      MakeList([PrimQuote(CONS_ATOM), PrimCons(PrimQuote(ONE_ATOM), envExpr), PrimQuote(ONE_ATOM)])], c,
                  [APPLY_ATOM, Cons(ONE_ATOM, code), inner]);
  }

  lemma {:induction false} ThreeElements(a: SExp, b: SExp, c: SExp)
    ensures ListOf([a, b, c]) == Cons(a, Cons(b, Cons(c, Nil)))
  {
    assert [a, b, c][1..] == [b, c] && [b, c][1..] == [c] && [c][1..] == [];
    assert ListOf([c]) == Cons(c, Nil);
    assert ListOf([b, c]) == Cons(b, Cons(c, Nil));
  }

  lemma {:induction false} AtomQuoteGives(m: Config, q: SExp, c: SExp)
    requires PlainGlue(m)
    ensures Gives(m, Cons(ONE_ATOM, q), c, q)
  {
    GlueAtomHeads(m, 0, c);
    GivesAt(m, 1, Cons(ONE_ATOM, q), c, q);
  }

  /** Running a function value on arguments is running the function's code with the environment it
      carries beside the arguments: the same outcomes, successful or not. */
  lemma {:induction false} ClosureRuns(m: Config, code: SExp, left: SExp, args: SExp, o: Outcome<SExp>)
    requires PlainGlue(m) && !o.Timeout?
    ensures Evaluates(m, LambdaValue(code, left), args, o) <==> Evaluates(m, code, Cons(left, args), o)
  {
    var env := Cons(CONS_ATOM, Cons(Cons(ONE_ATOM, left), Cons(ONE_ATOM, Nil)));
    ThreeElements(CONS_ATOM, Cons(ONE_ATOM, left), ONE_ATOM);
    ThreeElements(APPLY_ATOM, Cons(ONE_ATOM, code), env);
    AtomQuoteGives(m, code, args);
    AtomQuoteGives(m, left, args);
    FlattenNonNegative(1);
    assert U8FromNumber(1) == [1] && NumberFromU8(U8FromNumber(1)) == 1 by { NumberRoundTrip(1); }
    GivesAt(m, 1, ONE_ATOM, args, args);
    ConsGives(m, CONS_ATOM, Cons(ONE_ATOM, left), ONE_ATOM, args, left, args);
    ApplyEvaluates(m, APPLY_ATOM, Cons(ONE_ATOM, code), env, args, code, Cons(left, args), o);
  }

  /** A function mentioned as a value where the environment is (left . anything) becomes a program
      that runs the function with that left environment. */
  lemma {:induction false} ReferenceIsClosure(m: Config, path: nat, left: SExp, here: SExp, code: SExp, args: SExp, o: Outcome<SExp>)
    returns (closure: SExp)
    requires PlainGlue(m) && !o.Timeout?
    requires ChoosePath(path, Cons(left, here)) == Success(code)
    ensures Gives(m, LambdaForDefun(Integer(path), APPLY_ATOM), Cons(left, here), closure)
    ensures Evaluates(m, closure, args, o) <==> Evaluates(m, code, Cons(left, args), o)
  {
    closure := LambdaValue(code, left);
    PathGives(m, path, Cons(left, here), code);
    AtomPathGives(m, 2, Cons(left, here), left);
    LambdaForDefunGives(m, Integer(path), APPLY_ATOM, Cons(left, here), code, left);
    ClosureRuns(m, code, left, args, o);
  }

  lemma {:induction false} AtomPathGives(m: Config, p: byte, c: SExp, v: SExp)
    requires 0 < p < 128 && ChoosePath(p as nat, c) == Success(v)
    ensures Gives(m, Atom([p]), c, v)
  {
    FlattenNonNegative(p as nat);
    assert NumberFromU8([p]) == p as int by {
      NumberRoundTrip(p as int);
      assert U8FromNumber(p as int) == [p];
    }
    GivesAt(m, 1, Atom([p]), c, v);
  }

  // ---- The standalone phase --------------------------------------------------------------------

  /** `collect_env_names`: every name written in an environment's shape. */
  method CollectEnvNames(env: SExp) returns (result: seq<bytes>)
    ensures forall name :: name in result <==> name in Atoms(env)
  {
    result := [];
    var stack := [env];
    while stack != []
      invariant forall name :: name in Atoms(env) <==> name in result || name in StackAtoms(stack)
      decreases StackSize(stack)
    {
      var e, rest := stack[|stack| - 1], stack[..|stack| - 1];
      if e.Cons? {
        StackMore(rest, e.first, e.rest);
        stack := rest + [e.first, e.rest];
      } else {
        if e.Atom? {
          result := result + [e.name];
        }
        stack := rest;
      }
    }
  }

  function StackAtoms(stack: seq<SExp>): set<bytes> {
    if stack == [] then {} else StackAtoms(stack[..|stack| - 1]) + Atoms(stack[|stack| - 1])
  }

  function StackSize(stack: seq<SExp>): nat { if stack == [] then 0 else StackSize(stack[..|stack| - 1]) + 1 + 2 * Size(stack[|stack| - 1]) }

  lemma {:induction false} StackMore(rest: seq<SExp>, a: SExp, b: SExp)
    ensures StackAtoms(rest + [a, b]) == StackAtoms(rest) + Atoms(a) + Atoms(b)
    ensures StackSize(rest + [a, b]) == StackSize(rest) + 2 + 2 * Size(a) + 2 * Size(b)
  {
    var both := rest + [a, b];
    assert both[..|both| - 1] == rest + [a] && (rest + [a])[..|rest|] == rest;
  }

  /** `make_env_tree`. */
  function MakeEnvTree(names: seq<bytes>, start: nat, end: nat): (r: SExp)
    requires start <= end <= |names|
    decreases end - start
  {
    if start + 1 > end then Nil
    else if start + 1 == end then Atom(names[start])
    else
      var mid := (start + end) / 2;
      Cons(MakeEnvTree(names, start, mid), MakeEnvTree(names, mid, end))
  }

  /** It is balanced like the tree of a program's own functions. */
  lemma {:induction false} MakeEnvTreeBuilds(names: seq<bytes>, start: nat, end: nat)
    requires start < end <= |names|
    ensures MakeEnvTree(names, start, end) == BuildTree(names, start, end)
    decreases end - start
  {
    if start + 1 < end {
      var mid := (start + end) / 2;
      MakeEnvTreeBuilds(names, start, mid);
      MakeEnvTreeBuilds(names, mid, end);
    }
  }

  /** The functions that the common phase's environment does not name. */
  function ExtraNames(phaseEnv: SExp, names: seq<bytes>): (r: seq<bytes>)
    ensures forall name :: name in r <==> name in names && name !in Atoms(phaseEnv)
  {
    if names == [] then [] else (if names[0] in Atoms(phaseEnv) then [] else [names[0]]) + ExtraNames(phaseEnv, names[1..])
  }

  function ExtraTree(phaseEnv: SExp, names: seq<bytes>): SExp {
    MakeEnvTree(ExtraNames(phaseEnv, names), 0, |ExtraNames(phaseEnv, names)|)
  }

  /** `compute_env_shape` in a standalone phase: the common tree stays where the common phase had it and
      the extra functions go beside it. */
  function StandaloneShape(phaseEnv: SExp, emptyCommon: bool, names: seq<bytes>, args: SExp): (r: Option<SExp>) {
    if emptyCommon then Some(Cons(ExtraTree(phaseEnv, names), args))
    else if phaseEnv.Cons? && phaseEnv.first.Cons? then Some(Cons(Cons(phaseEnv.first.first, ExtraTree(phaseEnv, names)), args))
    else None
  }

  /** `compute_env_shape` in a common phase. */
  function CommonShape(common: SExp, args: SExp): SExp { Cons(Cons(common, Nil), args) }

  predicate ProperlyNamed(names: seq<bytes>) { forall i :: 0 <= i < |names| ==> names[i] != [] && names[i] != AT }

  lemma {:induction false} ExtraTreeNames(phaseEnv: SExp, names: seq<bytes>)
    requires ProperlyNamed(names)
    ensures var tree := ExtraTree(phaseEnv, names);
            tree != Atom(AT) && (tree == Nil || NameTree(tree))
            && forall name :: Binds(tree, name) <==> name in names && name !in Atoms(phaseEnv)
  {
    var extra := ExtraNames(phaseEnv, names);
    forall i | 0 <= i < |extra| ensures extra[i] != [] && extra[i] != AT {
      assert extra[i] in extra;
      var j :| 0 <= j < |names| && names[j] == extra[i];
    }
    if extra != [] {
      MakeEnvTreeBuilds(extra, 0, |extra|);
      BuildTreeNames(extra, 0, |extra|);
      assert extra[0..|extra|] == extra;
      if |extra| == 1 {
        assert ExtraTree(phaseEnv, names) == Atom(extra[0]);
      }
    } else {
      assert forall name :: name !in extra;
    }
  }

  lemma {:induction false} NoCaptureBeside(common: SExp, extra: SExp)
    requires common != Atom(AT)
    ensures IsAtCapture(common, extra) == None
  {
  }

  /** A common name is found in the common tree, whatever is beside it, and finds its code there. */
  lemma {:induction false} CommonPath(common: SExp, other: SExp, args: SExp, codes: map<bytes, SExp>, name: bytes, beside: SExp, given: SExp)
    requires NameTree(common) && common != Atom(AT) && FinalizeEnv(common, codes).Some? && Binds(common, name)
    ensures var path := NameLookup(Cons(Cons(common, other), args), name);
            NameLookup(common, name).Some? && path == Some(4 * NameLookup(common, name).value)
            && name in codes
            && ChoosePath(path.value, Cons(Cons(FinalizeEnv(common, codes).value, beside), given)) == Success(codes[name])
  {
    NoCaptureBeside(common, other);
    LookupFindsCode(common, codes, name);
    var p := NameLookup(common, name).value;
    assert NameLookup(Cons(common, other), name) == Some(2 * p);
    assert NameLookup(Cons(Cons(common, other), args), name) == Some(4 * p);
  }

  /** Adding extra functions beside the common tree, or leaving them out again, moves nothing: a name
      of the common tree has the same path in both phases' shapes, and that path selects the same code
      whether the extra functions' code is there or `()`. */
  lemma {:induction false} CommonPathsSurvive(common: SExp, commonArgs: SExp, names: seq<bytes>, args: SExp, codes: map<bytes, SExp>, name: bytes,
                           given: SExp)
    requires NameTree(common) && common != Atom(AT) && FinalizeEnv(common, codes).Some? && Binds(common, name)
    requires ProperlyNamed(names) && forall x :: x in names ==> x in codes
    ensures var phaseEnv := CommonShape(common, commonArgs);
            var shape := StandaloneShape(phaseEnv, false, names, args);
            shape.Some? && FinalizeEnv(shape.value.first, codes).Some? && name in codes
            && var path := NameLookup(shape.value, name);
               path.Some? && path == NameLookup(phaseEnv, name)
               && ChoosePath(path.value, Cons(FinalizeEnv(shape.value.first, codes).value, given)) == Success(codes[name])
               && ChoosePath(path.value, Cons(Cons(FinalizeEnv(common, codes).value, Nil), given)) == Success(codes[name])
  {
    var extra := ExtraTree(CommonShape(common, commonArgs), names);
    ExtraTreeNames(CommonShape(common, commonArgs), names);
    if extra != Nil {
      FinalizeSucceeds(extra, codes);
    }
    CommonPath(common, Nil, commonArgs, codes, name, Nil, given);
    CommonPath(common, extra, args, codes, name, FinalizeEnv(extra, codes).value, given);
  }

  /** The path of every extra function selects its code. */
  lemma {:induction false} ExtraPathsSelect(common: SExp, commonArgs: SExp, names: seq<bytes>, args: SExp, codes: map<bytes, SExp>, name: bytes,
                         given: SExp)
    requires NameTree(common) && common != Atom(AT) && FinalizeEnv(common, codes).Some?
    requires ProperlyNamed(names) && (forall x :: x in names ==> x in codes)
    requires name in names && name !in Atoms(CommonShape(common, commonArgs))
    ensures var shape := StandaloneShape(CommonShape(common, commonArgs), false, names, args);
            shape.Some? && FinalizeEnv(shape.value.first, codes).Some? && NameLookup(shape.value, name).Some?
            && ChoosePath(NameLookup(shape.value, name).value, Cons(FinalizeEnv(shape.value.first, codes).value, given)) == Success(codes[name])
  {
    var extra := ExtraTree(CommonShape(common, commonArgs), names);
    ExtraTreeNames(CommonShape(common, commonArgs), names);
    NoCaptureBeside(common, extra);
    assert Binds(extra, name);
    FinalizeSucceeds(extra, codes);
    LookupFindsCode(extra, codes, name);
    LookupIsDestructuring(common, Nil, name);
    if Binds(common, name) {
      TreeBindsAtoms(common, name);
    }
  }

  lemma {:induction false} TreeBindsAtoms(tree: SExp, name: bytes)
    requires NameTree(tree) && Binds(tree, name)
    ensures name in Atoms(tree)
  {
    if tree.Cons? {
      NameTreeIsNoList(tree.rest);
      if Binds(tree.first, name) {
        TreeBindsAtoms(tree.first, name);
      } else {
        TreeBindsAtoms(tree.rest, name);
      }
    }
  }

  /** A common function mentioned in a standalone program: the closure carries only the common
      tree, and running it is running the function with (common . ()). */
  lemma {:induction false} CommonReferenceIsClosure(m: Config, path: nat, common: SExp, extra: SExp, here: SExp, code: SExp, args: SExp,
                                 o: Outcome<SExp>) returns (closure: SExp)
    requires PlainGlue(m) && !o.Timeout?
    requires ChoosePath(path, Cons(Cons(common, extra), here)) == Success(code)
    ensures Gives(m, LambdaForDefun(Integer(path), COMMON_ONLY), Cons(Cons(common, extra), here), closure)
    ensures Evaluates(m, closure, args, o) <==> Evaluates(m, code, Cons(Cons(common, Nil), args), o)
  {
    var c := Cons(Cons(common, extra), here);
    closure := LambdaValue(code, Cons(common, Nil));
    PathGives(m, path, c, code);
    assert ChoosePath(4, c) == ChoosePath(2, c.first) == ChoosePath(1, common);
    AtomPathGives(m, 4, c, common);
    GivesAt(m, 1, Nil, c, Nil);
    ConsGives(m, Integer(4), CONS_ATOM, Nil, c, common, Nil);
    LambdaForDefunGives(m, Integer(path), COMMON_ONLY, c, code, Cons(common, Nil));
    ClosureRuns(m, code, Cons(common, Nil), args, o);
  }
}
