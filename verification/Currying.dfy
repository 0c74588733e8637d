/** Currying of CLVM programs: `curry_internal`, `uncurry_error_internal` and `match_op`, with the
    JavaScript wrapping removed. */
module Currying {
  import opened Numbers
  import opened SExpressions
  import opened Machine
  import opened MachineRefinement
  import opened ClvmPrograms
  import opened FunctionSearch

  /** The environment expression: quoted arguments consed onto whatever is given later. */
  function FixedArgs(args: seq<SExp>): (r: SExp) {
    if args == [] then Integer(1) else PrimCons(PrimQuote(args[0]), FixedArgs(args[1..]))
  }

  function Curry(program: SExp, args: seq<SExp>): (r: SExp) {
    PrimApply(PrimQuote(program), FixedArgs(args))
  }

  /** `curry_internal`. */
  method CurryLoop(program: SExp, args: seq<SExp>) returns (r: SExp)
    ensures r == Curry(program, args)
  {
    var fixedArgs := Integer(1);
    for i := |args| downto 0
      invariant fixedArgs == FixedArgs(args[i..])
    {
      fixedArgs := PrimCons(PrimQuote(args[i]), fixedArgs);
    }
    assert args[0..] == args;
    r := PrimApply(PrimQuote(program), fixedArgs);
  }

  /** `match_op`; zero expected arguments means a quote, whose one operand is its whole tail. */
  function MatchOp(opcode: byte, expected: nat, program: SExp): (r: Option<seq<SExp>>) {
    if expected == 0 then
      if program.Cons? && EqualTo(program.first, Atom([opcode])) then Some([program.rest]) else None
    else match ProperList(program)
      case None => None
      case Some(plist) =>
        if |plist| == expected + 1 && EqualTo(plist[0], Atom([opcode])) then Some(plist[1..]) else None
  }

  /** The unquoting of one curried argument. */
  function DeconsAndUnquote(expr: SExp): SExp {
    match MatchOp(1, 0, expr)
    case Some(l) => l[0]
    case None => expr
  }

  /** The arguments of a chain of conses that ends in the environment reference 1. */
  function UncurryArgs(expr: SExp): (r: Option<seq<SExp>>)
    decreases Size(expr)
  {
    if !expr.Cons? then (if EqualTo(expr, Atom([1])) then Some([]) else None)
    else match MatchOp(4, 2, expr)
      case None => None
      case Some(l) =>
        ListSmaller(expr);
        (match UncurryArgs(l[1])
         case None => None
         case Some(rest) => Some([DeconsAndUnquote(l[0])] + rest))
  }

  function Uncurry(program: SExp): (r: Option<(SExp, seq<SExp>)>) {
    match MatchOp(2, 2, program)
    case None => None
    case Some(applyArgs) =>
      match (MatchOp(1, 0, applyArgs[0]), applyArgs[1].Cons?, UncurryArgs(applyArgs[1]))
      case (Some(quoted), true, Some(args)) => Some((quoted[0], args))
      case _ => None
  }

  /** `uncurry_error_internal`; the first cons is matched before the loop. */
  method UncurryLoop(program: SExp) returns (r: Option<(SExp, seq<SExp>)>)
    ensures r == Uncurry(program)
  {
    var applyArgs := MatchOp(2, 2, program);
    if applyArgs == None {
      return None;
    }
    var quotedProg := MatchOp(1, 0, applyArgs.value[0]);
    if quotedProg == None {
      return None;
    }
    var consExpr := MatchOp(4, 2, applyArgs.value[1]);
    if consExpr == None {
      return None;
    }
    var retrieved := [DeconsAndUnquote(consExpr.value[0])];
    var nextCons := consExpr.value[1];
    ListSmaller(applyArgs.value[1]);
    while nextCons.Cons?
      invariant UncurryArgs(applyArgs.value[1]) ==
                match UncurryArgs(nextCons) case None => None case Some(l) => Some(retrieved + l)
      decreases Size(nextCons)
    {
      consExpr := MatchOp(4, 2, nextCons);
      if consExpr == None {
        return None;
      }
      ListSmaller(nextCons);
      var arg := DeconsAndUnquote(consExpr.value[0]);
      assert forall l: seq<SExp> :: retrieved + ([arg] + l) == (retrieved + [arg]) + l;
      retrieved := retrieved + [arg];
      nextCons := consExpr.value[1];
    }
    if !EqualTo(nextCons, Atom([1])) {
      return None;
    }
    assert retrieved + [] == retrieved;
    return Some((quotedProg.value[0], retrieved));
  }

  // ---- Currying means prepending the arguments ------------------------------------------------

  /** The curried arguments in front of an environment. */
  function Prepend(args: seq<SExp>, e: SExp): SExp {
    if args == [] then e else Cons(args[0], Prepend(args[1..], e))
  }

  lemma {:induction false} FixedArgsGive(m: Config, args: seq<SExp>, e: SExp)
    requires PlainGlue(m)
    ensures Gives(m, FixedArgs(args), e, Prepend(args, e))
  {
    if args == [] {
      PathGives(m, 1, e, e);
    } else {
      FixedArgsGive(m, args[1..], e);
      QuoteGives(m, args[0], e);
      ConsGives(m, Integer(4), PrimQuote(args[0]), FixedArgs(args[1..]), e, args[0], Prepend(args[1..], e));
    }
  }

  /** Running the curried program on `e` decides exactly as the program on the longer list. */
  lemma {:induction false} CurryPrepends(m: Config, program: SExp, args: seq<SExp>, e: SExp, o: Outcome<SExp>)
    requires PlainGlue(m) && !o.Timeout?
    ensures Evaluates(m, Curry(program, args), e, o) <==> Evaluates(m, program, Prepend(args, e), o)
  {
    FixedArgsGive(m, args, e);
    QuoteGives(m, program, e);
    ApplyEvaluates(m, Integer(2), PrimQuote(program), FixedArgs(args), e, program, Prepend(args, e), o);
  }

  // ---- Uncurrying takes it apart again --------------------------------------------------------

  lemma {:induction false} QuoteMatches(a: SExp)
    ensures MatchOp(1, 0, PrimQuote(a)) == Some([a])
  {
    EqualToIsClvmEquality(Integer(1), Atom([1]));
    assert U8FromNumber(1) == [1];
  }

  lemma {:induction false} ConsMatches(a: SExp, b: SExp)
    ensures MatchOp(4, 2, PrimCons(a, b)) == Some([a, b])
    ensures MatchOp(2, 2, PrimApply(a, b)) == Some([a, b])
  {
    ThreeList(Integer(4), a, b);
    ThreeList(Integer(2), a, b);
    EqualToIsClvmEquality(Integer(4), Atom([4]));
    EqualToIsClvmEquality(Integer(2), Atom([2]));
    assert U8FromNumber(4) == [4] && U8FromNumber(2) == [2];
  }

  lemma {:induction false} UncurryFixedArgs(args: seq<SExp>)
    ensures UncurryArgs(FixedArgs(args)) == Some(args)
  {
    if args == [] {
      EqualToIsClvmEquality(Integer(1), Atom([1]));
      assert U8FromNumber(1) == [1];
    } else {
      ConsMatches(PrimQuote(args[0]), FixedArgs(args[1..]));
      QuoteMatches(args[0]);
      UncurryFixedArgs(args[1..]);
      assert [args[0]] + args[1..] == args;
    }
  }

  /** With at least one argument the round trip is exact; a program curried with nothing is
      refused. */
  lemma {:induction false} UncurryInvertsCurry(program: SExp, args: seq<SExp>)
    ensures Uncurry(Curry(program, args)) == if args == [] then None else Some((program, args))
  {
    ConsMatches(PrimQuote(program), FixedArgs(args));
    QuoteMatches(program);
    UncurryFixedArgs(args);
  }

  // ---- When an accepted program is the curried one --------------------------------------------

  /** Every argument position of the chain of conses holds a quote. */
  predicate AllQuoted(expr: SExp)
    decreases Size(expr)
  {
    match MatchOp(4, 2, expr)
    case None => true
    case Some(l) =>
      ListSmaller(expr);
      MatchOp(1, 0, l[0]).Some? && AllQuoted(l[1])
  }

  /** What uncurrying accepts denotes the same CLVM value as the curried form of what it returns,
      exactly when all argument positions were quoted: an unquoted position is returned as if it
      had been a literal argument. */
  lemma {:induction false} UncurriedIsCurried(program: SExp)
    requires Uncurry(program).Some?
    ensures var r := Uncurry(program).value;
            EqualTo(program, Curry(r.0, r.1)) <==> AllQuoted(MatchOp(2, 2, program).value[1])
  {
    var l := MatchOp(2, 2, program).value;
    var r := Uncurry(program).value;
    EqualToIsClvmEquality(program, Curry(r.0, r.1));
    MatchedList(2, program);
    MatchedQuote(l[0]);
    FixedArgsOfUncurried(l[1]);
    ConvertedForms(PrimQuote(r.0), FixedArgs(r.1));
    ConvertedForms(r.0, Nil);
  }

  lemma {:induction false} MatchedQuote(e: SExp)
    requires MatchOp(1, 0, e).Some?
    ensures ConvertTo(e) == Pair(Leaf([1]), ConvertTo(MatchOp(1, 0, e).value[0]))
  {
    EqualToIsClvmEquality(e.first, Atom([1]));
  }

  lemma {:induction false} MatchedList(op: byte, e: SExp)
    requires MatchOp(op, 2, e).Some?
    ensures |MatchOp(op, 2, e).value| == 2
    ensures var l := MatchOp(op, 2, e).value;
            ConvertTo(e) == OpTree(op, ConvertTo(l[0]), ConvertTo(l[1]))
  {
    var p := ProperList(e).value;
    EqualToIsClvmEquality(p[0], Atom([op]));
    assert e.Cons? && p == [e.first] + ProperList(e.rest).value;
    var q := ProperList(e.rest).value;
    assert e.rest.Cons? && q == [e.rest.first] + ProperList(e.rest.rest).value;
    var t := ProperList(e.rest.rest).value;
    assert e.rest.rest.Cons? && t == [e.rest.rest.first] + ProperList(e.rest.rest.rest).value;
    var end := e.rest.rest.rest;
    assert |ProperList(end).value| == 0;
    assert Nilp(end);
    NilpIsEmptyLeaf(end);
    var l := MatchOp(op, 2, e).value;
    assert l[0] == p[1] == q[0] && l[1] == p[2] == q[1] == t[0];
  }

  lemma {:induction false} FixedArgsOfUncurried(e: SExp)
    requires UncurryArgs(e).Some?
    ensures ConvertTo(e) == ConvertTo(FixedArgs(UncurryArgs(e).value)) <==> AllQuoted(e)
    decreases Size(e)
  {
    var args := UncurryArgs(e).value;
    if e.Cons? {
      var l := MatchOp(4, 2, e).value;
      MatchedList(4, e);
      ListSmaller(e);
      FixedArgsOfUncurried(l[1]);
      assert args[1..] == UncurryArgs(l[1]).value;
      ConvertedForms(PrimQuote(args[0]), FixedArgs(args[1..]));
      ConvertedForms(args[0], Nil);
      if MatchOp(1, 0, l[0]).Some? {
        MatchedQuote(l[0]);
      } else {
        NotItsOwnQuote(l[0]);
      }
    } else {
      EqualToIsClvmEquality(e, Atom([1]));
      assert U8FromNumber(1) == [1];
    }
  }

  /** Nothing is the quote of itself. */
  lemma {:induction false} NotItsOwnQuote(e: SExp)
    ensures ConvertTo(e) != Pair(Leaf([1]), ConvertTo(e))
  {
    NotItsOwnPart(ConvertTo(e));
  }

  lemma {:induction false} NotItsOwnPart(t: Tree)
    ensures t != Pair(Leaf([1]), t)
  {
    if t.Pair? {
      NotItsOwnPart(t.right);
    }
  }

  /** A two-operand form and a quote as CLVM values. */
  function OpTree(op: byte, a: Tree, b: Tree): Tree { Pair(Leaf([op]), Pair(a, Pair(b, Leaf([])))) }

  lemma {:induction false} ConvertedForms(a: SExp, b: SExp)
    ensures ConvertTo(PrimCons(a, b)) == OpTree(4, ConvertTo(a), ConvertTo(b))
    ensures ConvertTo(PrimApply(a, b)) == OpTree(2, ConvertTo(a), ConvertTo(b))
    ensures ConvertTo(PrimQuote(a)) == Pair(Leaf([1]), ConvertTo(a))
  {
    assert ConvertTo(Cons(b, Nil)) == Pair(ConvertTo(b), Leaf([]));
    assert ConvertTo(Cons(a, Cons(b, Nil))) == Pair(ConvertTo(a), Pair(ConvertTo(b), Leaf([])));
    assert U8FromNumber(1) == [1] && U8FromNumber(4) == [4] && U8FromNumber(2) == [2];
  }
}
