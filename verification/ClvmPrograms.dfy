/** Program fragments the compiler emits (`primquote`, `primcons`, `primapply`, list building) and
    how each evaluates. */
module ClvmPrograms {
  import opened Numbers
  import opened SExpressions
  import opened Machine
  import opened BigStep
  import opened MachineRefinement

  function PrimQuote(a: SExp): SExp { Cons(Integer(1), a) }

  function PrimCons(a: SExp, b: SExp): SExp { Cons(Integer(4), Cons(a, Cons(b, Nil))) }

  function PrimApply(a: SExp, b: SExp): SExp { Cons(Integer(2), Cons(a, Cons(b, Nil))) }

  /** Code that builds the list of its elements' values: `make_list` in codegen.rs. */
  function MakeList(elements: seq<SExp>): SExp {
    if elements == [] then Nil else PrimCons(elements[0], MakeList(elements[1..]))
  }

  method MakeListLoop(elements: seq<SExp>) returns (res: SExp)
    ensures res == MakeList(elements)
  {
    res := Nil;
    for i := |elements| downto 0
      invariant res == MakeList(elements[i..])
    {
      res := PrimCons(elements[i], res);
    }
  }

  /** No primitive's name is the single byte `op`, so the number `op` in head position means
      itself. */
  predicate PlainOp(m: Config, op: int) {
    U8FromNumber(op) !in m.prims
  }

  /** The operators that compiled code is glued together with mean themselves. */
  predicate PlainGlue(m: Config) {
    PlainOp(m, 1) && PlainOp(m, 2) && PlainOp(m, 4)
  }

  /** A program yields a value. */
  ghost predicate Gives(m: Config, e: SExp, c: SExp, v: SExp) {
    Evaluates(m, e, c, Success(v))
  }

  lemma {:induction false} GivesAt(m: Config, n: nat, e: SExp, c: SExp, v: SExp)
    requires Eval(m, n, e, c) == Success(v)
    ensures Gives(m, e, c, v)
  {
  }

  /** Two programs that give values give them under one common bound. */
  lemma {:induction false} Together(m: Config, e1: SExp, c1: SExp, v1: SExp, e2: SExp, c2: SExp, v2: SExp) returns (n: nat)
    requires Gives(m, e1, c1, v1) && Gives(m, e2, c2, v2)
    ensures Eval(m, n, e1, c1) == Success(v1) && Eval(m, n, e2, c2) == Success(v2)
  {
    var n1: nat :| Eval(m, n1, e1, c1) == Success(v1);
    var n2: nat :| Eval(m, n2, e2, c2) == Success(v2);
    n := n1 + n2;
    EvalMono(m, n1, n, e1, c1);
    EvalMono(m, n2, n, e2, c2);
  }

  lemma {:induction false} GlueHeads(m: Config, n: nat, c: SExp)
    requires PlainGlue(m)
    ensures EvalHead(m, n, Integer(1), c) == Success(Integer(1))
    ensures EvalHead(m, n, Integer(2), c) == Success(Integer(2))
    ensures EvalHead(m, n, Integer(4), c) == Success(Integer(4))
  {
  }

  /** The same operators spelled as one-byte atoms, as `lambda_for_defun` spells them. */
  lemma {:induction false} GlueAtomHeads(m: Config, n: nat, c: SExp)
    requires PlainGlue(m)
    ensures EvalHead(m, n, Atom([1]), c) == Success(Integer(1))
    ensures EvalHead(m, n, Atom([2]), c) == Success(Integer(2))
    ensures EvalHead(m, n, Atom([4]), c) == Success(Integer(4))
  {
    assert U8FromNumber(1) == [1] && U8FromNumber(2) == [2] && U8FromNumber(4) == [4];
  }

  lemma {:induction false} PathGives(m: Config, p: nat, c: SExp, v: SExp)
    requires ChoosePath(p, c) == Success(v)
    ensures Gives(m, Integer(p), c, v)
  {
    FlattenNonNegative(p);
    GivesAt(m, 1, Integer(p), c, v);
  }

  lemma {:induction false} QuoteGives(m: Config, q: SExp, c: SExp)
    requires PlainGlue(m)
    ensures Gives(m, PrimQuote(q), c, q)
  {
    GlueHeads(m, 0, c);
    GivesAt(m, 1, PrimQuote(q), c, q);
  }

  /** A two-argument operator form evaluates its arguments and operates on their values. */
  lemma {:induction false} TwoArgs(m: Config, n: nat, h: SExp, a: SExp, b: SExp, c: SExp, va: SExp, vb: SExp)
    requires Eval(m, n, a, c) == Success(va) && Eval(m, n, b, c) == Success(vb)
    ensures EvalArgs(m, n, Cons(a, Cons(b, Nil)), c) == Success(Cons(va, Cons(vb, Nil)))
    ensures ArgList(Cons(a, Cons(b, Nil))) != None
    ensures ProperList(Cons(va, Cons(vb, Nil))) == Some([va, vb])
  {
    assert EvalArgs(m, n, Cons(b, Nil), c) == Success(Cons(vb, Nil));
    assert ArgList(Cons(b, Nil)).Some?;
    assert [vb] + [] == [vb];
    assert ProperList(Cons(vb, Nil)) == Some([vb]);
    assert [va] + [vb] == [va, vb];
  }

  /** `op` in head position is the cons operator, however it is spelled. */
  lemma {:induction false} ConsGives(m: Config, h: SExp, a: SExp, b: SExp, c: SExp, va: SExp, vb: SExp)
    requires PlainGlue(m) && (h == Integer(4) || h == Atom([4]))
    requires Gives(m, a, c, va) && Gives(m, b, c, vb)
    ensures Gives(m, Cons(h, Cons(a, Cons(b, Nil))), c, Cons(va, vb))
  {
    var n := Together(m, a, c, va, b, c, vb);
    GlueHeads(m, n, c);
    GlueAtomHeads(m, n, c);
    TwoArgs(m, n, h, a, b, c, va, vb);
    GivesAt(m, n + 1, Cons(h, Cons(a, Cons(b, Nil))), c, Cons(va, vb));
  }

  /** Applying evaluates a program's value in an environment's value: both ways, for every
      decided outcome. */
  lemma {:induction false} ApplyEvaluates(m: Config, h: SExp, a: SExp, b: SExp, c: SExp, va: SExp, vb: SExp, o: Outcome<SExp>)
    requires PlainGlue(m) && (h == Integer(2) || h == Atom([2])) && !o.Timeout?
    requires Gives(m, a, c, va) && Gives(m, b, c, vb)
    ensures Evaluates(m, Cons(h, Cons(a, Cons(b, Nil))), c, o) <==> Evaluates(m, va, vb, o)
  {
    var e := Cons(h, Cons(a, Cons(b, Nil)));
    var n := Together(m, a, c, va, b, c, vb);
    if Evaluates(m, va, vb, o) {
      var k: nat :| Eval(m, k, va, vb) == o;
      var w := n + k;
      EvalMono(m, k, w, va, vb);
      ApplyAt(m, w, h, a, b, c, va, vb, n);
      assert Eval(m, w + 1, e, c) == o;
    }
    if Evaluates(m, e, c, o) {
      var k: nat :| Eval(m, k, e, c) == o;
      var w := n + k;
      EvalMono(m, k, w + 1, e, c);
      ApplyAt(m, w, h, a, b, c, va, vb, n);
      assert Eval(m, w, va, vb) == o;
    }
  }

  lemma {:induction false} ApplyAt(m: Config, w: nat, h: SExp, a: SExp, b: SExp, c: SExp, va: SExp, vb: SExp, n: nat)
    requires PlainGlue(m) && (h == Integer(2) || h == Atom([2])) && n <= w
    requires Eval(m, n, a, c) == Success(va) && Eval(m, n, b, c) == Success(vb)
    ensures Eval(m, w + 1, Cons(h, Cons(a, Cons(b, Nil))), c) == Eval(m, w, va, vb)
  {
    EvalMono(m, n, w, a, c);
    EvalMono(m, n, w, b, c);
    GlueHeads(m, w, c);
    GlueAtomHeads(m, w, c);
    TwoArgs(m, w, h, a, b, c, va, vb);
  }

  lemma {:induction false} ApplyGives(m: Config, h: SExp, a: SExp, b: SExp, c: SExp, va: SExp, vb: SExp, v: SExp)
    requires PlainGlue(m) && (h == Integer(2) || h == Atom([2]))
    requires Gives(m, a, c, va) && Gives(m, b, c, vb) && Gives(m, va, vb, v)
    ensures Gives(m, Cons(h, Cons(a, Cons(b, Nil))), c, v)
  {
    ApplyEvaluates(m, h, a, b, c, va, vb, Success(v));
  }

  /** List-building code gives the list of its elements' values. */
  lemma {:induction false} MakeListGives(m: Config, codes: seq<SExp>, c: SExp, values: seq<SExp>)
    requires PlainGlue(m) && |codes| == |values|
    requires forall i :: 0 <= i < |codes| ==> Gives(m, codes[i], c, values[i])
    ensures Gives(m, MakeList(codes), c, ListOf(values))
  {
    if codes == [] {
      GivesAt(m, 1, Nil, c, Nil);
    } else {
      MakeListGives(m, codes[1..], c, values[1..]);
      ConsGives(m, Integer(4), codes[0], MakeList(codes[1..]), c, values[0], ListOf(values[1..]));
    }
  }
}
