/** The compiler's correctness for whole programs of possibly mutually recursive functions, down to
    runs of the stepwise machine. */
module ProgramCorrect {
  import opened Numbers
  import opened SExpressions
  import opened Machine
  import opened MachineRefinement
  import opened Syntax
  import opened AssignForms
  import opened AssignWeight
  import opened Semantics
  import opened Environments
  import opened ClvmPrograms
  import opened Closures
  import opened Inlining
  import opened CodeGeneration
  import opened CodegenEnds
  import opened CompilerCorrect

  /** The functions of a program can be compiled: they have proper names, their parameters are not
      named like functions, and their bodies are plain. */
  ghost predicate DefunsCompilable(w: World, d: nat, defuns: seq<Defun>) {
    defuns == []
    || (DefunsCompilable(w, d, defuns[1..])
        && (!defuns[0].inline ==>
              defuns[0].name != [] && defuns[0].name != AT && Site(w, defuns[0].args) && PlainTo(w, d, defuns[0].body)))
  }

  /** The conditions under which a program's compilation is trusted; they look at the world's
      operators, functions and names, not at its references or left environment. */
  ghost predicate Compilable(w: World, src: Source, d: nat) {
    PlainGlue(w.machine) && w.defuns == src.defuns && Distinct(src.defuns)
    && DefunsCompilable(w, d, src.defuns) && Site(w, src.args) && PlainTo(w, d, src.main)
    && (HasInline(src.defuns) ==> GluePlain(w) && InlinesPlain(w, src.defuns))
  }

  /** The world of a compiled program: mentioning a function stands for its closure over the code
      tree, and the code tree is what `@` shows beside the arguments. */
  function LinkedWorld(m: Config, src: Source, prims: map<bytes, SExp>, strict: bool, k: nat): (w: World)
    requires FinalEnv(src, prims, strict, k).Success?
  {
    var tree := FinalEnv(src, prims, strict, k).value;
    var codes := CodeTable(Generator(src, prims, strict), k, src.defuns).value;
    World(m, src.defuns, prims, strict, map name | name in codes :: LambdaValue(codes[name], tree), Some(tree), false)
  }

  lemma {:induction false} TableNames(cg: Codegen, k: nat, defuns: seq<Defun>)
    requires CodeTable(cg, k, defuns).Success?
    ensures forall name :: name in CodeTable(cg, k, defuns).value <==> name in DefunNames(defuns)
  {
    if defuns != [] {
      TableNames(cg, k, defuns[1..]);
    }
  }

  /** Each function finds its own code in the table. */
  lemma {:induction false} TableLinks(w: World, b: Build, defuns: seq<Defun>)
    requires Distinct(defuns) && CodeTable(At(b, Nil), b.k, defuns).Success?
    requires var t := CodeTable(At(b, Nil), b.k, defuns).value;
             forall name :: name in t ==> name in b.codes && b.codes[name] == t[name]
    requires forall name :: name in DefunNames(defuns) ==> Binds(b.shape, name)
    requires w.left.Some? && forall name :: name in b.codes ==>
                                      name in w.refs && w.refs[name] == LambdaValue(b.codes[name], w.left.value)
    requires DefunsCompilable(w, b.d, defuns) && Matching(w, b)
    ensures Linked(w, b, defuns)
  {
    if defuns != [] {
      var f, rest := defuns[0], defuns[1..];
      var t := CodeTable(At(b, Nil), b.k, rest).value;
      TableNames(At(b, Nil), b.k, rest);
      if !f.inline {
        assert f.name in DefunNames(defuns);
        assert f.name !in t;
        assert CodeTable(At(b, Nil), b.k, defuns).value == t[f.name := DefunCode(At(b, Nil), b.k, f).value];
      }
      TableLinks(w, b, rest);
    }
  }

  lemma {:induction false} ProperNames(w: World, d: nat, defuns: seq<Defun>)
    requires DefunsCompilable(w, d, defuns)
    ensures forall name :: name in DefunNames(defuns) ==> name != [] && name != AT
  {
    if defuns != [] {
      ProperNames(w, d, defuns[1..]);
    }
  }

  lemma {:induction false} NamesAreFound(defuns: seq<Defun>, name: bytes)
    requires Distinct(defuns) && name in DefunNames(defuns)
    ensures FindDefun(defuns, name).Some? && !FindDefun(defuns, name).value.inline
  {
    if defuns[0].name != name || defuns[0].inline {
      NamesAreFound(defuns[1..], name);
    }
  }

  lemma {:induction false} TreeIsShaped(w: World, d: nat, defuns: seq<Defun>)
    requires DefunsCompilable(w, d, defuns) && Distinct(defuns)
    ensures Shaped(ComputeCodeShape(DefunNames(defuns)), defuns)
    ensures forall name :: name in DefunNames(defuns) ==> Binds(ComputeCodeShape(DefunNames(defuns)), name)
  {
    var names := DefunNames(defuns);
    ProperNames(w, d, defuns);
    if names != [] {
      forall i | 0 <= i < |names| ensures names[i] != [] { assert names[i] in names; }
      BuildTreeNames(names, 0, |names|);
      assert names[0..|names|] == names;
    }
    var shape := ComputeCodeShape(names);
    assert shape != Atom(AT) by {
      if |names| == 1 {
        assert names[0] in names;
      }
    }
    forall name | Binds(shape, name)
      ensures FindDefun(defuns, name).Some? && !FindDefun(defuns, name).value.inline
    {
      NamesAreFound(defuns, name);
    }
  }

  /** If a program means v on given arguments, the program compiled from it gives v on them. */
  lemma {:induction false} CompiledGives(m: Config, src: Source, prims: map<bytes, SExp>, strict: bool, k: nat, d: nat, n: nat, given: SExp, v: SExp)
    requires Compile(src, prims, strict, k).Success?
    requires Compilable(LinkedWorld(m, src, prims, strict, k), src, d)
    requires Sem(LinkedWorld(m, src, prims, strict, k), n, [Scope(src.args, given)], src.main) == Success(v)
    ensures Gives(m, Compile(src, prims, strict, k).value, given, v)
  {
    var w := LinkedWorld(m, src, prims, strict, k);
    var cg := Generator(src, prims, strict);
    var codes := CodeTable(cg, k, src.defuns).value;
    var tree := FinalEnv(src, prims, strict, k).value;
    var b := Build(cg, cg.env.first, codes, k, d);
    TreeIsShaped(w, d, src.defuns);
    SameTable(cg, At(b, Nil), k, src.defuns);
    TableLinks(w, b, src.defuns);
    var main := GenExpr(cg, k, src.main).value;
    assert At(b, src.args) == cg;
    GenMeans(w, b, k, d, n, src.args, given, src.main, main, v);
    QuoteGives(m, main, given);
    QuoteGives(m, tree, given);
    PathGives(m, 1, given, given);
    ConsGives(m, Integer(4), PrimQuote(tree), Integer(1), given, tree, given);
    ApplyGives(m, Integer(2), PrimQuote(main), PrimCons(PrimQuote(tree), Integer(1)), given, main, Cons(tree, given), v);
  }

  /** Function code does not depend on the arguments the generator was set up for. */
  lemma {:induction false} SameTable(cg: Codegen, cg': Codegen, k: nat, defuns: seq<Defun>)
    requires cg.env.Cons? && cg'.env.Cons? && cg' == cg.(env := cg'.env) && cg.env.first == cg'.env.first
    ensures CodeTable(cg, k, defuns) == CodeTable(cg', k, defuns)
  {
    if defuns != [] {
      assert cg.(env := Cons(cg.env.first, defuns[0].args)) == cg'.(env := Cons(cg'.env.first, defuns[0].args));
      SameTable(cg, cg', k, defuns[1..]);
    }
  }

  /** Compiler correctness, end to end: the stepwise machine, run on the compiled program with
      enough steps, ends with exactly the value the source means, and never with another. */
  lemma {:induction false} CompilerIsCorrect(m: Config, src: Source, prims: map<bytes, SExp>, strict: bool, k: nat, d: nat, n: nat, given: SExp,
                          v: SExp)
    requires Compile(src, prims, strict, k).Success?
    requires Compilable(LinkedWorld(m, src, prims, strict, k), src, d)
    requires Sem(LinkedWorld(m, src, prims, strict, k), n, [Scope(src.args, given)], src.main) == Success(v)
    ensures exists limit: nat :: Run(m, limit, Compile(src, prims, strict, k).value, given) == Success(v)
    ensures forall limit: nat :: Run(m, limit, Compile(src, prims, strict, k).value, given) in {Success(v), Timeout}
  {
    var code := Compile(src, prims, strict, k).value;
    CompiledGives(m, src, prims, strict, k, d, n, given, v);
    RunIsEval(m, code, given, Success(v));
    forall limit: nat ensures Run(m, limit, code, given) in {Success(v), Timeout} {
      var o := Run(m, limit, code, given);
      if !o.Timeout? {
        RunIsEval(m, code, given, o);
        assert Evaluates(m, code, given, o) by { assert Run(m, limit, code, given) == o; }
        EvaluatesOnce(m, code, given, o, Success(v));
      }
    }
  }

  // ---- Programs that do not look at their environment -----------------------------------------

  /** A world in which functions have no values and `@` shows nothing. */
  function Closed(w: World): World { w.(refs := map[], left := None) }

  /** What a program means without function values and `@`, it means with any of them. */
  lemma {:induction false} ClosedMeaning(w: World, n: nat, scopes: seq<Scope>, e: BodyForm)
    requires Sem(Closed(w), n, scopes, e).Success?
    ensures Sem(w, n, scopes, e) == Sem(Closed(w), n, scopes, e)
    decreases n, Weight(e), 1
  {
    var c := Closed(w);
    if e.Let? && e.kind == Parallel {
      ClosedBindings(w, n, scopes, e.bindings);
      ClosedMeaning(w, n, [Scope(PatternList(e.bindings), SemBindings(c, n, scopes, e.bindings).value)] + scopes, e.inner);
    } else if e.Let? && e.kind == Sequential {
      ClosedSequence(w, n, scopes, e.bindings, e.inner);
    } else if e.Let? {
      HoistedAssignIsLighter(e.inlined, e.bindings, e.inner);
      ClosedMeaning(w, n, scopes, HoistAssign(e.inlined, e.bindings, e.inner).value);
    } else if e.Call? {
      ClosedCall(w, n, scopes, e);
    }
  }

  lemma {:induction false} ClosedCall(w: World, n: nat, scopes: seq<Scope>, e: BodyForm)
    requires e.Call? && Sem(Closed(w), n, scopes, e).Success?
    ensures Sem(w, n, scopes, e) == Sem(Closed(w), n, scopes, e)
    decreases n, Weight(e), 0
  {
    var c := Closed(w);
    WeightParts(e);
    var name := CallName(e.forms[0]).value;
    var f := FindDefun(w.defuns, name);
    if f.Some? {
      ClosedArgs(w, n, scopes, e.forms[1..], e.tail);
      var args := SemArgs(c, n, scopes, e.forms[1..], e.tail).value;
      ClosedMeaning(w, n - 1, [Scope(f.value.args, args)], f.value.body);
    } else {
      ClosedArgs(w, n, scopes, e.forms[1..], None);
    }
  }

  lemma {:induction false} ClosedArgs(w: World, n: nat, scopes: seq<Scope>, args: seq<BodyForm>, tail: Option<BodyForm>)
    requires SemArgs(Closed(w), n, scopes, args, tail).Success?
    ensures SemArgs(w, n, scopes, args, tail) == SemArgs(Closed(w), n, scopes, args, tail)
    decreases n, FormsWeight(args) + TailWeight(tail), 2
  {
    if args == [] {
      if tail.Some? {
        ClosedMeaning(w, n, scopes, tail.value);
      }
    } else {
      ClosedArgs(w, n, scopes, args[1..], tail);
      ClosedMeaning(w, n, scopes, args[0]);
    }
  }

  lemma {:induction false} ClosedBindings(w: World, n: nat, scopes: seq<Scope>, bs: seq<Binding>)
    requires SemBindings(Closed(w), n, scopes, bs).Success?
    ensures SemBindings(w, n, scopes, bs) == SemBindings(Closed(w), n, scopes, bs)
    decreases n, BindingsWeight(bs, 1), 2
  {
    if bs != [] {
      BindingParts(bs, 1);
      ClosedMeaning(w, n, scopes, bs[0].body);
      ClosedBindings(w, n, scopes, bs[1..]);
    }
  }

  lemma {:induction false} ClosedSequence(w: World, n: nat, scopes: seq<Scope>, bs: seq<Binding>, inner: BodyForm)
    requires SemSequence(Closed(w), n, scopes, bs, inner).Success?
    ensures SemSequence(w, n, scopes, bs, inner) == SemSequence(Closed(w), n, scopes, bs, inner)
    decreases n, BindingsWeight(bs, 1) + Weight(inner), 2
  {
    if bs == [] {
      ClosedMeaning(w, n, scopes, inner);
    } else {
      BindingParts(bs, 1);
      ClosedMeaning(w, n, scopes, bs[0].body);
      var v := Sem(Closed(w), n, scopes, bs[0].body).value;
      ClosedSequence(w, n, [Scope(PatternList([bs[0]]), Cons(v, Nil))] + scopes, bs[1..], inner);
    }
  }

  /** For programs whose meaning needs neither function values nor `@`, the source side does not
      mention the compiler at all. */
  lemma {:induction false} ClosedProgramsCompile(m: Config, src: Source, prims: map<bytes, SExp>, strict: bool, k: nat, d: nat, n: nat,
                              given: SExp, v: SExp)
    requires Compile(src, prims, strict, k).Success?
    requires Compilable(LinkedWorld(m, src, prims, strict, k), src, d)
    requires Sem(World(m, src.defuns, prims, strict, map[], None, false), n, [Scope(src.args, given)], src.main) == Success(v)
    ensures exists limit: nat :: Run(m, limit, Compile(src, prims, strict, k).value, given) == Success(v)
  {
    var w := LinkedWorld(m, src, prims, strict, k);
    assert Closed(w) == World(m, src.defuns, prims, strict, map[], None, false);
    ClosedMeaning(w, n, [Scope(src.args, given)], src.main);
    CompilerIsCorrect(m, src, prims, strict, k, d, n, given, v);
  }
}
