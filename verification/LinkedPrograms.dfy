/** What desugaring puts out can be compiled: the conditions of the compiler's correctness, from
    conditions on the program before. */
module LinkedPrograms {
  import opened Numbers
  import opened SExpressions
  import opened Machine
  import opened Syntax
  import opened Semantics
  import opened ClvmPrograms
  import opened InliningSound
  import opened CodeGeneration
  import opened CodegenEnds
  import opened CompilerCorrect
  import opened ProgramCorrect
  import opened Gensyms
  import opened Hoisting
  import opened HoistingComplete
  import opened HoistingNames
  import opened HoistingSound
  import opened Desugaring
  import opened FreeNames
  import opened UsableCalls
  import opened HoistedNames

  // ---- Conditions --------------------------------------------------------------------------------

  /** The names that passes write. */
  const GLUE: set<bytes> := {FIRST_NAME, REST_NAME, CONS_NAME, [4], AT, AT_ENV}

  ghost predicate PlainOperator(g: Ground, name: bytes, op: int) {
    Primitive(g.prims, name).Some? && AtomValue(Primitive(g.prims, name).value) == Some(op) && PlainPrim(g.machine, Primitive(g.prims, name).value)
  }

  /** The operators are as they should be: those that passes write are plain, `@` is none, and none has a
      name that could be invented. */
  ghost predicate OperatorsFine(g: Ground) {
    PlainGlue(g.machine) && PlainOperator(g, FIRST_NAME, FIRST_OP) && PlainOperator(g, REST_NAME, REST_OP) && PlainOperator(g, CONS_NAME, CONS_OP)
    && PlainOperator(g, [4], CONS_OP) && Primitive(g.prims, AT) == None && forall name :: Primitive(g.prims, name).Some? ==> Before(name, g.count)
  }

  /** No name that passes write and no name bound in the program is a function's, and the two differ. */
  ghost predicate NamesFine(g: Ground) {
    (forall name :: name in GLUE ==> FindDefun(g.defuns, name) == None)
    && forall x :: Binds(g.own, x) || x in g.binders ==> Before(x, g.count) && FindDefun(g.defuns, x) == None && x !in GLUE
  }

  ghost predicate FunctionsNamed(g: Ground) { forall f :: f in g.defuns ==> f.name != [] && f.name != AT && Before(f.name, g.count) }

  // ---- Worlds ------------------------------------------------------------------------------------

  /** A world with the functions that hoisting adds. */
  ghost predicate Links(g: Ground, w: World) {
    w.machine == g.machine && w.prims == g.prims && w.strict == g.strict
    && (forall name :: Before(name, g.count) ==> Kind(w.defuns, name) == Kind(g.defuns, name))
    && forall f :: f in w.defuns ==> f.name != [] && f.name != AT
  }

  lemma {:induction false} ShortNames(count: nat)
    ensures forall name :: name in GLUE ==> Before(name, count)
  {
    forall name | name in GLUE ensures Before(name, count) {
      if Marked(name) {
        MarkedHasBar(name);
      }
      UnmarkedIsBefore(name, count);
    }
  }

  lemma {:induction false} SameKind(g: Ground, w: World, name: bytes)
    requires Links(g, w) && Before(name, g.count)
    ensures FindDefun(w.defuns, name).Some? <==> FindDefun(g.defuns, name).Some?
    ensures FindDefun(w.defuns, name).Some? ==> FindDefun(w.defuns, name).value.inline == FindDefun(g.defuns, name).value.inline
  {
    assert Kind(w.defuns, name) == Kind(g.defuns, name);
  }

  // ---- Heads -------------------------------------------------------------------------------------

  lemma {:induction false} UsableIsPlain(g: Ground, w: World, inl: bool, head: BodyForm)
    requires Links(g, w) && OperatorsFine(g) && HeadUsable(g, inl, head)
    ensures HeadPlain(w, head) && (IsInline(w.defuns, head) ==> head.value.Atom?)
  {
    var name := CallName(head).value;
    if Before(name, g.count) {
      SameKind(g, w, name);
    }
  }

  /** What the arguments at a place do not bind. */
  lemma {:induction false} UnboundHere(g: Ground, params: SExp, name: bytes)
    requires Known(g, params) && !Binds(g.own, name) && name !in g.binders
    ensures LookupVar(Frame(params), name) == Unbound
  {
    OneScope(params, Nil, name);
  }

  lemma {:induction false} LaterIsUnbound(g: Ground, params: SExp, name: bytes)
    requires Known(g, params) && NamesFine(g) && !Before(name, g.count)
    ensures LookupVar(Frame(params), name) == Unbound && name !in GLUE
  {
    ShortNames(g.count);
    OneScope(params, Nil, name);
    assert Binds(params, name) ==> Before(name, g.count);
  }

  lemma {:induction false} UsableHeadFits(g: Ground, w: World, params: SExp, head: BodyForm)
    requires Links(g, w) && NamesFine(g) && Known(g, params) && HeadUsable(g, true, head)
    ensures HeadFits(w, Frame(params), head)
  {
    var name := CallName(head).value;
    if Before(name, g.count) {
      SameKind(g, w, name);
      if FindDefun(g.defuns, name) == None {
        UnboundHere(g, params, name);
      }
    } else {
      LaterIsUnbound(g, params, name);
    }
  }

  // ---- Expressions -------------------------------------------------------------------------------

  /** Operators are plain and no lets are left. */
  lemma {:induction false} LeftIsOk(g: Ground, w: World, inl: bool, e: BodyForm)
    requires Links(g, w) && OperatorsFine(g) && Usable(g, false, inl, e) && LetFree(e)
    ensures AllOk(Compiling(w), e) && PlainBody(w, e)
    decreases Weight(e), 1
  {
    if e.Call? {
      WeightParts(e);
      UsableIsPlain(g, w, inl, e.forms[0]);
      FormsLeftAreOk(g, w, inl, e.forms[1..]);
      if e.tail.Some? {
        LeftIsOk(g, w, inl, e.tail.value);
      }
    }
  }

  lemma {:induction false} FormsLeftAreOk(g: Ground, w: World, inl: bool, forms: seq<BodyForm>)
    requires Links(g, w) && OperatorsFine(g) && FormsUsable(g, false, inl, forms) && AllLetFree(forms)
    ensures FormsOk(Compiling(w), forms) && AllBodiesObey(Compiling(w), forms)
    decreases FormsWeight(forms), 2
  {
    if forms != [] {
      LeftIsOk(g, w, inl, forms[0]);
      FormsLeftAreOk(g, w, inl, forms[1..]);
    }
  }

  /** The body of an inline function may be moved to any place of the program. */
  lemma {:induction false} LeftFits(g: Ground, w: World, params: SExp, args: SExp, e: BodyForm)
    requires Links(g, w) && NamesFine(g) && Known(g, params) && Known(g, args) && Left(g, true, args, e) && LetFree(e)
    ensures Fits(w, Frame(params), args, e)
    decreases Weight(e), 1
  {
    match e
    case Value(Atom(a)) =>
      if a != AT_ENV && !Binds(args, a) {
        assert a in Free(g.strict, e);
        UnboundHere(g, params, a);
      }
    case Value(Integer(i)) =>
      if !g.strict {
        var name := U8FromNumber(i);
        UnboundHere(g, params, name);
      }
    case Call(forms, tail) =>
      WeightParts(e);
      UsableHeadFits(g, w, params, forms[0]);
      FormsLeftFit(g, w, params, args, forms[1..]);
      if tail.Some? {
        LeftFits(g, w, params, args, tail.value);
      }
    case _ =>
  }

  lemma {:induction false} FormsLeftFit(g: Ground, w: World, params: SExp, args: SExp, forms: seq<BodyForm>)
    requires Links(g, w) && NamesFine(g) && Known(g, params) && Known(g, args) && FormsLeft(g, true, args, forms) && AllLetFree(forms)
    ensures AllFit(w, Frame(params), args, forms)
    decreases FormsWeight(forms), 2
  {
    if forms != [] {
      LeftFits(g, w, params, args, forms[0]);
      FormsLeftFit(g, w, params, args, forms[1..]);
    }
  }

  // ---- Functions ---------------------------------------------------------------------------------

  lemma {:induction false} PlainPatternParams(p: SExp)
    requires PlainPattern(p)
    ensures NoNumbers(p) && PlainSpine(p) && !Binds(p, [])
  {
    if p.Cons? {
      PlainPatternParams(p.first);
      PlainPatternParams(p.rest);
    }
  }

  lemma {:induction false} GlueIsFree(g: Ground, w: World, params: SExp)
    requires Links(g, w) && OperatorsFine(g) && NamesFine(g) && Known(g, params)
    ensures GlueNames(w, Frame(params))
  {
    ShortNames(g.count);
    forall name | name in GLUE ensures FindDefun(w.defuns, name) == None && LookupVar(Frame(params), name) == Unbound {
      SameKind(g, w, name);
      assert Binds(g.own, name) || name in g.binders ==> name !in GLUE;
      UnboundHere(g, params, name);
    }
    assert FIRST_NAME in GLUE && REST_NAME in GLUE && [4] in GLUE && AT in GLUE;
  }

  lemma {:induction false} InlinesFitHere(g: Ground, w: World, params: SExp, defuns: seq<Defun>)
    requires Links(g, w) && OperatorsFine(g) && NamesFine(g) && Known(g, params) && AllLeft(g, defuns) && DefunsLetFree(defuns)
    ensures InlinesFit(w, Frame(params), defuns)
  {
    if defuns == [] {
      GlueIsFree(g, w, params);
    } else {
      if defuns[0].inline {
        PlainPatternParams(defuns[0].args);
        LeftFits(g, w, params, defuns[0].args, defuns[0].body);
      }
      InlinesFitHere(g, w, params, defuns[1..]);
    }
  }

  lemma {:induction false} NoneNamed(g: Ground, w: World, params: SExp, defuns: seq<Defun>)
    requires Links(g, w) && NamesFine(g) && Known(g, params) && forall f :: f in defuns ==> f in w.defuns
    ensures BindsNone(params, defuns)
  {
    if defuns != [] {
      var f := defuns[0];
      assert f in w.defuns;
      if Before(f.name, g.count) {
        SameKind(g, w, f.name);
      }
      assert Binds(params, f.name) ==> Before(f.name, g.count) && FindDefun(g.defuns, f.name) == None;
      forall d | d in defuns[1..] ensures d in w.defuns { assert d in defuns; }
      NoneNamed(g, w, params, defuns[1..]);
    }
  }

  /** Any place of the program is one where expressions may be compiled. */
  lemma {:induction false} AnySite(g: Ground, w: World, params: SExp)
    requires Links(g, w) && OperatorsFine(g) && NamesFine(g) && Known(g, params) && AllLeft(g, w.defuns) && DefunsLetFree(w.defuns)
    ensures Site(w, params)
  {
    NoneNamed(g, w, params, w.defuns);
    InlinesFitHere(g, w, params, w.defuns);
  }

  function DefunsDepth(all: seq<Defun>, defuns: seq<Defun>): nat {
    if defuns == [] then 0 else Max(Depth(all, defuns[0].body), DefunsDepth(all, defuns[1..]))
  }

  lemma {:induction false} FunctionsCompilable(g: Ground, w: World, d: nat, defuns: seq<Defun>)
    requires Links(g, w) && OperatorsFine(g) && NamesFine(g) && AllLeft(g, w.defuns) && DefunsLetFree(w.defuns)
    requires AllLeft(g, defuns) && DefunsLetFree(defuns) && (forall f :: f in defuns ==> f in w.defuns) && DefunsDepth(w.defuns, defuns) <= d
    ensures DefunsCompilable(w, d, defuns) && InlinesPlain(w, defuns)
  {
    if defuns != [] {
      var f := defuns[0];
      assert f in w.defuns;
      forall x | x in defuns[1..] ensures x in w.defuns { assert x in defuns; }
      FunctionsCompilable(g, w, d, defuns[1..]);
      AnySite(g, w, f.args);
      LeftIsOk(g, w, f.inline, f.body);
      ObeysAtDepth(Compiling(w), d, f.body);
    }
  }

  lemma {:induction false} GlueIsPlain(g: Ground, w: World)
    requires Links(g, w) && OperatorsFine(g) && NamesFine(g)
    ensures GluePlain(w)
  {
    ShortNames(g.count);
    forall name | name in GLUE ensures FindDefun(w.defuns, name) == None { SameKind(g, w, name); }
    assert FIRST_NAME in GLUE && REST_NAME in GLUE && [4] in GLUE && AT in GLUE;
    assert U8FromNumber(4) == [4];
    EachGlueHead(Compiling(w));
  }

  // ---- Desugared programs ------------------------------------------------------------------------

  /** A program with lets that may be desugared and compiled: as renaming leaves programs, with usable
      calls, and with nothing left of its lets by hoisting. */
  ghost predicate MayCompile(g: Ground, src: Source) {
    g.defuns == src.defuns && g.own == src.args && OperatorsFine(g) && NamesFine(g) && FunctionsNamed(g) && Distinct(src.defuns)
    && AllSettled(g, src.defuns) && Suits(g, false, src.args) && Settled(g, false, src.args, src.main) && DefunsClean(src.defuns) && Clean(1, src.main)
  }

  /** The functions after desugaring: the old ones, under the same names, and new ones. */
  lemma {:induction false} DesugaredFunctions(g: Ground, src: Source, name: bytes)
    requires g.defuns == src.defuns && FunctionsNamed(g) && Distinct(src.defuns) && Desugar(src, g.count).Some?
    ensures var out := Desugar(src, g.count).value;
            Distinct(out.defuns) && (Before(name, g.count) ==> Kind(out.defuns, name) == Kind(src.defuns, name))
            && forall f :: f in out.defuns ==> f.name != [] && f.name != AT
  {
    var h := HoistBody(None, src.args, src.main, g.count).value;
    var todo := src.defuns + h.helpers;
    HoistNames(None, src.args, src.main, g.count);
    HoistedApart(h.helpers, g.count, h.next, src.defuns);
    DistinctEitherWay(h.helpers, src.defuns, h.next);
    RawNames(todo, h.next);
    ProcessFollows(todo, h.next);
    var raws, out := RawHelpers(todo, h.next), ProcessHelpers(todo, h.next).value;
    SameNames(raws, out.defuns);
    forall i | 0 <= i < |raws| ensures raws[i].inline == out.defuns[i].inline {
      assert Follows(raws[i], out.defuns[i], raws);
      var c: nat :| HoistsTo(raws[i], out.defuns[i], raws, c);
    }
    OldFunctions(g, src.defuns, h.helpers, raws, out.defuns, h.next, out.next, name);
    forall f | f in out.defuns ensures f.name != [] && f.name != AT {
      var i :| 0 <= i < |out.defuns| && out.defuns[i] == f;
      assert raws[i] in raws && raws[i].name == f.name;
      ProperlyNamed(g, src.defuns, h.helpers, raws[i], h.next, out.next);
    }
  }

  lemma {:induction false} ProperlyNamed(g: Ground, defuns: seq<Defun>, helpers: seq<Defun>, f: Defun, mid: nat, next: nat)
    requires g.defuns == defuns && FunctionsNamed(g) && FreshNames(helpers, g.count, mid)
    requires f in defuns + helpers || FreshName(f.name, mid, next)
    ensures f.name != [] && f.name != AT
  {
    if f !in defuns {
      if f in helpers {
        assert FreshName(f.name, g.count, mid);
      }
      var prefix: bytes, j: nat :| f.name == Gensym(prefix, j);
      assert |f.name| >= 3;
    }
  }

  lemma {:induction false} OldFunctions(g: Ground, defuns: seq<Defun>, helpers: seq<Defun>, raws: seq<Defun>, done: seq<Defun>, mid: nat, next: nat,
                                        name: bytes)
    requires Distinct(defuns) && Distinct(done) && |raws| == |done| && FreshNames(helpers, g.count, mid) && g.count <= mid
    requires forall i :: 0 <= i < |raws| ==> raws[i].name == done[i].name && raws[i].inline == done[i].inline
    requires (forall f :: f in defuns + helpers ==> f in raws) && forall f :: f in raws ==> f in defuns + helpers || FreshName(f.name, mid, next)
    ensures Before(name, g.count) ==> Kind(done, name) == Kind(defuns, name)
  {
    if Before(name, g.count) {
      var a, b := FindDefun(done, name), FindDefun(defuns, name);
      if a.Some? {
        var i :| 0 <= i < |done| && done[i] == a.value;
        assert raws[i] in raws;
        OldOrNew(defuns, helpers, raws[i], g.count, mid, next);
        StaysOld(defuns, helpers, raws[i], g.count, mid, next);
        var j :| 0 <= j < |defuns| && defuns[j] == raws[i];
        FindsEach(defuns, j);
      } else if b.Some? {
        assert b.value in defuns + helpers;
        var i :| 0 <= i < |raws| && raws[i] == b.value;
        FindsEach(done, i);
      }
    }
  }

  lemma {:induction false} StaysOld(defuns: seq<Defun>, helpers: seq<Defun>, f: Defun, count: nat, mid: nat, next: nat)
    requires Before(f.name, count) && FreshNames(helpers, count, mid) && count <= mid
    requires f in defuns + helpers || FreshName(f.name, mid, next)
    ensures f in defuns
  {
    if f !in defuns {
      if f in helpers {
        FreshAfter(f.name, count, mid, f.name);
      } else {
        FreshWider(f.name, mid, next, count, next);
        FreshAfter(f.name, count, next, f.name);
      }
    }
  }

  /** What is left of a program after desugaring. */
  lemma {:induction false} DesugaredIsLeft(g: Ground, src: Source)
    requires AllSettled(g, src.defuns) && Suits(g, false, src.args) && Settled(g, false, src.args, src.main) && Desugar(src, g.count).Some?
    ensures var out := Desugar(src, g.count).value; AllLeft(g, out.defuns) && Left(g, false, src.args, out.main)
  {
    var h := HoistBody(None, src.args, src.main, g.count).value;
    HoistLeaves(g, false, src.args, src.main, g.count);
    AllSettledBoth(g, src.defuns, h.helpers);
    ProcessLeaves(g, src.defuns + h.helpers, h.next);
  }

  lemma {:induction false} DesugaredIsLetFree(src: Source, count: nat)
    requires DefunsClean(src.defuns) && Clean(1, src.main) && Desugar(src, count).Some?
    ensures var out := Desugar(src, count).value; DefunsLetFree(out.defuns) && LetFree(out.main)
  {
    var h := HoistBody(None, src.args, src.main, count).value;
    HoistCleans(0, None, src.args, src.main, count);
    DefunsCleanBoth(src.defuns, h.helpers);
    ProcessingLeavesNone(src.defuns + h.helpers, h.next);
  }

  lemma {:induction false} DesugaredLinks(g: Ground, src: Source, k: nat)
    requires g.defuns == src.defuns && FunctionsNamed(g) && Distinct(src.defuns) && Desugar(src, g.count).Some?
    requires FinalEnv(Desugar(src, g.count).value, g.prims, g.strict, k).Success?
    ensures var out := Desugar(src, g.count).value; Links(g, LinkedWorld(g.machine, out, g.prims, g.strict, k)) && Distinct(out.defuns)
  {
    var out := Desugar(src, g.count).value;
    DesugaredFunctions(g, src, []);
    forall name | Before(name, g.count) ensures Kind(out.defuns, name) == Kind(g.defuns, name) { DesugaredFunctions(g, src, name); }
  }

  /** A program that may be compiled: what it is desugared to meets all conditions of the compiler's
      correctness. */
  lemma {:induction false} DesugaredIsCompilable(g: Ground, src: Source, k: nat)
    requires MayCompile(g, src) && Desugar(src, g.count).Some? && FinalEnv(Desugar(src, g.count).value, g.prims, g.strict, k).Success?
    ensures var out := Desugar(src, g.count).value;
            exists d: nat :: Compilable(LinkedWorld(g.machine, out, g.prims, g.strict, k), out, d)
  {
    var out := Desugar(src, g.count).value;
    var w := LinkedWorld(g.machine, out, g.prims, g.strict, k);
    DesugaredIsLeft(g, src);
    DesugaredIsLetFree(src, g.count);
    DesugaredLinks(g, src, k);
    var d := Max(DefunsDepth(out.defuns, out.defuns), Depth(out.defuns, out.main));
    FunctionsCompilable(g, w, d, out.defuns);
    AnySite(g, w, src.args);
    LeftIsOk(g, w, false, out.main);
    ObeysAtDepth(Compiling(w), d, out.main);
    GlueIsPlain(g, w);
    assert Compilable(w, out, d);
  }

  /** From programs with lets, assigns and functions all the way to the stepwise machine: if the program
      means v, the machine, run on what the program is desugared and compiled to, ends with v.  Nothing is
      asked of what desugaring puts out. */
  lemma {:induction false} LetProgramsCompile(g: Ground, src: Source, k: nat, n: nat, given: SExp, v: SExp)
    requires MayCompile(g, src) && Desugar(src, g.count).Some? && Compile(Desugar(src, g.count).value, g.prims, g.strict, k).Success?
    requires var w := LinkedWorld(g.machine, Desugar(src, g.count).value, g.prims, g.strict, k).(defuns := src.defuns, covered := true);
             Tidy(w, src, g.count) && Covers(src.args, given) && Sem(w, n, [Scope(src.args, given)], src.main) == Success(v)
    ensures exists limit: nat :: Run(g.machine, limit, Compile(Desugar(src, g.count).value, g.prims, g.strict, k).value, given) == Success(v)
  {
    DesugaredIsCompilable(g, src, k);
    var out := Desugar(src, g.count).value;
    var d: nat :| Compilable(LinkedWorld(g.machine, out, g.prims, g.strict, k), out, d);
    DesugaredProgramsCompile(g.machine, src, g.prims, g.strict, k, d, g.count, n, given, v);
  }
}
