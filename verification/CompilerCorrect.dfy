/** Compiled programs compute what the source means. */
module CompilerCorrect {
  import opened Numbers
  import opened SExpressions
  import opened Machine
  import opened BigStep
  import opened Syntax
  import opened Semantics
  import opened Environments
  import opened ClvmPrograms
  import opened Closures
  import opened Inlining
  import opened InliningSound
  import opened CodeGeneration
  import opened CodegenEnds

  // ---- A program and its finished code tree ---------------------------------------------------

  predicate HasInline(defuns: seq<Defun>) {
    defuns != [] && (defuns[0].inline || HasInline(defuns[1..]))
  }

  /** No parameter is named like one of the functions in the code tree. */
  predicate BindsNone(params: SExp, defuns: seq<Defun>) {
    defuns == [] || ((!defuns[0].inline ==> !Binds(params, defuns[0].name)) && BindsNone(params, defuns[1..]))
  }

  /** Where the scope is a function's parameters alone, its values do not matter here. */
  function Frame(params: SExp): seq<Scope> { [Scope(params, Nil)] }

  /** A place where expressions are compiled: inside a function, or at the top of the program. */
  ghost predicate Site(w: World, params: SExp) {
    BindsNone(params, w.defuns)
    && (HasInline(w.defuns) ==> InlinesFit(w, Frame(params), w.defuns))
  }

  /** A code generator and the finished code of the functions it knows.  Function bodies were
      compiled with up to `k` nested expansions and hold inline calls at most `d` deep. */
  datatype Build = Build(cg: Codegen, shape: SExp, codes: map<bytes, SExp>, k: nat, d: nat)

  /** The generator as it stands inside something with the given parameters. */
  function At(b: Build, params: SExp): Codegen { b.cg.(env := Cons(b.shape, params)) }

  /** A function's code is in the table and in the code tree. */
  ghost predicate LinkedDefun(w: World, b: Build, f: Defun) {
    f.name in b.codes && DefunCode(At(b, Nil), b.k, f) == Success(b.codes[f.name]) && Binds(b.shape, f.name)
    && w.left.Some? && f.name in w.refs && w.refs[f.name] == LambdaValue(b.codes[f.name], w.left.value)
    && Site(w, f.args) && PlainTo(w, b.d, f.body)
  }

  /** The names in the code tree are those of the functions that are not inline. */
  ghost predicate Shaped(shape: SExp, defuns: seq<Defun>) {
    shape != Atom(AT) && (shape == Nil || NameTree(shape))
    && forall name :: Binds(shape, name) ==> FindDefun(defuns, name).Some? && !FindDefun(defuns, name).value.inline
  }

  /** A generator and a code tree for a world. */
  ghost predicate Matching(w: World, b: Build) {
    PlainGlue(w.machine) && b.cg.defuns == w.defuns && b.cg.prims == w.prims && b.cg.strict == w.strict
    && Distinct(w.defuns) && Shaped(b.shape, w.defuns)
    && w.left.Some? && FinalizeEnv(b.shape, b.codes) == w.left
    && (HasInline(w.defuns) ==> GluePlain(w) && InlinesPlain(w, w.defuns))
  }

  ghost predicate Linked(w: World, b: Build, defuns: seq<Defun>) {
    if defuns == [] then Matching(w, b)
    else Linked(w, b, defuns[1..]) && (!defuns[0].inline ==> LinkedDefun(w, b, defuns[0]))
  }

  /** A build for a world: the world's left environment is its code tree, and every function's code
      is in it. */
  ghost predicate Setting(w: World, b: Build) { Linked(w, b, w.defuns) }

  lemma {:induction false} LinkedMatches(w: World, b: Build, defuns: seq<Defun>)
    requires Linked(w, b, defuns)
    ensures Matching(w, b)
  {
    if defuns != [] {
      LinkedMatches(w, b, defuns[1..]);
    }
  }

  // ---- Names -----------------------------------------------------------------------------------

  lemma {:induction false} NotBound(params: SExp, defuns: seq<Defun>, f: Defun)
    requires BindsNone(params, defuns) && f in defuns && !f.inline
    ensures !Binds(params, f.name)
  {
    if defuns[0] != f {
      NotBound(params, defuns[1..], f);
    }
  }

  lemma {:induction false} LinkedAt(w: World, b: Build, defuns: seq<Defun>, f: Defun)
    requires Linked(w, b, defuns) && f in defuns && !f.inline
    ensures LinkedDefun(w, b, f)
  {
    if defuns[0] != f {
      LinkedAt(w, b, defuns[1..], f);
    }
  }

  lemma {:induction false} IsDefunFinds(defuns: seq<Defun>, name: bytes)
    requires Distinct(defuns)
    ensures IsDefun(defuns, name) <==> FindDefun(defuns, name).Some? && !FindDefun(defuns, name).value.inline
  {
    if defuns != [] {
      IsDefunFinds(defuns[1..], name);
    }
  }

  lemma {:induction false} FoundInline(defuns: seq<Defun>, f: Defun)
    requires f in defuns && f.inline
    ensures HasInline(defuns)
  {
    if defuns[0] != f {
      FoundInline(defuns[1..], f);
    }
  }

  /** Where a function's name leads in its environment. */
  lemma {:induction false} DefunPath(w: World, b: Build, params: SExp, f: Defun, given: SExp) returns (path: nat)
    requires Setting(w, b) && f in w.defuns && !f.inline
    ensures NameLookup(Cons(b.shape, params), f.name) == Some(path)
    ensures LinkedDefun(w, b, f) && ChoosePath(path, EnvFor(w, given)) == Success(b.codes[f.name])
  {
    LinkedMatches(w, b, w.defuns);
    LinkedAt(w, b, w.defuns, f);
    path := TreePath(b.shape, b.codes, w.left.value, params, f.name, given);
  }

  lemma {:induction false} TreePath(shape: SExp, codes: map<bytes, SExp>, tree: SExp, params: SExp, name: bytes, given: SExp)
    returns (path: nat)
    requires shape != Atom(AT) && (shape == Nil || NameTree(shape)) && FinalizeEnv(shape, codes) == Some(tree)
    requires Binds(shape, name)
    ensures NameLookup(Cons(shape, params), name) == Some(path)
    ensures name in codes && ChoosePath(path, Cons(tree, given)) == Success(codes[name])
  {
    LookupFindsCode(shape, codes, name);
    path := NameLookup(Cons(shape, params), name).value;
  }

  /** Any other name is looked for among the parameters. */
  lemma {:induction false} OtherPath(shape: SExp, defuns: seq<Defun>, params: SExp, name: bytes, tree: SExp, given: SExp)
    requires Shaped(shape, defuns) && Distinct(defuns) && !IsDefun(defuns, name)
    ensures NameLookup(Cons(shape, params), name).Some? <==> Binds(params, name)
    ensures Binds(params, name) ==>
              ChoosePath(NameLookup(Cons(shape, params), name).value, Cons(tree, given)) ==
              match Destructure(params, given, name) case Some(v) => Success(v) case None => Failure
  {
    IsDefunFinds(defuns, name);
    assert !Binds(shape, name);
    LookupIsDestructuring(shape, Nil, name);
    LookupIsDestructuring(params, given, name);
    PastTree(shape, params, name, tree, given);
  }

  lemma {:induction false} PastTree(shape: SExp, params: SExp, name: bytes, tree: SExp, given: SExp)
    requires shape != Atom(AT) && NameLookup(shape, name) == None
    ensures NameLookup(Cons(shape, params), name).Some? <==> NameLookup(params, name).Some?
    ensures NameLookup(params, name).Some? && NameLookup(params, name).value > 0 ==>
              ChoosePath(NameLookup(Cons(shape, params), name).value, Cons(tree, given)) ==
              ChoosePath(NameLookup(params, name).value, given)
  {
    assert IsAtCapture(shape, params) == None;
  }

  // ---- Scopes ----------------------------------------------------------------------------------

  lemma {:induction false} OneScope(params: SExp, given: SExp, name: bytes)
    ensures LookupVar([Scope(params, given)], name) ==
            if !Binds(params, name) then Unbound
            else match Destructure(params, given, name) case None => Absent case Some(v) => Found(v)
  {
    assert LookupVar([Scope(params, given)][1..], name) == Unbound;
  }

  lemma {:induction false} FitsAnywhere(w: World, params: SExp, given: SExp, inner: SExp, e: BodyForm)
    requires Fits(w, Frame(params), inner, e)
    ensures Fits(w, [Scope(params, given)], inner, e)
    decreases Weight(e), 0
  {
    match e
    case Value(Atom(a)) =>
      OneScope(params, Nil, a);
      OneScope(params, given, a);
    case Value(Integer(i)) =>
      OneScope(params, Nil, U8FromNumber(i));
      OneScope(params, given, U8FromNumber(i));
    case Call(forms, tail) =>
      WeightParts(e);
      OneScope(params, Nil, CallName(forms[0]).value);
      OneScope(params, given, CallName(forms[0]).value);
      AllFitAnywhere(w, params, given, inner, forms[1..]);
      if tail.Some? {
        FitsAnywhere(w, params, given, inner, tail.value);
      }
    case _ =>
  }

  lemma {:induction false} AllFitAnywhere(w: World, params: SExp, given: SExp, inner: SExp, forms: seq<BodyForm>)
    requires AllFit(w, Frame(params), inner, forms)
    ensures AllFit(w, [Scope(params, given)], inner, forms)
    decreases FormsWeight(forms), 1
  {
    if forms != [] {
      FitsAnywhere(w, params, given, inner, forms[0]);
      AllFitAnywhere(w, params, given, inner, forms[1..]);
    }
  }

  lemma {:induction false} InlinesFitAnywhere(w: World, params: SExp, given: SExp, defuns: seq<Defun>)
    requires InlinesFit(w, Frame(params), defuns)
    ensures InlinesFit(w, [Scope(params, given)], defuns)
  {
    if defuns == [] {
      GlueAnywhere(w, params, given);
    } else {
      if defuns[0].inline {
        FitsAnywhere(w, params, given, defuns[0].args, defuns[0].body);
      }
      InlinesFitAnywhere(w, params, given, defuns[1..]);
    }
  }

  lemma {:induction false} GlueAnywhere(w: World, params: SExp, given: SExp)
    requires GlueNames(w, Frame(params))
    ensures GlueNames(w, [Scope(params, given)])
  {
    forall name
      ensures LookupVar([Scope(params, given)], name) == Unbound <==> LookupVar(Frame(params), name) == Unbound
    {
      OneScope(params, Nil, name);
      OneScope(params, given, name);
    }
  }

  lemma {:induction false} SiteIsExpandable(w: World, b: Build, params: SExp, given: SExp)
    requires Setting(w, b) && Site(w, params) && HasInline(w.defuns)
    ensures Expandable(w, At(b, params), [Scope(params, given)])
  {
    LinkedMatches(w, b, w.defuns);
    InlinesFitAnywhere(w, params, given, w.defuns);
  }

  // ---- Expressions -----------------------------------------------------------------------------

  /** The environment compiled code runs in: the code tree beside the arguments. */
  function EnvFor(w: World, given: SExp): SExp {
    Cons(if w.left.Some? then w.left.value else Nil, given)
  }

  lemma {:induction false} AtomGives(w: World, b: Build, params: SExp, given: SExp, a: bytes, code: SExp, v: SExp)
    requires Setting(w, b) && Site(w, params)
    requires AtomCode(At(b, params), a) == Success(code)
    requires AtomMeaning(w, [Scope(params, given)], a) == Success(v)
    ensures Gives(w.machine, code, EnvFor(w, given), v)
  {
    LinkedMatches(w, b, w.defuns);
    var env := EnvFor(w, given);
    if a == AT || a == AT_ENV {
      PathGives(w.machine, 1, env, env);
    } else if a == [] {
      QuoteGives(w.machine, Nil, env);
    } else if IsDefun(w.defuns, a) {
      DefunNameGives(w, b, params, given, a, code, v);
    } else {
      IsDefunFinds(w.defuns, a);
      OtherPath(b.shape, w.defuns, params, a, w.left.value, given);
      OneScope(params, given, a);
      if Binds(params, a) {
        PathGives(w.machine, NameLookup(Cons(b.shape, params), a).value, env, v);
      } else {
        QuoteGives(w.machine, Atom(a), env);
      }
    }
  }

  lemma {:induction false} DefunNameGives(w: World, b: Build, params: SExp, given: SExp, a: bytes, code: SExp, v: SExp)
    requires Setting(w, b) && Site(w, params) && IsDefun(w.defuns, a) && a != AT && a != AT_ENV && a != []
    requires AtomCode(At(b, params), a) == Success(code)
    requires AtomMeaning(w, [Scope(params, given)], a) == Success(v)
    ensures Gives(w.machine, code, EnvFor(w, given), v)
  {
    LinkedMatches(w, b, w.defuns);
    IsDefunFinds(w.defuns, a);
    var f := FindDefun(w.defuns, a).value;
    NotBound(params, w.defuns, f);
    OneScope(params, given, a);
    var path := DefunPath(w, b, params, f, given);
    var env := EnvFor(w, given);
    PathGives(w.machine, path, env, b.codes[a]);
    AtomPathGives(w.machine, 2, env, w.left.value);
    LambdaForDefunGives(w.machine, Integer(path), APPLY_ATOM, env, b.codes[a], w.left.value);
  }

  lemma {:induction false} ValueGives(w: World, b: Build, params: SExp, given: SExp, x: SExp, code: SExp, v: SExp)
    requires Setting(w, b) && Site(w, params)
    requires ValueCode(At(b, params), x) == Success(code)
    requires ValueMeaning(w, [Scope(params, given)], x) == Success(v)
    ensures Gives(w.machine, code, EnvFor(w, given), v)
  {
    LinkedMatches(w, b, w.defuns);
    if x.Atom? {
      AtomGives(w, b, params, given, x.name, code, v);
    } else if x.Integer? && !w.strict {
      AtomGives(w, b, params, given, U8FromNumber(x.value), code, v);
    } else {
      QuoteGives(w.machine, x, EnvFor(w, given));
    }
  }

  /** Calling through the code tree: the callee's code runs with the same tree beside its own
      arguments. */
  lemma {:induction false} DefunCallGives(w: World, b: Build, params: SExp, given: SExp, f: Defun, body: SExp, path: nat,
                       args: SExp, argv: SExp, v: SExp)
    requires Setting(w, b)
    requires ChoosePath(path, EnvFor(w, given)) == Success(PrimApply(PrimQuote(body), Integer(1)))
    requires Gives(w.machine, args, EnvFor(w, given), argv) && Gives(w.machine, body, EnvFor(w, argv), v)
    ensures Gives(w.machine, DefunCallCode(Integer(path), args), EnvFor(w, given), v)
  {
    LinkedMatches(w, b, w.defuns);
    var m, env, inner := w.machine, EnvFor(w, given), EnvFor(w, argv);
    var code := PrimApply(PrimQuote(body), Integer(1));
    QuoteGives(m, body, inner);
    PathGives(m, 1, inner, inner);
    ApplyGives(m, Integer(2), PrimQuote(body), Integer(1), inner, body, inner, v);
    PathGives(m, path, env, code);
    assert ChoosePath(2, env) == ChoosePath(1, w.left.value) == Success(w.left.value);
    PathGives(m, 2, env, w.left.value);
    ConsGives(m, Integer(4), Integer(2), args, env, w.left.value, argv);
    ApplyGives(m, Integer(2), Integer(path), PrimCons(Integer(2), args), env, code, inner, v);
  }

  /** An operator applied to a list of argument codes. */
  lemma {:induction false} PrimCallGives(m: Config, n: nat, k: nat, p: SExp, args: SExp, c: SExp, argv: SExp, v: SExp)
    requires PlainPrim(m, p) && AtomValue(p) != Some(1)
    requires EvalArgs(m, n, args, c) == Success(argv) && ArgList(args).Some?
    requires Operate(m, k, Integer(AtomValue(p).value), argv) == Success(v)
    ensures Gives(m, Cons(p, args), c, v)
  {
    var head := Integer(AtomValue(p).value);
    var w := n + k;
    assert EvalHead(m, w, p, c) == Success(head);
    EvalArgsMono(m, n, w, args, c);
    OperateMono(m, k, w, head, argv);
    GivesAt(m, w + 1, Cons(p, args), c, v);
  }

  lemma {:induction false} PlainArgsCons(m: Config, first: SExp, rest: SExp, c: SExp, v: SExp, n: nat, restv: SExp) returns (n': nat)
    requires Gives(m, first, c, v) && EvalArgs(m, n, rest, c) == Success(restv) && ArgList(rest).Some?
    ensures EvalArgs(m, n', Cons(first, rest), c) == Success(Cons(v, restv)) && ArgList(Cons(first, rest)).Some?
  {
    var j: nat :| Eval(m, j, first, c) == Success(v);
    n' := n + j;
    EvalMono(m, j, n', first, c);
    EvalArgsMono(m, n, n', rest, c);
  }

  /** If an expression means v, its code gives v in the environment it was compiled for. */
  lemma {:induction false} GenMeans(w: World, b: Build, k: nat, d: nat, n: nat, params: SExp, given: SExp, e: BodyForm,
                                    code: SExp, v: SExp)
    requires Setting(w, b) && Site(w, params) && Case(w, b, k, d, n, params, given, e, code, v)
    ensures Gives(w.machine, code, EnvFor(w, given), v)
    decreases n, k, Weight(e), 1
  {
    LinkedMatches(w, b, w.defuns);
    match e
    case Value(x) => ValueGives(w, b, params, given, x, code, v);
    case Quoted(q) => QuoteGives(w.machine, q, EnvFor(w, given));
    case Call(forms, tail) =>
      WeightParts(e);
      var f := FindDefun(w.defuns, CallName(forms[0]).value);
      if f == None {
        GenOtherCallMeans(w, b, k, d, n, params, given, forms, tail, code, v);
      } else if f.value.inline {
        GenInlineMeans(w, b, k, d, n, params, given, e, code, v);
      } else {
        GenDefunMeans(w, b, k, d, n, params, given, f.value, forms, tail, code, v);
      }
    case _ =>
  }

  /** An expression that is compiled to some code and means v. */
  ghost predicate Case(w: World, b: Build, k: nat, d: nat, n: nat, params: SExp, given: SExp, e: BodyForm, code: SExp, v: SExp) {
    PlainTo(w, d, e) && GenExpr(At(b, params), k, e) == Success(code) && Sem(w, n, [Scope(params, given)], e) == Success(v)
  }

  lemma {:induction false} GenInlineMeans(w: World, b: Build, k: nat, d: nat, n: nat, params: SExp, given: SExp, e: BodyForm, code: SExp, v: SExp)
    requires Setting(w, b) && Site(w, params) && Case(w, b, k, d, n, params, given, e, code, v)
    requires e.Call? && e.forms != [] && IsInline(w.defuns, e.forms[0])
    ensures Gives(w.machine, code, EnvFor(w, given), v)
    decreases n, k, Weight(e), 0
  {
    var expanded := FindExpansion(w, b, k, d, n, params, given, e, code, v);
    GenMeans(w, b, k - 1, d - 1, n, params, given, expanded, code, v);
  }

  /** An inline call is compiled as an expression that means the same. */
  lemma {:induction false} FindExpansion(w: World, b: Build, k: nat, d: nat, n: nat, params: SExp, given: SExp, e: BodyForm, code: SExp, v: SExp)
    returns (expanded: BodyForm)
    requires Setting(w, b) && Site(w, params) && Case(w, b, k, d, n, params, given, e, code, v)
    requires e.Call? && e.forms != [] && IsInline(w.defuns, e.forms[0])
    ensures k > 0 && d > 0 && Case(w, b, k - 1, d - 1, n, params, given, expanded, code, v)
  {
    LinkedMatches(w, b, w.defuns);
    var f := FindDefun(w.defuns, CallName(e.forms[0]).value).value;
    expanded := InlineCallCode(At(b, params), k, e.forms, e.tail, f, code);
    ExpandedMeans(w, b, d, n, params, given, f, e.forms, expanded, v);
  }

  lemma {:induction false} InlineCallCode(cg: Codegen, k: nat, forms: seq<BodyForm>, tail: Option<BodyForm>, f: Defun, code: SExp)
    returns (expanded: BodyForm)
    requires forms != [] && CallName(forms[0]).Some? && FindDefun(cg.defuns, CallName(forms[0]).value) == Some(f) && f.inline
    requires GenExpr(cg, k, Call(forms, tail)) == Success(code)
    ensures tail == None && k > 0 && ExpandCall(cg, f, forms[1..]) == Some(expanded)
    ensures GenExpr(cg, k - 1, expanded) == Success(code)
  {
    expanded := ExpandCall(cg, f, forms[1..]).value;
  }

  lemma {:induction false} ExpandedMeans(w: World, b: Build, d: nat, n: nat, params: SExp, given: SExp, f: Defun, forms: seq<BodyForm>,
                      expanded: BodyForm, v: SExp)
    requires Setting(w, b) && Site(w, params) && PlainTo(w, d, Call(forms, None))
    requires forms != [] && CallName(forms[0]).Some? && FindDefun(w.defuns, CallName(forms[0]).value) == Some(f) && f.inline
    requires ExpandCall(At(b, params), f, forms[1..]) == Some(expanded)
    requires Sem(w, n, [Scope(params, given)], Call(forms, None)) == Success(v)
    ensures Sem(w, n, [Scope(params, given)], expanded) == Success(v)
    ensures d > 0 && PlainTo(w, d - 1, expanded)
  {
    LinkedMatches(w, b, w.defuns);
    FoundInline(w.defuns, f);
    SiteIsExpandable(w, b, params, given);
    ExpandedSem(w, At(b, params), n, [Scope(params, given)], f, forms, expanded, v);
    ExpandedPlain(w, At(b, params), d, f, forms, expanded);
  }

  lemma {:induction false} ExpandedPlain(w: World, cg: Codegen, d: nat, f: Defun, forms: seq<BodyForm>, expanded: BodyForm)
    requires cg.defuns == w.defuns && GluePlain(w) && InlinesPlain(w, w.defuns) && PlainTo(w, d, Call(forms, None))
    requires forms != [] && CallName(forms[0]).Some? && FindDefun(w.defuns, CallName(forms[0]).value) == Some(f) && f.inline
    requires ExpandCall(cg, f, forms[1..]) == Some(expanded)
    ensures d > 0 && PlainTo(w, d - 1, expanded)
  {
    InlinesHeads(Compiling(w), w.defuns);
    ExpandedObeys(Compiling(w), cg, d - 1, f, forms[1..]);
  }

  lemma {:induction false} ExpandedSem(w: World, cg: Codegen, n: nat, scopes: seq<Scope>, f: Defun, forms: seq<BodyForm>, expanded: BodyForm,
                    v: SExp)
    requires Expandable(w, cg, scopes)
    requires forms != [] && CallName(forms[0]).Some? && FindDefun(w.defuns, CallName(forms[0]).value) == Some(f) && f.inline
    requires ExpandCall(cg, f, forms[1..]) == Some(expanded) && Sem(w, n, scopes, Call(forms, None)) == Success(v)
    ensures Sem(w, n, scopes, expanded) == Success(v)
  {
    assert [forms[0]] + forms[1..] == forms;
    ExpansionRefinesCall(w, cg, n, scopes, forms[0], f, forms[1..], v);
  }

  /** The code of a call of a function that is not inline. */
  lemma {:induction false} DefunCallCoded(w: World, b: Build, k: nat, d: nat, params: SExp, f: Defun, forms: seq<BodyForm>, tail: Option<BodyForm>,
                                          code: SExp, path: nat) returns (args: SExp)
    requires Setting(w, b) && PlainTo(w, d, Call(forms, tail)) && NameLookup(Cons(b.shape, params), f.name) == Some(path)
    requires forms != [] && CallName(forms[0]).Some? && FindDefun(w.defuns, CallName(forms[0]).value) == Some(f) && !f.inline
    requires GenExpr(At(b, params), k, Call(forms, tail)) == Success(code)
    ensures AllPlainTo(w, d, forms[1..]) && (tail.Some? ==> PlainTo(w, d, tail.value))
    ensures GenArgs(At(b, params), k, forms[1..], tail, true) == Success(args) && code == DefunCallCode(Integer(path), args)
  {
    LinkedMatches(w, b, w.defuns);
    assert !IsInline(w.defuns, forms[0]);
    args := GenArgs(At(b, params), k, forms[1..], tail, true).value;
  }

  /** The code of its body, which is compiled in its own parameters. */
  lemma {:induction false} DefunBody(w: World, b: Build, f: Defun) returns (body: SExp)
    requires Setting(w, b) && LinkedDefun(w, b, f)
    ensures GenExpr(At(b, f.args), b.k, f.body) == Success(body) && b.codes[f.name] == PrimApply(PrimQuote(body), Integer(1))
    ensures Site(w, f.args) && PlainTo(w, b.d, f.body)
  {
    LinkedMatches(w, b, w.defuns);
    body := GenExpr(At(b, f.args), b.k, f.body).value;
  }

  lemma {:induction false} CalledMeaning(w: World, n: nat, params: SExp, given: SExp, forms: seq<BodyForm>, tail: Option<BodyForm>, f: Defun, v: SExp)
    returns (m: nat, argv: SExp)
    requires forms != [] && CallName(forms[0]).Some? && FindDefun(w.defuns, CallName(forms[0]).value) == Some(f)
    requires Sem(w, n, [Scope(params, given)], Call(forms, tail)) == Success(v)
    ensures m < n && SemArgs(w, n, [Scope(params, given)], forms[1..], tail) == Success(argv)
    ensures Sem(w, m, [Scope(f.args, argv)], f.body) == Success(v)
  {
    argv := DefunCallMeaning(w, n, [Scope(params, given)], forms, tail, f, v);
    m := n - 1;
  }

  lemma {:induction false} GenDefunMeans(w: World, b: Build, k: nat, d: nat, n: nat, params: SExp, given: SExp, f: Defun,
                                         forms: seq<BodyForm>, tail: Option<BodyForm>, code: SExp, v: SExp)
    requires Setting(w, b) && Site(w, params) && PlainTo(w, d, Call(forms, tail))
    requires forms != [] && CallName(forms[0]).Some? && FindDefun(w.defuns, CallName(forms[0]).value) == Some(f) && !f.inline
    requires GenExpr(At(b, params), k, Call(forms, tail)) == Success(code)
    requires Sem(w, n, [Scope(params, given)], Call(forms, tail)) == Success(v)
    ensures Gives(w.machine, code, EnvFor(w, given), v)
    decreases n, k, Weight(Call(forms, tail)), 0
  {
    WeightParts(Call(forms, tail));
    var path := DefunPath(w, b, params, f, given);
    var args := DefunCallCoded(w, b, k, d, params, f, forms, tail, code, path);
    var m, argv := CalledMeaning(w, n, params, given, forms, tail, f, v);
    GenArgsMean(w, b, k, d, n, params, given, forms[1..], tail, args, argv);
    var body := DefunBody(w, b, f);
    GenMeans(w, b, b.k, b.d, m, f.args, argv, f.body, body, v);
    DefunCallGives(w, b, params, given, f, body, path, args, argv, v);
  }

  lemma {:induction false} GenOtherCallMeans(w: World, b: Build, k: nat, d: nat, n: nat, params: SExp, given: SExp,
                                             forms: seq<BodyForm>, tail: Option<BodyForm>, code: SExp, v: SExp)
    requires Setting(w, b) && Site(w, params) && PlainTo(w, d, Call(forms, tail))
    requires forms != [] && CallName(forms[0]).Some? && FindDefun(w.defuns, CallName(forms[0]).value) == None
    requires GenExpr(At(b, params), k, Call(forms, tail)) == Success(code)
    requires Sem(w, n, [Scope(params, given)], Call(forms, tail)) == Success(v)
    ensures Gives(w.machine, code, EnvFor(w, given), v)
    decreases n, k, Weight(Call(forms, tail)), 0
  {
    LinkedMatches(w, b, w.defuns);
    var name := CallName(forms[0]).value;
    IsDefunFinds(w.defuns, name);
    OtherPath(b.shape, w.defuns, params, name, w.left.value, given);
    OneScope(params, given, name);
    if Primitive(w.prims, name).Some? {
      WeightParts(Call(forms, tail));
      var p := Primitive(w.prims, name).value;
      var args := GenArgs(At(b, params), k, forms[1..], None, false).value;
      var argv := SemArgs(w, n, [Scope(params, given)], forms[1..], None).value;
      var j := GenListMeans(w, b, k, d, n, params, given, forms[1..], args, argv);
      PrimCallGives(w.machine, j, n, p, args, EnvFor(w, given), argv, v);
    } else {
      PathMeans(w, params, given, PathLiteral(forms[1]).value, v);
    }
  }

  lemma {:induction false} PathMeans(w: World, params: SExp, given: SExp, literal: int, v: SExp)
    requires w.left.Some? && ChoosePath(FlattenSigned(literal), EnvFor(w, given)) == Success(v)
    ensures Gives(w.machine, Integer(literal), EnvFor(w, given), v)
  {
    GivesAt(w.machine, 1, Integer(literal), EnvFor(w, given), v);
  }

  /** Code that builds an argument list. */
  lemma {:induction false} GenArgsMean(w: World, b: Build, k: nat, d: nat, n: nat, params: SExp, given: SExp,
                                       args: seq<BodyForm>, tail: Option<BodyForm>, code: SExp, v: SExp)
    requires Setting(w, b) && Site(w, params) && AllPlainTo(w, d, args) && (tail.Some? ==> PlainTo(w, d, tail.value))
    requires GenArgs(At(b, params), k, args, tail, true) == Success(code)
    requires SemArgs(w, n, [Scope(params, given)], args, tail) == Success(v)
    ensures Gives(w.machine, code, EnvFor(w, given), v)
    decreases n, k, FormsWeight(args) + TailWeight(tail), 2
  {
    LinkedMatches(w, b, w.defuns);
    if args == [] {
      if tail.Some? {
        GenMeans(w, b, k, d, n, params, given, tail.value, code, v);
      } else {
        GivesAt(w.machine, 1, Nil, EnvFor(w, given), Nil);
      }
    } else {
      var rest := GenArgs(At(b, params), k, args[1..], tail, true).value;
      var first := GenExpr(At(b, params), k, args[0]).value;
      GenArgsMean(w, b, k, d, n, params, given, args[1..], tail, rest, v.rest);
      GenMeans(w, b, k, d, n, params, given, args[0], first, v.first);
      ConsGives(w.machine, Integer(4), first, rest, EnvFor(w, given), v.first, v.rest);
    }
  }

  /** A plain list of argument codes. */
  lemma {:induction false} GenListMeans(w: World, b: Build, k: nat, d: nat, n: nat, params: SExp, given: SExp,
                                        args: seq<BodyForm>, code: SExp, v: SExp) returns (j: nat)
    requires Setting(w, b) && Site(w, params) && AllPlainTo(w, d, args)
    requires GenArgs(At(b, params), k, args, None, false) == Success(code)
    requires SemArgs(w, n, [Scope(params, given)], args, None) == Success(v)
    ensures EvalArgs(w.machine, j, code, EnvFor(w, given)) == Success(v) && ArgList(code).Some?
    decreases n, k, FormsWeight(args), 2
  {
    LinkedMatches(w, b, w.defuns);
    if args == [] {
      j := 0;
    } else {
      var rest := GenArgs(At(b, params), k, args[1..], None, false).value;
      var first := GenExpr(At(b, params), k, args[0]).value;
      var i := GenListMeans(w, b, k, d, n, params, given, args[1..], rest, v.rest);
      GenMeans(w, b, k, d, n, params, given, args[0], first, v.first);
      j := PlainArgsCons(w.machine, first, rest, EnvFor(w, given), v.first, i, v.rest);
    }
  }
}
