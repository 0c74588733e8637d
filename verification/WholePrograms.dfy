/** The whole compiler, from source programs to runs of the stepwise machine. */
module WholePrograms {
  import opened Numbers
  import opened SExpressions
  import opened Machine
  import opened Syntax
  import opened AssignForms
  import opened Semantics
  import Relevance
  import opened CodeGeneration
  import opened ProgramCorrect
  import opened HoistingComplete
  import opened HoistingNames
  import opened Desugaring
  import opened Renaming
  import opened RenamingNames
  import opened RenamingMentions
  import opened RenamingPatterns
  import opened RenamingSound
  import opened RenamingApart
  import opened RenamingCleans
  import opened RenamedPrograms
  import opened FreeNames
  import opened UsableCalls
  import opened HoistedNames
  import opened LinkedPrograms

  // ---- Conditions on the source -------------------------------------------------------------------

  /** A function's calls are usable, and what it reads without binding it is none of the program's own
      arguments. */
  ghost predicate FunctionUsable(g: Ground, hintless: bool, f: Defun) {
    Usable(g, hintless, f.inline, f.body) && forall x :: x in Free(g.strict, f.body) - Named(f.args) ==> !Binds(g.own, x)
  }

  ghost predicate FunctionsUsable(g: Ground, hintless: bool, defuns: seq<Defun>) {
    defuns == [] || (FunctionUsable(g, hintless, defuns[0]) && FunctionsUsable(g, hintless, defuns[1..]))
  }

  /** A source program that may be renamed, desugared and compiled, with the counter at `count`. */
  ghost predicate MayBuild(m: Config, prims: map<bytes, SExp>, strict: bool, hintless: bool, src: Source, count: nat) {
    var g := Start(m, prims, strict, src, count);
    MayRename(strict, src, count) && MayHoist(hintless, src, count) && OperatorsFine(g) && NamesFine(g) && FunctionsNamed(g)
    && FunctionsUsable(g, hintless, src.defuns) && Usable(g, hintless, false, src.main)
  }

  function Start(m: Config, prims: map<bytes, SExp>, strict: bool, src: Source, count: nat): Ground {
    Ground(m, prims, strict, src.defuns, src.args, {}, count)
  }

  /** The ground after renaming. */
  function Renewed(g: Ground, r: Source, next: nat): Ground {
    g.(defuns := r.defuns, binders := DefunsBinders(r.defuns) + Binders(r.main), count := next)
  }

  // ---- Renamed functions --------------------------------------------------------------------------

  /** What renaming makes of a function's body. */
  lemma {:induction false} RenamedBody(strict: bool, hintless: bool, f: Defun, count: nat)
    requires DefunNameable(strict, f, count)
    ensures var r := RenameDefun(hintless, f, count);
            Unfolded(r.value.body) && AllFresh(FunctionBinders(r.value), count, r.next) && Renameable(r.value.args)
            && Free(strict, r.value.body) - Named(r.value.args) <= Free(strict, f.body) - Named(f.args)
  {
    InventsNames(f.args, map[], count, count);
    var own := InventNames(f.args, map[], count);
    RenamesEveryLeaf(own.names, f.args, true);
    RenamedPattern(own.names, count, own.next, f.args);
    BeforeFewer(Mentions(f.body), Mentions(f.body), count, own.next);
    RenameArgsShape(strict, hintless, f.body, own.next);
    RenamingFreesNone(strict, hintless, f.body, own.next);
    var body := RenameArgs(hintless, f.body, own.next);
    BeforeFewer(Named(f.args), own.names.Keys, count, own.next);
    RenameInShape(strict, own.names, count, own.next, body.value);
    FreeInGroup(strict, own.names, count, own.next, body.next, f.body, body.value, f.args);
    var r := RenameDefun(hintless, f, count);
    SpansJoin(Named(r.value.args), count, own.next, Binders(r.value.body), own.next, body.next);
  }

  lemma {:induction false} RenamedBindersFresh(strict: bool, hintless: bool, defuns: seq<Defun>, start: nat, count: nat)
    requires DefunsNameable(strict, defuns, start) && start <= count
    ensures var r := RenameDefuns(hintless, defuns, count); AllFresh(DefunsBinders(r.value), count, r.next)
  {
    if defuns != [] {
      NameableLater(strict, defuns[0], start, count);
      RenamedBody(strict, hintless, defuns[0], count);
      var first := RenameDefun(hintless, defuns[0], count);
      assert DefunsNameable(strict, defuns[1..], start);
      RenamedBindersFresh(strict, hintless, defuns[1..], start, first.next);
      var rest := RenameDefuns(hintless, defuns[1..], first.next);
      SpansJoin(FunctionBinders(first.value), count, first.next, DefunsBinders(rest.value), first.next, rest.next);
      assert ([first.value] + rest.value)[1..] == rest.value;
    }
  }

  /** Names of the source are not among the binders of the renamed program. */
  lemma {:induction false} OldIsNoBinder(g: Ground, g': Ground, x: bytes)
    requires LaterGround(g, g') && g.binders == {} && Before(x, g.count)
    ensures x !in g'.binders
  {
    if x in g'.binders {
      FreshAfter(x, g.count, g'.count, x);
    }
  }

  /** A renamed function is as hoisting and compiling want it. */
  lemma {:induction false} RenamedFunctionSettles(g: Ground, g': Ground, hintless: bool, f: Defun, count: nat)
    requires LaterGround(g, g') && g.binders == {} && GlueUsable(g') && g.count <= count && RenameDefun(hintless, f, count).next <= g'.count
    requires DefunNameable(g.strict, f, g.count) && DefunHoistable(hintless, f) && FunctionUsable(g, hintless, f)
    requires FunctionBinders(RenameDefun(hintless, f, count).value) <= g'.binders
    ensures FunctionSettled(g', RenameDefun(hintless, f, count).value) && Clean(1, RenameDefun(hintless, f, count).value.body)
  {
    var r := RenameDefun(hintless, f, count).value;
    NameableLater(g.strict, f, g.count, count);
    RenamedBody(g.strict, hintless, f, count);
    RenamedDefunIsScoped(g.strict, hintless, f, count, g'.count);
    forall x | Binds(r.args, x) ensures x in g'.binders { BindsAtoms(r.args, x); }
    forall x | x in Free(g'.strict, r.body) ensures Binds(r.args, x) || (!Binds(g'.own, x) && x !in g'.binders) {
      if x in Named(r.args) {
        NamedIsBound(r.args, x);
      } else {
        assert x in Free(g.strict, f.body) - Named(f.args);
        FreeIsOld(g.strict, f.body, g.count, x);
        OldIsNoBinder(g, g', x);
      }
    }
    RenamedUsable(g, g', hintless, f, count);
  }

  lemma {:induction false} FreeIsOld(strict: bool, e: BodyForm, count: nat, x: bytes)
    requires NamesBefore(Mentions(e), count) && x in Free(strict, e)
    ensures Before(x, count)
  {
    FreeIsRead(strict, e);
    Relevance.ReadsAreMentioned(e);
  }

  lemma {:induction false} RenamedUsable(g: Ground, g': Ground, hintless: bool, f: Defun, count: nat)
    requires LaterGround(g, g') && g.count <= count && DefunNameable(g.strict, f, g.count) && Usable(g, hintless, f.inline, f.body)
    requires Unfolded(RenameDefun(hintless, f, count).value.body)
    ensures var r := RenameDefun(hintless, f, count).value; Usable(g', false, r.inline, r.body) && Clean(1, r.body)
  {
    InventsNames(f.args, map[], count, count);
    var own := InventNames(f.args, map[], count);
    NoneIsAt(own.names, count, own.next);
    StaysUsable(g, g', hintless, f.inline, f.body);
    UsableRenamed(g', g.strict, hintless, f.inline, f.body, own.next);
    UsableReplaced(g', hintless, f.inline, own.names, RenameArgs(hintless, f.body, own.next).value);
    HintDoesNotMatter(g', hintless, false, f.inline, RenameDefun(hintless, f, count).value.body);
    UsableIsStraight(g, g.strict, hintless, f.inline, f.body);
    RenamedFunctionIsClean(hintless, f, count);
  }

  lemma {:induction false} RenamedFunctionsSettle(g: Ground, g': Ground, hintless: bool, defuns: seq<Defun>, count: nat)
    requires LaterGround(g, g') && g.binders == {} && GlueUsable(g') && g.count <= count && RenameDefuns(hintless, defuns, count).next <= g'.count
    requires DefunsNameable(g.strict, defuns, g.count) && DefunsHoistable(hintless, defuns) && FunctionsUsable(g, hintless, defuns)
    requires DefunsBinders(RenameDefuns(hintless, defuns, count).value) <= g'.binders
    ensures var r := RenameDefuns(hintless, defuns, count).value; AllSettled(g', r) && DefunsClean(r)
  {
    if defuns != [] {
      var first := RenameDefun(hintless, defuns[0], count);
      var rest := RenameDefuns(hintless, defuns[1..], first.next);
      assert ([first.value] + rest.value)[1..] == rest.value;
      assert DefunNameable(g.strict, defuns[0], g.count) && DefunHoistable(hintless, defuns[0]);
      RenamedFunctionSettles(g, g', hintless, defuns[0], count);
      assert DefunsNameable(g.strict, defuns[1..], g.count);
      assert DefunsHoistable(hintless, defuns[1..]) by {
        forall i | 0 <= i < |defuns[1..]| ensures DefunHoistable(hintless, defuns[1..][i]) { assert DefunHoistable(hintless, defuns[i + 1]); }
      }
      RenamedFunctionsSettle(g, g', hintless, defuns[1..], first.next);
    }
  }

  // ---- Renamed programs ---------------------------------------------------------------------------

  lemma {:induction false} SameKinds(strict: bool, hintless: bool, src: Source, count: nat)
    requires DefunsNameable(strict, src.defuns, count)
    ensures forall name :: Kind(RenameDefuns(hintless, src.defuns, count).value, name) == Kind(src.defuns, name)
  {
    var r := RenameDefuns(hintless, src.defuns, count).value;
    RenamedFunctions(strict, hintless, src.defuns, count, count);
    forall name ensures Kind(r, name) == Kind(src.defuns, name) {
      assert RenamedFunction(strict, src.defuns, r, hintless, name);
    }
  }

  lemma {:induction false} BecomesLater(m: Config, prims: map<bytes, SExp>, strict: bool, hintless: bool, src: Source, count: nat)
    requires MayRename(strict, src, count)
    ensures var r := RenameChildren(hintless, src, count);
            LaterGround(Start(m, prims, strict, src, count), Renewed(Start(m, prims, strict, src, count), r.value, r.next))
            && Unfolded(r.value.main) && Free(strict, r.value.main) <= Free(strict, src.main)
  {
    var defuns := RenameDefuns(hintless, src.defuns, count);
    RenamedBindersFresh(strict, hintless, src.defuns, count, count);
    BeforeFewer(Mentions(src.main), Mentions(src.main), count, defuns.next);
    RenameArgsShape(strict, hintless, src.main, defuns.next);
    RenamingFreesNone(strict, hintless, src.main, defuns.next);
    var main := RenameArgs(hintless, src.main, defuns.next);
    SpansJoin(DefunsBinders(defuns.value), count, defuns.next, Binders(main.value), defuns.next, main.next);
    SameKinds(strict, hintless, src, count);
  }

  lemma {:induction false} LaterIsFine(g: Ground, g': Ground)
    requires LaterGround(g, g') && g.binders == {} && OperatorsFine(g) && NamesFine(g) && FunctionsNamed(g)
    requires forall f :: f in g'.defuns ==> exists f' :: f' in g.defuns && f'.name == f.name
    ensures OperatorsFine(g') && NamesFine(g') && FunctionsNamed(g') && GlueUsable(g')
  {
    ShortNames(g'.count);
    ShortNames(g.count);
    forall name | Primitive(g'.prims, name).Some? ensures Before(name, g'.count) { assert Before(name, g.count); }
    forall name | name in GLUE ensures FindDefun(g'.defuns, name) == None { assert Kind(g'.defuns, name) == Kind(g.defuns, name); }
    forall x | Binds(g'.own, x) || x in g'.binders ensures Before(x, g'.count) && FindDefun(g'.defuns, x) == None && x !in GLUE {
      BoundIsFine(g, g', x);
    }
    forall f | f in g'.defuns ensures f.name != [] && f.name != AT && Before(f.name, g'.count) {
      var f' :| f' in g.defuns && f'.name == f.name;
      assert Before(f'.name, g.count);
    }
    assert REST_NAME in GLUE && CONS_NAME in GLUE;
    assert REST_NAME != AT && REST_NAME != AT_ENV && CONS_NAME != AT && CONS_NAME != AT_ENV;
  }

  lemma {:induction false} BoundIsFine(g: Ground, g': Ground, x: bytes)
    requires LaterGround(g, g') && g.binders == {} && NamesFine(g) && FunctionsNamed(g) && (Binds(g'.own, x) || x in g'.binders)
    ensures Before(x, g'.count) && FindDefun(g'.defuns, x) == None && x !in GLUE
  {
    assert Kind(g'.defuns, x) == Kind(g.defuns, x);
    if Binds(g.own, x) {
      assert Before(x, g.count);
    } else {
      assert FreshName(x, g.count, g'.count);
      FreshIsBefore(x, g.count, g'.count);
      ShortNames(g.count);
      if x in GLUE {
        FreshAfter(x, g.count, g'.count, x);
      }
      var f := FindDefun(g.defuns, x);
      if f.Some? {
        FreshAfter(x, g.count, g'.count, f.value.name);
      }
    }
  }

  lemma {:induction false} NamesStay(hintless: bool, defuns: seq<Defun>, count: nat)
    ensures forall f :: f in RenameDefuns(hintless, defuns, count).value ==> exists f' :: f' in defuns && f'.name == f.name
  {
    if defuns != [] {
      var first := RenameDefun(hintless, defuns[0], count);
      NamesStay(hintless, defuns[1..], first.next);
      assert defuns[0] in defuns && first.value.name == defuns[0].name;
    }
  }

  lemma {:induction false} RenamedGround(m: Config, prims: map<bytes, SExp>, strict: bool, hintless: bool, src: Source, count: nat)
    requires MayBuild(m, prims, strict, hintless, src, count)
    ensures var g, r := Start(m, prims, strict, src, count), RenameChildren(hintless, src, count);
            var g' := Renewed(g, r.value, r.next);
            LaterGround(g, g') && OperatorsFine(g') && NamesFine(g') && FunctionsNamed(g') && GlueUsable(g') && Distinct(r.value.defuns)
            && Unfolded(r.value.main) && Free(strict, r.value.main) <= Free(strict, src.main)
  {
    var g, r := Start(m, prims, strict, src, count), RenameChildren(hintless, src, count);
    var g' := Renewed(g, r.value, r.next);
    BecomesLater(m, prims, strict, hintless, src, count);
    RenamedFunctions(strict, hintless, src.defuns, count, count);
    NamesStay(hintless, src.defuns, count);
    LaterIsFine(g, g');
  }

  /** A renamed program may be desugared and compiled. */
  lemma {:induction false} RenamedMayCompile(m: Config, prims: map<bytes, SExp>, strict: bool, hintless: bool, src: Source, count: nat)
    requires MayBuild(m, prims, strict, hintless, src, count)
    ensures var r := RenameChildren(hintless, src, count); MayCompile(Renewed(Start(m, prims, strict, src, count), r.value, r.next), r.value)
  {
    var g, r := Start(m, prims, strict, src, count), RenameChildren(hintless, src, count);
    var g' := Renewed(g, r.value, r.next);
    RenamedGround(m, prims, strict, hintless, src, count);
    RenamedFunctionsSettle(g, g', hintless, src.defuns, count);
    RenamedMainSettles(g, g', hintless, src, count);
  }

  lemma {:induction false} RenamedMainSettles(g: Ground, g': Ground, hintless: bool, src: Source, count: nat)
    requires LaterGround(g, g') && g.binders == {} && g.own == src.args && g.count == count && g'.count == RenameChildren(hintless, src, count).next
    requires MayRename(g.strict, src, count) && MayHoist(hintless, src, count) && Usable(g, hintless, false, src.main)
    requires var main := RenameChildren(hintless, src, count).value.main;
             Unfolded(main) && Free(g.strict, main) <= Free(g.strict, src.main) && Binders(main) <= g'.binders
    ensures var main := RenameChildren(hintless, src, count).value.main; Settled(g', false, src.args, main) && Clean(1, main)
  {
    var defuns, r := RenameDefuns(hintless, src.defuns, count), RenameChildren(hintless, src, count);
    StaysUsable(g, g', hintless, false, src.main);
    UsableRenamed(g', g.strict, hintless, false, src.main, defuns.next);
    HintDoesNotMatter(g', hintless, false, false, r.value.main);
    UsableIsStraight(g, g.strict, hintless, false, src.main);
    RenamedIsClean(hintless, src.main, defuns.next);
    RenamedMainIsScoped(g.strict, hintless, src, count);
    forall x | x in Free(g'.strict, r.value.main) ensures Binds(src.args, x) || (!Binds(g'.own, x) && x !in g'.binders) {
      FreeIsOld(g.strict, src.main, count, x);
      OldIsNoBinder(g, g', x);
    }
  }

  /** What a program is renamed and desugared to. */
  function Prepared(hintless: bool, src: Source, count: nat): (r: Option<Source>) {
    var renamed := RenameChildren(hintless, src, count);
    Desugar(renamed.value, renamed.next)
  }

  /** The source program beside the values that its compiled functions have. */
  function SourceWorld(m: Config, src: Source, out: Source, prims: map<bytes, SExp>, strict: bool, k: nat): (w: World)
    requires FinalEnv(out, prims, strict, k).Success?
  {
    LinkedWorld(m, out, prims, strict, k).(defuns := src.defuns, covered := true)
  }

  /** The whole way: what the program means is what the machine computes from the program renamed, freed of
      its lets and compiled.  All that is asked is asked of the source program and the operators. */
  lemma {:induction false} ProgramsCompile(m: Config, src: Source, prims: map<bytes, SExp>, strict: bool, hintless: bool, k: nat, count: nat, n: nat,
                                           given: SExp, v: SExp)
    requires MayBuild(m, prims, strict, hintless, src, count) && Covers(src.args, given)
    requires Prepared(hintless, src, count).Some? && Compile(Prepared(hintless, src, count).value, prims, strict, k).Success?
    requires Sem(SourceWorld(m, src, Prepared(hintless, src, count).value, prims, strict, k), n, [Scope(src.args, given)], src.main) == Success(v)
    ensures exists limit: nat :: Run(m, limit, Compile(Prepared(hintless, src, count).value, prims, strict, k).value, given) == Success(v)
  {
    var r := RenameChildren(hintless, src, count);
    var w := SourceWorld(m, src, Desugar(r.value, r.next).value, prims, strict, k);
    RenamingKeepsMeaning(w, hintless, src, count, n, given, v);
    assert REST_NAME in GLUE && CONS_NAME in GLUE;
    RenamedIsTidy(w, hintless, src, count);
    RenamedMayCompile(m, prims, strict, hintless, src, count);
    LetProgramsCompile(Renewed(Start(m, prims, strict, src, count), r.value, r.next), r.value, k, n, given, v);
  }

  /** For programs whose meaning needs neither function values nor `@`, the source side does not mention the
      compiler at all. */
  lemma {:induction false} ClosedProgramsCompile(m: Config, src: Source, prims: map<bytes, SExp>, strict: bool, hintless: bool, k: nat, count: nat,
                                                 n: nat, given: SExp, v: SExp)
    requires MayBuild(m, prims, strict, hintless, src, count) && Covers(src.args, given)
    requires Prepared(hintless, src, count).Some? && Compile(Prepared(hintless, src, count).value, prims, strict, k).Success?
    requires Sem(World(m, src.defuns, prims, strict, map[], None, true), n, [Scope(src.args, given)], src.main) == Success(v)
    ensures exists limit: nat :: Run(m, limit, Compile(Prepared(hintless, src, count).value, prims, strict, k).value, given) == Success(v)
  {
    var w := SourceWorld(m, src, Prepared(hintless, src, count).value, prims, strict, k);
    assert Closed(w) == World(m, src.defuns, prims, strict, map[], None, true);
    ClosedMeaning(w, n, [Scope(src.args, given)], src.main);
    ProgramsCompile(m, src, prims, strict, hintless, k, count, n, given, v);
  }
}
