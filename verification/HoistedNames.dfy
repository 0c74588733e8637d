/** What hoisting does to free names and to how calls are written. */
module HoistedNames {
  import opened Numbers
  import opened SExpressions
  import opened Syntax
  import opened Toposort
  import opened AssignForms
  import opened AssignWeight
  import opened Relevance
  import opened AssignMeaning
  import opened Gensyms
  import opened Hoisting
  import opened HoistingNames
  import opened HoistingSound
  import opened RenamingNames
  import opened RenamingAssigns
  import opened RenamingPatterns
  import opened FreeNames
  import opened UsableCalls

  // ---- Assign forms as nested lets --------------------------------------------------------------

  /** Stages made of the items of some bindings. */
  ghost predicate StagesOf(bs: seq<Binding>, stages: seq<seq<Spec>>) {
    forall k, s: Spec :: 0 <= k < |stages| && s in stages[k] ==> SpecOf(bs, s)
  }

  predicate SpecOf(bs: seq<Binding>, s: Spec) {
    s.index < |bs| && s.needs == BodyMentions(bs[s.index]) * Possible(bs, Provides) && s.has == Provides(bs[s.index])
  }

  lemma {:induction false} ProvidedTogether(a: seq<Spec>, b: seq<Spec>, x: bytes)
    requires x in Provided(a + b)
    ensures x in Provided(a) || x in Provided(b)
  {
    ProvidedConcat(a, b);
  }

  /** A stage reads, of the names of its group, only those of stages around it. */
  lemma {:induction false} StageReads(strict: bool, bs: seq<Binding>, stage: seq<Spec>, base: Names, x: bytes)
    requires (forall s :: s in stage ==> s.index < |bs| && SpecOf(bs, s)) && WordsOnly(PatternList(bs)) && forall s :: s in stage ==> s.needs <= base
    requires x in BindingsFree(strict, Pick(bs, stage)) && x !in base
    ensures x in BindingsFree(strict, bs) && x !in Named(PatternList(bs))
  {
    var picked := Pick(bs, stage);
    var i := WhoseFree(strict, picked, x);
    var s, b := stage[i], picked[i];
    assert s in stage && SpecOf(bs, s) && b == bs[s.index];
    FreeOfMember(strict, bs, b);
    FreeIsRead(strict, b.body);
    ReadsAreMentioned(b.body);
    assert BodyMentions(b) == Mentions(b.body);
    PossibleIsAtoms(bs);
    assert x !in s.needs;
  }

  lemma {:induction false} WhoseFree(strict: bool, bs: seq<Binding>, x: bytes) returns (i: nat)
    requires x in BindingsFree(strict, bs)
    ensures i < |bs| && x in BodyFree(strict, bs[i])
  {
    BindingParts(bs, 1);
    if x in Free(strict, bs[0].body) {
      i := 0;
    } else {
      i := WhoseFree(strict, bs[1..], x);
      i := i + 1;
    }
  }

  lemma {:induction false} StageNames(bs: seq<Binding>, stage: seq<Spec>, x: bytes)
    requires (forall s :: s in stage ==> s.index < |bs| && SpecOf(bs, s)) && WordsOnly(PatternList(bs)) && x in Provided(stage) && x != AT
    ensures x in Named(PatternList(Pick(bs, stage)))
  {
    ProvidedBy(stage, x);
    var s :| s in stage && x in s.has;
    var i :| 0 <= i < |stage| && stage[i] == s;
    assert SpecOf(bs, s);
    var b, picked := bs[s.index], Pick(bs, stage);
    assert picked[i] == b && b in picked && b in bs;
    Member(true, bs, b);
    WordsAreAtoms(PatternOf(b));
    ProvidesNames(b);
    Member(true, picked, b);
  }

  /** Nested lets read free what the assign form's bindings and body do, without the names of the group. */
  lemma {:induction false} NestFree(strict: bool, inlined: bool, bs: seq<Binding>, stages: seq<seq<Spec>>, inner: BodyForm, base: Names)
    requires InRange(bs, stages) && StagesOf(bs, stages) && WordsOnly(PatternList(bs)) && Staged(stages, base)
    requires forall x :: x in Named(PatternList(bs)) ==> x in base || x in Provided(Flatten(stages))
    ensures Free(strict, Nest(inlined, bs, stages, inner)) - base <= BindingsFree(strict, bs) + Free(strict, inner) - Named(PatternList(bs))
    decreases |stages|
  {
    if stages != [] {
      var stage, rest, base' := stages[0], stages[1..], base + Provided(stages[0]);
      var inside := Nest(inlined, bs, rest, inner);
      forall x | x in Named(PatternList(bs)) ensures x in base' || x in Provided(Flatten(rest)) {
        if x !in base {
          ProvidedTogether(stage, Flatten(rest), x);
        }
      }
      forall k, s: Spec | 0 <= k < |rest| && s in rest[k] ensures SpecOf(bs, s) { assert rest[k] == stages[k + 1]; }
      forall s | s in stage ensures s.index < |bs| && SpecOf(bs, s) { assert s in stages[0]; }
      NestFree(strict, inlined, bs, rest, inner, base');
      forall x | x in Free(strict, Nest(inlined, bs, stages, inner)) && x !in base
        ensures x in BindingsFree(strict, bs) + Free(strict, inner) && x !in Named(PatternList(bs)) {
        var picked := Pick(bs, stage);
        assert Nest(inlined, bs, stages, inner) == Let(Parallel, inlined, picked, inside);
        if x in BindingsFree(strict, picked) {
          StageReads(strict, bs, stage, base, x);
        } else {
          assert x in Free(strict, inside) && x !in Named(PatternList(picked));
          FreeIsRead(strict, inside);
          if x in Provided(stage) {
            StageNames(bs, stage, x);
          }
          assert x in Free(strict, inside) - base';
        }
      }
    }
  }

  /** The stages of an assign form. */
  lemma {:induction false} SortedStages(bs: seq<Binding>)
    requires SortBindings(bs).Known? && WordsOnly(PatternList(bs))
    ensures var stages := Stages(SortBindings(bs).value, {}, {}, []);
            InRange(bs, stages) && StagesOf(bs, stages) && Staged(stages, {}) && forall x :: x in Named(PatternList(bs)) ==> x in Provided(Flatten(stages))
  {
    var stages, items := Stages(SortBindings(bs).value, {}, {}, []), BindingItems(bs);
    StagesInRange(bs);
    AssignStages(bs);
    forall k, s: Spec | 0 <= k < |stages| && s in stages[k] ensures SpecOf(bs, s) {
      FlattenHas(stages, k, s);
      assert s in multiset(Flatten(stages));
      assert s in multiset(items);
      var i :| 0 <= i < |items| && items[i] == s;
    }
    forall x | x in Named(PatternList(bs)) ensures x in Provided(Flatten(stages)) {
      AtomIsProvided(bs, x);
      var i :| 0 <= i < |bs| && x in Provides(bs[i]);
      assert items[i] in multiset(items);
      assert items[i] in multiset(Flatten(stages));
      ProvidedHas(Flatten(stages), items[i]);
    }
  }

  lemma {:induction false} ProvidedHas(items: seq<Spec>, s: Spec)
    requires s in items
    ensures s.has <= Provided(items)
  {
    if items[|items| - 1] != s {
      assert items == items[..|items| - 1] + [items[|items| - 1]];
      ProvidedHas(items[..|items| - 1], s);
    }
  }

  lemma {:induction false} HoistedFree(strict: bool, inlined: bool, bs: seq<Binding>, inner: BodyForm)
    requires HoistAssign(inlined, bs, inner).Some? && WordsOnly(PatternList(bs))
    ensures Free(strict, HoistAssign(inlined, bs, inner).value) <= Free(strict, Let(Assign, inlined, bs, inner))
  {
    SortedStages(bs);
    NestFree(strict, inlined, bs, Stages(SortBindings(bs).value, {}, {}, []), inner, {});
  }

  lemma {:induction false} NestUsable(g: Ground, hintless: bool, inl: bool, inlined: bool, bs: seq<Binding>, stages: seq<seq<Spec>>, inner: BodyForm)
    requires InRange(bs, stages) && BindingsUsable(g, hintless, inl || inlined, bs) && Usable(g, hintless, inlined, inner)
    ensures stages != [] ==> Usable(g, hintless, inl, Nest(inlined, bs, stages, inner))
    ensures stages == [] ==> Nest(inlined, bs, stages, inner) == inner
    decreases |stages|
  {
    if stages != [] {
      BindingsUsableOutside(g, hintless, inl || inlined, inlined, bs);
      NestUsable(g, hintless, inlined, inlined, bs, stages[1..], inner);
      var picked := Pick(bs, stages[0]);
      forall b | b in picked ensures Usable(g, hintless, inl, b.body) {
        var i :| 0 <= i < |picked| && picked[i] == b;
        assert stages[0][i] in stages[0];
        UsableMember(g, hintless, inl || inlined, bs, b);
        UsableOutside(g, hintless, inl || inlined, inl, b.body);
      }
      UsableMembers(g, hintless, inl, picked);
      WeightPerBinding(picked);
    }
  }

  lemma {:induction false} SomeStage(bs: seq<Binding>)
    requires bs != [] && SortBindings(bs).Known?
    ensures Stages(SortBindings(bs).value, {}, {}, []) != []
  {
    AssignStages(bs);
    var stages := Stages(SortBindings(bs).value, {}, {}, []);
    assert |multiset(Flatten(stages))| == |multiset(BindingItems(bs))| == |bs|;
  }

  // ---- Expressions among arguments ---------------------------------------------------------------

  /** Names that are bound by the arguments around, or by nothing in the program. */
  ghost predicate Within(g: Ground, args: SExp, names: Names) {
    forall x :: x in names ==> Binds(args, x) || (!Binds(g.own, x) && x !in g.binders)
  }

  /** Arguments made of the program's own and of names bound inside it. */
  ghost predicate Known(g: Ground, args: SExp) { forall x :: Binds(args, x) ==> Binds(g.own, x) || x in g.binders }

  /** The names that hoisting writes are plain primitives that nothing hides. */
  ghost predicate GlueUsable(g: Ground) {
    HeadUsable(g, true, Var(REST_NAME)) && HeadUsable(g, true, Var(CONS_NAME)) && Before(REST_NAME, g.count) && Before(CONS_NAME, g.count)
    && FindDefun(g.defuns, REST_NAME) == None && FindDefun(g.defuns, CONS_NAME) == None
  }

  /** An expression inside something with given arguments, as hoisting meets it. */
  ghost predicate Settled(g: Ground, inl: bool, args: SExp, e: BodyForm) {
    Usable(g, false, inl, e) && Unfolded(e) && Binders(e) <= g.binders && Within(g, args, Free(g.strict, e)) && Scoped(g.count, args, e)
  }

  ghost predicate Suits(g: Ground, inl: bool, args: SExp) { Known(g, args) && LeavesAlone(args) && (inl ==> PlainPattern(args)) && GlueUsable(g) }

  /** What is left of it. */
  ghost predicate Left(g: Ground, inl: bool, args: SExp, e: BodyForm) { Usable(g, false, inl, e) && Within(g, args, Free(g.strict, e)) }

  ghost predicate FormsLeft(g: Ground, inl: bool, args: SExp, forms: seq<BodyForm>) {
    FormsUsable(g, false, inl, forms) && Within(g, args, FormsFree(g.strict, forms))
  }

  /** A function that is still to be hoisted from. */
  ghost predicate FunctionSettled(g: Ground, f: Defun) { Suits(g, f.inline, f.args) && Settled(g, f.inline, f.args, f.body) }

  ghost predicate AllSettled(g: Ground, fs: seq<Defun>) { fs == [] || (FunctionSettled(g, fs[0]) && AllSettled(g, fs[1..])) }

  lemma {:induction false} AllSettledBoth(g: Ground, a: seq<Defun>, b: seq<Defun>)
    ensures AllSettled(g, a + b) <==> AllSettled(g, a) && AllSettled(g, b)
  {
    if a == [] {
      assert a + b == b;
    } else {
      assert (a + b)[1..] == a[1..] + b;
      AllSettledBoth(g, a[1..], b);
    }
  }

  lemma {:induction false} OneSettled(g: Ground, f: Defun)
    requires FunctionSettled(g, f)
    ensures AllSettled(g, [f])
  {
    assert [f][1..] == [];
  }

  lemma {:induction false} CallLeft(g: Ground, inl: bool, args: SExp, head: BodyForm, forms: seq<BodyForm>, tail: Option<BodyForm>)
    requires HeadUsable(g, inl, head) && FormsLeft(g, inl, args, forms) && (tail.Some? ==> Left(g, inl, args, tail.value))
    ensures Left(g, inl, args, Call([head] + forms, tail))
  {
    var e := Call([head] + forms, tail);
    assert e.forms[0] == head && e.forms[1..] == forms;
  }

  lemma {:induction false} TwoLeft(g: Ground, inl: bool, args: SExp, a: BodyForm, b: BodyForm)
    requires Left(g, inl, args, a) && Left(g, inl, args, b)
    ensures FormsLeft(g, inl, args, [a, b])
  {
    assert [a, b][1..] == [b] && [b][1..] == [];
    assert FormsFree(g.strict, [b]) == Free(g.strict, b) + FormsFree(g.strict, [b][1..]);
    assert FormsFree(g.strict, [a, b]) == Free(g.strict, a) + FormsFree(g.strict, [a, b][1..]);
    assert FormsUsable(g, false, inl, [b]);
  }

  lemma {:induction false} GlueAnywhereUsable(g: Ground, inl: bool)
    requires GlueUsable(g)
    ensures HeadUsable(g, inl, Var(REST_NAME)) && HeadUsable(g, inl, Var(CONS_NAME))
  {
  }

  /** The arguments read back as an expression. */
  lemma {:induction false} EnvExpressionLeft(g: Ground, inl: bool, args: SExp, p: SExp)
    requires GlueUsable(g) && PlainPattern(p) && forall x :: Binds(p, x) ==> Binds(args, x)
    ensures Left(g, inl, args, EnvExpression(p))
  {
    match p
    case Cons(a, b) =>
      assert forall x :: Binds(a, x) || Binds(b, x) ==> Binds(p, x);
      EnvExpressionLeft(g, inl, args, a);
      EnvExpressionLeft(g, inl, args, b);
      TwoLeft(g, inl, args, EnvExpression(a), EnvExpression(b));
      GlueAnywhereUsable(g, inl);
      CallLeft(g, inl, args, Var(CONS_NAME), [EnvExpression(a), EnvExpression(b)], None);
      assert [Var(CONS_NAME)] + [EnvExpression(a), EnvExpression(b)] == [Var(CONS_NAME), EnvExpression(a), EnvExpression(b)];
    case Atom(a) => assert Binds(p, a);
    case _ =>
  }

  lemma {:induction false} PassEnvLeft(g: Ground, inl: bool, args: SExp)
    requires Suits(g, inl, args)
    ensures Left(g, inl, args, PassEnv(if inl then Some(args) else None))
  {
    if inl {
      EnvExpressionLeft(g, inl, args, args);
    } else {
      GlueAnywhereUsable(g, inl);
      assert [Var(AT_ENV)][1..] == [];
      assert FormsFree(g.strict, [Var(AT_ENV)]) == Free(g.strict, Var(AT_ENV)) + FormsFree(g.strict, []);
      assert FormsLeft(g, inl, args, [Var(AT_ENV)]);
      CallLeft(g, inl, args, Var(REST_NAME), [Var(AT_ENV)], None);
      assert [Var(REST_NAME)] + [Var(AT_ENV)] == WHOLE_ARGS.forms;
    }
  }

  /** The body of a let in the function it becomes. */
  lemma {:induction false} LetDefunSettled(g: Ground, inl: bool, args: SExp, e: BodyForm, name: bytes)
    requires Suits(g, inl, args) && e.Let? && e.kind == Parallel && Settled(g, inl, args, e)
    ensures FunctionSettled(g, LetDefun(name, e.inlined, args, e.bindings, e.inner))
  {
    var group := PatternList(e.bindings);
    var f := LetDefun(name, e.inlined, args, e.bindings, e.inner);
    assert IsAtCapture(args, group) == None;
    assert GroupFits(args, e.inlined, e.bindings);
    forall x | Binds(f.args, x) ensures Binds(g.own, x) || x in g.binders {
      if !Binds(args, x) {
        BindsAtoms(group, x);
        assert x in Binders(e);
      }
    }
    forall x | x in Free(g.strict, e.inner) ensures Binds(f.args, x) || (!Binds(g.own, x) && x !in g.binders) {
      if x in Named(group) {
        NamedIsBound(group, x);
      } else {
        assert x in Free(g.strict, e);
      }
    }
    assert Binders(e.inner) <= Binders(e);
  }

  lemma {:induction false} InventedIsLater(prefix: bytes, c: nat, count: nat)
    requires count <= c
    ensures !Before(Gensym(prefix, c), count)
  {
  }

  /** Hoisting leaves calls usable and frees no names. */
  lemma {:induction false} HoistLeaves(g: Ground, inl: bool, args: SExp, e: BodyForm, c: nat)
    requires Suits(g, inl, args) && Settled(g, inl, args, e) && g.count <= c
    requires HoistBody(if inl then Some(args) else None, args, e, c).Some?
    ensures var h := HoistBody(if inl then Some(args) else None, args, e, c).value; Left(g, inl, args, h.body) && AllSettled(g, h.helpers) && c <= h.next
    decreases Weight(e), 1
  {
    var outer := if inl then Some(args) else None;
    match e
    case Let(Parallel, _, _, _) => HoistLetLeaves(g, inl, args, e, c);
    case Let(Assign, inlined, bs, inner) =>
      HoistedAssignIsLighter(inlined, bs, inner);
      AssignSettled(g, inl, args, e);
      HoistLeaves(g, inl, args, HoistAssign(inlined, bs, inner).value, c);
    case Call(forms, tail) => HoistCallLeaves(g, inl, args, forms, tail, c);
    case _ =>
  }

  lemma {:induction false} AssignSettled(g: Ground, inl: bool, args: SExp, e: BodyForm)
    requires e.Let? && e.kind == Assign && Settled(g, inl, args, e) && HoistAssign(e.inlined, e.bindings, e.inner).Some?
    ensures Settled(g, inl, args, HoistAssign(e.inlined, e.bindings, e.inner).value)
  {
    var Let(_, inlined, bs, inner) := e;
    HoistedAssignIsLighter(inlined, bs, inner);
    HoistedParts(g.strict, inlined, bs, inner);
    HoistedFree(g.strict, inlined, bs, inner);
    StagesInRange(bs);
    SomeStage(bs);
    NestUsable(g, false, inl, inlined, bs, Stages(SortBindings(bs).value, {}, {}, []), inner);
  }

  lemma {:induction false} HoistLetLeaves(g: Ground, inl: bool, args: SExp, e: BodyForm, c: nat)
    requires e.Let? && e.kind == Parallel && Suits(g, inl, args) && Settled(g, inl, args, e) && g.count <= c
    requires HoistBody(if inl then Some(args) else None, args, e, c).Some?
    ensures var h := HoistBody(if inl then Some(args) else None, args, e, c).value; Left(g, inl, args, h.body) && AllSettled(g, h.helpers) && c <= h.next
    decreases Weight(e), 0
  {
    var outer := if inl then Some(args) else None;
    var Let(_, inlined, bs, inner) := e;
    var name := Gensym(LETBINDING_NAME, c);
    HoistBindingsLeave(g, inl, args, bs, c + 1);
    var h := HoistBindings(outer, args, bs, c + 1).value;
    var f := LetDefun(name, inlined, args, bs, inner);
    LetDefunSettled(g, inl, args, e, name);
    OneSettled(g, f);
    AllSettledBoth(g, h.helpers, [f]);
    LetCallLeft(g, inl, args, c, h.body);
  }

  lemma {:induction false} LetCallLeft(g: Ground, inl: bool, args: SExp, c: nat, bodies: seq<BodyForm>)
    requires Suits(g, inl, args) && FormsLeft(g, inl, args, bodies) && g.count <= c
    ensures Left(g, inl, args, Call([Var(Gensym(LETBINDING_NAME, c)), PassEnv(if inl then Some(args) else None)] + bodies, None))
  {
    var name, env := Gensym(LETBINDING_NAME, c), PassEnv(if inl then Some(args) else None);
    PassEnvLeft(g, inl, args);
    InventedIsLater(LETBINDING_NAME, c, g.count);
    var forms := [env] + bodies;
    assert forms[1..] == bodies && [Var(name)] + forms == [Var(name), env] + bodies;
    assert FormsFree(g.strict, forms) == Free(g.strict, env) + FormsFree(g.strict, bodies);
    CallLeft(g, inl, args, Var(name), forms, None);
  }

  lemma {:induction false} HoistBindingsLeave(g: Ground, inl: bool, args: SExp, bs: seq<Binding>, c: nat)
    requires Suits(g, inl, args) && g.count <= c && BindingsUsable(g, false, inl, bs) && BindingsUnfolded(bs) && BindingsBinders(bs) <= g.binders
    requires Within(g, args, BindingsFree(g.strict, bs)) && BindingsScoped(g.count, args, bs)
    requires HoistBindings(if inl then Some(args) else None, args, bs, c).Some?
    ensures var h := HoistBindings(if inl then Some(args) else None, args, bs, c).value;
            FormsLeft(g, inl, args, h.body) && AllSettled(g, h.helpers) && c <= h.next
    decreases BindingsWeight(bs, 1), 2
  {
    if bs != [] {
      BindingParts(bs, 1);
      var outer := if inl then Some(args) else None;
      assert BodyUnfolded(bs[0]) && BodyBinders(bs[0]) == Binders(bs[0].body);
      HoistLeaves(g, inl, args, bs[0].body, c);
      var f := HoistBody(outer, args, bs[0].body, c).value;
      HoistBindingsLeave(g, inl, args, bs[1..], f.next);
      var h := HoistBindings(outer, args, bs[1..], f.next).value;
      AllSettledBoth(g, f.helpers, h.helpers);
      assert ([f.body] + h.body)[1..] == h.body;
    }
  }

  lemma {:induction false} HoistCallLeaves(g: Ground, inl: bool, args: SExp, forms: seq<BodyForm>, tail: Option<BodyForm>, c: nat)
    requires Suits(g, inl, args) && Settled(g, inl, args, Call(forms, tail)) && g.count <= c
    requires HoistBody(if inl then Some(args) else None, args, Call(forms, tail), c).Some?
    ensures var h := HoistBody(if inl then Some(args) else None, args, Call(forms, tail), c).value;
            Left(g, inl, args, h.body) && AllSettled(g, h.helpers) && c <= h.next
    decreases Weight(Call(forms, tail)), 0
  {
    var e, outer := Call(forms, tail), if inl then Some(args) else None;
    WeightParts(e);
    assert FormsBinders(forms) == Binders(forms[0]) + FormsBinders(forms[1..]);
    assert FormsUnfolded(forms);
    HoistFormsLeave(g, inl, args, forms[1..], c);
    var f := HoistForms(outer, args, forms[1..], c).value;
    if tail.Some? {
      HoistLeaves(g, inl, args, tail.value, f.next);
    }
    var t := HoistTail(outer, args, tail, f.next).value;
    AllSettledBoth(g, f.helpers, t.helpers);
    CallLeft(g, inl, args, forms[0], f.body, t.body);
  }

  lemma {:induction false} HoistFormsLeave(g: Ground, inl: bool, args: SExp, forms: seq<BodyForm>, c: nat)
    requires Suits(g, inl, args) && g.count <= c && FormsUsable(g, false, inl, forms) && FormsUnfolded(forms) && FormsBinders(forms) <= g.binders
    requires Within(g, args, FormsFree(g.strict, forms)) && FormsScoped(g.count, args, forms)
    requires HoistForms(if inl then Some(args) else None, args, forms, c).Some?
    ensures var h := HoistForms(if inl then Some(args) else None, args, forms, c).value;
            FormsLeft(g, inl, args, h.body) && AllSettled(g, h.helpers) && c <= h.next
    decreases FormsWeight(forms), 2
  {
    if forms != [] {
      var outer := if inl then Some(args) else None;
      HoistLeaves(g, inl, args, forms[0], c);
      var f := HoistBody(outer, args, forms[0], c).value;
      HoistFormsLeave(g, inl, args, forms[1..], f.next);
      var h := HoistForms(outer, args, forms[1..], f.next).value;
      AllSettledBoth(g, f.helpers, h.helpers);
      assert ([f.body] + h.body)[1..] == h.body;
    }
  }

  // ---- The worklist -----------------------------------------------------------------------------

  /** A finished function. */
  ghost predicate FunctionLeft(g: Ground, f: Defun) { Suits(g, f.inline, f.args) && Left(g, f.inline, f.args, f.body) }

  ghost predicate AllLeft(g: Ground, fs: seq<Defun>) { fs == [] || (FunctionLeft(g, fs[0]) && AllLeft(g, fs[1..])) }

  lemma {:induction false} ProcessLeaves(g: Ground, todo: seq<Defun>, c: nat)
    requires AllSettled(g, todo) && g.count <= c && ProcessHelpers(todo, c).Some?
    ensures AllLeft(g, ProcessHelpers(todo, c).value.defuns)
    decreases HelpersCount(todo)
  {
    if todo != [] {
      var f := todo[0];
      HoistLeaves(g, f.inline, f.args, f.body, c);
      var h := HoistDefun(f, c).value;
      HoistShrinks(Context(f), f.args, f.body, c);
      HelpersCountBoth(h.helpers, todo[1..]);
      AllSettledBoth(g, h.helpers, todo[1..]);
      ProcessLeaves(g, h.helpers + todo[1..], h.next);
      var p := ProcessHelpers(h.helpers + todo[1..], h.next).value;
      assert ([f.(body := h.body)] + p.defuns)[1..] == p.defuns;
    }
  }
}
