/** Code generation ends, whatever inline functions do to the size of the program. */
module CodegenEnds {
  import opened Numbers
  import opened SExpressions
  import opened Machine
  import opened Syntax
  import opened Semantics
  import opened ClvmPrograms
  import opened Heads
  import opened Inlining
  import opened Expansions
  import opened CodeGeneration

  // ---- Which expressions code generation is trusted on ----------------------------------------

  /** An operator's code reaches the machine as the operator's own number: no primitive is named by
      the bytes of that number. */
  predicate PlainPrim(m: Config, p: SExp) {
    match p
    case Integer(i) => PlainOp(m, i)
    case Atom(t) => t !in m.prims && PlainOp(m, NumberFromU8(t))
    case QuotedString(_, t) => t !in m.prims && PlainOp(m, NumberFromU8(t))
    case _ => false
  }

  predicate IsInline(defuns: seq<Defun>, head: BodyForm) {
    CallName(head).Some? && FindDefun(defuns, CallName(head).value).Some?
    && FindDefun(defuns, CallName(head).value).value.inline
  }

  predicate HeadPlain(w: World, head: BodyForm) {
    CallName(head).Some? && FindDefun(w.defuns, CallName(head).value) == None
    && Primitive(w.prims, CallName(head).value).Some?
    ==> PlainPrim(w.machine, Primitive(w.prims, CallName(head).value).value)
  }

  /** What is asked of expressions: for compiling, plain operators and no lets; for generation to end,
      nothing but how inline calls nest. */
  datatype Rule = Nesting(known: seq<Defun>) | Compiling(world: World) {
    function Defuns(): seq<Defun> { if Nesting? then known else world.defuns }
    predicate Ok(head: BodyForm) { Compiling? ==> HeadPlain(world, head) }
  }

  /** Heads are as asked, and inline calls nest at most `d` deep. */
  predicate Obeys(r: Rule, d: nat, e: BodyForm) {
    match e
    case Let(kind, _, _, inner) => r.Nesting? && (kind == Parallel ==> Obeys(r, d, inner))
    case Call(forms, tail) =>
      forms != [] ==>
        r.Ok(forms[0])
        && (if IsInline(r.Defuns(), forms[0]) then d > 0 && AllObey(r, d - 1, forms[1..])
            else AllObey(r, d, forms[1..]) && (tail.Some? ==> Obeys(r, d, tail.value)))
    case _ => true
  }

  predicate AllObey(r: Rule, d: nat, forms: seq<BodyForm>) {
    forms == [] || (Obeys(r, d, forms[0]) && AllObey(r, d, forms[1..]))
  }

  /** The same for the body of an inline function, where expansion itself takes care of inline calls
      unless a number is used to name one; the body of a let is never expanded. */
  predicate BodyObeys(r: Rule, e: BodyForm) {
    match e
    case Let(_, _, _, _) => r.Nesting?
    case Lambda(_, _, captures, _) => BodyObeys(r, captures)
    case Call(forms, tail) =>
      forms != [] ==>
        r.Ok(forms[0]) && (IsInline(r.Defuns(), forms[0]) ==> !forms[0].value.Integer?)
        && AllBodiesObey(r, forms[1..]) && (tail.Some? ==> BodyObeys(r, tail.value))
    case _ => true
  }

  predicate AllBodiesObey(r: Rule, forms: seq<BodyForm>) {
    forms == [] || (BodyObeys(r, forms[0]) && AllBodiesObey(r, forms[1..]))
  }

  predicate InlinesObey(r: Rule, defuns: seq<Defun>) {
    defuns == [] || ((defuns[0].inline ==> BodyObeys(r, defuns[0].body)) && InlinesObey(r, defuns[1..]))
  }

  predicate GlueHead(r: Rule, head: BodyForm) { r.Ok(head) && !IsInline(r.Defuns(), head) }

  /** What expansion writes into its result obeys as well. */
  predicate GlueObeys(r: Rule) { GlueHeads(r, [Var(FIRST_NAME), Var(REST_NAME), Var([4]), FOUR, Var(AT)]) }

  predicate GlueHeads(r: Rule, heads: seq<BodyForm>) { heads == [] || (GlueHead(r, heads[0]) && GlueHeads(r, heads[1..])) }

  lemma {:induction false} EachGlueHead(r: Rule)
    ensures GlueObeys(r) <==> GlueHead(r, Var(FIRST_NAME)) && GlueHead(r, Var(REST_NAME)) && GlueHead(r, Var([4])) && GlueHead(r, FOUR)
                              && GlueHead(r, Var(AT))
  {
    var a, b, c, d, e := Var(FIRST_NAME), Var(REST_NAME), Var([4]), FOUR, Var(AT);
    assert [a, b, c, d, e][1..] == [b, c, d, e] && [b, c, d, e][1..] == [c, d, e] && [c, d, e][1..] == [d, e] && [d, e][1..] == [e] && [e][1..] == [];
    assert GlueHeads(r, [e]) == GlueHead(r, e);
    assert GlueHeads(r, [d, e]) == (GlueHead(r, d) && GlueHead(r, e));
    assert GlueHeads(r, [c, d, e]) == (GlueHead(r, c) && GlueHeads(r, [d, e]));
    assert GlueHeads(r, [b, c, d, e]) == (GlueHead(r, b) && GlueHeads(r, [c, d, e]));
  }

  /** No lets are left and operators are plain. */
  predicate PlainTo(w: World, d: nat, e: BodyForm) { Obeys(Compiling(w), d, e) }

  predicate AllPlainTo(w: World, d: nat, forms: seq<BodyForm>) { AllObey(Compiling(w), d, forms) }

  predicate PlainBody(w: World, e: BodyForm) { BodyObeys(Compiling(w), e) }

  predicate InlinesPlain(w: World, defuns: seq<Defun>) { InlinesObey(Compiling(w), defuns) }

  predicate GluePlain(w: World) { GlueObeys(Compiling(w)) }

  /** Inline calls nest at most `d` deep. */
  predicate Nests(defuns: seq<Defun>, d: nat, e: BodyForm) { Obeys(Nesting(defuns), d, e) }

  /** None of the names that expansion writes is an inline function. */
  predicate GlueIsNotInline(defuns: seq<Defun>) {
    !IsInline(defuns, Var(FIRST_NAME)) && !IsInline(defuns, Var(REST_NAME)) && !IsInline(defuns, Var([4])) && !IsInline(defuns, Var(AT))
  }

  // ---- Expansion keeps expressions obeying ----------------------------------------------------

  ghost function ObeysAt(r: Rule, d: nat): Property { e => Obeys(r, d, e) }

  /** What a rule asks of the heads in the bodies of inline functions. */
  ghost function HeadsOf(r: Rule): Property { head => r.Ok(head) && (IsInline(r.Defuns(), head) ==> !head.value.Integer?) }

  lemma {:induction false} OneArgObeys(r: Rule, d: nat, name: bytes, e: BodyForm)
    requires GlueHead(r, Var(name)) && Obeys(r, d, e)
    ensures Obeys(r, d, ApplyFn(name, e))
  {
    assert [Var(name), e][1..] == [e];
    assert AllObey(r, d, [e][1..]);
  }

  lemma {:induction false} TwoArgsObey(r: Rule, d: nat, head: BodyForm, a: BodyForm, b: BodyForm)
    requires GlueHead(r, head) && Obeys(r, d, a) && Obeys(r, d, b)
    ensures Obeys(r, d, Call([head, a, b], None))
  {
    assert [head, a, b][1..] == [a, b] && [a, b][1..] == [b];
    assert AllObey(r, d, [b][1..]);
    assert AllObey(r, d, [b]);
  }

  lemma {:induction false} EachObeys(r: Rule, d: nat, forms: seq<BodyForm>)
    ensures AllObey(r, d, forms) <==> All(ObeysAt(r, d), forms)
  {
    if forms != [] {
      EachObeys(r, d, forms[1..]);
      assert ObeysAt(r, d)(forms[0]) == Obeys(r, d, forms[0]);
      assert forall i :: 0 < i < |forms| ==> forms[i] == forms[1..][i - 1];
    }
  }

  lemma {:induction false} CallObeys(r: Rule, cg: Codegen, d: nat, head: BodyForm, args: seq<BodyForm>, tail: Option<BodyForm>)
    requires cg.defuns == r.Defuns()
    ensures OnCall(cg, ObeysAt(r, d), HeadsOf(r), head, args, tail)
  {
    assert ([head] + args)[1..] == args;
    EachObeys(r, d, args);
  }

  lemma {:induction false} ObeyingIsKept(r: Rule, cg: Codegen, d: nat)
    requires cg.defuns == r.Defuns() && GlueObeys(r)
    ensures Kept(cg, ObeysAt(r, d), HeadsOf(r))
  {
    var p := ObeysAt(r, d);
    EachGlueHead(r);
    forall e ensures OnOne(p, e) {
      if Obeys(r, d, e) {
        OneArgObeys(r, d, FIRST_NAME, e);
        OneArgObeys(r, d, REST_NAME, e);
      }
    }
    forall a, b ensures OnTwo(p, a, b) {
      if Obeys(r, d, a) && Obeys(r, d, b) {
        TwoArgsObey(r, d, FOUR, a, b);
        TwoArgsObey(r, d, Var([4]), a, b);
      }
    }
    forall head, args, tail ensures OnCall(cg, p, HeadsOf(r), head, args, tail) {
      CallObeys(r, cg, d, head, args, tail);
    }
    OneArgObeys(r, d, AT, Value(Integer(2)));
  }

  lemma {:induction false} BodyHeads(r: Rule, e: BodyForm)
    requires BodyObeys(r, e)
    ensures HeadsAre(HeadsOf(r), e)
    decreases Weight(e), 1
  {
    match e
    case Lambda(_, _, captures, _) => BodyHeads(r, captures);
    case Call(forms, tail) =>
      WeightParts(e);
      if forms != [] {
        FormsBodyHeads(r, forms[1..]);
        if tail.Some? {
          BodyHeads(r, tail.value);
        }
      }
    case _ =>
  }

  lemma {:induction false} FormsBodyHeads(r: Rule, forms: seq<BodyForm>)
    requires AllBodiesObey(r, forms)
    ensures FormsHeadsAre(HeadsOf(r), forms)
    decreases FormsWeight(forms), 2
  {
    if forms != [] {
      BodyHeads(r, forms[0]);
      FormsBodyHeads(r, forms[1..]);
    }
  }

  lemma {:induction false} InlinesHeads(r: Rule, defuns: seq<Defun>)
    requires InlinesObey(r, defuns)
    ensures InlinesHeadsAre(HeadsOf(r), defuns)
  {
    if defuns != [] {
      if defuns[0].inline {
        BodyHeads(r, defuns[0].body);
      }
      InlinesHeads(r, defuns[1..]);
    }
  }

  /** What a call expands to obeys where its arguments do. */
  lemma {:induction false} ExpandedObeys(r: Rule, cg: Codegen, d: nat, f: Defun, args: seq<BodyForm>)
    requires cg.defuns == r.Defuns() && GlueObeys(r) && InlinesHeadsAre(HeadsOf(r), cg.defuns) && f in cg.defuns && f.inline
    requires AllObey(r, d, args) && ExpandCall(cg, f, args).Some?
    ensures Obeys(r, d, ExpandCall(cg, f, args).value)
  {
    ObeyingIsKept(r, cg, d);
    EachObeys(r, d, args);
    ExpandingKeeps(cg, ObeysAt(r, d), HeadsOf(r), f, args);
  }

  // ---- Heads that are words -------------------------------------------------------------------

  /** The bodies of inline functions are headed by words, as the frontend makes them. */
  predicate InlinesInWords(defuns: seq<Defun>) { forall f :: f in defuns && f.inline ==> WordHeads(f.body) }

  lemma {:induction false} WordsAreFine(defuns: seq<Defun>, e: BodyForm)
    requires WordHeads(e)
    ensures HeadsAre(HeadsOf(Nesting(defuns)), e)
    decreases Weight(e), 1
  {
    match e
    case Lambda(_, _, captures, _) => WordsAreFine(defuns, captures);
    case Call(forms, tail) =>
      WeightParts(e);
      FormsWordsAreFine(defuns, forms[1..]);
      if tail.Some? {
        WordsAreFine(defuns, tail.value);
      }
    case _ =>
  }

  lemma {:induction false} FormsWordsAreFine(defuns: seq<Defun>, forms: seq<BodyForm>)
    requires FormsInWords(forms)
    ensures FormsHeadsAre(HeadsOf(Nesting(defuns)), forms)
    decreases FormsWeight(forms), 2
  {
    if forms != [] {
      WordsAreFine(defuns, forms[0]);
      FormsWordsAreFine(defuns, forms[1..]);
    }
  }

  // ---- Code generation ends -------------------------------------------------------------------

  /** An inline call that obeys turns into something that obeys a level further down, or into an error. */
  lemma {:induction false} InlineCallObeys(r: Rule, cg: Codegen, d: nat, f: Defun, forms: seq<BodyForm>, tail: Option<BodyForm>)
    requires cg.defuns == r.Defuns() && GlueObeys(r) && InlinesHeadsAre(HeadsOf(r), cg.defuns) && Obeys(r, d, Call(forms, tail))
    requires forms != [] && CallName(forms[0]).Some? && FindDefun(cg.defuns, CallName(forms[0]).value) == Some(f) && f.inline
    ensures d > 0 && (ExpandCall(cg, f, forms[1..]).Some? ==> Obeys(r, d - 1, ExpandCall(cg, f, forms[1..]).value))
  {
    assert IsInline(r.Defuns(), forms[0]);
    if ExpandCall(cg, f, forms[1..]).Some? {
      ExpandedObeys(r, cg, d - 1, f, forms[1..]);
    }
  }

  lemma {:induction false} ObeyingEnds(r: Rule, cg: Codegen, d: nat, e: BodyForm)
    requires cg.defuns == r.Defuns() && GlueObeys(r) && InlinesHeadsAre(HeadsOf(r), cg.defuns) && Obeys(r, d, e)
    ensures !GenExpr(cg, d, e).Timeout?
    decreases d, Weight(e), 1
  {
    match e
    case Let(kind, _, _, inner) => if kind == Parallel { ObeyingEnds(r, cg, d, inner); }
    case Call(forms, tail) => if forms != [] && CallName(forms[0]).Some? { ObeyingCallEnds(r, cg, d, forms, tail); }
    case _ =>
  }

  /** When generating a call's code goes on beyond `k` nested expansions. */
  predicate CallGoesOn(cg: Codegen, k: nat, how: Callable, args: seq<BodyForm>, tail: Option<BodyForm>) {
    match how
    case CallInline(f) => tail == None && ExpandCall(cg, f, args).Some? && (k == 0 || GenExpr(cg, k - 1, ExpandCall(cg, f, args).value).Timeout?)
    case CallDefun(_) => GenArgs(cg, k, args, tail, true).Timeout?
    case CallPrim(_) => GenArgs(cg, k, args, None, false).Timeout?
    case EnvPath => false
  }

  /** When there is code for it. */
  predicate CallSucceeds(cg: Codegen, k: nat, how: Callable, args: seq<BodyForm>, tail: Option<BodyForm>) {
    match how
    case CallInline(f) => tail == None && ExpandCall(cg, f, args).Some? && k > 0 && GenExpr(cg, k - 1, ExpandCall(cg, f, args).value).Success?
    case CallDefun(_) => GenArgs(cg, k, args, tail, true).Success?
    case CallPrim(_) => GenArgs(cg, k, args, None, false).Success?
    case EnvPath => |args| == 1 && PathLiteral(args[0]).Some?
  }

  lemma {:induction false} CallOutcome(cg: Codegen, k: nat, forms: seq<BodyForm>, tail: Option<BodyForm>)
    requires forms != [] && CallName(forms[0]).Some?
    ensures var how, r := GetCallable(cg, CallName(forms[0]).value), GenExpr(cg, k, Call(forms, tail));
            (r.Timeout? <==> how.Some? && CallGoesOn(cg, k, how.value, forms[1..], tail))
            && (r.Success? <==> how.Some? && CallSucceeds(cg, k, how.value, forms[1..], tail))
  {
  }

  lemma {:induction false} OtherCallObeys(r: Rule, d: nat, forms: seq<BodyForm>, tail: Option<BodyForm>)
    requires forms != [] && Obeys(r, d, Call(forms, tail)) && !IsInline(r.Defuns(), forms[0])
    ensures AllObey(r, d, forms[1..]) && (tail.Some? ==> Obeys(r, d, tail.value))
  {
  }

  lemma {:induction false} ObeyingCallEnds(r: Rule, cg: Codegen, d: nat, forms: seq<BodyForm>, tail: Option<BodyForm>)
    requires cg.defuns == r.Defuns() && GlueObeys(r) && InlinesHeadsAre(HeadsOf(r), cg.defuns) && Obeys(r, d, Call(forms, tail))
    requires forms != [] && CallName(forms[0]).Some?
    ensures !GenExpr(cg, d, Call(forms, tail)).Timeout?
    decreases d, Weight(Call(forms, tail)), 0
  {
    WeightParts(Call(forms, tail));
    var how := GetCallable(cg, CallName(forms[0]).value);
    if how.Some? && how.value.CallInline? {
      var f := how.value.inlined;
      InlineCallObeys(r, cg, d, f, forms, tail);
      if ExpandCall(cg, f, forms[1..]).Some? {
        ObeyingEnds(r, cg, d - 1, ExpandCall(cg, f, forms[1..]).value);
      }
      InlineCallEnds(cg, d, f, forms, tail);
    } else {
      OtherCallObeys(r, d, forms, tail);
      ObeyingArgsEnd(r, cg, d, forms[1..], tail, true);
      ObeyingArgsEnd(r, cg, d, forms[1..], None, false);
      OtherCallEnds(cg, d, forms, tail);
    }
  }

  lemma {:induction false} InlineCallEnds(cg: Codegen, d: nat, f: Defun, forms: seq<BodyForm>, tail: Option<BodyForm>)
    requires forms != [] && CallName(forms[0]).Some? && GetCallable(cg, CallName(forms[0]).value) == Some(CallInline(f)) && d > 0
    requires ExpandCall(cg, f, forms[1..]).Some? ==> !GenExpr(cg, d - 1, ExpandCall(cg, f, forms[1..]).value).Timeout?
    ensures !GenExpr(cg, d, Call(forms, tail)).Timeout?
  {
    CallOutcome(cg, d, forms, tail);
  }

  lemma {:induction false} OtherCallEnds(cg: Codegen, d: nat, forms: seq<BodyForm>, tail: Option<BodyForm>)
    requires forms != [] && CallName(forms[0]).Some? && !IsInline(cg.defuns, forms[0])
    requires !GenArgs(cg, d, forms[1..], tail, true).Timeout? && !GenArgs(cg, d, forms[1..], None, false).Timeout?
    ensures !GenExpr(cg, d, Call(forms, tail)).Timeout?
  {
    CallOutcome(cg, d, forms, tail);
  }

  lemma {:induction false} ObeyingArgsEnd(r: Rule, cg: Codegen, d: nat, args: seq<BodyForm>, tail: Option<BodyForm>, withPrimcons: bool)
    requires cg.defuns == r.Defuns() && GlueObeys(r) && InlinesHeadsAre(HeadsOf(r), cg.defuns) && AllObey(r, d, args)
    requires tail.Some? ==> Obeys(r, d, tail.value)
    ensures !GenArgs(cg, d, args, tail, withPrimcons).Timeout?
    decreases d, FormsWeight(args) + TailWeight(tail), 2
  {
    if args == [] {
      if tail.Some? {
        ObeyingEnds(r, cg, d, tail.value);
      }
    } else {
      ObeyingArgsEnd(r, cg, d, args[1..], tail, withPrimcons);
      ObeyingEnds(r, cg, d, args[0]);
    }
  }

  /** However long expansions get, code generation ends: when the names expansion writes are not
      themselves inline functions, an expression whose inline calls nest `d` deep needs no more than `d`
      nested expansions. */
  lemma {:induction false} GenerationEnds(cg: Codegen, d: nat, e: BodyForm)
    requires GlueIsNotInline(cg.defuns) && InlinesInWords(cg.defuns) && Nests(cg.defuns, d, e)
    ensures !GenExpr(cg, d, e).Timeout?
  {
    assert U8FromNumber(4) == [4];
    EachGlueHead(Nesting(cg.defuns));
    forall f | f in cg.defuns && f.inline ensures HeadsAre(HeadsOf(Nesting(cg.defuns)), f.body) {
      WordsAreFine(cg.defuns, f.body);
    }
    EachInline(HeadsOf(Nesting(cg.defuns)), cg.defuns);
    ObeyingEnds(Nesting(cg.defuns), cg, d, e);
  }

  // ---- How deep inline calls nest ---------------------------------------------------------------

  function Max(a: nat, b: nat): nat { if a < b then b else a }

  function Depth(defuns: seq<Defun>, e: BodyForm): nat {
    match e
    case Let(_, _, _, inner) => Depth(defuns, inner)
    case Call(forms, tail) =>
      if forms == [] then 0
      else if IsInline(defuns, forms[0]) then 1 + FormsDepth(defuns, forms[1..])
      else Max(FormsDepth(defuns, forms[1..]), match tail case None => 0 case Some(t) => Depth(defuns, t))
    case _ => 0
  }

  function FormsDepth(defuns: seq<Defun>, forms: seq<BodyForm>): nat {
    if forms == [] then 0 else Max(Depth(defuns, forms[0]), FormsDepth(defuns, forms[1..]))
  }

  /** Heads are as asked everywhere, however deep inline calls nest. */
  predicate AllOk(r: Rule, e: BodyForm) {
    match e
    case Let(kind, _, _, inner) => r.Nesting? && (kind == Parallel ==> AllOk(r, inner))
    case Call(forms, tail) => forms != [] ==> r.Ok(forms[0]) && FormsOk(r, forms[1..]) && (tail.Some? ==> AllOk(r, tail.value))
    case _ => true
  }

  predicate FormsOk(r: Rule, forms: seq<BodyForm>) { forms == [] || (AllOk(r, forms[0]) && FormsOk(r, forms[1..])) }

  lemma {:induction false} ObeysAtDepth(r: Rule, d: nat, e: BodyForm)
    requires AllOk(r, e) && Depth(r.Defuns(), e) <= d
    ensures Obeys(r, d, e)
    decreases Weight(e), 1
  {
    match e
    case Let(kind, _, _, inner) => if kind == Parallel { ObeysAtDepth(r, d, inner); }
    case Call(forms, tail) =>
      WeightParts(e);
      if forms != [] {
        FormsObeyAtDepth(r, if IsInline(r.Defuns(), forms[0]) then d - 1 else d, forms[1..]);
        if tail.Some? && !IsInline(r.Defuns(), forms[0]) {
          ObeysAtDepth(r, d, tail.value);
        }
      }
    case _ =>
  }

  lemma {:induction false} FormsObeyAtDepth(r: Rule, d: nat, forms: seq<BodyForm>)
    requires FormsOk(r, forms) && FormsDepth(r.Defuns(), forms) <= d
    ensures AllObey(r, d, forms)
    decreases FormsWeight(forms), 2
  {
    if forms != [] {
      ObeysAtDepth(r, d, forms[0]);
      FormsObeyAtDepth(r, d, forms[1..]);
    }
  }

  lemma {:induction false} NothingAsked(defuns: seq<Defun>, e: BodyForm)
    ensures AllOk(Nesting(defuns), e)
    decreases Weight(e), 1
  {
    match e
    case Let(_, _, _, inner) => NothingAsked(defuns, inner);
    case Call(forms, tail) =>
      WeightParts(e);
      if forms != [] {
        NothingAskedOfForms(defuns, forms[1..]);
        if tail.Some? {
          NothingAsked(defuns, tail.value);
        }
      }
    case _ =>
  }

  lemma {:induction false} NothingAskedOfForms(defuns: seq<Defun>, forms: seq<BodyForm>)
    ensures FormsOk(Nesting(defuns), forms)
    decreases FormsWeight(forms), 2
  {
    if forms != [] {
      NothingAsked(defuns, forms[0]);
      NothingAskedOfForms(defuns, forms[1..]);
    }
  }

  /** For every expression some number of nested expansions is enough, and any larger one is. */
  lemma {:induction false} GenerationAlwaysEnds(cg: Codegen, e: BodyForm)
    requires GlueIsNotInline(cg.defuns) && InlinesInWords(cg.defuns)
    ensures forall k :: k >= Depth(cg.defuns, e) ==> !GenExpr(cg, k, e).Timeout?
  {
    forall k | k >= Depth(cg.defuns, e) ensures !GenExpr(cg, k, e).Timeout? {
      NothingAsked(cg.defuns, e);
      ObeysAtDepth(Nesting(cg.defuns), k, e);
      GenerationEnds(cg, k, e);
    }
  }

  /** Allowing more nesting never changes code once there is some. */
  lemma {:induction false} GenMono(cg: Codegen, k: nat, k': nat, e: BodyForm)
    requires k <= k' && !GenExpr(cg, k, e).Timeout?
    ensures GenExpr(cg, k', e) == GenExpr(cg, k, e)
    decreases k, Weight(e), 1
  {
    if e.Let? {
      if e.kind == Parallel {
        GenMono(cg, k, k', e.inner);
      }
    } else if e.Call? && e.forms != [] && CallName(e.forms[0]).Some? {
      WeightParts(e);
      var callable := GetCallable(cg, CallName(e.forms[0]).value);
      if callable.Some? {
        if callable.value.CallInline? {
          var x := ExpandCall(cg, callable.value.inlined, e.forms[1..]);
          if e.tail == None && x.Some? && k > 0 {
            GenMono(cg, k - 1, k' - 1, x.value);
          }
        } else if callable.value.CallDefun? {
          ArgsGenMono(cg, k, k', e.forms[1..], e.tail, true);
        } else if callable.value.CallPrim? {
          ArgsGenMono(cg, k, k', e.forms[1..], None, false);
        }
      }
    }
  }

  lemma {:induction false} ArgsGenMono(cg: Codegen, k: nat, k': nat, args: seq<BodyForm>, tail: Option<BodyForm>,
                                       withPrimcons: bool)
    requires k <= k' && !GenArgs(cg, k, args, tail, withPrimcons).Timeout?
    ensures GenArgs(cg, k', args, tail, withPrimcons) == GenArgs(cg, k, args, tail, withPrimcons)
    decreases k, FormsWeight(args) + TailWeight(tail), 2
  {
    if args == [] {
      if tail.Some? {
        GenMono(cg, k, k', tail.value);
      }
    } else {
      ArgsGenMono(cg, k, k', args[1..], tail, withPrimcons);
      if GenArgs(cg, k, args[1..], tail, withPrimcons).Success? {
        GenMono(cg, k, k', args[0]);
      }
    }
  }

  /** Without the condition on names it need not end: (defun-inline f ((x . y)) x) makes the call (f e)
      expand to itself. */
  lemma {:induction false} GenerationMayNotEnd(k: nat, env: SExp, e: BodyForm)
    ensures var x: bytes, y: bytes := [120], [121];
            var f := Defun(FIRST_NAME, true, Cons(Cons(Atom(x), Atom(y)), Nil), Var(x));
            GenExpr(Codegen(env, [f], map[], true), k, ApplyFn(FIRST_NAME, e)) == Timeout
  {
    var x: bytes, y: bytes := [120], [121];
    var f := Defun(FIRST_NAME, true, Cons(Cons(Atom(x), Atom(y)), Nil), Var(x));
    var cg := Codegen(env, [f], map[], true);
    assert [Var(FIRST_NAME), e][1..] == [e];
    var pattern := Cons(Atom(x), Atom(y));
    assert PickValue(pattern.first, ApplyFn(FIRST_NAME, e), x) == Some(ApplyFn(FIRST_NAME, e));
    assert PickValue(pattern, e, x) == Some(ApplyFn(FIRST_NAME, e));
    assert ArgLookup(f.args, [e], 0, x) == Replaced(ApplyFn(FIRST_NAME, e));
    assert ExpandCall(cg, f, [e]) == Some(ApplyFn(FIRST_NAME, e));
    if k > 0 {
      GenerationMayNotEnd(k - 1, env, e);
    }
  }
}
