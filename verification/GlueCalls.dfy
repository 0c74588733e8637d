/** Exactly when code generation ends for every expression: when it ends for the calls that expansion
    itself can write, with samples for arguments. */
module GlueCalls {
  import opened Numbers
  import opened SExpressions
  import opened Machine
  import opened Syntax
  import opened Semantics
  import opened Heads
  import opened Inlining
  import opened Expansions
  import opened CodeGeneration
  import opened CodegenEnds
  import opened Samples

  // ---- The calls expansion writes ----------------------------------------------------------------

  function TakeApart(name: bytes): (r: seq<BodyForm>) { [ApplyFn(name, FAILING), ApplyFn(name, PLAIN), ApplyFn(name, LITERAL)] }

  function PutTogether(a: BodyForm): (r: seq<BodyForm>) { [MakeCons(a, FAILING), MakeCons(a, PLAIN), MakeCons(a, LITERAL)] }

  const HERE: BodyForm := Call([Var(AT), Value(Integer(2))], None)

  /** All of them, with every choice of samples. */
  function Probes(): (r: seq<BodyForm>) {
    TakeApart(FIRST_NAME) + TakeApart(REST_NAME) + PutTogether(FAILING) + PutTogether(PLAIN) + PutTogether(LITERAL) + [HERE]
  }

  predicate IsProbe(p: BodyForm) {
    p == HERE
    || (p.Call? && p.tail == None && |p.forms| == 2 && (p.forms[0] == Var(FIRST_NAME) || p.forms[0] == Var(REST_NAME)) && IsSample(p.forms[1]))
    || (p.Call? && p.tail == None && |p.forms| == 3 && p.forms[0] == Var([4]) && IsSample(p.forms[1]) && IsSample(p.forms[2]))
  }

  lemma {:induction false} ProbesAreAll(p: BodyForm)
    requires IsProbe(p)
    ensures p in Probes()
  {
    if p != HERE {
      if |p.forms| == 2 {
        assert p == ApplyFn(p.forms[0].value.name, p.forms[1]);
        assert p in TakeApart(p.forms[0].value.name);
      } else {
        assert p == MakeCons(p.forms[1], p.forms[2]);
        assert p in PutTogether(p.forms[1]);
      }
    }
  }

  lemma {:induction false} ProbesAreProbes(p: BodyForm)
    requires p in Probes()
    ensures IsProbe(p)
  {
    forall name | name == FIRST_NAME || name == REST_NAME ensures forall q :: q in TakeApart(name) ==> IsProbe(q) {
      forall q | q in TakeApart(name) ensures IsProbe(q) {
        assert q == ApplyFn(name, FAILING) || q == ApplyFn(name, PLAIN) || q == ApplyFn(name, LITERAL);
      }
    }
    forall a, q | IsSample(a) && q in PutTogether(a) ensures IsProbe(q) {
      assert q == MakeCons(a, FAILING) || q == MakeCons(a, PLAIN) || q == MakeCons(a, LITERAL);
    }
  }

  ghost predicate ProbesEnd(cg: Codegen) { forall p :: IsProbe(p) ==> Ends(cg, p) }

  /** A number and the word its bytes spell are the same head. */
  lemma {:induction false} HeadByName(cg: Codegen, k: nat, a: BodyForm, b: BodyForm)
    ensures GenExpr(cg, k, Call([FOUR, a, b], None)) == GenExpr(cg, k, MakeCons(a, b))
  {
    assert U8FromNumber(4) == [4];
    assert [FOUR, a, b][1..] == [Var([4]), a, b][1..];
  }

  // ---- Where the probes end everything ends ------------------------------------------------------

  ghost function EndsIn(cg: Codegen): Property { e => Ends(cg, e) }

  const WORDS: Property := head => IsWord(head)

  lemma {:induction false} EndsLike(cg: Codegen, k: nat, s: BodyForm, e: BodyForm)
    requires Like(cg, k, None, s, e) && Ends(cg, s)
    ensures Ends(cg, e)
  {
    var j: nat :| EndsBy(cg, j, s);
    EndsWithoutSamples(cg, k, None, j, 0, s, e);
  }

  lemma {:induction false} TakingApartEnds(cg: Codegen, name: bytes, e: BodyForm)
    requires ProbesEnd(cg) && Ends(cg, e) && (name == FIRST_NAME || name == REST_NAME)
    ensures Ends(cg, ApplyFn(name, e))
  {
    var k: nat :| EndsBy(cg, k, e);
    var s := SampleOf(cg, k, e);
    SampleStands(cg, k, None, e);
    LikeOne(cg, k, None, name, s, e);
    EndsLike(cg, k, ApplyFn(name, s), ApplyFn(name, e));
  }

  lemma {:induction false} BothEnd(cg: Codegen, a: BodyForm, b: BodyForm) returns (k: nat)
    requires Ends(cg, a) && Ends(cg, b)
    ensures EndsBy(cg, k, a) && EndsBy(cg, k, b)
  {
    var i: nat :| EndsBy(cg, i, a);
    var j: nat :| EndsBy(cg, j, b);
    k := Max(i, j);
    EndsLater(cg, i, k, a);
    EndsLater(cg, j, k, b);
  }

  lemma {:induction false} PuttingTogetherEnds(cg: Codegen, a: BodyForm, b: BodyForm)
    requires ProbesEnd(cg) && Ends(cg, a) && Ends(cg, b)
    ensures Ends(cg, MakeCons(a, b)) && Ends(cg, Call([FOUR, a, b], None))
  {
    var k := BothEnd(cg, a, b);
    var s, t := SampleOf(cg, k, a), SampleOf(cg, k, b);
    SampleStands(cg, k, None, a);
    SampleStands(cg, k, None, b);
    LikeTwo(cg, k, None, Var([4]), s, t, a, b);
    EndsLike(cg, k, MakeCons(s, t), MakeCons(a, b));
    FourEnds(cg, a, b);
  }

  lemma {:induction false} FourEnds(cg: Codegen, a: BodyForm, b: BodyForm)
    requires Ends(cg, MakeCons(a, b))
    ensures Ends(cg, Call([FOUR, a, b], None))
  {
    var k: nat :| EndsBy(cg, k, MakeCons(a, b));
    HeadByName(cg, k, a, b);
    assert EndsBy(cg, k, Call([FOUR, a, b], None));
  }

  /** Arguments that end do so together. */
  lemma {:induction false} ArgsEnd(cg: Codegen, args: seq<BodyForm>, tail: Option<BodyForm>, withPrimcons: bool) returns (k: nat)
    requires All(EndsIn(cg), args) && (tail.Some? ==> Ends(cg, tail.value))
    ensures ArgsEndBy(cg, k, args, tail, withPrimcons)
  {
    if args == [] {
      k := 0;
      if tail.Some? {
        k :| EndsBy(cg, k, tail.value);
      }
    } else {
      assert EndsIn(cg)(args[0]);
      var i: nat :| EndsBy(cg, i, args[0]);
      var j := ArgsEnd(cg, args[1..], tail, withPrimcons);
      k := Max(i, j);
      EndsLater(cg, i, k, args[0]);
      ArgsGenMono(cg, j, k, args[1..], tail, withPrimcons);
    }
  }

  lemma {:induction false} PlainCallEnds(cg: Codegen, head: BodyForm, args: seq<BodyForm>, tail: Option<BodyForm>)
    requires All(EndsIn(cg), args) && (tail.Some? ==> Ends(cg, tail.value))
    requires CallName(head).Some? ==>
               GetCallable(cg, CallName(head).value).Some? ==> !GetCallable(cg, CallName(head).value).value.CallInline?
    ensures Ends(cg, Call([head] + args, tail))
  {
    var e := Call([head] + args, tail);
    assert ([head] + args)[1..] == args;
    var i := ArgsEnd(cg, args, tail, true);
    var j := ArgsEnd(cg, args, None, false);
    var k := Max(i, j);
    ArgsGenMono(cg, i, k, args, tail, true);
    ArgsGenMono(cg, j, k, args, None, false);
    if CallName(head).Some? {
      CallOutcome(cg, k, e.forms, tail);
    }
    assert EndsBy(cg, k, e);
  }

  lemma {:induction false} EndingIsKept(cg: Codegen)
    requires ProbesEnd(cg)
    ensures Kept(cg, EndsIn(cg), WORDS)
  {
    var p := EndsIn(cg);
    forall e ensures IsLeaf(e) ==> p(e) {
      if IsLeaf(e) {
        assert EndsBy(cg, 0, e);
      }
    }
    forall e ensures OnOne(p, e) {
      if Ends(cg, e) {
        TakingApartEnds(cg, FIRST_NAME, e);
        TakingApartEnds(cg, REST_NAME, e);
      }
    }
    forall a, b ensures OnTwo(p, a, b) {
      if Ends(cg, a) && Ends(cg, b) {
        PuttingTogetherEnds(cg, a, b);
      }
    }
    forall head, args, tail ensures OnCall(cg, p, WORDS, head, args, tail) {
      if IsWord(head) && GetInlineCallable(cg, head).Some? && !GetInlineCallable(cg, head).value.CallInline? && All(p, args)
         && (tail.Some? ==> Ends(cg, tail.value)) {
        PlainCallEnds(cg, head, args, tail);
      }
    }
    assert IsProbe(HERE);
    assert p(HERE);
  }

  lemma {:induction false} WordsAreWords(e: BodyForm)
    requires WordHeads(e)
    ensures HeadsAre(WORDS, e)
    decreases Weight(e), 1
  {
    match e
    case Lambda(_, _, captures, _) => WordsAreWords(captures);
    case Call(forms, tail) =>
      WeightParts(e);
      FormsWordsAreWords(forms[1..]);
      if tail.Some? {
        WordsAreWords(tail.value);
      }
    case _ =>
  }

  lemma {:induction false} FormsWordsAreWords(forms: seq<BodyForm>)
    requires FormsInWords(forms)
    ensures FormsHeadsAre(WORDS, forms)
    decreases FormsWeight(forms), 2
  {
    if forms != [] {
      WordsAreWords(forms[0]);
      FormsWordsAreWords(forms[1..]);
    }
  }

  lemma {:induction false} InlinesAreWords(defuns: seq<Defun>)
    requires InlinesInWords(defuns)
    ensures InlinesHeadsAre(WORDS, defuns)
  {
    forall f | f in defuns && f.inline ensures HeadsAre(WORDS, f.body) { WordsAreWords(f.body); }
    EachInline(WORDS, defuns);
  }

  /** Where the probes end, generation ends for every expression. */
  lemma {:induction false} EverythingEnds(cg: Codegen, e: BodyForm)
    requires InlinesInWords(cg.defuns) && ProbesEnd(cg)
    ensures Ends(cg, e)
    decreases Weight(e), 1
  {
    match e
    case Let(kind, _, _, inner) =>
      EverythingEnds(cg, inner);
      var k: nat :| EndsBy(cg, k, inner);
      assert EndsBy(cg, k, e);
    case Call(forms, tail) =>
      WeightParts(e);
      if forms == [] {
        assert EndsBy(cg, 0, e);
      } else {
        EachEnds(cg, forms[1..]);
        if tail.Some? {
          EverythingEnds(cg, tail.value);
        }
        CallEnds(cg, forms, tail);
      }
    case _ => assert EndsBy(cg, 0, e);
  }

  lemma {:induction false} EachEnds(cg: Codegen, forms: seq<BodyForm>)
    requires InlinesInWords(cg.defuns) && ProbesEnd(cg)
    ensures All(EndsIn(cg), forms)
    decreases FormsWeight(forms), 2
  {
    if forms != [] {
      EverythingEnds(cg, forms[0]);
      EachEnds(cg, forms[1..]);
      assert forall i :: 0 < i < |forms| ==> forms[i] == forms[1..][i - 1];
    }
  }

  lemma {:induction false} CallEnds(cg: Codegen, forms: seq<BodyForm>, tail: Option<BodyForm>)
    requires InlinesInWords(cg.defuns) && ProbesEnd(cg) && forms != [] && All(EndsIn(cg), forms[1..]) && (tail.Some? ==> Ends(cg, tail.value))
    ensures Ends(cg, Call(forms, tail))
  {
    assert [forms[0]] + forms[1..] == forms;
    var how := if CallName(forms[0]).Some? then GetCallable(cg, CallName(forms[0]).value) else None;
    if how.Some? && how.value.CallInline? {
      var x := ExpandCall(cg, how.value.inlined, forms[1..]);
      var k: nat := 0;
      if x.Some? {
        EndingIsKept(cg);
        InlinesAreWords(cg.defuns);
        ExpandingKeeps(cg, EndsIn(cg), WORDS, how.value.inlined, forms[1..]);
        assert EndsIn(cg)(x.value);
        k :| EndsBy(cg, k, x.value);
      }
      CallOutcome(cg, k + 1, forms, tail);
      assert EndsBy(cg, k + 1, Call(forms, tail));
    } else {
      PlainCallEnds(cg, forms[0], forms[1..], tail);
    }
  }

  // ---- What probes expand to ---------------------------------------------------------------------

  /** A call that expansion writes. */
  predicate IsGlue(e: BodyForm) {
    e == HERE
    || (e.Call? && e.tail == None && |e.forms| == 2 && (e.forms[0] == Var(FIRST_NAME) || e.forms[0] == Var(REST_NAME)))
    || (e.Call? && e.tail == None && |e.forms| == 3 && (e.forms[0] == FOUR || e.forms[0] == Var([4])))
  }

  /** An expression without lets in which only such calls are inline. */
  predicate Glued(cg: Codegen, e: BodyForm) {
    match e
    case Let(_, _, _, _) => false
    case Call(forms, tail) =>
      forms != [] ==> (IsInline(cg.defuns, forms[0]) ==> IsGlue(e)) && AllGlued(cg, forms[1..]) && (tail.Some? ==> Glued(cg, tail.value))
    case _ => true
  }

  predicate AllGlued(cg: Codegen, forms: seq<BodyForm>) { forms == [] || (Glued(cg, forms[0]) && AllGlued(cg, forms[1..])) }

  ghost function GluedIn(cg: Codegen): Property { e => Glued(cg, e) }

  lemma {:induction false} EachGlued(cg: Codegen, forms: seq<BodyForm>)
    ensures AllGlued(cg, forms) <==> All(GluedIn(cg), forms)
  {
    if forms != [] {
      EachGlued(cg, forms[1..]);
      assert GluedIn(cg)(forms[0]) == Glued(cg, forms[0]);
      assert forall i :: 0 < i < |forms| ==> forms[i] == forms[1..][i - 1];
    }
  }

  lemma {:induction false} GluedTwo(cg: Codegen, head: BodyForm, a: BodyForm, b: BodyForm)
    requires Glued(cg, a) && Glued(cg, b) && (head == FOUR || head == Var([4]))
    ensures Glued(cg, Call([head, a, b], None))
  {
    assert [head, a, b][1..] == [a, b] && [a, b][1..] == [b] && [b][1..] == [];
    assert AllGlued(cg, [b]);
  }

  lemma {:induction false} GluedOne(cg: Codegen, name: bytes, e: BodyForm)
    requires Glued(cg, e) && (name == FIRST_NAME || name == REST_NAME)
    ensures Glued(cg, ApplyFn(name, e))
  {
    assert [Var(name), e][1..] == [e] && [e][1..] == [];
  }

  lemma {:induction false} GluedIsKept(cg: Codegen)
    ensures Kept(cg, GluedIn(cg), WORDS)
  {
    var p := GluedIn(cg);
    forall e ensures OnOne(p, e) {
      if Glued(cg, e) {
        GluedOne(cg, FIRST_NAME, e);
        GluedOne(cg, REST_NAME, e);
      }
    }
    forall a, b ensures OnTwo(p, a, b) {
      if Glued(cg, a) && Glued(cg, b) {
        GluedTwo(cg, FOUR, a, b);
        GluedTwo(cg, Var([4]), a, b);
      }
    }
    forall head, args, tail ensures OnCall(cg, p, WORDS, head, args, tail) {
      assert ([head] + args)[1..] == args;
      EachGlued(cg, args);
    }
    assert HERE.forms[1..] == [Value(Integer(2))] && [Value(Integer(2))][1..] == [];
    assert Glued(cg, HERE);
  }

  lemma {:induction false} ProbesAreGlued(cg: Codegen, p: BodyForm)
    requires IsProbe(p)
    ensures p.Call? && p.forms != [] && p.tail == None && CallName(p.forms[0]).Some? && AllGlued(cg, p.forms[1..])
  {
    forall i | 0 <= i < |p.forms[1..]| ensures GluedIn(cg)(p.forms[1..][i]) {
      assert p.forms[1..][i] == p.forms[i + 1];
    }
    EachGlued(cg, p.forms[1..]);
  }

  // ---- How long such expressions take ------------------------------------------------------------

  /** Every probe that ends by `k` ends by `b`. */
  ghost predicate ProbesWithin(cg: Codegen, k: nat, b: nat) { forall p :: IsProbe(p) && EndsBy(cg, k, p) ==> EndsBy(cg, b, p) }

  lemma {:induction false} Scaled(a: nat, c: nat, b: nat)
    requires a <= c
    ensures a * b <= c * b
  {
  }

  /** What ends, ends within `b` expansions for each level of its inline calls. */
  lemma {:induction false} GluedEndsWithin(cg: Codegen, b: nat, k: nat, e: BodyForm)
    requires Glued(cg, e) && EndsBy(cg, k, e) && ProbesWithin(cg, k, b)
    ensures EndsBy(cg, Depth(cg.defuns, e) * b, e)
    decreases Weight(e), 1
  {
    if e.Call? && e.forms != [] && CallName(e.forms[0]).Some? {
      if IsInline(cg.defuns, e.forms[0]) {
        GlueEndsWithin(cg, b, k, e);
      } else {
        OtherEndsWithin(cg, b, k, e.forms, e.tail);
      }
    }
  }

  lemma {:induction false} OtherEndsWithin(cg: Codegen, b: nat, k: nat, forms: seq<BodyForm>, tail: Option<BodyForm>)
    requires forms != [] && CallName(forms[0]).Some? && !IsInline(cg.defuns, forms[0])
    requires Glued(cg, Call(forms, tail)) && EndsBy(cg, k, Call(forms, tail)) && ProbesWithin(cg, k, b)
    ensures EndsBy(cg, Depth(cg.defuns, Call(forms, tail)) * b, Call(forms, tail))
    decreases Weight(Call(forms, tail)), 0
  {
    WeightParts(Call(forms, tail));
    var d := Depth(cg.defuns, Call(forms, tail));
    CallOutcome(cg, k, forms, tail);
    CallOutcome(cg, d * b, forms, tail);
    match GetCallable(cg, CallName(forms[0]).value)
    case Some(CallDefun(_)) => ArgsEndWithin(cg, b, k, d, forms[1..], tail, true);
    case Some(CallPrim(_)) => ArgsEndWithin(cg, b, k, d, forms[1..], None, false);
    case _ =>
  }

  lemma {:induction false} ArgsEndWithin(cg: Codegen, b: nat, k: nat, d: nat, args: seq<BodyForm>, tail: Option<BodyForm>, withPrimcons: bool)
    requires AllGlued(cg, args) && (tail.Some? ==> Glued(cg, tail.value) && Depth(cg.defuns, tail.value) <= d)
    requires FormsDepth(cg.defuns, args) <= d && ArgsEndBy(cg, k, args, tail, withPrimcons) && ProbesWithin(cg, k, b)
    ensures ArgsEndBy(cg, d * b, args, tail, withPrimcons)
            && (GenArgs(cg, d * b, args, tail, withPrimcons).Success? <==> GenArgs(cg, k, args, tail, withPrimcons).Success?)
    decreases FormsWeight(args) + TailWeight(tail), 3
  {
    if args == [] {
      if tail.Some? {
        PartEndsWithin(cg, b, k, d, tail.value);
      }
    } else {
      ArgsEndWithin(cg, b, k, d, args[1..], tail, withPrimcons);
      if GenArgs(cg, k, args[1..], tail, withPrimcons).Success? {
        PartEndsWithin(cg, b, k, d, args[0]);
      }
    }
  }

  lemma {:induction false} PartEndsWithin(cg: Codegen, b: nat, k: nat, d: nat, e: BodyForm)
    requires Glued(cg, e) && EndsBy(cg, k, e) && ProbesWithin(cg, k, b) && Depth(cg.defuns, e) <= d
    ensures EndsBy(cg, d * b, e) && GenExpr(cg, d * b, e) == GenExpr(cg, k, e)
    decreases Weight(e), 2
  {
    GluedEndsWithin(cg, b, k, e);
    Scaled(Depth(cg.defuns, e), d, b);
    EndsLater(cg, Depth(cg.defuns, e) * b, d * b, e);
    EndsLater(cg, k, d * b, e);
  }

  /** An argument, and a sample for it. */
  lemma {:induction false} ArgumentStands(cg: Codegen, b: nat, k: nat, d: nat, e: BodyForm) returns (s: BodyForm)
    requires Glued(cg, e) && ProbesWithin(cg, k, b) && Depth(cg.defuns, e) <= d
    ensures IsSample(s) && Like(cg, d * b, Some(k), s, e)
    decreases Weight(e), 3
  {
    if EndsBy(cg, k, e) {
      PartEndsWithin(cg, b, k, d, e);
    }
    s := SampleOf(cg, d * b, e);
    SampleStands(cg, d * b, Some(k), e);
  }

  /** A call like a probe takes no longer than the probe and its arguments. */
  lemma {:induction false} ProbeWithArguments(cg: Codegen, b: nat, k: nat, d: nat, p: BodyForm, e: BodyForm)
    requires IsProbe(p) && Like(cg, d * b, Some(k), p, e) && EndsBy(cg, k, e) && ProbesWithin(cg, k, b)
    ensures EndsBy(cg, (1 + d) * b, e)
  {
    SamplesEndToo(cg, d * b, Some(k), k, p, e);
    EndsWithoutSamples(cg, d * b, Some(k), b, k, p, e);
    assert b + d * b == (1 + d) * b;
  }

  lemma {:induction false} OneArgument(cg: Codegen, e: BodyForm)
    ensures FormsDepth(cg.defuns, [e]) == Depth(cg.defuns, e) && (AllGlued(cg, [e]) <==> Glued(cg, e))
  {
    assert [e][1..] == [];
  }

  lemma {:induction false} TwoArguments(cg: Codegen, e: BodyForm, e': BodyForm)
    ensures FormsDepth(cg.defuns, [e, e']) == Max(Depth(cg.defuns, e), Depth(cg.defuns, e')) && (AllGlued(cg, [e, e']) <==> Glued(cg, e) && Glued(cg, e'))
  {
    assert [e, e'][1..] == [e'];
    OneArgument(cg, e');
  }

  lemma {:induction false} GlueEndsWithin(cg: Codegen, b: nat, k: nat, e: BodyForm)
    requires e.Call? && e.forms != [] && IsInline(cg.defuns, e.forms[0]) && Glued(cg, e) && EndsBy(cg, k, e) && ProbesWithin(cg, k, b)
    ensures EndsBy(cg, Depth(cg.defuns, e) * b, e)
    decreases Weight(e), 0
  {
    WeightParts(e);
    assert IsGlue(e) && AllGlued(cg, e.forms[1..]);
    var d := FormsDepth(cg.defuns, e.forms[1..]);
    assert Depth(cg.defuns, e) == 1 + d;
    if e == HERE {
      Scaled(1, 1 + d, b);
      EndsLater(cg, b, (1 + d) * b, e);
    } else if |e.forms| == 2 {
      assert e.forms[1..] == [e.forms[1]] && e == ApplyFn(e.forms[0].value.name, e.forms[1]);
      OneArgument(cg, e.forms[1]);
      OneEndsWithin(cg, b, k, d, e.forms[0].value.name, e.forms[1]);
    } else {
      assert e.forms[1..] == [e.forms[1], e.forms[2]] && e == Call([e.forms[0], e.forms[1], e.forms[2]], None);
      TwoArguments(cg, e.forms[1], e.forms[2]);
      TwoEndWithin(cg, b, k, d, e.forms[0], e.forms[1], e.forms[2]);
    }
  }

  lemma {:induction false} OneEndsWithin(cg: Codegen, b: nat, k: nat, d: nat, name: bytes, e: BodyForm)
    requires (name == FIRST_NAME || name == REST_NAME) && Glued(cg, e) && Depth(cg.defuns, e) <= d
    requires EndsBy(cg, k, ApplyFn(name, e)) && ProbesWithin(cg, k, b)
    ensures EndsBy(cg, (1 + d) * b, ApplyFn(name, e))
    decreases Weight(e), 4
  {
    var s := ArgumentStands(cg, b, k, d, e);
    LikeOne(cg, d * b, Some(k), name, s, e);
    ProbeWithArguments(cg, b, k, d, ApplyFn(name, s), ApplyFn(name, e));
  }

  lemma {:induction false} TwoEndWithin(cg: Codegen, b: nat, k: nat, d: nat, head: BodyForm, e: BodyForm, e': BodyForm)
    requires (head == FOUR || head == Var([4])) && Glued(cg, e) && Glued(cg, e') && Depth(cg.defuns, e) <= d && Depth(cg.defuns, e') <= d
    requires EndsBy(cg, k, Call([head, e, e'], None)) && ProbesWithin(cg, k, b)
    ensures EndsBy(cg, (1 + d) * b, Call([head, e, e'], None))
    decreases Weight(e) + Weight(e') + 1, 4
  {
    var s := ArgumentStands(cg, b, k, d, e);
    var s' := ArgumentStands(cg, b, k, d, e');
    LikeTwo(cg, d * b, Some(k), Var([4]), s, s', e, e');
    HeadByName(cg, k, e, e');
    HeadByName(cg, (1 + d) * b, e, e');
    ProbeWithArguments(cg, b, k, d, MakeCons(s, s'), MakeCons(e, e'));
  }

  // ---- How long probes take ----------------------------------------------------------------------

  /** How deep inline calls nest in what a call expands to. */
  function ExpansionDepth(cg: Codegen, p: BodyForm): nat {
    if !p.Call? || p.forms == [] || CallName(p.forms[0]) == None then 0
    else
      match GetCallable(cg, CallName(p.forms[0]).value)
      case Some(CallInline(f)) => (match ExpandCall(cg, f, p.forms[1..]) case Some(x) => Depth(cg.defuns, x) case None => 0)
      case _ => 0
  }

  function Deepest(cg: Codegen, ps: seq<BodyForm>): (d: nat)
    ensures forall p :: p in ps ==> ExpansionDepth(cg, p) <= d
  {
    if ps == [] then 0 else Max(ExpansionDepth(cg, ps[0]), Deepest(cg, ps[1..]))
  }

  /** How many of some expressions end by `k`. */
  function Ending(cg: Codegen, k: nat, ps: seq<BodyForm>): (n: nat)
    ensures n <= |ps|
  {
    if ps == [] then 0 else (if EndsBy(cg, k, ps[0]) then 1 else 0) + Ending(cg, k, ps[1..])
  }

  function Power(b: nat, n: nat): nat { if n == 0 then 1 else b * Power(b, n - 1) }

  /** The number of nested expansions after which a probe that has not ended never does. */
  function Limit(cg: Codegen): nat { Power(1 + Deepest(cg, Probes()), |Probes()|) }

  lemma {:induction false} PowerGrows(b: nat, n: nat, m: nat)
    requires n <= m && b > 0
    ensures 0 < Power(b, n) <= Power(b, m)
    decreases m
  {
    if n < m {
      PowerGrows(b, n, m - 1);
      assert Power(b, m - 1) <= b * Power(b, m - 1);
    } else if n > 0 {
      PowerGrows(b, n - 1, n - 1);
    }
  }

  lemma {:induction false} MoreEnd(cg: Codegen, k: nat, ps: seq<BodyForm>, p: BodyForm)
    ensures Ending(cg, k, ps) <= Ending(cg, k + 1, ps)
    ensures p in ps && EndsBy(cg, k + 1, p) && !EndsBy(cg, k, p) ==> Ending(cg, k, ps) < Ending(cg, k + 1, ps)
  {
    if ps != [] {
      MoreEnd(cg, k, ps[1..], p);
      if EndsBy(cg, k, ps[0]) {
        EndsLater(cg, k, k + 1, ps[0]);
      }
    }
  }

  /** A probe that does not end at once expands to something that ends one step sooner. */
  lemma {:induction false} ProbeExpands(cg: Codegen, k: nat, p: BodyForm) returns (x: BodyForm)
    requires InlinesInWords(cg.defuns) && IsProbe(p) && EndsBy(cg, k + 1, p) && !EndsBy(cg, k, p)
    ensures Glued(cg, x) && EndsBy(cg, k, x) && Depth(cg.defuns, x) == ExpansionDepth(cg, p)
    ensures forall n: nat :: EndsBy(cg, n, x) ==> EndsBy(cg, n + 1, p)
  {
    ProbesAreGlued(cg, p);
    CallOutcome(cg, k, p.forms, None);
    CallOutcome(cg, k + 1, p.forms, None);
    if !IsInline(cg.defuns, p.forms[0]) {
      ProbeArgsEnd(cg, k, p);
    }
    var how := GetCallable(cg, CallName(p.forms[0]).value);
    x := ExpandCall(cg, how.value.inlined, p.forms[1..]).value;
    EachGlued(cg, p.forms[1..]);
    GluedIsKept(cg);
    InlinesAreWords(cg.defuns);
    ExpandingKeeps(cg, GluedIn(cg), WORDS, how.value.inlined, p.forms[1..]);
    assert GluedIn(cg)(x);
    forall n: nat | EndsBy(cg, n, x) ensures EndsBy(cg, n + 1, p) { CallOutcome(cg, n + 1, p.forms, None); }
  }

  lemma {:induction false} ProbeEndsNext(cg: Codegen, k: nat, p: BodyForm, m: nat, b: nat)
    requires InlinesInWords(cg.defuns) && IsProbe(p) && EndsBy(cg, k + 1, p) && !EndsBy(cg, k, p) && ProbesWithin(cg, k, b) && b > 0
    requires ExpansionDepth(cg, p) <= m
    ensures EndsBy(cg, (1 + m) * b, p)
  {
    var x := ProbeExpands(cg, k, p);
    PartEndsWithin(cg, b, k, m, x);
    assert m * b + 1 <= (1 + m) * b;
    EndsLater(cg, m * b + 1, (1 + m) * b, p);
  }

  lemma {:induction false} SampleArgsEnd(cg: Codegen, k: nat, args: seq<BodyForm>, withPrimcons: bool)
    requires forall i :: 0 <= i < |args| ==> EndsBy(cg, k, args[i])
    ensures ArgsEndBy(cg, k, args, None, withPrimcons)
  {
    if args != [] {
      SampleArgsEnd(cg, k, args[1..], withPrimcons);
    }
  }

  /** A probe whose head is not inline ends at once. */
  lemma {:induction false} ProbeArgsEnd(cg: Codegen, k: nat, p: BodyForm)
    requires IsProbe(p) && !IsInline(cg.defuns, p.forms[0])
    ensures EndsBy(cg, k, p)
  {
    forall i | 0 <= i < |p.forms[1..]| ensures EndsBy(cg, k, p.forms[1..][i]) { assert p.forms[1..][i] == p.forms[i + 1]; }
    SampleArgsEnd(cg, k, p.forms[1..], true);
    SampleArgsEnd(cg, k, p.forms[1..], false);
    CallOutcome(cg, k, p.forms, None);
  }

  /** Among `ps` are all probes. */
  ghost predicate HasProbes(ps: seq<BodyForm>) { forall p :: IsProbe(p) ==> p in ps }

  /** A probe that ends at all ends within a power that counts the probes that end no later. */
  lemma {:induction false} ProbeEndsWithin(cg: Codegen, k: nat, ps: seq<BodyForm>, p: BodyForm)
    requires InlinesInWords(cg.defuns) && HasProbes(ps) && IsProbe(p) && EndsBy(cg, k, p)
    ensures EndsBy(cg, Power(1 + Deepest(cg, ps), Ending(cg, k, ps)), p)
    decreases k
  {
    var base := 1 + Deepest(cg, ps);
    if k == 0 {
      EndsLater(cg, 0, Power(base, Ending(cg, 0, ps)), p);
    } else {
      var before, now := Ending(cg, k - 1, ps), Ending(cg, k, ps);
      MoreEnd(cg, k - 1, ps, p);
      PowerGrows(base, before, now);
      if EndsBy(cg, k - 1, p) {
        ProbeEndsWithin(cg, k - 1, ps, p);
        EndsLater(cg, Power(base, before), Power(base, now), p);
      } else {
        forall q | IsProbe(q) && EndsBy(cg, k - 1, q) ensures EndsBy(cg, Power(base, before), q) { ProbeEndsWithin(cg, k - 1, ps, q); }
        ProbeEndsNext(cg, k - 1, p, base - 1, Power(base, before));
        PowerGrows(base, before + 1, now);
        EndsLater(cg, base * Power(base, before), Power(base, now), p);
      }
    }
  }

  /** Code generation ends for every expression exactly when it ends for the sixteen probes within a limit
      that is read off the inline functions' bodies. */
  lemma {:induction false} GenerationEndsExactly(cg: Codegen)
    requires InlinesInWords(cg.defuns)
    ensures (forall e :: Ends(cg, e)) <==> forall p :: p in Probes() ==> EndsBy(cg, Limit(cg), p)
  {
    if forall p :: p in Probes() ==> EndsBy(cg, Limit(cg), p) {
      forall p | IsProbe(p) ensures Ends(cg, p) {
        ProbesAreAll(p);
        assert EndsBy(cg, Limit(cg), p);
      }
      forall e ensures Ends(cg, e) { EverythingEnds(cg, e); }
    }
    if forall e :: Ends(cg, e) {
      forall p | p in Probes() ensures EndsBy(cg, Limit(cg), p) {
        ProbesAreProbes(p);
        ProbeEndsInLimit(cg, p);
      }
    }
  }

  lemma {:induction false} ProbeEndsInLimit(cg: Codegen, p: BodyForm)
    requires InlinesInWords(cg.defuns) && IsProbe(p) && Ends(cg, p)
    ensures EndsBy(cg, Limit(cg), p)
  {
    var k: nat :| EndsBy(cg, k, p);
    forall q | IsProbe(q) ensures q in Probes() { ProbesAreAll(q); }
    var ps := Probes();
    ProbeEndsWithin(cg, k, ps, p);
    var base, n := 1 + Deepest(cg, ps), Ending(cg, k, ps);
    PowerGrows(base, n, |ps|);
    EndsLater(cg, Power(base, n), Limit(cg), p);
  }

  // ---- Inline functions with names that expansion writes, and no harm done -------------------------

  /** Where only f is inline, among the names that expansion writes, its own probes decide. */
  lemma {:induction false} OnlyFirst(cg: Codegen, e: BodyForm)
    requires InlinesInWords(cg.defuns)
    requires !IsInline(cg.defuns, Var(REST_NAME)) && !IsInline(cg.defuns, Var([4])) && !IsInline(cg.defuns, Var(AT))
    requires forall s :: IsSample(s) ==> Ends(cg, ApplyFn(FIRST_NAME, s))
    ensures Ends(cg, e)
  {
    forall p | IsProbe(p) ensures Ends(cg, p) {
      if p.forms[0] == Var(FIRST_NAME) {
        assert p == ApplyFn(FIRST_NAME, p.forms[1]);
      } else {
        ProbeArgsEnd(cg, 0, p);
        assert EndsBy(cg, 0, p);
      }
    }
    EverythingEnds(cg, e);
  }

  /** (defun-inline f (x) x): nothing is taken apart. */
  lemma {:induction false} FlatFirstEnds(env: SExp, prims: map<bytes, SExp>, strict: bool, e: BodyForm)
    ensures var f := Defun(FIRST_NAME, true, Cons(Atom([120]), Nil), Var([120])); Ends(Codegen(env, [f], prims, strict), e)
  {
    var f := Defun(FIRST_NAME, true, Cons(Atom([120]), Nil), Var([120]));
    var cg := Codegen(env, [f], prims, strict);
    forall s | IsSample(s) ensures Ends(cg, ApplyFn(FIRST_NAME, s)) {
      assert PickValue(Atom([120]), s, [120]) == Some(s) && ArgLookup(f.args, [s], 0, [120]) == Replaced(s);
      assert ExpandCall(cg, f, [s]) == Some(s);
      ExpandsOnce(cg, f, s, s);
    }
    OnlyFirst(cg, e);
  }

  /** A call of f that expands to something that ends at once. */
  lemma {:induction false} ExpandsOnce(cg: Codegen, f: Defun, s: BodyForm, x: BodyForm)
    requires FindDefun(cg.defuns, FIRST_NAME) == Some(f) && f.inline && ExpandCall(cg, f, [s]) == Some(x) && EndsBy(cg, 0, x)
    ensures Ends(cg, ApplyFn(FIRST_NAME, s))
  {
    assert [Var(FIRST_NAME), s][1..] == [s];
    CallOutcome(cg, 1, [Var(FIRST_NAME), s], None);
    assert EndsBy(cg, 1, ApplyFn(FIRST_NAME, s));
  }

  /** (defun-inline f ((x . y)) (h x)) with (defun-inline h () ()): expanding f writes (f e) for x, but as an
      argument of h, which drops it. */
  lemma {:induction false} CycleMayEnd(env: SExp, prims: map<bytes, SExp>, strict: bool, e: BodyForm)
    ensures var f := Defun(FIRST_NAME, true, Cons(Cons(Atom([120]), Atom([121])), Nil), Call([Var([104]), Var([120])], None));
            var h := Defun([104], true, Nil, Quoted(Nil)); Ends(Codegen(env, [f, h], prims, strict), e)
  {
    var body := Call([Var([104]), Var([120])], None);
    var f := Defun(FIRST_NAME, true, Cons(Cons(Atom([120]), Atom([121])), Nil), body);
    var h := Defun([104], true, Nil, Quoted(Nil));
    var cg := Codegen(env, [f, h], prims, strict);
    assert [f, h][1..] == [h] && FindDefun([f, h], [104]) == FindDefun([h], [104]) == Some(h);
    assert body.forms[1..] == [Var([120])] && [Var([120])][1..] == [];
    forall s | IsSample(s) ensures Ends(cg, ApplyFn(FIRST_NAME, s)) {
      DropsArgument(cg, f, h, s);
      ExpandsOnce(cg, f, s, Quoted(Nil));
    }
    OnlyFirst(cg, e);
  }

  lemma {:induction false} DropsArgument(cg: Codegen, f: Defun, h: Defun, s: BodyForm)
    requires FindDefun(cg.defuns, [104]) == Some(h) && h == Defun([104], true, Nil, Quoted(Nil))
    requires f.name == FIRST_NAME && f.args == Cons(Cons(Atom([120]), Atom([121])), Nil) && f.body == Call([Var([104]), Var([120])], None)
    ensures ExpandCall(cg, f, [s]) == Some(Quoted(Nil))
  {
    var x: bytes := [120];
    assert f.body.forms[1..] == [Var(x)] && [Var(x)][1..] == [];
    assert PickValue(Atom(x), ApplyFn(FIRST_NAME, s), x) == Some(ApplyFn(FIRST_NAME, s));
    assert PickValue(f.args.first, s, x) == Some(ApplyFn(FIRST_NAME, s));
    assert ArgLookup(f.args, [s], 0, x) == Replaced(ApplyFn(FIRST_NAME, s));
    assert ReplaceInlineBody(cg, {f.name}, f, [s], Var(x)) == Some(ApplyFn(FIRST_NAME, s));
    assert ReplaceForms(cg, {f.name}, f, [s], []) == Some([]);
    assert ReplaceForms(cg, {f.name}, f, [s], [Var(x)]) == Some([ApplyFn(FIRST_NAME, s)] + []);
    assert GetInlineCallable(cg, f.body.forms[0]) == Some(CallInline(h)) && h.name !in {f.name} && h.name in Unvisited(cg.defuns, {f.name});
    assert ReplaceInlineBody(cg, {f.name} + {h.name}, h, [ApplyFn(FIRST_NAME, s)] + [], h.body) == Some(Quoted(Nil));
    assert ReplaceForms(cg, {f.name}, f, [s], f.body.forms[1..]).Some? && ReplaceTail(cg, {f.name}, f, [s], f.body.tail) == Some(None);
    assert ReplaceInlineBody(cg, {f.name}, f, [s], f.body) == Some(Quoted(Nil));
  }
}
