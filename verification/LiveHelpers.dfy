/** Dropping functions a program does not use: `collect_used_names_bodyform`,
    `calculate_live_helpers` and `compute_live_helpers`. */
module LiveHelpers {
  import opened Numbers
  import opened SExpressions
  import opened Machine
  import opened Syntax
  import opened AssignForms
  import opened AssignWeight
  import opened Semantics
  import opened Heads

  /** `collect_used_names_sexp`. */
  function NamesInSExp(s: SExp): Names {
    match s
    case Atom(a) => {a}
    case Cons(a, b) => NamesInSExp(a) + NamesInSExp(b)
    case _ => {}
  }

  /** `collect_used_names_bodyform`. */
  function UsedNames(e: BodyForm): Names {
    match e
    case Let(_, _, bs, inner) => BindingsUse(bs) + UsedNames(inner)
    case Quoted(_) => {}
    case Value(v) => if v.Atom? || v.Cons? then NamesInSExp(v) else {}
    case Call(forms, tail) => FormsUse(forms) + (if tail.Some? then UsedNames(tail.value) else {})
    case Lambda(_, _, captures, body) => UsedNames(captures) + UsedNames(body)
  }

  function BodyUses(b: Binding): Names { UsedNames(b.body) }

  function BindingsUse(bs: seq<Binding>): Names {
    if bs == [] then {} else BodyUses(bs[0]) + BindingsUse(bs[1..])
  }

  function FormsUse(forms: seq<BodyForm>): Names {
    if forms == [] then {} else UsedNames(forms[0]) + FormsUse(forms[1..])
  }

  type Helpers = map<bytes, Defun>

  /** Whatever a helper of the set uses is in the set. */
  ghost predicate ClosedUnder(live: Names, helpers: Helpers) {
    forall name :: name in live && name in helpers ==> UsedNames(helpers[name].body) <= live
  }

  /** The least set of names that holds some names and is closed. */
  ghost predicate IsLeast(live: Names, names: Names, helpers: Helpers) {
    names <= live && ClosedUnder(live, helpers)
    && forall other: Names :: names <= other && ClosedUnder(other, helpers) ==> live <= other
  }

  /** Everything any helper uses. */
  ghost function AllUsed(helpers: Helpers): Names {
    set name, used | name in helpers && used in UsedNames(helpers[name].body) :: used
  }

  /** What has been dealt with so far is closed up to the names found so far. */
  ghost predicate Explored(lastNames: Names, names: Names, helpers: Helpers) {
    lastNames <= names && forall name :: name in lastNames && name in helpers ==> UsedNames(helpers[name].body) <= names
  }

  /** One round's worth of names of helpers newly found. */
  method NeededHelpers(newNames: Names, names: Names, helpers: Helpers) returns (needed: Names)
    requires newNames <= names
    ensures names <= needed
    ensures forall name :: name in newNames && name in helpers ==> UsedNames(helpers[name].body) <= needed
    ensures forall x :: x in needed ==> x in names || exists name :: name in newNames && name in helpers && x in UsedNames(helpers[name].body)
  {
    needed := names;
    var rest := newNames;
    while rest != {}
      invariant rest <= newNames && names <= needed
      invariant forall name :: name in newNames - rest && name in helpers ==> UsedNames(helpers[name].body) <= needed
      invariant forall x :: x in needed ==>
                  x in names || exists name :: name in newNames && name in helpers && x in UsedNames(helpers[name].body)
    {
      var name :| name in rest;
      rest := rest - {name};
      if name in helpers {
        needed := needed + UsedNames(helpers[name].body);
      }
    }
  }

  /** `calculate_live_helpers`: repeats rounds until nothing is added. */
  method CalculateLiveHelpers(lastNames: Names, names: Names, helpers: Helpers) returns (live: Names)
    requires Explored(lastNames, names, helpers)
    ensures IsLeast(live, names, helpers)
    decreases |(names + AllUsed(helpers)) - lastNames|
  {
    if |lastNames| == |names| {
      SubsetOfSameSize(lastNames, names);
      return names;
    }
    var needed := NeededHelpers(names - lastNames, names, helpers);
    assert Explored(names, needed, helpers);
    ghost var before, after := (names + AllUsed(helpers)) - lastNames, (needed + AllUsed(helpers)) - names;
    ghost var x := SomethingMore(lastNames, names);
    assert x in before && x !in after;
    SmallerSet(after, before);
    live := CalculateLiveHelpers(names, needed, helpers);
    forall other: Names | names <= other && ClosedUnder(other, helpers) ensures live <= other {
      assert needed <= other;
    }
  }

  lemma {:induction false} SmallerSet(a: Names, b: Names)
    requires a < b
    ensures |a| < |b|
  {
    assert b == a + (b - a);
  }

  lemma {:induction false} SomethingMore(a: Names, b: Names) returns (x: bytes)
    requires a <= b && |a| != |b|
    ensures x in b && x !in a
  {
    assert b - a != {} by { assert b == a + (b - a); }
    x :| x in b - a;
  }

  lemma {:induction false} SubsetOfSameSize(a: Names, b: Names)
    requires a <= b && |a| == |b|
    ensures a == b
  {
    if a != b {
      SmallerSet(a, b);
    }
  }

  // ---- The whole pass --------------------------------------------------------------------------

  function HelperMap(defuns: seq<Defun>): (m: Helpers) {
    if defuns == [] then map[]
    else HelperMap(defuns[..|defuns| - 1])[defuns[|defuns| - 1].name := defuns[|defuns| - 1]]
  }

  function Kept(defuns: seq<Defun>, live: Names): (r: seq<Defun>) {
    if defuns == [] then [] else (if defuns[0].name in live then [defuns[0]] else []) + Kept(defuns[1..], live)
  }

  /** The helpers by name; a later one replaces an earlier one of its name. */
  method CollectHelpers(defuns: seq<Defun>) returns (helperMap: Helpers)
    ensures helperMap == HelperMap(defuns)
  {
    helperMap := map[];
    assert defuns[..|defuns|] == defuns;
    for i := 0 to |defuns|
      invariant helperMap == HelperMap(defuns[..i])
    {
      assert defuns[..i + 1][..i] == defuns[..i];
      helperMap := helperMap[defuns[i].name := defuns[i]];
    }
  }

  /** The helpers whose names are live, in their order. */
  method KeepHelpers(defuns: seq<Defun>, live: Names) returns (kept: seq<Defun>)
    ensures kept == Kept(defuns, live)
  {
    kept := [];
    for i := 0 to |defuns|
      invariant Kept(defuns, live) == kept + Kept(defuns[i..], live)
    {
      assert defuns[i..][1..] == defuns[i + 1..];
      if defuns[i].name in live {
        kept := kept + [defuns[i]];
      }
    }
  }

  /** `compute_live_helpers` when liveness is checked. */
  method ComputeLiveHelpers(defuns: seq<Defun>, main: BodyForm) returns (kept: seq<Defun>)
    ensures exists live: Names :: IsLeast(live, UsedNames(main), HelperMap(defuns)) && kept == Kept(defuns, live)
  {
    var helperMap := CollectHelpers(defuns);
    var live := CalculateLiveHelpers({}, UsedNames(main), helperMap);
    kept := KeepHelpers(defuns, live);
  }

  // ---- What remains means the same -------------------------------------------------------------

  /** A name that is not collected where a number spells it, and need not be: it is live all the same, or
      names no function that is a value. */
  predicate NotNeeded(w: World, live: Names, name: bytes) {
    name in live || name in {AT, AT_ENV, []} || FindDefun(w.defuns, name) == None || FindDefun(w.defuns, name).value.inline
  }

  /** The numbers among an expression's values name no function that may be dropped. */
  predicate NumbersNameLive(w: World, live: Names, e: BodyForm) {
    match e
    case Let(_, _, bs, inner) => BindingsNameLive(w, live, bs) && NumbersNameLive(w, live, inner)
    case Value(Integer(i)) => NotNeeded(w, live, U8FromNumber(i))
    case Call(forms, tail) => FormsNameLive(w, live, forms) && (tail.Some? ==> NumbersNameLive(w, live, tail.value))
    case _ => true
  }

  predicate BodyNamesLive(w: World, live: Names, b: Binding) { NumbersNameLive(w, live, b.body) }

  predicate BindingsNameLive(w: World, live: Names, bs: seq<Binding>) {
    bs == [] || (BodyNamesLive(w, live, bs[0]) && BindingsNameLive(w, live, bs[1..]))
  }

  predicate FormsNameLive(w: World, live: Names, forms: seq<BodyForm>) {
    forms == [] || (NumbersNameLive(w, live, forms[0]) && FormsNameLive(w, live, forms[1..]))
  }

  /** An expression all of whose names of functions are seen.  Where the dialect is strict, numbers are
      just numbers. */
  predicate Seen(w: World, live: Names, e: BodyForm) {
    UsedNames(e) <= live && WordHeads(e) && (w.strict || NumbersNameLive(w, live, e))
  }

  predicate BindingsSeen(w: World, live: Names, bs: seq<Binding>) {
    BindingsUse(bs) <= live && BindingsInWords(bs) && (w.strict || BindingsNameLive(w, live, bs))
  }

  predicate FormsSeen(w: World, live: Names, forms: seq<BodyForm>) {
    FormsUse(forms) <= live && FormsInWords(forms) && (w.strict || FormsNameLive(w, live, forms))
  }

  /** The live functions use only live names. */
  ghost predicate LiveBodies(w: World, live: Names, defuns: seq<Defun>) {
    defuns == []
    || ((defuns[0].name in live ==> Seen(w, live, defuns[0].body)) && LiveBodies(w, live, defuns[1..]))
  }

  function Trimmed(w: World, live: Names): World { w.(defuns := Kept(w.defuns, live)) }

  lemma {:induction false} LiveBodyAt(w: World, live: Names, defuns: seq<Defun>, f: Defun)
    requires LiveBodies(w, live, defuns) && f in defuns && f.name in live
    ensures Seen(w, live, f.body)
  {
    if defuns[0] != f {
      LiveBodyAt(w, live, defuns[1..], f);
    }
  }

  lemma {:induction false} KeptFinds(defuns: seq<Defun>, live: Names, name: bytes)
    ensures FindDefun(Kept(defuns, live), name) == if name in live then FindDefun(defuns, name) else None
  {
    if defuns != [] {
      KeptFinds(defuns[1..], live, name);
      if defuns[0].name in live {
        assert ([defuns[0]] + Kept(defuns[1..], live))[1..] == Kept(defuns[1..], live);
      } else {
        assert [] + Kept(defuns[1..], live) == Kept(defuns[1..], live);
      }
    }
  }

  /** A name that is used, or that no function has, is found as before. */
  lemma {:induction false} SameFind(w: World, live: Names, name: bytes)
    requires name in live || FindDefun(w.defuns, name) == None
    ensures FindDefun(Trimmed(w, live).defuns, name) == FindDefun(w.defuns, name)
  {
    KeptFinds(w.defuns, live, name);
  }

  /** A single binding's value, a single argument and what is left are seen. */
  lemma {:induction false} BindingsSeenParts(w: World, live: Names, bs: seq<Binding>)
    requires BindingsSeen(w, live, bs) && bs != []
    ensures Seen(w, live, bs[0].body) && BindingsSeen(w, live, bs[1..])
  {
    assert BodyUses(bs[0]) == UsedNames(bs[0].body) && BodyInWords(bs[0]) == WordHeads(bs[0].body);
    assert BodyNamesLive(w, live, bs[0]) == NumbersNameLive(w, live, bs[0].body);
  }

  lemma {:induction false} LetSeen(w: World, live: Names, kind: LetKind, inlined: bool, bs: seq<Binding>, inner: BodyForm)
    requires Seen(w, live, Let(kind, inlined, bs, inner))
    ensures BindingsSeen(w, live, bs) && Seen(w, live, inner)
  {
    var e := Let(kind, inlined, bs, inner);
    assert UsedNames(e) == BindingsUse(bs) + UsedNames(inner);
    assert WordHeads(e) == (BindingsInWords(bs) && WordHeads(inner));
    assert NumbersNameLive(w, live, e) == (BindingsNameLive(w, live, bs) && NumbersNameLive(w, live, inner));
  }

  lemma {:induction false} CallSeen(w: World, live: Names, forms: seq<BodyForm>, tail: Option<BodyForm>)
    requires Seen(w, live, Call(forms, tail))
    ensures forms != [] && IsWord(forms[0]) && forms[0].value.name in live && FormsSeen(w, live, forms[1..])
            && (tail.Some? ==> Seen(w, live, tail.value))
  {
    var e := Call(forms, tail);
    assert WordHeads(e);
    assert UsedNames(e) == FormsUse(forms) + (if tail.Some? then UsedNames(tail.value) else {});
    assert FormsUse(forms) == UsedNames(forms[0]) + FormsUse(forms[1..]) && UsedNames(forms[0]) == {forms[0].value.name};
    assert NumbersNameLive(w, live, e) == (FormsNameLive(w, live, forms) && (tail.Some? ==> NumbersNameLive(w, live, tail.value)));
    assert forms[0].value.name in FormsUse(forms);
  }

  lemma {:induction false} TrimmedMeaning(w: World, live: Names, n: nat, scopes: seq<Scope>, e: BodyForm)
    requires LiveBodies(w, live, w.defuns) && Seen(w, live, e)
    ensures Sem(Trimmed(w, live), n, scopes, e) == Sem(w, n, scopes, e)
    decreases n, Weight(e), 1
  {
    match e
    case Value(v) => TrimmedValue(w, live, scopes, v);
    case Let(Parallel, inlined, bs, inner) =>
      LetSeen(w, live, Parallel, inlined, bs, inner);
      TrimmedBindings(w, live, n, scopes, bs);
      var vs := SemBindings(w, n, scopes, bs);
      if vs.Success? {
        TrimmedMeaning(w, live, n, [Scope(PatternList(bs), vs.value)] + scopes, inner);
      }
    case Let(Sequential, inlined, bs, inner) =>
      LetSeen(w, live, Sequential, inlined, bs, inner);
      TrimmedSequence(w, live, n, scopes, bs, inner);
    case Let(Assign, inlined, bs, inner) =>
      LetSeen(w, live, Assign, inlined, bs, inner);
      if bs != [] && HoistAssign(inlined, bs, inner) != None {
        HoistedAssignIsLighter(inlined, bs, inner);
        HoistedAssignSeen(w, live, inlined, bs, inner);
        TrimmedMeaning(w, live, n, scopes, HoistAssign(inlined, bs, inner).value);
      }
    case Call(forms, tail) => TrimmedCall(w, live, n, scopes, forms, tail);
    case _ =>
  }

  lemma {:induction false} TrimmedValue(w: World, live: Names, scopes: seq<Scope>, v: SExp)
    requires Seen(w, live, Value(v))
    ensures ValueMeaning(Trimmed(w, live), scopes, v) == ValueMeaning(w, scopes, v)
  {
    if v.Atom? {
      SameFind(w, live, v.name);
    } else if v.Integer? && !w.strict {
      assert NotNeeded(w, live, U8FromNumber(v.value));
      KeptFinds(w.defuns, live, U8FromNumber(v.value));
    }
  }

  /** A call depends on its function's body and its arguments only. */
  lemma {:induction false} SameCall(w: World, live: Names, n: nat, scopes: seq<Scope>, forms: seq<BodyForm>, tail: Option<BodyForm>)
    requires forms != [] && CallName(forms[0]).Some?
    requires var w', f, args := Trimmed(w, live), FindDefun(w.defuns, CallName(forms[0]).value), SemArgs(w, n, scopes, forms[1..], tail);
             FindDefun(w'.defuns, CallName(forms[0]).value) == f
             && (if f == None then SemArgs(w', n, scopes, forms[1..], None) == SemArgs(w, n, scopes, forms[1..], None)
                 else SemArgs(w', n, scopes, forms[1..], tail) == args
                      && (n > 0 && args.Success? ==> Sem(w', n - 1, [Scope(f.value.args, args.value)], f.value.body) ==
                                                     Sem(w, n - 1, [Scope(f.value.args, args.value)], f.value.body)))
    ensures Sem(Trimmed(w, live), n, scopes, Call(forms, tail)) == Sem(w, n, scopes, Call(forms, tail))
  {
  }

  lemma {:induction false} TrimmedCall(w: World, live: Names, n: nat, scopes: seq<Scope>, forms: seq<BodyForm>, tail: Option<BodyForm>)
    requires LiveBodies(w, live, w.defuns) && Seen(w, live, Call(forms, tail))
    ensures Sem(Trimmed(w, live), n, scopes, Call(forms, tail)) == Sem(w, n, scopes, Call(forms, tail))
    decreases n, Weight(Call(forms, tail)), 0
  {
    CallSeen(w, live, forms, tail);
    WeightParts(Call(forms, tail));
    SameFind(w, live, CallName(forms[0]).value);
    var f := FindDefun(w.defuns, CallName(forms[0]).value);
    if f.Some? {
      TrimmedArgs(w, live, n, scopes, forms[1..], tail);
      TrimmedBody(w, live, n, f.value, SemArgs(w, n, scopes, forms[1..], tail));
    } else {
      TrimmedArgs(w, live, n, scopes, forms[1..], None);
    }
    SameCall(w, live, n, scopes, forms, tail);
  }

  lemma {:induction false} TrimmedBody(w: World, live: Names, n: nat, f: Defun, args: Outcome<SExp>)
    requires LiveBodies(w, live, w.defuns) && f in w.defuns && f.name in live
    ensures n > 0 && args.Success? ==>
              Sem(Trimmed(w, live), n - 1, [Scope(f.args, args.value)], f.body) ==
              Sem(w, n - 1, [Scope(f.args, args.value)], f.body)
    decreases n, 0, 0
  {
    if n > 0 && args.Success? {
      LiveBodyAt(w, live, w.defuns, f);
      TrimmedMeaning(w, live, n - 1, [Scope(f.args, args.value)], f.body);
    }
  }

  lemma {:induction false} TrimmedArgs(w: World, live: Names, n: nat, scopes: seq<Scope>, args: seq<BodyForm>, tail: Option<BodyForm>)
    requires LiveBodies(w, live, w.defuns) && FormsSeen(w, live, args) && (tail.Some? ==> Seen(w, live, tail.value))
    ensures SemArgs(Trimmed(w, live), n, scopes, args, tail) == SemArgs(w, n, scopes, args, tail)
    decreases n, FormsWeight(args) + TailWeight(tail), 2
  {
    if args == [] {
      if tail.Some? {
        TrimmedMeaning(w, live, n, scopes, tail.value);
      }
    } else {
      TrimmedArgs(w, live, n, scopes, args[1..], tail);
      TrimmedMeaning(w, live, n, scopes, args[0]);
    }
  }

  lemma {:induction false} TrimmedBindings(w: World, live: Names, n: nat, scopes: seq<Scope>, bs: seq<Binding>)
    requires LiveBodies(w, live, w.defuns) && BindingsSeen(w, live, bs)
    ensures SemBindings(Trimmed(w, live), n, scopes, bs) == SemBindings(w, n, scopes, bs)
    decreases n, BindingsWeight(bs, 1), 2
  {
    if bs != [] {
      BindingParts(bs, 1);
      BindingsSeenParts(w, live, bs);
      TrimmedMeaning(w, live, n, scopes, bs[0].body);
      TrimmedBindings(w, live, n, scopes, bs[1..]);
    }
  }

  lemma {:induction false} TrimmedSequence(w: World, live: Names, n: nat, scopes: seq<Scope>, bs: seq<Binding>, inner: BodyForm)
    requires LiveBodies(w, live, w.defuns) && BindingsSeen(w, live, bs) && Seen(w, live, inner)
    ensures SemSequence(Trimmed(w, live), n, scopes, bs, inner) == SemSequence(w, n, scopes, bs, inner)
    decreases n, BindingsWeight(bs, 1) + Weight(inner), 2
  {
    if bs == [] {
      TrimmedMeaning(w, live, n, scopes, inner);
    } else {
      BindingParts(bs, 1);
      BindingsSeenParts(w, live, bs);
      TrimmedMeaning(w, live, n, scopes, bs[0].body);
      var v := Sem(w, n, scopes, bs[0].body);
      if v.Success? {
        TrimmedSequence(w, live, n, [Scope(PatternList([bs[0]]), Cons(v.value, Nil))] + scopes, bs[1..], inner);
      }
    }
  }

  // ---- Assign forms use what their bindings use ----------------------------------------------

  lemma {:induction false} EachBindingSeen(w: World, live: Names, bs: seq<Binding>)
    ensures BindingsSeen(w, live, bs) <==> forall b :: b in bs ==> Seen(w, live, b.body)
  {
    if bs != [] {
      EachBindingSeen(w, live, bs[1..]);
      forall b ensures b in bs <==> b == bs[0] || b in bs[1..] { assert bs == [bs[0]] + bs[1..]; }
      assert bs[0] in bs;
      assert BodyUses(bs[0]) == UsedNames(bs[0].body) && BodyInWords(bs[0]) == WordHeads(bs[0].body);
      assert BodyNamesLive(w, live, bs[0]) == NumbersNameLive(w, live, bs[0].body);
    }
  }

  lemma {:induction false} NestSeen(w: World, live: Names, inlined: bool, bs: seq<Binding>, stages: seq<seq<Spec>>, body: BodyForm)
    requires InRange(bs, stages) && BindingsSeen(w, live, bs) && Seen(w, live, body)
    ensures Seen(w, live, Nest(inlined, bs, stages, body))
    decreases |stages|
  {
    if stages != [] {
      NestSeen(w, live, inlined, bs, stages[1..], body);
      var picked := Pick(bs, stages[0]);
      EachBindingSeen(w, live, bs);
      forall b | b in picked ensures Seen(w, live, b.body) {
        var i :| 0 <= i < |picked| && picked[i] == b;
        assert picked[i] == bs[stages[0][i].index] && stages[0][i] in stages[0];
        assert bs[stages[0][i].index] in bs;
      }
      EachBindingSeen(w, live, picked);
    }
  }

  lemma {:induction false} HoistedAssignSeen(w: World, live: Names, inlined: bool, bs: seq<Binding>, inner: BodyForm)
    requires HoistAssign(inlined, bs, inner).Some? && BindingsSeen(w, live, bs) && Seen(w, live, inner)
    ensures Seen(w, live, HoistAssign(inlined, bs, inner).value)
  {
    StagesInRange(bs);
    NestSeen(w, live, inlined, bs, Stages(SortBindings(bs).value, {}, {}, []), inner);
  }

  // ---- Together --------------------------------------------------------------------------------

  predicate DefunsNameLive(w: World, live: Names, defuns: seq<Defun>) {
    forall f :: f in defuns && f.name in live ==> NumbersNameLive(w, live, f.body)
  }

  lemma {:induction false} MapHolds(defuns: seq<Defun>, i: nat)
    requires Distinct(defuns) && i < |defuns|
    ensures defuns[i].name in HelperMap(defuns) && HelperMap(defuns)[defuns[i].name] == defuns[i]
    decreases |defuns|
  {
    if i < |defuns| - 1 {
      MapHolds(defuns[..|defuns| - 1], i);
    }
  }

  lemma {:induction false} ClosedBodies(w: World, live: Names, k: nat)
    requires Distinct(w.defuns) && DefunsInWords(w.defuns) && (w.strict || DefunsNameLive(w, live, w.defuns))
    requires ClosedUnder(live, HelperMap(w.defuns)) && k <= |w.defuns|
    ensures LiveBodies(w, live, w.defuns[k..])
    decreases |w.defuns| - k
  {
    if k < |w.defuns| {
      MapHolds(w.defuns, k);
      assert w.defuns[k] in w.defuns && DefunInWords(w.defuns[k]);
      ClosedBodies(w, live, k + 1);
      assert w.defuns[k..][1..] == w.defuns[k + 1..];
    }
  }

  /** Dropping what is not live changes no program's meaning, as programs are read: with words at the
      heads of calls.  Where numbers may be names, those among the values of what is live must not name
      functions that are dropped; in strict dialects nothing is asked of them. */
  lemma {:induction false} LivenessKeepsMeaning(w: World, live: Names, n: nat, scopes: seq<Scope>, main: BodyForm)
    requires IsLeast(live, UsedNames(main), HelperMap(w.defuns))
    requires Distinct(w.defuns) && DefunsInWords(w.defuns) && WordHeads(main)
    requires w.strict || (DefunsNameLive(w, live, w.defuns) && NumbersNameLive(w, live, main))
    ensures Sem(Trimmed(w, live), n, scopes, main) == Sem(w, n, scopes, main)
  {
    ClosedBodies(w, live, 0);
    assert w.defuns[0..] == w.defuns;
    TrimmedMeaning(w, live, n, scopes, main);
  }

  /** A number as a value: where functions mentioned have values other than their names, dropping what is
      not live leaves its meaning alone exactly in strict dialects and where it names nothing that is
      dropped. */
  lemma {:induction false} NumbersAreNotCollected(w: World, live: Names, i: int)
    requires forall name :: name in w.refs ==> w.refs[name] != Atom(name)
    ensures (forall n: nat, scopes :: Sem(Trimmed(w, live), n, scopes, Value(Integer(i))) == Sem(w, n, scopes, Value(Integer(i))))
            <==> w.strict || NotNeeded(w, live, U8FromNumber(i))
  {
    var name, e := U8FromNumber(i), Value(Integer(i));
    KeptFinds(w.defuns, live, name);
    if !(w.strict || NotNeeded(w, live, name)) {
      assert LookupVar([], name) == Unbound;
      assert Sem(Trimmed(w, live), 0, [], e) == Success(Atom(name));
      assert Sem(w, 0, [], e) != Success(Atom(name));
    }
  }

  /** Such a program: (mod () (defun g () ()) 103) in a dialect that is not strict.  Nothing is live, and
      without g the program means the number and not the function. */
  lemma {:induction false} FunctionByNumber(w: World, n: nat)
    requires w.defuns == [Defun([103], false, Nil, Value(Nil))] && !w.strict && [103] in w.refs && w.refs[[103]].Cons?
    ensures var main := Value(Integer(103));
            IsLeast({}, UsedNames(main), HelperMap(w.defuns))
            && Sem(w, n, [], main) == Success(w.refs[[103]]) && Sem(Trimmed(w, {}), n, [], main) == Success(Atom([103]))
  {
    assert U8FromNumber(103) == [103];
    assert FindDefun(w.defuns, [103]) == Some(w.defuns[0]);
    KeptFinds(w.defuns, {}, [103]);
    assert AT[0] == 64 && AT_ENV[0] == 64;
  }
}
