/** Splitting an assign form into nested parallel lets: `toposort_assign_bindings` and
    `hoist_assign_form`. */
module AssignForms {
  import opened Numbers
  import opened SExpressions
  import opened Syntax
  import opened Toposort

  type Names = set<bytes>

  const Q_NAME: bytes := [113]                               // "q"
  const AMP_REST: bytes := [38, 114, 101, 115, 116]          // "&rest"
  const AMP: bytes := [38]                                   // "&"
  const LAMBDA_NAME: bytes := [108, 97, 109, 98, 100, 97]    // "lambda"
  const LET_NAME: bytes := [108, 101, 116]                   // "let"
  const LET_STAR: bytes := [108, 101, 116, 42]               // "let*"
  const ASSIGN_NAME: bytes := [97, 115, 115, 105, 103, 110]  // "assign"

  /** `make_provides_set`: every leaf of an s-expression, read as a name. */
  function SExpNames(s: SExp): Names {
    match s
    case Nil => {}
    case Cons(a, b) => SExpNames(a) + SExpNames(b)
    case Integer(i) => {U8FromNumber(i)}
    case QuotedString(_, t) => {t}
    case Atom(a) => {a}
  }

  function Marker(kind: LetKind): bytes {
    match kind case Parallel => LET_NAME case Sequential => LET_STAR case Assign => ASSIGN_NAME
  }

  /** `make_provides_set` of an expression's s-expression form: every name it could refer to, and
      the keywords it is written with. */
  function Mentions(e: BodyForm): Names {
    match e
    case Let(kind, _, bs, inner) => {Marker(kind)} + BindingsMention(bs) + Mentions(inner)
    case Quoted(q) => {Q_NAME} + SExpNames(q)
    case Value(v) => SExpNames(v)
    case Call(forms, tail) => FormsMention(forms) + TailMentions(tail)
    case Lambda(captureArgs, args, _, body) =>
      {LAMBDA_NAME} + (if Truthy(captureArgs) then {AMP} + SExpNames(captureArgs) else {})
      + SExpNames(args) + Mentions(body)
  }

  function BindingsMention(bs: seq<Binding>): Names {
    if bs == [] then {} else SExpNames(PatternOf(bs[0])) + BodyMentions(bs[0]) + BindingsMention(bs[1..])
  }

  function BodyMentions(b: Binding): Names { Mentions(b.body) }

  function FormsMention(forms: seq<BodyForm>): Names {
    if forms == [] then {} else Mentions(forms[0]) + FormsMention(forms[1..])
  }

  function TailMentions(tail: Option<BodyForm>): Names {
    match tail case None => {} case Some(t) => {AMP_REST} + Mentions(t)
  }

  /** What a binding provides. */
  function Provides(b: Binding): Names {
    match b.pattern case Name(n) => {n} case Complex(p) => SExpNames(p)
  }

  /** What a binding relies on, out of what is possible. */
  function NeedsWithin(possible: Names, b: Binding): Maybe<Names> { Known(BodyMentions(b) * possible) }

  type Spec = Item<bytes>

  /** `toposort_assign_bindings`; Unknown on deadlock. */
  function SortBindings(bs: seq<Binding>): (r: Maybe<seq<Spec>>) {
    SortItems(BindingItems(bs))
  }

  function BindingItems(bs: seq<Binding>): (r: seq<Spec>)
    ensures |r| == |bs|
    ensures forall i :: 0 <= i < |bs| ==>
              r[i] == Item(i, BodyMentions(bs[i]) * Possible(bs, Provides), Provides(bs[i]))
  {
    ItemsOf(bs, NeedsWithin, Provides).value
  }

  // ---- Stages -----------------------------------------------------------------------------------

  /** The staging loop: start a new stage when an item needs something beyond the finished ones. */
  function Stages(order: seq<Spec>, current: Names, provided: Names, round: seq<Spec>): (r: seq<seq<Spec>>)
    decreases |order|
  {
    if order == [] then (if round == [] then [] else [round])
    else if order[0].needs - current != {} then
      [round] + Stages(order[1..], current + provided, order[0].has, [order[0]])
    else Stages(order[1..], current, provided + order[0].has, round + [order[0]])
  }

  function Flatten<T>(s: seq<seq<T>>): seq<T> { if s == [] then [] else s[0] + Flatten(s[1..]) }

  /** Non-empty stages in which each item needs only what strictly earlier stages provide. */
  ghost predicate Staged(stages: seq<seq<Spec>>, base: Names) {
    stages == []
    || (stages[0] != [] && (forall s :: s in stages[0] ==> s.needs <= base)
        && Staged(stages[1..], base + Provided(stages[0])))
  }

  /** Each item needs only `base` and what earlier items provide. */
  ghost predicate CoveredFrom(base: Names, order: seq<Spec>)
    decreases |order|
  {
    order == [] || (order[0].needs <= base && CoveredFrom(base + order[0].has, order[1..]))
  }

  lemma {:induction false} CoveredSuffix(order: seq<Spec>, k: nat)
    requires k <= |order| && Covered(order, |order|)
    ensures CoveredFrom(Provided(order[..k]), order[k..])
    decreases |order| - k
  {
    if k < |order| {
      CoveredAt(order, |order|, k);
      CoveredSuffix(order, k + 1);
      assert order[..k + 1][..k] == order[..k];
      assert order[k..][1..] == order[k + 1..];
    }
  }

  lemma {:induction false} StagesAreStaged(order: seq<Spec>, current: Names, provided: Names, round: seq<Spec>)
    requires provided == Provided(round) && CoveredFrom(current + provided, order)
    requires forall s :: s in round ==> s.needs <= current
    ensures Staged(Stages(order, current, provided, round), current)
    ensures Flatten(Stages(order, current, provided, round)) == round + order
    decreases |order|
  {
    if order == [] {
      assert Flatten([round]) == round + Flatten([round][1..]) == round;
    } else {
      var s := order[0];
      assert round + order == (round + [s]) + order[1..];
      if s.needs - current != {} {
        assert Provided<bytes>([]) == {};
        assert Provided([s]) == Provided([s][..0]) + s.has == s.has;
        assert (current + provided) + s.has == current + provided + s.has;
        StagesAreStaged(order[1..], current + provided, s.has, [s]);
        var rest := Stages(order[1..], current + provided, s.has, [s]);
        assert ([round] + rest)[1..] == rest && ([round] + rest)[0] == round;
        assert round + ([s] + order[1..]) == round + order;
      } else {
        assert (round + [s])[..|round|] == round;
        assert (current + provided) + s.has == current + (provided + s.has);
        assert s.needs <= current by {
          forall x | x in s.needs ensures x in current { assert x !in s.needs - current; }
        }
        StagesAreStaged(order[1..], current, provided + s.has, round + [s]);
      }
    }
  }

  /** The stages of an assign form's bindings: they hold each binding exactly once, none is empty,
      and each binding's needs are met by strictly enclosing stages. */
  lemma {:induction false} AssignStages(bs: seq<Binding>)
    requires SortBindings(bs).Known?
    ensures var stages := Stages(SortBindings(bs).value, {}, {}, []);
            Staged(stages, {}) && multiset(Flatten(stages)) == multiset(BindingItems(bs))
  {
    var order := SortBindings(bs).value;
    SortIsExact(BindingItems(bs));
    CoveredSuffix(order, 0);
    assert order[0..] == order && order[..0] == [];
    var none: Names := {};
    assert none + none == none;
    assert [] + order == order;
    assert Provided<bytes>([]) == {};
    StagesAreStaged(order, {}, {}, []);
  }

  // ---- Nested lets ------------------------------------------------------------------------------

  function Pick(bs: seq<Binding>, specs: seq<Spec>): (r: seq<Binding>)
    requires forall s :: s in specs ==> s.index < |bs|
    ensures |r| == |specs|
    ensures forall i :: 0 <= i < |specs| ==> r[i] == bs[specs[i].index]
  {
    seq(|specs|, i requires 0 <= i < |specs| => bs[specs[i].index])
  }

  predicate InRange(bs: seq<Binding>, stages: seq<seq<Spec>>) {
    forall k :: 0 <= k < |stages| ==> forall s :: s in stages[k] ==> s.index < |bs|
  }

  function Nest(inlined: bool, bs: seq<Binding>, stages: seq<seq<Spec>>, body: BodyForm): (r: BodyForm)
    requires InRange(bs, stages)
    decreases |stages|
  {
    if stages == [] then body
    else Let(Parallel, inlined, Pick(bs, stages[0]), Nest(inlined, bs, stages[1..], body))
  }

  lemma {:induction false} FlattenHas(stages: seq<seq<Spec>>, k: nat, s: Spec)
    requires k < |stages| && s in stages[k]
    ensures s in Flatten(stages)
  {
    if k > 0 {
      FlattenHas(stages[1..], k - 1, s);
    }
  }

  lemma {:induction false} StagesInRange(bs: seq<Binding>)
    requires SortBindings(bs).Known?
    ensures InRange(bs, Stages(SortBindings(bs).value, {}, {}, []))
  {
    AssignStages(bs);
    var stages := Stages(SortBindings(bs).value, {}, {}, []);
    forall k, s: Spec | 0 <= k < |stages| && s in stages[k]
      ensures s.index < |bs|
    {
      FlattenHas(stages, k, s);
      assert s in multiset(Flatten(stages));
      assert s in multiset(BindingItems(bs));
      assert s in BindingItems(bs);
    }
  }

  lemma {:induction false} SortedInRange(bs: seq<Binding>)
    requires SortBindings(bs).Known?
    ensures forall s :: s in SortBindings(bs).value ==> s.index < |bs|
  {
    SortIsExact(BindingItems(bs));
    forall s | s in SortBindings(bs).value ensures s.index < |bs| {
      assert s in multiset(SortBindings(bs).value);
      assert s in multiset(BindingItems(bs));
      assert s in BindingItems(bs);
    }
  }

  lemma {:induction false} EveryIndexSorted(bs: seq<Binding>, i: nat)
    requires SortBindings(bs).Known? && i < |bs|
    ensures i in set s | s in SortBindings(bs).value :: s.index
  {
    SortIsExact(BindingItems(bs));
    var item := BindingItems(bs)[i];
    assert item in multiset(BindingItems(bs));
    assert item in multiset(SortBindings(bs).value);
    assert item in SortBindings(bs).value;
  }

  /** `hoist_assign_form`; None when the bindings deadlock. */
  function HoistAssign(inlined: bool, bs: seq<Binding>, body: BodyForm): (r: Option<BodyForm>) {
    match SortBindings(bs)
    case Unknown => None
    case Known(order) =>
      StagesInRange(bs);
      Some(Nest(inlined, bs, Stages(order, {}, {}, []), body))
  }

  /** The loops of `hoist_assign_form`.  The source takes the innermost stage out of the list of stages
      and panics where there is none, which is for no bindings only; the frontend makes no such form. */
  method HoistAssignForm(inlined: bool, bs: seq<Binding>, body: BodyForm) returns (r: Option<BodyForm>, panics: bool)
    ensures panics <==> bs == []
    ensures r == if panics then None else HoistAssign(inlined, bs, body)
  {
    var sorted := Sort(bs, NeedsWithin, Provides);
    if !sorted.Ordered? {
      return None, false;
    }
    StagesInRange(bs);
    AssignStages(bs);
    var lists := CollectStages(sorted.items);
    assert |multiset(Flatten(lists))| == |multiset(BindingItems(bs))| == |bs|;
    if lists == [] {
      return None, true;
    }
    assert |Flatten(lists)| >= |lists[0]| > 0;
    var output := NestStages(inlined, bs, lists, body);
    return Some(output), false;
  }

  method CollectStages(order: seq<Spec>) returns (lists: seq<seq<Spec>>)
    ensures lists == Stages(order, {}, {}, [])
  {
    ghost var stages := Stages(order, {}, {}, []);
    var current: Names, provided: Names := {}, {};
    var round: seq<Spec> := [];
    lists := [];
    assert [] + stages == stages && order[0..] == order;
    for i := 0 to |order|
      invariant lists + Stages(order[i..], current, provided, round) == stages
    {
      assert order[i..][0] == order[i] && order[i..][1..] == order[i + 1..];
      if order[i].needs - current != {} {
        ghost var rest := Stages(order[i + 1..], current + provided, order[i].has, [order[i]]);
        assert lists + ([round] + rest) == (lists + [round]) + rest;
        lists := lists + [round];
        round := [];
        current := current + provided;
        provided := {};
        assert round + [order[i]] == [order[i]] && provided + order[i].has == order[i].has;
      }
      provided := provided + order[i].has;
      round := round + [order[i]];
    }
    if round != [] {
      lists := lists + [round];
    }
  }

  /** A stack of lets, built from the innermost stage outwards. */
  method NestStages(inlined: bool, bs: seq<Binding>, stages: seq<seq<Spec>>, body: BodyForm) returns (output: BodyForm)
    requires stages != [] && InRange(bs, stages)
    ensures output == Nest(inlined, bs, stages, body)
  {
    var k := |stages| - 1;
    output := Let(Parallel, inlined, Pick(bs, stages[k]), body);
    assert stages[k..][1..] == [];
    while k > 0
      invariant k < |stages| && InRange(bs, stages[k..])
      invariant output == Nest(inlined, bs, stages[k..], body)
    {
      k := k - 1;
      assert stages[k..][0] == stages[k] && stages[k..][1..] == stages[k + 1..];
      output := Let(Parallel, inlined, Pick(bs, stages[k]), output);
    }
    assert stages[0..] == stages;
  }
}
