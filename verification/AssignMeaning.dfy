/** What an assign form means: values that satisfy all its bindings at once, whatever order they are
    written in and however they are split into nested lets. */
module AssignMeaning {
  import opened Numbers
  import opened SExpressions
  import opened Machine
  import opened Syntax
  import opened Toposort
  import opened AssignForms
  import opened AssignWeight
  import opened Semantics
  import opened Relevance

  predicate BoundBy(bs: seq<Binding>, i: int, x: bytes) { 0 <= i < |bs| && Binds(PatternOf(bs[i]), x) }

  /** The leaves of a pattern are the names it binds, save for the @ of captures. */
  ghost predicate Honest(p: SExp) {
    p != Atom(AT) && forall x :: x != AT ==> (Binds(p, x) <==> x in SExpNames(p))
  }

  /** No name is bound twice, patterns consist of names, and `@` is not used. */
  ghost predicate Regular(bs: seq<Binding>, inner: BodyForm) {
    (forall i, j, x :: BoundBy(bs, i, x) && BoundBy(bs, j, x) ==> i == j)
    && (forall i :: 0 <= i < |bs| ==> Honest(PatternOf(bs[i])) && NoEnv(BodyMentions(bs[i])))
    && NoEnv(Reads(inner))
  }

  predicate NoEnv(names: Names) { AT !in names && AT_ENV !in names }

  /** The scope that binds everything at once. */
  function GroupScope(bs: seq<Binding>, vals: seq<SExp>): Scope { Scope(PatternList(bs), ListOf(vals)) }

  /** Values that satisfy every binding in a scope that holds all of them. */
  ghost predicate Equations(w: World, n: nat, scopes: seq<Scope>, bs: seq<Binding>, vals: seq<SExp>) {
    |vals| == |bs|
    && forall i :: 0 <= i < |bs| ==>
         Accepts(w, PatternOf(bs[i]), vals[i]) && BodyValue(w, n, [GroupScope(bs, vals)] + scopes, bs[i]) == Success(vals[i])
  }

  function BodyValue(w: World, n: nat, scopes: seq<Scope>, b: Binding): Outcome<SExp> { Sem(w, n, scopes, b.body) }

  // ---- Lists of patterns -----------------------------------------------------------------------

  lemma {:induction false} ListBinds(bs: seq<Binding>, x: bytes)
    requires forall i :: 0 <= i < |bs| ==> PatternOf(bs[i]) != Atom(AT)
    ensures Binds(PatternList(bs), x) <==> exists i :: BoundBy(bs, i, x)
  {
    if bs != [] {
      ListBinds(bs[1..], x);
      assert IsAtCapture(PatternOf(bs[0]), PatternList(bs[1..])) == None;
      if exists i :: BoundBy(bs, i, x) {
        var i :| BoundBy(bs, i, x);
        assert i == 0 || BoundBy(bs[1..], i - 1, x);
      }
      if exists i :: BoundBy(bs[1..], i, x) {
        var i :| BoundBy(bs[1..], i, x);
        assert BoundBy(bs, i + 1, x);
      }
      if Binds(PatternOf(bs[0]), x) {
        assert BoundBy(bs, 0, x);
      }
    }
  }

  function Part(p: SExp, v: SExp, x: bytes): Lookup
    requires Binds(p, x)
  {
    match Destructure(p, v, x) case None => Absent case Some(y) => Found(y)
  }

  lemma {:induction false} ListFinds(bs: seq<Binding>, vals: seq<SExp>, i: nat, x: bytes)
    requires |vals| == |bs| && forall i :: 0 <= i < |bs| ==> PatternOf(bs[i]) != Atom(AT)
    requires BoundBy(bs, i, x) && forall j :: BoundBy(bs, j, x) ==> j == i
    ensures Binds(PatternList(bs), x)
    ensures Part(PatternList(bs), ListOf(vals), x) == Part(PatternOf(bs[i]), vals[i], x)
  {
    ListBinds(bs, x);
    assert IsAtCapture(PatternOf(bs[0]), PatternList(bs[1..])) == None;
    if i > 0 {
      assert !BoundBy(bs, 0, x);
      forall j | BoundBy(bs[1..], j, x) ensures j == i - 1 { assert BoundBy(bs, j + 1, x); }
      assert BoundBy(bs[1..], i - 1, x);
      ListFinds(bs[1..], vals[1..], i - 1, x);
    }
  }

  lemma {:induction false} ListAccepts(w: World, bs: seq<Binding>, vals: seq<SExp>)
    requires |vals| == |bs| && forall i :: 0 <= i < |bs| ==> PatternOf(bs[i]) != Atom(AT)
    ensures Accepts(w, PatternList(bs), ListOf(vals)) <==> forall i :: 0 <= i < |bs| ==> Accepts(w, PatternOf(bs[i]), vals[i])
  {
    if bs != [] {
      ListAccepts(w, bs[1..], vals[1..]);
      assert IsAtCapture(PatternOf(bs[0]), PatternList(bs[1..])) == None;
      if forall i :: 0 <= i < |bs| ==> Accepts(w, PatternOf(bs[i]), vals[i]) {
        forall i | 0 <= i < |bs[1..]| ensures Accepts(w, PatternOf(bs[1..][i]), vals[1..][i]) {
          assert Accepts(w, PatternOf(bs[i + 1]), vals[i + 1]);
        }
      }
      if Accepts(w, PatternList(bs), ListOf(vals)) {
        forall i | 0 <= i < |bs| ensures Accepts(w, PatternOf(bs[i]), vals[i]) {
          if i > 0 {
            assert Accepts(w, PatternOf(bs[1..][i - 1]), vals[1..][i - 1]);
          }
        }
      }
    }
  }

  // ---- What names mean part of the way ---------------------------------------------------------

  /** What a name finds when the bindings with some indices are in scope. */
  ghost function Expected(scopes: seq<Scope>, bs: seq<Binding>, vals: seq<SExp>, done: set<int>, x: bytes): Lookup
    requires |vals| == |bs|
  {
    if exists i :: i in done && BoundBy(bs, i, x) then
      var i :| i in done && BoundBy(bs, i, x);
      Part(PatternOf(bs[i]), vals[i], x)
    else LookupVar(scopes, x)
  }

  ghost predicate Reached(cur: seq<Scope>, scopes: seq<Scope>, bs: seq<Binding>, vals: seq<SExp>, done: set<int>)
    requires |vals| == |bs|
  {
    cur != [] && forall x :: LookupVar(cur, x) == Expected(scopes, bs, vals, done, x)
  }

  lemma {:induction false} ExpectedIs(scopes: seq<Scope>, bs: seq<Binding>, vals: seq<SExp>, done: set<int>, x: bytes, i: nat, inner: BodyForm)
    requires |vals| == |bs| && Regular(bs, inner) && i in done && BoundBy(bs, i, x)
    ensures Expected(scopes, bs, vals, done, x) == Part(PatternOf(bs[i]), vals[i], x)
  {
  }

  function UpTo(n: nat): (r: set<int>)
    ensures forall i :: i in r <==> 0 <= i < n
  {
    if n == 0 then {} else UpTo(n - 1) + {n - 1}
  }

  function Indices(stage: seq<Spec>): set<int> { set s | s in stage :: s.index }

  predicate InBounds(bs: seq<Binding>, stage: seq<Spec>) { forall s :: s in stage ==> s.index < |bs| }

  function ValuesOf(stage: seq<Spec>, bs: seq<Binding>, vals: seq<SExp>): (r: seq<SExp>)
    requires |vals| == |bs| && InBounds(bs, stage)
    ensures |r| == |stage|
    ensures forall q :: 0 <= q < |stage| ==> r[q] == vals[stage[q].index]
  {
    seq(|stage|, q requires 0 <= q < |stage| => vals[stage[q].index])
  }

  function StageScope(bs: seq<Binding>, stage: seq<Spec>, vals: seq<SExp>): Scope
    requires |vals| == |bs| && InBounds(bs, stage)
  {
    GroupScope(Pick(bs, stage), ValuesOf(stage, bs, vals))
  }

  /** A stage puts exactly its own bindings into scope. */
  lemma {:induction false} StageReaches(cur: seq<Scope>, scopes: seq<Scope>, bs: seq<Binding>, vals: seq<SExp>, done: set<int>, stage: seq<Spec>,
                     inner: BodyForm)
    requires |vals| == |bs| && InBounds(bs, stage) && Regular(bs, inner) && Reached(cur, scopes, bs, vals, done)
    ensures Reached([StageScope(bs, stage, vals)] + cur, scopes, bs, vals, done + Indices(stage))
  {
    var top := StageScope(bs, stage, vals);
    forall x ensures LookupVar([top] + cur, x) == Expected(scopes, bs, vals, done + Indices(stage), x) {
      StageLookup(cur, scopes, bs, vals, done, stage, inner, x);
    }
  }

  lemma {:induction false} StageLookup(cur: seq<Scope>, scopes: seq<Scope>, bs: seq<Binding>, vals: seq<SExp>, done: set<int>, stage: seq<Spec>,
                    inner: BodyForm, x: bytes)
    requires |vals| == |bs| && InBounds(bs, stage) && Regular(bs, inner) && Reached(cur, scopes, bs, vals, done)
    ensures LookupVar([StageScope(bs, stage, vals)] + cur, x) == Expected(scopes, bs, vals, done + Indices(stage), x)
  {
    var picked, values := Pick(bs, stage), ValuesOf(stage, bs, vals);
    assert ([StageScope(bs, stage, vals)] + cur)[1..] == cur;
    ListBinds(picked, x);
    if exists q :: BoundBy(picked, q, x) {
      var q :| BoundBy(picked, q, x);
      var i := stage[q].index;
      FirstPicked(bs, vals, stage, inner, q, x);
      assert stage[q] in stage && i in Indices(stage) && BoundBy(bs, i, x);
      ExpectedIs(scopes, bs, vals, done + Indices(stage), x, i, inner);
    } else {
      NoneInStage(bs, stage, x);
      assert LookupVar(cur, x) == Expected(scopes, bs, vals, done, x);
      if exists i :: i in done && BoundBy(bs, i, x) {
        var i :| i in done && BoundBy(bs, i, x);
        ExpectedIs(scopes, bs, vals, done, x, i, inner);
        ExpectedIs(scopes, bs, vals, done + Indices(stage), x, i, inner);
      }
    }
  }

  lemma {:induction false} NoneInStage(bs: seq<Binding>, stage: seq<Spec>, x: bytes)
    requires InBounds(bs, stage) && !exists q :: BoundBy(Pick(bs, stage), q, x)
    ensures forall i :: i in Indices(stage) ==> !BoundBy(bs, i, x)
  {
    forall i | i in Indices(stage) ensures !BoundBy(bs, i, x) {
      var s :| s in stage && s.index == i;
      var q :| 0 <= q < |stage| && stage[q] == s;
      assert !BoundBy(Pick(bs, stage), q, x);
    }
  }

  /** A name bound in a stage has its binding's part of its binding's value, even if the stage lists
      the binding more than once. */
  lemma {:induction false} FirstPicked(bs: seq<Binding>, vals: seq<SExp>, stage: seq<Spec>, inner: BodyForm, q: nat, x: bytes)
    requires |vals| == |bs| && InBounds(bs, stage) && Regular(bs, inner) && BoundBy(Pick(bs, stage), q, x)
    ensures Binds(PatternList(Pick(bs, stage)), x)
    ensures Part(PatternList(Pick(bs, stage)), ListOf(ValuesOf(stage, bs, vals)), x) ==
            Part(PatternOf(bs[stage[q].index]), vals[stage[q].index], x)
    decreases q
  {
    var picked, values := Pick(bs, stage), ValuesOf(stage, bs, vals);
    ListBinds(picked, x);
    assert BoundBy(bs, stage[q].index, x);
    assert IsAtCapture(PatternOf(picked[0]), PatternList(picked[1..])) == None;
    if BoundBy(picked, 0, x) {
      assert BoundBy(bs, stage[0].index, x);
    } else {
      assert Pick(bs, stage[1..]) == picked[1..];
      assert ValuesOf(stage[1..], bs, vals) == values[1..];
      FirstPicked(bs, vals, stage[1..], inner, q - 1, x);
    }
  }

  lemma {:induction false} NothingReached(scopes: seq<Scope>, bs: seq<Binding>, vals: seq<SExp>)
    requires |vals| == |bs| && scopes != []
    ensures Reached(scopes, scopes, bs, vals, {})
  {
  }

  /** The scope of all bindings reaches all of them. */
  lemma {:induction false} GroupReaches(scopes: seq<Scope>, bs: seq<Binding>, vals: seq<SExp>, inner: BodyForm)
    requires |vals| == |bs| && Regular(bs, inner) && scopes != []
    ensures Reached([GroupScope(bs, vals)] + scopes, scopes, bs, vals, UpTo(|bs|))
  {
    var all := UpTo(|bs|);
    var cur := [GroupScope(bs, vals)] + scopes;
    forall x ensures LookupVar(cur, x) == Expected(scopes, bs, vals, all, x) {
      assert cur[1..] == scopes;
      ListBinds(bs, x);
      if exists i :: BoundBy(bs, i, x) {
        var i :| BoundBy(bs, i, x);
        ListFinds(bs, vals, i, x);
        ExpectedIs(scopes, bs, vals, all, x, i, inner);
      }
    }
  }

  // ---- Each binding is in one place ------------------------------------------------------------

  predicate NoRepeat(stage: seq<Spec>) { forall a, b :: 0 <= a < b < |stage| ==> stage[a].index != stage[b].index }

  ghost predicate StagesFresh(stages: seq<seq<Spec>>, used: set<int>)
    decreases |stages|
  {
    stages == []
    || (NoRepeat(stages[0]) && Indices(stages[0]) !! used && StagesFresh(stages[1..], used + Indices(stages[0])))
  }

  lemma {:induction false} FlattenFresh(stages: seq<seq<Spec>>, used: set<int>)
    requires NoRepeat(Flatten(stages)) && Indices(Flatten(stages)) !! used
    ensures StagesFresh(stages, used)
    decreases |stages|
  {
    if stages != [] {
      var first, rest := stages[0], Flatten(stages[1..]);
      var all := Flatten(stages);
      assert all == first + rest;
      forall a, b | 0 <= a < b < |first| ensures first[a].index != first[b].index { assert all[a] == first[a] && all[b] == first[b]; }
      forall a, b | 0 <= a < b < |rest| ensures rest[a].index != rest[b].index {
        assert all[|first| + a] == rest[a] && all[|first| + b] == rest[b];
      }
      forall i | i in Indices(rest) ensures i !in used + Indices(first) {
        RestApart(first, rest, used, i);
      }
      assert forall s :: s in first ==> s in all;
      FlattenFresh(stages[1..], used + Indices(first));
    }
  }

  lemma {:induction false} RestApart(first: seq<Spec>, rest: seq<Spec>, used: set<int>, i: int)
    requires NoRepeat(first + rest) && Indices(first + rest) !! used && i in Indices(rest)
    ensures i !in used + Indices(first)
  {
    var all := first + rest;
    var s :| s in rest && s.index == i;
    var b :| 0 <= b < |rest| && rest[b] == s;
    assert all[|first| + b] == s;
    assert i in Indices(all);
    forall t | t in first ensures t.index != i {
      var a :| 0 <= a < |first| && first[a] == t;
      assert all[a] == t;
    }
  }

  lemma {:induction false} AtMostOnce(items: seq<Spec>, e: Spec)
    requires forall i :: 0 <= i < |items| ==> items[i].index == i
    ensures multiset(items)[e] <= 1
  {
    if e in items {
      var i :| 0 <= i < |items| && items[i] == e;
      var before, after := items[..i], items[i + 1..];
      assert items == before + [e] + after;
      assert e !in before && e !in after;
      assert multiset(items) == multiset(before) + multiset{e} + multiset(after);
    }
  }

  lemma {:induction false} AtLeastTwice(order: seq<Spec>, a: nat, b: nat)
    requires a < b < |order| && order[a] == order[b]
    ensures multiset(order)[order[a]] >= 2
  {
    var e := order[a];
    assert order == order[..a] + [e] + order[a + 1..b] + [e] + order[b + 1..];
    assert multiset(order) == multiset(order[..a]) + multiset{e} + multiset(order[a + 1..b]) + multiset{e} + multiset(order[b + 1..]);
  }

  lemma {:induction false} PermutationRepeatsNone(order: seq<Spec>, items: seq<Spec>)
    requires multiset(order) == multiset(items) && forall i :: 0 <= i < |items| ==> items[i].index == i
    ensures NoRepeat(order)
  {
    forall a, b | 0 <= a < b < |order| ensures order[a].index != order[b].index {
      assert order[a] in multiset(items) && order[b] in multiset(items);
      assert order[a] in items && order[b] in items;
      if order[a].index == order[b].index {
        AtLeastTwice(order, a, b);
        AtMostOnce(items, order[a]);
      }
    }
  }

  // ---- From nested lets to equations and back --------------------------------------------------

  function StackOn(cur: seq<Scope>, bs: seq<Binding>, stages: seq<seq<Spec>>, vals: seq<SExp>): (r: seq<Scope>)
    requires |vals| == |bs| && InRange(bs, stages)
    ensures cur != [] ==> r != []
    decreases |stages|
  {
    if stages == [] then cur else StackOn([StageScope(bs, stages[0], vals)] + cur, bs, stages[1..], vals)
  }

  /** Each binding has its value where its stage is evaluated. */
  ghost predicate Solved(w: World, n: nat, cur: seq<Scope>, bs: seq<Binding>, stages: seq<seq<Spec>>, vals: seq<SExp>)
    requires |vals| == |bs| && InRange(bs, stages)
    decreases |stages|
  {
    stages == []
    || ((forall s :: s in stages[0] ==> BodyValue(w, n, cur, bs[s.index]) == Success(vals[s.index])
                                        && Accepts(w, PatternOf(bs[s.index]), vals[s.index]))
        && Solved(w, n, [StageScope(bs, stages[0], vals)] + cur, bs, stages[1..], vals))
  }

  /** The list that parallel bindings make. */
  lemma {:induction false} BindingsList(w: World, n: nat, cur: seq<Scope>, bs: seq<Binding>, vals: seq<SExp>)
    requires |vals| == |bs|
    ensures SemBindings(w, n, cur, bs) == Success(ListOf(vals)) <==>
            forall i :: 0 <= i < |bs| ==> BodyValue(w, n, cur, bs[i]) == Success(vals[i])
    decreases |bs|
  {
    if bs != [] {
      BindingParts(bs, 1);
      BindingsList(w, n, cur, bs[1..], vals[1..]);
      if forall i :: 0 <= i < |bs| ==> BodyValue(w, n, cur, bs[i]) == Success(vals[i]) {
        forall i | 0 <= i < |bs[1..]| ensures BodyValue(w, n, cur, bs[1..][i]) == Success(vals[1..][i]) {
          assert BodyValue(w, n, cur, bs[i + 1]) == Success(vals[i + 1]);
        }
        assert BodyValue(w, n, cur, bs[0]) == Success(vals[0]);
      }
      if SemBindings(w, n, cur, bs) == Success(ListOf(vals)) {
        forall i | 0 <= i < |bs| ensures BodyValue(w, n, cur, bs[i]) == Success(vals[i]) {
          if i > 0 {
            assert BodyValue(w, n, cur, bs[1..][i - 1]) == Success(vals[1..][i - 1]);
          }
        }
      }
    }
  }

  lemma {:induction false} BindingsMakeList(w: World, n: nat, cur: seq<Scope>, bs: seq<Binding>) returns (vals: seq<SExp>)
    requires SemBindings(w, n, cur, bs).Success?
    ensures |vals| == |bs| && SemBindings(w, n, cur, bs) == Success(ListOf(vals))
    decreases |bs|
  {
    if bs == [] {
      vals := [];
    } else {
      var rest := BindingsMakeList(w, n, cur, bs[1..]);
      vals := [Sem(w, n, cur, bs[0].body).value] + rest;
      assert vals[1..] == rest;
    }
  }

  function Update(vals: seq<SExp>, stage: seq<Spec>, news: seq<SExp>): (r: seq<SExp>)
    requires |news| == |stage| && forall s :: s in stage ==> s.index < |vals|
    ensures |r| == |vals|
    decreases |stage|
  {
    if stage == [] then vals else Update(vals, stage[1..], news[1..])[stage[0].index := news[0]]
  }

  lemma {:induction false} Updated(vals: seq<SExp>, stage: seq<Spec>, news: seq<SExp>)
    requires |news| == |stage| && (forall s :: s in stage ==> s.index < |vals|) && NoRepeat(stage)
    ensures forall q :: 0 <= q < |stage| ==> Update(vals, stage, news)[stage[q].index] == news[q]
    ensures forall i :: 0 <= i < |vals| && i !in Indices(stage) ==> Update(vals, stage, news)[i] == vals[i]
    decreases |stage|
  {
    if stage != [] {
      Updated(vals, stage[1..], news[1..]);
      forall q | 0 <= q < |stage| ensures Update(vals, stage, news)[stage[q].index] == news[q] {
        if q > 0 {
          assert stage[1..][q - 1] == stage[q] && news[1..][q - 1] == news[q];
        }
      }
      assert stage[0] in stage;
      assert forall s :: s in stage[1..] ==> s in stage;
    }
  }

  /** Two lists of values agree on some indices. */
  predicate SameOn(a: seq<SExp>, b: seq<SExp>, used: set<int>) {
    |a| == |b| && forall i :: 0 <= i < |a| && i in used ==> a[i] == b[i]
  }

  lemma {:induction false} SameStage(bs: seq<Binding>, stage: seq<Spec>, a: seq<SExp>, b: seq<SExp>, used: set<int>)
    requires |a| == |bs| && InBounds(bs, stage) && SameOn(a, b, used) && Indices(stage) <= used
    ensures StageScope(bs, stage, a) == StageScope(bs, stage, b)
  {
    forall q | 0 <= q < |stage| ensures a[stage[q].index] == b[stage[q].index] {
      assert stage[q] in stage && stage[q].index in Indices(stage);
    }
    assert ValuesOf(stage, bs, a) == ValuesOf(stage, bs, b);
  }

  /** A value of the nested lets comes with values of all bindings. */
  lemma {:induction false} NestSolves(w: World, n: nat, cur: seq<Scope>, inlined: bool, bs: seq<Binding>, stages: seq<seq<Spec>>,
                                      inner: BodyForm, vals: seq<SExp>, used: set<int>, v: SExp) returns (vals': seq<SExp>)
    requires |vals| == |bs| && InRange(bs, stages) && StagesFresh(stages, used)
    requires forall i :: 0 <= i < |bs| ==> PatternOf(bs[i]) != Atom(AT)
    requires Sem(w, n, cur, Nest(inlined, bs, stages, inner)) == Success(v)
    ensures |vals'| == |bs| && SameOn(vals, vals', used)
    ensures Solved(w, n, cur, bs, stages, vals') && Sem(w, n, StackOn(cur, bs, stages, vals'), inner) == Success(v)
    decreases |stages|
  {
    if stages == [] {
      vals' := vals;
    } else {
      var stage, picked := stages[0], Pick(bs, stages[0]);
      var news := BindingsMakeList(w, n, cur, picked);
      var vals1 := Update(vals, stage, news);
      Updated(vals, stage, news);
      assert ValuesOf(stage, bs, vals1) == news;
      var top := StageScope(bs, stage, vals1);
      vals' := NestSolves(w, n, [top] + cur, inlined, bs, stages[1..], inner, vals1, used + Indices(stage), v);
      SameStage(bs, stage, vals1, vals', used + Indices(stage));
      BindingsList(w, n, cur, picked, news);
      ListAccepts(w, picked, news);
      forall s | s in stage ensures BodyValue(w, n, cur, bs[s.index]) == Success(vals'[s.index])
                                    && Accepts(w, PatternOf(bs[s.index]), vals'[s.index]) {
        var q :| 0 <= q < |stage| && stage[q] == s;
        assert s.index in Indices(stage);
        assert BodyValue(w, n, cur, picked[q]) == Success(news[q]) && Accepts(w, PatternOf(picked[q]), news[q]);
      }
    }
  }

  /** And values of all bindings give the nested lets their value. */
  lemma {:induction false} SolvedNests(w: World, n: nat, cur: seq<Scope>, inlined: bool, bs: seq<Binding>, stages: seq<seq<Spec>>,
                                       inner: BodyForm, vals: seq<SExp>, v: SExp)
    requires |vals| == |bs| && InRange(bs, stages)
    requires forall i :: 0 <= i < |bs| ==> PatternOf(bs[i]) != Atom(AT)
    requires Solved(w, n, cur, bs, stages, vals) && Sem(w, n, StackOn(cur, bs, stages, vals), inner) == Success(v)
    ensures Sem(w, n, cur, Nest(inlined, bs, stages, inner)) == Success(v)
    decreases |stages|
  {
    if stages != [] {
      var stage, picked := stages[0], Pick(bs, stages[0]);
      var values := ValuesOf(stage, bs, vals);
      forall q | 0 <= q < |picked|
        ensures BodyValue(w, n, cur, picked[q]) == Success(values[q]) && Accepts(w, PatternOf(picked[q]), values[q])
      {
        assert stage[q] in stage;
      }
      BindingsList(w, n, cur, picked, values);
      ListAccepts(w, picked, values);
      SolvedNests(w, n, [StageScope(bs, stage, vals)] + cur, inlined, bs, stages[1..], inner, vals, v);
    }
  }

  // ---- Nothing but enclosing stages is needed --------------------------------------------------

  /** The items of a list of bindings. */
  ghost predicate Describes(bs: seq<Binding>, s: Spec) {
    s.index < |bs| && s.needs == BodyMentions(bs[s.index]) * Possible(bs, Provides) && s.has == Provides(bs[s.index])
  }

  ghost predicate AllDescribe(bs: seq<Binding>, stages: seq<seq<Spec>>) {
    forall k :: 0 <= k < |stages| ==> forall s :: s in stages[k] ==> Describes(bs, s)
  }

  /** Every name on offer comes from one of some bindings. */
  ghost predicate From(base: Names, bs: seq<Binding>, done: set<int>) {
    forall x :: x in base ==> exists j :: j in done && 0 <= j < |bs| && x in Provides(bs[j])
  }

  lemma {:induction false} ProvidesNames(b: Binding)
    ensures Provides(b) == SExpNames(PatternOf(b))
  {
  }

  lemma {:induction false} ProvidedBy(stage: seq<Spec>, x: bytes)
    requires x in Provided(stage)
    ensures exists s :: s in stage && x in s.has
  {
    var k := |stage| - 1;
    if x !in stage[k].has {
      ProvidedBy(stage[..k], x);
      var s :| s in stage[..k] && x in s.has;
      assert s in stage;
    } else {
      assert stage[k] in stage;
    }
  }

  lemma {:induction false} FromStage(base: Names, bs: seq<Binding>, done: set<int>, stage: seq<Spec>)
    requires From(base, bs, done) && forall s :: s in stage ==> Describes(bs, s)
    ensures From(base + Provided(stage), bs, done + Indices(stage))
  {
    forall x | x in base + Provided(stage)
      ensures exists j :: j in done + Indices(stage) && 0 <= j < |bs| && x in Provides(bs[j])
    {
      if x in base {
        var j :| j in done && 0 <= j < |bs| && x in Provides(bs[j]);
        assert j in done + Indices(stage);
      } else {
        ProvidedBy(stage, x);
        var s :| s in stage && x in s.has;
        assert s.index in Indices(stage);
      }
    }
  }

  /** A name that a binding's body reads finds in its stage what it finds with everything in scope. */
  lemma {:induction false} NeedsAreReached(scopes: seq<Scope>, bs: seq<Binding>, vals: seq<SExp>, inner: BodyForm, base: Names, done: set<int>,
                        s: Spec, x: bytes)
    requires |vals| == |bs| && Regular(bs, inner) && Describes(bs, s) && s.needs <= base && From(base, bs, done)
    requires x in Reads(bs[s.index].body)
    requires forall i :: i in done ==> 0 <= i < |bs|
    ensures Expected(scopes, bs, vals, done, x) == Expected(scopes, bs, vals, UpTo(|bs|), x)
  {
    ReadsAreMentioned(bs[s.index].body);
    assert x in BodyMentions(bs[s.index]) && x != AT;
    if exists j :: j in UpTo(|bs|) && BoundBy(bs, j, x) {
      var j :| j in UpTo(|bs|) && BoundBy(bs, j, x);
      ProvidesNames(bs[j]);
      PossibleHas(bs, Provides, j);
      assert Honest(PatternOf(bs[j])) && x in s.needs && x in base;
      var k :| k in done && 0 <= k < |bs| && x in Provides(bs[k]);
      ProvidesNames(bs[k]);
      assert BoundBy(bs, k, x);
      ExpectedIs(scopes, bs, vals, done, x, k, inner);
      ExpectedIs(scopes, bs, vals, UpTo(|bs|), x, j, inner);
    }
  }

  lemma {:induction false} SameInStage(w: World, n: nat, cur: seq<Scope>, scopes: seq<Scope>, bs: seq<Binding>, vals: seq<SExp>, inner: BodyForm,
                    base: Names, done: set<int>, s: Spec)
    requires |vals| == |bs| && Regular(bs, inner) && Describes(bs, s) && s.needs <= base && From(base, bs, done)
    requires scopes != [] && Reached(cur, scopes, bs, vals, done)
    requires forall i :: i in done ==> 0 <= i < |bs|
    ensures BodyValue(w, n, cur, bs[s.index]) == BodyValue(w, n, [GroupScope(bs, vals)] + scopes, bs[s.index])
  {
    var body, all := bs[s.index].body, [GroupScope(bs, vals)] + scopes;
    GroupReaches(scopes, bs, vals, inner);
    ReadsAreMentioned(body);
    assert NoEnv(BodyMentions(bs[s.index]));
    forall x | x in Reads(body) ensures LookupVar(cur, x) == LookupVar(all, x) {
      NeedsAreReached(scopes, bs, vals, inner, base, done, s, x);
    }
    SameMeaning(w, n, cur, all, Reads(body), body);
  }

  /** The equations, stage by stage. */
  ghost predicate StagesHold(w: World, n: nat, all: seq<Scope>, bs: seq<Binding>, stages: seq<seq<Spec>>, vals: seq<SExp>)
    requires |vals| == |bs| && InRange(bs, stages)
    decreases |stages|
  {
    stages == []
    || ((forall s :: s in stages[0] ==> BodyValue(w, n, all, bs[s.index]) == Success(vals[s.index])
                                        && Accepts(w, PatternOf(bs[s.index]), vals[s.index]))
        && StagesHold(w, n, all, bs, stages[1..], vals))
  }

  lemma {:induction false} SolvedIsHolding(w: World, n: nat, cur: seq<Scope>, scopes: seq<Scope>, bs: seq<Binding>,
                                           stages: seq<seq<Spec>>, vals: seq<SExp>, inner: BodyForm, base: Names, done: set<int>)
    requires |vals| == |bs| && InRange(bs, stages) && Regular(bs, inner) && AllDescribe(bs, stages)
    requires Staged(stages, base) && From(base, bs, done) && scopes != [] && Reached(cur, scopes, bs, vals, done)
    requires forall i :: i in done ==> 0 <= i < |bs|
    ensures Solved(w, n, cur, bs, stages, vals) <==> StagesHold(w, n, [GroupScope(bs, vals)] + scopes, bs, stages, vals)
    ensures Reached(StackOn(cur, bs, stages, vals), scopes, bs, vals, done + Indices(Flatten(stages)))
    decreases |stages|
  {
    if stages == [] {
      assert done + Indices(Flatten(stages)) == done;
    } else {
      var stage := stages[0];
      forall s | s in stage
        ensures BodyValue(w, n, cur, bs[s.index]) == BodyValue(w, n, [GroupScope(bs, vals)] + scopes, bs[s.index])
      {
        assert Describes(bs, s);
        SameInStage(w, n, cur, scopes, bs, vals, inner, base, done, s);
      }
      StageReaches(cur, scopes, bs, vals, done, stage, inner);
      FromStage(base, bs, done, stage);
      SolvedIsHolding(w, n, [StageScope(bs, stage, vals)] + cur, scopes, bs, stages[1..], vals, inner,
                      base + Provided(stage), done + Indices(stage));
      IndicesBoth(stage, Flatten(stages[1..]));
      assert done + Indices(stage) + Indices(Flatten(stages[1..])) == done + Indices(Flatten(stages));
    }
  }

  lemma {:induction false} IndicesBoth(a: seq<Spec>, b: seq<Spec>)
    ensures Indices(a + b) == Indices(a) + Indices(b)
  {
    forall i | i in Indices(a) + Indices(b) ensures i in Indices(a + b) {
      if i in Indices(a) {
        var s :| s in a && s.index == i;
        assert s in a + b;
      } else {
        var s :| s in b && s.index == i;
        assert s in a + b;
      }
    }
  }

  /** Each binding's equation. */
  ghost predicate Holds(w: World, n: nat, all: seq<Scope>, bs: seq<Binding>, vals: seq<SExp>, i: int)
    requires |vals| == |bs|
  {
    0 <= i < |bs| && BodyValue(w, n, all, bs[i]) == Success(vals[i]) && Accepts(w, PatternOf(bs[i]), vals[i])
  }

  lemma {:induction false} HoldingIsAll(w: World, n: nat, all: seq<Scope>, bs: seq<Binding>, stages: seq<seq<Spec>>, vals: seq<SExp>)
    requires |vals| == |bs| && InRange(bs, stages)
    ensures StagesHold(w, n, all, bs, stages, vals) <==> forall s :: s in Flatten(stages) ==> Holds(w, n, all, bs, vals, s.index)
    decreases |stages|
  {
    if stages != [] {
      HoldingIsAll(w, n, all, bs, stages[1..], vals);
      assert forall s :: s in Flatten(stages) <==> s in stages[0] || s in Flatten(stages[1..]);
    }
  }

  /** The stages of an assign form hold each binding, described as it is. */
  lemma {:induction false} StagesDescribe(bs: seq<Binding>)
    requires SortBindings(bs).Known?
    ensures var stages := Stages(SortBindings(bs).value, {}, {}, []);
            InRange(bs, stages) && AllDescribe(bs, stages) && Staged(stages, {}) && StagesFresh(stages, {})
            && (forall s :: s in Flatten(stages) ==> s.index < |bs|)
            && Indices(Flatten(stages)) == UpTo(|bs|)
  {
    AssignStages(bs);
    StagesInRange(bs);
    var stages, items := Stages(SortBindings(bs).value, {}, {}, []), BindingItems(bs);
    var order := Flatten(stages);
    forall s | s in order ensures s in items && s.index < |bs| { assert s in multiset(order); assert s in multiset(items); }
    forall k, s: Spec | 0 <= k < |stages| && s in stages[k] ensures Describes(bs, s) {
      FlattenHas(stages, k, s);
    }
    PermutationRepeatsNone(order, items);
    FlattenFresh(stages, {});
    forall i | i in UpTo(|bs|) ensures i in Indices(order) {
      assert items[i] in multiset(items);
      assert items[i] in multiset(order);
    }
  }

  /** An assign form means v exactly when some values satisfy all its bindings at once and its body
      means v with all of them in scope. */
  lemma {:induction false} AssignIsEquations(w: World, n: nat, scopes: seq<Scope>, inlined: bool, bs: seq<Binding>, inner: BodyForm, v: SExp)
    requires bs != [] && scopes != [] && Regular(bs, inner) && HoistAssign(inlined, bs, inner).Some?
    ensures Sem(w, n, scopes, Let(Assign, inlined, bs, inner)) == Success(v) <==>
            exists vals :: Equations(w, n, scopes, bs, vals) && Sem(w, n, [GroupScope(bs, vals)] + scopes, inner) == Success(v)
  {
    StagesDescribe(bs);
    var stages := Stages(SortBindings(bs).value, {}, {}, []);
    HoistedAssignIsLighter(inlined, bs, inner);
    assert Sem(w, n, scopes, Let(Assign, inlined, bs, inner)) == Sem(w, n, scopes, Nest(inlined, bs, stages, inner));
    if Sem(w, n, scopes, Nest(inlined, bs, stages, inner)) == Success(v) {
      var start := seq(|bs|, _ => Nil);
      var vals := NestSolves(w, n, scopes, inlined, bs, stages, inner, start, {}, v);
      StagesAreEquations(w, n, scopes, bs, stages, vals, inner);
    }
    if exists vals :: Equations(w, n, scopes, bs, vals) && Sem(w, n, [GroupScope(bs, vals)] + scopes, inner) == Success(v) {
      var vals :| Equations(w, n, scopes, bs, vals) && Sem(w, n, [GroupScope(bs, vals)] + scopes, inner) == Success(v);
      StagesAreEquations(w, n, scopes, bs, stages, vals, inner);
      SolvedNests(w, n, scopes, inlined, bs, stages, inner, vals, v);
    }
  }

  lemma {:induction false} StagesAreEquations(w: World, n: nat, scopes: seq<Scope>, bs: seq<Binding>, stages: seq<seq<Spec>>, vals: seq<SExp>,
                           inner: BodyForm)
    requires |vals| == |bs| && scopes != [] && Regular(bs, inner)
    requires InRange(bs, stages) && AllDescribe(bs, stages) && Staged(stages, {}) && Indices(Flatten(stages)) == UpTo(|bs|)
    ensures Solved(w, n, scopes, bs, stages, vals) <==> Equations(w, n, scopes, bs, vals)
    ensures Sem(w, n, StackOn(scopes, bs, stages, vals), inner) == Sem(w, n, [GroupScope(bs, vals)] + scopes, inner)
  {
    var all := [GroupScope(bs, vals)] + scopes;
    NothingReached(scopes, bs, vals);
    SolvedIsHolding(w, n, scopes, scopes, bs, stages, vals, inner, {}, {});
    HoldingIsAll(w, n, all, bs, stages, vals);
    EveryIndex(w, n, scopes, bs, Flatten(stages), vals);
    GroupReaches(scopes, bs, vals, inner);
    assert {} + UpTo(|bs|) == UpTo(|bs|);
    SameMeaning(w, n, StackOn(scopes, bs, stages, vals), all, Reads(inner), inner);
  }

  lemma {:induction false} EachEquation(w: World, n: nat, scopes: seq<Scope>, bs: seq<Binding>, vals: seq<SExp>)
    requires |vals| == |bs|
    ensures Equations(w, n, scopes, bs, vals) <==>
            forall i :: 0 <= i < |bs| ==> Holds(w, n, [GroupScope(bs, vals)] + scopes, bs, vals, i)
  {
    if forall i :: 0 <= i < |bs| ==> Holds(w, n, [GroupScope(bs, vals)] + scopes, bs, vals, i) {
      forall i | 0 <= i < |bs|
        ensures Accepts(w, PatternOf(bs[i]), vals[i])
                && BodyValue(w, n, [GroupScope(bs, vals)] + scopes, bs[i]) == Success(vals[i])
      {
        assert Holds(w, n, [GroupScope(bs, vals)] + scopes, bs, vals, i);
      }
    }
  }

  lemma {:induction false} EveryIndex(w: World, n: nat, scopes: seq<Scope>, bs: seq<Binding>, order: seq<Spec>, vals: seq<SExp>)
    requires |vals| == |bs| && Indices(order) == UpTo(|bs|)
    ensures Equations(w, n, scopes, bs, vals) <==>
            forall s :: s in order ==> Holds(w, n, [GroupScope(bs, vals)] + scopes, bs, vals, s.index)
  {
    EachEquation(w, n, scopes, bs, vals);
    var all := [GroupScope(bs, vals)] + scopes;
    if Equations(w, n, scopes, bs, vals) {
      forall s | s in order ensures Holds(w, n, all, bs, vals, s.index) {
        assert s.index in Indices(order);
      }
    }
    if forall s :: s in order ==> Holds(w, n, all, bs, vals, s.index) {
      forall i | 0 <= i < |bs| ensures Holds(w, n, all, bs, vals, i) {
        assert i in Indices(order);
        var s :| s in order && s.index == i;
        assert Holds(w, n, all, bs, vals, s.index);
      }
    }
  }

  // ---- The order in which bindings are written --------------------------------------------------

  lemma {:induction false} GroupFinds(bs: seq<Binding>, vals: seq<SExp>, inner: BodyForm, s: seq<Scope>, i: nat, x: bytes)
    requires Regular(bs, inner) && |vals| == |bs| && BoundBy(bs, i, x)
    ensures LookupVar([GroupScope(bs, vals)] + s, x) == Part(PatternOf(bs[i]), vals[i], x)
  {
    ListFinds(bs, vals, i, x);
  }

  lemma {:induction false} GroupSkips(bs: seq<Binding>, vals: seq<SExp>, inner: BodyForm, s: seq<Scope>, x: bytes)
    requires Regular(bs, inner) && |vals| == |bs| && forall i :: !BoundBy(bs, i, x)
    ensures LookupVar([GroupScope(bs, vals)] + s, x) == LookupVar(s, x)
  {
    ListBinds(bs, x);
    assert ([GroupScope(bs, vals)] + s)[1..] == s;
  }

  /** The same bindings, perhaps written in another order. */
  ghost predicate SameBindings(a: seq<Binding>, b: seq<Binding>)
    ensures SameBindings(a, b) ==> forall x :: x in a <==> x in b
  {
    assert multiset(a) == multiset(b) ==> forall x :: (x in a ==> x in multiset(b)) && (x in b ==> x in multiset(a));
    multiset(a) == multiset(b)
  }

  /** The value that a list of values has for a binding. */
  function ValueFor(bs: seq<Binding>, vals: seq<SExp>, b: Binding): (v: SExp)
    requires |vals| == |bs| && b in bs
    ensures exists i :: 0 <= i < |bs| && bs[i] == b && vals[i] == v
  {
    if bs[0] == b then vals[0] else ValueFor(bs[1..], vals[1..], b)
  }

  function Rearranged(bs: seq<Binding>, vals: seq<SExp>, other: seq<Binding>): (r: seq<SExp>)
    requires |vals| == |bs| && forall b :: b in other ==> b in bs
    ensures |r| == |other| && forall j :: 0 <= j < |other| ==> r[j] == ValueFor(bs, vals, other[j])
  {
    seq(|other|, j requires 0 <= j < |other| => ValueFor(bs, vals, other[j]))
  }

  lemma {:induction false} AlsoBound(bs: seq<Binding>, other: seq<Binding>, i: nat, x: bytes)
    requires SameBindings(bs, other) && BoundBy(bs, i, x)
    ensures exists j: nat :: BoundBy(other, j, x)
  {
    assert bs[i] in other;
    var j: nat :| j < |other| && other[j] == bs[i];
    assert BoundBy(other, j, x);
  }

  /** The scopes of two orders of the same bindings look the same. */
  lemma {:induction false} SameLookups(bs: seq<Binding>, vals: seq<SExp>, other: seq<Binding>, inner: BodyForm, s: seq<Scope>, x: bytes)
    requires |vals| == |bs| && Regular(bs, inner) && Regular(other, inner) && SameBindings(bs, other)
    ensures LookupVar([GroupScope(other, Rearranged(bs, vals, other))] + s, x) == LookupVar([GroupScope(bs, vals)] + s, x)
  {
    var moved := Rearranged(bs, vals, other);
    if j: nat :| BoundBy(other, j, x) {
      var i :| 0 <= i < |bs| && bs[i] == other[j] && vals[i] == moved[j];
      assert BoundBy(bs, i, x);
      GroupFinds(bs, vals, inner, s, i, x);
      GroupFinds(other, moved, inner, s, j, x);
    } else {
      forall i ensures !BoundBy(bs, i, x) {
        if BoundBy(bs, i, x) {
          AlsoBound(bs, other, i, x);
        }
      }
      GroupSkips(bs, vals, inner, s, x);
      GroupSkips(other, moved, inner, s, x);
    }
  }

  lemma {:induction false} OtherOrder(w: World, n: nat, s: seq<Scope>, inlined: bool, bs: seq<Binding>, other: seq<Binding>, inner: BodyForm, v: SExp)
    requires bs != [] && other != [] && s != [] && Regular(bs, inner) && Regular(other, inner) && SameBindings(bs, other)
    requires HoistAssign(inlined, bs, inner).Some? && HoistAssign(inlined, other, inner).Some?
    requires Sem(w, n, s, Let(Assign, inlined, bs, inner)) == Success(v)
    ensures Sem(w, n, s, Let(Assign, inlined, other, inner)) == Success(v)
  {
    AssignIsEquations(w, n, s, inlined, bs, inner, v);
    var vals :| Equations(w, n, s, bs, vals) && Sem(w, n, [GroupScope(bs, vals)] + s, inner) == Success(v);
    var moved := Rearranged(bs, vals, other);
    var before, now := [GroupScope(bs, vals)] + s, [GroupScope(other, moved)] + s;
    forall x ensures LookupVar(now, x) == LookupVar(before, x) {
      SameLookups(bs, vals, other, inner, s, x);
    }
    forall j | 0 <= j < |other|
      ensures Accepts(w, PatternOf(other[j]), moved[j]) && BodyValue(w, n, now, other[j]) == Success(moved[j])
    {
      var i :| 0 <= i < |bs| && bs[i] == other[j] && vals[i] == moved[j];
      SameMeaning(w, n, now, before, Reads(other[j].body), other[j].body);
    }
    assert Equations(w, n, s, other, moved);
    SameMeaning(w, n, now, before, Reads(inner), inner);
    AssignIsEquations(w, n, s, inlined, other, inner, v);
  }

  // ---- Whether they can be put in order does not depend on how they are written -----------------

  /** What sorting looks at in an item. */
  function Links(items: seq<Spec>): (r: seq<(Names, Names)>)
    ensures |r| == |items| && forall i :: 0 <= i < |items| ==> r[i] == (items[i].needs, items[i].has)
  {
    if items == [] then [] else [(items[0].needs, items[0].has)] + Links(items[1..])
  }

  function BindingLink(possible: Names, b: Binding): (Names, Names) { (BodyMentions(b) * possible, Provides(b)) }

  function BindingLinks(possible: Names, bs: seq<Binding>): (r: seq<(Names, Names)>)
    ensures |r| == |bs| && forall i :: 0 <= i < |bs| ==> r[i] == BindingLink(possible, bs[i])
  {
    if bs == [] then [] else [BindingLink(possible, bs[0])] + BindingLinks(possible, bs[1..])
  }

  lemma {:induction false} WithoutAt<T>(a: seq<T>, b: seq<T>, k: nat)
    requires a != [] && k < |b| && b[k] == a[0] && multiset(a) == multiset(b)
    ensures multiset(a[1..]) == multiset(b[..k] + b[k + 1..])
  {
    assert b == b[..k] + ([b[k]] + b[k + 1..]);
    assert a == [a[0]] + a[1..];
    assert multiset(a[1..]) == multiset(a) - multiset{a[0]};
    assert multiset(b[..k] + b[k + 1..]) == multiset(b) - multiset{b[k]};
  }

  lemma {:induction false} BindingLinksWithout(possible: Names, bs: seq<Binding>, k: nat)
    requires k < |bs|
    ensures BindingLinks(possible, bs[..k] + bs[k + 1..]) == BindingLinks(possible, bs)[..k] + BindingLinks(possible, bs)[k + 1..]
  {
    var left, l := bs[..k] + bs[k + 1..], BindingLinks(possible, bs);
    forall i | 0 <= i < |left| ensures BindingLinks(possible, left)[i] == (l[..k] + l[k + 1..])[i] {
      assert left[i] == if i < k then bs[i] else bs[i + 1];
    }
  }

  lemma {:induction false} LinksPermute(possible: Names, a: seq<Binding>, b: seq<Binding>)
    requires multiset(a) == multiset(b)
    ensures multiset(BindingLinks(possible, a)) == multiset(BindingLinks(possible, b))
  {
    if a == [] {
      assert |multiset(b)| == |b| == 0;
    } else {
      assert a[0] in multiset(b);
      var k :| 0 <= k < |b| && b[k] == a[0];
      WithoutAt(a, b, k);
      LinksPermute(possible, a[1..], b[..k] + b[k + 1..]);
      BindingLinksWithout(possible, b, k);
      TakeOut(BindingLinks(possible, b), k);
      PutFirst(BindingLink(possible, a[0]), BindingLinks(possible, a[1..]));
    }
  }

  lemma {:induction false} PossibleIsProvided(bs: seq<Binding>, x: bytes)
    requires x in Possible(bs, Provides)
    ensures exists b :: b in bs && x in Provides(b)
  {
    if x !in Provides(bs[|bs| - 1]) {
      PossibleIsProvided(bs[..|bs| - 1], x);
    }
  }

  lemma {:induction false} SamePossible(bs: seq<Binding>, other: seq<Binding>)
    requires SameBindings(bs, other)
    ensures Possible(bs, Provides) <= Possible(other, Provides)
  {
    forall x | x in Possible(bs, Provides) ensures x in Possible(other, Provides) {
      PossibleIsProvided(bs, x);
      var b :| b in bs && x in Provides(b);
      var i :| 0 <= i < |other| && other[i] == b;
      PossibleHas(other, Provides, i);
    }
  }

  lemma {:induction false} LinksWithout(items: seq<Spec>, k: nat)
    requires k < |items|
    ensures Links(items[..k] + items[k + 1..]) == Links(items)[..k] + Links(items)[k + 1..]
  {
    var left, l := items[..k] + items[k + 1..], Links(items);
    forall i | 0 <= i < |left| ensures Links(left)[i] == (l[..k] + l[k + 1..])[i] {
      assert left[i] == if i < k then items[i] else items[i + 1];
    }
  }

  lemma {:induction false} TakeOut<T>(l: seq<T>, k: nat)
    requires k < |l|
    ensures multiset(l) == multiset(l[..k] + l[k + 1..]) + multiset{l[k]}
  {
    assert l == l[..k] + ([l[k]] + l[k + 1..]);
  }

  lemma {:induction false} PutFirst<T>(x: T, l: seq<T>)
    ensures multiset([x] + l) == multiset(l) + multiset{x}
  {
  }

  lemma {:induction false} FirstLink(x: Spec, rest: seq<Spec>)
    ensures Links([x] + rest) == [(x.needs, x.has)] + Links(rest)
  {
    assert ([x] + rest)[1..] == rest;
  }

  /** Items put in the order of others with the same needs and names. */
  lemma {:induction false} Rearrange(order: seq<Spec>, items: seq<Spec>) returns (r: seq<Spec>)
    requires multiset(Links(order)) == multiset(Links(items))
    ensures multiset(r) == multiset(items) && Links(r) == Links(order)
  {
    if order == [] {
      assert |multiset(Links(items))| == |items| == 0;
      r := [];
    } else {
      var k := FindLink(order, items);
      var left := items[..k] + items[k + 1..];
      WithoutLink(order, items, k);
      var rest := Rearrange(order[1..], left);
      r := [items[k]] + rest;
      TakeOut(items, k);
      PutFirst(items[k], rest);
      FirstLink(items[k], rest);
      FirstLink(order[0], order[1..]);
      assert order == [order[0]] + order[1..];
    }
  }

  lemma {:induction false} FindLink(order: seq<Spec>, items: seq<Spec>) returns (k: nat)
    requires order != [] && multiset(Links(order)) == multiset(Links(items))
    ensures k < |items| && Links(items)[k] == Links(order)[0]
  {
    var l := Links(items);
    assert Links(order)[0] in multiset(Links(order));
    assert Links(order)[0] in multiset(l);
    k :| 0 <= k < |l| && l[k] == Links(order)[0];
  }

  lemma {:induction false} WithoutLink(order: seq<Spec>, items: seq<Spec>, k: nat)
    requires order != [] && multiset(Links(order)) == multiset(Links(items))
    requires k < |items| && Links(items)[k] == Links(order)[0]
    ensures multiset(Links(order[1..])) == multiset(Links(items[..k] + items[k + 1..]))
  {
    WithoutAt(Links(order), Links(items), k);
    LinksWithout(items, k);
    FirstLink(order[0], order[1..]);
    assert order == [order[0]] + order[1..];
  }

  lemma {:induction false} LinksDecide(a: seq<Spec>, b: seq<Spec>, n: nat)
    requires Links(a) == Links(b) && n <= |a|
    ensures |a| == |b| && Provided(a[..n]) == Provided(b[..n]) && (Covered(a, n) <==> Covered(b, n))
  {
    assert |Links(a)| == |Links(b)|;
    if n > 0 {
      LinksDecide(a, b, n - 1);
      assert a[..n][..n - 1] == a[..n - 1] && b[..n][..n - 1] == b[..n - 1];
      assert Links(a)[n - 1] == Links(b)[n - 1];
    }
  }

  lemma {:induction false} LinksOfItems(bs: seq<Binding>)
    ensures Links(BindingItems(bs)) == BindingLinks(Possible(bs, Provides), bs)
  {
  }

  lemma {:induction false} LinksOfOrder(a: seq<Spec>, b: seq<Spec>)
    requires multiset(a) == multiset(b)
    ensures multiset(Links(a)) == multiset(Links(b))
  {
    if a == [] {
      assert |multiset(b)| == |b| == 0;
    } else {
      assert a[0] in multiset(b);
      var k :| 0 <= k < |b| && b[k] == a[0];
      WithoutAt(a, b, k);
      LinksOfOrder(a[1..], b[..k] + b[k + 1..]);
      LinksWithout(b, k);
      TakeOut(Links(b), k);
      PutFirst((a[0].needs, a[0].has), Links(a[1..]));
    }
  }

  lemma {:induction false} SameLinks(bs: seq<Binding>, other: seq<Binding>)
    requires SameBindings(bs, other)
    ensures multiset(Links(BindingItems(bs))) == multiset(Links(BindingItems(other)))
  {
    var possible := Possible(bs, Provides);
    SamePossible(bs, other);
    SamePossible(other, bs);
    assert Possible(other, Provides) == possible;
    LinksPermute(possible, bs, other);
    LinksOfItems(bs);
    LinksOfItems(other);
  }

  lemma {:induction false} OtherSorts(bs: seq<Binding>, other: seq<Binding>)
    requires SameBindings(bs, other) && SortBindings(bs).Known?
    ensures SortBindings(other).Known?
  {
    SameLinks(bs, other);
    SortsAlike(BindingItems(bs), BindingItems(other));
  }

  lemma {:induction false} SortsAlike(items: seq<Spec>, moved: seq<Spec>)
    requires multiset(Links(items)) == multiset(Links(moved)) && SortItems(items).Known?
    ensures SortItems(moved).Known?
  {
    var order := SortItems(items).value;
    SortIsExact(items);
    LinksOfOrder(order, items);
    var good := Rearrange(order, moved);
    LinksDecide(order, good, |order|);
    assert GoodOrder(good, moved);
    SortIsExact(moved);
  }

  lemma {:induction false} SortAlike(inlined: bool, bs: seq<Binding>, other: seq<Binding>, inner: BodyForm)
    requires Regular(bs, inner) && Regular(other, inner) && SameBindings(bs, other)
    ensures HoistAssign(inlined, bs, inner).Some? <==> HoistAssign(inlined, other, inner).Some?
  {
    if SortBindings(bs).Known? {
      OtherSorts(bs, other);
    }
    if SortBindings(other).Known? {
      OtherSorts(other, bs);
    }
  }

  /** The order in which the bindings of an assign form are written does not matter, neither for
      whether they can be put in order nor for what the form means. */
  lemma {:induction false} OrderDoesNotMatter(w: World, n: nat, s: seq<Scope>, inlined: bool, bs: seq<Binding>, other: seq<Binding>, inner: BodyForm,
                                              v: SExp)
    requires s != [] && Regular(bs, inner) && Regular(other, inner) && SameBindings(bs, other)
    ensures HoistAssign(inlined, bs, inner).Some? <==> HoistAssign(inlined, other, inner).Some?
    ensures Sem(w, n, s, Let(Assign, inlined, bs, inner)) == Success(v) <==> Sem(w, n, s, Let(Assign, inlined, other, inner)) == Success(v)
  {
    SortAlike(inlined, bs, other, inner);
    if Sem(w, n, s, Let(Assign, inlined, bs, inner)) == Success(v) {
      OtherOrder(w, n, s, inlined, bs, other, inner, v);
    }
    if Sem(w, n, s, Let(Assign, inlined, other, inner)) == Success(v) {
      OtherOrder(w, n, s, inlined, other, bs, inner, v);
    }
  }
}
