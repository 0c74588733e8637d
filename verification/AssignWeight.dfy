/** Splitting an assign form leaves less to do. */
module AssignWeight {
  import opened SExpressions
  import opened Syntax
  import opened Toposort
  import opened AssignForms

  function SpecsWeight(bs: seq<Binding>, specs: seq<Spec>): nat
    requires forall s :: s in specs ==> s.index < |bs|
  {
    if specs == [] then 0 else 1 + BodyWeight(bs[specs[0].index]) + SpecsWeight(bs, specs[1..])
  }

  lemma {:induction false} SpecsWeightConcat(bs: seq<Binding>, a: seq<Spec>, b: seq<Spec>)
    requires forall s :: s in a + b ==> s.index < |bs|
    ensures (forall s :: s in a ==> s.index < |bs|) && (forall s :: s in b ==> s.index < |bs|)
    ensures SpecsWeight(bs, a + b) == SpecsWeight(bs, a) + SpecsWeight(bs, b)
  {
    assert forall s :: s in a ==> s in a + b;
    assert forall s :: s in b ==> s in a + b;
    if a == [] {
      assert a + b == b;
    } else {
      assert (a + b)[1..] == a[1..] + b;
      SpecsWeightConcat(bs, a[1..], b);
    }
  }

  lemma {:induction false} SpecsWeightPermutes(bs: seq<Binding>, a: seq<Spec>, b: seq<Spec>)
    requires multiset(a) == multiset(b)
    requires forall s :: s in a ==> s.index < |bs|
    ensures forall s :: s in b ==> s.index < |bs|
    ensures SpecsWeight(bs, a) == SpecsWeight(bs, b)
    decreases |a|
  {
    forall s | s in b ensures s.index < |bs| { assert s in multiset(b); assert s in multiset(a); }
    if a == [] {
      assert |multiset(a)| == |multiset(b)| == |b| == 0;
    } else {
      assert a[0] in multiset(b);
      var k :| 0 <= k < |b| && b[k] == a[0];
      WithoutFirst(a, b, k);
      SpecsWeightPermutes(bs, a[1..], b[..k] + b[k + 1..]);
      SpecsWeightWithout(bs, b, k);
    }
  }

  lemma {:induction false} WithoutFirst(a: seq<Spec>, b: seq<Spec>, k: nat)
    requires a != [] && k < |b| && b[k] == a[0] && multiset(a) == multiset(b)
    ensures multiset(a[1..]) == multiset(b[..k] + b[k + 1..])
  {
    assert b == b[..k] + ([b[k]] + b[k + 1..]);
    assert a == [a[0]] + a[1..];
    assert multiset(a[1..]) == multiset(a) - multiset{a[0]};
    assert multiset(b[..k] + b[k + 1..]) == multiset(b) - multiset{b[k]};
  }

  lemma {:induction false} SpecsWeightWithout(bs: seq<Binding>, b: seq<Spec>, k: nat)
    requires k < |b| && forall s :: s in b ==> s.index < |bs|
    ensures forall s :: s in b[..k] + b[k + 1..] ==> s.index < |bs|
    ensures SpecsWeight(bs, b) == SpecsWeight(bs, b[..k] + b[k + 1..]) + 1 + BodyWeight(bs[b[k].index])
  {
    if k == 0 {
      assert b[..0] + b[1..] == b[1..];
    } else {
      SpecsWeightWithout(bs, b[1..], k - 1);
      var c := b[..k] + b[k + 1..];
      assert c[0] == b[0] && c[1..] == b[1..][..k - 1] + b[1..][k..];
    }
  }

  lemma {:induction false} PickWeight(bs: seq<Binding>, specs: seq<Spec>)
    requires forall s :: s in specs ==> s.index < |bs|
    ensures BindingsWeight(Pick(bs, specs), 1) == SpecsWeight(bs, specs)
  {
    if specs != [] {
      PickWeight(bs, specs[1..]);
      assert Pick(bs, specs)[1..] == Pick(bs, specs[1..]);
    }
  }

  lemma {:induction false} NestWeight(inlined: bool, bs: seq<Binding>, stages: seq<seq<Spec>>, body: BodyForm)
    requires InRange(bs, stages)
    ensures forall s :: s in Flatten(stages) ==> s.index < |bs|
    ensures Weight(Nest(inlined, bs, stages, body)) == |stages| + SpecsWeight(bs, Flatten(stages)) + Weight(body)
    decreases |stages|
  {
    if stages != [] {
      NestWeight(inlined, bs, stages[1..], body);
      PickWeight(bs, stages[0]);
      forall s | s in Flatten(stages) ensures s.index < |bs| {
        assert s in stages[0] || s in Flatten(stages[1..]);
      }
      SpecsWeightConcat(bs, stages[0], Flatten(stages[1..]));
    }
  }

  lemma {:induction false} StagesFew(stages: seq<seq<Spec>>, base: Names)
    requires Staged(stages, base)
    ensures |stages| <= |Flatten(stages)|
    decreases |stages|
  {
    if stages != [] {
      StagesFew(stages[1..], base + Provided(stages[0]));
    }
  }

  lemma {:induction false} ItemsWeight(bs: seq<Binding>, items: seq<Spec>, k: nat)
    requires k <= |bs| == |items| && forall i :: 0 <= i < |bs| ==> items[i].index == i
    ensures SpecsWeight(bs, items[k..]) == BindingsWeight(bs[k..], 1)
    ensures BindingsWeight(bs[k..], 2) == BindingsWeight(bs[k..], 1) + |bs| - k
    decreases |bs| - k
  {
    if k < |bs| {
      ItemsWeight(bs, items, k + 1);
      assert items[k..][1..] == items[k + 1..] && bs[k..][1..] == bs[k + 1..];
    }
  }

  /** The nested lets weigh less than the assign form they replace. */
  lemma {:induction false} HoistedAssignIsLighter(inlined: bool, bs: seq<Binding>, body: BodyForm)
    requires HoistAssign(inlined, bs, body).Some?
    ensures Weight(HoistAssign(inlined, bs, body).value) < Weight(Let(Assign, inlined, bs, body))
  {
    AssignStages(bs);
    StagesInRange(bs);
    var stages := Stages(SortBindings(bs).value, {}, {}, []);
    var items := BindingItems(bs);
    NestWeight(inlined, bs, stages, body);
    StagesFew(stages, {});
    assert |multiset(Flatten(stages))| == |multiset(items)|;
    SpecsWeightPermutes(bs, Flatten(stages), items);
    ItemsWeight(bs, items, 0);
    assert items[0..] == items && bs[0..] == bs;
  }

  /** The bindings in dependency order. */
  function InOrder(bs: seq<Binding>): (r: seq<Binding>)
    requires SortBindings(bs).Known?
    ensures |r| == |SortBindings(bs).value|
  {
    SortedInRange(bs);
    Pick(bs, SortBindings(bs).value)
  }

  lemma {:induction false} InOrderWeight(bs: seq<Binding>)
    requires SortBindings(bs).Known?
    ensures BindingsWeight(InOrder(bs), 1) <= BindingsWeight(bs, 2)
  {
    SortIsExact(BindingItems(bs));
    SortedInRange(bs);
    PickWeight(bs, SortBindings(bs).value);
    SpecsWeightPermutes(bs, SortBindings(bs).value, BindingItems(bs));
    ItemsWeight(bs, BindingItems(bs), 0);
    assert BindingItems(bs)[0..] == BindingItems(bs) && bs[0..] == bs;
  }

  /** Dependency order holds each binding once. */
  lemma {:induction false} InOrderHolds(bs: seq<Binding>)
    requires SortBindings(bs).Known?
    ensures var order := SortBindings(bs).value;
            |InOrder(bs)| == |bs| && (forall k :: 0 <= k < |order| ==> order[k].index < |bs| && InOrder(bs)[k] == bs[order[k].index])
            && (forall b :: b in InOrder(bs) <==> b in bs)
  {
    var order := SortBindings(bs).value;
    SortIsExact(BindingItems(bs));
    SortedInRange(bs);
    assert |multiset(order)| == |multiset(BindingItems(bs))|;
    forall k | 0 <= k < |order| ensures order[k].index < |bs| && InOrder(bs)[k] == bs[order[k].index] {
      assert order[k] in order;
    }
    forall b | b in bs ensures b in InOrder(bs) {
      var i: nat :| i < |bs| && bs[i] == b;
      EveryIndexSorted(bs, i);
      var s :| s in order && s.index == i;
      var k :| 0 <= k < |order| && order[k] == s;
      assert InOrder(bs)[k] == b;
    }
  }
}
