/** The meaning of an expression depends only on the names it reads. */
module Relevance {
  import opened Numbers
  import opened SExpressions
  import opened Machine
  import opened Syntax
  import opened AssignForms
  import opened AssignWeight
  import opened Semantics

  /** Every name an expression can look up. */
  function Reads(e: BodyForm): Names {
    match e
    case Let(_, _, bs, inner) => BindingsRead(bs) + Reads(inner)
    case Value(v) => SExpNames(v)
    case Call(forms, tail) => FormsRead(forms) + (if tail.Some? then Reads(tail.value) else {})
    case _ => {}
  }

  function BodyReads(b: Binding): Names { Reads(b.body) }

  function BindingsRead(bs: seq<Binding>): Names {
    if bs == [] then {} else BodyReads(bs[0]) + BindingsRead(bs[1..])
  }

  function FormsRead(forms: seq<BodyForm>): Names {
    if forms == [] then {} else Reads(forms[0]) + FormsRead(forms[1..])
  }

  lemma {:induction false} ReadsAreMentioned(e: BodyForm)
    ensures Reads(e) <= Mentions(e)
    decreases Weight(e), 1
  {
    match e
    case Let(_, _, bs, inner) =>
      WeightPerBinding(bs);
      BindingsReadMentioned(bs);
      ReadsAreMentioned(inner);
    case Call(forms, tail) =>
      WeightParts(e);
      FormsReadMentioned(forms);
      if tail.Some? {
        ReadsAreMentioned(tail.value);
      }
    case _ =>
  }

  lemma {:induction false} BindingsReadMentioned(bs: seq<Binding>)
    ensures BindingsRead(bs) <= BindingsMention(bs)
    decreases BindingsWeight(bs, 1), 2
  {
    if bs != [] {
      BindingParts(bs, 1);
      ReadsAreMentioned(bs[0].body);
      BindingsReadMentioned(bs[1..]);
      assert BodyReads(bs[0]) <= BodyMentions(bs[0]);
    }
  }

  lemma {:induction false} FormsReadMentioned(forms: seq<BodyForm>)
    ensures FormsRead(forms) <= FormsMention(forms)
    decreases FormsWeight(forms), 2
  {
    if forms != [] {
      ReadsAreMentioned(forms[0]);
      FormsReadMentioned(forms[1..]);
    }
  }

  // ---- Assign forms read what their bindings and bodies read ----------------------------------

  lemma {:induction false} BindingReadsAt(bs: seq<Binding>, i: nat)
    requires i < |bs|
    ensures BodyReads(bs[i]) <= BindingsRead(bs)
  {
    if i > 0 {
      BindingReadsAt(bs[1..], i - 1);
    }
  }

  lemma {:induction false} PickedRead(bs: seq<Binding>, names: Names)
    requires forall i :: 0 <= i < |bs| ==> BodyReads(bs[i]) <= names
    ensures BindingsRead(bs) <= names
  {
    if bs != [] {
      PickedRead(bs[1..], names);
    }
  }

  lemma {:induction false} NestReads(inlined: bool, bs: seq<Binding>, stages: seq<seq<Spec>>, body: BodyForm)
    requires InRange(bs, stages)
    ensures Reads(Nest(inlined, bs, stages, body)) <= BindingsRead(bs) + Reads(body)
    decreases |stages|
  {
    if stages != [] {
      NestReads(inlined, bs, stages[1..], body);
      var picked := Pick(bs, stages[0]);
      forall i | 0 <= i < |picked| ensures BodyReads(picked[i]) <= BindingsRead(bs) {
        BindingReadsAt(bs, stages[0][i].index);
      }
      PickedRead(picked, BindingsRead(bs));
    }
  }

  lemma {:induction false} HoistedReads(inlined: bool, bs: seq<Binding>, body: BodyForm)
    requires HoistAssign(inlined, bs, body).Some?
    ensures Reads(HoistAssign(inlined, bs, body).value) <= BindingsRead(bs) + Reads(body)
  {
    StagesInRange(bs);
    NestReads(inlined, bs, Stages(SortBindings(bs).value, {}, {}, []), body);
  }

  // ---- Only those names matter -----------------------------------------------------------------

  /** Scopes that give the same to some names; the whole environment is one of the things that may be
      read. */
  ghost predicate Alike(s: seq<Scope>, t: seq<Scope>, names: Names) {
    s != [] && t != []
    && (forall x :: x in names ==> LookupVar(s, x) == LookupVar(t, x))
    && (s == t || (|s| > 1 && |t| > 1) || (AT !in names && AT_ENV !in names))
  }

  lemma {:induction false} AlikeInside(s: seq<Scope>, t: seq<Scope>, names: Names, x: Scope, inner: Names)
    requires Alike(s, t, names) && inner <= names
    ensures Alike([x] + s, [x] + t, inner)
  {
    forall y | y in inner ensures LookupVar([x] + s, y) == LookupVar([x] + t, y) {
      assert ([x] + s)[1..] == s && ([x] + t)[1..] == t;
    }
  }

  lemma {:induction false} AtomAlike(w: World, s: seq<Scope>, t: seq<Scope>, names: Names, a: bytes)
    requires Alike(s, t, names) && a in names
    ensures AtomMeaning(w, s, a) == AtomMeaning(w, t, a)
  {
  }

  lemma {:induction false} SameMeaning(w: World, n: nat, s: seq<Scope>, t: seq<Scope>, names: Names, e: BodyForm)
    requires Alike(s, t, names) && Reads(e) <= names
    ensures Sem(w, n, s, e) == Sem(w, n, t, e)
    decreases n, Weight(e), 1
  {
    match e
    case Value(v) =>
      if v.Atom? {
        AtomAlike(w, s, t, names, v.name);
      } else if v.Integer? {
        AtomAlike(w, s, t, names, U8FromNumber(v.value));
      }
    case Let(Parallel, _, bs, inner) =>
      SameBindings(w, n, s, t, names, bs);
      var vs := SemBindings(w, n, s, bs);
      if vs.Success? && Accepts(w, PatternList(bs), vs.value) {
        AlikeInside(s, t, names, Scope(PatternList(bs), vs.value), names);
        SameMeaning(w, n, [Scope(PatternList(bs), vs.value)] + s, [Scope(PatternList(bs), vs.value)] + t, names, inner);
      }
    case Let(Sequential, _, bs, inner) => SameSequence(w, n, s, t, names, bs, inner);
    case Let(Assign, inlined, bs, inner) =>
      if bs != [] && HoistAssign(inlined, bs, inner) != None {
        HoistedAssignIsLighter(inlined, bs, inner);
        HoistedReads(inlined, bs, inner);
        SameMeaning(w, n, s, t, names, HoistAssign(inlined, bs, inner).value);
      }
    case Call(forms, tail) => SameCall(w, n, s, t, names, forms, tail);
    case _ =>
  }

  lemma {:induction false} SameCall(w: World, n: nat, s: seq<Scope>, t: seq<Scope>, names: Names, forms: seq<BodyForm>,
                                    tail: Option<BodyForm>)
    requires Alike(s, t, names) && Reads(Call(forms, tail)) <= names
    ensures Sem(w, n, s, Call(forms, tail)) == Sem(w, n, t, Call(forms, tail))
    decreases n, Weight(Call(forms, tail)), 0
  {
    WeightParts(Call(forms, tail));
    if forms != [] && CallName(forms[0]).Some? {
      HeadRead(forms[0]);
      SameArgs(w, n, s, t, names, forms[1..], tail);
      SameArgs(w, n, s, t, names, forms[1..], None);
    }
  }

  lemma {:induction false} HeadRead(head: BodyForm)
    requires CallName(head).Some?
    ensures CallName(head).value in Reads(head)
  {
  }

  lemma {:induction false} SameArgs(w: World, n: nat, s: seq<Scope>, t: seq<Scope>, names: Names, args: seq<BodyForm>,
                                    tail: Option<BodyForm>)
    requires Alike(s, t, names) && FormsRead(args) <= names && (tail.Some? ==> Reads(tail.value) <= names)
    ensures SemArgs(w, n, s, args, tail) == SemArgs(w, n, t, args, tail)
    decreases n, FormsWeight(args) + TailWeight(tail), 2
  {
    if args == [] {
      if tail.Some? {
        SameMeaning(w, n, s, t, names, tail.value);
      }
    } else {
      SameArgs(w, n, s, t, names, args[1..], tail);
      SameMeaning(w, n, s, t, names, args[0]);
    }
  }

  lemma {:induction false} SameBindings(w: World, n: nat, s: seq<Scope>, t: seq<Scope>, names: Names, bs: seq<Binding>)
    requires Alike(s, t, names) && BindingsRead(bs) <= names
    ensures SemBindings(w, n, s, bs) == SemBindings(w, n, t, bs)
    decreases n, BindingsWeight(bs, 1), 2
  {
    if bs != [] {
      BindingParts(bs, 1);
      assert BodyReads(bs[0]) == Reads(bs[0].body);
      SameMeaning(w, n, s, t, names, bs[0].body);
      SameBindings(w, n, s, t, names, bs[1..]);
    }
  }

  lemma {:induction false} SameSequence(w: World, n: nat, s: seq<Scope>, t: seq<Scope>, names: Names, bs: seq<Binding>,
                                        inner: BodyForm)
    requires Alike(s, t, names) && BindingsRead(bs) <= names && Reads(inner) <= names
    ensures SemSequence(w, n, s, bs, inner) == SemSequence(w, n, t, bs, inner)
    decreases n, BindingsWeight(bs, 1) + Weight(inner), 2
  {
    if bs == [] {
      SameMeaning(w, n, s, t, names, inner);
    } else {
      BindingParts(bs, 1);
      assert BodyReads(bs[0]) == Reads(bs[0].body);
      SameMeaning(w, n, s, t, names, bs[0].body);
      var v := Sem(w, n, s, bs[0].body);
      if v.Success? && Accepts(w, PatternList([bs[0]]), Cons(v.value, Nil)) {
        var x := Scope(PatternList([bs[0]]), Cons(v.value, Nil));
        AlikeInside(s, t, names, x, names);
        SameSequence(w, n, [x] + s, [x] + t, names, bs[1..], inner);
      }
    }
  }
}
