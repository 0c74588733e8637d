/** Replacing free names in assign forms does not change how they are put in order. */
module RenamingAssigns {
  import opened Numbers
  import opened SExpressions
  import opened Syntax
  import opened Toposort
  import opened AssignForms
  import opened Relevance
  import opened AssignMeaning
  import opened HoistingNames
  import opened Renaming
  import opened RenamingNames

  ghost predicate Unmoved(m: NameMap, x: bytes) { x !in m && forall y :: y in m ==> m[y] != x }

  /** Names that are neither replaced nor new are mentioned as before. */
  lemma {:induction false} MentionsKept(m: NameMap, e: BodyForm, x: bytes)
    requires Unmoved(m, x)
    ensures x in Mentions(RenameIn(m, e)) <==> x in Mentions(e)
    decreases Weight(e), 1
  {
    match e
    case Let(_, _, bs, inner) =>
      WeightPerBinding(bs);
      BindingsMentionKept(m, bs, x);
      MentionsKept(m, inner, x);
    case Call(forms, tail) =>
      WeightParts(e);
      if forms != [] {
        FormsMentionKept(m, forms[1..], x);
        var r := RenameIn(m, e);
        assert r.forms[0] == forms[0] && r.forms[1..] == RenameInForms(m, forms[1..]);
      }
      if tail.Some? {
        MentionsKept(m, tail.value, x);
      }
    case _ =>
  }

  lemma {:induction false} BindingsMentionKept(m: NameMap, bs: seq<Binding>, x: bytes)
    requires Unmoved(m, x)
    ensures x in BindingsMention(RenameInBindings(m, bs)) <==> x in BindingsMention(bs)
    decreases BindingsWeight(bs, 1), 2
  {
    if bs != [] {
      BindingParts(bs, 1);
      var b := RenameInBody(m, bs[0]);
      MentionsKept(m, bs[0].body, x);
      BindingsMentionKept(m, bs[1..], x);
      assert BodyMentions(b) == Mentions(b.body) && BodyMentions(bs[0]) == Mentions(bs[0].body) && PatternOf(b) == PatternOf(bs[0]);
    }
  }

  lemma {:induction false} FormsMentionKept(m: NameMap, forms: seq<BodyForm>, x: bytes)
    requires Unmoved(m, x)
    ensures x in FormsMention(RenameInForms(m, forms)) <==> x in FormsMention(forms)
    decreases FormsWeight(forms), 2
  {
    if forms != [] {
      MentionsKept(m, forms[0], x);
      FormsMentionKept(m, forms[1..], x);
    }
  }

  lemma {:induction false} PossibleIs(bs: seq<Binding>, x: bytes)
    ensures x in Possible(bs, Provides) <==> exists i :: 0 <= i < |bs| && x in Provides(bs[i])
  {
    if bs != [] {
      var front := bs[..|bs| - 1];
      PossibleIs(front, x);
      if i :| 0 <= i < |bs| && x in Provides(bs[i]) {
        assert i == |bs| - 1 || front[i] == bs[i];
      }
      if i :| 0 <= i < |front| && x in Provides(front[i]) {
        assert bs[i] == front[i];
      }
    }
  }

  lemma {:induction false} PossibleIsAtoms(bs: seq<Binding>)
    requires WordsOnly(PatternList(bs))
    ensures Possible(bs, Provides) == Atoms(PatternList(bs))
  {
    forall x ensures x in Possible(bs, Provides) <==> x in Atoms(PatternList(bs)) {
      PossibleIs(bs, x);
      if i :| 0 <= i < |bs| && x in Provides(bs[i]) {
        Member(true, bs, bs[i]);
        WordsAreAtoms(PatternOf(bs[i]));
        ProvidesNames(bs[i]);
      }
      if x in Atoms(PatternList(bs)) {
        AtomIsProvided(bs, x);
      }
    }
  }

  lemma {:induction false} AtomIsProvided(bs: seq<Binding>, x: bytes)
    requires WordsOnly(PatternList(bs)) && x in Atoms(PatternList(bs))
    ensures exists i :: 0 <= i < |bs| && x in Provides(bs[i])
  {
    WordsAreAtoms(PatternOf(bs[0]));
    ProvidesNames(bs[0]);
    if x !in Provides(bs[0]) {
      AtomIsProvided(bs[1..], x);
      var i :| 0 <= i < |bs[1..]| && x in Provides(bs[1..][i]);
      assert x in Provides(bs[i + 1]);
    }
  }

  /** Invented between `lo` and `mid` for names that are older. */
  ghost predicate Replaces(m: NameMap, lo: nat, mid: nat) { Invents(m, lo, mid) && forall x :: x in m ==> Before(x, mid) }

  lemma {:induction false} LaterIsUnmoved(m: NameMap, lo: nat, mid: nat, hi: nat, x: bytes)
    requires Replaces(m, lo, mid) && (x == AT || FreshName(x, mid, hi))
    ensures Unmoved(m, x)
  {
    if x != AT && x in m {
      FreshAfter(x, mid, hi, x);
    }
    forall y | y in m ensures m[y] != x {
      InventedIsFresh(m, y, lo, mid);
      if x != AT {
        FreshApart(m[y], lo, mid, x, mid, hi);
      }
    }
  }

  /** What each binding needs and has stays as it is. */
  lemma {:induction false} ItemsKept(m: NameMap, lo: nat, mid: nat, hi: nat, bs: seq<Binding>)
    requires Replaces(m, lo, mid) && WordsOnly(PatternList(bs)) && AllFresh(Named(PatternList(bs)), mid, hi)
    ensures BindingItems(RenameInBindings(m, bs)) == BindingItems(bs)
  {
    var r := RenameInBindings(m, bs);
    SamePatterns(m, bs);
    PossibleIsAtoms(bs);
    PossibleIsAtoms(r);
    var possible := Atoms(PatternList(bs));
    forall i | 0 <= i < |bs| ensures BodyMentions(r[i]) * possible == BodyMentions(bs[i]) * possible && Provides(r[i]) == Provides(bs[i]) {
      RenameInAt(m, bs, i);
      forall x | x in possible ensures x in BodyMentions(r[i]) <==> x in BodyMentions(bs[i]) {
        assert x == AT || x in Named(PatternList(bs));
        LaterIsUnmoved(m, lo, mid, hi, x);
        MentionsKept(m, bs[i].body, x);
      }
    }
  }

  lemma {:induction false} RenameInAt(m: NameMap, bs: seq<Binding>, i: nat)
    requires i < |bs|
    ensures RenameInBindings(m, bs)[i] == RenameInBody(m, bs[i])
  {
    if i > 0 {
      RenameInAt(m, bs[1..], i - 1);
    }
  }

  lemma {:induction false} PickRenamed(m: NameMap, bs: seq<Binding>, specs: seq<Spec>)
    requires forall s :: s in specs ==> s.index < |bs|
    ensures Pick(RenameInBindings(m, bs), specs) == RenameInBindings(m, Pick(bs, specs))
  {
    var a, b := Pick(RenameInBindings(m, bs), specs), RenameInBindings(m, Pick(bs, specs));
    forall i | 0 <= i < |specs| ensures a[i] == b[i] {
      assert specs[i] in specs;
      RenameInAt(m, bs, specs[i].index);
      RenameInAt(m, Pick(bs, specs), i);
    }
  }

  lemma {:induction false} NestRenamed(m: NameMap, inlined: bool, bs: seq<Binding>, stages: seq<seq<Spec>>, inner: BodyForm)
    requires InRange(bs, stages)
    ensures Nest(inlined, RenameInBindings(m, bs), stages, RenameIn(m, inner)) == RenameIn(m, Nest(inlined, bs, stages, inner))
    decreases |stages|
  {
    if stages != [] {
      PickRenamed(m, bs, stages[0]);
      NestRenamed(m, inlined, bs, stages[1..], inner);
    }
  }

  /** Splitting an assign form into nested lets and replacing free names can be done in either order. */
  lemma {:induction false} HoistingCommutes(m: NameMap, lo: nat, mid: nat, hi: nat, inlined: bool, bs: seq<Binding>, inner: BodyForm)
    requires Replaces(m, lo, mid) && WordsOnly(PatternList(bs)) && AllFresh(Named(PatternList(bs)), mid, hi)
    ensures HoistAssign(inlined, RenameInBindings(m, bs), RenameIn(m, inner)) ==
            match HoistAssign(inlined, bs, inner) case None => None case Some(h) => Some(RenameIn(m, h))
  {
    ItemsKept(m, lo, mid, hi, bs);
    if SortBindings(bs).Known? {
      StagesInRange(bs);
      NestRenamed(m, inlined, bs, Stages(SortBindings(bs).value, {}, {}, []), inner);
    }
  }

  // ---- The nested lets -------------------------------------------------------------------------

  lemma {:induction false} NestParts(strict: bool, inlined: bool, bs: seq<Binding>, stages: seq<seq<Spec>>, inner: BodyForm)
    requires InRange(bs, stages) && Renameable(PatternList(bs)) && BindingsUnfolded(bs) && Unfolded(inner)
    ensures var r := Nest(inlined, bs, stages, inner);
            Unfolded(r) && Binders(r) <= Named(PatternList(bs)) + BindingsBinders(bs) + Binders(inner)
            && Fixed(strict, r) <= BindingsFixed(strict, bs) + Fixed(strict, inner)
    decreases |stages|
  {
    if stages != [] {
      NestParts(strict, inlined, bs, stages[1..], inner);
      var picked := Pick(bs, stages[0]);
      forall b | b in picked ensures b in bs {
        var i :| 0 <= i < |picked| && picked[i] == b;
        assert b == bs[stages[0][i].index];
      }
      Members(strict, picked, bs);
    }
  }

  /** What an assign form binds and spells out, its nested lets do not exceed. */
  lemma {:induction false} HoistedParts(strict: bool, inlined: bool, bs: seq<Binding>, inner: BodyForm)
    requires Unfolded(Let(Assign, inlined, bs, inner)) && HoistAssign(inlined, bs, inner).Some?
    ensures var e, r := Let(Assign, inlined, bs, inner), HoistAssign(inlined, bs, inner).value;
            Unfolded(r) && Binders(r) <= Binders(e) && Fixed(strict, r) <= Fixed(strict, e) && Reads(r) <= Reads(e)
  {
    StagesInRange(bs);
    NestParts(strict, inlined, bs, Stages(SortBindings(bs).value, {}, {}, []), inner);
    HoistedReads(inlined, bs, inner);
  }
}
