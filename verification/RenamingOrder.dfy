/** Renamed assign forms can be put in order again, and still bind no name twice. */
module RenamingOrder {
  import opened Numbers
  import opened SExpressions
  import opened Syntax
  import opened Toposort
  import opened AssignForms
  import opened AssignWeight
  import opened Relevance
  import opened AssignMeaning
  import opened Gensyms
  import opened HoistingNames
  import opened Renaming
  import opened RenamingNames
  import opened RenamingAssigns
  import opened RenamingMentions
  import opened RenamingPatterns

  // ---- One binding of many ---------------------------------------------------------------------

  lemma {:induction false} PatternAt(m: NameMap, r: seq<Binding>, bs: seq<Binding>, k: nat)
    requires |r| == |bs| && k < |bs| && PatternList(r) == RenamePattern(m, PatternList(bs))
    ensures PatternOf(r[k]) == RenamePattern(m, PatternOf(bs[k]))
  {
    if k > 0 {
      PatternAt(m, r[1..], bs[1..], k - 1);
    }
  }

  /** What renaming in order needs to know of the bindings. */
  ghost predicate Orderly(strict: bool, bs: seq<Binding>, m: NameMap, lo: nat, count: nat) {
    BindingsNameable(strict, bs) && GroupNameable(bs) && AllComplex(bs) && Invents(m, lo, count) && lo <= count
    && m.Keys !! Named(PatternList(bs)) && BindingsFixed(strict, bs) !! (m.Keys + Named(PatternList(bs)))
  }

  /** The step of the first binding. */
  lemma {:induction false} FirstInOrder(strict: bool, hintless: bool, bs: seq<Binding>, m: NameMap, lo: nat, count: nat)
    requires Orderly(strict, bs, m, lo, count) && bs != []
    ensures var own := InventNames(bs[0].pattern.pattern, m, count);
            var body := RenameArgs(hintless, bs[0].body, own.next);
            Invents(own.names, lo, own.next) && own.names.Keys == m.Keys + Named(PatternOf(bs[0]))
            && Orderly(strict, bs[1..], own.names, lo, body.next) && own.next <= body.next <= RenameInOrder(hintless, bs[1..], own.names, body.next).next
            && (forall x :: x in own.names ==> NewName(RenameInOrder(hintless, bs[1..], own.names, body.next).names, x) == own.names[x])
            && var rest := RenameInOrder(hintless, bs[1..], own.names, body.next);
               forall x :: x in rest.names && x !in own.names ==> FreshName(rest.names[x], body.next, rest.next)
    decreases |bs|, 0
  {
    var p := bs[0].pattern.pattern;
    InventsNames(p, m, lo, count);
    var first := InventNames(p, m, count);
    var body := RenameArgs(hintless, bs[0].body, first.next);
    InventsLater(first.names, lo, first.next, body.next);
    assert AllComplex(bs[1..]) && BodyFixed(strict, bs[0]) == Fixed(strict, bs[0].body);
    assert Named(PatternList(bs)) == Named(p) + Named(PatternList(bs[1..]));
    BindingParts(bs, 1);
    RenameInOrderShape(strict, hintless, bs[1..], first.names, lo, body.next);
    NewOnesAreFresh(strict, hintless, bs[1..], first.names, lo, body.next);
  }

  lemma {:induction false} NewOnesAreFresh(strict: bool, hintless: bool, bs: seq<Binding>, m: NameMap, lo: nat, count: nat)
    requires Orderly(strict, bs, m, lo, count)
    ensures var g := RenameInOrder(hintless, bs, m, count); forall x :: x in g.names && x !in m ==> FreshName(g.names[x], count, g.next)
    decreases |bs|, 1
  {
    if bs != [] {
      FirstInOrder(strict, hintless, bs, m, lo, count);
      Unfolds(hintless, bs, m, count);
      var p := bs[0].pattern.pattern;
      var own := InventNames(p, m, count);
      var body := RenameArgs(hintless, bs[0].body, own.next);
      var g := RenameInOrder(hintless, bs, m, count);
      forall x | x in g.names && x !in m ensures FreshName(g.names[x], count, g.next) {
        if x in own.names {
          StaysOrNew(p, m, count, x);
          FreshWider(own.names[x], count, own.next, count, g.next);
        } else {
          FreshWider(g.names[x], body.next, g.next, count, g.next);
        }
      }
    }
  }

  lemma {:induction false} StaysOrNew(p: SExp, m: NameMap, count: nat, x: bytes)
    requires x in InventNames(p, m, count).names
    ensures var r := InventNames(p, m, count); (x in m && r.names[x] == m[x]) || FreshName(r.names[x], count, r.next)
  {
    match p
    case Atom(name) =>
      if name != AT {
        assert FreshName(Gensym(name, count), count, count + 1);
      }
    case Cons(a, b) =>
      var left := InventNames(a, m, count);
      var r := InventNames(b, left.names, left.next);
      StaysOrNew(b, left.names, left.next, x);
      if x in left.names && r.names[x] == left.names[x] {
        StaysOrNew(a, m, count, x);
        if !(x in m && r.names[x] == m[x]) {
          FreshWider(r.names[x], count, left.next, count, r.next);
        }
      } else {
        FreshWider(r.names[x], left.next, r.next, count, r.next);
      }
    case _ =>
  }

  lemma {:induction false} NamedFirst(bs: seq<Binding>, k: nat)
    requires k < |bs|
    ensures Named(PatternList(bs[..k + 1])) == Named(PatternOf(bs[0])) + Named(PatternList(bs[1..][..k]))
  {
    assert bs[..k + 1][1..] == bs[1..][..k];
  }

  /** What a map says about the names it shares with a smaller one. */
  ghost predicate Extends(whole: NameMap, part: NameMap) { forall x :: x in part ==> NewName(whole, x) == part[x] }

  /** How one binding of a group was renamed. */
  ghost predicate RenamedAt(hintless: bool, b: Binding, r: Binding, g: RenamedGroup, own: NameMap, c: nat) {
    Extends(g.names, own) && RenameArgs(hintless, b.body, c).next <= g.next
    && r.body == RenameIn(own, RenameArgs(hintless, b.body, c).value) && r.pattern.Complex?
    && forall x :: x in g.names && x !in own ==> FreshName(g.names[x], RenameArgs(hintless, b.body, c).next, g.next)
  }

  lemma {:induction false} Unfolds(hintless: bool, bs: seq<Binding>, m: NameMap, count: nat)
    requires bs != [] && bs[0].pattern.Complex?
    ensures var p := bs[0].pattern.pattern;
            var own := InventNames(p, m, count);
            var body := RenameArgs(hintless, bs[0].body, own.next);
            var rest, g := RenameInOrder(hintless, bs[1..], own.names, body.next), RenameInOrder(hintless, bs, m, count);
            g.names == rest.names && g.next == rest.next && g.bindings[1..] == rest.bindings
            && g.bindings[0] == Binding(Complex(RenameInCons(own.names, p, false)), RenameIn(own.names, body.value))
  {
    BindingParts(bs, 1);
  }

  /** The map and the counter with which a binding is renamed, between the ones before and after it. */
  lemma {:induction false} InOrderAt(strict: bool, hintless: bool, bs: seq<Binding>, m: NameMap, lo: nat, count: nat, k: nat)
    returns (own: NameMap, c: nat)
    requires Orderly(strict, bs, m, lo, count) && k < |bs|
    ensures count <= c && Invents(own, lo, c) && own.Keys == m.Keys + Named(PatternList(bs[..k + 1]))
    ensures var g := RenameInOrder(hintless, bs, m, count); RenamedAt(hintless, bs[k], g.bindings[k], g, own, c)
    decreases |bs|
  {
    FirstInOrder(strict, hintless, bs, m, lo, count);
    Unfolds(hintless, bs, m, count);
    var first := InventNames(bs[0].pattern.pattern, m, count);
    var body := RenameArgs(hintless, bs[0].body, first.next);
    var g, rest := RenameInOrder(hintless, bs, m, count), RenameInOrder(hintless, bs[1..], first.names, body.next);
    NamedFirst(bs, k);
    if k == 0 {
      assert Named(PatternList(bs[1..][..0])) == {};
      own, c := first.names, first.next;
    } else {
      own, c := InOrderAt(strict, hintless, bs[1..], first.names, lo, body.next, k - 1);
      assert g.bindings[k] == rest.bindings[k - 1];
      SameRun(hintless, bs[k], g.bindings[k], rest, g, own, c);
    }
  }

  lemma {:induction false} SameRun(hintless: bool, b: Binding, r: Binding, g: RenamedGroup, g': RenamedGroup, own: NameMap, c: nat)
    requires RenamedAt(hintless, b, r, g, own, c) && g.names == g'.names && g.next == g'.next
    ensures RenamedAt(hintless, b, r, g', own, c)
  {
  }

  // ---- Order -----------------------------------------------------------------------------------

  /** A binding mentions only names of the group that earlier bindings provide. */
  lemma {:induction false} NeedsEarlier(bs: seq<Binding>, k: nat, x: bytes)
    requires SortBindings(bs).Known? && WordsOnly(PatternList(bs)) && k < |InOrder(bs)|
    requires x in BodyMentions(InOrder(bs)[k]) && x in Atoms(PatternList(bs))
    ensures x in Atoms(PatternList(InOrder(bs)[..k]))
  {
    var order, picked := SortBindings(bs).value, InOrder(bs);
    InOrderHolds(bs);
    SortIsExact(BindingItems(bs));
    CoveredAt(order, |order|, k);
    PossibleIsAtoms(bs);
    ItemAt(bs, k);
    assert x in order[k].needs;
    ProvidedBy(order[..k], x);
    var s :| s in order[..k] && x in s.has;
    var j :| 0 <= j < k && order[..k][j] == s;
    ItemAt(bs, j);
    ProvidesNames(picked[j]);
    assert picked[j] in bs && picked[..k][j] == picked[j];
    Member(true, bs, picked[j]);
    WordsAreAtoms(PatternOf(picked[j]));
    Member(true, picked[..k], picked[j]);
  }

  lemma {:induction false} ItemAt(bs: seq<Binding>, k: nat)
    requires SortBindings(bs).Known? && k < |SortBindings(bs).value|
    ensures var s, b := SortBindings(bs).value[k], InOrder(bs)[k];
            s.needs == BodyMentions(b) * Possible(bs, Provides) && s.has == Provides(b)
  {
    var order := SortBindings(bs).value;
    InOrderHolds(bs);
    SortIsExact(BindingItems(bs));
    assert order[k] in multiset(order);
    assert order[k] in multiset(BindingItems(bs));
    assert order[k] in BindingItems(bs);
  }

  // ---- The renamed group -----------------------------------------------------------------------

  /** A group of bindings that renaming starts with. */
  ghost predicate Startable(strict: bool, bs: seq<Binding>, inner: BodyForm, count: nat) {
    AssignGroup(strict, bs, inner) && BindingsNameable(strict, bs) && NamesBefore(BindingsMention(bs), count)
  }

  function RenamedRun(hintless: bool, bs: seq<Binding>, count: nat): RenamedGroup
    requires SortBindings(bs).Known?
  {
    RenameInOrder(hintless, InOrder(bs), map[], count)
  }

  lemma {:induction false} OrderlyStart(strict: bool, hintless: bool, bs: seq<Binding>, inner: BodyForm, count: nat)
    requires Startable(strict, bs, inner, count)
    ensures Orderly(strict, InOrder(bs), map[], count, count) && OrderShaped(strict, InOrder(bs), map[], RenamedRun(hintless, bs, count), count)
    ensures NamesBefore(Named(PatternList(bs)), count) && Named(PatternList(InOrder(bs))) == Named(PatternList(bs))
  {
    InOrderGroup(strict, bs);
    RenameInOrderShape(strict, hintless, InOrder(bs), map[], count, count);
    NamedAreMentioned(bs);
    BeforeFewer(BindingsMention(bs), Named(PatternList(bs)), count, count);
  }

  /** Where a name in a renamed pattern comes from. */
  lemma {:induction false} RenamedAtoms(m: NameMap, p: SExp, z: bytes)
    requires z in Atoms(RenamePattern(m, p))
    ensures exists y :: y in Atoms(p) && NewName(m, y) == z
  {
    match p
    case Atom(a) => assert a in Atoms(p);
    case Cons(a, b) =>
      if z in Atoms(RenamePattern(m, a)) {
        RenamedAtoms(m, a, z);
        var y :| y in Atoms(a) && NewName(m, y) == z;
        assert y in Atoms(p);
      } else {
        RenamedAtoms(m, b, z);
        var y :| y in Atoms(b) && NewName(m, y) == z;
        assert y in Atoms(p);
      }
    case _ =>
  }

  lemma {:induction false} AtomsRenamed(m: NameMap, p: SExp, y: bytes)
    requires y in Atoms(p)
    ensures NewName(m, y) in Atoms(RenamePattern(m, p))
  {
    if p.Cons? {
      if y in Atoms(p.first) {
        AtomsRenamed(m, p.first, y);
      } else {
        AtomsRenamed(m, p.rest, y);
      }
    }
  }

  lemma {:induction false} PatternsUpTo(m: NameMap, r: seq<Binding>, bs: seq<Binding>, k: nat)
    requires |r| == |bs| && k <= |bs| && PatternList(r) == RenamePattern(m, PatternList(bs))
    ensures PatternList(r[..k]) == RenamePattern(m, PatternList(bs[..k]))
  {
    if k > 0 {
      PatternsUpTo(m, r[1..], bs[1..], k - 1);
      assert r[..k][1..] == r[1..][..k - 1] && bs[..k][1..] == bs[1..][..k - 1];
    }
  }

  /** If a renamed body mentions the new name of an old one, the body mentioned the old name, and the
      binding comes no earlier than the old name's. */
  lemma {:induction false} OldNameMentioned(strict: bool, hintless: bool, b: Binding, r: Binding, g: RenamedGroup, own: NameMap, lo: nat, c: nat,
                                            y: bytes)
    requires RenamedAt(hintless, b, r, g, own, c) && Invents(own, lo, c) && lo <= c && Nameable(strict, b.body) && NamesBefore(BodyMentions(b), lo)
    requires y in g.names && Before(y, lo) && y != LET_NAME && FreshName(g.names[y], lo, g.next) && g.names[y] in BodyMentions(r)
    ensures y in own && y in BodyMentions(b)
  {
    var body := RenameArgs(hintless, b.body, c);
    var z := g.names[y];
    RenameArgsMentions(strict, hintless, b.body, c);
    RenameInCame(own, body.value);
    assert BodyMentions(r) == Mentions(r.body) && BodyMentions(b) == Mentions(b.body);
    assert Came(own, Mentions(body.value), z);
    if z in Mentions(body.value) {
      NewIsNotMentioned(b, body, g, own, lo, c, y);
    } else {
      var y' :| y' in own && y' in Mentions(body.value) && own[y'] == z;
      SameOld(g, own, lo, c, y, y');
      OldStays(Mentions(body.value), Mentions(b.body), lo, c, body.next, y);
    }
  }

  lemma {:induction false} OldStays(names: Names, base: Names, lo: nat, c: nat, hi: nat, y: bytes)
    requires MentionsFrom(names, base, c, hi) && y in names && Before(y, lo) && y != LET_NAME && lo <= c <= hi
    ensures y in base
  {
    if y !in base {
      FreshWider(y, c, hi, lo, hi);
      FreshAfter(y, lo, hi, y);
    }
  }

  lemma {:induction false} SameOld(g: RenamedGroup, own: NameMap, lo: nat, c: nat, y: bytes, y': bytes)
    requires Extends(g.names, own) && Invents(own, lo, c) && y' in own && y in g.names && g.names[y] == own[y']
    requires forall x :: x in g.names && x !in own ==> exists a: nat :: c <= a && FreshName(g.names[x], a, g.next)
    ensures y == y'
  {
    InventedIsFresh(own, y', lo, c);
    if y in own {
      assert NewName(g.names, y) == own[y];
      InventedApart(own, lo, c, y, y');
    } else {
      var a: nat :| c <= a && FreshName(g.names[y], a, g.next);
      FreshApart(own[y'], lo, c, g.names[y], a, g.next);
    }
  }

  lemma {:induction false} NewIsNotMentioned(b: Binding, body: Renamed<BodyForm>, g: RenamedGroup, own: NameMap, lo: nat, c: nat, y: bytes)
    requires Extends(g.names, own) && Invents(own, lo, c) && lo <= c <= body.next <= g.next && NamesBefore(BodyMentions(b), lo) && y in g.names
    requires FreshName(g.names[y], lo, g.next) && MentionsFrom(Mentions(body.value), Mentions(b.body), c, body.next)
    requires forall x :: x in g.names && x !in own ==> FreshName(g.names[x], body.next, g.next)
    ensures g.names[y] !in Mentions(body.value)
  {
    var z := g.names[y];
    if z in Mentions(body.value) {
      if z in Mentions(b.body) {
        FreshAfter(z, lo, g.next, z);
      } else if z == LET_NAME {
        LetIsBefore(lo);
        FreshAfter(z, lo, g.next, z);
      } else if y in own {
        assert NewName(g.names, y) == own[y];
        InventedIsFresh(own, y, lo, c);
        FreshApart(z, lo, c, z, c, body.next);
      } else {
        FreshApart(z, c, body.next, z, body.next, g.next);
      }
    }
  }

  lemma {:induction false} StaysWithoutEnv(hintless: bool, strict: bool, b: Binding, r: Binding, g: RenamedGroup, own: NameMap, lo: nat, c: nat)
    requires RenamedAt(hintless, b, r, g, own, c) && Invents(own, lo, c) && Nameable(strict, b.body) && NoEnv(BodyMentions(b))
    ensures NoEnv(BodyMentions(r))
  {
    RenameArgsMentions(strict, hintless, b.body, c);
    var body := RenameArgs(hintless, b.body, c);
    RenameInCame(own, body.value);
    assert BodyMentions(r) == Mentions(r.body) && BodyMentions(b) == Mentions(b.body);
    SpecialNames();
    forall x | x in {AT, AT_ENV} ensures x !in BodyMentions(r) {
      UnmarkedIsBefore(x, 0);
      if x in BodyMentions(r) {
        SpecialStays(own, lo, c, Mentions(body.value), Mentions(b.body), body.next, x);
      }
    }
  }

  lemma {:induction false} SpecialStays(own: NameMap, lo: nat, c: nat, names: Names, base: Names, hi: nat, x: bytes)
    requires Invents(own, lo, c) && Came(own, names, x) && MentionsFrom(names, base, c, hi) && c <= hi && Before(x, 0) && x in {AT, AT_ENV}
    ensures x in base
  {
    forall y | y in own ensures own[y] != x {
      InventedIsFresh(own, y, lo, c);
    }
    OldStays(names, base, 0, c, hi, x);
  }

  /** In dependency order a renamed binding mentions only names of the renamed group that come before
      it. */
  lemma {:induction false} EarlierRenamed(strict: bool, hintless: bool, bs: seq<Binding>, inner: BodyForm, count: nat, k: nat, z: bytes)
    requires Startable(strict, bs, inner, count) && k < |InOrder(bs)|
    requires z in BodyMentions(RenamedRun(hintless, bs, count).bindings[k]) && z in Atoms(PatternList(RenamedRun(hintless, bs, count).bindings))
    ensures z in Atoms(PatternList(RenamedRun(hintless, bs, count).bindings[..k]))
  {
    var g, picked := RenamedRun(hintless, bs, count), InOrder(bs);
    OrderlyStart(strict, hintless, bs, inner, count);
    var own, c := InOrderAt(strict, hintless, picked, map[], count, count, k);
    PickedBinding(strict, bs, inner, count, k);
    StaysWithoutEnv(hintless, strict, picked[k], g.bindings[k], g, own, count, c);
    RenamedAtoms(g.names, PatternList(picked), z);
    var y :| y in Atoms(PatternList(picked)) && NewName(g.names, y) == z;
    assert y != AT && y in Named(PatternList(picked)) && y in g.names;
    InventedIsFresh(g.names, y, count, g.next);
    OldNameMentioned(strict, hintless, picked[k], g.bindings[k], g, own, count, c, y);
    NeedsEarlier(bs, k, y);
    AtomsRenamed(g.names, PatternList(picked[..k]), y);
    PatternsUpTo(g.names, g.bindings, picked, k);
  }

  lemma {:induction false} PickedBinding(strict: bool, bs: seq<Binding>, inner: BodyForm, count: nat, k: nat)
    requires Startable(strict, bs, inner, count) && k < |InOrder(bs)|
    ensures var b := InOrder(bs)[k];
            b in bs && Nameable(strict, b.body) && NamesBefore(BodyMentions(b), count) && NoEnv(BodyMentions(b)) && FineAlone(b)
            && WordsOnly(PatternOf(b)) && !Binds(PatternOf(b), AT) && b.pattern.Complex?
  {
    InOrderHolds(bs);
    var b := InOrder(bs)[k];
    assert b in bs;
    Member(strict, bs, b);
    OneMentioned(b, bs);
    BeforeFewer(BindingsMention(bs), BodyMentions(b), count, count);
    NameableIsApart(bs);
    var i :| 0 <= i < |bs| && bs[i] == b;
    assert FineAlone(bs[i]);
  }

  // ---- Sorting the renamed group ---------------------------------------------------------------

  lemma {:induction false} CoveredEach(order: seq<Spec>, n: nat)
    requires n <= |order| && forall k :: 0 <= k < n ==> NeedsMet(order, k)
    ensures Covered(order, n)
  {
    if n > 0 {
      CoveredEach(order, n - 1);
      assert NeedsMet(order, n - 1);
    }
  }

  predicate NeedsMet(order: seq<Spec>, k: int) { 0 <= k < |order| && order[k].needs <= Provided(order[..k]) }

  lemma {:induction false} BackwardsMultiset<T>(s: seq<T>)
    ensures multiset(Backwards(s)) == multiset(s)
  {
    if s != [] {
      BackwardsMultiset(s[1..]);
      assert s == [s[0]] + s[1..];
    }
  }

  /** The renamed bindings, listed last to first as the renamer leaves them, can be put in order. */
  lemma {:induction false} RenamedSorts(strict: bool, hintless: bool, bs: seq<Binding>, inner: BodyForm, count: nat)
    requires Startable(strict, bs, inner, count)
    ensures SortBindings(Backwards(RenamedRun(hintless, bs, count).bindings)).Known?
  {
    var g := RenamedRun(hintless, bs, count);
    var r := Backwards(g.bindings);
    var items := BindingItems(r);
    var order := Backwards(items);
    forall k | 0 <= k < |order| ensures NeedsMet(order, k) {
      RenamedNeedsMet(strict, hintless, bs, inner, count, k);
    }
    CoveredEach(order, |order|);
    BackwardsMultiset(items);
    assert GoodOrder(order, items);
    SortIsExact(items);
  }

  lemma {:induction false} BackItem(l: seq<Binding>, k: nat)
    requires k < |l|
    ensures var items := BindingItems(Backwards(l));
            Backwards(items)[k].needs == BodyMentions(l[k]) * Possible(Backwards(l), Provides) && Backwards(items)[k].has == Provides(l[k])
  {
    BackwardsAt(l, k);
    BackwardsAt(BindingItems(Backwards(l)), |l| - 1 - k);
  }

  lemma {:induction false} RenamedNeedsMet(strict: bool, hintless: bool, bs: seq<Binding>, inner: BodyForm, count: nat, k: nat)
    requires Startable(strict, bs, inner, count) && k < |RenamedRun(hintless, bs, count).bindings|
    ensures NeedsMet(Backwards(BindingItems(Backwards(RenamedRun(hintless, bs, count).bindings))), k)
  {
    var l := RenamedRun(hintless, bs, count).bindings;
    var order := Backwards(BindingItems(Backwards(l)));
    OrderlyStart(strict, hintless, bs, inner, count);
    BackwardsShaped(strict, bs, RenamedRun(hintless, bs, count), count);
    BackwardsHolds(l);
    Members(strict, Backwards(l), l);
    Members(strict, l, Backwards(l));
    PossibleIsAtoms(Backwards(l));
    BackItem(l, k);
    forall z | z in order[k].needs ensures z in Provided(order[..k]) {
      EarlierRenamed(strict, hintless, bs, inner, count, k, z);
      assert forall b :: b in l[..k] ==> b in l;
      Members(strict, l[..k], l);
      AtomIsProvided(l[..k], z);
      var j :| 0 <= j < k && z in Provides(l[..k][j]);
      BackItem(l, j);
      assert order[..k][j] == order[j];
      ProvidedHas(order[..k], j);
    }
  }

  // ---- No name twice ---------------------------------------------------------------------------

  lemma {:induction false} RegularFrom(bs: seq<Binding>, inner: BodyForm)
    requires AllApart(bs) && WordsOnly(PatternList(bs)) && NoAtBound(bs) && NoEnvIn(bs) && NoEnv(Reads(inner))
    ensures Regular(bs, inner)
  {
    forall i | 0 <= i < |bs| ensures Honest(PatternOf(bs[i])) && NoEnv(BodyMentions(bs[i])) {
      assert FineAlone(bs[i]);
      Member(true, bs, bs[i]);
      WordsAreAtoms(PatternOf(bs[i]));
      forall x | x != AT ensures Binds(PatternOf(bs[i]), x) <==> x in SExpNames(PatternOf(bs[i])) {
        if Binds(PatternOf(bs[i]), x) {
          BindsAtoms(PatternOf(bs[i]), x);
        } else if x in Named(PatternOf(bs[i])) {
          NamedIsBound(PatternOf(bs[i]), x);
        }
      }
    }
    forall i: int, j: int, x | 0 <= i < j < |bs| ensures !(BoundBy(bs, i, x) && BoundBy(bs, j, x)) {
      NotBoth(bs, i, j, x);
    }
  }

  lemma {:induction false} NotBoth(bs: seq<Binding>, i: nat, j: nat, x: bytes)
    requires AllApart(bs) && NoAtBound(bs) && i < j < |bs|
    ensures !(BoundBy(bs, i, x) && BoundBy(bs, j, x))
  {
    assert Apart(bs[i], bs[j]) && FineAlone(bs[i]) && FineAlone(bs[j]) && !Binds(PatternOf(bs[i]), AT);
    if BoundBy(bs, i, x) {
      BindsAtoms(PatternOf(bs[i]), x);
      assert x in Named(PatternOf(bs[i]));
    }
    if BoundBy(bs, j, x) {
      BindsAtoms(PatternOf(bs[j]), x);
    }
  }

  lemma {:induction false} ApartRenamed(m: NameMap, lo: nat, hi: nat, p: SExp, q: SExp)
    requires Invents(m, lo, hi) && Named(p) !! Named(q) && Named(p) <= m.Keys && Named(q) <= m.Keys
    ensures Named(RenamePattern(m, p)) !! Named(RenamePattern(m, q))
  {
    forall z | z in Named(RenamePattern(m, p)) ensures z !in Named(RenamePattern(m, q)) {
      if z in Named(RenamePattern(m, q)) {
        RenamedAtoms(m, p, z);
        RenamedAtoms(m, q, z);
        var y :| y in Atoms(p) && NewName(m, y) == z;
        var y' :| y' in Atoms(q) && NewName(m, y') == z;
        assert y in Named(p) && y' in Named(q);
        InventedApart(m, lo, hi, y, y');
      }
    }
  }

  lemma {:induction false} RenamedFine(m: NameMap, lo: nat, hi: nat, b: Binding, r: Binding)
    requires Invents(m, lo, hi) && FineAlone(b) && Named(PatternOf(b)) <= m.Keys && NamesBefore(Named(PatternOf(b)), lo)
    requires PatternOf(r) == RenamePattern(m, PatternOf(b)) && !Binds(PatternOf(b), AT)
    ensures FineAlone(r) && !Binds(PatternOf(r), AT)
  {
    RenamedPattern(m, lo, hi, PatternOf(b));
    if PatternOf(b).Atom? {
      InventedIsFresh(m, PatternOf(b).name, lo, hi);
    }
    SpecialNames();
    UnmarkedIsBefore(AT, lo);
    forall x | x in Atoms(PatternOf(b)) ensures Outside(x, lo, hi) {
      BeforeIsOutside(x, lo, hi);
    }
    BeforeIsOutside(AT, lo, hi);
    RenamedBinds(m, lo, hi, PatternOf(b), Nil, AT);
  }

  /** The bindings in dependency order, renamed. */
  lemma {:induction false} RunIsFine(strict: bool, hintless: bool, bs: seq<Binding>, inner: BodyForm, count: nat, k: nat)
    requires Startable(strict, bs, inner, count) && k < |InOrder(bs)|
    ensures var g, b := RenamedRun(hintless, bs, count), InOrder(bs)[k];
            PatternOf(g.bindings[k]) == RenamePattern(g.names, PatternOf(b)) && Named(PatternOf(b)) <= g.names.Keys
            && NamesBefore(Named(PatternOf(b)), count) && FineAlone(g.bindings[k]) && !Binds(PatternOf(g.bindings[k]), AT)
            && NoEnv(BodyMentions(g.bindings[k]))
  {
    var g, picked := RenamedRun(hintless, bs, count), InOrder(bs);
    OrderlyStart(strict, hintless, bs, inner, count);
    PickedBinding(strict, bs, inner, count, k);
    PatternAt(g.names, g.bindings, picked, k);
    Member(strict, picked, picked[k]);
    BeforeFewer(Named(PatternList(bs)), Named(PatternOf(picked[k])), count, count);
    RenamedFine(g.names, count, g.next, picked[k], g.bindings[k]);
    var own, c := InOrderAt(strict, hintless, picked, map[], count, count, k);
    StaysWithoutEnv(hintless, strict, picked[k], g.bindings[k], g, own, count, c);
  }

  lemma {:induction false} RunIsApart(strict: bool, hintless: bool, bs: seq<Binding>, inner: BodyForm, count: nat, i: nat, j: nat)
    requires Startable(strict, bs, inner, count) && i < j < |InOrder(bs)|
    ensures Apart(RenamedRun(hintless, bs, count).bindings[i], RenamedRun(hintless, bs, count).bindings[j])
  {
    var g, picked := RenamedRun(hintless, bs, count), InOrder(bs);
    OrderlyStart(strict, hintless, bs, inner, count);
    RunIsFine(strict, hintless, bs, inner, count, i);
    RunIsFine(strict, hintless, bs, inner, count, j);
    InOrderNameable(bs);
    NameableIsApart(picked);
    assert Apart(picked[i], picked[j]);
    ApartRenamed(g.names, count, g.next, PatternOf(picked[i]), PatternOf(picked[j]));
  }

  /** The renamed assign form is as regular as the one it came from. */
  lemma {:induction false} RenamedIsRegular(strict: bool, hintless: bool, bs: seq<Binding>, inner: BodyForm, count: nat, inner': BodyForm)
    requires Startable(strict, bs, inner, count) && NoEnv(Reads(inner'))
    ensures Regular(Backwards(RenamedRun(hintless, bs, count).bindings), inner')
  {
    var l := RenamedRun(hintless, bs, count).bindings;
    var r := Backwards(l);
    OrderlyStart(strict, hintless, bs, inner, count);
    BackwardsShaped(strict, bs, RenamedRun(hintless, bs, count), count);
    forall i | 0 <= i < |r| ensures FineAlone(r[i]) && !Binds(PatternOf(r[i]), AT) && NoEnv(BodyMentions(r[i])) {
      BackwardsAt(l, |l| - 1 - i);
      RunIsFine(strict, hintless, bs, inner, count, |l| - 1 - i);
    }
    forall i, j | 0 <= i < j < |r| ensures Apart(r[i], r[j]) {
      BackwardsAt(l, |l| - 1 - i);
      BackwardsAt(l, |l| - 1 - j);
      RunIsApart(strict, hintless, bs, inner, count, |l| - 1 - j, |l| - 1 - i);
    }
    RegularFrom(r, inner');
  }

  lemma {:induction false} GroupIsRegular(strict: bool, bs: seq<Binding>, inner: BodyForm)
    requires AssignGroup(strict, bs, inner)
    ensures Regular(bs, inner)
  {
    NameableIsApart(bs);
    RegularFrom(bs, inner);
  }
}
