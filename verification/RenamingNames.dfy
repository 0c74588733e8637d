/** Which names a renamed expression binds and reads. */
module RenamingNames {
  import opened Numbers
  import opened SExpressions
  import opened Syntax
  import opened AssignForms
  import opened AssignWeight
  import opened Toposort
  import opened Relevance
  import opened AssignMeaning
  import opened Gensyms
  import opened HoistingNames
  import opened Renaming

  // ---- Patterns --------------------------------------------------------------------------------

  /** The names that renaming replaces in a pattern. */
  function Named(p: SExp): Names { Atoms(p) - {AT} }

  predicate Renames(a: bytes) { a != [] && a != Q_NAME && a != QUOTE_NAME && a != QQ_NAME && a != AT_ENV }

  /** A pattern in which every leaf is replaced: no numbers, which bind names too but keep them, and
      none of the words that stop `rename_in_cons`. */
  predicate Renameable(p: SExp) {
    match p
    case Atom(a) => Renames(a)
    case Integer(_) => false
    case Cons(a, b) => Renameable(a) && Renameable(b)
    case _ => true
  }

  function RenamePattern(m: NameMap, p: SExp): (r: SExp) {
    match p
    case Atom(a) => Atom(NewName(m, a))
    case Cons(a, b) => Cons(RenamePattern(m, a), RenamePattern(m, b))
    case _ => p
  }

  lemma {:induction false} RenamesEveryLeaf(m: NameMap, p: SExp, qqHandling: bool)
    requires Renameable(p)
    ensures RenameInCons(m, p, qqHandling) == RenamePattern(m, p)
  {
    if p.Cons? {
      RenamesEveryLeaf(m, p.first, qqHandling);
      RenamesEveryLeaf(m, p.rest, qqHandling);
    }
  }

  lemma {:induction false} SameRenaming(m: NameMap, m': NameMap, p: SExp)
    requires forall x :: x in Atoms(p) ==> NewName(m, x) == NewName(m', x)
    ensures RenamePattern(m, p) == RenamePattern(m', p)
  {
    if p.Cons? {
      SameRenaming(m, m', p.first);
      SameRenaming(m, m', p.rest);
    }
  }

  // ---- Maps of invented names ------------------------------------------------------------------

  ghost predicate InventedAs(m: NameMap, x: bytes, lo: nat, hi: nat) {
    x in m && exists j: nat :: lo <= j < hi && m[x] == Gensym(x, j)
  }

  /** Each name is mapped to one invented for it while the counter was in a span. */
  ghost predicate Invents(m: NameMap, lo: nat, hi: nat) {
    AT !in m && forall x :: x in m ==> Renames(x) && InventedAs(m, x, lo, hi)
  }

  lemma {:induction false} InventedIsFresh(m: NameMap, x: bytes, lo: nat, hi: nat)
    requires InventedAs(m, x, lo, hi)
    ensures FreshName(m[x], lo, hi) && |m[x]| > 3 && Renames(m[x]) && m[x] != AT
  {
    var j: nat :| lo <= j < hi && m[x] == Gensym(x, j);
    GensymIsMarked(x, j);
    SpecialNames();
  }

  /** The names the compiler treats specially are not invented ones. */
  lemma {:induction false} SpecialNames()
    ensures !Marked(AT) && !Marked(AT_ENV) && !Marked(Q_NAME) && !Marked(QUOTE_NAME) && !Marked(QQ_NAME) && !Marked([])
  {
    forall name | Marked(name) ensures 95 in name {
      MarkedHasBar(name);
    }
    assert 95 !in AT_ENV && 95 !in QUOTE_NAME;
  }

  lemma {:induction false} InventedApart(m: NameMap, lo: nat, hi: nat, x: bytes, y: bytes)
    requires InventedAs(m, x, lo, hi) && InventedAs(m, y, lo, hi) && m[x] == m[y]
    ensures x == y
  {
    var i: nat :| lo <= i < hi && m[x] == Gensym(x, i);
    var j: nat :| lo <= j < hi && m[y] == Gensym(y, j);
    GensymInjective(x, i, y, j);
  }

  lemma {:induction false} InventsMore(m: NameMap, m': NameMap, lo: nat, mid: nat, hi: nat)
    requires Invents(m, lo, mid) && Invents(m', mid, hi) && lo <= mid <= hi
    ensures Invents(m + m', lo, hi)
  {
    var both := m + m';
    forall x | x in both ensures Renames(x) && InventedAs(both, x, lo, hi) {
      if x in m' {
        assert InventedAs(m', x, mid, hi);
      } else {
        assert InventedAs(m, x, lo, mid);
      }
    }
  }

  lemma {:induction false} OneInvented(name: bytes, count: nat)
    requires Renames(name) && name != AT
    ensures Invents(map[name := Gensym(name, count)], count, count + 1)
  {
    assert InventedAs(map[name := Gensym(name, count)], name, count, count + 1);
  }

  lemma {:induction false} InventsNames(p: SExp, m: NameMap, lo: nat, count: nat)
    requires Renameable(p) && Invents(m, lo, count) && lo <= count
    ensures var r := InventNames(p, m, count); Invents(r.names, lo, r.next) && r.names.Keys == m.Keys + Named(p)
  {
    match p
    case Atom(name) =>
      if name != AT {
        OneInvented(name, count);
        InventsMore(m, map[name := Gensym(name, count)], lo, count, count + 1);
        assert m[name := Gensym(name, count)] == m + map[name := Gensym(name, count)];
      }
    case Cons(a, b) =>
      InventsNames(a, m, lo, count);
      var left := InventNames(a, m, count);
      InventsNames(b, left.names, lo, left.next);
    case _ =>
  }

  // ---- Groups of bindings ----------------------------------------------------------------------

  /** Patterns renamed leaf by leaf that have no name in common. */
  predicate GroupNameable(bs: seq<Binding>) {
    bs == []
    || (var p := PatternOf(bs[0]);
        p != Atom(AT) && Renameable(p) && Named(p) !! Named(PatternList(bs[1..])) && GroupNameable(bs[1..]))
  }

  function PatternsList(ps: seq<BindingPattern>): SExp {
    if ps == [] then Nil else Cons(PatternOf(Binding(ps[0], Quoted(Nil))), PatternsList(ps[1..]))
  }

  lemma {:induction false} PatternsOnly(ps: seq<BindingPattern>, bodies: seq<BodyForm>)
    requires |ps| == |bodies|
    ensures PatternList(WithBodies(ps, bodies)) == PatternsList(ps)
  {
    if ps != [] {
      PatternsOnly(ps[1..], bodies[1..]);
      assert WithBodies(ps, bodies)[1..] == WithBodies(ps[1..], bodies[1..]);
    }
  }

  /** No words in quotation marks, which provide names without binding them. */
  predicate WordsOnly(p: SExp) {
    match p
    case Cons(a, b) => WordsOnly(a) && WordsOnly(b)
    case QuotedString(_, _) => false
    case Integer(_) => false
    case _ => true
  }

  lemma {:induction false} WordsAreAtoms(p: SExp)
    requires WordsOnly(p)
    ensures SExpNames(p) == Atoms(p)
  {
    if p.Cons? {
      WordsAreAtoms(p.first);
      WordsAreAtoms(p.rest);
    }
  }

  predicate Apart(a: Binding, b: Binding) { Named(PatternOf(a)) !! Named(PatternOf(b)) }

  predicate FineAlone(b: Binding) { PatternOf(b) != Atom(AT) && Renameable(PatternOf(b)) }

  predicate AllApart(bs: seq<Binding>) {
    (forall i :: 0 <= i < |bs| ==> FineAlone(bs[i])) && forall i, j :: 0 <= i < j < |bs| ==> Apart(bs[i], bs[j])
  }

  lemma {:induction false} ApartFromAll(b: Binding, bs: seq<Binding>)
    ensures Named(PatternOf(b)) !! Named(PatternList(bs)) <==> forall i :: 0 <= i < |bs| ==> Apart(b, bs[i])
  {
    if bs != [] {
      ApartFromAll(b, bs[1..]);
      assert Named(PatternList(bs)) == Named(PatternOf(bs[0])) + Named(PatternList(bs[1..]));
      if forall i :: 0 <= i < |bs[1..]| ==> Apart(b, bs[1..][i]) {
        forall i | 0 < i < |bs| ensures Apart(b, bs[i]) { assert Apart(b, bs[1..][i - 1]); }
      }
      if forall i :: 0 <= i < |bs| ==> Apart(b, bs[i]) {
        forall i | 0 <= i < |bs[1..]| ensures Apart(b, bs[1..][i]) { assert Apart(b, bs[i + 1]); }
      }
    }
  }

  lemma {:induction false} NameableIsApart(bs: seq<Binding>)
    ensures GroupNameable(bs) <==> AllApart(bs)
  {
    if bs != [] {
      NameableIsApart(bs[1..]);
      ApartFromAll(bs[0], bs[1..]);
      if AllApart(bs[1..]) && FineAlone(bs[0]) && forall i :: 0 <= i < |bs[1..]| ==> Apart(bs[0], bs[1..][i]) {
        forall i | 0 <= i < |bs| ensures FineAlone(bs[i]) { if i > 0 { assert FineAlone(bs[1..][i - 1]); } }
        forall i, j | 0 <= i < j < |bs| ensures Apart(bs[i], bs[j]) {
          if i > 0 { assert Apart(bs[1..][i - 1], bs[1..][j - 1]); } else { assert Apart(bs[0], bs[1..][j - 1]); }
        }
      }
      if AllApart(bs) {
        forall i | 0 <= i < |bs[1..]| ensures FineAlone(bs[1..][i]) && Apart(bs[0], bs[1..][i]) { assert FineAlone(bs[i + 1]) && Apart(bs[0], bs[i + 1]); }
        forall i, j | 0 <= i < j < |bs[1..]| ensures Apart(bs[1..][i], bs[1..][j]) { assert Apart(bs[i + 1], bs[j + 1]); }
        assert FineAlone(bs[0]);
      }
    }
  }

  /** Dependency order keeps names apart. */
  lemma {:induction false} InOrderNameable(bs: seq<Binding>)
    requires SortBindings(bs).Known? && GroupNameable(bs)
    ensures GroupNameable(InOrder(bs))
  {
    NameableIsApart(bs);
    NameableIsApart(InOrder(bs));
    InOrderHolds(bs);
    SortIsExact(BindingItems(bs));
    var order, picked := SortBindings(bs).value, InOrder(bs);
    PermutationRepeatsNone(order, BindingItems(bs));
    forall i | 0 <= i < |picked| ensures FineAlone(picked[i]) { assert FineAlone(bs[order[i].index]); }
    forall i, j | 0 <= i < j < |picked| ensures Apart(picked[i], picked[j]) {
      var a, b := order[i].index, order[j].index;
      assert a != b;
      if a < b { assert Apart(bs[a], bs[b]); } else { assert Apart(bs[b], bs[a]); }
    }
  }

  lemma {:induction false} UniqueBinding(p: BindingPattern, count: nat)
    requires var s := PatternOf(Binding(p, Quoted(Nil))); s != Atom(AT) && Renameable(s)
    ensures var s, u := PatternOf(Binding(p, Quoted(Nil))), MakeUnique(p, count);
            Invents(u.names, count, u.next) && u.names.Keys == Named(s)
            && PatternOf(Binding(u.pattern, Quoted(Nil))) == RenamePattern(u.names, s)
  {
    match p
    case Name(n) => OneInvented(n, count);
    case Complex(s) =>
      InventsNames(s, map[], count, count);
      RenamesEveryLeaf(InventNames(s, map[], count).names, s, false);
  }

  /** The new patterns are the old ones, renamed by the one map of the whole group. */
  lemma {:induction false} UniqueGroupRenames(bs: seq<Binding>, m: NameMap, lo: nat, count: nat)
    requires GroupNameable(bs) && Invents(m, lo, count) && lo <= count && m.Keys !! Named(PatternList(bs))
    ensures var u := MakeAllUnique(bs, m, count);
            Invents(u.names, lo, u.next) && u.names.Keys == m.Keys + Named(PatternList(bs))
            && (forall x :: x in m ==> u.names[x] == m[x])
            && PatternsList(u.patterns) == RenamePattern(u.names, PatternList(bs))
  {
    if bs != [] {
      var b := Binding(bs[0].pattern, Quoted(Nil));
      assert PatternOf(b) == PatternOf(bs[0]);
      UniqueBinding(bs[0].pattern, count);
      var u := MakeUnique(bs[0].pattern, count);
      InventsMore(m, u.names, lo, count, u.next);
      UniqueGroupRenames(bs[1..], m + u.names, lo, u.next);
      var whole := MakeAllUnique(bs, m, count);
      forall x | x in Atoms(PatternOf(b)) ensures NewName(whole.names, x) == NewName(u.names, x) {
        if x != AT {
          assert x in u.names && x in m + u.names;
        }
      }
      SameRenaming(whole.names, u.names, PatternOf(b));
    }
  }

  // ---- Sets of names in expressions ------------------------------------------------------------

  /** Names that an expression spells out but renaming should not touch: bare quoted words, and
      numbers where those may stand for variables. */
  function Fixed(strict: bool, e: BodyForm): Names {
    match e
    case Let(_, _, bs, inner) => BindingsFixed(strict, bs) + Fixed(strict, inner)
    case Quoted(Atom(n)) => {n}
    case Value(Integer(i)) => if strict then {} else {U8FromNumber(i)}
    case Call(forms, tail) => FormsFixed(strict, forms) + (if tail.Some? then Fixed(strict, tail.value) else {})
    case _ => {}
  }

  function BodyFixed(strict: bool, b: Binding): Names { Fixed(strict, b.body) }

  function BindingsFixed(strict: bool, bs: seq<Binding>): Names {
    if bs == [] then {} else BodyFixed(strict, bs[0]) + BindingsFixed(strict, bs[1..])
  }

  function FormsFixed(strict: bool, forms: seq<BodyForm>): Names {
    if forms == [] then {} else Fixed(strict, forms[0]) + FormsFixed(strict, forms[1..])
  }

  /** The names bound inside an expression. */
  function Binders(e: BodyForm): Names {
    match e
    case Let(_, _, bs, inner) => Named(PatternList(bs)) + BindingsBinders(bs) + Binders(inner)
    case Call(forms, tail) => FormsBinders(forms) + (if tail.Some? then Binders(tail.value) else {})
    case _ => {}
  }

  function BodyBinders(b: Binding): Names { Binders(b.body) }

  function BindingsBinders(bs: seq<Binding>): Names {
    if bs == [] then {} else BodyBinders(bs[0]) + BindingsBinders(bs[1..])
  }

  function FormsBinders(forms: seq<BodyForm>): Names {
    if forms == [] then {} else Binders(forms[0]) + FormsBinders(forms[1..])
  }

  /** No sequential lets, and patterns that are renamed leaf by leaf. */
  predicate Unfolded(e: BodyForm) {
    match e
    case Let(kind, _, bs, inner) =>
      kind != Sequential && (kind == Assign ==> bs != [] && WordsOnly(PatternList(bs)))
      && Renameable(PatternList(bs)) && BindingsUnfolded(bs) && Unfolded(inner)
    case Call(forms, tail) => FormsUnfolded(forms) && (tail.Some? ==> Unfolded(tail.value))
    case Lambda(_, _, _, _) => false
    case _ => true
  }

  predicate BodyUnfolded(b: Binding) { Unfolded(b.body) }

  predicate BindingsUnfolded(bs: seq<Binding>) { bs == [] || (BodyUnfolded(bs[0]) && BindingsUnfolded(bs[1..])) }

  predicate FormsUnfolded(forms: seq<BodyForm>) { forms == [] || (Unfolded(forms[0]) && FormsUnfolded(forms[1..])) }

  // ---- Replacing free names --------------------------------------------------------------------

  ghost predicate ReadsFrom(names: Names, base: Names, lo: nat, hi: nat) {
    forall x :: x in names ==> x in base || FreshName(x, lo, hi)
  }

  ghost predicate AllFresh(names: Names, lo: nat, hi: nat) {
    forall x :: x in names ==> FreshName(x, lo, hi)
  }

  lemma {:induction false} SamePatterns(m: NameMap, bs: seq<Binding>)
    ensures PatternList(RenameInBindings(m, bs)) == PatternList(bs)
  {
    if bs != [] {
      SamePatterns(m, bs[1..]);
    }
  }

  /** Replacing free names leaves binders and fixed words alone. */
  ghost predicate Replaced(strict: bool, e: BodyForm, r: BodyForm, lo: nat, mid: nat) {
    Unfolded(r) && Binders(r) == Binders(e) && Fixed(strict, r) == Fixed(strict, e) && ReadsFrom(Reads(r), Reads(e), lo, mid)
  }

  ghost predicate FormsReplaced(strict: bool, forms: seq<BodyForm>, r: seq<BodyForm>, lo: nat, mid: nat) {
    FormsUnfolded(r) && FormsBinders(r) == FormsBinders(forms) && FormsFixed(strict, r) == FormsFixed(strict, forms)
    && ReadsFrom(FormsRead(r), FormsRead(forms), lo, mid)
  }

  lemma {:induction false} RenameInShape(strict: bool, m: NameMap, lo: nat, mid: nat, e: BodyForm)
    requires Invents(m, lo, mid) && Unfolded(e) && Fixed(strict, e) !! m.Keys
    ensures Replaced(strict, e, RenameIn(m, e), lo, mid)
    decreases Weight(e), 1
  {
    match e
    case Let(_, _, bs, inner) =>
      WeightPerBinding(bs);
      SamePatterns(m, bs);
      RenameInBindingsShape(strict, m, lo, mid, bs);
      RenameInShape(strict, m, lo, mid, inner);
      LetReplaced(strict, e, RenameInBindings(m, bs), RenameIn(m, inner), lo, mid);
    case Value(Atom(n)) =>
      if n in m {
        InventedIsFresh(m, n, lo, mid);
      }
    case Call(forms, tail) =>
      WeightParts(e);
      if tail.Some? {
        RenameInShape(strict, m, lo, mid, tail.value);
      }
      if forms != [] {
        RenameInFormsShape(strict, m, lo, mid, forms[1..]);
        HeadKept(strict, forms, RenameInForms(m, forms[1..]), lo, mid);
      }
      CallReplaced(strict, e, RenameIn(m, e).forms, RenameIn(m, e).tail, lo, mid);
    case _ =>
  }

  lemma {:induction false} LetReplaced(strict: bool, e: BodyForm, bs: seq<Binding>, inner: BodyForm, lo: nat, mid: nat)
    requires e.Let? && Unfolded(e) && PatternList(bs) == PatternList(e.bindings) && |bs| == |e.bindings| && Replaced(strict, e.inner, inner, lo, mid)
    requires BindingsUnfolded(bs) && BindingsBinders(bs) == BindingsBinders(e.bindings)
    requires BindingsFixed(strict, bs) == BindingsFixed(strict, e.bindings) && ReadsFrom(BindingsRead(bs), BindingsRead(e.bindings), lo, mid)
    ensures Replaced(strict, e, Let(e.kind, e.inlined, bs, inner), lo, mid)
  {
  }

  lemma {:induction false} CallReplaced(strict: bool, e: BodyForm, forms: seq<BodyForm>, tail: Option<BodyForm>, lo: nat, mid: nat)
    requires e.Call? && FormsReplaced(strict, e.forms, forms, lo, mid) && tail.Some? == e.tail.Some?
    requires tail.Some? ==> Replaced(strict, e.tail.value, tail.value, lo, mid)
    ensures Replaced(strict, e, Call(forms, tail), lo, mid)
  {
  }

  lemma {:induction false} HeadKept(strict: bool, forms: seq<BodyForm>, rest: seq<BodyForm>, lo: nat, mid: nat)
    requires forms != [] && FormsUnfolded(forms) && FormsReplaced(strict, forms[1..], rest, lo, mid)
    ensures FormsReplaced(strict, forms, [forms[0]] + rest, lo, mid)
  {
    var r := [forms[0]] + rest;
    assert r[0] == forms[0] && r[1..] == rest;
  }

  lemma {:induction false} RenameInBindingsShape(strict: bool, m: NameMap, lo: nat, mid: nat, bs: seq<Binding>)
    requires Invents(m, lo, mid) && BindingsUnfolded(bs) && BindingsFixed(strict, bs) !! m.Keys
    ensures var r := RenameInBindings(m, bs);
            BindingsUnfolded(r) && BindingsBinders(r) == BindingsBinders(bs) && BindingsFixed(strict, r) == BindingsFixed(strict, bs)
            && ReadsFrom(BindingsRead(r), BindingsRead(bs), lo, mid)
    decreases BindingsWeight(bs, 1), 2
  {
    if bs != [] {
      BindingParts(bs, 1);
      assert BodyUnfolded(bs[0]) && BodyFixed(strict, bs[0]) == Fixed(strict, bs[0].body);
      RenameInShape(strict, m, lo, mid, bs[0].body);
      RenameInBindingsShape(strict, m, lo, mid, bs[1..]);
      var b := RenameInBody(m, bs[0]);
      assert BodyUnfolded(b) && BodyFixed(strict, b) == BodyFixed(strict, bs[0]) && BodyBinders(b) == BodyBinders(bs[0]);
      assert BodyReads(b) == Reads(b.body) && BodyReads(bs[0]) == Reads(bs[0].body);
    }
  }

  lemma {:induction false} RenameInFormsShape(strict: bool, m: NameMap, lo: nat, mid: nat, forms: seq<BodyForm>)
    requires Invents(m, lo, mid) && FormsUnfolded(forms) && FormsFixed(strict, forms) !! m.Keys
    ensures FormsReplaced(strict, forms, RenameInForms(m, forms), lo, mid)
    decreases FormsWeight(forms), 2
  {
    if forms != [] {
      RenameInShape(strict, m, lo, mid, forms[0]);
      RenameInFormsShape(strict, m, lo, mid, forms[1..]);
    }
  }

  // ---- Renaming binders ------------------------------------------------------------------------

  predicate AllComplex(bs: seq<Binding>) { forall i :: 0 <= i < |bs| ==> bs[i].pattern.Complex? }

  predicate NoEnvIn(bs: seq<Binding>) { forall i :: 0 <= i < |bs| ==> NoEnv(BodyMentions(bs[i])) }

  predicate NoAtBound(bs: seq<Binding>) { forall i :: 0 <= i < |bs| ==> !Binds(PatternOf(bs[i]), AT) }

  /** An assign form that can be put in order, with patterns as the frontend makes them and without uses
      of `@`; no variable is called like the word for parallel lets. */
  predicate AssignGroup(strict: bool, bs: seq<Binding>, inner: BodyForm) {
    bs != [] && SortBindings(bs).Known? && AllComplex(bs) && WordsOnly(PatternList(bs)) && GroupNameable(bs)
    && (BindingsFixed(strict, bs) + Fixed(strict, inner)) !! Named(PatternList(bs))
    && NoAtBound(bs) && NoEnvIn(bs) && NoEnv(Reads(inner)) && LET_NAME !in Atoms(PatternList(bs))
  }

  /** What renaming asks of an expression: no name bound twice by one let, and no fixed word that is
      a name bound around it. */
  predicate Nameable(strict: bool, e: BodyForm)
    decreases Weight(e), 1
  {
    match e
    case Let(Parallel, _, bs, inner) =>
      GroupNameable(bs) && Fixed(strict, inner) !! Named(PatternList(bs)) && BindingsNameable(strict, bs) && Nameable(strict, inner)
    case Let(Sequential, _, bs, inner) => SequenceNameable(strict, bs, inner)
    case Let(Assign, _, bs, inner) =>
      WeightPerBinding(bs);
      AssignGroup(strict, bs, inner) && BindingsNameable(strict, bs) && Nameable(strict, inner)
    case Call(forms, tail) =>
      WeightParts(e);
      FormsNameable(strict, forms) && (tail.Some? ==> Nameable(strict, tail.value))
    case Quoted(_) => true
    case Value(_) => true
    case _ => false
  }

  predicate SequenceNameable(strict: bool, bs: seq<Binding>, inner: BodyForm)
    decreases BindingsWeight(bs, 1) + Weight(inner), 2
  {
    if bs == [] then Nameable(strict, inner)
    else
      BindingParts(bs, 1);
      GroupNameable([bs[0]]) && (BindingsFixed(strict, bs[1..]) + Fixed(strict, inner)) !! Named(PatternList([bs[0]]))
      && Nameable(strict, bs[0].body) && SequenceNameable(strict, bs[1..], inner)
  }

  predicate BindingsNameable(strict: bool, bs: seq<Binding>)
    decreases BindingsWeight(bs, 1), 2
  {
    bs == [] || (BindingParts(bs, 1); Nameable(strict, bs[0].body) && BindingsNameable(strict, bs[1..]))
  }

  predicate FormsNameable(strict: bool, forms: seq<BodyForm>)
    decreases FormsWeight(forms), 2
  {
    forms == [] || (Nameable(strict, forms[0]) && FormsNameable(strict, forms[1..]))
  }

  /** What a renamed expression looks like beside the original. */
  ghost predicate Shaped(strict: bool, e: BodyForm, r: BodyForm, lo: nat, hi: nat) {
    Unfolded(r) && Fixed(strict, r) == Fixed(strict, e) && ReadsFrom(Reads(r), Reads(e), lo, hi) && AllFresh(Binders(r), lo, hi)
  }

  ghost predicate BodiesShaped(strict: bool, bs: seq<Binding>, r: seq<BodyForm>, lo: nat, hi: nat) {
    FormsUnfolded(r) && FormsFixed(strict, r) == BindingsFixed(strict, bs)
    && ReadsFrom(FormsRead(r), BindingsRead(bs), lo, hi) && AllFresh(FormsBinders(r), lo, hi)
  }

  ghost predicate FormsShaped(strict: bool, forms: seq<BodyForm>, r: seq<BodyForm>, lo: nat, hi: nat) {
    FormsUnfolded(r) && FormsFixed(strict, r) == FormsFixed(strict, forms)
    && ReadsFrom(FormsRead(r), FormsRead(forms), lo, hi) && AllFresh(FormsBinders(r), lo, hi)
  }

  lemma {:induction false} ReadsWider(names: Names, base: Names, lo: nat, hi: nat, lo': nat, hi': nat)
    requires ReadsFrom(names, base, lo, hi) && lo' <= lo && hi <= hi'
    ensures ReadsFrom(names, base, lo', hi')
  {
    forall x | x in names ensures x in base || FreshName(x, lo', hi') {
      if x !in base {
        FreshWider(x, lo, hi, lo', hi');
      }
    }
  }

  lemma {:induction false} FreshAllWider(names: Names, lo: nat, hi: nat, lo': nat, hi': nat)
    requires AllFresh(names, lo, hi) && lo' <= lo && hi <= hi'
    ensures AllFresh(names, lo', hi')
  {
    forall x | x in names ensures FreshName(x, lo', hi') {
      FreshWider(x, lo, hi, lo', hi');
    }
  }

  lemma {:induction false} BodiesOnly(strict: bool, ps: seq<BindingPattern>, bodies: seq<BodyForm>)
    requires |ps| == |bodies|
    ensures var bs := WithBodies(ps, bodies);
            BindingsUnfolded(bs) == FormsUnfolded(bodies) && BindingsFixed(strict, bs) == FormsFixed(strict, bodies)
            && BindingsRead(bs) == FormsRead(bodies) && BindingsBinders(bs) == FormsBinders(bodies)
  {
    if ps != [] {
      var bs := WithBodies(ps, bodies);
      BodiesOnly(strict, ps[1..], bodies[1..]);
      assert bs[1..] == WithBodies(ps[1..], bodies[1..]);
      assert BodyUnfolded(bs[0]) == Unfolded(bodies[0]) && BodyFixed(strict, bs[0]) == Fixed(strict, bodies[0]);
      assert BodyReads(bs[0]) == Reads(bodies[0]) && BodyBinders(bs[0]) == Binders(bodies[0]);
    }
  }

  lemma {:induction false} RenamedPattern(m: NameMap, lo: nat, hi: nat, p: SExp)
    requires Invents(m, lo, hi) && Renameable(p) && Named(p) <= m.Keys
    ensures Renameable(RenamePattern(m, p)) && AllFresh(Named(RenamePattern(m, p)), lo, hi)
  {
    match p
    case Atom(a) =>
      if a != AT {
        InventedIsFresh(m, a, lo, hi);
      }
    case Cons(a, b) =>
      RenamedPattern(m, lo, hi, a);
      RenamedPattern(m, lo, hi, b);
    case _ =>
  }

  lemma {:induction false} GroupIsRenameable(bs: seq<Binding>)
    requires GroupNameable(bs)
    ensures Renameable(PatternList(bs))
  {
    if bs != [] {
      GroupIsRenameable(bs[1..]);
    }
  }

  lemma {:induction false} LetShaped(strict: bool, e: BodyForm, inlined: bool, ps: seq<BindingPattern>, bodies: seq<BodyForm>, inner: BodyForm,
                                     m: NameMap, lo: nat, mid: nat, hi: nat)
    requires e.Let? && |ps| == |bodies| && lo <= mid <= hi && GroupNameable(e.bindings)
    requires Invents(m, lo, mid) && m.Keys == Named(PatternList(e.bindings)) && PatternsList(ps) == RenamePattern(m, PatternList(e.bindings))
    requires BodiesShaped(strict, e.bindings, bodies, mid, hi) && Shaped(strict, e.inner, inner, mid, hi)
    requires Fixed(strict, e.inner) !! m.Keys
    ensures Shaped(strict, e, Let(Parallel, inlined, WithBodies(ps, bodies), RenameIn(m, inner)), lo, hi)
  {
    var bs := WithBodies(ps, bodies);
    GroupIsRenameable(e.bindings);
    RenamedPattern(m, lo, mid, PatternList(e.bindings));
    PatternsOnly(ps, bodies);
    BodiesOnly(strict, ps, bodies);
    ReadsWider(BindingsRead(bs), BindingsRead(e.bindings), mid, hi, lo, hi);
    FreshAllWider(Named(PatternList(bs)), lo, mid, lo, hi);
    FreshAllWider(BindingsBinders(bs), mid, hi, lo, hi);
    RenamedInnerShape(strict, m, e.inner, inner, lo, mid, hi);
    LetJoined(strict, e, Parallel, inlined, bs, RenameIn(m, inner), lo, hi);
  }

  lemma {:induction false} ShapedWider(strict: bool, e: BodyForm, r: BodyForm, lo: nat, hi: nat, lo': nat, hi': nat)
    requires Shaped(strict, e, r, lo, hi) && lo' <= lo && hi <= hi'
    ensures Shaped(strict, e, r, lo', hi')
  {
    ReadsWider(Reads(r), Reads(e), lo, hi, lo', hi');
    FreshAllWider(Binders(r), lo, hi, lo', hi');
  }

  lemma {:induction false} BodiesShapedFirst(strict: bool, bs: seq<Binding>, first: BodyForm, rest: seq<BodyForm>, lo: nat, mid: nat, hi: nat)
    requires bs != [] && lo <= mid <= hi && Shaped(strict, bs[0].body, first, lo, mid) && BodiesShaped(strict, bs[1..], rest, mid, hi)
    ensures BodiesShaped(strict, bs, [first] + rest, lo, hi)
  {
    var r := [first] + rest;
    ShapedWider(strict, bs[0].body, first, lo, mid, lo, hi);
    ReadsWider(FormsRead(rest), BindingsRead(bs[1..]), mid, hi, lo, hi);
    FreshAllWider(FormsBinders(rest), mid, hi, lo, hi);
    assert r[0] == first && r[1..] == rest;
    assert BodyFixed(strict, bs[0]) == Fixed(strict, bs[0].body) && BodyReads(bs[0]) == Reads(bs[0].body);
  }

  lemma {:induction false} FormsShapedFirst(strict: bool, forms: seq<BodyForm>, first: BodyForm, rest: seq<BodyForm>, lo: nat, mid: nat, hi: nat)
    requires forms != [] && lo <= mid <= hi && Shaped(strict, forms[0], first, lo, mid) && FormsShaped(strict, forms[1..], rest, mid, hi)
    ensures FormsShaped(strict, forms, [first] + rest, lo, hi)
  {
    var r := [first] + rest;
    ShapedWider(strict, forms[0], first, lo, mid, lo, hi);
    ReadsWider(FormsRead(rest), FormsRead(forms[1..]), mid, hi, lo, hi);
    FreshAllWider(FormsBinders(rest), mid, hi, lo, hi);
    assert r[0] == first && r[1..] == rest;
  }

  lemma {:induction false} ParallelShaped(strict: bool, e: BodyForm, u: UniqueGroup, bodies: seq<BodyForm>, body: BodyForm, lo: nat, mid: nat,
                                          hi: nat)
    requires e.Let? && |u.patterns| == |bodies| && lo <= u.next <= mid <= hi && GroupNameable(e.bindings)
    requires Invents(u.names, lo, u.next) && u.names.Keys == Named(PatternList(e.bindings))
    requires PatternsList(u.patterns) == RenamePattern(u.names, PatternList(e.bindings))
    requires BodiesShaped(strict, e.bindings, bodies, u.next, mid) && Shaped(strict, e.inner, body, mid, hi)
    requires Fixed(strict, e.inner) !! u.names.Keys
    ensures forall inlined :: Shaped(strict, e, Let(Parallel, inlined, WithBodies(u.patterns, bodies), RenameIn(u.names, body)), lo, hi)
  {
    ShapedWider(strict, e.inner, body, mid, hi, u.next, hi);
    ReadsWider(FormsRead(bodies), BindingsRead(e.bindings), u.next, mid, u.next, hi);
    FreshAllWider(FormsBinders(bodies), u.next, mid, u.next, hi);
    forall inlined ensures Shaped(strict, e, Let(Parallel, inlined, WithBodies(u.patterns, bodies), RenameIn(u.names, body)), lo, hi) {
      LetShaped(strict, e, inlined, u.patterns, bodies, body, u.names, lo, u.next, hi);
    }
  }

  lemma {:induction false} CallShaped(strict: bool, forms: seq<BodyForm>, tail: BodyForm, args: seq<BodyForm>, last: BodyForm, lo: nat, mid: nat,
                                      hi: nat)
    requires lo <= mid <= hi && FormsShaped(strict, forms, args, lo, mid) && Shaped(strict, tail, last, mid, hi)
    ensures Shaped(strict, Call(forms, Some(tail)), Call(args, Some(last)), lo, hi)
  {
    ShapedWider(strict, tail, last, mid, hi, lo, hi);
    ReadsWider(FormsRead(args), FormsRead(forms), lo, mid, lo, hi);
    FreshAllWider(FormsBinders(args), lo, mid, lo, hi);
  }

  lemma {:induction false} RenameArgsShape(strict: bool, hintless: bool, e: BodyForm, count: nat)
    requires Nameable(strict, e)
    ensures var r := RenameArgs(hintless, e, count); Shaped(strict, e, r.value, count, r.next)
    decreases Weight(e), 1
  {
    match e
    case Let(Sequential, _, bs, inner) =>
      SequenceShape(strict, hintless, bs, inner, count);
    case Let(Parallel, inlined, bs, inner) => RenameParallelShape(strict, hintless, inlined, bs, inner, count);
    case Let(Assign, _, _, _) => RenameAssignShape(strict, hintless, e, count);
    case Call(forms, tail) =>
      WeightParts(e);
      RenameFormsShape(strict, hintless, forms, count);
      var args := RenameForms(hintless, forms, count);
      if tail.Some? {
        RenameArgsShape(strict, hintless, tail.value, args.next);
        var last := RenameArgs(hintless, tail.value, args.next);
        CallShaped(strict, forms, tail.value, args.value, last.value, count, args.next, last.next);
      }
    case _ =>
  }

  lemma {:induction false} RenameParallelShape(strict: bool, hintless: bool, inlined: bool, bs: seq<Binding>, inner: BodyForm, count: nat)
    requires Nameable(strict, Let(Parallel, inlined, bs, inner))
    ensures var e := Let(Parallel, inlined, bs, inner); var r := RenameArgs(hintless, e, count); Shaped(strict, e, r.value, count, r.next)
    decreases Weight(Let(Parallel, inlined, bs, inner)), 0
  {
    UniqueGroupRenames(bs, map[], count, count);
    var u := MakeAllUnique(bs, map[], count);
    WeightPerBinding(bs);
    RenameBodiesShape(strict, hintless, bs, u.next);
    var bodies := RenameBodies(hintless, bs, u.next);
    RenameArgsShape(strict, hintless, inner, bodies.next);
    var body := RenameArgs(hintless, inner, bodies.next);
    ParallelShaped(strict, Let(Parallel, inlined, bs, inner), u, bodies.value, body.value, count, bodies.next, body.next);
  }

  // ---- Assign forms ----------------------------------------------------------------------------

  /** Lists of bindings by what is in them. */
  lemma {:induction false} Member(strict: bool, bs: seq<Binding>, b: Binding)
    requires b in bs
    ensures BodyFixed(strict, b) <= BindingsFixed(strict, bs) && BodyReads(b) <= BindingsRead(bs) && BodyBinders(b) <= BindingsBinders(bs)
    ensures Atoms(PatternOf(b)) <= Atoms(PatternList(bs)) && (BindingsUnfolded(bs) ==> BodyUnfolded(b))
    ensures BindingsNameable(strict, bs) ==> Nameable(strict, b.body)
    ensures Renameable(PatternList(bs)) ==> Renameable(PatternOf(b))
    ensures WordsOnly(PatternList(bs)) ==> WordsOnly(PatternOf(b))
  {
    if b != bs[0] {
      Member(strict, bs[1..], b);
    }
    BindingParts(bs, 1);
  }

  lemma {:induction false} Members(strict: bool, a: seq<Binding>, bs: seq<Binding>)
    requires forall b :: b in a ==> b in bs
    ensures BindingsFixed(strict, a) <= BindingsFixed(strict, bs) && BindingsRead(a) <= BindingsRead(bs)
    ensures BindingsBinders(a) <= BindingsBinders(bs) && Atoms(PatternList(a)) <= Atoms(PatternList(bs))
    ensures BindingsUnfolded(bs) ==> BindingsUnfolded(a)
    ensures BindingsNameable(strict, bs) ==> BindingsNameable(strict, a)
    ensures Renameable(PatternList(bs)) ==> Renameable(PatternList(a))
    ensures WordsOnly(PatternList(bs)) ==> WordsOnly(PatternList(a))
  {
    if a != [] {
      assert a[0] in bs;
      Member(strict, bs, a[0]);
      Members(strict, a[1..], bs);
      BindingParts(a, 1);
    }
  }

  lemma {:induction false} BackwardsHolds<T>(s: seq<T>)
    ensures forall x :: x in Backwards(s) <==> x in s
  {
    if s != [] {
      BackwardsHolds(s[1..]);
      assert s == [s[0]] + s[1..];
    }
  }

  lemma {:induction false} BackwardsAt<T>(s: seq<T>, k: nat)
    requires k < |s|
    ensures Backwards(s)[|s| - 1 - k] == s[k]
  {
    if k > 0 {
      BackwardsAt(s[1..], k - 1);
    }
  }

  lemma {:induction false} InOrderGroup(strict: bool, bs: seq<Binding>)
    requires SortBindings(bs).Known? && GroupNameable(bs) && AllComplex(bs) && BindingsNameable(strict, bs)
    ensures GroupNameable(InOrder(bs)) && AllComplex(InOrder(bs)) && BindingsNameable(strict, InOrder(bs))
    ensures BindingsFixed(strict, InOrder(bs)) == BindingsFixed(strict, bs) && BindingsRead(InOrder(bs)) == BindingsRead(bs)
    ensures Atoms(PatternList(InOrder(bs))) == Atoms(PatternList(bs)) && WordsOnly(PatternList(InOrder(bs))) == WordsOnly(PatternList(bs))
    ensures |InOrder(bs)| == |bs|
  {
    InOrderHolds(bs);
    InOrderNameable(bs);
    Members(strict, InOrder(bs), bs);
    Members(strict, bs, InOrder(bs));
  }

  lemma {:induction false} RenameAssignShape(strict: bool, hintless: bool, e: BodyForm, count: nat)
    requires e.Let? && e.kind == Assign && Nameable(strict, e)
    ensures var r := RenameArgs(hintless, e, count); Shaped(strict, e, r.value, count, r.next)
    decreases Weight(e), 0
  {
    var Let(_, inlined, bs, inner) := e;
    WeightPerBinding(bs);
    InOrderWeight(bs);
    InOrderGroup(strict, bs);
    RenameInOrderShape(strict, hintless, InOrder(bs), map[], count, count);
    var g := RenameInOrder(hintless, InOrder(bs), map[], count);
    RenameArgsShape(strict, hintless, inner, g.next);
    AssignShaped(strict, e, g, RenameArgs(hintless, inner, g.next).value, count, RenameArgs(hintless, inner, g.next).next);
  }

  /** What renaming in order makes of bindings. */
  ghost predicate OrderShaped(strict: bool, bs: seq<Binding>, m: NameMap, g: RenamedGroup, lo: nat) {
    Invents(g.names, lo, g.next) && g.names.Keys == m.Keys + Named(PatternList(bs)) && (forall x :: x in m ==> g.names[x] == m[x])
    && PatternList(g.bindings) == RenamePattern(g.names, PatternList(bs)) && |g.bindings| == |bs|
    && BindingsUnfolded(g.bindings) && BindingsFixed(strict, g.bindings) == BindingsFixed(strict, bs)
    && ReadsFrom(BindingsRead(g.bindings), BindingsRead(bs), lo, g.next) && AllFresh(BindingsBinders(g.bindings), lo, g.next)
  }

  lemma {:induction false} RenameInOrderShape(strict: bool, hintless: bool, bs: seq<Binding>, m: NameMap, lo: nat, count: nat)
    requires BindingsNameable(strict, bs) && GroupNameable(bs) && AllComplex(bs) && Invents(m, lo, count) && lo <= count
    requires m.Keys !! Named(PatternList(bs)) && BindingsFixed(strict, bs) !! (m.Keys + Named(PatternList(bs)))
    ensures OrderShaped(strict, bs, m, RenameInOrder(hintless, bs, m, count), lo)
    decreases BindingsWeight(bs, 1), 2
  {
    if bs != [] {
      BindingParts(bs, 1);
      assert bs[0].pattern.Complex?;
      var p := bs[0].pattern.pattern;
      assert PatternOf(bs[0]) == p && BodyFixed(strict, bs[0]) == Fixed(strict, bs[0].body);
      InventsNames(p, m, lo, count);
      var own := InventNames(p, m, count);
      RenameArgsShape(strict, hintless, bs[0].body, own.next);
      var body := RenameArgs(hintless, bs[0].body, own.next);
      InventsLater(own.names, lo, own.next, body.next);
      assert AllComplex(bs[1..]);
      RenameInOrderShape(strict, hintless, bs[1..], own.names, lo, body.next);
      OldOnesKept(p, m, count);
      OrderStep(strict, bs, m, own, body, RenameInOrder(hintless, bs[1..], own.names, body.next), lo);
    }
  }

  lemma {:induction false} InventsLater(m: NameMap, lo: nat, hi: nat, hi': nat)
    requires Invents(m, lo, hi) && hi <= hi'
    ensures Invents(m, lo, hi')
  {
    forall x | x in m ensures InventedAs(m, x, lo, hi') {
      assert InventedAs(m, x, lo, hi);
    }
  }

  lemma {:induction false} OldOnesKept(p: SExp, m: NameMap, count: nat)
    ensures forall x :: x in m && x !in Named(p) ==> x in InventNames(p, m, count).names && InventNames(p, m, count).names[x] == m[x]
  {
    if p.Cons? {
      OldOnesKept(p.first, m, count);
      OldOnesKept(p.rest, InventNames(p.first, m, count).names, InventNames(p.first, m, count).next);
    }
  }

  lemma {:induction false} OrderStep(strict: bool, bs: seq<Binding>, m: NameMap, own: Invented, body: Renamed<BodyForm>, rest: RenamedGroup, lo: nat)
    requires bs != [] && bs[0].pattern.Complex? && GroupNameable(bs) && m.Keys !! Named(PatternList(bs))
    requires Invents(own.names, lo, own.next) && own.names.Keys == m.Keys + Named(PatternOf(bs[0])) && lo <= own.next <= body.next <= rest.next
    requires (forall x :: x in m ==> own.names[x] == m[x]) && Fixed(strict, bs[0].body) !! own.names.Keys
    requires Shaped(strict, bs[0].body, body.value, own.next, body.next) && OrderShaped(strict, bs[1..], own.names, rest, lo)
    ensures var first := Binding(Complex(RenameInCons(own.names, bs[0].pattern.pattern, false)), RenameIn(own.names, body.value));
            OrderShaped(strict, bs, m, RenamedGroup(rest.names, [first] + rest.bindings, rest.next), lo)
  {
    var p := bs[0].pattern.pattern;
    var first := Binding(Complex(RenameInCons(own.names, p, false)), RenameIn(own.names, body.value));
    var all := [first] + rest.bindings;
    RenamesEveryLeaf(own.names, p, false);
    forall x | x in Atoms(p) ensures NewName(own.names, x) == NewName(rest.names, x) {
    }
    SameRenaming(own.names, rest.names, p);
    assert all[0] == first && all[1..] == rest.bindings && PatternOf(first) == RenamePattern(rest.names, p);
    assert Named(PatternList(bs)) == Named(p) + Named(PatternList(bs[1..]));
    RenamedBodyShape(strict, bs[0], first, own, body, lo, rest.next);
    assert forall x :: x in m ==> x in own.names;
  }

  lemma {:induction false} RenamedBodyShape(strict: bool, b: Binding, r: Binding, own: Invented, body: Renamed<BodyForm>, lo: nat, hi: nat)
    requires Invents(own.names, lo, own.next) && lo <= own.next <= body.next <= hi && Fixed(strict, b.body) !! own.names.Keys
    requires Shaped(strict, b.body, body.value, own.next, body.next) && r.body == RenameIn(own.names, body.value)
    ensures BodyUnfolded(r) && BodyFixed(strict, r) == BodyFixed(strict, b) && ReadsFrom(BodyReads(r), BodyReads(b), lo, hi)
    ensures AllFresh(BodyBinders(r), lo, hi)
  {
    RenameInShape(strict, own.names, lo, own.next, body.value);
    ReadsWider(Reads(body.value), Reads(b.body), own.next, body.next, lo, hi);
    ReadsWider(Reads(r.body), Reads(body.value), lo, own.next, lo, hi);
    FreshAllWider(Binders(body.value), own.next, body.next, lo, hi);
  }

  lemma {:induction false} WordsRenamed(m: NameMap, p: SExp)
    requires WordsOnly(p)
    ensures WordsOnly(RenamePattern(m, p))
  {
    if p.Cons? {
      WordsRenamed(m, p.first);
      WordsRenamed(m, p.rest);
    }
  }

  lemma {:induction false} BackwardsShaped(strict: bool, bs: seq<Binding>, g: RenamedGroup, lo: nat)
    requires SortBindings(bs).Known? && GroupNameable(bs) && AllComplex(bs) && BindingsNameable(strict, bs) && WordsOnly(PatternList(bs)) && bs != []
    requires OrderShaped(strict, InOrder(bs), map[], g, lo)
    ensures var r := Backwards(g.bindings);
            r != [] && WordsOnly(PatternList(r)) && Renameable(PatternList(r)) && AllFresh(Named(PatternList(r)), lo, g.next)
            && BindingsUnfolded(r) && BindingsFixed(strict, r) == BindingsFixed(strict, bs)
            && ReadsFrom(BindingsRead(r), BindingsRead(bs), lo, g.next) && AllFresh(BindingsBinders(r), lo, g.next)
    ensures g.names.Keys == Named(PatternList(bs))
  {
    var picked, r := InOrder(bs), Backwards(g.bindings);
    InOrderGroup(strict, bs);
    GroupIsRenameable(picked);
    WordsRenamed(g.names, PatternList(picked));
    RenamedPattern(g.names, lo, g.next, PatternList(picked));
    BackwardsHolds(g.bindings);
    Members(strict, r, g.bindings);
    Members(strict, g.bindings, r);
  }

  lemma {:induction false} AssignShaped(strict: bool, e: BodyForm, g: RenamedGroup, inner: BodyForm, lo: nat, hi: nat)
    requires e.Let? && AssignGroup(strict, e.bindings, e.inner) && BindingsNameable(strict, e.bindings) && lo <= g.next <= hi
    requires OrderShaped(strict, InOrder(e.bindings), map[], g, lo) && Shaped(strict, e.inner, inner, g.next, hi)
    ensures Shaped(strict, e, Let(Assign, e.inlined, Backwards(g.bindings), RenameIn(g.names, inner)), lo, hi)
  {
    var bs, r := e.bindings, Backwards(g.bindings);
    BackwardsShaped(strict, bs, g, lo);
    FreshAllWider(Named(PatternList(r)), lo, g.next, lo, hi);
    FreshAllWider(BindingsBinders(r), lo, g.next, lo, hi);
    ReadsWider(BindingsRead(r), BindingsRead(bs), lo, g.next, lo, hi);
    RenamedInnerShape(strict, g.names, e.inner, inner, lo, g.next, hi);
    LetJoined(strict, e, Assign, e.inlined, r, RenameIn(g.names, inner), lo, hi);
  }

  lemma {:induction false} RenamedInnerShape(strict: bool, m: NameMap, e: BodyForm, inner: BodyForm, lo: nat, mid: nat, hi: nat)
    requires Invents(m, lo, mid) && Shaped(strict, e, inner, mid, hi) && Fixed(strict, e) !! m.Keys && lo <= mid <= hi
    ensures Shaped(strict, e, RenameIn(m, inner), lo, hi)
  {
    RenameInShape(strict, m, lo, mid, inner);
    FreshAllWider(Binders(inner), mid, hi, lo, hi);
    ReadsWider(Reads(inner), Reads(e), mid, hi, lo, hi);
    ReadsWider(Reads(RenameIn(m, inner)), Reads(inner), lo, mid, lo, hi);
  }

  lemma {:induction false} LetJoined(strict: bool, e: BodyForm, kind: LetKind, inlined: bool, bs: seq<Binding>, inner: BodyForm, lo: nat, hi: nat)
    requires e.Let? && kind != Sequential && (kind == Assign ==> bs != [] && WordsOnly(PatternList(bs)))
    requires Renameable(PatternList(bs)) && BindingsUnfolded(bs) && BindingsFixed(strict, bs) == BindingsFixed(strict, e.bindings)
    requires ReadsFrom(BindingsRead(bs), BindingsRead(e.bindings), lo, hi) && AllFresh(BindingsBinders(bs), lo, hi)
    requires AllFresh(Named(PatternList(bs)), lo, hi) && Shaped(strict, e.inner, inner, lo, hi)
    ensures Shaped(strict, e, Let(kind, inlined, bs, inner), lo, hi)
  {
  }

  /** The first binding of a let* and its new names. */
  lemma {:induction false} FirstIsUnique(strict: bool, bs: seq<Binding>, inner: BodyForm, count: nat)
    requires bs != [] && SequenceNameable(strict, bs, inner)
    ensures var u := MakeAllUnique([bs[0]], map[], count);
            |u.patterns| == 1 && count <= u.next && GroupNameable([bs[0]])
            && Invents(u.names, count, u.next) && u.names.Keys == Named(PatternList([bs[0]]))
            && PatternsList(u.patterns) == RenamePattern(u.names, PatternList([bs[0]]))
            && (BindingsFixed(strict, bs[1..]) + Fixed(strict, inner)) !! u.names.Keys
            && Nameable(strict, bs[0].body) && SequenceNameable(strict, bs[1..], inner)
  {
    BindingParts(bs, 1);
    UniqueGroupRenames([bs[0]], map[], count, count);
  }

  lemma {:induction false} SequenceShape(strict: bool, hintless: bool, bs: seq<Binding>, inner: BodyForm, count: nat)
    requires SequenceNameable(strict, bs, inner)
    ensures var r := RenameSequence(hintless, bs, inner, count);
            Shaped(strict, Let(Sequential, false, bs, inner), r.value, count, r.next)
    decreases BindingsWeight(bs, 1) + Weight(inner), 2
  {
    if bs == [] {
      RenameArgsShape(strict, hintless, inner, count);
    } else {
      BindingParts(bs, 1);
      FirstIsUnique(strict, bs, inner, count);
      var u := MakeAllUnique([bs[0]], map[], count);
      RenameArgsShape(strict, hintless, bs[0].body, u.next);
      var first := RenameArgs(hintless, bs[0].body, u.next);
      SequenceShape(strict, hintless, bs[1..], inner, first.next);
      var body := RenameSequence(hintless, bs[1..], inner, first.next);
      SequenceStep(strict, hintless, bs, inner, u, first.value, body.value, count, first.next, body.next);
    }
  }

  lemma {:induction false} SequenceStep(strict: bool, hintless: bool, bs: seq<Binding>, inner: BodyForm, u: UniqueGroup, first: BodyForm,
                                        body: BodyForm, lo: nat, mid: nat, hi: nat)
    requires bs != [] && |u.patterns| == 1 && lo <= u.next <= mid <= hi && GroupNameable([bs[0]])
    requires Invents(u.names, lo, u.next) && u.names.Keys == Named(PatternList([bs[0]]))
    requires PatternsList(u.patterns) == RenamePattern(u.names, PatternList([bs[0]]))
    requires Shaped(strict, bs[0].body, first, u.next, mid) && Shaped(strict, Let(Sequential, false, bs[1..], inner), body, mid, hi)
    requires (BindingsFixed(strict, bs[1..]) + Fixed(strict, inner)) !! u.names.Keys
    ensures Shaped(strict, Let(Sequential, false, bs, inner),
                   Let(Parallel, hintless, WithBodies(u.patterns, [first]), RenameIn(u.names, body)), lo, hi)
  {
    var rest := Let(Sequential, false, bs[1..], inner);
    var one := Let(Parallel, hintless, [bs[0]], rest);
    assert BodiesShaped(strict, [bs[0]][1..], [], mid, mid);
    BodiesShapedFirst(strict, [bs[0]], first, [], u.next, mid, mid);
    assert [first] + [] == [first];
    ParallelShaped(strict, one, u, [first], body, lo, mid, hi);
    assert [bs[0]][1..] == [];
    assert Reads(one) == Reads(Let(Sequential, false, bs, inner));
    assert Fixed(strict, one) == Fixed(strict, Let(Sequential, false, bs, inner));
  }

  lemma {:induction false} RenameBodiesShape(strict: bool, hintless: bool, bs: seq<Binding>, count: nat)
    requires BindingsNameable(strict, bs)
    ensures var r := RenameBodies(hintless, bs, count); BodiesShaped(strict, bs, r.value, count, r.next)
    decreases BindingsWeight(bs, 1), 2
  {
    if bs != [] {
      BindingParts(bs, 1);
      RenameArgsShape(strict, hintless, bs[0].body, count);
      var first := RenameArgs(hintless, bs[0].body, count);
      RenameBodiesShape(strict, hintless, bs[1..], first.next);
      var rest := RenameBodies(hintless, bs[1..], first.next);
      BodiesShapedFirst(strict, bs, first.value, rest.value, count, first.next, rest.next);
    }
  }

  lemma {:induction false} RenameFormsShape(strict: bool, hintless: bool, forms: seq<BodyForm>, count: nat)
    requires FormsNameable(strict, forms)
    ensures var r := RenameForms(hintless, forms, count); FormsShaped(strict, forms, r.value, count, r.next)
    decreases FormsWeight(forms), 2
  {
    if forms != [] {
      RenameArgsShape(strict, hintless, forms[0], count);
      var first := RenameArgs(hintless, forms[0], count);
      RenameFormsShape(strict, hintless, forms[1..], first.next);
      var rest := RenameForms(hintless, forms[1..], first.next);
      FormsShapedFirst(strict, forms, first.value, rest.value, count, first.next, rest.next);
    }
  }
}
