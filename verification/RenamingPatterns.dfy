/** What renamed patterns bind. */
module RenamingPatterns {
  import opened Numbers
  import opened SExpressions
  import opened Syntax
  import opened AssignForms
  import opened Semantics
  import opened HoistingNames
  import opened Renaming
  import opened RenamingNames

  function RenameEach(m: NameMap, l: seq<SExp>): (r: seq<SExp>)
    ensures |r| == |l| && forall i :: 0 <= i < |l| ==> r[i] == RenamePattern(m, l[i])
  {
    seq(|l|, i requires 0 <= i < |l| => RenamePattern(m, l[i]))
  }

  lemma {:induction false} SameList(m: NameMap, lo: nat, hi: nat, p: SExp)
    requires Invents(m, lo, hi) && Renameable(p)
    ensures ProperList(RenamePattern(m, p)) == match ProperList(p) case None => None case Some(l) => Some(RenameEach(m, l))
  {
    if p.Atom? && p.name in m {
      InventedIsFresh(m, p.name, lo, hi);
    }
    if p.Cons? {
      SameList(m, lo, hi, p.rest);
      if ProperList(p.rest).Some? {
        var l := ProperList(p.rest).value;
        assert RenameEach(m, [p.first] + l) == [RenamePattern(m, p.first)] + RenameEach(m, l);
      }
    }
  }

  lemma {:induction false} SameCapture(m: NameMap, lo: nat, hi: nat, h: SExp, t: SExp)
    requires Invents(m, lo, hi) && Renameable(h) && Renameable(t)
    ensures IsAtCapture(RenamePattern(m, h), RenamePattern(m, t)) ==
            match IsAtCapture(h, t) case None => None case Some(c) => Some((NewName(m, c.0), RenamePattern(m, c.1)))
    ensures IsAtCapture(h, t).Some? ==>
              Renameable(IsAtCapture(h, t).value.1) && Atoms(IsAtCapture(h, t).value.1) <= Atoms(t) && IsAtCapture(h, t).value.0 in Atoms(t)
              && Renames(IsAtCapture(h, t).value.0)
  {
    SameList(m, lo, hi, t);
    if h.Atom? && h.name in m {
      InventedIsFresh(m, h.name, lo, hi);
    }
    if IsAtCapture(h, t).Some? {
      ListParts(t, 0);
      ListParts(t, 1);
    }
  }

  lemma {:induction false} ListParts(p: SExp, i: nat)
    requires Renameable(p) && ProperList(p).Some? && i < |ProperList(p).value|
    ensures Renameable(ProperList(p).value[i]) && Atoms(ProperList(p).value[i]) <= Atoms(p)
  {
    if i > 0 {
      ListParts(p.rest, i - 1);
    }
  }

  /** A name that renaming does not invent. */
  ghost predicate Outside(name: bytes, lo: nat, hi: nat) { !FreshName(name, lo, hi) }

  lemma {:induction false} NewNamesDiffer(m: NameMap, lo: nat, hi: nat, x: bytes, y: bytes)
    requires Invents(m, lo, hi) && Outside(x, lo, hi) && Outside(y, lo, hi) && x != y
    ensures NewName(m, x) != NewName(m, y)
  {
    if x in m {
      InventedIsFresh(m, x, lo, hi);
    }
    if y in m {
      InventedIsFresh(m, y, lo, hi);
    }
    if x in m && y in m && m[x] == m[y] {
      InventedApart(m, lo, hi, x, y);
    }
  }

  /** A renamed pattern gives to each new name what the pattern gives to the old one. */
  lemma {:induction false} RenamedBinds(m: NameMap, lo: nat, hi: nat, p: SExp, v: SExp, y: bytes)
    requires Invents(m, lo, hi) && Renameable(p) && Outside(y, lo, hi) && forall x :: x in Atoms(p) ==> Outside(x, lo, hi)
    ensures Binds(RenamePattern(m, p), NewName(m, y)) <==> Binds(p, y)
    ensures Binds(p, y) ==> Destructure(RenamePattern(m, p), v, NewName(m, y)) == Destructure(p, v, y)
    decreases Size(p)
  {
    match p
    case Atom(a) =>
      if a != y {
        NewNamesDiffer(m, lo, hi, a, y);
      }
    case Cons(h, t) =>
      SameCapture(m, lo, hi, h, t);
      var at := IsAtCapture(h, t);
      if at.Some? {
        if at.value.0 != y {
          NewNamesDiffer(m, lo, hi, at.value.0, y);
          RenamedBinds(m, lo, hi, at.value.1, v, y);
        }
      } else {
        RenamedBinds(m, lo, hi, h, if v.Cons? then v.first else v, y);
        RenamedBinds(m, lo, hi, t, if v.Cons? then v.rest else v, y);
      }
    case _ =>
  }

  lemma {:induction false} RenamedCovers(m: NameMap, lo: nat, hi: nat, p: SExp, v: SExp)
    requires Invents(m, lo, hi) && Renameable(p)
    ensures Covers(RenamePattern(m, p), v) == Covers(p, v)
    decreases Size(p)
  {
    if p.Cons? {
      SameCapture(m, lo, hi, p.first, p.rest);
      var at := IsAtCapture(p.first, p.rest);
      if at.Some? {
        RenamedCovers(m, lo, hi, at.value.1, v);
      } else if v.Cons? {
        RenamedCovers(m, lo, hi, p.first, v.first);
        RenamedCovers(m, lo, hi, p.rest, v.rest);
      }
    }
  }

  lemma {:induction false} BindsAtoms(p: SExp, x: bytes)
    requires Renameable(p) && Binds(p, x)
    ensures x in Atoms(p)
    decreases Size(p)
  {
    if p.Cons? {
      var at := IsAtCapture(p.first, p.rest);
      if at.Some? {
        ListParts(p.rest, 0);
        ListParts(p.rest, 1);
        if at.value.0 != x {
          BindsAtoms(at.value.1, x);
        }
      } else if Binds(p.first, x) {
        BindsAtoms(p.first, x);
      } else {
        BindsAtoms(p.rest, x);
      }
    }
  }

  lemma {:induction false} AtomsAreNames(p: SExp)
    ensures Atoms(p) <= SExpNames(p)
  {
    if p.Cons? {
      AtomsAreNames(p.first);
      AtomsAreNames(p.rest);
    }
  }

  lemma {:induction false} NamedAreMentioned(bs: seq<Binding>)
    ensures Atoms(PatternList(bs)) <= BindingsMention(bs)
  {
    if bs != [] {
      AtomsAreNames(PatternOf(bs[0]));
      NamedAreMentioned(bs[1..]);
    }
  }

  lemma {:induction false} NamedIsBound(p: SExp, x: bytes)
    requires Renameable(p) && x in Named(p)
    ensures Binds(p, x)
    decreases Size(p)
  {
    if p.Cons? {
      var at := IsAtCapture(p.first, p.rest);
      if at.Some? {
        CaptureAtoms(p.rest);
        assert Atoms(p.first) == {AT} && Atoms(Atom(at.value.0)) == {at.value.0};
        if at.value.0 != x {
          NamedIsBound(at.value.1, x);
        }
      } else if x in Named(p.first) {
        NamedIsBound(p.first, x);
      } else {
        NamedIsBound(p.rest, x);
      }
    }
  }

  lemma {:induction false} CaptureAtoms(p: SExp)
    requires Renameable(p) && ProperList(p).Some? && |ProperList(p).value| == 2
    ensures var l := ProperList(p).value; Renameable(l[1]) && Atoms(p) == Atoms(l[0]) + Atoms(l[1])
  {
    ListParts(p, 1);
    assert p.Cons? && p.rest.Cons?;
    assert ProperList(p.rest.rest) == Some([]) && Renameable(p.rest) && Renameable(p.rest.rest);
    assert Atoms(p.rest.rest) == {};
  }

  lemma {:induction false} BeforeIsOutside(x: bytes, lo: nat, mid: nat)
    requires Before(x, lo)
    ensures Outside(x, lo, mid)
  {
  }
}
