/** Hoisted functions have names of their own, so each is found by its name. */
module HoistingNames {
  import opened Numbers
  import opened SExpressions
  import opened Syntax
  import opened AssignForms
  import opened AssignWeight
  import opened Gensyms
  import opened Hoisting

  /** A name invented while the counter stood between two values. */
  ghost predicate FreshName(name: bytes, lo: nat, hi: nat) {
    exists prefix: bytes, j: nat :: lo <= j < hi && name == Gensym(prefix, j)
  }

  ghost predicate FreshNames(hs: seq<Defun>, lo: nat, hi: nat) {
    Distinct(hs) && forall i :: 0 <= i < |hs| ==> FreshName(hs[i].name, lo, hi)
  }

  lemma {:induction false} FreshApart(a: bytes, lo: nat, mid: nat, b: bytes, mid': nat, hi: nat)
    requires FreshName(a, lo, mid) && FreshName(b, mid', hi) && mid <= mid'
    ensures a != b
  {
    var p: bytes, i: nat :| lo <= i < mid && a == Gensym(p, i);
    var q: bytes, j: nat :| mid' <= j < hi && b == Gensym(q, j);
    if a == b {
      GensymInjective(p, i, q, j);
    }
  }

  lemma {:induction false} FreshWider(name: bytes, lo: nat, hi: nat, lo': nat, hi': nat)
    requires FreshName(name, lo, hi) && lo' <= lo && hi <= hi'
    ensures FreshName(name, lo', hi')
  {
  }

  /** Names from two spans of the counter, in either order. */
  lemma {:induction false} FreshBoth(a: seq<Defun>, lo1: nat, hi1: nat, b: seq<Defun>, lo2: nat, hi2: nat, lo: nat, hi: nat)
    requires FreshNames(a, lo1, hi1) && FreshNames(b, lo2, hi2) && (hi1 <= lo2 || hi2 <= lo1)
    requires lo <= lo1 && lo <= lo2 && hi1 <= hi && hi2 <= hi
    ensures FreshNames(a + b, lo, hi)
  {
    var c := a + b;
    forall i | 0 <= i < |c| ensures FreshName(c[i].name, lo, hi) {
      if i < |a| { FreshWider(a[i].name, lo1, hi1, lo, hi); } else { FreshWider(b[i - |a|].name, lo2, hi2, lo, hi); }
    }
    forall i, j | 0 <= i < j < |c| ensures c[i].name != c[j].name {
      if i < |a| <= j {
        if hi1 <= lo2 {
          FreshApart(a[i].name, lo1, hi1, b[j - |a|].name, lo2, hi2);
        } else {
          FreshApart(b[j - |a|].name, lo2, hi2, a[i].name, lo1, hi1);
        }
      }
    }
  }

  lemma {:induction false} OneFresh(f: Defun, prefix: bytes, count: nat)
    requires f.name == Gensym(prefix, count)
    ensures FreshNames([f], count, count + 1)
  {
  }

  lemma {:induction false} HoistNames(outer: Option<SExp>, args: SExp, e: BodyForm, count: nat)
    requires HoistBody(outer, args, e, count).Some?
    ensures var h := HoistBody(outer, args, e, count).value; count <= h.next && FreshNames(h.helpers, count, h.next)
    decreases Weight(e), 1
  {
    match e
    case Let(Sequential, inlined, bs, inner) =>
      if bs != [] {
        OneBindingWeight(bs);
        HoistLetNames(outer, args, inlined, [bs[0]], AfterFirst(inlined, bs, inner), count);
      }
    case Let(Parallel, inlined, bs, inner) => HoistLetNames(outer, args, inlined, bs, inner, count);
    case Let(Assign, inlined, bs, inner) =>
      HoistedAssignIsLighter(inlined, bs, inner);
      HoistNames(outer, args, HoistAssign(inlined, bs, inner).value, count);
    case Call(forms, tail) =>
      WeightParts(e);
      HoistFormsNames(outer, args, forms[1..], count);
      var f := HoistForms(outer, args, forms[1..], count).value;
      if tail.Some? {
        HoistNames(outer, args, tail.value, f.next);
      }
      var t := HoistTail(outer, args, tail, f.next).value;
      FreshBoth(f.helpers, count, f.next, t.helpers, f.next, t.next, count, t.next);
    case Lambda(captureArgs, lambdaArgs, captures, body) =>
      var functionArgs := Cons(captureArgs, lambdaArgs);
      HoistNames(Some(functionArgs), functionArgs, body, count + 1);
      var h := HoistBody(Some(functionArgs), functionArgs, body, count + 1).value;
      var f := Defun(Gensym(LAMBDA_NAME, count), false, functionArgs, h.body);
      OneFresh(f, LAMBDA_NAME, count);
      FreshBoth(h.helpers, count + 1, h.next, [f], count, count + 1, count, h.next);
    case _ =>
  }

  lemma {:induction false} HoistLetNames(outer: Option<SExp>, args: SExp, inlined: bool, bs: seq<Binding>,
                                         inner: BodyForm, count: nat)
    requires HoistLet(outer, args, inlined, bs, inner, count).Some?
    ensures var h := HoistLet(outer, args, inlined, bs, inner, count).value;
            count <= h.next && FreshNames(h.helpers, count, h.next)
    decreases BindingsWeight(bs, 1), 3
  {
    HoistBindingsNames(outer, args, bs, count + 1);
    var h := HoistBindings(outer, args, bs, count + 1).value;
    var f := LetDefun(Gensym(LETBINDING_NAME, count), inlined, args, bs, inner);
    OneFresh(f, LETBINDING_NAME, count);
    FreshBoth(h.helpers, count + 1, h.next, [f], count, count + 1, count, h.next);
  }

  lemma {:induction false} HoistBindingsNames(outer: Option<SExp>, args: SExp, bs: seq<Binding>, count: nat)
    requires HoistBindings(outer, args, bs, count).Some?
    ensures var h := HoistBindings(outer, args, bs, count).value; count <= h.next && FreshNames(h.helpers, count, h.next)
    decreases BindingsWeight(bs, 1), 2
  {
    if bs != [] {
      BindingParts(bs, 1);
      HoistNames(outer, args, bs[0].body, count);
      var f := HoistBody(outer, args, bs[0].body, count).value;
      HoistBindingsNames(outer, args, bs[1..], f.next);
      var h := HoistBindings(outer, args, bs[1..], f.next).value;
      FreshBoth(f.helpers, count, f.next, h.helpers, f.next, h.next, count, h.next);
    }
  }

  lemma {:induction false} HoistFormsNames(outer: Option<SExp>, args: SExp, forms: seq<BodyForm>, count: nat)
    requires HoistForms(outer, args, forms, count).Some?
    ensures var h := HoistForms(outer, args, forms, count).value; count <= h.next && FreshNames(h.helpers, count, h.next)
    decreases FormsWeight(forms), 2
  {
    if forms != [] {
      HoistNames(outer, args, forms[0], count);
      var f := HoistBody(outer, args, forms[0], count).value;
      HoistFormsNames(outer, args, forms[1..], f.next);
      var h := HoistForms(outer, args, forms[1..], f.next).value;
      FreshBoth(f.helpers, count, f.next, h.helpers, f.next, h.next, count, h.next);
    }
  }

  // ---- The worklist ----------------------------------------------------------------------------

  /** The functions the worklist deals with, each as it was before its own body was hoisted. */
  function RawHelpers(todo: seq<Defun>, count: nat): (r: seq<Defun>)
    requires ProcessHelpers(todo, count).Some?
    decreases HelpersCount(todo)
  {
    if todo == [] then []
    else
      var h := HoistDefun(todo[0], count).value;
      HoistShrinks(Context(todo[0]), todo[0].args, todo[0].body, count);
      HelpersCountBoth(h.helpers, todo[1..]);
      [todo[0]] + RawHelpers(h.helpers + todo[1..], h.next)
  }

  /** A function and what became of it; everything hoisted out of it is among the others. */
  predicate HoistsTo(raw: Defun, done: Defun, raws: seq<Defun>, count: nat) {
    HoistDefun(raw, count).Some?
    && done == raw.(body := HoistDefun(raw, count).value.body)
    && forall h :: h in HoistDefun(raw, count).value.helpers ==> h in raws
  }

  ghost predicate Follows(raw: Defun, done: Defun, raws: seq<Defun>) {
    exists count: nat :: HoistsTo(raw, done, raws, count)
  }

  lemma {:induction false} ProcessFollows(todo: seq<Defun>, count: nat)
    requires ProcessHelpers(todo, count).Some?
    ensures var raws, done := RawHelpers(todo, count), ProcessHelpers(todo, count).value.defuns;
            |raws| == |done| && (forall f :: f in todo ==> f in raws)
            && forall i :: 0 <= i < |raws| ==> Follows(raws[i], done[i], raws)
    decreases HelpersCount(todo)
  {
    if todo != [] {
      var h := HoistDefun(todo[0], count).value;
      HoistShrinks(Context(todo[0]), todo[0].args, todo[0].body, count);
      HelpersCountBoth(h.helpers, todo[1..]);
      var next := h.helpers + todo[1..];
      ProcessFollows(next, h.next);
      var raws, rest := RawHelpers(todo, count), RawHelpers(next, h.next);
      var done := ProcessHelpers(todo, count).value.defuns;
      assert forall f :: f in h.helpers ==> f in next;
      assert raws == [todo[0]] + rest;
      forall i | 0 <= i < |raws| ensures Follows(raws[i], done[i], raws) {
        if i == 0 {
          assert HoistsTo(todo[0], done[0], raws, count);
        } else {
          FollowsMore(rest[i - 1], done[i], rest, raws);
        }
      }
      forall f | f in todo ensures f in raws {
        if f != todo[0] {
          assert f in todo[1..] && f in next;
        }
      }
    }
  }

  lemma {:induction false} FollowsMore(raw: Defun, done: Defun, some: seq<Defun>, more: seq<Defun>)
    requires Follows(raw, done, some) && forall f :: f in some ==> f in more
    ensures Follows(raw, done, more)
  {
    var count: nat :| HoistsTo(raw, done, some, count);
    assert HoistsTo(raw, done, more, count);
  }

  /** A name not yet invented. */
  ghost predicate Before(name: bytes, count: nat) {
    forall prefix: bytes, j: nat :: count <= j ==> name != Gensym(prefix, j)
  }

  lemma {:induction false} FreshIsBefore(name: bytes, lo: nat, hi: nat)
    requires FreshName(name, lo, hi)
    ensures Before(name, hi)
  {
    var p: bytes, i: nat :| lo <= i < hi && name == Gensym(p, i);
    forall q: bytes, j: nat | hi <= j ensures name != Gensym(q, j) {
      if name == Gensym(q, j) {
        GensymInjective(p, i, q, j);
      }
    }
  }

  lemma {:induction false} UnmarkedIsBefore(name: bytes, count: nat)
    requires !Marked(name)
    ensures Before(name, count)
  {
    forall q: bytes, j: nat | count <= j ensures name != Gensym(q, j) {
      GensymIsMarked(q, j);
    }
  }

  ghost predicate AllBefore(fs: seq<Defun>, count: nat) {
    forall i :: 0 <= i < |fs| ==> Before(fs[i].name, count)
  }

  /** Old functions and newly hoisted ones. */
  lemma {:induction false} HoistedApart(hs: seq<Defun>, lo: nat, hi: nat, old': seq<Defun>)
    requires FreshNames(hs, lo, hi) && lo <= hi && Distinct(old') && AllBefore(old', lo)
    ensures Distinct(hs + old') && AllBefore(hs + old', hi)
  {
    var c := hs + old';
    forall i, j | 0 <= i < j < |c| ensures c[i].name != c[j].name {
      if i < |hs| <= j {
        FreshAfter(hs[i].name, lo, hi, old'[j - |hs|].name);
      }
    }
    forall i | 0 <= i < |c| ensures Before(c[i].name, hi) {
      if i < |hs| {
        FreshIsBefore(hs[i].name, lo, hi);
      } else {
        assert Before(old'[i - |hs|].name, lo);
      }
    }
  }

  lemma {:induction false} FreshAfter(name: bytes, lo: nat, hi: nat, other: bytes)
    requires FreshName(name, lo, hi) && Before(other, lo)
    ensures name != other
  {
  }

  /** Every function the worklist deals with is an old one or invented on the way, and no two share a
      name. */
  lemma {:induction false} RawNames(todo: seq<Defun>, count: nat)
    requires ProcessHelpers(todo, count).Some? && Distinct(todo) && AllBefore(todo, count)
    ensures var raws, next := RawHelpers(todo, count), ProcessHelpers(todo, count).value.next;
            count <= next && Distinct(raws)
            && forall f :: f in raws ==> f in todo || FreshName(f.name, count, next)
    decreases HelpersCount(todo)
  {
    if todo != [] {
      var h := HoistDefun(todo[0], count).value;
      HoistShrinks(Context(todo[0]), todo[0].args, todo[0].body, count);
      HelpersCountBoth(h.helpers, todo[1..]);
      HoistNames(Context(todo[0]), todo[0].args, todo[0].body, count);
      HoistedApart(h.helpers, count, h.next, todo[1..]);
      var more := h.helpers + todo[1..];
      RawNames(more, h.next);
      var raws, rest := RawHelpers(todo, count), RawHelpers(more, h.next);
      var next := ProcessHelpers(todo, count).value.next;
      assert raws == [todo[0]] + rest;
      forall f | f in raws ensures f in todo || FreshName(f.name, count, next) {
        if f != todo[0] && f in more {
          MoreIsFresh(h.helpers, todo, count, h.next, f, next);
        } else if f != todo[0] {
          FreshWider(f.name, h.next, next, count, next);
        }
      }
      forall i, j | 0 <= i < j < |raws| ensures raws[i].name != raws[j].name {
        if i == 0 {
          FirstApart(todo, h.helpers, count, h.next, next, rest[j - 1]);
        }
      }
    }
  }

  lemma {:induction false} MoreIsFresh(hs: seq<Defun>, todo: seq<Defun>, count: nat, mid: nat, f: Defun, next: nat)
    requires todo != [] && FreshNames(hs, count, mid) && f in hs + todo[1..] && mid <= next
    ensures f in todo || FreshName(f.name, count, next)
  {
    if f in hs {
      FreshWider(f.name, count, mid, count, next);
    } else {
      assert f in todo[1..];
    }
  }

  lemma {:induction false} FirstApart(todo: seq<Defun>, hs: seq<Defun>, count: nat, mid: nat, next: nat, f: Defun)
    requires todo != [] && Distinct(todo) && AllBefore(todo, count) && FreshNames(hs, count, mid) && count <= mid <= next
    requires f in hs + todo[1..] || FreshName(f.name, mid, next)
    ensures todo[0].name != f.name
  {
    assert Before(todo[0].name, count);
    if f in hs {
      FreshAfter(f.name, count, mid, todo[0].name);
    } else if f in hs + todo[1..] {
      assert f in todo[1..];
      var j :| 0 <= j < |todo[1..]| && todo[1..][j] == f;
      assert todo[j + 1] == f;
    } else {
      FreshWider(f.name, mid, next, count, next);
      FreshAfter(f.name, count, next, todo[0].name);
    }
  }
}
