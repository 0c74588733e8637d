/** Long names, the tour through nested namespaces and the search for the helper a name stands for. */
module Namespaces {
  import opened Numbers
  import opened SExpressions
  import opened Syntax

  // ---- Long names ------------------------------------------------------------------------------

  type LongName = seq<bytes>

  const DOT: byte := 46

  predicate Dotless(s: bytes) { DOT !in s }

  function Split(s: bytes): (r: seq<bytes>)
    ensures r != [] && forall c :: c in r ==> Dotless(c)
  {
    if s == [] then [[]]
    else
      var rest := Split(s[1..]);
      if s[0] == DOT then [[]] + rest
      else
        assert Dotless(rest[0]);
        [[s[0]] + rest[0]] + rest[1..]
  }

  /** `ImportLongName::parse`, without the flag that tells relative names. */
  function ParseName(s: bytes): (r: LongName)
    ensures r != [] && forall c :: c in r ==> Dotless(c)
  {
    if s != [] && s[0] == DOT then Split(s[1..]) else Split(s)
  }

  /** `as_u8_vec` for namespaces. */
  function Render(n: LongName): (r: bytes) {
    if n == [] then [] else if |n| == 1 then n[0] else n[0] + [DOT] + Render(n[1..])
  }

  /** `parent_and_name`. */
  function Parent(n: LongName): (r: Option<LongName>) { if |n| > 1 then Some(n[..|n| - 1]) else None }

  function Child(n: LongName): (r: bytes) { if n == [] then [] else n[|n| - 1] }

  lemma {:induction false} SplitDotless(s: bytes)
    requires Dotless(s)
    ensures Split(s) == [s]
  {
    if s != [] {
      SplitDotless(s[1..]);
      assert [s[0]] + s[1..] == s;
    }
  }

  lemma {:induction false} SplitFirst(a: bytes, s: bytes)
    requires Dotless(a)
    ensures Split(a + [DOT] + s) == [a] + Split(s)
  {
    var all := a + [DOT] + s;
    if a == [] {
      assert all[1..] == s;
    } else {
      SplitFirst(a[1..], s);
      assert all[1..] == a[1..] + [DOT] + s;
      assert [a[0]] + a[1..] == a;
    }
  }

  lemma {:induction false} SplitRendered(n: LongName)
    requires n != [] && forall c :: c in n ==> Dotless(c)
    ensures Split(Render(n)) == n
  {
    if |n| == 1 {
      SplitDotless(n[0]);
    } else {
      SplitRendered(n[1..]);
      SplitFirst(n[0], Render(n[1..]));
      assert [n[0]] + n[1..] == n;
    }
  }

  /** A long name survives being written out exactly when no component has a dot in it and it does not
      start with an empty component. */
  lemma {:induction false} NamesSurvive(n: LongName)
    requires n != []
    ensures ParseName(Render(n)) == n <==> (forall c :: c in n ==> Dotless(c)) && (|n| == 1 || n[0] != [])
  {
    if forall c :: c in n ==> Dotless(c) {
      SplitRendered(n);
      var s := Render(n);
      if |n| > 1 && n[0] == [] {
        assert s == [DOT] + Render(n[1..]);
        assert s[1..] == Render(n[1..]);
        SplitRendered(n[1..]);
        assert |ParseName(s)| == |n| - 1;
      }
    }
  }

  lemma {:induction false} RenderSplit(s: bytes)
    ensures Render(Split(s)) == s
  {
    if s != [] {
      RenderSplit(s[1..]);
      var rest, all := Split(s[1..]), Split(s);
      assert [s[0]] + s[1..] == s;
      if s[0] == DOT {
        assert all[1..] == rest;
        assert [] + [DOT] + Render(rest) == s;
      } else if |rest| > 1 {
        assert all[0] == [s[0]] + rest[0] && all[1..] == rest[1..];
        assert ([s[0]] + rest[0]) + [DOT] + Render(rest[1..]) == [s[0]] + (rest[0] + [DOT] + Render(rest[1..]));
      }
    }
  }

  /** A name of one component is that component, or a dot before it. */
  lemma {:induction false} OneComponent(s: bytes, x: bytes)
    requires ParseName(s) == [x]
    ensures s == x || s == [DOT] + x
  {
    if s != [] && s[0] == DOT {
      RenderSplit(s[1..]);
      assert s == [DOT] + s[1..];
    } else {
      RenderSplit(s);
    }
  }

  lemma {:induction false} LongNamesHaveDots(n: LongName)
    requires |n| > 1
    ensures DOT in Render(n)
  {
  }

  // ---- Helpers and namespaces ------------------------------------------------------------------

  datatype Listed = Listed(name: bytes, alias: Option<bytes>)

  datatype ImportSpec = Qualified(target: Option<LongName>) | Exposing(exposed: seq<Listed>) | Hiding(hidden: seq<Listed>)

  datatype Helper =
    | Function(defun: Defun)
    | Constant(name: bytes, value: BodyForm)
    | Macro(name: bytes)
    | Namespace(longName: LongName, helpers: seq<Helper>)
    | NsRef(from: LongName, spec: ImportSpec)

  /** A helper and the namespace it was met in. */
  datatype Placed = Placed(namespace: Option<LongName>, helper: Helper)

  predicate IsNamed(h: Helper) { !h.Namespace? && !h.NsRef? }

  function HelperName(h: Helper): bytes {
    match h
    case Function(f) => f.name
    case Constant(name, _) => name
    case Macro(name) => name
    case Namespace(long, _) => Render(long)
    case NsRef(from, _) => Render(from)
  }

  /** Everything in a list of helpers, with the insides of namespaces where the namespaces are. */
  function Tour(ns: Option<LongName>, helpers: seq<Helper>): (r: seq<Placed>)
    decreases helpers
  {
    if helpers == [] then []
    else
      (match helpers[0]
       case Namespace(long, inside) => Tour(Some(long), inside)
       case h => [Placed(ns, h)])
      + Tour(ns, helpers[1..])
  }

  datatype Looking = Looking(list: seq<Helper>, namespace: Option<LongName>, offset: nat)

  function Left(stack: seq<Looking>): (r: seq<Placed>) {
    if stack == [] then []
    else
      var top := stack[|stack| - 1];
      (if top.offset <= |top.list| then Tour(top.namespace, top.list[top.offset..]) else []) + Left(stack[..|stack| - 1])
  }

  function Count(helpers: seq<Helper>): nat {
    if helpers == [] then 0
    else 1 + (match helpers[0] case Namespace(_, inside) => 1 + Count(inside) case _ => 0) + Count(helpers[1..])
  }

  /** What a tour has still to do. */
  function Work(stack: seq<Looking>): nat {
    if stack == [] then 0
    else
      var top := stack[|stack| - 1];
      1 + (if top.offset <= |top.list| then Count(top.list[top.offset..]) else 0) + Work(stack[..|stack| - 1])
  }

  lemma {:induction false} OnTop(below: seq<Looking>, top: Looking)
    requires top.offset <= |top.list|
    ensures Left(below + [top]) == Tour(top.namespace, top.list[top.offset..]) + Left(below)
    ensures Work(below + [top]) == 1 + Count(top.list[top.offset..]) + Work(below)
  {
    assert (below + [top])[..|below|] == below;
  }

  /** One step of the tour takes the next helper, or goes into the next namespace. */
  lemma {:induction false} Step(below: seq<Looking>, top: Looking)
    requires top.offset < |top.list|
    ensures var current, moved := top.list[top.offset], below + [top.(offset := top.offset + 1)];
            if current.Namespace? then
              var deeper := moved + [Looking(current.helpers, Some(current.longName), 0)];
              Left(below + [top]) == Left(deeper) && Work(deeper) < Work(below + [top])
            else Left(below + [top]) == [Placed(top.namespace, current)] + Left(moved)
  {
    var current, rest, next := top.list[top.offset], top.list[top.offset + 1..], top.(offset := top.offset + 1);
    var left := top.list[top.offset..];
    assert left[0] == current && left[1..] == rest;
    OnTop(below, top);
    OnTop(below, next);
    if current.Namespace? {
      var inside := Looking(current.helpers, Some(current.longName), 0);
      OnTop(below + [next], inside);
      assert current.helpers[0..] == current.helpers;
      Regroup(Tour(inside.namespace, current.helpers), Tour(top.namespace, rest), Left(below));
    } else {
      Regroup([Placed(top.namespace, current)], Tour(top.namespace, rest), Left(below));
    }
  }

  lemma {:induction false} Regroup(a: seq<Placed>, b: seq<Placed>, c: seq<Placed>)
    ensures (a + b) + c == a + (b + c)
  {
  }

  /** The iterator `TourNamespaces`. */
  class TourNamespaces {
    var stack: seq<Looking>

    /** `tour_helpers`. */
    constructor (helpers: seq<Helper>)
      ensures Left(stack) == Tour(None, helpers)
    {
      stack := [Looking(helpers, None, 0)];
      new;
      assert stack[..0] == [] && helpers[0..] == helpers;
      assert Left(stack) == Tour(None, helpers) + Left(stack[..0]);
    }

    /** The next helper of the tour, if any is left. */
    method Next() returns (r: Option<Placed>)
      modifies this
      ensures match r
              case None => Left(old(stack)) == []
              case Some(p) => Left(old(stack)) == [p] + Left(stack)
    {
      while true
        invariant Left(stack) == Left(old(stack))
        decreases Work(stack)
      {
        if stack == [] {
          return None;
        }
        var below, top := stack[..|stack| - 1], stack[|stack| - 1];
        if top.offset >= |top.list| {
          stack := below;
          continue;
        }
        assert stack == below + [top];
        Step(below, top);
        var current := top.list[top.offset];
        stack := below + [top.(offset := top.offset + 1)];
        if current.Namespace? {
          stack := stack + [Looking(current.helpers, Some(current.longName), 0)];
          continue;
        }
        return Some(Placed(top.namespace, current));
      }
    }
  }

  method CollectTour(helpers: seq<Helper>) returns (r: seq<Placed>)
    ensures r == Tour(None, helpers)
  {
    var tour := new TourNamespaces(helpers);
    r := [];
    while true
      invariant r + Left(tour.stack) == Tour(None, helpers)
      decreases |Left(tour.stack)|
    {
      label before: ghost var left := Left(tour.stack);
      var next := tour.Next();
      if next == None {
        assert r + [] == r;
        return;
      }
      assert r + left == (r + [next.value]) + Left(tour.stack);
      r := r + [next.value];
    }
  }
}
