/** Invented names: `gensym`. */
module Gensyms {
  import opened Numbers
  import opened Printing

  const MARK: bytes := [95, 36, 95]      // "_$_"

  /** The name `gensym` returns when the counter stood at `count`. */
  function Gensym(name: bytes, count: nat): (r: bytes) { name + MARK + Decimal(count + 1) }

  lemma {:induction false} DecimalHasNoMark(n: nat)
    ensures 95 !in Decimal(n)
  {
    if n >= 10 {
      DecimalHasNoMark(n / 10);
    }
  }

  lemma {:induction false} NoLaterMark(a: bytes, b: bytes, x: bytes, y: bytes)
    requires a + [95] + x == b + [95] + y && 95 !in x
    ensures |b| <= |a|
  {
    var s := a + [95] + x;
    assert s[|b|] == (b + [95] + y)[|b|] == 95;
    assert forall i :: |a| < i < |s| ==> s[i] == x[i - |a| - 1];
  }

  lemma {:induction false} SameEnd(a: bytes, b: bytes, x: bytes, y: bytes)
    requires a + [95] + x == b + [95] + y && 95 !in x && 95 !in y
    ensures x == y && a == b
  {
    NoLaterMark(a, b, x, y);
    NoLaterMark(b, a, y, x);
    var s := a + [95] + x;
    assert x == s[|a| + 1..] && a == s[..|a|];
    assert y == (b + [95] + y)[|b| + 1..] && b == (b + [95] + y)[..|b|];
  }

  /** Two invented names are equal only if they were invented by the same call for the same name. */
  lemma {:induction false} GensymInjective(a: bytes, i: nat, b: bytes, j: nat)
    requires Gensym(a, i) == Gensym(b, j)
    ensures i == j && a == b
  {
    DecimalHasNoMark(i + 1);
    DecimalHasNoMark(j + 1);
    var front, back := a + MARK[..2], b + MARK[..2];
    assert Gensym(a, i) == front + [95] + Decimal(i + 1);
    assert Gensym(b, j) == back + [95] + Decimal(j + 1);
    SameEnd(front, back, Decimal(i + 1), Decimal(j + 1));
    DecimalReads(i + 1);
    DecimalReads(j + 1);
    assert a == front[..|a|] && b == back[..|b|];
  }

  predicate MarkAt(name: bytes, k: nat) { k + 3 <= |name| && name[k..k + 3] == MARK }

  /** A name with the marker in it. */
  predicate Marked(name: bytes) { exists k: nat :: k <= |name| && MarkAt(name, k) }

  lemma {:induction false} MarkedHasBar(name: bytes)
    requires Marked(name)
    ensures 95 in name
  {
    var k: nat :| k <= |name| && MarkAt(name, k);
    assert name[k..k + 3][0] == 95;
    assert name[k] == 95;
  }

  lemma {:induction false} GensymIsMarked(name: bytes, count: nat)
    ensures Marked(Gensym(name, count))
  {
    assert MarkAt(Gensym(name, count), |name|);
  }
}
