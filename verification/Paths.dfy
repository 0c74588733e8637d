/** Environment paths as numbers: composition, parents, search for a subtree by its hash, and
    the argument references the machine hands to external operators. */
module Paths {
  import opened SExpressions
  import opened Machine

  function Pow2(k: nat): (r: nat)
    ensures r > 0
  {
    if k == 0 then 1 else 2 * Pow2(k - 1)
  }

  /** The number of turns a path takes. */
  function PathDepth(p: nat): nat {
    if p <= 1 then 0 else 1 + PathDepth(p / 2)
  }

  /** Bitwise and, or: on naturals. */
  function BitAnd(a: nat, b: nat): (r: nat) {
    if a == 0 || b == 0 then 0
    else 2 * BitAnd(a / 2, b / 2) + (if a % 2 == 1 && b % 2 == 1 then 1 else 0)
  }

  function BitOr(a: nat, b: nat): (r: nat)
    decreases a + b
  {
    if a == 0 then b
    else if b == 0 then a
    else 2 * BitOr(a / 2, b / 2) + (if a % 2 == 1 || b % 2 == 1 then 1 else 0)
  }

  /** Shifts by `k`, and the `k` lowest bits. */
  function Shl(q: nat, k: nat): nat { if k == 0 then q else 2 * Shl(q, k - 1) }

  function Shr(p: nat, k: nat): nat
    decreases k
  {
    if k == 0 then p else Shr(p / 2, k - 1)
  }

  function Low(p: nat, k: nat): (r: nat)
    ensures r < Pow2(k)
    decreases k
  {
    if k == 0 then 0 else 2 * Low(p / 2, k - 1) + p % 2
  }

  // ---- Composition ---------------------------------------------------------------------------

  /** `p`'s turns, then `q`'s. */
  function Compose(p: nat, q: nat): (r: nat) {
    if p <= 1 then q else 2 * Compose(p / 2, q) + p % 2
  }

  /** `compose_paths`: shift `path1` up past `path0`'s turns and put those below it. */
  method ComposePaths(path0: nat, path1: nat) returns (r: nat)
    ensures r == Compose(path0, path1)
  {
    var q := path1;
    var mask := 1;
    var temp := path0;
    ghost var k := 0;
    while temp > 1
      invariant mask == Pow2(k) && q == Shl(path1, k) && temp == Shr(path0, k)
      invariant PathDepth(path0) == k + PathDepth(temp)
      decreases temp
    {
      ShrStep(path0, k);
      q := q * 2;
      mask := mask * 2;
      temp := temp / 2;
      k := k + 1;
    }
    LowBits(path0, k);
    LowBitsBelow(path1, Low(path0, k), k);
    ComposeIsShift(path0, path1);
    r := BitOr(q, BitAnd(path0, mask - 1));
  }

  lemma {:induction false} ShrStep(p: nat, k: nat)
    ensures Shr(p, k + 1) == Shr(p, k) / 2
    decreases k
  {
    if k > 0 {
      ShrStep(p / 2, k - 1);
    }
  }

  /** Masking with 2^k - 1 keeps the low k bits. */
  lemma {:induction false} LowBits(p: nat, k: nat)
    ensures BitAnd(p, Pow2(k) - 1) == Low(p, k)
    decreases k
  {
    if k > 0 {
      LowBits(p / 2, k - 1);
      if p == 0 {
        assert BitAnd(0, Pow2(k - 1) - 1) == 0;
      }
    }
  }

  /** Or-ing low bits under a shifted number adds them. */
  lemma {:induction false} LowBitsBelow(q: nat, r: nat, k: nat)
    requires r < Pow2(k)
    ensures BitOr(Shl(q, k), r) == Shl(q, k) + r
    decreases k
  {
    if k > 0 {
      LowBitsBelow(q, r / 2, k - 1);
    }
  }

  /** Composition as shift and add. */
  lemma {:induction false} ComposeIsShift(p: nat, q: nat)
    ensures Compose(p, q) == Shl(q, PathDepth(p)) + Low(p, PathDepth(p))
  {
    if p > 1 {
      ComposeIsShift(p / 2, q);
    }
  }

  /** Walking a composed path is walking its two parts in turn. */
  lemma {:induction false} ComposeWalks(p: nat, q: nat, tree: SExp)
    requires p > 0 && q > 0
    ensures Compose(p, q) > 0
    ensures ChoosePath(Compose(p, q), tree) ==
            match ChoosePath(p, tree) case Success(t) => ChoosePath(q, t) case _ => Failure
    decreases p
  {
    if p > 1 {
      ComposePositive(p / 2, q);
      var c := Compose(p, q);
      assert c / 2 == Compose(p / 2, q) && c % 2 == p % 2 && c > 1;
      if tree.Cons? {
        ComposeWalks(p / 2, q, if p % 2 == 0 then tree.first else tree.rest);
      }
    }
  }

  lemma {:induction false} ComposePositive(p: nat, q: nat)
    requires q > 0
    ensures Compose(p, q) > 0
  {
    if p > 1 {
      ComposePositive(p / 2, q);
    }
  }

  lemma {:induction false} ComposeAssociative(p: nat, q: nat, r: nat)
    requires q > 0
    ensures Compose(Compose(p, q), r) == Compose(p, Compose(q, r))
    decreases p
  {
    if p > 1 {
      ComposePositive(p / 2, q);
      var c := Compose(p, q);
      assert c / 2 == Compose(p / 2, q) && c % 2 == p % 2 && c > 1;
      ComposeAssociative(p / 2, q, r);
    }
  }

  // ---- Parents -------------------------------------------------------------------------------

  /** The path one turn shorter; the root is its own parent. */
  function ParentOnce(p: nat): (r: nat) {
    if p <= 3 then 1 else 2 * ParentOnce(p / 2) + p % 2
  }

  function Parent(p: nat, steps: int): (r: nat)
    decreases if steps < 0 then 0 else steps
  {
    if steps <= 0 then (if p == 0 then 1 else p) else Parent(ParentOnce(p), steps - 1)
  }

  /** `bit`'s place: path's leading bit is 2^d. */
  lemma {:induction false} LeadingBit(p: nat)
    requires p > 0
    ensures Pow2(PathDepth(p)) <= p < 2 * Pow2(PathDepth(p))
    ensures p == Pow2(PathDepth(p)) + Low(p, PathDepth(p))
  {
    if p > 1 {
      LeadingBit(p / 2);
    }
  }

  lemma {:induction false} LeadingBitSet(p: nat)
    requires p > 0
    ensures BitAnd(p, Pow2(PathDepth(p))) == Pow2(PathDepth(p))
  {
    if p > 1 {
      LeadingBitSet(p / 2);
    } else {
      assert BitAnd(1, 1) == 2 * BitAnd(0, 0) + 1;
    }
  }

  /** What clearing the leading bit and setting the one below it does. */
  lemma {:induction false} MoveLeadingBit(p: nat)
    requires p > 1
    ensures p >= Pow2(PathDepth(p)) && PathDepth(p) > 0
    ensures BitOr(p - Pow2(PathDepth(p)), Pow2(PathDepth(p) - 1)) == ParentOnce(p)
    decreases p
  {
    LeadingBit(p);
    var h := Pow2(PathDepth(p) - 1);
    var c := p - 2 * h;
    if p <= 3 {
      assert PathDepth(p) == 1 + PathDepth(1);
      assert BitOr(c, 1) == 1 by {
        if c == 1 { assert BitOr(1, 1) == 2 * BitOr(0, 0) + 1; }
      }
    } else {
      MoveLeadingBit(p / 2);
      assert c / 2 == p / 2 - h && c % 2 == p % 2;
      assert h == 2 * Pow2(PathDepth(p / 2) - 1);
      OrOfEven(c, Pow2(PathDepth(p / 2) - 1));
    }
  }

  lemma {:induction false} OrOfEven(c: nat, h: nat)
    requires h > 0
    ensures BitOr(c, 2 * h) == 2 * BitOr(c / 2, h) + c % 2
  {
  }

  lemma {:induction false} ParentIsShorter(p: nat)
    requires p > 1
    ensures ParentOnce(p) > 0 && PathDepth(ParentOnce(p)) == PathDepth(p) - 1
  {
    if p > 3 {
      ParentIsShorter(p / 2);
      var u := ParentOnce(p / 2);
      assert ParentOnce(p) / 2 == u && ParentOnce(p) > 1;
      assert PathDepth(ParentOnce(p)) == 1 + PathDepth(u);
    } else {
      assert PathDepth(p) == 1 + PathDepth(1);
    }
  }

  /** One turn of the second loop of `compute_parent_of_path`, for the halved bit. */
  function DropTurn(path: nat, bit: nat): nat {
    BitOr(if BitAnd(path, bit) != 0 && bit <= path then path - bit else path, bit / 2)
  }

  lemma {:induction false} DropTurnIsParent(path: nat)
    ensures path > 1 ==> DropTurn(path, Pow2(PathDepth(path))) == ParentOnce(path)
    ensures path <= 1 ==> DropTurn(path, path) == 0
  {
    if path > 1 {
      LeadingBitSet(path);
      MoveLeadingBit(path);
      assert Pow2(PathDepth(path)) / 2 == Pow2(PathDepth(path) - 1);
    } else if path == 1 {
      assert BitAnd(1, 1) == 2 * BitAnd(0, 0) + 1;
    }
  }

  /** `compute_parent_of_path`. */
  method ComputeParentOfPath(path0: nat, steps0: int) returns (r: nat)
    ensures r == Parent(path0, steps0)
  {
    var path, steps := path0, steps0;
    var bit := 1;
    ghost var d := 0;
    while bit <= path
      invariant bit == Pow2(d)
      invariant d > 0 ==> Pow2(d - 1) <= path
      decreases if bit <= path then path - bit + 1 else 0
    {
      bit := bit * 2;
      d := d + 1;
    }
    if path > 0 {
      LeadingBit(path);
      Pow2Between(PathDepth(path), d);
    }
    while steps > 0
      invariant path > 0 ==> bit == Pow2(PathDepth(path) + 1)
      invariant path == 0 ==> bit <= 1
      invariant Parent(path, steps) == Parent(path0, steps0)
      decreases steps
    {
      steps := steps - 1;
      bit := bit / 2;
      ghost var p := path;
      assert bit == if p == 0 then 0 else Pow2(PathDepth(p));
      DropTurnIsParent(p);
      if p > 1 {
        ParentIsShorter(p);
        LeadingBit(p);
      } else {
        assert Pow2(PathDepth(1)) == 1;
        ParentOfRoot(steps);
      }
      if BitAnd(path, bit) != 0 {
        path := path - bit;
      }
      path := BitOr(path, bit / 2);
      assert path == DropTurn(p, bit);
      assert p > 1 ==> Parent(p, steps + 1) == Parent(path, steps);
    }
    r := if path == 0 then 1 else path;
  }

  lemma {:induction false} Pow2Between(a: nat, d: nat)
    requires d > 0 && Pow2(d - 1) < 2 * Pow2(a) && Pow2(a) < Pow2(d)
    ensures d == a + 1
  {
    if a < d - 1 {
      Pow2Grows(a + 1, d - 1);
    } else if a > d - 1 {
      Pow2Grows(d, a);
    }
  }

  lemma {:induction false} Pow2Grows(a: nat, b: nat)
    requires a <= b
    ensures Pow2(a) <= Pow2(b)
    decreases b
  {
    if a < b {
      Pow2Grows(a, b - 1);
    }
  }

  lemma {:induction false} ParentOfRoot(steps: int)
    ensures Parent(0, steps) == 1 && Parent(1, steps) == 1
    decreases if steps < 0 then 0 else steps
  {
    if steps > 0 {
      ParentOfRoot(steps - 1);
    }
  }

  /** Going up as many turns as `q` takes undoes walking on by `q`. */
  lemma {:induction false} ParentUndoesCompose(p: nat, q: nat)
    requires p > 0 && q > 0
    ensures Parent(Compose(p, q), PathDepth(q)) == p
    decreases PathDepth(q)
  {
    if q > 1 {
      ParentOfCompose(p, q);
      ParentIsShorter(q);
      ParentUndoesCompose(p, ParentOnce(q));
    } else {
      ComposeWithRoot(p);
    }
  }

  lemma {:induction false} ComposeWithRoot(p: nat)
    requires p > 0
    ensures Compose(p, 1) == p
  {
    if p > 1 {
      ComposeWithRoot(p / 2);
    }
  }

  lemma {:induction false} ParentOfCompose(p: nat, q: nat)
    requires p > 0 && q > 1
    ensures ParentOnce(Compose(p, q)) == Compose(p, ParentOnce(q))
    decreases p
  {
    if p > 1 {
      ComposeAtLeast(p / 2, q);
      ParentOfCompose(p / 2, q);
    }
  }

  lemma {:induction false} ComposeAtLeast(p: nat, q: nat)
    ensures Compose(p, q) >= q
  {
    if p > 1 {
      ComposeAtLeast(p / 2, q);
    }
  }

  /** Every ancestor of a place is on the way to it: from the parent some further turns lead
      back. */
  lemma {:induction false} ParentIsOnTheWay(p: nat, steps: nat) returns (q: nat)
    requires p > 0 && steps <= PathDepth(p)
    ensures Parent(p, steps) > 0
    ensures q > 0 && PathDepth(q) == steps && Compose(Parent(p, steps), q) == p
    decreases p
  {
    if p == 1 || steps == PathDepth(p) {
      q := p;
      ParentToRoot(p);
    } else {
      q := ParentIsOnTheWay(p / 2, steps);
      ParentBelow(p, steps);
    }
  }

  lemma {:induction false} ParentToRoot(p: nat)
    requires p > 0
    ensures Parent(p, PathDepth(p)) == 1
    decreases PathDepth(p)
  {
    if p > 1 {
      ParentIsShorter(p);
      ParentToRoot(ParentOnce(p));
    }
  }

  lemma {:induction false} ParentBelow(p: nat, steps: nat)
    requires p > 1 && steps < PathDepth(p)
    ensures Parent(p, steps) == 2 * Parent(p / 2, steps) + p % 2 && Parent(p / 2, steps) > 0
    decreases steps
  {
    if steps > 0 {
      ParentIsShorter(p);
      assert ParentOnce(p) / 2 == ParentOnce(p / 2) && ParentOnce(p) % 2 == p % 2;
      ParentBelow(ParentOnce(p), steps - 1);
    }
  }
}
