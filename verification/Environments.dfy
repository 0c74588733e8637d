/** The compiled program's environment: a balanced tree of function code beside the arguments, the
    paths names are found at, and the tree with the code filled in. */
module Environments {
  import opened Numbers
  import opened SExpressions
  import opened Machine
  import opened Syntax
  import opened Paths

  /** `build_tree` over the names of helpers s to e. */
  function BuildTree(names: seq<bytes>, s: nat, e: nat): (r: SExp)
    requires s < e <= |names|
    decreases e - s
  {
    if e - s == 1 then Atom(names[s])
    else
      var mid := (e + s) / 2;
      Cons(BuildTree(names, s, mid), BuildTree(names, mid, e))
  }

  /** `compute_code_shape`. */
  function ComputeCodeShape(names: seq<bytes>): (r: SExp) {
    if names == [] then Nil else BuildTree(names, 0, |names|)
  }

  /** `compute_env_shape` outside the module phases. */
  function ComputeEnvShape(names: seq<bytes>, args: SExp): (r: SExp) {
    Cons(ComputeCodeShape(names), args)
  }

  /** `create_name_lookup_`: the leftmost place of a name. */
  function NameLookup(find: SExp, name: bytes): (r: Option<nat>)
    decreases Size(find)
  {
    match find
    case Atom(a) => if a == name then Some(1) else None
    case Integer(i) => if U8FromNumber(i) == name then Some(1) else None
    case Cons(head, rest) =>
      (match IsAtCapture(head, rest)
       case Some(p) => if p.0 == name then Some(1) else NameLookup(p.1, name)
       case None =>
         match NameLookup(head, name)
         case Some(v) => Some(2 * v)
         case None =>
           match NameLookup(rest, name)
           case Some(v) => Some(2 * v + 1)
           case None => None)
    case _ => None
  }

  /** `finalize_env_` for a tree of function names. */
  function FinalizeEnv(shape: SExp, codes: map<bytes, SExp>): (r: Option<SExp>) {
    match shape
    case Atom(v) => if v in codes then Some(codes[v]) else None
    case Cons(h, t) =>
      (match (FinalizeEnv(h, codes), FinalizeEnv(t, codes))
       case (Some(a), Some(b)) => Some(Cons(a, b))
       case _ => None)
    case _ => Some(shape)
  }

  // ---- Lookup agrees with destructuring -------------------------------------------------------

  /** A name has a path in a pattern exactly when the pattern binds it, and walking that path
      through a value gives what destructuring the value gives. */
  lemma {:induction false} LookupIsDestructuring(pattern: SExp, value: SExp, name: bytes)
    ensures NameLookup(pattern, name).Some? <==> Binds(pattern, name)
    ensures Binds(pattern, name) ==>
              NameLookup(pattern, name).value > 0
              && ChoosePath(NameLookup(pattern, name).value, value) ==
                 match Destructure(pattern, value, name) case Some(v) => Success(v) case None => Failure
    decreases Size(pattern)
  {
    if pattern.Cons? {
      var Cons(h, t) := pattern;
      var at := IsAtCapture(h, t);
      if at.Some? {
        LookupIsDestructuring(at.value.1, value, name);
      } else {
        LookupIsDestructuring(h, if value.Cons? then value.first else Nil, name);
        LookupIsDestructuring(t, if value.Cons? then value.rest else Nil, name);
      }
    }
  }

  // ---- The code tree ---------------------------------------------------------------------------

  /** A tree whose leaves are non-empty names. */
  predicate NameTree(s: SExp) {
    match s
    case Atom(a) => a != []
    case Cons(a, b) => NameTree(a) && NameTree(b)
    case _ => false
  }

  lemma {:induction false} NameTreeIsNoList(s: SExp)
    requires NameTree(s)
    ensures ProperList(s) == None
  {
    if s.Cons? {
      NameTreeIsNoList(s.rest);
    }
  }

  lemma {:induction false} BuildTreeNames(names: seq<bytes>, s: nat, e: nat)
    requires s < e <= |names| && forall i :: 0 <= i < |names| ==> names[i] != []
    ensures NameTree(BuildTree(names, s, e))
    ensures forall name :: Binds(BuildTree(names, s, e), name) <==> name in names[s..e]
    decreases e - s
  {
    if e - s > 1 {
      var mid := (e + s) / 2;
      BuildTreeNames(names, s, mid);
      BuildTreeNames(names, mid, e);
      NameTreeIsNoList(BuildTree(names, mid, e));
      assert names[s..e] == names[s..mid] + names[mid..e];
    }
  }

  /** In the finished tree a helper's path leads to its code. */
  lemma {:induction false} LookupFindsCode(shape: SExp, codes: map<bytes, SExp>, name: bytes)
    requires NameTree(shape) && FinalizeEnv(shape, codes).Some? && Binds(shape, name)
    ensures NameLookup(shape, name).Some? && NameLookup(shape, name).value > 0 && name in codes
    ensures ChoosePath(NameLookup(shape, name).value, FinalizeEnv(shape, codes).value) == Success(codes[name])
  {
    LookupIsDestructuring(shape, Nil, name);
    if shape.Cons? {
      NameTreeIsNoList(shape.rest);
      if Binds(shape.first, name) {
        LookupFindsCode(shape.first, codes, name);
      } else {
        LookupIsDestructuring(shape.first, Nil, name);
        LookupFindsCode(shape.rest, codes, name);
      }
    }
  }

  lemma {:induction false} FinalizeSucceeds(shape: SExp, codes: map<bytes, SExp>)
    requires NameTree(shape) && forall name :: Binds(shape, name) ==> name in codes
    ensures FinalizeEnv(shape, codes).Some?
  {
    if shape.Cons? {
      NameTreeIsNoList(shape.rest);
      forall name | Binds(shape.first, name) ensures name in codes { assert Binds(shape, name); }
      forall name | Binds(shape.rest, name) ensures name in codes { assert Binds(shape, name); }
      FinalizeSucceeds(shape.first, codes);
      FinalizeSucceeds(shape.rest, codes);
    } else {
      assert Binds(shape, shape.name);
    }
  }

  /** For every helper, the path found in the environment's shape selects its finished code from
      the environment, whatever the arguments are. */
  lemma {:induction false} HelperPathSelectsCode(names: seq<bytes>, args: SExp, codes: map<bytes, SExp>, name: bytes, values: SExp)
    requires name in names && forall i :: 0 <= i < |names| ==> names[i] != [] && names[i] != AT && names[i] in codes
    ensures var shape := ComputeCodeShape(names);
            FinalizeEnv(shape, codes).Some?
            && NameLookup(ComputeEnvShape(names, args), name).Some?
            && ChoosePath(NameLookup(ComputeEnvShape(names, args), name).value,
                          Cons(FinalizeEnv(shape, codes).value, values)) == Success(codes[name])
  {
    var shape := ComputeCodeShape(names);
    BuildTreeNames(names, 0, |names|);
    assert names[0..|names|] == names;
    FinalizeSucceeds(shape, codes);
    LookupFindsCode(shape, codes, name);
  }

  // ---- How large paths get ---------------------------------------------------------------------

  lemma {:induction false} TreePathBound(names: seq<bytes>, s: nat, e: nat, k: nat, name: bytes)
    requires s < e <= |names| && e - s <= Pow2(k) && forall i :: 0 <= i < |names| ==> names[i] != []
    requires NameLookup(BuildTree(names, s, e), name).Some?
    ensures NameLookup(BuildTree(names, s, e), name).value < Pow2(k + 1)
    decreases e - s
  {
    if e - s > 1 {
      var mid := (e + s) / 2;
      BuildTreeNames(names, mid, e);
      NameTreeIsNoList(BuildTree(names, mid, e));
      assert k > 0 by { assert Pow2(0) == 1; }
      if NameLookup(BuildTree(names, s, mid), name).Some? {
        TreePathBound(names, s, mid, k - 1, name);
      } else {
        TreePathBound(names, mid, e, k - 1, name);
      }
    } else {
      Pow2Grows(1, k + 1);
      assert Pow2(1) == 2;
    }
  }

  lemma {:induction false} LowOfSmall(p: nat, width: nat)
    requires p < Pow2(width)
    ensures Low(p, width) == p
    decreases width
  {
    if width > 0 {
      LowOfSmall(p / 2, width - 1);
    }
  }

  /** With at most 2^k helpers, helper paths stay below 2^(k+2); so masking a path to `width`
      bits changes nothing while k+2 bits fit: to 64 bits for up to 2^62 helpers. */
  lemma {:induction false} HelperPathBound(names: seq<bytes>, args: SExp, k: nat, name: bytes, width: nat)
    requires name in names && |names| <= Pow2(k)
    requires forall i :: 0 <= i < |names| ==> names[i] != [] && names[i] != AT
    ensures NameLookup(ComputeEnvShape(names, args), name).Some?
    ensures var path := NameLookup(ComputeEnvShape(names, args), name).value;
            path < Pow2(k + 2) && (k + 2 <= width ==> BitAnd(path, Pow2(width) - 1) == path)
  {
    BuildTreeNames(names, 0, |names|);
    assert names[0..|names|] == names;
    LookupIsDestructuring(ComputeCodeShape(names), Nil, name);
    TreePathBound(names, 0, |names|, k, name);
    var path := NameLookup(ComputeEnvShape(names, args), name).value;
    assert path == 2 * NameLookup(ComputeCodeShape(names), name).value;
    if k + 2 <= width {
      Pow2Grows(k + 2, width);
      LowBits(path, width);
      LowOfSmall(path, width);
    }
  }
}
