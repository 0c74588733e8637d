/** The compiler's s-expressions (source locations erased), their equality, and their
    correspondence with plain CLVM trees. */
module SExpressions {
  import opened Numbers

  datatype SExp =
    | Nil
    | Cons(first: SExp, rest: SExp)
    | Integer(value: int)
    | QuotedString(quote: byte, text: bytes)
    | Atom(name: bytes)

  /** What the CLVM runner stores: byte-string leaves and pairs. */
  datatype Tree = Leaf(data: bytes) | Pair(left: Tree, right: Tree)

  datatype Option<+T> = None | Some(value: T)

  /** `nilp`. */
  predicate Nilp(s: SExp) {
    match s
    case Nil => true
    case Cons(_, _) => false
    case Integer(i) => i == 0
    case QuotedString(_, t) => t == []
    case Atom(t) => t == []
  }

  /** `atom_value`, with None for the error on a cons. */
  function AtomValue(s: SExp): (r: Option<int>) {
    match s
    case Nil => Some(0)
    case Cons(_, _) => None
    case Integer(i) => Some(i)
    case QuotedString(_, t) => Some(NumberFromU8(t))
    case Atom(t) => Some(NumberFromU8(t))
  }

  /** `truthy` under the new integer conversion: only the length of a byte string counts. */
  predicate Truthy(s: SExp) {
    match s
    case Atom(t) => t != []
    case QuotedString(_, t) => t != []
    case Cons(_, _) => true
    case Integer(i) => i != 0
    case Nil => false
  }

  /** `proper_list`: the elements of a list ending in any spelling of nil. */
  function ProperList(s: SExp): (r: Option<seq<SExp>>) {
    if Nilp(s) then Some([])
    else match s
      case Cons(a, b) =>
        (match ProperList(b)
         case None => None
         case Some(l) => Some([a] + l))
      case _ => None
  }

  /** The loop of `proper_list` itself. */
  method ProperListLoop(s: SExp) returns (r: Option<seq<SExp>>)
    ensures r == ProperList(s)
  {
    var res: seq<SExp> := [];
    var track := s;
    assert forall l: seq<SExp> :: [] + l == l;
    while true
      invariant ProperList(s) ==
                match ProperList(track) case None => None case Some(l) => Some(res + l)
      decreases track
    {
      if Nilp(track) {
        assert res + [] == res;
        return Some(res);
      }
      match track {
        case Cons(a, b) =>
          assert forall l :: res + ([a] + l) == (res + [a]) + l;
          res := res + [a];
          track := b;
        case _ =>
          return None;
      }
    }
  }

  /** A list built from its elements, ending in nil. */
  function ListOf(l: seq<SExp>): (s: SExp) {
    if l == [] then Nil else Cons(l[0], ListOf(l[1..]))
  }

  lemma {:induction false} ProperListOfList(l: seq<SExp>)
    ensures ProperList(ListOf(l)) == Some(l)
  {
    if l != [] {
      ProperListOfList(l[1..]);
      assert [l[0]] + l[1..] == l;
    }
  }

  /** `equal_to`: different spellings of one CLVM value are equal.  Leaves other than atoms are
      turned into atoms, first on the left, then (after swapping sides) on the right. */
  predicate EqualTo(a: SExp, b: SExp)
    decreases Size(a) + Size(b), LeafRank(a) + 2 * LeafRank(b)
  {
    if Nilp(a) && Nilp(b) then true
    else if Nilp(a) || Nilp(b) then false
    else if a.Cons? then b.Cons? && EqualTo(a.first, b.first) && EqualTo(a.rest, b.rest)
    else if b.Cons? then false
    else if a.Integer? then EqualTo(Atom(U8FromNumber(a.value)), b)
    else if a.QuotedString? then EqualTo(Atom(a.text), b)
    else if b.Atom? then a == b
    else EqualTo(b, a)
  }

  function Size(s: SExp): nat {
    if s.Cons? then 1 + Size(s.first) + Size(s.rest) else 0
  }

  function LeafRank(s: SExp): nat { if s.Integer? || s.QuotedString? then 1 else 0 }

  /** `convert_to_clvm_rs` under the new integer conversion. */
  function ConvertTo(s: SExp): (t: Tree) {
    match s
    case Nil => Leaf([])
    case Cons(a, b) => Pair(ConvertTo(a), ConvertTo(b))
    case Integer(i) => if i == 0 then Leaf([]) else Leaf(U8FromNumber(i))
    case QuotedString(_, t) => Leaf(t)
    case Atom(t) => Leaf(t)
  }

  /** `printable`. */
  predicate Printable(a: bytes, quoted: bool) {
    forall i :: 0 <= i < |a| ==> PrintableByte(a[i], quoted)
  }

  /** A space is the only ASCII white space left once control bytes are excluded. */
  predicate PrintableByte(ch: byte, quoted: bool) {
    32 <= ch <= 126 && (quoted || (ch != 32 && ch != 39)) && ch != 34 && ch != 92
  }

  const HEX_QUOTE: byte := 120

  /** `convert_from_clvm_rs` under the new integer conversion. */
  function ConvertFrom(t: Tree): (s: SExp) {
    match t
    case Pair(a, b) => Cons(ConvertFrom(a), ConvertFrom(b))
    case Leaf(d) =>
      if d == [] then Nil
      else if U8FromNumber(NumberFromU8(d)) == d then
        if d == [0] then QuotedString(HEX_QUOTE, d) else Integer(NumberFromU8(d))
      else if !Printable(d, true) then QuotedString(HEX_QUOTE, d)
      else Atom(d)
  }

  /** The elements of a list are smaller than the list. */
  lemma {:induction false} ListSmaller(s: SExp)
    requires ProperList(s).Some?
    ensures forall i :: 0 <= i < |ProperList(s).value| ==> Size(ProperList(s).value[i]) < Size(s)
    decreases s
  {
    if s.Cons? {
      ListSmaller(s.rest);
    }
  }

  /** Equality of s-expressions is exactly equality of the CLVM values they denote. */
  lemma {:induction false} EqualToIsClvmEquality(a: SExp, b: SExp)
    ensures EqualTo(a, b) <==> ConvertTo(a) == ConvertTo(b)
    decreases Size(a) + Size(b), LeafRank(a) + 2 * LeafRank(b)
  {
    NilpIsEmptyLeaf(a);
    NilpIsEmptyLeaf(b);
    if Nilp(a) || Nilp(b) {
    } else if a.Cons? && b.Cons? {
      EqualToIsClvmEquality(a.first, b.first);
      EqualToIsClvmEquality(a.rest, b.rest);
    } else if a.Cons? || b.Cons? {
    } else if a.Integer? {
      EqualToIsClvmEquality(Atom(U8FromNumber(a.value)), b);
    } else if a.QuotedString? {
      EqualToIsClvmEquality(Atom(a.text), b);
    } else if !b.Atom? {
      EqualToIsClvmEquality(b, a);
    }
  }

  lemma {:induction false} NilpIsEmptyLeaf(a: SExp)
    ensures Nilp(a) <==> ConvertTo(a) == Leaf([])
    ensures Truthy(a) <==> !Nilp(a)
  {
  }

  /** Every CLVM value survives the trip into the compiler's representation and back. */
  lemma {:induction false} ConvertFromThenTo(t: Tree)
    ensures ConvertTo(ConvertFrom(t)) == t
  {
    match t
    case Pair(a, b) =>
      ConvertFromThenTo(a);
      ConvertFromThenTo(b);
    case Leaf(d) =>
      NumberRoundTrip(0);
  }

  /** Every s-expression survives the trip through CLVM up to `equal_to`. */
  lemma {:induction false} ConvertToThenFrom(s: SExp)
    ensures EqualTo(ConvertFrom(ConvertTo(s)), s)
  {
    ConvertFromThenTo(ConvertTo(s));
    EqualToIsClvmEquality(ConvertFrom(ConvertTo(s)), s);
  }
}
