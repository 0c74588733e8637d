/** Reading CLVM values from bytes: `sexp_from_stream` and `atom_from_stream`. */
module Deserialization {
  import opened Numbers
  import opened SExpressions
  import opened Streams
  import opened Serialization
  import opened Paths

  // ---- One atom --------------------------------------------------------------------------------

  /** The test of one bit of a byte. */
  predicate HasBit(b: nat, bitMask: nat)
    ensures HasBit(b, bitMask) ==> bitMask <= b
  {
    bitMask != 0 && b / bitMask % 2 == 1
  }

  /** The leading one bits of a size byte from a given place down, and what is below them. */
  function LeadingOnes(b: nat, bitMask: nat): (r: (nat, nat))
    ensures r.1 <= b
    decreases bitMask
  {
    if !HasBit(b, bitMask) then (0, b)
    else
      var r := LeadingOnes(b - bitMask, bitMask / 2);
      (r.0 + 1, r.1)
  }

  /** The outcome of reading something, and what is left to read afterwards. */
  datatype Reading<+T> = Reading(got: Option<T>, rest: bytes)

  const TOO_LARGE: nat := 0x4_0000_0000

  /** `atom_from_stream` after its first byte. */
  function ReadAtom(b: byte, input: bytes): (r: Reading<bytes>) {
    if b == 0x80 then Reading(Some([]), input)
    else if b <= MAX_SINGLE_BYTE then Reading(Some([b]), input)
    else
      var (bitCount, low) := LeadingOnes(b, TOP_BIT);
      if |input| < bitCount - 1 then Reading(None, [])
      else
        assert bitCount > 0;
        var size := SizeFromBytes([low] + input[..bitCount - 1]);
        var rest := input[bitCount - 1..];
        if size >= TOO_LARGE then Reading(None, rest)
        else if |rest| < size then Reading(None, [])
        else Reading(Some(rest[..size]), rest[size..])
  }

  lemma {:induction false} FewLeadingOnes(b: nat, bitMask: nat, k: nat)
    requires bitMask < Pow2(k)
    ensures LeadingOnes(b, bitMask).0 <= k
    decreases bitMask
  {
    if HasBit(b, bitMask) {
      FewLeadingOnes(b - bitMask, bitMask / 2, k - 1);
    }
  }

  lemma {:induction false} EightBits()
    ensures Pow2(8) == 256
  {
    assert Pow2(4) == 16;
  }

  const TOP_BIT: nat := 0x80

  /** The bit loop of `atom_from_stream`: at most eight bits are counted. */
  method SplitSizeByte(first: byte) returns (bitCount: nat, b: byte)
    ensures LeadingOnes(first, TOP_BIT) == (bitCount, b) && bitCount <= 8
  {
    var bitMask := TOP_BIT;
    bitCount, b := 0, first;
    while HasBit(b, bitMask)
      invariant LeadingOnes(first, TOP_BIT) == (bitCount + LeadingOnes(b, bitMask).0, LeadingOnes(b, bitMask).1)
      decreases bitMask
    {
      bitCount := bitCount + 1;
      b := b - bitMask;
      bitMask := bitMask / 2;
    }
    EightBits();
    FewLeadingOnes(first, TOP_BIT, 8);
  }

  /** `atom_from_stream`. */
  method AtomFromStream(f: Stream, first: byte) returns (r: Option<bytes>)
    requires f.Valid() && first != CONS_BOX_MARKER
    modifies f`seek
    ensures f.Valid()
    ensures Reading(r, f.Remaining()) == ReadAtom(first, old(f.Remaining()))
  {
    if first == 0x80 {
      return Some([]);
    } else if first <= MAX_SINGLE_BYTE {
      return Some([first]);
    }
    var bitCount, b := SplitSizeByte(first);
    var sizeBlob: bytes := [b];
    ghost var input := f.Remaining();
    assert input[0..] == input && input[..0] == [];
    if bitCount > 1 {
      var bin := f.Read(bitCount - 1);
      if |bin| != bitCount - 1 {
        return None;
      }
      sizeBlob := sizeBlob + bin;
    }
    assert sizeBlob == [b] + input[..bitCount - 1];
    var size := IntFromBytes(sizeBlob);
    if size.value >= TOO_LARGE {
      return None;
    }
    var blob := f.Read(size.value);
    if |blob| != size.value {
      return None;
    }
    return Some(blob);
  }

  // ---- The two stacks --------------------------------------------------------------------------

  datatype ReadOp = OpReadSexp | OpCons

  datatype Stacks = Stacks(ops: seq<ReadOp>, vals: seq<Tree>, input: bytes)

  /** One operation of the decoder.  An operation that fails leaves its value out and the source
      goes on with the next one. */
  function Invoke(s: Stacks): (r: Stacks)
    requires s.ops != []
    ensures |r.input| <= |s.input| && (|r.input| == |s.input| ==> |r.ops| < |s.ops|)
  {
    var ops, n := s.ops[..|s.ops| - 1], |s.vals|;
    match s.ops[|s.ops| - 1]
    case OpCons =>
      if n == 0 then s.(ops := ops)
      else if n == 1 then s.(ops := ops, vals := [])
      else s.(ops := ops, vals := s.vals[..n - 2] + [Pair(s.vals[n - 2], s.vals[n - 1])])
    case OpReadSexp =>
      if s.input == [] then s.(ops := ops)
      else if s.input[0] == CONS_BOX_MARKER then
        s.(ops := ops + [OpCons, OpReadSexp, OpReadSexp], input := s.input[1..])
      else
        var r := ReadAtom(s.input[0], s.input[1..]);
        Stacks(ops, s.vals + (if r.got.Some? then [Leaf(r.got.value)] else []), r.rest)
  }

  function Decode(s: Stacks): (r: Stacks)
    decreases |s.input|, |s.ops|
  {
    if s.ops == [] then s else Decode(Invoke(s))
  }

  /** The `invoke` of `OpReadSexp`; its error result is not looked at by the loop that calls it. */
  method InvokeRead(f: Stream, opStack: seq<ReadOp>, valStack: seq<Tree>) returns (ops: seq<ReadOp>, vals: seq<Tree>)
    requires f.Valid()
    modifies f`seek
    ensures f.Valid()
    ensures Stacks(ops, vals, f.Remaining()) == Invoke(Stacks(opStack + [OpReadSexp], valStack, old(f.Remaining())))
  {
    ops, vals := opStack, valStack;
    assert (opStack + [OpReadSexp])[..|opStack|] == opStack;
    var blob := f.Read(1);
    if |blob| == 0 {
      return;
    }
    var b := blob[0];
    if b == CONS_BOX_MARKER {
      ops := ops + [OpCons] + [OpReadSexp] + [OpReadSexp];
      return;
    }
    var v := AtomFromStream(f, b);
    if v.Some? {
      vals := vals + [Leaf(v.value)];
    }
  }

  /** `sexp_from_stream`: the loop over the operation stack. */
  method SexpFromStream(f: Stream) returns (r: Option<Tree>)
    requires f.Valid()
    modifies f`seek
    ensures f.Valid()
    ensures var end := Decode(Stacks([OpReadSexp], [], old(f.Remaining())));
            f.Remaining() == end.input
            && r == if end.vals == [] then None else Some(end.vals[|end.vals| - 1])
  {
    var opStack: seq<ReadOp> := [OpReadSexp];
    var valStack: seq<Tree> := [];
    while opStack != []
      invariant f.Valid()
      invariant Decode(Stacks(opStack, valStack, f.Remaining())) == Decode(Stacks([OpReadSexp], [], old(f.Remaining())))
      decreases |f.Remaining()|, |opStack|
    {
      var func := opStack[|opStack| - 1];
      ghost var before := opStack;
      opStack := opStack[..|opStack| - 1];
      assert before == opStack + [func];
      if func == OpReadSexp {
        opStack, valStack := InvokeRead(f, opStack, valStack);
      } else if |valStack| > 1 {
        var n := |valStack|;
        valStack := valStack[..n - 2] + [Pair(valStack[n - 2], valStack[n - 1])];
      } else {
        valStack := [];
      }
    }
    return if valStack == [] then None else Some(valStack[|valStack| - 1]);
  }

  // ---- What the decoder computes ---------------------------------------------------------------

  /** Reading one value by recursion: the value and what follows it. */
  function ParseTree(input: bytes): (r: Option<(Tree, bytes)>)
    ensures r.Some? ==> |r.value.1| < |input|
    decreases |input|
  {
    if input == [] then None
    else if input[0] == CONS_BOX_MARKER then
      match ParseTree(input[1..])
      case None => None
      case Some(l) =>
        (match ParseTree(l.1)
         case None => None
         case Some(r) => Some((Pair(l.0, r.0), r.1)))
    else
      var r := ReadAtom(input[0], input[1..]);
      if r.got.Some? then Some((Leaf(r.got.value), r.rest)) else None
  }

  /** Where the decoder stands after the operation on top of the stack and all it leads to. */
  lemma {:induction false} DecodeOne(ops: seq<ReadOp>, vals: seq<Tree>, input: bytes) returns (vals': seq<Tree>, rest: bytes)
    ensures Decode(Stacks(ops + [OpReadSexp], vals, input)) == Decode(Stacks(ops, vals', rest))
    ensures |rest| <= |input|
    ensures match ParseTree(input)
            case Some(p) => vals' == vals + [p.0] && rest == p.1
            case None => |vals'| <= |vals|
    decreases |input|
  {
    var s := Stacks(ops + [OpReadSexp], vals, input);
    assert s.ops[..|ops|] == ops;
    if input != [] && input[0] == CONS_BOX_MARKER {
      var inner := ops + [OpCons];
      assert Invoke(s).ops == inner + [OpReadSexp] + [OpReadSexp];
      var lvals, lrest := DecodeOne(inner + [OpReadSexp], vals, input[1..]);
      var rvals, rrest := DecodeOne(inner, lvals, lrest);
      var before := Stacks(inner, rvals, rrest);
      assert inner[..|ops|] == ops;
      vals', rest := Invoke(before).vals, rrest;
      var left := ParseTree(input[1..]);
      if left.Some? && ParseTree(left.value.1).Some? {
        assert rvals[..|rvals| - 2] == vals;
      }
    } else {
      vals', rest := Invoke(s).vals, Invoke(s).input;
    }
  }

  /** The decoder's two stacks, which go on after errors, compute exactly the recursive reading: a
      value comes out when and only when no error occurred, and it is the right one. */
  lemma {:induction false} DecodeIsParsing(input: bytes)
    ensures var end := Decode(Stacks([OpReadSexp], [], input));
            match ParseTree(input)
            case Some(p) => end.vals == [p.0] && end.input == p.1
            case None => end.vals == []
  {
    assert [] + [OpReadSexp] == [OpReadSexp];
    var vals, rest := DecodeOne([], [], input);
  }

  // ---- Round trips -----------------------------------------------------------------------------

  /** The sizes that are read back as they were written.  Prefixes of four and five bytes hold a
      group of four, which is read in the opposite order. */
  predicate SizeSurvives(size: nat) {
    if size < 0x10_0000 then true
    else if size < 0x800_0000 then
      size / 0x100_0000 == size % 0x100 && size / 0x1_0000 % 0x100 == size / 0x100 % 0x100
    else
      size / 0x100_0000 % 0x100 == size % 0x100 && size / 0x1_0000 % 0x100 == size / 0x100 % 0x100
  }

  predicate SizesSurvive(t: Tree) {
    match t case Leaf(b) => SizeSurvives(|b|) case Pair(l, r) => SizesSurvive(l) && SizesSurvive(r)
  }

  lemma {:induction false} PrefixBits(low: byte)
    ensures low < 0x40 ==> LeadingOnes(0x80 + low, TOP_BIT) == (1, low)
    ensures low < 0x20 ==> LeadingOnes(0xC0 + low, TOP_BIT) == (2, low)
    ensures low < 0x10 ==> LeadingOnes(0xE0 + low, TOP_BIT) == (3, low)
    ensures low < 8 ==> LeadingOnes(0xF0 + low, TOP_BIT) == (4, low)
    ensures low < 4 ==> LeadingOnes(0xF8 + low, TOP_BIT) == (5, low)
  {
    assert low < 0x20 ==> LeadingOnes(0x40 + low, 0x40) == (1, low);
    assert low < 0x10 ==> LeadingOnes(0x20 + low, 0x20) == (1, low);
    assert low < 8 ==> LeadingOnes(0x10 + low, 0x10) == (1, low);
    assert low < 4 ==> LeadingOnes(8 + low, 8) == (1, low);
    assert low < 0x10 ==> LeadingOnes(0x60 + low, 0x40) == (2, low);
    assert low < 8 ==> LeadingOnes(0x30 + low, 0x20) == (2, low);
    assert low < 4 ==> LeadingOnes(0x18 + low, 0x10) == (2, low);
    assert low < 8 ==> LeadingOnes(0x70 + low, 0x40) == (3, low);
    assert low < 4 ==> LeadingOnes(0x38 + low, 0x20) == (3, low);
    assert low < 4 ==> LeadingOnes(0x78 + low, 0x40) == (4, low);
  }

  lemma {:induction false} ThreeBytes(a: byte, b: byte, c: byte)
    ensures UnsignedFromU8([a]) == a && UnsignedFromU8([a, b]) == 256 * a + b
    ensures UnsignedFromU8([a, b, c]) == 65536 * a + 256 * b + c
  {
    assert [a][..0] == [] && [a, b][..1] == [a] && [a, b, c][..2] == [a, b];
  }

  /** The size in a prefix, as the reader computes it from the prefix's bytes. */
  function AnnouncedSize(prefix: bytes): nat
    requires prefix != []
  {
    SizeFromBytes([LeadingOnes(prefix[0], TOP_BIT).1] + prefix[1..])
  }

  lemma {:induction false} ShortBlob(b0: byte, more: bytes)
    requires |more| <= 2 && (match |more| case 0 => b0 < 0x40 case 1 => b0 < 0x20 case _ => b0 < 0x10)
    ensures var start: byte := (match |more| case 0 => 0x80 case 1 => 0xC0 case _ => 0xE0);
            LeadingOnes(start + b0, TOP_BIT).0 == |more| + 1
            && AnnouncedSize([start + b0] + more) == UnsignedFromU8([b0] + more)
  {
    PrefixBits(b0);
    var start: byte := (match |more| case 0 => 0x80 case 1 => 0xC0 case _ => 0xE0);
    assert ([start + b0] + more)[1..] == more;
  }

  /** One, two or three bytes of prefix give back the size. */
  predicate Announces(prefix: bytes, size: nat)
  {
    prefix != [] && LeadingOnes(prefix[0], TOP_BIT).0 == |prefix| && AnnouncedSize(prefix) == size
  }

  lemma {:induction false} OneBytePrefix(size: nat)
    requires size < 0x40
    ensures Announces([0x80 + size], size)
  {
    ShortBlob(size, []);
    ThreeBytes(size, 0, 0);
    assert [0x80 + size] + [] == [0x80 + size] && [size] + [] == [size];
  }

  lemma {:induction false} TwoBytePrefix(size: nat, b0: byte, b1: byte)
    requires b0 < 0x20 && size == 256 * b0 + b1
    ensures Announces([0xC0 + b0, b1], size)
  {
    ShortBlob(b0, [b1]);
    ThreeBytes(b0, b1, 0);
    assert [0xC0 + b0] + [b1] == [0xC0 + b0, b1] && [b0] + [b1] == [b0, b1];
  }

  lemma {:induction false} ThreeBytePrefix(size: nat, b0: byte, b1: byte, b2: byte)
    requires b0 < 0x10 && size == 65536 * b0 + 256 * b1 + b2
    ensures Announces([0xE0 + b0, b1, b2], size)
  {
    ShortBlob(b0, [b1, b2]);
    ThreeBytes(b0, b1, b2);
    assert [0xE0 + b0] + [b1, b2] == [0xE0 + b0, b1, b2] && [b0] + [b1, b2] == [b0, b1, b2];
  }

  lemma {:induction false} ShortSizes(size: nat)
    requires size < 0x10_0000
    ensures Announces(SizePrefix(size).value, size)
  {
    Digits(size);
    if size < 0x40 {
      OneBytePrefix(size);
    } else if size < 0x2000 {
      TwoBytePrefix(size, size / 0x100, size % 0x100);
    } else {
      ThreeBytePrefix(size, size / 0x1_0000, size / 0x100 % 0x100, size % 0x100);
    }
  }

  /** The base-256 digits of a number. */
  lemma {:induction false} Digits(size: nat)
    ensures size == size / 0x100_0000 * 0x100_0000 + size / 0x1_0000 % 0x100 * 0x1_0000 + size / 0x100 % 0x100 * 0x100 + size % 0x100
    ensures size / 0x100_0000 == size / 0x1_0000_0000 * 0x100 + size / 0x100_0000 % 0x100
  {
    var s1, s2 := size / 0x100, size / 0x1_0000;
    assert size == s1 * 0x100 + size % 0x100;
    assert s2 == s1 / 0x100 && s1 == s2 * 0x100 + s1 % 0x100;
    assert size / 0x100_0000 == s2 / 0x100 && s2 == s2 / 0x100 * 0x100 + s2 % 0x100;
    assert size / 0x1_0000_0000 == size / 0x100_0000 / 0x100;
  }

  /** Four bytes read in the opposite order are the same number only if they read the same from both
      ends. */
  lemma {:induction false} SameBackwards(b0: byte, b1: byte, b2: byte, b3: byte)
    ensures b0 + 0x100 * b1 + 0x1_0000 * b2 + 0x100_0000 * b3 == 0x100_0000 * b0 + 0x1_0000 * b1 + 0x100 * b2 + b3
            <==> b0 == b3 && b1 == b2
  {
  }

  lemma {:induction false} WordAlone(b0: byte, b1: byte, b2: byte, b3: byte)
    ensures SizeFromBytes([b0, b1, b2, b3]) == b0 + 0x100 * b1 + 0x1_0000 * b2 + 0x100_0000 * b3
  {
    var blob: bytes := [b0, b1, b2, b3];
    assert blob[..0] == [];
    assert SizeFromBytes(blob[..0]) == 0;
  }

  lemma {:induction false} FourByteSizes(size: nat)
    requires 0x10_0000 <= size < 0x800_0000
    ensures var prefix := SizePrefix(size).value;
            LeadingOnes(prefix[0], TOP_BIT).0 == |prefix| && (AnnouncedSize(prefix) == size <==> SizeSurvives(size))
  {
    var b0, b1, b2, b3 := size / 0x100_0000, size / 0x1_0000 % 0x100, size / 0x100 % 0x100, size % 0x100;
    FourByteBlob(size, b0, b1, b2, b3);
    Digits(size);
    WordAlone(b0, b1, b2, b3);
    SameBackwards(b0, b1, b2, b3);
  }

  lemma {:induction false} FourByteBlob(size: nat, b0: byte, b1: byte, b2: byte, b3: byte)
    requires SizePrefix(size) == Some([0xF0 + b0, b1, b2, b3]) && b0 < 8
    ensures LeadingOnes(SizePrefix(size).value[0], TOP_BIT).0 == 4
    ensures AnnouncedSize(SizePrefix(size).value) == SizeFromBytes([b0, b1, b2, b3])
  {
    PrefixBits(b0);
    assert [b0] + SizePrefix(size).value[1..] == [b0, b1, b2, b3];
  }

  lemma {:induction false} FiveByteBlob(size: nat, b0: byte, b1: byte, b2: byte, b3: byte, b4: byte)
    requires SizePrefix(size) == Some([0xF8 + b0, b1, b2, b3, b4]) && b0 < 4
    ensures LeadingOnes(SizePrefix(size).value[0], TOP_BIT).0 == 5
    ensures AnnouncedSize(SizePrefix(size).value) ==
            b1 + 0x100 * b2 + 0x1_0000 * b3 + 0x100_0000 * b4 + 0x1_0000_0000 * b0
  {
    PrefixBits(b0);
    var blob: bytes := [b0, b1, b2, b3, b4];
    assert [b0] + SizePrefix(size).value[1..] == blob && blob[..1] == [b0];
    ThreeBytes(b0, 0, 0);
    assert SizeFromBytes(blob) == GetU32(blob, 1) + WORD * SizeFromBytes(blob[..1]);
  }

  lemma {:induction false} FiveByteSizes(size: nat)
    requires 0x800_0000 <= size < 0x4_0000_0000
    ensures var prefix := SizePrefix(size).value;
            LeadingOnes(prefix[0], TOP_BIT).0 == |prefix| && (AnnouncedSize(prefix) == size <==> SizeSurvives(size))
  {
    var b0, b1, b2, b3, b4 :=
      size / 0x1_0000_0000, size / 0x100_0000 % 0x100, size / 0x1_0000 % 0x100, size / 0x100 % 0x100, size % 0x100;
    FiveByteBlob(size, b0, b1, b2, b3, b4);
    Digits(size);
    SameBackwards(b1, b2, b3, b4);
  }

  /** What the reader makes of a prefix. */
  lemma {:induction false} AnnouncedSizes(size: nat)
    requires SizePrefix(size).Some?
    ensures var prefix := SizePrefix(size).value;
            0x80 <= prefix[0] < 0xFF && (prefix[0] == 0x80 ==> size == 0)
            && LeadingOnes(prefix[0], TOP_BIT).0 == |prefix| && (AnnouncedSize(prefix) == size <==> SizeSurvives(size))
  {
    if size < 0x10_0000 {
      ShortSizes(size);
    } else if size < 0x800_0000 {
      FourByteSizes(size);
    } else {
      FiveByteSizes(size);
    }
  }

  /** An announced atom is read back, and nothing after it touched, exactly when its size
      survives; otherwise what is read has another size. */
  lemma {:induction false} AnnouncedAtom(b: bytes, prefix: bytes, suffix: bytes)
    requires SizePrefix(|b|) == Some(prefix) && b != []
    ensures var r := ReadAtom(prefix[0], prefix[1..] + b + suffix);
            prefix[0] != CONS_BOX_MARKER
            && if SizeSurvives(|b|) then r == Reading(Some(b), suffix) else r.got.Some? ==> |r.got.value| != |b|
  {
    AnnouncedSizes(|b|);
    SizeBound(|b|);
    PrefixThenAtom(b, prefix, suffix);
  }

  lemma {:induction false} PrefixThenAtom(b: bytes, prefix: bytes, suffix: bytes)
    requires prefix != [] && 0x80 < prefix[0] && LeadingOnes(prefix[0], TOP_BIT).0 == |prefix| && |b| < TOO_LARGE
    ensures var r := ReadAtom(prefix[0], prefix[1..] + b + suffix);
            if AnnouncedSize(prefix) == |b| then r == Reading(Some(b), suffix) else r.got.Some? ==> |r.got.value| != |b|
  {
    PrefixRead(prefix, b + suffix);
    assert prefix[1..] + b + suffix == prefix[1..] + (b + suffix);
    assert (b + suffix)[..|b|] == b && (b + suffix)[|b|..] == suffix;
  }

  /** What the reader does with a prefix of the length it announces. */
  lemma {:induction false} PrefixRead(prefix: bytes, rest: bytes)
    requires prefix != [] && 0x80 < prefix[0] && LeadingOnes(prefix[0], TOP_BIT).0 == |prefix|
    ensures var size := AnnouncedSize(prefix);
            ReadAtom(prefix[0], prefix[1..] + rest) ==
            if size >= TOO_LARGE then Reading(None, rest)
            else if |rest| < size then Reading(None, [])
            else Reading(Some(rest[..size]), rest[size..])
  {
    var input, k := prefix[1..] + rest, |prefix| - 1;
    assert input[..k] == prefix[1..] && input[k..] == rest;
  }

  lemma {:induction false} SizeBound(size: nat)
    requires SizePrefix(size).Some?
    ensures size < TOO_LARGE
  {
  }

  lemma {:induction false} AnyAtom(b: bytes, suffix: bytes)
    requires Serialize(Leaf(b)).whole
    ensures var r := ParseTree(Serialize(Leaf(b)).data + suffix);
            if SizeSurvives(|b|) then r == Some((Leaf(b), suffix)) else r.Some? ==> r.value.0 != Leaf(b)
  {
    var p := AtomSizeBlob(b).value;
    if p.0 {
      LongAtom(b, p.1, suffix);
    } else {
      assert (p.1 + suffix)[1..] == suffix;
      assert b == [] || b == [b[0]];
    }
  }

  lemma {:induction false} LongAtom(b: bytes, prefix: bytes, suffix: bytes)
    requires SizePrefix(|b|) == Some(prefix) && b != []
    ensures var r := ParseTree(prefix + b + suffix);
            if SizeSurvives(|b|) then r == Some((Leaf(b), suffix)) else r.Some? ==> r.value.0 != Leaf(b)
  {
    AnnouncedAtom(b, prefix, suffix);
    AtomFirst(prefix[0], prefix[1..] + b + suffix);
    assert [prefix[0]] + (prefix[1..] + b + suffix) == prefix + b + suffix;
  }

  lemma {:induction false} AtomFirst(first: byte, rest: bytes)
    requires first != CONS_BOX_MARKER
    ensures var r := ReadAtom(first, rest);
            ParseTree([first] + rest) == if r.got.Some? then Some((Leaf(r.got.value), r.rest)) else None
  {
    var input := [first] + rest;
    assert input[1..] == rest;
  }

  /** Reading what was written, with anything after it: the value comes back and exactly the rest
      is left if every atom's size survives; if one does not, no reading gives the value back. */
  lemma {:induction false} SerializedRead(t: Tree, suffix: bytes)
    requires Serialize(t).whole
    ensures var r := ParseTree(Serialize(t).data + suffix);
            if SizesSurvive(t) then r == Some((t, suffix)) else r.Some? ==> r.value.0 != t
    decreases t
  {
    match t
    case Leaf(b) => AnyAtom(b, suffix);
    case Pair(l, x) =>
      var left, right := Serialize(l).data, Serialize(x).data;
      var input := Serialize(t).data + suffix;
      assert input == [CONS_BOX_MARKER] + (left + (right + suffix));
      assert input[1..] == left + (right + suffix);
      SerializedRead(l, right + suffix);
      SerializedRead(x, suffix);
  }

  /** The same for the decoder itself: one value, everything after it unread. */
  lemma {:induction false} StreamRoundTrip(t: Tree, suffix: bytes)
    requires Serialize(t).whole
    ensures var end := Decode(Stacks([OpReadSexp], [], Serialize(t).data + suffix));
            SizesSurvive(t) <==> end.vals == [t] && end.input == suffix
  {
    SerializedRead(t, suffix);
    DecodeIsParsing(Serialize(t).data + suffix);
    var end := Decode(Stacks([OpReadSexp], [], Serialize(t).data + suffix));
    assert end.vals == [t] ==> end.vals[0] == t;
  }

  /** In particular for every value whose atoms are shorter than 0x100000 bytes. */
  lemma {:induction false} ShortAtomsSurvive(t: Tree)
    requires AtomsShorter(t, 0x10_0000)
    ensures SizesSurvive(t) && Serialize(t).whole
  {
    if t.Pair? {
      ShortAtomsSurvive(t.left);
      ShortAtomsSurvive(t.right);
    }
  }

  predicate AtomsShorter(t: Tree, limit: nat) {
    match t case Leaf(b) => |b| < limit case Pair(l, r) => AtomsShorter(l, limit) && AtomsShorter(r, limit)
  }

  /** The first size that does not survive. */
  lemma {:induction false} SizesMayNotSurvive(b: bytes)
    requires |b| == 0x10_0000
    ensures Serialize(Leaf(b)).whole && !SizesSurvive(Leaf(b))
  {
  }
}
