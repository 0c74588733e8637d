/** The in-memory byte stream and the size numbers read from it: `Stream`, `get_u32` and
    `int_from_bytes`. */
module Streams {
  import opened Numbers
  import opened SExpressions

  /** A growing buffer with a position in it. */
  class Stream {
    var seek: nat
    var length: nat
    var buffer: bytes

    ghost predicate Valid()
      reads this
    {
      seek <= length == |buffer|
    }

    /** What is still to be read. */
    ghost function Remaining(): (r: bytes)
      reads this
      requires Valid()
    {
      buffer[seek..]
    }

    constructor (b: bytes)
      ensures Valid() && seek == 0 && buffer == b && Remaining() == b
    {
      seek, length, buffer := 0, |b|, b;
      new;
      assert buffer[0..] == buffer;
    }

    /** Moving to a place; negative places mean the last byte.  The source subtracts one from the length
        first, which fails for an empty stream. */
    method SetSeek(value: int) returns (ok: bool)
      requires Valid()
      modifies this`seek
      ensures Valid() && (ok <==> length > 0)
      ensures seek == if !ok then old(seek) else if value < 0 then length - 1 else if value > length - 1 then length else value
    {
      if length == 0 {
        return false;
      }
      if value < 0 {
        seek := length - 1;
      } else if value > length - 1 {
        seek := length;
      } else {
        seek := value;
      }
      return true;
    }

    /** Bytes are written over what follows the position, and past the end where needed. */
    method Write(b: bytes) returns (n: nat)
      requires Valid()
      modifies this
      ensures Valid() && n == |b| && seek == old(seek) + |b|
      ensures buffer[..old(seek)] == old(buffer[..seek]) && buffer[old(seek)..seek] == b
      ensures buffer[seek..] == if seek <= old(length) then old(buffer)[seek..] else []
    {
      var newLength := if |buffer| >= |b| + seek then |buffer| else |b| + seek;
      if |b| > 0 {
        var start := buffer;
        if newLength > |buffer| {
          buffer := buffer + seq(newLength - |buffer|, _ => 0);
        }
        var i := 0;
        while i < |b|
          invariant 0 <= i <= |b| && |buffer| == newLength && seek == old(seek) && length == old(length)
          invariant buffer[..seek] == start[..seek]
          invariant buffer[seek..seek + i] == b[..i]
          invariant forall j :: seek + |b| <= j < |start| ==> buffer[j] == start[j]
        {
          assert b[..i + 1] == b[..i] + [b[i]];
          buffer := buffer[i + seek := b[i]];
          i := i + 1;
        }
        assert b[..|b|] == b;
      }
      length := newLength;
      seek := seek + |b|;
      return |b|;
    }

    /** Up to `size` bytes from the position, fewer at the end. */
    method Read(size: nat) returns (r: bytes)
      requires Valid()
      modifies this`seek
      ensures Valid()
      ensures var n := if size <= |old(Remaining())| then size else |old(Remaining())|;
              r == old(Remaining())[..n] && Remaining() == old(Remaining())[n..]
    {
      if seek > length || size == 0 {
        return [];
      }
      var count := if seek + size <= length then size else length - seek;
      r := [];
      var i := 0;
      while i < count
        invariant 0 <= i <= count && r == buffer[seek..seek + i]
      {
        r := r + [buffer[seek + i]];
        i := i + 1;
      }
      seek := seek + count;
    }
  }

  // ---- Numbers from bytes ----------------------------------------------------------------------

  /** `get_u32`: four bytes, the least significant one first. */
  function GetU32(v: bytes, n: nat): (r: nat)
    requires n + 4 <= |v|
  {
    v[n] as int + 0x100 * v[n + 1] as int + 0x1_0000 * v[n + 2] as int + 0x100_0000 * v[n + 3] as int
  }

  const WORD: nat := 0x1_0000_0000

  /** What `int_from_bytes` makes of up to eight bytes: big-endian in groups of four counted from the
      end, but each full group is read little-endian. */
  function SizeFromBytes(dv: bytes): (n: nat) {
    if |dv| < 4 then UnsignedFromU8(dv) else GetU32(dv, |dv| - 4) + WORD * SizeFromBytes(dv[..|dv| - 4])
  }

  /** `int_from_bytes` without a sign; None for more than eight bytes. */
  method IntFromBytes(b: bytes) returns (r: Option<nat>)
    ensures r == if |b| * 8 > 64 then None else Some(SizeFromBytes(b))
  {
    if |b| == 0 {
      return Some(0);
    } else if |b| * 8 > 64 {
      return None;
    }
    var bytes4Remain, bytes4Length := |b| % 4, |b| / 4;
    var unsigned: int, order: int := 0, 1;
    assert b[..|b|] == b;
    for iReverse := 0 to bytes4Length
      invariant SizeFromBytes(b) == unsigned + order * SizeFromBytes(b[..(bytes4Length - iReverse) * 4 + bytes4Remain])
    {
      var i := bytes4Length - iReverse - 1;
      WordStep(b, i * 4 + bytes4Remain, order);
      unsigned := unsigned + GetU32(b, i * 4 + bytes4Remain) * order;
      order := order * WORD;
    }
    for iReverse := 0 to bytes4Remain
      invariant SizeFromBytes(b) == unsigned + order * UnsignedFromU8(b[..bytes4Remain - iReverse])
    {
      var i := bytes4Remain - iReverse - 1;
      ByteStep(b, i, order);
      unsigned := unsigned + b[i] * order;
      order := order * 256;
    }
    return Some(unsigned);
  }

  lemma {:induction false} WordStep(b: bytes, i: nat, order: int)
    requires i + 4 <= |b|
    ensures order * SizeFromBytes(b[..i + 4]) == GetU32(b, i) * order + (order * WORD) * SizeFromBytes(b[..i])
  {
    assert b[..i + 4][..i] == b[..i];
    assert GetU32(b[..i + 4], i) == GetU32(b, i);
    Distribute(order, GetU32(b, i), WORD, SizeFromBytes(b[..i]));
  }

  lemma {:induction false} ByteStep(b: bytes, i: nat, order: int)
    requires i < |b|
    ensures order * UnsignedFromU8(b[..i + 1]) == b[i] * order + (order * 256) * UnsignedFromU8(b[..i])
  {
    assert b[..i + 1][..i] == b[..i];
    Distribute(order, b[i], 256, UnsignedFromU8(b[..i]));
  }

  lemma {:induction false} Distribute(order: int, low: int, base: int, high: int)
    ensures order * (low + base * high) == low * order + (order * base) * high
  {
  }
}
