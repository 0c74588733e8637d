/** Byte strings and the signed big-endian number encoding shared by the compiler and the CLVM:
    `number_from_u8`, `u8_from_number` and `flatten_signed_int`. */
module Numbers {
  type byte = b: int | 0 <= b < 256
  type bytes = seq<byte>

  /** Two's complement, most significant byte first; the empty string is zero. */
  function NumberFromU8(b: bytes): (n: int)
  {
    if |b| == 0 then 0
    else if |b| == 1 then (if b[0] >= 128 then b[0] - 256 else b[0])
    else NumberFromU8(b[..|b| - 1]) * 256 + b[|b| - 1]
  }

  /** The shortest two's complement encoding; zero is the single byte 0. */
  function U8FromNumber(n: int): (b: bytes)
    ensures |b| > 0
    decreases if n < 0 then -n else n
  {
    if -128 <= n < 128 then [n % 256]
    else U8FromNumber(n / 256) + [n % 256]
  }

  /** The same bytes read without a sign. */
  function UnsignedFromU8(b: bytes): (n: nat)
  {
    if |b| == 0 then 0
    else UnsignedFromU8(b[..|b| - 1]) * 256 + b[|b| - 1]
  }

  /** `flatten_signed_int`: reinterpret a number's shortest encoding as unsigned. */
  function FlattenSigned(n: int): (f: nat) {
    UnsignedFromU8(U8FromNumber(n))
  }

  /** An encoding is minimal when dropping its first byte would change the number. */
  predicate Minimal(b: bytes) {
    |b| > 0 && (|b| >= 2 ==> !(b[0] == 0 && b[1] < 128) && !(b[0] == 255 && b[1] >= 128))
  }

  lemma {:induction false} NumberRoundTrip(n: int)
    ensures NumberFromU8(U8FromNumber(n)) == n
    decreases if n < 0 then -n else n
  {
    if !(-128 <= n < 128) {
      NumberRoundTrip(n / 256);
      var b := U8FromNumber(n);
      assert b[..|b| - 1] == U8FromNumber(n / 256);
    }
  }

  lemma {:induction false} EncodingIsMinimal(n: int)
    ensures Minimal(U8FromNumber(n))
    decreases if n < 0 then -n else n
  {
    if !(-128 <= n < 128) {
      EncodingIsMinimal(n / 256);
      var p := U8FromNumber(n / 256);
      if |p| == 1 {
        NumberRoundTrip(n / 256);
      }
    }
  }

  /** Which byte strings a number can come back from: exactly the minimal ones. */
  lemma {:induction false} BytesRoundTrip(b: bytes)
    ensures U8FromNumber(NumberFromU8(b)) == b <==> Minimal(b)
  {
    if Minimal(b) {
      MinimalRoundTrip(b);
    } else {
      EncodingIsMinimal(NumberFromU8(b));
    }
  }

  /** A minimal multi-byte encoding denotes a number outside the one-byte range. */
  lemma {:induction false} MinimalRange(b: bytes)
    requires |b| >= 2 && Minimal(b)
    ensures !(-128 <= NumberFromU8(b) < 128)
  {
    var p := b[..|b| - 1];
    if |p| >= 2 {
      MinimalRange(p);
    }
  }

  lemma {:induction false} MinimalRoundTrip(b: bytes)
    requires Minimal(b)
    ensures U8FromNumber(NumberFromU8(b)) == b
  {
    if |b| >= 2 {
      MinimalRange(b);
      var p := b[..|b| - 1];
      MinimalRoundTrip(p);
      assert NumberFromU8(b) == NumberFromU8(p) * 256 + b[|b| - 1];
      assert NumberFromU8(b) / 256 == NumberFromU8(p);
      assert p + [b[|b| - 1]] == b;
    }
  }

  lemma {:induction false} UnsignedAppend(b: bytes, last: byte)
    ensures UnsignedFromU8(b + [last]) == UnsignedFromU8(b) * 256 + last
  {
    var all := b + [last];
    assert all[..|all| - 1] == b;
  }

  /** Non-negative numbers are unchanged by flattening. */
  lemma {:induction false} FlattenNonNegative(n: nat)
    ensures FlattenSigned(n) == n
  {
    if n >= 128 {
      FlattenNonNegative(n / 256);
      UnsignedAppend(U8FromNumber(n / 256), n % 256);
    } else {
      UnsignedAppend([], n);
      assert [] + [n as byte] == [n as byte];
    }
  }
}
