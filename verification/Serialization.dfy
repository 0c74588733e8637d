/** Writing CLVM values as bytes: `atom_size_blob`, `SExpToBytesIterator` and `sexp_to_stream`. */
module Serialization {
  import opened Numbers
  import opened SExpressions
  import opened Streams

  const MAX_SINGLE_BYTE: byte := 0x7F
  const CONS_BOX_MARKER: byte := 0xFF

  /** The size prefix: one to five bytes that announce how many bytes follow. */
  function SizePrefix(size: nat): (r: Option<bytes>)
    ensures r.Some? ==> r.value != []
  {
    if size < 0x40 then Some([0x80 + size])
    else if size < 0x2000 then Some([0xC0 + size / 0x100, size % 0x100])
    else if size < 0x10_0000 then Some([0xE0 + size / 0x1_0000, size / 0x100 % 0x100, size % 0x100])
    else if size < 0x800_0000 then
      Some([0xF0 + size / 0x100_0000, size / 0x1_0000 % 0x100, size / 0x100 % 0x100, size % 0x100])
    else if size < 0x4_0000_0000 then
      Some([0xF8 + size / 0x1_0000_0000, size / 0x100_0000 % 0x100, size / 0x1_0000 % 0x100, size / 0x100 % 0x100,
            size % 0x100])
    else None
  }

  /** `atom_size_blob`: the bytes that announce an atom, and whether the atom itself follows them. */
  function AtomSizeBlob(b: bytes): (r: Option<(bool, bytes)>) {
    if |b| == 0 then Some((false, [0x80]))
    else if |b| == 1 && b[0] <= MAX_SINGLE_BYTE then Some((false, b))
    else
      match SizePrefix(|b|)
      case None => None
      case Some(prefix) => Some((true, prefix))
  }

  /** Bytes written so far, and whether writing got to the end or stopped at an atom too large to
      announce. */
  datatype Output = Output(data: bytes, whole: bool)

  function Then(a: Output, b: Output): Output {
    if a.whole then Output(a.data + b.data, b.whole) else a
  }

  /** Serialization by recursion. */
  function Serialize(t: Tree): (r: Output) {
    match t
    case Leaf(b) =>
      (match AtomSizeBlob(b)
       case None => Output([], false)
       case Some(p) => Output(if p.0 then p.1 + b else p.1, true))
    case Pair(l, r) => Then(Then(Output([CONS_BOX_MARKER], true), Serialize(l)), Serialize(r))
  }

  datatype ByteOp = Blob(blob: bytes) | Object(node: Tree)

  /** What is left to be written when the last operation is the next one. */
  function Pending(state: seq<ByteOp>): (r: Output)
    decreases |state|
  {
    if state == [] then Output([], true)
    else
      var rest := Pending(state[..|state| - 1]);
      match state[|state| - 1]
      case Blob(b) => Then(Output(b, true), rest)
      case Object(t) => Then(Serialize(t), rest)
  }

  function TreeSize(t: Tree): (n: nat)
    ensures n > 0
  {
    match t case Leaf(_) => 2 case Pair(l, r) => 1 + TreeSize(l) + TreeSize(r)
  }

  function Work(state: seq<ByteOp>): nat {
    if state == [] then 0
    else Work(state[..|state| - 1]) + match state[|state| - 1] case Blob(_) => 1 case Object(t) => TreeSize(t)
  }

  class SExpToBytesIterator {
    var state: seq<ByteOp>

    constructor (sexp: Tree)
      ensures Pending(state) == Serialize(sexp)
    {
      state := [Object(sexp)];
      new;
      assert state[..0] == [];
      assert Serialize(sexp).data + [] == Serialize(sexp).data;
    }

    /** The next piece of output comes off the front of what is pending; nothing comes only when
        nothing can. */
    method Next() returns (r: Option<bytes>)
      modifies this
      ensures r.Some? ==> Pending(old(state)) == Then(Output(r.value, true), Pending(state))
      ensures r == None ==> Pending(old(state)) == Output([], old(state) == [])
      ensures r.Some? ==> Work(state) < Work(old(state))
    {
      if state == [] {
        return None;
      }
      var step := state[|state| - 1];
      state := state[..|state| - 1];
      ghost var rest := state;
      match step {
        case Blob(b) =>
          return Some(b);
        case Object(Leaf(b)) =>
          match AtomSizeBlob(b) {
            case None =>
              return None;
            case Some(p) =>
              if p.0 {
                state := state + [Blob(b)];
                assert state[..|state| - 1] == rest;
                assert p.1 + (b + Pending(rest).data) == (p.1 + b) + Pending(rest).data;
              }
              return Some(p.1);
          }
        case Object(Pair(f, x)) =>
          state := state + [Object(x)] + [Object(f)];
          PendingPair(rest, f, x);
          return Some([CONS_BOX_MARKER]);
      }
    }
  }

  lemma {:induction false} ThenAssociative(a: Output, b: Output, c: Output)
    ensures Then(Then(a, b), c) == Then(a, Then(b, c))
  {
    assert (a.data + b.data) + c.data == a.data + (b.data + c.data);
  }

  lemma {:induction false} PendingPair(rest: seq<ByteOp>, f: Tree, x: Tree)
    ensures var state := rest + [Object(x)] + [Object(f)];
            Then(Serialize(Pair(f, x)), Pending(rest)) == Then(Output([CONS_BOX_MARKER], true), Pending(state))
            && Work(state) < Work(rest) + TreeSize(Pair(f, x))
  {
    var inner := rest + [Object(x)];
    var state := inner + [Object(f)];
    assert inner[..|inner| - 1] == rest && state[..|state| - 1] == inner;
    var marker := Output([CONS_BOX_MARKER], true);
    ThenAssociative(marker, Serialize(f), Serialize(x));
    ThenAssociative(marker, Then(Serialize(f), Serialize(x)), Pending(rest));
    ThenAssociative(Serialize(f), Serialize(x), Pending(rest));
  }

  /** `sexp_to_stream`: what lies before the position grows by the serialized value. */
  method SexpToStream(sexp: Tree, f: Stream)
    requires f.Valid()
    modifies f
    ensures f.Valid()
    ensures f.buffer[..f.seek] == old(f.buffer[..f.seek]) + Serialize(sexp).data
    ensures old(f.seek == f.length) ==> f.seek == f.length
  {
    var iterator_ := new SExpToBytesIterator(sexp);
    var b := iterator_.Next();
    ghost var start := f.buffer[..f.seek];
    assert start + [] == start;
    ghost var done: bytes := [];
    while b.Some?
      invariant f.Valid() && f.buffer[..f.seek] == start + done
      invariant old(f.seek == f.length) ==> f.seek == f.length
      invariant Serialize(sexp) == Then(Output(done, true), if b.Some? then Then(Output(b.value, true), Pending(iterator_.state))
                                                            else Output([], Serialize(sexp).whole))
      decreases b.Some?, Work(iterator_.state)
    {
      ghost var before := f.buffer[..f.seek];
      var n := f.Write(b.value);
      assert f.buffer[..f.seek] == before + b.value;
      ThenAssociative(Output(done, true), Output(b.value, true), Pending(iterator_.state));
      done := done + b.value;
      b := iterator_.Next();
    }
  }
}
