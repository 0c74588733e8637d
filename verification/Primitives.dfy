/** The table of primitive operators, and which of them reach the stepwise machine unchanged. */
module Primitives {
  import opened Numbers
  import opened SExpressions
  import opened Machine
  import opened BigStep
  import opened Syntax
  import opened Semantics
  import opened ClvmPrograms
  import opened InliningSound
  import opened CodegenEnds

  // ---- `prims`, in groups ----------------------------------------------------------------------

  const CORE: map<bytes, SExp> := map[
    [113] := Integer(1), // q
    [97] := Integer(2), // a
    [105] := Integer(3), // i
    [99] := Integer(4), // c
    [102] := Integer(5), // f
    [114] := Integer(6), // r
    [108] := Integer(7), // l
    [120] := Integer(8) // x
  ]

  const COMPARISON_AND_BYTES: map<bytes, SExp> := map[
    [61] := Integer(9), // =
    [62, 115] := Integer(10), // >s
    [115, 104, 97, 50, 53, 54] := Integer(11), // sha256
    [115, 117, 98, 115, 116, 114] := Integer(12), // substr
    [115, 116, 114, 108, 101, 110] := Integer(13), // strlen
    [99, 111, 110, 99, 97, 116] := Integer(14) // concat
  ]

  const ARITHMETIC: map<bytes, SExp> := map[
    [43] := Integer(16), // +
    [45] := Integer(17), // -
    [42] := Integer(18), // *
    [47] := Integer(19), // /
    [100, 105, 118, 109, 111, 100] := Integer(20), // divmod
    [62] := Integer(21) // >
  ]

  const BITS: map<bytes, SExp> := map[
    [97, 115, 104] := Integer(22), // ash
    [108, 115, 104] := Integer(23), // lsh
    [108, 111, 103, 97, 110, 100] := Integer(24), // logand
    [108, 111, 103, 105, 111, 114] := Integer(25), // logior
    [108, 111, 103, 120, 111, 114] := Integer(26), // logxor
    [108, 111, 103, 110, 111, 116] := Integer(27) // lognot
  ]

  const LOGIC: map<bytes, SExp> := map[
    [112, 111, 105, 110, 116, 95, 97, 100, 100] := Integer(29), // point_add
    [112, 117, 98, 107, 101, 121, 95, 102, 111, 114, 95, 101, 120, 112] := Integer(30), // pubkey_for_exp
    [110, 111, 116] := Integer(32), // not
    [97, 110, 121] := Integer(33), // any
    [97, 108, 108] := Integer(34), // all
    [115, 111, 102, 116, 102, 111, 114, 107] := Integer(36) // softfork
  ]

  const CURVES: map<bytes, SExp> := map[
    [99, 111, 105, 110, 105, 100] := Integer(48), // coinid
    [103, 49, 95, 115, 117, 98, 116, 114, 97, 99, 116] := Integer(49), // g1_subtract
    [103, 49, 95, 109, 117, 108, 116, 105, 112, 108, 121] := Integer(50), // g1_multiply
    [103, 49, 95, 110, 101, 103, 97, 116, 101] := Integer(51), // g1_negate
    [103, 50, 95, 97, 100, 100] := Integer(52), // g2_add
    [103, 50, 95, 115, 117, 98, 116, 114, 97, 99, 116] := Integer(53), // g2_subtract
    [103, 50, 95, 109, 117, 108, 116, 105, 112, 108, 121] := Integer(54), // g2_multiply
    [103, 50, 95, 110, 101, 103, 97, 116, 101] := Integer(55) // g2_negate
  ]

  const LATER: map<bytes, SExp> := map[
    [103, 49, 95, 109, 97, 112] := Integer(56), // g1_map
    [103, 50, 95, 109, 97, 112] := Integer(57), // g2_map
    [98, 108, 115, 95, 112, 97, 105, 114, 105, 110, 103, 95, 105, 100, 101, 110, 116, 105, 116, 121] := Integer(58), // bls_pairing_identity
    [98, 108, 115, 95, 118, 101, 114, 105, 102, 121] := Integer(59), // bls_verify
    [109, 111, 100, 112, 111, 119] := Integer(60), // modpow
    [37] := Integer(61), // %
    [107, 101, 99, 99, 97, 107, 50, 53, 54] := Integer(62), // keccak256
    [115, 101, 99, 112, 50, 53, 54, 107, 49, 95, 118, 101, 114, 105, 102, 121] := Integer(0x13d61f00), // secp256k1_verify
    [115, 101, 99, 112, 50, 53, 54, 114, 49, 95, 118, 101, 114, 105, 102, 121] := Integer(0x1c3a8f00) // secp256r1_verify
  ]

  const PRIMS: map<bytes, SExp> :=
    ((CORE + COMPARISON_AND_BYTES) + (ARITHMETIC + BITS)) + ((LOGIC + CURVES) + LATER)

  /** Names of one byte. */
  const SHORT_NAMES: set<int> := {113, 97, 105, 99, 102, 114, 108, 120, 61, 43, 45, 42, 47, 62, 37}

  lemma {:induction false} OneByteCore(b: byte)
    ensures [b] in CORE <==> b in {113, 97, 105, 99, 102, 114, 108, 120}
  {
    var name: bytes := [b];
    assert name[0] == b;
  }

  lemma {:induction false} OneByteEarly(b: byte)
    ensures [b] in COMPARISON_AND_BYTES <==> b == 61
    ensures [b] in ARITHMETIC <==> b in {43, 45, 42, 47, 62}
    ensures [b] !in BITS
  {
    var name: bytes := [b];
    assert |name| == 1 && name[0] == b;
  }

  lemma {:induction false} OneByteLate(b: byte)
    ensures [b] !in LOGIC && [b] !in CURVES
    ensures [b] in LATER <==> b == 37
  {
    var name: bytes := [b];
    assert |name| == 1 && name[0] == b;
  }

  /** A table put together from seven: what is in it, and that the last one wins. */
  lemma {:induction false} InTable(a: map<bytes, SExp>, b: map<bytes, SExp>, c: map<bytes, SExp>, d: map<bytes, SExp>, e: map<bytes, SExp>,
                                   f: map<bytes, SExp>, g: map<bytes, SExp>, name: bytes)
    ensures var all := ((a + b) + (c + d)) + ((e + f) + g);
            (name in all <==> name in a || name in b || name in c || name in d || name in e || name in f || name in g)
            && (name in g ==> all[name] == g[name])
  {
  }

  lemma {:induction false} OneByteNames(b: byte)
    ensures [b] in PRIMS <==> b in SHORT_NAMES
  {
    InTable(CORE, COMPARISON_AND_BYTES, ARITHMETIC, BITS, LOGIC, CURVES, LATER, [b]);
    OneByteCore(b);
    OneByteEarly(b);
    OneByteLate(b);
  }

  // ---- Operators the machine takes for another ------------------------------------------------

  const MODULUS: bytes := [37]                                          // %
  const KECCAK: bytes := [107, 101, 99, 99, 97, 107, 50, 53, 54]        // keccak256

  /** An operator number that is its own one byte. */
  predicate SmallOp(p: SExp) { p.Integer? && 0 < p.value < 64 && p.value !in SHORT_NAMES }

  lemma {:induction false} EarlyOps(name: bytes)
    ensures name in CORE ==> SmallOp(CORE[name])
    ensures name in COMPARISON_AND_BYTES ==> SmallOp(COMPARISON_AND_BYTES[name])
    ensures name in ARITHMETIC ==> SmallOp(ARITHMETIC[name])
  {
  }

  lemma {:induction false} OtherOps(name: bytes)
    ensures name in BITS ==> SmallOp(BITS[name])
    ensures name in LOGIC ==> SmallOp(LOGIC[name])
    ensures name in CURVES ==> SmallOp(CURVES[name])
  {
  }

  /** The two are in the last group only. */
  lemma {:induction false} OnlyLater()
    ensures MODULUS !in CORE && MODULUS !in COMPARISON_AND_BYTES && MODULUS !in ARITHMETIC
    ensures MODULUS !in BITS && MODULUS !in LOGIC && MODULUS !in CURVES
    ensures KECCAK !in CORE && KECCAK !in COMPARISON_AND_BYTES && KECCAK !in ARITHMETIC
    ensures KECCAK !in BITS && KECCAK !in LOGIC && KECCAK !in CURVES
  {
    OneByteCore(37);
    OneByteEarly(37);
    OneByteLate(37);
    assert KECCAK[0] == 107;
  }

  lemma {:induction false} LaterOps(name: bytes)
    requires name in LATER
    ensures LATER[name].Integer?
    ensures name in {MODULUS, KECCAK} ==> LATER[name].value in {61, 62}
    ensures name !in {MODULUS, KECCAK} ==> SmallOp(LATER[name]) || LATER[name].value in {0x13d61f00, 0x1c3a8f00}
  {
  }

  /** Where an entry of the table comes from. */
  lemma {:induction false} TableEntry(name: bytes)
    requires name in PRIMS
    ensures PRIMS[name].Integer?
    ensures name in {MODULUS, KECCAK} ==> PRIMS[name].value in {61, 62}
    ensures name !in {MODULUS, KECCAK} ==> SmallOp(PRIMS[name]) || PRIMS[name].value in {0x13d61f00, 0x1c3a8f00}
  {
    OnlyLater();
    EarlyOps(name);
    OtherOps(name);
    if name in LATER {
      LaterOps(name);
    }
  }

  /** No name is four bytes long. */
  lemma {:induction false} NoFourByteNames(name: bytes)
    requires |name| == 4
    ensures name !in PRIMS
  {
    NoFourByteNamesIn(name);
  }

  lemma {:induction false} NoFourByteNamesIn(name: bytes)
    requires |name| == 4
    ensures name !in CORE && name !in COMPARISON_AND_BYTES && name !in ARITHMETIC && name !in BITS
    ensures name !in LOGIC && name !in CURVES && name !in LATER
  {
  }

  lemma {:induction false} BigOps(op: int)
    requires op in {0x13d61f00, 0x1c3a8f00}
    ensures |U8FromNumber(op)| == 4
  {
    assert |U8FromNumber(op / 0x100_0000)| == 1;
    assert |U8FromNumber(op / 0x1_0000)| == 2;
    assert |U8FromNumber(op / 0x100)| == 3;
  }

  lemma {:induction false} SmallOpPlain(m: Config, p: SExp)
    requires m.prims == PRIMS && p.Integer? && 0 < p.value < 128
    ensures PlainPrim(m, p) <==> p.value !in SHORT_NAMES
  {
    OneByteNames(p.value);
    assert U8FromNumber(p.value) == [p.value];
  }

  lemma {:induction false} BigOpPlain(m: Config, p: SExp)
    requires m.prims == PRIMS && p.Integer? && p.value in {0x13d61f00, 0x1c3a8f00}
    ensures PlainPrim(m, p)
  {
    BigOps(p.value);
    NoFourByteNames(U8FromNumber(p.value));
  }

  /** Compiled calls of every primitive but `%` and `keccak256` mean that primitive to the stepwise
      machine.  Those two have the numbers that are the names of `=` and `>`. */
  lemma {:induction false} PlainPrimitives(m: Config, name: bytes)
    requires m.prims == PRIMS && name in PRIMS
    ensures PlainPrim(m, PRIMS[name]) <==> name !in {MODULUS, KECCAK}
  {
    TableEntry(name);
    var p := PRIMS[name];
    if p.value in {0x13d61f00, 0x1c3a8f00} {
      BigOpPlain(m, p);
    } else {
      SmallOpPlain(m, p);
    }
  }

  lemma {:induction false} LastEntries()
    ensures MODULUS in PRIMS && PRIMS[MODULUS] == Integer(61) && KECCAK in PRIMS && PRIMS[KECCAK] == Integer(62)
  {
    KeccakEntry();
    InTable(CORE, COMPARISON_AND_BYTES, ARITHMETIC, BITS, LOGIC, CURVES, LATER, MODULUS);
    InTable(CORE, COMPARISON_AND_BYTES, ARITHMETIC, BITS, LOGIC, CURVES, LATER, KECCAK);
  }

  lemma {:induction false} SpelledEntries()
    ensures [61] in PRIMS && PRIMS[[61]] == Integer(9) && [62] in PRIMS && PRIMS[[62]] == Integer(21)
  {
    EqualityEntry();
    ComparisonEntry();
  }

  lemma {:induction false} Spellings()
    ensures U8FromNumber(61) == [61] && U8FromNumber(62) == [62]
  {
  }

  /** A head whose number spells a name is taken for what has that name. */
  lemma {:induction false} NumberAsName(m: Config, n: nat, i: int, name: bytes, p: SExp, c: SExp)
    requires U8FromNumber(i) == name && name in m.prims && m.prims[name] == p
    ensures EvalHead(m, n, Integer(i), c) == Success(p)
  {
  }

  lemma {:induction false} SpelledHeads(m: Config, n: nat, c: SExp)
    requires m.prims == PRIMS
    ensures EvalHead(m, n, Integer(61), c) == Success(Integer(9)) && EvalHead(m, n, Integer(62), c) == Success(Integer(21))
  {
    SpelledEntries();
    Spellings();
    NumberAsName(m, n, 61, [61], Integer(9), c);
    NumberAsName(m, n, 62, [62], Integer(21), c);
  }

  /** What the machine makes of the two. */
  lemma {:induction false} ModulusIsEquality(m: Config, n: nat, c: SExp)
    requires m.prims == PRIMS
    ensures EvalHead(m, n, PRIMS[MODULUS], c) == Success(Integer(9))
    ensures EvalHead(m, n, PRIMS[KECCAK], c) == Success(Integer(21))
  {
    LastEntries();
    SpelledHeads(m, n, c);
  }

  lemma {:induction false} EqualityEntry()
    ensures [61] in PRIMS && PRIMS[[61]] == Integer(9)
  {
    OneByteEarly(61);
    OneByteLate(61);
  }

  lemma {:induction false} ComparisonEntry()
    ensures [62] in PRIMS && PRIMS[[62]] == Integer(21)
  {
    OneByteEarly(62);
    OneByteLate(62);
  }

  lemma {:induction false} KeccakEntry()
    ensures LATER[MODULUS] == Integer(61) && LATER[KECCAK] == Integer(62)
  {
    assert MODULUS[0] == 37 && KECCAK[0] == 107;
  }

  lemma {:induction false} OneBytePlain(m: Config, op: byte)
    requires m.prims == PRIMS && 0 < op < 128 && op !in SHORT_NAMES
    ensures PlainOp(m, op)
  {
    OneByteNames(op);
    assert U8FromNumber(op) == [op];
  }

  /** The operators that compiled code is glued together with are plain. */
  lemma {:induction false} PlainGlueHolds(m: Config)
    requires m.prims == PRIMS
    ensures PlainGlue(m)
  {
    OneBytePlain(m, 1);
    OneBytePlain(m, 2);
    OneBytePlain(m, 4);
  }

  /** A name that a program leaves alone. */
  ghost predicate Untouched(w: World, scopes: seq<Scope>, name: bytes) {
    FindDefun(w.defuns, name) == None && LookupVar(scopes, name) == Unbound
  }

  lemma {:induction false} CoreEntries()
    ensures FIRST_NAME in CORE && CORE[FIRST_NAME] == Integer(5)
    ensures REST_NAME in CORE && CORE[REST_NAME] == Integer(6)
    ensures CONS_NAME in CORE && CORE[CONS_NAME] == Integer(4)
  {
  }

  lemma {:induction false} CoreFirst(name: bytes, b: byte)
    requires name == [b] && name in CORE
    ensures name in PRIMS && PRIMS[name] == CORE[name]
  {
    OneByteCore(b);
    OneByteEarly(b);
    OneByteLate(b);
  }

  lemma {:induction false} NotAName(prims: map<bytes, SExp>, b: byte)
    requires prims == PRIMS && b !in SHORT_NAMES
    ensures [b] !in prims
  {
    OneByteNames(b);
  }

  lemma {:induction false} FirstEntry(prims: map<bytes, SExp>)
    requires prims == PRIMS
    ensures FIRST_NAME in prims && prims[FIRST_NAME] == Integer(5)
  {
    CoreEntries();
    CoreFirst(FIRST_NAME, 102);
  }

  lemma {:induction false} RestEntry(prims: map<bytes, SExp>)
    requires prims == PRIMS
    ensures REST_NAME in prims && prims[REST_NAME] == Integer(6)
  {
    CoreEntries();
    CoreFirst(REST_NAME, 114);
  }

  lemma {:induction false} ConsEntry(prims: map<bytes, SExp>)
    requires prims == PRIMS
    ensures CONS_NAME in prims && prims[CONS_NAME] == Integer(4)
  {
    CoreEntries();
    CoreFirst(CONS_NAME, 99);
  }

  lemma {:induction false} ConsByNumber(w: World, scopes: seq<Scope>)
    requires [4] !in w.prims && CONS_NAME in w.prims && w.prims[CONS_NAME] == Integer(4) && Untouched(w, scopes, [4])
    ensures MeansOp(w, scopes, [4], CONS_OP)
  {
    assert U8FromNumber(4) == [4];
    assert EqualTo(Integer(4), Atom([4]));
    assert CONS_NAME in w.prims && EqualTo(w.prims[CONS_NAME], Atom([4]));
  }

  predicate KnownOp(p: SExp) { p.Integer? && (0 < p.value < 64 || p.value in {0x13d61f00, 0x1c3a8f00}) }

  lemma {:induction false} KnownOps(prims: map<bytes, SExp>)
    requires prims == PRIMS
    ensures forall name :: name in prims ==> KnownOp(prims[name])
  {
    forall name | name in prims ensures KnownOp(prims[name]) {
      TableEntry(name);
    }
  }

  lemma {:induction false} AtIsNoPrimitive(prims: map<bytes, SExp>)
    requires AT !in prims && forall name :: name in prims ==> KnownOp(prims[name])
    ensures Primitive(prims, AT) == None
  {
    forall name | name in prims ensures !EqualTo(prims[name], Atom(AT)) {
      NotAt(prims[name].value);
    }
  }

  lemma {:induction false} NotAt(op: int)
    requires 0 < op < 64 || op in {0x13d61f00, 0x1c3a8f00}
    ensures !EqualTo(Integer(op), Atom(AT))
  {
    if op < 64 {
      assert U8FromNumber(op) == [op];
      assert U8FromNumber(op)[0] != AT[0];
    } else {
      BigOps(op);
    }
  }

  /** What inline expansion relies on in a table of primitives. */
  ghost predicate GlueEntries(prims: map<bytes, SExp>) {
    FIRST_NAME in prims && prims[FIRST_NAME] == Integer(5) && REST_NAME in prims && prims[REST_NAME] == Integer(6)
    && CONS_NAME in prims && prims[CONS_NAME] == Integer(4) && [4] !in prims && Primitive(prims, AT) == None
  }

  /** The last of them; the others are FirstEntry, RestEntry, ConsEntry and NotAName. */
  lemma {:induction false} AtIsUnknown(prims: map<bytes, SExp>)
    requires prims == PRIMS
    ensures Primitive(prims, AT) == None
  {
    NotAName(prims, 64);
    KnownOps(prims);
    AtIsNoPrimitive(prims);
  }

  /** Then what inline expansion writes means what it should wherever a program leaves the names f,
      r, @ and the byte 4 alone. */
  lemma {:induction false} GlueNamesHold(w: World, scopes: seq<Scope>)
    requires GlueEntries(w.prims)
    requires Untouched(w, scopes, FIRST_NAME) && Untouched(w, scopes, REST_NAME)
    requires Untouched(w, scopes, [4]) && Untouched(w, scopes, AT)
    ensures GlueNames(w, scopes)
  {
    ConsByNumber(w, scopes);
  }
}
