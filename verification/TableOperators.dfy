/** The table of primitives meets what compiling programs asks of operators. */
module TableOperators {
  import opened Numbers
  import opened SExpressions
  import opened Machine
  import opened Syntax
  import opened Semantics
  import opened ClvmPrograms
  import opened CodegenEnds
  import opened Gensyms
  import opened HoistingNames
  import opened Primitives
  import opened UsableCalls
  import opened LinkedPrograms

  lemma {:induction false} NoDollarNoMark(name: bytes)
    requires 36 !in name
    ensures !Marked(name)
  {
    forall k: nat | k <= |name| ensures !MarkAt(name, k) {
      assert k + 3 <= |name| ==> name[k..k + 3][1] == name[k + 1] && name[k + 1] in name;
      assert MARK[1] == 36;
    }
  }

  lemma {:induction false} NoDollarEarly(name: bytes)
    ensures name in CORE || name in COMPARISON_AND_BYTES || name in ARITHMETIC || name in BITS ==> 36 !in name
  {
  }

  lemma {:induction false} NoDollarLogic(name: bytes)
    ensures name in LOGIC || name in CURVES ==> 36 !in name
  {
  }

  lemma {:induction false} NoDollarLater(name: bytes)
    ensures name in LATER ==> 36 !in name
  {
  }

  lemma {:induction false} BigSpelled()
    ensures U8FromNumber(0x13d61f00) == [0x13, 0xd6, 0x1f, 0x00] && U8FromNumber(0x1c3a8f00) == [0x1c, 0x3a, 0x8f, 0x00]
  {
    assert U8FromNumber(0x13) == [0x13] && U8FromNumber(0x1c) == [0x1c];
    assert U8FromNumber(0x13d6) == [0x13, 0xd6] && U8FromNumber(0x1c3a) == [0x1c, 0x3a];
    assert U8FromNumber(0x13d61f) == [0x13, 0xd6, 0x1f] && U8FromNumber(0x1c3a8f) == [0x1c, 0x3a, 0x8f];
  }

  /** Nor do the numbers of operators spell anything with a marker; 36 itself is a number, but not a whole
      marker. */
  lemma {:induction false} NoMarkInNumbers(op: int, name: bytes)
    requires (0 < op < 64 || op in {0x13d61f00, 0x1c3a8f00}) && EqualTo(Integer(op), Atom(name))
    ensures !Marked(name)
  {
    if op < 64 {
      assert U8FromNumber(op) == [op];
      forall k: nat | k <= |name| ensures !MarkAt(name, k) {
      }
    } else {
      BigSpelled();
      NoDollarNoMark(name);
    }
  }

  lemma {:induction false} NoneInvented(prims: map<bytes, SExp>, count: nat)
    requires prims == PRIMS
    ensures forall name :: Primitive(prims, name).Some? ==> Before(name, count)
  {
    KnownOps(prims);
    forall name | Primitive(prims, name).Some? ensures Before(name, count) {
      if name in prims {
        NoDollarEarly(name);
        NoDollarLogic(name);
        NoDollarLater(name);
        NoDollarNoMark(name);
      } else {
        var k :| k in prims && EqualTo(prims[k], Atom(name));
        NoMarkInNumbers(prims[k].value, name);
      }
      UnmarkedIsBefore(name, count);
    }
  }

  lemma {:induction false} FourIsOperator(prims: map<bytes, SExp>)
    requires [4] !in prims && CONS_NAME in prims && prims[CONS_NAME] == Integer(4)
    ensures Primitive(prims, [4]) == Some(Atom([4]))
  {
    assert U8FromNumber(4) == [4];
    assert EqualTo(Integer(4), Atom([4]));
    assert CONS_NAME in prims && EqualTo(prims[CONS_NAME], Atom([4]));
  }

  lemma {:induction false} FourIsPlain(m: Config)
    requires [4] !in m.prims && PlainOp(m, 4)
    ensures PlainPrim(m, Atom([4])) && AtomValue(Atom([4])) == Some(CONS_OP)
  {
    assert U8FromNumber(4) == [4] && NumberFromU8([4]) == 4 by { NumberRoundTrip(4); }
  }

  /** With the compiler's own table everything that is asked of operators holds. */
  lemma {:induction false} OperatorsHold(g: Ground)
    requires g.machine.prims == PRIMS && g.prims == PRIMS
    ensures OperatorsFine(g)
  {
    PlainGlueHolds(g.machine);
    FirstEntry(g.prims);
    RestEntry(g.prims);
    ConsEntry(g.prims);
    assert FIRST_NAME[0] == 102 && REST_NAME[0] == 114 && CONS_NAME[0] == 99 && MODULUS[0] == 37 && |KECCAK| == 9;
    PlainPrimitives(g.machine, FIRST_NAME);
    PlainPrimitives(g.machine, REST_NAME);
    PlainPrimitives(g.machine, CONS_NAME);
    NotAName(g.prims, 4);
    FourIsOperator(g.prims);
    OneBytePlain(g.machine, 4);
    FourIsPlain(g.machine);
    AtIsUnknown(g.prims);
    NoneInvented(g.prims, g.count);
  }
}
