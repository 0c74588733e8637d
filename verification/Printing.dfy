/** Printing s-expressions (`Display`), and reading them back. */
module Printing {
  import opened Numbers
  import opened SExpressions
  import opened Parsing

  // ---- Printing --------------------------------------------------------------------------------

  function Decimal(n: nat): (s: bytes) {
    if n < 10 then [48 + n] else Decimal(n / 10) + [48 + n % 10]
  }

  function IntegerText(i: int): bytes { if i < 0 then [MINUS] + Decimal(-i) else Decimal(i) }

  function HexLetter(d: nat): byte
    requires d < 16
  {
    if d < 10 then 48 + d else 87 + d
  }

  /** `bin2hex`. */
  function HexText(b: bytes): bytes {
    if b == [] then [] else [HexLetter(b[0] / 16), HexLetter(b[0] % 16)] + HexText(b[1..])
  }

  /** `escape_quote`: only the string's own quote character is escaped. */
  function EscapeQuote(q: byte, s: bytes): bytes {
    if s == [] then [] else (if s[0] == q then [BACKSLASH] else []) + [s[0]] + EscapeQuote(q, s[1..])
  }

  const UNIT: bytes := [OPEN, CLOSE]

  function AtomText(a: bytes): bytes {
    if a == [] then UNIT else if Printable(a, false) then a else IntegerText(NumberFromU8(a))
  }

  function StringText(q: byte, s: bytes): bytes {
    if Printable(s, true) then [DOUBLE_QUOTE] + EscapeQuote(q, s) + [DOUBLE_QUOTE] else [ZERO, LETTER_X] + HexText(s)
  }

  /** `Display` for s-expressions. */
  function Print(s: SExp): (text: bytes)
    decreases s, 1
  {
    match s
    case Nil => UNIT
    case Cons(a, b) => [OPEN] + ListNoParens(a, b) + [CLOSE]
    case Integer(i) => IntegerText(i)
    case QuotedString(q, t) => StringText(q, t)
    case Atom(a) => AtomText(a)
  }

  /** `list_no_parens`. */
  function ListNoParens(a: SExp, b: SExp): (text: bytes)
    decreases Cons(a, b), 0
  {
    if Nilp(b) then Print(a)
    else if b.Cons? then Print(a) + [SPACE] + ListNoParens(b.first, b.rest)
    else Print(a) + [SPACE, DOT, SPACE] + Print(b)
  }

  // ---- What comes back -------------------------------------------------------------------------

  /** A word that is read as an atom of that name wherever a value may stand. */
  predicate PlainWord(w: bytes) {
    w != [] && w[0] !in {OPEN, DOT, SEMICOLON, HASH} && CLOSE !in w && !IsHex(w) && !IsDec(w)
  }

  /** S-expressions whose atoms are empty, plain words, or not printable but what the number they
      are printed as stands for: its shortest encoding, and not the byte 0, since 0 is `()`. */
  predicate WellFormed(s: SExp) {
    match s
    case Cons(a, b) => WellFormed(a) && WellFormed(b)
    case Atom(a) => a == [] || (if Printable(a, false) then PlainWord(a) else Minimal(a) && a != [0])
    case _ => true
  }

  function ReadInteger(i: int): SExp { if i == 0 then Nil else Integer(i) }

  /** The s-expression that printing and parsing leads to. */
  function Reread(s: SExp): (r: SExp) {
    match s
    case Nil => Nil
    case Cons(a, b) => Cons(Reread(a), if Nilp(b) then Nil else Reread(b))
    case Integer(i) => ReadInteger(i)
    case QuotedString(q, t) => QuotedString(if Printable(t, true) then DOUBLE_QUOTE else HEX_QUOTE, t)
    case Atom(a) => if a == [] then Nil else if Printable(a, false) then s else ReadInteger(NumberFromU8(a))
  }

  /** It denotes the same CLVM value. */
  lemma {:induction false} RereadIsEqual(s: SExp)
    requires WellFormed(s)
    ensures EqualTo(Reread(s), s) && ConvertTo(Reread(s)) == ConvertTo(s)
  {
    if s.Cons? {
      RereadIsEqual(s.first);
      RereadIsEqual(s.rest);
      NilpIsEmptyLeaf(s.rest);
    } else if s.Atom? && s.name != [] && !Printable(s.name, false) {
      MinimalRoundTrip(s.name);
      assert U8FromNumber(0) == [0];
    }
    EqualToIsClvmEquality(Reread(s), s);
  }

  // ---- Words read back -------------------------------------------------------------------------

  lemma {:induction false} DecimalReads(n: nat)
    ensures Decimal(n) != [] && AllDigits(Decimal(n)) && DigitsValue(Decimal(n)) == n
  {
    if n < 10 {
      assert [48 + n][..0] == [];
    } else {
      DecimalReads(n / 10);
      var s := Decimal(n);
      assert s[..|s| - 1] == Decimal(n / 10);
    }
  }

  lemma {:induction false} IntegerReads(prims: map<bytes, SExp>, i: int)
    ensures MakeAtom(prims, IntegerText(i)) == Some(ReadInteger(i))
    ensures TokenWord(IntegerText(i))
  {
    var n: nat := if i < 0 then -i else i;
    DecimalReads(n);
    var text := IntegerText(i);
    if i < 0 {
      assert text[1..] == Decimal(n);
    }
  }

  lemma {:induction false} HexReads(b: bytes)
    ensures HexBytes(HexText(b)) == Some(b) && |HexText(b)| == 2 * |b|
    ensures forall i :: 0 <= i < |HexText(b)| ==> HexDigit(HexText(b)[i]).Some?
  {
    if b != [] {
      HexReads(b[1..]);
      var text := HexText(b);
      assert text[2..] == HexText(b[1..]);
      assert [b[0]] + b[1..] == b;
    }
  }

  /** A word that nothing inside a list interrupts. */
  predicate TokenWord(w: bytes) {
    w != [] && w[0] !in {OPEN, DOT, SEMICOLON, HASH, DOUBLE_QUOTE, SINGLE_QUOTE}
    && forall i :: 0 <= i < |w| ==> w[i] != CLOSE && !IsWhitespace(w[i])
  }

  /** Whether an s-expression prints as a word. */
  predicate IsWord(s: SExp) {
    match s
    case Integer(_) => true
    case QuotedString(_, t) => !Printable(t, true)
    case Atom(a) => a != []
    case _ => false
  }

  lemma {:induction false} WordReads(prims: map<bytes, SExp>, s: SExp)
    requires WellFormed(s) && IsWord(s)
    ensures TokenWord(Print(s)) && MakeAtom(prims, Print(s)) == Some(Reread(s))
  {
    match s
    case Integer(i) => IntegerReads(prims, i);
    case QuotedString(q, t) =>
      HexReads(t);
      var text := Print(s);
      assert text[2..] == HexText(t);
      forall i | 2 <= i < |text| ensures text[i] != CLOSE && !IsWhitespace(text[i]) {
        assert HexDigit(HexText(t)[i - 2]).Some?;
      }
    case Atom(a) =>
      if Printable(a, false) {
        forall i | 0 <= i < |a| ensures a[i] != CLOSE && !IsWhitespace(a[i]) { assert PrintableByte(a[i], false); }
        assert PrintableByte(a[0], false);
      } else {
        IntegerReads(prims, NumberFromU8(a));
      }
  }

  // ---- Absorbing characters --------------------------------------------------------------------

  /** Characters that an enclosing list takes for itself. */
  predicate Special(state: ParseState, ch: byte) {
    (state.Empty? && (ch == DOT || ch == CLOSE)) || (state.Bareword? && ch == CLOSE)
  }

  /** The state after characters that complete nothing and mean nothing to an enclosing list. */
  function Absorb(prims: map<bytes, SExp>, state: ParseState, text: bytes): (r: Option<ParseState>)
    decreases |text|
  {
    if text == [] then Some(state)
    else if Special(state, text[0]) then None
    else match ParseStep(prims, state, text[0])
      case Resume(next) => Absorb(prims, next, text[1..])
      case _ => None
  }

  lemma {:induction false} AbsorbBoth(prims: map<bytes, SExp>, state: ParseState, t1: bytes, t2: bytes)
    requires Absorb(prims, state, t1).Some?
    ensures Absorb(prims, state, t1 + t2) == Absorb(prims, Absorb(prims, state, t1).value, t2)
    decreases |t1|
  {
    if t1 == [] {
      assert t1 + t2 == t2;
    } else {
      assert (t1 + t2)[0] == t1[0] && (t1 + t2)[1..] == t1[1..] + t2;
      AbsorbBoth(prims, ParseStep(prims, state, t1[0]).next, t1[1..], t2);
    }
  }

  lemma {:induction false} AbsorbFeeds(prims: map<bytes, SExp>, res: seq<SExp>, state: ParseState, text: bytes)
    requires Absorb(prims, state, text).Some?
    ensures Feed(prims, Progress(res, state), text) == Progress(res, Absorb(prims, state, text).value)
    decreases |text|
  {
    if text != [] {
      AbsorbFeeds(prims, res, ParseStep(prims, state, text[0]).next, text[1..]);
    }
  }

  /** A character that is not special goes to the state inside a list. */
  lemma {:induction false} InnerStep(prims: map<bytes, SExp>, inner: ParseState, content: seq<SExp>, ch: byte)
    requires !Special(inner, ch)
    ensures ParseStep(prims, ParsingList(inner, content, false), ch) ==
            match ParseStep(prims, inner, ch)
            case ParseError => ParseError
            case Emit(o, next) => Resume(ParsingList(next, content + [o], false))
            case Resume(next) => Resume(ParsingList(next, content, false))
    ensures ParseStep(prims, TermList(None, inner, content), ch) ==
            match ParseStep(prims, inner, ch)
            case ParseError => ParseError
            case Emit(o, _) => Resume(TermList(Some(o), Empty, content))
            case Resume(next) => Resume(TermList(None, next, content))
  {
    assert ParseStep(prims, ParsingList(inner, content, false), ch) == ListStep(prims, inner, content, false, ch);
    assert ParseStep(prims, TermList(None, inner, content), ch) == TermStep(prims, inner, content, ch);
  }

  /** What a state absorbs, a list around it absorbs too. */
  lemma {:induction false} ListAbsorbs(prims: map<bytes, SExp>, inner: ParseState, content: seq<SExp>, text: bytes)
    requires Absorb(prims, inner, text).Some?
    ensures Absorb(prims, ParsingList(inner, content, false), text)
            == Some(ParsingList(Absorb(prims, inner, text).value, content, false))
    ensures Absorb(prims, TermList(None, inner, content), text)
            == Some(TermList(None, Absorb(prims, inner, text).value, content))
    decreases |text|
  {
    if text != [] {
      InnerStep(prims, inner, content, text[0]);
      ListAbsorbs(prims, ParseStep(prims, inner, text[0]).next, content, text[1..]);
    }
  }

  lemma {:induction false} WordAbsorbed(prims: map<bytes, SExp>, start: bytes, more: bytes)
    requires forall i :: 0 <= i < |more| ==> more[i] != CLOSE && !IsWhitespace(more[i])
    ensures Absorb(prims, Bareword(start), more) == Some(Bareword(start + more))
    decreases |more|
  {
    if more == [] {
      assert start + more == start;
    } else {
      WordAbsorbed(prims, start + [more[0]], more[1..]);
      assert (start + [more[0]]) + more[1..] == start + more;
    }
  }

  lemma {:induction false} TokenAbsorbed(prims: map<bytes, SExp>, w: bytes)
    requires TokenWord(w)
    ensures Absorb(prims, Empty, w) == Some(Bareword(w))
  {
    WordAbsorbed(prims, [w[0]], w[1..]);
    assert [w[0]] + w[1..] == w;
  }

  /** One character of a string, escaped or not. */
  lemma {:induction false} CharacterAbsorbed(prims: map<bytes, SExp>, q: byte, start: bytes, ch: byte, rest: bytes)
    requires PrintableByte(ch, true)
    ensures var state := QuotedText(DOUBLE_QUOTE, start);
            Absorb(prims, state, (if ch == q then [BACKSLASH] else []) + [ch] + rest)
            == Absorb(prims, QuotedText(DOUBLE_QUOTE, start + [ch]), rest)
  {
    var state := QuotedText(DOUBLE_QUOTE, start);
    if ch == q {
      AbsorbOne(prims, state, BACKSLASH);
      AbsorbOne(prims, QuotedEscaped(DOUBLE_QUOTE, start), ch);
      assert [BACKSLASH] + [ch] + rest == [BACKSLASH] + ([ch] + rest);
      AbsorbBoth(prims, state, [BACKSLASH], [ch] + rest);
      AbsorbBoth(prims, QuotedEscaped(DOUBLE_QUOTE, start), [ch], rest);
    } else {
      AbsorbOne(prims, state, ch);
      assert [] + [ch] + rest == [ch] + rest;
      AbsorbBoth(prims, state, [ch], rest);
    }
  }

  lemma {:induction false} QuotedAbsorbed(prims: map<bytes, SExp>, q: byte, start: bytes, more: bytes)
    requires Printable(more, true)
    ensures Absorb(prims, QuotedText(DOUBLE_QUOTE, start), EscapeQuote(q, more)) == Some(QuotedText(DOUBLE_QUOTE, start + more))
    decreases |more|
  {
    if more == [] {
      assert start + more == start;
    } else {
      assert PrintableByte(more[0], true);
      CharacterAbsorbed(prims, q, start, more[0], EscapeQuote(q, more[1..]));
      QuotedAbsorbed(prims, q, start + [more[0]], more[1..]);
      assert (start + [more[0]]) + more[1..] == start + more;
    }
  }

  // ---- Values read back ------------------------------------------------------------------------

  /** A text that is complete with its last character. */
  predicate ReadsAs(prims: map<bytes, SExp>, text: bytes, s: SExp) {
    text != [] && text[0] !in {DOT, CLOSE}
    && var before := Absorb(prims, Empty, text[..|text| - 1]);
       before.Some? && !Special(before.value, text[|text| - 1])
       && ParseStep(prims, before.value, text[|text| - 1]) == Emit(s, Empty)
  }

  /** After an element and a blank a list holds the element. */
  lemma {:induction false} ElementRead(prims: map<bytes, SExp>, content: seq<SExp>, s: SExp)
    requires WellFormed(s) && (!IsWord(s) ==> ReadsAs(prims, Print(s), Reread(s)))
    ensures Absorb(prims, ParsingList(Empty, content, false), Print(s) + [SPACE])
            == Some(ParsingList(Empty, content + [Reread(s)], false))
  {
    var list, text := ParsingList(Empty, content, false), Print(s);
    if IsWord(s) {
      WordReads(prims, s);
      TokenAbsorbed(prims, text);
      ListAbsorbs(prims, Empty, content, text);
      AbsorbBoth(prims, list, text, [SPACE]);
      InnerStep(prims, Bareword(text), content, SPACE);
      AbsorbOne(prims, ParsingList(Bareword(text), content, false), SPACE);
    } else {
      ClosedElementRead(prims, content, s);
      AbsorbBoth(prims, list, text, [SPACE]);
      InnerStep(prims, Empty, content + [Reread(s)], SPACE);
      AbsorbOne(prims, ParsingList(Empty, content + [Reread(s)], false), SPACE);
    }
  }

  lemma {:induction false} AbsorbOne(prims: map<bytes, SExp>, state: ParseState, ch: byte)
    requires !Special(state, ch) && ParseStep(prims, state, ch).Resume?
    ensures Absorb(prims, state, [ch]) == Some(ParseStep(prims, state, ch).next)
  {
    assert [ch][1..] == [];
    assert Absorb(prims, ParseStep(prims, state, ch).next, []) == Some(ParseStep(prims, state, ch).next);
  }

  lemma {:induction false} ClosedElementRead(prims: map<bytes, SExp>, content: seq<SExp>, s: SExp)
    requires ReadsAs(prims, Print(s), Reread(s))
    ensures Absorb(prims, ParsingList(Empty, content, false), Print(s)) == Some(ParsingList(Empty, content + [Reread(s)], false))
    ensures Absorb(prims, TermList(None, Empty, content), Print(s)) == Some(TermList(Some(Reread(s)), Empty, content))
  {
    var text := Print(s);
    var front, last := text[..|text| - 1], text[|text| - 1];
    assert text == front + [last];
    var before := Absorb(prims, Empty, front).value;
    ListAbsorbs(prims, Empty, content, front);
    InnerStep(prims, before, content, last);
    AbsorbBoth(prims, ParsingList(Empty, content, false), front, [last]);
    AbsorbOne(prims, ParsingList(before, content, false), last);
    AbsorbBoth(prims, TermList(None, Empty, content), front, [last]);
    AbsorbOne(prims, TermList(None, before, content), last);
  }

  // ---- Lists read back -------------------------------------------------------------------------

  /** After a text the state is one that a closing parenthesis turns into a value. */
  predicate ClosesAs(prims: map<bytes, SExp>, state: ParseState, text: bytes, s: SExp) {
    var after := Absorb(prims, state, text);
    after.Some? && !after.value.Empty? && !after.value.Bareword? && ParseStep(prims, after.value, CLOSE) == Emit(s, Empty)
  }

  lemma {:induction false} EnlistSnoc(l: seq<SExp>, x: SExp, tail: SExp)
    ensures Enlist(l + [x], tail) == Enlist(l, Cons(x, tail))
  {
    if l == [] {
      assert ([] + [x])[1..] == [];
    } else {
      assert (l + [x])[1..] == l[1..] + [x];
      EnlistSnoc(l[1..], x, tail);
    }
  }

  /** The last element of a proper list. */
  lemma {:induction false} LastElementRead(prims: map<bytes, SExp>, content: seq<SExp>, s: SExp)
    requires WellFormed(s) && (!IsWord(s) ==> ReadsAs(prims, Print(s), Reread(s)))
    ensures ClosesAs(prims, ParsingList(Empty, content, false), Print(s), Enlist(content, Cons(Reread(s), Nil)))
  {
    EnlistSnoc(content, Reread(s), Nil);
    if IsWord(s) {
      WordReads(prims, s);
      TokenAbsorbed(prims, Print(s));
      ListAbsorbs(prims, Empty, content, Print(s));
      assert ListStep(prims, Bareword(Print(s)), content, false, CLOSE) == Emit(CloseList(content + [Reread(s)], false), Empty);
    } else {
      ClosedElementRead(prims, content, s);
      assert ListStep(prims, Empty, content + [Reread(s)], false, CLOSE) == Emit(CloseList(content + [Reread(s)], false), Empty);
    }
  }

  /** After a dot and a blank comes the tail. */
  lemma {:induction false} DotRead(prims: map<bytes, SExp>, content: seq<SExp>, text: bytes)
    ensures Absorb(prims, ParsingList(Empty, content, false), [DOT, SPACE] + text) ==
            Absorb(prims, TermList(None, Empty, content), text)
  {
    var list, term := ParsingList(Empty, content, false), TermList(None, Empty, content);
    assert ParseStep(prims, list, DOT) == ListStep(prims, Empty, content, false, DOT);
    AbsorbOne(prims, list, DOT);
    InnerStep(prims, Empty, content, SPACE);
    AbsorbOne(prims, term, SPACE);
    AbsorbBoth(prims, list, [DOT], [SPACE] + text);
    AbsorbBoth(prims, term, [SPACE], text);
    assert [DOT] + ([SPACE] + text) == [DOT, SPACE] + text;
  }

  /** The tail of a dotted list. */
  lemma {:induction false} TailRead(prims: map<bytes, SExp>, content: seq<SExp>, s: SExp)
    requires WellFormed(s) && (!IsWord(s) ==> ReadsAs(prims, Print(s), Reread(s))) && content != []
    ensures ClosesAs(prims, ParsingList(Empty, content, false), [DOT, SPACE] + Print(s), Enlist(content, Reread(s)))
  {
    var text := Print(s);
    DotRead(prims, content, text);
    if IsWord(s) {
      WordReads(prims, s);
      TokenAbsorbed(prims, text);
      ListAbsorbs(prims, Empty, content, text);
      assert TermStep(prims, Bareword(text), content, CLOSE) == Emit(Enlist(content, Reread(s)), Empty);
    } else {
      ClosedElementRead(prims, content, s);
      assert ClosingStep(prims, Reread(s), Empty, content, CLOSE) == Emit(Enlist(content, Reread(s)), Empty);
    }
  }

  lemma {:induction false} ClosesLater(prims: map<bytes, SExp>, state: ParseState, t1: bytes, t2: bytes, s: SExp)
    requires Absorb(prims, state, t1).Some? && ClosesAs(prims, Absorb(prims, state, t1).value, t2, s)
    ensures ClosesAs(prims, state, t1 + t2, s)
  {
    AbsorbBoth(prims, state, t1, t2);
  }

  /** The end of a dotted list. */
  lemma {:induction false} DottedRead(prims: map<bytes, SExp>, content: seq<SExp>, a: SExp, b: SExp)
    requires WellFormed(a) && WellFormed(b) && !Nilp(b) && !b.Cons?
    requires (!IsWord(a) ==> ReadsAs(prims, Print(a), Reread(a))) && (!IsWord(b) ==> ReadsAs(prims, Print(b), Reread(b)))
    ensures ClosesAs(prims, ParsingList(Empty, content, false), ListNoParens(a, b), Enlist(content, Reread(Cons(a, b))))
  {
    var more := content + [Reread(a)];
    EnlistSnoc(content, Reread(a), Reread(b));
    ElementRead(prims, content, a);
    TailRead(prims, more, b);
    ClosesLater(prims, ParsingList(Empty, content, false), Print(a) + [SPACE], [DOT, SPACE] + Print(b), Enlist(more, Reread(b)));
    DotBetween(Print(a), Print(b));
    assert ListNoParens(a, b) == Print(a) + [SPACE, DOT, SPACE] + Print(b);
    assert Reread(Cons(a, b)) == Cons(Reread(a), Reread(b));
  }

  lemma {:induction false} DotBetween(x: bytes, y: bytes)
    ensures x + [SPACE] + ([DOT, SPACE] + y) == x + [SPACE, DOT, SPACE] + y
  {
  }

  lemma {:induction false} BodyRead(prims: map<bytes, SExp>, content: seq<SExp>, a: SExp, b: SExp)
    requires WellFormed(a) && WellFormed(b)
    ensures ClosesAs(prims, ParsingList(Empty, content, false), ListNoParens(a, b), Enlist(content, Reread(Cons(a, b))))
    decreases Cons(a, b), 0
  {
    if !IsWord(a) {
      ValueReads(prims, a);
    }
    if Nilp(b) {
      LastElementRead(prims, content, a);
    } else if b.Cons? {
      var more := content + [Reread(a)];
      EnlistSnoc(content, Reread(a), Reread(b));
      ElementRead(prims, content, a);
      BodyRead(prims, more, b.first, b.rest);
      ClosesLater(prims, ParsingList(Empty, content, false), Print(a) + [SPACE], ListNoParens(b.first, b.rest), Enlist(more, Reread(b)));
    } else {
      if !IsWord(b) {
        ValueReads(prims, b);
      }
      DottedRead(prims, content, a, b);
    }
  }

  lemma {:induction false} ValueReads(prims: map<bytes, SExp>, s: SExp)
    requires WellFormed(s) && !IsWord(s)
    ensures ReadsAs(prims, Print(s), Reread(s))
    decreases s, 1
  {
    var text := Print(s);
    if s.Cons? {
      var body := ListNoParens(s.first, s.rest);
      BodyRead(prims, [], s.first, s.rest);
      BodyStarts(prims, s.first, s.rest);
      assert text[..|text| - 1] == [OPEN] + body;
      OpenThenBody(prims, body);
    } else if s.QuotedString? {
      var inside := EscapeQuote(s.quote, s.text);
      AbsorbOne(prims, Empty, DOUBLE_QUOTE);
      QuotedAbsorbed(prims, s.quote, [], s.text);
      AbsorbBoth(prims, Empty, [DOUBLE_QUOTE], inside);
      assert text[..|text| - 1] == [DOUBLE_QUOTE] + inside;
      assert [] + s.text == s.text;
    } else {
      assert text[..|text| - 1] == [OPEN];
      AbsorbOne(prims, Empty, OPEN);
    }
  }

  lemma {:induction false} BodyStarts(prims: map<bytes, SExp>, a: SExp, b: SExp)
    requires WellFormed(a) && WellFormed(b)
    ensures ListNoParens(a, b) != [] && ListNoParens(a, b)[0] !in {DOT, CLOSE}
    decreases Cons(a, b), 0
  {
    if IsWord(a) {
      WordReads(prims, a);
    } else {
      ValueReads(prims, a);
    }
  }

  /** What follows an opening parenthesis is read as in a list with nothing in it yet. */
  lemma {:induction false} OpenThenBody(prims: map<bytes, SExp>, body: bytes)
    requires body != [] && body[0] !in {DOT, CLOSE} && Absorb(prims, ParsingList(Empty, [], false), body).Some?
    ensures Absorb(prims, Empty, [OPEN] + body) == Absorb(prims, ParsingList(Empty, [], false), body)
  {
    AbsorbOne(prims, Empty, OPEN);
    AbsorbBoth(prims, Empty, [OPEN], body);
    InnerStep(prims, Empty, [], body[0]);
    assert [] + [body[0]] == [body[0]];
  }

  /** Printing and parsing: the text of a well-formed s-expression is one value, which denotes what
      the original does. */
  lemma {:induction false} PrintThenParse(prims: map<bytes, SExp>, s: SExp)
    requires WellFormed(s)
    ensures ParseText(prims, Print(s)) == Some([Reread(s)]) && EqualTo(Reread(s), s)
  {
    RereadIsEqual(s);
    var text := Print(s);
    if IsWord(s) {
      WordReads(prims, s);
      TokenAbsorbed(prims, text);
      AbsorbFeeds(prims, [], Empty, text);
    } else {
      ValueReads(prims, s);
      var front, last := text[..|text| - 1], text[|text| - 1];
      AbsorbFeeds(prims, [], Empty, front);
      FeedLast(prims, Progress([], Empty), front, last);
      assert text == front + [last] && [] + [Reread(s)] == [Reread(s)];
    }
  }

  lemma {:induction false} FeedLast(prims: map<bytes, SExp>, p: Progress, front: bytes, last: byte)
    requires Feed(prims, p, front).Progress?
    ensures Feed(prims, p, front + [last]) == PushChar(prims, Feed(prims, p, front), last)
    decreases |front|
  {
    if front == [] {
      assert [] + [last] == [last] && [last][1..] == [];
    } else {
      assert (front + [last])[1..] == front[1..] + [last];
      FeedLast(prims, PushChar(prims, p, front[0]), front[1..], last);
    }
  }

  /** A text at whose very end a bare word stands after other objects. */
  predicate EndsInWord(p: Progress) { p.Progress? && p.state.Bareword? && p.res != [] }

  /** Strings end with the mark they began with. */
  predicate ProperMark(state: ParseState) {
    match state
    case QuotedText(term, _) => term in {DOUBLE_QUOTE, SINGLE_QUOTE}
    case QuotedEscaped(term, _) => term in {DOUBLE_QUOTE, SINGLE_QUOTE}
    case _ => true
  }

  lemma {:induction false} MarkStaysProper(prims: map<bytes, SExp>, state: ParseState, ch: byte)
    requires ProperMark(state)
    ensures !ParseStep(prims, state, ch).ParseError? ==> ProperMark(ParseStep(prims, state, ch).next)
  {
    if state.StartStructuredList? && ch != OPEN {
      assert ParseStep(prims, state, ch) == ParseStep(prims, Bareword([HASH]), ch);
      if IsWhitespace(ch) {
        assert ParseStep(prims, Bareword([HASH]), ch) == EmitAtom(prims, [HASH]);
      } else {
        assert ParseStep(prims, Bareword([HASH]), ch) == Resume(Bareword([HASH] + [ch]));
      }
    }
  }

  lemma {:induction false} MarksStayProper(prims: map<bytes, SExp>, p: Progress, text: bytes)
    requires p.Progress? ==> ProperMark(p.state)
    ensures var r := Feed(prims, p, text); r.Progress? ==> ProperMark(r.state)
    decreases |text|
  {
    if p.Progress? && text != [] {
      MarkStaysProper(prims, p.state, text[0]);
      MarksStayProper(prims, PushChar(prims, p, text[0]), text[1..]);
    }
  }

  /** A blank ends a bare word, and neither a list nor a string. */
  lemma {:induction false} BlankStep(prims: map<bytes, SExp>, state: ParseState)
    requires ProperMark(state)
    ensures var r := ParseStep(prims, state, SPACE);
            match state
            case Empty => r == Resume(Empty)
            case CommentText => r == Resume(CommentText)
            case Bareword(word) => r == EmitAtom(prims, word)
            case StartStructuredList => r == Emit(Atom([HASH]), Empty)
            case _ => !r.Emit? && (r.Resume? ==> !r.next.Empty? && !r.next.CommentText? && !r.next.Bareword?)
  {
    if state.StartStructuredList? {
      assert !IsHex([HASH]) && !IsDec([HASH]);
      assert ParseStep(prims, Bareword([HASH]), SPACE) == EmitAtom(prims, [HASH]);
    }
  }

  /** Texts are read whole only up to their last word.  A blank after a text changes what is read
      exactly when the text ends inside a bare word and something was read before it: without the blank
      the word replaces all of that.  And a text that cannot be read becomes readable by a blank exactly
      when it ends in a lone #. */
  lemma {:induction false} LastWordAlone(prims: map<bytes, SExp>, text: bytes)
    ensures var p, now, ended := Feed(prims, Progress([], Empty), text), ParseText(prims, text), ParseText(prims, text + [SPACE]);
            (now.Some? ==> ended == Some(if EndsInWord(p) then p.res + now.value else now.value))
            && (now.Some? ==> (now == ended <==> !EndsInWord(p)))
            && (now == None ==> (ended.Some? <==> p.Progress? && p.state == StartStructuredList))
  {
    var p := Feed(prims, Progress([], Empty), text);
    if p.Progress? {
      FeedLast(prims, Progress([], Empty), text, SPACE);
      MarksStayProper(prims, Progress([], Empty), text);
      BlankStep(prims, p.state);
      if p.state.Bareword? && MakeAtom(prims, p.state.word).Some? {
        var a := MakeAtom(prims, p.state.word).value;
        assert |p.res + [a]| == |p.res| + 1;
        assert p.res == [] ==> p.res + [a] == [a];
      }
    } else {
      FeedFailed(prims, Progress([], Empty), text, [SPACE]);
    }
  }

  lemma {:induction false} FeedFailed(prims: map<bytes, SExp>, p: Progress, text: bytes, more: bytes)
    requires Feed(prims, p, text).Failed?
    ensures Feed(prims, p, text + more).Failed?
    decreases |text|
  {
    if p.Progress? {
      assert (text + more)[1..] == text[1..] + more;
      FeedFailed(prims, PushChar(prims, p, text[0]), text[1..], more);
    }
  }

  /** One such text: "() a" against "() a ". */
  lemma {:induction false} LastWordLost(prims: map<bytes, SExp>)
    ensures ParseText(prims, [OPEN, CLOSE, SPACE, 97]) == Some([Atom([97])])
    ensures ParseText(prims, [OPEN, CLOSE, SPACE, 97, SPACE]) == Some([Nil, Atom([97])])
  {
    var p0 := Progress([], Empty);
    var p1, p2, p3 := Progress([], OpenList(false)), Progress([Nil], Empty), Progress([Nil], Bareword([97]));
    assert Feed(prims, p3, []) == p3;
    assert Feed(prims, p2, [97]) == p3;
    assert Feed(prims, p2, [SPACE, 97]) == p3;
    assert PushChar(prims, p1, CLOSE) == p2 by { assert [] + [Nil] == [Nil]; }
    assert [CLOSE, SPACE, 97][1..] == [SPACE, 97] && [CLOSE, SPACE, 97, SPACE][1..] == [SPACE, 97, SPACE];
    assert Feed(prims, p1, [CLOSE, SPACE, 97]) == p3;
    assert !IsHex([97]) && !IsDec([97]);
    assert Feed(prims, p3, [SPACE]) == Progress([Nil, Atom([97])], Empty) by {
      assert PushChar(prims, p3, SPACE) == Progress([Nil] + [Atom([97])], Empty);
    }
    assert Feed(prims, p2, [97, SPACE]) == Feed(prims, p3, [SPACE]);
    assert Feed(prims, p2, [SPACE, 97, SPACE]) == Feed(prims, p3, [SPACE]);
    assert Feed(prims, p1, [CLOSE, SPACE, 97, SPACE]) == Feed(prims, p3, [SPACE]);
    assert [OPEN, CLOSE, SPACE, 97, SPACE][1..] == [CLOSE, SPACE, 97, SPACE];
    assert PushChar(prims, p0, OPEN) == p1;
  }
}
