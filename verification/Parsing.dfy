/** The byte-at-a-time s-expression parser: `parse_sexp_step` and `ParsePartialResult`. */
module Parsing {
  import opened Numbers
  import opened SExpressions

  // ---- Characters ------------------------------------------------------------------------------

  const OPEN: byte := 40
  const CLOSE: byte := 41
  const DOT: byte := 46
  const SEMICOLON: byte := 59
  const HASH: byte := 35
  const DOUBLE_QUOTE: byte := 34
  const SINGLE_QUOTE: byte := 39
  const BACKSLASH: byte := 92
  const NEWLINE: byte := 10
  const SPACE: byte := 32
  const MINUS: byte := 45
  const ZERO: byte := 48
  const LETTER_X: byte := 120

  /** `char::is_whitespace` on the characters a byte can stand for. */
  predicate IsWhitespace(ch: byte) { 9 <= ch <= 13 || ch == SPACE || ch == 0x85 || ch == 0xA0 }

  predicate IsDigit(ch: byte) { 48 <= ch <= 57 }

  function HexDigit(ch: byte): (r: Option<byte>)
    ensures r.Some? ==> r.value < 16
  {
    if 48 <= ch <= 57 then Some(ch - 48)
    else if 97 <= ch <= 102 then Some(ch - 87)
    else if 65 <= ch <= 70 then Some(ch - 55)
    else None
  }

  // ---- Words -----------------------------------------------------------------------------------

  /** `is_hex`. */
  predicate IsHex(s: bytes) { |s| >= 2 && s[0] == ZERO && s[1] == LETTER_X }

  predicate AllDigits(s: bytes) { forall i :: 0 <= i < |s| ==> IsDigit(s[i]) }

  /** `is_dec`: digits, perhaps after a minus sign, which may not stand alone. */
  predicate IsDec(s: bytes) {
    s != [MINUS] && if s != [] && s[0] == MINUS then AllDigits(s[1..]) else AllDigits(s)
  }

  function DigitsValue(s: bytes): (n: nat)
    requires AllDigits(s)
  {
    if s == [] then 0 else 10 * DigitsValue(s[..|s| - 1]) + (s[|s| - 1] - 48) as int
  }

  /** `normalize_int` in base ten. */
  function DecimalValue(s: bytes): int
    requires IsDec(s)
  {
    if s != [] && s[0] == MINUS then -(DigitsValue(s[1..]) as int) else DigitsValue(s)
  }

  /** Pairs of hex digits as bytes; None when something is not a digit or one digit is left over. */
  function HexBytes(s: bytes): (r: Option<bytes>) {
    if s == [] then Some([])
    else if |s| == 1 then None
    else
      match (HexDigit(s[0]), HexDigit(s[1]), HexBytes(s[2..]))
      case (Some(h), Some(l), Some(rest)) => Some([h * 16 + l] + rest)
      case _ => None
  }

  /** `from_hex`: an odd number of digits is padded on the left. */
  function FromHex(s: bytes): (r: Option<SExp>)
    requires IsHex(s)
  {
    match HexBytes(if |s| % 2 == 1 then [ZERO] + s[2..] else s[2..])
    case None => None
    case Some(b) => Some(QuotedString(HEX_QUOTE, b))
  }

  /** `make_atom` without the new bit constants.  `prims` are the names that # can precede.  A word
      that starts like hex but is not is not modelled and counts as an error. */
  function MakeAtom(prims: map<bytes, SExp>, v: bytes): (r: Option<SExp>) {
    if |v| > 1 && v[0] == HASH then Some(if v[1..] in prims then prims[v[1..]] else Atom(v[1..]))
    else if IsHex(v) then FromHex(v)
    else if IsDec(v) then Some(if DecimalValue(v) == 0 then Nil else Integer(DecimalValue(v)))
    else Some(Atom(v))
  }

  // ---- Lists -----------------------------------------------------------------------------------

  /** Elements consed onto a tail. */
  function Enlist(l: seq<SExp>, tail: SExp): (s: SExp) {
    if l == [] then tail else Cons(l[0], Enlist(l[1..], tail))
  }

  /** The loop of `enlist`, and of the code that closes a dotted list. */
  method EnlistLoop(v: seq<SExp>, tail: SExp) returns (result: SExp)
    ensures result == Enlist(v, tail)
  {
    result := tail;
    for i := |v| downto 0
      invariant result == Enlist(v[i..], tail)
    {
      assert v[i..][1..] == v[i + 1..];
      result := Cons(v[i], result);
    }
    assert v[0..] == v;
  }

  /** `restructure_list`: a balanced tree of the elements. */
  function RestructureList(l: seq<SExp>): (s: SExp)
    decreases |l|
  {
    if |l| == 1 then l[0]
    else if l == [] then Nil
    else Cons(RestructureList(l[..|l| / 2]), RestructureList(l[|l| / 2..]))
  }

  function CloseList(l: seq<SExp>, structured: bool): SExp {
    if structured then RestructureList(l) else Enlist(l, Nil)
  }

  // ---- The state machine -----------------------------------------------------------------------

  datatype ParseState =
    | Empty
    | CommentText
    | Bareword(word: bytes)
    | QuotedText(term: byte, text: bytes)
    | QuotedEscaped(term: byte, text: bytes)
    | OpenList(isStructured: bool)
    | ParsingList(inner: ParseState, content: seq<SExp>, structured: bool)
    | TermList(parsed: Option<SExp>, inner: ParseState, content: seq<SExp>)
    | StartStructuredList

  datatype Parse = Resume(next: ParseState) | Emit(found: SExp, next: ParseState) | ParseError

  function Nesting(s: ParseState): nat {
    match s
    case ParsingList(inner, _, _) => 2 + Nesting(inner)
    case TermList(_, inner, _) => 2 + Nesting(inner)
    case OpenList(_) => 1
    case StartStructuredList => 1
    case _ => 0
  }

  function EmitAtom(prims: map<bytes, SExp>, word: bytes): Parse {
    match MakeAtom(prims, word) case None => ParseError case Some(a) => Emit(a, Empty)
  }

  /** `parse_sexp_step`. */
  function ParseStep(prims: map<bytes, SExp>, state: ParseState, ch: byte): (r: Parse)
    decreases Nesting(state)
  {
    match state
    case Empty =>
      if ch == OPEN then Resume(OpenList(false))
      else if ch == NEWLINE then Resume(Empty)
      else if ch == SEMICOLON then Resume(CommentText)
      else if ch == CLOSE then ParseError
      else if ch == DOUBLE_QUOTE || ch == SINGLE_QUOTE then Resume(QuotedText(ch, []))
      else if ch == HASH then Resume(StartStructuredList)
      else if IsWhitespace(ch) then Resume(Empty)
      else Resume(Bareword([ch]))
    case CommentText => Resume(if ch == NEWLINE then Empty else CommentText)
    case Bareword(word) => if IsWhitespace(ch) then EmitAtom(prims, word) else Resume(Bareword(word + [ch]))
    case QuotedText(term, t) =>
      if ch == BACKSLASH then Resume(QuotedEscaped(term, t))
      else if ch == term then Emit(QuotedString(term, t), Empty)
      else Resume(QuotedText(term, t + [ch]))
    case QuotedEscaped(term, t) => Resume(QuotedText(term, t + [ch]))
    case OpenList(structured) =>
      if ch == CLOSE then Emit(Nil, Empty)
      else if ch == DOT then ParseError
      else
        (match ParseStep(prims, Empty, ch)
         case ParseError => ParseError
         case Emit(o, next) => Resume(ParsingList(next, [o], structured))
         case Resume(next) => Resume(ParsingList(next, [], structured)))
    case ParsingList(inner, content, structured) => ListStep(prims, inner, content, structured, ch)
    case TermList(Some(parsed), inner, content) => ClosingStep(prims, parsed, inner, content, ch)
    case TermList(None, inner, content) => TermStep(prims, inner, content, ch)
    case StartStructuredList =>
      if ch == OPEN then Resume(ParsingList(Empty, [], true)) else ParseStep(prims, Bareword([HASH]), ch)
  }

  /** In the middle of a list. */
  function ListStep(prims: map<bytes, SExp>, inner: ParseState, content: seq<SExp>, structured: bool, ch: byte): (r: Parse)
    decreases Nesting(inner) + 1
  {
    if ch == DOT && inner.Empty? then (if structured then ParseError else Resume(TermList(None, Empty, content)))
    else if ch == CLOSE && inner.Empty? then Emit(CloseList(content, structured), Empty)
    else if ch == CLOSE && inner.Bareword? then
      match MakeAtom(prims, inner.word)
      case None => ParseError
      case Some(a) => Emit(CloseList(content + [a], structured), Empty)
    else
      match ParseStep(prims, inner, ch)
      case ParseError => ParseError
      case Emit(o, next) => Resume(ParsingList(next, content + [o], structured))
      case Resume(next) => Resume(ParsingList(next, content, structured))
  }

  /** After a dot, before the object that follows it is complete. */
  function TermStep(prims: map<bytes, SExp>, inner: ParseState, content: seq<SExp>, ch: byte): (r: Parse)
    decreases Nesting(inner) + 1
  {
    if ch == DOT && inner.Empty? then ParseError
    else if ch == CLOSE && inner.Empty? then Emit(if |content| == 1 then content[0] else Enlist(content, Nil), Empty)
    else if ch == CLOSE && inner.Bareword? then
      match MakeAtom(prims, inner.word)
      case None => ParseError
      case Some(a) => if content == [] then ParseError else Emit(Enlist(content, a), Empty)
    else
      match ParseStep(prims, inner, ch)
      case ParseError => ParseError
      case Emit(o, _) => Resume(TermList(Some(o), Empty, content))
      case Resume(next) => Resume(TermList(None, next, content))
  }

  /** After the object that follows a dot: only blanks, comments and the end of the list. */
  function ClosingStep(prims: map<bytes, SExp>, parsed: SExp, inner: ParseState, content: seq<SExp>, ch: byte): (r: Parse)
    decreases Nesting(inner) + 1
  {
    if ch == CLOSE && inner.Empty? then
      if content == [] then ParseError else Emit(Enlist(content, parsed), Empty)
    else
      match ParseStep(prims, inner, ch)
      case Resume(next) =>
        if next.Empty? || next.CommentText? then Resume(TermList(Some(parsed), next, content)) else ParseError
      case _ => ParseError
  }

  // ---- Whole texts -----------------------------------------------------------------------------

  /** Where parsing stands: the objects found so far and the state, or an error. */
  datatype Progress = Progress(res: seq<SExp>, state: ParseState) | Failed

  function Feed(prims: map<bytes, SExp>, p: Progress, text: bytes): (r: Progress)
    decreases |text|
  {
    if p.Failed? || text == [] then p
    else Feed(prims, PushChar(prims, p, text[0]), text[1..])
  }

  function PushChar(prims: map<bytes, SExp>, p: Progress, ch: byte): Progress
    requires p.Progress?
  {
    match ParseStep(prims, p.state, ch)
    case ParseError => Failed
    case Resume(next) => Progress(p.res, next)
    case Emit(o, next) => Progress(p.res + [o], next)
  }

  /** `finalize`.  A word at the very end replaces everything found before it. */
  function Finish(prims: map<bytes, SExp>, p: Progress): (r: Option<seq<SExp>>) {
    match p
    case Failed => None
    case Progress(res, Empty) => Some(res)
    case Progress(res, CommentText) => Some(res)
    case Progress(res, Bareword(word)) =>
      (match MakeAtom(prims, word) case None => None case Some(a) => Some([a]))
    case _ => None
  }

  function ParseText(prims: map<bytes, SExp>, text: bytes): (r: Option<seq<SExp>>) {
    Finish(prims, Feed(prims, Progress([], Empty), text))
  }

  class ParsePartialResult {
    const prims: map<bytes, SExp>
    var res: seq<SExp>
    var parseState: ParseState

    constructor (prims: map<bytes, SExp>)
      ensures this.prims == prims && res == [] && parseState == Empty
    {
      this.prims, res, parseState := prims, [], Empty;
    }

    /** One more character.  After an error nothing has changed. */
    method Push(thisChar: byte) returns (ok: bool)
      modifies this
      ensures var p := PushChar(prims, Progress(old(res), old(parseState)), thisChar);
              ok == p.Progress? && Progress(res, parseState) == if ok then p else Progress(old(res), old(parseState))
    {
      match ParseStep(prims, parseState, thisChar) {
        case ParseError =>
          return false;
        case Resume(newParseState) =>
          parseState := newParseState;
        case Emit(o, newParseState) =>
          parseState := newParseState;
          res := res + [o];
      }
      return true;
    }

    method Finalize() returns (r: Option<seq<SExp>>)
      ensures r == Finish(prims, Progress(res, parseState))
    {
      match parseState {
        case Empty => return Some(res);
        case CommentText => return Some(res);
        case Bareword(t) =>
          var a := MakeAtom(prims, t);
          return if a.Some? then Some([a.value]) else None;
        case _ => return None;
      }
    }
  }

  /** `parse_sexp_inner`. */
  method ParseSexp(prims: map<bytes, SExp>, s: bytes) returns (r: Option<seq<SExp>>)
    ensures r == ParseText(prims, s)
  {
    var partialResult := new ParsePartialResult(prims);
    assert s[0..] == s;
    for i := 0 to |s|
      invariant partialResult.prims == prims
      invariant ParseText(prims, s) == Finish(prims, Feed(prims, Progress(partialResult.res, partialResult.parseState), s[i..]))
    {
      assert s[i..][1..] == s[i + 1..];
      var ok := partialResult.Push(s[i]);
      if !ok {
        return None;
      }
    }
    r := partialResult.Finalize();
  }
}
