/** The frontend's expression language (`BodyForm`, `Binding`, helper forms) and destructuring
    patterns. */
module Syntax {
  import opened Numbers
  import opened SExpressions

  datatype LetKind = Parallel | Sequential | Assign

  /** A single name, or a tree of names to destructure a value into. */
  datatype BindingPattern = Name(name: bytes) | Complex(pattern: SExp)

  datatype Binding = Binding(pattern: BindingPattern, body: BodyForm)

  /** `inlined` is the answer `should_inline_let` gives for the let's inline hint. */
  datatype BodyForm =
    | Let(kind: LetKind, inlined: bool, bindings: seq<Binding>, inner: BodyForm)
    | Quoted(quoted: SExp)
    | Value(value: SExp)
    | Call(forms: seq<BodyForm>, tail: Option<BodyForm>)
    | Lambda(captureArgs: SExp, args: SExp, captures: BodyForm, lambdaBody: BodyForm)

  datatype Defun = Defun(name: bytes, inline: bool, args: SExp, body: BodyForm)

  function FindDefun(defuns: seq<Defun>, name: bytes): (r: Option<Defun>)
    ensures r.Some? ==> r.value in defuns && r.value.name == name
    ensures r == None ==> forall d :: d in defuns ==> d.name != name
  {
    if defuns == [] then None
    else if defuns[0].name == name then Some(defuns[0])
    else FindDefun(defuns[1..], name)
  }

  /** No two functions share a name. */
  predicate Distinct(defuns: seq<Defun>) {
    forall i, j :: 0 <= i < j < |defuns| ==> defuns[i].name != defuns[j].name
  }

  lemma {:induction false} FindsEach(defuns: seq<Defun>, i: nat)
    requires Distinct(defuns) && i < |defuns|
    ensures FindDefun(defuns, defuns[i].name) == Some(defuns[i])
  {
    if i > 0 {
      FindsEach(defuns[1..], i - 1);
    }
  }

  // ---- Names -----------------------------------------------------------------------------------

  const AT: bytes := [64]                                  // "@"
  const AT_ENV: bytes := [64, 42, 101, 110, 118, 42]       // "@*env*"
  const FIRST_NAME: bytes := [102]                         // "f"
  const REST_NAME: bytes := [114]                          // "r"
  const CONS_NAME: bytes := [99]                           // "c"

  function Var(name: bytes): BodyForm { Value(Atom(name)) }

  // ---- Weights ----------------------------------------------------------------------------------

  /** A measure of how much there is to do about an expression.  Assign bindings weigh more because
      each may become a let of its own. */
  function Weight(e: BodyForm): (w: nat)
    ensures w > 0
  {
    match e
    case Let(k, _, bs, inner) => 1 + BindingsWeight(bs, if k == Assign then 2 else 1) + Weight(inner)
    case Call(forms, tail) => 1 + FormsWeight(forms) + TailWeight(tail)
    case Lambda(_, _, captures, body) => 1 + Weight(captures) + Weight(body)
    case _ => 1
  }

  function BindingsWeight(bs: seq<Binding>, each: nat): (w: nat)
    ensures w >= each * |bs|
  {
    if bs == [] then 0
    else
      assert each * |bs| == each + each * |bs[1..]|;
      each + BodyWeight(bs[0]) + BindingsWeight(bs[1..], each)
  }

  function BodyWeight(b: Binding): (w: nat) { Weight(b.body) }

  function FormsWeight(forms: seq<BodyForm>): nat {
    if forms == [] then 0 else 1 + Weight(forms[0]) + FormsWeight(forms[1..])
  }

  function TailWeight(tail: Option<BodyForm>): nat {
    match tail case None => 0 case Some(t) => Weight(t)
  }

  /** The parts of a form weigh less than the form. */
  lemma {:induction false} WeightParts(e: BodyForm)
    ensures e.Call? && e.forms != [] ==> FormsWeight(e.forms[1..]) + Weight(e.forms[0]) + TailWeight(e.tail) + 1 < Weight(e)
    ensures e.Call? ==> FormsWeight(e.forms) + TailWeight(e.tail) < Weight(e)
  {
  }

  lemma {:induction false} BindingParts(bs: seq<Binding>, each: nat)
    requires bs != []
    ensures BindingsWeight(bs, each) == each + Weight(bs[0].body) + BindingsWeight(bs[1..], each)
  {
    assert BodyWeight(bs[0]) == Weight(bs[0].body);
  }

  lemma {:induction false} WeightPerBinding(bs: seq<Binding>)
    ensures BindingsWeight(bs, 1) <= BindingsWeight(bs, 2)
  {
    if bs != [] {
      WeightPerBinding(bs[1..]);
    }
  }

  lemma {:induction false} BodyIsLighter(bs: seq<Binding>, i: nat)
    requires i < |bs|
    ensures Weight(bs[i].body) < BindingsWeight(bs, 2)
  {
    BindingParts(bs, 2);
    if i > 0 {
      BodyIsLighter(bs[1..], i - 1);
    }
  }

  // ---- Patterns ---------------------------------------------------------------------------------

  /** `is_at_capture`: the form (@ name sub-pattern). */
  function IsAtCapture(head: SExp, rest: SExp): (r: Option<(bytes, SExp)>)
    ensures r.Some? ==> Size(r.value.1) < Size(rest)
  {
    match ProperList(rest)
    case None => None
    case Some(l) =>
      if |l| == 2 && head == Atom(AT) && l[0].Atom? then
        ListSmaller(rest);
        Some((l[0].name, l[1]))
      else None
  }

  /** Whether a pattern gives a value to a name. */
  predicate Binds(pattern: SExp, name: bytes)
    decreases Size(pattern)
  {
    match pattern
    case Atom(a) => a == name
    case Integer(i) => U8FromNumber(i) == name
    case Cons(h, t) =>
      (match IsAtCapture(h, t)
       case Some(p) => p.0 == name || Binds(p.1, name)
       case None => Binds(h, name) || Binds(t, name))
    case _ => false
  }

  /** The part of a value that a bound name stands for; None when the value lacks that part.  The
      leftmost occurrence of a name counts. */
  function Destructure(pattern: SExp, value: SExp, name: bytes): (r: Option<SExp>)
    requires Binds(pattern, name)
    decreases Size(pattern)
  {
    match pattern
    case Cons(h, t) =>
      (match IsAtCapture(h, t)
       case Some(p) => if p.0 == name then Some(value) else Destructure(p.1, value, name)
       case None =>
         if !value.Cons? then None
         else if Binds(h, name) then Destructure(h, value.first, name)
         else Destructure(t, value.rest, name))
    case _ => Some(value)
  }

  /** The names written in a pattern. */
  function Atoms(p: SExp): set<bytes> {
    match p
    case Atom(a) => {a}
    case Cons(a, b) => Atoms(a) + Atoms(b)
    case _ => {}
  }

  function PatternOf(b: Binding): SExp {
    match b.pattern case Name(n) => Atom(n) case Complex(p) => p
  }

  /** The argument list a group of bindings makes: `list_to_cons` of their patterns. */
  function PatternList(bs: seq<Binding>): SExp {
    if bs == [] then Nil else Cons(PatternOf(bs[0]), PatternList(bs[1..]))
  }
}
