/** Giving every bound variable a name of its own: `rename_args_bodyform` and what it uses. */
module Renaming {
  import opened Numbers
  import opened SExpressions
  import opened Syntax
  import opened AssignForms
  import opened AssignWeight
  import opened Gensyms
  import opened CodeGeneration

  type NameMap = map<bytes, bytes>

  const QUOTE_NAME: bytes := [113, 117, 111, 116, 101]                       // "quote"
  const QQ_NAME: bytes := [113, 113]                                         // "qq"
  const UNQUOTE_NAME: bytes := [117, 110, 113, 117, 111, 116, 101]           // "unquote"

  function NewName(m: NameMap, name: bytes): bytes { if name in m then m[name] else name }

  // ---- In s-expressions ------------------------------------------------------------------------

  /** `rename_in_qq`: only inside (unquote ...). */
  function RenameInQQ(m: NameMap, body: SExp): (r: SExp)
    decreases Size(body), 1
  {
    var l := ProperList(body);
    if l.Some? && |l.value| == 2 && l.value[0] == Atom(UNQUOTE_NAME) then
      ListSmaller(body);
      RenameInCons(m, l.value[1], true)
    else if body.Cons? then Cons(RenameInQQ(m, body.first), RenameInQQ(m, body.rest))
    else body
  }

  /** `rename_in_cons`. */
  function RenameInCons(m: NameMap, body: SExp, qqHandling: bool): (r: SExp)
    decreases Size(body), 1
  {
    match body
    case Atom(name) => Atom(NewName(m, name))
    case Cons(f, r) =>
      if f == Atom(Q_NAME) then body
      else if f == Atom(QUOTE_NAME) then
        (match ProperList(r)
         case Some(l) => if |l| == 1 then Cons(f, Cons(l[0], Nil)) else body
         case None => body)
      else if f == Atom(QQ_NAME) && qqHandling then
        (match ProperList(r)
         case Some(l) =>
           if |l| == 1 then
             ListSmaller(r);
             RenameInQQ(m, l[0])
           else body
         case None => body)
      else Cons(RenameInCons(m, f, qqHandling), RenameInCons(m, r, qqHandling))
    case _ => body
  }

  /** New names for the atoms of a pattern and the counter afterwards. */
  datatype Invented = Invented(names: NameMap, next: nat)

  /** `invent_new_names_sexp`, collected into a map; of a name that occurs twice the later new name
      counts. */
  function InventNames(body: SExp, m: NameMap, count: nat): (r: Invented)
    ensures count <= r.next
  {
    match body
    case Atom(name) => if name == AT then Invented(m, count) else Invented(m[name := Gensym(name, count)], count + 1)
    case Cons(a, b) =>
      var left := InventNames(a, m, count);
      InventNames(b, left.names, left.next)
    case _ => Invented(m, count)
  }

  // ---- In expressions --------------------------------------------------------------------------

  predicate LambdaFree(e: BodyForm) {
    match e
    case Let(_, _, bs, inner) => BindingsLambdaFree(bs) && LambdaFree(inner)
    case Call(forms, tail) => FormsLambdaFree(forms) && (tail.Some? ==> LambdaFree(tail.value))
    case Lambda(_, _, _, _) => false
    case _ => true
  }

  predicate BindingLambdaFree(b: Binding) { LambdaFree(b.body) }

  predicate BindingsLambdaFree(bs: seq<Binding>) { bs == [] || (BindingLambdaFree(bs[0]) && BindingsLambdaFree(bs[1..])) }

  predicate FormsLambdaFree(forms: seq<BodyForm>) { forms == [] || (LambdaFree(forms[0]) && FormsLambdaFree(forms[1..])) }

  /** `rename_in_bodyform`: free names are replaced, binders are not.  A lambda, whose body would be
      given new binders on the way, stays as it is. */
  function RenameIn(m: NameMap, e: BodyForm): (r: BodyForm) {
    match e
    case Let(kind, inlined, bs, inner) => Let(kind, inlined, RenameInBindings(m, bs), RenameIn(m, inner))
    case Quoted(Atom(n)) => Quoted(Atom(NewName(m, n)))
    case Quoted(_) => e
    case Value(Atom(n)) => Value(Atom(NewName(m, n)))
    case Value(_) => e
    case Call(forms, tail) =>
      Call(if forms == [] then [] else [forms[0]] + RenameInForms(m, forms[1..]),
           match tail case None => None case Some(t) => Some(RenameIn(m, t)))
    case Lambda(_, _, _, _) => e
  }

  function RenameInBody(m: NameMap, b: Binding): Binding { Binding(b.pattern, RenameIn(m, b.body)) }

  function RenameInBindings(m: NameMap, bs: seq<Binding>): (r: seq<Binding>)
    ensures |r| == |bs|
  {
    if bs == [] then [] else [RenameInBody(m, bs[0])] + RenameInBindings(m, bs[1..])
  }

  function RenameInForms(m: NameMap, forms: seq<BodyForm>): (r: seq<BodyForm>)
    ensures |r| == |forms|
  {
    if forms == [] then [] else [RenameIn(m, forms[0])] + RenameInForms(m, forms[1..])
  }

  // ---- Binders ---------------------------------------------------------------------------------

  datatype Unique = Unique(names: NameMap, pattern: BindingPattern, next: nat)

  /** `make_binding_unique`, its names added to those of the bindings before it. */
  function MakeUnique(p: BindingPattern, count: nat): (r: Unique)
    ensures count <= r.next
  {
    match p
    case Name(n) => Unique(map[n := Gensym(n, count)], Name(Gensym(n, count)), count + 1)
    case Complex(s) =>
      var invented := InventNames(s, map[], count);
      Unique(invented.names, Complex(RenameInCons(invented.names, s, false)), invented.next)
  }

  datatype UniqueGroup = UniqueGroup(names: NameMap, patterns: seq<BindingPattern>, next: nat)

  function MakeAllUnique(bs: seq<Binding>, m: NameMap, count: nat): (r: UniqueGroup)
    ensures count <= r.next && |r.patterns| == |bs|
  {
    if bs == [] then UniqueGroup(m, [], count)
    else
      var u := MakeUnique(bs[0].pattern, count);
      var rest := MakeAllUnique(bs[1..], m + u.names, u.next);
      UniqueGroup(rest.names, [u.pattern] + rest.patterns, rest.next)
  }

  datatype Renamed<T> = Renamed(value: T, next: nat)

  function WithBodies(patterns: seq<BindingPattern>, bodies: seq<BodyForm>): (r: seq<Binding>)
    requires |patterns| == |bodies|
    ensures |r| == |patterns|
    ensures forall i :: 0 <= i < |r| ==> r[i] == Binding(patterns[i], bodies[i])
  {
    seq(|patterns|, i requires 0 <= i < |patterns| => Binding(patterns[i], bodies[i]))
  }

  predicate AssignFree(e: BodyForm) {
    match e
    case Let(kind, _, bs, inner) => kind != Assign && BindingsAssignFree(bs) && AssignFree(inner)
    case Call(forms, tail) => FormsAssignFree(forms) && (tail.Some? ==> AssignFree(tail.value))
    case _ => true
  }

  predicate BindingAssignFree(b: Binding) { AssignFree(b.body) }

  predicate BindingsAssignFree(bs: seq<Binding>) { bs == [] || (BindingAssignFree(bs[0]) && BindingsAssignFree(bs[1..])) }

  predicate FormsAssignFree(forms: seq<BodyForm>) { forms == [] || (AssignFree(forms[0]) && FormsAssignFree(forms[1..])) }

  datatype RenamedGroup = RenamedGroup(names: NameMap, bindings: seq<Binding>, next: nat)

  function Backwards<T>(s: seq<T>): (r: seq<T>)
    ensures |r| == |s|
  {
    if s == [] then [] else Backwards(s[1..]) + [s[0]]
  }

  /** `rename_args_bodyform`.  `hintless` is how lets without an inline hint are treated, which is
      what a sequential let turns into.  An assign form whose bindings need each other in a circle is
      an error there; here it stays as it is. */
  function RenameArgs(hintless: bool, e: BodyForm, count: nat): (r: Renamed<BodyForm>)
    ensures count <= r.next
    decreases Weight(e), 1
  {
    match e
    case Let(Sequential, _, bs, inner) => RenameSequence(hintless, bs, inner, count)
    case Let(Parallel, inlined, bs, inner) =>
      var u := MakeAllUnique(bs, map[], count);
      var bodies := RenameBodies(hintless, bs, u.next);
      var body := RenameArgs(hintless, inner, bodies.next);
      Renamed(Let(Parallel, inlined, WithBodies(u.patterns, bodies.value), RenameIn(u.names, body.value)), body.next)
    case Let(Assign, inlined, bs, inner) =>
      if SortBindings(bs).Unknown? then Renamed(e, count)
      else
        InOrderWeight(bs);
        var g := RenameInOrder(hintless, InOrder(bs), map[], count);
        var body := RenameArgs(hintless, inner, g.next);
        Renamed(Let(Assign, inlined, Backwards(g.bindings), RenameIn(g.names, body.value)), body.next)
    case Call(forms, tail) =>
      WeightParts(e);
      var args := RenameForms(hintless, forms, count);
      (match tail
       case None => Renamed(Call(args.value, None), args.next)
       case Some(t) =>
         var last := RenameArgs(hintless, t, args.next);
         Renamed(Call(args.value, Some(last.value)), last.next))
    case _ => Renamed(e, count)
  }

  /** The loop of `rename_assign_bindings` over the bindings in dependency order; each is renamed with
      the names of all up to itself.  Bindings to a single name, which the frontend does not make for
      assign forms, are left alone. */
  function RenameInOrder(hintless: bool, bs: seq<Binding>, m: NameMap, count: nat): (r: RenamedGroup)
    ensures count <= r.next && |r.bindings| == |bs|
    decreases BindingsWeight(bs, 1), 2
  {
    if bs == [] then RenamedGroup(m, [], count)
    else
      BindingParts(bs, 1);
      match bs[0].pattern
      case Name(_) =>
        var rest := RenameInOrder(hintless, bs[1..], m, count);
        RenamedGroup(rest.names, [bs[0]] + rest.bindings, rest.next)
      case Complex(p) =>
        var own := InventNames(p, m, count);
        var body := RenameArgs(hintless, bs[0].body, own.next);
        var rest := RenameInOrder(hintless, bs[1..], own.names, body.next);
        RenamedGroup(rest.names, [Binding(Complex(RenameInCons(own.names, p, false)), RenameIn(own.names, body.value))] + rest.bindings, rest.next)
  }

  /** A sequential let is renamed as parallel lets inside each other. */
  function RenameSequence(hintless: bool, bs: seq<Binding>, inner: BodyForm, count: nat): (r: Renamed<BodyForm>)
    ensures count <= r.next
    decreases BindingsWeight(bs, 1) + Weight(inner), 2
  {
    if bs == [] then RenameArgs(hintless, inner, count)
    else
      BindingParts(bs, 1);
      var u := MakeAllUnique([bs[0]], map[], count);
      var first := RenameArgs(hintless, bs[0].body, u.next);
      var body := RenameSequence(hintless, bs[1..], inner, first.next);
      Renamed(Let(Parallel, hintless, WithBodies(u.patterns, [first.value]), RenameIn(u.names, body.value)), body.next)
  }

  function RenameBodies(hintless: bool, bs: seq<Binding>, count: nat): (r: Renamed<seq<BodyForm>>)
    ensures count <= r.next && |r.value| == |bs|
    decreases BindingsWeight(bs, 1), 2
  {
    if bs == [] then Renamed([], count)
    else
      BindingParts(bs, 1);
      var first := RenameArgs(hintless, bs[0].body, count);
      var rest := RenameBodies(hintless, bs[1..], first.next);
      Renamed([first.value] + rest.value, rest.next)
  }

  function RenameForms(hintless: bool, forms: seq<BodyForm>, count: nat): (r: Renamed<seq<BodyForm>>)
    ensures count <= r.next && |r.value| == |forms|
    decreases FormsWeight(forms), 2
  {
    if forms == [] then Renamed([], count)
    else
      var first := RenameArgs(hintless, forms[0], count);
      var rest := RenameForms(hintless, forms[1..], first.next);
      Renamed([first.value] + rest.value, rest.next)
  }

  /** `desugar_sequential_let_bindings` of the first `n` bindings, from the last of them back to the first. */
  function DesugarSequential(hintless: bool, bs: seq<Binding>, body: BodyForm, n: nat): (r: BodyForm)
    requires n <= |bs|
    decreases n
  {
    if n == 0 then body else DesugarSequential(hintless, bs, Let(Parallel, hintless, [bs[n - 1]], body), n - 1)
  }

  lemma {:induction false} DesugarsFirst(hintless: bool, bs: seq<Binding>, body: BodyForm, n: nat)
    requires 0 < n <= |bs|
    ensures DesugarSequential(hintless, bs, body, n) == Let(Parallel, hintless, [bs[0]], DesugarSequential(hintless, bs[1..], body, n - 1))
    decreases n
  {
    if n > 1 {
      assert bs[1..][n - 2] == bs[n - 1];
      DesugarsFirst(hintless, bs, Let(Parallel, hintless, [bs[n - 1]], body), n - 1);
    }
  }

  /** A sequential let is turned into parallel lets first and then renamed. */
  lemma {:induction false} SequenceIsDesugared(hintless: bool, bs: seq<Binding>, inner: BodyForm, count: nat)
    ensures RenameSequence(hintless, bs, inner, count) == RenameArgs(hintless, DesugarSequential(hintless, bs, inner, |bs|), count)
    decreases |bs|
  {
    if bs != [] {
      var rest := DesugarSequential(hintless, bs[1..], inner, |bs| - 1);
      DesugarsFirst(hintless, bs, inner, |bs|);
      var first := RenameArgs(hintless, bs[0].body, MakeAllUnique([bs[0]], map[], count).next);
      SequenceIsDesugared(hintless, bs[1..], inner, first.next);
      RenamesOneBinding(hintless, bs[0], rest, count);
    }
  }

  lemma {:induction false} RenamesOneBinding(hintless: bool, b: Binding, rest: BodyForm, count: nat)
    ensures var u := MakeAllUnique([b], map[], count);
            var first := RenameArgs(hintless, b.body, u.next);
            var body := RenameArgs(hintless, rest, first.next);
            RenameArgs(hintless, Let(Parallel, hintless, [b], rest), count) ==
            Renamed(Let(Parallel, hintless, WithBodies(u.patterns, [first.value]), RenameIn(u.names, body.value)), body.next)
  {
    var u := MakeAllUnique([b], map[], count);
    var first := RenameArgs(hintless, b.body, u.next);
    assert [b][1..] == [];
    assert RenameBodies(hintless, [b][1..], first.next) == Renamed([], first.next);
    assert RenameBodies(hintless, [b], u.next) == Renamed([first.value] + [], first.next);
    assert [first.value] + [] == [first.value];
  }

  // ---- Functions -------------------------------------------------------------------------------

  /** `rename_args_helperform` for a function. */
  function RenameDefun(hintless: bool, f: Defun, count: nat): (r: Renamed<Defun>)
    ensures count <= r.next && r.value.name == f.name && r.value.inline == f.inline
  {
    var own := InventNames(f.args, map[], count);
    var body := RenameArgs(hintless, f.body, own.next);
    Renamed(f.(args := RenameInCons(own.names, f.args, true), body := RenameIn(own.names, body.value)), body.next)
  }

  function RenameDefuns(hintless: bool, defuns: seq<Defun>, count: nat): (r: Renamed<seq<Defun>>)
    ensures count <= r.next && |r.value| == |defuns|
  {
    if defuns == [] then Renamed([], count)
    else
      var first := RenameDefun(hintless, defuns[0], count);
      var rest := RenameDefuns(hintless, defuns[1..], first.next);
      Renamed([first.value] + rest.value, rest.next)
  }

  /** `rename_children_compileform`: the functions, then the main expression; the program's own
      arguments keep their names. */
  function RenameChildren(hintless: bool, src: Source, count: nat): (r: Renamed<Source>)
    ensures count <= r.next
  {
    var defuns := RenameDefuns(hintless, src.defuns, count);
    var main := RenameArgs(hintless, src.main, defuns.next);
    Renamed(Source(src.args, defuns.value, main.value), main.next)
  }
}
