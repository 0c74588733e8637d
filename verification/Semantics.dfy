/** What source expressions mean, independently of how they are compiled. */
module Semantics {
  import opened Numbers
  import opened SExpressions
  import opened Machine
  import opened BigStep
  import opened Syntax
  import opened AssignForms
  import opened AssignWeight

  /** What a meaning depends on besides the expression: the operators of the machine, the
      functions, the names of the primitives and whether unbound names are errors.  `refs` gives
      the values that mentioning a function stands for, and `left` the part of the environment
      that `@` shows beside the arguments; a meaning that looks at neither does not depend on
      them.  Where `covered` is set, arguments and bound values must have every part that their
      pattern takes apart, used or not. */
  datatype World = World(machine: Config, defuns: seq<Defun>, prims: map<bytes, SExp>, strict: bool,
                         refs: map<bytes, SExp>, left: Option<SExp>, covered: bool)

  /** A pattern and the value it takes apart. */
  datatype Scope = Scope(pattern: SExp, value: SExp)

  datatype Lookup = Unbound | Absent | Found(found: SExp)

  /** The innermost scope that binds a name decides. */
  function LookupVar(scopes: seq<Scope>, name: bytes): (r: Lookup) {
    if scopes == [] then Unbound
    else if Binds(scopes[0].pattern, name) then
      match Destructure(scopes[0].pattern, scopes[0].value, name)
      case None => Absent
      case Some(v) => Found(v)
    else LookupVar(scopes[1..], name)
  }

  /** `get_prim`: a primitive by its name, or by the bytes of its number. */
  function Primitive(prims: map<bytes, SExp>, name: bytes): (r: Option<SExp>) {
    if name in prims then Some(prims[name])
    else if exists k :: k in prims && EqualTo(prims[k], Atom(name)) then Some(Atom(name))
    else None
  }

  /** The name a call's head is looked up by. */
  function CallName(head: BodyForm): (r: Option<bytes>) {
    match head
    case Value(Integer(i)) => Some(U8FromNumber(i))
    case Value(QuotedString(_, t)) => Some(t)
    case Value(Atom(a)) => Some(a)
    case _ => None
  }

  /** The literal number in a path form such as (@ 2). */
  function PathLiteral(e: BodyForm): (r: Option<int>) {
    match e
    case Value(Integer(i)) => Some(i)
    case Quoted(Integer(i)) => Some(i)
    case _ => None
  }

  /** The environment a function body runs in; only defined outside lets. */
  function WholeEnv(w: World, scopes: seq<Scope>): (r: Outcome<SExp>) {
    if w.left.Some? && |scopes| == 1 then Success(Cons(w.left.value, scopes[0].value)) else Failure
  }

  /** A name used as a value: a variable, a function reference, or a literal atom. */
  function NameValue(w: World, scopes: seq<Scope>, name: bytes): (r: Outcome<SExp>) {
    match LookupVar(scopes, name)
    case Found(v) => Success(v)
    case Absent => Failure
    case Unbound =>
      var f := FindDefun(w.defuns, name);
      if f.Some? && !f.value.inline then (if name in w.refs then Success(w.refs[name]) else Failure)
      else if w.strict && Printable(name, false) then Failure
      else Success(Atom(name))
  }

  function AtomMeaning(w: World, scopes: seq<Scope>, name: bytes): (r: Outcome<SExp>) {
    if name == AT || name == AT_ENV then WholeEnv(w, scopes)
    else if name == [] then Success(Nil)
    else NameValue(w, scopes, name)
  }

  function ValueMeaning(w: World, scopes: seq<Scope>, v: SExp): (r: Outcome<SExp>) {
    match v
    case Atom(a) => AtomMeaning(w, scopes, a)
    case Integer(i) => if w.strict then Success(v) else AtomMeaning(w, scopes, U8FromNumber(i))
    case _ => Success(v)
  }

  /** A value has the shape of a pattern. */
  predicate Covers(pattern: SExp, value: SExp)
    decreases Size(pattern)
  {
    match pattern
    case Cons(h, t) =>
      (match IsAtCapture(h, t)
       case Some(p) => Covers(p.1, value)
       case None => value.Cons? && Covers(h, value.first) && Covers(t, value.rest))
    case _ => true
  }

  predicate Accepts(w: World, pattern: SExp, value: SExp) { w.covered ==> Covers(pattern, value) }

  /** The value of an expression.  `n` bounds the depth of function calls. */
  function Sem(w: World, n: nat, scopes: seq<Scope>, e: BodyForm): (r: Outcome<SExp>)
    decreases n, Weight(e), 1
  {
    match e
    case Quoted(q) => Success(q)
    case Value(v) => ValueMeaning(w, scopes, v)
    case Lambda(_, _, _, _) => Failure
    case Let(Parallel, _, bs, inner) =>
      var vs :- SemBindings(w, n, scopes, bs);
      if !Accepts(w, PatternList(bs), vs) then Failure
      else Sem(w, n, [Scope(PatternList(bs), vs)] + scopes, inner)
    case Let(Sequential, _, bs, inner) => SemSequence(w, n, scopes, bs, inner)
    case Let(Assign, inlined, bs, inner) =>
      if bs == [] || HoistAssign(inlined, bs, inner) == None then Failure
      else
        HoistedAssignIsLighter(inlined, bs, inner);
        Sem(w, n, scopes, HoistAssign(inlined, bs, inner).value)
    case Call(forms, tail) =>
      if forms == [] || CallName(forms[0]) == None then Failure
      else
        WeightParts(e);
        var name := CallName(forms[0]).value;
        match FindDefun(w.defuns, name)
        case Some(f) =>
          var args :- SemArgs(w, n, scopes, forms[1..], tail);
          if !Accepts(w, f.args, args) then Failure
          else if n == 0 then Timeout
          else Sem(w, n - 1, [Scope(f.args, args)], f.body)
        case None =>
          if LookupVar(scopes, name) != Unbound then Failure
          else match Primitive(w.prims, name)
            case Some(p) =>
              if AtomValue(p) == None || AtomValue(p) == Some(1) || tail.Some? then Failure
              else
                var args :- SemArgs(w, n, scopes, forms[1..], None);
                Operate(w.machine, n, Integer(AtomValue(p).value), args)
            case None =>
              if (name == AT || name == AT_ENV) && |forms| == 2 && PathLiteral(forms[1]).Some? then
                var env :- WholeEnv(w, scopes);
                ChoosePath(FlattenSigned(PathLiteral(forms[1]).value), env)
              else Failure
  }

  /** The list of arguments, ending in the tail's value if there is one. */
  function SemArgs(w: World, n: nat, scopes: seq<Scope>, args: seq<BodyForm>, tail: Option<BodyForm>)
    : (r: Outcome<SExp>)
    decreases n, FormsWeight(args) + TailWeight(tail), 2
  {
    if args == [] then
      match tail
      case None => Success(Nil)
      case Some(t) => Sem(w, n, scopes, t)
    else
      var rest :- SemArgs(w, n, scopes, args[1..], tail);
      var first :- Sem(w, n, scopes, args[0]);
      Success(Cons(first, rest))
  }

  /** The values of parallel bindings, none of which sees the others. */
  function SemBindings(w: World, n: nat, scopes: seq<Scope>, bs: seq<Binding>): (r: Outcome<SExp>)
    decreases n, BindingsWeight(bs, 1), 2
  {
    if bs == [] then Success(Nil)
    else
      BindingParts(bs, 1);
      var first :- Sem(w, n, scopes, bs[0].body);
      var rest :- SemBindings(w, n, scopes, bs[1..]);
      Success(Cons(first, rest))
  }

  /** Sequential bindings: each sees the ones before it. */
  function SemSequence(w: World, n: nat, scopes: seq<Scope>, bs: seq<Binding>, inner: BodyForm): (r: Outcome<SExp>)
    decreases n, BindingsWeight(bs, 1) + Weight(inner), 2
  {
    if bs == [] then Sem(w, n, scopes, inner)
    else
      BindingParts(bs, 1);
      var v :- Sem(w, n, scopes, bs[0].body);
      if !Accepts(w, PatternList([bs[0]]), Cons(v, Nil)) then Failure
      else SemSequence(w, n, [Scope(PatternList([bs[0]]), Cons(v, Nil))] + scopes, bs[1..], inner)
  }

  // ---- More fuel never changes a decided outcome ---------------------------------------------

  lemma {:induction false} SemMono(w: World, n: nat, n': nat, scopes: seq<Scope>, e: BodyForm)
    requires n <= n' && !Sem(w, n, scopes, e).Timeout?
    ensures Sem(w, n', scopes, e) == Sem(w, n, scopes, e)
    decreases n, Weight(e), 1
  {
    match e
    case Let(Parallel, _, bs, inner) =>
      SemBindingsMono(w, n, n', scopes, bs);
      var vs := SemBindings(w, n, scopes, bs);
      if vs.Success? && Accepts(w, PatternList(bs), vs.value) {
        SemMono(w, n, n', [Scope(PatternList(bs), vs.value)] + scopes, inner);
      }
    case Let(Sequential, _, bs, inner) =>
      SemSequenceMono(w, n, n', scopes, bs, inner);
    case Let(Assign, inlined, bs, inner) =>
      if bs != [] && HoistAssign(inlined, bs, inner) != None {
        HoistedAssignIsLighter(inlined, bs, inner);
        SemMono(w, n, n', scopes, HoistAssign(inlined, bs, inner).value);
      }
    case Call(forms, tail) =>
      SemCallMono(w, n, n', scopes, e);
    case _ =>
  }

  lemma {:induction false} SemCallMono(w: World, n: nat, n': nat, scopes: seq<Scope>, e: BodyForm)
    requires e.Call? && n <= n' && !Sem(w, n, scopes, e).Timeout?
    ensures Sem(w, n', scopes, e) == Sem(w, n, scopes, e)
    decreases n, Weight(e), 0
  {
    var Call(forms, tail) := e;
    if forms != [] && CallName(forms[0]) != None {
      WeightParts(e);
      var name := CallName(forms[0]).value;
      var f := FindDefun(w.defuns, name);
      if f.Some? {
        SemArgsMono(w, n, n', scopes, forms[1..], tail);
        var args := SemArgs(w, n, scopes, forms[1..], tail);
        if args.Success? && Accepts(w, f.value.args, args.value) && n > 0 {
          SemMono(w, n - 1, n' - 1, [Scope(f.value.args, args.value)], f.value.body);
        }
      } else if LookupVar(scopes, name) == Unbound && Primitive(w.prims, name).Some? {
        var p := Primitive(w.prims, name).value;
        if AtomValue(p) != None && AtomValue(p) != Some(1) && tail == None {
          SemArgsMono(w, n, n', scopes, forms[1..], None);
          var args := SemArgs(w, n, scopes, forms[1..], None);
          if args.Success? {
            OperateMono(w.machine, n, n', Integer(AtomValue(p).value), args.value);
          }
        }
      }
    }
  }

  lemma {:induction false} SemArgsMono(w: World, n: nat, n': nat, scopes: seq<Scope>, args: seq<BodyForm>, tail: Option<BodyForm>)
    requires n <= n' && !SemArgs(w, n, scopes, args, tail).Timeout?
    ensures SemArgs(w, n', scopes, args, tail) == SemArgs(w, n, scopes, args, tail)
    decreases n, FormsWeight(args) + TailWeight(tail), 2
  {
    if args == [] {
      if tail.Some? {
        SemMono(w, n, n', scopes, tail.value);
      }
    } else {
      SemArgsMono(w, n, n', scopes, args[1..], tail);
      if SemArgs(w, n, scopes, args[1..], tail).Success? {
        SemMono(w, n, n', scopes, args[0]);
      }
    }
  }

  lemma {:induction false} SemBindingsMono(w: World, n: nat, n': nat, scopes: seq<Scope>, bs: seq<Binding>)
    requires n <= n' && !SemBindings(w, n, scopes, bs).Timeout?
    ensures SemBindings(w, n', scopes, bs) == SemBindings(w, n, scopes, bs)
    decreases n, BindingsWeight(bs, 1), 2
  {
    if bs != [] {
      BindingParts(bs, 1);
      SemMono(w, n, n', scopes, bs[0].body);
      if Sem(w, n, scopes, bs[0].body).Success? {
        SemBindingsMono(w, n, n', scopes, bs[1..]);
      }
    }
  }

  lemma {:induction false} SemSequenceMono(w: World, n: nat, n': nat, scopes: seq<Scope>, bs: seq<Binding>, inner: BodyForm)
    requires n <= n' && !SemSequence(w, n, scopes, bs, inner).Timeout?
    ensures SemSequence(w, n', scopes, bs, inner) == SemSequence(w, n, scopes, bs, inner)
    decreases n, BindingsWeight(bs, 1) + Weight(inner), 2
  {
    if bs == [] {
      SemMono(w, n, n', scopes, inner);
    } else {
      BindingParts(bs, 1);
      SemMono(w, n, n', scopes, bs[0].body);
      var v := Sem(w, n, scopes, bs[0].body);
      if v.Success? && Accepts(w, PatternList([bs[0]]), Cons(v.value, Nil)) {
        SemSequenceMono(w, n, n', [Scope(PatternList([bs[0]]), Cons(v.value, Nil))] + scopes, bs[1..], inner);
      }
    }
  }
}
