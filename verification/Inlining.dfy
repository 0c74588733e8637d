/** Expansion of inline functions: src/compiler/inline.rs, for calls without a rest argument. */
module Inlining {
  import opened Numbers
  import opened SExpressions
  import opened Syntax
  import opened Semantics
  import opened Environments

  /** What code generation knows: the shape of the environment, the functions and primitives. */
  datatype Codegen = Codegen(env: SExp, defuns: seq<Defun>, prims: map<bytes, SExp>, strict: bool)

  datatype Callable = CallInline(inlined: Defun) | CallDefun(lookup: SExp) | CallPrim(prim: SExp) | EnvPath

  /** `get_callable` for a named head, macros and `com` aside. */
  function GetCallable(cg: Codegen, name: bytes): (r: Option<Callable>) {
    var f := FindDefun(cg.defuns, name);
    if f.Some? && f.value.inline then Some(CallInline(f.value))
    else if NameLookup(cg.env, name).Some? then Some(CallDefun(Integer(NameLookup(cg.env, name).value)))
    else if Primitive(cg.prims, name).Some? then Some(CallPrim(Primitive(cg.prims, name).value))
    else if name == AT || name == AT_ENV then Some(EnvPath)
    else None
  }

  /** `get_inline_callable`: a number in head position is a primitive here. */
  function GetInlineCallable(cg: Codegen, head: BodyForm): (r: Option<Callable>) {
    match head
    case Value(Atom(a)) => GetCallable(cg, a)
    case Value(Integer(i)) => Some(CallPrim(Integer(i)))
    case _ => None
  }

  /** `apply_fn`. */
  function ApplyFn(name: bytes, e: BodyForm): BodyForm { Call([Var(name), e], None) }

  const FOUR: BodyForm := Value(Integer(4))

  /** `enlist_remaining_args` from a given argument on. */
  function EnlistArgs(args: seq<BodyForm>): (r: BodyForm) {
    if args == [] then Value(Nil) else Call([FOUR, args[0], EnlistArgs(args[1..])], None)
  }

  method EnlistRemainingArgs(argChoice: nat, args: seq<BodyForm>) returns (resultBody: BodyForm)
    requires argChoice <= |args|
    ensures resultBody == EnlistArgs(args[argChoice..])
  {
    resultBody := Value(Nil);
    for i := |args| downto argChoice
      invariant resultBody == EnlistArgs(args[i..])
    {
      assert args[i..][1..] == args[i + 1..];
      resultBody := Call([FOUR, args[i], resultBody], None);
    }
  }

  /** `pick_value_from_arg_element`: the path of `f` and `r` steps to a name in a pattern. */
  function PickValue(pattern: SExp, provided: BodyForm, name: bytes): (r: Option<BodyForm>)
    decreases Size(pattern)
  {
    match pattern
    case Cons(a, b) =>
      (match IsAtCapture(a, b)
       case Some(p) => if p.0 == name then Some(provided) else PickValue(p.1, provided, name)
       case None =>
         var left := PickValue(a, ApplyFn(FIRST_NAME, provided), name);
         if left.Some? then left else PickValue(b, ApplyFn(REST_NAME, provided), name))
    case Atom(a) => if a == name then Some(provided) else None
    case _ => None
  }

  datatype ArgResult = NotAnArg | Replaced(with: BodyForm) | MissingArg

  /** `arg_lookup` without a rest argument. */
  function ArgLookup(pattern: SExp, args: seq<BodyForm>, argChoice: nat, name: bytes): (r: ArgResult)
    decreases Size(pattern)
  {
    match pattern
    case Cons(f, rest) =>
      if argChoice >= |args| then MissingArg
      else (
        match PickValue(f, args[argChoice], name)
        case Some(x) => Replaced(x)
        case None => ArgLookup(rest, args, argChoice + 1, name))
    case _ =>
      match PickValue(pattern, EnlistArgs(if argChoice <= |args| then args[argChoice..] else []), name)
      case Some(x) => Replaced(x)
      case None => NotAnArg
  }

  /** The loop of `arg_lookup`. */
  method ArgLookupLoop(pattern: SExp, args: seq<BodyForm>, name: bytes) returns (r: ArgResult)
    ensures r == ArgLookup(pattern, args, 0, name)
  {
    var matchArgs, argChoice := pattern, 0;
    while matchArgs.Cons?
      invariant argChoice <= |args|
      invariant ArgLookup(pattern, args, 0, name) == ArgLookup(matchArgs, args, argChoice, name)
      decreases Size(matchArgs)
    {
      if argChoice >= |args| {
        return MissingArg;
      }
      var x := PickValue(matchArgs.first, args[argChoice], name);
      if x.Some? {
        return Replaced(x.value);
      }
      argChoice := argChoice + 1;
      matchArgs := matchArgs.rest;
    }
    var tailList := EnlistRemainingArgs(argChoice, args);
    var x := PickValue(matchArgs, tailList, name);
    return if x.Some? then Replaced(x.value) else NotAnArg;
  }

  /** Names of the inline functions that have not been visited. */
  function Unvisited(defuns: seq<Defun>, visited: set<bytes>): set<bytes> {
    (set d | d in defuns && d.inline :: d.name) - visited
  }

  function MakeCons(a: BodyForm, b: BodyForm): BodyForm { Call([Var([4]), a, b], None) }

  function ConsArgs(args: seq<BodyForm>): BodyForm {
    if args == [] then Quoted(Nil) else MakeCons(args[0], ConsArgs(args[1..]))
  }

  /** `replace_inline_body`; None when it reports an error. */
  function ReplaceInlineBody(cg: Codegen, visited: set<bytes>, inline: Defun, args: seq<BodyForm>, expr: BodyForm)
    : (r: Option<BodyForm>)
    decreases |Unvisited(cg.defuns, visited)|, Weight(expr), 1
  {
    match expr
    case Let(_, _, _, _) => None
    case Lambda(c, a, captures, body) =>
      WeightOfLambda(expr);
      (match ReplaceInlineBody(cg, visited, inline, args, captures)
       case None => None
       case Some(x) => Some(Lambda(c, a, x, body)))
    case Value(Atom(a)) =>
      if a == AT_ENV then Some(MakeCons(Call([Var(AT), Value(Integer(2))], None), ConsArgs(args)))
      else if a == AT then Some(expr)
      else (
        match ArgLookup(inline.args, args, 0, a)
        case Replaced(x) => Some(x)
        case NotAnArg => Some(expr)
        case MissingArg => None)
    case Call(forms, tail) =>
      if forms == [] then None
      else
        WeightParts(expr);
        var newArgs := ReplaceForms(cg, visited, inline, args, forms[1..]);
        var newTail := ReplaceTail(cg, visited, inline, args, tail);
        if newArgs == None || newTail == None then None
        else (
          match GetInlineCallable(cg, forms[0])
          case None => None
          case Some(CallInline(next)) =>
            if next.name in visited || newTail.value.Some? then None
            else
              assert next.name in Unvisited(cg.defuns, visited);
              FewerUnvisited(cg.defuns, visited, next.name);
              ReplaceInlineBody(cg, visited + {next.name}, next, newArgs.value, next.body)
          case Some(_) => Some(Call([forms[0]] + newArgs.value, newTail.value)))
    case _ => Some(expr)
  }

  lemma {:induction false} WeightOfLambda(e: BodyForm)
    requires e.Lambda?
    ensures Weight(e.captures) < Weight(e)
  {
  }

  lemma {:induction false} FewerUnvisited(defuns: seq<Defun>, visited: set<bytes>, name: bytes)
    requires name in Unvisited(defuns, visited)
    ensures |Unvisited(defuns, visited + {name})| < |Unvisited(defuns, visited)|
  {
    assert Unvisited(defuns, visited + {name}) == Unvisited(defuns, visited) - {name};
  }

  /** The arguments after the head, each with its own copy of the visited set. */
  function ReplaceForms(cg: Codegen, visited: set<bytes>, inline: Defun, args: seq<BodyForm>, forms: seq<BodyForm>)
    : (r: Option<seq<BodyForm>>)
    ensures r.Some? ==> |r.value| == |forms|
    decreases |Unvisited(cg.defuns, visited)|, FormsWeight(forms), 2
  {
    if forms == [] then Some([])
    else
      match (ReplaceInlineBody(cg, visited, inline, args, forms[0]), ReplaceForms(cg, visited, inline, args, forms[1..]))
      case (Some(x), Some(rest)) => Some([x] + rest)
      case _ => None
  }

  function ReplaceTail(cg: Codegen, visited: set<bytes>, inline: Defun, args: seq<BodyForm>, tail: Option<BodyForm>)
    : (r: Option<Option<BodyForm>>)
    decreases |Unvisited(cg.defuns, visited)|, TailWeight(tail), 2
  {
    match tail
    case None => Some(None)
    case Some(t) =>
      match ReplaceInlineBody(cg, visited, inline, args, t)
      case None => None
      case Some(x) => Some(Some(x))
  }

  /** The expansion of a call, as `replace_in_inline` starts it. */
  function ExpandCall(cg: Codegen, inline: Defun, args: seq<BodyForm>): (r: Option<BodyForm>) {
    ReplaceInlineBody(cg, {inline.name}, inline, args, inline.body)
  }
}
