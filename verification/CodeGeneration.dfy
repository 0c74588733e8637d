/** Code generation: `generate_expr_code`, calls, functions and the whole program. */
module CodeGeneration {
  import opened Numbers
  import opened SExpressions
  import opened Machine
  import opened Syntax
  import opened Semantics
  import opened Environments
  import opened ClvmPrograms
  import opened Closures
  import opened Inlining

  /** `is_defun_or_constant_in_codegen`, for functions. */
  predicate IsDefun(defuns: seq<Defun>, name: bytes) {
    defuns != [] && ((defuns[0].name == name && !defuns[0].inline) || IsDefun(defuns[1..], name))
  }

  /** `create_name_lookup` for a name used as a value. */
  function VariableCode(cg: Codegen, name: bytes): (r: Option<SExp>) {
    match NameLookup(cg.env, name)
    case None => None
    case Some(path) =>
      if IsDefun(cg.defuns, name) then Some(LambdaForDefun(Integer(path), APPLY_ATOM)) else Some(Integer(path))
  }

  function AtomCode(cg: Codegen, name: bytes): (r: Outcome<SExp>) {
    if name == AT || name == AT_ENV then Success(Integer(1))
    else if name == [] then Success(PrimQuote(Nil))
    else
      match VariableCode(cg, name)
      case Some(code) => Success(code)
      case None => if cg.strict && Printable(name, false) then Failure else Success(PrimQuote(Atom(name)))
  }

  function ValueCode(cg: Codegen, v: SExp): (r: Outcome<SExp>) {
    match v
    case Atom(a) => AtomCode(cg, a)
    case Integer(i) => if cg.strict then Success(PrimQuote(v)) else AtomCode(cg, U8FromNumber(i))
    case _ => Success(PrimQuote(v))
  }

  /** `generate_expr_code`.  At most `k` inline expansions nest; an inline call with a rest argument
      is not modelled and counts as an error. */
  function GenExpr(cg: Codegen, k: nat, e: BodyForm): (r: Outcome<SExp>)
    decreases k, Weight(e), 1
  {
    match e
    case Let(kind, _, _, inner) => if kind == Parallel then GenExpr(cg, k, inner) else Failure
    case Quoted(q) => Success(PrimQuote(q))
    case Value(v) => ValueCode(cg, v)
    case Lambda(_, _, _, _) => Failure
    case Call(forms, tail) =>
      if forms == [] || CallName(forms[0]) == None then Failure
      else
        WeightParts(e);
        match GetCallable(cg, CallName(forms[0]).value)
        case None => Failure
        case Some(CallInline(f)) =>
          if tail.Some? || ExpandCall(cg, f, forms[1..]) == None then Failure
          else if k == 0 then Timeout
          else GenExpr(cg, k - 1, ExpandCall(cg, f, forms[1..]).value)
        case Some(CallDefun(lookup)) =>
          var args :- GenArgs(cg, k, forms[1..], tail, true);
          Success(DefunCallCode(lookup, args))
        case Some(CallPrim(p)) =>
          var args :- GenArgs(cg, k, forms[1..], None, false);
          Success(Cons(p, args))
        case Some(EnvPath) =>
          if |forms| == 2 && PathLiteral(forms[1]).Some? then Success(Integer(PathLiteral(forms[1]).value)) else Failure
  }

  /** `process_defun_call`. */
  function DefunCallCode(lookup: SExp, args: SExp): SExp { PrimApply(lookup, PrimCons(Integer(2), args)) }

  /** `generate_args_code`: a plain list of codes for an operator, or code that builds the list. */
  function GenArgs(cg: Codegen, k: nat, args: seq<BodyForm>, tail: Option<BodyForm>, withPrimcons: bool)
    : (r: Outcome<SExp>)
    decreases k, FormsWeight(args) + TailWeight(tail), 2
  {
    if args == [] then
      match tail
      case None => Success(Nil)
      case Some(t) => GenExpr(cg, k, t)
    else
      var rest :- GenArgs(cg, k, args[1..], tail, withPrimcons);
      var first :- GenExpr(cg, k, args[0]);
      Success(if withPrimcons then PrimCons(first, rest) else Cons(first, rest))
  }

  /** The loop of `generate_args_code`: the tail's code, then each argument's in reverse order. */
  method GenerateArgsCode(cg: Codegen, k: nat, args: seq<BodyForm>, tail: Option<BodyForm>, withPrimcons: bool)
    returns (r: Outcome<SExp>)
    ensures r == GenArgs(cg, k, args, tail, withPrimcons)
  {
    if args == [] && tail == None {
      return Success(Nil);
    }
    var compiledArgs := if tail.Some? then GenExpr(cg, k, tail.value) else Success(Nil);
    if compiledArgs.IsFailure() {
      SuffixFails(cg, k, args, tail, withPrimcons, |args|);
      return compiledArgs.PropagateFailure();
    }
    r := compiledArgs;
    for i := |args| downto 0
      invariant r == GenArgs(cg, k, args[i..], tail, withPrimcons) && r.Success?
    {
      var generated := GenExpr(cg, k, args[i]);
      assert args[i..][0] == args[i] && args[i..][1..] == args[i + 1..];
      if generated.IsFailure() {
        SuffixFails(cg, k, args, tail, withPrimcons, i);
        return generated.PropagateFailure();
      }
      r := Success(if withPrimcons then PrimCons(generated.value, r.value) else Cons(generated.value, r.value));
    }
    assert args[0..] == args;
  }

  /** An error in a later argument is the error of the whole list. */
  lemma {:induction false} SuffixFails(cg: Codegen, k: nat, args: seq<BodyForm>, tail: Option<BodyForm>,
                                       withPrimcons: bool, i: nat)
    requires i <= |args| && !GenArgs(cg, k, args[i..], tail, withPrimcons).Success?
    ensures GenArgs(cg, k, args, tail, withPrimcons) == GenArgs(cg, k, args[i..], tail, withPrimcons)
    decreases i
  {
    if i == 0 {
      assert args[0..] == args;
    } else {
      assert args[i - 1..][1..] == args[i..];
      SuffixFails(cg, k, args, tail, withPrimcons, i - 1);
    }
  }

  /** Code for a function: its body is compiled with its own arguments beside the code tree. */
  function DefunCode(cg: Codegen, k: nat, f: Defun): (r: Outcome<SExp>) {
    var env := if cg.env.Cons? then Cons(cg.env.first, f.args) else cg.env;
    var body :- GenExpr(cg.(env := env), k, f.body);
    Success(PrimApply(PrimQuote(body), Integer(1)))
  }

  function DefunNames(defuns: seq<Defun>): (names: seq<bytes>)
    ensures forall name :: name in names <==> exists f :: f in defuns && !f.inline && f.name == name
  {
    if defuns == [] then []
    else if defuns[0].inline then DefunNames(defuns[1..])
    else [defuns[0].name] + DefunNames(defuns[1..])
  }

  /** The code of every function that is not inline. */
  function CodeTable(cg: Codegen, k: nat, defuns: seq<Defun>): (r: Outcome<map<bytes, SExp>>) {
    if defuns == [] then Success(map[])
    else if defuns[0].inline then CodeTable(cg, k, defuns[1..])
    else
      var code :- DefunCode(cg, k, defuns[0]);
      var rest :- CodeTable(cg, k, defuns[1..]);
      Success(rest[defuns[0].name := code])
  }

  /** A program: its argument pattern, its functions and its main expression. */
  datatype Source = Source(args: SExp, defuns: seq<Defun>, main: BodyForm)

  function Generator(src: Source, prims: map<bytes, SExp>, strict: bool): Codegen {
    Codegen(ComputeEnvShape(DefunNames(src.defuns), src.args), src.defuns, prims, strict)
  }

  /** The code tree of a program. */
  function FinalEnv(src: Source, prims: map<bytes, SExp>, strict: bool, k: nat): (r: Outcome<SExp>) {
    var codes :- CodeTable(Generator(src, prims, strict), k, src.defuns);
    match FinalizeEnv(ComputeCodeShape(DefunNames(src.defuns)), codes)
    case None => Failure
    case Some(env) => Success(env)
  }

  /** `codegen` for a whole program without module phases: (a (q . main) (c (q . env) 1)). */
  function Compile(src: Source, prims: map<bytes, SExp>, strict: bool, k: nat): (r: Outcome<SExp>) {
    var env :- FinalEnv(src, prims, strict, k);
    var main :- GenExpr(Generator(src, prims, strict), k, src.main);
    Success(PrimApply(PrimQuote(main), PrimCons(PrimQuote(env), Integer(1))))
  }
}
