/** Compiling a whole program ends, for programs as they are read. */
module CompilationEnds {
  import opened Numbers
  import opened SExpressions
  import opened Machine
  import opened Syntax
  import opened Heads
  import opened HeadsKept
  import opened Inlining
  import opened CodeGeneration
  import opened CodegenEnds
  import opened HoistingNames
  import opened Renaming
  import opened UsableCalls
  import opened LinkedPrograms
  import opened WholePrograms

  lemma {:induction false} RenamedKinds(hintless: bool, defuns: seq<Defun>, count: nat, name: bytes)
    ensures Kind(RenameDefuns(hintless, defuns, count).value, name) == Kind(defuns, name)
  {
    if defuns != [] {
      var first := RenameDefun(hintless, defuns[0], count);
      RenamedKinds(hintless, defuns[1..], first.next, name);
      var rest := RenameDefuns(hintless, defuns[1..], first.next).value;
      assert ([first.value] + rest)[1..] == rest;
    }
  }

  lemma {:induction false} RenamedNames(hintless: bool, defuns: seq<Defun>, count: nat, i: nat)
    requires i < |defuns|
    ensures RenameDefuns(hintless, defuns, count).value[i].name == defuns[i].name
  {
    if i > 0 {
      var first := RenameDefun(hintless, defuns[0], count);
      RenamedNames(hintless, defuns[1..], first.next, i - 1);
    }
  }

  lemma {:induction false} RenamedFunctionsNamed(m: Config, src: Source, prims: map<bytes, SExp>, strict: bool, hintless: bool, count: nat)
    requires FunctionsNamed(Start(m, prims, strict, src, count)) && Distinct(src.defuns)
    ensures var r := RenameChildren(hintless, src, count);
            FunctionsNamed(Start(m, prims, strict, r.value, r.next)) && Distinct(r.value.defuns)
  {
    var defuns := RenameDefuns(hintless, src.defuns, count).value;
    forall i | 0 <= i < |defuns| ensures defuns[i].name == src.defuns[i].name { RenamedNames(hintless, src.defuns, count, i); }
    forall f | f in defuns ensures exists f' :: f' in src.defuns && f'.name == f.name {
      var i :| 0 <= i < |defuns| && defuns[i] == f;
      assert src.defuns[i] in src.defuns;
    }
  }

  /** A name that could not be invented stands for what it stood for in the source. */
  lemma {:induction false} KindStays(m: Config, src: Source, prims: map<bytes, SExp>, strict: bool, hintless: bool, count: nat, name: bytes)
    requires Distinct(src.defuns) && FunctionsNamed(Start(m, prims, strict, src, count)) && Prepared(hintless, src, count).Some?
    requires Before(name, count)
    ensures IsInline(Prepared(hintless, src, count).value.defuns, Var(name)) <==> IsInline(src.defuns, Var(name))
  {
    var r := RenameChildren(hintless, src, count);
    RenamedFunctionsNamed(m, src, prims, strict, hintless, count);
    DesugaredFunctions(Start(m, prims, strict, r.value, r.next), r.value, name);
    RenamedKinds(hintless, src.defuns, count, name);
    assert Kind(Prepared(hintless, src, count).value.defuns, name) == Kind(src.defuns, name);
  }

  /** So does every name that expansion writes. */
  lemma {:induction false} GlueStays(m: Config, src: Source, prims: map<bytes, SExp>, strict: bool, hintless: bool, count: nat)
    requires Distinct(src.defuns) && FunctionsNamed(Start(m, prims, strict, src, count)) && Prepared(hintless, src, count).Some?
    requires GlueIsNotInline(src.defuns)
    ensures GlueIsNotInline(Prepared(hintless, src, count).value.defuns)
  {
    ShortNames(count);
    assert FIRST_NAME in GLUE && REST_NAME in GLUE && [4] in GLUE && AT in GLUE;
    KindStays(m, src, prims, strict, hintless, count, FIRST_NAME);
    KindStays(m, src, prims, strict, hintless, count, REST_NAME);
    KindStays(m, src, prims, strict, hintless, count, [4]);
    KindStays(m, src, prims, strict, hintless, count, AT);
  }

  lemma {:induction false} TableEnds(cg: Codegen, k: nat, defuns: seq<Defun>)
    requires GlueIsNotInline(cg.defuns) && InlinesInWords(cg.defuns) && k >= DefunsDepth(cg.defuns, defuns)
    ensures !CodeTable(cg, k, defuns).Timeout?
  {
    if defuns != [] {
      TableEnds(cg, k, defuns[1..]);
      var f := defuns[0];
      GenerationAlwaysEnds(cg.(env := if cg.env.Cons? then Cons(cg.env.first, f.args) else cg.env), f.body);
    }
  }

  /** Compiling ends, in code or in an error, with `k` nested expansions. */
  predicate CompilesIn(out: Source, prims: map<bytes, SExp>, strict: bool, k: nat) { !Compile(out, prims, strict, k).Timeout? }

  ghost predicate CompilesFrom(out: Source, prims: map<bytes, SExp>, strict: bool, d: nat) {
    forall k: nat :: k >= d ==> CompilesIn(out, prims, strict, k)
  }

  /** With enough nested expansions allowed compiling a program comes to an end, in code or in an error,
      where none of the names that expansion writes is an inline function's. */
  lemma {:induction false} CompilingEnds(m: Config, src: Source, prims: map<bytes, SExp>, strict: bool, hintless: bool, count: nat)
    requires DefunsInWords(src.defuns) && WordHeads(src.main) && GlueIsNotInline(src.defuns)
    requires Distinct(src.defuns) && FunctionsNamed(Start(m, prims, strict, src, count)) && Prepared(hintless, src, count).Some?
    ensures var out := Prepared(hintless, src, count).value;
            exists d: nat :: CompilesFrom(out, prims, strict, d)
  {
    var out := Prepared(hintless, src, count).value;
    GlueStays(m, src, prims, strict, hintless, count);
    CompiledInWords(hintless, src, count);
    var d := Max(DefunsDepth(out.defuns, out.defuns), Depth(out.defuns, out.main));
    forall k: nat | k >= d ensures CompilesIn(out, prims, strict, k) { CompilesBy(out, prims, strict, k); }
    assert CompilesFrom(out, prims, strict, d);
  }

  lemma {:induction false} CompilesBy(out: Source, prims: map<bytes, SExp>, strict: bool, k: nat)
    requires DefunsInWords(out.defuns) && GlueIsNotInline(out.defuns)
    requires k >= DefunsDepth(out.defuns, out.defuns) && k >= Depth(out.defuns, out.main)
    ensures CompilesIn(out, prims, strict, k)
  {
    var cg := Generator(out, prims, strict);
    forall f | f in out.defuns && f.inline ensures WordHeads(f.body) { assert DefunInWords(f); }
    TableEnds(cg, k, out.defuns);
    GenerationAlwaysEnds(cg, out.main);
  }
}
