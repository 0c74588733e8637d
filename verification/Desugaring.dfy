/** Whole programs with lets: `do_desugar` followed by code generation. */
module Desugaring {
  import opened Numbers
  import opened SExpressions
  import opened Machine
  import opened Syntax
  import opened Semantics
  import opened CodeGeneration
  import opened ProgramCorrect
  import opened Hoisting
  import opened HoistingNames
  import opened HoistingSound

  /** `do_desugar`: the main expression first, then all functions. */
  function Desugar(src: Source, count: nat): (r: Option<Source>) {
    match HoistBody(None, src.args, src.main, count)
    case None => None
    case Some(h) =>
      match ProcessHelpers(src.defuns + h.helpers, h.next)
      case None => None
      case Some(p) => Some(Source(src.args, p.defuns, h.body))
  }

  /** A program that may be desugared: names as renaming leaves them, the counter past all of them. */
  ghost predicate Tidy(w: World, src: Source, count: nat) {
    w.defuns == src.defuns && Distinct(src.defuns) && AllBefore(src.defuns, count)
    && DefunsScoped(count, src.defuns) && LeavesAlone(src.args) && Scoped(count, src.args, src.main)
    && PrimIs(w, REST_NAME, REST_OP) && PrimIs(w, CONS_NAME, CONS_OP)
  }

  lemma {:induction false} DistinctEitherWay(a: seq<Defun>, b: seq<Defun>, count: nat)
    requires Distinct(a + b) && AllBefore(a + b, count)
    ensures Distinct(b + a) && AllBefore(b + a, count)
  {
    var c, d := a + b, b + a;
    forall i, j | 0 <= i < j < |d| ensures d[i].name != d[j].name {
      var i' := if i < |b| then |a| + i else i - |b|;
      var j' := if j < |b| then |a| + j else j - |b|;
      assert c[i'] == d[i] && c[j'] == d[j] && i' != j';
    }
    forall i | 0 <= i < |d| ensures Before(d[i].name, count) {
      var i' := if i < |b| then |a| + i else i - |b|;
      assert c[i'] == d[i];
    }
  }

  lemma {:induction false} ShortIsBefore(name: bytes, count: nat)
    requires |name| < 3
    ensures Before(name, count)
  {
    UnmarkedIsBefore(name, count);
  }

  lemma {:induction false} SameNames(raws: seq<Defun>, done: seq<Defun>)
    requires |raws| == |done| && Distinct(raws) && forall i :: 0 <= i < |raws| ==> Follows(raws[i], done[i], raws)
    ensures Distinct(done) && forall i :: 0 <= i < |raws| ==> raws[i].name == done[i].name
  {
    forall i | 0 <= i < |raws| ensures raws[i].name == done[i].name {
      var c: nat :| HoistsTo(raws[i], done[i], raws, c);
    }
  }

  lemma {:induction false} MakeReady(w: World, w': World, raws: seq<Defun>, count: nat, k: nat)
    requires Hoisted(w, w', raws, count) && k <= |raws| == |w'.defuns| && Distinct(raws)
    requires forall i :: 0 <= i < |raws| ==> Follows(raws[i], w'.defuns[i], raws)
    ensures Ready(w, w', raws, count, raws[k..])
    decreases |raws| - k
  {
    if k < |raws| {
      MakeReady(w, w', raws, count, k + 1);
      assert raws[k..][1..] == raws[k + 1..] && raws[k..][0] == raws[k];
      SameNames(raws, w'.defuns);
      FindsEach(w'.defuns, k);
      assert DoneIn(w', raws, raws[k]);
    }
  }

  lemma {:induction false} IsHoisted(w: World, w': World, src: Source, h: Hoist<BodyForm>, raws: seq<Defun>, count: nat, next: nat)
    requires w.covered && w' == w.(defuns := w'.defuns, covered := false) && w.left.Some? && Tidy(w, src, count)
    requires FreshNames(h.helpers, count, h.next) && count <= h.next
    requires |raws| == |w'.defuns| && (forall f :: f in src.defuns + h.helpers ==> f in raws)
    requires forall i :: 0 <= i < |raws| ==> raws[i].name == w'.defuns[i].name
    requires forall f :: f in raws ==> f in src.defuns + h.helpers || FreshName(f.name, h.next, next)
    ensures Hoisted(w, w', raws, count)
  {
    forall name | Before(name, count) && FindDefun(w'.defuns, name).Some? ensures FindDefun(w.defuns, name).Some? {
      var done := FindDefun(w'.defuns, name).value;
      var i :| 0 <= i < |w'.defuns| && w'.defuns[i] == done;
      assert raws[i] in raws;
      OldOrNew(src.defuns, h.helpers, raws[i], count, h.next, next);
    }
    ShortIsBefore(REST_NAME, count);
    ShortIsBefore(CONS_NAME, count);
    assert forall f :: f in w.defuns ==> f in src.defuns + h.helpers;
  }

  lemma {:induction false} OldOrNew(defuns: seq<Defun>, helpers: seq<Defun>, f: Defun, count: nat, mid: nat, next: nat)
    requires Before(f.name, count) && FreshNames(helpers, count, mid) && count <= mid
    requires f in defuns + helpers || FreshName(f.name, mid, next)
    ensures FindDefun(defuns, f.name).Some?
  {
    if f in defuns {
    } else if f in defuns + helpers {
      assert f in helpers;
      FreshAfter(f.name, count, mid, f.name);
    } else {
      FreshWider(f.name, mid, next, count, next);
      FreshAfter(f.name, count, next, f.name);
    }
  }

  /** Desugaring keeps the meaning of programs: if a program with lets means v, where everything bound
      is supplied in full, so does the program without them. */
  lemma {:induction false} DesugarKeepsMeaning(w: World, src: Source, count: nat, n: nat, given: SExp, v: SExp) returns (n': nat)
    requires w.covered && w.left.Some? && Tidy(w, src, count) && Covers(src.args, given)
    requires Desugar(src, count).Some?
    requires Sem(w, n, [Scope(src.args, given)], src.main) == Success(v)
    ensures var out := Desugar(src, count).value;
            Sem(w.(defuns := out.defuns, covered := false), n', [Scope(out.args, given)], out.main) == Success(v)
  {
    var h := HoistBody(None, src.args, src.main, count).value;
    var todo := src.defuns + h.helpers;
    HoistNames(None, src.args, src.main, count);
    HoistedApart(h.helpers, count, h.next, src.defuns);
    DistinctEitherWay(h.helpers, src.defuns, h.next);
    RawNames(todo, h.next);
    ProcessFollows(todo, h.next);
    var raws, p := RawHelpers(todo, h.next), ProcessHelpers(todo, h.next).value;
    SameNames(raws, p.defuns);
    var w' := w.(defuns := p.defuns, covered := false);
    IsHoisted(w, w', src, h, raws, count, p.next);
    MakeReady(w, w', raws, count, 0);
    assert raws[0..] == raws;
    var place := Place([Scope(src.args, given)], src.args, given, None);
    assert AllIn(h.helpers, raws) by { assert forall f :: f in h.helpers ==> f in todo; }
    n' := HoistMeans(w, w', raws, count, n, place, src.main, count, v);
  }

  /** If a program with lets means v and what it is desugared to may be compiled, the machine, run on what
      that is compiled to, ends with v. */
  lemma {:induction false} DesugaredProgramsCompile(m: Config, src: Source, prims: map<bytes, SExp>, strict: bool, k: nat, d: nat, count: nat, n: nat,
                           given: SExp, v: SExp)
    requires Desugar(src, count).Some? && Compile(Desugar(src, count).value, prims, strict, k).Success?
    requires Compilable(LinkedWorld(m, Desugar(src, count).value, prims, strict, k), Desugar(src, count).value, d)
    requires var w := LinkedWorld(m, Desugar(src, count).value, prims, strict, k).(defuns := src.defuns, covered := true);
             Tidy(w, src, count) && Covers(src.args, given) && Sem(w, n, [Scope(src.args, given)], src.main) == Success(v)
    ensures exists limit: nat :: Run(m, limit, Compile(Desugar(src, count).value, prims, strict, k).value, given) == Success(v)
  {
    var out := Desugar(src, count).value;
    var linked := LinkedWorld(m, out, prims, strict, k);
    var w := linked.(defuns := src.defuns, covered := true);
    var n' := DesugarKeepsMeaning(w, src, count, n, given, v);
    assert w.(defuns := out.defuns, covered := false) == linked;
    CompilerIsCorrect(m, out, prims, strict, k, d, n', given, v);
  }
}
