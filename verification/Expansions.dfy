/** What the expansion of inline calls keeps: a property of all arguments that the forms which expansion
    writes keep, and the calls it leaves, is a property of what a call expands to. */
module Expansions {
  import opened Numbers
  import opened SExpressions
  import opened Syntax
  import opened Inlining

  type Property = BodyForm -> bool

  ghost predicate All(p: Property, forms: seq<BodyForm>) { forall i :: 0 <= i < |forms| ==> p(forms[i]) }

  predicate IsLeaf(e: BodyForm) { e.Value? || e.Quoted? || e.Lambda? }

  /** Taking an argument apart. */
  ghost predicate OnOne(p: Property, e: BodyForm) { p(e) ==> p(ApplyFn(FIRST_NAME, e)) && p(ApplyFn(REST_NAME, e)) }

  /** Putting arguments together. */
  ghost predicate OnTwo(p: Property, a: BodyForm, b: BodyForm) { p(a) && p(b) ==> p(Call([FOUR, a, b], None)) && p(MakeCons(a, b)) }

  /** A call that stays a call; `heads` is what is known of heads. */
  ghost predicate OnCall(cg: Codegen, p: Property, heads: Property, head: BodyForm, args: seq<BodyForm>, tail: Option<BodyForm>) {
    heads(head) && GetInlineCallable(cg, head).Some? && !GetInlineCallable(cg, head).value.CallInline? && All(p, args) && (tail.Some? ==> p(tail.value))
    ==> p(Call([head] + args, tail))
  }

  ghost predicate OnGlue(p: Property) {
    (forall e :: IsLeaf(e) ==> p(e)) && (forall e :: OnOne(p, e)) && (forall a, b :: OnTwo(p, a, b))
    && p(Call([Var(AT), Value(Integer(2))], None))
  }

  ghost predicate Kept(cg: Codegen, p: Property, heads: Property) {
    OnGlue(p) && forall head, args, tail :: OnCall(cg, p, heads, head, args, tail)
  }

  /** The heads of an inline function's body; the body of a let is never expanded. */
  ghost predicate HeadsAre(heads: Property, e: BodyForm) {
    match e
    case Lambda(_, _, captures, _) => HeadsAre(heads, captures)
    case Call(forms, tail) => forms != [] ==> heads(forms[0]) && FormsHeadsAre(heads, forms[1..]) && (tail.Some? ==> HeadsAre(heads, tail.value))
    case _ => true
  }

  ghost predicate FormsHeadsAre(heads: Property, forms: seq<BodyForm>) {
    forms == [] || (HeadsAre(heads, forms[0]) && FormsHeadsAre(heads, forms[1..]))
  }

  ghost predicate InlinesHeadsAre(heads: Property, defuns: seq<Defun>) {
    defuns == [] || ((defuns[0].inline ==> HeadsAre(heads, defuns[0].body)) && InlinesHeadsAre(heads, defuns[1..]))
  }

  lemma {:induction false} EachInline(heads: Property, defuns: seq<Defun>)
    ensures InlinesHeadsAre(heads, defuns) <==> forall f :: f in defuns && f.inline ==> HeadsAre(heads, f.body)
  {
    if defuns != [] {
      EachInline(heads, defuns[1..]);
      forall f ensures f in defuns <==> f == defuns[0] || f in defuns[1..] { assert defuns == [defuns[0]] + defuns[1..]; }
    }
  }

  // ---- Replacing names ---------------------------------------------------------------------------

  lemma {:induction false} PickKeeps(p: Property, pattern: SExp, e: BodyForm, name: bytes)
    requires OnGlue(p) && p(e) && PickValue(pattern, e, name).Some?
    ensures p(PickValue(pattern, e, name).value)
    decreases Size(pattern)
  {
    if pattern.Cons? {
      var at := IsAtCapture(pattern.first, pattern.rest);
      if at.Some? {
        if at.value.0 != name {
          PickKeeps(p, at.value.1, e, name);
        }
      } else {
        assert OnOne(p, e);
        if PickValue(pattern.first, ApplyFn(FIRST_NAME, e), name).Some? {
          PickKeeps(p, pattern.first, ApplyFn(FIRST_NAME, e), name);
        } else {
          PickKeeps(p, pattern.rest, ApplyFn(REST_NAME, e), name);
        }
      }
    }
  }

  lemma {:induction false} EnlistKeeps(p: Property, args: seq<BodyForm>)
    requires OnGlue(p) && All(p, args)
    ensures p(EnlistArgs(args)) && p(ConsArgs(args))
  {
    if args == [] {
      assert IsLeaf(EnlistArgs(args)) && IsLeaf(ConsArgs(args));
    } else {
      EnlistKeeps(p, args[1..]);
      assert OnTwo(p, args[0], EnlistArgs(args[1..])) && OnTwo(p, args[0], ConsArgs(args[1..]));
    }
  }

  lemma {:induction false} LookupKeeps(p: Property, pattern: SExp, args: seq<BodyForm>, k: nat, name: bytes)
    requires OnGlue(p) && All(p, args) && ArgLookup(pattern, args, k, name).Replaced?
    ensures p(ArgLookup(pattern, args, k, name).with)
    decreases Size(pattern)
  {
    if pattern.Cons? {
      if PickValue(pattern.first, args[k], name).Some? {
        PickKeeps(p, pattern.first, args[k], name);
      } else {
        LookupKeeps(p, pattern.rest, args, k + 1, name);
      }
    } else {
      var left := if k <= |args| then args[k..] else [];
      EnlistKeeps(p, left);
      PickKeeps(p, pattern, EnlistArgs(left), name);
    }
  }

  // ---- Replacing in bodies -----------------------------------------------------------------------

  lemma {:induction false} ReplacingKeeps(cg: Codegen, p: Property, heads: Property, visited: set<bytes>, inline: Defun, args: seq<BodyForm>,
                                          e: BodyForm)
    requires Kept(cg, p, heads) && InlinesHeadsAre(heads, cg.defuns) && All(p, args) && HeadsAre(heads, e)
    requires ReplaceInlineBody(cg, visited, inline, args, e).Some?
    ensures p(ReplaceInlineBody(cg, visited, inline, args, e).value)
    decreases |Unvisited(cg.defuns, visited)|, Weight(e), 1
  {
    match e
    case Call(forms, tail) => ReplacingCallKeeps(cg, p, heads, visited, inline, args, forms, tail);
    case Value(Atom(a)) =>
      if a == AT_ENV {
        EnlistKeeps(p, args);
        assert OnTwo(p, Call([Var(AT), Value(Integer(2))], None), ConsArgs(args));
      } else if a != AT && ArgLookup(inline.args, args, 0, a).Replaced? {
        LookupKeeps(p, inline.args, args, 0, a);
      } else {
        assert IsLeaf(e);
      }
    case Lambda(c, a, _, body) =>
      var r := ReplaceInlineBody(cg, visited, inline, args, e).value;
      assert IsLeaf(r);
    case Value(_) => assert IsLeaf(e);
    case Quoted(_) => assert IsLeaf(e);
    case _ =>
  }

  lemma {:induction false} ReplacingCallKeeps(cg: Codegen, p: Property, heads: Property, visited: set<bytes>, inline: Defun, args: seq<BodyForm>,
                                              forms: seq<BodyForm>, tail: Option<BodyForm>)
    requires Kept(cg, p, heads) && InlinesHeadsAre(heads, cg.defuns) && All(p, args) && HeadsAre(heads, Call(forms, tail))
    requires ReplaceInlineBody(cg, visited, inline, args, Call(forms, tail)).Some?
    ensures p(ReplaceInlineBody(cg, visited, inline, args, Call(forms, tail)).value)
    decreases |Unvisited(cg.defuns, visited)|, Weight(Call(forms, tail)), 0
  {
    WeightParts(Call(forms, tail));
    var newArgs := ReplaceForms(cg, visited, inline, args, forms[1..]).value;
    var newTail := ReplaceTail(cg, visited, inline, args, tail).value;
    ReplacingFormsKeeps(cg, p, heads, visited, inline, args, forms[1..]);
    if tail.Some? {
      ReplacingKeeps(cg, p, heads, visited, inline, args, tail.value);
    }
    var how := GetInlineCallable(cg, forms[0]).value;
    if how.CallInline? {
      var next := how.inlined;
      assert next.name in Unvisited(cg.defuns, visited);
      FewerUnvisited(cg.defuns, visited, next.name);
      EachInline(heads, cg.defuns);
      ReplacingKeeps(cg, p, heads, visited + {next.name}, next, newArgs, next.body);
    } else {
      assert OnCall(cg, p, heads, forms[0], newArgs, newTail);
    }
  }

  lemma {:induction false} ReplacingFormsKeeps(cg: Codegen, p: Property, heads: Property, visited: set<bytes>, inline: Defun, args: seq<BodyForm>,
                                               forms: seq<BodyForm>)
    requires Kept(cg, p, heads) && InlinesHeadsAre(heads, cg.defuns) && All(p, args) && FormsHeadsAre(heads, forms)
    requires ReplaceForms(cg, visited, inline, args, forms).Some?
    ensures All(p, ReplaceForms(cg, visited, inline, args, forms).value)
    decreases |Unvisited(cg.defuns, visited)|, FormsWeight(forms), 2
  {
    if forms != [] {
      ReplacingKeeps(cg, p, heads, visited, inline, args, forms[0]);
      ReplacingFormsKeeps(cg, p, heads, visited, inline, args, forms[1..]);
    }
  }

  /** What a call expands to. */
  lemma {:induction false} ExpandingKeeps(cg: Codegen, p: Property, heads: Property, f: Defun, args: seq<BodyForm>)
    requires Kept(cg, p, heads) && InlinesHeadsAre(heads, cg.defuns) && f in cg.defuns && f.inline && All(p, args)
    requires ExpandCall(cg, f, args).Some?
    ensures p(ExpandCall(cg, f, args).value)
  {
    EachInline(heads, cg.defuns);
    ReplacingKeeps(cg, p, heads, {f.name}, f, args, f.body);
  }
}
