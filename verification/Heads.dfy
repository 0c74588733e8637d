/** Calls whose heads are words, the only ones that the frontend makes. */
module Heads {
  import opened SExpressions
  import opened Syntax
  import opened AssignForms

  predicate IsWord(e: BodyForm) { e.Value? && e.value.Atom? }

  /** Every call in an expression is headed by a word. */
  predicate WordHeads(e: BodyForm) {
    match e
    case Let(_, _, bs, inner) => BindingsInWords(bs) && WordHeads(inner)
    case Call(forms, tail) => forms != [] && IsWord(forms[0]) && FormsInWords(forms[1..]) && (tail.Some? ==> WordHeads(tail.value))
    case Lambda(_, _, captures, body) => WordHeads(captures) && WordHeads(body)
    case _ => true
  }

  predicate BodyInWords(b: Binding) { WordHeads(b.body) }

  predicate BindingsInWords(bs: seq<Binding>) { bs == [] || (BodyInWords(bs[0]) && BindingsInWords(bs[1..])) }

  predicate FormsInWords(forms: seq<BodyForm>) { forms == [] || (WordHeads(forms[0]) && FormsInWords(forms[1..])) }

  predicate DefunInWords(f: Defun) { WordHeads(f.body) }

  predicate DefunsInWords(defuns: seq<Defun>) { forall f :: f in defuns ==> DefunInWords(f) }

  lemma {:induction false} EachBindingInWords(bs: seq<Binding>)
    ensures BindingsInWords(bs) <==> forall b :: b in bs ==> BodyInWords(b)
  {
    if bs != [] {
      EachBindingInWords(bs[1..]);
      forall b ensures b in bs <==> b == bs[0] || b in bs[1..] { assert bs == [bs[0]] + bs[1..]; }
      assert bs[0] in bs;
    }
  }

  lemma {:induction false} CallInWords(head: BodyForm, args: seq<BodyForm>, tail: Option<BodyForm>)
    requires IsWord(head) && FormsInWords(args) && (tail.Some? ==> WordHeads(tail.value))
    ensures WordHeads(Call([head] + args, tail))
  {
    assert ([head] + args)[1..] == args;
  }

  lemma {:induction false} NestInWords(inlined: bool, bs: seq<Binding>, stages: seq<seq<Spec>>, body: BodyForm)
    requires InRange(bs, stages) && BindingsInWords(bs) && WordHeads(body)
    ensures WordHeads(Nest(inlined, bs, stages, body))
    decreases |stages|
  {
    if stages != [] {
      NestInWords(inlined, bs, stages[1..], body);
      var picked := Pick(bs, stages[0]);
      EachBindingInWords(bs);
      forall b | b in picked ensures BodyInWords(b) {
        var i :| 0 <= i < |picked| && picked[i] == b;
        assert picked[i] == bs[stages[0][i].index] && stages[0][i] in stages[0];
        assert bs[stages[0][i].index] in bs;
      }
      EachBindingInWords(picked);
    }
  }

  /** So are the lets that an assign form stands for. */
  lemma {:induction false} HoistedAssignInWords(inlined: bool, bs: seq<Binding>, inner: BodyForm)
    requires HoistAssign(inlined, bs, inner).Some? && BindingsInWords(bs) && WordHeads(inner)
    ensures WordHeads(HoistAssign(inlined, bs, inner).value)
  {
    StagesInRange(bs);
    NestInWords(inlined, bs, Stages(SortBindings(bs).value, {}, {}, []), inner);
  }
}
