/** The worklist of `resolve_namespaces`: rounds of finishing what was newly found. */
module Worklists {
  import opened SExpressions
  import opened Namespaces

  /** Something rewritten, and the full names of the helpers it now refers to. */
  datatype Linked<T> = Linked(value: T, found: set<LongName>)

  /** What becomes of the helper with a full name; None for an error. */
  type Outcomes = LongName -> Option<Linked<Helper>>

  ghost predicate LeadsInto(outcome: Outcomes, full: LongName, s: set<LongName>) { outcome(full).Some? ==> outcome(full).value.found <= s }

  ghost predicate ClosedUnder(outcome: Outcomes, s: set<LongName>) { forall full :: full in s ==> LeadsInto(outcome, full, s) }

  ghost predicate ReachedWithin(outcome: Outcomes, start: set<LongName>, full: LongName, s: set<LongName>) {
    start <= s && ClosedUnder(outcome, s) ==> full in s
  }

  /** In every set that holds what the main expression refers to and, with each helper, what that
      refers to. */
  ghost predicate Reachable(outcome: Outcomes, start: set<LongName>, full: LongName) {
    forall s :: ReachedWithin(outcome, start, full, s)
  }

  lemma {:induction false} StartIsReachable(outcome: Outcomes, start: set<LongName>, full: LongName)
    requires full in start
    ensures Reachable(outcome, start, full)
  {
    forall s ensures ReachedWithin(outcome, start, full, s) {
    }
  }

  lemma {:induction false} ReachesOn(outcome: Outcomes, start: set<LongName>, full: LongName, next: LongName)
    requires Reachable(outcome, start, full) && outcome(full).Some? && next in outcome(full).value.found
    ensures Reachable(outcome, start, next)
  {
    forall s ensures ReachedWithin(outcome, start, next, s) {
      assert ReachedWithin(outcome, start, full, s);
      if start <= s && ClosedUnder(outcome, s) {
        assert LeadsInto(outcome, full, s);
      }
    }
  }

  ghost predicate Finished(outcome: Outcomes, start: set<LongName>, done: map<LongName, Helper>, seen: set<LongName>, full: LongName)
    requires full in done
  {
    Reachable(outcome, start, full) && outcome(full).Some? && done[full] == outcome(full).value.value && outcome(full).value.found <= seen
  }

  /** What is known between two steps: finished helpers, and names still to be looked at. */
  ghost predicate Progress(outcome: Outcomes, start: set<LongName>, done: map<LongName, Helper>, open: set<LongName>) {
    start <= done.Keys + open
    && (forall full :: full in done ==> Finished(outcome, start, done, done.Keys + open, full))
    && (forall full :: full in open ==> Reachable(outcome, start, full))
  }

  lemma {:induction false} ProgressStep(outcome: Outcomes, start: set<LongName>, done: map<LongName, Helper>, open: set<LongName>, full: LongName)
    requires Progress(outcome, start, done, open) && full in open && full !in done && outcome(full).Some?
    ensures var l := outcome(full).value; Progress(outcome, start, done[full := l.value], open - {full} + l.found)
  {
    var l := outcome(full).value;
    var done', open' := done[full := l.value], open - {full} + l.found;
    assert done.Keys + open <= done'.Keys + open';
    forall next | next in open' ensures Reachable(outcome, start, next) {
      if next in l.found {
        ReachesOn(outcome, start, full, next);
      }
    }
    forall f | f in done' ensures Finished(outcome, start, done', done'.Keys + open', f) {
      if f != full {
        assert Finished(outcome, start, done, done.Keys + open, f);
      }
    }
  }

  /** Finished names may stay open or not. */
  lemma {:induction false} Regroup(outcome: Outcomes, start: set<LongName>, done: map<LongName, Helper>, open: set<LongName>, open': set<LongName>)
    requires Progress(outcome, start, done, open) && open <= open' + done.Keys && open' <= open + done.Keys
    ensures Progress(outcome, start, done, open')
  {
    assert done.Keys + open <= done.Keys + open';
    forall f | f in done ensures Finished(outcome, start, done, done.Keys + open', f) {
      assert Finished(outcome, start, done, done.Keys + open, f);
    }
    forall f | f in open' ensures Reachable(outcome, start, f) {
      if f !in open {
        assert Finished(outcome, start, done, done.Keys + open, f);
      }
    }
  }

  lemma {:induction false} RoundStep(outcome: Outcomes, start: set<LongName>, done: map<LongName, Helper>, left: set<LongName>, round: set<LongName>,
                                     full: LongName)
    requires Progress(outcome, start, done, left + round) && full in left
    ensures full in done ==> Progress(outcome, start, done, (left - {full}) + round)
    ensures full !in done && outcome(full).Some? ==>
              var l := outcome(full).value; Progress(outcome, start, done[full := l.value], (left - {full}) + (round + l.found))
    ensures Reachable(outcome, start, full)
  {
    assert full in left + round;
    if full in done {
      Regroup(outcome, start, done, left + round, (left - {full}) + round);
    } else if outcome(full).Some? {
      var l := outcome(full).value;
      ProgressStep(outcome, start, done, left + round, full);
      Regroup(outcome, start, done[full := l.value], left + round - {full} + l.found, (left - {full}) + (round + l.found));
    }
  }

  /** The output in terms of what is reached. */
  ghost predicate IsOutput(outcome: Outcomes, start: set<LongName>, helpers: map<LongName, Helper>) {
    (forall full :: full in helpers <==> Reachable(outcome, start, full))
    && (forall full :: full in helpers ==> outcome(full).Some? && helpers[full] == outcome(full).value.value && outcome(full).value.found <= helpers.Keys)
    && start <= helpers.Keys
  }

  lemma {:induction false} AllDone(outcome: Outcomes, start: set<LongName>, done: map<LongName, Helper>)
    requires Progress(outcome, start, done, {})
    ensures IsOutput(outcome, start, done)
  {
    assert done.Keys + {} == done.Keys;
    forall full | full in done.Keys ensures LeadsInto(outcome, full, done.Keys) {
      assert Finished(outcome, start, done, done.Keys + {}, full);
    }
    forall full ensures full in done <==> Reachable(outcome, start, full) {
      if full in done {
        assert Finished(outcome, start, done, done.Keys + {}, full);
      } else {
        assert !ReachedWithin(outcome, start, full, done.Keys);
      }
    }
    forall full | full in done
      ensures outcome(full).Some? && done[full] == outcome(full).value.value && outcome(full).value.found <= done.Keys
    {
      assert Finished(outcome, start, done, done.Keys + {}, full);
    }
  }

  ghost predicate Stuck(outcome: Outcomes, start: set<LongName>) { exists full :: Reachable(outcome, start, full) && outcome(full) == None }

  /** One round: every new name that is not finished is finished, which opens others. */
  method ResolveRound(outcome: Outcomes, ghost start: set<LongName>, ghost all: set<LongName>, resolved: map<LongName, Helper>, todo: set<LongName>)
    returns (r: Option<map<LongName, Helper>>, round: set<LongName>)
    requires Progress(outcome, start, resolved, todo) && resolved.Keys <= all && todo <= all && ClosedUnder(outcome, all)
    ensures r == None ==> Stuck(outcome, start)
    ensures r.Some? ==> Progress(outcome, start, r.value, round) && resolved.Keys <= r.value.Keys <= all && round <= all
    ensures r.Some? && r.value.Keys == resolved.Keys ==> round == {}
  {
    var left, done := todo, resolved;
    round := {};
    assert todo + {} == todo;
    while left != {}
      invariant left <= todo && resolved.Keys <= done.Keys <= all && round <= all
      invariant Progress(outcome, start, done, left + round)
      invariant done.Keys == resolved.Keys ==> round == {}
      decreases |left|
    {
      var full :| full in left;
      RoundStep(outcome, start, done, left, round, full);
      left := left - {full};
      if full !in done {
        var result := outcome(full);
        if result == None {
          return None, {};
        }
        assert LeadsInto(outcome, full, all);
        done := done[full := result.value.value];
        round := round + result.value.found;
      }
    }
    assert {} + round == round;
    return Some(done), round;
  }

  /** All rounds.  The worklist ends; it fails exactly when something reached fails; otherwise it ends
      with exactly what is reached. */
  method CollectHelpers(outcome: Outcomes, start: set<LongName>, ghost all: set<LongName>) returns (r: Option<map<LongName, Helper>>)
    requires start <= all && ClosedUnder(outcome, all)
    ensures r == None <==> exists full :: Reachable(outcome, start, full) && outcome(full) == None
    ensures r.Some? ==> IsOutput(outcome, start, r.value)
  {
    var resolved: map<LongName, Helper> := map[];
    var todo := start;
    assert resolved.Keys + todo == todo;
    forall full | full in start ensures Reachable(outcome, start, full) {
      StartIsReachable(outcome, start, full);
    }
    while todo != {}
      invariant Progress(outcome, start, resolved, todo) && resolved.Keys <= all && todo <= all
      decreases |all - resolved.Keys|, |todo|
    {
      var next, round := ResolveRound(outcome, start, all, resolved, todo);
      if next == None {
        return None;
      }
      if next.value.Keys != resolved.Keys {
        Shrinks(all, resolved.Keys, next.value.Keys);
      }
      resolved, todo := next.value, round;
    }
    AllDone(outcome, start, resolved);
    return Some(resolved);
  }

  lemma {:induction false} Shrinks(all: set<LongName>, fewer: set<LongName>, more: set<LongName>)
    requires fewer <= more <= all && fewer != more
    ensures |all - more| < |all - fewer|
  {
    assert !(more <= fewer);
    var x :| x in more && x !in fewer;
    assert all - more <= all - fewer - {x};
    SubsetSize(all - more, all - fewer - {x});
  }

  lemma {:induction false} SubsetSize(a: set<LongName>, b: set<LongName>)
    requires a <= b
    ensures |a| <= |b|
    decreases |a|
  {
    if a != {} {
      var x :| x in a;
      SubsetSize(a - {x}, b - {x});
    }
  }
}
