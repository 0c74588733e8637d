/** Dependency ordering: `toposort` in src/util/mod.rs. */
module Toposort {
  /** `TopoSortItem`. */
  datatype Item<K> = Item(index: nat, needs: set<K>, has: set<K>)

  datatype Sorted<K> = Ordered(items: seq<Item<K>>) | Deadlock | NeedsFailed

  datatype Maybe<T> = Known(value: T) | Unknown

  // ---- What a good order is ------------------------------------------------------------------

  /** Everything a run of items provides. */
  function Provided<K>(items: seq<Item<K>>): (p: set<K>) {
    if items == [] then {} else Provided(items[..|items| - 1]) + items[|items| - 1].has
  }

  /** Each of the first `n` items has its needs provided by the items before it. */
  ghost predicate Covered<K>(items: seq<Item<K>>, n: nat)
    requires n <= |items|
  {
    n == 0 || (Covered(items, n - 1) && items[n - 1].needs <= Provided(items[..n - 1]))
  }

  lemma {:induction false} CoveredAt<K>(items: seq<Item<K>>, n: nat, i: nat)
    requires i < n <= |items| && Covered(items, n)
    ensures items[i].needs <= Provided(items[..i])
    decreases n
  {
    if i < n - 1 {
      CoveredAt(items, n - 1, i);
    }
  }

  lemma {:induction false} CoveredPrefix<K>(a: seq<Item<K>>, b: seq<Item<K>>, n: nat)
    requires n <= |a| && n <= |b| && a[..n] == b[..n] && Covered(a, n)
    ensures Covered(b, n)
    decreases n
  {
    if n > 0 {
      assert a[..n - 1] == a[..n][..n - 1] == b[..n][..n - 1] == b[..n - 1];
      assert a[n - 1] == a[..n][n - 1] == b[..n][n - 1] == b[n - 1];
      CoveredPrefix(a, b, n - 1);
    }
  }

  ghost predicate GoodOrder<K>(order: seq<Item<K>>, items: seq<Item<K>>) {
    multiset(order) == multiset(items) && Covered(order, |order|)
  }

  // ---- The sort as a function of its items ----------------------------------------------------

  /** The unfinished positions whose needs are already done, in ascending order. */
  function Ready<K>(items: seq<Item<K>>, from: nat, done: set<K>): (r: seq<nat>)
    decreases |items| - from
  {
    if from >= |items| then []
    else (if items[from].needs <= done then [from] else []) + Ready(items, from + 1, done)
  }

  function Swap<K>(items: seq<Item<K>>, i: nat, j: nat): (r: seq<Item<K>>)
    requires i < |items| && j < |items|
  {
    items[i := items[j]][j := items[i]]
  }

  /** Indices below `n`, strictly ascending, none before `from`. */
  predicate Ascending(n: nat, idxs: seq<nat>, from: nat) {
    idxs == [] || (from <= idxs[0] < n && Ascending(n, idxs[1..], idxs[0] + 1))
  }

  lemma {:induction false} AscendingFits(n: nat, idxs: seq<nat>, from: nat)
    requires Ascending(n, idxs, from) && from <= n
    ensures from + |idxs| <= n
  {
    if idxs != [] {
      AscendingFits(n, idxs[1..], idxs[0] + 1);
    }
  }

  lemma {:induction false} AscendingFrom(n: nat, idxs: seq<nat>, from: nat, lower: nat)
    requires Ascending(n, idxs, from) && lower <= from
    ensures Ascending(n, idxs, lower)
  {
    if idxs != [] {
      assert Ascending(n, idxs[1..], idxs[0] + 1);
    }
  }

  /** Swap each listed item into the next finished place. */
  function MoveAll<K>(items: seq<Item<K>>, from: nat, idxs: seq<nat>): (r: seq<Item<K>>)
    requires Ascending(|items|, idxs, from)
    ensures |r| == |items|
    decreases |idxs|
  {
    if idxs == [] then items
    else
      AscendingFrom(|items|, idxs[1..], idxs[0] + 1, from + 1);
      MoveAll(Swap(items, idxs[0], from), from + 1, idxs[1..])
  }

  /** All the listed items need only what is ready. */
  predicate AllReady<K>(items: seq<Item<K>>, idxs: seq<nat>, from: nat, ready: set<K>)
    requires Ascending(|items|, idxs, from)
  {
    idxs == [] || (items[idxs[0]].needs <= ready && AllReady(items, idxs[1..], idxs[0] + 1, ready))
  }

  lemma {:induction false} AllReadyCons<K>(items: seq<Item<K>>, from: nat, rest: seq<nat>, ready: set<K>)
    requires from < |items| && items[from].needs <= ready
    requires Ascending(|items|, rest, from + 1) && AllReady(items, rest, from + 1, ready)
    ensures Ascending(|items|, [from] + rest, from) && AllReady(items, [from] + rest, from, ready)
  {
    assert ([from] + rest)[1..] == rest;
  }

  lemma {:induction false} AllReadyFrom<K>(items: seq<Item<K>>, idxs: seq<nat>, from: nat, lower: nat, ready: set<K>)
    requires Ascending(|items|, idxs, from) && lower <= from && AllReady(items, idxs, from, ready)
    ensures Ascending(|items|, idxs, lower) && AllReady(items, idxs, lower, ready)
  {
    AscendingFrom(|items|, idxs, from, lower);
    if idxs != [] {
      assert AllReady(items, idxs[1..], idxs[0] + 1, ready);
    }
  }

  lemma {:induction false} ReadyIsReady<K>(items: seq<Item<K>>, from: nat, done: set<K>)
    ensures Ascending(|items|, Ready(items, from, done), from)
    ensures AllReady(items, Ready(items, from, done), from, done)
    decreases |items| - from
  {
    if from < |items| {
      ReadyIsReady(items, from + 1, done);
      var rest := Ready(items, from + 1, done);
      if items[from].needs <= done {
        AllReadyCons(items, from, rest, done);
      } else {
        AllReadyFrom(items, rest, from + 1, from, done);
        assert [] + rest == rest;
      }
    }
  }

  lemma {:induction false} ReadyMissesNothing<K>(items: seq<Item<K>>, from: nat, done: set<K>, i: nat)
    requires from <= i < |items| && items[i].needs <= done
    ensures Ready(items, from, done) != []
    decreases |items| - from
  {
    if from < i {
      ReadyMissesNothing(items, from + 1, done, i);
    }
  }

  /** The variables of the outer loop. */
  datatype Sorting<K> = Sorting(items: seq<Item<K>>, finished: nat, done: set<K>)

  /** One round of the outer loop. */
  function Advance<K>(s: Sorting<K>): (r: Sorting<K>)
    requires s.finished <= |s.items|
    ensures |r.items| == |s.items| && s.finished <= r.finished <= |r.items|
    ensures Ready(s.items, s.finished, s.done) != [] ==> s.finished < r.finished
  {
    ReadyIsReady(s.items, s.finished, s.done);
    var idxs := Ready(s.items, s.finished, s.done);
    AscendingFits(|s.items|, idxs, s.finished);
    var moved := MoveAll(s.items, s.finished, idxs);
    var upTo := s.finished + |idxs|;
    Sorting(moved, upTo, s.done + Provided(moved[s.finished..upTo]))
  }

  lemma {:induction false} RoundIsAdvance<K>(start: seq<Item<K>>, finished: nat, done: set<K>, front: seq<nat>)
    requires finished <= |start| && front == Ready(start, finished, done)
    requires Ascending(|start|, front, finished) && finished + |front| <= |start|
    ensures var moved := MoveAll(start, finished, front);
            Sorting(moved, finished + |front|, done + Provided(moved[finished..finished + |front|]))
            == Advance(Sorting(start, finished, done))
  {
  }

  /** The rounds of the outer loop; Unknown when one finds nothing ready. */
  function Rounds<K>(s: Sorting<K>): (r: Maybe<seq<Item<K>>>)
    requires s.finished <= |s.items|
    decreases |s.items| - s.finished
  {
    if s.finished == |s.items| then Known(s.items)
    else if Ready(s.items, s.finished, s.done) == [] then Unknown
    else Rounds(Advance(s))
  }

  /** Everything the list provides. */
  function Possible<K, T>(list: seq<T>, has: T -> set<K>): set<K> {
    if list == [] then {} else Possible(list[..|list| - 1], has) + has(list[|list| - 1])
  }

  // ---- Soundness and completeness -------------------------------------------------------------

  lemma {:induction false} ProvidedConcat<K>(a: seq<Item<K>>, b: seq<Item<K>>)
    ensures Provided(a + b) == Provided(a) + Provided(b)
    decreases |b|
  {
    if b == [] {
      assert a + b == a;
    } else {
      assert (a + b)[..|a + b| - 1] == a + b[..|b| - 1];
      ProvidedConcat(a, b[..|b| - 1]);
    }
  }

  lemma {:induction false} ProvidedHas<K>(items: seq<Item<K>>, i: nat)
    requires i < |items|
    ensures items[i].has <= Provided(items)
  {
    if i < |items| - 1 {
      ProvidedHas(items[..|items| - 1], i);
    }
  }

  lemma {:induction false} ProvidedWithin<K>(items: seq<Item<K>>, bound: set<K>)
    requires forall i :: 0 <= i < |items| ==> items[i].has <= bound
    ensures Provided(items) <= bound
  {
    if items != [] {
      ProvidedWithin(items[..|items| - 1], bound);
    }
  }

  /** One swap appends a covered item to the finished prefix and leaves later places alone. */
  lemma {:induction false} SwapStep<K>(items: seq<Item<K>>, from: nat, idx: nat)
    requires from <= idx < |items| && Covered(items, from)
    requires items[idx].needs <= Provided(items[..from])
    ensures var moved := Swap(items, idx, from);
            multiset(moved) == multiset(items) && moved[..from] == items[..from] && Covered(moved, from + 1)
            && Provided(items[..from]) <= Provided(moved[..from + 1])
            && forall i :: idx < i < |items| ==> moved[i] == items[i]
  {
    var moved := Swap(items, idx, from);
    assert moved[..from] == items[..from];
    assert moved[..from + 1] == items[..from] + [moved[from]];
    ProvidedConcat(items[..from], [moved[from]]);
    CoveredPrefix(items, moved, from);
  }

  lemma {:induction false} StillReady<K>(items: seq<Item<K>>, moved: seq<Item<K>>, idxs: seq<nat>, from: nat, ready: set<K>)
    requires |moved| == |items| && Ascending(|items|, idxs, from) && AllReady(items, idxs, from, ready)
    requires forall i :: from <= i < |items| ==> moved[i] == items[i]
    ensures AllReady(moved, idxs, from, ready)
    decreases |idxs|
  {
    if idxs != [] {
      StillReady(items, moved, idxs[1..], idxs[0] + 1, ready);
    }
  }

  /** `b` is `a` with the places from `from` on permuted. */
  ghost predicate SamePrefix<K>(a: seq<Item<K>>, b: seq<Item<K>>, from: nat) {
    |a| == |b| && from <= |a| && multiset(a) == multiset(b) && a[..from] == b[..from]
  }

  lemma {:induction false} SamePrefixChain<K>(a: seq<Item<K>>, b: seq<Item<K>>, c: seq<Item<K>>, from: nat)
    requires from < |a| && SamePrefix(a, b, from) && SamePrefix(b, c, from + 1)
    ensures SamePrefix(a, c, from)
  {
    assert b[..from] == b[..from + 1][..from] == c[..from + 1][..from] == c[..from];
  }

  /** One round keeps the finished prefix, permutes the rest and appends covered items. */
  lemma {:induction false} MoveAllKeepsOrder<K>(items: seq<Item<K>>, from: nat, idxs: seq<nat>, ready: set<K>)
    requires Ascending(|items|, idxs, from) && from <= |items|
    requires Covered(items, from) && ready <= Provided(items[..from])
    requires AllReady(items, idxs, from, ready)
    ensures from + |idxs| <= |items|
    ensures SamePrefix(items, MoveAll(items, from, idxs), from) && Covered(MoveAll(items, from, idxs), from + |idxs|)
    decreases |idxs|
  {
    if idxs != [] {
      SwapStep(items, from, idxs[0]);
      var moved := Swap(items, idxs[0], from);
      var rest := idxs[1..];
      StillReady(items, moved, rest, idxs[0] + 1, ready);
      AllReadyFrom(moved, rest, idxs[0] + 1, from + 1, ready);
      MoveAllKeepsOrder(moved, from + 1, rest, ready);
      SamePrefixChain(items, moved, MoveAll(moved, from + 1, rest), from);
    }
  }

  /** What every round of the outer loop keeps. */
  ghost predicate Invariant<K>(s: Sorting<K>) {
    s.finished <= |s.items| && Covered(s.items, s.finished) && s.done == Provided(s.items[..s.finished])
  }

  lemma {:induction false} RoundKeepsInvariant<K>(s: Sorting<K>)
    requires Invariant(s)
    ensures Invariant(Advance(s)) && multiset(Advance(s).items) == multiset(s.items)
  {
    var from := s.finished;
    ReadyIsReady(s.items, from, s.done);
    var idxs := Ready(s.items, from, s.done);
    MoveAllKeepsOrder(s.items, from, idxs, s.done);
    RoundIsAdvance(s.items, from, s.done, idxs);
    FinishedGrows(s.items, MoveAll(s.items, from, idxs), from, from + |idxs|);
  }

  lemma {:induction false} FinishedGrows<K>(was: seq<Item<K>>, now: seq<Item<K>>, from: nat, upTo: nat)
    requires SamePrefix(was, now, from) && from <= upTo <= |now|
    ensures Provided(now[..upTo]) == Provided(was[..from]) + Provided(now[from..upTo])
  {
    ProvidedConcat(now[..from], now[from..upTo]);
    assert now[..from] + now[from..upTo] == now[..upTo];
  }

  /** A successful sort is a good order. */
  lemma {:induction false} RoundsSound<K>(s: Sorting<K>)
    requires Invariant(s)
    ensures Rounds(s).Known? ==> GoodOrder(Rounds(s).value, s.items)
    decreases |s.items| - s.finished
  {
    if s.finished < |s.items| && Ready(s.items, s.finished, s.done) != [] {
      RoundKeepsInvariant(s);
      RoundsSound(Advance(s));
    }
  }

  /** When nothing unfinished is ready, no order of these items is good. */
  lemma {:induction false} StuckMeansNoOrder<K>(items: seq<Item<K>>, from: nat, done: set<K>, order: seq<Item<K>>)
    requires from < |items| && done == Provided(items[..from])
    requires Ready(items, from, done) == []
    ensures !GoodOrder(order, items)
  {
    if GoodOrder(order, items) {
      assert items[from] in multiset(items);
      assert items[from] in multiset(order);
      var k :| 0 <= k < |order| && order[k] == items[from];
      var first := FirstUnfinished(items, from, order, k);
      forall i | 0 <= i < first
        ensures order[..first][i].has <= done
      {
        assert order[i] in multiset(order);
        assert order[i] in multiset(items);
        var j :| 0 <= j < |items| && items[j] == order[i];
        assert j < from;
        ProvidedHas(items[..from], j);
        assert items[..from][j] == order[i];
      }
      ProvidedWithin(order[..first], done);
      CoveredAt(order, |order|, first);
      var j :| from <= j < |items| && items[j] == order[first];
      ReadyMissesNothing(items, from, done, j);
    }
  }

  lemma {:induction false} FirstUnfinished<K>(items: seq<Item<K>>, from: nat, order: seq<Item<K>>, k: nat)
    returns (first: nat)
    requires from < |items| && k < |order| && order[k] in items[from..]
    ensures first < |order| && order[first] in items[from..]
    ensures forall i :: 0 <= i < first ==> order[i] !in items[from..]
    decreases k
  {
    if i :| 0 <= i < k && order[i] in items[from..] {
      first := FirstUnfinished(items, from, order, i);
    } else {
      first := k;
    }
  }

  lemma {:induction false} GoodOrderTransfers<K>(order: seq<Item<K>>, a: seq<Item<K>>, b: seq<Item<K>>)
    requires multiset(a) == multiset(b)
    ensures GoodOrder(order, a) <==> GoodOrder(order, b)
  {
  }

  lemma {:induction false} RoundsComplete<K>(s: Sorting<K>, order: seq<Item<K>>)
    requires Invariant(s) && Rounds(s) == Unknown
    ensures !GoodOrder(order, s.items)
    decreases |s.items| - s.finished
  {
    if Ready(s.items, s.finished, s.done) == [] {
      StuckMeansNoOrder(s.items, s.finished, s.done, order);
    } else {
      RoundKeepsInvariant(s);
      RoundsComplete(Advance(s), order);
      GoodOrderTransfers(order, Advance(s).items, s.items);
    }
  }

  /** The whole sort of a list of items. */
  function SortItems<K>(items: seq<Item<K>>): (r: Maybe<seq<Item<K>>>) {
    Rounds(Sorting(items, 0, {}))
  }

  /** The sort succeeds exactly when a good order exists, and then returns one. */
  lemma {:induction false} SortIsExact<K>(items: seq<Item<K>>)
    ensures SortItems(items).Known? <==> exists order :: GoodOrder(order, items)
    ensures SortItems(items).Known? ==> GoodOrder(SortItems(items).value, items)
  {
    var s := Sorting(items, 0, {});
    assert items[..0] == [];
    RoundsSound(s);
    if SortItems(items).Known? {
      assert GoodOrder(SortItems(items).value, items);
    }
    if order :| GoodOrder(order, items) {
      if Rounds(s) == Unknown {
        RoundsComplete(s, order);
      }
    }
  }

  // ---- The sort itself ------------------------------------------------------------------------

  /** The items to sort, with the needs the caller's function reports; Unknown if it fails. */
  function ItemsOf<K, T>(list: seq<T>, needs: (set<K>, T) -> Maybe<set<K>>, has: T -> set<K>): (r: Maybe<seq<Item<K>>>)
  {
    var possible := Possible(list, has);
    if forall i :: 0 <= i < |list| ==> needs(possible, list[i]).Known? then
      Known(seq(|list|, i requires 0 <= i < |list| => Item(i, needs(possible, list[i]).value, has(list[i]))))
    else Unknown
  }

  lemma {:induction false} PossibleHas<K, T>(list: seq<T>, has: T -> set<K>, i: nat)
    requires i < |list|
    ensures has(list[i]) <= Possible(list, has)
  {
    if i < |list| - 1 {
      PossibleHas(list[..|list| - 1], has, i);
    }
  }

  /** Every item provides something possible; swapping keeps that. */
  ghost predicate AllPossible<K>(items: seq<Item<K>>, possible: set<K>) {
    forall i :: 0 <= i < |items| ==> items[i].has <= possible
  }

  /** The result of `toposort`, as a function of its arguments. */
  function SortResult<K, T>(list: seq<T>, needs: (set<K>, T) -> Maybe<set<K>>, has: T -> set<K>): Sorted<K> {
    match ItemsOf(list, needs, has)
    case Unknown => NeedsFailed
    case Known(items) =>
      match SortItems(items)
      case Unknown => Deadlock
      case Known(order) => Ordered(order)
  }

  /** `toposort`. */
  method Sort<K(==), T>(list: seq<T>, needs: (set<K>, T) -> Maybe<set<K>>, has: T -> set<K>) returns (r: Sorted<K>)
    ensures r == SortResult(list, needs, has)
  {
    var items, possible, failed := Prepare(list, needs, has);
    if failed {
      return NeedsFailed;
    }
    var done: set<K> := {};
    var finished := 0;
    while finished < items.Length
      invariant finished <= items.Length
      invariant AllPossible(items[..], possible) && done <= possible
      invariant ItemsOf(list, needs, has).Known?
      invariant Rounds(Sorting(items[..], finished, done)) == SortItems(ItemsOf(list, needs, has).value)
      decreases items.Length - finished
    {
      var front := FindReady(items, finished, done);
      if front == [] {
        return Deadlock;
      }
      ghost var before := Sorting(items[..], finished, done);
      finished, done := MoveToFront(items, finished, done, possible, front);
      assert Sorting(items[..], finished, done) == Advance(before);
    }
    return Ordered(items[..]);
  }

  /** The items with what they provide, then everything possible, then the needs. */
  method Prepare<K(==), T>(list: seq<T>, needs: (set<K>, T) -> Maybe<set<K>>, has: T -> set<K>)
    returns (items: array<Item<K>>, possible: set<K>, failed: bool)
    ensures fresh(items) && failed == ItemsOf(list, needs, has).Unknown?
    ensures !failed ==> items[..] == ItemsOf(list, needs, has).value && AllPossible(items[..], possible)
  {
    items := new Item<K>[|list|](i requires 0 <= i < |list| => Item(i, {}, has(list[i])));
    possible := {};
    for i := 0 to |list|
      invariant possible == Possible(list[..i], has)
      invariant items.Length == |list|
      invariant forall j :: 0 <= j < |list| ==> items[j] == Item(j, {}, has(list[j]))
    {
      assert list[..i + 1][..i] == list[..i];
      possible := possible + items[i].has;
    }
    assert list[..|list|] == list;
    failed := false;
    for i := 0 to |list|
      invariant items.Length == |list|
      invariant forall j :: i <= j < |list| ==> items[j] == Item(j, {}, has(list[j]))
      invariant forall j :: 0 <= j < i ==>
                  needs(possible, list[j]).Known?
                  && items[j] == Item(j, needs(possible, list[j]).value, has(list[j]))
    {
      var n := needs(possible, list[i]);
      if n == Unknown {
        failed := true;
        return;
      }
      items[i] := items[i].(needs := n.value);
    }
    forall i | 0 <= i < items.Length
      ensures items[i].has <= possible
    {
      PossibleHas(list, has, i);
    }
  }

  method FindReady<K(==)>(items: array<Item<K>>, finished: nat, done: set<K>) returns (front: seq<nat>)
    requires finished <= items.Length
    ensures front == Ready(items[..], finished, done)
  {
    front := [];
    var i := finished;
    assert [] + Ready(items[..], finished, done) == Ready(items[..], finished, done);
    while i < items.Length
      invariant finished <= i <= items.Length
      invariant front + Ready(items[..], i, done) == Ready(items[..], finished, done)
    {
      ghost var rest := Ready(items[..], i + 1, done);
      if items[i].needs <= done {
        assert front + ([i] + rest) == (front + [i]) + rest;
        front := front + [i];
      } else {
        assert [] + rest == rest;
      }
      i := i + 1;
    }
    assert front + [] == front;
  }

  /** One turn of the swapping loop; what is done is cut down to what is possible each time. */
  method PlaceNext<K(==)>(items: array<Item<K>>, idx: nat, finished: nat, done: set<K>, possible: set<K>)
    returns (done': set<K>)
    requires finished <= idx < items.Length && AllPossible(items[..], possible) && done <= possible
    modifies items
    ensures items[..] == Swap(old(items[..]), idx, finished)
    ensures AllPossible(items[..], possible) && done' <= possible
    ensures done' == done + items[finished].has
  {
    if idx != finished {
      var tmp := items[idx];
      items[idx] := items[finished];
      items[finished] := tmp;
    }
    assert items[..] == Swap(old(items[..]), idx, finished);
    var u := done + items[finished].has;
    done' := u * possible;
    assert items[..][finished].has <= possible;
    forall i | 0 <= i < items.Length
      ensures items[..][i].has <= possible
    {
      assert items[i] == old(items[..])[if i == finished then idx else if i == idx then finished else i];
    }
  }

  /** What remains of a round after its first move. */
  lemma {:induction false} MoveAllUnfolds<K>(items: seq<Item<K>>, from: nat, idxs: seq<nat>)
    requires idxs != [] && Ascending(|items|, idxs, from)
    ensures Ascending(|items|, idxs[1..], from + 1) && from <= idxs[0] < |items|
    ensures MoveAll(items, from, idxs) == MoveAll(Swap(items, idxs[0], from), from + 1, idxs[1..])
  {
    AscendingFrom(|items|, idxs[1..], idxs[0] + 1, from + 1);
  }

  lemma {:induction false} ProvidedOneMore<K>(was: seq<Item<K>>, now: seq<Item<K>>, start: nat, end: nat, idx: nat)
    requires start <= end <= idx < |was| && now == Swap(was, idx, end)
    ensures Provided(now[start..end + 1]) == Provided(was[start..end]) + now[end].has
  {
    var p := now[start..end + 1];
    forall i | 0 <= i < end - start ensures p[i] == was[start..end][i] { assert now[start + i] == was[start + i]; }
    assert p[..|p| - 1] == was[start..end];
  }

  /** How far a round has come. */
  ghost predicate InRound<K>(start: seq<Item<K>>, finished: nat, done: set<K>, front: seq<nat>,
                             now: seq<Item<K>>, upTo: nat, done': set<K>, rest: seq<nat>)
    requires Ascending(|start|, front, finished)
  {
    finished <= upTo && upTo + |rest| == finished + |front| <= |start| == |now|
    && Ascending(|now|, rest, upTo) && MoveAll(now, upTo, rest) == MoveAll(start, finished, front)
    && done' == done + Provided(now[finished..upTo])
  }

  lemma {:induction false} InRoundNext<K>(start: seq<Item<K>>, finished: nat, done: set<K>, front: seq<nat>,
                       now: seq<Item<K>>, upTo: nat, done': set<K>, rest: seq<nat>)
    requires Ascending(|start|, front, finished) && rest != []
    requires InRound(start, finished, done, front, now, upTo, done', rest)
    ensures upTo <= rest[0] < |now|
    ensures var next := Swap(now, rest[0], upTo);
            InRound(start, finished, done, front, next, upTo + 1, done' + next[upTo].has, rest[1..])
  {
    MoveAllUnfolds(now, upTo, rest);
    ProvidedOneMore(now, Swap(now, rest[0], upTo), finished, upTo, rest[0]);
  }

  /** One turn of the swapping loop and how far the round has come after it. */
  method Turn<K(==)>(items: array<Item<K>>, upTo: nat, doneNow: set<K>, possible: set<K>, front: seq<nat>, k: nat,
                     ghost start: seq<Item<K>>, ghost finished: nat, ghost done: set<K>)
    returns (doneNext: set<K>)
    requires Ascending(|start|, front, finished) && k < |front|
    requires InRound(start, finished, done, front, items[..], upTo, doneNow, front[k..])
    requires AllPossible(items[..], possible) && doneNow <= possible
    modifies items
    ensures InRound(start, finished, done, front, items[..], upTo + 1, doneNext, front[k + 1..])
    ensures AllPossible(items[..], possible) && doneNext <= possible
  {
    InRoundNext(start, finished, done, front, items[..], upTo, doneNow, front[k..]);
    doneNext := PlaceNext(items, front[k], upTo, doneNow, possible);
    assert front[k..][1..] == front[k + 1..];
  }

  /** The swapping loop. */
  method SwapAll<K(==)>(items: array<Item<K>>, finished: nat, done: set<K>, possible: set<K>, front: seq<nat>)
    returns (finished': nat, done': set<K>)
    requires Ascending(items.Length, front, finished) && finished + |front| <= items.Length
    requires AllPossible(items[..], possible) && done <= possible
    modifies items
    ensures AllPossible(items[..], possible) && done' <= possible
    ensures InRound(old(items[..]), finished, done, front, items[..], finished', done', [])
  {
    finished', done' := finished, done;
    ghost var start := items[..];
    var k := 0;
    assert front[0..] == front;
    while k < |front|
      invariant k <= |front| && AllPossible(items[..], possible) && done' <= possible
      invariant InRound(start, finished, done, front, items[..], finished', done', front[k..])
    {
      done' := Turn(items, finished', done', possible, front, k, start, finished, done);
      finished', k := finished' + 1, k + 1;
    }
    assert front[k..] == [];
  }

  /** A round of swaps is one step of the sort. */
  method MoveToFront<K(==)>(items: array<Item<K>>, finished: nat, done: set<K>, possible: set<K>, front: seq<nat>)
    returns (finished': nat, done': set<K>)
    requires finished <= items.Length && front == Ready(items[..], finished, done)
    requires AllPossible(items[..], possible) && done <= possible
    modifies items
    ensures AllPossible(items[..], possible) && done' <= possible && finished' <= items.Length
    ensures Sorting(items[..], finished', done') == Advance(old(Sorting(items[..], finished, done)))
  {
    ReadyIsReady(items[..], finished, done);
    AscendingFits(items.Length, front, finished);
    finished', done' := SwapAll(items, finished, done, possible, front);
    RoundEnds(old(items[..]), finished, done, front, items[..], finished', done');
  }

  lemma {:induction false} RoundEnds<K>(start: seq<Item<K>>, finished: nat, done: set<K>, front: seq<nat>, now: seq<Item<K>>, upTo: nat, done': set<K>)
    requires finished <= |start| && front == Ready(start, finished, done) && Ascending(|start|, front, finished)
    requires InRound(start, finished, done, front, now, upTo, done', [])
    ensures upTo <= |now| && Sorting(now, upTo, done') == Advance(Sorting(start, finished, done))
  {
    RoundIsAdvance(start, finished, done, front);
  }
}
