/** `find_helper_target`: which helper a name stands for in a namespace. */
module NamespaceSearch {
  import opened Numbers
  import opened SExpressions
  import opened Namespaces

  function MacroPrefix(): bytes { [95, 95, 99, 104, 105, 97, 95, 95, 100, 101, 102, 109, 97, 99, 95, 95] }   // "__chia__defmac__"

  /** `is_macro_name`. */
  predicate IsMacroName(name: LongName) { name != [] && MacroPrefix() <= Child(name) }

  /** `exposed_name_matches`. */
  predicate Exposes(x: Listed, name: bytes) { if x.alias.Some? then name == x.alias.value else name == x.name }

  function InNamespace(ps: seq<Placed>, ns: Option<LongName>): (r: seq<Placed>)
    ensures forall p :: p in r <==> p in ps && p.namespace == ns
  {
    if ps == [] then [] else (if ps[0].namespace == ns then [ps[0]] else []) + InNamespace(ps[1..], ns)
  }

  function Home(helpers: seq<Helper>, ns: Option<LongName>): (r: seq<Placed>) { InNamespace(Tour(None, helpers), ns) }

  /** The first helper of a name. */
  function DirectIn(home: seq<Placed>, name: bytes): (r: Option<Helper>)
    ensures r.Some? ==> IsNamed(r.value) && HelperName(r.value) == name && exists p :: p in home && p.helper == r.value
    ensures r == None ==> forall p :: p in home && IsNamed(p.helper) ==> HelperName(p.helper) != name
  {
    if home == [] then None
    else if IsNamed(home[0].helper) && HelperName(home[0].helper) == name then Some(home[0].helper)
    else DirectIn(home[1..], name)
  }

  /** A place to look: a namespace and a name in it. */
  datatype Lead = Lead(from: LongName, child: bytes)

  function ExposedLeads(from: LongName, xs: seq<Listed>, orig: bytes, name: LongName): (r: seq<Lead>)
    ensures forall l :: l in r ==> l.from == from
  {
    if xs == [] then []
    else
      (if Exposes(xs[0], orig) then [Lead(from, if IsMacroName(name) then Child(name) else xs[0].name)] else [])
      + ExposedLeads(from, xs[1..], orig, name)
  }

  /** Where an import sends the search. */
  function Leads(from: LongName, spec: ImportSpec, orig: bytes, name: LongName): (r: seq<Lead>)
    ensures forall l :: l in r ==> l.from == from
  {
    match spec
    case Qualified(Some(t)) => if Parent(name) == Some(t) then [Lead(from, Child(name))] else []
    case Qualified(None) => if Parent(name) == Some(from) then [Lead(from, Child(name))] else []
    case Exposing(xs) => if Parent(name).Some? then [] else ExposedLeads(from, xs, orig, name)
    case Hiding(hs) =>
      if Parent(name).Some? || exists i :: 0 <= i < |hs| && hs[i].name == orig then [] else [Lead(from, Child(name))]
  }

  function AllLeads(home: seq<Placed>, orig: bytes, name: LongName): (r: seq<Lead>) {
    if home == [] then []
    else
      (match home[0].helper case NsRef(from, spec) => Leads(from, spec, orig, name) case _ => []) + AllLeads(home[1..], orig, name)
  }

  datatype Search = Found(full: LongName, helper: Helper) | Missing | Endless

  function FullName(ns: Option<LongName>, child: bytes): LongName {
    match ns case Some(p) => p + [child] case None => ParseName(child)
  }

  /** `find_helper_target`; `k` bounds the depth of imports followed. */
  function Find(k: nat, helpers: seq<Helper>, ns: Option<LongName>, orig: bytes, name: LongName): (r: Search)
    decreases k, 1, 0
  {
    var home := Home(helpers, ns);
    var direct := DirectIn(home, Child(name));
    if (Parent(name) == None || Parent(name) == ns) && direct.Some? then Found(FullName(ns, Child(name)), direct.value)
    else FindFirst(k, helpers, AllLeads(home, orig, name), orig)
  }

  function FindFirst(k: nat, helpers: seq<Helper>, leads: seq<Lead>, orig: bytes): (r: Search)
    decreases k, 0, |leads|
  {
    if leads == [] then Missing
    else if k == 0 then Endless
    else
      var first := Find(k - 1, helpers, Some(leads[0].from), orig, leads[0].from + [leads[0].child]);
      if first == Missing then FindFirst(k, helpers, leads[1..], orig) else first
  }

  // ---- What is found ---------------------------------------------------------------------------

  /** The helper that a full name names. */
  function At(helpers: seq<Helper>, full: LongName): (r: Option<Helper>) { DirectIn(Home(helpers, Parent(full)), Child(full)) }

  /** Imports are from somewhere. */
  predicate ImportsNamed(helpers: seq<Helper>) {
    forall p :: p in Tour(None, helpers) && p.helper.NsRef? ==> p.helper.from != []
  }

  lemma {:induction false} LeadsFrom(home: seq<Placed>, orig: bytes, name: LongName)
    ensures forall l :: l in AllLeads(home, orig, name) ==> exists p :: p in home && p.helper.NsRef? && p.helper.from == l.from
  {
    if home != [] {
      LeadsFrom(home[1..], orig, name);
    }
  }

  /** A namespace to search from: the root, looking for a name without dots, or a named one. */
  predicate Searchable(ns: Option<LongName>, name: LongName) {
    match ns case None => Dotless(Child(name)) case Some(p) => p != []
  }

  /** What is found is what its full name names. */
  lemma {:induction false} FoundIsNamed(k: nat, helpers: seq<Helper>, ns: Option<LongName>, orig: bytes, name: LongName)
    requires ImportsNamed(helpers) && Searchable(ns, name) && Find(k, helpers, ns, orig, name).Found?
    ensures var r := Find(k, helpers, ns, orig, name); At(helpers, r.full) == Some(r.helper) && r.full != []
    decreases k, 1, 0
  {
    var home := Home(helpers, ns);
    var direct := DirectIn(home, Child(name));
    if (Parent(name) == None || Parent(name) == ns) && direct.Some? {
      var full := FullName(ns, Child(name));
      if ns == None {
        DotlessParses(Child(name));
      } else {
        assert full[..|full| - 1] == ns.value;
      }
    } else {
      LeadsFrom(home, orig, name);
      FirstFoundIsNamed(k, helpers, AllLeads(home, orig, name), orig);
    }
  }

  lemma {:induction false} DotlessParses(s: bytes)
    requires Dotless(s)
    ensures ParseName(s) == [s]
  {
    SplitDotless(s);
  }

  lemma {:induction false} FirstFoundIsNamed(k: nat, helpers: seq<Helper>, leads: seq<Lead>, orig: bytes)
    requires ImportsNamed(helpers) && (forall l :: l in leads ==> l.from != []) && FindFirst(k, helpers, leads, orig).Found?
    ensures var r := FindFirst(k, helpers, leads, orig); At(helpers, r.full) == Some(r.helper) && r.full != []
    decreases k, 0, |leads|
  {
    var name := leads[0].from + [leads[0].child];
    if Find(k - 1, helpers, Some(leads[0].from), orig, name) == Missing {
      FirstFoundIsNamed(k, helpers, leads[1..], orig);
    } else {
      FoundIsNamed(k - 1, helpers, Some(leads[0].from), orig, name);
    }
  }

  /** Only the root's own helpers have full names of one component. */
  lemma {:induction false} FoundShape(k: nat, helpers: seq<Helper>, ns: Option<LongName>, orig: bytes, name: LongName)
    requires ImportsNamed(helpers) && Searchable(ns, name) && Find(k, helpers, ns, orig, name).Found?
    ensures var full := Find(k, helpers, ns, orig, name).full; |full| > 1 || (ns == None && Parent(name) == None && full == [Child(name)])
    decreases k, 1, 0
  {
    var home := Home(helpers, ns);
    if (Parent(name) == None || Parent(name) == ns) && DirectIn(home, Child(name)).Some? {
      if ns == None {
        DotlessParses(Child(name));
      }
    } else {
      LeadsFrom(home, orig, name);
      FirstFoundShape(k, helpers, AllLeads(home, orig, name), orig);
    }
  }

  lemma {:induction false} FirstFoundShape(k: nat, helpers: seq<Helper>, leads: seq<Lead>, orig: bytes)
    requires ImportsNamed(helpers) && (forall l :: l in leads ==> l.from != []) && FindFirst(k, helpers, leads, orig).Found?
    ensures |FindFirst(k, helpers, leads, orig).full| > 1
    decreases k, 0, |leads|
  {
    var name := leads[0].from + [leads[0].child];
    if Find(k - 1, helpers, Some(leads[0].from), orig, name) == Missing {
      FirstFoundShape(k, helpers, leads[1..], orig);
    } else {
      FoundShape(k - 1, helpers, Some(leads[0].from), orig, name);
    }
  }

  /** When variables have no dots in their names, a full name written in place of a global name is
      taken for a variable exactly if the global name is a variable's name with a dot before it. */
  lemma {:induction false} FullNamesAreNotCaptured(k: nat, helpers: seq<Helper>, ns: Option<LongName>, scope: set<bytes>, name: bytes)
    requires ImportsNamed(helpers) && ns != Some([]) && name !in scope && forall x :: x in scope ==> Dotless(x)
    requires Find(k, helpers, ns, name, ParseName(name)).Found?
    ensures var full := Find(k, helpers, ns, name, ParseName(name)).full;
            Render(full) in scope <==> |full| == 1 && full[0] in scope && name == [DOT] + full[0]
  {
    var full := Find(k, helpers, ns, name, ParseName(name)).full;
    assert Child(ParseName(name)) in ParseName(name);
    FoundShape(k, helpers, ns, name, ParseName(name));
    if |full| > 1 {
      LongNamesHaveDots(full);
    } else {
      OneComponent(name, full[0]);
    }
  }

  // ---- When the search ends --------------------------------------------------------------------

  /** Not a qualified import under the name of the namespace it stands in. */
  predicate OtherName(ns: Option<LongName>, h: Helper) {
    h.NsRef? && h.spec.Qualified? ==> (match h.spec.target case Some(t) => ns != Some(t) case None => ns != Some(h.from))
  }

  predicate NoOwnNames(helpers: seq<Helper>) { forall p :: p in Tour(None, helpers) ==> OtherName(p.namespace, p.helper) }

  lemma {:induction false} NoLeadsFrom(home: seq<Placed>, ns: LongName, orig: bytes, name: LongName)
    requires Parent(name) == Some(ns) && forall p :: p in home ==> p.namespace == Some(ns) && OtherName(p.namespace, p.helper)
    ensures AllLeads(home, orig, name) == []
  {
    if home != [] {
      assert home[0] in home;
      NoLeadsFrom(home[1..], ns, orig, name);
    }
  }

  /** The first lead whose full name names a helper. */
  function FirstNamed(helpers: seq<Helper>, leads: seq<Lead>): (r: Search) {
    if leads == [] then Missing
    else match At(helpers, leads[0].from + [leads[0].child])
      case Some(h) => Found(leads[0].from + [leads[0].child], h)
      case None => FirstNamed(helpers, leads[1..])
  }

  /** Imports are not passed on: unless a namespace takes its own name for an import, the search ends
      and looks no further than the namespaces imported directly. */
  lemma {:induction false} SearchLooksOnce(k: nat, helpers: seq<Helper>, ns: Option<LongName>, orig: bytes, name: LongName)
    requires k > 0 && NoOwnNames(helpers) && ImportsNamed(helpers)
    ensures var home, direct := Home(helpers, ns), DirectIn(Home(helpers, ns), Child(name));
            Find(k, helpers, ns, orig, name) ==
            if (Parent(name) == None || Parent(name) == ns) && direct.Some? then Found(FullName(ns, Child(name)), direct.value)
            else FirstNamed(helpers, AllLeads(home, orig, name))
  {
    LeadsFrom(Home(helpers, ns), orig, name);
    LeadsLookOnce(k, helpers, AllLeads(Home(helpers, ns), orig, name), orig);
  }

  lemma {:induction false} LeadsLookOnce(k: nat, helpers: seq<Helper>, leads: seq<Lead>, orig: bytes)
    requires k > 0 && NoOwnNames(helpers) && forall l :: l in leads ==> l.from != []
    ensures FindFirst(k, helpers, leads, orig) == FirstNamed(helpers, leads)
    decreases |leads|
  {
    if leads != [] {
      var from, name := leads[0].from, leads[0].from + [leads[0].child];
      assert name[..|name| - 1] == from;
      NoLeadsFrom(Home(helpers, Some(from)), from, orig, name);
      assert FindFirst(k - 1, helpers, [], orig) == Missing;
      LeadsLookOnce(k, helpers, leads[1..], orig);
    }
  }

  /** (namespace A (import qualified A)) */
  function SelfImport(): seq<Helper> { [Namespace([[65]], [NsRef([[65]], Qualified(None))])] }

  /** With such an import, a search for a name that is not there never ends, however long it may
      take. */
  lemma {:induction false} SelfImportNeverEnds(k: nat, x: bytes, orig: bytes)
    ensures Find(k, SelfImport(), Some([[65]]), orig, [[65], x]) == Endless && ImportsNamed(SelfImport()) && !NoOwnNames(SelfImport())
  {
    var own: LongName := [[65]];
    var here := Placed(Some(own), NsRef(own, Qualified(None)));
    var inside: seq<Helper> := [NsRef(own, Qualified(None))];
    assert Tour(Some(own), inside) == [here] + Tour(Some(own), inside[1..]) == [here];
    assert Tour(None, SelfImport()) == Tour(Some(own), inside) + Tour(None, SelfImport()[1..]) == [here];
    assert InNamespace([here], Some(own)) == [here] + InNamespace([here][1..], Some(own)) == [here];
    var name := [[65], x];
    assert name[..1] == own && name == own + [x];
    assert DirectIn([here], x) == DirectIn([here][1..], x) == None;
    assert AllLeads([here], orig, name) == [Lead(own, x)] + AllLeads([here][1..], orig, name) == [Lead(own, x)];
    if k > 0 {
      SelfImportNeverEnds(k - 1, x, orig);
    }
    assert here in Tour(None, SelfImport()) && !OtherName(here.namespace, here.helper);
  }

  /** A namespace imports another under its own name. */
  ghost predicate OwnImport(home: seq<Placed>, ns: LongName, from: LongName) {
    exists p :: p in home && p.helper.NsRef? && !OtherName(Some(ns), p.helper) && p.helper.from == from
  }

  /** A chain of such imports. */
  ghost predicate OwnChain(helpers: seq<Helper>, ns: LongName, length: nat)
    decreases length
  {
    length == 0 || exists from :: OwnImport(Home(helpers, Some(ns)), ns, from) && OwnChain(helpers, from, length - 1)
  }

  predicate Nowhere(helpers: seq<Helper>, x: bytes) {
    forall p :: p in Tour(None, helpers) && IsNamed(p.helper) ==> HelperName(p.helper) != x
  }

  lemma {:induction false} OwnLeads(home: seq<Placed>, ns: LongName, orig: bytes, x: bytes)
    requires forall p :: p in home ==> p.namespace == Some(ns)
    requires Parent(ns + [x]) == Some(ns) && Child(ns + [x]) == x
    ensures forall l :: l in AllLeads(home, orig, ns + [x]) <==> l.child == x && OwnImport(home, ns, l.from)
  {
    if home != [] {
      assert home[0] in home;
      OwnLeads(home[1..], ns, orig, x);
      var first, rest := home[0].helper, home[1..];
      assert home == [home[0]] + rest;
      forall from ensures OwnImport(home, ns, from) <==> (first.NsRef? && !OtherName(Some(ns), first) && first.from == from) || OwnImport(rest, ns, from) {
        if first.NsRef? && !OtherName(Some(ns), first) && first.from == from {
          assert home[0] in home;
        }
      }
    }
  }

  lemma {:induction false} EndlessLead(k: nat, helpers: seq<Helper>, leads: seq<Lead>, orig: bytes, x: bytes)
    requires k > 0
    requires forall l :: l in leads ==> l.child == x && !LeadSearch(k, helpers, l, orig).Found?
    ensures FindFirst(k, helpers, leads, orig) == Endless <==> exists l :: l in leads && LeadSearch(k, helpers, l, orig) == Endless
    ensures !FindFirst(k, helpers, leads, orig).Found?
    decreases |leads|
  {
    if leads != [] {
      assert FindFirst(k, helpers, leads, orig) ==
             if LeadSearch(k, helpers, leads[0], orig) == Missing then FindFirst(k, helpers, leads[1..], orig)
             else LeadSearch(k, helpers, leads[0], orig);
      EndlessLead(k, helpers, leads[1..], orig, x);
    }
  }

  function LeadSearch(k: nat, helpers: seq<Helper>, l: Lead, orig: bytes): Search
    requires k > 0
  {
    Find(k - 1, helpers, Some(l.from), orig, l.from + [l.child])
  }

  /** Exactly when the search for a name that is nowhere ends: when imports do not chain back under
      namespaces' own names for ever. */
  lemma {:induction false} EndlessIsOwnChain(k: nat, helpers: seq<Helper>, ns: LongName, orig: bytes, x: bytes)
    requires ImportsNamed(helpers) && Nowhere(helpers, x) && ns != []
    ensures Find(k, helpers, Some(ns), orig, ns + [x]) == (if OwnChain(helpers, ns, k + 1) then Endless else Missing)
  {
    var home, name := Home(helpers, Some(ns)), ns + [x];
    assert name[..|name| - 1] == ns;
    assert DirectIn(home, x) == None;
    OwnLeads(home, ns, orig, x);
    var leads := AllLeads(home, orig, name);
    if k == 0 {
      NoStepsLeft(helpers, ns, orig, x);
    } else {
      forall l | l in leads
        ensures LeadSearch(k, helpers, l, orig) == (if OwnChain(helpers, l.from, k) then Endless else Missing)
      {
        OwnFrom(helpers, ns, l.from);
        EndlessIsOwnChain(k - 1, helpers, l.from, orig, x);
      }
      EndlessLead(k, helpers, leads, orig, x);
      EndlessStep(k, helpers, ns, orig, x);
    }
  }

  lemma {:induction false} NoStepsLeft(helpers: seq<Helper>, ns: LongName, orig: bytes, x: bytes)
    requires forall l :: l in AllLeads(Home(helpers, Some(ns)), orig, ns + [x]) <==> l.child == x && OwnImport(Home(helpers, Some(ns)), ns, l.from)
    ensures AllLeads(Home(helpers, Some(ns)), orig, ns + [x]) != [] <==> OwnChain(helpers, ns, 1)
  {
    var leads := AllLeads(Home(helpers, Some(ns)), orig, ns + [x]);
    if leads != [] {
      assert leads[0] in leads;
      assert OwnChain(helpers, leads[0].from, 0) && OwnChain(helpers, ns, 1);
    }
    if OwnChain(helpers, ns, 1) {
      var from :| OwnImport(Home(helpers, Some(ns)), ns, from) && OwnChain(helpers, from, 0);
      assert Lead(from, x) in leads;
    }
  }

  lemma {:induction false} OwnFrom(helpers: seq<Helper>, ns: LongName, from: LongName)
    requires ImportsNamed(helpers) && OwnImport(Home(helpers, Some(ns)), ns, from)
    ensures from != []
  {
  }

  lemma {:induction false} EndlessStep(k: nat, helpers: seq<Helper>, ns: LongName, orig: bytes, x: bytes)
    requires k > 0
    requires forall l :: l in AllLeads(Home(helpers, Some(ns)), orig, ns + [x]) <==> l.child == x && OwnImport(Home(helpers, Some(ns)), ns, l.from)
    requires forall l :: l in AllLeads(Home(helpers, Some(ns)), orig, ns + [x]) ==>
               LeadSearch(k, helpers, l, orig) == (if OwnChain(helpers, l.from, k) then Endless else Missing)
    ensures (exists l :: l in AllLeads(Home(helpers, Some(ns)), orig, ns + [x]) && LeadSearch(k, helpers, l, orig) == Endless)
            <==> OwnChain(helpers, ns, k + 1)
  {
    var leads := AllLeads(Home(helpers, Some(ns)), orig, ns + [x]);
    if OwnChain(helpers, ns, k + 1) {
      var from :| OwnImport(Home(helpers, Some(ns)), ns, from) && OwnChain(helpers, from, k);
      var l := Lead(from, x);
      assert l in leads && LeadSearch(k, helpers, l, orig) == Endless;
    }
    if exists l :: l in leads && LeadSearch(k, helpers, l, orig) == Endless {
      var l :| l in leads && LeadSearch(k, helpers, l, orig) == Endless;
      assert OwnChain(helpers, l.from, k);
    }
  }
}
