/** Translation of two-node profiles into requirements, and what it preserves. */
module LegacyProfile {
  import opened Options
  import opened Names
  import opened Placement
  import opened Admission

  datatype Alias = Node1 | Node2 | OtherAlias(name: nat)

  datatype Profile = Profile(placements: map<Alias, seq<Name>>)

  /** The two nodes the aliases stand for, and the workloads listed under each. */
  datatype Layout = Layout(first: Name, second: Name, one: seq<Name>, two: seq<Name>)

  datatype Translated = Translated(workloads: seq<Name>, requirements: seq<Requirement>, workersFirst: bool)

  function Active(fleet: Fleet): seq<Name> { SortedSeq(set n | n in fleet && !fleet[n].lifecycle.Retired?) }

  predicate Translatable(p: Profile, fleet: Fleet) { |Active(fleet)| >= 2 && p.placements.Keys == {Node1, Node2} }

  function LayoutOf(p: Profile, fleet: Fleet): Layout
    requires Translatable(p, fleet)
  {
    Layout(Active(fleet)[0], Active(fleet)[1], p.placements[Node1], p.placements[Node2])
  }

  function Hosted(l: Layout): set<Name> { Elements(l.one) + Elements(l.two) }

  /** Where the two-node profile runs a workload, in alias order. */
  function Home(l: Layout, w: Name): seq<Name> {
    (if w in l.one then [l.first] else []) + if w in l.two then [l.second] else []
  }

  /** `node` once for each time the workload is among the first `k` listed. */
  function Listed(workloads: seq<Name>, k: nat, w: Name, node: Name): seq<Name>
    requires k <= |workloads|
  {
    if k == 0 then []
    else Listed(workloads, k - 1, w, node) + if workloads[k - 1] == w then [node] else []
  }

  function Preferred(l: Layout, w: Name): seq<Name> {
    Listed(l.one, |l.one|, w, l.first) + Listed(l.two, |l.two|, w, l.second)
  }

  /** Exclusive means that every node it runs on hosts nothing else. The digest of the
      legacy definition is a fixed function of the workload's name. */
  function RequirementFor(l: Layout, w: Name, preferred: seq<Name>): Requirement {
    Requirement(w, w, |preferred|, map[], 0, 0,
                (l.first in preferred ==> |l.one| == 1) && (l.second in preferred ==> |l.two| == 1),
                |preferred| > 1, |preferred| > 1, preferred)
  }

  ghost predicate Translates(l: Layout, w: Name, r: Requirement) {
    r == RequirementFor(l, w, Home(l, w)) && ValidRequirement(r)
  }

  /** What the translation says about each hosted workload. */
  ghost predicate Faithful(l: Layout, t: Translated) {
    && Ascending(t.workloads) && (forall w :: w in t.workloads <==> w in Hosted(l))
    && |t.requirements| == |t.workloads|
    && (forall i :: 0 <= i < |t.workloads| ==> Translates(l, t.workloads[i], t.requirements[i]))
    && (t.workersFirst <==> exists i :: 0 <= i < |t.requirements| && t.requirements[i].distributed)
  }

  // ---- the translation ---------------------------------------------------------------

  function Prior(nodes: map<Name, seq<Name>>, w: Name): seq<Name> { if w in nodes then nodes[w] else [] }

  ghost predicate ExtendsAt(before: map<Name, seq<Name>>, workloads: seq<Name>, k: nat, node: Name,
                            nodes: map<Name, seq<Name>>, w: Name)
    requires k <= |workloads|
  {
    && (w in nodes <==> w in before || Listed(workloads, k, w, node) != [])
    && (w in nodes ==> nodes[w] == Prior(before, w) + Listed(workloads, k, w, node))
  }

  /** `nodes` extends `before` by the first `k` workloads listed for `node`. */
  ghost predicate Extends(before: map<Name, seq<Name>>, workloads: seq<Name>, k: nat, node: Name,
                          nodes: map<Name, seq<Name>>)
    requires k <= |workloads|
  {
    forall w :: ExtendsAt(before, workloads, k, node, nodes, w)
  }

  lemma ExtendsStep(before: map<Name, seq<Name>>, workloads: seq<Name>, k: nat, node: Name, nodes: map<Name, seq<Name>>)
    requires k < |workloads| && Extends(before, workloads, k, node, nodes)
    ensures Extends(before, workloads, k + 1, node, nodes[workloads[k] := Prior(nodes, workloads[k]) + [node]])
  {
    var nodes' := nodes[workloads[k] := Prior(nodes, workloads[k]) + [node]];
    var next := k + 1;
    forall w ensures ExtendsAt(before, workloads, next, node, nodes', w) {
      assert ExtendsAt(before, workloads, k, node, nodes, w);
    }
  }

  method AssignAlias(before: map<Name, seq<Name>>, workloads: seq<Name>, node: Name)
    returns (nodes: map<Name, seq<Name>>)
    ensures Extends(before, workloads, |workloads|, node, nodes)
  {
    nodes := before;
    assert forall w :: ExtendsAt(before, workloads, 0, node, nodes, w);
    for i := 0 to |workloads|
      invariant Extends(before, workloads, i, node, nodes)
    {
      ExtendsStep(before, workloads, i, node, nodes);
      nodes := nodes[workloads[i] := Prior(nodes, workloads[i]) + [node]];
    }
  }

  ghost predicate Assigned(l: Layout, nodes: map<Name, seq<Name>>, w: Name) {
    (w in nodes <==> w in Hosted(l)) && (w in nodes ==> nodes[w] == Preferred(l, w))
  }

  ghost predicate OnceIn(s: seq<Name>, w: Name) { forall i, j :: 0 <= i < j < |s| ==> !(s[i] == w && s[j] == w) }

  lemma OnceInStep(s: seq<Name>, x: Name, w: Name)
    ensures OnceIn(s + [x], w) <==> OnceIn(s, w) && !(x == w && w in s)
  {
    var s' := s + [x];
    assert forall i :: 0 <= i < |s| ==> s'[i] == s[i];
    if OnceIn(s', w) && x == w {
      assert forall i :: 0 <= i < |s| ==> !(s'[i] == w && s'[|s|] == w);
    }
  }

  lemma {:induction false} ListedCounts(workloads: seq<Name>, k: nat, w: Name, node: Name)
    requires k <= |workloads|
    ensures |Listed(workloads, k, w, node)| <= 1 <==> OnceIn(workloads[..k], w)
    ensures OnceIn(workloads[..k], w) ==> Listed(workloads, k, w, node) == if w in workloads[..k] then [node] else []
    ensures Listed(workloads, k, w, node) != [] <==> w in workloads[..k]
    ensures forall x :: x in Listed(workloads, k, w, node) ==> x == node
    ensures workloads[..|workloads|] == workloads
  {
    if k > 0 {
      ListedCounts(workloads, k - 1, w, node);
      assert workloads[..k] == workloads[..k - 1] + [workloads[k - 1]];
      assert OnceIn(workloads[..k], w) <==>
             OnceIn(workloads[..k - 1], w) && !(workloads[k - 1] == w && w in workloads[..k - 1]) by {
        OnceInStep(workloads[..k - 1], workloads[k - 1], w);
      }
    }
  }

  lemma AssignedBoth(l: Layout, first: map<Name, seq<Name>>, nodes: map<Name, seq<Name>>, w: Name)
    requires Extends(map[], l.one, |l.one|, l.first, first) && Extends(first, l.two, |l.two|, l.second, nodes)
    ensures Assigned(l, nodes, w)
  {
    assert ExtendsAt(map[], l.one, |l.one|, l.first, first, w);
    assert ExtendsAt(first, l.two, |l.two|, l.second, nodes, w);
    ListedCounts(l.one, |l.one|, w, l.first);
    ListedCounts(l.two, |l.two|, w, l.second);
  }

  method Assign(l: Layout) returns (nodes: map<Name, seq<Name>>)
    ensures nodes.Keys == Hosted(l)
    ensures forall w :: w in nodes ==> nodes[w] == Preferred(l, w)
  {
    var first := AssignAlias(map[], l.one, l.first);
    nodes := AssignAlias(first, l.two, l.second);
    forall w ensures Assigned(l, nodes, w) { AssignedBoth(l, first, nodes, w); }
    assert forall w :: w in nodes.Keys ==> Assigned(l, nodes, w);
    assert forall w :: w in Hosted(l) ==> Assigned(l, nodes, w);
  }

  /** A workload's preferred nodes repeat exactly when an alias lists it twice, and are its
      home otherwise. */
  lemma PreferredIsHome(l: Layout, w: Name)
    requires l.first != l.second && w in Hosted(l)
    ensures Distinct(Preferred(l, w)) <==> OnceIn(l.one, w) && OnceIn(l.two, w)
    ensures OnceIn(l.one, w) && OnceIn(l.two, w) ==> Translates(l, w, RequirementFor(l, w, Preferred(l, w)))
  {
    ListedCounts(l.one, |l.one|, w, l.first);
    ListedCounts(l.two, |l.two|, w, l.second);
    var one, two := Listed(l.one, |l.one|, w, l.first), Listed(l.two, |l.two|, w, l.second);
    var all := one + two;
    assert forall i :: 0 <= i < |one| ==> one[i] in one;
    assert forall i :: 0 <= i < |two| ==> two[i] in two;
    if |one| > 1 {
      assert all[0] == one[0] == l.first && all[1] == one[1] == l.first;
    } else if |two| > 1 {
      assert all[|one|] == two[0] == l.second && all[|one| + 1] == two[1] == l.second;
    }
  }

  /** A requirement refuses repeated preferences. */
  method Require(l: Layout, w: Name, preferred: seq<Name>) returns (r: Option<Requirement>)
    requires l.first != l.second && w in Hosted(l) && preferred == Preferred(l, w)
    ensures r.Some? <==> OnceIn(l.one, w) && OnceIn(l.two, w)
    ensures r.Some? ==> Translates(l, w, r.value)
  {
    PreferredIsHome(l, w);
    if !Distinct(preferred) { return None; }
    return Some(RequirementFor(l, w, preferred));
  }

  ghost predicate Required(l: Layout, names: seq<Name>, requirements: seq<Requirement>) {
    && |requirements| == |names|
    && forall k :: 0 <= k < |names| ==>
         Translates(l, names[k], requirements[k]) && OnceIn(l.one, names[k]) && OnceIn(l.two, names[k])
  }

  lemma RequiredStep(l: Layout, names: seq<Name>, i: nat, requirements: seq<Requirement>, r: Requirement)
    requires i < |names| && Required(l, names[..i], requirements)
    requires Translates(l, names[i], r) && OnceIn(l.one, names[i]) && OnceIn(l.two, names[i])
    ensures Required(l, names[..i + 1], requirements + [r])
  {
    assert names[..i + 1] == names[..i] + [names[i]];
  }

  method Translate(l: Layout) returns (r: Option<Translated>)
    requires l.first != l.second
    ensures r.Some? <==> forall w :: w in Hosted(l) ==> OnceIn(l.one, w) && OnceIn(l.two, w)
    ensures r.Some? ==> Faithful(l, r.value)
  {
    var nodes := Assign(l);
    var names := SortedSeq(nodes.Keys);
    SortedSeqSorts(nodes.Keys);
    var requirements: seq<Requirement> := [];
    for i := 0 to |names|
      invariant Required(l, names[..i], requirements)
    {
      var w := names[i];
      assert w in names;
      var requirement := Require(l, w, nodes[w]);
      if requirement.None? { return None; }
      RequiredStep(l, names, i, requirements, requirement.value);
      requirements := requirements + [requirement.value];
    }
    assert names[..|names|] == names;
    forall w | w in Hosted(l) ensures OnceIn(l.one, w) && OnceIn(l.two, w) {
      var k :| 0 <= k < |names| && names[k] == w;
    }
    return Some(Translated(names, requirements, exists i :: 0 <= i < |requirements| && requirements[i].distributed));
  }

  lemma OnceEachIsDistinct(l: Layout)
    ensures (forall w :: w in Hosted(l) ==> OnceIn(l.one, w) && OnceIn(l.two, w)) <==>
            Distinct(l.one) && Distinct(l.two)
  {
    if forall w :: w in Hosted(l) ==> OnceIn(l.one, w) && OnceIn(l.two, w) {
      forall i, j | 0 <= i < j < |l.one| ensures l.one[i] != l.one[j] { assert l.one[i] in Hosted(l); }
      forall i, j | 0 <= i < j < |l.two| ensures l.two[i] != l.two[j] { assert l.two[i] in Hosted(l); }
    }
  }

  /** A profile is translated exactly when it has the two aliases, two active nodes
      exist, and no workload is listed twice under one alias. */
  method AdaptLegacyProfile(p: Profile, fleet: Fleet) returns (r: Option<Translated>)
    ensures r.Some? <==> Translatable(p, fleet) && Distinct(p.placements[Node1]) && Distinct(p.placements[Node2])
    ensures r.Some? ==> Faithful(LayoutOf(p, fleet), r.value)
  {
    if |Active(fleet)| < 2 { return None; }
    if p.placements.Keys != {Node1, Node2} { return None; }
    SortedSeqSorts(set n | n in fleet && !fleet[n].lifecycle.Retired?);
    var l := LayoutOf(p, fleet);
    OnceEachIsDistinct(l);
    r := Translate(l);
  }

  // ---- the meaning --------------------------------------------------------------------

  /** The fleet, the topology and the observations fit together. */
  predicate FitsTogether(fleet: Fleet, t: Topology, observed: Observed) {
    t.wellFormed && t.nodes == fleet.Keys == observed.Keys
  }

  predicate Free(fleet: Fleet, observed: Observed, n: Name) {
    && n in fleet && fleet[n].lifecycle.Ready?
    && n in observed && observed[n].healthy && observed[n].available && !observed[n].occupied
  }

  /** Both nodes are free, and a workload listed under both aliases has an accepted link
      between them. */
  predicate CanHost(l: Layout, fleet: Fleet, t: Topology, observed: Observed) {
    && FitsTogether(fleet, t, observed) && Free(fleet, observed, l.first) && Free(fleet, observed, l.second)
    && ((exists w :: w in l.one && w in l.two) ==> AcceptedGroup([l.first, l.second], t))
  }

  /** An exclusive workload shares its nodes with no other. */
  lemma ExclusiveIsAlone(l: Layout, t: Translated, i: nat, j: nat, n: Name)
    requires Faithful(l, t) && l.first != l.second && i < |t.requirements| && j < |t.requirements|
    requires t.requirements[i].exclusive && n in t.requirements[i].preferred && n in t.requirements[j].preferred
    ensures i == j
  {
    var w, v := t.workloads[i], t.workloads[j];
    assert Translates(l, w, t.requirements[i]) && Translates(l, v, t.requirements[j]);
    assert n in Home(l, w) && n in Home(l, v);
    if n == l.first {
      assert w in l.one && v in l.one && |l.one| == 1;
    } else {
      assert w in l.two && v in l.two && |l.two| == 1;
    }
  }

  lemma HousedWhereHosted(l: Layout, w: Name, r: Requirement, fleet: Fleet, t: Topology, observed: Observed)
    requires CanHost(l, fleet, t, observed) && l.first != l.second && Translates(l, w, r)
    ensures Housed(r, fleet, t, observed)
  {
    assert forall n :: n in r.preferred ==> n == l.first || n == l.second;
    assert r.distributed ==> r.preferred == [l.first, l.second] && w in l.one && w in l.two;
  }

  lemma {:induction false} UsesNothing(plans: seq<PlacementPlan>, n: Name)
    requires forall p :: p in plans ==> p.requirement.minMemory == 0 && p.requirement.minDisk == 0
    ensures MemoryUsed(plans, n) == 0 && DiskUsed(plans, n) == 0
  {
    if plans != [] { UsesNothing(plans[..|plans| - 1], n); }
  }

  lemma {:induction false} ClaimedOnceWhenApart(plans: seq<PlacementPlan>)
    requires forall i, j :: 0 <= i < j < |plans| ==> Claims(plans[i]) !! Claims(plans[j])
    ensures ClaimedOnce(plans)
    ensures forall n :: n in Claimed(plans) ==> exists i :: 0 <= i < |plans| && n in Claims(plans[i])
  {
    if plans != [] {
      var last := |plans| - 1;
      ClaimedOnceWhenApart(plans[..last]);
      forall n | n in Claimed(plans) ensures exists i :: 0 <= i < |plans| && n in Claims(plans[i]) {
        if n in Claimed(plans[..last]) {
          var i :| 0 <= i < last && n in Claims(plans[..last][i]);
          assert plans[..last][i] == plans[i];
        }
      }
    }
  }

  lemma WantedHaveRoom(l: Layout, tr: Translated, initial: Observed)
    requires Faithful(l, tr) && l.first != l.second
    ensures Roomy(Wanted(tr.requirements), initial)
  {
    var plans := Wanted(tr.requirements);
    forall i | 0 <= i < |plans| ensures plans[i].requirement.minMemory == 0 && plans[i].requirement.minDisk == 0 {
      assert Translates(l, tr.workloads[i], tr.requirements[i]);
    }
    forall n ensures MemoryUsed(plans, n) == 0 && DiskUsed(plans, n) == 0 { UsesNothing(plans, n); }
    forall i, j | 0 <= i < j < |plans| ensures Claims(plans[i]) !! Claims(plans[j]) {
      forall n | n in Claims(plans[i]) ensures n !in Claims(plans[j]) {
        if n in Claims(plans[j]) { ExclusiveIsAlone(l, tr, i, j, n); }
      }
    }
    ClaimedOnceWhenApart(plans);
  }

  /** The translated requirements are pinned to their homes, and kept apart there. */
  lemma TranslatedArePinned(l: Layout, tr: Translated, fleet: Fleet, t: Topology, initial: Observed)
    requires Faithful(l, tr) && l.first != l.second && CanHost(l, fleet, t, initial)
    ensures Pinned(tr.requirements, fleet, t, initial) && PreferredApart(tr.requirements)
  {
    forall r | r in tr.requirements ensures Housed(r, fleet, t, initial) {
      var i :| 0 <= i < |tr.requirements| && tr.requirements[i] == r;
      HousedWhereHosted(l, tr.workloads[i], r, fleet, t, initial);
    }
    WantedHaveRoom(l, tr, initial);
    forall e, r, n | e in tr.requirements && r in tr.requirements && e.exclusive && !r.exclusive
      ensures !(n in e.preferred && n in r.preferred)
    {
      var i :| 0 <= i < |tr.requirements| && tr.requirements[i] == e;
      var j :| 0 <= j < |tr.requirements| && tr.requirements[j] == r;
      if n in e.preferred && n in r.preferred { ExclusiveIsAlone(l, tr, i, j, n); }
    }
  }

  /** Admitting the translation puts every workload on exactly its own nodes, and an
      exclusive one alone on them. */
  lemma MeaningIsPreserved(l: Layout, tr: Translated, fleet: Fleet, t: Topology, initial: Observed)
    requires Faithful(l, tr) && l.first != l.second && CanHost(l, fleet, t, initial)
    ensures var a := Admitted(tr.requirements, fleet, t, initial);
            && a.errors == [] && |a.plans| == |tr.workloads| && Solitary(a.plans)
            && forall i :: 0 <= i < |tr.workloads| ==> a.plans[i].nodes == Home(l, tr.workloads[i])
  {
    TranslatedArePinned(l, tr, fleet, t, initial);
    PinnedAreSolitary(tr.requirements, fleet, t, initial);
    assert forall i :: 0 <= i < |tr.workloads| ==> Translates(l, tr.workloads[i], tr.requirements[i]);
  }

  lemma TranslatedAreValid(l: Layout, tr: Translated)
    requires Faithful(l, tr)
    ensures forall r :: r in tr.requirements ==> ValidRequirement(r)
  {
    assert forall i :: 0 <= i < |tr.workloads| ==> Translates(l, tr.workloads[i], tr.requirements[i]);
  }

  /** Translating a two-node profile and admitting the result puts every workload on
      exactly its own nodes, in alias order, without an error, an exclusive one alone. */
  method AdmitLegacyProfile(p: Profile, fleet: Fleet, order: seq<Name>, t: Topology, observations: seq<Observation>)
    returns (translated: Option<Translated>, a: Report)
    requires Distinct(order) && Elements(order) == fleet.Keys
    requires Translatable(p, fleet) && Distinct(p.placements[Node1]) && Distinct(p.placements[Node2])
    requires CanHost(LayoutOf(p, fleet), fleet, t, ByNode(observations))
    ensures translated.Some? && a.errors == [] && |a.plans| == |translated.value.workloads| && Solitary(a.plans)
    ensures var l := LayoutOf(p, fleet);
            && (forall w :: w in translated.value.workloads <==> w in Hosted(l))
            && forall i :: 0 <= i < |a.plans| ==> a.plans[i].nodes == Home(l, translated.value.workloads[i])
  {
    translated := AdaptLegacyProfile(p, fleet);
    ghost var l := LayoutOf(p, fleet);
    SortedSeqSorts(set n | n in fleet && !fleet[n].lifecycle.Retired?);
    MeaningIsPreserved(l, translated.value, fleet, t, ByNode(observations));
    TranslatedAreValid(l, translated.value);
    a := CheckGenericAdmission(translated.value.requirements, fleet, order, t, observations);
  }
}
