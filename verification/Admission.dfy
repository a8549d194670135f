/** Sequential admission of a profile's requirements, deducting what each plan takes. */
module Admission {
  import opened Names
  import opened Placement
  import Planner

  datatype PlacementPlan = PlacementPlan(requirement: Requirement, nodes: seq<Name>)

  /** The plans made, the requirements refused and why, and what is left on each node. */
  datatype Report = Report(plans: seq<PlacementPlan>, errors: seq<(Name, Refusal)>, remaining: Observed)

  function AtLeastZero(x: int): nat { if x < 0 then 0 else x }

  function Deduct(o: Observation, r: Requirement): Observation {
    Observation(o.node, o.healthy, AtLeastZero(o.memory - r.minMemory), AtLeastZero(o.disk - r.minDisk),
                o.occupied || r.exclusive, true)
  }

  function After(current: Observed, r: Requirement, nodes: seq<Name>): Observed {
    map n | n in current :: if n in nodes then Deduct(current[n], r) else current[n]
  }

  function Entered(a: Report, r: Requirement, outcome: Outcome): Report {
    match outcome
    case Placed(nodes, _) =>
      Report(a.plans + [PlacementPlan(r, nodes)], a.errors, After(a.remaining, r, nodes))
    case Refused(why) => a.(errors := a.errors + [(r.name, why)])
  }

  ghost function Extended(a: Report, r: Requirement, fleet: Fleet, t: Topology): Report {
    Entered(a, r, PlanFor(r, fleet, t, a.remaining))
  }

  ghost function Admitted(requirements: seq<Requirement>, fleet: Fleet, t: Topology, initial: Observed): Report {
    if requirements == [] then Report([], [], initial)
    else
      var last := |requirements| - 1;
      Extended(Admitted(requirements[..last], fleet, t, initial), requirements[last], fleet, t)
  }

  lemma AdmittedStep(requirements: seq<Requirement>, r: Requirement, fleet: Fleet, t: Topology, initial: Observed)
    ensures Admitted(requirements + [r], fleet, t, initial)
            == Extended(Admitted(requirements, fleet, t, initial), r, fleet, t)
  {
    assert (requirements + [r])[..|requirements|] == requirements;
  }

  lemma AdmittedNext(requirements: seq<Requirement>, k: nat, fleet: Fleet, t: Topology, initial: Observed)
    requires k < |requirements|
    ensures Admitted(requirements[..k + 1], fleet, t, initial) ==
            Extended(Admitted(requirements[..k], fleet, t, initial), requirements[k], fleet, t)
  {
    AdmittedStep(requirements[..k], requirements[k], fleet, t, initial);
    assert requirements[..k + 1] == requirements[..k] + [requirements[k]];
  }

  ghost predicate Keyed(observed: Observed) { forall n :: n in observed ==> observed[n].node == n }

  lemma {:induction false} ByNodeIsKeyed(observations: seq<Observation>)
    ensures Keyed(ByNode(observations))
  {
    if observations != [] { ByNodeIsKeyed(observations[..|observations| - 1]); }
  }

  /** The values of the dictionary, in whatever order it yields them. */
  method Values(observed: Observed) returns (s: seq<Observation>)
    requires Keyed(observed)
    ensures OneEach(s) && ByNode(s) == observed
  {
    s := [];
    var left := observed.Keys;
    var yielded: Observed := map[];
    while left != {}
      invariant left <= observed.Keys && yielded == (map n | n in observed && n !in left :: observed[n])
      invariant ByNode(s) == yielded && OneEach(s)
      invariant forall i :: 0 <= i < |s| ==> s[i].node in yielded
      decreases left
    {
      var n :| n in left;
      assert (s + [observed[n]])[..|s|] == s;
      s := s + [observed[n]];
      left := left - {n};
      yielded := yielded[n := observed[n]];
    }
  }

  method Take(current: Observed, r: Requirement, nodes: seq<Name>) returns (next: Observed)
    requires Distinct(nodes) && forall n :: n in nodes ==> n in current
    ensures next == After(current, r, nodes)
  {
    next := current;
    for i := 0 to |nodes|
      invariant next == After(current, r, nodes[..i])
    {
      var o := next[nodes[i]];
      next := next[nodes[i] := Deduct(o, r)];
      assert nodes[..i + 1] == nodes[..i] + [nodes[i]];
      assert nodes[i] !in nodes[..i];
    }
    assert nodes[..|nodes|] == nodes;
  }

  // ---- conservation -------------------------------------------------------------------

  function MemoryUsed(plans: seq<PlacementPlan>, n: Name): nat {
    if plans == [] then 0 else
      var last := |plans| - 1;
      MemoryUsed(plans[..last], n) + if n in plans[last].nodes then plans[last].requirement.minMemory else 0
  }

  function DiskUsed(plans: seq<PlacementPlan>, n: Name): nat {
    if plans == [] then 0 else
      var last := |plans| - 1;
      DiskUsed(plans[..last], n) + if n in plans[last].nodes then plans[last].requirement.minDisk else 0
  }

  /** What was there is what the plans use plus what remains. */
  ghost predicate Balanced(a: Report, initial: Observed) {
    && a.remaining.Keys == initial.Keys
    && forall n :: n in initial ==>
         && MemoryUsed(a.plans, n) + a.remaining[n].memory == initial[n].memory
         && DiskUsed(a.plans, n) + a.remaining[n].disk == initial[n].disk
         && a.remaining[n].healthy == initial[n].healthy
         && a.remaining[n].available == initial[n].available
  }

  function Claims(p: PlacementPlan): set<Name> { if p.requirement.exclusive then Elements(p.nodes) else {} }

  /** The nodes that exclusive plans use. */
  function Claimed(plans: seq<PlacementPlan>): set<Name> {
    if plans == [] then {} else Claimed(plans[..|plans| - 1]) + Claims(plans[|plans| - 1])
  }

  /** No exclusive plan claims a node that an earlier one has claimed. */
  predicate ClaimedOnce(plans: seq<PlacementPlan>) {
    plans == [] || (ClaimedOnce(plans[..|plans| - 1]) && Claimed(plans[..|plans| - 1]) !! Claims(plans[|plans| - 1]))
  }

  /** A node is occupied when it was from the start or an exclusive plan claims it, and
      it is never given to an exclusive plan while occupied. */
  ghost predicate Undisturbed(a: Report, initial: Observed) {
    && a.remaining.Keys == initial.Keys && ClaimedOnce(a.plans)
    && (forall n :: n in Claimed(a.plans) ==> n in initial && !initial[n].occupied)
    && (forall n :: n in initial ==> (a.remaining[n].occupied <==> initial[n].occupied || n in Claimed(a.plans)))
  }

  ghost predicate Conserves(a: Report, initial: Observed) { Balanced(a, initial) && Undisturbed(a, initial) }

  predicate Bears(o: Observation, r: Requirement) {
    r.minMemory <= o.memory && r.minDisk <= o.disk && o.available && !(r.exclusive && o.occupied)
  }

  /** One more plan, whose nodes can bear it. */
  lemma PlanBalances(a: Report, r: Requirement, nodes: seq<Name>, initial: Observed)
    requires Balanced(a, initial)
    requires forall n :: n in nodes ==> n in a.remaining && Bears(a.remaining[n], r)
    ensures Balanced(Report(a.plans + [PlacementPlan(r, nodes)], a.errors, After(a.remaining, r, nodes)), initial)
  {
    assert (a.plans + [PlacementPlan(r, nodes)])[..|a.plans|] == a.plans;
  }

  lemma PlanDisturbsNothing(a: Report, r: Requirement, nodes: seq<Name>, initial: Observed)
    requires Undisturbed(a, initial)
    requires forall n :: n in nodes ==> n in a.remaining && Bears(a.remaining[n], r)
    ensures Undisturbed(Report(a.plans + [PlacementPlan(r, nodes)], a.errors, After(a.remaining, r, nodes)), initial)
  {
    assert (a.plans + [PlacementPlan(r, nodes)])[..|a.plans|] == a.plans;
  }

  lemma ExtendedConserves(a: Report, r: Requirement, fleet: Fleet, t: Topology, initial: Observed)
    requires Conserves(a, initial)
    ensures Conserves(Extended(a, r, fleet, t), initial)
  {
    var outcome := PlanFor(r, fleet, t, a.remaining);
    if outcome.Placed? {
      PlacedAreFirst(r, fleet, t, a.remaining);
      PlanBalances(a, r, outcome.nodes, initial);
      PlanDisturbsNothing(a, r, outcome.nodes, initial);
    }
  }

  /** Plans never take more than there was, the remainder is the exact difference, and no
      two exclusive plans share a node. */
  lemma {:induction false} AdmissionConserves(requirements: seq<Requirement>, fleet: Fleet, t: Topology,
                                              initial: Observed)
    ensures Conserves(Admitted(requirements, fleet, t, initial), initial)
  {
    if requirements != [] {
      var last := |requirements| - 1;
      AdmissionConserves(requirements[..last], fleet, t, initial);
      ExtendedConserves(Admitted(requirements[..last], fleet, t, initial), requirements[last], fleet, t, initial);
    }
  }

  /** The plans and the errors account for every requirement, in turn. */
  ghost predicate Accounts(a: Report, requirements: seq<Requirement>) {
    && |a.plans| + |a.errors| == |requirements|
    && (a.errors == [] ==> forall i :: 0 <= i < |requirements| ==> a.plans[i].requirement == requirements[i])
  }

  lemma EnteredAccounts(a: Report, requirements: seq<Requirement>, r: Requirement, outcome: Outcome)
    requires Accounts(a, requirements)
    ensures Accounts(Entered(a, r, outcome), requirements + [r])
  {
  }

  /** There are no errors exactly when every requirement got a plan, in its turn. */
  lemma {:induction false} NoErrorsWhenAllPlanned(requirements: seq<Requirement>, fleet: Fleet, t: Topology,
                                                  initial: Observed)
    ensures Accounts(Admitted(requirements, fleet, t, initial), requirements)
    ensures Admitted(requirements, fleet, t, initial).errors == [] <==>
            |Admitted(requirements, fleet, t, initial).plans| == |requirements|
  {
    if requirements != [] {
      var last := |requirements| - 1;
      NoErrorsWhenAllPlanned(requirements[..last], fleet, t, initial);
      var before := Admitted(requirements[..last], fleet, t, initial);
      EnteredAccounts(before, requirements[..last], requirements[last],
                      PlanFor(requirements[last], fleet, t, before.remaining));
      assert requirements == requirements[..last] + [requirements[last]];
    }
  }

  method CheckGenericAdmission(requirements: seq<Requirement>, fleet: Fleet, order: seq<Name>, t: Topology,
                               observations: seq<Observation>)
    returns (a: Report)
    requires forall r :: r in requirements ==> ValidRequirement(r)
    requires Distinct(order) && Elements(order) == fleet.Keys
    ensures a == Admitted(requirements, fleet, t, ByNode(observations))
    ensures Conserves(a, ByNode(observations))
    ensures Accounts(a, requirements) && (a.errors == [] <==> |a.plans| == |requirements|)
  {
    ghost var initial := ByNode(observations);
    ByNodeIsKeyed(observations);
    a := Report([], [], ByNode(observations));
    for i := 0 to |requirements|
      invariant a == Admitted(requirements[..i], fleet, t, initial) && Keyed(a.remaining)
    {
      var r := requirements[i];
      assert requirements[..i + 1][..i] == requirements[..i];
      var values := Values(a.remaining);
      var outcome := Planner.Plan(r, fleet, order, t, values);
      if outcome.Placed? {
        PlacedAreFirst(r, fleet, t, a.remaining);
        var next := Take(a.remaining, r, outcome.nodes);
        a := Report(a.plans + [PlacementPlan(r, outcome.nodes)], a.errors, next);
      } else {
        a := a.(errors := a.errors + [(r.name, outcome.why)]);
      }
    }
    assert requirements[..|requirements|] == requirements;
    AdmissionConserves(requirements, fleet, t, initial);
    NoErrorsWhenAllPlanned(requirements, fleet, t, initial);
  }

  lemma {:induction false} ClaimsAreDisjoint(plans: seq<PlacementPlan>, i: nat, j: nat)
    requires ClaimedOnce(plans) && i < |plans| && j < |plans|
    ensures Claims(plans[j]) <= Claimed(plans)
    ensures i != j ==> Claims(plans[i]) !! Claims(plans[j])
  {
    var last := |plans| - 1;
    if i < last && j < last {
      ClaimsAreDisjoint(plans[..last], i, j);
    } else if i < last {
      ClaimsAreDisjoint(plans[..last], i, i);
    } else if j < last {
      ClaimsAreDisjoint(plans[..last], j, j);
    }
  }

  // ---- exclusive and other plans ----------------------------------------------------------

  /** An exclusive plan shares none of its nodes with any other plan. */
  ghost predicate Solitary(plans: seq<PlacementPlan>) {
    forall i, j, n :: 0 <= i < |plans| && 0 <= j < |plans| && i != j ==>
      !(plans[i].requirement.exclusive && n in plans[i].nodes && n in plans[j].nodes)
  }

  /** Every plan is for one of the requirements, on nodes that met it from the start. */
  ghost predicate Suitable(plans: seq<PlacementPlan>, requirements: seq<Requirement>, fleet: Fleet, initial: Observed) {
    forall p :: p in plans ==>
      && p.requirement in requirements
      && forall n :: n in p.nodes ==> n in fleet && n in initial && Meets(p.requirement, fleet[n], initial[n])
  }

  /** What a node offers after some plans it offered before them. */
  lemma OfferedFromTheStart(a: Report, r: Requirement, record: Record, initial: Observed, n: Name)
    requires Conserves(a, initial) && n in initial && Meets(r, record, a.remaining[n])
    ensures Meets(r, record, initial[n])
  {
  }

  lemma ExtendedSuits(a: Report, requirements: seq<Requirement>, r: Requirement, fleet: Fleet, t: Topology,
                      initial: Observed)
    requires Conserves(a, initial) && Suitable(a.plans, requirements, fleet, initial)
    ensures Suitable(Extended(a, r, fleet, t).plans, requirements + [r], fleet, initial)
  {
    var outcome := PlanFor(r, fleet, t, a.remaining);
    if outcome.Placed? {
      PlacedAreFirst(r, fleet, t, a.remaining);
      forall n | n in outcome.nodes ensures n in initial && Meets(r, fleet[n], initial[n]) {
        OfferedFromTheStart(a, r, fleet[n], initial, n);
      }
    }
  }

  lemma {:induction false} PlansSuit(requirements: seq<Requirement>, fleet: Fleet, t: Topology, initial: Observed)
    ensures Suitable(Admitted(requirements, fleet, t, initial).plans, requirements, fleet, initial)
  {
    if requirements != [] {
      var last := |requirements| - 1;
      var before := Admitted(requirements[..last], fleet, t, initial);
      PlansSuit(requirements[..last], fleet, t, initial);
      AdmissionConserves(requirements[..last], fleet, t, initial);
      ExtendedSuits(before, requirements[..last], requirements[last], fleet, t, initial);
      assert requirements == requirements[..last] + [requirements[last]];
    }
  }

  /** No node meets both an exclusive requirement and an ordinary one. */
  predicate Separable(requirements: seq<Requirement>, fleet: Fleet, initial: Observed) {
    forall e, r, n ::
      e in requirements && r in requirements && e.exclusive && !r.exclusive && n in fleet && n in initial ==>
      !(Meets(e, fleet[n], initial[n]) && Meets(r, fleet[n], initial[n]))
  }

  /** An exclusive plan and an ordinary one then share no node. */
  lemma KindsApart(p: PlacementPlan, q: PlacementPlan, plans: seq<PlacementPlan>, requirements: seq<Requirement>,
                   fleet: Fleet, initial: Observed, n: Name)
    requires Separable(requirements, fleet, initial) && Suitable(plans, requirements, fleet, initial)
    requires p in plans && q in plans && p.requirement.exclusive && !q.requirement.exclusive
    ensures !(n in p.nodes && n in q.nodes)
  {
  }

  /** Admission keeps exclusive plans off each other's nodes.  It keeps ordinary plans off
      them too when no node would serve both kinds. */
  lemma SolitaryWhenSeparable(requirements: seq<Requirement>, fleet: Fleet, t: Topology, initial: Observed)
    requires Separable(requirements, fleet, initial)
    ensures Solitary(Admitted(requirements, fleet, t, initial).plans)
  {
    var plans := Admitted(requirements, fleet, t, initial).plans;
    AdmissionConserves(requirements, fleet, t, initial);
    PlansSuit(requirements, fleet, t, initial);
    forall i, j, n | 0 <= i < |plans| && 0 <= j < |plans| && i != j && plans[i].requirement.exclusive
      ensures !(n in plans[i].nodes && n in plans[j].nodes)
    {
      if plans[j].requirement.exclusive {
        ClaimsAreDisjoint(plans, i, j);
        assert n in plans[i].nodes ==> n in Claims(plans[i]);
      } else {
        KindsApart(plans[i], plans[j], plans, requirements, fleet, initial, n);
      }
    }
  }

  /** The plans that give each requirement the nodes it prefers. */
  function Wanted(requirements: seq<Requirement>): seq<PlacementPlan> {
    seq(|requirements|, i requires 0 <= i < |requirements| => PlacementPlan(requirements[i], requirements[i].preferred))
  }

  /** A requirement that names as many nodes as it needs, each of which meets it. */
  predicate Housed(r: Requirement, fleet: Fleet, t: Topology, initial: Observed) {
    && Distinct(r.preferred) && |r.preferred| == r.nodeCount
    && (r.distributed ==> r.supportsDistributed && AcceptedGroup(r.preferred, t))
    && forall n :: n in r.preferred ==> n in fleet && n in initial && Meets(r, fleet[n], initial[n])
  }

  /** The wanted plans have room, and no two of the exclusive ones claim the same node. */
  predicate Roomy(plans: seq<PlacementPlan>, initial: Observed) {
    && (forall n :: n in initial ==> MemoryUsed(plans, n) <= initial[n].memory && DiskUsed(plans, n) <= initial[n].disk)
    && ClaimedOnce(plans)
  }

  /** All requirements are at home, have room together, and no two exclusive ones want the
      same node. */
  predicate Pinned(requirements: seq<Requirement>, fleet: Fleet, t: Topology, initial: Observed) {
    && t.wellFormed && t.nodes == fleet.Keys == initial.Keys
    && (forall r :: r in requirements ==> Housed(r, fleet, t, initial))
    && Roomy(Wanted(requirements), initial)
  }

  lemma {:induction false} PrefixUses(plans: seq<PlacementPlan>, k: nat, n: Name)
    requires k <= |plans|
    ensures MemoryUsed(plans[..k], n) <= MemoryUsed(plans, n) && DiskUsed(plans[..k], n) <= DiskUsed(plans, n)
    ensures ClaimedOnce(plans) ==> ClaimedOnce(plans[..k])
  {
    if k < |plans| {
      PrefixUses(plans[..|plans| - 1], k, n);
      assert plans[..|plans| - 1][..k] == plans[..k];
    } else {
      assert plans[..k] == plans;
    }
  }

  /** What the earlier plans left still meets a requirement that is part of a pinned whole. */
  lemma RoomRemains(a: Report, plans: seq<PlacementPlan>, k: nat, record: Record, initial: Observed, n: Name)
    requires Conserves(a, initial) && k < |plans| && a.plans == plans[..k] && ClaimedOnce(plans)
    requires n in initial && n in plans[k].nodes && Meets(plans[k].requirement, record, initial[n])
    requires MemoryUsed(plans, n) <= initial[n].memory && DiskUsed(plans, n) <= initial[n].disk
    ensures Meets(plans[k].requirement, record, a.remaining[n])
  {
    PrefixUses(plans, k + 1, n);
    assert plans[..k + 1][..k] == plans[..k];
    assert n in Elements(plans[k].nodes);
  }

  lemma RoomForNext(a: Report, plans: seq<PlacementPlan>, k: nat, fleet: Fleet, t: Topology, initial: Observed)
    requires Conserves(a, initial) && k < |plans| && a.plans == plans[..k] && Roomy(plans, initial)
    requires Housed(plans[k].requirement, fleet, t, initial) && plans[k].nodes == plans[k].requirement.preferred
    ensures forall n :: n in plans[k].nodes ==>
              n in fleet && n in a.remaining && Meets(plans[k].requirement, fleet[n], a.remaining[n])
  {
    forall n | n in plans[k].nodes
      ensures n in fleet && n in a.remaining && Meets(plans[k].requirement, fleet[n], a.remaining[n])
    {
      RoomRemains(a, plans, k, fleet[n], initial, n);
    }
  }

  lemma ExtendedByPreferred(a: Report, r: Requirement, fleet: Fleet, t: Topology)
    requires Distinct(r.preferred) && |r.preferred| == r.nodeCount
    requires t.wellFormed && t.nodes == fleet.Keys == a.remaining.Keys
    requires r.distributed ==> r.supportsDistributed && AcceptedGroup(r.preferred, t)
    requires forall n :: n in r.preferred ==> n in fleet && Meets(r, fleet[n], a.remaining[n])
    ensures Extended(a, r, fleet, t).plans == a.plans + [PlacementPlan(r, r.preferred)]
    ensures Extended(a, r, fleet, t).errors == a.errors
  {
    PlannedAsPreferred(r, fleet, t, a.remaining);
  }

  lemma GrantedNext(a: Report, plans: seq<PlacementPlan>, k: nat, fleet: Fleet, t: Topology, initial: Observed)
    requires Conserves(a, initial) && k < |plans| && a.plans == plans[..k] && Roomy(plans, initial)
    requires t.wellFormed && t.nodes == fleet.Keys == initial.Keys
    requires Housed(plans[k].requirement, fleet, t, initial) && plans[k].nodes == plans[k].requirement.preferred
    ensures Extended(a, plans[k].requirement, fleet, t).plans == plans[..k + 1]
    ensures Extended(a, plans[k].requirement, fleet, t).errors == a.errors
  {
    RoomForNext(a, plans, k, fleet, t, initial);
    ExtendedByPreferred(a, plans[k].requirement, fleet, t);
    assert plans[k] == PlacementPlan(plans[k].requirement, plans[k].nodes);
  }

  lemma PinnedAt(requirements: seq<Requirement>, k: nat, fleet: Fleet, t: Topology, initial: Observed)
    requires Pinned(requirements, fleet, t, initial) && k < |requirements|
    ensures Wanted(requirements)[k] == PlacementPlan(requirements[k], requirements[k].preferred)
    ensures Housed(requirements[k], fleet, t, initial)
  {
    assert requirements[k] in requirements;
  }

  lemma GrantedAfter(requirements: seq<Requirement>, a: Report, k: nat, fleet: Fleet, t: Topology, initial: Observed)
    requires Pinned(requirements, fleet, t, initial) && k < |requirements|
    requires Conserves(a, initial) && a.plans == Wanted(requirements)[..k]
    ensures Extended(a, requirements[k], fleet, t).plans == Wanted(requirements)[..k + 1]
    ensures Extended(a, requirements[k], fleet, t).errors == a.errors
  {
    PinnedAt(requirements, k, fleet, t, initial);
    GrantedNext(a, Wanted(requirements), k, fleet, t, initial);
  }

  /** Pinned requirements all get the nodes they prefer. */
  lemma {:induction false} PinnedAreGranted(requirements: seq<Requirement>, k: nat, fleet: Fleet, t: Topology,
                                            initial: Observed)
    requires Pinned(requirements, fleet, t, initial) && k <= |requirements|
    ensures Admitted(requirements[..k], fleet, t, initial).plans == Wanted(requirements)[..k]
    ensures Admitted(requirements[..k], fleet, t, initial).errors == []
  {
    if k > 0 {
      PinnedAreGranted(requirements, k - 1, fleet, t, initial);
      AdmissionConserves(requirements[..k - 1], fleet, t, initial);
      GrantedAfter(requirements, Admitted(requirements[..k - 1], fleet, t, initial), k - 1, fleet, t, initial);
      AdmittedNext(requirements, k - 1, fleet, t, initial);
    }
  }

  /** No exclusive requirement prefers a node that an ordinary one prefers. */
  predicate PreferredApart(requirements: seq<Requirement>) {
    forall e, r, n :: e in requirements && r in requirements && e.exclusive && !r.exclusive ==>
      !(n in e.preferred && n in r.preferred)
  }

  lemma WantedApart(requirements: seq<Requirement>)
    requires ClaimedOnce(Wanted(requirements))
    ensures Solitary(Wanted(requirements)) <==> PreferredApart(requirements)
  {
    var plans := Wanted(requirements);
    if Solitary(plans) {
      forall e, r, n | e in requirements && r in requirements && e.exclusive && !r.exclusive
        ensures !(n in e.preferred && n in r.preferred)
      {
        var i :| 0 <= i < |requirements| && requirements[i] == e;
        var j :| 0 <= j < |requirements| && requirements[j] == r;
        assert plans[i].nodes == e.preferred && plans[j].nodes == r.preferred;
      }
    }
    if PreferredApart(requirements) {
      forall i, j, n | 0 <= i < |plans| && 0 <= j < |plans| && i != j
        ensures !(plans[i].requirement.exclusive && n in plans[i].nodes && n in plans[j].nodes)
      {
        ClaimsAreDisjoint(plans, i, j);
        var e, r := requirements[i], requirements[j];
        assert e in requirements && r in requirements;
        assert plans[i] == PlacementPlan(e, e.preferred) && plans[j] == PlacementPlan(r, r.preferred);
        if e.exclusive && n in e.preferred {
          assert n in Claims(plans[i]);
          assert r.exclusive ==> n !in Claims(plans[j]);
        }
      }
    }
  }

  /** Of pinned requirements, the exclusive ones are alone on their nodes if and only if no
      ordinary requirement prefers one of them. */
  lemma PinnedAreSolitary(requirements: seq<Requirement>, fleet: Fleet, t: Topology, initial: Observed)
    requires Pinned(requirements, fleet, t, initial)
    ensures Admitted(requirements, fleet, t, initial).plans == Wanted(requirements)
    ensures Admitted(requirements, fleet, t, initial).errors == []
    ensures Solitary(Admitted(requirements, fleet, t, initial).plans) <==> PreferredApart(requirements)
  {
    PinnedAreGranted(requirements, |requirements|, fleet, t, initial);
    WantedApart(requirements);
    assert requirements[..|requirements|] == requirements;
    assert Wanted(requirements)[..|requirements|] == Wanted(requirements);
  }

  // One node, first given to an ordinary requirement and then to an exclusive one.

  const ORDINARY: Requirement := Requirement(1, 1, 1, map[], 0, 0, false, false, false, [4])
  const EXCLUSIVE: Requirement := Requirement(2, 2, 1, map[], 0, 0, true, false, false, [4])
  const FLEET: Fleet := map[4 := Record(Ready, map[])]
  const TOPOLOGY: Topology := Topology(true, {4}, [])
  const IDLE: Observed := map[4 := Observation(4, true, 0, 0, false, true)]

  /** The exclusive plan shares its node with the ordinary one. */
  lemma ExclusivePlanMayShare()
    ensures Admitted([ORDINARY, EXCLUSIVE], FLEET, TOPOLOGY, IDLE).plans ==
            [PlacementPlan(ORDINARY, [4]), PlacementPlan(EXCLUSIVE, [4])]
    ensures !Solitary(Admitted([ORDINARY, EXCLUSIVE], FLEET, TOPOLOGY, IDLE).plans)
  {
    PlannedAsPreferred(ORDINARY, FLEET, TOPOLOGY, IDLE);
    PlannedAsPreferred(EXCLUSIVE, FLEET, TOPOLOGY, IDLE);
    assert After(IDLE, ORDINARY, [4]) == IDLE;
    assert [ORDINARY, EXCLUSIVE][..1] == [ORDINARY] && [ORDINARY][..0] == [];
    assert Admitted([], FLEET, TOPOLOGY, IDLE) == Report([], [], IDLE);
    assert Admitted([ORDINARY], FLEET, TOPOLOGY, IDLE) == Report([PlacementPlan(ORDINARY, [4])], [], IDLE);
    var plans := Admitted([ORDINARY, EXCLUSIVE], FLEET, TOPOLOGY, IDLE).plans;
    assert plans[1].requirement.exclusive && 4 in plans[1].nodes && 4 in plans[0].nodes;
  }
}
