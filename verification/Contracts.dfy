/** Workload definitions, whole-cluster profiles and the catalog that holds them. */
module Contracts {
  import opened Options
  import opened Names

  const NODE1: Name := 1
  const NODE2: Name := 2

  datatype Topology = Single | Distributed

  /** `pins` stands for everything in a definition that placement does not read. */
  datatype WorkloadDefinition = WorkloadDefinition(
    id: Name,
    topology: Topology,
    nodes: seq<Name>,
    startOrder: seq<Name>,
    stopOrder: seq<Name>,
    pins: nat)

  datatype ClusterProfile = ClusterProfile(
    id: Name,
    placements: map<Name, seq<Name>>,
    endpoints: map<Name, Name>)

  /** A fingerprint is a SHA-256 over canonical content.  It is taken to be
      collision free, which the constructor's injectivity expresses. */
  datatype ProfileFingerprint = ProfileFingerprint(profile: ClusterProfile)
  datatype DefinitionFingerprint = DefinitionFingerprint(definition: WorkloadDefinition)

  datatype Catalog = Catalog(
    definitions: map<Name, WorkloadDefinition>,
    profiles: map<Name, ClusterProfile>,
    selectors: map<Name, Name>,
    definitionFingerprints: map<Name, DefinitionFingerprint>,
    profileFingerprints: map<Name, ProfileFingerprint>)

  /** What loading a definition enforces about its node ranks. */
  ghost predicate RankOrdersValid(d: WorkloadDefinition) {
    && Distinct(d.nodes) && Elements(d.nodes) <= {NODE1, NODE2}
    && Elements(d.startOrder) == Elements(d.nodes) && |d.startOrder| == |d.nodes|
    && Elements(d.stopOrder) == Elements(d.nodes) && |d.stopOrder| == |d.nodes|
    && (d.topology.Distributed? ==>
          && Elements(d.nodes) == {NODE1, NODE2}
          && d.startOrder == [NODE2, NODE1]
          && d.stopOrder == [NODE1, NODE2])
    && (d.topology.Single? ==> |d.nodes| == 1)
  }

  ghost predicate ValidCatalog(c: Catalog) {
    && (forall k :: k in c.definitions ==> c.definitions[k].id == k && RankOrdersValid(c.definitions[k]))
    && (forall k :: k in c.profiles ==> c.profiles[k].id == k)
    && (forall k :: k in c.selectors ==> c.selectors[k] in c.profiles)
  }

  function ProfileDefinitions(p: ClusterProfile): set<Name> {
    set n, w | n in p.placements && w in p.placements[n] :: w
  }

  /** Placement plans by workload: the nodes each planned workload runs on. */
  type Plans = map<Name, seq<Name>>

  datatype Operation = Verify | Start | Health | Infer | Stop | VerifyRelease

  predicate StopSide(op: Operation) {
    op.Stop? || op.VerifyRelease? || op.Infer?
  }

  /** The nodes one operation visits, in order; `None` when a plan is empty,
      which aborts the operation. */
  function OperationNodes(plans: Plans, d: WorkloadDefinition, op: Operation): Option<seq<Name>> {
    if d.id !in plans then
      Some(if StopSide(op) then d.stopOrder else d.startOrder)
    else
      var nodes := plans[d.id];
      if nodes == [] then None
      else if d.topology.Distributed? && !StopSide(op) then Some(Reverse(nodes))
      else Some(nodes)
  }

  /** Every node a workload's operations touch. */
  function WorkloadNodes(plans: Plans, d: WorkloadDefinition): set<Name> {
    match OperationNodes(plans, d, Stop)
    case None => {}
    case Some(nodes) => Elements(nodes)
  }

  lemma RanksNonempty(d: WorkloadDefinition)
    requires RankOrdersValid(d)
    ensures d.stopOrder != [] && d.startOrder != []
  {
    if d.topology.Distributed? { assert NODE1 in Elements(d.nodes); }
  }

  lemma ReverseElements(s: seq<Name>)
    ensures Elements(Reverse(s)) == Elements(s)
  {
    forall x | x in s ensures x in Reverse(s) {
      var i :| 0 <= i < |s| && s[i] == x;
      assert Reverse(s)[|s| - 1 - i] == x;
    }
  }

  /** Whatever the operation, it reaches the same nonempty set of nodes or aborts:
      what was started on a node is also stopped and released there. */
  lemma OperationsReachTheSameNodes(plans: Plans, d: WorkloadDefinition, op: Operation)
    requires RankOrdersValid(d)
    ensures OperationNodes(plans, d, op).None? <==> d.id in plans && plans[d.id] == []
    ensures OperationNodes(plans, d, op).Some? ==>
              var nodes := OperationNodes(plans, d, op).value;
              nodes != [] && Elements(nodes) == WorkloadNodes(plans, d)
  {
    RanksNonempty(d);
    if d.id in plans { ReverseElements(plans[d.id]); }
  }

  /** A workload is stopped on its planned nodes in order, from the entry node on, which
      also serves its inference.  A distributed one starts the other way round: its workers
      first and the entry node last. */
  lemma EntryNodeStartsLast(plans: Plans, d: WorkloadDefinition)
    requires RankOrdersValid(d) && !(d.id in plans && plans[d.id] == [])
    ensures var stops, starts := OperationNodes(plans, d, Stop), OperationNodes(plans, d, Start);
            && stops.Some? && starts.Some? && |starts.value| == |stops.value| >= 1
            && OperationNodes(plans, d, Infer) == stops == OperationNodes(plans, d, VerifyRelease)
            && OperationNodes(plans, d, Verify) == starts == OperationNodes(plans, d, Health)
            && (d.id in plans ==> stops.value == plans[d.id])
            && (d.topology.Single? ==> starts == stops)
            && (d.topology.Distributed? ==>
                  && (d.id !in plans ==> stops.value == [NODE1, NODE2])
                  && forall i :: 0 <= i < |starts.value| ==> starts.value[i] == stops.value[|starts.value| - 1 - i])
  {
    RanksNonempty(d);
    if d.topology.Single? {
      assert d.startOrder[0] in Elements(d.nodes) && d.stopOrder[0] in Elements(d.nodes);
      assert d.startOrder == [d.nodes[0]] && d.stopOrder == [d.nodes[0]];
    }
  }
}
