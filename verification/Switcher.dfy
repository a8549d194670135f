/** One switch of the cluster to another profile: what it checks first, the commands it
    issues under the fence, and how it recovers when one of them fails. */
module Switcher {
  import opened Options
  import opened Names
  import opened Contracts
  import opened ClusterWorld
  import opened StateFile
  import opened SwitchPlan

  /** A live inventory; a node without a usable boot ID maps to `None`. */
  datatype Inventory = Unavailable | Malformed | Measured(nodes: map<Name, Option<Name>>)

  datatype ReportStatus = Blocked | Planned | ReportedActive | ReportedStopped | ReportedDegraded

  datatype SwitchReport = SwitchReport(
    status: ReportStatus,
    failed: bool,
    publishedEndpoints: map<Name, Name>,
    retained: set<Name>)

  /** `Raised` is an exception that leaves the switch. */
  datatype Outcome = Returned(report: SwitchReport) | Raised

  const BLOCKED: Outcome := Returned(SwitchReport(Blocked, true, map[], {}))

  predicate TargetAccepted(c: Catalog, target: ClusterProfile) {
    && (forall w :: w in ProfileDefinitions(target) ==> w in c.definitions)
    && target.id in c.profileFingerprints
    && c.profileFingerprints[target.id] == ProfileFingerprint(target)
    && (forall w :: w in ProfileDefinitions(target) ==>
          && w in c.definitionFingerprints
          && c.definitionFingerprints[w] == DefinitionFingerprint(c.definitions[w]))
  }

  /** The persisted state may be switched away from with this catalog. */
  predicate StateAccepted(c: Catalog, s: ControllerState) {
    && (s.activeProfile.Some? ==> s.activeProfile.value in c.profiles)
    && !s.status.Transitioning? && !s.status.Degraded?
    && if s.activeProfile.None? then !s.status.Active?
       else
         var current := c.profiles[s.activeProfile.value];
         var ids := ProfileDefinitions(current);
         && s.status.Active?
         && current.id in c.profileFingerprints
         && c.profileFingerprints[current.id] == ProfileFingerprint(current)
         && s.profileFingerprint == Some(c.profileFingerprints[current.id])
         && (forall w :: w in ids ==> w in c.definitions && w in c.definitionFingerprints)
         && (forall w :: w in ids ==> c.definitionFingerprints[w] == DefinitionFingerprint(c.definitions[w]))
         && s.definitionFingerprints == map w | w in ids :: c.definitionFingerprints[w]
  }

  function LiveBootIds(inventory: Inventory): Option<map<Name, Name>> {
    if !inventory.Measured? || inventory.nodes == map[] then None
    else if exists n :: n in inventory.nodes && inventory.nodes[n].None? then None
    else Some(map n | n in inventory.nodes && inventory.nodes[n].Some? :: inventory.nodes[n].value)
  }

  /** Everything that is checked before a switch touches anything. */
  predicate Admissible(c: Catalog, s: ControllerState, target: ClusterProfile, inventory: Inventory, admitted: bool) {
    TargetAccepted(c, target) && StateAccepted(c, s) && LiveBootIds(inventory).Some? && admitted
  }

  /** The catalog's fingerprints are those of its own content, and its profiles place only
      workloads that it defines. */
  ghost predicate Genuine(c: Catalog) {
    && (forall p :: p in c.profiles ==>
          && c.profiles[p].id == p && ProfileDefinitions(c.profiles[p]) <= c.definitions.Keys
          && p in c.profileFingerprints && c.profileFingerprints[p].profile == c.profiles[p])
    && (forall w :: w in c.definitions ==>
          w in c.definitionFingerprints && c.definitionFingerprints[w].definition == c.definitions[w])
  }

  /** The catalog's fingerprints are not those of this profile and its workloads. */
  ghost predicate Mismatched(c: Catalog, p: ClusterProfile) {
    || p.id !in c.profileFingerprints || c.profileFingerprints[p.id].profile != p
    || exists w :: w in ProfileDefinitions(p)
                   && (w !in c.definitions || w !in c.definitionFingerprints
                       || c.definitionFingerprints[w].definition != c.definitions[w])
  }

  /** A stopped cluster, or a profile that was published with the content it has now. */
  ghost predicate Resumable(c: Catalog, s: ControllerState) {
    match s.activeProfile
    case None => s.status.Stopped? || s.status.StoppedAfterReboot?
    case Some(p) =>
      && s.status.Active? && p in c.profiles
      && s.profileFingerprint.Some? && s.profileFingerprint.value.profile == c.profiles[p]
      && s.definitionFingerprints.Keys == ProfileDefinitions(c.profiles[p])
      && forall w :: w in s.definitionFingerprints ==>
           w in c.definitions && s.definitionFingerprints[w].definition == c.definitions[w]
  }

  /** At least one node was measured and every one has a boot ID. */
  ghost predicate Booted(inventory: Inventory) {
    inventory.Measured? && inventory.nodes != map[] && forall n :: n in inventory.nodes ==> inventory.nodes[n].Some?
  }

  lemma MismatchIsRefused(c: Catalog, p: ClusterProfile)
    ensures Mismatched(c, p) <==> !TargetAccepted(c, p)
  {
  }

  lemma BootIdsAreMeasured(inventory: Inventory)
    ensures LiveBootIds(inventory).Some? <==> Booted(inventory)
    ensures LiveBootIds(inventory).Some? ==>
              var bootIds := LiveBootIds(inventory).value;
              && bootIds.Keys == inventory.nodes.Keys
              && forall n :: n in bootIds ==> inventory.nodes[n] == Some(bootIds[n])
  {
  }

  /** With a genuine catalog, exactly the stopped clusters and the unchanged publications
      are accepted. */
  lemma ResumableIsAccepted(c: Catalog, s: ControllerState)
    requires Genuine(c)
    ensures StateAccepted(c, s) <==> Resumable(c, s)
  {
    if s.activeProfile.Some? && s.activeProfile.value in c.profiles {
      var current := c.profiles[s.activeProfile.value];
      var expected := map w | w in ProfileDefinitions(current) :: c.definitionFingerprints[w];
      assert current.id == s.activeProfile.value;
      if Resumable(c, s) { assert s.definitionFingerprints == expected; }
    }
  }

  /** Whenever readers load a stopped cluster, it can be switched. */
  lemma StoppedIsResumable(plans: Plans, c: Catalog, w: World)
    requires Truthful(plans, w) && w.Loaded().status.Stopped?
    ensures Resumable(c, w.Loaded())
  {
    assert TruthfulView(plans, w.disk.state.cached, w.disk.fence.cached, w);
  }

  /** Whatever is published is refused once its content is not what the catalog has. */
  lemma StaleIsRefused(c: Catalog, s: ControllerState)
    requires s.activeProfile.Some? && s.activeProfile.value in c.profiles && StateAccepted(c, s)
    ensures Resumable(c, s) && !Mismatched(c, c.profiles[s.activeProfile.value])
  {
  }

  /** When a switch is blocked: never without cause, and always when content and
      fingerprints disagree or the last transition was not finished. */
  ghost predicate BlockedForCause(c: Catalog, s: ControllerState, target: ClusterProfile, inventory: Inventory,
                                  admitted: bool, blocked: bool) {
    && (Genuine(c) && target.id in c.profiles && target == c.profiles[target.id] ==>
          (blocked <==> !(Resumable(c, s) && Booted(inventory) && admitted)))
    && (Mismatched(c, target) || s.status in {Transitioning, Degraded} ==> blocked)
    && (s.activeProfile.Some? && (s.activeProfile.value !in c.profiles || !Resumable(c, s)) ==> blocked)
    && (forall p :: s.activeProfile == Some(p) && p in c.profiles && Mismatched(c, c.profiles[p]) ==> blocked)
  }

  lemma InadmissibleForCause(c: Catalog, s: ControllerState, target: ClusterProfile, inventory: Inventory,
                             admitted: bool)
    ensures BlockedForCause(c, s, target, inventory, admitted, !Admissible(c, s, target, inventory, admitted))
  {
    MismatchIsRefused(c, target);
    BootIdsAreMeasured(inventory);
    if Genuine(c) { ResumableIsAccepted(c, s); }
    if StateAccepted(c, s) && s.activeProfile.Some? { StaleIsRefused(c, s); }
  }

  /** The nodes of a profile that place a workload, in sorted order. */
  function Hosts(p: ClusterProfile, w: Name): seq<Name> {
    SortedSeq(set n | n in p.placements && w in p.placements[n])
  }

  function Aliases(p: ClusterProfile, w: Name): seq<Name> {
    SortedSeq(set a | a in p.endpoints && p.endpoints[a] == w)
  }

  /** A workload of both profiles that nothing distinguishes: same nodes and aliases, same
      profile and definition as published, and no node rebooted since. */
  predicate Unchanged(c: Catalog, s: ControllerState, current: ClusterProfile, target: ClusterProfile,
                      bootIds: map<Name, Name>, w: Name) {
    && s.bootIds == bootIds
    && s.profileFingerprint == (if current.id in c.profileFingerprints then Some(c.profileFingerprints[current.id])
                                else None)
    && w in ProfileDefinitions(current) && w in ProfileDefinitions(target)
    && Hosts(current, w) == Hosts(target, w) && Aliases(current, w) == Aliases(target, w)
    && w in s.definitionFingerprints && w in c.definitionFingerprints
    && s.definitionFingerprints[w] == c.definitionFingerprints[w]
  }

  /** Both profiles place the workload, on the same nodes and under the same aliases. */
  ghost predicate StaysPut(current: ClusterProfile, target: ClusterProfile, w: Name) {
    && w in ProfileDefinitions(current) && w in ProfileDefinitions(target)
    && (forall n :: n in current.placements && w in current.placements[n] <==>
                    n in target.placements && w in target.placements[n])
    && (forall a :: a in current.endpoints && current.endpoints[a] == w <==>
                    a in target.endpoints && target.endpoints[a] == w)
  }

  lemma SortedSeqsAgree(a: set<Name>, b: set<Name>)
    ensures SortedSeq(a) == SortedSeq(b) <==> a == b
  {
    SortedSeqSorts(a);
    SortedSeqSorts(b);
    if SortedSeq(a) == SortedSeq(b) {
      assert forall x :: x in a <==> x in SortedSeq(a);
    }
  }

  lemma HostsAgree(p: ClusterProfile, q: ClusterProfile, w: Name)
    ensures Hosts(p, w) == Hosts(q, w) <==>
            forall n :: n in p.placements && w in p.placements[n] <==> n in q.placements && w in q.placements[n]
  {
    var a := set n | n in p.placements && w in p.placements[n];
    var b := set n | n in q.placements && w in q.placements[n];
    SortedSeqsAgree(a, b);
    assert forall n :: n in a <==> n in p.placements && w in p.placements[n];
    assert forall n :: n in b <==> n in q.placements && w in q.placements[n];
  }

  lemma AliasesAgree(p: ClusterProfile, q: ClusterProfile, w: Name)
    ensures Aliases(p, w) == Aliases(q, w) <==>
            forall a :: a in p.endpoints && p.endpoints[a] == w <==> a in q.endpoints && q.endpoints[a] == w
  {
    var x := set a | a in p.endpoints && p.endpoints[a] == w;
    var y := set a | a in q.endpoints && q.endpoints[a] == w;
    SortedSeqsAgree(x, y);
    assert forall a :: a in x <==> a in p.endpoints && p.endpoints[a] == w;
    assert forall a :: a in y <==> a in q.endpoints && q.endpoints[a] == w;
  }

  /** From an accepted state, a workload is unchanged exactly when it stays put and no node
      rebooted. */
  lemma UnchangedStaysPut(c: Catalog, s: ControllerState, target: ClusterProfile, bootIds: map<Name, Name>, w: Name)
    requires StateAccepted(c, s) && s.activeProfile.Some?
    ensures var current := c.profiles[s.activeProfile.value];
            Unchanged(c, s, current, target, bootIds, w) <==> s.bootIds == bootIds && StaysPut(current, target, w)
  {
    var current := c.profiles[s.activeProfile.value];
    HostsAgree(current, target, w);
    AliasesAgree(current, target, w);
  }

  function CurrentProfile(c: Catalog, s: ControllerState): Option<ClusterProfile> {
    if s.activeProfile.Some? && s.activeProfile.value in c.profiles then Some(c.profiles[s.activeProfile.value])
    else None
  }

  /** The workloads a switch keeps running: all that stay put while no node rebooted, if
      every check passed (`smooth`), and no others. */
  ghost predicate KeepsRunning(c: Catalog, s: ControllerState, target: ClusterProfile, bootIds: map<Name, Name>,
                               retained: set<Name>, smooth: bool) {
    match CurrentProfile(c, s)
    case None => retained == {}
    case Some(current) =>
      && (forall w :: w in retained ==> s.bootIds == bootIds && StaysPut(current, target, w))
      && (smooth && s.bootIds == bootIds ==> forall w :: StaysPut(current, target, w) ==> w in retained)
  }

  /** What is kept is unchanged; when nothing failed, every unchanged workload among the
      first `i` is kept. */
  ghost predicate KeptAmong(c: Catalog, s: ControllerState, current: ClusterProfile, target: ClusterProfile,
                            bootIds: map<Name, Name>, shared: seq<Name>, i: nat, retained: set<Name>, smooth: bool)
    requires i <= |shared|
  {
    && (forall w :: w in retained ==> Unchanged(c, s, current, target, bootIds, w))
    && (smooth ==> forall j :: 0 <= j < i ==>
        (Unchanged(c, s, current, target, bootIds, shared[j]) ==> shared[j] in retained))
  }

  lemma KeptNext(c: Catalog, s: ControllerState, current: ClusterProfile, target: ClusterProfile,
                 bootIds: map<Name, Name>, shared: seq<Name>, i: nat, retained: set<Name>, smooth: bool,
                 keep: bool, smoothNow: bool)
    requires i < |shared| && KeptAmong(c, s, current, target, bootIds, shared, i, retained, smooth)
    requires smoothNow ==> smooth
    requires keep ==> Unchanged(c, s, current, target, bootIds, shared[i])
    requires !keep && smoothNow ==> !Unchanged(c, s, current, target, bootIds, shared[i])
    ensures KeptAmong(c, s, current, target, bootIds, shared, i + 1, if keep then retained + {shared[i]} else retained,
                      smoothNow)
  {
  }

  lemma KeptAll(c: Catalog, s: ControllerState, current: ClusterProfile, target: ClusterProfile,
                bootIds: map<Name, Name>, shared: seq<Name>, retained: set<Name>, smooth: bool)
    requires KeptAmong(c, s, current, target, bootIds, shared, |shared|, retained, smooth)
    requires Elements(shared) == ProfileDefinitions(current) * ProfileDefinitions(target)
    ensures forall w :: w in retained ==> Unchanged(c, s, current, target, bootIds, w)
    ensures smooth ==> forall w :: Unchanged(c, s, current, target, bootIds, w) ==> w in retained
  {
    forall w | Unchanged(c, s, current, target, bootIds, w) ensures w in shared {
      assert w in Elements(shared);
    }
  }

  lemma KeptStaysPut(c: Catalog, s: ControllerState, target: ClusterProfile, bootIds: map<Name, Name>,
                     retained: set<Name>, smooth: bool)
    requires StateAccepted(c, s)
    requires CurrentProfile(c, s).None? ==> retained == {}
    requires CurrentProfile(c, s).Some? ==>
               var current := CurrentProfile(c, s).value;
               && (forall w :: w in retained ==> Unchanged(c, s, current, target, bootIds, w))
               && (smooth ==> forall w :: Unchanged(c, s, current, target, bootIds, w) ==> w in retained)
    ensures KeepsRunning(c, s, target, bootIds, retained, smooth)
  {
    if CurrentProfile(c, s).Some? {
      var current := CurrentProfile(c, s).value;
      forall w ensures Unchanged(c, s, current, target, bootIds, w) <==>
                       s.bootIds == bootIds && StaysPut(current, target, w)
      {
        UnchangedStaysPut(c, s, target, bootIds, w);
      }
    }
  }

  /** Accepting the state ties the catalog's view of the active profile to the
      processes its publication vouched for. */
  lemma AcceptedStateExplainsLive(plans: Plans, c: Catalog, w: World)
    requires Truthful(plans, w) && StateAccepted(c, w.Loaded())
    ensures w.Loaded().activeProfile.None? ==> w.live == {}
    ensures w.Loaded().activeProfile.Some? ==>
              Explained(plans, c.definitions, ProfileDefinitions(c.profiles[w.Loaded().activeProfile.value]), w.live)
  {
    var s := w.Loaded();
    assert TruthfulView(plans, w.disk.state.cached, w.disk.fence.cached, w);
    if s.activeProfile.Some? {
      assert Explained(plans, PublishedDefinitions(s), s.definitionFingerprints.Keys, w.live);
    }
  }

  /** The order in which a failed switch cleans up: target first, then current. */
  function CleanupSequence(current: Option<ClusterProfile>, target: ClusterProfile): seq<Name> {
    FirstOccurrences(Order(target, true) + (if current.Some? then Order(current.value, true) else []))
  }

  /** The cleanup order reaches every workload of either profile. */
  lemma CleanupReachesAll(current: Option<ClusterProfile>, target: ClusterProfile)
    ensures forall w :: w in ProfileDefinitions(target) ==> w in CleanupSequence(current, target)
    ensures current.Some? ==>
              forall w :: w in ProfileDefinitions(current.value) ==> w in CleanupSequence(current, target)
  {
    OrderIsComplete(target, true);
    if current.Some? { OrderIsComplete(current.value, true); }
    FirstOccurrencesKeepEach(Order(target, true) + (if current.Some? then Order(current.value, true) else []));
  }

  /** Releasing one workload everywhere leaves only the others to explain. */
  lemma ReleaseShrinks(plans: Plans, definitions: map<Name, WorkloadDefinition>, ids: set<Name>,
                       w: Name, before: set<Process>, after: set<Process>)
    requires Explained(plans, definitions, ids, before) && w in definitions
    requires after <= before - Processes(w, WorkloadNodes(plans, definitions[w]))
    ensures Explained(plans, definitions, ids - {w}, after)
  {
  }

  ghost predicate Enumerates(order: seq<Name>, ids: set<Name>) {
    && (forall i :: 0 <= i < |order| ==> order[i] in ids)
    && (forall w :: w in ids ==> exists i :: 0 <= i < |order| && order[i] == w)
  }

  /** Of the first `i` workloads only retained ones are still live. */
  ghost predicate Passed(order: seq<Name>, i: nat, live: set<Name>, retained: set<Name>)
    requires i <= |order|
  {
    forall j :: 0 <= j < i ==> order[j] in retained || order[j] !in live
  }

  lemma PassedStep(order: seq<Name>, i: nat, live: set<Name>, next: set<Name>, retained: set<Name>)
    requires i < |order| && Passed(order, i, live, retained) && next <= live
    requires order[i] in retained || order[i] !in next
    ensures Passed(order, i + 1, next, retained)
  {
  }

  lemma PassedAll(order: seq<Name>, ids: set<Name>, live: set<Name>, retained: set<Name>)
    requires Enumerates(order, ids) && live <= ids && Passed(order, |order|, live, retained)
    ensures live <= retained
  {
  }

  /** No operation on this workload aborts for want of nodes. */
  predicate Placed(plans: Plans, w: Name) {
    w in plans ==> plans[w] != []
  }

  predicate AllPlaced(plans: Plans, order: seq<Name>) {
    order == [] || (AllPlaced(plans, order[..|order| - 1]) && Placed(plans, order[|order| - 1]))
  }

  lemma AllPlacedStep(plans: Plans, order: seq<Name>, i: nat)
    requires i < |order| && AllPlaced(plans, order[..i]) && Placed(plans, order[i])
    ensures AllPlaced(plans, order[..i + 1])
  {
    assert order[..i + 1][..i] == order[..i];
  }

  lemma {:induction false} AllPlacedMeansEach(plans: Plans, order: seq<Name>, ids: set<Name>)
    requires AllPlaced(plans, order) && forall w :: w in ids ==> w in order
    ensures forall w :: w in ids ==> Placed(plans, w)
  {
    if order != [] {
      var last := order[|order| - 1];
      assert order == order[..|order| - 1] + [last];
      AllPlacedMeansEach(plans, order[..|order| - 1], ids - {last});
      assert forall w :: w in ids ==> w == last || w in ids - {last};
    }
  }

  /** The state a successful switch publishes. */
  function ActiveState(c: Catalog, target: ClusterProfile, restore: Option<Name>,
                       bootIds: map<Name, Name>): ControllerState
    requires TargetAccepted(c, target)
  {
    ControllerState(Active, Some(target.id), None, restore, false,
      Some(c.profileFingerprints[target.id]),
      map w | w in ProfileDefinitions(target) :: c.definitionFingerprints[w],
      bootIds)
  }

  function FinalState(c: Catalog, target: ClusterProfile, restore: Option<Name>,
                      bootIds: map<Name, Name>): ControllerState
    requires TargetAccepted(c, target)
  {
    if ProfileDefinitions(target) != {} then ActiveState(c, target, restore, bootIds)
    else ControllerState(Stopped, None, None, restore, false, None, map[], bootIds)
  }

  /** A stopped cluster; a switch that failed names its target and its error. */
  ghost function StoppedState(target: Option<Name>, restore: Option<Name>, errorRecorded: bool,
                              bootIds: map<Name, Name>): ControllerState {
    STOPPED.(targetProfile := target, restoreProfile := restore, errorRecorded := errorRecorded, bootIds := bootIds)
  }

  /** What a switch leaves active or stopped can be switched from. */
  lemma LeftIsResumable(c: Catalog, target: ClusterProfile, restore: Option<Name>, bootIds: map<Name, Name>)
    requires TargetAccepted(c, target) && target.id in c.profiles && target == c.profiles[target.id]
    ensures Resumable(c, ActiveState(c, target, restore, bootIds))
    ensures forall failed, error :: Resumable(c, StoppedState(failed, restore, error, bootIds))
  {
  }

  /** The state while a switch is under way: nothing is published. */
  function Withdrawn(target: ClusterProfile, restore: Option<Name>, bootIds: map<Name, Name>): ControllerState {
    ControllerState(Transitioning, None, Some(target.id), restore, false, None, map[], bootIds)
  }

  /** A run was opened and only read-only checks followed. */
  ghost predicate OpeningLog(target: ClusterProfile, before: seq<Event>, after: seq<Event>) {
    exists checks: seq<Event> ::
      (forall e :: e in checks ==> Quiet(e)) && after == before + [RunOpened(target.id)] + checks
  }

  /** The log of a successful switch: it opens a run, may health-check workloads it
      could retain, then issues exactly the switch's commands. */
  ghost predicate SuccessfulLog(plans: Plans, c: Catalog, current: Option<ClusterProfile>, target: ClusterProfile,
                                retained: set<Name>, before: seq<Event>, after: seq<Event>) {
    exists fenced: seq<Event> ::
      && OpeningLog(target, before, fenced)
      && after == fenced + SwitchCommands(plans, c.definitions, current, target, retained)
  }

  /** The run that `log[first]` opened and that has issued only commands since. */
  datatype Run = Run(first: nat, target: Name) {
    ghost predicate Covers(log: seq<Event>) {
      && first < |log| && log[first] == RunOpened(target)
      && forall i :: first < i < |log| ==> log[i].Command?
    }

    lemma Extends(log: seq<Event>, more: seq<Event>)
      requires Covers(log) && forall e :: e in more ==> e.Command?
      ensures Covers(log + more)
    {
      forall i | |log| <= i < |log + more| ensures (log + more)[i].Command? {
        assert (log + more)[i] in more;
      }
    }
  }

  lemma OpeningLogCovers(target: ClusterProfile, before: seq<Event>, after: seq<Event>)
    requires OpeningLog(target, before, after)
    ensures Run(|before|, target.id).Covers(after)
  {
    var checks: seq<Event> :|
      (forall e :: e in checks ==> Quiet(e)) && after == before + [RunOpened(target.id)] + checks;
    Run(|before|, target.id).Extends(before + [RunOpened(target.id)], checks);
  }

  /** A gating sweep that follows only commands of its own run certifies the
      published state. */
  lemma GatesCertify(plans: Plans, c: Catalog, target: ClusterProfile, restore: Option<Name>,
                     bootIds: map<Name, Name>, order: seq<Name>, before: seq<Event>, run: Run)
    requires ValidCatalog(c) && TargetAccepted(c, target)
    requires forall w :: w in ProfileDefinitions(target) ==> w in order && Placed(plans, w)
    requires run.target == target.id && run.Covers(before)
    ensures Certified(plans, ActiveState(c, target, restore, bootIds),
                      before + Sweep(Gating, plans, c.definitions, order, {}))
  {
    var s := ActiveState(c, target, restore, bootIds);
    var sweep := Sweep(Gating, plans, c.definitions, order, {});
    var log := before + sweep;
    SweepIsCommands(Gating, plans, c.definitions, order, {});
    assert forall i :: |before| <= i < |log| ==> log[i] in sweep;
    assert log[|before|..|log|] == sweep;
    forall w | w in s.definitionFingerprints
      ensures GatesPassed(plans, w, s.definitionFingerprints[w].definition, sweep)
    {
      OperationsReachTheSameNodes(plans, c.definitions[w], Health);
      SweepPassesGates(plans, c.definitions, order, w);
    }
    assert PublishedBy(plans, s, log, run.first, |before|, |log|);
  }

  lemma OrderEnumerates(p: ClusterProfile, reverse: bool)
    ensures Enumerates(Order(p, reverse), ProfileDefinitions(p))
  {
    OrderIsComplete(p, reverse);
  }

  lemma WithdrawalIsTruthful(plans: Plans, w: World, s: ControllerState)
    requires Truthful(plans, w) && s.status.Transitioning? && s.activeProfile.None?
    ensures Truthful(plans, w.(disk := w.disk.Replace(s)))
  {
    var w' := w.(disk := w.disk.Replace(s));
    forall file, fence | file in w'.disk.state.survivors && fence in w'.disk.fence.survivors
      ensures TruthfulView(plans, file, fence, w')
    {
      if file in w.disk.state.survivors { assert TruthfulView(plans, file, fence, w); }
    }
  }

  lemma FenceIsTruthful(plans: Plans, w: World)
    requires Truthful(plans, w)
    ensures Truthful(plans, w.(disk := w.disk.Fence()))
  {
    var w' := w.(disk := w.disk.Fence());
    forall file, fence | file in w'.disk.state.survivors && fence in w'.disk.fence.survivors
      ensures TruthfulView(plans, file, fence, w')
    {
      if fence in w.disk.fence.survivors { assert TruthfulView(plans, file, fence, w); }
    }
  }

  class ProfileSwitcher {
    const catalog: Catalog
    const recorder: Recorder
    const store: StateStore

    constructor (catalog: Catalog, recorder: Recorder)
      ensures this.catalog == catalog && this.recorder == recorder && this.store.recorder == recorder
      ensures fresh(this.store)
    {
      this.catalog := catalog;
      this.recorder := recorder;
      this.store := new StateStore(recorder);
    }

    ghost predicate Ready()
      reads this, recorder
    {
      recorder.Valid() && ValidCatalog(catalog) && store.recorder == recorder
    }

    /** One remote command; its outcome is the environment's. */
    method Call(d: WorkloadDefinition, op: Operation, node: Name) returns (ok: bool)
      requires Ready() && (Fenced(recorder.world) || op.Health?)
      modifies recorder
      ensures Ready() && old(recorder.history) <= recorder.history && old(recorder.failures) <= recorder.failures
      ensures !ok ==> recorder.failures > old(recorder.failures)
      ensures recorder.world == AfterCommand(old(recorder.world), op, d.id, node, ok)
    {
      ok := *;
      if !ok { recorder.Fail(); }
      var next := AfterCommand(recorder.world, op, d.id, node, ok);
      if op.Health? {
        QuietEventKeepsTruth(recorder.plans, recorder.world, Command(op, d.id, node, ok));
      } else {
        FencedIsTruthful(recorder.plans, next);
      }
      recorder.Step(next);
    }

    /** Visit nodes in order and give up at the first failure. */
    method RunOn(d: WorkloadDefinition, op: Operation, nodes: seq<Name>) returns (ok: bool)
      requires Ready() && (Fenced(recorder.world) || op.Health?)
      modifies recorder
      ensures Ready() && old(recorder.history) <= recorder.history && old(recorder.failures) <= recorder.failures
      ensures !ok ==> recorder.failures > old(recorder.failures)
      ensures recorder.world.disk == old(recorder.world).disk
      ensures ok ==> recorder.world.log == old(recorder.world).log + Succeeded(op, d.id, nodes)
      ensures old(recorder.world).log <= recorder.world.log
      ensures forall i :: |old(recorder.world).log| <= i < |recorder.world.log| ==>
                recorder.world.log[i].Command? && recorder.world.log[i].op == op
      ensures op.Start? ==> recorder.world.live <= old(recorder.world).live + Processes(d.id, Elements(nodes))
      ensures !op.Start? ==> recorder.world.live <= old(recorder.world).live
      ensures op.Stop? && ok ==> Processes(d.id, Elements(nodes)) <= recorder.world.stopping
      ensures op.VerifyRelease? && ok && Processes(d.id, Elements(nodes)) <= old(recorder.world).stopping ==>
                recorder.world.live <= old(recorder.world).live - Processes(d.id, Elements(nodes))
    {
      ghost var was := recorder.world;
      for i := 0 to |nodes|
        invariant Ready() && old(recorder.history) <= recorder.history && old(recorder.failures) <= recorder.failures
        invariant recorder.world.disk == was.disk
        invariant recorder.world.log == was.log + Succeeded(op, d.id, nodes[..i])
        invariant op.Start? ==> recorder.world.live <= was.live + Processes(d.id, Elements(nodes[..i]))
        invariant !op.Start? ==> recorder.world.live <= was.live
        invariant !op.Start? ==> was.stopping <= recorder.world.stopping
        invariant op.Stop? ==> Processes(d.id, Elements(nodes[..i])) <= recorder.world.stopping
        invariant op.VerifyRelease? && Processes(d.id, Elements(nodes)) <= was.stopping ==>
                    recorder.world.live <= was.live - Processes(d.id, Elements(nodes[..i]))
      {
        assert nodes[i] in Elements(nodes);
        assert nodes[..i + 1] == nodes[..i] + [nodes[i]];
        assert Elements(nodes[..i + 1]) == Elements(nodes[..i]) + {nodes[i]};
        assert Elements(nodes[..i + 1]) <= Elements(nodes);
        var done := Call(d, op, nodes[i]);
        if !done { return false; }
        assert Succeeded(op, d.id, nodes[..i + 1]) == Succeeded(op, d.id, nodes[..i])
               + [Command(op, d.id, nodes[i], true)];
      }
      assert nodes[..|nodes|] == nodes;
      return true;
    }

    method VerifyDefinition(d: WorkloadDefinition) returns (ok: bool)
      requires Ready() && Fenced(recorder.world) && RankOrdersValid(d)
      modifies recorder
      ensures Ready() && old(recorder.history) <= recorder.history && old(recorder.failures) <= recorder.failures
      ensures !ok ==> recorder.failures > old(recorder.failures)
      ensures recorder.world.disk == old(recorder.world).disk
      ensures recorder.world.live <= old(recorder.world).live
      ensures ok ==> OperationNodes(recorder.plans, d, Start).Some?
                     && recorder.world.log == old(recorder.world).log
                        + Succeeded(Verify, d.id, OperationNodes(recorder.plans, d, Start).value)
    {
      var nodes := OperationNodes(recorder.plans, d, Start);
      if nodes.None? { recorder.Fail(); return false; }
      ok := RunOn(d, Verify, nodes.value);
    }

    method StartDefinition(d: WorkloadDefinition) returns (ok: bool)
      requires Ready() && Fenced(recorder.world) && RankOrdersValid(d)
      modifies recorder
      ensures Ready() && old(recorder.history) <= recorder.history && old(recorder.failures) <= recorder.failures
      ensures !ok ==> recorder.failures > old(recorder.failures)
      ensures recorder.world.disk == old(recorder.world).disk
      ensures recorder.world.live <= old(recorder.world).live + Processes(d.id, WorkloadNodes(recorder.plans, d))
      ensures ok ==> OperationNodes(recorder.plans, d, Start).Some?
                     && recorder.world.log == old(recorder.world).log
                        + Succeeded(Start, d.id, OperationNodes(recorder.plans, d, Start).value)
    {
      OperationsReachTheSameNodes(recorder.plans, d, Start);
      var nodes := OperationNodes(recorder.plans, d, Start);
      if nodes.None? { recorder.Fail(); return false; }
      ok := RunOn(d, Start, nodes.value);
    }

    /** The read-only health gate; it also runs before the fence is in place. */
    method HealthDefinition(d: WorkloadDefinition) returns (ok: bool)
      requires Ready() && RankOrdersValid(d)
      modifies recorder
      ensures Ready() && old(recorder.history) <= recorder.history && old(recorder.failures) <= recorder.failures
      ensures !ok ==> recorder.failures > old(recorder.failures)
      ensures recorder.world.disk == old(recorder.world).disk
      ensures recorder.world.live <= old(recorder.world).live
      ensures old(recorder.world).log <= recorder.world.log
      ensures forall i :: |old(recorder.world).log| <= i < |recorder.world.log| ==> Quiet(recorder.world.log[i])
      ensures ok ==> OperationNodes(recorder.plans, d, Start).Some?
                     && recorder.world.log == old(recorder.world).log
                        + Succeeded(Health, d.id, OperationNodes(recorder.plans, d, Start).value)
    {
      var nodes := OperationNodes(recorder.plans, d, Health);
      if nodes.None? { recorder.Fail(); return false; }
      ok := RunOn(d, Health, nodes.value);
    }

    method InferDefinition(d: WorkloadDefinition) returns (ok: bool)
      requires Ready() && Fenced(recorder.world) && RankOrdersValid(d)
      modifies recorder
      ensures Ready() && old(recorder.history) <= recorder.history && old(recorder.failures) <= recorder.failures
      ensures !ok ==> recorder.failures > old(recorder.failures)
      ensures recorder.world.disk == old(recorder.world).disk
      ensures recorder.world.live == old(recorder.world).live
      ensures ok ==> OperationNodes(recorder.plans, d, Stop).Some?
                     && OperationNodes(recorder.plans, d, Stop).value != []
                     && recorder.world.log == old(recorder.world).log
                        + [Command(Infer, d.id, OperationNodes(recorder.plans, d, Stop).value[0], true)]
    {
      OperationsReachTheSameNodes(recorder.plans, d, Stop);
      var nodes := OperationNodes(recorder.plans, d, Stop);
      if nodes.None? { recorder.Fail(); return false; }
      ok := Call(d, Infer, nodes.value[0]);
    }

    /** Stop a workload everywhere, then check its release everywhere.  Success
        means none of its processes is left. */
    method StopDefinition(d: WorkloadDefinition) returns (ok: bool)
      requires Ready() && Fenced(recorder.world) && RankOrdersValid(d)
      modifies recorder
      ensures Ready() && old(recorder.history) <= recorder.history && old(recorder.failures) <= recorder.failures
      ensures !ok ==> recorder.failures > old(recorder.failures)
      ensures recorder.world.disk == old(recorder.world).disk
      ensures recorder.world.live <= old(recorder.world).live
      ensures ok ==> recorder.world.live <= old(recorder.world).live - Processes(d.id, WorkloadNodes(recorder.plans, d))
      ensures ok ==> recorder.world.log == old(recorder.world).log + PhaseCommands(Stopping, recorder.plans, d)
    {
      OperationsReachTheSameNodes(recorder.plans, d, Stop);
      OperationsReachTheSameNodes(recorder.plans, d, Start);
      var nodes := OperationNodes(recorder.plans, d, Stop);
      if nodes.None? { recorder.Fail(); return false; }
      ok := RunOn(d, Stop, nodes.value);
      if !ok { return; }
      ok := RunOn(d, VerifyRelease, nodes.value);
    }

    /** Compare one shared workload, and ask for its health only when nothing changed. */
    method Keep(s: ControllerState, current: ClusterProfile, target: ClusterProfile, bootIds: map<Name, Name>, w: Name)
      returns (keep: bool)
      requires Ready() && w in ProfileDefinitions(current) && w in ProfileDefinitions(target) && s.bootIds == bootIds
      requires w in catalog.definitions && w in catalog.definitionFingerprints
      requires s.profileFingerprint == (if current.id in catalog.profileFingerprints
                                        then Some(catalog.profileFingerprints[current.id]) else None)
      modifies recorder
      ensures Ready() && old(recorder.history) <= recorder.history && old(recorder.failures) <= recorder.failures
      ensures recorder.world.disk == old(recorder.world).disk
      ensures recorder.world.live <= old(recorder.world).live
      ensures old(recorder.world).log <= recorder.world.log
      ensures forall i :: |old(recorder.world).log| <= i < |recorder.world.log| ==> Quiet(recorder.world.log[i])
      ensures keep ==> Unchanged(catalog, s, current, target, bootIds, w)
      ensures !keep && recorder.failures == old(recorder.failures) ==>
                !Unchanged(catalog, s, current, target, bootIds, w)
    {
      if !(w in s.definitionFingerprints && s.definitionFingerprints[w] == catalog.definitionFingerprints[w]) {
        return false;
      }
      if Hosts(current, w) != Hosts(target, w) { return false; }
      if Aliases(current, w) != Aliases(target, w) { return false; }
      keep := HealthDefinition(catalog.definitions[w]);
    }

    /** The workloads that stay up across the switch: present in both profiles with
        the same nodes and aliases, unchanged since publication, on nodes that have
        not rebooted, and healthy right now. */
    method HealthyRetained(s: ControllerState, current: Option<ClusterProfile>, target: ClusterProfile,
                           bootIds: map<Name, Name>) returns (retained: set<Name>)
      requires Ready()
      requires current.Some? ==> ProfileDefinitions(current.value) <= catalog.definitions.Keys
      requires current.Some? ==> ProfileDefinitions(current.value) <= catalog.definitionFingerprints.Keys
      modifies recorder
      ensures Ready() && old(recorder.history) <= recorder.history && old(recorder.failures) <= recorder.failures
      ensures recorder.world.disk == old(recorder.world).disk
      ensures recorder.world.live <= old(recorder.world).live
      ensures old(recorder.world).log <= recorder.world.log
      ensures forall i :: |old(recorder.world).log| <= i < |recorder.world.log| ==> Quiet(recorder.world.log[i])
      ensures current.None? ==> retained == {}
      ensures current.Some? ==> forall w :: w in retained ==> Unchanged(catalog, s, current.value, target, bootIds, w)
      ensures current.Some? && recorder.failures == old(recorder.failures) ==>
                forall w :: Unchanged(catalog, s, current.value, target, bootIds, w) ==> w in retained
    {
      retained := {};
      if current.None? || s.bootIds != bootIds { return; }
      var fingerprint := if current.value.id in catalog.profileFingerprints
                         then Some(catalog.profileFingerprints[current.value.id]) else None;
      if s.profileFingerprint != fingerprint { return; }
      var shared := SortedSeq(ProfileDefinitions(current.value) * ProfileDefinitions(target));
      SortedSeqSorts(ProfileDefinitions(current.value) * ProfileDefinitions(target));
      for i := 0 to |shared|
        invariant Ready() && old(recorder.history) <= recorder.history && old(recorder.failures) <= recorder.failures
        invariant recorder.world.disk == old(recorder.world).disk
        invariant recorder.world.live <= old(recorder.world).live
        invariant old(recorder.world).log <= recorder.world.log
        invariant forall i :: |old(recorder.world).log| <= i < |recorder.world.log| ==> Quiet(recorder.world.log[i])
        invariant KeptAmong(catalog, s, current.value, target, bootIds, shared, i, retained,
                            recorder.failures == old(recorder.failures))
      {
        var w := shared[i];
        assert w in Elements(shared);
        ghost var smooth := recorder.failures == old(recorder.failures);
        ghost var before := retained;
        var keep := Keep(s, current.value, target, bootIds, w);
        if keep { retained := retained + {w}; }
        KeptNext(catalog, s, current.value, target, bootIds, shared, i, before, smooth, keep,
                 recorder.failures == old(recorder.failures));
      }
      KeptAll(catalog, s, current.value, target, bootIds, shared, retained,
              recorder.failures == old(recorder.failures));
    }

    /** Stop then release-check one workload on every node, whatever fails. */
    method ReleaseAll(d: WorkloadDefinition, nodes: seq<Name>) returns (ok: bool)
      requires Ready() && Fenced(recorder.world)
      modifies recorder
      ensures Ready() && old(recorder.history) <= recorder.history && old(recorder.failures) <= recorder.failures
      ensures !ok ==> recorder.failures > old(recorder.failures)
      ensures recorder.world.disk == old(recorder.world).disk
      ensures recorder.world.live <= old(recorder.world).live
      ensures ok ==> recorder.world.live <= old(recorder.world).live - Processes(d.id, Elements(nodes))
    {
      ok := true;
      ghost var was := recorder.world;
      for j := 0 to |nodes|
        invariant Ready() && old(recorder.history) <= recorder.history && old(recorder.failures) <= recorder.failures
        invariant recorder.world.disk == was.disk && recorder.world.live == was.live
        invariant ok ==> Processes(d.id, Elements(nodes[..j])) <= recorder.world.stopping
        invariant !ok ==> recorder.failures > old(recorder.failures)
      {
        assert Elements(nodes[..j + 1]) == Elements(nodes[..j]) + {nodes[j]} by {
          assert nodes[..j + 1] == nodes[..j] + [nodes[j]];
        }
        var stopped := Call(d, Stop, nodes[j]);
        if !stopped { ok := false; }
      }
      assert nodes[..|nodes|] == nodes;
      for j := 0 to |nodes|
        invariant Ready() && old(recorder.history) <= recorder.history && old(recorder.failures) <= recorder.failures
        invariant recorder.world.disk == was.disk && recorder.world.live <= was.live
        invariant ok ==> Processes(d.id, Elements(nodes)) <= recorder.world.stopping
        invariant ok ==> recorder.world.live <= was.live - Processes(d.id, Elements(nodes[..j]))
        invariant !ok ==> recorder.failures > old(recorder.failures)
      {
        assert nodes[j] in Elements(nodes);
        assert Elements(nodes[..j + 1]) == Elements(nodes[..j]) + {nodes[j]} by {
          assert nodes[..j + 1] == nodes[..j] + [nodes[j]];
        }
        var released := Call(d, VerifyRelease, nodes[j]);
        if !released { ok := false; }
      }
    }

    /** Stop and release everything marked live, target order first, carrying on
        past failures.  `ok` means every command succeeded, and then nothing that
        was live is left.  An empty plan raises out of the cleanup. */
    method CleanupLive(ordered: seq<Name>, ids: set<Name>) returns (ok: bool, raised: bool)
      requires Ready() && Fenced(recorder.world)
      requires forall w :: w in ids ==> w in ordered
      requires ids <= catalog.definitions.Keys
      requires Explained(recorder.plans, catalog.definitions, ids, recorder.world.live)
      modifies recorder
      ensures Ready() && old(recorder.history) <= recorder.history && old(recorder.failures) <= recorder.failures
      ensures !ok ==> recorder.failures > old(recorder.failures)
      ensures recorder.world.disk == old(recorder.world).disk
      ensures ok && !raised ==> recorder.world.live == {}
      ensures raised ==> recorder.failures > old(recorder.failures)
    {
      var plans := recorder.plans;
      ok, raised := true, false;
      ghost var left := ids;
      for i := 0 to |ordered|
        invariant Ready() && old(recorder.history) <= recorder.history && old(recorder.failures) <= recorder.failures
        invariant recorder.world.disk == old(recorder.world).disk
        invariant left <= ids && forall w :: w in left ==> exists j :: i <= j < |ordered| && ordered[j] == w
        invariant ok ==> Explained(plans, catalog.definitions, left, recorder.world.live)
        invariant !ok ==> recorder.failures > old(recorder.failures)
      {
        var w := ordered[i];
        if w !in ids { continue; }
        var d := catalog.definitions[w];
        OperationsReachTheSameNodes(plans, d, Stop);
        var nodes := OperationNodes(plans, d, Stop);
        if nodes.None? { recorder.Fail(); return ok, true; }
        ghost var was := recorder.world.live;
        var released := ReleaseAll(d, nodes.value);
        if ok && released { ReleaseShrinks(plans, catalog.definitions, left, w, was, recorder.world.live); }
        ok := ok && released;
        left := left - {w};
      }
    }

    method CleanupOrder(current: Option<ClusterProfile>, target: ClusterProfile) returns (ordered: seq<Name>)
      ensures ordered == CleanupSequence(current, target)
    {
      var order := WorkloadOrder(target, true);
      ordered := AppendNew([], [], order);
      assert [] + Order(target, true) == Order(target, true);
      if current.Some? {
        order := WorkloadOrder(current.value, true);
        ordered := AppendNew(ordered, Order(target, true), order);
      } else {
        assert Order(target, true) + [] == Order(target, true);
      }
    }

    /** Stop one workload; only a verified release makes it count as stopped. */
    method StopWorkload(w: Name, before: set<Name>) returns (ok: bool, live: set<Name>)
      requires Ready() && Fenced(recorder.world) && w in catalog.definitions
      requires Explained(recorder.plans, catalog.definitions, before, recorder.world.live)
      modifies recorder
      ensures Ready() && old(recorder.history) <= recorder.history && old(recorder.failures) <= recorder.failures
      ensures !ok ==> recorder.failures > old(recorder.failures)
      ensures recorder.world.disk == old(recorder.world).disk
      ensures live == if ok then before - {w} else before
      ensures Explained(recorder.plans, catalog.definitions, live, recorder.world.live)
      ensures ok ==> recorder.world.log == old(recorder.world).log
                       + PhaseCommands(Stopping, recorder.plans, catalog.definitions[w])
    {
      live := before;
      ok := StopDefinition(catalog.definitions[w]);
      if !ok { return; }
      ReleaseShrinks(recorder.plans, catalog.definitions, live, w, old(recorder.world).live, recorder.world.live);
      live := live - {w};
    }

    /** Stop the workloads of the current profile that are not retained. */
    method StopLeaving(order: seq<Name>, ids: set<Name>, retained: set<Name>) returns (ok: bool, live: set<Name>)
      requires Ready() && Fenced(recorder.world)
      requires Enumerates(order, ids)
      requires ids <= catalog.definitions.Keys
      requires Explained(recorder.plans, catalog.definitions, ids, recorder.world.live)
      modifies recorder
      ensures Ready() && old(recorder.history) <= recorder.history && old(recorder.failures) <= recorder.failures
      ensures !ok ==> recorder.failures > old(recorder.failures)
      ensures recorder.world.disk == old(recorder.world).disk
      ensures live <= ids
      ensures Explained(recorder.plans, catalog.definitions, live, recorder.world.live)
      ensures ok ==> live <= retained
      ensures ok ==> recorder.world.log == old(recorder.world).log
                       + Sweep(Stopping, recorder.plans, catalog.definitions, order, retained)
    {
      live := ids;
      for i := 0 to |order|
        invariant Ready() && old(recorder.history) <= recorder.history && old(recorder.failures) <= recorder.failures
        invariant recorder.world.disk == old(recorder.world).disk
        invariant live <= ids
        invariant Explained(recorder.plans, catalog.definitions, live, recorder.world.live)
        invariant Passed(order, i, live, retained)
        invariant recorder.world.log == old(recorder.world).log
                    + Sweep(Stopping, recorder.plans, catalog.definitions, order[..i], retained)
      {
        var w := order[i];
        SweepStep(Stopping, recorder.plans, catalog.definitions, order, i, retained, old(recorder.world).log);
        ghost var before := live;
        if w in retained { PassedStep(order, i, before, live, retained); continue; }
        ok, live := StopWorkload(w, live);
        if !ok { return; }
        PassedStep(order, i, before, live, retained);
      }
      assert order[..|order|] == order;
      PassedAll(order, ids, live, retained);
      ok := true;
    }

    /** Verify one workload, mark it live, then start it: a start that fails may
        still leave a process behind. */
    method StartWorkload(w: Name, before: set<Name>) returns (ok: bool, live: set<Name>)
      requires Ready() && Fenced(recorder.world) && w in catalog.definitions
      requires Explained(recorder.plans, catalog.definitions, before, recorder.world.live)
      modifies recorder
      ensures Ready() && old(recorder.history) <= recorder.history && old(recorder.failures) <= recorder.failures
      ensures !ok ==> recorder.failures > old(recorder.failures)
      ensures recorder.world.disk == old(recorder.world).disk
      ensures before <= live <= before + {w}
      ensures Explained(recorder.plans, catalog.definitions, live, recorder.world.live)
      ensures ok ==> live == before + {w}
      ensures ok ==> recorder.world.log == old(recorder.world).log
                       + PhaseCommands(Starting, recorder.plans, catalog.definitions[w])
    {
      live := before;
      var d := catalog.definitions[w];
      OperationsReachTheSameNodes(recorder.plans, d, Start);
      OperationsReachTheSameNodes(recorder.plans, d, Stop);
      ok := VerifyDefinition(d);
      if !ok { return; }
      live := live + {w};
      ok := StartDefinition(d);
    }

    /** Verify and start the workloads of the target that are not retained. */
    method StartArriving(order: seq<Name>, ids: set<Name>, retained: set<Name>, before: set<Name>)
      returns (ok: bool, live: set<Name>)
      requires Ready() && Fenced(recorder.world)
      requires Enumerates(order, ids)
      requires ids <= catalog.definitions.Keys
      requires Explained(recorder.plans, catalog.definitions, before, recorder.world.live)
      modifies recorder
      ensures Ready() && old(recorder.history) <= recorder.history && old(recorder.failures) <= recorder.failures
      ensures !ok ==> recorder.failures > old(recorder.failures)
      ensures recorder.world.disk == old(recorder.world).disk
      ensures before <= live <= before + ids
      ensures Explained(recorder.plans, catalog.definitions, live, recorder.world.live)
      ensures ok ==> recorder.world.log == old(recorder.world).log
                       + Sweep(Starting, recorder.plans, catalog.definitions, order, retained)
    {
      live := before;
      for i := 0 to |order|
        invariant Ready() && old(recorder.history) <= recorder.history && old(recorder.failures) <= recorder.failures
        invariant recorder.world.disk == old(recorder.world).disk
        invariant before <= live <= before + ids
        invariant Explained(recorder.plans, catalog.definitions, live, recorder.world.live)
        invariant recorder.world.log == old(recorder.world).log
                    + Sweep(Starting, recorder.plans, catalog.definitions, order[..i], retained)
      {
        var w := order[i];
        SweepStep(Starting, recorder.plans, catalog.definitions, order, i, retained, old(recorder.world).log);
        if w in retained { continue; }
        ok, live := StartWorkload(w, live);
        if !ok { return; }
      }
      assert order[..|order|] == order;
      ok := true;
    }

    /** The publication gates of one workload. */
    method GateWorkload(d: WorkloadDefinition) returns (ok: bool)
      requires Ready() && Fenced(recorder.world) && RankOrdersValid(d)
      modifies recorder
      ensures Ready() && old(recorder.history) <= recorder.history && old(recorder.failures) <= recorder.failures
      ensures !ok ==> recorder.failures > old(recorder.failures)
      ensures recorder.world.disk == old(recorder.world).disk
      ensures recorder.world.live <= old(recorder.world).live
      ensures ok ==> recorder.world.log == old(recorder.world).log + PhaseCommands(Gating, recorder.plans, d)
      ensures ok ==> Placed(recorder.plans, d.id)
    {
      OperationsReachTheSameNodes(recorder.plans, d, Health);
      OperationsReachTheSameNodes(recorder.plans, d, Start);
      OperationsReachTheSameNodes(recorder.plans, d, Stop);
      ok := HealthDefinition(d);
      if !ok { return; }
      ok := InferDefinition(d);
    }

    /** Health-check and infer every workload of the target, retained ones too. */
    method GateTarget(order: seq<Name>, ids: set<Name>) returns (ok: bool)
      requires Ready() && Fenced(recorder.world)
      requires Enumerates(order, ids)
      requires ids <= catalog.definitions.Keys
      modifies recorder
      ensures Ready() && old(recorder.history) <= recorder.history && old(recorder.failures) <= recorder.failures
      ensures !ok ==> recorder.failures > old(recorder.failures)
      ensures recorder.world.disk == old(recorder.world).disk
      ensures recorder.world.live <= old(recorder.world).live
      ensures ok ==> recorder.world.log == old(recorder.world).log
                       + Sweep(Gating, recorder.plans, catalog.definitions, order, {})
      ensures ok ==> forall w :: w in ids ==> Placed(recorder.plans, w)
    {
      for i := 0 to |order|
        invariant Ready() && old(recorder.history) <= recorder.history && old(recorder.failures) <= recorder.failures
        invariant recorder.world.disk == old(recorder.world).disk
        invariant recorder.world.live <= old(recorder.world).live
        invariant recorder.world.log == old(recorder.world).log
                    + Sweep(Gating, recorder.plans, catalog.definitions, order[..i], {})
        invariant AllPlaced(recorder.plans, order[..i])
      {
        var w := order[i];
        SweepStep(Gating, recorder.plans, catalog.definitions, order, i, {}, old(recorder.world).log);
        ok := GateWorkload(catalog.definitions[w]);
        if !ok { return; }
        AllPlacedStep(recorder.plans, order, i);
      }
      assert order[..|order|] == order;
      AllPlacedMeansEach(recorder.plans, order, ids);
      ok := true;
    }

    /** The target profile is resident: publish it, or report a stopped cluster when
        it has no workloads. */
    method Publish(target: ClusterProfile, restore: Option<Name>, bootIds: map<Name, Name>) returns (ok: bool)
      requires Ready() && Fenced(recorder.world) && TargetAccepted(catalog, target)
      requires Explained(recorder.plans, catalog.definitions, ProfileDefinitions(target), recorder.world.live)
      requires Certified(recorder.plans, ActiveState(catalog, target, restore, bootIds), recorder.world.log)
      modifies recorder
      ensures Ready() && old(recorder.history) <= recorder.history && old(recorder.failures) <= recorder.failures
      ensures !ok ==> recorder.failures > old(recorder.failures)
      ensures recorder.world == old(recorder.world).(disk := recorder.world.disk) && Guarded(recorder.world)
      ensures !ok ==> Fenced(recorder.world)
      ensures ok ==> recorder.world.Loaded() == FinalState(catalog, target, restore, bootIds)
      ensures ok && ProfileDefinitions(target) == {} ==> recorder.world.live == {}
    {
      var final := FinalState(catalog, target, restore, bootIds);
      assert Explained(recorder.plans, PublishedDefinitions(ActiveState(catalog, target, restore, bootIds)),
                       ProfileDefinitions(target), recorder.world.live);
      assert ProfileDefinitions(target) == {} ==> recorder.world.live == {};
      ok := store.FinishTransition(final);
    }

    /** Persist the failed state, or once more a degraded one; if neither can be written
        the fence speaks for it. */
    method PersistFailure(failed: ControllerState) returns (reported: ReportStatus)
      requires Ready() && Fenced(recorder.world) && failed.Valid() && failed.activeProfile.None?
      requires failed.(status := Degraded).Valid()
      requires failed.status.Degraded? || (failed.status.Stopped? && recorder.world.live == {})
      modifies recorder
      ensures Ready() && old(recorder.history) <= recorder.history && old(recorder.failures) <= recorder.failures
      ensures recorder.world.live == old(recorder.world).live && Guarded(recorder.world)
      ensures reported == ReportedStopped || reported == ReportedDegraded
      ensures reported == ReportedStopped ==> failed.status.Stopped? && recorder.world.Loaded() == failed
      ensures reported == ReportedDegraded ==> recorder.world.Loaded().status.Degraded?
      ensures recorder.world.Loaded() in {failed, failed.(status := Degraded)}
              || recorder.failures >= old(recorder.failures) + 2
    {
      var ok := store.FinishTransition(failed);
      if ok { return if failed.status.Stopped? then ReportedStopped else ReportedDegraded; }
      ok := store.FinishTransition(failed.(status := Degraded));
      return ReportedDegraded;
    }

    /** A failed switch: clean up, then persist what is known, conservatively. */
    method Recover(current: Option<ClusterProfile>, target: ClusterProfile, restore: Option<Name>,
                   bootIds: map<Name, Name>, ids: set<Name>) returns (outcome: Outcome)
      requires Ready() && Fenced(recorder.world)
      requires ids <= ProfileDefinitions(target) + (if current.Some? then ProfileDefinitions(current.value) else {})
      requires ids <= catalog.definitions.Keys
      requires Explained(recorder.plans, catalog.definitions, ids, recorder.world.live)
      modifies recorder
      ensures Ready() && old(recorder.history) <= recorder.history && old(recorder.failures) <= recorder.failures
      ensures Guarded(recorder.world) && (outcome.Raised? ==> Fenced(recorder.world))
      ensures outcome.Returned? ==>
                && outcome.report.failed && outcome.report.publishedEndpoints == map[]
                && (outcome.report.status == ReportedStopped || outcome.report.status == ReportedDegraded)
                && (outcome.report.status == ReportedStopped ==>
                      recorder.world.live == {}
                      && recorder.world.Loaded() == StoppedState(Some(target.id), restore, true, bootIds))
                && (outcome.report.status == ReportedDegraded ==> recorder.world.Loaded().status.Degraded?)
    {
      var ordered := CleanupOrder(current, target);
      CleanupReachesAll(current, target);
      var clean, raised := CleanupLive(ordered, ids);
      if raised { return Raised; }
      var status := if clean then Stopped else Degraded;
      var failed := ControllerState(status, None, Some(target.id), restore, true, None, map[], bootIds);
      var reported := PersistFailure(failed);
      return Returned(SwitchReport(reported, true, map[], {}));
    }

    /** Stop what leaves the cluster, if anything is published at all. */
    method StopCurrent(current: Option<ClusterProfile>, retained: set<Name>, ghost run: Run)
      returns (ok: bool, live: set<Name>)
      requires Ready() && Fenced(recorder.world) && run.Covers(recorder.world.log)
      requires current.Some? ==> ProfileDefinitions(current.value) <= catalog.definitions.Keys
      requires current.Some? ==>
                 Explained(recorder.plans, catalog.definitions, ProfileDefinitions(current.value), recorder.world.live)
      requires current.None? ==> recorder.world.live == {}
      modifies recorder
      ensures Ready() && old(recorder.history) <= recorder.history && old(recorder.failures) <= recorder.failures
      ensures !ok ==> recorder.failures > old(recorder.failures)
      ensures recorder.world.disk == old(recorder.world).disk
      ensures live <= if current.Some? then ProfileDefinitions(current.value) else {}
      ensures Explained(recorder.plans, catalog.definitions, live, recorder.world.live)
      ensures ok ==> live <= retained && run.Covers(recorder.world.log)
      ensures ok ==> recorder.world.log == old(recorder.world).log
                       + StopCommands(recorder.plans, catalog.definitions, current, retained)
    {
      if current.None? {
        return true, {};
      }
      var leaving := WorkloadOrder(current.value, true);
      OrderEnumerates(current.value, true);
      ghost var log0 := recorder.world.log;
      ok, live := StopLeaving(leaving, ProfileDefinitions(current.value), retained);
      if ok {
        SweepIsCommands(Stopping, recorder.plans, catalog.definitions, leaving, retained);
        run.Extends(log0, Sweep(Stopping, recorder.plans, catalog.definitions, leaving, retained));
      }
    }

    /** Bring the target up and take all of it through its gates. */
    method StartTarget(target: ClusterProfile, retained: set<Name>, before: set<Name>, ghost run: Run)
      returns (ok: bool, live: set<Name>)
      requires Ready() && Fenced(recorder.world) && run.Covers(recorder.world.log)
      requires TargetAccepted(catalog, target) && run.target == target.id
      requires Explained(recorder.plans, catalog.definitions, before, recorder.world.live)
      modifies recorder
      ensures Ready() && old(recorder.history) <= recorder.history && old(recorder.failures) <= recorder.failures
      ensures !ok ==> recorder.failures > old(recorder.failures)
      ensures recorder.world.disk == old(recorder.world).disk
      ensures live <= before + ProfileDefinitions(target)
      ensures Explained(recorder.plans, catalog.definitions, live, recorder.world.live)
      ensures ok ==> recorder.world.log == old(recorder.world).log
                       + Sweep(Starting, recorder.plans, catalog.definitions, Order(target, false), retained)
                       + Sweep(Gating, recorder.plans, catalog.definitions, Order(target, false), {})
      ensures ok ==> forall restore, bootIds ::
                Certified(recorder.plans, ActiveState(catalog, target, restore, bootIds), recorder.world.log)
    {
      var plans := recorder.plans;
      var arriving := WorkloadOrder(target, false);
      OrderEnumerates(target, false);
      ghost var log0 := recorder.world.log;
      ok, live := StartArriving(arriving, ProfileDefinitions(target), retained, before);
      if !ok { return; }
      SweepIsCommands(Starting, plans, catalog.definitions, arriving, retained);
      run.Extends(log0, Sweep(Starting, plans, catalog.definitions, arriving, retained));
      ghost var log1 := recorder.world.log;
      ok := GateTarget(arriving, ProfileDefinitions(target));
      if !ok { return; }
      forall restore, bootIds
        ensures Certified(plans, ActiveState(catalog, target, restore, bootIds), recorder.world.log)
      {
        GatesCertify(plans, catalog, target, restore, bootIds, arriving, log1, run);
      }
    }

    /** Open the run and choose what to retain, by reads alone. */
    method OpenRun(s: ControllerState, target: ClusterProfile, bootIds: map<Name, Name>) returns (retained: set<Name>)
      requires Ready() && StateAccepted(catalog, s)
      modifies recorder
      ensures Ready() && old(recorder.history) <= recorder.history && old(recorder.failures) <= recorder.failures
      ensures recorder.world.disk == old(recorder.world).disk && recorder.world.live <= old(recorder.world).live
      ensures KeepsRunning(catalog, s, target, bootIds, retained, recorder.failures == old(recorder.failures))
      ensures retained <= ProfileDefinitions(target)
      ensures OpeningLog(target, old(recorder.world).log, recorder.world.log)
    {
      ghost var opening := recorder.world.log + [RunOpened(target.id)];
      QuietEventKeepsTruth(recorder.plans, recorder.world, RunOpened(target.id));
      recorder.Step(recorder.world.(log := recorder.world.log + [RunOpened(target.id)]));
      retained := HealthyRetained(s, CurrentProfile(catalog, s), target, bootIds);
      KeptStaysPut(catalog, s, target, bootIds, retained, recorder.failures == old(recorder.failures));
      assert OpeningLog(target, old(recorder.world).log, recorder.world.log) by {
        var checks := recorder.world.log[|opening|..];
        assert recorder.world.log == opening + checks;
      }
    }

    /** Open the run, choose what to retain, withdraw the publication and put the
        fence in place.  Nothing has been started or stopped by then. */
    method Prepare(s: ControllerState, current: Option<ClusterProfile>, target: ClusterProfile,
                   restore: Option<Name>, bootIds: map<Name, Name>) returns (ready: bool, retained: set<Name>)
      requires Ready() && s == recorder.world.Loaded() && StateAccepted(catalog, s)
      requires current == CurrentProfile(catalog, s)
      modifies recorder
      ensures Ready() && old(recorder.history) <= recorder.history && old(recorder.failures) <= recorder.failures
      ensures !ready ==> recorder.failures > old(recorder.failures) && Guarded(recorder.world)
      ensures retained <= ProfileDefinitions(target)
      ensures KeepsRunning(catalog, s, target, bootIds, retained, recorder.failures == old(recorder.failures))
      ensures current.Some? ==> ProfileDefinitions(current.value) <= catalog.definitions.Keys
      ensures ready ==> Fenced(recorder.world)
      ensures ready ==> && recorder.world.disk.state.cached == Some(Withdrawn(target, restore, bootIds))
                        && recorder.world.disk.state.survivors == {recorder.world.disk.state.cached}
      ensures ready && current.Some? ==>
                Explained(recorder.plans, catalog.definitions, ProfileDefinitions(current.value), recorder.world.live)
      ensures ready && current.None? ==> recorder.world.live == {}
      ensures ready ==> OpeningLog(target, old(recorder.world).log, recorder.world.log)
    {
      AcceptedStateExplainsLive(recorder.plans, catalog, recorder.world);
      retained := OpenRun(s, target, bootIds);
      var withdrawn := Withdrawn(target, restore, bootIds);
      WithdrawalIsTruthful(recorder.plans, recorder.world, withdrawn);
      ready := store.Save(withdrawn);
      if !ready { return; }
      FenceIsTruthful(recorder.plans, recorder.world);
      var begun := store.BeginTransition();
      ready := begun.Begun?;
    }

    /** Everything after the fence is durable. */
    method Commit(current: Option<ClusterProfile>, target: ClusterProfile, restore: Option<Name>,
                  bootIds: map<Name, Name>, retained: set<Name>, ghost run: Run) returns (outcome: Outcome)
      requires Ready() && Fenced(recorder.world) && TargetAccepted(catalog, target)
      requires current.Some? ==> ProfileDefinitions(current.value) <= catalog.definitions.Keys
      requires current.Some? ==>
                 Explained(recorder.plans, catalog.definitions, ProfileDefinitions(current.value), recorder.world.live)
      requires current.None? ==> recorder.world.live == {}
      requires retained <= ProfileDefinitions(target)
      requires run.target == target.id && run.Covers(recorder.world.log)
      modifies recorder
      ensures Ready() && old(recorder.history) <= recorder.history && old(recorder.failures) <= recorder.failures
      ensures Guarded(recorder.world)
      ensures outcome.Returned? ==> outcome.report.status in {ReportedActive, ReportedStopped, ReportedDegraded}
      ensures outcome.Returned? && outcome.report.status == ReportedActive ==>
                && !outcome.report.failed && outcome.report.publishedEndpoints == target.endpoints
                && recorder.world.Loaded() == ActiveState(catalog, target, restore, bootIds)
      ensures outcome.Returned? && outcome.report.status != ReportedActive ==>
                outcome.report.publishedEndpoints == map[]
      ensures outcome.Returned? && outcome.report.status == ReportedStopped ==>
                && recorder.world.live == {}
                && recorder.world.Loaded() == StoppedState(if outcome.report.failed then Some(target.id) else None,
                                                           restore, outcome.report.failed, bootIds)
      ensures outcome.Returned? && outcome.report.status == ReportedDegraded ==>
                recorder.world.Loaded().status.Degraded?
      ensures outcome.Raised? || outcome.report.failed ==> recorder.failures > old(recorder.failures)
      ensures outcome.Returned? && !outcome.report.failed ==>
                && outcome.report.retained == retained
                && recorder.world.log == old(recorder.world).log
                     + SwitchCommands(recorder.plans, catalog.definitions, current, target, retained)
    {
      var ok, live := StopCurrent(current, retained, run);
      if ok {
        ok, live := StartTarget(target, retained, live, run);
        if ok {
          PhasesCompose(recorder.plans, catalog.definitions, current, target, retained, old(recorder.world).log);
          ok := Publish(target, restore, bootIds);
          if ok {
            var active := ProfileDefinitions(target) != {};
            return Returned(SwitchReport(if active then ReportedActive else ReportedStopped, false,
                                         if active then target.endpoints else map[], retained));
          }
        }
      }
      outcome := Recover(current, target, restore, bootIds, live);
    }

    /** The switch itself, once everything was checked. */
    method Perform(s: ControllerState, target: ClusterProfile, restore: Option<Name>, bootIds: map<Name, Name>)
      returns (outcome: Outcome)
      requires Ready() && s == recorder.world.Loaded() && StateAccepted(catalog, s) && TargetAccepted(catalog, target)
      modifies recorder
      ensures Ready() && old(recorder.history) <= recorder.history && old(recorder.failures) <= recorder.failures
      ensures Guarded(recorder.world)
      ensures outcome.Returned? ==> outcome.report.status in {ReportedActive, ReportedStopped, ReportedDegraded}
      ensures outcome.Raised? || outcome.report.failed ==> recorder.failures > old(recorder.failures)
      ensures outcome.Returned? && outcome.report.status == ReportedActive ==>
                && recorder.world.Loaded() == ActiveState(catalog, target, restore, bootIds)
                && outcome.report.publishedEndpoints == target.endpoints
      ensures outcome.Returned? && outcome.report.status != ReportedActive ==>
                outcome.report.publishedEndpoints == map[]
      ensures outcome.Returned? && outcome.report.status == ReportedStopped ==>
                && recorder.world.live == {}
                && recorder.world.Loaded() == StoppedState(if outcome.report.failed then Some(target.id) else None,
                                                           restore, outcome.report.failed, bootIds)
      ensures outcome.Returned? && outcome.report.status == ReportedDegraded ==>
                recorder.world.Loaded().status.Degraded?
      ensures outcome.Returned? && !outcome.report.failed ==>
                && SuccessfulLog(recorder.plans, catalog, CurrentProfile(catalog, s), target, outcome.report.retained,
                                 old(recorder.world).log, recorder.world.log)
                && KeepsRunning(catalog, s, target, bootIds, outcome.report.retained,
                                recorder.failures == old(recorder.failures))
    {
      var current := CurrentProfile(catalog, s);
      ghost var before := recorder.world.log;
      var ready, retained := Prepare(s, current, target, restore, bootIds);
      if !ready { return Raised; }
      ghost var fenced := recorder.world.log;
      OpeningLogCovers(target, before, fenced);
      outcome := Commit(current, target, restore, bootIds, retained, Run(|before|, target.id));
      if outcome.Returned? && !outcome.report.failed {
        assert SuccessfulLog(recorder.plans, catalog, current, target, retained, before, recorder.world.log);
      }
    }

    method Transition(s: ControllerState, target: ClusterProfile, restore: Option<Name>, dryRun: bool,
                      inventory: Inventory, admitted: bool) returns (outcome: Outcome)
      requires Ready() && s == recorder.world.Loaded()
      modifies recorder
      ensures Ready() && old(recorder.history) <= recorder.history && old(recorder.failures) <= recorder.failures
      ensures Guarded(old(recorder.world)) ==> Guarded(recorder.world)
      ensures outcome.Returned? && outcome.report.status in {Blocked, Planned} ==> recorder.world == old(recorder.world)
      ensures outcome == BLOCKED <==> !Admissible(catalog, s, target, inventory, admitted)
      ensures outcome.Returned? && outcome.report.status == Planned <==>
                Admissible(catalog, s, target, inventory, admitted) && dryRun
      ensures BlockedForCause(catalog, s, target, inventory, admitted, outcome == BLOCKED)
      ensures outcome.Returned? && outcome.report.status in {ReportedActive, ReportedStopped}
              && target.id in catalog.profiles && target == catalog.profiles[target.id] ==>
                Resumable(catalog, recorder.world.Loaded())
      ensures outcome.Raised? || (outcome.report.failed && outcome != BLOCKED) ==>
                recorder.failures > old(recorder.failures)
      ensures outcome.Returned? && outcome.report.status == ReportedActive ==>
                && TargetAccepted(catalog, target) && LiveBootIds(inventory).Some?
                && recorder.world.Loaded() == ActiveState(catalog, target, restore, LiveBootIds(inventory).value)
                && outcome.report.publishedEndpoints == target.endpoints
                && recorder.world.Loaded().bootIds.Keys == inventory.nodes.Keys
                && (forall n :: n in inventory.nodes ==> inventory.nodes[n] == Some(recorder.world.Loaded().bootIds[n]))
      ensures outcome.Returned? && outcome.report.status != ReportedActive ==>
                outcome.report.publishedEndpoints == map[]
      ensures outcome.Returned? && outcome.report.status == ReportedStopped ==>
                && recorder.world.live == {}
                && recorder.world.Loaded() == StoppedState(if outcome.report.failed then Some(target.id) else None,
                                                           restore, outcome.report.failed,
                                                           LiveBootIds(inventory).value)
      ensures outcome.Returned? && outcome.report.status == ReportedDegraded ==>
                recorder.world.Loaded().status.Degraded?
      ensures outcome.Returned? && outcome.report.status in {ReportedActive, ReportedStopped}
              && !outcome.report.failed ==>
                KeepsRunning(catalog, s, target, LiveBootIds(inventory).value, outcome.report.retained,
                             recorder.failures == old(recorder.failures))
      ensures outcome.Returned? && outcome.report.status in {ReportedActive, ReportedStopped}
              && !outcome.report.failed ==>
                SuccessfulLog(recorder.plans, catalog, CurrentProfile(catalog, s), target, outcome.report.retained,
                              old(recorder.world).log, recorder.world.log)
    {
      InadmissibleForCause(catalog, s, target, inventory, admitted);
      if !TargetAccepted(catalog, target) { return BLOCKED; }
      if !StateAccepted(catalog, s) { return BLOCKED; }
      if !inventory.Measured? { return BLOCKED; }
      var boots := LiveBootIds(inventory);
      if boots.None? { return BLOCKED; }
      if !admitted { return BLOCKED; }
      if dryRun { return Returned(SwitchReport(Planned, false, map[], {})); }

      outcome := Perform(s, target, restore, boots.value);
      BootIdsAreMeasured(inventory);
      if target.id in catalog.profiles && target == catalog.profiles[target.id] {
        LeftIsResumable(catalog, target, restore, boots.value);
      }
    }
  }
}
