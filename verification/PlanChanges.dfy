/** What a switch does when the placement plans have changed since the last one. */
module PlanChanges {
  import opened Options
  import opened Names
  import opened Contracts
  import opened ClusterWorld
  import opened SwitchPlan
  import opened Switcher

  /** The world after the events of a log. */
  function Replay(w: World, events: seq<Event>): World {
    if events == [] then w
    else
      var before, e := Replay(w, events[..|events| - 1]), events[|events| - 1];
      match e
      case Command(op, workload, node, ok) => AfterCommand(before, op, workload, node, ok)
      case RunOpened(_) => before.(log := before.log + [e])
  }

  lemma {:induction false} ReplayConcat(w: World, a: seq<Event>, b: seq<Event>)
    ensures Replay(w, a + b) == Replay(Replay(w, a), b)
  {
    if b == [] {
      assert a + b == a;
    } else {
      var last := |b| - 1;
      assert (a + b)[..|a + b| - 1] == a + b[..last];
      ReplayConcat(w, a, b[..last]);
    }
  }

  lemma {:induction false} ReplayLogs(w: World, events: seq<Event>)
    ensures Replay(w, events).log == w.log + events && Replay(w, events).disk == w.disk
  {
    if events == [] {
      assert w.log + events == w.log;
    } else {
      var init, e := events[..|events| - 1], events[|events| - 1];
      ReplayLogs(w, init);
      assert Replay(w, events).log == Replay(w, init).log + [e];
      assert events == init + [e];
      assert w.log + init + [e] == w.log + (init + [e]);
    }
  }

  function Apply(phase: Phase, live: set<Process>, touched: set<Process>): set<Process> {
    match phase
    case Stopping => live - touched
    case Starting => live + touched
    case Gating => live
  }

  lemma SucceededSnoc(op: Operation, id: Name, nodes: seq<Name>)
    requires nodes != []
    ensures var last := |nodes| - 1;
            && Succeeded(op, id, nodes)[..last] == Succeeded(op, id, nodes[..last])
            && Succeeded(op, id, nodes)[last] == Command(op, id, nodes[last], true)
            && Processes(id, Elements(nodes)) == Processes(id, Elements(nodes[..last])) + {Process(id, nodes[last])}
  {
    var last := |nodes| - 1;
    assert nodes == nodes[..last] + [nodes[last]];
    assert Elements(nodes) == Elements(nodes[..last]) + {nodes[last]};
  }

  lemma {:induction false} StopsReplay(w: World, id: Name, nodes: seq<Name>)
    ensures var w' := Replay(w, Succeeded(Stop, id, nodes));
            w'.live == w.live && w.stopping + Processes(id, Elements(nodes)) <= w'.stopping
  {
    if nodes != [] {
      SucceededSnoc(Stop, id, nodes);
      StopsReplay(w, id, nodes[..|nodes| - 1]);
    }
  }

  lemma {:induction false} ReleasesReplay(w: World, id: Name, nodes: seq<Name>)
    requires Processes(id, Elements(nodes)) <= w.stopping
    ensures var w' := Replay(w, Succeeded(VerifyRelease, id, nodes));
            w'.live == w.live - Processes(id, Elements(nodes)) && w'.stopping == w.stopping
  {
    if nodes != [] {
      SucceededSnoc(VerifyRelease, id, nodes);
      ReleasesReplay(w, id, nodes[..|nodes| - 1]);
    }
  }

  lemma {:induction false} StartsReplay(w: World, id: Name, nodes: seq<Name>)
    ensures Replay(w, Succeeded(Start, id, nodes)).live == w.live + Processes(id, Elements(nodes))
  {
    if nodes != [] {
      SucceededSnoc(Start, id, nodes);
      StartsReplay(w, id, nodes[..|nodes| - 1]);
    }
  }

  lemma {:induction false} ReadsReplay(w: World, events: seq<Event>)
    requires forall e :: e in events ==> Quiet(e) && !e.op.VerifyRelease?
    ensures Replay(w, events).live == w.live
  {
    if events != [] {
      assert events[|events| - 1] in events;
      ReadsReplay(w, events[..|events| - 1]);
    }
  }

  /** The commands of one workload in one phase act on exactly its nodes. */
  lemma PhaseEffect(w: World, phase: Phase, plans: Plans, d: WorkloadDefinition)
    requires RankOrdersValid(d)
    ensures Replay(w, PhaseCommands(phase, plans, d)).live
            == Apply(phase, w.live, Processes(d.id, WorkloadNodes(plans, d)))
  {
    OperationsReachTheSameNodes(plans, d, Start);
    OperationsReachTheSameNodes(plans, d, Stop);
    if OperationNodes(plans, d, Stop).Some? {
      var starts, stops := OperationNodes(plans, d, Start).value, OperationNodes(plans, d, Stop).value;
      match phase
      case Stopping =>
        StopsReplay(w, d.id, stops);
        ReleasesReplay(Replay(w, Succeeded(Stop, d.id, stops)), d.id, stops);
        ReplayConcat(w, Succeeded(Stop, d.id, stops), Succeeded(VerifyRelease, d.id, stops));
      case Starting =>
        ReadsReplay(w, Succeeded(Verify, d.id, starts));
        StartsReplay(Replay(w, Succeeded(Verify, d.id, starts)), d.id, starts);
        ReplayConcat(w, Succeeded(Verify, d.id, starts), Succeeded(Start, d.id, starts));
      case Gating =>
        ReadsReplay(w, PhaseCommands(Gating, plans, d));
    }
  }

  /** The processes a sweep acts on. */
  function Touched(plans: Plans, definitions: map<Name, WorkloadDefinition>, order: seq<Name>,
                   skip: set<Name>): set<Process> {
    if order == [] then {}
    else
      var last := order[|order| - 1];
      var before := Touched(plans, definitions, order[..|order| - 1], skip);
      if last in skip || last !in definitions then before
      else before + Processes(last, WorkloadNodes(plans, definitions[last]))
  }

  lemma {:induction false} TouchedAre(plans: Plans, definitions: map<Name, WorkloadDefinition>, order: seq<Name>,
                                      skip: set<Name>, p: Process)
    ensures p in Touched(plans, definitions, order, skip) <==>
            p.workload in order && p.workload !in skip && p.workload in definitions
            && p.node in WorkloadNodes(plans, definitions[p.workload])
  {
    if order != [] {
      TouchedAre(plans, definitions, order[..|order| - 1], skip, p);
      assert order == order[..|order| - 1] + [order[|order| - 1]];
    }
  }

  lemma {:induction false} SweepEffect(w: World, phase: Phase, plans: Plans, definitions: map<Name, WorkloadDefinition>,
                                       order: seq<Name>, skip: set<Name>)
    requires forall k :: k in definitions ==> definitions[k].id == k && RankOrdersValid(definitions[k])
    ensures Replay(w, Sweep(phase, plans, definitions, order, skip)).live ==
            Apply(phase, w.live, Touched(plans, definitions, order, skip))
  {
    if order != [] {
      var last := order[|order| - 1];
      var before := Sweep(phase, plans, definitions, order[..|order| - 1], skip);
      SweepEffect(w, phase, plans, definitions, order[..|order| - 1], skip);
      if last !in skip && last in definitions {
        PhaseEffect(Replay(w, before), phase, plans, definitions[last]);
        ReplayConcat(w, before, PhaseCommands(phase, plans, definitions[last]));
      }
    }
  }

  // ---- stopping under other plans --------------------------------------------------------------

  /** Everything the plans run for these workloads. */
  function Residency(plans: Plans, definitions: map<Name, WorkloadDefinition>, ids: set<Name>): set<Process> {
    set w, n | w in ids && w in definitions && n in WorkloadNodes(plans, definitions[w]) :: Process(w, n)
  }

  /** No operation of the profile aborts for want of nodes. */
  predicate AllPlaced(plans: Plans, profile: ClusterProfile) {
    forall w :: w in ProfileDefinitions(profile) ==> Placed(plans, w)
  }

  /** The new plans still name every node that these workloads were started on. */
  predicate Covers(now: Plans, started: Plans, definitions: map<Name, WorkloadDefinition>, ids: set<Name>) {
    forall w :: w in ids && w in definitions ==>
      WorkloadNodes(started, definitions[w]) <= WorkloadNodes(now, definitions[w])
  }

  lemma StopSweepLeaves(now: Plans, c: Catalog, current: ClusterProfile, retained: set<Name>, w: World, p: Process)
    requires ValidCatalog(c)
    ensures p in Replay(w, StopCommands(now, c.definitions, Some(current), retained)).live <==>
            p in w.live && !(p.workload in ProfileDefinitions(current) && p.workload !in retained
                             && p.workload in c.definitions
                             && p.node in WorkloadNodes(now, c.definitions[p.workload]))
  {
    var order := Order(current, true);
    OrderIsComplete(current, true);
    SweepEffect(w, Stopping, now, c.definitions, order, retained);
    TouchedAre(now, c.definitions, order, retained, p);
  }

  /** A profile that was started under one set of plans and is stopped under another, with
      every command succeeding, leaves exactly the retained workloads running if and only
      if the new plans cover every workload that is stopped. */
  lemma StopUnderOtherPlans(started: Plans, now: Plans, c: Catalog, current: ClusterProfile, retained: set<Name>,
                            w: World)
    requires ValidCatalog(c) && ProfileDefinitions(current) <= c.definitions.Keys
    requires w.live == Residency(started, c.definitions, ProfileDefinitions(current)) && AllPlaced(now, current)
    ensures Replay(w, StopCommands(now, c.definitions, Some(current), retained)).live
            == Residency(started, c.definitions, ProfileDefinitions(current) * retained)
            <==> Covers(now, started, c.definitions, ProfileDefinitions(current) - retained)
  {
    var ids := ProfileDefinitions(current);
    var left := Replay(w, StopCommands(now, c.definitions, Some(current), retained)).live;
    var kept := Residency(started, c.definitions, ids * retained);
    forall p ensures p in left <==> p in w.live && !(p.workload in ids && p.workload !in retained
                                                    && p.node in WorkloadNodes(now, c.definitions[p.workload])) {
      StopSweepLeaves(now, c, current, retained, w, p);
    }
    if left == kept {
      forall x, n | x in ids - retained && n in WorkloadNodes(started, c.definitions[x])
        ensures n in WorkloadNodes(now, c.definitions[x])
      {
        assert Process(x, n) in w.live && Process(x, n) !in kept;
      }
    }
    if Covers(now, started, c.definitions, ids - retained) {
      forall p ensures p in left <==> p in kept {
        if p in w.live && p.workload !in retained { assert p.workload in ids - retained; }
      }
    }
  }

  // ---- the whole switch -----------------------------------------------------------------------

  /** A world after a failure-free switch: its commands were issued and its final state is
      durable and readable. */
  function Switched(plans: Plans, c: Catalog, current: Option<ClusterProfile>, target: ClusterProfile,
                    retained: set<Name>, bootIds: map<Name, Name>, w: World): World
    requires TargetAccepted(c, target)
  {
    var final := Some(FinalState(c, target, None, bootIds));
    Replay(w, [RunOpened(target.id)] + SwitchCommands(plans, c.definitions, current, target, retained))
      .(disk := Disk(Entry(final, {final}), Entry(false, {false})))
  }

  lemma ReplayPhases(w: World, stop: seq<Event>, start: seq<Event>, gate: seq<Event>)
    ensures Replay(w, stop + start + gate) == Replay(Replay(Replay(w, stop), start), gate)
  {
    ReplayConcat(w, stop + start, gate);
    ReplayConcat(w, stop, start);
  }

  lemma ReplayOpening(w: World, target: Name, commands: seq<Event>)
    ensures Replay(w, [RunOpened(target)] + commands) == Replay(w.(log := w.log + [RunOpened(target)]), commands)
    ensures Replay(w, [RunOpened(target)] + commands).log == w.log + [RunOpened(target)] + commands
  {
    var opening := [RunOpened(target)];
    ReplayConcat(w, opening, commands);
    ReplayLogs(w, opening + commands);
    assert w.log + (opening + commands) == w.log + opening + commands;
    assert opening[..0] == [];
    assert Replay(w, opening) == w.(log := w.log + opening);
  }

  /** What the starting and gating sweeps add to a world in which stopping is done. */
  lemma StartEffect(w: World, plans: Plans, c: Catalog, order: seq<Name>, retained: set<Name>)
    requires ValidCatalog(c)
    ensures var started := Replay(w, Sweep(Starting, plans, c.definitions, order, retained));
            Replay(started, Sweep(Gating, plans, c.definitions, order, {})).live
            == w.live + Touched(plans, c.definitions, order, retained)
  {
    SweepEffect(w, Starting, plans, c.definitions, order, retained);
    var started := Replay(w, Sweep(Starting, plans, c.definitions, order, retained));
    SweepEffect(started, Gating, plans, c.definitions, order, {});
  }

  lemma SwitchEffect(plans: Plans, c: Catalog, current: Option<ClusterProfile>, target: ClusterProfile,
                     retained: set<Name>, bootIds: map<Name, Name>, w: World)
    requires ValidCatalog(c) && TargetAccepted(c, target)
    ensures var stopped := Replay(w.(log := w.log + [RunOpened(target.id)]),
                                  StopCommands(plans, c.definitions, current, retained));
            Switched(plans, c, current, target, retained, bootIds, w).live
            == stopped.live + Touched(plans, c.definitions, Order(target, false), retained)
    ensures Switched(plans, c, current, target, retained, bootIds, w).log
            == w.log + [RunOpened(target.id)] + SwitchCommands(plans, c.definitions, current, target, retained)
  {
    var order := Order(target, false);
    var begun := w.(log := w.log + [RunOpened(target.id)]);
    var stop := StopCommands(plans, c.definitions, current, retained);
    ReplayOpening(w, target.id, SwitchCommands(plans, c.definitions, current, target, retained));
    ReplayPhases(begun, stop, Sweep(Starting, plans, c.definitions, order, retained),
                 Sweep(Gating, plans, c.definitions, order, {}));
    StartEffect(Replay(begun, stop), plans, c, order, retained);
  }

  lemma LiveAfterSwitch(now: Plans, c: Catalog, current: ClusterProfile, target: ClusterProfile, retained: set<Name>,
                        bootIds: map<Name, Name>, w: World, p: Process)
    requires ValidCatalog(c) && TargetAccepted(c, target) && ProfileDefinitions(current) <= c.definitions.Keys
    ensures p in Switched(now, c, Some(current), target, retained, bootIds, w).live <==>
            || (p in w.live && !(p.workload in ProfileDefinitions(current) - retained
                                 && p.node in WorkloadNodes(now, c.definitions[p.workload])))
            || (p.workload in ProfileDefinitions(target) - retained
                && p.node in WorkloadNodes(now, c.definitions[p.workload]))
  {
    SwitchEffect(now, c, Some(current), target, retained, bootIds, w);
    StopSweepLeaves(now, c, current, retained, w.(log := w.log + [RunOpened(target.id)]), p);
    OrderIsComplete(target, false);
    TouchedAre(now, c.definitions, Order(target, false), retained, p);
  }

  /** The target accounts for every process that runs after the switch if and only if the
      new plans cover everything that ran before it: a workload that leaves, one that stays
      up, and one that the new plans move to another node. */
  lemma TargetExplainsWhenCovered(started: Plans, now: Plans, c: Catalog, current: ClusterProfile,
                                  target: ClusterProfile, retained: set<Name>, bootIds: map<Name, Name>, w: World)
    requires ValidCatalog(c) && TargetAccepted(c, target) && retained <= ProfileDefinitions(target)
    requires ProfileDefinitions(current) <= c.definitions.Keys
    requires w.live == Residency(started, c.definitions, ProfileDefinitions(current))
    ensures Explained(now, c.definitions, ProfileDefinitions(target),
                      Switched(now, c, Some(current), target, retained, bootIds, w).live)
            <==> Covers(now, started, c.definitions, ProfileDefinitions(current))
  {
    var ids, staying := ProfileDefinitions(current), ProfileDefinitions(target);
    var live := Switched(now, c, Some(current), target, retained, bootIds, w).live;
    if Explained(now, c.definitions, staying, live) {
      forall x, n | x in ids && n in WorkloadNodes(started, c.definitions[x])
        ensures n in WorkloadNodes(now, c.definitions[x])
      {
        LiveAfterSwitch(now, c, current, target, retained, bootIds, w, Process(x, n));
        assert Process(x, n) in w.live;
      }
    }
    if Covers(now, started, c.definitions, ids) {
      forall p | p in live
        ensures p.workload in staying && p.workload in c.definitions
                && p.node in WorkloadNodes(now, c.definitions[p.workload])
      {
        LiveAfterSwitch(now, c, current, target, retained, bootIds, w, p);
      }
    }
  }

  lemma Regroup(a: seq<Event>, b: seq<Event>, c: seq<Event>, d: seq<Event>)
    ensures a + (b + c + d) == a + b + c + d
  {
  }

  lemma GatedLog(plans: Plans, c: Catalog, target: ClusterProfile, retained: set<Name>, bootIds: map<Name, Name>,
                 before: seq<Event>, stop: seq<Event>, order: seq<Name>)
    requires ValidCatalog(c) && TargetAccepted(c, target) && AllPlaced(plans, target)
    requires order == Order(target, false) && forall e :: e in stop ==> e.Command?
    ensures Certified(plans, ActiveState(c, target, None, bootIds),
                      before + [RunOpened(target.id)] + (stop + Sweep(Starting, plans, c.definitions, order, retained)
                                                         + Sweep(Gating, plans, c.definitions, order, {})))
  {
    var run := Run(|before|, target.id);
    var opening := before + [RunOpened(target.id)];
    var start := Sweep(Starting, plans, c.definitions, order, retained);
    OrderIsComplete(target, false);
    SweepIsCommands(Starting, plans, c.definitions, order, retained);
    run.Extends(opening, stop);
    run.Extends(opening + stop, start);
    GatesCertify(plans, c, target, None, bootIds, order, opening + stop + start, run);
    Regroup(opening, stop, start, Sweep(Gating, plans, c.definitions, order, {}));
  }

  lemma StopIsCommands(plans: Plans, c: Catalog, current: Option<ClusterProfile>, retained: set<Name>)
    ensures forall e :: e in StopCommands(plans, c.definitions, current, retained) ==> e.Command?
  {
    if current.Some? { SweepIsCommands(Stopping, plans, c.definitions, Order(current.value, true), retained); }
  }

  /** The gates of a failure-free switch certify what it publishes, under its own plans. */
  lemma SwitchedCertified(plans: Plans, c: Catalog, current: Option<ClusterProfile>, target: ClusterProfile,
                          retained: set<Name>, bootIds: map<Name, Name>, w: World)
    requires ValidCatalog(c) && TargetAccepted(c, target) && AllPlaced(plans, target)
    ensures Certified(plans, ActiveState(c, target, None, bootIds),
                      Switched(plans, c, current, target, retained, bootIds, w).log)
  {
    SwitchEffect(plans, c, current, target, retained, bootIds, w);
    StopIsCommands(plans, c, current, retained);
    var stop := StopCommands(plans, c.definitions, current, retained);
    GatedLog(plans, c, target, retained, bootIds, w.log, stop, Order(target, false));
  }

  lemma PublishedDefinitionsAgree(plans: Plans, c: Catalog, target: ClusterProfile, bootIds: map<Name, Name>,
                                  live: set<Process>)
    requires ValidCatalog(c) && TargetAccepted(c, target)
    ensures var s := ActiveState(c, target, None, bootIds);
            Explained(plans, PublishedDefinitions(s), s.definitionFingerprints.Keys, live)
            <==> Explained(plans, c.definitions, ProfileDefinitions(target), live)
  {
    var s := ActiveState(c, target, None, bootIds);
    var published := PublishedDefinitions(s);
    assert forall w :: w in ProfileDefinitions(target) ==> w in published && published[w] == c.definitions[w];
  }

  /** A world whose state is durable and unfenced tells the truth when that state does. */
  lemma SettledIsTruthful(plans: Plans, w: World, s: ControllerState)
    requires w.disk == Disk(Entry(Some(s), {Some(s)}), Entry(false, {false}))
    ensures Truthful(plans, w) <==> TruthfulView(plans, Some(s), false, w)
  {
  }

  /** A failure-free switch publishes the truth about every target exactly when the target
      accounts for what runs. */
  lemma SwitchedIsTruthfulWhenExplained(now: Plans, c: Catalog, current: Option<ClusterProfile>, target: ClusterProfile,
                                        retained: set<Name>, bootIds: map<Name, Name>, w: World)
    requires ValidCatalog(c) && TargetAccepted(c, target) && AllPlaced(now, target)
    ensures var w' := Switched(now, c, current, target, retained, bootIds, w);
            Truthful(now, w') <==> Explained(now, c.definitions, ProfileDefinitions(target), w'.live)
  {
    var w' := Switched(now, c, current, target, retained, bootIds, w);
    var s := FinalState(c, target, None, bootIds);
    SettledIsTruthful(now, w', s);
    SwitchedCertified(now, c, current, target, retained, bootIds, w);
    PublishedDefinitionsAgree(now, c, target, bootIds, w'.live);
    assert ProfileDefinitions(target) == {} ==>
        (w'.live == {} <==> Explained(now, c.definitions, ProfileDefinitions(target), w'.live));
  }

  /** A failure-free switch under changed plans publishes the truth if and only if the new
      plans still name every node that anything was started on. */
  lemma SwitchUnderOtherPlans(started: Plans, now: Plans, c: Catalog, current: ClusterProfile, target: ClusterProfile,
                              retained: set<Name>, bootIds: map<Name, Name>, w: World)
    requires ValidCatalog(c) && TargetAccepted(c, target) && retained <= ProfileDefinitions(target)
    requires ProfileDefinitions(current) <= c.definitions.Keys
    requires w.live == Residency(started, c.definitions, ProfileDefinitions(current))
    requires AllPlaced(now, current) && AllPlaced(now, target)
    ensures Truthful(now, Switched(now, c, Some(current), target, retained, bootIds, w)) <==>
            Covers(now, started, c.definitions, ProfileDefinitions(current))
  {
    TargetExplainsWhenCovered(started, now, c, current, target, retained, bootIds, w);
    SwitchedIsTruthfulWhenExplained(now, c, Some(current), target, retained, bootIds, w);
  }

  // ---- the state checks do not notice -----------------------------------------------------------

  const FRESH: World := World(Disk(Entry(None, {None}), Entry(false, {false})), {}, {}, [])

  /** The world that a failure-free first switch leaves behind. */
  function Published(plans: Plans, c: Catalog, profile: ClusterProfile, bootIds: map<Name, Name>): World
    requires TargetAccepted(c, profile)
  {
    Switched(plans, c, None, profile, {}, bootIds, FRESH)
  }

  lemma PublishedLive(plans: Plans, c: Catalog, profile: ClusterProfile, bootIds: map<Name, Name>)
    requires ValidCatalog(c) && TargetAccepted(c, profile)
    ensures Published(plans, c, profile, bootIds).live == Residency(plans, c.definitions, ProfileDefinitions(profile))
  {
    var live := Published(plans, c, profile, bootIds).live;
    var resident := Residency(plans, c.definitions, ProfileDefinitions(profile));
    SwitchEffect(plans, c, None, profile, {}, bootIds, FRESH);
    OrderIsComplete(profile, false);
    forall p ensures p in live <==> p in resident {
      TouchedAre(plans, c.definitions, Order(profile, false), {}, p);
    }
  }

  lemma ActiveStateAccepted(c: Catalog, profile: ClusterProfile, bootIds: map<Name, Name>)
    requires ValidCatalog(c) && TargetAccepted(c, profile)
    requires profile.id in c.profiles && c.profiles[profile.id] == profile
    ensures StateAccepted(c, ActiveState(c, profile, None, bootIds))
  {
  }

  /** It is as the switch promises: the published state tells the truth, is accepted as a
      state to switch away from, and everything runs where the plans say. */
  lemma PublishedIsTruthful(plans: Plans, c: Catalog, profile: ClusterProfile, bootIds: map<Name, Name>)
    requires ValidCatalog(c) && TargetAccepted(c, profile) && ProfileDefinitions(profile) != {}
    requires profile.id in c.profiles && c.profiles[profile.id] == profile && AllPlaced(plans, profile)
    ensures var w := Published(plans, c, profile, bootIds);
            && Truthful(plans, w) && StateAccepted(c, w.Loaded()) && w.Loaded().activeProfile == Some(profile.id)
            && w.live == Residency(plans, c.definitions, ProfileDefinitions(profile))
  {
    PublishedLive(plans, c, profile, bootIds);
    ActiveStateAccepted(c, profile, bootIds);
    SwitchedIsTruthfulWhenExplained(plans, c, None, profile, {}, bootIds, FRESH);
  }

  /** Every check of the next switch can pass, no command fail, and the switch still publish
      an untruth: whenever the new plans do not cover the published profile, whatever the
      target. */
  lemma UncoveredSwitchMisleads(started: Plans, now: Plans, c: Catalog, current: ClusterProfile, target: ClusterProfile,
                                retained: set<Name>, bootIds: map<Name, Name>, inventory: Inventory)
    requires ValidCatalog(c) && TargetAccepted(c, current) && TargetAccepted(c, target)
    requires current.id in c.profiles && c.profiles[current.id] == current && ProfileDefinitions(current) != {}
    requires AllPlaced(started, current) && AllPlaced(now, current) && AllPlaced(now, target)
    requires retained <= ProfileDefinitions(target) && LiveBootIds(inventory) == Some(bootIds)
    requires !Covers(now, started, c.definitions, ProfileDefinitions(current))
    ensures var w := Published(started, c, current, bootIds);
            && Truthful(started, w) && Admissible(c, w.Loaded(), target, inventory, true)
            && !Truthful(now, Switched(now, c, Some(current), target, retained, bootIds, w))
  {
    PublishedIsTruthful(started, c, current, bootIds);
    SwitchUnderOtherPlans(started, now, c, current, target, retained, bootIds, Published(started, c, current, bootIds));
  }

  // Such plans exist: one workload, planned on the first node when it was started and on the
  // second at the next switch, which stops it for good or moves it to the second node.

  const WORKLOAD: WorkloadDefinition := WorkloadDefinition(7, Single, [NODE1], [NODE1], [NODE1], 0)
  const RUNNING: ClusterProfile := ClusterProfile(5, map[NODE1 := [7]], map[])
  const IDLE: ClusterProfile := ClusterProfile(6, map[], map[])
  const MOVED: ClusterProfile := ClusterProfile(8, map[NODE2 := [7]], map[])
  const CATALOG: Catalog :=
    Catalog(map[7 := WORKLOAD], map[5 := RUNNING, 6 := IDLE, 8 := MOVED], map[],
            map[7 := DefinitionFingerprint(WORKLOAD)],
            map[5 := ProfileFingerprint(RUNNING), 6 := ProfileFingerprint(IDLE), 8 := ProfileFingerprint(MOVED)])
  const THEN: Plans := map[7 := [NODE1]]
  const NOW: Plans := map[7 := [NODE2]]
  const BOOTED: map<Name, Name> := map[NODE1 := 9]
  const MEASURED: Inventory := Measured(map[NODE1 := Some(9)])

  lemma ExampleIsAccepted()
    ensures ValidCatalog(CATALOG) && TargetAccepted(CATALOG, RUNNING)
    ensures TargetAccepted(CATALOG, IDLE) && TargetAccepted(CATALOG, MOVED)
    ensures ProfileDefinitions(RUNNING) == {7} && ProfileDefinitions(IDLE) == {} && ProfileDefinitions(MOVED) == {7}
    ensures LiveBootIds(MEASURED) == Some(BOOTED)
  {
    assert Elements([NODE1]) == {NODE1};
    assert NODE1 in RUNNING.placements && 7 in RUNNING.placements[NODE1];
    assert NODE2 in MOVED.placements && 7 in MOVED.placements[NODE2];
    assert forall n :: n in MEASURED.nodes <==> n == NODE1;
    assert MEASURED.nodes[NODE1] == Some(9) && MEASURED.nodes != map[];
    assert LiveBootIds(MEASURED).Some? && LiveBootIds(MEASURED).value == BOOTED;
  }

  lemma ExampleIsUncovered()
    ensures WorkloadNodes(THEN, WORKLOAD) == {NODE1} && WorkloadNodes(NOW, WORKLOAD) == {NODE2}
    ensures CATALOG.definitions[7] == WORKLOAD && !Covers(NOW, THEN, CATALOG.definitions, {7})
  {
    assert WorkloadNodes(THEN, WORKLOAD) == Elements([NODE1]) && WorkloadNodes(NOW, WORKLOAD) == Elements([NODE2]);
    assert NODE1 in WorkloadNodes(THEN, WORKLOAD) && NODE1 !in WorkloadNodes(NOW, WORKLOAD);
    assert 7 in CATALOG.definitions;
  }

  /** The switch to the empty profile reads stopped while the workload still runs. */
  lemma StoppedWhileRunning()
    ensures TargetAccepted(CATALOG, RUNNING) && TargetAccepted(CATALOG, IDLE)
    ensures var w := Published(THEN, CATALOG, RUNNING, BOOTED);
            var w' := Switched(NOW, CATALOG, Some(RUNNING), IDLE, {}, BOOTED, w);
            && Truthful(THEN, w) && Admissible(CATALOG, w.Loaded(), IDLE, MEASURED, true)
            && w'.Loaded().status.Stopped? && Process(7, NODE1) in w'.live && !Truthful(NOW, w')
  {
    ExampleIsAccepted();
    ExampleIsUncovered();
    UncoveredSwitchMisleads(THEN, NOW, CATALOG, RUNNING, IDLE, {}, BOOTED, MEASURED);
    PublishedLive(THEN, CATALOG, RUNNING, BOOTED);
    LiveAfterSwitch(NOW, CATALOG, RUNNING, IDLE, {}, BOOTED, Published(THEN, CATALOG, RUNNING, BOOTED),
                    Process(7, NODE1));
  }

  /** The switch that moves it reads active while it also runs on the node it came from. */
  lemma ActiveInTwoPlaces()
    ensures TargetAccepted(CATALOG, RUNNING) && TargetAccepted(CATALOG, MOVED)
    ensures var w := Published(THEN, CATALOG, RUNNING, BOOTED);
            var w' := Switched(NOW, CATALOG, Some(RUNNING), MOVED, {}, BOOTED, w);
            && Truthful(THEN, w) && Admissible(CATALOG, w.Loaded(), MOVED, MEASURED, true)
            && w'.Loaded().status.Active? && Process(7, NODE1) in w'.live && Process(7, NODE2) in w'.live
            && !Truthful(NOW, w')
  {
    ExampleIsAccepted();
    ExampleIsUncovered();
    UncoveredSwitchMisleads(THEN, NOW, CATALOG, RUNNING, MOVED, {}, BOOTED, MEASURED);
    PublishedLive(THEN, CATALOG, RUNNING, BOOTED);
    LiveAfterSwitch(NOW, CATALOG, RUNNING, MOVED, {}, BOOTED, Published(THEN, CATALOG, RUNNING, BOOTED),
                    Process(7, NODE1));
    LiveAfterSwitch(NOW, CATALOG, RUNNING, MOVED, {}, BOOTED, Published(THEN, CATALOG, RUNNING, BOOTED),
                    Process(7, NODE2));
  }
}
