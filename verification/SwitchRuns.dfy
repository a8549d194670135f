/** Whole runs of the controller: switches, crashes and manual recoveries. */
module SwitchRuns {
  import opened Options
  import opened Names
  import opened Contracts
  import opened ClusterWorld
  import opened Switcher

  datatype Action =
    | Switch(catalog: Catalog, target: Name, restore: Option<Name>, dryRun: bool, inventory: Inventory, admitted: bool)
    | Crash(step: nat)
    | ManualRecovery(state: ControllerState)

  ghost predicate Legal(a: Action) {
    match a
    case Switch(c, _, _, _, _, _) => ValidCatalog(c)
    case Crash(_) => true
    case ManualRecovery(s) => (s.status.Stopped? || s.status.Degraded?) && s.activeProfile.None?
  }

  /** A selector stands for the profile it names; `None` is an unknown identifier. */
  function Resolve(c: Catalog, identifier: Name): Option<ClusterProfile> {
    if identifier in c.selectors && c.selectors[identifier] in c.profiles then Some(c.profiles[c.selectors[identifier]])
    else if identifier in c.profiles then Some(c.profiles[identifier])
    else None
  }

  /** Every profile that a switch names is in the catalog. */
  predicate Named(c: Catalog, targetId: Name, restoreTo: Option<Name>) {
    Resolve(c, targetId).Some? && (restoreTo.Some? ==> Resolve(c, restoreTo.value).Some?)
  }

  method SwitchProfile(recorder: Recorder, catalog: Catalog, targetId: Name, restoreTo: Option<Name>,
                       dryRun: bool, inventory: Inventory, admitted: bool) returns (outcome: Outcome)
    requires recorder.Valid() && ValidCatalog(catalog)
    modifies recorder
    ensures recorder.Valid() && old(recorder.history) <= recorder.history
    ensures Guarded(old(recorder.world)) ==> Guarded(recorder.world)
    ensures outcome == BLOCKED ==> recorder.world == old(recorder.world)
    ensures recorder.failures == old(recorder.failures) && Resolve(catalog, targetId).Some? && !dryRun
            && (restoreTo.Some? ==> Resolve(catalog, restoreTo.value).Some?) && outcome != BLOCKED ==>
              outcome.Returned? && !outcome.report.failed
    ensures outcome.Returned? && outcome.report.status == ReportedActive ==>
              && Resolve(catalog, targetId).Some?
              && recorder.world.Loaded().activeProfile == Some(Resolve(catalog, targetId).value.id)
              && outcome.report.publishedEndpoints == Resolve(catalog, targetId).value.endpoints
    ensures outcome.Returned? && outcome.report.status == ReportedStopped ==> recorder.world.live == {}
    ensures outcome.Returned? && outcome.report.status == ReportedDegraded ==>
              recorder.world.Loaded().status.Degraded?
    ensures Resolve(catalog, targetId).None? ==> outcome.Raised? && recorder.world == old(recorder.world)
    ensures outcome.Returned? ==> Named(catalog, targetId, restoreTo)
    ensures outcome.Returned? && outcome.report.status in {ReportedActive, ReportedStopped} ==>
              recorder.world.Loaded().restoreProfile ==
                if restoreTo.Some? then Some(Resolve(catalog, restoreTo.value).value.id) else None
    ensures Genuine(catalog) && Named(catalog, targetId, restoreTo) ==>
              (outcome == BLOCKED <==>
               !(Resumable(catalog, old(recorder.world).Loaded()) && Booted(inventory) && admitted))
    ensures Genuine(catalog) && outcome.Returned? && outcome.report.status in {ReportedActive, ReportedStopped} ==>
              Resumable(catalog, recorder.world.Loaded())
  {
    var switcher := new ProfileSwitcher(catalog, recorder);
    var state := switcher.store.LoadState();
    var target := Resolve(catalog, targetId);
    if target.None? { return Raised; }
    var restore: Option<Name> := None;
    if restoreTo.Some? {
      var profile := Resolve(catalog, restoreTo.value);
      if profile.None? { return Raised; }
      restore := Some(profile.value.id);
    }
    outcome := switcher.Transition(state, target.value, restore, dryRun, inventory, admitted);
  }

  /** The first switch of a new controller is not blocked, nor is the next one after a
      switch that left the cluster active or stopped, whatever else went wrong in it. */
  method SwitchTwice(plans: Plans, catalog: Catalog, first: Name, second: Name, inventory: Inventory)
    returns (outcomes: (Outcome, Outcome))
    requires ValidCatalog(catalog) && Genuine(catalog) && Booted(inventory)
    requires Named(catalog, first, None) && Named(catalog, second, None)
    ensures outcomes.0 != BLOCKED
    ensures outcomes.0.Returned? && outcomes.0.report.status in {ReportedActive, ReportedStopped} ==>
              outcomes.1 != BLOCKED
    ensures outcomes.0.Returned? && outcomes.0.report.status == ReportedDegraded ==> outcomes.1 == BLOCKED
  {
    var recorder := new Recorder(plans);
    var outcome := SwitchProfile(recorder, catalog, first, None, false, inventory, true);
    var next := SwitchProfile(recorder, catalog, second, None, false, inventory, true);
    return (outcome, next);
  }

  /** A cluster recovered by hand as stopped can be switched again; one recovered as
      degraded cannot. */
  method RecoverAndSwitch(recorder: Recorder, s: ControllerState, catalog: Catalog, target: Name, inventory: Inventory)
    returns (outcome: Outcome)
    requires recorder.Valid() && Guarded(recorder.world) && recorder.world.disk.fence.cached
    requires (s.status.Stopped? || s.status.Degraded?) && s.activeProfile.None?
    requires ValidCatalog(catalog) && Genuine(catalog) && Booted(inventory) && Named(catalog, target, None)
    modifies recorder
    ensures recorder.Valid() && Guarded(recorder.world)
    ensures outcome == BLOCKED <==> s.status.Degraded?
  {
    recorder.RecoverManually(s);
    outcome := SwitchProfile(recorder, catalog, target, None, false, inventory, true);
  }

  /** Every schedule of switches (with any catalogs and any command, save and unlink
      failures), machine crashes after any step of the latest action, and manual
      recoveries of a fenced transition: no reader is misled at any point, nor after a crash at any point. */
  method RunSchedule(recorder: Recorder, schedule: seq<Action>)
    requires recorder.Valid() && Guarded(recorder.world) && forall a :: a in schedule ==> Legal(a)
    modifies recorder
    ensures recorder.Valid() && Guarded(recorder.world) && old(recorder.history) <= recorder.history
    ensures forall i :: 0 <= i < |recorder.history| ==> Truthful(recorder.plans, recorder.history[i])
    ensures forall i, image :: 0 <= i < |recorder.history| && CrashImage(recorder.history[i].disk, image) ==>
              TruthfulView(recorder.plans, image.state.cached, image.fence.cached, recorder.history[i])
  {
    var since := |recorder.history| - 1;
    for i := 0 to |schedule|
      invariant recorder.Valid() && Guarded(recorder.world) && old(recorder.history) <= recorder.history
      invariant 0 <= since < |recorder.history|
    {
      assert schedule[i] in schedule;
      var reached := |recorder.history|;
      match schedule[i] {
        case Switch(catalog, target, restore, dryRun, inventory, admitted) =>
          var _ := SwitchProfile(recorder, catalog, target, restore, dryRun, inventory, admitted);
          since := reached - 1;
        case Crash(step) =>
          recorder.Crash(if since + step < |recorder.history| then since + step else |recorder.history| - 1);
          since := |recorder.history| - 1;
        case ManualRecovery(state) =>
          if recorder.world.disk.fence.cached { recorder.RecoverManually(state); }
          since := reached - 1;
      }
    }
  }

  /** The fence is what makes this work: while an active profile is readable, one
      start or stop command misleads its readers. */
  lemma MutationNeedsTheFence(plans: Plans, w: World, op: Operation, workload: Name, node: Name, ok: bool)
    requires w.Loaded().status.Active? && w.Loaded().definitionFingerprints != map[]
    requires op.Start? || op.Stop?
    ensures !Truthful(plans, AfterCommand(w, op, workload, node, ok))
  {
    var w' := AfterCommand(w, op, workload, node, ok);
    var s := w.Loaded();
    assert Mutates(w'.log[|w'.log| - 1]);
    var id :| id in s.definitionFingerprints;
    assert !GatesPassed(plans, id, s.definitionFingerprints[id].definition, []);
    forall first: nat, gates: nat, closed: nat ensures !PublishedBy(plans, s, w'.log, first, gates, closed) {
      assert gates == closed <= |w'.log| ==> w'.log[gates..closed] == [];
    }
    assert !TruthfulView(plans, w'.disk.state.cached, w'.disk.fence.cached, w');
  }
}
