/** The controller's state file and its transition fence, written step by step. */
module StateFile {
  import opened Options
  import opened ClusterWorld

  datatype BeginOutcome = Begun | FenceExists | BeginFailed

  class StateStore {
    const recorder: Recorder

    constructor (recorder: Recorder)
      ensures this.recorder == recorder
    {
      this.recorder := recorder;
    }

    method LoadState() returns (s: ControllerState)
      ensures s == recorder.world.Loaded()
    {
      var disk := recorder.world.disk;
      if disk.fence.cached { return QUARANTINED; }
      if disk.state.cached.None? { return STOPPED; }
      return disk.state.cached.value;
    }

    /** Write a temporary file, rename it over the state file and synchronise the
        directory.  Each step may fail; a failure after the rename leaves the new
        state readable but not yet crash proof. */
    method Save(s: ControllerState) returns (ok: bool)
      requires recorder.Valid() && s.Valid()
      requires Truthful(recorder.plans, recorder.world.(disk := recorder.world.disk.Replace(s)))
      modifies recorder
      ensures recorder.Valid() && old(recorder.history) <= recorder.history
              && old(recorder.failures) <= recorder.failures
      ensures ok ==> recorder.world == old(recorder.world).(disk := old(recorder.world).disk.Replace(s).Sync())
      ensures !ok ==> recorder.world in {old(recorder.world),
                                         old(recorder.world).(disk := old(recorder.world).disk.Replace(s))}
      ensures !ok ==> recorder.failures > old(recorder.failures)
    {
      var replaced: bool := *;
      if !replaced { recorder.Fail(); return false; }
      recorder.Step(recorder.world.(disk := recorder.world.disk.Replace(s)));
      var synced: bool := *;
      if !synced { recorder.Fail(); return false; }
      SyncKeepsTruth(recorder.plans, recorder.world);
      recorder.Step(recorder.world.(disk := recorder.world.disk.Sync()));
      return true;
    }

    /** Create the fence exclusively and make it durable before anything remote is
        touched.  `Begun` means no crash can lose the fence any more. */
    method BeginTransition() returns (outcome: BeginOutcome)
      requires recorder.Valid()
      requires recorder.world.disk.fence.cached
               || Truthful(recorder.plans, recorder.world.(disk := recorder.world.disk.Fence()))
      modifies recorder
      ensures recorder.Valid() && old(recorder.history) <= recorder.history
              && old(recorder.failures) <= recorder.failures
      ensures outcome.FenceExists? <==> old(recorder.world).disk.fence.cached
      ensures outcome.FenceExists? ==> recorder.world == old(recorder.world)
      ensures outcome.Begun? ==>
                && recorder.world == old(recorder.world).(disk := old(recorder.world).disk.Fence().Sync())
                && Fenced(recorder.world)
      ensures outcome.BeginFailed? ==>
                recorder.world in {old(recorder.world),
                                   old(recorder.world).(disk := old(recorder.world).disk.Fence())}
      ensures outcome.BeginFailed? ==> recorder.failures > old(recorder.failures)
    {
      if recorder.world.disk.fence.cached { return FenceExists; }
      var created: bool := *;
      if !created { recorder.Fail(); return BeginFailed; }
      recorder.Step(recorder.world.(disk := recorder.world.disk.Fence()));
      var synced: bool := *;
      if !synced { recorder.Fail(); return BeginFailed; }
      SyncKeepsTruth(recorder.plans, recorder.world);
      recorder.Step(recorder.world.(disk := recorder.world.disk.Sync()));
      return Begun;
    }

    /** Make a final state durable, then remove the fence.  Success means the new
        state is readable; failure means the fence is still in place, also after a
        crash.  A lost synchronisation of the removal itself is tolerated. */
    method FinishTransition(s: ControllerState) returns (ok: bool)
      requires recorder.Valid() && s.Valid() && !s.status.Transitioning?
      requires Fenced(recorder.world)
      requires TruthfulView(recorder.plans, Some(s), false, recorder.world)
      modifies recorder
      ensures recorder.Valid() && old(recorder.history) <= recorder.history
              && old(recorder.failures) <= recorder.failures
      ensures recorder.world == old(recorder.world).(disk := recorder.world.disk)
      ensures ok ==> recorder.world.disk.state == Entry(Some(s), {Some(s)})
                     && !recorder.world.disk.fence.cached && recorder.world.Loaded() == s
      ensures !ok ==> Fenced(recorder.world) && recorder.failures > old(recorder.failures)
    {
      var plans := recorder.plans;
      FencedIsTruthful(plans, recorder.world.(disk := recorder.world.disk.Replace(s)));
      ok := Save(s);
      if !ok { return; }
      var removed: bool := *;
      if !removed { recorder.Fail(); return false; }
      var next := recorder.world.(disk := recorder.world.disk.Unfence());
      assert Load(Some(s), true) == QUARANTINED;
      recorder.Step(next);
      var synced: bool := *;
      if synced {
        SyncKeepsTruth(plans, recorder.world);
        recorder.Step(recorder.world.(disk := recorder.world.disk.Sync()));
      }
    }
  }
}
