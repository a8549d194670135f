/** What a switch can change: the state directory on the controller's disk, the
    processes that may be running on the nodes, and the log of commands issued. */
module ClusterWorld {
  import opened Options
  import opened Names
  import opened Contracts

  datatype Status = Stopped | Transitioning | Active | Degraded | StoppedAfterReboot

  datatype ControllerState = ControllerState(
    status: Status,
    activeProfile: Option<Name>,
    targetProfile: Option<Name>,
    restoreProfile: Option<Name>,
    errorRecorded: bool,
    profileFingerprint: Option<ProfileFingerprint>,
    definitionFingerprints: map<Name, DefinitionFingerprint>,
    bootIds: map<Name, Name>)
  {
    /** What constructing a state checks about its fingerprints. */
    predicate Valid() {
      && (activeProfile.None? ==> profileFingerprint.None? && definitionFingerprints == map[])
      && (activeProfile.Some? ==> profileFingerprint.Some?)
    }
  }

  const STOPPED: ControllerState :=
    ControllerState(Stopped, None, None, None, false, None, map[], map[])

  const QUARANTINED: ControllerState :=
    ControllerState(Degraded, None, None, None, true, None, map[], map[])

  /** One directory entry: what the running system reads, and every value that a
      crash of the machine may leave behind.  Values join `survivors` when written
      and leave it only when the directory is synchronised. */
  datatype Entry<T> = Entry(cached: T, survivors: set<T>) {
    function Write(value: T): Entry<T> { Entry(value, survivors + {value}) }
    function Sync(): Entry<T> { Entry(cached, {cached}) }
  }

  datatype Disk = Disk(state: Entry<Option<ControllerState>>, fence: Entry<bool>) {
    function Replace(s: ControllerState): Disk { this.(state := state.Write(Some(s))) }
    function Fence(): Disk { this.(fence := fence.Write(true)) }
    function Unfence(): Disk { this.(fence := fence.Write(false)) }
    function Sync(): Disk { Disk(state.Sync(), fence.Sync()) }
  }

  /** What `load` returns for a state file and a fence. */
  function Load(file: Option<ControllerState>, fence: bool): ControllerState {
    if fence then QUARANTINED
    else if file.None? then STOPPED
    else file.value
  }

  datatype Process = Process(workload: Name, node: Name)

  datatype Event =
    | RunOpened(target: Name)
    | Command(op: Operation, workload: Name, node: Name, ok: bool)

  /** `live` holds every process that may be running.  A process leaves it only
      when a stop was accepted on its node and a later release check passed there;
      `stopping` remembers the accepted stops. */
  datatype World = World(disk: Disk, live: set<Process>, stopping: set<Process>, log: seq<Event>) {
    function Loaded(): ControllerState { Load(disk.state.cached, disk.fence.cached) }
  }

  /** The effect of one remote command.  A start may leave a process behind even
      when it fails; a failed stop or release check settles nothing. */
  function AfterCommand(w: World, op: Operation, workload: Name, node: Name, ok: bool): World {
    var p := Process(workload, node);
    var logged := w.(log := w.log + [Command(op, workload, node, ok)]);
    match op
    case Start => logged.(live := w.live + {p}, stopping := w.stopping - {p})
    case Stop => if ok then logged.(stopping := w.stopping + {p}) else logged
    case VerifyRelease => if ok && p in w.stopping then logged.(live := w.live - {p}) else logged
    case _ => logged
  }

  // ---- what may be running, from the commands alone -----------------------------------

  /** The world after these commands. */
  ghost function Commanded(w: World, commands: seq<Event>): World {
    if commands == [] then w
    else
      var before := Commanded(w, commands[..|commands| - 1]);
      match commands[|commands| - 1]
      case Command(op, workload, node, ok) => AfterCommand(before, op, workload, node, ok)
      case RunOpened(_) => before
  }

  ghost predicate Starts(e: Event, p: Process) {
    e.Command? && e.op.Start? && e.workload == p.workload && e.node == p.node
  }

  /** A stop of the process was accepted, and no start followed it. */
  ghost predicate StoppedSince(commands: seq<Event>, p: Process) {
    exists j :: 0 <= j < |commands| && commands[j] == Command(Stop, p.workload, p.node, true)
                && forall k :: j < k < |commands| ==> !Starts(commands[k], p)
  }

  /** The process was started, and no release check passed since while a stop was accepted. */
  ghost predicate StartedUnreleased(commands: seq<Event>, p: Process) {
    exists i :: 0 <= i < |commands| && Starts(commands[i], p) && HeldFrom(commands, i, p)
  }

  ghost predicate HeldFrom(commands: seq<Event>, i: nat, p: Process) {
    forall k :: i < k < |commands| && commands[k] == Command(VerifyRelease, p.workload, p.node, true) ==>
      !StoppedSince(commands[..k], p)
  }

  lemma StoppedSinceStep(commands: seq<Event>, e: Event, p: Process)
    ensures StoppedSince(commands + [e], p) <==>
            e == Command(Stop, p.workload, p.node, true) || (StoppedSince(commands, p) && !Starts(e, p))
  {
    var all := commands + [e];
    var n := |commands|;
    if StoppedSince(commands, p) && !Starts(e, p) {
      var j :| 0 <= j < n && commands[j] == Command(Stop, p.workload, p.node, true)
               && forall k :: j < k < n ==> !Starts(commands[k], p);
      assert all[j] == commands[j] && forall k :: j < k < |all| ==> !Starts(all[k], p);
    }
    if e == Command(Stop, p.workload, p.node, true) { assert all[n] == e; }
    if StoppedSince(all, p) && e != Command(Stop, p.workload, p.node, true) {
      var j :| 0 <= j < |all| && all[j] == Command(Stop, p.workload, p.node, true)
               && forall k :: j < k < |all| ==> !Starts(all[k], p);
      assert commands[j] == all[j] && forall k :: j < k < n ==> commands[k] == all[k];
      assert !Starts(all[n], p);
    }
  }

  lemma HeldFromStep(commands: seq<Event>, e: Event, p: Process, i: nat)
    requires i < |commands|
    ensures HeldFrom(commands + [e], i, p) <==>
            HeldFrom(commands, i, p)
            && !(e == Command(VerifyRelease, p.workload, p.node, true) && StoppedSince(commands, p))
  {
    var all := commands + [e];
    assert all[..|commands|] == commands;
    assert forall k :: 0 <= k < |commands| ==> all[..k] == commands[..k] && all[k] == commands[k];
    if HeldFrom(all, i, p) && e == Command(VerifyRelease, p.workload, p.node, true) {
      assert all[|commands|] == e;
    }
  }

  lemma StartedStep(commands: seq<Event>, e: Event, p: Process)
    ensures StartedUnreleased(commands + [e], p) <==>
            || Starts(e, p)
            || (StartedUnreleased(commands, p)
                && !(e == Command(VerifyRelease, p.workload, p.node, true) && StoppedSince(commands, p)))
  {
    var all := commands + [e];
    var n := |commands|;
    forall i | 0 <= i < n ensures all[i] == commands[i] { }
    forall i: nat | i < n
      ensures HeldFrom(all, i, p) <==>
              HeldFrom(commands, i, p)
              && !(e == Command(VerifyRelease, p.workload, p.node, true) && StoppedSince(commands, p))
    {
      HeldFromStep(commands, e, p, i);
    }
    if Starts(e, p) { assert all[n] == e && HeldFrom(all, n, p); }
    if StartedUnreleased(commands, p) {
      var i :| 0 <= i < n && Starts(commands[i], p) && HeldFrom(commands, i, p);
      assert Starts(all[i], p);
    }
    if StartedUnreleased(all, p) && !Starts(e, p) {
      var i :| 0 <= i < |all| && Starts(all[i], p) && HeldFrom(all, i, p);
      assert i < n && Starts(commands[i], p);
    }
  }

  /** From a world in which nothing runs, exactly those processes may run that were started
      and not released since. */
  lemma {:induction false} LiveByCommands(w: World, commands: seq<Event>, p: Process)
    requires w.live == {} && w.stopping == {}
    ensures p in Commanded(w, commands).live <==> StartedUnreleased(commands, p)
    ensures p in Commanded(w, commands).stopping <==> StoppedSince(commands, p)
  {
    if commands != [] {
      var before, e := commands[..|commands| - 1], commands[|commands| - 1];
      assert commands == before + [e];
      LiveByCommands(w, before, p);
      StoppedSinceStep(before, e, p);
      StartedStep(before, e, p);
    }
  }

  predicate Mutates(e: Event) {
    e.Command? && (e.op.Start? || e.op.Stop?)
  }

  /** Every live process belongs to a workload in `ids` and runs on one of its nodes. */
  ghost predicate Explained(plans: Plans, definitions: map<Name, WorkloadDefinition>, ids: set<Name>,
                            live: set<Process>) {
    forall p :: p in live ==>
      p.workload in ids && p.workload in definitions && p.node in WorkloadNodes(plans, definitions[p.workload])
  }

  /** The definitions a published state vouches for. */
  function PublishedDefinitions(s: ControllerState): map<Name, WorkloadDefinition> {
    map w | w in s.definitionFingerprints :: s.definitionFingerprints[w].definition
  }

  /** One workload passed its health check on every node it starts on, and its
      inference on the first node of its stop order. */
  ghost predicate GatesPassed(plans: Plans, w: Name, d: WorkloadDefinition, commands: seq<Event>) {
    var starts := OperationNodes(plans, d, Health);
    var stops := OperationNodes(plans, d, Infer);
    && starts.Some? && stops.Some? && stops.value != []
    && (forall n :: n in starts.value ==> Command(Health, w, n, true) in commands)
    && Command(Infer, w, stops.value[0], true) in commands
  }

  /** State `s` was published by the run that `log[first]` opened: that run's
      commands `log[gates..closed]` took every workload of the profile through its
      gates, and nothing was started or stopped from `log[gates]` to this day. */
  ghost predicate PublishedBy(plans: Plans, s: ControllerState, log: seq<Event>,
                              first: nat, gates: nat, closed: nat) {
    && first < gates <= closed <= |log|
    && s.status.Active? && s.activeProfile.Some? && s.profileFingerprint.Some?
    && s.profileFingerprint.value.profile.id == s.activeProfile.value
    && s.definitionFingerprints.Keys == ProfileDefinitions(s.profileFingerprint.value.profile)
    && log[first] == RunOpened(s.activeProfile.value)
    && (forall i :: first < i < closed ==> !log[i].RunOpened?)
    && (forall i :: gates <= i < |log| ==> !Mutates(log[i]))
    && (forall w :: w in s.definitionFingerprints ==>
          GatesPassed(plans, w, s.definitionFingerprints[w].definition, log[gates..closed]))
  }

  ghost predicate Certified(plans: Plans, s: ControllerState, log: seq<Event>) {
    exists first: nat, gates: nat, closed: nat :: PublishedBy(plans, s, log, first, gates, closed)
  }

  /** A reader of this file and fence is not misled: an active profile was fully
      gated and undisturbed since and explains every process that may run, and a
      stopped cluster runs nothing. */
  ghost predicate TruthfulView(plans: Plans, file: Option<ControllerState>, fence: bool, w: World) {
    var s := Load(file, fence);
    && (s.status.Active? || s.activeProfile.Some? ==>
          Certified(plans, s, w.log)
          && Explained(plans, PublishedDefinitions(s), s.definitionFingerprints.Keys, w.live))
    && (s.status.Stopped? || s.status.StoppedAfterReboot? ==> w.live == {})
  }

  /** Whoever loads the state now, or after a crash of the machine now, is not misled. */
  ghost predicate Truthful(plans: Plans, w: World) {
    && w.disk.state.cached in w.disk.state.survivors
    && w.disk.fence.cached in w.disk.fence.survivors
    && forall file, fence :: file in w.disk.state.survivors && fence in w.disk.fence.survivors ==>
         TruthfulView(plans, file, fence, w)
  }

  /** The fence is in place and no crash can lose it. */
  predicate Fenced(w: World) {
    w.disk.fence == Entry(true, {true}) && w.disk.state.cached in w.disk.state.survivors
  }

  /** While the fence is readable, a crash that loses it leaves nothing published either. */
  ghost predicate Guarded(w: World) {
    w.disk.fence.cached ==>
      || Fenced(w)
      || forall file :: file in w.disk.state.survivors && file.Some? ==>
           !file.value.status.Active? && file.value.activeProfile.None?
  }

  /** Whatever a crash leaves of a disk. */
  ghost predicate CrashImage(before: Disk, after: Disk) {
    && after.state.cached in before.state.survivors && after.state == after.state.Sync()
    && after.fence.cached in before.fence.survivors && after.fence == after.fence.Sync()
  }

  lemma CrashKeepsTruth(plans: Plans, w: World, after: Disk)
    requires Truthful(plans, w) && CrashImage(w.disk, after)
    ensures Truthful(plans, w.(disk := after))
  {
    var file, fence := after.state.cached, after.fence.cached;
    assert TruthfulView(plans, file, fence, w);
  }

  /** Reads and new run markers never disturb a publication. */
  lemma QuietEventKeepsTruth(plans: Plans, w: World, e: Event)
    requires Truthful(plans, w) && !Mutates(e)
    ensures Truthful(plans, w.(log := w.log + [e]))
  {
    var w' := w.(log := w.log + [e]);
    forall file, fence | file in w.disk.state.survivors && fence in w.disk.fence.survivors
      ensures TruthfulView(plans, file, fence, w')
    {
      assert TruthfulView(plans, file, fence, w);
      var s := Load(file, fence);
      if s.status.Active? || s.activeProfile.Some? {
        var first: nat, gates: nat, closed: nat :| PublishedBy(plans, s, w.log, first, gates, closed);
        assert w'.log[gates..closed] == w.log[gates..closed];
        assert PublishedBy(plans, s, w'.log, first, gates, closed);
      }
    }
  }

  lemma SyncKeepsTruth(plans: Plans, w: World)
    requires Truthful(plans, w)
    ensures Truthful(plans, w.(disk := w.disk.Sync()))
  {
    CrashKeepsTruth(plans, w, w.disk.Sync());
  }

  lemma FencedIsTruthful(plans: Plans, w: World)
    requires Fenced(w)
    ensures Truthful(plans, w)
  {
    forall file, fence | file in w.disk.state.survivors && fence in w.disk.fence.survivors
      ensures TruthfulView(plans, file, fence, w)
    {
      assert Load(file, fence) == QUARANTINED;
    }
  }

  /** Behind a guarded fence a stop or a release check misleads nobody. */
  lemma StoppingKeepsTruth(plans: Plans, w: World, op: Operation, p: Process)
    requires Truthful(plans, w) && Guarded(w) && w.disk.fence.cached && (op.Stop? || op.VerifyRelease?)
    ensures var w' := AfterCommand(w, op, p.workload, p.node, true);
            Truthful(plans, w') && Guarded(w')
  {
    var w' := AfterCommand(w, op, p.workload, p.node, true);
    forall file, fence | file in w.disk.state.survivors && fence in w.disk.fence.survivors
      ensures TruthfulView(plans, file, fence, w')
    {
      assert TruthfulView(plans, file, fence, w);
    }
  }

  /** While nothing runs, the disk may change to anything that publishes no profile. */
  lemma QuietDisk(plans: Plans, w: World, disk: Disk, s: ControllerState)
    requires Truthful(plans, w) && w.live == {} && !s.status.Active? && s.activeProfile.None?
    requires disk.state.cached in disk.state.survivors && disk.fence.cached in disk.fence.survivors
    requires disk.state.survivors <= w.disk.state.survivors + {Some(s)}
    requires disk.fence.survivors <= w.disk.fence.survivors || disk.state.survivors == {Some(s)}
    ensures Truthful(plans, w.(disk := disk))
  {
    forall file, fence | file in disk.state.survivors && fence in disk.fence.survivors
      ensures TruthfulView(plans, file, fence, w.(disk := disk))
    {
      if file in w.disk.state.survivors && fence in w.disk.fence.survivors {
        assert TruthfulView(plans, file, fence, w);
      }
    }
  }

  /** The state of the world after every step taken so far. */
  class Recorder {
    const plans: Plans
    var world: World
    var history: seq<World>
    /** How many commands and file operations have failed so far, counting operations
        that found no node to run on. */
    var failures: nat

    ghost predicate Valid()
      reads this
    {
      && history != [] && history[|history| - 1] == world
      && forall i {:trigger Truthful(plans, history[i])} :: 0 <= i < |history| ==> Truthful(plans, history[i])
    }

    constructor (plans: Plans)
      ensures Valid() && this.plans == plans && Guarded(world)
      ensures world.Loaded() == STOPPED && history == [world]
    {
      this.plans := plans;
      world := World(Disk(Entry(None, {None}), Entry(false, {false})), {}, {}, []);
      history := [world];
      failures := 0;
    }

    method Fail()
      requires Valid()
      modifies `failures
      ensures Valid() && failures == old(failures) + 1
    {
      failures := failures + 1;
    }

    method Step(next: World)
      requires Valid() && Truthful(plans, next)
      modifies this
      ensures Valid() && world == next && history == old(history) + [next] && failures == old(failures)
    {
      world := next;
      history := history + [next];
    }

    /** The machine crashes right after step `k`: the steps after it never happened,
        and the disk keeps one surviving value of each entry. */
    method Crash(k: nat)
      requires Valid() && k < |history|
      modifies this
      ensures Valid() && old(history) <= history
      ensures CrashImage(old(history)[k].disk, world.disk)
      ensures world == old(history)[k].(disk := world.disk) && Guarded(world)
    {
      var before := history[k];
      assert Truthful(plans, before);
      var file :| file in before.disk.state.survivors;
      var fence: bool := *;
      if fence !in before.disk.fence.survivors { fence := before.disk.fence.cached; }
      var image := Disk(Entry(file, {file}), Entry(fence, {fence}));
      CrashKeepsTruth(plans, before, image);
      Step(before.(disk := image));
    }

    /** The operator stops every process that may run and checks its release. */
    method StopByHand()
      requires Valid() && Guarded(world) && world.disk.fence.cached
      modifies this
      ensures Valid() && old(history) <= history && failures == old(failures)
      ensures Guarded(world) && world.disk == old(world).disk && world.live == {}
      ensures old(world).log <= world.log
      ensures forall i :: |old(history)| <= i < |history| ==> history[i].disk == old(world).disk
    {
      while world.live != {}
        invariant Valid() && old(history) <= history && failures == old(failures)
        invariant forall i :: |old(history)| <= i < |history| ==> history[i].disk == old(world).disk
        invariant Guarded(world) && world.disk == old(world).disk && old(world).log <= world.log
        decreases world.live
      {
        var p :| p in world.live;
        StoppingKeepsTruth(plans, world, Stop, p);
        Step(AfterCommand(world, Stop, p.workload, p.node, true));
        StoppingKeepsTruth(plans, world, VerifyRelease, p);
        Step(AfterCommand(world, VerifyRelease, p.workload, p.node, true));
      }
    }

    /** The documented manual recovery of a fenced transition: stop every remote
        workload, persist a safe state, then remove the fence.  It may be cut short
        after any step. */
    method RecoverManually(s: ControllerState)
      requires Valid() && Guarded(world) && world.disk.fence.cached
      requires (s.status.Stopped? || s.status.Degraded?) && s.activeProfile.None?
      modifies this
      ensures Valid() && old(history) <= history && old(world).log <= world.log
      ensures world.live == {} && world.Loaded() == s && Guarded(world)
      ensures world.disk.state.survivors == {Some(s)} && world.disk.fence.survivors == {false}
      ensures forall i :: |old(history)| <= i < |history| && !history[i].disk.fence.cached ==>
                history[i].live == {} && history[i].disk.state.survivors == {Some(s)}
    {
      StopByHand();
      QuietDisk(plans, world, world.disk.Replace(s), s);
      Step(world.(disk := world.disk.Replace(s)));
      SyncKeepsTruth(plans, world);
      Step(world.(disk := world.disk.Sync()));
      QuietDisk(plans, world, world.disk.Unfence(), s);
      Step(world.(disk := world.disk.Unfence()));
      SyncKeepsTruth(plans, world);
      Step(world.(disk := world.disk.Sync()));
    }
  }
}
