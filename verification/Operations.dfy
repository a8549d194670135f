/** Fenced execution of claimed operations, and the agent loop around it. */
module Operations {
  import opened Options
  import opened AgentAttempts

  /** The disposition of an interrupted claim: read-only operations may always be
      retried, agent updates never, and the rest follow their subsystem, whose
      "ready" means that nothing can be concluded. */
  function InspectRequest(kind: OperationKind, reported: Reported): InspectionDisposition {
    if ReadOnly(kind) then SafeToRetry
    else if Irreversible(kind) then OperatorIntervention
    else match reported
      case ReportedReady => OperatorIntervention
      case ReportedSafe => SafeToRetry
      case ReportedCompleted => Completed
      case ReportedCompensate => if kind.ReleaseInstall? then OperatorIntervention else Compensate
      case ReportedIntervention => OperatorIntervention
  }

  /** The operations that are inspected by asking their subsystem. */
  predicate Consulted(kind: OperationKind) { !ReadOnly(kind) && !Irreversible(kind) }

  const COMPENSATION_REQUIRED := 1
  const OPERATOR_REQUIRED := 2
  const DEADLINE_EXPIRED := 1

  function WaitingReason(d: InspectionDisposition): Option<nat> {
    match d
    case Compensate => Some(COMPENSATION_REQUIRED)
    case OperatorIntervention => Some(OPERATOR_REQUIRED)
    case _ => None
  }

  /** `Raised` is any exception that leaves the execution without a result. */
  datatype Execution = Executed(result: AgentResult, replayed: bool) | Raised

  datatype HandlerOutcome = Completes(evidence: nat) | Fails(code: nat)

  /** What the world contributes to one execution: whether the subsystem answers, what it
      reports and with which evidence, whether the deadline holds, and how the handler
      ends. */
  datatype Circumstances = Circumstances(
    reachable: bool, reported: Reported, evidence: Option<nat>, inTime: bool, outcome: HandlerOutcome)

  function VerdictOf(o: HandlerOutcome): Verdict {
    match o
    case Completes(evidence) => Succeeded(evidence)
    case Fails(code) => Failed(code)
  }

  /** The course of an execution: raise, replay a recorded result, settle an interrupted
      attempt with a verdict, or run the handler. */
  datatype Course = Raise | Replay(result: AgentResult) | Settle(verdict: Verdict) | Handle

  function CourseAfterInspection(d: InspectionDisposition, w: Circumstances): Course {
    if d.Completed? && w.evidence.Some? then Settle(Succeeded(w.evidence.value))
    else match WaitingReason(d)
      case Some(reason) => Settle(WaitingForOperator(reason))
      case None =>
        if !d.SafeToRetry? then Raise
        else if w.inTime then Handle
        else Settle(Failed(DEADLINE_EXPIRED))
  }

  function CourseInterrupted(kind: OperationKind, w: Circumstances): Course {
    if Consulted(kind) && !w.reachable then Raise
    else CourseAfterInspection(InspectRequest(kind, w.reported), w)
  }

  function CourseOf(t: Table, c: Claim, w: Circumstances): Course {
    if c.id in t && t[c.id].claim != c then Raise
    else if c.id in t && t[c.id].result.Some? then Replay(t[c.id].result.value)
    else if c.id in t then CourseInterrupted(c.kind, w)
    else if BeginRefused(t, c) || !w.inTime then Raise
    else Handle
  }

  /** An interrupted update or rollback always ends up with the operator. */
  lemma UpdatesAreParked(kind: OperationKind, w: Circumstances)
    requires kind in {AgentUpdate, AgentRollback}
    ensures CourseInterrupted(kind, w) == Settle(WaitingForOperator(OPERATOR_REQUIRED))
  {
  }

  /** What the caller gets from each course. */
  function Ending(c: Claim, course: Course, w: Circumstances): Execution {
    match course
    case Raise => Raised
    case Replay(result) => Executed(result, true)
    case Settle(verdict) => Executed(ResultOf(c, verdict), true)
    case Handle => Executed(ResultOf(c, VerdictOf(w.outcome)), false)
  }

  /** How an interrupted claim ends, by its kind and what its subsystem reports: what only
      reads or is reported safe is started once more if there is time, and nothing else
      is started. */
  ghost predicate EndsAsReported(c: Claim, w: Circumstances, e: Execution, starts: nat) {
    var harmless := c.kind in {NodeProbe, WorkloadHealth, WorkloadVerify};
    var updates := c.kind in {AgentUpdate, AgentRollback};
    if harmless || (!updates && w.reachable && w.reported.ReportedSafe?) then
      if w.inTime then
        && starts == 1 && e.Executed? && !e.replayed && Belongs(e.result, c)
        && e.result.verdict == (match w.outcome case Completes(x) => Succeeded(x) case Fails(code) => Failed(code))
      else
        starts == 0 && e == Executed(ResultOf(c, Failed(DEADLINE_EXPIRED)), true)
    else
      && starts == 0
      && if updates then e == Executed(ResultOf(c, WaitingForOperator(OPERATOR_REQUIRED)), true)
         else if !w.reachable then e.Raised?
         else match w.reported
           case ReportedCompleted =>
             if w.evidence.Some? then e == Executed(ResultOf(c, Succeeded(w.evidence.value)), true) else e.Raised?
           case ReportedCompensate =>
             e == Executed(ResultOf(c, WaitingForOperator(if c.kind.ReleaseInstall? then OPERATOR_REQUIRED
                                                          else COMPENSATION_REQUIRED)), true)
           case _ => e == Executed(ResultOf(c, WaitingForOperator(OPERATOR_REQUIRED)), true)
  }

  lemma InterruptedEndsAsReported(c: Claim, w: Circumstances)
    ensures var course := CourseInterrupted(c.kind, w);
            EndsAsReported(c, w, Ending(c, course, w), if course.Handle? then 1 else 0)
  {
  }

  /** How often the claim's handler was started. */
  function StartCount(log: seq<Event>, c: Claim): nat {
    if log == [] then 0
    else StartCount(log[..|log| - 1], c) + if log[|log| - 1] == Started(c) then 1 else 0
  }

  lemma StartCountStep(log: seq<Event>, e: Event, c: Claim)
    ensures StartCount(log + [e], c) == StartCount(log, c) + if e == Started(c) then 1 else 0
  {
    assert (log + [e])[..|log|] == log;
  }

  /** The log goes on, and the claim's handler was started `n` times on the way. */
  ghost predicate Continues(before: seq<Event>, after: seq<Event>, c: Claim, n: nat) {
    before <= after && StartCount(after, c) == StartCount(before, c) + n
  }

  lemma OtherEventContinues(log: seq<Event>, e: Event, c: Claim)
    requires e != Started(c)
    ensures Continues(log, log + [e], c, 0)
  {
    StartCountStep(log, e, c);
  }

  lemma ContinuesOn(a: seq<Event>, b: seq<Event>, d: seq<Event>, c: Claim, m: nat, n: nat)
    requires Continues(a, b, c, m) && Continues(b, d, c, n)
    ensures Continues(a, d, c, m + n)
  {
  }

  /** What one round meets: the claim control hands out, if any, the circumstances of its
      execution, whether the heartbeat stops, and whether the result is delivered. */
  datatype Round = Round(next: Option<Claim>, circumstances: Circumstances, stops: bool, delivered: bool)

  lemma RetryMayStart(log: seq<Event>, c: Claim, reported: Reported, d: InspectionDisposition)
    requires log != [] && log[|log| - 1] == Inspected(c, reported, d)
    ensures d.SafeToRetry? ==> StartAllowed(log, c)
  {
    var k := |log| - 1;
    assert log[k..] == [Inspected(c, reported, d)];
  }

  class Agent {
    const node: nat
    const supported: set<OperationKind>
    const state: AgentStateStore
    var heartbeatShutdown: bool

    constructor (node: nat, supported: set<OperationKind>)
      ensures state.Valid() && fresh(state) && !heartbeatShutdown
    {
      this.node := node;
      this.supported := supported;
      var s := new AgentStateStore();
      this.state := s;
      heartbeatShutdown := false;
    }

    predicate Accepts(c: Claim) { c.id.node == node && c.kind in supported }

    function Course(c: Claim, w: Circumstances): Course
      reads state
    {
      if Accepts(c) then CourseOf(state.now.table, c, w) else Raise
    }

    /** Hand out a recorded result. */
    method Return(c: Claim, replayed: bool) returns (e: Execution)
      requires state.Valid() && Exact(state.now.table, c) && state.now.table[c.id].result.Some?
      requires Belongs(state.now.table[c.id].result.value, c)
      modifies state
      ensures state.Valid() && old(state.history) <= state.history && state.now.table == old(state.now).table
      ensures e == Executed(state.now.table[c.id].result.value, replayed) && e.result.id == c.id
      ensures state.now.log == old(state.now).log + [Returned(c, e.result)]
      ensures Continues(old(state.now).log, state.now.log, c, 0)
    {
      var result := state.now.table[c.id].result.value;
      OtherEventContinues(state.now.log, Returned(c, result), c);
      state.Note(Returned(c, result));
      return Executed(result, replayed);
    }

    /** Record a verdict for an active attempt and hand it out. */
    method Conclude(c: Claim, v: Verdict, replayed: bool) returns (e: Execution)
      requires state.Valid() && Exact(state.now.table, c) && state.now.table[c.id].Active()
      modifies state
      ensures state.Valid() && old(state.history) <= state.history
      ensures e == Executed(ResultOf(c, v), replayed)
      ensures state.now.table == old(state.now).table[c.id := Row(c, Some(ResultOf(c, v)), false)]
      ensures Continues(old(state.now).log, state.now.log, c, 0)
    {
      ghost var before := state.now.log;
      OtherEventContinues(before, Recorded(c, ResultOf(c, v)), c);
      var stored := state.Finish(c, v);
      ghost var recorded := state.now.log;
      e := Return(c, replayed);
      ContinuesOn(before, recorded, state.now.log, c, 0, 0);
    }

    method Inspect(c: Claim, reported: Reported) returns (d: InspectionDisposition)
      requires state.Valid() && Exact(state.now.table, c)
      modifies state
      ensures state.Valid() && old(state.history) <= state.history && state.now.table == old(state.now).table
      ensures state.now.log == old(state.now).log + [Inspected(c, reported, d)]
              && Continues(old(state.now).log, state.now.log, c, 0)
      ensures d == InspectRequest(c.kind, reported) && Justified(Inspected(c, reported, d))
      ensures d.SafeToRetry? <==>
                || c.kind in {NodeProbe, WorkloadHealth, WorkloadVerify}
                || (c.kind !in {AgentUpdate, AgentRollback} && reported.ReportedSafe?)
    {
      d := InspectRequest(c.kind, reported);
      OtherEventContinues(state.now.log, Inspected(c, reported, d), c);
      state.Note(Inspected(c, reported, d));
    }

    /** Run the handler of an attempt that is active and may start now. */
    method RunHandler(c: Claim, outcome: HandlerOutcome) returns (e: Execution)
      requires state.Valid() && Exact(state.now.table, c) && state.now.table[c.id].Active()
      requires StartAllowed(state.now.log, c)
      modifies state
      ensures state.Valid() && old(state.history) <= state.history
      ensures e == Executed(ResultOf(c, VerdictOf(outcome)), false)
      ensures state.now.table == old(state.now).table[c.id := Row(c, Some(e.result), false)]
      ensures Continues(old(state.now).log, state.now.log, c, 1)
    {
      StartCountStep(state.now.log, Started(c), c);
      ghost var before := state.now.log;
      state.Note(Started(c));
      ghost var started := state.now.log;
      e := Conclude(c, VerdictOf(outcome), false);
      ContinuesOn(before, started, state.now.log, c, 1, 0);
    }

    /** The attempt is in the table with this result. */
    predicate OnRecord(c: Claim, result: AgentResult)
      reads state
    {
      Exact(state.now.table, c) && state.now.table[c.id].result == Some(result) && result.id == c.id
    }

    /** The claim is active and an inspection has just found it safe to retry. */
    method Retry(c: Claim, w: Circumstances) returns (e: Execution)
      requires state.Valid() && Exact(state.now.table, c) && state.now.table[c.id].Active()
      requires StartAllowed(state.now.log, c)
      modifies state
      ensures state.Valid() && old(state.history) <= state.history
      ensures e == if w.inTime then Executed(ResultOf(c, VerdictOf(w.outcome)), false)
                   else Executed(ResultOf(c, Failed(DEADLINE_EXPIRED)), true)
      ensures Continues(old(state.now).log, state.now.log, c, if w.inTime then 1 else 0)
      ensures OnRecord(c, e.result)
    {
      var pending := state.Recover(false);
      assert Disciplined(state.now);
      if pending.Some? { assert false; }
      var begun := state.Begin(c);
      if !w.inTime {
        e := Conclude(c, Failed(DEADLINE_EXPIRED), true);
        return;
      }
      e := RunHandler(c, w.outcome);
    }

    /** Act on what the inspection found. */
    method Dispose(c: Claim, disposition: InspectionDisposition, w: Circumstances) returns (e: Execution)
      requires state.Valid() && Exact(state.now.table, c) && state.now.table[c.id].Active()
      requires disposition.SafeToRetry? ==> StartAllowed(state.now.log, c)
      modifies state
      ensures state.Valid() && old(state.history) <= state.history
      ensures var course := CourseAfterInspection(disposition, w);
              e == Ending(c, course, w) && Continues(old(state.now).log, state.now.log, c,
                                                     if course.Handle? then 1 else 0)
      ensures e.Executed? ==> OnRecord(c, e.result)
    {
      if disposition.Completed? && w.evidence.Some? {
        e := Conclude(c, Succeeded(w.evidence.value), true);
        return;
      }
      var reason := WaitingReason(disposition);
      if reason.Some? {
        e := Conclude(c, WaitingForOperator(reason.value), true);
        return;
      }
      if !disposition.SafeToRetry? { return Raised; }
      e := Retry(c, w);
    }

    /** The claim was interrupted: only an inspection may let it start again. */
    method Resume(c: Claim, w: Circumstances) returns (e: Execution)
      requires state.Valid() && Exact(state.now.table, c) && state.now.table[c.id].Active()
      modifies state
      ensures state.Valid() && old(state.history) <= state.history
      ensures var course := CourseInterrupted(c.kind, w);
              e == Ending(c, course, w) && Continues(old(state.now).log, state.now.log, c,
                                                     if course.Handle? then 1 else 0)
      ensures old(state.now).log <= state.now.log
              && StartCount(old(state.now).log, c) <= StartCount(state.now.log, c)
              && EndsAsReported(c, w, e, StartCount(state.now.log, c) - StartCount(old(state.now).log, c))
      ensures e.Executed? ==> OnRecord(c, e.result)
    {
      InterruptedEndsAsReported(c, w);
      if Consulted(c.kind) && !w.reachable { return Raised; }
      ghost var before := state.now.log;
      var disposition := Inspect(c, w.reported);
      ghost var inspected := state.now.log;
      RetryMayStart(inspected, c, w.reported, disposition);
      e := Dispose(c, disposition, w);
      ContinuesOn(before, inspected, state.now.log, c, 0,
                  if CourseAfterInspection(disposition, w).Handle? then 1 else 0);
    }

    method BeginAndRun(c: Claim, outcome: HandlerOutcome) returns (e: Execution)
      requires state.Valid() && c.id !in state.now.table
      modifies state
      ensures state.Valid() && old(state.history) <= state.history
      ensures BeginRefused(old(state.now).table, c) ==> e.Raised? && state.history == old(state.history)
      ensures !BeginRefused(old(state.now).table, c) ==>
                && e == Executed(ResultOf(c, VerdictOf(outcome)), false)
                && OnRecord(c, e.result)
                && Continues(old(state.now).log, state.now.log, c, 1)
    {
      ghost var before := state.now.log;
      var begun := state.Begin(c);
      if begun.Conflict? { return Raised; }
      assert state.now.log == before + [Began(c)] && state.now.table[c.id] == Row(c, None, false);
      OtherEventContinues(before, Began(c), c);
      e := RunHandler(c, outcome);
      ContinuesOn(before, before + [Began(c)], state.now.log, c, 0, 1);
    }

    method ExecuteNew(c: Claim, w: Circumstances) returns (e: Execution)
      requires state.Valid() && c.id !in state.now.table
      modifies state
      ensures state.Valid() && old(state.history) <= state.history
      ensures BeginRefused(old(state.now).table, c) || !w.inTime ==> e.Raised? && state.history == old(state.history)
      ensures !BeginRefused(old(state.now).table, c) && w.inTime ==>
                && e == Executed(ResultOf(c, VerdictOf(w.outcome)), false)
                && OnRecord(c, e.result)
                && Continues(old(state.now).log, state.now.log, c, 1)
    {
      var pending := state.Recover(false);
      if pending.Some? { return Raised; }
      if !w.inTime { return Raised; }
      e := BeginAndRun(c, w.outcome);
    }

    /** Execute a claim. Its ending is the one its course prescribes, the handler is started
        on no other course, and nothing is left half-way: what is returned is recorded. */
    method Execute(c: Claim, w: Circumstances) returns (e: Execution)
      requires state.Valid()
      modifies state
      ensures state.Valid() && old(state.history) <= state.history
      ensures e == Ending(c, old(Course(c, w)), w)
      ensures Continues(old(state.now).log, state.now.log, c, if old(Course(c, w)).Handle? then 1 else 0)
      ensures e.Executed? ==> OnRecord(c, e.result)
      ensures c.id.node != node || c.kind !in supported ==> e.Raised? && state.history == old(state.history)
      ensures c.id.node == node && c.kind in supported && Exact(old(state.now).table, c)
              && old(state.now).table[c.id].Active() ==>
                EndsAsReported(c, w, e, StartCount(state.now.log, c) - StartCount(old(state.now).log, c))
      ensures c.id.node == node && c.kind in supported && c.id !in old(state.now).table ==>
                && (e.Executed? <==> Fresh(old(state.now).table, c) && w.inTime)
                && StartCount(state.now.log, c) == StartCount(old(state.now).log, c) + if e.Executed? then 1 else 0
    {
      FreshMayBegin(state.now.table, c);
      if !Accepts(c) { return Raised; }
      var ok, exact := state.LookupExact(c);
      if !ok { return Raised; }
      if exact.Some? {
        if exact.value.result.Some? {
          e := Return(c, true);
        } else {
          e := Resume(c, w);
        }
      } else {
        e := ExecuteNew(c, w);
      }
    }

    /** Execute under a heartbeat; one that cannot be stopped disables the agent. */
    method ExecuteWithHeartbeat(c: Claim, w: Circumstances, stops: bool) returns (e: Execution)
      requires state.Valid()
      modifies state, this
      ensures state.Valid() && old(state.history) <= state.history
      ensures e == if stops then Ending(c, old(Course(c, w)), w) else Raised
      ensures heartbeatShutdown <==> old(heartbeatShutdown) || !stops
      ensures e.Executed? ==> OnRecord(c, e.result)
      ensures old(state.now).log <= state.now.log
    {
      e := Execute(c, w);
      if !stops {
        heartbeatShutdown := true;
        return Raised;
      }
    }

    /** Deliver a result; only control's answer lets it be acknowledged. */
    method Submit(result: AgentResult, delivered: bool)
      requires state.Valid() && result.id in state.now.table
      requires state.now.table[result.id].result == Some(result)
      modifies state
      ensures state.Valid() && old(state.history) <= state.history
      ensures !delivered ==> state.history == old(state.history)
      ensures old(state.now).log <= state.now.log
      ensures delivered ==>
                state.now.table == old(state.now).table[result.id :=
                                                        old(state.now).table[result.id].(acknowledged := true)]
    {
      if !delivered { return; }
      assert Disciplined(state.now);
      var _ := state.Acknowledge(result);
    }

    /** Execute a claim and deliver what it returned. */
    method ExecuteAndSubmit(c: Claim, r: Round)
      requires state.Valid()
      modifies state, this
      ensures state.Valid() && old(state.history) <= state.history
      ensures heartbeatShutdown <==> old(heartbeatShutdown) || !r.stops
      ensures old(state.now).log <= state.now.log
      ensures var ending := Ending(c, old(Course(c, r.circumstances)), r.circumstances);
              r.stops && r.delivered && ending.Executed? ==> Resolved(state.now.table, c, ending.result)
    {
      var e := ExecuteWithHeartbeat(c, r.circumstances, r.stops);
      if e.Executed? { Submit(e.result, r.delivered); }
    }

    /** The claim has this result, and it was acknowledged. */
    static predicate Resolved(t: Table, c: Claim, result: AgentResult) {
      c.id in t && t[c.id].claim == c && t[c.id].result == Some(result) && t[c.id].acknowledged
    }

    static predicate IsActive(t: Table, id: Identity) { id in t && t[id].Active() }

    static predicate AwaitsDelivery(t: Table, id: Identity) { id in t && t[id].Unresolved() && !t[id].Active() }

    method RequestClaim()
      requires state.Valid() && !AnyUnresolved(state.now.table)
      modifies state
      ensures state.Valid() && old(state.history) <= state.history
              && state.now == Logged(old(state.now), ClaimRequested)
    {
      state.Note(ClaimRequested);
    }

    /** One round: deliver what is pending, resume what is active, and only then ask
        control for a new claim. */
    method RunOnce(r: Round)
      requires state.Valid()
      modifies state, this
      ensures state.Valid() && old(state.history) <= state.history
      ensures old(heartbeatShutdown) ==> heartbeatShutdown && state.history == old(state.history)
      ensures !old(heartbeatShutdown) && r.delivered ==> forall id :: AwaitsDelivery(old(state.now).table, id) ==>
                state.now.table == old(state.now).table[id := old(state.now).table[id].(acknowledged := true)]
      ensures !old(heartbeatShutdown) && r.stops && r.delivered ==> forall id :: IsActive(old(state.now).table, id) ==>
                var c := old(state.now).table[id].claim;
                var ending := Ending(c, old(Course(c, r.circumstances)), r.circumstances);
                ending.Executed? ==> Resolved(state.now.table, c, ending.result)
      ensures !old(heartbeatShutdown) && !AnyUnresolved(old(state.now).table) && r.next.Some?
              && r.stops && r.delivered ==>
                var c := r.next.value;
                var ending := Ending(c, old(Course(c, r.circumstances)), r.circumstances);
                ending.Executed? ==> Resolved(state.now.table, c, ending.result)
      ensures !old(heartbeatShutdown) && !AnyUnresolved(old(state.now).table) ==>
                old(state.now).log + [ClaimRequested] <= state.now.log
    {
      if heartbeatShutdown { return; }
      assert Disciplined(state.now);
      var pending := state.Recover(false);
      if pending.Some? {
        Submit(pending.value.result.value, r.delivered);
        return;
      }
      var active := state.Recover(true);
      if active.Some? {
        ExecuteAndSubmit(active.value.claim, r);
        return;
      }
      RequestClaim();
      if r.next.None? { return; }
      ExecuteAndSubmit(r.next.value, r);
    }

    method Restart()
      modifies `heartbeatShutdown
      ensures !heartbeatShutdown
    {
      heartbeatShutdown := false;
    }
  }

  datatype Move = Run(round: Round) | Die(step: nat)

  /** One claim's handler is started at two places of the log. */
  predicate StartsTwice(log: seq<Event>, i: int, j: int) {
    0 <= i < j < |log| && log[i].Started? && log[j] == log[i]
  }

  /** Every run of the agent, with any claims from control, any circumstances, and a crash
      after any step of the latest round: the log is disciplined at every step, an update
      or rollback handler never starts twice, and once a result is recorded every return
      for its claim is that result. */
  method RunLoop(agent: Agent, moves: seq<Move>)
    requires agent.state.Valid()
    modifies agent, agent.state
    ensures agent.state.Valid() && old(agent.state.history) <= agent.state.history
    ensures forall s :: s in agent.state.history ==> Disciplined(s)
    ensures forall s, i, j :: s in agent.state.history && StartsTwice(s.log, i, j) ==>
              exists k :: i < k < j && SafeReport(s.log[k], s.log[i].claim)
    ensures forall s, i, j :: s in agent.state.history && StartsTwice(s.log, i, j) ==>
              s.log[i].claim.kind !in {AgentUpdate, AgentRollback}
    ensures forall s :: s in agent.state.history ==> BegunInOrder(s.log) && EndsWithResult(s.log)
    ensures forall s, c, r, other ::
              s in agent.state.history && Recorded(c, r) in s.log && Returned(c, other) in s.log ==> other == r
  {
    var since := |agent.state.history| - 1;
    for i := 0 to |moves|
      invariant agent.state.Valid() && old(agent.state.history) <= agent.state.history
      invariant |old(agent.state.history)| - 1 <= since < |agent.state.history|
    {
      var reached := |agent.state.history| - 1;
      match moves[i]
      case Run(round) =>
        agent.RunOnce(round);
        since := reached;
      case Die(step) =>
        agent.state.Crash(if since + step < |agent.state.history| then since + step else |agent.state.history| - 1);
        agent.Restart();
        since := |agent.state.history| - 1;
    }
    forall s | s in agent.state.history ensures Disciplined(s) {
      var k :| 0 <= k < |agent.state.history| && agent.state.history[k] == s;
      assert Disciplined(agent.state.history[k]);
    }
    forall s, i, j | s in agent.state.history && StartsTwice(s.log, i, j)
      ensures exists k :: i < k < j && SafeReport(s.log[k], s.log[i].claim)
    {
      RestartsAreReportedSafe(s, i, j);
    }
    forall s, c, r, other | s in agent.state.history && Recorded(c, r) in s.log && Returned(c, other) in s.log
      ensures other == r
    {
      ReplaysAreIdentical(s, c, r, other);
    }
  }
}
