/** The agent's durable table of fenced attempts, and the log of what it did. */
module AgentAttempts {
  import opened Options

  datatype OperationKind =
    | NodeProbe | ReleaseInstall | AgentUpdate | AgentRollback | Package
    | WorkloadPrepare | WorkloadStart | WorkloadStop | WorkloadHealth | WorkloadVerify

  datatype Identity = Identity(node: nat, job: nat, operation: nat, attempt: nat)

  /** Claims and results are compared by their canonical bytes, which determine them;
      `payload` and `evidence` stand for the rest of those bytes. */
  datatype Claim = Claim(id: Identity, fence: nat, deadline: nat, kind: OperationKind, payload: nat)

  datatype Verdict = Succeeded(evidence: nat) | Failed(code: nat) | WaitingForOperator(reason: nat)
  datatype AgentResult = AgentResult(id: Identity, fence: nat, deadline: nat, verdict: Verdict)

  function ResultOf(c: Claim, v: Verdict): AgentResult { AgentResult(c.id, c.fence, c.deadline, v) }

  predicate Belongs(r: AgentResult, c: Claim) { r.id == c.id && r.fence == c.fence && r.deadline == c.deadline }

  datatype Row = Row(claim: Claim, result: Option<AgentResult>, acknowledged: bool) {
    predicate Active() { result.None? }
    predicate Unresolved() { result.None? || !acknowledged }
  }

  type Table = map<Identity, Row>

  /** What a subsystem reports about an interrupted operation. */
  datatype Reported = ReportedReady | ReportedSafe | ReportedCompleted | ReportedCompensate | ReportedIntervention

  datatype InspectionDisposition = Ready | SafeToRetry | Completed | Compensate | OperatorIntervention

  datatype Event =
    | ClaimRequested
    | Began(claim: Claim)
    | Inspected(claim: Claim, reported: Reported, disposition: InspectionDisposition)
    | Started(claim: Claim)
    | Recorded(claim: Claim, result: AgentResult)
    | Returned(claim: Claim, result: AgentResult)
    | Acknowledged(claim: Claim)

  datatype Snapshot = Snapshot(table: Table, log: seq<Event>)

  predicate Irreversible(kind: OperationKind) { kind.AgentUpdate? || kind.AgentRollback? }

  predicate ReadOnly(kind: OperationKind) { kind.NodeProbe? || kind.WorkloadHealth? || kind.WorkloadVerify? }

  // ---- what the log must look like --------------------------------------------

  predicate Clears(e: Event, c: Claim) { e.Inspected? && e.claim == c && e.disposition.SafeToRetry? }

  /** Between two starts of one claim's handler an inspection found it safe to retry. */
  ghost predicate RetriesInspected(log: seq<Event>) {
    forall i, j :: 0 <= i < j < |log| && log[i].Started? && log[j] == log[i] ==>
      exists k :: i < k < j && Clears(log[k], log[i].claim)
  }

  /** Whatever was returned for a claim had been recorded for it before. */
  ghost predicate ReturnsRecorded(log: seq<Event>) {
    forall j :: 0 <= j < |log| && log[j].Returned? ==> Recorded(log[j].claim, log[j].result) in log[..j]
  }

  /** Every attempt begun so far has been delivered and acknowledged. */
  ghost predicate Settled(log: seq<Event>) {
    forall c :: Began(c) in log ==> Acknowledged(c) in log
  }

  ghost predicate ClaimsWhenSettled(log: seq<Event>) {
    forall i :: 0 <= i < |log| && log[i].ClaimRequested? ==> Settled(log[..i])
  }

  ghost predicate TableSound(t: Table) {
    && (forall id :: id in t ==> t[id].claim.id == id && (t[id].acknowledged ==> t[id].result.Some?))
    && (forall id :: id in t && t[id].result.Some? ==> Belongs(t[id].result.value, t[id].claim))
    && (forall a, b :: a in t && b in t && t[a].Unresolved() && t[b].Unresolved() ==> a == b)
  }

  predicate Exact(t: Table, c: Claim) { c.id in t && t[c.id].claim == c }

  /** What the table says an event of the log must mean. */
  predicate Witnessed(t: Table, e: Event) {
    match e
    case Began(c) => Exact(t, c)
    case Started(c) => Exact(t, c)
    case Recorded(c, r) => Exact(t, c) && t[c.id].result == Some(r)
    case Acknowledged(c) => Exact(t, c) && t[c.id].acknowledged
    case _ => true
  }

  /** The table and the log tell the same story. */
  ghost predicate Coherent(s: Snapshot) {
    && TableSound(s.table)
    && (forall e :: e in s.log ==> Witnessed(s.table, e))
    && (forall id :: id in s.table ==>
          var row := s.table[id];
          && Began(row.claim) in s.log
          && (row.result.Some? ==> Recorded(row.claim, row.result.value) in s.log)
          && (row.acknowledged ==> Acknowledged(row.claim) in s.log))
  }

  /** What each disposition takes.  A retry is for what only reads, or for what its
      subsystem calls safe; an agent update or rollback is never retried, finished or
      compensated by itself. */
  ghost predicate Justified(e: Event) {
    e.Inspected? ==>
      var consulted := e.claim.kind !in {NodeProbe, WorkloadHealth, WorkloadVerify, AgentUpdate, AgentRollback};
      match e.disposition
      case Ready => false
      case SafeToRetry =>
        e.claim.kind in {NodeProbe, WorkloadHealth, WorkloadVerify} || (consulted && e.reported.ReportedSafe?)
      case Completed => consulted && e.reported.ReportedCompleted?
      case Compensate => consulted && e.reported.ReportedCompensate? && !e.claim.kind.ReleaseInstall?
      case OperatorIntervention =>
        || e.claim.kind in {AgentUpdate, AgentRollback}
        || (consulted && (e.reported.ReportedReady? || e.reported.ReportedIntervention?))
        || (e.claim.kind.ReleaseInstall? && e.reported.ReportedCompensate?)
  }

  ghost predicate InspectionsJustified(log: seq<Event>) {
    forall e :: e in log ==> Justified(e)
  }

  predicate SameOperation(a: Identity, b: Identity) {
    a.node == b.node && a.job == b.job && a.operation == b.operation
  }

  /** Attempts are begun one at a time, each with a fence of its own, and those of one
      operation in increasing order. */
  ghost predicate BegunInOrder(log: seq<Event>) {
    forall i, j :: 0 <= i < j < |log| && log[i].Began? && log[j].Began? ==>
      && log[i].claim.fence != log[j].claim.fence
      && (SameOperation(log[i].claim.id, log[j].claim.id) ==> log[i].claim.id.attempt < log[j].claim.id.attempt)
      && Acknowledged(log[i].claim) in log[..j]
  }

  /** Nothing is started any more once its result is recorded. */
  ghost predicate EndsWithResult(log: seq<Event>) {
    forall i, j :: 0 <= i < j < |log| && log[i].Recorded? && log[j].Started? ==> log[i].claim != log[j].claim
  }

  ghost predicate Disciplined(s: Snapshot) {
    && Coherent(s) && EndsWithResult(s.log)
    && RetriesInspected(s.log) && ReturnsRecorded(s.log) && ClaimsWhenSettled(s.log)
    && InspectionsJustified(s.log) && BegunInOrder(s.log)
  }

  // ---- consequences -------------------------------------------------------------

  /** The event is an inspection of the claim that leaves it to be retried: it only reads,
      or it is none that is never retried and its subsystem reported it safe. */
  ghost predicate SafeReport(e: Event, c: Claim) {
    && e.Inspected? && e.claim == c
    && (c.kind in {NodeProbe, WorkloadHealth, WorkloadVerify}
        || (c.kind !in {AgentUpdate, AgentRollback} && e.reported.ReportedSafe?))
  }

  /** A handler starts again only behind a report that it is safe. */
  lemma RestartsAreReportedSafe(s: Snapshot, i: nat, j: nat)
    requires RetriesInspected(s.log) && InspectionsJustified(s.log) && i < j < |s.log|
    requires s.log[i].Started? && s.log[j] == s.log[i]
    ensures exists k :: i < k < j && SafeReport(s.log[k], s.log[i].claim)
  {
    var k :| i < k < j && Clears(s.log[k], s.log[i].claim);
    assert s.log[k] in s.log && Justified(s.log[k]);
  }

  /** An agent update or rollback handler starts at most once, ever. */
  lemma IrreversibleStartsOnce(s: Snapshot, i: nat, j: nat)
    requires RetriesInspected(s.log) && InspectionsJustified(s.log) && i < |s.log| && j < |s.log|
    requires s.log[i].Started? && s.log[j] == s.log[i] && s.log[i].claim.kind in {AgentUpdate, AgentRollback}
    ensures i == j
  {
    if i < j { RestartsAreReportedSafe(s, i, j); }
    if j < i { RestartsAreReportedSafe(s, j, i); }
  }

  /** Once a result is recorded, every execution of that claim returns it. */
  lemma ReplaysAreIdentical(s: Snapshot, c: Claim, r: AgentResult, returned: AgentResult)
    requires Coherent(s) && ReturnsRecorded(s.log) && Recorded(c, r) in s.log && Returned(c, returned) in s.log
    ensures returned == r
  {
    var j :| 0 <= j < |s.log| && s.log[j] == Returned(c, returned);
    assert Recorded(c, returned) in s.log[..j];
    assert Recorded(c, returned) in s.log;
  }

  /** An acknowledged attempt is settled for good: it is in the table with the result that
      was recorded for it, and acknowledged there. */
  lemma AcknowledgedIsSettled(s: Snapshot, c: Claim)
    requires Coherent(s) && Acknowledged(c) in s.log
    ensures c.id in s.table && s.table[c.id].claim == c && s.table[c.id].acknowledged
    ensures s.table[c.id].result.Some? && Recorded(c, s.table[c.id].result.value) in s.log
  {
    assert Witnessed(s.table, Acknowledged(c));
  }

  // ---- steps ----------------------------------------------------------------------

  function Logged(s: Snapshot, e: Event): Snapshot { s.(log := s.log + [e]) }

  /** A handler may start when it never started before, or when the latest thing
      known about it is that a retry is safe. */
  ghost predicate StartAllowed(log: seq<Event>, c: Claim) {
    Started(c) !in log || exists k :: 0 <= k < |log| && Clears(log[k], c) && Started(c) !in log[k..]
  }

  lemma RetriesStart(log: seq<Event>, c: Claim)
    requires RetriesInspected(log) && StartAllowed(log, c)
    ensures RetriesInspected(log + [Started(c)])
  {
    var log' := log + [Started(c)];
    forall i, j | 0 <= i < j < |log'| && log'[i].Started? && log'[j] == log'[i]
      ensures exists k :: i < k < j && Clears(log'[k], log'[i].claim)
    {
      if j < |log| {
        var k :| i < k < j && Clears(log[k], log[i].claim);
        assert log'[k] == log[k];
      } else {
        assert log[i] == Started(c) && Started(c) in log;
        var k :| 0 <= k < |log| && Clears(log[k], c) && Started(c) !in log[k..];
        assert forall x :: k <= x < |log| ==> log[x] in log[k..] by {
          assert forall x :: k <= x < |log| ==> log[x] == log[k..][x - k];
        }
        assert log'[k] == log[k];
      }
    }
  }

  lemma WitnessStep(s: Snapshot, e: Event)
    requires Coherent(s) && Witnessed(s.table, e)
    ensures Coherent(Logged(s, e))
  {
    assert forall x :: x in Logged(s, e).log <==> x in s.log || x == e;
  }

  lemma JustifiedStep(log: seq<Event>, e: Event)
    requires InspectionsJustified(log) && Justified(e)
    ensures InspectionsJustified(log + [e])
  {
    assert forall x :: x in log + [e] <==> x in log || x == e;
  }

  lemma BegunKept(log: seq<Event>, e: Event)
    requires BegunInOrder(log)
    requires e.Began? ==>
               forall a :: Began(a) in log ==>
                 && a.fence != e.claim.fence && Acknowledged(a) in log
                 && (SameOperation(a.id, e.claim.id) ==> a.id.attempt < e.claim.id.attempt)
    ensures BegunInOrder(log + [e])
  {
    var log' := log + [e];
    forall i, j | 0 <= i < j < |log'| && log'[i].Began? && log'[j].Began?
      ensures && log'[i].claim.fence != log'[j].claim.fence
              && (SameOperation(log'[i].claim.id, log'[j].claim.id) ==>
                  log'[i].claim.id.attempt < log'[j].claim.id.attempt)
              && Acknowledged(log'[i].claim) in log'[..j]
    {
      assert log'[..j] == log[..j];
      assert log[..|log|] == log;
      if j == |log| { assert Began(log[i].claim) in log; }
    }
  }

  /** Appending an event keeps what the log's prefixes promised. */
  lemma LogStep(s: Snapshot, e: Event)
    requires ReturnsRecorded(s.log) && ClaimsWhenSettled(s.log)
    requires e.Returned? ==> Recorded(e.claim, e.result) in s.log
    requires e.ClaimRequested? ==> Settled(s.log)
    ensures ReturnsRecorded(s.log + [e]) && ClaimsWhenSettled(s.log + [e])
  {
    var log := s.log + [e];
    assert forall j :: 0 <= j <= |s.log| ==> log[..j] == s.log[..j];
    assert s.log[..|s.log|] == s.log;
  }

  lemma EndKept(log: seq<Event>, e: Event)
    requires EndsWithResult(log)
    requires e.Started? ==> forall r :: Recorded(e.claim, r) !in log
    ensures EndsWithResult(log + [e])
  {
    var log' := log + [e];
    forall i, j | 0 <= i < j < |log'| && log'[i].Recorded? && log'[j].Started? ensures log'[i].claim != log'[j].claim {
      if j == |log| { assert log[i] in log && log[i] == Recorded(log[i].claim, log[i].result); }
    }
  }

  lemma StartStep(s: Snapshot, c: Claim)
    requires Disciplined(s) && Exact(s.table, c) && s.table[c.id].Active() && StartAllowed(s.log, c)
    ensures Disciplined(Logged(s, Started(c)))
  {
    forall r ensures Recorded(c, r) !in s.log {
      assert Recorded(c, r) in s.log ==> Witnessed(s.table, Recorded(c, r));
    }
    EndKept(s.log, Started(c));
    RetriesStart(s.log, c);
    LogStep(s, Started(c));
    WitnessStep(s, Started(c));
    JustifiedStep(s.log, Started(c));
    BegunKept(s.log, Started(c));
  }

  lemma RetriesKept(log: seq<Event>, e: Event)
    requires RetriesInspected(log) && !e.Started?
    ensures RetriesInspected(log + [e])
  {
    var log' := log + [e];
    forall i, j | 0 <= i < j < |log'| && log'[i].Started? && log'[j] == log'[i]
      ensures exists k :: i < k < j && Clears(log'[k], log'[i].claim)
    {
      var k :| i < k < j && Clears(log[k], log[i].claim);
      assert log'[k] == log[k];
    }
  }

  lemma QuietStep(s: Snapshot, e: Event)
    requires Disciplined(s)
    requires e.ClaimRequested? || e.Inspected? || e.Returned?
    requires e.Returned? ==> Recorded(e.claim, e.result) in s.log
    requires e.ClaimRequested? ==> Settled(s.log)
    requires Justified(e)
    ensures Disciplined(Logged(s, e))
  {
    LogStep(s, e);
    EndKept(s.log, e);
    RetriesKept(s.log, e);
    WitnessStep(s, e);
    JustifiedStep(s.log, e);
    BegunKept(s.log, e);
  }

  // ---- transactions -----------------------------------------------------------------

  predicate AnyUnresolved(t: Table) { exists id :: id in t && t[id].Unresolved() }

  /** Why a claim that is not in the table may not enter it. */
  predicate BeginRefused(t: Table, c: Claim) {
    || c.id in t
    || (exists id :: id in t && t[id].claim.fence == c.fence)
    || (exists id :: id in t && SameOperation(id, c.id) && c.id.attempt <= id.attempt)
    || AnyUnresolved(t)
  }

  /** The claim's fence is new, it is later than every attempt at its operation, and every
      attempt so far was finished and acknowledged. */
  ghost predicate Fresh(t: Table, c: Claim) {
    && c.id !in t
    && forall id :: id in t ==>
         && t[id].claim.fence != c.fence && t[id].result.Some? && t[id].acknowledged
         && (id == Identity(c.id.node, c.id.job, c.id.operation, id.attempt) ==> id.attempt < c.id.attempt)
  }

  lemma FreshMayBegin(t: Table, c: Claim)
    ensures !BeginRefused(t, c) <==> Fresh(t, c)
  {
    if !BeginRefused(t, c) {
      assert forall id :: id in t ==> !t[id].Unresolved();
    }
  }

  lemma CoherentTransaction(s: Snapshot, row: Row, e: Event)
    requires Coherent(s) && (e.Began? || e.Recorded? || e.Acknowledged?) && e.claim == row.claim
    requires row.claim.id in s.table ==>
               && s.table[row.claim.id].claim == row.claim
               && (s.table[row.claim.id].result.Some? ==> row.result == s.table[row.claim.id].result)
               && (s.table[row.claim.id].acknowledged ==> row.acknowledged)
               && !e.Began?
    requires row.claim.id !in s.table ==> e.Began? && row.Active() && !row.acknowledged
    requires e.Recorded? ==> row.result == Some(e.result) && !row.acknowledged
    requires e.Acknowledged? ==> row.acknowledged && row.result.Some? && row.result == s.table[row.claim.id].result
    requires TableSound(s.table[row.claim.id := row])
    ensures Coherent(Snapshot(s.table[row.claim.id := row], s.log + [e]))
  {
    var s' := Snapshot(s.table[row.claim.id := row], s.log + [e]);
    assert forall x :: x in s'.log <==> x in s.log || x == e;
    forall x | x in s'.log ensures Witnessed(s'.table, x) {
      if x in s.log { assert Witnessed(s.table, x); }
    }
  }

  lemma BegunAreOlder(s: Snapshot, c: Claim)
    requires Coherent(s) && !BeginRefused(s.table, c)
    ensures forall a :: Began(a) in s.log ==>
              && a.fence != c.fence && Acknowledged(a) in s.log
              && (SameOperation(a.id, c.id) ==> a.id.attempt < c.id.attempt)
  {
    forall a | Began(a) in s.log
      ensures && a.fence != c.fence && Acknowledged(a) in s.log
              && (SameOperation(a.id, c.id) ==> a.id.attempt < c.id.attempt)
    {
      assert Witnessed(s.table, Began(a));
      assert !s.table[a.id].Unresolved();
    }
  }

  /** One row changes or is added, one event is logged, and nothing is unsaid. */
  lemma TransactionStep(s: Snapshot, row: Row, e: Event)
    requires Disciplined(s) && (e.Began? || e.Recorded? || e.Acknowledged?) && e.claim == row.claim
    requires row.claim.id in s.table ==>
               && s.table[row.claim.id].claim == row.claim
               && (s.table[row.claim.id].result.Some? ==> row.result == s.table[row.claim.id].result)
               && (s.table[row.claim.id].acknowledged ==> row.acknowledged)
               && !e.Began?
    requires row.claim.id !in s.table ==> e.Began? && row.Active() && !row.acknowledged
    requires e.Recorded? ==> row.result == Some(e.result) && !row.acknowledged
    requires e.Acknowledged? ==> row.acknowledged && row.result.Some? && row.result == s.table[row.claim.id].result
    requires TableSound(s.table[row.claim.id := row])
    requires e.Began? ==> !BeginRefused(s.table, e.claim)
    ensures Disciplined(Snapshot(s.table[row.claim.id := row], s.log + [e]))
  {
    LogStep(s, e);
    EndKept(s.log, e);
    RetriesKept(s.log, e);
    JustifiedStep(s.log, e);
    if e.Began? { BegunAreOlder(s, e.claim); }
    BegunKept(s.log, e);
    CoherentTransaction(s, row, e);
  }

  /** Changing the one unresolved row, or adding one when there is none, keeps the table
      sound. */
  lemma SoundUpdate(t: Table, row: Row)
    requires TableSound(t)
    requires (row.acknowledged ==> row.result.Some?) && (row.result.Some? ==> Belongs(row.result.value, row.claim))
    requires !AnyUnresolved(t) || (row.claim.id in t && t[row.claim.id].Unresolved())
    ensures TableSound(t[row.claim.id := row])
  {
    assert forall id :: id in t && id != row.claim.id ==> !t[id].Unresolved();
  }

  lemma BeginStep(s: Snapshot, c: Claim)
    requires Disciplined(s) && !BeginRefused(s.table, c)
    ensures Disciplined(Snapshot(s.table[c.id := Row(c, None, false)], s.log + [Began(c)]))
    ensures Started(c) !in s.log
  {
    assert Started(c) !in s.log by { assert !Witnessed(s.table, Started(c)); }
    SoundUpdate(s.table, Row(c, None, false));
    TransactionStep(s, Row(c, None, false), Began(c));
  }

  lemma FinishStep(s: Snapshot, c: Claim, r: AgentResult)
    requires Disciplined(s) && Exact(s.table, c) && s.table[c.id].Active() && Belongs(r, c)
    ensures Disciplined(Snapshot(s.table[c.id := Row(c, Some(r), false)], s.log + [Recorded(c, r)]))
  {
    SoundUpdate(s.table, Row(c, Some(r), false));
    TransactionStep(s, Row(c, Some(r), false), Recorded(c, r));
  }

  lemma AcknowledgeStep(s: Snapshot, c: Claim)
    requires Disciplined(s) && Exact(s.table, c) && s.table[c.id].result.Some? && !s.table[c.id].acknowledged
    ensures Disciplined(Snapshot(s.table[c.id := s.table[c.id].(acknowledged := true)], s.log + [Acknowledged(c)]))
  {
    SoundUpdate(s.table, s.table[c.id].(acknowledged := true));
    TransactionStep(s, s.table[c.id].(acknowledged := true), Acknowledged(c));
  }

  lemma SettledWhenResolved(s: Snapshot)
    requires Coherent(s) && !AnyUnresolved(s.table)
    ensures Settled(s.log)
  {
    forall c | Began(c) in s.log ensures Acknowledged(c) in s.log {
      assert c.id in s.table && !s.table[c.id].Unresolved();
    }
  }

  /** What may happen next without a change of the table. */
  ghost predicate Noteworthy(s: Snapshot, e: Event) {
    match e
    case Started(c) => Exact(s.table, c) && s.table[c.id].Active() && StartAllowed(s.log, c)
    case Returned(c, r) => Exact(s.table, c) && s.table[c.id].result == Some(r)
    case Inspected(_, _, _) => Justified(e)
    case ClaimRequested => !AnyUnresolved(s.table)
    case _ => false
  }

  lemma NoteStep(s: Snapshot, e: Event)
    requires Disciplined(s) && Noteworthy(s, e)
    ensures Disciplined(Logged(s, e))
  {
    match e
    case Started(c) => StartStep(s, c);
    case ClaimRequested => SettledWhenResolved(s); QuietStep(s, e);
    case _ => QuietStep(s, e);
  }

  /** `Conflict` is the store's refusal; the exact reason only reaches the log file. */
  datatype Stored = Stored(row: Row) | Conflict

  class AgentStateStore {
    var now: Snapshot
    var history: seq<Snapshot>

    ghost predicate Valid()
      reads this
    {
      && history != [] && history[|history| - 1] == now
      && forall i {:trigger Disciplined(history[i])} :: 0 <= i < |history| ==> Disciplined(history[i])
    }

    constructor ()
      ensures Valid() && now == Snapshot(map[], [])
    {
      now := Snapshot(map[], []);
      history := [Snapshot(map[], [])];
    }

    method Step(next: Snapshot)
      requires Valid() && Disciplined(next)
      modifies this
      ensures Valid() && now == next && history == old(history) + [next]
    {
      now := next;
      history := history + [next];
    }

    /** Something happens that the table does not record. */
    method Note(e: Event)
      requires Valid() && Noteworthy(now, e)
      modifies this
      ensures Valid() && now == Logged(old(now), e) && history == old(history) + [now]
    {
      NoteStep(now, e);
      Step(Logged(now, e));
    }

    /** The agent dies right after step `k`. */
    method Crash(k: nat)
      requires Valid() && k < |history|
      modifies this
      ensures Valid() && now == old(history)[k] && history == old(history)[..k + 1]
    {
      now := history[k];
      history := history[..k + 1];
    }

    method LookupExact(c: Claim) returns (ok: bool, row: Option<Row>)
      requires Valid()
      ensures ok <==> c.id !in now.table || Exact(now.table, c)
      ensures ok ==> row == if c.id in now.table then Some(now.table[c.id]) else None
      ensures ok && row.Some? && row.value.result.Some? ==> Belongs(row.value.result.value, c)
    {
      assert Disciplined(now);
      row := None;
      if c.id !in now.table { return true, None; }
      if now.table[c.id].claim != c { return false, None; }
      return true, Some(now.table[c.id]);
    }

    /** The one attempt in the given stage; a second one would be a corrupt store,
        which the coherence of every snapshot excludes. */
    method Recover(active: bool) returns (row: Option<Row>)
      requires Valid()
      ensures row.Some? ==> row.value.claim.id in now.table && now.table[row.value.claim.id] == row.value
                            && row.value.Unresolved() && row.value.Active() == active
      ensures row.Some? ==> forall id :: id in now.table && now.table[id].Unresolved() ==> now.table[id] == row.value
      ensures row.None? ==> forall id :: id in now.table && now.table[id].Unresolved() ==>
                now.table[id].Active() != active
    {
      var matching := set id | id in now.table && now.table[id].Unresolved() && now.table[id].Active() == active;
      assert Disciplined(now);
      assert forall id :: id in now.table && now.table[id].Unresolved() && now.table[id].Active() == active ==>
               id in matching;
      if matching == {} { return None; }
      var id :| id in matching;
      return Some(now.table[id]);
    }

    method Begin(c: Claim) returns (r: Stored)
      requires Valid()
      modifies this
      ensures Valid() && old(history) <= history
      ensures r.Stored? <==> Exact(old(now).table, c) || !BeginRefused(old(now).table, c)
      ensures r.Stored? ==> Exact(now.table, c) && r.row == now.table[c.id]
      ensures Exact(old(now).table, c) || r.Conflict? ==> now == old(now) && history == old(history)
      ensures r.Stored? && !Exact(old(now).table, c) ==>
                && now == Snapshot(old(now).table[c.id := Row(c, None, false)], old(now).log + [Began(c)])
                && Started(c) !in now.log
      ensures !Exact(old(now).table, c) ==> (r.Stored? <==> Fresh(old(now).table, c))
    {
      FreshMayBegin(now.table, c);
      assert Disciplined(now);
      if c.id in now.table {
        if now.table[c.id].claim == c { return Stored(now.table[c.id]); }
        return Conflict;
      }
      if exists id :: id in now.table && now.table[id].claim.fence == c.fence { return Conflict; }
      if exists id :: id in now.table && SameOperation(id, c.id) && c.id.attempt <= id.attempt { return Conflict; }
      if AnyUnresolved(now.table) { return Conflict; }
      BeginStep(now, c);
      Step(Snapshot(now.table[c.id := Row(c, None, false)], now.log + [Began(c)]));
      return Stored(now.table[c.id]);
    }

    /** Record a terminal result; recording the same one again changes nothing. */
    method Finish(c: Claim, v: Verdict) returns (r: Stored)
      requires Valid()
      modifies this
      ensures Valid() && old(history) <= history
      ensures r.Stored? <==> (c.id in old(now).table && old(now).table[c.id].claim.fence == c.fence
                              && old(now).table[c.id].claim.deadline == c.deadline
                              && (old(now).table[c.id].Active() || old(now).table[c.id].result == Some(ResultOf(c, v))))
      ensures r.Stored? ==> r.row.result == Some(ResultOf(c, v))
      ensures r.Conflict? ==> now == old(now)
      ensures r.Stored? && old(now).table[c.id].Active() ==>
                now.table == old(now).table[c.id := Row(old(now).table[c.id].claim, Some(ResultOf(c, v)), false)]
                && now.log == old(now).log + [Recorded(old(now).table[c.id].claim, ResultOf(c, v))]
      ensures r.Stored? ==> c.id in now.table && now.table[c.id] == r.row && r.row.claim == old(now).table[c.id].claim
    {
      assert Disciplined(now);
      var result := ResultOf(c, v);
      if c.id !in now.table || now.table[c.id].claim.fence != c.fence { return Conflict; }
      var row := now.table[c.id];
      if row.claim.deadline != c.deadline { return Conflict; }
      if !row.Active() {
        return if row.result == Some(result) then Stored(row) else Conflict;
      }
      FinishStep(now, row.claim, result);
      Step(Snapshot(now.table[c.id := Row(row.claim, Some(result), false)], now.log + [Recorded(row.claim, result)]));
      return Stored(now.table[c.id]);
    }

    method Acknowledge(result: AgentResult) returns (ok: bool)
      requires Valid()
      modifies this
      ensures Valid() && old(history) <= history
      ensures ok <==> (result.id in old(now).table && old(now).table[result.id].result == Some(result)
                       && old(now).table[result.id].claim.fence == result.fence
                       && old(now).table[result.id].claim.deadline == result.deadline)
      ensures !ok ==> now == old(now)
      ensures old(now).log <= now.log
      ensures ok ==> now.table == old(now).table[result.id := old(now).table[result.id].(acknowledged := true)]
    {
      assert Disciplined(now);
      if result.id !in now.table || now.table[result.id].claim.fence != result.fence { return false; }
      var row := now.table[result.id];
      if row.claim.deadline != result.deadline { return false; }
      if row.Active() || row.result != Some(result) { return false; }
      if !row.acknowledged {
        AcknowledgeStep(now, row.claim);
        Step(Snapshot(now.table[result.id := row.(acknowledged := true)], now.log + [Acknowledged(row.claim)]));
      } else {
        assert now.table == now.table[result.id := row.(acknowledged := true)];
      }
      return true;
    }
  }
}
