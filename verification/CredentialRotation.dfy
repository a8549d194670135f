/** The agent's enrollment and rotation of credentials, across crashes and restarts. */
module CredentialRotation {
  import opened Options
  import opened Credentials

  /** What control answers to the requests of one action; `None` and `false` are
      transport failures. */
  datatype Replies = Replies(issued: Option<IssuedCredential>, activated: bool)

  datatype Action =
    | Restart
    | Enroll(generated: PrivateKey, replies: Replies, token: nat)
    | Rotate(due: bool, generated: PrivateKey, replies: Replies, token: nat)
    | Crash(step: nat)

  /** A rotation is answered with a generation that is in place and that nothing points to. */
  predicate Repeats(f: Files, due: bool, replies: Replies) {
    && f.staged.None? && (f.meta.Some? || due)
    && replies.issued.Some? && Orphaned(f, replies.issued.value.generation)
  }

  /** The request that is answered: the pending one, or the one then made. */
  function Requested(f: Files, node: nat, purpose: Purpose, generated: PrivateKey): Files {
    if f.meta.Some? then f else Prepared(f, node, purpose, generated)
  }

  /** What it takes for an enrollment to succeed, faults aside. */
  predicate CanEnroll(f: Files, node: nat, generated: PrivateKey, replies: Replies, existingReported: bool) {
    && Awaiting(Requested(f, node, Enrollment, generated), node, Enrollment) && replies.issued.Some?
    && InstallAccepted(Requested(f, node, Enrollment, generated), replies.issued.value, existingReported)
  }

  /** The store after the first generation was installed. */
  function Installed(f: Files, issued: IssuedCredential): Files
    requires f.key.Some?
  {
    PublishedFiles(WithGeneration(f, issued, f.key.value), 1)
  }

  /** What it takes for a round of rotation to succeed, faults aside. */
  predicate CanRotate(f: Files, node: nat, due: bool, generated: PrivateKey, replies: Replies, existingReported: bool) {
    if f.staged.Some? then replies.activated
    else if f.meta.None? && !due then true
    else
      && replies.issued.Some? && replies.activated
      && StageAccepted(Requested(f, node, Rotation, generated), replies.issued.value, existingReported)
  }

  class CredentialAgent {
    const node: nat
    /** Whether a certificate and key were configured from the start. */
    const seeded: bool
    const store: CredentialStore
    /** Generations whose activation control has acknowledged. */
    var acknowledged: set<nat>
    /** What was acknowledged at each step of the store's history. */
    var acks: seq<set<nat>>

    ghost predicate Valid()
      reads this, store
    {
      && store.Valid() && |acks| == |store.history|
      && (forall i :: 0 <= i < |acks| ==> acks[i] <= acknowledged)
      && (forall i, j :: 0 <= i <= j < |acks| ==> acks[i] <= acks[j])
      && (forall i, n :: 0 <= i < |acks| && store.history[i].active == Some(n) && n >= 2 ==> n in acks[i])
    }

    constructor (node: nat, seeded: bool, existingReported: bool)
      ensures Valid() && fresh(store) && this.node == node && this.seeded == seeded && acknowledged == {}
      ensures store.files == NO_FILES && store.faults == 0 && store.existingReported == existingReported
    {
      this.node := node;
      this.seeded := seeded;
      var s := new CredentialStore(existingReported);
      store := s;
      acknowledged := {};
      acks := [{}];
    }

    /** The store took steps while what control acknowledged did not change. */
    method Observe(ghost before: seq<Files>)
      requires store.Valid() && before <= store.history && |acks| == |before|
      requires forall i :: 0 <= i < |acks| ==> acks[i] <= acknowledged
      requires forall i, j :: 0 <= i <= j < |acks| ==> acks[i] <= acks[j]
      requires forall i, n :: 0 <= i < |acks| && before[i].active == Some(n) && n >= 2 ==> n in acks[i]
      requires forall i, n :: |before| <= i < |store.history| && store.history[i].active == Some(n) && n >= 2 ==>
                 n in acknowledged
      modifies this`acks
      ensures Valid() && old(acks) <= acks
    {
      var more := |store.history| - |acks|;
      var now := acknowledged;
      acks := acks + seq(more, i => now);
    }

    lemma CurrentIsAcknowledged()
      requires Valid()
      ensures forall n :: store.files.active == Some(n) && n >= 2 ==> n in acknowledged
    {
      assert acks[|acks| - 1] <= acknowledged;
    }

    /** Control's acknowledgement of an activation. */
    method Acknowledge(generation: nat)
      requires Valid()
      modifies this`acknowledged
      ensures Valid() && acknowledged == old(acknowledged) + {generation}
    {
      acknowledged := acknowledged + {generation};
    }

    method Publish(generation: nat) returns (outcome: Outcome)
      requires Valid() && generation in acknowledged
      modifies this`acks, store
      ensures Valid() && old(acks) <= acks && old(store.history) <= store.history && old(store.faults) <= store.faults
      ensures !store.existingReported ==> Strands(old(store.files), store.history, |old(store.history)|)
      ensures outcome.Refused? <==> old(store.files).staged != Some(generation)
      ensures outcome.Done? ==> store.files == PublishedFiles(old(store.files), generation)
      ensures outcome.Faulted? ==> store.faults > old(store.faults)
    {
      ghost var before := store.history;
      outcome := store.PublishActive(generation);
      Observe(before);
    }

    method Request(generated: PrivateKey) returns (outcome: Outcome)
      requires Valid()
      modifies this`acks, store
      ensures Valid() && old(acks) <= acks && old(store.history) <= store.history && old(store.faults) <= store.faults
      ensures !store.existingReported ==> Strands(old(store.files), store.history, |old(store.history)|)
      ensures outcome.Faulted? ==> store.faults > old(store.faults)
      ensures old(store.files).meta.None? ==> !outcome.Refused?
      ensures outcome.Done? ==>
                Awaiting(store.files, node, Rotation)
                && store.files == Requested(old(store.files), node, Rotation, generated)
    {
      ghost var before := store.history;
      CurrentIsAcknowledged();
      outcome := store.PreparePending(node, Rotation, generated);
      Observe(before);
    }

    method StageIssued(issued: IssuedCredential, token: nat) returns (outcome: Outcome)
      requires Valid() && token !in store.files.temporaries
      modifies this`acks, store
      ensures Valid() && old(acks) <= acks && old(store.history) <= store.history && old(store.faults) <= store.faults
      ensures !store.existingReported ==> Strands(old(store.files), store.history, |old(store.history)|)
      ensures outcome.Faulted? ==> store.faults > old(store.faults)
      ensures outcome.Done? ==> StageAccepted(old(store.files), issued, store.existingReported)
      ensures outcome.Done? ==> |store.history| >= 2
                                && store.history[|store.history| - 2] == store.files.(staged := old(store.files).staged)
                                && issued.generation in store.files.generations
                                && store.files == WithGeneration(old(store.files), issued, old(store.files).key.value)
                                                    .(staged := Some(issued.generation),
                                                      temporaries := store.files.temporaries)
      ensures outcome.Refused? ==> !StageAccepted(old(store.files), issued, store.existingReported)
      ensures outcome.Done? ==> store.files.staged == Some(issued.generation)
    {
      ghost var before := store.history;
      CurrentIsAcknowledged();
      outcome := store.Stage(issued, token);
      Observe(before);
    }

    /** Stage the answer to a rotation, have it acknowledged, and publish it. */
    method Redeem(issued: IssuedCredential, activated: bool, token: nat) returns (outcome: Outcome)
      requires Valid() && token !in store.files.temporaries
      modifies this, store
      ensures Valid() && old(acks) <= acks && old(store.history) <= store.history && old(store.faults) <= store.faults
      ensures !store.existingReported ==> Strands(old(store.files), store.history, |old(store.history)|)
      ensures outcome.Faulted? ==> store.faults > old(store.faults) || !activated
      ensures outcome.Refused? ==> !StageAccepted(old(store.files), issued, store.existingReported)
      ensures outcome.Done? ==>
                && activated && StageAccepted(old(store.files), issued, store.existingReported)
                && store.files.active == Some(issued.generation) && store.files.staged.None? && store.files.meta.None?
    {
      outcome := StageIssued(issued, token);
      if !outcome.Done? { return; }
      if !activated { return Faulted; }
      ghost var staged := store.history;
      Acknowledge(issued.generation);
      outcome := Publish(issued.generation);
      if !store.existingReported { StrandsOn(old(store.files), staged, |old(store.history)|, store.history); }
    }

    /** With nothing staged: make or take up the request, and redeem its answer. */
    method AnswerRequest(due: bool, generated: PrivateKey, replies: Replies, token: nat) returns (outcome: Outcome)
      requires Valid() && token !in store.files.temporaries && store.files.staged.None?
      modifies this, store
      ensures Valid() && old(acks) <= acks && old(store.history) <= store.history && old(store.faults) <= store.faults
      ensures !store.existingReported ==> Strands(old(store.files), store.history, |old(store.history)|)
      ensures var able := CanRotate(old(store.files), node, due, generated, replies, store.existingReported);
              (outcome.Done? ==> able) && (able && store.faults == old(store.faults) ==> outcome.Done?)
      ensures old(store.files).meta.None? && !due ==> store.history == old(store.history)
      ensures outcome.Done? && (old(store.files).meta.Some? || due) ==>
                && store.files.active == Some(replies.issued.value.generation)
                && store.files.staged.None? && store.files.meta.None?
      ensures outcome.Faulted? ==> store.faults > old(store.faults) || replies.issued.None? || !replies.activated
    {
      var ok, pending := store.PendingRequest();
      if !ok { return Refused; }
      if pending.None? {
        if !due { return Done; }
        outcome := Request(generated);
        if !outcome.Done? { return; }
      } else if pending.value.purpose != Rotation {
        return Refused;
      }
      if replies.issued.None? { return Faulted; }
      ghost var requested := store.history;
      outcome := Redeem(replies.issued.value, replies.activated, token);
      if !store.existingReported { StrandsOn(old(store.files), requested, |old(store.history)|, store.history); }
    }

    method RotateCredentials(due: bool, generated: PrivateKey, replies: Replies, token: nat) returns (outcome: Outcome)
      requires Valid() && token !in store.files.temporaries
      modifies this, store
      ensures Valid() && old(acks) <= acks && old(store.history) <= store.history && old(store.faults) <= store.faults
      ensures !store.existingReported ==> Strands(old(store.files), store.history, |old(store.history)|)
      ensures var able := CanRotate(old(store.files), node, due, generated, replies, store.existingReported);
              (outcome.Done? ==> able) && (able && store.faults == old(store.faults) ==> outcome.Done?)
      ensures old(store.files).staged.None? && old(store.files).meta.None? && !due ==>
                store.history == old(store.history)
      ensures outcome.Done? && old(store.files).staged.Some? ==>
                store.files == PublishedFiles(old(store.files), old(store.files).staged.value)
      ensures outcome.Done? && old(store.files).staged.None? && (old(store.files).meta.Some? || due) ==>
                && replies.issued.Some? && store.files.active == Some(replies.issued.value.generation)
                && old(store.files).ActiveGeneration() < replies.issued.value.generation
                && store.files.staged.None? && store.files.meta.None?
                && (old(store.files).meta.Some? ==> Answers(old(store.files), replies.issued.value))
      ensures !store.existingReported && Repeats(old(store.files), due, replies) ==> !outcome.Done?
      ensures outcome.Faulted? ==> store.faults > old(store.faults) || replies.issued.None? || !replies.activated
    {
      var staged := store.files.staged;
      if staged.None? {
        outcome := AnswerRequest(due, generated, replies, token);
        return;
      }
      if !replies.activated { return Faulted; }
      Acknowledge(staged.value);
      outcome := Publish(staged.value);
    }

    method EnrollOnce(generated: PrivateKey, replies: Replies, token: nat) returns (outcome: Outcome)
      requires Valid() && token !in store.files.temporaries
      modifies this`acks, store
      ensures Valid() && old(acks) <= acks && old(store.history) <= store.history && old(store.faults) <= store.faults
      ensures !store.existingReported ==> Strands(old(store.files), store.history, |old(store.history)|)
      ensures old(store.files).active.None? && !seeded ==>
                var able := CanEnroll(old(store.files), node, generated, replies, store.existingReported);
                && (outcome.Done? ==> able) && (able && store.faults == old(store.faults) ==> outcome.Done?)
                && (outcome.Done? ==>
                      store.files == Installed(Requested(old(store.files), node, Enrollment, generated),
                                               replies.issued.value)
                                       .(temporaries := store.files.temporaries))
      ensures outcome.Done? ==>
                store.files.active ==
                  if old(store.files).active.Some? || seeded then old(store.files).active else Some(1)
      ensures old(store.files).active.Some? || seeded ==> outcome.Done? && store.history == old(store.history)
      ensures outcome.Faulted? ==> store.faults > old(store.faults) || replies.issued.None?
    {
      if store.files.active.Some? || seeded { return Done; }
      ghost var before := store.history;
      outcome := store.PreparePending(node, Enrollment, generated);
      Observe(before);
      if !outcome.Done? { return; }
      if replies.issued.None? { return Faulted; }
      before := store.history;
      outcome := store.InstallInitial(replies.issued.value, token);
      Observe(before);
    }

    /** Reopen the store and finish an interrupted enrollment; both always succeed
        unless the file system itself fails. */
    method RestartAgent() returns (outcome: Outcome)
      requires Valid()
      modifies this`acks, store
      ensures Valid() && old(acks) <= acks && old(store.history) <= store.history && old(store.faults) <= store.faults
      ensures !store.existingReported ==> Strands(old(store.files), store.history, |old(store.history)|)
      ensures !outcome.Refused?
      ensures outcome.Faulted? ==> store.faults > old(store.faults)
      ensures outcome.Done? ==> store.files.temporaries == map[]
      ensures outcome.Done? && !EnrollmentWindow(old(store.files)) ==>
                store.files == old(store.files).(temporaries := map[])
      ensures outcome.Done? && (store.files.meta.Some? ==> store.files.meta.value.node == node) ==>
                PendingMatches(store.files)
    {
      ghost var before := store.history;
      CurrentIsAcknowledged();
      outcome := store.Open();
      Observe(before);
      if !outcome.Done? { return; }
      assert Sound(store.files);
      before := store.history;
      CurrentIsAcknowledged();
      var recovered := store.RecoverInitialEnrollment(node);
      Observe(before);
      return if recovered.Faulted? then Faulted else Done;
    }

    method CrashAfter(k: nat)
      requires Valid() && k < |store.history|
      modifies this, store
      ensures Valid() && store.history == old(store.history)[..k + 1] && acknowledged == old(acks)[k]
    {
      store.Crash(k);
      acknowledged := acks[k];
      acks := acks[..k + 1];
    }
  }

  /** Over every schedule of restarts, enrollments, rotations and crashes after any
      file step of the latest action: the active generation never goes back, no
      generation is ever changed, every store can be reopened, and no generation
      from two on is active before control acknowledged its activation.  On a system
      that does not report an existing directory as such, a generation that nothing
      points to between two actions is never staged or activated again. */
  method RunAgent(agent: CredentialAgent, schedule: seq<Action>)
    requires agent.Valid()
    modifies agent, agent.store
    ensures agent.Valid() && old(agent.store.history) <= agent.store.history
    ensures forall i :: 0 <= i < |agent.store.history| ==> Opens(agent.store.history[i])
    ensures forall i, n :: 0 <= i < |agent.store.history| && n in agent.store.history[i].generations ==>
              var g := agent.store.history[i].generations[n];
              && 1 <= n <= 99_999_999
              && g.key.Some? && g.certificate.Some? && g.document.Some? && g.document.value.generation == n
              && g.certificate.value.public == g.key.value.public
              && g.certificate.value.node == g.document.value.node
              && g.certificate.value.serial == g.document.value.serial
    ensures forall i, n :: 0 <= i < |agent.store.history|
                           && (agent.store.history[i].active == Some(n) || agent.store.history[i].staged == Some(n)) ==>
              n in agent.store.history[i].generations
    ensures forall i, meta :: 0 <= i < |agent.store.history| && agent.store.history[i].meta == Some(meta)
                              && (agent.store.history[i].active != Some(1) || meta.purpose.Rotation?) ==>
              agent.store.history[i].csr == Some(meta.csr)
              && agent.store.history[i].key == Some(PrivateKey(meta.csr.public))
    ensures StepByStep(agent.store.history)
    ensures forall i, j :: 0 <= i <= j < |agent.store.history| ==>
              Precedes(agent.store.history[i], agent.store.history[j])
    ensures forall i, n :: 0 <= i < |agent.store.history| && agent.store.history[i].active == Some(n) && n >= 2 ==>
              n in agent.acks[i]
    ensures !agent.store.existingReported ==>
              Strands(old(agent.store.files), agent.store.history, |old(agent.store.history)|)
  {
    ghost var start := |agent.store.history|;
    ghost var files := agent.store.files;
    var since := |agent.store.history| - 1;
    for a := 0 to |schedule|
      invariant agent.Valid() && start - 1 <= since < |agent.store.history|
      invariant old(agent.store.history) <= agent.store.history && agent.store.history[start - 1] == files
      invariant !agent.store.existingReported ==> Strands(files, agent.store.history, start)
    {
      var reached := |agent.store.history| - 1;
      ghost var before := agent.store.history;
      match schedule[a] {
        case Restart =>
          var _ := agent.RestartAgent();
          since := reached;
        case Enroll(generated, replies, token) =>
          if token !in agent.store.files.temporaries {
            var _ := agent.EnrollOnce(generated, replies, token);
          }
          since := reached;
        case Rotate(due, generated, replies, token) =>
          if token !in agent.store.files.temporaries {
            var _ := agent.RotateCredentials(due, generated, replies, token);
          }
          since := reached;
        case Crash(step) =>
          agent.CrashAfter(if since + step < |agent.store.history| then since + step else |agent.store.history| - 1);
          since := |agent.store.history| - 1;
      }
      if !agent.store.existingReported && !schedule[a].Crash? { StrandsOn(files, before, start, agent.store.history); }
    }
    assert forall i :: 0 <= i < |agent.store.history| ==> Sound(agent.store.history[i]);
    forall i, j | 0 <= i <= j < |agent.store.history| ensures Precedes(agent.store.history[i], agent.store.history[j]) {
      HistoryNeverContradicts(agent.store.history, i, j);
    }
  }

  lemma StrandedFrom(f: Files, history: seq<Files>, from: nat, n: nat)
    requires from < |history| && history[from] == f && Orphaned(f, n) && Strands(f, history, from + 1)
    ensures forall i :: from <= i < |history| ==>
              n in history[i].generations && history[i].staged != Some(n) && history[i].active != Some(n)
  {
    assert forall i :: from < i < |history| ==> Orphaned(history[i], n);
  }

  /** Staging interrupted between the rename of the new generation and the write of its
      pointer, and then any schedule.  Every answer that would be staged can meet this: without
      a failing file operation the interruption occurs.  The same answer would be accepted again
      exactly where an existing directory is reported as such.  Elsewhere no later store stages
      or activates that generation, and answering a rotation with it again never succeeds. */
  method RunAfterInterruptedStage(agent: CredentialAgent, issued: IssuedCredential, token: nat, schedule: seq<Action>)
    returns (interrupted: bool, from: nat)
    requires agent.Valid() && token !in agent.store.files.temporaries
    modifies agent, agent.store
    ensures agent.Valid()
    ensures !interrupted ==>
              || !StageAccepted(old(agent.store.files), issued, agent.store.existingReported)
              || agent.store.faults > old(agent.store.faults)
    ensures interrupted ==> from < |agent.store.history| && issued.generation in agent.store.history[from].generations
    ensures interrupted ==>
              (StageAccepted(agent.store.history[from], issued, agent.store.existingReported) <==>
               agent.store.existingReported)
    ensures interrupted && !agent.store.existingReported ==>
              forall i :: from <= i < |agent.store.history| ==>
                && issued.generation in agent.store.history[i].generations
                && agent.store.history[i].staged != Some(issued.generation)
                && agent.store.history[i].active != Some(issued.generation)
  {
    from := 0;
    ghost var before := agent.store.files;
    assert Sound(before);
    var outcome := agent.StageIssued(issued, token);
    interrupted := outcome.Done?;
    if !interrupted { return; }
    agent.CrashAfter(|agent.store.history| - 2);
    from := |agent.store.history| - 1;
    ghost var crashed := agent.store.files;
    assert issued.generation in crashed.generations;
    assert StageAccepted(crashed, issued, agent.store.existingReported) <==> agent.store.existingReported;
    assert !agent.store.existingReported ==> Orphaned(crashed, issued.generation);
    RunAgent(agent, schedule);
    assert agent.store.history[from] == crashed;
    if !agent.store.existingReported { StrandedFrom(crashed, agent.store.history, from, issued.generation); }
  }

  // A node's first certificate, and the one control issues for its first rotation.

  const FIRST: IssuedCredential := IssuedCredential(7, 1, 11, Certificate(7, 1, 11), true)
  const SECOND: IssuedCredential := IssuedCredential(7, 2, 12, Certificate(7, 2, 12), true)

  /** A new agent enrolls, asks for a rotation, restarts, and is interrupted while staging
      the answer.  Unless a file operation fails the interruption occurs. */
  method InterruptFirstRotation(existingReported: bool) returns (agent: CredentialAgent, interrupted: bool)
    ensures agent.Valid() && agent.store.existingReported == existingReported
    ensures agent.store.faults == 0 ==> interrupted
    ensures interrupted && !existingReported ==> Orphaned(agent.store.files, 2)
  {
    agent := new CredentialAgent(7, false, existingReported);
    interrupted := false;
    var enrolled := agent.EnrollOnce(PrivateKey(1), Replies(Some(FIRST), true), 0);
    if !enrolled.Done? { return; }
    var requested := agent.Request(PrivateKey(2));
    if !requested.Done? { return; }
    var restarted := agent.RestartAgent();
    if !restarted.Done? { return; }
    var done, from := RunAfterInterruptedStage(agent, SECOND, 0, []);
    interrupted := done;
  }

  /** A publication that stopped right after step `k`, a restart, and the next round of
      rotation.  While the staged pointer is there the publication is redone; once it is
      gone but the request is not, the old request leads to yet another generation; after
      that only a due rotation changes anything. */
  method ResumePublication(agent: CredentialAgent, ghost f: Files, n: nat, k: nat, due: bool, generated: PrivateKey,
                           replies: Replies, token: nat) returns (outcome: Outcome)
    requires agent.Valid() && f.staged == Some(n) && k < |PublishTrail(f, n)|
    requires f.meta.Some? && f.meta.value.purpose.Rotation?
    requires agent.store.files == PublishTrail(f, n)[k]
    modifies agent, agent.store
    ensures agent.Valid()
    ensures var able := CanRotate(PublishTrail(f, n)[k].(temporaries := map[]), agent.node, due, generated, replies,
                                  agent.store.existingReported);
            able && agent.store.faults == old(agent.store.faults) ==> outcome.Done?
    ensures k == 0 && replies.activated && agent.store.faults == old(agent.store.faults) ==> outcome.Done?
    ensures outcome.Done? && k == 0 ==> agent.store.files == PublishedFiles(f, n).(temporaries := map[])
    ensures outcome.Done? && k == 1 ==>
              && replies.issued.Some? && Answers(PublishTrail(f, n)[1], replies.issued.value)
              && agent.store.files.active == Some(replies.issued.value.generation)
              && n < replies.issued.value.generation
    ensures outcome.Done? && k >= 2 && !due ==>
              agent.store.files.active == Some(n)
              && Unpended(agent.store.files) == PublishedFiles(f, n).(temporaries := map[])
    ensures outcome.Done? && k >= 2 && due ==>
              replies.issued.Some? && agent.store.files.active == Some(replies.issued.value.generation)
              && n < replies.issued.value.generation
  {
    outcome := agent.RestartAgent();
    if !outcome.Done? { return; }
    outcome := agent.RotateCredentials(due, generated, replies, token);
  }
}
