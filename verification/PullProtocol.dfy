/** Closing the release transport while pulls are in flight.

    Threads take steps in any order. A step is one critical section under the condition
    variable, or one descriptor closed outside it. */
module PullProtocol {
  import opened Names

  type Descriptor = nat

  datatype Thread =
    | Pulling(descriptors: seq<Descriptor>)
    | Refused
    | Waiting
    | Closing(remaining: seq<Descriptor>)
    | Finished

  /** `released` lists the descriptors closed so far, in order. */
  datatype Client = Client(
    activePulls: int, closed: bool, policy: seq<Descriptor>, threads: map<nat, Thread>, released: seq<Descriptor>)

  datatype Action =
    | BeginPull(thread: nat)
    | EndPull(thread: nat)
    | BeginClose(thread: nat)
    | Wake(thread: nat)
    | CloseNext(thread: nat)

  /** The end of `close`, reached with the lock held and no pull active. */
  function TakeDescriptors(c: Client, t: nat): Client {
    c.(policy := [], threads := c.threads[t := Closing(c.policy)])
  }

  function Step(c: Client, a: Action, expected: nat): Client {
    match a
    case BeginPull(t) =>
      if t in c.threads then c
      else if c.closed || |c.policy| != expected then c.(threads := c.threads[t := Refused])
      else c.(activePulls := c.activePulls + 1, threads := c.threads[t := Pulling(c.policy)])
    case EndPull(t) =>
      if t !in c.threads || !c.threads[t].Pulling? then c
      else c.(activePulls := c.activePulls - 1, threads := c.threads[t := Finished])
    case BeginClose(t) =>
      if t in c.threads then c
      else if c.activePulls != 0 then c.(closed := true, threads := c.threads[t := Waiting])
      else TakeDescriptors(c.(closed := true), t)
    case Wake(t) =>
      if t !in c.threads || !c.threads[t].Waiting? || c.activePulls != 0 then c
      else TakeDescriptors(c, t)
    case CloseNext(t) =>
      if t !in c.threads || !c.threads[t].Closing? then c
      else
        var remaining := c.threads[t].remaining;
        if remaining == [] then c.(threads := c.threads[t := Finished])
        else c.(threads := c.threads[t := Closing(remaining[1..])], released := c.released + [remaining[0]])
  }

  function Run(initial: seq<Descriptor>, actions: seq<Action>): Client {
    if actions == [] then Client(0, false, initial, map[], [])
    else Step(Run(initial, actions[..|actions| - 1]), actions[|actions| - 1], |initial|)
  }

  ghost function InFlight(c: Client): set<nat> { set t | t in c.threads && c.threads[t].Pulling? }

  /** The thread still has descriptors to close. */
  predicate Owes(c: Client, t: nat) { t in c.threads && c.threads[t].Closing? && c.threads[t].remaining != [] }

  /** The descriptors are still the client's. */
  ghost predicate Held(c: Client, initial: seq<Descriptor>) {
    c.policy == initial && c.released == [] && forall t :: !Owes(c, t)
  }

  /** One close has taken the descriptors: at most one thread has some left to close, and
      they are exactly the ones not released yet. */
  ghost predicate Taken(c: Client, initial: seq<Descriptor>) {
    && c.closed && InFlight(c) == {} && c.policy == [] && c.released <= initial
    && (forall t :: Owes(c, t) ==> c.threads[t].remaining == initial[|c.released|..])
    && (forall t, u :: Owes(c, t) && Owes(c, u) ==> t == u)
  }

  ghost predicate Safe(c: Client, initial: seq<Descriptor>) {
    && c.activePulls == |InFlight(c)|
    && (forall t :: t in InFlight(c) ==> c.threads[t].descriptors == initial)
    && (forall t :: t in c.threads && c.threads[t].Waiting? ==> c.closed)
    && (Held(c, initial) || Taken(c, initial))
  }

  lemma PullStep(c: Client, a: Action, initial: seq<Descriptor>)
    requires Safe(c, initial) && (a.BeginPull? || a.EndPull?)
    ensures Safe(Step(c, a, |initial|), initial)
  {
    var c' := Step(c, a, |initial|);
    assert forall t :: Owes(c', t) ==> Owes(c, t);
    if a.EndPull? {
      assert InFlight(c') == InFlight(c) - {a.thread};
    } else if c'.activePulls > c.activePulls {
      assert InFlight(c') == InFlight(c) + {a.thread};
    } else {
      assert InFlight(c') == InFlight(c);
    }
  }

  lemma CloseStep(c: Client, a: Action, initial: seq<Descriptor>)
    requires Safe(c, initial) && (a.BeginClose? || a.Wake?)
    ensures Safe(Step(c, a, |initial|), initial)
  {
    var c' := Step(c, a, |initial|);
    assert InFlight(c') == InFlight(c);
    assert forall t :: Owes(c', t) ==> Owes(c, t) || (t == a.thread && c'.threads[t].remaining == c.policy);
  }

  lemma ReleaseStep(c: Client, a: Action, initial: seq<Descriptor>)
    requires Safe(c, initial) && a.CloseNext?
    ensures Safe(Step(c, a, |initial|), initial)
  {
    var c' := Step(c, a, |initial|);
    assert InFlight(c') == InFlight(c);
    assert forall t :: Owes(c', t) ==> Owes(c, t);
    assert Owes(c, a.thread) ==> c.threads[a.thread].remaining == initial[|c.released|..];
  }

  lemma StepIsSafe(c: Client, a: Action, initial: seq<Descriptor>)
    requires Safe(c, initial)
    ensures Safe(Step(c, a, |initial|), initial)
  {
    match a
    case BeginPull(_) => PullStep(c, a, initial);
    case EndPull(_) => PullStep(c, a, initial);
    case BeginClose(_) => CloseStep(c, a, initial);
    case Wake(_) => CloseStep(c, a, initial);
    case CloseNext(_) => ReleaseStep(c, a, initial);
  }

  /** In every interleaving of any number of pulls and closes the active count is the
      number of pulls in flight, and the descriptors are either all open and held by the
      client or being closed once, in order, with no pull in flight. */
  lemma {:induction false} EveryRunIsSafe(initial: seq<Descriptor>, actions: seq<Action>)
    ensures Safe(Run(initial, actions), initial)
  {
    if actions == [] {
      assert InFlight(Run(initial, actions)) == {};
    } else {
      EveryRunIsSafe(initial, actions[..|actions| - 1]);
      StepIsSafe(Run(initial, actions[..|actions| - 1]), actions[|actions| - 1], initial);
    }
  }

  lemma NothingIsClosedUnderAPull(initial: seq<Descriptor>, actions: seq<Action>, t: nat)
    requires t in InFlight(Run(initial, actions))
    ensures forall d :: d in Run(initial, actions).threads[t].descriptors ==> d !in Run(initial, actions).released
  {
    EveryRunIsSafe(initial, actions);
  }

  lemma NothingIsClosedTwice(initial: seq<Descriptor>, actions: seq<Action>)
    requires Distinct(initial)
    ensures Distinct(Run(initial, actions).released)
  {
    EveryRunIsSafe(initial, actions);
  }

  /** A thread that has not pulled or closed before is admitted, with all descriptors,
      unless a close has started. */
  lemma OpenClientAdmits(initial: seq<Descriptor>, actions: seq<Action>, t: nat)
    requires t !in Run(initial, actions).threads
    ensures var c := Run(initial, actions + [BeginPull(t)]);
            t in c.threads && c.threads[t] == if Run(initial, actions).closed then Refused else Pulling(initial)
  {
    EveryRunIsSafe(initial, actions);
    assert (actions + [BeginPull(t)])[..|actions|] == actions;
  }

  lemma {:induction false} OpenUntilClosed(initial: seq<Descriptor>, actions: seq<Action>)
    requires forall a :: a in actions ==> !a.BeginClose?
    ensures !Run(initial, actions).closed
  {
    if actions != [] {
      OpenUntilClosed(initial, actions[..|actions| - 1]);
      assert actions[|actions| - 1] in actions;
    }
  }

  ghost predicate SomeWaiting(c: Client) { exists t :: t in c.threads && c.threads[t].Waiting? }

  ghost predicate SomeOwing(c: Client) { exists t :: Owes(c, t) }

  /** Once closed, some close still waits or the descriptors are taken; and once they are
      taken, some close still owes or all of them are released. */
  ghost predicate Attended(c: Client, initial: seq<Descriptor>) {
    && (c.closed ==> SomeWaiting(c) || c.policy == [])
    && (c.policy == [] ==> SomeOwing(c) || c.released == initial)
  }

  lemma OthersGoOn(c: Client, c': Client, t: nat)
    requires forall u :: u in c.threads && u != t ==> u in c'.threads && c'.threads[u] == c.threads[u]
    ensures SomeWaiting(c) && (t in c.threads ==> !c.threads[t].Waiting?) ==> SomeWaiting(c')
    ensures SomeOwing(c) && !Owes(c, t) ==> SomeOwing(c')
  {
    if SomeWaiting(c) && (t in c.threads ==> !c.threads[t].Waiting?) {
      var u :| u in c.threads && c.threads[u].Waiting?;
      assert u in c'.threads && c'.threads[u].Waiting?;
    }
    if SomeOwing(c) && !Owes(c, t) {
      var u :| Owes(c, u);
      assert Owes(c', u);
    }
  }

  lemma StepIsAttended(c: Client, a: Action, initial: seq<Descriptor>)
    requires Safe(c, initial) && Attended(c, initial)
    ensures Attended(Step(c, a, |initial|), initial)
  {
    var c' := Step(c, a, |initial|);
    OthersGoOn(c, c', a.thread);
    assert a.thread in c'.threads && c'.threads[a.thread].Waiting? ==> SomeWaiting(c');
    assert Owes(c', a.thread) ==> SomeOwing(c');
    assert Owes(c, a.thread) ==> c.threads[a.thread].remaining == initial[|c.released|..];
  }

  /** When the client is closed and no close is under way any more, every descriptor has
      been released. */
  lemma ClosedHasReleasedAll(initial: seq<Descriptor>, actions: seq<Action>)
    requires var c := Run(initial, actions);
             c.closed && forall t :: t in c.threads ==> !c.threads[t].Waiting? && !c.threads[t].Closing?
    ensures Run(initial, actions).released == initial
  {
    EveryRunIsAttended(initial, actions);
  }

  lemma {:induction false} EveryRunIsAttended(initial: seq<Descriptor>, actions: seq<Action>)
    ensures Attended(Run(initial, actions), initial)
  {
    if actions != [] {
      var before := actions[..|actions| - 1];
      EveryRunIsSafe(initial, before);
      EveryRunIsAttended(initial, before);
      StepIsAttended(Run(initial, before), actions[|actions| - 1], initial);
    }
  }

  /** One thread goes on closing. */
  function Closes(c: Client, t: nat, n: nat, expected: nat): Client
    decreases n
  {
    if n == 0 then c else Closes(Step(c, CloseNext(t), expected), t, n - 1, expected)
  }

  /** A close that has taken the descriptors finishes, after releasing them in order. */
  lemma {:induction false} CloseCompletes(c: Client, t: nat, expected: nat)
    requires t in c.threads && c.threads[t].Closing?
    ensures var c' := Closes(c, t, |c.threads[t].remaining| + 1, expected);
            t in c'.threads && c'.threads[t] == Finished && c'.released == c.released + c.threads[t].remaining
    decreases |c.threads[t].remaining|
  {
    var remaining := c.threads[t].remaining;
    var next := Step(c, CloseNext(t), expected);
    if remaining == [] {
      assert Closes(c, t, 1, expected) == Closes(next, t, 0, expected) == next;
    } else {
      CloseCompletes(next, t, expected);
      assert [remaining[0]] + remaining[1..] == remaining;
    }
  }

  /** Once a close has started no further pull begins. */
  lemma {:induction false} NoPullAfterClose(initial: seq<Descriptor>, actions: seq<Action>, k: nat)
    requires k <= |actions| && Run(initial, actions[..k]).closed
    ensures Run(initial, actions).closed && InFlight(Run(initial, actions)) <= InFlight(Run(initial, actions[..k]))
    decreases |actions|
  {
    if k == |actions| {
      assert actions[..k] == actions;
    } else {
      var before := actions[..|actions| - 1];
      assert before[..k] == actions[..k];
      NoPullAfterClose(initial, before, k);
    }
  }
}
