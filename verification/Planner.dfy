/** The placement planner, step by step, proved to compute what `Placement` defines. */
module Planner {
  import opened Options
  import opened Names
  import opened Placement

  method Collect(observations: seq<Observation>) returns (r: Option<Observed>)
    ensures r.Some? <==> OneEach(observations)
    ensures r.Some? ==> r.value == ByNode(observations)
  {
    var observed: Observed := map[];
    for i := 0 to |observations|
      invariant OneEach(observations[..i]) && observed == ByNode(observations[..i])
      invariant forall n :: n in observed <==> exists k :: 0 <= k < i && observations[k].node == n
    {
      var o := observations[i];
      if o.node in observed { return None; }
      observed := observed[o.node := o];
      assert observations[..i + 1][..i] == observations[..i];
    }
    assert observations[..|observations|] == observations;
    return Some(observed);
  }

  ghost predicate Ranks(preferred: seq<Name>, ranks: map<Name, nat>) {
    && |ranks| == |preferred|
    && (forall n :: n in ranks <==> n in preferred)
    && (forall k :: 0 <= k < |preferred| ==> preferred[k] in ranks && ranks[preferred[k]] == k)
  }

  method RankPreferences(preferred: seq<Name>, fleet: Fleet) returns (r: Option<map<Name, nat>>)
    requires Distinct(preferred)
    ensures r.Some? <==> forall n :: n in preferred ==> n in fleet
    ensures r.Some? ==> Ranks(preferred, r.value)
  {
    var ranks: map<Name, nat> := map[];
    for i := 0 to |preferred|
      invariant forall k :: 0 <= k < i ==> preferred[k] in fleet
      invariant Ranks(preferred[..i], ranks)
    {
      if preferred[i] !in fleet { return None; }
      ranks := ranks[preferred[i] := i];
      assert preferred[..i + 1] == preferred[..i] + [preferred[i]];
    }
    assert preferred[..|preferred|] == preferred;
    return Some(ranks);
  }

  /** The first component of the sort key. */
  function Key(ranks: map<Name, nat>, n: Name): nat { if n in ranks then ranks[n] else |ranks| }

  lemma KeyIsRank(preferred: seq<Name>, ranks: map<Name, nat>, n: Name)
    requires Distinct(preferred) && Ranks(preferred, ranks)
    ensures Key(ranks, n) == Rank(preferred, n)
  {
    var k := Rank(preferred, n);
    assert k < |preferred| ==> preferred[k] == n;
  }

  predicate Before(ranks: map<Name, nat>, a: Name, b: Name) {
    Key(ranks, a) < Key(ranks, b) || (Key(ranks, a) == Key(ranks, b) && a < b)
  }

  function Insert(ranks: map<Name, nat>, n: Name, s: seq<Name>): (r: seq<Name>)
    ensures forall x :: x in r <==> x in s || x == n
  {
    if s == [] || Before(ranks, n, s[0]) then [n] + s else [s[0]] + Insert(ranks, n, s[1..])
  }

  function Sort(ranks: map<Name, nat>, s: seq<Name>): (r: seq<Name>)
    ensures forall x :: x in r <==> x in s
  {
    if s == [] then [] else Insert(ranks, s[0], Sort(ranks, s[1..]))
  }

  lemma {:induction false} InsertKeepsOrder(preferred: seq<Name>, ranks: map<Name, nat>, n: Name, s: seq<Name>)
    requires Distinct(preferred) && Ranks(preferred, ranks) && InOrder(preferred, s) && n !in s
    ensures InOrder(preferred, Insert(ranks, n, s))
  {
    if s != [] {
      KeyIsRank(preferred, ranks, n);
      KeyIsRank(preferred, ranks, s[0]);
      if Before(ranks, n, s[0]) {
        Prepend(preferred, n, s);
      } else {
        InsertKeepsOrder(preferred, ranks, n, s[1..]);
        Prepend(preferred, s[0], Insert(ranks, n, s[1..]));
      }
    }
  }

  lemma {:induction false} SortIsInOrder(preferred: seq<Name>, ranks: map<Name, nat>, s: seq<Name>)
    requires Distinct(preferred) && Ranks(preferred, ranks) && Distinct(s)
    ensures InOrder(preferred, Sort(ranks, s)) && Elements(Sort(ranks, s)) == Elements(s)
  {
    if s != [] {
      SortIsInOrder(preferred, ranks, s[1..]);
      assert s[0] !in s[1..];
      InsertKeepsOrder(preferred, ranks, s[0], Sort(ranks, s[1..]));
    }
  }

  lemma SortIsRanked(r: Requirement, fleet: Fleet, observed: Observed, ranks: map<Name, nat>, eligible: seq<Name>)
    requires Distinct(r.preferred) && Ranks(r.preferred, ranks) && observed.Keys == fleet.Keys
    requires Distinct(eligible) && forall n :: n in eligible <==> n in fleet && Meets(r, fleet[n], observed[n])
    ensures Sort(ranks, eligible) == Ranked(r.preferred, Candidates(r, fleet, observed))
    ensures forall n :: n in Sort(ranks, eligible) ==> n in fleet
  {
    var candidates := Candidates(r, fleet, observed);
    assert Elements(eligible) == candidates;
    SortIsInOrder(r.preferred, ranks, eligible);
    RankedIsInOrder(r.preferred, candidates);
    OrderIsUnique(r.preferred, Sort(ranks, eligible), Ranked(r.preferred, candidates));
    assert forall n :: n in Sort(ranks, eligible) <==> n in Elements(Sort(ranks, eligible));
  }

  /** The suitable nodes among those visited so far. */
  ghost predicate Filtered(r: Requirement, fleet: Fleet, observed: Observed, visited: seq<Name>, eligible: seq<Name>)
    requires observed.Keys == fleet.Keys
  {
    && Distinct(eligible)
    && forall n :: n in eligible <==> n in visited && n in fleet && Meets(r, fleet[n], observed[n])
  }

  lemma FilteredStep(r: Requirement, fleet: Fleet, observed: Observed, visited: seq<Name>, n: Name, eligible: seq<Name>)
    requires observed.Keys == fleet.Keys && n in fleet && n !in visited
             && Filtered(r, fleet, observed, visited, eligible)
    ensures Filtered(r, fleet, observed, visited + [n],
                     if Meets(r, fleet[n], observed[n]) then eligible + [n] else eligible)
  {
  }

  /** The nodes visited so far have their reason. */
  ghost predicate Judged(r: Requirement, fleet: Fleet, observed: Observed, visited: seq<Name>,
                         reasons: map<Name, Reason>)
    requires observed.Keys == fleet.Keys
  {
    && (forall n :: n in reasons <==> n in visited)
    && (forall n :: n in visited ==> n in fleet && reasons[n] == ReasonFor(r, fleet[n], observed[n]))
  }

  lemma JudgedStep(r: Requirement, fleet: Fleet, observed: Observed, visited: seq<Name>, n: Name,
                   reasons: map<Name, Reason>)
    requires observed.Keys == fleet.Keys && n in fleet && Judged(r, fleet, observed, visited, reasons)
    ensures Judged(r, fleet, observed, visited + [n], reasons[n := ReasonFor(r, fleet[n], observed[n])])
  {
  }

  /** Every node's verdict, and the nodes without an objection in the fleet's order. */
  method Screen(r: Requirement, fleet: Fleet, order: seq<Name>, observed: Observed)
    returns (reasons: map<Name, Reason>, eligible: seq<Name>)
    requires Distinct(order) && (forall n :: n in order <==> n in fleet) && observed.Keys == fleet.Keys
    ensures Judged(r, fleet, observed, order, reasons) && Filtered(r, fleet, observed, order, eligible)
  {
    reasons, eligible := map[], [];
    for i := 0 to |order|
      invariant Judged(r, fleet, observed, order[..i], reasons) && Filtered(r, fleet, observed, order[..i], eligible)
    {
      var n := order[i];
      var reason := ReasonFor(r, fleet[n], observed[n]);
      assert order[..i + 1] == order[..i] + [n];
      JudgedStep(r, fleet, observed, order[..i], n, reasons);
      FilteredStep(r, fleet, observed, order[..i], n, eligible);
      reasons := reasons[n := reason];
      if reason.Eligible? { eligible := eligible + [n]; }
    }
    assert order[..|order|] == order;
  }

  lemma SelectedAreMarked(r: Requirement, fleet: Fleet, order: seq<Name>, observed: Observed,
                          reasons: map<Name, Reason>, selected: seq<Name>)
    requires observed.Keys == fleet.Keys && (forall n :: n in order <==> n in fleet)
    requires Judged(r, fleet, observed, order, reasons) && forall n :: n in selected ==> n in fleet
    ensures reasons + (map n | n in selected :: Selected) == Explained(r, fleet, observed, selected)
  {
  }

  method Decide(r: Requirement, fleet: Fleet, order: seq<Name>, t: Topology, observed: Observed,
                reasons: map<Name, Reason>, ranked: seq<Name>)
    returns (o: Outcome)
    requires observed.Keys == fleet.Keys && (forall n :: n in order <==> n in fleet)
    requires Judged(r, fleet, observed, order, reasons) && forall n :: n in ranked ==> n in fleet
    ensures o == Decided(r, fleet, t, observed, ranked)
  {
    if |ranked| < r.nodeCount { return Refused(InsufficientNodes); }
    var selected := ranked[..r.nodeCount];
    if r.distributed && !AcceptedGroup(selected, t) { return Refused(NoAcceptedTopology); }
    SelectedAreMarked(r, fleet, order, observed, reasons, selected);
    return Placed(selected, reasons + map n | n in selected :: Selected);
  }

  method Choose(r: Requirement, fleet: Fleet, order: seq<Name>, t: Topology, observed: Observed, ranks: map<Name, nat>)
    returns (o: Outcome)
    requires Distinct(r.preferred) && Ranks(r.preferred, ranks)
    requires Distinct(order) && Elements(order) == fleet.Keys == observed.Keys
    ensures o == ChoiceFor(r, fleet, t, observed)
  {
    assert forall n :: n in Elements(order) <==> n in fleet.Keys;
    var reasons, eligible := Screen(r, fleet, order, observed);
    var sorted := Sort(ranks, eligible);
    SortIsRanked(r, fleet, observed, ranks, eligible);
    o := Decide(r, fleet, order, t, observed, reasons, sorted);
  }

  /** The outcome does not depend on the order of the fleet or of the observations. */
  method Plan(r: Requirement, fleet: Fleet, order: seq<Name>, t: Topology, observations: seq<Observation>)
    returns (o: Outcome)
    requires ValidRequirement(r) && Distinct(order) && Elements(order) == fleet.Keys
    ensures OneEach(observations) ==> o == PlanFor(r, fleet, t, ByNode(observations))
    ensures !OneEach(observations) ==>
              o == Refused(if r.distributed && !r.supportsDistributed then DistributedUnsupported
                           else if !t.wellFormed then InvalidTopology
                           else if t.nodes != fleet.Keys then TopologyMismatch
                           else DuplicateObservation)
    ensures RightOutcome(r, fleet, t, observations, o)
  {
    if OneEach(observations) { PlanExactlyWhen(r, fleet, t, observations); }
    if r.distributed && !r.supportsDistributed { return Refused(DistributedUnsupported); }
    if !t.wellFormed { return Refused(InvalidTopology); }
    if t.nodes != fleet.Keys { return Refused(TopologyMismatch); }
    var observed := Collect(observations);
    if observed.None? { return Refused(DuplicateObservation); }
    if observed.value.Keys != fleet.Keys { return Refused(ObservationsMismatch); }
    var ranks := RankPreferences(r.preferred, fleet);
    if ranks.None? { return Refused(UnknownPreference); }
    o := Choose(r, fleet, order, t, observed.value, ranks.value);
  }

  /** Two planning calls that see the same fleet and the same observations, each in its
      own order, agree on the nodes and on every reason. */
  method PlanTwice(r: Requirement, fleet: Fleet, order: seq<Name>, order': seq<Name>, t: Topology,
                   observations: seq<Observation>, observations': seq<Observation>)
    returns (o: Outcome, o': Outcome)
    requires ValidRequirement(r)
    requires Distinct(order) && Elements(order) == fleet.Keys && Distinct(order') && Elements(order') == fleet.Keys
    requires OneEach(observations) && multiset(observations) == multiset(observations')
    ensures o == o'
  {
    OrderOfObservations(observations, observations');
    o := Plan(r, fleet, order, t, observations);
    o' := Plan(r, fleet, order', t, observations');
  }
}
