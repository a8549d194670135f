/** Requirement-based placement over a fleet of nodes. */
module Placement {
  import opened Names

  datatype Lifecycle = Ready | Retired | OtherLifecycle(name: nat)
  datatype Record = Record(lifecycle: Lifecycle, labels: map<nat, nat>)
  type Fleet = map<Name, Record>

  datatype Requirement = Requirement(
    name: Name, definition: nat, nodeCount: nat, requiredLabels: map<nat, nat>,
    minMemory: nat, minDisk: nat, exclusive: bool, distributed: bool,
    supportsDistributed: bool, preferred: seq<Name>)

  ghost predicate ValidRequirement(r: Requirement) {
    r.nodeCount >= 1 && r.distributed == (r.nodeCount > 1) && Distinct(r.preferred)
  }

  datatype Observation = Observation(
    node: Name, healthy: bool, memory: nat, disk: nat, occupied: bool, available: bool)

  type Observed = map<Name, Observation>

  datatype Link = Link(accepted: bool, rdma: bool, endpoints: set<Name>)

  /** `wellFormed` is the outcome of the structural checks on the document. */
  datatype Topology = Topology(wellFormed: bool, nodes: set<Name>, links: seq<Link>)

  datatype Rejection = Lifecycle(name: Lifecycle) | Unavailable | Unhealthy | Memory | Disk | Occupied | Labels
  datatype Reason = Rejected(why: seq<Rejection>) | Eligible | Selected

  datatype Refusal =
    | DistributedUnsupported | InvalidTopology | TopologyMismatch | DuplicateObservation
    | ObservationsMismatch | UnknownPreference | InsufficientNodes | NoAcceptedTopology

  datatype Outcome = Placed(nodes: seq<Name>, reasons: map<Name, Reason>) | Refused(why: Refusal)

  // ---- what a node must offer -----------------------------------------------------

  predicate HasLabels(record: Record, required: map<nat, nat>) {
    forall k :: k in required ==> k in record.labels && record.labels[k] == required[k]
  }

  predicate Meets(r: Requirement, record: Record, o: Observation) {
    && record.lifecycle.Ready? && o.available && o.healthy
    && r.minMemory <= o.memory && r.minDisk <= o.disk
    && !(r.exclusive && o.occupied)
    && HasLabels(record, r.requiredLabels)
  }

  predicate Applies(why: Rejection, r: Requirement, record: Record, o: Observation) {
    match why
    case Lifecycle(_) => !record.lifecycle.Ready?
    case Unavailable => !o.available
    case Unhealthy => !o.healthy
    case Memory => o.memory < r.minMemory
    case Disk => o.disk < r.minDisk
    case Occupied => r.exclusive && o.occupied
    case Labels => !HasLabels(record, r.requiredLabels)
  }

  function Applicable(all: seq<Rejection>, r: Requirement, record: Record, o: Observation): (why: seq<Rejection>)
    ensures forall x :: x in why <==> x in all && Applies(x, r, record, o)
  {
    if all == [] then []
    else if Applies(all[0], r, record, o) then [all[0]] + Applicable(all[1..], r, record, o)
    else Applicable(all[1..], r, record, o)
  }

  function AllRejections(lifecycle: Lifecycle): seq<Rejection> {
    [Lifecycle(lifecycle), Unavailable, Unhealthy, Memory, Disk, Occupied, Labels]
  }

  lemma RejectionsAreListed(lifecycle: Lifecycle, x: Rejection)
    ensures x in AllRejections(lifecycle) <==> (x.Lifecycle? ==> x.name == lifecycle)
  {
    var all := AllRejections(lifecycle);
    assert all[0] == Lifecycle(lifecycle) && all[1] == Unavailable && all[2] == Unhealthy && all[3] == Memory;
    assert all[4] == Disk && all[5] == Occupied && all[6] == Labels;
  }

  /** Every objection to a node, in the order in which they are examined. */
  function Rejections(r: Requirement, record: Record, o: Observation): seq<Rejection> {
    Applicable(AllRejections(record.lifecycle), r, record, o)
  }

  /** The objections are those that apply, and a node without one meets the requirement. */
  lemma RejectionsExplain(r: Requirement, record: Record, o: Observation)
    ensures forall x :: x in Rejections(r, record, o) <==>
            Applies(x, r, record, o) && (x.Lifecycle? ==> x.name == record.lifecycle)
    ensures Rejections(r, record, o) == [] <==> Meets(r, record, o)
  {
    var why := Rejections(r, record, o);
    forall x ensures x in why <==> Applies(x, r, record, o) && (x.Lifecycle? ==> x.name == record.lifecycle) {
      RejectionsAreListed(record.lifecycle, x);
    }
    if why == [] {
      assert Lifecycle(record.lifecycle) !in why && Unavailable !in why && Unhealthy !in why && Memory !in why;
      assert Disk !in why && Occupied !in why && Labels !in why;
    } else {
      assert why[0] in why;
    }
  }

  function Candidates(r: Requirement, fleet: Fleet, observed: Observed): set<Name>
    requires fleet.Keys == observed.Keys
  {
    set n | n in fleet && Meets(r, fleet[n], observed[n])
  }

  // ---- the order of candidates -------------------------------------------------------

  /** The position of a node among the preferred ones; the others share the last rank. */
  function Rank(preferred: seq<Name>, n: Name): (k: nat)
    ensures k <= |preferred| && (k < |preferred| <==> n in preferred)
    ensures k < |preferred| ==> preferred[k] == n
  {
    if preferred == [] then 0 else if preferred[0] == n then 0 else 1 + Rank(preferred[1..], n)
  }

  predicate Precedes(preferred: seq<Name>, a: Name, b: Name) {
    Rank(preferred, a) < Rank(preferred, b) || (Rank(preferred, a) == Rank(preferred, b) && a < b)
  }

  ghost predicate InOrder(preferred: seq<Name>, s: seq<Name>) {
    forall i, j :: 0 <= i < j < |s| ==> Precedes(preferred, s[i], s[j])
  }

  ghost predicate IsFirst(preferred: seq<Name>, m: Name, s: set<Name>) {
    m in s && forall y :: y in s && y != m ==> Precedes(preferred, m, y)
  }

  lemma {:induction false} FirstExists(preferred: seq<Name>, s: set<Name>)
    requires s != {}
    ensures exists m :: IsFirst(preferred, m, s)
  {
    var x :| x in s;
    var rest := s - {x};
    assert s == rest + {x};
    if rest == {} {
      assert IsFirst(preferred, x, s);
    } else {
      FirstExists(preferred, rest);
      var m :| IsFirst(preferred, m, rest);
      assert IsFirst(preferred, if Precedes(preferred, x, m) then x else m, s);
    }
  }

  /** A set of nodes, repeatedly taking the one that precedes all others. */
  ghost function Ranked(preferred: seq<Name>, s: set<Name>): seq<Name> {
    if s == {} then [] else
      FirstExists(preferred, s);
      var m :| IsFirst(preferred, m, s);
      [m] + Ranked(preferred, s - {m})
  }

  lemma Prepend(preferred: seq<Name>, n: Name, s: seq<Name>)
    requires InOrder(preferred, s) && forall x :: x in s ==> Precedes(preferred, n, x)
    ensures InOrder(preferred, [n] + s)
  {
  }

  lemma {:induction false} RankedIsInOrder(preferred: seq<Name>, s: set<Name>)
    ensures InOrder(preferred, Ranked(preferred, s)) && |Ranked(preferred, s)| == |s|
    ensures Elements(Ranked(preferred, s)) == s
  {
    if s != {} {
      var ranked := Ranked(preferred, s);
      var m := ranked[0];
      RankedIsInOrder(preferred, s - {m});
      assert ranked == [m] + Ranked(preferred, s - {m});
      assert Elements(ranked) == {m} + Elements(Ranked(preferred, s - {m}));
      assert forall x :: x in Ranked(preferred, s - {m}) ==> x in Elements(Ranked(preferred, s - {m}));
      Prepend(preferred, m, Ranked(preferred, s - {m}));
    }
  }

  lemma NoElements(s: seq<Name>)
    ensures Elements(s) == {} <==> s == []
  {
    if s != [] { assert s[0] in Elements(s); }
  }

  lemma TailElements(preferred: seq<Name>, s: seq<Name>)
    requires InOrder(preferred, s) && s != []
    ensures Elements(s[1..]) == Elements(s) - {s[0]} && InOrder(preferred, s[1..])
  {
    forall x | x in Elements(s) && x != s[0] ensures x in s[1..] {
      var i :| 0 <= i < |s| && s[i] == x;
      assert s[1..][i - 1] == x;
    }
  }

  /** There is only one way to put a set of nodes in order. */
  lemma {:induction false} OrderIsUnique(preferred: seq<Name>, s: seq<Name>, t: seq<Name>)
    requires InOrder(preferred, s) && InOrder(preferred, t) && Elements(s) == Elements(t)
    ensures s == t
  {
    NoElements(s);
    NoElements(t);
    if s != [] {
      assert s[0] in Elements(t);
      assert t[0] in Elements(s);
      assert s[0] == t[0];
      TailElements(preferred, s);
      TailElements(preferred, t);
      OrderIsUnique(preferred, s[1..], t[1..]);
    }
  }

  // ---- the outcome of planning ---------------------------------------------------------

  predicate AcceptedGroup(nodes: seq<Name>, t: Topology) {
    exists i :: 0 <= i < |t.links| && t.links[i].accepted && t.links[i].rdma && Elements(nodes) <= t.links[i].endpoints
  }

  function ReasonFor(r: Requirement, record: Record, o: Observation): (reason: Reason)
    ensures reason.Eligible? <==> Meets(r, record, o)
  {
    RejectionsExplain(r, record, o);
    var why := Rejections(r, record, o);
    if why == [] then Eligible else Rejected(why)
  }

  function Explained(r: Requirement, fleet: Fleet, observed: Observed, selected: seq<Name>): map<Name, Reason>
    requires fleet.Keys == observed.Keys
  {
    map n | n in fleet :: if n in selected then Selected else ReasonFor(r, fleet[n], observed[n])
  }

  /** The outcome for the candidates in their order. */
  function Decided(r: Requirement, fleet: Fleet, t: Topology, observed: Observed, ranked: seq<Name>): Outcome
    requires fleet.Keys == observed.Keys
  {
    if |ranked| < r.nodeCount then Refused(InsufficientNodes)
    else
      var selected := ranked[..r.nodeCount];
      if r.distributed && !AcceptedGroup(selected, t) then Refused(NoAcceptedTopology)
      else Placed(selected, Explained(r, fleet, observed, selected))
  }

  /** The choice of nodes, once the inputs fit together. */
  ghost function ChoiceFor(r: Requirement, fleet: Fleet, t: Topology, observed: Observed): Outcome
    requires fleet.Keys == observed.Keys
  {
    Decided(r, fleet, t, observed, Ranked(r.preferred, Candidates(r, fleet, observed)))
  }

  ghost function PlanFor(r: Requirement, fleet: Fleet, t: Topology, observed: Observed): Outcome {
    if r.distributed && !r.supportsDistributed then Refused(DistributedUnsupported)
    else if !t.wellFormed then Refused(InvalidTopology)
    else if t.nodes != fleet.Keys then Refused(TopologyMismatch)
    else if observed.Keys != fleet.Keys then Refused(ObservationsMismatch)
    else if exists n :: n in r.preferred && n !in fleet then Refused(UnknownPreference)
    else ChoiceFor(r, fleet, t, observed)
  }

  /** `nodes` come from `s`, in order, and precede all the others in it. */
  ghost predicate Leads(preferred: seq<Name>, s: set<Name>, nodes: seq<Name>) {
    && Distinct(nodes) && InOrder(preferred, nodes) && (forall n :: n in nodes ==> n in s)
    && forall n, m :: n in nodes && m in s && m !in nodes ==> Precedes(preferred, n, m)
  }

  lemma RankedLeads(preferred: seq<Name>, s: set<Name>, k: nat)
    requires k <= |Ranked(preferred, s)|
    ensures Leads(preferred, s, Ranked(preferred, s)[..k])
  {
    var ranked := Ranked(preferred, s);
    var nodes := ranked[..k];
    RankedIsInOrder(preferred, s);
    assert forall n :: n in nodes ==> n in Elements(ranked);
    assert forall j :: 0 <= j < k ==> ranked[j] in nodes;
    forall n, m | n in nodes && m in s && m !in nodes ensures Precedes(preferred, n, m) {
      assert m in Elements(ranked);
      var i :| 0 <= i < k && ranked[i] == n;
      var j :| 0 <= j < |ranked| && ranked[j] == m;
    }
  }

  /** A plan names the first nodes, in order, among those that meet the requirement, and
      a group of them shares an accepted link. */
  lemma PlacedAreFirst(r: Requirement, fleet: Fleet, t: Topology, observed: Observed)
    requires PlanFor(r, fleet, t, observed).Placed?
    ensures fleet.Keys == observed.Keys
    ensures var nodes := PlanFor(r, fleet, t, observed).nodes;
            && |nodes| == r.nodeCount && Leads(r.preferred, Candidates(r, fleet, observed), nodes)
            && (r.distributed ==> AcceptedGroup(nodes, t))
  {
    RankedLeads(r.preferred, Candidates(r, fleet, observed), r.nodeCount);
  }

  lemma {:induction false} DistinctSize(s: seq<Name>)
    requires Distinct(s)
    ensures |Elements(s)| == |s|
  {
    if s != [] {
      var last := |s| - 1;
      DistinctSize(s[..last]);
      assert Elements(s) == Elements(s[..last]) + {s[last]};
    }
  }

  lemma Unmatched(a: set<Name>, b: set<Name>, n: Name) returns (m: Name)
    requires |a| == |b| && n in a && n !in b
    ensures m in b && m !in a
  {
    if b <= a { SubsetOfSameSize(b, a); }
    m :| m in b && m !in a;
  }

  lemma OneWay(preferred: seq<Name>, n: Name, m: Name)
    ensures !Precedes(preferred, n, m) || !Precedes(preferred, m, n)
  {
  }

  lemma LeadersAreShared(preferred: seq<Name>, s: set<Name>, a: seq<Name>, b: seq<Name>)
    requires Leads(preferred, s, a) && Leads(preferred, s, b) && |Elements(a)| == |Elements(b)|
    ensures Elements(a) <= Elements(b)
  {
    forall n | n in Elements(a) ensures n in Elements(b) {
      if n !in Elements(b) {
        var m := Unmatched(Elements(a), Elements(b), n);
        OneWay(preferred, n, m);
      }
    }
  }

  /** Only one sequence of a given length leads a set. */
  lemma LeadersAreUnique(preferred: seq<Name>, s: set<Name>, a: seq<Name>, b: seq<Name>)
    requires Leads(preferred, s, a) && Leads(preferred, s, b) && |a| == |b|
    ensures a == b
  {
    DistinctSize(a);
    DistinctSize(b);
    LeadersAreShared(preferred, s, a, b);
    LeadersAreShared(preferred, s, b, a);
    OrderIsUnique(preferred, a, b);
  }

  lemma {:induction false} RankAt(preferred: seq<Name>, k: nat)
    requires Distinct(preferred) && k < |preferred|
    ensures Rank(preferred, preferred[k]) == k
  {
    var j := Rank(preferred, preferred[k]);
    assert preferred[j] == preferred[k];
  }

  lemma NextPreferred(preferred: seq<Name>, s: seq<Name>, k: nat)
    requires Distinct(preferred) && InOrder(preferred, s) && k < |preferred| && k < |s| && preferred[k] in s
    requires forall x :: 0 <= x < k ==> s[x] == preferred[x]
    ensures s[k] == preferred[k]
  {
    var i :| 0 <= i < |s| && s[i] == preferred[k];
    RankAt(preferred, k);
    assert i > k ==> Precedes(preferred, s[k], s[i]);
    var j := Rank(preferred, s[k]);
    assert forall x :: 0 <= x < k ==> Precedes(preferred, s[x], s[k]);
  }

  /** In an ordered sequence that holds every preferred node, they come first. */
  lemma {:induction false} PreferredLead(preferred: seq<Name>, s: seq<Name>, k: nat)
    requires Distinct(preferred) && InOrder(preferred, s) && k <= |preferred| <= |s|
    requires forall n :: n in preferred ==> n in s
    requires s[..k] == preferred[..k]
    ensures s[..|preferred|] == preferred
    decreases |preferred| - k
  {
    if k < |preferred| {
      assert forall x :: 0 <= x < k ==> s[x] == s[..k][x] == preferred[x];
      NextPreferred(preferred, s, k);
      assert s[..k + 1] == preferred[..k + 1];
      PreferredLead(preferred, s, k + 1);
    } else {
      assert preferred[..k] == preferred;
    }
  }

  /** A requirement with as many preferred nodes as it needs gets exactly those, in their
      order, if and only if all of them meet it. */
  lemma PreferredAreChosen(r: Requirement, fleet: Fleet, observed: Observed)
    requires Distinct(r.preferred) && |r.preferred| == r.nodeCount && fleet.Keys == observed.Keys
    requires |Ranked(r.preferred, Candidates(r, fleet, observed))| >= r.nodeCount
    ensures Ranked(r.preferred, Candidates(r, fleet, observed))[..r.nodeCount] == r.preferred <==>
            forall n :: n in r.preferred ==> n in fleet && Meets(r, fleet[n], observed[n])
  {
    var candidates := Candidates(r, fleet, observed);
    var ranked := Ranked(r.preferred, candidates);
    RankedIsInOrder(r.preferred, candidates);
    if ranked[..r.nodeCount] == r.preferred {
      forall n | n in r.preferred ensures n in candidates { assert n in Elements(ranked); }
    }
    if forall n :: n in r.preferred ==> n in candidates {
      PreferredLead(r.preferred, ranked, 0);
    }
  }

  /** Then the plan names them, provided the inputs fit and a group has its link. */
  lemma PlannedAsPreferred(r: Requirement, fleet: Fleet, t: Topology, observed: Observed)
    requires Distinct(r.preferred) && |r.preferred| == r.nodeCount
    requires t.wellFormed && t.nodes == fleet.Keys == observed.Keys
    requires r.distributed ==> r.supportsDistributed && AcceptedGroup(r.preferred, t)
    requires forall n :: n in r.preferred ==> n in fleet && Meets(r, fleet[n], observed[n])
    ensures PlanFor(r, fleet, t, observed) == Placed(r.preferred, Explained(r, fleet, observed, r.preferred))
  {
    var candidates := Candidates(r, fleet, observed);
    RankedIsInOrder(r.preferred, candidates);
    DistinctSize(r.preferred);
    SubsetOfSameSize(Elements(r.preferred), candidates);
    PreferredAreChosen(r, fleet, observed);
  }

  // ---- observations ---------------------------------------------------------------------

  ghost predicate OneEach(observations: seq<Observation>) {
    forall i, j :: 0 <= i < j < |observations| ==> observations[i].node != observations[j].node
  }

  /** The dictionary from node to observation; a later one replaces an earlier one. */
  function ByNode(observations: seq<Observation>): Observed {
    if observations == [] then map[] else
      var last := |observations| - 1;
      ByNode(observations[..last])[observations[last].node := observations[last]]
  }

  lemma {:induction false} ByNodeLooksUp(observations: seq<Observation>)
    requires OneEach(observations)
    ensures forall n, o :: n in ByNode(observations) && ByNode(observations)[n] == o <==>
            o in observations && o.node == n
  {
    if observations != [] {
      var last := |observations| - 1;
      ByNodeLooksUp(observations[..last]);
      assert observations == observations[..last] + [observations[last]];
      assert forall o :: o in observations[..last] ==> o.node != observations[last].node;
    }
  }

  lemma Twice<T>(s: seq<T>, i: nat, j: nat)
    requires i < j < |s| && s[i] == s[j]
    ensures multiset(s)[s[i]] >= 2
  {
    assert s == s[..j] + s[j..];
    assert s[i] in multiset(s[..j]) by { assert s[..j][i] == s[i]; }
    assert s[j] in multiset(s[j..]) by { assert s[j..][0] == s[j]; }
  }

  lemma {:induction false} AtMostOnce<T>(s: seq<T>, x: T)
    requires Distinct(s)
    ensures multiset(s)[x] <= 1
  {
    if s != [] {
      var last := |s| - 1;
      AtMostOnce(s[..last], x);
      assert s == s[..last] + [s[last]];
      assert s[last] !in s[..last];
      assert multiset(s)[x] == multiset(s[..last])[x] + multiset([s[last]])[x];
    }
  }

  lemma StillOneEach(s: seq<Observation>, t: seq<Observation>, i: nat, j: nat)
    requires OneEach(s) && multiset(s) == multiset(t) && i < j < |t|
    ensures t[i].node != t[j].node
  {
    if t[i] == t[j] {
      Twice(t, i, j);
      AtMostOnce(s, t[i]);
    } else {
      assert t[i] in multiset(s) && t[j] in multiset(s);
    }
  }

  lemma StillFound(s: seq<Observation>, t: seq<Observation>, n: Name)
    requires OneEach(s) && OneEach(t) && (forall o :: o in s ==> o in t) && n in ByNode(s)
    ensures n in ByNode(t) && ByNode(t)[n] == ByNode(s)[n]
  {
    ByNodeLooksUp(s);
    ByNodeLooksUp(t);
    assert ByNode(s)[n] in t;
  }

  /** Reordering the observations changes nothing that planning looks at. */
  lemma OrderOfObservations(s: seq<Observation>, t: seq<Observation>)
    requires OneEach(s) && multiset(s) == multiset(t)
    ensures OneEach(t) && ByNode(s) == ByNode(t)
  {
    forall i, j | 0 <= i < j < |t| ensures t[i].node != t[j].node { StillOneEach(s, t, i, j); }
    forall o ensures o in s <==> o in t { assert o in s <==> o in multiset(s); }
    forall n | n in ByNode(s) ensures n in ByNode(t) && ByNode(t)[n] == ByNode(s)[n] { StillFound(s, t, n); }
    forall n | n in ByNode(t) ensures n in ByNode(s) { StillFound(t, s, n); }
  }

  // ---- when there is a plan ---------------------------------------------------------------

  /** What a node must be and offer, from its record and its observation. */
  ghost predicate Offers(r: Requirement, record: Record, o: Observation) {
    && record.lifecycle == Ready && o.available && o.healthy
    && o.memory >= r.minMemory && o.disk >= r.minDisk && (o.occupied ==> !r.exclusive)
    && forall k :: k in r.requiredLabels ==> k in record.labels && record.labels[k] == r.requiredLabels[k]
  }

  ghost predicate SuitableNode(r: Requirement, fleet: Fleet, observations: seq<Observation>, n: Name) {
    n in fleet && exists o :: o in observations && o.node == n && Offers(r, fleet[n], o)
  }

  ghost function SuitableNodes(r: Requirement, fleet: Fleet, observations: seq<Observation>): set<Name> {
    set n | n in fleet && SuitableNode(r, fleet, observations, n)
  }

  /** `a` is preferred to `b`, or neither is listed and `a` has the lower ID. */
  ghost predicate PreferredTo(preferred: seq<Name>, a: Name, b: Name) {
    || (exists i :: 0 <= i < |preferred| && preferred[i] == a && b !in preferred[..i + 1])
    || (a !in preferred && b !in preferred && a < b)
  }

  /** The first of `s` by preference, in their order. */
  ghost predicate FirstOf(preferred: seq<Name>, s: set<Name>, nodes: seq<Name>) {
    && (forall n :: n in nodes ==> n in s)
    && (forall i, j :: 0 <= i < j < |nodes| ==> PreferredTo(preferred, nodes[i], nodes[j]))
    && (forall n, m :: n in nodes && m in s && m !in nodes ==> PreferredTo(preferred, n, m))
  }

  lemma PrecedesByPreference(preferred: seq<Name>, a: Name, b: Name)
    requires Distinct(preferred)
    ensures Precedes(preferred, a, b) <==> PreferredTo(preferred, a, b)
  {
    var i, j := Rank(preferred, a), Rank(preferred, b);
    if i < |preferred| && j < |preferred| {
      assert b in preferred[..i + 1] <==> j <= i by {
        assert j <= i ==> preferred[..i + 1][j] == b;
      }
    }
    assert forall x :: 0 <= x < |preferred| && preferred[x] == a ==> x == i;
    assert b in preferred[..if i < |preferred| then i + 1 else i] ==> b in preferred;
  }

  lemma FirstLead(preferred: seq<Name>, s: set<Name>, nodes: seq<Name>)
    requires Distinct(preferred)
    ensures FirstOf(preferred, s, nodes) <==> Leads(preferred, s, nodes)
  {
    forall a, b ensures Precedes(preferred, a, b) <==> PreferredTo(preferred, a, b) {
      PrecedesByPreference(preferred, a, b);
    }
  }

  lemma SuitableAreCandidates(r: Requirement, fleet: Fleet, observations: seq<Observation>)
    requires OneEach(observations) && ByNode(observations).Keys == fleet.Keys
    ensures SuitableNodes(r, fleet, observations) == Candidates(r, fleet, ByNode(observations))
  {
    var observed := ByNode(observations);
    ByNodeLooksUp(observations);
    forall n | n in fleet
      ensures SuitableNode(r, fleet, observations, n) <==> Meets(r, fleet[n], observed[n])
    {
      assert observed[n] in observations && observed[n].node == n;
      assert Meets(r, fleet[n], observed[n]) <==> Offers(r, fleet[n], observed[n]);
    }
  }

  /** One accepted RDMA link reaches all of these nodes. */
  ghost predicate Linked(t: Topology, nodes: seq<Name>) {
    exists l :: l in t.links && l.accepted && l.rdma && forall n :: n in nodes ==> n in l.endpoints
  }

  lemma LinkedIsAccepted(t: Topology, nodes: seq<Name>)
    ensures AcceptedGroup(nodes, t) <==> Linked(t, nodes)
  {
    forall l: Link ensures Elements(nodes) <= l.endpoints <==> forall n :: n in nodes ==> n in l.endpoints {
      assert forall n :: n in nodes <==> n in Elements(nodes);
    }
    if Linked(t, nodes) {
      var l :| l in t.links && l.accepted && l.rdma && forall n :: n in nodes ==> n in l.endpoints;
      var i :| 0 <= i < |t.links| && t.links[i] == l;
    }
  }

  /** Topology, observations and preferences are about the nodes of the fleet, and a group
      is wanted only of a model that can be distributed. */
  ghost predicate Fits(r: Requirement, fleet: Fleet, t: Topology, observations: seq<Observation>) {
    && t.wellFormed && t.nodes == fleet.Keys && OneEach(observations)
    && (forall n :: n in fleet <==> exists o :: o in observations && o.node == n)
    && (forall n :: n in r.preferred ==> n in fleet)
    && (r.distributed ==> r.supportsDistributed)
  }

  /** What does not fit, by the refusal that names it. */
  ghost predicate Unfit(why: Refusal, r: Requirement, fleet: Fleet, t: Topology, observations: seq<Observation>) {
    match why
    case DistributedUnsupported => r.distributed && !r.supportsDistributed
    case InvalidTopology => !t.wellFormed
    case TopologyMismatch => t.nodes != fleet.Keys
    case DuplicateObservation => !OneEach(observations)
    case ObservationsMismatch => exists n :: n in fleet <==> forall o :: o in observations ==> o.node != n
    case UnknownPreference => exists n :: n in r.preferred && n !in fleet
    case _ => false
  }

  /** The right outcome for `nodes`, the first suitable ones and as many as are wanted: the
      plan names them, unless they are a group without a link. */
  ghost predicate RightFor(r: Requirement, fleet: Fleet, t: Topology, s: set<Name>, nodes: seq<Name>, o: Outcome) {
    if r.distributed && !Linked(t, nodes) then o == Refused(NoAcceptedTopology)
    else
      && o.Placed? && o.nodes == nodes && o.reasons.Keys == fleet.Keys
      && forall n :: n in fleet ==>
           (o.reasons[n] == Selected <==> n in nodes) && (o.reasons[n] == Eligible <==> n in s && n !in nodes)
  }

  /** The outcome in every case, from the inputs alone. */
  ghost predicate RightOutcome(r: Requirement, fleet: Fleet, t: Topology, observations: seq<Observation>, o: Outcome) {
    if !Fits(r, fleet, t, observations) then o.Refused? && Unfit(o.why, r, fleet, t, observations)
    else
      var s := SuitableNodes(r, fleet, observations);
      if |s| < r.nodeCount then o == Refused(InsufficientNodes)
      else
        && (exists nodes :: FirstOf(r.preferred, s, nodes) && |nodes| == r.nodeCount)
        && forall nodes :: FirstOf(r.preferred, s, nodes) && |nodes| == r.nodeCount ==>
             RightFor(r, fleet, t, s, nodes, o)
  }

  lemma ObservedFits(fleet: Fleet, observations: seq<Observation>)
    requires OneEach(observations)
    ensures ByNode(observations).Keys == fleet.Keys <==>
            forall n :: n in fleet <==> exists o :: o in observations && o.node == n
  {
    var observed := ByNode(observations);
    ByNodeLooksUp(observations);
    forall n ensures n in observed <==> exists o :: o in observations && o.node == n {
      if n in observed { assert observed[n] in observations && observed[n].node == n; }
    }
    if forall n :: n in fleet <==> exists o :: o in observations && o.node == n {
      assert forall n :: n in fleet <==> n in observed;
    }
  }

  lemma ChoiceIsRight(r: Requirement, fleet: Fleet, t: Topology, observations: seq<Observation>, nodes: seq<Name>)
    requires Distinct(r.preferred) && OneEach(observations) && ByNode(observations).Keys == fleet.Keys
    requires FirstOf(r.preferred, SuitableNodes(r, fleet, observations), nodes) && |nodes| == r.nodeCount
    requires |SuitableNodes(r, fleet, observations)| >= r.nodeCount
    ensures RightFor(r, fleet, t, SuitableNodes(r, fleet, observations), nodes,
                     ChoiceFor(r, fleet, t, ByNode(observations)))
  {
    var s := Candidates(r, fleet, ByNode(observations));
    var ranked := Ranked(r.preferred, s);
    SuitableAreCandidates(r, fleet, observations);
    RankedIsInOrder(r.preferred, s);
    RankedLeads(r.preferred, s, r.nodeCount);
    FirstLead(r.preferred, s, nodes);
    LeadersAreUnique(r.preferred, s, nodes, ranked[..r.nodeCount]);
    LinkedIsAccepted(t, nodes);
  }

  /** Exactly when there is a plan, and which: whenever the inputs fit, it is refused for
      want of nodes if and only if fewer are suitable than are wanted. */
  lemma PlanExactlyWhen(r: Requirement, fleet: Fleet, t: Topology, observations: seq<Observation>)
    requires Distinct(r.preferred) && OneEach(observations)
    ensures RightOutcome(r, fleet, t, observations, PlanFor(r, fleet, t, ByNode(observations)))
  {
    ObservedFits(fleet, observations);
    if Fits(r, fleet, t, observations) {
      var s := SuitableNodes(r, fleet, observations);
      var ranked := Ranked(r.preferred, s);
      SuitableAreCandidates(r, fleet, observations);
      RankedIsInOrder(r.preferred, s);
      if |s| >= r.nodeCount {
        RankedLeads(r.preferred, s, r.nodeCount);
        FirstLead(r.preferred, s, ranked[..r.nodeCount]);
        forall nodes | FirstOf(r.preferred, s, nodes) && |nodes| == r.nodeCount
          ensures RightFor(r, fleet, t, s, nodes, PlanFor(r, fleet, t, ByNode(observations)))
        {
          ChoiceIsRight(r, fleet, t, observations, nodes);
        }
      }
    }
  }
}
