/** The order in which a switch visits workloads, and the commands it issues. */
module SwitchPlan {
  import opened Options
  import opened Names
  import opened Contracts
  import opened ClusterWorld

  // ---- workload order -------------------------------------------------------

  function Visited(p: ClusterProfile, reverse: bool): seq<Name> {
    if reverse then SortedSeq(p.placements.Keys) else Reverse(SortedSeq(p.placements.Keys))
  }

  function Values(p: ClusterProfile, node: Name, reverse: bool): seq<Name>
    requires node in p.placements
  {
    if reverse then Reverse(p.placements[node]) else p.placements[node]
  }

  function Walk(p: ClusterProfile, nodes: seq<Name>, reverse: bool): seq<Name>
    requires Elements(nodes) <= p.placements.Keys
  {
    if nodes == [] then [] else
      var last := |nodes| - 1;
      assert nodes[last] in Elements(nodes) && Elements(nodes[..last]) <= Elements(nodes);
      Walk(p, nodes[..last], reverse) + Values(p, nodes[last], reverse)
  }

  lemma VisitedElements(p: ClusterProfile, reverse: bool)
    ensures Elements(Visited(p, reverse)) == p.placements.Keys
  {
    SortedSeqSorts(p.placements.Keys);
    ReverseElements(SortedSeq(p.placements.Keys));
  }

  /** The workloads of a profile, each at its first visit. */
  function Order(p: ClusterProfile, reverse: bool): seq<Name> {
    VisitedElements(p, reverse);
    FirstOccurrences(Walk(p, Visited(p, reverse), reverse))
  }

  lemma {:induction false} WalkElements(p: ClusterProfile, nodes: seq<Name>, reverse: bool, w: Name)
    requires Elements(nodes) <= p.placements.Keys
    ensures w in Walk(p, nodes, reverse) <==> exists n :: n in nodes && w in p.placements[n]
  {
    if nodes != [] {
      var last := |nodes| - 1;
      assert nodes[last] in Elements(nodes) && Elements(nodes[..last]) <= Elements(nodes);
      WalkElements(p, nodes[..last], reverse, w);
      ReverseElements(p.placements[nodes[last]]);
      assert w in Values(p, nodes[last], reverse) <==> w in Elements(p.placements[nodes[last]]);
      assert nodes == nodes[..last] + [nodes[last]];
    }
  }

  /** Both orders visit every workload of the profile exactly once. */
  lemma OrderIsComplete(p: ClusterProfile, reverse: bool)
    ensures Distinct(Order(p, reverse))
    ensures forall w :: w in Order(p, reverse) <==> w in ProfileDefinitions(p)
  {
    VisitedElements(p, reverse);
    var nodes := Visited(p, reverse);
    FirstOccurrencesKeepEach(Walk(p, nodes, reverse));
    forall w ensures w in Order(p, reverse) <==> w in ProfileDefinitions(p) {
      WalkElements(p, nodes, reverse, w);
      assert forall n :: n in p.placements <==> n in Elements(nodes);
    }
  }

  lemma ElementsOfBoth(a: seq<Name>, b: seq<Name>)
    ensures Elements(a + b) == Elements(a) + Elements(b)
  {
  }

  lemma {:induction false} WalkConcat(p: ClusterProfile, a: seq<Name>, b: seq<Name>, reverse: bool)
    requires Elements(a) <= p.placements.Keys && Elements(b) <= p.placements.Keys
    ensures Elements(a + b) <= p.placements.Keys
    ensures Walk(p, a + b, reverse) == Walk(p, a, reverse) + Walk(p, b, reverse)
  {
    ElementsOfBoth(a, b);
    if b == [] {
      assert a + b == a;
    } else {
      var last := |b| - 1;
      assert b[last] in Elements(b) && Elements(b[..last]) <= Elements(b);
      WalkConcat(p, a, b[..last], reverse);
      assert (a + b)[..|a + b| - 1] == a + b[..last];
    }
  }

  lemma {:induction false} ReverseConcat<T>(a: seq<T>, b: seq<T>)
    ensures Reverse(a + b) == Reverse(b) + Reverse(a)
  {
  }

  lemma {:induction false} WalkReverses(p: ClusterProfile, nodes: seq<Name>)
    requires Elements(nodes) <= p.placements.Keys
    ensures Elements(Reverse(nodes)) <= p.placements.Keys
    ensures Walk(p, Reverse(nodes), true) == Reverse(Walk(p, nodes, false))
  {
    ReverseElements(nodes);
    if nodes != [] {
      var last := |nodes| - 1;
      var init, end := nodes[..last], nodes[last];
      assert end in Elements(nodes) && Elements(init) <= Elements(nodes);
      WalkReverses(p, init);
      assert nodes == init + [end];
      ReverseConcat(init, [end]);
      assert Reverse([end]) == [end];
      WalkConcat(p, [end], Reverse(init), true);
      assert Walk(p, [end], true) == Reverse(p.placements[end]) by { assert [end][..0] == []; }
      ReverseConcat(Walk(p, init, false), p.placements[end]);
    }
  }

  lemma VisitedBackwards(p: ClusterProfile)
    ensures Visited(p, true) == Reverse(Visited(p, false))
  {
    var sorted := SortedSeq(p.placements.Keys);
    var back := Reverse(sorted);
    forall i | 0 <= i < |sorted| ensures Reverse(back)[i] == sorted[i] {
      assert back[|sorted| - 1 - i] == sorted[i];
    }
  }

  /** Stopping walks the cluster exactly backwards from starting. */
  lemma StopWalkReversesStartWalk(p: ClusterProfile)
    ensures Elements(Visited(p, true)) == Elements(Visited(p, false)) == p.placements.Keys
    ensures Walk(p, Visited(p, true), true) == Reverse(Walk(p, Visited(p, false), false))
  {
    VisitedElements(p, true);
    VisitedElements(p, false);
    VisitedBackwards(p);
    WalkReverses(p, Visited(p, false));
  }

  // ---- who is started before whom ---------------------------------------------

  lemma {:induction false} FirstsGrow(a: seq<Name>, b: seq<Name>)
    ensures FirstOccurrences(a) <= FirstOccurrences(a + b)
  {
    if b == [] {
      assert a + b == a;
    } else {
      assert (a + b)[..|a + b| - 1] == a + b[..|b| - 1];
      FirstsGrow(a, b[..|b| - 1]);
    }
  }

  /** The node places `x`, and not `y` anywhere in front of it. */
  ghost predicate ListedBefore(listed: seq<Name>, x: Name, y: Name) {
    exists k :: 0 <= k < |listed| && listed[k] == x && y !in listed[..k]
  }

  /** What `b` adds to the first occurrences in `a`, it adds in its own order. */
  lemma {:induction false} AddedInOrder(a: seq<Name>, b: seq<Name>, i: nat, j: nat)
    requires |FirstOccurrences(a)| <= i < j < |FirstOccurrences(a + b)|
    ensures ListedBefore(b, FirstOccurrences(a + b)[i], FirstOccurrences(a + b)[j])
  {
    var all := FirstOccurrences(a + b);
    assert b == [] ==> a + b == a;
    if b != [] {
      var init, last := b[..|b| - 1], b[|b| - 1];
      assert (a + b)[..|a + b| - 1] == a + init;
      var before := FirstOccurrences(a + init);
      FirstOccurrencesKeepEach(a + init);
      FirstOccurrencesKeepEach(a);
      FirstOccurrencesKeepEach(a + b);
      FirstsGrow(a, init);
      if j < |before| {
        AddedInOrder(a, init, i, j);
        var k :| 0 <= k < |init| && init[k] == all[i] && all[j] !in init[..k];
        assert b[k] == all[i] && b[..k] == init[..k];
      } else {
        assert all == before + [last] && all[j] == last && last !in before;
        assert all[i] !in a by {
          if all[i] in a { NotAddedTwice(a, init, i); }
        }
        assert all[i] in before && all[i] in a + init;
        var k :| 0 <= k < |init| && init[k] == all[i];
        assert forall x :: x in init[..k] ==> x in a + init;
        assert b[k] == all[i] && b[..k] == init[..k];
      }
    }
  }

  lemma NotAddedTwice(a: seq<Name>, b: seq<Name>, i: nat)
    requires |FirstOccurrences(a)| <= i < |FirstOccurrences(a + b)|
    ensures FirstOccurrences(a + b)[i] !in a
  {
    FirstsGrow(a, b);
    FirstOccurrencesKeepEach(a);
    FirstOccurrencesKeepEach(a + b);
    assert forall x :: x in a <==> x in FirstOccurrences(a);
  }

  /** Among these nodes, `x` is placed on one that is no lower than any that places `y`,
      and in front of it there. */
  ghost predicate ComesFirst(p: ClusterProfile, nodes: seq<Name>, x: Name, y: Name) {
    exists n :: n in nodes && n in p.placements && ListedBefore(p.placements[n], x, y)
                && forall m :: m in nodes && m in p.placements && y in p.placements[m] ==> m <= n
  }

  lemma {:induction false} WalkedDownwards(p: ClusterProfile, nodes: seq<Name>, i: nat, j: nat)
    requires Elements(nodes) <= p.placements.Keys && forall a, b :: 0 <= a < b < |nodes| ==> nodes[a] > nodes[b]
    requires i < j < |FirstOccurrences(Walk(p, nodes, false))|
    ensures var order := FirstOccurrences(Walk(p, nodes, false));
            ComesFirst(p, nodes, order[i], order[j])
  {
    if nodes != [] {
      var last := |nodes| - 1;
      var init, low := nodes[..last], nodes[last];
      assert low in Elements(nodes) && Elements(init) <= Elements(nodes);
      assert forall m :: m in nodes <==> m in init || m == low;
      var a, b := Walk(p, init, false), p.placements[low];
      var before, order := FirstOccurrences(a), FirstOccurrences(a + b);
      var x, y := order[i], order[j];
      FirstsGrow(a, b);
      FirstOccurrencesKeepEach(a);
      if j < |before| {
        WalkedDownwards(p, init, i, j);
        var n :| n in init && n in p.placements && ListedBefore(p.placements[n], x, y)
                 && forall m :: m in init && m in p.placements && y in p.placements[m] ==> m <= n;
        assert low < n;
      } else {
        NotAddedTwice(a, b, j);
        WalkElements(p, init, false, y);
        if i < |before| {
          assert x in a;
          WalkElements(p, init, false, x);
          var n :| n in init && x in p.placements[n];
          assert n in Elements(init) && y !in p.placements[n];
          var k :| 0 <= k < |p.placements[n]| && p.placements[n][k] == x;
          assert ListedBefore(p.placements[n], x, y);
          assert low < n;
        } else {
          AddedInOrder(a, b, i, j);
        }
      }
    }
  }

  lemma VisitedDownwards(p: ClusterProfile)
    ensures forall a, b :: 0 <= a < b < |Visited(p, false)| ==> Visited(p, false)[a] > Visited(p, false)[b]
  {
    SortedSeqSorts(p.placements.Keys);
  }

  /** Starting goes down the nodes: of two workloads, the one started first is placed on a
      node no lower than any of the other's, and on that node it is listed in front. */
  lemma StartsFromTheTop(p: ClusterProfile, i: nat, j: nat)
    requires i < j < |Order(p, false)|
    ensures ComesFirst(p, SortedSeq(p.placements.Keys), Order(p, false)[i], Order(p, false)[j])
  {
    var nodes := Visited(p, false);
    VisitedElements(p, false);
    VisitedDownwards(p);
    WalkedDownwards(p, nodes, i, j);
    SortedSeqSorts(p.placements.Keys);
    assert forall n :: n in nodes <==> n in Elements(nodes);
    assert forall n :: n in SortedSeq(p.placements.Keys) <==> n in nodes;
  }

  lemma WalkSnoc(p: ClusterProfile, nodes: seq<Name>, i: nat, reverse: bool)
    requires Elements(nodes) <= p.placements.Keys && i < |nodes|
    ensures Elements(nodes[..i]) <= p.placements.Keys && Elements(nodes[..i + 1]) <= p.placements.Keys
    ensures nodes[i] in p.placements
    ensures Walk(p, nodes[..i + 1], reverse) == Walk(p, nodes[..i], reverse) + Values(p, nodes[i], reverse)
  {
    assert nodes[i] in Elements(nodes);
    assert forall x :: x in nodes[..i + 1] ==> x in Elements(nodes);
    assert nodes[..i + 1][..i] == nodes[..i];
  }

  method AppendNew(order: seq<Name>, ghost before: seq<Name>, values: seq<Name>) returns (extended: seq<Name>)
    requires order == FirstOccurrences(before)
    ensures extended == FirstOccurrences(before + values)
  {
    extended := order;
    assert before + values[..0] == before;
    for j := 0 to |values|
      invariant extended == FirstOccurrences(before + values[..j])
    {
      assert (before + values[..j + 1])[..|before| + j] == before + values[..j];
      if values[j] !in extended {
        extended := extended + [values[j]];
      }
    }
    assert values[..|values|] == values;
  }

  method WorkloadOrder(profile: ClusterProfile, reverse: bool) returns (order: seq<Name>)
    ensures order == Order(profile, reverse)
  {
    order := [];
    var nodes := Visited(profile, reverse);
    VisitedElements(profile, reverse);
    assert nodes[..0] == [];
    for i := 0 to |nodes|
      invariant Elements(nodes[..i]) <= profile.placements.Keys
      invariant order == FirstOccurrences(Walk(profile, nodes[..i], reverse))
    {
      WalkSnoc(profile, nodes, i, reverse);
      order := AppendNew(order, Walk(profile, nodes[..i], reverse), Values(profile, nodes[i], reverse));
    }
    assert nodes[..|nodes|] == nodes;
  }

  // ---- commands -------------------------------------------------------------

  function Processes(w: Name, nodes: set<Name>): set<Process> {
    set n | n in nodes :: Process(w, n)
  }

  function Succeeded(op: Operation, w: Name, nodes: seq<Name>): seq<Event> {
    seq(|nodes|, i requires 0 <= i < |nodes| => Command(op, w, nodes[i], true))
  }

  datatype Phase = Stopping | Starting | Gating

  /** The commands of one workload in one phase when all of them succeed. */
  function PhaseCommands(phase: Phase, plans: Plans, d: WorkloadDefinition): seq<Event> {
    var starts := OperationNodes(plans, d, Start);
    var stops := OperationNodes(plans, d, Stop);
    if starts.None? || stops.None? || stops.value == [] then []
    else match phase
      case Stopping => Succeeded(Stop, d.id, stops.value) + Succeeded(VerifyRelease, d.id, stops.value)
      case Starting => Succeeded(Verify, d.id, starts.value) + Succeeded(Start, d.id, starts.value)
      case Gating => Succeeded(Health, d.id, starts.value) + [Command(Infer, d.id, stops.value[0], true)]
  }

  /** The commands of a phase over the workloads in `order` that are not skipped. */
  function Sweep(phase: Phase, plans: Plans, definitions: map<Name, WorkloadDefinition>,
                 order: seq<Name>, skip: set<Name>): seq<Event> {
    if order == [] then [] else
      var last := |order| - 1;
      var before := Sweep(phase, plans, definitions, order[..last], skip);
      if order[last] in skip || order[last] !in definitions then before
      else before + PhaseCommands(phase, plans, definitions[order[last]])
  }

  /** One more workload in the order extends the sweep by its own commands. */
  lemma SweepStep(phase: Phase, plans: Plans, definitions: map<Name, WorkloadDefinition>,
                  order: seq<Name>, i: nat, skip: set<Name>, before: seq<Event>)
    requires i < |order| && order[i] in definitions
    ensures var sweep := before + Sweep(phase, plans, definitions, order[..i], skip);
            before + Sweep(phase, plans, definitions, order[..i + 1], skip)
            == if order[i] in skip then sweep else sweep + PhaseCommands(phase, plans, definitions[order[i]])
  {
    assert order[..i + 1][..i] == order[..i];
  }

  function StopCommands(plans: Plans, definitions: map<Name, WorkloadDefinition>,
                        current: Option<ClusterProfile>, retained: set<Name>): seq<Event> {
    if current.None? then [] else Sweep(Stopping, plans, definitions, Order(current.value, true), retained)
  }

  /** Every command of a successful switch after the retained workloads were
      chosen: stop what leaves, start what arrives, then gate everything. */
  function SwitchCommands(plans: Plans, definitions: map<Name, WorkloadDefinition>,
                          current: Option<ClusterProfile>, target: ClusterProfile, retained: set<Name>): seq<Event> {
    StopCommands(plans, definitions, current, retained)
    + Sweep(Starting, plans, definitions, Order(target, false), retained)
    + Sweep(Gating, plans, definitions, Order(target, false), {})
  }

  lemma PhasesCompose(plans: Plans, definitions: map<Name, WorkloadDefinition>, current: Option<ClusterProfile>,
                      target: ClusterProfile, retained: set<Name>, before: seq<Event>)
    ensures before + StopCommands(plans, definitions, current, retained)
            + Sweep(Starting, plans, definitions, Order(target, false), retained)
            + Sweep(Gating, plans, definitions, Order(target, false), {})
            == before + SwitchCommands(plans, definitions, current, target, retained)
  {
  }

  predicate Quiet(e: Event) {
    e.Command? && !Mutates(e)
  }

  lemma {:induction false} SweepIsCommands(phase: Phase, plans: Plans, definitions: map<Name, WorkloadDefinition>,
                        order: seq<Name>, skip: set<Name>)
    ensures forall e :: e in Sweep(phase, plans, definitions, order, skip) ==> e.Command?
    ensures phase.Gating? ==> forall e :: e in Sweep(phase, plans, definitions, order, skip) ==> Quiet(e)
  {
    if order != [] {
      SweepIsCommands(phase, plans, definitions, order[..|order| - 1], skip);
    }
  }

  /** A complete gating sweep takes every workload in it through its gates. */
  lemma {:induction false} SweepPassesGates(plans: Plans, definitions: map<Name, WorkloadDefinition>,
                                            order: seq<Name>, w: Name)
    requires w in order && w in definitions && definitions[w].id == w && RankOrdersValid(definitions[w])
    requires OperationNodes(plans, definitions[w], Health).Some?
    ensures GatesPassed(plans, w, definitions[w], Sweep(Gating, plans, definitions, order, {}))
  {
    var last := |order| - 1;
    var d := definitions[w];
    var sweep := Sweep(Gating, plans, definitions, order, {});
    OperationsReachTheSameNodes(plans, d, Health);
    OperationsReachTheSameNodes(plans, d, Infer);
    OperationsReachTheSameNodes(plans, d, Start);
    OperationsReachTheSameNodes(plans, d, Stop);
    if order[last] == w {
      var own := PhaseCommands(Gating, plans, d);
      var starts := OperationNodes(plans, d, Start).value;
      assert own[|starts|] == Command(Infer, w, OperationNodes(plans, d, Stop).value[0], true);
      forall n | n in starts ensures Command(Health, w, n, true) in own {
        var i :| 0 <= i < |starts| && starts[i] == n;
        assert own[i] == Command(Health, w, n, true);
      }
      assert forall e :: e in own ==> e in sweep;
    } else {
      assert w in order[..last] by {
        var i :| 0 <= i < |order| && order[i] == w;
        assert order[..last][i] == w;
      }
      SweepPassesGates(plans, definitions, order[..last], w);
      assert forall e :: e in Sweep(Gating, plans, definitions, order[..last], {}) ==> e in sweep;
    }
  }
}
