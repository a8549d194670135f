/** Platform releases: which updates are compatible, and what chains of them do. */
module PlatformRelease {
  import opened Options

  datatype Version = Version(major: nat, minor: nat, patch: nat)

  /** Numeric lexicographic order. */
  predicate Less(a: Version, b: Version) {
    || a.major < b.major
    || (a.major == b.major && a.minor < b.minor)
    || (a.major == b.major && a.minor == b.minor && a.patch < b.patch)
  }

  function Components(v: Version): seq<nat> { [v.major, v.minor, v.patch] }

  /** The first component in which two versions differ decides, and equal versions are the
      only ones that neither precedes. */
  lemma FirstDifferenceDecides(a: Version, b: Version)
    ensures Less(a, b) <==>
            exists k :: 0 <= k < 3 && Components(a)[..k] == Components(b)[..k] && Components(a)[k] < Components(b)[k]
    ensures a == b || Less(a, b) || Less(b, a)
    ensures !(Less(a, b) && Less(b, a))
  {
    var s, t := Components(a), Components(b);
    assert s[..0] == t[..0];
    assert s[..1] == [a.major] && t[..1] == [b.major];
    assert s[..2] == [a.major, a.minor] && t[..2] == [b.major, b.minor];
    if a.major == b.major { assert s[..1] == t[..1]; }
    if a.major == b.major && a.minor == b.minor { assert s[..2] == t[..2]; }
    assert Less(a, b) ==> s[0] < t[0] || (s[..1] == t[..1] && s[1] < t[1]) || (s[..2] == t[..2] && s[2] < t[2]);
    forall k | 0 <= k < 3 && s[..k] == t[..k] && s[k] < t[k] ensures Less(a, b) {
      assert k > 0 ==> s[..k][0] == t[..k][0];
      assert k > 1 ==> s[..k][1] == t[..k][1];
    }
  }

  datatype TargetName = TargetName(version: Version, sha256: nat)

  datatype Predecessor = Predecessor(
    target: TargetName, targetSha256: nat, releaseDigest: nat, buildDigest: nat, bundleDigest: nat)

  datatype ProtocolRange = ProtocolRange(minimum: int, maximum: int) {
    predicate Contains(v: int) { minimum <= v <= maximum }
  }

  datatype Agent = Agent(architecture: nat, protocol: Option<ProtocolRange>)

  datatype Release = Release(
    version: Version, buildDigest: nat, control: ProtocolRange, agents: seq<Agent>, predecessors: seq<Predecessor>)

  /** What runs now; its target name carries its version and digest. */
  datatype Identity = Identity(
    version: Version, target: TargetName, targetSha256: nat, releaseDigest: nat, buildDigest: nat,
    bundleDigest: nat, architecture: nat, controlProtocol: int, agentProtocol: int)

  predicate ValidIdentity(i: Identity) { i.target == TargetName(i.version, i.targetSha256) }

  // ---- authorised predecessors -------------------------------------------------------------

  predicate Older(p: Predecessor, v: Version) { p.target.sha256 == p.targetSha256 && Less(p.target.version, v) }

  ghost predicate ValidRelease(r: Release) {
    && (forall k :: 0 <= k < |r.predecessors| ==> Older(r.predecessors[k], r.version))
    && (forall i, j :: 0 <= i < j < |r.predecessors| ==>
          r.predecessors[i].target != r.predecessors[j].target
          && r.predecessors[i].targetSha256 != r.predecessors[j].targetSha256)
  }

  /** The predecessor list is accepted exactly when every entry is strictly older than the
      release and neither a name nor a digest occurs twice. */
  method Predecessors(documents: seq<Predecessor>, release: Release) returns (r: Option<Release>)
    ensures r.Some? <==> ValidRelease(release.(predecessors := documents))
    ensures r.Some? ==> r.value == release.(predecessors := documents)
    ensures r.Some? <==>
            && (forall d :: d in documents ==>
                  d.target.sha256 == d.targetSha256 && Less(d.target.version, release.version))
            && (forall i, j :: 0 <= i < j < |documents| ==>
                  documents[i].target != documents[j].target
                  && documents[i].targetSha256 != documents[j].targetSha256)
  {
    var seenTargets: set<TargetName>, seenDigests: set<nat> := {}, {};
    var result: seq<Predecessor> := [];
    for i := 0 to |documents|
      invariant result == documents[..i]
      invariant forall t :: t in seenTargets <==> exists k :: 0 <= k < i && documents[k].target == t
      invariant forall d :: d in seenDigests <==> exists k :: 0 <= k < i && documents[k].targetSha256 == d
      invariant ValidRelease(release.(predecessors := documents[..i]))
    {
      var d := documents[i];
      if !Older(d, release.version) { return None; }
      if d.target in seenTargets || d.targetSha256 in seenDigests { return None; }
      seenTargets, seenDigests := seenTargets + {d.target}, seenDigests + {d.targetSha256};
      result := result + [d];
    }
    assert documents[..|documents|] == documents;
    return Some(release.(predecessors := result));
  }

  // ---- compatibility ---------------------------------------------------------------------

  datatype Reason =
    | ArchitectureNotPublished | AgentProtocolIncompatible | ControlProtocolIncompatible
    | PredecessorNotRecoveryCompatible | DowngradeForbidden

  predicate Names(p: Predecessor, i: Identity) {
    && p.target == i.target && p.targetSha256 == i.targetSha256 && p.releaseDigest == i.releaseDigest
    && p.buildDigest == i.buildDigest && p.bundleDigest == i.bundleDigest
  }

  predicate Authorised(r: Release, i: Identity) { exists p :: p in r.predecessors && Names(p, i) }

  /** The agent entry that counts is the first for the architecture. */
  function AgentFor(agents: seq<Agent>, architecture: nat): Option<Agent> {
    if agents == [] then None
    else if agents[0].architecture == architecture then Some(agents[0])
    else AgentFor(agents[1..], architecture)
  }

  predicate AgentFits(agent: Option<Agent>, protocol: int) {
    agent.Some? && (agent.value.protocol.Some? ==> agent.value.protocol.value.Contains(protocol))
  }

  /** The first matching entry is meant: any other for the architecture comes later. */
  lemma {:induction false} AgentForIsFirst(agents: seq<Agent>, architecture: nat, k: nat)
    requires k < |agents| && agents[k].architecture == architecture
    requires forall i :: 0 <= i < k ==> agents[i].architecture != architecture
    ensures AgentFor(agents, architecture) == Some(agents[k])
  {
    if k > 0 { AgentForIsFirst(agents[1..], architecture, k - 1); }
  }

  lemma {:induction false} NoAgentFor(agents: seq<Agent>, architecture: nat)
    ensures AgentFor(agents, architecture).None? <==> forall a :: a in agents ==> a.architecture != architecture
  {
    if agents != [] { NoAgentFor(agents[1..], architecture); }
  }

  predicate Compatible(r: Release, i: Identity) {
    && AgentFits(AgentFor(r.agents, i.architecture), i.agentProtocol)
    && r.control.Contains(i.controlProtocol)
    && (i.buildDigest == r.buildDigest || Authorised(r, i))
    && !Less(r.version, i.version)
  }

  method Compatibility(r: Release, current: Identity) returns (reasons: seq<Reason>)
    ensures reasons == [] <==> Compatible(r, current)
    ensures ArchitectureNotPublished in reasons <==>
            forall a :: a in r.agents ==> a.architecture != current.architecture
    ensures AgentProtocolIncompatible in reasons <==>
            match AgentFor(r.agents, current.architecture)
            case Some(Agent(_, Some(p))) => current.agentProtocol < p.minimum || p.maximum < current.agentProtocol
            case _ => false
    ensures ControlProtocolIncompatible in reasons <==>
            current.controlProtocol < r.control.minimum || r.control.maximum < current.controlProtocol
    ensures PredecessorNotRecoveryCompatible in reasons <==>
            && current.buildDigest != r.buildDigest
            && Predecessor(current.target, current.targetSha256, current.releaseDigest, current.buildDigest,
                           current.bundleDigest) !in r.predecessors
    ensures DowngradeForbidden in reasons <==> Less(r.version, current.version)
  {
    NoAgentFor(r.agents, current.architecture);
    reasons := [];
    var agent := AgentFor(r.agents, current.architecture);
    if agent.None? {
      reasons := reasons + [ArchitectureNotPublished];
    } else if agent.value.protocol.Some? && !agent.value.protocol.value.Contains(current.agentProtocol) {
      reasons := reasons + [AgentProtocolIncompatible];
    }
    if !r.control.Contains(current.controlProtocol) { reasons := reasons + [ControlProtocolIncompatible]; }
    if current.buildDigest != r.buildDigest && !Authorised(r, current) {
      reasons := reasons + [PredecessorNotRecoveryCompatible];
    }
    if Less(r.version, current.version) { reasons := reasons + [DowngradeForbidden]; }
  }

  // ---- chains ----------------------------------------------------------------------------

  /** `next` is what runs after a compatible release was installed over `current`. */
  ghost predicate Updates(current: Identity, r: Release, next: Identity) {
    && ValidRelease(r) && ValidIdentity(current) && ValidIdentity(next)
    && Compatible(r, current) && next.version == r.version && next.buildDigest == r.buildDigest
  }

  ghost predicate Chain(ids: seq<Identity>, releases: seq<Release>) {
    && |ids| == |releases| + 1
    && forall i, j :: 0 <= i < j < |ids| && j == i + 1 ==> Updates(ids[i], releases[i], ids[j])
  }

  /** A compatible update that changes the build strictly raises the version, and none
      lowers it. */
  lemma UpdateRises(current: Identity, r: Release, next: Identity)
    requires Updates(current, r, next)
    ensures !Less(next.version, current.version)
    ensures next.buildDigest != current.buildDigest ==> Less(current.version, next.version)
  {
    if next.buildDigest != current.buildDigest {
      var p :| p in r.predecessors && Names(p, current);
      var k :| 0 <= k < |r.predecessors| && r.predecessors[k] == p;
      assert Older(r.predecessors[k], r.version);
    }
  }

  lemma {:induction false} ChainRises(ids: seq<Identity>, releases: seq<Release>, i: nat, j: nat)
    requires Chain(ids, releases) && i < j < |ids|
    ensures !Less(ids[j].version, ids[i].version)
    ensures (forall k, m :: i <= k < m <= j && m == k + 1 ==> ids[k].buildDigest != ids[m].buildDigest) ==>
              Less(ids[i].version, ids[j].version) && ids[i].target != ids[j].target
    decreases j
  {
    var last := j - 1;
    assert Updates(ids[last], releases[last], ids[j]);
    UpdateRises(ids[last], releases[last], ids[j]);
    if i < last {
      assert Updates(ids[i], releases[i], ids[i + 1]);
      ChainRises(ids, releases, i, last);
    } else {
      assert ValidIdentity(ids[i]) && ValidIdentity(ids[j]);
    }
  }

  /** A release authorises another by listing it with a target name of its version. */
  ghost predicate AuthorisedBy(older: Release, newer: Release) {
    && ValidRelease(newer)
    && exists p :: p in newer.predecessors && p.target.version == older.version && p.buildDigest == older.buildDigest
  }

  lemma AuthorisedIsOlder(older: Release, newer: Release)
    requires AuthorisedBy(older, newer)
    ensures Less(older.version, newer.version)
  {
    var p :| p in newer.predecessors && p.target.version == older.version && p.buildDigest == older.buildDigest;
    var k :| 0 <= k < |newer.predecessors| && newer.predecessors[k] == p;
    assert Older(newer.predecessors[k], newer.version);
  }

  /** Authorised predecessors are well founded: what passes from all predecessors of a
      release to the release itself holds of every release. */
  lemma {:induction false} PredecessorInduction(holds: Release -> bool, r: Release)
    requires forall newer :: (forall older :: AuthorisedBy(older, newer) ==> holds(older)) ==> holds(newer)
    ensures holds(r)
    decreases r.version.major, r.version.minor, r.version.patch
  {
    forall older | AuthorisedBy(older, r) ensures holds(older) {
      AuthorisedIsOlder(older, r);
      PredecessorInduction(holds, older);
    }
  }
}
