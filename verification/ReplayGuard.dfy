/** The package helper's replay guard: a bounded table of consumed grants from which
    expired rows are deleted, and a memory of handled requests lost on restart. */
module ReplayGuard {
  import opened Names

  /** Parsed claims of a grant, with times in whole seconds. */
  datatype Claims = Claims(requestId: nat, operation: nat, attempt: nat, fence: nat, digest: nat, issuedAt: int,
                           expiresAt: int)

  /** `genuine` says whether the signature verifies over the claims. */
  datatype Grant = Grant(claims: Claims, keyId: nat, genuine: bool)

  datatype Row = Row(operation: nat, attempt: nat, fence: nat, digest: nat, expiresAt: int)
  type Rows = map<nat, Row>

  const MAX_REPLAY_ENTRIES := 65_536
  const MAX_GRANT_SECONDS := 900

  predicate WellFormed(c: Claims) {
    0 < c.issuedAt && 0 < c.expiresAt && 1 <= c.expiresAt - c.issuedAt <= MAX_GRANT_SECONDS
  }

  function RowOf(c: Claims): Row { Row(c.operation, c.attempt, c.fence, c.digest, c.expiresAt) }

  function Truncate(now: real): int {
    if now >= 0.0 then now.Floor else -(-now).Floor
  }

  function Purged(rows: Rows, now: real): Rows {
    map id | id in rows && rows[id].expiresAt > Truncate(now) :: rows[id]
  }

  predicate SameTriple(a: Row, b: Row) { a.operation == b.operation && a.attempt == b.attempt && a.fence == b.fence }

  predicate Conflict(a: Claims, b: Claims) {
    a.requestId == b.requestId || (a.operation == b.operation && a.attempt == b.attempt && a.fence == b.fence)
  }

  /** A row with this request ID or this triple stands in the way of an insert. */
  predicate Taken(rows: Rows, c: Claims) {
    c.requestId in rows || exists id :: id in rows && SameTriple(rows[id], RowOf(c))
  }

  predicate Current(g: Grant, now: real, keyId: nat) {
    && g.claims.issuedAt as real <= now < g.claims.expiresAt as real
    && g.claims.expiresAt <= g.claims.issuedAt + MAX_GRANT_SECONDS
    && g.keyId == keyId && g.genuine
  }

  /** A genuine grant under this key, used within its lifetime of at most fifteen minutes. */
  ghost predicate InForce(g: Grant, at: real, keyId: nat) {
    && g.genuine && g.keyId == keyId
    && g.claims.issuedAt as real <= at < g.claims.expiresAt as real
    && g.claims.expiresAt - g.claims.issuedAt <= 900
  }

  lemma CurrentIsInForce(g: Grant, now: real, keyId: nat)
    ensures Current(g, now, keyId) <==> InForce(g, now, keyId)
  {
  }

  ghost predicate UniqueTriples(rows: Rows) {
    forall a, b :: a in rows && b in rows && SameTriple(rows[a], rows[b]) ==> a == b
  }

  /** For a positive expiry, the truncated reading has reached it exactly when the reading
      itself has. */
  lemma WholeSeconds(expiresAt: int, now: real)
    requires 0 < expiresAt
    ensures expiresAt > Truncate(now) <==> expiresAt as real > now
  {
    if now >= 0.0 {
      var f := now.Floor;
      assert f as real <= now < f as real + 1.0;
    } else {
      assert Truncate(now) <= 0;
    }
  }

  /** Deleting by whole seconds deletes exactly what has expired. */
  lemma PurgeIsExact(rows: Rows, now: real, id: nat)
    requires id in rows ==> 0 < rows[id].expiresAt
    ensures id in Purged(rows, now) <==> id in rows && rows[id].expiresAt as real > now
  {
    if id in rows { WholeSeconds(rows[id].expiresAt, now); }
  }

  lemma PurgeShrinks(rows: Rows, now: real)
    ensures |Purged(rows, now)| <= |rows|
    ensures UniqueTriples(rows) ==> UniqueTriples(Purged(rows, now))
  {
    SubsetOfSameSize(Purged(rows, now).Keys, rows.Keys);
  }

  /** The row holds what the claims say. */
  ghost predicate Records(row: Row, c: Claims) {
    && row.operation == c.operation && row.attempt == c.attempt && row.fence == c.fence
    && row.digest == c.digest && row.expiresAt == c.expiresAt
  }

  /** The row shares the request ID or the triple of the claims. */
  ghost predicate StandsInTheWay(id: nat, row: Row, c: Claims) {
    id == c.requestId || (row.operation == c.operation && row.attempt == c.attempt && row.fence == c.fence)
  }

  ghost function Unexpired(rows: Rows, now: real): set<nat> {
    set id | id in rows && rows[id].expiresAt as real > now
  }

  /** What a transaction does to the table at this reading: the expired rows go, the others
      stay as they are, and a grant is consumed exactly when none of these is in its way. */
  ghost predicate Transacted(before: Rows, after: Rows, c: Claims, now: real, granted: bool) {
    && (forall id :: id in before && before[id].expiresAt as real > now ==> id in after && after[id] == before[id])
    && (forall id :: id in after ==>
          || (granted && id == c.requestId && Records(after[id], c))
          || (id in before && after[id] == before[id] && before[id].expiresAt as real > now))
    && (granted <==> c.requestId in after && Records(after[c.requestId], c)
                     && forall id :: id in before && before[id].expiresAt as real > now ==>
                          !StandsInTheWay(id, before[id], c))
  }

  lemma CommitTransacts(rows: Rows, c: Claims, now: real)
    requires forall id :: id in rows ==> 0 < rows[id].expiresAt
    ensures var kept, granted := Purged(rows, now), !Taken(Purged(rows, now), c);
            Transacted(rows, if granted then kept[c.requestId := RowOf(c)] else kept, c, now, granted)
    ensures |Purged(rows, now)| == |Unexpired(rows, now)|
  {
    var kept := Purged(rows, now);
    forall id ensures id in kept <==> id in rows && rows[id].expiresAt as real > now {
      PurgeIsExact(rows, now, id);
    }
    assert kept.Keys == Unexpired(rows, now);
    assert Taken(kept, c) <==> exists id :: id in kept && StandsInTheWay(id, kept[id], c) by {
      if Taken(kept, c) {
        var id :| id in kept && (id == c.requestId || SameTriple(kept[id], RowOf(c)));
        assert id != c.requestId ==> SameTriple(kept[id], RowOf(c));
        assert StandsInTheWay(id, kept[id], c);
      }
    }
  }

  /** What a decision leaves in the table. */
  function Authorized(rows: Rows, c: Claims, now: real, d: Decision): Rows {
    match d
    case Granted => Purged(rows, now)[c.requestId := RowOf(c)]
    case Replayed => Purged(rows, now)
    case _ => rows
  }

  /** Full means no room for another row that has not expired, and otherwise the table is
      transacted; this is for rows as they are parsed, with positive expiries. */
  ghost predicate Accounted(before: Rows, after: Rows, c: Claims, now: real, d: Decision, maxEntries: nat) {
    (forall id :: id in before ==> 0 < before[id].expiresAt) ==>
      && (d.Full? ==> |Unexpired(before, now)| >= maxEntries)
      && (d.Granted? || d.Replayed? ==>
            |Unexpired(before, now)| < maxEntries && Transacted(before, after, c, now, d.Granted?))
  }

  lemma DecisionsAccount(rows: Rows, g: Grant, now: real, k: Config, available: bool)
    ensures var d := Decided(rows, g, now, k, available);
            Accounted(rows, Authorized(rows, g.claims, now, d), g.claims, now, d, k.maxEntries)
  {
    if forall id :: id in rows ==> 0 < rows[id].expiresAt { CommitTransacts(rows, g.claims, now); }
  }

  // ---- one request ----------------------------------------------------------------------

  datatype Config = Config(agentUid: nat, keyId: nat, maxEntries: nat)

  /** The durable table, and the requests seen since the last start. */
  datatype Memory = Memory(rows: Rows, seen: set<(nat, nat)>)

  datatype Decision = Granted | Denied | Replayed | Full | Unavailable

  /** What the helper's other boundaries answer. */
  datatype Boundary = Boundary(slotActive: bool, available: bool, receiptsValid: bool)

  /** A request meets any reading of the clock; a restart forgets the requests seen. */
  datatype Step = Request(peerUid: nat, grant: Grant, now: real, boundary: Boundary) | Restarted

  function KeyOf(c: Claims): (nat, nat) { (c.requestId, c.fence) }

  /** The verdict on a grant, given what the table holds. */
  function Decided(rows: Rows, g: Grant, now: real, k: Config, available: bool): Decision {
    if !Current(g, now, k.keyId) then Denied
    else if !available then Unavailable
    else if |Purged(rows, now)| >= k.maxEntries then Full
    else if Taken(Purged(rows, now), g.claims) then Replayed
    else Granted
  }

  /** The request gets as far as the table. */
  predicate Asks(k: Config, m: Memory, s: Step) {
    && s.Request? && s.peerUid == k.agentUid && s.boundary.slotActive
    && KeyOf(s.grant.claims) !in m.seen && |m.seen| < MAX_REPLAY_ENTRIES
  }

  function Verdict(k: Config, m: Memory, s: Step): Decision
    requires s.Request?
  {
    Decided(m.rows, s.grant, s.now, k, s.boundary.available)
  }

  /** The transaction is committed, and the deletion of expired rows with it. */
  predicate Commits(k: Config, m: Memory, s: Step) {
    Asks(k, m, s) && (Verdict(k, m, s).Granted? || Verdict(k, m, s).Replayed?)
  }

  predicate Consumes(k: Config, m: Memory, s: Step) { Asks(k, m, s) && Verdict(k, m, s).Granted? }

  predicate Launches(k: Config, m: Memory, s: Step) { Consumes(k, m, s) && s.boundary.receiptsValid }

  function Next(k: Config, m: Memory, s: Step): Memory {
    if s.Restarted? then m.(seen := {})
    else
      var kept := if Commits(k, m, s) then Purged(m.rows, s.now) else m.rows;
      Memory(if Consumes(k, m, s) then kept[s.grant.claims.requestId := RowOf(s.grant.claims)] else kept,
             if Launches(k, m, s) then m.seen + {KeyOf(s.grant.claims)} else m.seen)
  }

  // ---- the helper -------------------------------------------------------------------------

  /** A backend start: which grant it used, and the reading of the clock. */
  datatype Launch = Launch(grant: Grant, at: real)

  class PackageHelper {
    const config: Config
    var rows: Rows
    var seen: set<(nat, nat)>
    var launches: seq<Launch>

    ghost predicate Valid()
      reads this
    {
      |rows| <= config.maxEntries && UniqueTriples(rows) && |seen| <= MAX_REPLAY_ENTRIES
    }

    function Remembers(): Memory
      reads this
    {
      Memory(rows, seen)
    }

    constructor (config: Config)
      ensures Valid() && launches == [] && Remembers() == Memory(map[], {}) && this.config == config
    {
      this.config := config;
      rows, seen, launches := map[], {}, [];
    }

    /** One transaction on the table; `available` says whether the database works. */
    method Authorize(g: Grant, now: real, available: bool) returns (d: Decision)
      requires Valid()
      modifies `rows
      ensures Valid()
      ensures d == Decided(old(rows), g, now, config, available)
      ensures rows == Authorized(old(rows), g.claims, now, d)
      ensures d.Denied? <==> !InForce(g, now, config.keyId)
      ensures d.Unavailable? <==> InForce(g, now, config.keyId) && !available
      ensures Accounted(old(rows), rows, g.claims, now, d, config.maxEntries)
    {
      CurrentIsInForce(g, now, config.keyId);
      DecisionsAccount(rows, g, now, config, available);
      if !Current(g, now, config.keyId) { return Denied; }
      if !available { return Unavailable; }
      var kept := Purged(rows, now);
      PurgeShrinks(rows, now);
      if |kept| >= config.maxEntries { return Full; }
      rows := kept;
      if Taken(rows, g.claims) { return Replayed; }
      rows := rows[g.claims.requestId := RowOf(g.claims)];
      return Granted;
    }

    /** One request under the helper's lock, whatever the clock reads. */
    method Handle(peerUid: nat, g: Grant, now: real, boundary: Boundary) returns (launched: bool)
      requires Valid()
      modifies this
      ensures Valid()
      ensures Remembers() == Next(config, old(Remembers()), Request(peerUid, g, now, boundary))
      ensures launched <==> Launches(config, old(Remembers()), Request(peerUid, g, now, boundary))
      ensures launches == if launched then old(launches) + [Launch(g, now)] else old(launches)
      ensures launched || g.claims.requestId in rows.Keys - old(rows).Keys ==>
                peerUid == config.agentUid && InForce(g, now, config.keyId)
    {
      launched := false;
      if peerUid != config.agentUid { return; }
      if !boundary.slotActive { return; }
      var key := KeyOf(g.claims);
      if key in seen { return; }
      if |seen| >= MAX_REPLAY_ENTRIES { return; }
      var decision := Authorize(g, now, boundary.available);
      if !decision.Granted? { return; }
      if !boundary.receiptsValid { return; }
      seen := seen + {key};
      launches := launches + [Launch(g, now)];
      return true;
    }

    /** A restart keeps the table and forgets the requests seen. */
    method Restart()
      requires Valid()
      modifies `seen
      ensures Valid() && Remembers() == Next(config, old(Remembers()), Restarted)
    {
      seen := {};
    }
  }

  // ---- whole runs, whatever the clock reads -------------------------------------------------

  /** What the helper remembers before step `n`. */
  function MemoryAt(k: Config, steps: seq<Step>, n: nat): Memory
    requires n <= |steps|
  {
    if n == 0 then Memory(map[], {}) else Next(k, MemoryAt(k, steps, n - 1), steps[n - 1])
  }

  predicate LaunchesAt(k: Config, steps: seq<Step>, n: nat)
    requires n < |steps|
  {
    Launches(k, MemoryAt(k, steps, n), steps[n])
  }

  predicate ConsumesAt(k: Config, steps: seq<Step>, n: nat)
    requires n < |steps|
  {
    Consumes(k, MemoryAt(k, steps, n), steps[n])
  }

  /** Step `n` deletes what has expired by the reading it meets. */
  predicate PurgesAt(k: Config, steps: seq<Step>, n: nat, expiresAt: int)
    requires n < |steps|
  {
    Commits(k, MemoryAt(k, steps, n), steps[n]) && expiresAt <= Truncate(steps[n].now)
  }

  /** The grant consumed at step `i` still has its row before step `n`. */
  ghost predicate Standing(k: Config, steps: seq<Step>, i: nat, n: nat) {
    && i < n <= |steps| && ConsumesAt(k, steps, i)
    && forall j :: i < j < n ==> !PurgesAt(k, steps, j, steps[i].grant.claims.expiresAt)
  }

  /** A launch for this request and fence since the last restart. */
  ghost predicate Recalled(k: Config, steps: seq<Step>, i: nat, n: nat, key: (nat, nat)) {
    && i < n <= |steps| && LaunchesAt(k, steps, i)
    && (steps[i].grant.claims.requestId, steps[i].grant.claims.fence) == key
    && forall j :: i < j < n ==> !steps[j].Restarted?
  }

  /** The row is that of the grant consumed at step `i`. */
  ghost predicate Explains(k: Config, steps: seq<Step>, i: nat, n: nat, id: nat, row: Row) {
    Standing(k, steps, i, n) && steps[i].grant.claims.requestId == id && RowOf(steps[i].grant.claims) == row
  }

  lemma StandingStep(k: Config, steps: seq<Step>, i: nat, n: nat)
    requires i <= n < |steps|
    ensures i == n ==> (Standing(k, steps, i, n + 1) <==> ConsumesAt(k, steps, n))
    ensures i < n ==>
              (Standing(k, steps, i, n + 1) <==>
               Standing(k, steps, i, n) && !PurgesAt(k, steps, n, steps[i].grant.claims.expiresAt))
  {
  }

  predicate HasRow(rows: Rows, id: nat, row: Row) { id in rows && rows[id] == row }

  /** One step adds the row of a consumed grant and deletes what it purges. */
  lemma RowStep(k: Config, m: Memory, s: Step, id: nat, row: Row)
    ensures HasRow(Next(k, m, s).rows, id, row) <==>
            || (Consumes(k, m, s) && s.grant.claims.requestId == id && RowOf(s.grant.claims) == row)
            || (HasRow(m.rows, id, row) && !(Commits(k, m, s) && row.expiresAt <= Truncate(s.now)))
  {
  }

  lemma {:induction false} RowHasGrant(k: Config, steps: seq<Step>, n: nat, id: nat, row: Row) returns (i: nat)
    requires n <= |steps| && HasRow(MemoryAt(k, steps, n).rows, id, row)
    ensures Explains(k, steps, i, n, id, row)
  {
    var m := n - 1;
    RowStep(k, MemoryAt(k, steps, m), steps[m], id, row);
    if ConsumesAt(k, steps, m) && steps[m].grant.claims.requestId == id && RowOf(steps[m].grant.claims) == row {
      i := m;
    } else {
      i := RowHasGrant(k, steps, m, id, row);
    }
    StandingStep(k, steps, i, m);
  }

  lemma {:induction false} GrantHasRow(k: Config, steps: seq<Step>, i: nat, n: nat, id: nat, row: Row)
    requires Explains(k, steps, i, n, id, row)
    ensures HasRow(MemoryAt(k, steps, n).rows, id, row)
  {
    var m := n - 1;
    RowStep(k, MemoryAt(k, steps, m), steps[m], id, row);
    StandingStep(k, steps, i, m);
    if i < m { GrantHasRow(k, steps, i, m, id, row); }
  }

  /** A row is in the table exactly when a grant was consumed for it and no committed
      transaction since met a reading at or past its expiry. */
  lemma RowsAreStanding(k: Config, steps: seq<Step>, n: nat, id: nat, row: Row)
    requires n <= |steps|
    ensures HasRow(MemoryAt(k, steps, n).rows, id, row) <==> exists i: nat :: Explains(k, steps, i, n, id, row)
  {
    if HasRow(MemoryAt(k, steps, n).rows, id, row) {
      var i := RowHasGrant(k, steps, n, id, row);
    }
    forall i: nat | Explains(k, steps, i, n, id, row) ensures HasRow(MemoryAt(k, steps, n).rows, id, row) {
      GrantHasRow(k, steps, i, n, id, row);
    }
  }

  /** One step adds the key of a launch, and a restart forgets them all. */
  lemma SeenStep(k: Config, m: Memory, s: Step, key: (nat, nat))
    ensures key in Next(k, m, s).seen <==>
            (Launches(k, m, s) && KeyOf(s.grant.claims) == key) || (key in m.seen && !s.Restarted?)
  {
  }

  lemma RecalledStep(k: Config, steps: seq<Step>, i: nat, n: nat, key: (nat, nat))
    requires i <= n < |steps|
    ensures i == n ==>
              (Recalled(k, steps, i, n + 1, key) <==> LaunchesAt(k, steps, n) && KeyOf(steps[n].grant.claims) == key)
    ensures i < n ==> (Recalled(k, steps, i, n + 1, key) <==> Recalled(k, steps, i, n, key) && !steps[n].Restarted?)
  {
  }

  lemma {:induction false} SeenWasLaunched(k: Config, steps: seq<Step>, n: nat, key: (nat, nat)) returns (i: nat)
    requires n <= |steps| && key in MemoryAt(k, steps, n).seen
    ensures Recalled(k, steps, i, n, key)
  {
    var m := n - 1;
    SeenStep(k, MemoryAt(k, steps, m), steps[m], key);
    if LaunchesAt(k, steps, m) && KeyOf(steps[m].grant.claims) == key {
      i := m;
    } else {
      i := SeenWasLaunched(k, steps, m, key);
    }
    RecalledStep(k, steps, i, m, key);
  }

  lemma {:induction false} LaunchedIsSeen(k: Config, steps: seq<Step>, i: nat, n: nat, key: (nat, nat))
    requires Recalled(k, steps, i, n, key)
    ensures key in MemoryAt(k, steps, n).seen
  {
    var m := n - 1;
    SeenStep(k, MemoryAt(k, steps, m), steps[m], key);
    RecalledStep(k, steps, i, m, key);
    if i < m { LaunchedIsSeen(k, steps, i, m, key); }
  }

  lemma SeenAreRecalled(k: Config, steps: seq<Step>, n: nat, key: (nat, nat))
    requires n <= |steps|
    ensures key in MemoryAt(k, steps, n).seen <==> exists i: nat :: Recalled(k, steps, i, n, key)
  {
    if key in MemoryAt(k, steps, n).seen {
      var i := SeenWasLaunched(k, steps, n, key);
    }
    forall i: nat | Recalled(k, steps, i, n, key) ensures key in MemoryAt(k, steps, n).seen {
      LaunchedIsSeen(k, steps, i, n, key);
    }
  }

  /** An earlier grant keeps a later one out: it shares its request ID or triple, has not
      expired at this reading, and no committed transaction in between met a reading at or
      past its expiry. */
  ghost predicate Blocks(k: Config, steps: seq<Step>, i: nat, n: nat) {
    && Standing(k, steps, i, n) && n < |steps| && steps[n].Request?
    && Conflict(steps[i].grant.claims, steps[n].grant.claims)
    && steps[i].grant.claims.expiresAt > Truncate(steps[n].now)
  }

  lemma TakenIsBlocked(k: Config, steps: seq<Step>, n: nat)
    requires n < |steps| && steps[n].Request?
    ensures Taken(Purged(MemoryAt(k, steps, n).rows, steps[n].now), steps[n].grant.claims) <==>
            exists i: nat :: Blocks(k, steps, i, n)
  {
    var rows, c := MemoryAt(k, steps, n).rows, steps[n].grant.claims;
    var kept := Purged(rows, steps[n].now);
    if Taken(kept, c) {
      var id :| id in kept && (id == c.requestId || SameTriple(kept[id], RowOf(c)));
      var i := RowHasGrant(k, steps, n, id, rows[id]);
      assert id != c.requestId ==> SameTriple(RowOf(steps[i].grant.claims), RowOf(c));
      assert Blocks(k, steps, i, n);
    }
    if exists i: nat :: Blocks(k, steps, i, n) {
      var i: nat :| Blocks(k, steps, i, n);
      var d := steps[i].grant.claims;
      GrantHasRow(k, steps, i, n, d.requestId, RowOf(d));
      assert d.requestId in kept && kept[d.requestId] == RowOf(d);
    }
  }

  /** Nothing but the history of grants and restarts keeps a request out: the agent asks
      through an active slot with valid receipts, the grant is current, and both memories
      have room. */
  ghost predicate Open(k: Config, m: Memory, s: Step) {
    && s.Request? && s.peerUid == k.agentUid && s.boundary == Boundary(true, true, true)
    && InForce(s.grant, s.now, k.keyId)
    && |m.seen| < MAX_REPLAY_ENTRIES && |Purged(m.rows, s.now)| < k.maxEntries
  }

  /** In every run and for all readings of the clock, a request launches exactly when it is
      open, its key was not launched since the last restart, and no earlier grant blocks it. */
  lemma LaunchesExactlyWhen(k: Config, steps: seq<Step>, n: nat)
    requires n < |steps|
    ensures LaunchesAt(k, steps, n) <==>
            && Open(k, MemoryAt(k, steps, n), steps[n])
            && (forall i: nat :: !Recalled(k, steps, i, n,
                                           (steps[n].grant.claims.requestId, steps[n].grant.claims.fence)))
            && (forall i: nat :: !Blocks(k, steps, i, n))
  {
    if steps[n].Request? {
      SeenAreRecalled(k, steps, n, KeyOf(steps[n].grant.claims));
      TakenIsBlocked(k, steps, n);
    }
  }

  /** Only a grant that is in force, asked for by the agent, is ever consumed or launched. */
  lemma OnlyGrantsInForce(k: Config, steps: seq<Step>, n: nat)
    requires n < |steps| && (ConsumesAt(k, steps, n) || LaunchesAt(k, steps, n))
    ensures steps[n].Request? && steps[n].peerUid == k.agentUid && InForce(steps[n].grant, steps[n].now, k.keyId)
  {
  }

  /** The step asked for a grant that was in force, and the row holds what it says. */
  ghost predicate GrantedAt(k: Config, s: Step, id: nat, row: Row) {
    && s.Request? && s.peerUid == k.agentUid && InForce(s.grant, s.now, k.keyId)
    && s.grant.claims.requestId == id && Records(row, s.grant.claims)
  }

  /** Every row of the table comes from such a grant. */
  lemma RowsAreGranted(k: Config, steps: seq<Step>, n: nat, id: nat)
    requires n <= |steps| && id in MemoryAt(k, steps, n).rows
    ensures exists i :: 0 <= i < n && GrantedAt(k, steps[i], id, MemoryAt(k, steps, n).rows[id])
  {
    var i := RowHasGrant(k, steps, n, id, MemoryAt(k, steps, n).rows[id]);
    OnlyGrantsInForce(k, steps, i);
  }

  // ---- the same grant twice ---------------------------------------------------------------------

  ghost predicate Silent(k: Config, steps: seq<Step>, r: nat, n: nat, key: (nat, nat))
    requires n <= |steps|
  {
    forall j :: r < j < n && LaunchesAt(k, steps, j) ==> KeyOf(steps[j].grant.claims) != key
  }

  /** A restart, and no launch for the key of the grant of step `i` after it. */
  ghost predicate RestartedSince(k: Config, steps: seq<Step>, i: nat, n: nat)
    requires i < n <= |steps| && steps[i].Request?
  {
    exists r :: i < r < n && steps[r].Restarted? && Silent(k, steps, r, n, KeyOf(steps[i].grant.claims))
  }

  lemma {:induction false} LastRestart(steps: seq<Step>, i: nat, n: nat) returns (r: nat)
    requires i < n <= |steps| && exists j :: i < j < n && steps[j].Restarted?
    ensures i < r < n && steps[r].Restarted? && forall j :: r < j < n ==> !steps[j].Restarted?
  {
    if steps[n - 1].Restarted? { r := n - 1; } else { r := LastRestart(steps, i, n - 1); }
  }

  lemma ForgottenSinceRestart(k: Config, steps: seq<Step>, i: nat, n: nat)
    requires i < n <= |steps| && LaunchesAt(k, steps, i)
    requires forall j: nat :: !Recalled(k, steps, j, n, KeyOf(steps[i].grant.claims))
    ensures RestartedSince(k, steps, i, n)
  {
    var key := KeyOf(steps[i].grant.claims);
    assert !Recalled(k, steps, i, n, key);
    var r := LastRestart(steps, i, n);
    forall j | r < j < n && LaunchesAt(k, steps, j) ensures KeyOf(steps[j].grant.claims) != key {
      assert !Recalled(k, steps, j, n, key);
    }
    assert Silent(k, steps, r, n, key);
  }

  lemma RestartForgets(k: Config, steps: seq<Step>, i: nat, n: nat, j: nat)
    requires i < n <= |steps| && LaunchesAt(k, steps, i) && RestartedSince(k, steps, i, n)
    ensures !Recalled(k, steps, j, n, KeyOf(steps[i].grant.claims))
  {
    var key := KeyOf(steps[i].grant.claims);
    var r :| i < r < n && steps[r].Restarted? && Silent(k, steps, r, n, key);
    assert Recalled(k, steps, j, n, key) ==> !(j < r < n);
  }

  lemma ForgottenMeansRestarted(k: Config, steps: seq<Step>, i: nat, n: nat)
    requires i < n <= |steps| && LaunchesAt(k, steps, i)
    ensures (forall j: nat :: !Recalled(k, steps, j, n, KeyOf(steps[i].grant.claims))) <==>
            RestartedSince(k, steps, i, n)
  {
    if forall j: nat :: !Recalled(k, steps, j, n, KeyOf(steps[i].grant.claims)) {
      ForgottenSinceRestart(k, steps, i, n);
    }
    if RestartedSince(k, steps, i, n) {
      forall j: nat ensures !Recalled(k, steps, j, n, KeyOf(steps[i].grant.claims)) {
        RestartForgets(k, steps, i, n, j);
      }
    }
  }

  /** Whatever stood in the way before a launch was gone with its transaction. */
  lemma EarlierGrantsAreGone(k: Config, steps: seq<Step>, i: nat, n: nat, j: nat)
    requires j < i < n < |steps| && LaunchesAt(k, steps, i) && steps[n].Request? && steps[n].grant == steps[i].grant
    ensures !Blocks(k, steps, j, n)
  {
    TakenIsBlocked(k, steps, i);
    if Blocks(k, steps, j, n) {
      assert Standing(k, steps, j, i);
      assert !Blocks(k, steps, j, i);
      assert PurgesAt(k, steps, i, steps[j].grant.claims.expiresAt);
    }
  }

  /** A grant stands in its own way until a transaction purges it. */
  lemma BlocksItself(k: Config, steps: seq<Step>, i: nat, n: nat)
    requires i < n < |steps| && LaunchesAt(k, steps, i) && steps[n].Request? && steps[n].grant == steps[i].grant
    requires WellFormed(steps[i].grant.claims) && Current(steps[n].grant, steps[n].now, k.keyId)
    ensures Blocks(k, steps, i, n) <==>
            forall j :: i < j < n ==> !PurgesAt(k, steps, j, steps[i].grant.claims.expiresAt)
  {
    WholeSeconds(steps[i].grant.claims.expiresAt, steps[n].now);
  }

  lemma OnlyLaterBlock(k: Config, steps: seq<Step>, i: nat, n: nat)
    requires i < n < |steps| && LaunchesAt(k, steps, i) && steps[n].Request? && steps[n].grant == steps[i].grant
    ensures (forall j: nat :: !Blocks(k, steps, j, n)) <==>
            !Blocks(k, steps, i, n) && forall j :: i < j < n ==> !Blocks(k, steps, j, n)
  {
    forall j: nat | j < i ensures !Blocks(k, steps, j, n) { EarlierGrantsAreGone(k, steps, i, n, j); }
    assert forall j: nat :: n <= j ==> !Blocks(k, steps, j, n);
  }

  /** A grant launched at step `i` launches again at step `n` exactly when the request is
      open, a restart came in between with no launch for its key since, a committed
      transaction in between met a reading at or past the grant's expiry, and no grant
      consumed after step `i` blocks it. */
  lemma SecondLaunch(k: Config, steps: seq<Step>, i: nat, n: nat)
    requires i < n < |steps| && LaunchesAt(k, steps, i) && steps[n].Request? && steps[n].grant == steps[i].grant
    requires WellFormed(steps[i].grant.claims)
    ensures LaunchesAt(k, steps, n) <==>
            && Open(k, MemoryAt(k, steps, n), steps[n])
            && RestartedSince(k, steps, i, n)
            && (exists j :: i < j < n && PurgesAt(k, steps, j, steps[i].grant.claims.expiresAt))
            && (forall j :: i < j < n ==> !Blocks(k, steps, j, n))
  {
    LaunchesExactlyWhen(k, steps, n);
    ForgottenMeansRestarted(k, steps, i, n);
    OnlyLaterBlock(k, steps, i, n);
    if Open(k, MemoryAt(k, steps, n), steps[n]) { BlocksItself(k, steps, i, n); }
  }

  /** Readings never go back. */
  ghost predicate Steady(steps: seq<Step>) {
    forall i, j :: 0 <= i < j < |steps| && steps[i].Request? && steps[j].Request? ==> steps[i].now <= steps[j].now
  }

  ghost predicate AllWellFormed(steps: seq<Step>) {
    forall s :: s in steps && s.Request? ==> WellFormed(s.grant.claims)
  }

  /** Under a steady clock launches never overlap: when two share a request ID or a triple,
      the first grant has expired by the reading of the second. */
  lemma LaunchesDoNotOverlap(k: Config, steps: seq<Step>, i: nat, n: nat)
    requires i < n < |steps| && LaunchesAt(k, steps, i) && LaunchesAt(k, steps, n)
    requires Steady(steps) && AllWellFormed(steps) && Conflict(steps[i].grant.claims, steps[n].grant.claims)
    ensures steps[i].grant.claims.expiresAt as real <= steps[n].now
  {
    var expiresAt := steps[i].grant.claims.expiresAt;
    assert steps[i] in steps;
    LaunchesExactlyWhen(k, steps, n);
    assert !Blocks(k, steps, i, n);
    WholeSeconds(expiresAt, steps[n].now);
    if !Standing(k, steps, i, n) {
      var j :| i < j < n && PurgesAt(k, steps, j, expiresAt);
      WholeSeconds(expiresAt, steps[j].now);
    }
  }

  /** So no grant is launched twice. */
  lemma GrantLaunchesOnce(k: Config, steps: seq<Step>, i: nat, n: nat)
    requires i < n < |steps| && LaunchesAt(k, steps, i) && LaunchesAt(k, steps, n) && Steady(steps)
             && AllWellFormed(steps)
    ensures steps[i].grant != steps[n].grant
  {
    if steps[i].grant == steps[n].grant { LaunchesDoNotOverlap(k, steps, i, n); }
  }

  /** The launches of a run, in order. */
  function LaunchLog(k: Config, steps: seq<Step>, n: nat): seq<Launch>
    requires n <= |steps|
  {
    if n == 0 then []
    else
      var before, s := LaunchLog(k, steps, n - 1), steps[n - 1];
      if LaunchesAt(k, steps, n - 1) then before + [Launch(s.grant, s.now)] else before
  }

  lemma {:induction false} LoggedAreLaunched(k: Config, steps: seq<Step>, n: nat, l: Launch)
    requires n <= |steps| && l in LaunchLog(k, steps, n)
    ensures exists i :: 0 <= i < n && LaunchesAt(k, steps, i) && steps[i].grant == l.grant && steps[i].now == l.at
  {
    if !(LaunchesAt(k, steps, n - 1) && l == Launch(steps[n - 1].grant, steps[n - 1].now)) {
      LoggedAreLaunched(k, steps, n - 1, l);
    }
  }

  lemma {:induction false} LogNeverRepeats(k: Config, steps: seq<Step>, n: nat)
    requires n <= |steps| && Steady(steps) && AllWellFormed(steps)
    ensures forall a, b :: 0 <= a < b < |LaunchLog(k, steps, n)| ==>
              LaunchLog(k, steps, n)[a].grant != LaunchLog(k, steps, n)[b].grant
  {
    if n > 0 {
      LogNeverRepeats(k, steps, n - 1);
      var before := LaunchLog(k, steps, n - 1);
      if LaunchesAt(k, steps, n - 1) {
        forall a | 0 <= a < |before| ensures before[a].grant != steps[n - 1].grant {
          LoggedAreLaunched(k, steps, n - 1, before[a]);
          var i :| 0 <= i < n - 1 && LaunchesAt(k, steps, i) && steps[i].grant == before[a].grant;
          GrantLaunchesOnce(k, steps, i, n - 1);
        }
      }
    }
  }

  /** Any requests and restarts with any readings of the clock: the helper remembers and
      launches what the run prescribes, its table stays within capacity with no triple
      twice, and under a clock that never goes back no grant is launched twice. */
  method Serve(helper: PackageHelper, steps: seq<Step>)
    requires helper.Valid() && helper.Remembers() == Memory(map[], {}) && helper.launches == []
    modifies helper
    ensures helper.Valid() && |helper.rows| <= helper.config.maxEntries && UniqueTriples(helper.rows)
    ensures helper.Remembers() == MemoryAt(helper.config, steps, |steps|)
    ensures helper.launches == LaunchLog(helper.config, steps, |steps|)
    ensures forall l :: l in helper.launches ==>
              && l.grant.genuine && l.grant.keyId == helper.config.keyId
              && l.grant.claims.issuedAt as real <= l.at < l.grant.claims.expiresAt as real
              && l.grant.claims.expiresAt - l.grant.claims.issuedAt <= 900
    ensures forall id :: id in helper.rows ==>
              exists i :: 0 <= i < |steps| && GrantedAt(helper.config, steps[i], id, helper.rows[id])
    ensures Steady(steps) && AllWellFormed(steps) ==>
              forall i, j :: 0 <= i < j < |helper.launches| ==> helper.launches[i].grant != helper.launches[j].grant
  {
    for n := 0 to |steps|
      invariant helper.Valid()
      invariant helper.Remembers() == MemoryAt(helper.config, steps, n)
      invariant helper.launches == LaunchLog(helper.config, steps, n)
    {
      match steps[n]
      case Request(peer, grant, now, boundary) =>
        var _ := helper.Handle(peer, grant, now, boundary);
      case Restarted => helper.Restart();
    }
    forall l | l in helper.launches ensures InForce(l.grant, l.at, helper.config.keyId) {
      LoggedAreLaunched(helper.config, steps, |steps|, l);
      var i :| 0 <= i < |steps| && LaunchesAt(helper.config, steps, i) && steps[i].grant == l.grant
               && steps[i].now == l.at;
      OnlyGrantsInForce(helper.config, steps, i);
    }
    forall id | id in helper.rows
      ensures exists i :: 0 <= i < |steps| && GrantedAt(helper.config, steps[i], id, helper.rows[id])
    {
      RowsAreGranted(helper.config, steps, |steps|, id);
    }
    if Steady(steps) && AllWellFormed(steps) { LogNeverRepeats(helper.config, steps, |steps|); }
  }

  /** One more launch of a grant that nothing blocks. */
  lemma LaunchStep(k: Config, m: Memory, g: Grant, now: real, kept: Rows)
    requires kept == Purged(m.rows, now) && !Taken(kept, g.claims) && |kept| < k.maxEntries
    requires Current(g, now, k.keyId) && KeyOf(g.claims) !in m.seen && |m.seen| < MAX_REPLAY_ENTRIES
    ensures var s := Request(k.agentUid, g, now, Boundary(true, true, true));
            && Launches(k, m, s)
            && Next(k, m, s) == Memory(kept[g.claims.requestId := RowOf(g.claims)], m.seen + {KeyOf(g.claims)})
  {
  }

  // One run with a clock that goes back: a grant is launched, the helper restarts, another
  // grant's request deletes the expired row, and the first grant is launched again.

  const HELPER: Config := Config(3, 7, 2)
  const FIRST: Grant := Grant(Claims(1, 1, 1, 1, 1, 50, 100), 7, true)
  const OTHER: Grant := Grant(Claims(2, 2, 2, 2, 2, 120, 200), 7, true)

  function Asking(g: Grant, now: real): Step { Request(HELPER.agentUid, g, now, Boundary(true, true, true)) }

  function SetBack(): seq<Step> { [Asking(FIRST, 60.0), Restarted, Asking(OTHER, 150.0), Asking(FIRST, 60.0)] }

  lemma FirstLaunch()
    ensures LaunchesAt(HELPER, SetBack(), 0)
    ensures MemoryAt(HELPER, SetBack(), 2) == Memory(map[1 := RowOf(FIRST.claims)], {})
  {
    var none: Rows := map[];
    assert Purged(none, 60.0) == none;
    LaunchStep(HELPER, Memory(none, {}), FIRST, 60.0, none);
    assert MemoryAt(HELPER, SetBack(), 1).rows == map[1 := RowOf(FIRST.claims)];
  }

  lemma OtherLaunch()
    ensures LaunchesAt(HELPER, SetBack(), 2)
    ensures MemoryAt(HELPER, SetBack(), 3) == Memory(map[2 := RowOf(OTHER.claims)], {(2, 2)})
  {
    FirstLaunch();
    var rows: Rows := map[1 := RowOf(FIRST.claims)];
    var none: Rows := map[];
    assert Truncate(150.0) == 150;
    assert Purged(rows, 150.0) == none;
    LaunchStep(HELPER, Memory(rows, {}), OTHER, 150.0, none);
  }

  lemma LaunchAgain()
    ensures LaunchesAt(HELPER, SetBack(), 3)
  {
    OtherLaunch();
    var rows: Rows := map[2 := RowOf(OTHER.claims)];
    assert Truncate(60.0) == 60;
    assert Purged(rows, 60.0) == rows;
    assert |rows| == 1;
    LaunchStep(HELPER, Memory(rows, {(2, 2)}), FIRST, 60.0, rows);
  }

  lemma LogAroundRestart(k: Config, steps: seq<Step>)
    requires |steps| == 4 && steps[1].Restarted?
    requires LaunchesAt(k, steps, 0) && LaunchesAt(k, steps, 2) && LaunchesAt(k, steps, 3)
    ensures LaunchLog(k, steps, 4) == [Launch(steps[0].grant, steps[0].now), Launch(steps[2].grant, steps[2].now),
                                       Launch(steps[3].grant, steps[3].now)]
  {
    assert LaunchLog(k, steps, 1) == [Launch(steps[0].grant, steps[0].now)];
    assert LaunchLog(k, steps, 2) == LaunchLog(k, steps, 1);
    assert LaunchLog(k, steps, 3) == LaunchLog(k, steps, 2) + [Launch(steps[2].grant, steps[2].now)];
  }

  lemma ClockSetBackLaunchesTwice()
    ensures LaunchLog(HELPER, SetBack(), 4) == [Launch(FIRST, 60.0), Launch(OTHER, 150.0), Launch(FIRST, 60.0)]
  {
    FirstLaunch();
    OtherLaunch();
    LaunchAgain();
    LogAroundRestart(HELPER, SetBack());
  }
}
