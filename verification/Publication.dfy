/** The local publication store: append-only targets and discovery channels. */
module Publication {
  import opened Options
  import opened Names

  /** File contents. A digest is modelled by the contents it belongs to, which says that
      different contents have different digests. */
  datatype Raw = TargetDocument(version: nat, body: nat) | OtherBytes(body: nat)

  datatype TargetName = TargetName(version: nat, sha256: Raw)

  datatype Receipt = Receipt(target: TargetName, retained: seq<TargetName>, targetsVersion: int, bundle: nat)

  /** `wellFormed` covers the checks on the remaining fields. */
  datatype ChannelDocument =
    ChannelDocument(channel: nat, target: TargetName, sha256: Raw, targetsVersion: int, wellFormed: bool)

  /** Files of the store; a receipt file whose writing failed holds no receipt that counts.
      `acknowledged` are the targets whose publication was confirmed to a caller. */
  datatype Store = Store(
    targets: map<TargetName, Raw>, receipts: map<Raw, Option<Receipt>>,
    channels: map<nat, ChannelDocument>, acknowledged: set<TargetName>)

  /** How writing a new file ends; a failure may leave part of the file behind. */
  datatype Write<T> = Written | Left(partial: T) | Nothing

  ghost predicate Stored(s: Store, r: Receipt) {
    && r.target in s.targets && s.targets[r.target] == r.target.sha256
    && r.target.sha256 in s.receipts && s.receipts[r.target.sha256] == Some(r)
    && forall t :: t in r.retained ==> t in s.targets
  }

  /** The target is there, with its own receipt. */
  ghost predicate Kept(s: Store, t: TargetName) {
    && t.sha256 in s.receipts && s.receipts[t.sha256].Some?
    && s.receipts[t.sha256].value.target == t && Stored(s, s.receipts[t.sha256].value)
  }

  /** A receipt has a positive version and lists different targets, all of them stored. */
  ghost predicate Sensible(s: Store, r: Receipt) {
    && 1 <= r.targetsVersion && (forall t :: t in r.retained ==> t in s.targets)
    && (forall i, j :: 0 <= i < j < |r.retained| ==> r.retained[i] != r.retained[j])
  }

  ghost predicate Consistent(s: Store) {
    && (forall t :: t in s.acknowledged ==> Kept(s, t))
    && (forall d :: d in s.receipts && s.receipts[d].Some? ==>
          s.receipts[d].value.target.sha256 == d && Sensible(s, s.receipts[d].value))
    && (forall c :: c in s.channels ==>
          var d := s.channels[c];
          d.channel == c && 1 <= d.targetsVersion && d.target in s.targets && s.targets[d.target] == d.sha256)
  }

  /** Every stored target hashes to its own name. */
  ghost predicate SelfNamed(s: Store) { forall t :: t in s.targets ==> s.targets[t] == t.sha256 }

  /** What may happen between two states of the store. */
  ghost predicate Grows(s: Store, s': Store) {
    && (forall t :: t in s.targets ==> t in s'.targets && s'.targets[t] == s.targets[t])
    && s.acknowledged <= s'.acknowledged
    && (forall d :: d in s.receipts ==> d in s'.receipts && s'.receipts[d] == s.receipts[d])
    && (forall c :: c in s.channels ==>
          c in s'.channels
          && (s'.channels[c] == s.channels[c] || s.channels[c].targetsVersion < s'.channels[c].targetsVersion))
  }

  lemma GrowsOn(a: Store, b: Store, c: Store)
    requires Grows(a, b) && Grows(b, c)
    ensures Grows(a, c)
  {
  }

  predicate NameFits(name: TargetName, manifest: Raw) {
    manifest.TargetDocument? && name == TargetName(manifest.version, manifest)
  }

  /** The store accepts this publication: it is new, or it repeats one already made. */
  predicate Acceptable(s: Store, r: Receipt, manifest: Raw) {
    && NameFits(r.target, manifest) && 1 <= r.targetsVersion && Distinct(r.retained)
    && (forall t :: t in r.retained ==> t in s.targets)
  }

  predicate Exists(s: Store, r: Receipt) { r.target in s.targets || r.target.sha256 in s.receipts }

  /** The publication gets as far as writing files. */
  predicate Attempted(s: Store, r: Receipt, manifest: Raw) { Acceptable(s, r, manifest) && !Exists(s, r) }

  predicate Same(s: Store, r: Receipt, manifest: Raw) {
    && r.target in s.targets && s.targets[r.target] == manifest
    && r.target.sha256 in s.receipts && s.receipts[r.target.sha256] == Some(r)
  }

  /** Something of the publication is in the store, and not all of it: it is refused. */
  predicate Blocked(s: Store, r: Receipt, manifest: Raw) {
    NameFits(r.target, manifest) && Exists(s, r) && !Same(s, r, manifest)
  }

  /** The write of the target itself stopped and left something else under its name. */
  ghost predicate LeavesPartialTarget(s: Store, r: Receipt, manifest: Raw, w: Write<Raw>) {
    Attempted(s, r, manifest) && w.Left? && w.partial != manifest
  }

  // ---- what the calls do to the store -------------------------------------------------------

  function WithTarget(s: Store, r: Receipt, content: Raw): Store { s.(targets := s.targets[r.target := content]) }

  /** The store after a call. When the receipt cannot be written the new target is removed
      again, unless that fails too or the process dies first (`cleaned` is false).  A receipt
      write that fails may leave the whole receipt (`Left(true)`) or a part of it. */
  function AfterTarget(s: Store, r: Receipt, manifest: Raw, targetWrite: Write<Raw>, receiptWrite: Write<bool>,
                       cleaned: bool): Store
  {
    if !Acceptable(s, r, manifest) then s
    else if Exists(s, r) then
      if Same(s, r, manifest) then s.(acknowledged := s.acknowledged + {r.target}) else s
    else match targetWrite
      case Nothing => s
      case Left(partial) => WithTarget(s, r, partial)
      case Written =>
        var behind := if cleaned then s else WithTarget(s, r, manifest);
        match receiptWrite
        case Nothing => behind
        case Left(whole) => behind.(receipts := s.receipts[r.target.sha256 := if whole then Some(r) else None])
        case Written =>
          WithTarget(s, r, manifest).(receipts := s.receipts[r.target.sha256 := Some(r)],
                                      acknowledged := s.acknowledged + {r.target})
  }

  predicate ChannelAccepted(s: Store, channel: nat, d: ChannelDocument) {
    && d.wellFormed && d.channel == channel && 1 <= d.targetsVersion
    && d.target in s.targets && s.targets[d.target] == d.sha256
    && (channel !in s.channels || s.channels[channel] == d || s.channels[channel].targetsVersion < d.targetsVersion)
  }

  function AfterChannel(s: Store, channel: nat, d: ChannelDocument, replaced: bool): Store {
    if ChannelAccepted(s, channel, d) && replaced then s.(channels := s.channels[channel := d]) else s
  }

  lemma TargetGrows(s: Store, r: Receipt, manifest: Raw, targetWrite: Write<Raw>, receiptWrite: Write<bool>,
                    cleaned: bool)
    ensures Grows(s, AfterTarget(s, r, manifest, targetWrite, receiptWrite, cleaned))
  {
  }

  /** A store that grew keeps its acknowledged targets and its channels. */
  lemma GrowthKeeps(s: Store, s': Store)
    requires Consistent(s) && Grows(s, s') && s'.channels == s.channels
    requires forall t :: t in s'.acknowledged && t !in s.acknowledged ==> Kept(s', t)
    requires forall d :: d in s'.receipts && d !in s.receipts && s'.receipts[d].Some? ==>
               s'.receipts[d].value.target.sha256 == d && Sensible(s', s'.receipts[d].value)
    ensures Consistent(s')
  {
    assert forall t :: t in s.acknowledged ==> Kept(s, t) && Kept(s', t);
    assert forall d :: d in s.receipts && s.receipts[d].Some? ==>
             Sensible(s, s.receipts[d].value) && Sensible(s', s'.receipts[d].value);
  }

  lemma TargetNames(s: Store, r: Receipt, manifest: Raw, targetWrite: Write<Raw>, receiptWrite: Write<bool>,
                    cleaned: bool)
    requires SelfNamed(s)
    ensures SelfNamed(AfterTarget(s, r, manifest, targetWrite, receiptWrite, cleaned)) <==>
            !LeavesPartialTarget(s, r, manifest, targetWrite)
  {
    var s' := AfterTarget(s, r, manifest, targetWrite, receiptWrite, cleaned);
    assert LeavesPartialTarget(s, r, manifest, targetWrite) ==> s'.targets[r.target] != r.target.sha256;
  }

  lemma TargetKeeps(s: Store, r: Receipt, manifest: Raw, targetWrite: Write<Raw>, receiptWrite: Write<bool>,
                    cleaned: bool)
    requires Consistent(s)
    ensures var s' := AfterTarget(s, r, manifest, targetWrite, receiptWrite, cleaned);
            Consistent(s') && Grows(s, s')
  {
    TargetGrows(s, r, manifest, targetWrite, receiptWrite, cleaned);
    GrowthKeeps(s, AfterTarget(s, r, manifest, targetWrite, receiptWrite, cleaned));
  }

  lemma ChannelKeeps(s: Store, channel: nat, d: ChannelDocument, replaced: bool)
    requires Consistent(s)
    ensures var s' := AfterChannel(s, channel, d, replaced);
            Consistent(s') && Grows(s, s') && s'.targets == s.targets
  {
    var s' := AfterChannel(s, channel, d, replaced);
    assert forall t :: t in s.acknowledged ==> Kept(s, t) && Kept(s', t);
    assert forall r :: Sensible(s, r) ==> Sensible(s', r);
  }

  class LocalPublicationStore {
    var now: Store
    var history: seq<Store>

    ghost predicate Valid()
      reads this
    {
      && history != [] && history[|history| - 1] == now
      && (forall i :: 0 <= i < |history| ==> Consistent(history[i]))
      && (forall i, j :: 0 <= i < j < |history| ==> Grows(history[i], history[j]))
    }

    constructor ()
      ensures Valid() && now == Store(map[], map[], map[], {})
    {
      now := Store(map[], map[], map[], {});
      history := [Store(map[], map[], map[], {})];
    }

    method Become(next: Store)
      requires Valid() && Consistent(next) && Grows(now, next)
      modifies this
      ensures Valid() && now == next && history == old(history) + [next]
    {
      forall i | 0 <= i < |history| ensures Grows(history[i], next) {
        if i < |history| - 1 { GrowsOn(history[i], now, next); }
      }
      now := next;
      history := history + [next];
    }

    /** Publish a target and its receipt, unless they exist. */
    method PublishTarget(r: Receipt, manifest: Raw, targetWrite: Write<Raw>, receiptWrite: Write<bool>, cleaned: bool)
      returns (receipt: Option<Receipt>)
      requires Valid()
      modifies this
      ensures Valid() && old(history) <= history
      ensures now == AfterTarget(old(now), r, manifest, targetWrite, receiptWrite, cleaned)
      ensures receipt.Some? <==> && Acceptable(old(now), r, manifest)
                                 && (Same(old(now), r, manifest)
                                     || (!Exists(old(now), r) && targetWrite.Written? && receiptWrite.Written?))
      ensures receipt.Some? <==>
              && manifest.TargetDocument? && r.target.version == manifest.version && r.target.sha256 == manifest
              && Sensible(old(now), r)
              && (if r.target in old(now).targets || manifest in old(now).receipts then
                    && r.target in old(now).targets && old(now).targets[r.target] == manifest
                    && manifest in old(now).receipts && old(now).receipts[manifest] == Some(r)
                  else targetWrite.Written? && receiptWrite.Written?)
      ensures receipt.Some? ==> receipt.value == r && r.target in now.acknowledged && Stored(now, r)
      ensures receipt.None? ==> now.acknowledged == old(now).acknowledged
      ensures Same(old(now), r, manifest) && r.target in old(now).acknowledged && Acceptable(old(now), r, manifest) ==>
                receipt == Some(r) && now == old(now)
    {
      assert Consistent(now);
      TargetKeeps(now, r, manifest, targetWrite, receiptWrite, cleaned);
      if !Acceptable(now, r, manifest) { return None; }
      if Exists(now, r) {
        if !Same(now, r, manifest) { return None; }
        var next := now.(acknowledged := now.acknowledged + {r.target});
        if next != now { Become(next); }
        return Some(r);
      }
      if targetWrite.Nothing? { return None; }
      if targetWrite.Left? {
        Become(WithTarget(now, r, targetWrite.partial));
        return None;
      }
      if !receiptWrite.Written? {
        var behind := if cleaned then now else WithTarget(now, r, manifest);
        if receiptWrite.Left? {
          var content := if receiptWrite.partial then Some(r) else None;
          behind := behind.(receipts := now.receipts[r.target.sha256 := content]);
        }
        if behind != now { Become(behind); }
        return None;
      }
      Become(WithTarget(now, r, manifest).(receipts := now.receipts[r.target.sha256 := Some(r)],
                                           acknowledged := now.acknowledged + {r.target}));
      return Some(r);
    }

    /** Move a channel forward to a published target. */
    method PublishChannel(channel: nat, d: ChannelDocument, replaced: bool, synced: bool) returns (ok: bool)
      requires Valid()
      modifies this
      ensures Valid() && old(history) <= history
      ensures now == AfterChannel(old(now), channel, d, replaced)
      ensures ok <==> && ChannelAccepted(old(now), channel, d)
                      && ((channel in old(now).channels && old(now).channels[channel] == d) || (replaced && synced))
      ensures ok <==>
              && d.wellFormed && d.channel == channel && d.targetsVersion >= 1
              && d.target in old(now).targets && old(now).targets[d.target] == d.sha256
              && (channel in old(now).channels && old(now).channels[channel] != d ==>
                    old(now).channels[channel].targetsVersion < d.targetsVersion)
              && ((channel in old(now).channels && old(now).channels[channel] == d) || (replaced && synced))
      ensures ok ==> channel in now.channels && now.channels[channel] == d
    {
      assert Consistent(now);
      ChannelKeeps(now, channel, d, replaced);
      if !d.wellFormed || d.channel != channel || d.targetsVersion < 1 { return false; }
      if d.target !in now.targets || now.targets[d.target] != d.sha256 { return false; }
      if channel in now.channels {
        if now.channels[channel] == d {
          assert now.channels == now.channels[channel := d];
          return true;
        }
        if d.targetsVersion <= now.channels[channel].targetsVersion { return false; }
      }
      if !replaced { return false; }
      Become(now.(channels := now.channels[channel := d]));
      return synced;
    }
  }

  // ---- whole runs ---------------------------------------------------------------------------

  datatype Call =
    | Target(receipt: Receipt, manifest: Raw, targetWrite: Write<Raw>, receiptWrite: Write<bool>, cleaned: bool)
    | Channel(channel: nat, document: ChannelDocument, replaced: bool, synced: bool)

  function After(s: Store, c: Call): Store {
    match c
    case Target(receipt, manifest, targetWrite, receiptWrite, cleaned) =>
      AfterTarget(s, receipt, manifest, targetWrite, receiptWrite, cleaned)
    case Channel(channel, document, replaced, _) => AfterChannel(s, channel, document, replaced)
  }

  /** The store in which call `k` is made. */
  function Before(s: Store, calls: seq<Call>, k: nat): Store
    requires k <= |calls|
  {
    if k == 0 then s else After(Before(s, calls, k - 1), calls[k - 1])
  }

  /** Call `k` writes a target that is cut short. */
  ghost predicate CutShort(s: Store, calls: seq<Call>, k: nat)
    requires k < |calls|
  {
    calls[k].Target? && LeavesPartialTarget(Before(s, calls, k), calls[k].receipt, calls[k].manifest,
                                            calls[k].targetWrite)
  }

  /** The writes of a call leave both files whole or neither of them. */
  predicate AllOrNothing(targetWrite: Write<Raw>, receiptWrite: Write<bool>, cleaned: bool) {
    match targetWrite
    case Nothing => true
    case Left(_) => false
    case Written =>
      receiptWrite.Written? || (if receiptWrite.Nothing? then cleaned else receiptWrite.partial && !cleaned)
  }

  /** A publication can be made again exactly when the call left both files whole or neither. */
  lemma RetryIsAccepted(s: Store, r: Receipt, manifest: Raw, targetWrite: Write<Raw>, receiptWrite: Write<bool>,
                        cleaned: bool)
    requires Attempted(s, r, manifest)
    ensures var s' := AfterTarget(s, r, manifest, targetWrite, receiptWrite, cleaned);
            Acceptable(s', r, manifest)
            && (!Blocked(s', r, manifest) <==> AllOrNothing(targetWrite, receiptWrite, cleaned))
  {
  }

  lemma BlockedStep(s: Store, c: Call, r: Receipt, manifest: Raw)
    requires Blocked(s, r, manifest)
    ensures Blocked(After(s, c), r, manifest)
  {
  }

  /** What is left half done blocks the publication in every later state. */
  lemma {:induction false} BlockedForGood(s: Store, calls: seq<Call>, k: nat, r: Receipt, manifest: Raw)
    requires k <= |calls| && Blocked(s, r, manifest)
    ensures Blocked(Before(s, calls, k), r, manifest)
  {
    if k > 0 {
      BlockedForGood(s, calls, k - 1, r, manifest);
      BlockedStep(Before(s, calls, k - 1), calls[k - 1], r, manifest);
    }
  }

  /** What is misnamed once stays misnamed. */
  lemma MisnamedForGood(s: Store, later: Store)
    requires Grows(s, later) && SelfNamed(later)
    ensures SelfNamed(s)
  {
  }

  /** One more call leaves names and contents in agreement exactly when they agreed before
      and the call was not cut short. */
  lemma NamesStep(s: Store, calls: seq<Call>, k: nat)
    requires k < |calls| && Consistent(Before(s, calls, k))
    ensures SelfNamed(Before(s, calls, k + 1)) <==> SelfNamed(Before(s, calls, k)) && !CutShort(s, calls, k)
  {
    var before := Before(s, calls, k);
    match calls[k]
    case Target(r, manifest, targetWrite, receiptWrite, cleaned) =>
      TargetKeeps(before, r, manifest, targetWrite, receiptWrite, cleaned);
      if SelfNamed(before) { TargetNames(before, r, manifest, targetWrite, receiptWrite, cleaned); }
      if SelfNamed(Before(s, calls, k + 1)) { MisnamedForGood(before, Before(s, calls, k + 1)); }
    case Channel(channel, document, replaced, _) =>
      ChannelKeeps(before, channel, document, replaced);
  }

  /** Any sequence of calls, with any failures: acknowledged targets stay as they are,
      channels point at stored targets and only move forward, and from a store whose
      targets hash to their names, they still do at the end if and only if no call was cut
      short in the state in which it was made. */
  method Publish(store: LocalPublicationStore, calls: seq<Call>)
    requires store.Valid()
    modifies store
    ensures store.Valid() && old(store.history) <= store.history
    ensures store.now == Before(old(store.now), calls, |calls|)
    ensures forall i, j :: 0 <= i < j < |store.history| ==> Grows(store.history[i], store.history[j])
    ensures SelfNamed(old(store.now)) ==>
              (SelfNamed(store.now) <==> forall k :: 0 <= k < |calls| ==> !CutShort(old(store.now), calls, k))
  {
    ghost var s := store.now;
    for k := 0 to |calls|
      invariant store.Valid() && old(store.history) <= store.history
      invariant store.now == Before(s, calls, k)
      invariant SelfNamed(s) ==> (SelfNamed(store.now) <==> forall j :: 0 <= j < k ==> !CutShort(s, calls, j))
    {
      assert Consistent(store.now);
      NamesStep(s, calls, k);
      match calls[k]
      case Target(receipt, manifest, targetWrite, receiptWrite, cleaned) =>
        var _ := store.PublishTarget(receipt, manifest, targetWrite, receiptWrite, cleaned);
      case Channel(channel, document, replaced, synced) =>
        var _ := store.PublishChannel(channel, document, replaced, synced);
    }
  }

  // A first publication into an empty store, and two ways in which it goes wrong.

  const EMPTY: Store := Store(map[], map[], map[], {})
  const MANIFEST: Raw := TargetDocument(1, 5)
  const RECEIPT: Receipt := Receipt(TargetName(1, MANIFEST), [], 1, 0)

  /** One call whose target is cut short leaves a target that does not hash to its name. */
  lemma CutShortMisnames()
    ensures var calls := [Target(RECEIPT, MANIFEST, Left(OtherBytes(5)), Nothing, true)];
            && SelfNamed(EMPTY) && CutShort(EMPTY, calls, 0) && !SelfNamed(Before(EMPTY, calls, 1))
  {
    var calls := [Target(RECEIPT, MANIFEST, Left(OtherBytes(5)), Nothing, true)];
    assert Before(EMPTY, calls, 0) == EMPTY;
    assert RECEIPT.target in Before(EMPTY, calls, 1).targets;
  }

  /** One call that leaves a part of its receipt blocks the target, whatever is called later. */
  lemma PartialReceiptBlocks(calls: seq<Call>, k: nat)
    requires k <= |calls|
    ensures var left := AfterTarget(EMPTY, RECEIPT, MANIFEST, Written, Left(false), true);
            RECEIPT.target !in left.targets && Blocked(Before(left, calls, k), RECEIPT, MANIFEST)
  {
    var left := AfterTarget(EMPTY, RECEIPT, MANIFEST, Written, Left(false), true);
    RetryIsAccepted(EMPTY, RECEIPT, MANIFEST, Written, Left(false), true);
    BlockedForGood(left, calls, k, RECEIPT, MANIFEST);
  }
}
