/** The agent's credential generations: a directory of small files that is updated
    one atomic file operation at a time. */
module Credentials {
  import opened Options

  const MAX_GENERATION := 99_999_999

  datatype Purpose = Enrollment | Rotation

  /** Keys are identified by their public half. */
  datatype PrivateKey = PrivateKey(public: nat)
  datatype Csr = Csr(node: nat, public: nat)

  /** The metadata names a request by the digest of its CSR, taken to be collision
      free: the CSR itself stands for its digest. */
  datatype PendingMeta = PendingMeta(csr: Csr, node: nat, purpose: Purpose)

  /** `serial` stands for serial number, validity and fingerprint together. */
  datatype Certificate = Certificate(node: nat, public: nat, serial: nat)
  datatype Document = Document(node: nat, generation: nat, serial: nat)
  /** `authentic` says whether the certificate comes from the configured authority and is
      valid now; only the first enrollment asks. */
  datatype IssuedCredential =
    IssuedCredential(node: nat, generation: nat, serial: nat, certificate: Certificate, authentic: bool)
  {
    function Describe(): Document { Document(node, generation, serial) }
  }

  datatype Generation = Generation(key: Option<PrivateKey>, certificate: Option<Certificate>,
                                   document: Option<Document>)

  const EMPTY: Generation := Generation(None, None, None)

  datatype Files = Files(
    meta: Option<PendingMeta>,
    key: Option<PrivateKey>,
    csr: Option<Csr>,
    active: Option<nat>,
    staged: Option<nat>,
    generations: map<nat, Generation>,
    temporaries: map<nat, Generation>)
  {
    function ActiveGeneration(): nat { if active.None? then 1 else active.value }
  }

  const NO_FILES: Files := Files(None, None, None, None, None, map[], map[])

  predicate IssuedKeyValid(issued: IssuedCredential, key: PrivateKey) {
    && issued.certificate.public == key.public
    && issued.certificate.node == issued.node
    && issued.certificate.serial == issued.serial
  }

  /** What verifying a generation accepts, with or without an expected credential. */
  predicate GenerationVerifies(f: Files, n: nat, expected: Option<IssuedCredential>) {
    && 1 <= n <= MAX_GENERATION
    && n in f.generations
    && var g := f.generations[n];
       && g.document.Some? && g.certificate.Some? && g.key.Some?
       && g.document.value.generation == n
       && (expected.Some? ==>
             && g.document.value == expected.value.Describe()
             && g.certificate.value == expected.value.certificate
             && IssuedKeyValid(expected.value, g.key.value))
  }

  /** Pending metadata has its CSR and the key that signed it. */
  predicate PendingMatches(f: Files) {
    f.meta.Some? ==>
      && f.csr == Some(f.meta.value.csr)
      && f.key == Some(PrivateKey(f.meta.value.csr.public))
  }

  /** Generation one is active and its enrollment request is still being removed. */
  predicate EnrollmentWindow(f: Files) {
    f.active == Some(1) && f.meta.Some? && f.meta.value.purpose.Enrollment?
  }

  /** What opening the store accepts. */
  predicate Opens(f: Files) {
    && (f.active.Some? ==> GenerationVerifies(f, f.active.value, None))
    && (f.staged.Some? ==> GenerationVerifies(f, f.staged.value, None))
    && (EnrollmentWindow(f) || PendingMatches(f))
  }

  /** A complete generation, whose certificate is for its key and for the node and the
      serial number that its document names. */
  ghost predicate Paired(g: Generation) {
    && g.key.Some? && g.certificate.Some? && g.document.Some?
    && g.certificate.value.public == g.key.value.public
    && g.certificate.value.node == g.document.value.node
    && g.certificate.value.serial == g.document.value.serial
  }

  ghost predicate Sound(f: Files) {
    && Opens(f)
    && (f.staged.Some? ==> f.ActiveGeneration() <= f.staged.value && PendingMatches(f))
    && (forall n :: n in f.generations ==> GenerationVerifies(f, n, None) && Paired(f.generations[n]))
  }

  /** Nothing a later store holds contradicts an earlier one: generations are never
      changed or removed, and the active generation never goes back. */
  ghost predicate Precedes(a: Files, b: Files) {
    && a.ActiveGeneration() <= b.ActiveGeneration()
    && (a.active.Some? ==> b.active.Some?)
    && (forall n :: n in a.generations ==> n in b.generations && a.generations[n] == b.generations[n])
  }

  function Prepared(f: Files, node: nat, purpose: Purpose, key: PrivateKey): Files {
    var csr := Csr(node, key.public);
    f.(key := Some(key), csr := Some(csr), meta := Some(PendingMeta(csr, node, purpose)))
  }

  function Built(issued: IssuedCredential, key: PrivateKey): Generation {
    Generation(Some(key), Some(issued.certificate), Some(issued.Describe()))
  }

  /** The generation is in place, whether it is new or was there before. */
  function WithGeneration(f: Files, issued: IssuedCredential, key: PrivateKey): Files {
    if issued.generation in f.generations then f
    else f.(generations := f.generations[issued.generation := Built(issued, key)])
  }

  function Unpended(f: Files): Files {
    f.(staged := None, meta := None, key := None, csr := None)
  }

  function PublishedFiles(f: Files, n: nat): Files {
    Unpended(f.(active := Some(n)))
  }

  /** The pending request of this kind for this node, ready for an answer. */
  predicate Awaiting(f: Files, node: nat, purpose: Purpose) {
    f.meta.Some? && PendingMatches(f) && f.meta.value.node == node && f.meta.value.purpose == purpose
  }

  predicate GenerationPlaceable(f: Files, issued: IssuedCredential, existingReported: bool) {
    issued.generation !in f.generations || (existingReported && GenerationVerifies(f, issued.generation, Some(issued)))
  }

  /** The answer fits the pending rotation, apart from any directory already there. */
  predicate Answers(f: Files, issued: IssuedCredential) {
    && Awaiting(f, issued.node, Rotation)
    && f.ActiveGeneration() < issued.generation <= MAX_GENERATION
    && IssuedKeyValid(issued, f.key.value)
  }

  predicate StageAccepted(f: Files, issued: IssuedCredential, existingReported: bool) {
    Answers(f, issued) && GenerationPlaceable(f, issued, existingReported)
  }

  predicate InstallAccepted(f: Files, issued: IssuedCredential, existingReported: bool) {
    && issued.generation == 1
    && if f.active.Some? then f.active.value == 1 && GenerationVerifies(f, 1, Some(issued))
       else
         && Awaiting(f, issued.node, Enrollment) && issued.authentic
         && IssuedKeyValid(issued, f.key.value)
         && GenerationPlaceable(f, issued, existingReported)
  }

  /** The credential is for the pending request of this kind: for its node, and for the
      key that is kept beside it. */
  ghost predicate ForRequest(f: Files, issued: IssuedCredential, purpose: Purpose) {
    && f.meta.Some? && f.csr == Some(f.meta.value.csr) && f.key.Some?
    && f.meta.value.node == issued.node && f.meta.value.purpose == purpose
    && f.key.value.public == f.meta.value.csr.public
    && issued.certificate.public == f.key.value.public
    && issued.certificate.node == issued.node && issued.certificate.serial == issued.serial
  }

  /** The generation holds this credential, with this key. */
  ghost predicate Holds(f: Files, issued: IssuedCredential, key: Option<PrivateKey>) {
    && issued.generation in f.generations
    && f.generations[issued.generation] ==
         Generation(key, Some(issued.certificate), Some(Document(issued.node, issued.generation, issued.serial)))
  }

  /** An answer is staged exactly when it is for the pending rotation, newer than what is
      active, and its place is free or, where that is reported, taken by the same. */
  ghost predicate Stageable(f: Files, issued: IssuedCredential, existingReported: bool) {
    && ForRequest(f, issued, Rotation)
    && (match f.active case None => 1 < issued.generation case Some(n) => n < issued.generation)
    && issued.generation <= MAX_GENERATION
    && (issued.generation in f.generations ==> existingReported && Holds(f, issued, f.key))
  }

  /** A first credential is installed exactly when it is for the pending enrollment,
      authentic, and generation one is free or taken by the same; or when it is active
      already. */
  ghost predicate Installable(f: Files, issued: IssuedCredential, existingReported: bool) {
    && issued.generation == 1
    && match f.active
       case None =>
         && ForRequest(f, issued, Enrollment) && issued.authentic
         && (1 in f.generations ==> existingReported && Holds(f, issued, f.key))
       case Some(n) =>
         && n == 1 && Holds(f, issued, Some(PrivateKey(issued.certificate.public)))
         && issued.certificate.node == issued.node && issued.certificate.serial == issued.serial
  }

  lemma AcceptedIsStageable(f: Files, issued: IssuedCredential, existingReported: bool)
    ensures StageAccepted(f, issued, existingReported) <==> Stageable(f, issued, existingReported)
  {
  }

  lemma AcceptedIsInstallable(f: Files, issued: IssuedCredential, existingReported: bool)
    ensures InstallAccepted(f, issued, existingReported) <==> Installable(f, issued, existingReported)
  {
  }

  // ---- the stores each operation passes through -----------------------------

  function PrepareTrail(f: Files, node: nat, purpose: Purpose, key: PrivateKey): seq<Files> {
    var clean := f.(meta := None, key := None, csr := None);
    var csr := Csr(node, key.public);
    [ f.(meta := None),
      f.(meta := None, key := None),
      clean,
      clean.(key := Some(key)),
      clean.(key := Some(key), csr := Some(csr)),
      Prepared(f, node, purpose, key) ]
  }

  function BuildTrail(f: Files, issued: IssuedCredential, key: PrivateKey, token: nat): seq<Files> {
    [ f.(temporaries := f.temporaries[token := EMPTY]),
      f.(temporaries := f.temporaries[token := Generation(Some(key), None, None)]),
      f.(temporaries := f.temporaries[token := Generation(Some(key), Some(issued.certificate), None)]),
      f.(temporaries := f.temporaries[token := Built(issued, key)]) ]
  }

  function RemoveTrail(f: Files, token: nat): seq<Files>
    requires token in f.temporaries
  {
    var g := f.temporaries[token];
    [ f.(temporaries := f.temporaries[token := g.(key := None)]),
      f.(temporaries := f.temporaries[token := g.(key := None, certificate := None)]),
      f.(temporaries := f.temporaries[token := EMPTY]),
      f.(temporaries := f.temporaries - {token}) ]
  }

  /** Publishing drops the request's metadata before its key and CSR, so that what
      is left after a crash is no request at all. */
  function PublishTrail(f: Files, n: nat): seq<Files> {
    var a := f.(active := Some(n));
    [ a,
      a.(staged := None),
      a.(staged := None, meta := None),
      a.(staged := None, meta := None, key := None),
      PublishedFiles(f, n) ]
  }

  /** Clearing an enrollment drops the metadata last, so that an interruption is
      recognisable. */
  function ClearTrail(f: Files): seq<Files> {
    [ f.(staged := None),
      f.(staged := None, key := None),
      f.(staged := None, key := None, csr := None),
      Unpended(f) ]
  }

  /** A temporary directory is made, removed when empty, or one of its files is written or
      removed. */
  ghost predicate OneTemporary(a: map<nat, Generation>, b: map<nat, Generation>) {
    exists token ::
      || (token !in a && b == a[token := EMPTY])
      || (token in a && a[token] == EMPTY && b == a - {token})
      || (token in a && token in b && b == a[token := b[token]]
          && (|| b[token] == a[token].(key := b[token].key)
              || b[token] == a[token].(certificate := b[token].certificate)
              || b[token] == a[token].(document := b[token].document)))
  }

  /** A temporary directory becomes a generation. */
  ghost predicate Renamed(a: Files, b: Files) {
    exists token: nat, n: nat ::
      && token in a.temporaries && n !in a.generations
      && b == a.(generations := a.generations[n := a.temporaries[token]], temporaries := a.temporaries - {token})
  }

  /** At most one atomic file operation lies between the two stores. */
  ghost predicate OneOperation(a: Files, b: Files) {
    || b == a.(meta := b.meta) || b == a.(key := b.key) || b == a.(csr := b.csr)
    || b == a.(active := b.active) || b == a.(staged := b.staged)
    || (b == a.(temporaries := b.temporaries) && OneTemporary(a.temporaries, b.temporaries))
    || Renamed(a, b)
  }

  /** Every store on the trail is sound and follows from the one before it by one file
      operation. */
  ghost predicate SafeTrail(f: Files, trail: seq<Files>) {
    && (forall i :: 0 <= i < |trail| ==> Sound(trail[i]))
    && (trail != [] ==> Precedes(f, trail[0]))
    && (forall i, j :: 0 <= i < j < |trail| && j == i + 1 ==> Precedes(trail[i], trail[j]))
    && StepByStep([f] + trail)
  }

  ghost predicate StepByStep(stores: seq<Files>) {
    forall i, j {:trigger OneOperation(stores[i], stores[j])} ::
      0 <= i < j < |stores| && j == i + 1 ==> OneOperation(stores[i], stores[j])
  }

  lemma SameGenerationsVerify(f: Files, g: Files)
    requires Sound(f) && f.generations == g.generations
    ensures forall n :: n in g.generations ==> GenerationVerifies(g, n, None) && Paired(g.generations[n])
    ensures forall n :: GenerationVerifies(f, n, None) ==> GenerationVerifies(g, n, None)
  {
    forall n | n in g.generations ensures GenerationVerifies(g, n, None) && Paired(g.generations[n]) {
      assert GenerationVerifies(f, n, None) && Paired(f.generations[n]);
    }
  }

  lemma PrepareTrailIsSafe(f: Files, node: nat, purpose: Purpose, key: PrivateKey)
    requires Sound(f) && f.meta.None?
    ensures SafeTrail(f, PrepareTrail(f, node, purpose, key))
  {
    var trail := PrepareTrail(f, node, purpose, key);
    forall i | 0 <= i < |trail| ensures Sound(trail[i]) {
      SameGenerationsVerify(f, trail[i]);
    }
  }

  /** One file of a temporary directory is written or removed. */
  lemma OneTemporaryFile(a: Files, b: Files, token: nat, g: Generation)
    requires token in a.temporaries && b == a.(temporaries := a.temporaries[token := g])
    requires || g == a.temporaries[token].(key := g.key)
             || g == a.temporaries[token].(certificate := g.certificate)
             || g == a.temporaries[token].(document := g.document)
    ensures OneOperation(a, b)
  {
    assert b.temporaries[token] == g;
    assert OneTemporary(a.temporaries, b.temporaries);
  }

  lemma FourSteps(s: seq<Files>)
    requires |s| == 5
    requires OneOperation(s[0], s[1]) && OneOperation(s[1], s[2]) && OneOperation(s[2], s[3])
             && OneOperation(s[3], s[4])
    ensures StepByStep(s)
  {
  }

  lemma BuildTrailSteps(f: Files, issued: IssuedCredential, key: PrivateKey, token: nat)
    requires token !in f.temporaries
    ensures StepByStep([f] + BuildTrail(f, issued, key, token))
  {
    var trail := BuildTrail(f, issued, key, token);
    assert OneTemporary(f.temporaries, trail[0].temporaries);
    forall i, j | 0 <= i < j < |trail| && j == i + 1 ensures OneOperation(trail[i], trail[j]) {
      assert trail[j].temporaries == trail[i].temporaries[token := trail[j].temporaries[token]];
      OneTemporaryFile(trail[i], trail[j], token, trail[j].temporaries[token]);
    }
    FourSteps([f] + trail);
  }

  lemma RemoveTrailSteps(f: Files, token: nat)
    requires token in f.temporaries
    ensures StepByStep([f] + RemoveTrail(f, token))
  {
    var trail := RemoveTrail(f, token);
    var g := f.temporaries[token];
    OneTemporaryFile(f, trail[0], token, g.(key := None));
    var left := g.(key := None, certificate := None);
    assert trail[1] == trail[0].(temporaries := trail[0].temporaries[token := left]) by {
      assert trail[1].temporaries == trail[0].temporaries[token := left];
    }
    OneTemporaryFile(trail[0], trail[1], token, left);
    assert trail[2] == trail[1].(temporaries := trail[1].temporaries[token := EMPTY]) by {
      assert trail[2].temporaries == trail[1].temporaries[token := EMPTY];
    }
    OneTemporaryFile(trail[1], trail[2], token, EMPTY);
    LastRemoval(trail[2], trail[3], token);
    FourSteps([f] + trail);
  }

  lemma LastRemoval(a: Files, b: Files, token: nat)
    requires token in a.temporaries && a.temporaries[token] == EMPTY && b == a.(temporaries := b.temporaries)
    requires b.temporaries == a.temporaries - {token}
    ensures OneOperation(a, b)
  {
    assert OneTemporary(a.temporaries, b.temporaries);
  }

  /** Nothing but temporary directories differs along the trail. */
  lemma TemporariesAreSafe(f: Files, trail: seq<Files>)
    requires Sound(f) && forall i :: 0 <= i < |trail| ==> trail[i] == f.(temporaries := trail[i].temporaries)
    requires StepByStep([f] + trail)
    ensures SafeTrail(f, trail)
  {
    forall i | 0 <= i < |trail| ensures Sound(trail[i]) {
      SameGenerationsVerify(f, trail[i]);
    }
  }

  lemma PublishTrailIsSafe(f: Files, n: nat)
    requires Sound(f) && f.staged == Some(n)
    ensures SafeTrail(f, PublishTrail(f, n))
  {
    var trail := PublishTrail(f, n);
    forall i | 0 <= i < |trail| ensures Sound(trail[i]) {
      SameGenerationsVerify(f, trail[i]);
    }
  }

  lemma ClearTrailIsSafe(f: Files)
    requires Sound(f) && f.active == Some(1) && (f.meta.Some? ==> f.meta.value.purpose.Enrollment?)
    ensures SafeTrail(f, ClearTrail(f))
  {
    var trail := ClearTrail(f);
    forall i | 0 <= i < |trail| ensures Sound(trail[i]) {
      SameGenerationsVerify(f, trail[i]);
    }
  }

  lemma ClearTrailKeeps(f: Files)
    ensures forall g :: g in ClearTrail(f) ==>
              && g.temporaries == f.temporaries && g.active == f.active
              && (g.meta.Some? ==> g.meta == f.meta)
    ensures Strands(f, ClearTrail(f), 0)
  {
  }

  lemma RenameIsSafe(f: Files, issued: IssuedCredential, key: PrivateKey, token: nat, renamed: Files)
    requires Sound(f) && issued.generation !in f.generations && 1 <= issued.generation <= MAX_GENERATION
    requires IssuedKeyValid(issued, key)
    requires token in f.temporaries && f.temporaries[token] == Built(issued, key)
    requires renamed == f.(generations := f.generations[issued.generation := Built(issued, key)],
                           temporaries := f.temporaries - {token})
    ensures SafeTrail(f, [renamed])
  {
    assert Renamed(f, renamed);
    forall n | n in renamed.generations ensures GenerationVerifies(renamed, n, None) && Paired(renamed.generations[n]) {
      if n in f.generations { assert GenerationVerifies(f, n, None) && Paired(f.generations[n]); }
    }
  }

  // ---- generations that nothing points to ---------------------------------------

  /** The generation is in place, but neither staged nor active. */
  predicate Orphaned(f: Files, n: nat) { n in f.generations && f.staged != Some(n) && f.active != Some(n) }

  /** What is orphaned in `f` is orphaned in all stores of the trail. */
  ghost predicate Strands(f: Files, trail: seq<Files>, from: nat) {
    forall i, n {:trigger Orphaned(trail[i], n)} :: from <= i < |trail| && Orphaned(f, n) ==> Orphaned(trail[i], n)
  }

  lemma PrepareTrailStrands(f: Files, node: nat, purpose: Purpose, key: PrivateKey)
    ensures Strands(f, PrepareTrail(f, node, purpose, key), 0)
    ensures forall i :: 0 <= i < 6 ==> PrepareTrail(f, node, purpose, key)[i].active == f.active
  {
  }

  lemma StrandsOn(f: Files, history: seq<Files>, from: nat, longer: seq<Files>)
    requires 0 < from <= |history| && history[from - 1] == f && Strands(f, history, from)
    requires history <= longer && Strands(history[|history| - 1], longer, |history|)
    ensures Strands(f, longer, from)
  {
    forall i, n | from <= i < |longer| && Orphaned(f, n) ensures Orphaned(longer[i], n) {
      if i < |history| {
        assert Orphaned(history[i], n);
      } else if from < |history| {
        assert Orphaned(history[|history| - 1], n);
      }
    }
  }

  lemma StrandsExtends(f: Files, history: seq<Files>, trail: seq<Files>, done: nat)
    requires Strands(f, trail, 0) && done <= |trail|
    ensures Strands(f, history + trail[..done], |history|)
  {
    var longer := history + trail[..done];
    forall i, n | |history| <= i < |longer| && Orphaned(f, n) ensures Orphaned(longer[i], n) {
      assert longer[i] == trail[i - |history|];
    }
  }

  // ---- the store --------------------------------------------------------------

  datatype Outcome = Done | Refused | Faulted

  /** The stores passed through so far: all sound, none contradicting an earlier one. */
  ghost predicate SoundHistory(history: seq<Files>) {
    && (forall i {:trigger Sound(history[i])} :: 0 <= i < |history| ==> Sound(history[i]))
    && (forall i, j {:trigger Precedes(history[i], history[j])} :: 0 <= i < j < |history| && j == i + 1 ==>
        Precedes(history[i], history[j]))
    && StepByStep(history)
  }

  lemma StepsJoin(history: seq<Files>, trail: seq<Files>, done: nat)
    requires history != [] && StepByStep(history) && StepByStep([history[|history| - 1]] + trail) && done <= |trail|
    ensures StepByStep(history + trail[..done])
  {
    var all := history + trail[..done];
    var n := |history|;
    var tail := [history[n - 1]] + trail;
    forall i, j | 0 <= i < j < |all| && j == i + 1 ensures OneOperation(all[i], all[j]) {
      if j >= n {
        assert all[i] == tail[i - n + 1] && all[j] == tail[j - n + 1];
      } else {
        assert OneOperation(history[i], history[j]);
      }
    }
  }

  lemma {:induction false} HistoryNeverContradicts(history: seq<Files>, i: nat, j: nat)
    requires SoundHistory(history) && i <= j < |history|
    ensures Precedes(history[i], history[j])
  {
    if i < j {
      HistoryNeverContradicts(history, i, j - 1);
      assert Precedes(history[j - 1], history[j]);
    }
  }

  lemma HistoryExtends(history: seq<Files>, trail: seq<Files>, done: nat)
    requires history != [] && SoundHistory(history) && SafeTrail(history[|history| - 1], trail) && done <= |trail|
    ensures SoundHistory(history + trail[..done])
  {
    var all := history + trail[..done];
    var n := |history|;
    StepsJoin(history, trail, done);
    forall i, j | 0 <= i < j < |all| && j == i + 1 ensures Precedes(all[i], all[j]) {
      if j > n {
        assert all[i] == trail[i - n] && all[j] == trail[j - n];
      }
    }
    forall i | 0 <= i < |all| ensures Sound(all[i]) {
      if i >= n { assert all[i] == trail[i - n]; }
    }
  }

  class CredentialStore {
    /** Whether renaming onto an existing generation directory is reported as "file
        exists"; Linux may report "directory not empty" instead. */
    const existingReported: bool
    var files: Files
    var history: seq<Files>
    /** How many file operations have failed so far. */
    var faults: nat

    ghost predicate Valid()
      reads this
    {
      history != [] && history[|history| - 1] == files && SoundHistory(history)
    }

    constructor (existingReported: bool)
      ensures Valid() && files == NO_FILES && history == [NO_FILES] && faults == 0
      ensures this.existingReported == existingReported
    {
      this.existingReported := existingReported;
      files := NO_FILES;
      history := [NO_FILES];
      faults := 0;
    }

    /** Carry out file operations in order until one fails; each is atomic. */
    method Follow(trail: seq<Files>) returns (ok: bool, ghost done: nat)
      requires Valid() && trail != [] && SafeTrail(files, trail)
      modifies this
      ensures Valid() && done <= |trail| && history == old(history) + trail[..done]
      ensures ok <==> done == |trail|
      ensures faults == if ok then old(faults) else old(faults) + 1
      ensures ok ==> files == trail[|trail| - 1]
      ensures files == if done == 0 then old(files) else trail[done - 1]
      ensures Strands(old(files), trail, 0) ==> Strands(old(files), history, |old(history)|)
    {
      done := 0;
      for i := 0 to |trail|
        invariant done == i && faults == old(faults)
        invariant history == old(history) + trail[..i]
        invariant files == if i == 0 then old(files) else trail[i - 1]
      {
        var performed: bool := *;
        if !performed {
          HistoryExtends(old(history), trail, i);
          if Strands(old(files), trail, 0) { StrandsExtends(old(files), old(history), trail, i); }
          faults := faults + 1;
          return false, done;
        }
        files := trail[i];
        history := history + [trail[i]];
        done := done + 1;
      }
      HistoryExtends(old(history), trail, |trail|);
      if Strands(old(files), trail, 0) { StrandsExtends(old(files), old(history), trail, |trail|); }
      return true, done;
    }

    /** The agent process dies right after step `k`. */
    method Crash(k: nat)
      requires Valid() && k < |history|
      modifies this
      ensures Valid() && files == old(history)[k] && history == old(history)[..k + 1] && faults == old(faults)
    {
      files := history[k];
      history := history[..k + 1];
    }

    method PendingRequest() returns (ok: bool, pending: Option<PendingMeta>)
      ensures ok <==> PendingMatches(files)
      ensures ok ==> pending == files.meta
    {
      pending := None;
      if files.meta.None? { return true, None; }
      var meta := files.meta.value;
      if files.csr.None? || files.key.None? { return false, None; }
      if files.csr.value != meta.csr { return false, None; }
      if files.csr.value.public != files.key.value.public { return false, None; }
      return true, Some(meta);
    }

    /** Ask for a credential: reuse a matching request, or write key, CSR and then
        the metadata that makes them a request. */
    method PreparePending(node: nat, purpose: Purpose, generated: PrivateKey) returns (outcome: Outcome)
      requires Valid()
      modifies this
      ensures Valid() && old(history) <= history && old(faults) <= faults
      ensures Strands(old(files), history, |old(history)|)
      ensures outcome.Faulted? ==> faults > old(faults)
      ensures forall i :: |old(history)| <= i < |history| ==> history[i].active == old(files).active
      ensures outcome.Refused? <==>
              (!PendingMatches(old(files)) || (old(files).meta.Some? && !Awaiting(old(files), node, purpose)))
      ensures outcome.Refused? ==> files == old(files)
      ensures outcome.Done? ==>
                && Awaiting(files, node, purpose)
                && files == if old(files).meta.Some? then old(files) else Prepared(old(files), node, purpose, generated)
    {
      var ok, existing := PendingRequest();
      if !ok { return Refused; }
      if existing.Some? {
        if existing.value.node != node || existing.value.purpose != purpose { return Refused; }
        return Done;
      }
      ghost var trail := PrepareTrail(files, node, purpose, generated);
      PrepareTrailIsSafe(files, node, purpose, generated);
      PrepareTrailStrands(files, node, purpose, generated);
      var all, done := Follow(PrepareTrail(files, node, purpose, generated));
      assert forall i :: |old(history)| <= i < |history| ==> history[i] == trail[i - |old(history)|];
      return if all then Done else Faulted;
    }

    /** Empty and remove a temporary directory; it goes on for as long as it can. */
    method RemoveTemporary(token: nat)
      requires Valid()
      modifies this
      ensures Valid() && old(history) <= history && old(faults) <= faults
      ensures Strands(old(files), history, |old(history)|)
      ensures files == old(files).(temporaries := files.temporaries)
      ensures files.temporaries.Keys <= old(files).temporaries.Keys
      ensures faults == old(faults) ==> token !in files.temporaries
      ensures forall i :: |old(history)| <= i < |history| ==>
                history[i] == old(files).(temporaries := history[i].temporaries)
    {
      if token !in files.temporaries { return; }
      RemoveTrailSteps(files, token);
      TemporariesAreSafe(files, RemoveTrail(files, token));
      var _, _ := Follow(RemoveTrail(files, token));
    }

    /** Move a complete temporary directory into place. */
    method Rename(issued: IssuedCredential, key: PrivateKey, token: nat) returns (outcome: Outcome)
      requires Valid() && 1 <= issued.generation <= MAX_GENERATION && issued.generation !in files.generations
      requires token in files.temporaries && files.temporaries[token] == Built(issued, key)
      requires IssuedKeyValid(issued, key)
      modifies this
      ensures Valid() && old(history) <= history && old(faults) <= faults
      ensures token in files.temporaries ==> outcome.Faulted? && faults >= old(faults) + 2
      ensures Strands(old(files), history, |old(history)|)
      ensures outcome == if faults == old(faults) then Done else Faulted
      ensures forall i :: |old(history)| <= i < |history| ==> history[i].active == old(files).active
      ensures outcome.Done? ==> files == WithGeneration(old(files), issued, key).(temporaries := files.temporaries)
      ensures outcome.Done? ==> GenerationVerifies(files, issued.generation, None)
    {
      var renamed := files.(generations := files.generations[issued.generation := files.temporaries[token]],
                            temporaries := files.temporaries - {token});
      RenameIsSafe(files, issued, key, token, renamed);
      var ok, _ := Follow([renamed]);
      if ok { return Done; }
      RemoveTemporary(token);
      return Faulted;
    }

    /** Build a generation beside the store and rename it into place, or accept an
        identical one that is already there. */
    method PlaceGeneration(issued: IssuedCredential, key: PrivateKey, token: nat) returns (outcome: Outcome)
      requires Valid() && token !in files.temporaries
      requires 1 <= issued.generation <= MAX_GENERATION && IssuedKeyValid(issued, key)
      modifies this
      ensures Valid() && old(history) <= history && old(faults) <= faults
      ensures token in files.temporaries ==> faults >= old(faults) + if outcome.Faulted? then 2 else 1
      ensures Strands(old(files), history, |old(history)|)
      ensures outcome.Faulted? ==> faults > old(faults)
      ensures forall i :: |old(history)| <= i < |history| ==> history[i].active == old(files).active
      ensures outcome.Done? ==> files == WithGeneration(old(files), issued, key).(temporaries := files.temporaries)
      ensures outcome.Done? ==> GenerationVerifies(files, issued.generation, None)
      ensures outcome.Done? ==> GenerationPlaceable(old(files), issued, existingReported)
      ensures outcome.Refused? ==> !GenerationPlaceable(old(files), issued, existingReported)
      ensures outcome.Refused? ==> files == old(files).(temporaries := files.temporaries)
    {
      BuildTrailSteps(files, issued, key, token);
      TemporariesAreSafe(files, BuildTrail(files, issued, key, token));
      var ok, _ := Follow(BuildTrail(files, issued, key, token));
      if !ok {
        RemoveTemporary(token);
        return Faulted;
      }
      if issued.generation in files.generations {
        RemoveTemporary(token);
        if !existingReported || !GenerationVerifies(files, issued.generation, Some(issued)) { return Refused; }
        return Done;
      }
      outcome := Rename(issued, key, token);
    }

    /** Write a pointer file; on failure only the temporary directory is looked after. */
    method Point(pointed: Files, token: nat, ghost f: Files) returns (outcome: Outcome)
      requires Valid() && SafeTrail(files, [pointed])
      modifies this
      ensures Valid() && old(history) <= history && old(faults) <= faults
      ensures token in files.temporaries ==> outcome.Done? || faults >= old(faults) + 2
      ensures files.temporaries.Keys <= old(files).temporaries.Keys + pointed.temporaries.Keys
      ensures Strands(f, [old(files), pointed], 0) ==> Strands(f, history, |old(history)|)
      ensures outcome == if faults == old(faults) then Done else Faulted
      ensures outcome.Done? ==> files == pointed && history == old(history) + [pointed]
      ensures outcome.Faulted? ==> forall i :: |old(history)| <= i < |history| ==>
                history[i].active == old(files).active
    {
      ghost var both := [files, pointed];
      assert Strands(f, both, 0) ==> forall n :: Orphaned(f, n) ==> Orphaned(both[0], n) && Orphaned(both[1], n);
      var ok, _ := Follow([pointed]);
      if ok { return Done; }
      RemoveTemporary(token);
      return Faulted;
    }

    /** Stage an issued rotation.  Without I/O faults it succeeds exactly when the
        request, the generation number, the key and any existing directory agree. */
    method Stage(issued: IssuedCredential, token: nat) returns (outcome: Outcome)
      requires Valid() && token !in files.temporaries
      modifies this
      ensures Valid() && old(history) <= history && old(faults) <= faults
      ensures token in files.temporaries ==> faults >= old(faults) + if outcome.Faulted? then 2 else 1
      ensures !existingReported ==> Strands(old(files), history, |old(history)|)
      ensures outcome.Faulted? ==> faults > old(faults)
      ensures forall i :: |old(history)| <= i < |history| ==> history[i].active == old(files).active
      ensures outcome.Done? ==> StageAccepted(old(files), issued, existingReported)
      ensures outcome.Refused? ==> !StageAccepted(old(files), issued, existingReported)
      ensures outcome.Done? ==> files == WithGeneration(old(files), issued, old(files).key.value)
                                           .(staged := Some(issued.generation), temporaries := files.temporaries)
      ensures outcome.Done? ==> |history| >= 2 && history[|history| - 2] == files.(staged := old(files).staged)
      ensures !existingReported && Answers(old(files), issued) && faults == old(faults) ==>
                (outcome.Refused? <==> issued.generation in old(files).generations)
      ensures outcome.Refused? ==> files == old(files).(temporaries := files.temporaries)
      ensures outcome.Done? ==> Stageable(old(files), issued, existingReported) && Holds(files, issued, old(files).key)
      ensures outcome.Refused? ==> !Stageable(old(files), issued, existingReported)
    {
      AcceptedIsStageable(files, issued, existingReported);
      var ok, pending := PendingRequest();
      if !ok || pending.None? || pending.value.node != issued.node || pending.value.purpose != Rotation {
        return Refused;
      }
      if issued.generation <= files.ActiveGeneration() { return Refused; }
      if issued.generation > MAX_GENERATION { return Refused; }
      if !IssuedKeyValid(issued, files.key.value) { return Refused; }
      outcome := PlaceGeneration(issued, files.key.value, token);
      if !outcome.Done? { return; }
      var pointed := files.(staged := Some(issued.generation));
      SameGenerationsVerify(files, pointed);
      outcome := Point(pointed, token, old(files));
    }

    /** Switch the active pointer, then clear the staged pointer and the request. */
    method PublishActive(generation: nat) returns (outcome: Outcome)
      requires Valid()
      modifies this
      ensures Valid() && old(history) <= history && old(faults) <= faults
      ensures Strands(old(files), history, |old(history)|)
      ensures outcome.Faulted? ==> faults > old(faults)
      ensures outcome.Refused? <==> old(files).staged != Some(generation)
      ensures outcome.Refused? ==> history == old(history)
      ensures !outcome.Refused? ==> exists done: nat ::
                done <= |PublishTrail(old(files), generation)|
                && history == old(history) + PublishTrail(old(files), generation)[..done]
      ensures outcome.Done? ==> files == PublishedFiles(old(files), generation)
      ensures forall i :: |old(history)| <= i < |history| ==> history[i].active == Some(generation)
    {
      assert Sound(files);
      if files.staged != Some(generation) || !GenerationVerifies(files, generation, None) { return Refused; }
      PublishTrailIsSafe(files, generation);
      var ok, _ := Follow(PublishTrail(files, generation));
      return if ok then Done else Faulted;
    }

    method ClearEnrollment() returns (ok: bool)
      requires Valid() && files.active == Some(1)
      requires files.meta.Some? ==> files.meta.value.purpose.Enrollment?
      modifies this
      ensures Valid() && old(history) <= history && old(faults) <= faults
      ensures files.temporaries == old(files).temporaries
      ensures Strands(old(files), history, |old(history)|)
      ensures forall i :: |old(history)| <= i < |history| ==> history[i].active == Some(1)
      ensures forall i :: |old(history)| <= i < |history| && history[i].meta.Some? ==> EnrollmentWindow(history[i])
      ensures ok ==> files == Unpended(old(files))
      ensures !ok ==> faults > old(faults)
    {
      ClearTrailIsSafe(files);
      ClearTrailKeeps(files);
      ghost var trail := ClearTrail(files);
      var all, done := Follow(ClearTrail(files));
      assert forall i :: |old(history)| <= i < |history| ==> history[i] in trail;
      ok := all;
    }

    /** The answer to a pending enrollment becomes the first active generation. */
    method InstallAnswer(issued: IssuedCredential, token: nat) returns (outcome: Outcome)
      requires Valid() && token !in files.temporaries && issued.generation == 1 && files.active.None?
      modifies this
      ensures Valid() && old(history) <= history && old(faults) <= faults
      ensures token in files.temporaries ==> faults >= old(faults) + if outcome.Faulted? then 2 else 1
      ensures !existingReported ==> Strands(old(files), history, |old(history)|)
      ensures outcome.Faulted? ==> faults > old(faults)
      ensures forall i :: |old(history)| <= i < |history| ==> history[i].active in {None, Some(1)}
      ensures outcome.Done? ==> InstallAccepted(old(files), issued, existingReported)
      ensures outcome.Refused? ==> !InstallAccepted(old(files), issued, existingReported)
      ensures outcome.Done? ==>
                files == PublishedFiles(WithGeneration(old(files), issued, old(files).key.value), 1)
                           .(temporaries := files.temporaries)
      ensures outcome.Done? ==>
                Installable(old(files), issued, existingReported) && Holds(files, issued, old(files).key)
      ensures outcome.Refused? ==> !Installable(old(files), issued, existingReported)
    {
      AcceptedIsInstallable(files, issued, existingReported);
      var ok, pending := PendingRequest();
      if !ok || pending.None? || pending.value.node != issued.node || pending.value.purpose != Enrollment {
        return Refused;
      }
      if !issued.authentic { return Refused; }
      if !IssuedKeyValid(issued, files.key.value) { return Refused; }
      outcome := PlaceGeneration(issued, files.key.value, token);
      if !outcome.Done? { return; }
      var pointed := files.(active := Some(1));
      SameGenerationsVerify(files, pointed);
      outcome := Point(pointed, token, old(files));
      if !outcome.Done? { return; }
      ok := ClearEnrollment();
      return if ok then Done else Faulted;
    }

    /** Finish an interrupted enrollment; anything else is left alone. */
    method RecoverInitialEnrollment(node: nat) returns (outcome: Outcome)
      requires Valid()
      modifies this
      ensures Valid() && old(history) <= history && old(faults) <= faults
      ensures files.temporaries == old(files).temporaries
      ensures Strands(old(files), history, |old(history)|)
      ensures outcome.Faulted? ==> faults > old(faults)
      ensures forall i :: |old(history)| <= i < |history| ==> history[i].active == old(files).active
      ensures outcome.Refused? <==> !(EnrollmentWindow(old(files)) && old(files).meta.value.node == node)
      ensures outcome.Refused? ==> files == old(files)
      ensures outcome.Done? ==> files == Unpended(old(files))
    {
      if files.active != Some(1) { return Refused; }
      if files.meta.None? || files.meta.value.node != node || files.meta.value.purpose != Enrollment { return Refused; }
      var ok := ClearEnrollment();
      return if ok then Done else Faulted;
    }

    method InstallInitial(issued: IssuedCredential, token: nat) returns (outcome: Outcome)
      requires Valid() && token !in files.temporaries
      modifies this
      ensures Valid() && old(history) <= history && old(faults) <= faults
      ensures token in files.temporaries ==> faults >= old(faults) + if outcome.Faulted? then 2 else 1
      ensures !existingReported ==> Strands(old(files), history, |old(history)|)
      ensures outcome.Faulted? ==> faults > old(faults)
      ensures forall i :: |old(history)| <= i < |history| ==> history[i].active in {old(files).active, Some(1)}
      ensures outcome.Done? ==> InstallAccepted(old(files), issued, existingReported)
      ensures outcome.Refused? ==> !InstallAccepted(old(files), issued, existingReported)
      ensures outcome.Done? && old(files).active.None? ==>
                files == PublishedFiles(WithGeneration(old(files), issued, old(files).key.value), 1)
                           .(temporaries := files.temporaries)
      ensures (outcome.Done? && EnrollmentWindow(old(files)) && old(files).meta.value.node == issued.node) ==>
                files == Unpended(old(files))
      ensures outcome.Done? ==> Installable(old(files), issued, existingReported)
      ensures outcome.Refused? ==> !Installable(old(files), issued, existingReported)
    {
      AcceptedIsInstallable(files, issued, existingReported);
      if issued.generation != 1 { return Refused; }
      if files.active.Some? {
        if files.active.value != 1 || !GenerationVerifies(files, 1, Some(issued)) { return Refused; }
        outcome := RecoverInitialEnrollment(issued.node);
        return if outcome.Faulted? then Faulted else Done;
      }
      outcome := InstallAnswer(issued, token);
    }

    /** Reopen the store after a restart: sweep the temporary directories, then check
        the pointers and the pending request.  It is never refused. */
    method Open() returns (outcome: Outcome)
      requires Valid()
      modifies this
      ensures Valid() && old(history) <= history && old(faults) <= faults
      ensures Strands(old(files), history, |old(history)|)
      ensures outcome.Faulted? ==> faults > old(faults)
      ensures files == old(files).(temporaries := files.temporaries)
      ensures forall i :: |old(history)| <= i < |history| ==>
                history[i] == old(files).(temporaries := history[i].temporaries)
      ensures !outcome.Refused?
      ensures outcome.Done? ==> files.temporaries == map[]
    {
      var left := files.temporaries.Keys;
      while left != {}
        invariant Valid() && old(history) <= history && old(faults) <= faults
        invariant files == old(files).(temporaries := files.temporaries)
        invariant forall i :: |old(history)| <= i < |history| ==>
                    history[i] == old(files).(temporaries := history[i].temporaries)
        invariant files.temporaries.Keys <= left
        decreases left
      {
        var token :| token in left;
        RemoveTemporary(token);
        if token in files.temporaries { return Faulted; }
        left := left - {token};
      }
      assert Sound(files);
      if files.active.Some? && !GenerationVerifies(files, files.active.value, None) { return Refused; }
      if files.staged.Some? && !GenerationVerifies(files, files.staged.value, None) { return Refused; }
      if !EnrollmentWindow(files) {
        var ok, _ := PendingRequest();
        if !ok { return Refused; }
      }
      return Done;
    }
  }

  /** An interrupted publication is redone exactly when the staged pointer is still
      there, and redoing it ends in the same store.  Otherwise only the request's
      remains separate the store from the published one. */
  lemma RedoingPublicationConverges(f: Files, n: nat, k: nat)
    requires f.staged == Some(n) && k < |PublishTrail(f, n)|
    ensures var crashed := PublishTrail(f, n)[k];
            && (crashed.staged == Some(n) <==> k == 0)
            && PublishedFiles(crashed, n) == PublishedFiles(f, n)
            && Unpended(crashed) == PublishedFiles(f, n)
  {
  }

  /** Clearing an enrollment can be interrupted anywhere before its last step and is then
      recognised and finished with the same result. */
  lemma RedoingClearingConverges(f: Files, k: nat)
    requires EnrollmentWindow(f) && k < |ClearTrail(f)|
    ensures var crashed := ClearTrail(f)[k];
            && (EnrollmentWindow(crashed) <==> k < |ClearTrail(f)| - 1)
            && Unpended(crashed) == Unpended(f)
  {
  }
}
