/** Verification of a model snapshot against its manifest. */
module Manifest {
  import opened Options
  import opened Names

  /** A relative path by its components; safe paths have at least one, and no component
      is empty or a dot name. */
  type Path = seq<Name>

  /** `accessible` says whether opening the entry succeeds, and listing it if it is a
      directory; the scan reports either failure alike. Links, devices and the like
      are special: they are never followed and never count as files. */
  datatype Entry =
    | Regular(size: nat, digest: nat, accessible: bool)
    | Directory(accessible: bool)
    | Special

  type Tree = map<Path, Entry>

  datatype FileEntry = FileEntry(path: Path, size: nat, digest: nat, shard: bool)

  ghost predicate WellFormed(tree: Tree) {
    [] !in tree && forall p, k :: p in tree && 1 <= k < |p| ==> p[..k] in tree && tree[p[..k]].Directory?
  }

  predicate OpenDirectory(tree: Tree, p: Path) { p in tree && tree[p].Directory? && tree[p].accessible }

  /** The file is there as the manifest has it, down to its content. */
  predicate Present(tree: Tree, f: FileEntry) { f.path in tree && tree[f.path] == Regular(f.size, f.digest, true) }

  predicate OpenUpTo(tree: Tree, p: Path, n: nat) {
    forall k :: 1 <= k < n && k <= |p| ==> OpenDirectory(tree, p[..k])
  }

  // ---- scanning ------------------------------------------------------------------------

  /** The paths a snapshot should hold. */
  datatype Expected = Expected(files: set<Path>, directories: set<Path>)

  predicate IsUnexpected(tree: Tree, x: Expected, p: Path)
    requires p in tree
  {
    p !in x.files && p !in x.directories && !tree[p].Special?
  }

  predicate IsUnsafe(tree: Tree, x: Expected, p: Path)
    requires p in tree
  {
    && p !in x.files
    && (tree[p].Special? || (tree[p].Directory? && !tree[p].accessible) || (p in x.directories && tree[p].Regular?))
  }

  predicate Descends(tree: Tree, x: Expected, p: Path) { OpenDirectory(tree, p) && p !in x.files }

  /** Every directory on the way to `p` was opened by the scan. */
  predicate Reached(tree: Tree, x: Expected, p: Path) {
    forall k :: 1 <= k < |p| ==> Descends(tree, x, p[..k])
  }

  predicate Child(parent: Path, p: Path) { |p| == |parent| + 1 && p[..|parent|] == parent }

  function Parent(p: Path): Path
    requires p != []
  {
    p[..|p| - 1]
  }

  function ChildNames(tree: Tree, parent: Path): set<Name> { set p | p in tree && Child(parent, p) :: p[|parent|] }

  lemma ChildrenAreNamed(tree: Tree, parent: Path, p: Path)
    ensures p in tree && Child(parent, p) <==> exists n :: n in ChildNames(tree, parent) && p == parent + [n]
  {
    if p in tree && Child(parent, p) {
      assert p == parent + [p[|parent|]];
    }
    if exists n :: n in ChildNames(tree, parent) && p == parent + [n] {
      var n :| n in ChildNames(tree, parent) && p == parent + [n];
      var q :| q in tree && Child(parent, q) && q[|parent|] == n;
      assert q == parent + [n];
    }
  }

  datatype Findings = Findings(unexpected: set<Path>, unsafe: set<Path>, next: seq<Path>)

  ghost predicate Among(parent: Path, names: set<Name>, p: Path) { Child(parent, p) && p[|parent|] in names }

  /** What one directory adds to the findings, and the directories to visit next. */
  ghost predicate Looked(tree: Tree, x: Expected, parent: Path, names: set<Name>, f: Findings) {
    && Distinct(f.next)
    && (forall p :: p in f.unexpected <==> p in tree && Among(parent, names, p) && IsUnexpected(tree, x, p))
    && (forall p :: p in f.unsafe <==> p in tree && Among(parent, names, p) && IsUnsafe(tree, x, p))
    && (forall p :: p in f.next <==> Among(parent, names, p) && Descends(tree, x, p))
  }

  function Noted(tree: Tree, x: Expected, f: Findings, p: Path): Findings
    requires p in tree
  {
    Findings(if IsUnexpected(tree, x, p) then f.unexpected + {p} else f.unexpected,
             if IsUnsafe(tree, x, p) then f.unsafe + {p} else f.unsafe,
             if Descends(tree, x, p) then f.next + [p] else f.next)
  }

  lemma LookedStep(tree: Tree, x: Expected, parent: Path, names: set<Name>, n: Name, f: Findings)
    requires Looked(tree, x, parent, names, f) && parent + [n] in tree && n !in names
    ensures Looked(tree, x, parent, names + {n}, Noted(tree, x, f, parent + [n]))
  {
    var p := parent + [n];
    assert Child(parent, p) && p[|parent|] == n;
    forall q ensures Among(parent, names + {n}, q) <==> Among(parent, names, q) || q == p {
      if Child(parent, q) && q[|parent|] == n { assert q == parent + [q[|parent|]]; }
    }
  }

  /** One entry: is it surplus, is it unsafe, is it a directory to visit? */
  method Examine(tree: Tree, x: Expected, f: Findings, p: Path) returns (f': Findings)
    requires p in tree
    ensures f' == Noted(tree, x, f, p)
  {
    f' := f;
    if p in x.files { return; }
    if p in x.directories {
      if !tree[p].Directory? || !tree[p].accessible {
        f' := f'.(unsafe := f'.unsafe + {p});
      } else {
        f' := f'.(next := f'.next + [p]);
      }
    } else if tree[p].Directory? {
      f' := f'.(unexpected := f'.unexpected + {p});
      if tree[p].accessible {
        f' := f'.(next := f'.next + [p]);
      } else {
        f' := f'.(unsafe := f'.unsafe + {p});
      }
    } else if tree[p].Regular? {
      f' := f'.(unexpected := f'.unexpected + {p});
    } else {
      f' := f'.(unsafe := f'.unsafe + {p});
    }
  }

  /** The next name of a directory is a new one and names an entry. */
  lemma NextName(tree: Tree, parent: Path, names: seq<Name>, i: nat)
    requires Ascending(names) && i < |names| && names[i] in ChildNames(tree, parent)
    ensures Elements(names[..i + 1]) == Elements(names[..i]) + {names[i]} && names[i] !in Elements(names[..i])
    ensures parent + [names[i]] in tree
  {
    assert names[..i + 1] == names[..i] + [names[i]];
    ChildrenAreNamed(tree, parent, parent + [names[i]]);
  }

  /** One directory, entry by entry in the order of their names. */
  method LookInto(tree: Tree, x: Expected, parent: Path) returns (f: Findings)
    ensures Looked(tree, x, parent, ChildNames(tree, parent), f)
  {
    f := Findings({}, {}, []);
    var names := SortedSeq(ChildNames(tree, parent));
    SortedSeqSorts(ChildNames(tree, parent));
    for i := 0 to |names|
      invariant Looked(tree, x, parent, Elements(names[..i]), f)
    {
      assert names[i] in names;
      NextName(tree, parent, names, i);
      LookedStep(tree, x, parent, Elements(names[..i]), names[i], f);
      f := Examine(tree, x, f, parent + [names[i]]);
    }
    assert Elements(names[..|names|]) == ChildNames(tree, parent) by { assert names[..|names|] == names; }
  }

  lemma DistinctConcat(a: seq<Path>, b: seq<Path>)
    requires Distinct(a) && Distinct(b) && forall p :: p in a ==> p !in b
    ensures Distinct(a + b)
  {
    var c := a + b;
    assert forall i :: 0 <= i < |a| ==> c[i] == a[i] && c[i] in a;
    assert forall i :: |a| <= i < |c| ==> c[i] == b[i - |a|] && c[i] in b;
  }

  ghost predicate Opened(tree: Tree, x: Expected, done: set<Path>, p: Path) {
    p == [] || (Descends(tree, x, p) && Parent(p) in done)
  }

  /** Where a scan stands: `done` directories have been read, `pending` ones are open. */
  ghost predicate Scanning(tree: Tree, x: Expected, done: set<Path>, pending: seq<Path>,
                           unexpected: set<Path>, unsafe: set<Path>)
  {
    && Distinct(pending)
    && (forall p :: p in done ==> Opened(tree, x, done, p) && p !in pending)
    && (forall p :: p in pending ==> Opened(tree, x, done, p))
    && (forall p :: Opened(tree, x, done, p) ==> p in done || p in pending)
    && (forall p :: p in unexpected <==> p in tree && p != [] && Parent(p) in done && IsUnexpected(tree, x, p))
    && (forall p :: p in unsafe <==> p in tree && p != [] && Parent(p) in done && IsUnsafe(tree, x, p))
  }

  lemma ScanStep(tree: Tree, x: Expected, done: set<Path>, pending: seq<Path>, unexpected: set<Path>,
                 unsafe: set<Path>, f: Findings)
    requires pending != [] && Scanning(tree, x, done, pending, unexpected, unsafe)
    requires var parent := pending[|pending| - 1];
             Looked(tree, x, parent, ChildNames(tree, parent), f)
    ensures var parent, rest := pending[|pending| - 1], pending[..|pending| - 1];
            Scanning(tree, x, done + {parent}, rest + f.next, unexpected + f.unexpected, unsafe + f.unsafe)
  {
    var parent, rest := pending[|pending| - 1], pending[..|pending| - 1];
    assert pending == rest + [parent];
    forall p | p in tree ensures Among(parent, ChildNames(tree, parent), p) <==> p != [] && Parent(p) == parent {
      if p != [] && Parent(p) == parent { assert Child(parent, p); }
    }
    assert forall p :: p in f.next ==> p in tree && p != [] && Parent(p) == parent;
    assert parent !in done;
    assert forall p :: p in rest ==> p in pending && p != parent;
    assert forall p :: p in f.next ==> p !in pending && p !in done;
    DistinctConcat(rest, f.next);
  }

  /** Once nothing is pending, the directories read are those the scan could reach. */
  lemma {:induction false} ReadWhenReached(tree: Tree, x: Expected, done: set<Path>, p: Path)
    requires p != [] && forall q :: q in done <==> Opened(tree, x, done, q)
    ensures Parent(p) in done <==> Reached(tree, x, p)
    decreases |p|
  {
    var q := Parent(p);
    if q == [] {
      assert Opened(tree, x, done, q);
    } else {
      ReadWhenReached(tree, x, done, q);
      assert q in done <==> Opened(tree, x, done, q);
      assert forall k :: 1 <= k < |q| ==> p[..k] == q[..k];
      assert p[..|q|] == q;
      assert Reached(tree, x, p) <==> Reached(tree, x, q) && Descends(tree, x, q);
    }
  }

  method ScanSnapshot(tree: Tree, x: Expected) returns (unexpected: set<Path>, unsafe: set<Path>)
    requires WellFormed(tree)
    ensures forall p :: p in unexpected <==> p in tree && Reached(tree, x, p) && IsUnexpected(tree, x, p)
    ensures forall p :: p in unsafe <==> p in tree && Reached(tree, x, p) && IsUnsafe(tree, x, p)
  {
    unexpected, unsafe := {}, {};
    var pending: seq<Path> := [[]];
    ghost var done: set<Path> := {};
    while pending != []
      invariant Scanning(tree, x, done, pending, unexpected, unsafe)
      decreases tree.Keys + {[]} - done
    {
      var parent := pending[|pending| - 1];
      assert parent in pending;
      var found := LookInto(tree, x, parent);
      ScanStep(tree, x, done, pending, unexpected, unsafe, found);
      pending := pending[..|pending| - 1] + found.next;
      unexpected, unsafe := unexpected + found.unexpected, unsafe + found.unsafe;
      done := done + {parent};
    }
    assert forall p :: p in done <==> Opened(tree, x, done, p);
    forall p | p in tree ensures p != [] && (Parent(p) in done <==> Reached(tree, x, p)) {
      ReadWhenReached(tree, x, done, p);
    }
  }

  // ---- the files ----------------------------------------------------------------------

  datatype Opening = Found(entry: Entry) | Missing | Failed

  /** Open a file component by component, following no links. */
  method OpenManifestFile(tree: Tree, path: Path) returns (r: Opening)
    requires path != [] && WellFormed(tree)
    ensures r.Found? <==> OpenUpTo(tree, path, |path|) && path in tree && !tree[path].Special? && tree[path].accessible
    ensures r.Found? ==> r.entry == tree[path]
    ensures r.Missing? <==> exists k :: 1 <= k <= |path| && OpenUpTo(tree, path, k) && path[..k] !in tree
  {
    var whole := path[..|path|];
    assert whole == path;
    for i := 1 to |path|
      invariant OpenUpTo(tree, path, i)
    {
      if path[..i] !in tree { return Missing; }
      if !OpenDirectory(tree, path[..i]) {
        assert forall k :: i < k <= |path| ==> !OpenUpTo(tree, path, k);
        return Failed;
      }
    }
    if path !in tree { assert path[..|path|] !in tree; return Missing; }
    if tree[path].Special? || !tree[path].accessible { return Failed; }
    return Found(tree[path]);
  }

  /** The file is as its entry says, and no symbolic link leads to it. */
  ghost predicate AsListed(tree: Tree, f: FileEntry) { OpenUpTo(tree, f.path, |f.path|) && Present(tree, f) }

  /** Some component is not there, behind directories that are and can be opened. */
  ghost predicate IsMissing(tree: Tree, f: FileEntry) {
    exists k :: 1 <= k <= |f.path| && OpenUpTo(tree, f.path, k) && f.path[..k] !in tree
  }

  /** A readable file of another size or content. */
  ghost predicate IsChanged(tree: Tree, f: FileEntry) {
    && OpenUpTo(tree, f.path, |f.path|) && f.path in tree && tree[f.path].Regular? && tree[f.path].accessible
    && (tree[f.path].size != f.size || tree[f.path].digest != f.digest)
  }

  /** What is there is no directory that can be opened, on the way, or no readable file at
      the end of it. */
  ghost predicate IsObstructed(tree: Tree, f: FileEntry) {
    || (exists k :: 1 <= k < |f.path| && OpenUpTo(tree, f.path, k) && f.path[..k] in tree
                    && !OpenDirectory(tree, f.path[..k]))
    || (OpenUpTo(tree, f.path, |f.path|) && f.path in tree && !(tree[f.path].Regular? && tree[f.path].accessible))
  }

  datatype Status = Verified | Absent | Changed | Unsafe

  /** Where the way to a file stops being open directories, if it does. */
  lemma {:induction false} Obstruction(tree: Tree, path: Path, n: nat) returns (k: nat)
    requires n <= |path|
    ensures 1 <= k && OpenUpTo(tree, path, k) && (k < n ==> !OpenDirectory(tree, path[..k]))
    ensures k < n || OpenUpTo(tree, path, n)
  {
    if n <= 1 {
      k := 1;
    } else {
      k := Obstruction(tree, path, n - 1);
      if k >= n - 1 { k := if OpenDirectory(tree, path[..n - 1]) then n else n - 1; }
    }
  }

  lemma MissingIsNotObstructed(tree: Tree, f: FileEntry)
    requires IsMissing(tree, f)
    ensures !IsObstructed(tree, f)
  {
    var k :| 1 <= k <= |f.path| && OpenUpTo(tree, f.path, k) && f.path[..k] !in tree;
    assert f.path[..|f.path|] == f.path;
    assert !OpenDirectory(tree, f.path[..k]);
    assert forall j :: k < j <= |f.path| ==> !OpenUpTo(tree, f.path, j);
  }

  method CheckFile(tree: Tree, f: FileEntry) returns (s: Status)
    requires f.path != [] && WellFormed(tree)
    ensures s.Verified? <==> AsListed(tree, f)
    ensures s.Absent? <==> IsMissing(tree, f)
    ensures s.Changed? <==> IsChanged(tree, f)
    ensures s.Unsafe? <==> IsObstructed(tree, f)
  {
    ghost var stuck := Obstruction(tree, f.path, |f.path|);
    var opening := OpenManifestFile(tree, f.path);
    if opening.Missing? {
      MissingIsNotObstructed(tree, f);
      return Absent;
    }
    if opening.Failed? || !opening.entry.Regular? {
      assert f.path[..|f.path|] == f.path;
      assert 1 <= stuck < |f.path| ==> f.path[..stuck] in tree;
      return Unsafe;
    }
    if opening.entry.size != f.size { return Changed; }
    return if opening.entry.digest == f.digest then Verified else Changed;
  }

  datatype Report = Report(missing: set<Path>, changed: set<Path>, unsafe: set<Path>, unexpected: set<Path>,
                           verifiedFiles: nat, verifiedBytes: nat)
  {
    predicate Ok() { missing == {} && changed == {} && unsafe == {} && unexpected == {} }
  }

  datatype Snapshot = NoRoot | UnsafeRoot | Root(tree: Tree)

  function TotalSize(files: seq<FileEntry>): nat {
    if files == [] then 0 else TotalSize(files[..|files| - 1]) + files[|files| - 1].size
  }

  function Paths(files: seq<FileEntry>): set<Path> { set f | f in files :: f.path }

  function Ancestors(files: seq<FileEntry>): set<Path> {
    set f, k | f in files && 1 <= k < |f.path| :: f.path[..k]
  }

  /** The snapshot is the manifest's files and the directories above them, all of them
      accessible, and nothing else. */
  ghost predicate ExactSnapshot(tree: Tree, files: seq<FileEntry>) {
    && tree.Keys == Paths(files) + Ancestors(files)
    && (forall f :: f in files ==> Present(tree, f))
    && (forall p :: p in Ancestors(files) ==> OpenDirectory(tree, p))
  }

  ghost predicate SafePaths(files: seq<FileEntry>) {
    && (forall f :: f in files ==> f.path != [])
    && (forall i, j :: 0 <= i < j < |files| ==> files[i].path != files[j].path)
  }

  lemma {:induction false} WayIsOpen(tree: Tree, files: seq<FileEntry>, x: Expected, p: Path, k: nat)
    requires WellFormed(tree) && x == Expected(Paths(files), Ancestors(files))
    requires forall p :: p in tree && Reached(tree, x, p) ==> !IsUnexpected(tree, x, p) && !IsUnsafe(tree, x, p)
    requires forall f :: f in files ==> Present(tree, f)
    requires p in tree && 1 <= k < |p|
    ensures Descends(tree, x, p[..k])
    decreases k
  {
    var q := p[..k];
    assert q in tree && tree[q].Directory?;
    forall j | 1 <= j < k ensures Descends(tree, x, q[..j]) {
      WayIsOpen(tree, files, x, p, j);
      assert q[..j] == p[..j];
    }
    assert q !in x.files;
  }

  /** A clean scan and verified files leave no room for anything else. */
  lemma CleanMeansExact(tree: Tree, files: seq<FileEntry>)
    requires WellFormed(tree) && SafePaths(files)
    requires var x := Expected(Paths(files), Ancestors(files));
             forall p :: p in tree && Reached(tree, x, p) ==> !IsUnexpected(tree, x, p) && !IsUnsafe(tree, x, p)
    requires forall f :: f in files ==> AsListed(tree, f)
    ensures ExactSnapshot(tree, files)
  {
    var x := Expected(Paths(files), Ancestors(files));
    forall p | p in tree ensures p in x.files || p in x.directories {
      forall k | 1 <= k < |p| ensures Descends(tree, x, p[..k]) { WayIsOpen(tree, files, x, p, k); }
    }
  }

  lemma ExactIsClean(tree: Tree, files: seq<FileEntry>)
    requires ExactSnapshot(tree, files)
    ensures var x := Expected(Paths(files), Ancestors(files));
            forall p :: p in tree ==> !IsUnexpected(tree, x, p) && !IsUnsafe(tree, x, p)
    ensures forall f :: f in files ==> AsListed(tree, f)
  {
    forall f, k | f in files && 1 <= k < |f.path| ensures OpenDirectory(tree, f.path[..k]) {
      assert f.path[..k] in Ancestors(files);
    }
  }

  /** The files checked so far. */
  ghost predicate Checked(tree: Tree, files: seq<FileEntry>, r: Report) {
    && (r.missing == {} && r.changed == {} && r.unsafe == {} <==>
        forall f :: f in files ==> AsListed(tree, f))
    && (r.missing == {} && r.changed == {} && r.unsafe == {} ==>
        r.verifiedFiles == |files| && r.verifiedBytes == TotalSize(files))
    && r.verifiedFiles <= |files| && r.verifiedBytes <= TotalSize(files)
  }

  /** The files that are as listed, in order. */
  ghost function Intact(tree: Tree, files: seq<FileEntry>): seq<FileEntry> {
    if files == [] then [] else
      var last := |files| - 1;
      Intact(tree, files[..last]) + if AsListed(tree, files[last]) then [files[last]] else []
  }

  ghost predicate MissingOf(tree: Tree, files: seq<FileEntry>, p: Path) {
    exists f :: f in files && f.path == p && IsMissing(tree, f)
  }

  ghost predicate ChangedOf(tree: Tree, files: seq<FileEntry>, p: Path) {
    exists f :: f in files && f.path == p && IsChanged(tree, f)
  }

  ghost predicate ObstructedOf(tree: Tree, files: seq<FileEntry>, p: Path) {
    exists f :: f in files && f.path == p && IsObstructed(tree, f)
  }

  /** Every finding is reported under its own path, and only what is intact is counted. */
  ghost predicate Told(tree: Tree, files: seq<FileEntry>, r: Report) {
    && (forall p :: p in r.missing <==> MissingOf(tree, files, p))
    && (forall p :: p in r.changed <==> ChangedOf(tree, files, p))
    && (forall p :: p in r.unsafe <==> ObstructedOf(tree, files, p))
    && r.verifiedFiles == |Intact(tree, files)| && r.verifiedBytes == TotalSize(Intact(tree, files))
  }

  function Counted(r: Report, f: FileEntry, status: Status): Report {
    match status
    case Verified => r.(verifiedFiles := r.verifiedFiles + 1, verifiedBytes := r.verifiedBytes + f.size)
    case Absent => r.(missing := r.missing + {f.path})
    case Changed => r.(changed := r.changed + {f.path})
    case Unsafe => r.(unsafe := r.unsafe + {f.path})
  }

  lemma CheckedStep(tree: Tree, files: seq<FileEntry>, i: nat, r: Report, status: Status)
    requires i < |files| && Checked(tree, files[..i], r) && (status.Verified? <==> AsListed(tree, files[i]))
    ensures Checked(tree, files[..i + 1], Counted(r, files[i], status))
  {
    var before, after := files[..i], files[..i + 1];
    assert after == before + [files[i]];
    assert after[..i] == before;
    assert forall f :: f in after <==> f in before || f == files[i];
  }

  lemma FindingsGrow(tree: Tree, files: seq<FileEntry>, i: nat, p: Path)
    requires i < |files|
    ensures var before, after, f := files[..i], files[..i + 1], files[i];
            && (MissingOf(tree, after, p) <==> MissingOf(tree, before, p) || (p == f.path && IsMissing(tree, f)))
            && (ChangedOf(tree, after, p) <==> ChangedOf(tree, before, p) || (p == f.path && IsChanged(tree, f)))
            && (ObstructedOf(tree, after, p) <==>
                ObstructedOf(tree, before, p) || (p == f.path && IsObstructed(tree, f)))
  {
    assert files[..i + 1] == files[..i] + [files[i]];
    assert files[i] in files[..i + 1];
  }

  lemma IntactGrows(tree: Tree, files: seq<FileEntry>, i: nat)
    requires i < |files|
    ensures var before, after := Intact(tree, files[..i]), Intact(tree, files[..i + 1]);
            if AsListed(tree, files[i]) then
              |after| == |before| + 1 && TotalSize(after) == TotalSize(before) + files[i].size
            else after == before
  {
    var before := Intact(tree, files[..i]);
    assert files[..i + 1][..i] == files[..i];
    assert (before + [files[i]])[..|before|] == before;
    assert before + [] == before;
  }

  lemma ToldStep(tree: Tree, files: seq<FileEntry>, i: nat, r: Report, status: Status)
    requires i < |files| && Told(tree, files[..i], r)
    requires status.Verified? <==> AsListed(tree, files[i])
    requires status.Absent? <==> IsMissing(tree, files[i])
    requires status.Changed? <==> IsChanged(tree, files[i])
    requires status.Unsafe? <==> IsObstructed(tree, files[i])
    ensures Told(tree, files[..i + 1], Counted(r, files[i], status))
  {
    var r' := Counted(r, files[i], status);
    IntactGrows(tree, files, i);
    forall p
      ensures && (p in r'.missing <==> MissingOf(tree, files[..i + 1], p))
              && (p in r'.changed <==> ChangedOf(tree, files[..i + 1], p))
              && (p in r'.unsafe <==> ObstructedOf(tree, files[..i + 1], p))
    {
      FindingsGrow(tree, files, i, p);
    }
  }

  method CheckFiles(tree: Tree, files: seq<FileEntry>) returns (r: Report)
    requires WellFormed(tree) && forall f :: f in files ==> f.path != []
    ensures Checked(tree, files, r) && r.unexpected == {} && Told(tree, files, r)
  {
    r := Report({}, {}, {}, {}, 0, 0);
    for i := 0 to |files|
      invariant Checked(tree, files[..i], r) && r.unexpected == {} && Told(tree, files[..i], r)
    {
      var status := CheckFile(tree, files[i]);
      CheckedStep(tree, files, i, r, status);
      ToldStep(tree, files, i, r, status);
      r := Counted(r, files[i], status);
    }
    assert files[..|files|] == files;
  }

  // ---- the manifest ---------------------------------------------------------------------

  datatype Manifest = Manifest(files: seq<FileEntry>, fileCount: nat, totalBytes: nat, safetensorsBytes: nat)

  const EXPECTED_FILE_COUNT := 74

  function Shards(files: seq<FileEntry>): seq<FileEntry> {
    if files == [] then [] else
      var last := |files| - 1;
      Shards(files[..last]) + if files[last].shard then [files[last]] else []
  }

  ghost predicate ValidManifest(m: Manifest) {
    && SafePaths(m.files) && m.fileCount == |m.files| == EXPECTED_FILE_COUNT
    && m.totalBytes == TotalSize(m.files) && m.safetensorsBytes == TotalSize(Shards(m.files))
  }

  lemma PathsGrow(files: seq<FileEntry>, i: nat)
    requires i < |files|
    ensures Paths(files[..i + 1]) == Paths(files[..i]) + {files[i].path}
    ensures files[i].path in Paths(files[..i]) <==> exists k :: 0 <= k < i && files[k].path == files[i].path
  {
    var before, after := files[..i], files[..i + 1];
    assert after == before + [files[i]];
    assert forall k :: 0 <= k < i ==> before[k] == files[k] && files[k] in before;
  }

  /** A path that is empty or taken spoils every longer list. */
  lemma SafePathsGrow(files: seq<FileEntry>, i: nat)
    requires i < |files| && SafePaths(files[..i])
    ensures SafePaths(files[..i + 1]) <==> files[i].path != [] && files[i].path !in Paths(files[..i])
    ensures SafePaths(files) ==> SafePaths(files[..i + 1])
  {
    var before, after := files[..i], files[..i + 1];
    PathsGrow(files, i);
    assert after == before + [files[i]];
    assert forall k :: 0 <= k < i ==> after[k] == before[k] == files[k];
    assert forall f :: f in after <==> f in before || f == files[i];
    assert forall f :: f in after ==> f in files;
  }

  lemma SizesGrow(files: seq<FileEntry>, i: nat)
    requires i < |files|
    ensures TotalSize(files[..i + 1]) == TotalSize(files[..i]) + files[i].size
    ensures TotalSize(Shards(files[..i + 1]))
            == TotalSize(Shards(files[..i])) + if files[i].shard then files[i].size else 0
  {
    assert files[..i + 1][..i] == files[..i];
    var shards := Shards(files[..i]);
    assert Shards(files[..i + 1]) == shards + (if files[i].shard then [files[i]] else []);
    assert shards + [] == shards;
    assert (shards + [files[i]])[..|shards|] == shards;
    assert TotalSize(shards + [files[i]]) == TotalSize(shards) + files[i].size;
  }

  /** The first `i` entries have safe paths, which are those seen, and these sizes. */
  ghost predicate Tallied(files: seq<FileEntry>, i: nat, seen: set<Path>, total: nat, weights: nat) {
    && i <= |files| && SafePaths(files[..i]) && seen == Paths(files[..i])
    && total == TotalSize(files[..i]) && weights == TotalSize(Shards(files[..i]))
  }

  lemma TallyStep(files: seq<FileEntry>, i: nat, seen: set<Path>, total: nat, weights: nat)
    requires i < |files| && Tallied(files, i, seen, total, weights)
    ensures files[i].path == [] || files[i].path in seen ==> !SafePaths(files)
    ensures files[i].path != [] && files[i].path !in seen ==>
              Tallied(files, i + 1, seen + {files[i].path}, total + files[i].size,
                      weights + if files[i].shard then files[i].size else 0)
  {
    SafePathsGrow(files, i);
    PathsGrow(files, i);
    SizesGrow(files, i);
  }

  lemma TalliedAll(files: seq<FileEntry>, seen: set<Path>, total: nat, weights: nat)
    requires Tallied(files, |files|, seen, total, weights)
    ensures SafePaths(files) && total == TotalSize(files) && weights == TotalSize(Shards(files))
  {
    assert files[..|files|] == files;
  }

  method ValidateManifest(m: Manifest) returns (ok: bool)
    ensures ok <==> ValidManifest(m)
  {
    var seen: set<Path> := {};
    var total: nat, weights: nat := 0, 0;
    for i := 0 to |m.files|
      invariant Tallied(m.files, i, seen, total, weights)
    {
      var f := m.files[i];
      TallyStep(m.files, i, seen, total, weights);
      if f.path == [] || f.path in seen { return false; }
      seen := seen + {f.path};
      total := total + f.size;
      weights := weights + if f.shard then f.size else 0;
    }
    TalliedAll(m.files, seen, total, weights);
    return m.fileCount == |m.files| == EXPECTED_FILE_COUNT && m.totalBytes == total && m.safetensorsBytes == weights;
  }

  /** The report names every path by what is wrong with it: a file of the manifest that is
      missing, changed or obstructed, and among what the scan reaches every entry that is
      surplus or unsafe. */
  ghost predicate Reports(tree: Tree, files: seq<FileEntry>, r: Report) {
    var x := Expected(Paths(files), Ancestors(files));
    && (forall p :: p in r.missing <==> MissingOf(tree, files, p))
    && (forall p :: p in r.changed <==> ChangedOf(tree, files, p))
    && (forall p :: p in r.unsafe <==>
          ObstructedOf(tree, files, p) || (p in tree && Reached(tree, x, p) && IsUnsafe(tree, x, p)))
    && (forall p :: p in r.unexpected <==> p in tree && Reached(tree, x, p) && IsUnexpected(tree, x, p))
    && r.verifiedFiles == |Intact(tree, files)| && r.verifiedBytes == TotalSize(Intact(tree, files))
  }

  method VerifyTree(files: seq<FileEntry>, tree: Tree) returns (r: Report)
    requires SafePaths(files) && WellFormed(tree)
    ensures r.Ok() <==> ExactSnapshot(tree, files)
    ensures r.Ok() ==> r.verifiedFiles == |files| && r.verifiedBytes == TotalSize(files)
    ensures Reports(tree, files, r)
  {
    var unexpected, unsafe := ScanSnapshot(tree, Expected(Paths(files), Ancestors(files)));
    r := CheckFiles(tree, files);
    ghost var clean := r.Ok();
    r := r.(unsafe := r.unsafe + unsafe, unexpected := unexpected);
    assert r.Ok() <==> clean && unexpected == {} && unsafe == {};
    if r.Ok() { CleanMeansExact(tree, files); }
    if ExactSnapshot(tree, files) { ExactIsClean(tree, files); }
  }

  /** Only a valid manifest is checked. It is reported ok exactly for the snapshot it
      describes, and the verified totals are then the manifest's. */
  method Verify(m: Manifest, snapshot: Snapshot) returns (r: Option<Report>)
    requires snapshot.Root? ==> WellFormed(snapshot.tree)
    ensures r.Some? <==> ValidManifest(m)
    ensures r.Some? ==> (r.value.Ok() <==> snapshot.Root? && ExactSnapshot(snapshot.tree, m.files))
    ensures r.Some? && r.value.Ok() ==> r.value.verifiedFiles == m.fileCount && r.value.verifiedBytes == m.totalBytes
    ensures r.Some? ==>
              match snapshot
              case NoRoot => r.value == Report(Paths(m.files), {}, {}, {}, 0, 0)
              case UnsafeRoot => r.value == Report({}, {}, {[]}, {}, 0, 0)
              case Root(tree) => Reports(tree, m.files, r.value)
  {
    var valid := ValidateManifest(m);
    if !valid { return None; }
    match snapshot
    case NoRoot =>
      assert m.files[0].path in Paths(m.files);
      return Some(Report(Paths(m.files), {}, {}, {}, 0, 0));
    case UnsafeRoot =>
      var root: Path := [];
      var unsafe := {root};
      assert root in unsafe;
      return Some(Report({}, {}, unsafe, {}, 0, 0));
    case Root(tree) =>
      var report := VerifyTree(m.files, tree);
      return Some(report);
  }
}
