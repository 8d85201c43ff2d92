/** The `clean` command (`pymelos.commands.clean`): delete what the clean
    patterns match inside each selected package, sparing protected names. */
module Clean {
  import opened Wrappers
  import opened Seqs
  import opened Paths
  import opened Glob
  import opened Workspaces
  import opened Chain

  datatype CleanOptions = CleanOptions(
    scope: Option<string>,
    patterns: Option<seq<string>>,
    protected: Option<seq<string>>,
    dryRun: bool)

  /** The package names cleaned form a set, whose order Python leaves open. */
  datatype CleanResult = CleanResult(filesRemoved: int, dirsRemoved: int, bytesFreed: int, packagesCleaned: set<string>)

  datatype Kind = File | Dir | Other

  /** The tree as it stands before `clean` deletes anything: `Path.glob`,
      what a path is, a file's `st_size`, and `rglob("*")` of a directory. */
  datatype FileSystem = FileSystem(
    glob: (Path, string) -> seq<Path>,
    kind: Path -> Kind,
    fileSize: Path -> nat,
    walk: Path -> seq<Path>)

  /** A deletion `clean` performs: `unlink` or `rmtree`. */
  datatype Removal = Unlink(path: Path) | RemoveTree(path: Path)

  /** A list option Python treats as true: present and non-empty. */
  predicate GivenList(xs: Option<seq<string>>) {
    xs.Some? && xs.value != []
  }

  /** `get_packages`: the scope filter over the workspace packages. */
  function CleanPackages(ws: Workspace, opts: CleanOptions): (r: seq<Package>)
    ensures Sublist(r, ws.packages)
  {
    ApplyFilters(ws.packages, opts.scope, None, None)
  }

  /** `get_patterns`: the options' patterns when given, else the configuration's. */
  function GetPatterns(ws: Workspace, opts: CleanOptions): (r: seq<string>)
    ensures GivenList(opts.patterns) ==> r == opts.patterns.value
    ensures !GivenList(opts.patterns) ==> r == ws.config.cleanPatterns
  {
    if GivenList(opts.patterns) then opts.patterns.value else ws.config.cleanPatterns
  }

  /** `get_protected`: the options' protected names when given, else the
      configuration's, as a set. */
  function GetProtected(ws: Workspace, opts: CleanOptions): (r: set<string>)
    ensures GivenList(opts.protected) ==> forall x :: x in r <==> x in opts.protected.value
    ensures !GivenList(opts.protected) ==> forall x :: x in r <==> x in ws.config.cleanProtected
  {
    var src := if GivenList(opts.protected) then opts.protected.value else ws.config.cleanProtected;
    set x | x in src
  }

  /** `is_protected`: the path's final component matches a protected pattern. */
  predicate IsProtected(path: Path, protected: set<string>) {
    exists pattern :: pattern in protected && Match(BaseName(path), pattern)
  }

  /** The matches of the patterns inside one package, in pattern order. */
  function PackageCandidates(pkg: Package, patterns: seq<string>, fs: FileSystem): seq<(string, Path)> {
    if patterns == [] then []
    else PackageCandidates(pkg, patterns[..|patterns| - 1], fs)
         + Map(fs.glob(pkg.path, patterns[|patterns| - 1]), (p: Path) => (pkg.name, p))
  }

  /** The matches over every package, in package order. */
  function Candidates(pkgs: seq<Package>, patterns: seq<string>, fs: FileSystem): seq<(string, Path)> {
    if pkgs == [] then []
    else Candidates(pkgs[..|pkgs| - 1], patterns, fs) + PackageCandidates(pkgs[|pkgs| - 1], patterns, fs)
  }

  /** Whether an entry escapes the protected patterns. */
  function Unprotected(protected: set<string>): ((string, Path)) -> bool {
    (e: (string, Path)) => !IsProtected(e.1, protected)
  }

  /** `_get_paths_to_clean` */
  function PathsToClean(pkgs: seq<Package>, patterns: seq<string>, protected: set<string>, fs: FileSystem): seq<(string, Path)> {
    Filter(Candidates(pkgs, patterns, fs), Unprotected(protected))
  }

  /** The entries of one package are exactly its matches, under its name. */
  lemma {:induction false} PackageCandidatesMembers(pkg: Package, patterns: seq<string>, fs: FileSystem, e: (string, Path))
    ensures e in PackageCandidates(pkg, patterns, fs) <==>
              e.0 == pkg.name && exists j :: 0 <= j < |patterns| && e.1 in fs.glob(pkg.path, patterns[j])
    decreases |patterns|
  {
    if patterns != [] {
      var init, last := patterns[..|patterns| - 1], patterns[|patterns| - 1];
      PackageCandidatesMembers(pkg, init, fs, e);
      var m := Map(fs.glob(pkg.path, last), (p: Path) => (pkg.name, p));
      if e in m {
        var k :| 0 <= k < |m| && m[k] == e;
        assert e.1 in fs.glob(pkg.path, patterns[|patterns| - 1]);
      }
      if e.0 == pkg.name && e.1 in fs.glob(pkg.path, last) {
        var k :| 0 <= k < |fs.glob(pkg.path, last)| && fs.glob(pkg.path, last)[k] == e.1;
        assert m[k] == e;
      }
      forall j | 0 <= j < |init| ensures init[j] == patterns[j] { }
    }
  }

  /** An entry is a candidate exactly when one of the patterns matches it
      inside one of the packages, under that package's name. */
  lemma {:induction false} CandidatesMembers(pkgs: seq<Package>, patterns: seq<string>, fs: FileSystem, e: (string, Path))
    ensures e in Candidates(pkgs, patterns, fs) <==>
              exists i :: 0 <= i < |pkgs| && e in PackageCandidates(pkgs[i], patterns, fs)
    decreases |pkgs|
  {
    if pkgs != [] {
      var init := pkgs[..|pkgs| - 1];
      CandidatesMembers(init, patterns, fs, e);
      forall i | 0 <= i < |init| ensures init[i] == pkgs[i] { }
    }
  }

  /** What `clean` would delete: exactly the unprotected matches of the
      patterns inside the packages, each tagged with its package's name. */
  lemma PathsToCleanMembers(pkgs: seq<Package>, patterns: seq<string>, protected: set<string>, fs: FileSystem, e: (string, Path))
    ensures e in PathsToClean(pkgs, patterns, protected, fs) <==>
              && !IsProtected(e.1, protected)
              && exists i, j :: 0 <= i < |pkgs| && 0 <= j < |patterns| &&
                   e.0 == pkgs[i].name && e.1 in fs.glob(pkgs[i].path, patterns[j])
  {
    FilterMembers(Candidates(pkgs, patterns, fs), Unprotected(protected));
    CandidatesMembers(pkgs, patterns, fs, e);
    forall i | 0 <= i < |pkgs|
      ensures e in PackageCandidates(pkgs[i], patterns, fs) <==>
                e.0 == pkgs[i].name && exists j :: 0 <= j < |patterns| && e.1 in fs.glob(pkgs[i].path, patterns[j])
    {
      PackageCandidatesMembers(pkgs[i], patterns, fs, e);
    }
  }

  /** Whether a deletion takes `p` with it: `unlink` removes its own path,
      `rmtree` its path and everything inside. */
  predicate Takes(r: Removal, p: Path) {
    match r
    case Unlink(q) => p == q
    case RemoveTree(q) => IsUnder(p, q)
  }

  /** Whether one of the deletions made so far took `p`. */
  predicate Gone(p: Path, removed: seq<Removal>) {
    exists i :: 0 <= i < |removed| && Takes(removed[i], p)
  }

  /** `is_file()` / `is_dir()` on the tree left by `removed`: a path that is
      gone is neither. */
  function KindNow(fs: FileSystem, removed: seq<Removal>, p: Path): Kind {
    if Gone(p, removed) then Other else fs.kind(p)
  }

  /** The sizes of the files among `ps` that are still there. */
  function FilesSize(fs: FileSystem, removed: seq<Removal>, ps: seq<Path>): nat {
    if ps == [] then 0
    else
      var q := ps[|ps| - 1];
      FilesSize(fs, removed, ps[..|ps| - 1]) + (if KindNow(fs, removed, q) == File then fs.fileSize(q) else 0)
  }

  /** `_calculate_size` on the tree left by `removed`: a file's own size,
      the files still inside a directory, and nothing for anything else
      (a path already deleted included, whose `rglob` finds nothing). */
  function SizeNow(fs: FileSystem, removed: seq<Removal>, p: Path): nat {
    match KindNow(fs, removed, p)
    case File => fs.fileSize(p)
    case Dir => FilesSize(fs, removed, fs.walk(p))
    case Other => 0
  }

  /** What deleting a path of kind `k` does: files are unlinked,
      directories removed with their contents, anything else left alone. */
  function Deletion(k: Kind, p: Path): seq<Removal> {
    match k
    case File => [Unlink(p)]
    case Dir => [RemoveTree(p)]
    case Other => []
  }

  /** The counters so far and the deletions made so far. */
  datatype Swept = Swept(counters: CleanResult, removed: seq<Removal>)

  /** One turn of the loop: the entry's size and package are counted, and
      it is counted and deleted as what it is now, after earlier deletions. */
  function Visit(s: Swept, e: (string, Path), fs: FileSystem, dryRun: bool): Swept {
    var k := KindNow(fs, s.removed, e.1);
    var t := s.counters;
    Swept(CleanResult(t.filesRemoved + (if k == File then 1 else 0),
                      t.dirsRemoved + (if k == Dir then 1 else 0),
                      t.bytesFreed + SizeNow(fs, s.removed, e.1),
                      t.packagesCleaned + {e.0}),
          s.removed + (if dryRun then [] else Deletion(k, e.1)))
  }

  /** The counters and deletions after visiting `entries` in order. */
  function SweepOf(entries: seq<(string, Path)>, fs: FileSystem, dryRun: bool): Swept {
    if entries == [] then Swept(CleanResult(0, 0, 0, {}), [])
    else Visit(SweepOf(entries[..|entries| - 1], fs, dryRun), entries[|entries| - 1], fs, dryRun)
  }

  /** The cleaned packages are the names of all entries, even those that
      are neither a file nor a directory; at most one removal is counted per
      entry; a dry run deletes nothing, otherwise one deletion is made per
      counted removal. */
  lemma {:induction false} SweepSpec(entries: seq<(string, Path)>, fs: FileSystem, dryRun: bool)
    ensures var s := SweepOf(entries, fs, dryRun);
            && s.counters.packagesCleaned == (set i | 0 <= i < |entries| :: entries[i].0)
            && 0 <= s.counters.filesRemoved && 0 <= s.counters.dirsRemoved && 0 <= s.counters.bytesFreed
            && s.counters.filesRemoved + s.counters.dirsRemoved <= |entries|
            && (dryRun ==> s.removed == [])
            && (!dryRun ==> |s.removed| == s.counters.filesRemoved + s.counters.dirsRemoved)
    decreases |entries|
  {
    if entries != [] {
      var init := entries[..|entries| - 1];
      SweepSpec(init, fs, dryRun);
      var named := set i | 0 <= i < |entries| :: entries[i].0;
      var before := set i | 0 <= i < |init| :: init[i].0;
      assert named == before + {entries[|entries| - 1].0} by {
        forall x | x in named ensures x in before + {entries[|entries| - 1].0} {
          var i :| 0 <= i < |entries| && entries[i].0 == x;
          if i < |init| { assert init[i] == entries[i]; }
        }
        forall x | x in before ensures x in named {
          var i :| 0 <= i < |init| && init[i].0 == x;
          assert entries[i] == init[i];
        }
      }
    }
  }

  /** Whether an entry is of kind `k` in the untouched tree. */
  function IsKind(fs: FileSystem, k: Kind): ((string, Path)) -> bool {
    (e: (string, Path)) => fs.kind(e.1) == k
  }

  /** A dry run leaves the tree untouched, so it counts exactly the entries
      that are files and those that are directories. */
  lemma {:induction false} DryRunCounts(entries: seq<(string, Path)>, fs: FileSystem)
    ensures SweepOf(entries, fs, true).counters.filesRemoved == |Filter(entries, IsKind(fs, File))|
    ensures SweepOf(entries, fs, true).counters.dirsRemoved == |Filter(entries, IsKind(fs, Dir))|
    ensures SweepOf(entries, fs, true).removed == []
    decreases |entries|
  {
    if entries != [] {
      var init, last := entries[..|entries| - 1], entries[|entries| - 1];
      DryRunCounts(init, fs);
      assert entries == init + [last];
      FilterSnoc(init, last, IsKind(fs, File));
      FilterSnoc(init, last, IsKind(fs, Dir));
    }
  }

  /** The `k`-th deletion is of an entry's path, is an `unlink` exactly
      for a file and an `rmtree` exactly for a directory, and touches
      nothing an earlier deletion already took. */
  predicate SoundRemoval(entries: seq<(string, Path)>, fs: FileSystem, rm: seq<Removal>, k: nat)
    requires k < |rm|
  {
    && (exists i :: 0 <= i < |entries| && entries[i].1 == rm[k].path)
    && (rm[k].Unlink? <==> fs.kind(rm[k].path) == File)
    && (rm[k].RemoveTree? <==> fs.kind(rm[k].path) == Dir)
    && !Gone(rm[k].path, rm[..k])
  }

  /** Every deletion is sound, so nothing is deleted twice. */
  lemma {:induction false} RemovalsSpec(entries: seq<(string, Path)>, fs: FileSystem, dryRun: bool)
    ensures forall k :: 0 <= k < |SweepOf(entries, fs, dryRun).removed| ==>
              SoundRemoval(entries, fs, SweepOf(entries, fs, dryRun).removed, k)
    decreases |entries|
  {
    if entries != [] {
      var init, last := entries[..|entries| - 1], entries[|entries| - 1];
      RemovalsSpec(init, fs, dryRun);
      var s := SweepOf(init, fs, dryRun);
      var kd := KindNow(fs, s.removed, last.1);
      var rm := SweepOf(entries, fs, dryRun).removed;
      assert rm == s.removed + (if dryRun then [] else Deletion(kd, last.1));
      forall k | 0 <= k < |rm|
        ensures SoundRemoval(entries, fs, rm, k)
      {
        if k < |s.removed| {
          assert SoundRemoval(init, fs, s.removed, k);
          assert rm[k] == s.removed[k] && rm[..k] == s.removed[..k];
          var i :| 0 <= i < |init| && init[i].1 == s.removed[k].path;
          assert entries[i] == init[i];
        } else {
          assert kd != Other && rm[k] == Deletion(kd, last.1)[0];
          assert !Gone(last.1, s.removed) && fs.kind(last.1) == kd;
          assert rm[..k] == s.removed;
          assert entries[|entries| - 1].1 == rm[k].path;
        }
      }
    }
  }

  /** An entry inside a directory deleted earlier, such as a `*.pyc` file
      inside a `__pycache__` tree matched first, is neither counted again
      nor deleted again, and adds no bytes. */
  lemma InnerEntrySkipped(fs: FileSystem, name: string, dir: Path, inner: Path)
    requires fs.kind(dir) == Dir && IsUnder(inner, dir)
    ensures var s := SweepOf([(name, dir), (name, inner)], fs, false);
            && s.counters.filesRemoved == 0 && s.counters.dirsRemoved == 1
            && s.counters.bytesFreed == SizeNow(fs, [], dir)
            && s.removed == [RemoveTree(dir)]
  {
    var entries := [(name, dir), (name, inner)];
    assert entries[..1] == [(name, dir)] && [(name, dir)][..0] == [];
    var s0 := Swept(CleanResult(0, 0, 0, {}), []);
    assert SweepOf([(name, dir)], fs, false) == Visit(s0, (name, dir), fs, false);
    assert KindNow(fs, [], dir) == Dir;
    var s1 := Visit(s0, (name, dir), fs, false);
    assert s1.removed == [RemoveTree(dir)];
    assert Takes(s1.removed[0], inner);
    assert KindNow(fs, s1.removed, inner) == Other;
  }

  /** `CleanCommand.execute`. It reports the counters of the sweep over the
      paths to clean and deletes them unless this is a dry run, asked for by
      the options or by the command context. */
  method CleanExecute(ws: Workspace, opts: CleanOptions, contextDryRun: bool, fs: FileSystem)
    returns (r: CleanResult, removed: seq<Removal>)
    ensures var paths := PathsToClean(CleanPackages(ws, opts), GetPatterns(ws, opts), GetProtected(ws, opts), fs);
            Swept(r, removed) == SweepOf(paths, fs, opts.dryRun || contextDryRun)
  {
    var paths := PathsToClean(CleanPackages(ws, opts), GetPatterns(ws, opts), GetProtected(ws, opts), fs);
    r, removed := Sweep(paths, fs, opts.dryRun || contextDryRun);
  }

  /** The deletion loop. `is_file()`, `is_dir()` and `_calculate_size` are
      asked of the tree as the deletions made so far have left it. */
  method Sweep(paths: seq<(string, Path)>, fs: FileSystem, dryRun: bool) returns (r: CleanResult, removed: seq<Removal>)
    ensures Swept(r, removed) == SweepOf(paths, fs, dryRun)
  {
    var files, dirs, bytes := 0, 0, 0;
    var cleaned: set<string> := {};
    removed := [];
    var i := 0;
    while i < |paths|
      invariant 0 <= i <= |paths|
      invariant SweepOf(paths[..i], fs, dryRun) == Swept(CleanResult(files, dirs, bytes, cleaned), removed)
    {
      assert paths[..i + 1][..i] == paths[..i];
      var (name, path) := paths[i];
      bytes := bytes + SizeNow(fs, removed, path);
      cleaned := cleaned + {name};
      var kind := KindNow(fs, removed, path);
      if kind == File {
        files := files + 1;
        if !dryRun {
          removed := removed + [Unlink(path)];
        }
      } else if kind == Dir {
        dirs := dirs + 1;
        if !dryRun {
          removed := removed + [RemoveTree(path)];
        }
      }
      i := i + 1;
    }
    assert paths[..i] == paths;
    r := CleanResult(files, dirs, bytes, cleaned);
  }

  /** A dry run deletes nothing; otherwise nothing protected is deleted,
      and everything deleted was matched by a pattern inside a selected
      package. */
  lemma CleanRemovesOnlyUnprotected(ws: Workspace, opts: CleanOptions, fs: FileSystem, dryRun: bool, rm: Removal)
    requires var paths := PathsToClean(CleanPackages(ws, opts), GetPatterns(ws, opts), GetProtected(ws, opts), fs);
             rm in SweepOf(paths, fs, dryRun).removed
    ensures !dryRun
    ensures !IsProtected(rm.path, GetProtected(ws, opts))
    ensures exists i, j :: 0 <= i < |CleanPackages(ws, opts)| && 0 <= j < |GetPatterns(ws, opts)| &&
              rm.path in fs.glob(CleanPackages(ws, opts)[i].path, GetPatterns(ws, opts)[j])
  {
    var pkgs, patterns, protected := CleanPackages(ws, opts), GetPatterns(ws, opts), GetProtected(ws, opts);
    var paths := PathsToClean(pkgs, patterns, protected, fs);
    SweepSpec(paths, fs, dryRun);
    RemovalsSpec(paths, fs, dryRun);
    var removed := SweepOf(paths, fs, dryRun).removed;
    var n :| 0 <= n < |removed| && removed[n] == rm;
    assert SoundRemoval(paths, fs, removed, n);
    var k :| 0 <= k < |paths| && paths[k].1 == rm.path;
    PathsToCleanMembers(pkgs, patterns, protected, fs, paths[k]);
  }
}
