/** The `changed` command (`pymelos.commands.changed`): which packages a
    change since a git reference touches directly, which are pulled in as
    dependents, filtered and sorted by name. */
module Changed {
  import opened Wrappers
  import opened Seqs
  import opened Paths
  import opened Sorting
  import opened Workspaces
  import opened Scope
  import opened Ignore
  import opened Since
  import opened Chain

  datatype ChangedPackage = ChangedPackage(name: string, path: string, filesChanged: nat, isDependent: bool)

  datatype ChangedResult = ChangedResult(since: string, changed: seq<ChangedPackage>, totalFilesChanged: nat)

  datatype ChangedOptions = ChangedOptions(
    since: string,
    includeDependents: bool,
    scope: Option<string>,
    ignore: Option<seq<string>>)

  /** A changed file, taken relative to the root, lies under the package. */
  predicate Under(root: Path, pkg: Package, f: Path) {
    IsUnder(JoinPath(root, f), pkg.path)
  }

  function InPackage(root: Path, pkg: Package): Path -> bool {
    (f: Path) => Under(root, pkg, f)
  }

  /** The changed files under the package, in the order git listed them. */
  function PackageFiles(root: Path, files: seq<Path>, pkg: Package): seq<Path> {
    Filter(files, InPackage(root, pkg))
  }

  /** One entry of the `directly_changed` table. */
  datatype Direct = Direct(name: string, files: seq<Path>)

  /** The `directly_changed` table in insertion order: one entry per
      package with at least one changed file under it. */
  function DirectTable(root: Path, pkgs: seq<Package>, files: seq<Path>): (t: seq<Direct>)
    ensures |t| <= |pkgs|
  {
    if pkgs == [] then []
    else
      var t := DirectTable(root, pkgs[..|pkgs| - 1], files);
      var p := pkgs[|pkgs| - 1];
      var fs := PackageFiles(root, files, p);
      if fs != [] then t + [Direct(p.name, fs)] else t
  }

  function TableNames(t: seq<Direct>): (r: seq<string>)
    ensures |r| == |t| && forall i :: 0 <= i < |t| ==> r[i] == t[i].name
  {
    Map(t, (d: Direct) => d.name)
  }

  /** The names of `cands` added in order to `acc`, skipping those already
      present and those in `exclude`: the `dependent_packages` set, kept in
      first-seen order. */
  function AddNames(acc: seq<string>, cands: seq<Package>, exclude: seq<string>): (r: seq<string>)
    ensures |acc| <= |r|
  {
    if cands == [] then acc
    else
      var r := AddNames(acc, cands[..|cands| - 1], exclude);
      var n := cands[|cands| - 1].name;
      if n in exclude || n in r then r else r + [n]
  }

  /** The dependents of the directly changed packages that are not
      themselves directly changed. */
  function DependentNames(names: seq<string>, transitive: string -> seq<Package>, exclude: seq<string>): seq<string> {
    if names == [] then []
    else AddNames(DependentNames(names[..|names| - 1], transitive, exclude), transitive(names[|names| - 1]), exclude)
  }

  /** The dependents recorded, or none when they are not requested. */
  function Dependents(ws: Workspace, table: seq<Direct>, includeDependents: bool): seq<string> {
    if includeDependents then DependentNames(TableNames(table), ws.graph.transitiveDependents, TableNames(table))
    else []
  }

  /** A row before its path is resolved. */
  datatype Entry = Entry(name: string, filesChanged: nat, isDependent: bool)

  function DirectEntry(d: Direct): Entry {
    Entry(d.name, |d.files|, false)
  }

  function DependentEntry(n: string): Entry {
    Entry(n, 0, true)
  }

  /** Direct entries first, then dependents. */
  function Entries(ws: Workspace, opts: ChangedOptions, files: seq<Path>): seq<Entry> {
    var table := DirectTable(ws.root, ws.packages, files);
    Map(table, DirectEntry) + Map(Dependents(ws, table, opts.includeDependents), DependentEntry)
  }

  /** `workspace.get_package(name)` followed by `relative_to(root)`: the
      package and its root-relative path, or nothing when either fails. */
  function Resolve(ws: Workspace, name: string): (r: Option<Package>)
    ensures r.Some? ==> r.value.name == name && r.value in ws.packages && IsUnder(r.value.path, ws.root)
  {
    var p := Lookup(ws.packages, name);
    if p.Some? && IsUnder(p.value.path, ws.root) then p else None
  }

  /** A row together with the package it was resolved to. */
  datatype Resolved = Resolved(row: ChangedPackage, pkg: Package)

  function ResolveEntry(ws: Workspace, e: Entry): (r: Option<Resolved>)
    ensures r.Some? <==> Resolve(ws, e.name).Some?
  {
    var p := Resolve(ws, e.name);
    if p.None? then None
    else Some(Resolved(ChangedPackage(e.name, RelStr(RelativeTo(p.value.path, ws.root)), e.filesChanged, e.isDependent),
                       p.value))
  }

  /** The rows of all entries, or the first entry that cannot be resolved. */
  function ResolveAll(ws: Workspace, es: seq<Entry>): (r: Result<seq<Resolved>, string>)
    ensures r.Ok? ==> |r.value| == |es|
  {
    if es == [] then Ok([])
    else
      var r := ResolveAll(ws, es[..|es| - 1]);
      if r.Err? then r
      else
        var x := ResolveEntry(ws, es[|es| - 1]);
        if x.None? then Err(es[|es| - 1].name) else Ok(r.value + [x.value])
  }

  function Rows(rs: seq<Resolved>): seq<ChangedPackage> {
    Map(rs, (x: Resolved) => x.row)
  }

  function Pkgs(rs: seq<Resolved>): seq<Package> {
    Map(rs, (x: Resolved) => x.pkg)
  }

  /** The filters apply only when a scope or ignore patterns are given. */
  predicate Filtering(opts: ChangedOptions) {
    (opts.scope.Some? && opts.scope.value != []) || (opts.ignore.Some? && opts.ignore.value != [])
  }

  function RowNameIn(names: set<string>): ChangedPackage -> bool {
    (c: ChangedPackage) => c.name in names
  }

  function Name(c: ChangedPackage): string {
    c.name
  }


  /** The rows kept: those whose package survives `apply_filters` when
      filtering applies, all of them otherwise. */
  function Kept(rs: seq<Resolved>, opts: ChangedOptions): seq<ChangedPackage> {
    if Filtering(opts) then Filter(Rows(rs), RowNameIn(NamesOf(ApplyFilters(Pkgs(rs), opts.scope, opts.ignore, None))))
    else Rows(rs)
  }

  /** `ChangedCommand.execute`, given the files git reports as changed since
      the reference. */
  function ChangedOf(ws: Workspace, opts: ChangedOptions, files: seq<Path>): (r: Result<ChangedResult, string>)
    ensures r.Ok? ==> SortedBy(r.value.changed, Name)
    ensures r.Ok? ==> r.value.since == opts.since && r.value.totalFilesChanged == |files|
  {
    var rs := ResolveAll(ws, Entries(ws, opts, files));
    if rs.Err? then Err(rs.error)
    else Ok(ChangedResult(opts.since, SortBy(Kept(rs.value, opts), Name), |files|))
  }

  /** An error met while resolving a prefix of the entries is the error of
      the whole. */
  lemma {:induction false} ResolveAllErrPrefix(ws: Workspace, es: seq<Entry>, k: nat)
    requires k <= |es| && ResolveAll(ws, es[..k]).Err?
    ensures ResolveAll(ws, es) == ResolveAll(ws, es[..k])
    decreases |es| - k
  {
    if k < |es| {
      var init := es[..|es| - 1];
      assert init[..k] == es[..k];
      ResolveAllErrPrefix(ws, init, k);
    } else {
      assert es[..k] == es;
    }
  }

  /** The inner loop of the table construction: the changed files under
      one package. */
  method FilesUnder(root: Path, pkg: Package, files: seq<Path>) returns (pkgFiles: seq<Path>)
    ensures pkgFiles == PackageFiles(root, files, pkg)
  {
    pkgFiles := [];
    var j := 0;
    while j < |files|
      invariant 0 <= j <= |files|
      invariant pkgFiles == Filter(files[..j], InPackage(root, pkg))
    {
      FilterSnoc(files[..j], files[j], InPackage(root, pkg));
      assert files[..j + 1] == files[..j] + [files[j]];
      if Under(root, pkg, files[j]) {
        pkgFiles := pkgFiles + [files[j]];
      }
      j := j + 1;
    }
    assert files[..j] == files;
  }

  /** The nested loop that builds `directly_changed`. */
  method CollectDirect(root: Path, pkgs: seq<Package>, files: seq<Path>) returns (t: seq<Direct>)
    ensures t == DirectTable(root, pkgs, files)
  {
    t := [];
    var i := 0;
    while i < |pkgs|
      invariant 0 <= i <= |pkgs|
      invariant t == DirectTable(root, pkgs[..i], files)
    {
      var pkgFiles := FilesUnder(root, pkgs[i], files);
      assert pkgs[..i + 1][..i] == pkgs[..i] && pkgs[..i + 1][i] == pkgs[i];
      assert DirectTable(root, pkgs[..i + 1], files) ==
             if pkgFiles != [] then t + [Direct(pkgs[i].name, pkgFiles)] else t;
      if pkgFiles != [] {
        t := t + [Direct(pkgs[i].name, pkgFiles)];
      }
      i := i + 1;
    }
    assert pkgs[..i] == pkgs;
  }

  /** The loop that fills `dependent_packages`. */
  method CollectDependents(ws: Workspace, table: seq<Direct>) returns (deps: seq<string>)
    ensures deps == DependentNames(TableNames(table), ws.graph.transitiveDependents, TableNames(table))
  {
    var names := TableNames(table);
    var transitive := ws.graph.transitiveDependents;
    deps := [];
    var i := 0;
    while i < |names|
      invariant 0 <= i <= |names|
      invariant deps == DependentNames(names[..i], transitive, names)
    {
      var ds := transitive(names[i]);
      ghost var base := deps;
      var j := 0;
      while j < |ds|
        invariant 0 <= j <= |ds|
        invariant deps == AddNames(base, ds[..j], names)
      {
        assert ds[..j + 1][..j] == ds[..j];
        if ds[j].name !in names && ds[j].name !in deps {
          deps := deps + [ds[j].name];
        }
        j := j + 1;
      }
      assert ds[..j] == ds;
      assert names[..i + 1][..i] == names[..i];
      i := i + 1;
    }
    assert names[..i] == names;
  }

  /** Resolving a concatenation resolves the first part, then the second. */
  lemma {:induction false} ResolveAllAppend(ws: Workspace, a: seq<Entry>, b: seq<Entry>)
    ensures ResolveAll(ws, a + b) ==
            if ResolveAll(ws, a).Err? then ResolveAll(ws, a)
            else if ResolveAll(ws, b).Err? then ResolveAll(ws, b)
            else Ok(ResolveAll(ws, a).value + ResolveAll(ws, b).value)
    decreases |b|
  {
    if b == [] {
      assert a + b == a;
      if ResolveAll(ws, a).Ok? {
        assert ResolveAll(ws, a).value + [] == ResolveAll(ws, a).value;
      }
    } else {
      var init := b[..|b| - 1];
      ResolveAllAppend(ws, a, init);
      assert (a + b)[..|a + b| - 1] == a + init;
      assert (a + b)[|a + b| - 1] == b[|b| - 1];
      var ra, ri := ResolveAll(ws, a), ResolveAll(ws, init);
      if ra.Ok? && ri.Ok? {
        var x := ResolveEntry(ws, b[|b| - 1]);
        if x.Some? {
          assert ra.value + ri.value + [x.value] == ra.value + (ri.value + [x.value]);
        }
      }
    }
  }

  /** One of the row-building loops: look each entry's package up and take
      its path relative to the root, stopping at the first failure. */
  method ResolveEntries(ws: Workspace, es: seq<Entry>) returns (r: Result<seq<Resolved>, string>)
    ensures r == ResolveAll(ws, es)
  {
    var resolved: seq<Resolved> := [];
    var i := 0;
    while i < |es|
      invariant 0 <= i <= |es|
      invariant ResolveAll(ws, es[..i]) == Ok(resolved)
    {
      assert es[..i + 1][..i] == es[..i];
      var p := Lookup(ws.packages, es[i].name);
      if p.None? || !IsUnder(p.value.path, ws.root) {
        ResolveAllErrPrefix(ws, es, i + 1);
        return Err(es[i].name);
      }
      var row := ChangedPackage(es[i].name, RelStr(RelativeTo(p.value.path, ws.root)), es[i].filesChanged, es[i].isDependent);
      resolved := resolved + [Resolved(row, p.value)];
      i := i + 1;
    }
    assert es[..i] == es;
    r := Ok(resolved);
  }

  /** `ChangedCommand.execute` */
  method ChangedExecute(ws: Workspace, opts: ChangedOptions, files: seq<Path>) returns (r: Result<ChangedResult, string>)
    ensures r == ChangedOf(ws, opts, files)
  {
    var table := CollectDirect(ws.root, ws.packages, files);
    var deps: seq<string> := [];
    if opts.includeDependents {
      deps := CollectDependents(ws, table);
    }
    var directRows := ResolveEntries(ws, Map(table, DirectEntry));
    if directRows.Err? {
      ResolveAllAppend(ws, Map(table, DirectEntry), Map(deps, DependentEntry));
      return Err(directRows.error);
    }
    var dependentRows := ResolveEntries(ws, Map(deps, DependentEntry));
    ResolveAllAppend(ws, Map(table, DirectEntry), Map(deps, DependentEntry));
    if dependentRows.Err? {
      return Err(dependentRows.error);
    }
    var resolved := directRows.value + dependentRows.value;
    var changed := Rows(resolved);
    if Filtering(opts) {
      var filtered := ApplyFilters(Pkgs(resolved), opts.scope, opts.ignore, None);
      changed := Filter(changed, RowNameIn(NamesOf(filtered)));
    }
    r := Ok(ChangedResult(opts.since, SortBy(changed, Name), |files|));
  }

  /** The table entry a package would get. */
  function DirectOf(root: Path, files: seq<Path>, p: Package): Direct {
    Direct(p.name, PackageFiles(root, files, p))
  }

  /** A package's changed files are exactly the changed files under it, in
      order; its entry has a file count of their number. */
  lemma PackageFilesSpec(root: Path, files: seq<Path>, pkg: Package)
    ensures forall f :: f in PackageFiles(root, files, pkg) <==> f in files && Under(root, pkg, f)
    ensures Sublist(PackageFiles(root, files, pkg), files)
  {
    FilterMembers(files, InPackage(root, pkg));
    FilterSublist(files, InPackage(root, pkg));
  }

  /** The table holds exactly the packages with at least one changed file
      under them, with those files. */
  lemma {:induction false} DirectTableSpec(root: Path, pkgs: seq<Package>, files: seq<Path>)
    ensures forall d :: d in DirectTable(root, pkgs, files) <==>
              d.files != [] && exists k :: 0 <= k < |pkgs| && d == DirectOf(root, files, pkgs[k])
    decreases |pkgs|
  {
    if pkgs != [] {
      var init := pkgs[..|pkgs| - 1];
      DirectTableSpec(root, init, files);
      var t0 := DirectTable(root, init, files);
      forall d ensures d in DirectTable(root, pkgs, files) <==>
                       d.files != [] && exists k :: 0 <= k < |pkgs| && d == DirectOf(root, files, pkgs[k]) {
        if d.files != [] && exists k :: 0 <= k < |pkgs| && d == DirectOf(root, files, pkgs[k]) {
          var k :| 0 <= k < |pkgs| && d == DirectOf(root, files, pkgs[k]);
          if k < |init| {
            assert d == DirectOf(root, files, init[k]);
          }
        }
        if d in t0 {
          var k :| 0 <= k < |init| && d == DirectOf(root, files, init[k]);
          assert d == DirectOf(root, files, pkgs[k]);
        }
      }
    }
  }

  /** With unique package names no name is recorded twice in the table. */
  lemma {:induction false} DirectTableNoDup(root: Path, pkgs: seq<Package>, files: seq<Path>)
    requires UniqueNames(pkgs)
    ensures NoDup(TableNames(DirectTable(root, pkgs, files)))
    decreases |pkgs|
  {
    if pkgs != [] {
      var init := pkgs[..|pkgs| - 1];
      var p := pkgs[|pkgs| - 1];
      assert UniqueNames(init);
      DirectTableNoDup(root, init, files);
      DirectTableSpec(root, init, files);
      var t0 := DirectTable(root, init, files);
      var n0 := TableNames(t0);
      forall i | 0 <= i < |n0| ensures n0[i] != p.name {
        assert t0[i] in t0;
        var k :| 0 <= k < |init| && t0[i] == DirectOf(root, files, init[k]);
        assert pkgs[k].name != pkgs[|pkgs| - 1].name;
      }
      if PackageFiles(root, files, p) != [] {
        assert TableNames(DirectTable(root, pkgs, files)) == n0 + [p.name];
      }
    }
  }

  /** A name is added iff it is already present or it is a candidate's name
      outside `exclude`; no name is added twice. */
  lemma {:induction false} AddNamesSpec(acc: seq<string>, cands: seq<Package>, exclude: seq<string>)
    ensures forall n :: n in AddNames(acc, cands, exclude) <==>
              n in acc || (n !in exclude && exists k :: 0 <= k < |cands| && cands[k].name == n)
    ensures NoDup(acc) ==> NoDup(AddNames(acc, cands, exclude))
    decreases |cands|
  {
    if cands != [] {
      var init := cands[..|cands| - 1];
      AddNamesSpec(acc, init, exclude);
      var r0 := AddNames(acc, init, exclude);
      var n := cands[|cands| - 1].name;
      forall m ensures m in AddNames(acc, cands, exclude) <==>
                       m in acc || (m !in exclude && exists k :: 0 <= k < |cands| && cands[k].name == m) {
        if m !in exclude && exists k :: 0 <= k < |cands| && cands[k].name == m {
          var k :| 0 <= k < |cands| && cands[k].name == m;
          if k < |init| {
            assert init[k].name == m;
          }
        }
        if m in r0 && m !in acc {
          var k :| 0 <= k < |init| && init[k].name == m;
          assert cands[k].name == m;
        }
      }
      if NoDup(acc) && !(n in exclude || n in r0) {
        forall i | 0 <= i < |r0| ensures r0[i] != n {
          assert r0[i] in r0;
        }
      }
    }
  }

  /** The dependents recorded are exactly the names of transitive
      dependents of directly changed packages that are not themselves
      directly changed, each once. */
  lemma {:induction false} DependentNamesSpec(names: seq<string>, transitive: string -> seq<Package>, exclude: seq<string>)
    ensures forall n :: n in DependentNames(names, transitive, exclude) <==>
              n !in exclude &&
              exists i, k :: 0 <= i < |names| && 0 <= k < |transitive(names[i])| && transitive(names[i])[k].name == n
    ensures NoDup(DependentNames(names, transitive, exclude))
    decreases |names|
  {
    if names != [] {
      var init := names[..|names| - 1];
      var last := names[|names| - 1];
      DependentNamesSpec(init, transitive, exclude);
      var d0 := DependentNames(init, transitive, exclude);
      AddNamesSpec(d0, transitive(last), exclude);
      forall n ensures n in DependentNames(names, transitive, exclude) <==>
                       n !in exclude &&
                       exists i, k :: 0 <= i < |names| && 0 <= k < |transitive(names[i])| && transitive(names[i])[k].name == n {
        if n !in exclude && exists i, k :: 0 <= i < |names| && 0 <= k < |transitive(names[i])| && transitive(names[i])[k].name == n {
          var i, k :| 0 <= i < |names| && 0 <= k < |transitive(names[i])| && transitive(names[i])[k].name == n;
          if i < |init| {
            assert transitive(init[i])[k].name == n;
          }
        }
        if n in d0 {
          var i, k :| 0 <= i < |init| && 0 <= k < |transitive(init[i])| && transitive(init[i])[k].name == n;
          assert transitive(names[i])[k].name == n;
        }
      }
    }
  }

  /** Resolution succeeds iff every entry's package is found under the
      root, and then yields one row per entry, in order. */
  lemma {:induction false} ResolveAllSpec(ws: Workspace, es: seq<Entry>)
    ensures ResolveAll(ws, es).Ok? <==> forall i :: 0 <= i < |es| ==> Resolve(ws, es[i].name).Some?
    ensures ResolveAll(ws, es).Ok? ==>
              forall i :: 0 <= i < |es| ==> ResolveAll(ws, es).value[i] == ResolveEntry(ws, es[i]).value
    decreases |es|
  {
    if es != [] {
      var init := es[..|es| - 1];
      ResolveAllSpec(ws, init);
      assert forall i :: 0 <= i < |init| ==> init[i] == es[i];
    }
  }

  /** The package passes the scope and ignore filters of the options. */
  predicate Selected(opts: ChangedOptions, pkg: Package) {
    MatchScope(pkg, ScopePatterns(opts.scope)) && !ShouldIgnore(pkg, IgnorePatterns(opts.ignore))
  }

  /** Each resolved row carries the package its name resolves to. */
  predicate Coherent(ws: Workspace, rs: seq<Resolved>) {
    forall i :: 0 <= i < |rs| ==> Resolve(ws, rs[i].row.name) == Some(rs[i].pkg)
  }

  /** A row's name survives `apply_filters` iff its package passes the
      scope and ignore filters. */
  lemma SurvivesIff(ws: Workspace, rs: seq<Resolved>, opts: ChangedOptions, i: nat)
    requires Coherent(ws, rs) && i < |rs|
    ensures rs[i].row.name in NamesOf(ApplyFilters(Pkgs(rs), opts.scope, opts.ignore, None)) <==>
            Selected(opts, rs[i].pkg)
  {
    var filtered := ApplyFilters(Pkgs(rs), opts.scope, opts.ignore, None);
    NameSurvives(ws, rs, filtered, (p: Package) => Selected(opts, p), i);
  }

  /** A row's name is among the names of a filtered list of the packages
      exactly when its own package is kept. */
  lemma NameSurvives(ws: Workspace, rs: seq<Resolved>, filtered: seq<Package>, keep: Package -> bool, i: nat)
    requires Coherent(ws, rs) && i < |rs|
    requires forall p :: p in filtered <==> p in Pkgs(rs) && keep(p)
    ensures rs[i].row.name in NamesOf(filtered) <==> keep(rs[i].pkg)
  {
    var c := rs[i].row;
    if c.name in NamesOf(filtered) {
      var p :| p in filtered && p.name == c.name;
      assert p in Pkgs(rs);
      var j :| 0 <= j < |rs| && p == rs[j].pkg;
      assert Resolve(ws, rs[j].row.name) == Some(p);
    }
    if keep(rs[i].pkg) {
      assert rs[i].pkg == Pkgs(rs)[i];
      assert rs[i].pkg in filtered;
    }
  }

  lemma RowsMembers(rs: seq<Resolved>)
    ensures forall c :: c in Rows(rs) <==> exists i :: 0 <= i < |rs| && c == rs[i].row
  {
    forall c | c in Rows(rs) ensures exists i :: 0 <= i < |rs| && c == rs[i].row {
      var i :| 0 <= i < |Rows(rs)| && Rows(rs)[i] == c;
      assert c == rs[i].row;
    }
  }

  /** The filter step keeps a row iff filtering is off or its package
      passes the scope and ignore filters. */
  lemma KeptMembers(ws: Workspace, rs: seq<Resolved>, opts: ChangedOptions)
    requires Coherent(ws, rs)
    ensures forall c :: c in Kept(rs, opts) <==>
              exists i :: 0 <= i < |rs| && c == rs[i].row && (Filtering(opts) ==> Selected(opts, rs[i].pkg))
  {
    RowsMembers(rs);
    var names := NamesOf(ApplyFilters(Pkgs(rs), opts.scope, opts.ignore, None));
    FilterMembers(Rows(rs), RowNameIn(names));
    forall c ensures c in Kept(rs, opts) <==>
                     exists i :: 0 <= i < |rs| && c == rs[i].row && (Filtering(opts) ==> Selected(opts, rs[i].pkg)) {
      if c in Rows(rs) {
        var i :| 0 <= i < |rs| && c == rs[i].row;
        SurvivesIff(ws, rs, opts, i);
        forall j | 0 <= j < |rs| && c == rs[j].row ensures Selected(opts, rs[j].pkg) == Selected(opts, rs[i].pkg) {
          assert Resolve(ws, rs[j].row.name) == Some(rs[j].pkg);
          assert Resolve(ws, rs[i].row.name) == Some(rs[i].pkg);
        }
      }
    }
  }

  /** A row is reported iff it is the row of some entry and, when a scope
      or ignore patterns are given, its package passes them. */
  lemma ChangedMembers(ws: Workspace, opts: ChangedOptions, files: seq<Path>)
    requires ChangedOf(ws, opts, files).Ok?
    ensures var es := Entries(ws, opts, files);
            forall c :: c in ChangedOf(ws, opts, files).value.changed <==>
              exists i :: 0 <= i < |es| && Resolve(ws, es[i].name).Some? &&
                          c == ResolveEntry(ws, es[i]).value.row &&
                          (Filtering(opts) ==> Selected(opts, Resolve(ws, es[i].name).value))
  {
    var es := Entries(ws, opts, files);
    ChangedAsKept(ws, opts, files);
    KeptEntries(ws, es, ResolveAll(ws, es).value, opts);
  }

  /** The reported rows are the kept rows, reordered. */
  lemma ChangedAsKept(ws: Workspace, opts: ChangedOptions, files: seq<Path>)
    requires ChangedOf(ws, opts, files).Ok?
    ensures var kept := Kept(ResolveAll(ws, Entries(ws, opts, files)).value, opts);
            forall c :: c in ChangedOf(ws, opts, files).value.changed <==> c in kept
  {
    var kept := Kept(ResolveAll(ws, Entries(ws, opts, files)).value, opts);
    var changed := ChangedOf(ws, opts, files).value.changed;
    assert changed == SortBy(kept, Name);
    forall c ensures c in changed <==> c in kept {
      assert c in changed <==> c in multiset(changed);
      assert c in kept <==> c in multiset(kept);
    }
  }

  /** The kept rows of resolved entries, stated over the entries. */
  lemma KeptEntries(ws: Workspace, es: seq<Entry>, rs: seq<Resolved>, opts: ChangedOptions)
    requires ResolveAll(ws, es) == Ok(rs)
    ensures forall c :: c in Kept(rs, opts) <==>
              exists i :: 0 <= i < |es| && Resolve(ws, es[i].name).Some? &&
                          c == ResolveEntry(ws, es[i]).value.row &&
                          (Filtering(opts) ==> Selected(opts, Resolve(ws, es[i].name).value))
  {
    ResolveAllSpec(ws, es);
    assert Coherent(ws, rs);
    KeptMembers(ws, rs, opts);
  }

  function EntryName(e: Entry): string {
    e.name
  }

  /** With unique package names, no name has two entries: the direct names
      are distinct, the dependents are distinct, and no dependent is
      directly changed. */
  lemma EntriesKeysDistinct(ws: Workspace, opts: ChangedOptions, files: seq<Path>)
    requires UniqueNames(ws.packages)
    ensures KeysDistinct(Entries(ws, opts, files), EntryName)
  {
    var table := DirectTable(ws.root, ws.packages, files);
    var names := TableNames(table);
    var deps := Dependents(ws, table, opts.includeDependents);
    DirectTableNoDup(ws.root, ws.packages, files);
    DependentNamesSpec(names, ws.graph.transitiveDependents, names);
    var es := Entries(ws, opts, files);
    var a := Map(table, DirectEntry);
    assert es == a + Map(deps, DependentEntry);
    forall i, j | 0 <= i < j < |es| ensures EntryName(es[i]) != EntryName(es[j]) {
      if j < |a| {
        assert es[i].name == names[i] && es[j].name == names[j];
      } else if i < |a| {
        assert es[i].name == names[i] && es[j].name == deps[j - |a|];
        assert deps[j - |a|] in deps;
      } else {
        assert es[i].name == deps[i - |a|] && es[j].name == deps[j - |a|];
      }
    }
  }

  /** With unique package names, each name is reported at most once. */
  lemma ChangedUniqueNames(ws: Workspace, opts: ChangedOptions, files: seq<Path>)
    requires UniqueNames(ws.packages) && ChangedOf(ws, opts, files).Ok?
    ensures KeysDistinct(ChangedOf(ws, opts, files).value.changed, Name)
  {
    var es := Entries(ws, opts, files);
    var rs := ResolveAll(ws, es).value;
    ResolveAllSpec(ws, es);
    EntriesKeysDistinct(ws, opts, files);
    assert KeysDistinct(Rows(rs), Name) by {
      forall i, j | 0 <= i < j < |rs| ensures Rows(rs)[i].name != Rows(rs)[j].name {
        assert Rows(rs)[i].name == EntryName(es[i]) && Rows(rs)[j].name == EntryName(es[j]);
      }
    }
    var kept := Kept(rs, opts);
    if Filtering(opts) {
      FilterKeysDistinct(Rows(rs), RowNameIn(NamesOf(ApplyFilters(Pkgs(rs), opts.scope, opts.ignore, None))), Name);
    }
    PermKeysDistinct(kept, SortBy(kept, Name), Name);
  }

  /** Some changed file lies under a workspace package of that name. */
  predicate DirectlyChanged(ws: Workspace, files: seq<Path>, n: string) {
    exists k :: 0 <= k < |ws.packages| && ws.packages[k].name == n && PackageFiles(ws.root, files, ws.packages[k]) != []
  }

  /** The graph lists a package of that name among the transitive
      dependents of a directly changed package. */
  predicate DependsOnChange(ws: Workspace, files: seq<Path>, n: string) {
    exists k, j :: 0 <= k < |ws.packages| && PackageFiles(ws.root, files, ws.packages[k]) != [] &&
                   0 <= j < |ws.graph.transitiveDependents(ws.packages[k].name)| &&
                   ws.graph.transitiveDependents(ws.packages[k].name)[j].name == n
  }

  lemma TableNamesIff(ws: Workspace, files: seq<Path>, n: string)
    ensures n in TableNames(DirectTable(ws.root, ws.packages, files)) <==> DirectlyChanged(ws, files, n)
  {
    var table := DirectTable(ws.root, ws.packages, files);
    DirectTableSpec(ws.root, ws.packages, files);
    if n in TableNames(table) {
      var i :| 0 <= i < |table| && TableNames(table)[i] == n;
      assert table[i] in table;
    }
    if DirectlyChanged(ws, files, n) {
      var k :| 0 <= k < |ws.packages| && ws.packages[k].name == n && PackageFiles(ws.root, files, ws.packages[k]) != [];
      var d := DirectOf(ws.root, files, ws.packages[k]);
      assert d in table;
      var i :| 0 <= i < |table| && table[i] == d;
      assert TableNames(table)[i] == n;
    }
  }

  /** A dependent reached from a table entry is reached from a package. */
  lemma DependsFromTable(ws: Workspace, files: seq<Path>, i: nat, j: nat)
    requires var names := TableNames(DirectTable(ws.root, ws.packages, files));
             i < |names| && j < |ws.graph.transitiveDependents(names[i])|
    ensures var names := TableNames(DirectTable(ws.root, ws.packages, files));
            DependsOnChange(ws, files, ws.graph.transitiveDependents(names[i])[j].name)
  {
    var table := DirectTable(ws.root, ws.packages, files);
    DirectTableSpec(ws.root, ws.packages, files);
    assert table[i] in table;
    var k :| 0 <= k < |ws.packages| && table[i] == DirectOf(ws.root, files, ws.packages[k]);
    assert TableNames(table)[i] == ws.packages[k].name;
  }

  /** A dependent reached from a package is reached from its table entry. */
  lemma DependsToTable(ws: Workspace, files: seq<Path>, n: string) returns (i: nat, j: nat)
    requires DependsOnChange(ws, files, n)
    ensures var names := TableNames(DirectTable(ws.root, ws.packages, files));
            i < |names| && j < |ws.graph.transitiveDependents(names[i])| &&
            ws.graph.transitiveDependents(names[i])[j].name == n
  {
    var table := DirectTable(ws.root, ws.packages, files);
    var tr := ws.graph.transitiveDependents;
    DirectTableSpec(ws.root, ws.packages, files);
    var k, j' :| 0 <= k < |ws.packages| && PackageFiles(ws.root, files, ws.packages[k]) != [] &&
                 0 <= j' < |tr(ws.packages[k].name)| && tr(ws.packages[k].name)[j'].name == n;
    var d := DirectOf(ws.root, files, ws.packages[k]);
    assert d in table;
    i :| 0 <= i < |table| && table[i] == d;
    j := j';
    assert TableNames(table)[i] == ws.packages[k].name;
  }

  lemma DependentsIff(ws: Workspace, files: seq<Path>, n: string)
    ensures var table := DirectTable(ws.root, ws.packages, files);
            n in DependentNames(TableNames(table), ws.graph.transitiveDependents, TableNames(table)) <==>
            !DirectlyChanged(ws, files, n) && DependsOnChange(ws, files, n)
  {
    var table := DirectTable(ws.root, ws.packages, files);
    var names := TableNames(table);
    var tr := ws.graph.transitiveDependents;
    DependentNamesSpec(names, tr, names);
    TableNamesIff(ws, files, n);
    if n in DependentNames(names, tr, names) {
      var i, j :| 0 <= i < |names| && 0 <= j < |tr(names[i])| && tr(names[i])[j].name == n;
      DependsFromTable(ws, files, i, j);
    }
    if DependsOnChange(ws, files, n) {
      var i, j := DependsToTable(ws, files, n);
    }
  }

  /** The entries before resolution: one per package with changed files,
      carrying their number, and, when requested, one with no files per
      transitive dependent of those that is not itself directly changed. */
  lemma EntriesSpec(ws: Workspace, opts: ChangedOptions, files: seq<Path>, e: Entry)
    ensures e in Entries(ws, opts, files) && !e.isDependent <==>
            exists k :: 0 <= k < |ws.packages| && PackageFiles(ws.root, files, ws.packages[k]) != [] &&
                        e == Entry(ws.packages[k].name, |PackageFiles(ws.root, files, ws.packages[k])|, false)
    ensures e in Entries(ws, opts, files) && e.isDependent <==>
            e == Entry(e.name, 0, true) && opts.includeDependents &&
            !DirectlyChanged(ws, files, e.name) && DependsOnChange(ws, files, e.name)
  {
    var table := DirectTable(ws.root, ws.packages, files);
    var a := Map(table, DirectEntry);
    var b := Map(Dependents(ws, table, opts.includeDependents), DependentEntry);
    assert Entries(ws, opts, files) == a + b;
    DirectEntries(ws, files, e);
    DependentEntries(ws, opts, files, e);
    if e in a {
      var i :| 0 <= i < |a| && a[i] == e;
    }
    if e in b {
      var i :| 0 <= i < |b| && b[i] == e;
    }
  }

  /** The direct entries: one per package with changed files, with their number. */
  lemma DirectEntries(ws: Workspace, files: seq<Path>, e: Entry)
    ensures e in Map(DirectTable(ws.root, ws.packages, files), DirectEntry) <==>
            exists k :: 0 <= k < |ws.packages| && PackageFiles(ws.root, files, ws.packages[k]) != [] &&
                        e == Entry(ws.packages[k].name, |PackageFiles(ws.root, files, ws.packages[k])|, false)
  {
    var table := DirectTable(ws.root, ws.packages, files);
    var a := Map(table, DirectEntry);
    DirectTableSpec(ws.root, ws.packages, files);
    if exists k :: 0 <= k < |ws.packages| && PackageFiles(ws.root, files, ws.packages[k]) != [] &&
                   e == Entry(ws.packages[k].name, |PackageFiles(ws.root, files, ws.packages[k])|, false) {
      var k :| 0 <= k < |ws.packages| && PackageFiles(ws.root, files, ws.packages[k]) != [] &&
               e == Entry(ws.packages[k].name, |PackageFiles(ws.root, files, ws.packages[k])|, false);
      var d := DirectOf(ws.root, files, ws.packages[k]);
      assert d in table;
      var i :| 0 <= i < |table| && table[i] == d;
      assert a[i] == e;
    }
    if e in a {
      var i :| 0 <= i < |a| && a[i] == e;
      assert table[i] in table;
    }
  }

  /** The dependent entries: one with no files per transitive dependent of a
      changed package that is not itself changed, when requested. */
  lemma DependentEntries(ws: Workspace, opts: ChangedOptions, files: seq<Path>, e: Entry)
    ensures var table := DirectTable(ws.root, ws.packages, files);
            e in Map(Dependents(ws, table, opts.includeDependents), DependentEntry) <==>
            e == Entry(e.name, 0, true) && opts.includeDependents &&
            !DirectlyChanged(ws, files, e.name) && DependsOnChange(ws, files, e.name)
  {
    var table := DirectTable(ws.root, ws.packages, files);
    var deps := Dependents(ws, table, opts.includeDependents);
    var b := Map(deps, DependentEntry);
    DependentsIff(ws, files, e.name);
    if e in b {
      var i :| 0 <= i < |b| && b[i] == e;
      assert deps[i] in deps;
    }
    if e == Entry(e.name, 0, true) && opts.includeDependents && !DirectlyChanged(ws, files, e.name) &&
       DependsOnChange(ws, files, e.name) {
      var i :| 0 <= i < |deps| && deps[i] == e.name;
      assert b[i] == e;
    }
  }
}
