/** The `export` command (`pymelos.commands.export`): the closure of a
    package under its workspace dependencies, the list of exported
    packages and the generated workspace configuration. */
module Export {
  import opened Wrappers
  import opened Seqs
  import opened Strings
  import opened Workspaces
  import opened Since

  datatype ExportOptions = ExportOptions(packageName: string, output: string, clean: bool, includeDev: bool)

  datatype ExportResult = ExportResult(outputPath: string, packagesExported: seq<string>, success: bool)

  /** `ExportCommand.validate`: one message when the package is unknown. */
  function Validate(ws: Workspace, opts: ExportOptions): (errors: seq<string>)
    ensures errors == [] <==> HasPackage(ws.packages, opts.packageName)
    ensures errors != [] ==> |errors| == 1 && Contains(errors[0], opts.packageName)
  {
    if HasPackage(ws.packages, opts.packageName) then []
    else
      var msg := "Package '" + opts.packageName + "' not found in workspace.";
      assert IsPrefix(opts.packageName, msg[9..]);
      ContainsAt(msg, 9, opts.packageName);
      [msg]
  }

  /** The workspace dependencies of the package of that name. */
  function DepsOf(ws: Workspace, n: string): seq<string> {
    var p := Lookup(ws.packages, n);
    if p.Some? then p.value.workspaceDependencies else []
  }

  /** A chain of workspace dependencies from `path[0]` to its last name. */
  ghost predicate DepPath(ws: Workspace, path: seq<string>) {
    |path| >= 1 && forall i :: 0 <= i < |path| - 1 ==> path[i + 1] in DepsOf(ws, path[i])
  }

  /** `to` is `from` or reachable from it through workspace dependencies. */
  ghost predicate Reaches(ws: Workspace, from: string, to: string) {
    exists path :: DepPath(ws, path) && path[0] == from && path[|path| - 1] == to
  }

  lemma ReachesRefl(ws: Workspace, n: string)
    ensures Reaches(ws, n, n)
  {
    assert DepPath(ws, [n]);
  }

  /** A dependency's reach is part of its dependent's reach. */
  lemma ReachesStep(ws: Workspace, from: string, d: string, to: string)
    requires d in DepsOf(ws, from) && Reaches(ws, d, to)
    ensures Reaches(ws, from, to)
  {
    var path :| DepPath(ws, path) && path[0] == d && path[|path| - 1] == to;
    var path' := [from] + path;
    assert DepPath(ws, path') by {
      forall i | 0 <= i < |path'| - 1 ensures path'[i + 1] in DepsOf(ws, path'[i]) {
        if i > 0 {
          assert path'[i] == path[i - 1] && path'[i + 1] == path[i];
        }
      }
    }
  }

  /** Every dependency of a collected name is collected. */
  ghost predicate Closed(ws: Workspace, c: set<string>) {
    forall n, d :: n in c && d in DepsOf(ws, n) ==> d in c
  }

  /** A closed set holding `from` holds everything `from` reaches. */
  lemma ClosedHoldsReach(ws: Workspace, c: set<string>, from: string, to: string)
    requires Closed(ws, c) && from in c && Reaches(ws, from, to)
    ensures to in c
  {
    var path :| DepPath(ws, path) && path[0] == from && path[|path| - 1] == to;
    var i := 0;
    while i < |path| - 1
      invariant 0 <= i <= |path| - 1
      invariant path[i] in c
    {
      assert path[i + 1] in DepsOf(ws, path[i]);
      i := i + 1;
    }
  }

  lemma SubsetCard<T>(a: set<T>, b: set<T>)
    requires a <= b
    ensures |a| <= |b|
    decreases |a|
  {
    if a != {} {
      var x :| x in a;
      SubsetCard(a - {x}, b - {x});
    }
  }

  /** What a recursive visit of the dependency `d` of `from` adds keeps the
      walk's invariants: new names are workspace packages `from` reaches,
      and names added other than `from` have their dependencies collected. */
  lemma WalkStep(ws: Workspace, from: string, d: string, collected: set<string>, c: set<string>, c': set<string>)
    requires d in DepsOf(ws, from) && c <= c' && d in c'
    requires forall n :: n in c - collected ==> HasPackage(ws.packages, n) && Reaches(ws, from, n)
    requires forall n, e :: n in c - collected && n != from && e in DepsOf(ws, n) ==> e in c
    requires forall n :: n in c' - c ==> HasPackage(ws.packages, n) && Reaches(ws, d, n)
    requires forall n, e :: n in c' - c && e in DepsOf(ws, n) ==> e in c'
    ensures forall n :: n in c' - collected ==> HasPackage(ws.packages, n) && Reaches(ws, from, n)
    ensures forall n, e :: n in c' - collected && n != from && e in DepsOf(ws, n) ==> e in c'
  {
    forall n | n in c' - c ensures Reaches(ws, from, n) {
      ReachesStep(ws, from, d, n);
    }
  }

  /** `_get_local_dependencies`: a depth-first walk that records each name
      in `collected` before visiting its dependencies and returns at once
      for a name already recorded, so it ends even on cyclic dependencies.
      An unknown dependency name makes the lookup fail. */
  method CollectDependencies(ws: Workspace, pkg: Package, collected: set<string>) returns (r: Result<set<string>, string>)
    requires Lookup(ws.packages, pkg.name) == Some(pkg)
    ensures pkg.name in collected ==> r == Ok(collected)
    ensures r.Ok? ==> collected <= r.value && pkg.name in r.value
    ensures r.Ok? ==> forall n :: n in r.value - collected ==> HasPackage(ws.packages, n)
    ensures r.Ok? ==> forall n :: n in r.value - collected ==> Reaches(ws, pkg.name, n)
    ensures r.Ok? ==> forall n, d :: n in r.value - collected && d in DepsOf(ws, n) ==> d in r.value
    ensures r.Err? ==> !HasPackage(ws.packages, r.error) && Reaches(ws, pkg.name, r.error)
    decreases |NamesOf(ws.packages) - collected|, 1
  {
    if pkg.name in collected {
      return Ok(collected);
    }
    var c := collected + {pkg.name};
    ReachesRefl(ws, pkg.name);
    assert pkg in ws.packages;
    var deps := pkg.workspaceDependencies;
    assert deps == DepsOf(ws, pkg.name);
    var i := 0;
    while i < |deps|
      invariant 0 <= i <= |deps|
      invariant collected + {pkg.name} <= c
      invariant forall n :: n in c - collected ==> HasPackage(ws.packages, n)
      invariant forall n :: n in c - collected ==> Reaches(ws, pkg.name, n)
      invariant forall n, d :: n in c - collected && n != pkg.name && d in DepsOf(ws, n) ==> d in c
      invariant forall k :: 0 <= k < i ==> deps[k] in c
    {
      var sub := VisitDependency(ws, pkg, deps[i], collected, c);
      if sub.Err? {
        return sub;
      }
      forall k | 0 <= k <= i ensures deps[k] in sub.value {
        if k < i {
          assert deps[k] in c;
        }
      }
      c := sub.value;
      i := i + 1;
    }
    return Ok(c);
  }

  /** One iteration of the walk's loop: the dependency `d` of `pkg` is
      looked up and walked from the names collected so far. What it adds
      keeps the walk's invariants. */
  method VisitDependency(ws: Workspace, pkg: Package, d: string, collected: set<string>, c: set<string>)
    returns (r: Result<set<string>, string>)
    requires Lookup(ws.packages, pkg.name) == Some(pkg)
    requires d in DepsOf(ws, pkg.name) && pkg.name !in collected && collected + {pkg.name} <= c
    requires forall n :: n in c - collected ==> HasPackage(ws.packages, n) && Reaches(ws, pkg.name, n)
    requires forall n, e :: n in c - collected && n != pkg.name && e in DepsOf(ws, n) ==> e in c
    ensures r.Ok? ==> c <= r.value && d in r.value
    ensures r.Ok? ==> forall n :: n in r.value - collected ==> HasPackage(ws.packages, n) && Reaches(ws, pkg.name, n)
    ensures r.Ok? ==> forall n, e :: n in r.value - collected && n != pkg.name && e in DepsOf(ws, n) ==> e in r.value
    ensures r.Err? ==> !HasPackage(ws.packages, r.error) && Reaches(ws, pkg.name, r.error)
    decreases |NamesOf(ws.packages) - collected|, 0
  {
    var dep := Lookup(ws.packages, d);
    if dep.None? {
      ReachesRefl(ws, d);
      ReachesStep(ws, pkg.name, d, d);
      return Err(d);
    }
    assert pkg in ws.packages;
    SubsetCard(NamesOf(ws.packages) - c, NamesOf(ws.packages) - collected - {pkg.name});
    r := CollectDependencies(ws, dep.value, c);
    if r.Err? {
      ReachesStep(ws, pkg.name, d, r.error);
      return;
    }
    WalkStep(ws, pkg.name, d, collected, c, r.value);
  }

  /** The walk started from an empty set collects exactly the names the
      package reaches, and fails exactly when one of them is not a
      workspace package. */
  method NeededPackages(ws: Workspace, target: Package) returns (r: Result<set<string>, string>)
    requires Lookup(ws.packages, target.name) == Some(target)
    ensures r.Ok? ==> forall n :: n in r.value <==> Reaches(ws, target.name, n)
    ensures r.Ok? ==> Closed(ws, r.value)
    ensures r.Ok? ==> forall n :: n in r.value ==> HasPackage(ws.packages, n)
    ensures r.Err? ==> !HasPackage(ws.packages, r.error) && Reaches(ws, target.name, r.error)
  {
    r := CollectDependencies(ws, target, {});
    if r.Ok? {
      assert r.value - {} == r.value;
      forall n | Reaches(ws, target.name, n) ensures n in r.value {
        ClosedHoldsReach(ws, r.value, target.name, n);
      }
    }
  }

  /** `packages/<name>` in double quotes: one entry of the members array. */
  function MemberEntry(name: string): string {
    "\"packages/" + name + "\""
  }

  /** The generated `pyproject.toml` up to the member list. */
  const Preamble: string :=
    "[project]\nname = \"exported-workspace\"\nversion = \"0.1.0\"\nrequires-python = \">=3.10\"\n\n[tool.uv]\nmembers = ["

  /** The text of the generated `pyproject.toml`. */
  function ConfigText(members: seq<string>): (t: string)
    ensures forall i :: 0 <= i < |members| ==> Contains(t, MemberEntry(members[i]))
  {
    var t := Preamble + Join(", ", Map(members, MemberEntry)) + "]\n";
    forall i | 0 <= i < |members| ensures Contains(t, MemberEntry(members[i])) {
      ListedEntry(Preamble, Map(members, MemberEntry), i);
    }
    t
  }

  /** An entry of the list appears in the text that lists it. */
  lemma ListedEntry(pre: string, entries: seq<string>, i: int)
    requires 0 <= i < |entries|
    ensures Contains(pre + Join(", ", entries) + "]\n", entries[i])
  {
    var arr := Join(", ", entries);
    var t := pre + arr + "]\n";
    JoinContains(", ", entries, i);
    var k := ContainsOffset(arr, entries[i]);
    assert t[|pre|..][k..] == arr[k..] + "]\n";
    ContainsAt(t, |pre| + k, entries[i]);
  }

  /** What `execute` returns, with the configuration text it writes. */
  datatype Exported = Exported(result: ExportResult, config: string)

  /** `ExportCommand.execute`: validation errors are raised joined by
      newlines; an unknown dependency makes the package lookup fail;
      otherwise every package the target reaches is exported once and the
      configuration lists exactly those packages. `outputPath` is the
      resolved output directory. */
  method ExportExecute(ws: Workspace, opts: ExportOptions, outputPath: string) returns (r: Result<Exported, string>)
    ensures !HasPackage(ws.packages, opts.packageName) ==> r == Err(Join("\n", Validate(ws, opts)))
    ensures r.Ok? ==> HasPackage(ws.packages, opts.packageName)
    ensures r.Ok? ==> r.value.result.outputPath == outputPath && r.value.result.success
    ensures r.Ok? ==> NoDup(r.value.result.packagesExported)
    ensures r.Ok? ==> forall n :: n in r.value.result.packagesExported <==> Reaches(ws, opts.packageName, n)
    ensures r.Ok? ==> forall n :: n in r.value.result.packagesExported ==> HasPackage(ws.packages, n)
    ensures r.Ok? ==> r.value.config == ConfigText(r.value.result.packagesExported)
    ensures r.Err? && HasPackage(ws.packages, opts.packageName) ==>
              !HasPackage(ws.packages, r.error) && Reaches(ws, opts.packageName, r.error)
  {
    var errors := Validate(ws, opts);
    if errors != [] {
      return Err(Join("\n", errors));
    }
    var target := Lookup(ws.packages, opts.packageName).value;
    var needed := NeededPackages(ws, target);
    if needed.Err? {
      return Err(needed.error);
    }
    var list := SetToSeq(needed.value);
    r := Ok(Exported(ExportResult(outputPath, list, true), ConfigText(list)));
  }
}
