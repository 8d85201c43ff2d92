/** The `list` command (`pymelos.commands.list`): the selected packages
    with their graph neighbours, sorted by name, and their rendering as
    JSON records, graph lines or table rows. */
module ListCommand {
  import opened Wrappers
  import opened Strings
  import opened Seqs
  import opened Sorting
  import opened Paths
  import opened Workspaces
  import opened Chain

  datatype ListFormat = Table | Json | GraphFormat | Names

  datatype PackageInfo = PackageInfo(
    name: string,
    version: string,
    path: string,
    description: Option<string>,
    dependencies: seq<string>,
    dependents: seq<string>)

  datatype ListResult = ListResult(packages: seq<PackageInfo>)

  datatype ListOptions = ListOptions(
    scope: Option<string>,
    since: Option<string>,
    ignore: Option<seq<string>>,
    format: ListFormat,
    includeDependents: bool)

  /** The defaults of `ListOptions`. */
  const DefaultListOptions: ListOptions := ListOptions(None, None, None, Table, false)

  /** `ListCommand.get_packages` */
  function ListPackages(ws: Workspace, opts: ListOptions, changedFiles: string -> seq<Path>): (r: seq<Package>)
    ensures Sublist(r, ws.packages)
  {
    ApplyFiltersWithSince(ws.packages, ws, opts.scope, opts.since, opts.ignore, opts.includeDependents, changedFiles)
  }

  /** `[d.name for d in pkgs]` */
  function NamesOf(pkgs: seq<Package>): (r: seq<string>)
    ensures |r| == |pkgs| && forall i :: 0 <= i < |r| ==> r[i] == pkgs[i].name
  {
    Map(pkgs, (p: Package) => p.name)
  }

  /** The `PackageInfo` of a package inside the workspace root. */
  function Info(ws: Workspace, pkg: Package): PackageInfo
    requires IsUnder(pkg.path, ws.root)
  {
    PackageInfo(pkg.name, pkg.version, RelStr(RelativeTo(pkg.path, ws.root)), pkg.description,
                NamesOf(ws.graph.dependencies(pkg.name)), NamesOf(ws.graph.dependents(pkg.name)))
  }

  /** The infos of `pkgs` in order; a package outside the root makes
      `relative_to` raise, reported with that package's name. */
  function Infos(ws: Workspace, pkgs: seq<Package>): Result<seq<PackageInfo>, string> {
    if pkgs == [] then Ok([])
    else
      match Infos(ws, pkgs[..|pkgs| - 1])
      case Err(e) => Err(e)
      case Ok(infos) =>
        var pkg := pkgs[|pkgs| - 1];
        if IsUnder(pkg.path, ws.root) then Ok(infos + [Info(ws, pkg)]) else Err(pkg.name)
  }

  /** One info per package, in order, each naming its package, its path
      relative to the root, and the names of its dependencies and dependents;
      the error names a package outside the root. */
  lemma {:induction false} InfosSpec(ws: Workspace, pkgs: seq<Package>)
    ensures Infos(ws, pkgs).Ok? <==> forall i :: 0 <= i < |pkgs| ==> IsUnder(pkgs[i].path, ws.root)
    ensures Infos(ws, pkgs).Ok? ==>
              var infos := Infos(ws, pkgs).value;
              && |infos| == |pkgs|
              && forall i :: 0 <= i < |pkgs| ==>
                   && infos[i].name == pkgs[i].name && infos[i].version == pkgs[i].version
                   && ws.root + RelativeTo(pkgs[i].path, ws.root) == pkgs[i].path
                   && infos[i].path == RelStr(RelativeTo(pkgs[i].path, ws.root))
                   && infos[i].dependencies == NamesOf(ws.graph.dependencies(pkgs[i].name))
                   && infos[i].dependents == NamesOf(ws.graph.dependents(pkgs[i].name))
    ensures Infos(ws, pkgs).Err? ==>
              exists i :: 0 <= i < |pkgs| && !IsUnder(pkgs[i].path, ws.root) && Infos(ws, pkgs).error == pkgs[i].name
    decreases |pkgs|
  {
    if pkgs != [] {
      var init := pkgs[..|pkgs| - 1];
      InfosSpec(ws, init);
      forall i | 0 <= i < |init| ensures init[i] == pkgs[i] { }
    }
  }

  lemma {:induction false} InfosErrStays(ws: Workspace, pkgs: seq<Package>, n: nat)
    requires n <= |pkgs| && Infos(ws, pkgs[..n]).Err?
    ensures Infos(ws, pkgs) == Infos(ws, pkgs[..n])
    decreases |pkgs| - n
  {
    if n < |pkgs| {
      assert pkgs[..n + 1][..n] == pkgs[..n];
      InfosErrStays(ws, pkgs, n + 1);
    } else {
      assert pkgs[..n] == pkgs;
    }
  }

  function InfoName(info: PackageInfo): string {
    info.name
  }

  /** `ListCommand.execute`: the infos of the selected packages, sorted by
      name; the same infos, none lost or added. */
  method ListExecute(ws: Workspace, opts: ListOptions, changedFiles: string -> seq<Path>)
    returns (r: Result<ListResult, string>)
    ensures var infos := Infos(ws, ListPackages(ws, opts, changedFiles));
            && (r.Err? <==> infos.Err?)
            && (r.Err? ==> r.error == infos.error)
            && (r.Ok? ==> r.value.packages == SortBy(infos.value, InfoName))
    ensures r.Ok? ==> SortedBy(r.value.packages, InfoName)
    ensures r.Ok? ==> multiset(r.value.packages) == multiset(Infos(ws, ListPackages(ws, opts, changedFiles)).value)
  {
    var infos := CollectInfos(ws, ListPackages(ws, opts, changedFiles));
    if infos.Err? {
      return Err(infos.error);
    }
    r := Ok(ListResult(SortBy(infos.value, InfoName)));
  }

  /** The loop building one info per package, stopping at a package outside
      the root, where `relative_to` raises. */
  method CollectInfos(ws: Workspace, pkgs: seq<Package>) returns (r: Result<seq<PackageInfo>, string>)
    ensures r == Infos(ws, pkgs)
  {
    var infos: seq<PackageInfo> := [];
    var i := 0;
    while i < |pkgs|
      invariant 0 <= i <= |pkgs|
      invariant Infos(ws, pkgs[..i]) == Ok(infos)
    {
      assert pkgs[..i + 1][..i] == pkgs[..i];
      var pkg := pkgs[i];
      if !IsUnder(pkg.path, ws.root) {
        InfosErrStays(ws, pkgs, i + 1);
        return Err(pkg.name);
      }
      infos := infos + [Info(ws, pkg)];
      i := i + 1;
    }
    assert pkgs[..i] == pkgs;
    r := Ok(infos);
  }

  /** The format `handle_list_command` picks: JSON wins over the graph. */
  function SelectFormat(jsonOutput: bool, graph: bool): (f: ListFormat)
    ensures f == Json <==> jsonOutput
    ensures f == GraphFormat <==> !jsonOutput && graph
    ensures f == Table <==> !jsonOutput && !graph
  {
    if jsonOutput then Json else if graph then GraphFormat else Table
  }

  /** The text of one graph line, without the bold markup. */
  function GraphLine(info: PackageInfo): (line: string)
    ensures IsPrefix(info.name + " v" + info.version, line)
    ensures info.dependencies == [] <==> line == info.name + " v" + info.version
    ensures forall i :: 0 <= i < |info.dependencies| ==> Contains(line, info.dependencies[i])
  {
    var head := info.name + " v" + info.version;
    if info.dependencies == [] then head
    else
      var line := head + " -> " + Join(", ", info.dependencies);
      assert line[..|head|] == head;
      forall i | 0 <= i < |info.dependencies| ensures Contains(line, info.dependencies[i]) {
        JoinContains(", ", info.dependencies, i);
        ContainsSuffix(head + " -> ", Join(", ", info.dependencies), info.dependencies[i]);
        assert head + " -> " + Join(", ", info.dependencies) == line;
      }
      line
  }

  /** The table's dependency cell: "-" when there are none. */
  function DepsCell(deps: seq<string>): (cell: string)
    ensures deps == [] ==> cell == "-"
    ensures forall i :: 0 <= i < |deps| ==> Contains(cell, deps[i])
  {
    if deps == [] then "-"
    else
      forall i | 0 <= i < |deps| ensures Contains(Join(", ", deps), deps[i]) {
        JoinContains(", ", deps, i);
      }
      Join(", ", deps)
  }

  /** A table row: name, version, path and the dependency cell. */
  function TableRow(info: PackageInfo): seq<string> {
    [info.name, info.version, info.path, DepsCell(info.dependencies)]
  }

  /** A JSON record: every info field except the dependents. */
  datatype JsonRecord = JsonRecord(name: string, version: string, path: string, description: Option<string>, dependencies: seq<string>)

  function Record(info: PackageInfo): JsonRecord {
    JsonRecord(info.name, info.version, info.path, info.description, info.dependencies)
  }

  datatype ListOutput =
    | JsonOutput(records: seq<JsonRecord>)
    | GraphOutput(lines: seq<string>)
    | TableOutput(rows: seq<seq<string>>)

  /** What `handle_list_command` shows: the packages listed with the scope
      and since given, rendered in the selected format, one record, line or
      row per package in the listed order. */
  method HandleList(ws: Workspace, scope: Option<string>, since: Option<string>, jsonOutput: bool, graph: bool,
                    changedFiles: string -> seq<Path>)
    returns (r: Result<ListOutput, string>)
    ensures var infos := Infos(ws, ListPackages(ws, ListOptions(scope, since, None, SelectFormat(jsonOutput, graph), false), changedFiles));
            && (r.Err? <==> infos.Err?)
            && (r.Ok? ==>
                  var shown := SortBy(infos.value, InfoName);
                  && (jsonOutput ==> r.value == JsonOutput(Map(shown, Record)))
                  && (!jsonOutput && graph ==> r.value == GraphOutput(Map(shown, GraphLine)))
                  && (!jsonOutput && !graph ==> r.value == TableOutput(Map(shown, TableRow))))
  {
    var fmt := SelectFormat(jsonOutput, graph);
    var result := ListExecute(ws, ListOptions(scope, since, None, fmt, false), changedFiles);
    if result.Err? {
      return Err(result.error);
    }
    var shown := result.value.packages;
    if jsonOutput {
      r := Ok(JsonOutput(Map(shown, Record)));
    } else if graph {
      r := Ok(GraphOutput(Map(shown, GraphLine)));
    } else {
      r := Ok(TableOutput(Map(shown, TableRow)));
    }
  }
}
