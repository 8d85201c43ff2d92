/** The workspace as the commands see it: its root, its packages in
    configuration order, its configuration, and the dependency-graph
    queries, whose implementation is not part of this model and which are
    therefore given as functions. */
module Workspaces {
  import opened Wrappers
  import opened Paths

  datatype Package = Package(
    name: string,
    path: Path,
    version: string,
    description: Option<string>,
    workspaceDependencies: seq<string>)

  /** A named script from the `scripts` table of the configuration. */
  datatype Script = Script(
    name: string,
    run: string,
    scope: Option<string>,
    env: map<string, string>,
    failFast: bool,
    topological: bool)

  /** A bootstrap hook: a shell command run in every matching package, or
      once at the workspace root. */
  datatype Hook = Hook(name: string, run: string, scope: Option<string>, runOnce: bool)

  datatype Config = Config(
    env: map<string, string>,
    scripts: seq<Script>,
    cleanPatterns: seq<string>,
    cleanProtected: seq<string>,
    bootstrapHooks: seq<Hook>)

  /** Dependency-graph queries of the workspace. */
  datatype Graph = Graph(
    dependencies: string -> seq<Package>,
    dependents: string -> seq<Package>,
    transitiveDependents: string -> seq<Package>,
    affected: seq<Package> -> seq<Package>,
    parallelBatches: seq<Package> -> seq<seq<Package>>)

  datatype Workspace = Workspace(root: Path, packages: seq<Package>, config: Config, graph: Graph)

  /** Package names are the keys of the workspace's package table. */
  predicate UniqueNames(pkgs: seq<Package>) {
    forall i, j :: 0 <= i < j < |pkgs| ==> pkgs[i].name != pkgs[j].name
  }

  predicate HasPackage(pkgs: seq<Package>, name: string) {
    exists i :: 0 <= i < |pkgs| && pkgs[i].name == name
  }

  /** The package with the given name, if any. */
  function Lookup(pkgs: seq<Package>, name: string): (r: Option<Package>)
    ensures r.Some? ==> r.value in pkgs && r.value.name == name
    ensures r.None? <==> !HasPackage(pkgs, name)
  {
    if pkgs == [] then None
    else if pkgs[0].name == name then Some(pkgs[0])
    else
      var r := Lookup(pkgs[1..], name);
      assert HasPackage(pkgs, name) ==> HasPackage(pkgs[1..], name) by {
        if HasPackage(pkgs, name) {
          var i :| 0 <= i < |pkgs| && pkgs[i].name == name;
          assert pkgs[1..][i - 1].name == name;
        }
      }
      assert HasPackage(pkgs[1..], name) ==> HasPackage(pkgs, name) by {
        if HasPackage(pkgs[1..], name) {
          var i :| 0 <= i < |pkgs[1..]| && pkgs[1..][i].name == name;
          assert pkgs[i + 1].name == name;
        }
      }
      r
  }
}
