/** Selection of the packages touched by the files changed since a git
    reference (`pymelos.filters.since`). */
module Since {
  import opened Wrappers
  import opened Seqs
  import opened Paths
  import opened Workspaces

  /** Some changed file, taken relative to the root, lies under the package. */
  predicate Touches(root: Path, files: seq<Path>, pkg: Package) {
    exists k :: 0 <= k < |files| && IsUnder(JoinPath(root, files[k]), pkg.path)
  }

  /** The touched packages in workspace order, each recorded once. */
  function Touched(root: Path, pkgs: seq<Package>, files: seq<Path>): seq<Package> {
    if pkgs == [] then []
    else
      var t := Touched(root, pkgs[..|pkgs| - 1], files);
      var p := pkgs[|pkgs| - 1];
      if Touches(root, files, p) && p !in t then t + [p] else t
  }

  /** A package is recorded iff it is a workspace package touched by a
      changed file; no package is recorded twice; order follows the
      workspace. */
  lemma {:induction false} TouchedSpec(root: Path, pkgs: seq<Package>, files: seq<Path>)
    ensures forall p :: p in Touched(root, pkgs, files) <==> p in pkgs && Touches(root, files, p)
    ensures NoDup(Touched(root, pkgs, files))
    ensures Sublist(Touched(root, pkgs, files), pkgs)
    decreases |pkgs|
  {
    if pkgs != [] {
      var init := pkgs[..|pkgs| - 1];
      var p := pkgs[|pkgs| - 1];
      TouchedSpec(root, init, files);
      assert pkgs == init + [p];
      var t := Touched(root, init, files);
      if Touches(root, files, p) && p !in t {
        assert forall i :: 0 <= i < |t| ==> t[i] != p by {
          forall i | 0 <= i < |t| ensures t[i] != p {
            assert t[i] in t;
          }
        }
      }
    }
  }

  /** The changed packages, or what the graph reports as affected by them. */
  function ChangedPackages(ws: Workspace, files: seq<Path>, includeDependents: bool): seq<Package> {
    var direct := Touched(ws.root, ws.packages, files);
    if includeDependents then ws.graph.affected(direct) else direct
  }

  /** `get_changed_packages`, given the files git reports as changed: the
      nested loop that stops at the first file under each package. */
  method GetChangedPackages(ws: Workspace, files: seq<Path>, includeDependents: bool) returns (r: seq<Package>)
    ensures r == ChangedPackages(ws, files, includeDependents)
  {
    var pkgs := ws.packages;
    var changed: seq<Package> := [];
    var i := 0;
    while i < |pkgs|
      invariant 0 <= i <= |pkgs|
      invariant changed == Touched(ws.root, pkgs[..i], files)
    {
      var pkg := pkgs[i];
      assert pkgs[..i + 1][..i] == pkgs[..i];
      var j := 0;
      var hit := false;
      while j < |files| && !hit
        invariant 0 <= j <= |files|
        invariant !hit ==> forall k :: 0 <= k < j ==> !IsUnder(JoinPath(ws.root, files[k]), pkg.path)
        invariant hit ==> changed == Touched(ws.root, pkgs[..i + 1], files)
        invariant !hit ==> changed == Touched(ws.root, pkgs[..i], files)
      {
        if IsUnder(JoinPath(ws.root, files[j]), pkg.path) {
          if pkg !in changed {
            changed := changed + [pkg];
          }
          hit := true;
        }
        j := j + 1;
      }
      assert changed == Touched(ws.root, pkgs[..i + 1], files);
      i := i + 1;
    }
    assert pkgs[..i] == pkgs;
    if includeDependents {
      return ws.graph.affected(changed);
    }
    return changed;
  }

  function NamesOf(pkgs: seq<Package>): set<string> {
    set p | p in pkgs :: p.name
  }

  function NameIn(names: set<string>): Package -> bool {
    (p: Package) => p.name in names
  }

  /** Whether a since argument asks for change detection at all. */
  predicate HasSince(since: Option<string>) {
    since.Some? && since.value != []
  }

  /** `filter_by_since`, with `changedFiles` standing for git's answer to
      "which files changed since this reference". */
  function FilterBySince(pkgs: seq<Package>, ws: Workspace, since: Option<string>,
                         changedFiles: string -> seq<Path>, includeDependents: bool): (r: seq<Package>)
    ensures !HasSince(since) ==> r == pkgs
    ensures Sublist(r, pkgs)
    ensures HasSince(since) ==>
              forall p :: p in r <==>
                p in pkgs && p.name in NamesOf(ChangedPackages(ws, changedFiles(since.value), includeDependents))
  {
    if !HasSince(since) then
      SublistRefl(pkgs);
      pkgs
    else
      var names := NamesOf(ChangedPackages(ws, changedFiles(since.value), includeDependents));
      FilterSublist(pkgs, NameIn(names));
      FilterMembers(pkgs, NameIn(names));
      Filter(pkgs, NameIn(names))
  }
}
