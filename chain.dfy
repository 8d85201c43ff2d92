/** Composition of the package filters in their fixed order
    (`pymelos.filters.chain`). */
module Chain {
  import opened Wrappers
  import opened Seqs
  import opened Paths
  import opened Workspaces
  import opened Scope
  import opened Ignore
  import opened Since

  predicate HasNames(names: Option<seq<string>>) {
    names.Some? && names.value != []
  }

  /** The first stage: explicit names when given, the scope otherwise. */
  predicate FirstStageKeeps(scope: Option<string>, names: Option<seq<string>>, p: Package) {
    if HasNames(names) then p.name in names.value else MatchScope(p, ScopePatterns(scope))
  }

  function FirstStage(scope: Option<string>, names: Option<seq<string>>): Package -> bool {
    (p: Package) => FirstStageKeeps(scope, names, p)
  }

  function NameListKeeps(names: seq<string>): Package -> bool {
    (p: Package) => p.name in names
  }

  function ByNames(pkgs: seq<Package>, names: seq<string>): (r: seq<Package>)
    ensures Sublist(r, pkgs)
    ensures forall p :: p in r <==> p in pkgs && p.name in names
  {
    FilterSublist(pkgs, NameListKeeps(names));
    FilterMembers(pkgs, NameListKeeps(names));
    Filter(pkgs, NameListKeeps(names))
  }

  /** `apply_filters`: names or scope first, the ignore patterns last. */
  function ApplyFilters(pkgs: seq<Package>, scope: Option<string>, ignore: Option<seq<string>>,
                        names: Option<seq<string>>): (r: seq<Package>)
    ensures Sublist(r, pkgs)
    ensures forall p :: p in r <==>
              p in pkgs && FirstStageKeeps(scope, names, p) && !ShouldIgnore(p, IgnorePatterns(ignore))
  {
    var first := if HasNames(names) then ByNames(pkgs, names.value) else FilterByScope(pkgs, scope);
    var r := FilterByIgnore(first, ignore);
    SublistTrans(r, first, pkgs);
    r
  }

  lemma ApplyFiltersIsFilter(pkgs: seq<Package>, scope: Option<string>, ignore: Option<seq<string>>,
                             names: Option<seq<string>>)
    ensures ApplyFilters(pkgs, scope, ignore, names) ==
            Filter(Filter(pkgs, FirstStage(scope, names)), IgnoreKeeps(IgnorePatterns(ignore)))
  {
    var first := Filter(pkgs, FirstStage(scope, names));
    if HasNames(names) {
      assert ByNames(pkgs, names.value) == first by {
        FilterExt(pkgs, NameListKeeps(names.value), FirstStage(scope, names));
      }
    } else {
      FilterByScopeIsFilter(pkgs, scope);
      FilterExt(pkgs, ScopeKeeps(ScopePatterns(scope)), FirstStage(scope, names));
    }
    FilterByIgnoreIsFilter(first, ignore);
  }

  /** Filtering an already filtered list with the same arguments changes
      nothing: each stage keeps by a fixed predicate. */
  lemma ApplyFiltersIdempotent(pkgs: seq<Package>, scope: Option<string>, ignore: Option<seq<string>>,
                               names: Option<seq<string>>)
    ensures ApplyFilters(ApplyFilters(pkgs, scope, ignore, names), scope, ignore, names) ==
            ApplyFilters(pkgs, scope, ignore, names)
  {
    var a := FirstStage(scope, names);
    var b := IgnoreKeeps(IgnorePatterns(ignore));
    var ab := (p: Package) => a(p) && b(p);
    var once := ApplyFilters(pkgs, scope, ignore, names);
    ApplyFiltersIsFilter(pkgs, scope, ignore, names);
    FilterFilter(pkgs, a, b, ab);
    assert once == Filter(pkgs, ab);
    ApplyFiltersIsFilter(once, scope, ignore, names);
    FilterFilter(once, a, b, ab);
    FilterIdempotent(pkgs, ab);
  }

  /** `apply_filters_with_since`: scope, then since, then ignore. */
  function ApplyFiltersWithSince(pkgs: seq<Package>, ws: Workspace, scope: Option<string>,
                                 since: Option<string>, ignore: Option<seq<string>>,
                                 includeDependents: bool, changedFiles: string -> seq<Path>): (r: seq<Package>)
    ensures Sublist(r, pkgs)
    ensures forall p :: p in r <==>
              && p in pkgs
              && MatchScope(p, ScopePatterns(scope))
              && (HasSince(since) ==>
                    p.name in NamesOf(ChangedPackages(ws, changedFiles(since.value), includeDependents)))
              && !ShouldIgnore(p, IgnorePatterns(ignore))
    ensures !HasSince(since) ==> r == ApplyFilters(pkgs, scope, ignore, None)
  {
    var scoped := FilterByScope(pkgs, scope);
    var changed := FilterBySince(scoped, ws, since, changedFiles, includeDependents);
    var r := FilterByIgnore(changed, ignore);
    SublistTrans(changed, scoped, pkgs);
    SublistTrans(r, changed, pkgs);
    r
  }
}
