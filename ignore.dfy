/** Exclusion of packages by glob patterns (`pymelos.filters.ignore`). */
module Ignore {
  import opened Wrappers
  import opened Strings
  import opened Seqs
  import opened Glob
  import opened Paths
  import opened Workspaces

  /** One pattern excludes a package when it glob-matches the name, the name
      with `-` turned into `_` (the pattern likewise), or the path string. */
  predicate PatternIgnores(pkg: Package, pattern: string) {
    || Match(pkg.name, pattern)
    || Match(ReplaceChar(pkg.name, '-', '_'), ReplaceChar(pattern, '-', '_'))
    || Match(AbsStr(pkg.path), pattern)
  }

  /** `should_ignore`: the loop over the patterns with its early return. */
  function ShouldIgnore(pkg: Package, patterns: seq<string>): (r: bool)
    ensures patterns == [] ==> !r
    ensures r <==> exists i :: 0 <= i < |patterns| && PatternIgnores(pkg, patterns[i])
  {
    if patterns == [] then false
    else if PatternIgnores(pkg, patterns[0]) then true
    else
      var r := ShouldIgnore(pkg, patterns[1..]);
      assert r ==> exists i :: 0 <= i < |patterns| && PatternIgnores(pkg, patterns[i]) by {
        if r {
          var i :| 0 <= i < |patterns[1..]| && PatternIgnores(pkg, patterns[1..][i]);
          assert patterns[i + 1] == patterns[1..][i];
        }
      }
      assert (exists i :: 0 <= i < |patterns| && PatternIgnores(pkg, patterns[i])) ==> r by {
        if exists i :: 0 <= i < |patterns| && PatternIgnores(pkg, patterns[i]) {
          var i :| 0 <= i < |patterns| && PatternIgnores(pkg, patterns[i]);
          assert patterns[1..][i - 1] == patterns[i];
        }
      }
      r
  }

  /** The patterns an ignore argument yields; absent means none. */
  function IgnorePatterns(ignore: Option<seq<string>>): seq<string> {
    if ignore.None? then [] else ignore.value
  }

  function IgnoreKeeps(patterns: seq<string>): Package -> bool {
    (p: Package) => !ShouldIgnore(p, patterns)
  }

  /** `filter_by_ignore`: the packages no pattern excludes, in order. */
  function FilterByIgnore(pkgs: seq<Package>, ignore: Option<seq<string>>): (r: seq<Package>)
    ensures IgnorePatterns(ignore) == [] ==> r == pkgs
    ensures Sublist(r, pkgs)
    ensures forall p :: p in r <==> p in pkgs && !ShouldIgnore(p, IgnorePatterns(ignore))
  {
    var patterns := IgnorePatterns(ignore);
    if patterns == [] then
      SublistRefl(pkgs);
      pkgs
    else
      FilterSublist(pkgs, IgnoreKeeps(patterns));
      FilterMembers(pkgs, IgnoreKeeps(patterns));
      Filter(pkgs, IgnoreKeeps(patterns))
  }

  /** The ignore filter is a filter by one fixed predicate, whether or not
      there are patterns. */
  lemma FilterByIgnoreIsFilter(pkgs: seq<Package>, ignore: Option<seq<string>>)
    ensures FilterByIgnore(pkgs, ignore) == Filter(pkgs, IgnoreKeeps(IgnorePatterns(ignore)))
  {
    if IgnorePatterns(ignore) == [] {
      FilterAll(pkgs, IgnoreKeeps(IgnorePatterns(ignore)));
    }
  }
}
