/** Selection of packages by a comma-separated list of names or glob
    patterns (`pymelos.filters.scope`). */
module Scope {
  import opened Wrappers
  import opened Strings
  import opened Seqs
  import opened Glob
  import opened Workspaces

  function StripAll(pieces: seq<string>): (r: seq<string>)
    ensures |r| == |pieces|
    ensures forall i :: 0 <= i < |pieces| ==> r[i] == Strip(pieces[i])
    ensures forall i :: 0 <= i < |r| ==> Trimmed(r[i])
  {
    var r := Map(pieces, Strip);
    forall i | 0 <= i < |r| ensures Trimmed(r[i]) {
      var t := Strip(pieces[i]);
      assert t != [] ==> !IsSpace(t[0]) && !IsSpace(t[|t| - 1]);
    }
    r
  }

  predicate NonEmpty(s: string) { s != [] }

  /** The stripped pieces, blank ones dropped. */
  function CleanPieces(pieces: seq<string>): (r: seq<string>)
    ensures forall i :: 0 <= i < |r| ==> r[i] != [] && Trimmed(r[i])
  {
    var stripped := StripAll(pieces);
    FilterSatisfies(stripped, NonEmpty);
    FilterPreserves(stripped, NonEmpty, Trimmed);
    Filter(stripped, NonEmpty)
  }

  /** `parse_scope`: the stripped comma-separated pieces, blank ones dropped. */
  function ParseScope(scope: string): (r: seq<string>)
    ensures scope == [] ==> r == []
    ensures forall i :: 0 <= i < |r| ==> r[i] != [] && Trimmed(r[i])
  {
    if scope == [] then [] else CleanPieces(Split(scope, ','))
  }

  /** The kept pieces are exactly the non-blank stripped pieces. */
  lemma CleanPiecesMembers(pieces: seq<string>, p: string)
    ensures p in CleanPieces(pieces) <==> p != [] && exists i :: 0 <= i < |pieces| && Strip(pieces[i]) == p
  {
    var stripped := StripAll(pieces);
    FilterMembers(stripped, NonEmpty);
    if p in stripped {
      var i :| 0 <= i < |stripped| && stripped[i] == p;
      assert Strip(pieces[i]) == p;
    }
    if p != [] && exists i :: 0 <= i < |pieces| && Strip(pieces[i]) == p {
      var i :| 0 <= i < |pieces| && Strip(pieces[i]) == p;
      assert stripped[i] == p;
    }
  }

  /** Exactly the non-blank pieces of the scope, stripped, are patterns. */
  lemma ParseScopeMembers(scope: string, p: string)
    requires scope != []
    ensures p in ParseScope(scope) <==>
            p != [] && exists i :: 0 <= i < |Split(scope, ',')| && Strip(Split(scope, ',')[i]) == p
  {
    CleanPiecesMembers(Split(scope, ','), p);
  }

  /** One pattern selects a name by exact equality, ASCII-case-insensitive
      equality, a glob match, or a glob match after `-` becomes `_` on both
      sides. */
  predicate PatternSelects(name: string, pattern: string) {
    || name == pattern
    || Lower(name) == Lower(pattern)
    || Match(name, pattern)
    || Match(ReplaceChar(name, '-', '_'), ReplaceChar(pattern, '-', '_'))
  }

  function AnySelects(name: string, patterns: seq<string>): (r: bool)
    ensures r <==> exists i :: 0 <= i < |patterns| && PatternSelects(name, patterns[i])
  {
    if patterns == [] then false
    else if PatternSelects(name, patterns[0]) then true
    else
      var r := AnySelects(name, patterns[1..]);
      assert r ==> exists i :: 0 <= i < |patterns| && PatternSelects(name, patterns[i]) by {
        if r {
          var i :| 0 <= i < |patterns[1..]| && PatternSelects(name, patterns[1..][i]);
          assert patterns[i + 1] == patterns[1..][i];
        }
      }
      assert (exists i :: 0 <= i < |patterns| && PatternSelects(name, patterns[i])) ==> r by {
        if exists i :: 0 <= i < |patterns| && PatternSelects(name, patterns[i]) {
          var i :| 0 <= i < |patterns| && PatternSelects(name, patterns[i]);
          assert i != 0;
          assert patterns[1..][i - 1] == patterns[i];
        }
      }
      r
  }

  /** `match_scope`: no patterns select everything; otherwise some pattern
      must select the package's name. */
  function MatchScope(pkg: Package, patterns: seq<string>): (r: bool)
    ensures patterns == [] ==> r
    ensures patterns != [] ==> (r <==> exists i :: 0 <= i < |patterns| && PatternSelects(pkg.name, patterns[i]))
  {
    patterns == [] || AnySelects(pkg.name, patterns)
  }

  /** The patterns a scope argument yields; absent and empty scopes yield none. */
  function ScopePatterns(scope: Option<string>): seq<string> {
    if scope.None? || scope.value == [] then [] else ParseScope(scope.value)
  }

  function ScopeKeeps(patterns: seq<string>): Package -> bool {
    (p: Package) => MatchScope(p, patterns)
  }

  /** `filter_by_scope` */
  function FilterByScope(pkgs: seq<Package>, scope: Option<string>): (r: seq<Package>)
    ensures ScopePatterns(scope) == [] ==> r == pkgs
    ensures Sublist(r, pkgs)
    ensures forall p :: p in r <==> p in pkgs && MatchScope(p, ScopePatterns(scope))
  {
    var patterns := ScopePatterns(scope);
    if patterns == [] then
      SublistRefl(pkgs);
      pkgs
    else
      FilterSublist(pkgs, ScopeKeeps(patterns));
      FilterMembers(pkgs, ScopeKeeps(patterns));
      Filter(pkgs, ScopeKeeps(patterns))
  }

  /** The scope filter is a filter by one fixed predicate, whether or not
      there are patterns. */
  lemma FilterByScopeIsFilter(pkgs: seq<Package>, scope: Option<string>)
    ensures FilterByScope(pkgs, scope) == Filter(pkgs, ScopeKeeps(ScopePatterns(scope)))
  {
    if ScopePatterns(scope) == [] {
      FilterAll(pkgs, ScopeKeeps(ScopePatterns(scope)));
    }
  }

  /** A package whose name is literally one of the patterns always survives. */
  lemma ExactNameKept(pkgs: seq<Package>, scope: Option<string>, p: Package)
    requires p in pkgs && p.name in ScopePatterns(scope)
    ensures p in FilterByScope(pkgs, scope)
  {
    var patterns := ScopePatterns(scope);
    var i :| 0 <= i < |patterns| && patterns[i] == p.name;
    assert PatternSelects(p.name, patterns[i]);
  }
}
