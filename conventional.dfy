/** Conventional-commit parsing and version-bump selection
    (`pymelos.versioning.conventional`). */
module Conventional {
  import opened Wrappers
  import opened Strings
  import opened Seqs

  /** Semantic-version bump levels, totally ordered by `Rank`. */
  datatype BumpType = NoBump | Patch | Minor | Major {
    function Rank(): nat {
      match this
      case NoBump => 0
      case Patch => 1
      case Minor => 2
      case Major => 3
    }
  }

  /** The eleven commit types the header pattern accepts, in pattern order. */
  const Types: seq<string> :=
    ["feat", "fix", "docs", "style", "refactor", "perf", "test", "chore", "ci", "build", "revert"]

  /** The parts of a header line `type(scope)!: description`. */
  datatype Header = Header(commitType: string, scope: Option<string>, breaking: bool, description: string)

  datatype ParsedCommit = ParsedCommit(
    sha: string,
    commitType: string,
    scope: Option<string>,
    description: string,
    body: Option<string>,
    breaking: bool,
    rawMessage: string)

  /** A header the pattern can produce: a listed type, a non-empty scope
      without `)`, a non-empty description. */
  predicate WellFormed(h: Header) {
    && h.commitType in Types
    && (h.scope.Some? ==> h.scope.value != [] && ')' !in h.scope.value)
    && h.description != []
  }

  function ScopeText(scope: Option<string>): string {
    match scope
    case None => ""
    case Some(s) => "(" + s + ")"
  }

  /** What follows the type word in a header line. */
  function HeaderTail(h: Header): string {
    ScopeText(h.scope) + BangTail(h.breaking, h.description)
  }

  /** The optional `!`, the `: ` separator and the description. */
  function BangTail(bang: bool, description: string): string {
    (if bang then "!" else "") + ": " + description
  }

  /** `line` starts with `t`, ignoring ASCII case. */
  predicate StartsWithType(line: string, t: string) {
    |t| <= |line| && Lower(line[..|t|]) == t
  }

  /** No listed type is a proper prefix of another, so at most one type can
      begin a line. */
  lemma TypesPrefixFree(t: string, u: string)
    requires t in Types && u in Types && |t| <= |u| && u[..|t|] == t
    ensures t == u
  {
    assert u[0] == u[..|t|][0] && u[1] == u[..|t|][1];
    assert |t| >= 3 ==> u[2] == u[..|t|][2];
  }

  lemma TypeUnique(line: string, t: string, u: string)
    requires t in Types && u in Types
    requires StartsWithType(line, t) && StartsWithType(line, u)
    ensures t == u
  {
    if |t| <= |u| {
      LowerPrefix(line[..|u|], |t|);
      assert line[..|u|][..|t|] == line[..|t|];
      TypesPrefixFree(t, u);
    } else {
      LowerPrefix(line[..|t|], |u|);
      assert line[..|t|][..|u|] == line[..|u|];
      TypesPrefixFree(u, t);
    }
  }

  /** The type alternation of the pattern, tried in order from `Types[i]`. */
  function MatchType(line: string, i: nat): (r: Option<string>)
    ensures r.Some? ==> r.value in Types && StartsWithType(line, r.value)
    ensures r.None? ==> forall j :: i <= j < |Types| ==> !StartsWithType(line, Types[j])
    decreases |Types| - i
  {
    if i >= |Types| then None
    else if StartsWithType(line, Types[i]) then Some(Types[i])
    else MatchType(line, i + 1)
  }

  /** The optional `(scope)` group: `None` when the text opens a group that
      cannot be closed (the pattern then fails), otherwise the scope and the
      remaining text. */
  function ScopeGroup(rest: string): Option<(Option<string>, string)> {
    if rest != [] && rest[0] == '(' then
      var k := IndexOf(rest, ')');
      if 2 <= k < |rest| then Some((Some(rest[1..k]), rest[k + 1..])) else None
    else Some((None, rest))
  }

  /** The scope group succeeds exactly on a bracketed non-empty scope without
      `)`, or on text that does not open a bracket. */
  lemma ScopeGroupIff(rest: string, scope: Option<string>, after: string)
    ensures ScopeGroup(rest) == Some((scope, after)) <==>
            (scope.None? && (rest == [] || rest[0] != '(') && after == rest) ||
            (scope.Some? && scope.value != [] && ')' !in scope.value && rest == "(" + scope.value + ")" + after)
  {
    if ScopeGroup(rest) == Some((scope, after)) && scope.Some? {
      var k := IndexOf(rest, ')');
      assert rest[..k][1..] == rest[1..k];
      assert rest == [rest[0]] + rest[1..k] + [rest[k]] + rest[k + 1..];
    }
    if scope.Some? && scope.value != [] && ')' !in scope.value && rest == "(" + scope.value + ")" + after {
      var s := scope.value;
      assert rest[|s| + 1] == ')';
      assert rest[..|s| + 1] == "(" + s;
      IndexOfFirst(rest, ')', |s| + 1);
      assert rest[1..|s| + 1] == s;
      assert rest[|s| + 2..] == after;
    }
  }

  /** The optional `!` and the `: description` that must follow. */
  function BangColon(rest: string): Option<(bool, string)> {
    var bang := rest != [] && rest[0] == '!';
    var tail := if bang then rest[1..] else rest;
    if |tail| >= 3 && tail[..2] == ": " then Some((bang, tail[2..])) else None
  }

  lemma BangColonIff(rest: string, bang: bool, description: string)
    ensures BangColon(rest) == Some((bang, description)) <==>
            description != [] && rest == BangTail(bang, description)
  {
    if BangColon(rest) == Some((bang, description)) {
      var tail := if bang then rest[1..] else rest;
      assert tail == tail[..2] + tail[2..];
      if bang {
        assert rest == [rest[0]] + rest[1..];
      }
    }
    if description != [] && rest == BangTail(bang, description) {
      if bang {
        assert rest[1..] == ": " + description;
      }
    }
  }

  /** The header pattern, case-insensitive on the type, applied to one line. */
  function MatchHeader(line: string): Option<Header> {
    var m := MatchType(line, 0);
    if m.None? then None
    else
      var t := m.value;
      var sg := ScopeGroup(line[|t|..]);
      if sg.None? then None
      else
        var bc := BangColon(sg.value.1);
        if bc.None? then None
        else Some(Header(t, sg.value.0, bc.value.0, bc.value.1))
  }

  lemma MatchHeaderSound(line: string)
    requires MatchHeader(line).Some?
    ensures var h := MatchHeader(line).value;
            WellFormed(h) && StartsWithType(line, h.commitType) && line[|h.commitType|..] == HeaderTail(h)
  {
    var t := MatchType(line, 0).value;
    var sg := ScopeGroup(line[|t|..]).value;
    var bc := BangColon(sg.1).value;
    ScopeGroupIff(line[|t|..], sg.0, sg.1);
    BangColonIff(sg.1, bc.0, bc.1);
  }

  lemma MatchTypeFinds(line: string, t: string)
    requires t in Types && StartsWithType(line, t)
    ensures MatchType(line, 0) == Some(t)
  {
    var m := MatchType(line, 0);
    if m.Some? {
      TypeUnique(line, m.value, t);
    }
  }

  lemma MatchHeaderComplete(line: string, h: Header)
    requires WellFormed(h) && StartsWithType(line, h.commitType)
    requires line[|h.commitType|..] == HeaderTail(h)
    ensures MatchHeader(line) == Some(h)
  {
    var t := h.commitType;
    MatchTypeFinds(line, t);
    var after := BangTail(h.breaking, h.description);
    var rest0 := line[|t|..];
    ScopeGroupIff(rest0, h.scope, after);
    assert ScopeGroup(rest0) == Some((h.scope, after));
    BangColonIff(after, h.breaking, h.description);
    assert BangColon(after) == Some((h.breaking, h.description));
  }

  /** The pattern accepts a line exactly when the line is a listed type (any
      case) followed by the tail of a well-formed header. */
  lemma MatchHeaderIff(line: string, h: Header)
    ensures MatchHeader(line) == Some(h) <==>
            WellFormed(h) && StartsWithType(line, h.commitType) && line[|h.commitType|..] == HeaderTail(h)
  {
    if MatchHeader(line) == Some(h) {
      MatchHeaderSound(line);
    }
    if WellFormed(h) && StartsWithType(line, h.commitType) && line[|h.commitType|..] == HeaderTail(h) {
      MatchHeaderComplete(line, h);
    }
  }

  /** The first line of the stripped message. */
  function FirstLine(message: string): string {
    Split(Strip(message), '\n')[0]
  }

  function BodyOf(message: string): Option<string> {
    var lines := Split(Strip(message), '\n');
    if |lines| > 1 then Some(Strip(Join("\n", lines[1..]))) else None
  }

  predicate MentionsBreaking(body: Option<string>) {
    body.Some? && body.value != [] &&
    (Contains(body.value, "BREAKING CHANGE:") || Contains(body.value, "BREAKING-CHANGE:"))
  }

  /** `parse_commit_message`: `None` unless the first line of the stripped
      message matches the header pattern. */
  function ParseCommitMessage(message: string, sha: string): (r: Option<ParsedCommit>)
    ensures r.Some? <==> MatchHeader(FirstLine(message)).Some?
    ensures r.Some? ==>
              var h := MatchHeader(FirstLine(message)).value;
              && r.value.commitType == h.commitType && r.value.commitType in Types
              && r.value.scope == h.scope && r.value.description == h.description
              && r.value.sha == sha && r.value.rawMessage == message
              && r.value.body == BodyOf(message)
              && (r.value.breaking <==> h.breaking || MentionsBreaking(BodyOf(message)))
  {
    var lines := Split(Strip(message), '\n');
    match MatchHeader(lines[0])
    case None => None
    case Some(h) =>
      MatchHeaderSound(lines[0]);
      var body := BodyOf(message);
      var breaking := h.breaking || MentionsBreaking(body);
      Some(ParsedCommit(sha, h.commitType, h.scope, h.description, body, breaking, message))
  }

  /** The body is absent for a one-line message and otherwise is the text
      after the first line break of the stripped message, stripped again. */
  lemma BodyShape(message: string)
    ensures var s := Strip(message);
            && (BodyOf(message).None? <==> '\n' !in s)
            && ('\n' in s ==> BodyOf(message) == Some(Strip(s[IndexOf(s, '\n') + 1..])))
            && FirstLine(message) == s[..IndexOf(s, '\n')]
  {
  }

  /** A parsed commit whose body carries a `BREAKING CHANGE:` or
      `BREAKING-CHANGE:` footer is breaking, with or without `!`. */
  lemma BreakingFooter(message: string, sha: string, footer: string)
    requires ParseCommitMessage(message, sha).Some?
    requires footer == "BREAKING CHANGE:" || footer == "BREAKING-CHANGE:"
    requires var s := Strip(message); '\n' in s && Contains(Strip(s[IndexOf(s, '\n') + 1..]), footer)
    ensures ParseCommitMessage(message, sha).value.breaking
    ensures ParseCommitMessage(message, sha).value.body.Some?
  {
    var s := Strip(message);
    BodyShape(message);
    var body := Strip(s[IndexOf(s, '\n') + 1..]);
    assert body != [];
    assert MentionsBreaking(BodyOf(message));
  }

  /** `is_conventional_commit` */
  function IsConventional(message: string): (r: bool)
    ensures r <==> MatchHeader(FirstLine(message)).Some?
  {
    ParseCommitMessage(message, "").Some?
  }

  /** `ParsedCommit.bump_type`: breaking changes are major, features minor,
      fixes, performance work and reverts patch, everything else none. */
  function BumpOf(c: ParsedCommit): (b: BumpType)
    ensures c.breaking ==> b == Major
    ensures !c.breaking ==> (b == Minor <==> Lower(c.commitType) == "feat")
    ensures !c.breaking ==> (b == Patch <==> Lower(c.commitType) in ["fix", "perf", "revert"])
    ensures b != Major <==> !c.breaking
  {
    if c.breaking then Major
    else
      var t := Lower(c.commitType);
      if t == "feat" then Minor
      else if t == "fix" || t == "perf" || t == "revert" then Patch
      else NoBump
  }

  /** `ParsedCommit.formatted_scope` */
  function FormattedScope(c: ParsedCommit): (r: string)
    ensures r == [] <==> c.scope.None? || c.scope.value == []
    ensures r != [] ==> r == "(" + c.scope.value + ")"
  {
    if c.scope.Some? && c.scope.value != [] then "(" + c.scope.value + ")" else ""
  }

  /** The highest bump over a list of commits. */
  function MaxBump(commits: seq<ParsedCommit>): BumpType {
    if commits == [] then NoBump
    else
      var b := MaxBump(commits[..|commits| - 1]);
      var c := BumpOf(commits[|commits| - 1]);
      if c.Rank() > b.Rank() then c else b
  }

  /** `MaxBump` is an upper bound that some commit attains (or `NoBump` for
      no commits). */
  lemma {:induction false} MaxBumpIsMax(commits: seq<ParsedCommit>)
    ensures forall i :: 0 <= i < |commits| ==> BumpOf(commits[i]).Rank() <= MaxBump(commits).Rank()
    ensures commits == [] ==> MaxBump(commits) == NoBump
    ensures commits != [] ==> exists i :: 0 <= i < |commits| && MaxBump(commits) == BumpOf(commits[i])
    decreases |commits|
  {
    if commits != [] {
      var init := commits[..|commits| - 1];
      MaxBumpIsMax(init);
      if init != [] {
        var i :| 0 <= i < |init| && MaxBump(init) == BumpOf(init[i]);
        assert commits[i] == init[i];
      }
      forall i | 0 <= i < |init| ensures BumpOf(commits[i]).Rank() <= MaxBump(commits).Rank() {
        assert commits[i] == init[i];
      }
    }
  }

  /** Once a prefix reaches `Major`, the rest of the list cannot change the
      result. */
  lemma {:induction false} MaxBumpMajorPrefix(commits: seq<ParsedCommit>, k: nat)
    requires k <= |commits| && MaxBump(commits[..k]) == Major
    ensures MaxBump(commits) == Major
    decreases |commits| - k
  {
    if k < |commits| {
      assert commits[..k + 1][..k] == commits[..k];
      MaxBumpMajorPrefix(commits, k + 1);
    } else {
      assert commits[..k] == commits;
    }
  }

  /** `determine_bump`: the loop with its early exit at `Major`. */
  method DetermineBump(commits: seq<ParsedCommit>) returns (bump: BumpType)
    ensures bump == MaxBump(commits)
    ensures commits == [] ==> bump == NoBump
  {
    if commits == [] {
      return NoBump;
    }
    bump := NoBump;
    var i := 0;
    while i < |commits|
      invariant 0 <= i <= |commits|
      invariant bump == MaxBump(commits[..i])
    {
      var b := BumpOf(commits[i]);
      assert commits[..i + 1][..i] == commits[..i];
      if b.Rank() > bump.Rank() {
        bump := b;
      }
      i := i + 1;
      if bump == Major {
        MaxBumpMajorPrefix(commits, i);
        return;
      }
    }
    assert commits[..i] == commits;
  }

  function TypeSet(types: seq<string>): (r: set<string>)
    ensures forall t :: t in types ==> Lower(t) in r
    ensures forall x :: x in r ==> exists t :: t in types && Lower(t) == x
  {
    set t | t in types :: Lower(t)
  }

  function TypeIn(ts: set<string>): ParsedCommit -> bool {
    (c: ParsedCommit) => Lower(c.commitType) in ts
  }

  /** `filter_commits_by_type`: the commits, in order, whose lowered type is
      among the lowered requested types. */
  function FilterByType(commits: seq<ParsedCommit>, types: seq<string>): (r: seq<ParsedCommit>)
    ensures Sublist(r, commits)
    ensures forall c :: c in r <==> c in commits && exists t :: t in types && Lower(t) == Lower(c.commitType)
  {
    var ts := TypeSet(types);
    FilterSublist(commits, TypeIn(ts));
    FilterMembers(commits, TypeIn(ts));
    Filter(commits, TypeIn(ts))
  }

  function TypeIs(k: string): ParsedCommit -> bool {
    (c: ParsedCommit) => Lower(c.commitType) == k
  }

  function KeysOf(commits: seq<ParsedCommit>): set<string> {
    set c | c in commits :: Lower(c.commitType)
  }

  /** `groups` holds one group per lowered type of `commits`, each with that
      type's commits in order. */
  predicate Grouped(commits: seq<ParsedCommit>, groups: map<string, seq<ParsedCommit>>) {
    groups.Keys == KeysOf(commits) && forall k :: k in groups ==> groups[k] == Filter(commits, TypeIs(k))
  }

  /** One pass of the grouping loop: `c` is appended to the group of its type,
      opened empty if there is none. */
  function AddToGroup(groups: map<string, seq<ParsedCommit>>, c: ParsedCommit): map<string, seq<ParsedCommit>> {
    var k := Lower(c.commitType);
    var g := if k in groups then groups else groups[k := []];
    g[k := g[k] + [c]]
  }

  lemma GroupedSnoc(commits: seq<ParsedCommit>, c: ParsedCommit, groups: map<string, seq<ParsedCommit>>)
    requires Grouped(commits, groups)
    ensures Grouped(commits + [c], AddToGroup(groups, c))
  {
    var k := Lower(c.commitType);
    var g' := AddToGroup(groups, c);
    KeysOfSnoc(commits, c);
    assert g'.Keys == groups.Keys + {k};
    forall k' | k' in g' ensures g'[k'] == Filter(commits + [c], TypeIs(k')) {
      FilterSnoc(commits, c, TypeIs(k'));
      if k' == k && k !in groups {
        NoGroupNoCommit(commits, k);
      }
    }
  }

  lemma KeysOfSnoc(commits: seq<ParsedCommit>, c: ParsedCommit)
    ensures KeysOf(commits + [c]) == KeysOf(commits) + {Lower(c.commitType)}
  {
    var s := commits + [c];
    forall x | x in KeysOf(s) ensures x in KeysOf(commits) + {Lower(c.commitType)} {
      var d :| d in s && Lower(d.commitType) == x;
      if d != c {
        assert d in commits;
      }
    }
    forall x | x in KeysOf(commits) ensures x in KeysOf(s) {
      var d :| d in commits && Lower(d.commitType) == x;
      assert d in s;
    }
    assert c in s;
  }

  /** A type with no commit has an empty group. */
  lemma NoGroupNoCommit(commits: seq<ParsedCommit>, k: string)
    requires k !in KeysOf(commits)
    ensures Filter(commits, TypeIs(k)) == []
  {
    forall j | 0 <= j < |commits| ensures !TypeIs(k)(commits[j]) {
      assert commits[j] in commits;
    }
    FilterNone(commits, TypeIs(k));
  }

  /** `group_commits_by_type`: one group per lowered type, each holding that
      type's commits in their original order. */
  method GroupByType(commits: seq<ParsedCommit>) returns (groups: map<string, seq<ParsedCommit>>)
    ensures groups.Keys == KeysOf(commits)
    ensures forall k :: k in groups ==> groups[k] == Filter(commits, TypeIs(k))
  {
    groups := map[];
    var i := 0;
    while i < |commits|
      invariant 0 <= i <= |commits|
      invariant Grouped(commits[..i], groups)
    {
      GroupedSnoc(commits[..i], commits[i], groups);
      assert commits[..i + 1] == commits[..i] + [commits[i]];
      groups := AddCommit(groups, commits[i]);
      i := i + 1;
    }
    assert commits[..i] == commits;
  }

  /** The body of the grouping loop. */
  method AddCommit(groups: map<string, seq<ParsedCommit>>, c: ParsedCommit) returns (g: map<string, seq<ParsedCommit>>)
    ensures g == AddToGroup(groups, c)
    ensures g.Keys == groups.Keys + {Lower(c.commitType)}
  {
    var k := Lower(c.commitType);
    g := groups;
    if k !in g {
      g := g[k := []];
    }
    g := g[k := g[k] + [c]];
  }

  /** Every commit lies in exactly the group of its lowered type, and no
      group is empty. */
  lemma GroupsPartition(commits: seq<ParsedCommit>, groups: map<string, seq<ParsedCommit>>)
    requires groups.Keys == KeysOf(commits)
    requires forall k :: k in groups ==> groups[k] == Filter(commits, TypeIs(k))
    ensures forall k, c :: k in groups && c in groups[k] <==> c in commits && k == Lower(c.commitType)
    ensures forall k :: k in groups ==> groups[k] != []
  {
    forall k | k in groups {
      FilterMembers(commits, TypeIs(k));
    }
    forall k | k in groups ensures groups[k] != [] {
      var c :| c in commits && Lower(c.commitType) == k;
      assert c in groups[k];
    }
  }
}
