/** The `release` command (`pymelos.commands.release`): plan a release for
    every package in scope from its commits since its latest tag, then write
    versions and changelogs, commit, tag and publish. */
module Release {
  import opened Wrappers
  import opened Strings
  import opened Seqs
  import opened Workspaces
  import opened Scope
  import opened Conventional
  import opened Versioning

  datatype PackageRelease = PackageRelease(
    name: string,
    oldVersion: string,
    newVersion: string,
    bump: BumpType,
    changelogEntry: string,
    commits: seq<string>,
    tag: string,
    published: bool)

  datatype ReleaseResult = ReleaseResult(
    releases: seq<PackageRelease>,
    commitSha: Option<string>,
    success: bool,
    error: Option<string>)

  datatype ReleaseOptions = ReleaseOptions(
    scope: Option<string>,
    since: Option<string>,
    bump: Option<BumpType>,
    prerelease: Option<string>,
    dryRun: bool,
    publish: bool,
    noGitTag: bool,
    noChangelog: bool,
    noCommit: bool,
    verbose: bool)

  /** `is_dry_run`: either the options or the context ask for a dry run. */
  predicate IsDryRun(opts: ReleaseOptions, contextDryRun: bool) {
    opts.dryRun || contextDryRun
  }

  /** The changelog of a release without any conventional commit. */
  function ManualEntry(version: string, bump: BumpType): string {
    "## " + version + "\n\n- Manual release bump (" + BumpValue(bump) + ")\n"
  }

  /** `_prepare_package_release`: nothing to release without commits or
      when the bump is none; a version that does not parse is an error
      carrying that version. */
  function PrepareRelease(tools: Tools, opts: ReleaseOptions, pkg: Package): (r: Result<Option<PackageRelease>, string>)
    ensures CommitsOf(tools, pkg.name, pkg.path) == [] ==> r == Ok(None)
    ensures r == Ok(None) <==>
              CommitsOf(tools, pkg.name, pkg.path) == [] ||
              EffectiveBump(opts.bump, ParseAll(CommitsOf(tools, pkg.name, pkg.path))) == NoBump
    ensures r.Err? ==> r.error == pkg.version && tools.parseVersion(pkg.version).None?
    ensures r.Ok? && r.value.Some? ==>
              var commits := CommitsOf(tools, pkg.name, pkg.path);
              var parsed := ParseAll(commits);
              var rel := r.value.value;
              && rel.name == pkg.name
              && rel.bump == EffectiveBump(opts.bump, parsed) && rel.bump != NoBump
              && Some(rel.oldVersion) == tools.parseVersion(pkg.version)
              && rel.newVersion == tools.bumpVersion(rel.oldVersion, rel.bump, opts.prerelease)
              && rel.commits == ShortShas(commits)
              && rel.tag == tools.tagFormat(pkg.name, rel.newVersion)
              && (parsed == [] ==> rel.changelogEntry == ManualEntry(rel.newVersion, rel.bump))
              && (parsed != [] ==> rel.changelogEntry == tools.changelogEntry(rel.newVersion, parsed, pkg.name))
              && !rel.published
  {
    var commits := CommitsOf(tools, pkg.name, pkg.path);
    if commits == [] then Ok(None)
    else
      var parsed := ParseAll(commits);
      var bump := EffectiveBump(opts.bump, parsed);
      if bump == NoBump then Ok(None)
      else
        match tools.parseVersion(pkg.version)
        case None => Err(pkg.version)
        case Some(oldVersion) =>
          var next := tools.bumpVersion(oldVersion, bump, opts.prerelease);
          var entry := if parsed != [] then tools.changelogEntry(next, parsed, pkg.name) else ManualEntry(next, bump);
          Ok(Some(PackageRelease(pkg.name, oldVersion, next, bump, entry, ShortShas(commits), tools.tagFormat(pkg.name, next), false)))
  }

  /** Without an override and without a conventional commit there is
      nothing to release. */
  lemma NoConventionalNoRelease(tools: Tools, opts: ReleaseOptions, pkg: Package)
    requires opts.bump.None?
    requires var commits := CommitsOf(tools, pkg.name, pkg.path);
             forall i :: 0 <= i < |commits| ==> ParseOf(commits[i]).None?
    ensures PrepareRelease(tools, opts, pkg) == Ok(None)
  {
    ParseAllNone(CommitsOf(tools, pkg.name, pkg.path));
  }

  /** A breaking conventional commit makes the release major, unless an
      override says otherwise. */
  lemma BreakingIsMajor(tools: Tools, opts: ReleaseOptions, pkg: Package, i: nat)
    requires opts.bump.None?
    requires var commits := CommitsOf(tools, pkg.name, pkg.path);
             i < |commits| && ParseOf(commits[i]).Some? && ParseOf(commits[i]).value.breaking
    requires tools.parseVersion(pkg.version).Some?
    ensures PrepareRelease(tools, opts, pkg).Ok?
    ensures PrepareRelease(tools, opts, pkg).value.Some?
    ensures PrepareRelease(tools, opts, pkg).value.value.bump == Major
  {
    BreakingBumpsMajor(CommitsOf(tools, pkg.name, pkg.path), i);
  }

  /** Without an override, one breaking commit puts the bump at major. */
  lemma BreakingBumpsMajor(commits: seq<Commit>, i: nat)
    requires i < |commits| && ParseOf(commits[i]).Some? && ParseOf(commits[i]).value.breaking
    ensures ParseAll(commits) != [] && EffectiveBump(None, ParseAll(commits)) == Major
  {
    var parsed := ParseAll(commits);
    var p := ParseOf(commits[i]).value;
    assert p in parsed;
    var j :| 0 <= j < |parsed| && parsed[j] == p;
    BreakingIsMax(parsed, j);
  }

  lemma BreakingIsMax(parsed: seq<ParsedCommit>, j: int)
    requires 0 <= j < |parsed| && parsed[j].breaking
    ensures EffectiveBump(None, parsed) == Major
  {
    assert BumpOf(parsed[j]).Rank() == 3;
  }

  /** An override plans a release at that level for any package with at
      least one commit, conventional or not. */
  lemma OverrideDecides(tools: Tools, opts: ReleaseOptions, pkg: Package)
    requires opts.bump.Some? && opts.bump.value != NoBump
    requires CommitsOf(tools, pkg.name, pkg.path) != []
    requires tools.parseVersion(pkg.version).Some?
    ensures PrepareRelease(tools, opts, pkg).Ok?
    ensures PrepareRelease(tools, opts, pkg).value.Some?
    ensures PrepareRelease(tools, opts, pkg).value.value.bump == opts.bump.value
  {
  }

  /** The releases planned for `pkgs`, in order; the first error stops
      planning. */
  function Plan(tools: Tools, opts: ReleaseOptions, pkgs: seq<Package>): (r: Result<seq<PackageRelease>, string>)
    ensures r.Ok? ==> |r.value| <= |pkgs|
    ensures r.Ok? ==> forall i :: 0 <= i < |r.value| ==> r.value[i].bump != NoBump && !r.value[i].published
  {
    if pkgs == [] then Ok([])
    else
      match Plan(tools, opts, pkgs[..|pkgs| - 1])
      case Err(e) => Err(e)
      case Ok(rs) =>
        match PrepareRelease(tools, opts, pkgs[|pkgs| - 1])
        case Err(e) => Err(e)
        case Ok(None) => Ok(rs)
        case Ok(Some(rel)) => Ok(rs + [rel])
  }

  /** Version and changelog writes of one release. */
  function ApplyOne(rel: PackageRelease, noChangelog: bool): seq<Effect> {
    [WriteVersions(rel.name, rel.newVersion)] + (if noChangelog then [] else [PrependChangelog(rel.name, rel.changelogEntry)])
  }

  /** `_apply_release_changes` for every release, in order. */
  function ApplyAll(releases: seq<PackageRelease>, noChangelog: bool): seq<Effect> {
    if releases == [] then []
    else ApplyAll(releases[..|releases| - 1], noChangelog) + ApplyOne(releases[|releases| - 1], noChangelog)
  }

  /** `name@version` */
  function Summary(rel: PackageRelease): string {
    rel.name + "@" + rel.newVersion
  }

  /** The commit `_create_git_commit` makes. */
  function CommitEffects(tools: Tools, releases: seq<PackageRelease>): seq<Effect> {
    [GitAddAll, GitCommit(tools.commitMessage(Join(", ", Map(releases, Summary))))]
  }

  /** The tags `_create_git_tags` creates, one per release, in order. */
  function TagEffects(releases: seq<PackageRelease>): (r: seq<Effect>)
    ensures |r| == |releases|
    ensures forall i :: 0 <= i < |r| ==> r[i] == CreateTag(releases[i].tag, "Release " + Summary(releases[i]))
  {
    Map(releases, (rel: PackageRelease) => CreateTag(rel.tag, "Release " + Summary(rel)))
  }

  /** The index of the first release whose publication fails, or the count. */
  function FirstFailure(releases: seq<PackageRelease>, outcome: string -> Option<string>): (k: nat)
    ensures k <= |releases|
    ensures forall i :: 0 <= i < k ==> outcome(releases[i].name).None?
    ensures k < |releases| ==> outcome(releases[k].name).Some?
  {
    if releases == [] then 0
    else if outcome(releases[0].name).Some? then 0
    else 1 + FirstFailure(releases[1..], outcome)
  }

  /** The releases with the first `k` marked published. */
  function MarkPublished(releases: seq<PackageRelease>, k: nat): (r: seq<PackageRelease>)
    ensures |r| == |releases|
    ensures forall i :: 0 <= i < |r| ==> r[i] == if i < k then releases[i].(published := true) else releases[i]
  {
    seq(|releases|, i requires 0 <= i < |releases| => if i < k then releases[i].(published := true) else releases[i])
  }

  /** One publication attempt per release, up to and including a failure. */
  function Attempts(releases: seq<PackageRelease>, k: nat): (r: seq<Effect>)
    requires k <= |releases|
    ensures |r| == if k < |releases| then k + 1 else k
  {
    var n := if k < |releases| then k + 1 else k;
    Map(releases[..n], (rel: PackageRelease) => Publish(rel.name))
  }

  /** `_publish_releases`: nothing when publishing is off; otherwise each
      release in order is published and marked, and the first failure stops
      the loop with its message, leaving it and every later release
      unpublished. `outcome` gives, per package, the message of the
      exception `build_and_publish` raises, if any. */
  method PublishReleases(releases: seq<PackageRelease>, publish: bool, outcome: string -> Option<string>)
    returns (out: seq<PackageRelease>, error: Option<string>, effects: seq<Effect>)
    ensures !publish ==> out == releases && error.None? && effects == []
    ensures publish ==>
              var k := FirstFailure(releases, outcome);
              && out == MarkPublished(releases, k)
              && (error.Some? <==> k < |releases|)
              && (k < |releases| ==> error == outcome(releases[k].name))
              && effects == Attempts(releases, k)
  {
    out := releases;
    error := None;
    effects := [];
    if !publish {
      return;
    }
    ghost var k := FirstFailure(releases, outcome);
    var i := 0;
    while i < |releases|
      invariant 0 <= i <= k
      invariant out == MarkPublished(releases, i)
      invariant effects == Map(releases[..i], (rel: PackageRelease) => Publish(rel.name))
    {
      effects := effects + [Publish(releases[i].name)];
      assert releases[..i + 1] == releases[..i] + [releases[i]];
      var failure := outcome(releases[i].name);
      if failure.Some? {
        assert i == k;
        return out, failure, effects;
      }
      out := out[i := releases[i].(published := true)];
      i := i + 1;
    }
  }

  /** Publishing never marks a release at or after the first failure. */
  lemma PublishStopsAtFailure(releases: seq<PackageRelease>, outcome: string -> Option<string>, j: nat)
    requires forall i :: 0 <= i < |releases| ==> !releases[i].published
    requires FirstFailure(releases, outcome) <= j < |releases|
    ensures !MarkPublished(releases, FirstFailure(releases, outcome))[j].published
  {
  }

  /** `ReleaseCommand.execute`. With nothing in scope or nothing to release
      the result is an empty success; a dry run returns the plan and
      changes nothing; otherwise versions and changelogs are written, the
      commit is made unless disabled, tags are created unless disabled
      (whether or not a commit was made), and publication runs last, a
      failure with a non-empty message making the result unsuccessful with
      that message (an empty one is taken for success). A version
      that does not parse aborts before any change. */
  method ReleaseExecute(ws: Workspace, tools: Tools, opts: ReleaseOptions, contextDryRun: bool,
                        outcome: string -> Option<string>)
    returns (r: Result<ReleaseResult, string>, effects: seq<Effect>)
    ensures var plan := Plan(tools, opts, FilterByScope(ws.packages, opts.scope));
            && (r.Err? <==> plan.Err?)
            && (r.Err? ==> r.error == plan.error && effects == [])
            && (r.Ok? && plan.value == [] ==> r.value == ReleaseResult([], None, true, None) && effects == [])
            && (r.Ok? && IsDryRun(opts, contextDryRun) ==>
                  r.value == ReleaseResult(plan.value, None, true, None) && effects == [])
    ensures var plan := Plan(tools, opts, FilterByScope(ws.packages, opts.scope));
            r.Ok? && plan.value != [] && !IsDryRun(opts, contextDryRun) ==>
              var rels := plan.value;
              var k := FirstFailure(rels, outcome);
              var failed := opts.publish && k < |rels| && outcome(rels[k].name).value != [];
              && r.value.releases == (if opts.publish then MarkPublished(rels, k) else rels)
              && r.value.commitSha == (if opts.noCommit then None else Some(Strip(tools.headOutput)))
              && r.value.success == !failed
              && r.value.error == (if failed then outcome(rels[k].name) else None)
              && effects == ApplyAll(rels, opts.noChangelog)
                            + (if opts.noCommit then [] else CommitEffects(tools, rels))
                            + (if opts.noGitTag then [] else TagEffects(rels))
                            + (if opts.publish then Attempts(rels, k) else [])
  {
    var pkgs := FilterByScope(ws.packages, opts.scope);
    if pkgs == [] {
      return Ok(ReleaseResult([], None, true, None)), [];
    }
    var plan := PlanReleases(tools, opts, pkgs);
    if plan.Err? {
      return Err(plan.error), [];
    }
    var releases := plan.value;
    if releases == [] {
      return Ok(ReleaseResult([], None, true, None)), [];
    }
    if IsDryRun(opts, contextDryRun) {
      return Ok(ReleaseResult(releases, None, true, None)), [];
    }
    var result;
    result, effects := ApplyReleases(tools, opts, releases, outcome);
    r := Ok(result);
  }

  /** The planning loop of `execute`. */
  method PlanReleases(tools: Tools, opts: ReleaseOptions, pkgs: seq<Package>)
    returns (r: Result<seq<PackageRelease>, string>)
    ensures r == Plan(tools, opts, pkgs)
  {
    var releases: seq<PackageRelease> := [];
    var i := 0;
    while i < |pkgs|
      invariant 0 <= i <= |pkgs|
      invariant Plan(tools, opts, pkgs[..i]) == Ok(releases)
    {
      assert pkgs[..i + 1][..i] == pkgs[..i];
      var rel := PrepareRelease(tools, opts, pkgs[i]);
      if rel.Err? {
        PlanErrStays(tools, opts, pkgs, i + 1);
        return Err(rel.error);
      }
      if rel.value.Some? {
        releases := releases + [rel.value.value];
      }
      i := i + 1;
    }
    assert pkgs[..i] == pkgs;
    r := Ok(releases);
  }

  /** The part of `execute` after a non-empty plan outside a dry run. */
  method ApplyReleases(tools: Tools, opts: ReleaseOptions, rels: seq<PackageRelease>, outcome: string -> Option<string>)
    returns (result: ReleaseResult, effects: seq<Effect>)
    ensures var k := FirstFailure(rels, outcome);
            var failed := opts.publish && k < |rels| && outcome(rels[k].name).value != [];
            && result.releases == (if opts.publish then MarkPublished(rels, k) else rels)
            && result.commitSha == (if opts.noCommit then None else Some(Strip(tools.headOutput)))
            && result.success == !failed
            && result.error == (if failed then outcome(rels[k].name) else None)
            && effects == ApplyAll(rels, opts.noChangelog)
                          + (if opts.noCommit then [] else CommitEffects(tools, rels))
                          + (if opts.noGitTag then [] else TagEffects(rels))
                          + (if opts.publish then Attempts(rels, k) else [])
  {
    var applied := ApplyChanges(rels, opts.noChangelog);
    var committed: seq<Effect> := [];
    var sha: Option<string> := None;
    if !opts.noCommit {
      committed := CommitEffects(tools, rels);
      sha := Some(Strip(tools.headOutput));
    }
    var tagged: seq<Effect> := [];
    if !opts.noGitTag {
      tagged := CreateTags(rels);
    }
    var published, error, attempts := PublishReleases(rels, opts.publish, outcome);
    effects := applied + committed + tagged + attempts;
    // `if error := ...` tests the message's truth: an empty message is no error.
    if error.Some? && error.value != [] {
      result := ReleaseResult(published, sha, false, error);
    } else {
      result := ReleaseResult(published, sha, true, None);
    }
  }

  /** Once planning fails on a prefix it fails on the whole list. */
  lemma {:induction false} PlanErrStays(tools: Tools, opts: ReleaseOptions, pkgs: seq<Package>, n: nat)
    requires n <= |pkgs| && Plan(tools, opts, pkgs[..n]).Err?
    ensures Plan(tools, opts, pkgs) == Plan(tools, opts, pkgs[..n])
    decreases |pkgs| - n
  {
    if n < |pkgs| {
      assert pkgs[..n + 1][..n] == pkgs[..n];
      PlanErrStays(tools, opts, pkgs, n + 1);
    } else {
      assert pkgs[..n] == pkgs;
    }
  }

  /** The loop over releases applying their file changes. */
  method ApplyChanges(releases: seq<PackageRelease>, noChangelog: bool) returns (effects: seq<Effect>)
    ensures effects == ApplyAll(releases, noChangelog)
  {
    effects := [];
    var i := 0;
    while i < |releases|
      invariant 0 <= i <= |releases|
      invariant effects == ApplyAll(releases[..i], noChangelog)
    {
      assert releases[..i + 1][..i] == releases[..i];
      effects := effects + ApplyOne(releases[i], noChangelog);
      i := i + 1;
    }
    assert releases[..i] == releases;
  }

  /** The loop of `_create_git_tags`. */
  method CreateTags(releases: seq<PackageRelease>) returns (effects: seq<Effect>)
    ensures effects == TagEffects(releases)
  {
    effects := [];
    var i := 0;
    while i < |releases|
      invariant 0 <= i <= |releases|
      invariant effects == TagEffects(releases[..i])
    {
      effects := effects + [CreateTag(releases[i].tag, "Release " + Summary(releases[i]))];
      i := i + 1;
    }
    assert releases[..i] == releases;
  }

  /** The `--bump` argument of the release command line: absent or empty
      means no override, a level name in any case selects that level, and
      anything else is rejected (exit code 1) before any planning. */
  function ReleaseBumpArg(bump: Option<string>): (r: Result<Option<BumpType>, string>)
    ensures (bump.None? || bump.value == []) ==> r == Ok(None)
    ensures r.Err? <==> bump.Some? && bump.value != [] && BumpByName(bump.value).None?
    ensures r.Err? ==> r.error == "Invalid bump type: " + bump.value
    ensures r.Ok? && r.value.Some? ==> BumpName(r.value.value) == Upper(bump.value)
  {
    if bump.None? || bump.value == [] then Ok(None)
    else
      match BumpByName(bump.value)
      case None => Err("Invalid bump type: " + bump.value)
      case Some(b) => Ok(Some(b))
  }
}
