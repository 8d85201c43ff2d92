/** The `version` command (`pymelos.commands.version`): plan a version bump
    for every package in scope, then write versions and changelogs, commit
    and tag. */
module VersionCommand {
  import opened Wrappers
  import opened Strings
  import opened Seqs
  import opened Workspaces
  import opened Scope
  import opened Conventional
  import opened Versioning

  datatype VersionOptions = VersionOptions(
    scope: Option<string>,
    bump: Option<BumpType>,
    prerelease: Option<string>,
    dryRun: bool,
    noGitTag: bool,
    noChangelog: bool,
    noCommit: bool,
    yes: bool)

  /** One planned bump: the dictionary `execute` appends to `planned`. */
  datatype PlannedBump = PlannedBump(
    name: string,
    oldVersion: string,
    newVersion: string,
    bump: string,
    pkg: Package,
    changelog: string)

  datatype VersionResult = VersionResult(
    releases: seq<PlannedBump>,
    commitSha: Option<string>,
    success: bool,
    error: Option<string>)

  /** The changelog of a bump without any conventional commit. */
  function ManualBumpEntry(version: string): string {
    "## " + version + "\n\n- Manual bump\n"
  }

  /** One iteration of the planning loop: a package is skipped when it has
      no commits and no override, or when its bump is none; a version that
      does not parse is an error carrying that version. */
  function PlanBump(tools: Tools, opts: VersionOptions, pkg: Package): (r: Result<Option<PlannedBump>, string>)
    ensures r == Ok(None) <==>
              (CommitsOf(tools, pkg.name, pkg.path) == [] && opts.bump.None?) ||
              EffectiveBump(opts.bump, ParseAll(CommitsOf(tools, pkg.name, pkg.path))) == NoBump
    ensures r.Err? ==> r.error == pkg.version && tools.parseVersion(pkg.version).None?
    ensures r.Ok? && r.value.Some? ==>
              var parsed := ParseAll(CommitsOf(tools, pkg.name, pkg.path));
              var bump := EffectiveBump(opts.bump, parsed);
              var p := r.value.value;
              && p.name == pkg.name && p.pkg == pkg && bump != NoBump
              && p.bump == BumpValue(bump)
              && Some(p.oldVersion) == tools.parseVersion(pkg.version)
              && p.newVersion == tools.bumpVersion(p.oldVersion, bump, opts.prerelease)
              && (parsed == [] ==> p.changelog == ManualBumpEntry(p.newVersion))
              && (parsed != [] ==> p.changelog == tools.changelogEntry(p.newVersion, parsed, pkg.name))
  {
    var commits := CommitsOf(tools, pkg.name, pkg.path);
    if commits == [] && opts.bump.None? then Ok(None)
    else
      var parsed := ParseAll(commits);
      var bump := EffectiveBump(opts.bump, parsed);
      if bump == NoBump then Ok(None)
      else
        match tools.parseVersion(pkg.version)
        case None => Err(pkg.version)
        case Some(oldVersion) =>
          var next := tools.bumpVersion(oldVersion, bump, opts.prerelease);
          var entry := if parsed != [] then tools.changelogEntry(next, parsed, pkg.name) else ManualBumpEntry(next);
          Ok(Some(PlannedBump(pkg.name, oldVersion, next, BumpValue(bump), pkg, entry)))
  }

  /** An override plans a bump even for a package without commits, with the
      manual changelog entry. */
  lemma OverridePlansWithoutCommits(tools: Tools, opts: VersionOptions, pkg: Package)
    requires opts.bump.Some? && opts.bump.value != NoBump
    requires CommitsOf(tools, pkg.name, pkg.path) == []
    requires tools.parseVersion(pkg.version).Some?
    ensures PlanBump(tools, opts, pkg).Ok? && PlanBump(tools, opts, pkg).value.Some?
    ensures var p := PlanBump(tools, opts, pkg).value.value;
            p.bump == BumpValue(opts.bump.value) && p.changelog == ManualBumpEntry(p.newVersion)
  {
    assert ParseAll(CommitsOf(tools, pkg.name, pkg.path)) == [];
  }

  /** Without an override, a package whose commits are all unconventional
      is skipped. */
  lemma UnconventionalSkipped(tools: Tools, opts: VersionOptions, pkg: Package)
    requires opts.bump.None?
    requires var commits := CommitsOf(tools, pkg.name, pkg.path);
             forall i :: 0 <= i < |commits| ==> ParseOf(commits[i]).None?
    ensures PlanBump(tools, opts, pkg) == Ok(None)
  {
    ParseAllNone(CommitsOf(tools, pkg.name, pkg.path));
  }

  /** The bumps planned for `pkgs`, in order; the first error stops planning. */
  function PlanAll(tools: Tools, opts: VersionOptions, pkgs: seq<Package>): (r: Result<seq<PlannedBump>, string>)
    ensures r.Ok? ==> |r.value| <= |pkgs|
  {
    if pkgs == [] then Ok([])
    else
      match PlanAll(tools, opts, pkgs[..|pkgs| - 1])
      case Err(e) => Err(e)
      case Ok(ps) =>
        match PlanBump(tools, opts, pkgs[|pkgs| - 1])
        case Err(e) => Err(e)
        case Ok(None) => Ok(ps)
        case Ok(Some(p)) => Ok(ps + [p])
  }

  lemma {:induction false} PlanAllErrStays(tools: Tools, opts: VersionOptions, pkgs: seq<Package>, n: nat)
    requires n <= |pkgs| && PlanAll(tools, opts, pkgs[..n]).Err?
    ensures PlanAll(tools, opts, pkgs) == PlanAll(tools, opts, pkgs[..n])
    decreases |pkgs| - n
  {
    if n < |pkgs| {
      assert pkgs[..n + 1][..n] == pkgs[..n];
      PlanAllErrStays(tools, opts, pkgs, n + 1);
    } else {
      assert pkgs[..n] == pkgs;
    }
  }

  /** The planning loop of `execute`. */
  method PlanBumps(tools: Tools, opts: VersionOptions, pkgs: seq<Package>) returns (r: Result<seq<PlannedBump>, string>)
    ensures r == PlanAll(tools, opts, pkgs)
  {
    var planned: seq<PlannedBump> := [];
    var i := 0;
    while i < |pkgs|
      invariant 0 <= i <= |pkgs|
      invariant PlanAll(tools, opts, pkgs[..i]) == Ok(planned)
    {
      assert pkgs[..i + 1][..i] == pkgs[..i];
      var p := PlanBump(tools, opts, pkgs[i]);
      if p.Err? {
        PlanAllErrStays(tools, opts, pkgs, i + 1);
        return Err(p.error);
      }
      if p.value.Some? {
        planned := planned + [p.value.value];
      }
      i := i + 1;
    }
    assert pkgs[..i] == pkgs;
    r := Ok(planned);
  }

  /** The file changes of one planned bump. */
  function WriteOne(p: PlannedBump, noChangelog: bool): seq<Effect> {
    [WriteVersions(p.name, p.newVersion)] + (if noChangelog then [] else [PrependChangelog(p.name, p.changelog)])
  }

  function WriteAll(planned: seq<PlannedBump>, noChangelog: bool): seq<Effect> {
    if planned == [] then []
    else WriteAll(planned[..|planned| - 1], noChangelog) + WriteOne(planned[|planned| - 1], noChangelog)
  }

  /** File changes never create tags. */
  lemma {:induction false} WriteAllNoTags(planned: seq<PlannedBump>, noChangelog: bool)
    ensures forall e :: e in WriteAll(planned, noChangelog) ==> !e.CreateTag? && !e.GitCommit?
    decreases |planned|
  {
    if planned != [] {
      WriteAllNoTags(planned[..|planned| - 1], noChangelog);
    }
  }

  /** The tag of a planned bump. */
  function TagOf(tools: Tools, p: PlannedBump): string {
    tools.tagFormat(p.name, p.newVersion)
  }

  function TagAll(tools: Tools, planned: seq<PlannedBump>): (r: seq<Effect>)
    ensures |r| == |planned|
    ensures forall i :: 0 <= i < |r| ==> r[i] == CreateTag(TagOf(tools, planned[i]), "Release " + TagOf(tools, planned[i]))
  {
    Map(planned, (p: PlannedBump) => CreateTag(TagOf(tools, p), "Release " + TagOf(tools, p)))
  }

  /** The commit of the bumps, listing `name@version` of each. */
  function CommitAll(tools: Tools, planned: seq<PlannedBump>): seq<Effect> {
    [GitAddAll, GitCommit(tools.commitMessage(Join(", ", Map(planned, (p: PlannedBump) => p.name + "@" + p.newVersion))))]
  }

  /** Git changes: a commit unless disabled and, inside it, tags unless
      disabled; without a commit there are no tags at all. */
  function GitAll(tools: Tools, opts: VersionOptions, planned: seq<PlannedBump>): seq<Effect> {
    if opts.noCommit then []
    else CommitAll(tools, planned) + (if opts.noGitTag then [] else TagAll(tools, planned))
  }

  /** `VersionCommand.execute`. An empty plan is an empty success; a dry run
      returns the plan and changes nothing; otherwise files are written,
      then the commit and the tags are made as the options allow, and the
      commit id is reported only when a commit was made. */
  method VersionExecute(ws: Workspace, tools: Tools, opts: VersionOptions)
    returns (r: Result<VersionResult, string>, effects: seq<Effect>)
    ensures var plan := PlanAll(tools, opts, FilterByScope(ws.packages, opts.scope));
            && (r.Err? <==> plan.Err?)
            && (r.Err? ==> r.error == plan.error && effects == [])
            && (r.Ok? ==> r.value.releases == plan.value && r.value.success && r.value.error.None?)
            && (r.Ok? && (plan.value == [] || opts.dryRun) ==> r.value.commitSha.None? && effects == [])
            && (r.Ok? && plan.value != [] && !opts.dryRun ==>
                  && r.value.commitSha == (if opts.noCommit then None else Some(Strip(tools.headOutput)))
                  && effects == WriteAll(plan.value, opts.noChangelog) + GitAll(tools, opts, plan.value))
    ensures opts.noCommit ==> forall e :: e in effects ==> !e.CreateTag? && !e.GitCommit?
  {
    var pkgs := FilterByScope(ws.packages, opts.scope);
    var plan := PlanBumps(tools, opts, pkgs);
    if plan.Err? {
      return Err(plan.error), [];
    }
    var planned := plan.value;
    if planned == [] {
      return Ok(VersionResult([], None, true, None)), [];
    }
    if opts.dryRun {
      return Ok(VersionResult(planned, None, true, None)), [];
    }
    var sha;
    sha, effects := ApplyBumps(tools, opts, planned);
    if opts.noCommit {
      NoCommitNoGit(tools, opts, planned);
    }
    r := Ok(VersionResult(planned, sha, true, None));
  }

  /** The part of `execute` after a non-empty plan outside a dry run. */
  method ApplyBumps(tools: Tools, opts: VersionOptions, planned: seq<PlannedBump>)
    returns (sha: Option<string>, effects: seq<Effect>)
    ensures sha == (if opts.noCommit then None else Some(Strip(tools.headOutput)))
    ensures effects == WriteAll(planned, opts.noChangelog) + GitAll(tools, opts, planned)
  {
    var written := WriteFiles(planned, opts.noChangelog);
    var git: seq<Effect> := [];
    sha := None;
    if !opts.noCommit {
      git := CommitAll(tools, planned);
      sha := Some(Strip(tools.headOutput));
      if !opts.noGitTag {
        var tags := CreateTags(tools, planned);
        git := git + tags;
      }
    }
    effects := written + git;
  }

  /** With `no_commit`, applying a plan neither commits nor tags. */
  lemma NoCommitNoGit(tools: Tools, opts: VersionOptions, planned: seq<PlannedBump>)
    requires opts.noCommit
    ensures forall e :: e in WriteAll(planned, opts.noChangelog) + GitAll(tools, opts, planned) ==> !e.CreateTag? && !e.GitCommit?
  {
    WriteAllNoTags(planned, opts.noChangelog);
    assert WriteAll(planned, opts.noChangelog) + GitAll(tools, opts, planned) == WriteAll(planned, opts.noChangelog);
  }

  /** The loop writing versions and changelogs. */
  method WriteFiles(planned: seq<PlannedBump>, noChangelog: bool) returns (effects: seq<Effect>)
    ensures effects == WriteAll(planned, noChangelog)
  {
    effects := [];
    var i := 0;
    while i < |planned|
      invariant 0 <= i <= |planned|
      invariant effects == WriteAll(planned[..i], noChangelog)
    {
      assert planned[..i + 1][..i] == planned[..i];
      effects := effects + WriteOne(planned[i], noChangelog);
      i := i + 1;
    }
    assert planned[..i] == planned;
  }

  /** The tag loop. */
  method CreateTags(tools: Tools, planned: seq<PlannedBump>) returns (effects: seq<Effect>)
    ensures effects == TagAll(tools, planned)
  {
    effects := [];
    var i := 0;
    while i < |planned|
      invariant 0 <= i <= |planned|
      invariant effects == TagAll(tools, planned[..i])
    {
      var tag := TagOf(tools, planned[i]);
      effects := effects + [CreateTag(tag, "Release " + tag)];
      i := i + 1;
    }
    assert planned[..i] == planned;
  }
}
