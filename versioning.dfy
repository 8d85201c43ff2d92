/** What `release` and `version` share: the git history and version
    arithmetic they consult, whose implementations are not part of this
    model and are therefore given as functions, the effects they have on
    files and on git, and the bump decision itself. */
module Versioning {
  import opened Wrappers
  import opened Strings
  import opened Seqs
  import opened Paths
  import opened Conventional

  /** A commit as `get_commits` returns it. */
  datatype Commit = Commit(sha: string, message: string)

  /** The collaborators both commands consult. */
  datatype Tools = Tools(
    /** `get_latest_package_tag(root, name)`'s tag name, if any. */
    latestTag: string -> Option<string>,
    /** `get_commits(root, since=ref, path=path)`. */
    commitsSince: (Option<string>, Path) -> seq<Commit>,
    /** `str(Version.parse(v))`, or `None` where parsing raises. */
    parseVersion: string -> Option<string>,
    /** `str(Version.parse(old).bump(bump, prerelease))`. */
    bumpVersion: (string, BumpType, Option<string>) -> string,
    /** `generate_changelog_entry(version, parsed, package_name=name)`. */
    changelogEntry: (string, seq<ParsedCommit>, string) -> string,
    /** `versioning.tag_format.format(name=…, version=…)`. */
    tagFormat: (string, string) -> string,
    /** `versioning.commit_message.format(packages=…)`. */
    commitMessage: string -> string,
    /** The output of `git rev-parse HEAD` after committing. */
    headOutput: string)

  /** The changes a command makes to the files and to git, in order. */
  datatype Effect =
    | WriteVersions(package: string, version: string)
    | PrependChangelog(package: string, entry: string)
    | GitAddAll
    | GitCommit(message: string)
    | CreateTag(tag: string, message: string)
    | Publish(package: string)

  /** The commits of a package since its latest tag. */
  function CommitsOf(tools: Tools, name: string, path: Path): seq<Commit> {
    tools.commitsSince(tools.latestTag(name), path)
  }

  /** `parse_commit` */
  function ParseOf(c: Commit): Option<ParsedCommit> {
    ParseCommitMessage(c.message, c.sha)
  }

  /** `[p for c in commits if (p := parse_commit(c)) is not None]` */
  function ParseAll(commits: seq<Commit>): (r: seq<ParsedCommit>)
    ensures |r| <= |commits|
    ensures forall p :: p in r <==> exists i :: 0 <= i < |commits| && ParseOf(commits[i]) == Some(p)
  {
    FilterMapMembers(commits, ParseOf);
    FilterMap(commits, ParseOf)
  }

  /** No conventional commit, nothing parsed. */
  lemma ParseAllNone(commits: seq<Commit>)
    requires forall i :: 0 <= i < |commits| ==> ParseOf(commits[i]).None?
    ensures ParseAll(commits) == []
  {
    FilterMapNone(commits, ParseOf);
  }

  /** `options.bump or determine_bump(parsed)`: an override, whatever its
      level, is a true value and wins. */
  function EffectiveBump(override: Option<BumpType>, parsed: seq<ParsedCommit>): (b: BumpType)
    ensures override.Some? ==> b == override.value
    ensures override.None? ==> forall i :: 0 <= i < |parsed| ==> BumpOf(parsed[i]).Rank() <= b.Rank()
    ensures override.None? && parsed == [] ==> b == NoBump
    ensures override.None? && parsed != [] ==> exists i :: 0 <= i < |parsed| && b == BumpOf(parsed[i])
  {
    MaxBumpIsMax(parsed);
    if override.Some? then override.value else MaxBump(parsed)
  }

  /** `BumpType.value` */
  function BumpValue(b: BumpType): string {
    match b
    case NoBump => "none"
    case Patch => "patch"
    case Minor => "minor"
    case Major => "major"
  }

  /** `BumpType.name` */
  function BumpName(b: BumpType): string {
    match b
    case NoBump => "NONE"
    case Patch => "PATCH"
    case Minor => "MINOR"
    case Major => "MAJOR"
  }

  /** `BumpType[s.upper()]`, `None` where the lookup raises `KeyError`. */
  function BumpByName(s: string): (r: Option<BumpType>)
    ensures r.Some? ==> BumpName(r.value) == Upper(s)
    ensures r.None? ==> forall b: BumpType :: BumpName(b) != Upper(s)
  {
    var u := Upper(s);
    if u == "NONE" then Some(NoBump)
    else if u == "PATCH" then Some(Patch)
    else if u == "MINOR" then Some(Minor)
    else if u == "MAJOR" then Some(Major)
    else None
  }

  /** The lower-case value of every level is accepted and names that level. */
  lemma BumpByValue(b: BumpType)
    ensures BumpByName(BumpValue(b)) == Some(b)
  {
    assert Upper(BumpValue(b)) == BumpName(b);
  }

  /** `sha[:7]` */
  function ShortSha(sha: string): (r: string)
    ensures |r| == if |sha| < 7 then |sha| else 7
    ensures IsPrefix(r, sha)
  {
    if |sha| < 7 then sha else sha[..7]
  }

  /** The shortened ids of the commits, in order. */
  function ShortShas(commits: seq<Commit>): (r: seq<string>)
    ensures |r| == |commits|
    ensures forall i :: 0 <= i < |r| ==> r[i] == ShortSha(commits[i].sha)
  {
    Map(commits, (c: Commit) => ShortSha(c.sha))
  }
}
