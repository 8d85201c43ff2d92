/** The git helpers of `pymelos.git.repo`. Git itself is the outside world:
    `Spawn` stands for `subprocess.run(["git"] + args, cwd=…)`, with `None`
    when the executable is missing, and `Git` for a call that found it. */
module GitRepo {
  import opened Wrappers
  import opened Strings
  import opened Seqs
  import opened Paths

  datatype GitOutput = GitOutput(returncode: int, stdout: string, stderr: string)

  type Spawn = (seq<string>, Option<Path>) -> Option<GitOutput>

  type Git = (seq<string>, Option<Path>) -> GitOutput

  datatype GitError = GitError(message: string, command: Option<string>)

  /** The decimal digits of `n`. */
  function NatStr(n: nat): (s: string)
    ensures s != [] && forall i :: 0 <= i < |s| ==> '0' <= s[i] <= '9'
  {
    var d := ['0' + (n % 10) as char];
    if n < 10 then d else NatStr(n / 10) + d
  }

  /** `str(i)` */
  function IntStr(i: int): (s: string)
    ensures s != []
    ensures i < 0 <==> s[0] == '-'
  {
    if i < 0 then "-" + NatStr(-i) else NatStr(i)
  }

  /** `run_git_command`: the process runs; with `check` a nonzero exit is
      an error whose message is the stripped stderr, or a message naming
      the exit code when that is empty; a missing executable is always an
      error. */
  function RunGitCommand(spawn: Spawn, args: seq<string>, cwd: Option<Path>, check: bool): (r: Result<GitOutput, GitError>)
    ensures spawn(["git"] + args, cwd).None? ==> r == Err(GitError("Git is not installed", None))
    ensures spawn(["git"] + args, cwd).Some? ==>
              var out := spawn(["git"] + args, cwd).value;
              && (r.Err? <==> check && out.returncode != 0)
              && (r.Ok? ==> r.value == out)
              && (r.Err? ==> r.error.command == Some(Join(" ", ["git"] + args)))
              && (r.Err? && Strip(out.stderr) != [] ==> r.error.message == Strip(out.stderr))
              && (r.Err? && Strip(out.stderr) == [] ==>
                    r.error.message == "Command failed with exit code " + IntStr(out.returncode))
  {
    var cmd := ["git"] + args;
    match spawn(cmd, cwd)
    case None => Err(GitError("Git is not installed", None))
    case Some(out) =>
      if check && out.returncode != 0 then
        var stripped := Strip(out.stderr);
        Err(GitError(if stripped != [] then stripped else "Command failed with exit code " + IntStr(out.returncode),
                     Some(Join(" ", cmd))))
      else Ok(out)
  }

  /** Without `check`, an installed git never makes the call fail. */
  lemma UncheckedNeverFails(spawn: Spawn, args: seq<string>, cwd: Option<Path>)
    requires spawn(["git"] + args, cwd).Some?
    ensures RunGitCommand(spawn, args, cwd, false) == Ok(spawn(["git"] + args, cwd).value)
  {
  }

  /** `is_git_repo`: `rev-parse --git-dir` succeeds; any error means no. */
  function IsGitRepo(spawn: Spawn, path: Path): (r: bool)
    ensures r <==> spawn(["git", "rev-parse", "--git-dir"], Some(path)).Some? &&
                   spawn(["git", "rev-parse", "--git-dir"], Some(path)).value.returncode == 0
  {
    var res := RunGitCommand(spawn, ["rev-parse", "--git-dir"], Some(path), false);
    assert ["git"] + ["rev-parse", "--git-dir"] == ["git", "rev-parse", "--git-dir"];
    res.Ok? && res.value.returncode == 0
  }

  /** `get_repo_root`: the stripped top-level path; an error that says
      the directory is not in a repository is replaced by one with a fixed
      message and command, any other error passes through. */
  function GetRepoRoot(spawn: Spawn, path: Path): (r: Result<string, GitError>)
    ensures var res := RunGitCommand(spawn, ["rev-parse", "--show-toplevel"], Some(path), true);
            && (r.Ok? <==> res.Ok?)
            && (r.Ok? ==> r.value == Strip(res.value.stdout))
            && (r.Err? && (Contains(res.error.message, "Not inside a git repository") ||
                           Contains(res.error.message, "not a git repository")) ==>
                  r.error == GitError("Not inside a git repository", Some("git rev-parse --show-toplevel")))
            && ((r.Err? && !Contains(res.error.message, "Not inside a git repository") &&
                 !Contains(res.error.message, "not a git repository")) ==> r.error == res.error)
  {
    match RunGitCommand(spawn, ["rev-parse", "--show-toplevel"], Some(path), true)
    case Ok(out) => Ok(Strip(out.stdout))
    case Err(e) =>
      if Contains(e.message, "Not inside a git repository") || Contains(e.message, "not a git repository") then
        Err(GitError("Not inside a git repository", Some("git rev-parse --show-toplevel")))
      else Err(e)
  }

  /** `get_current_branch` / `get_current_commit`: the stripped output of a
      checked query. */
  function StrippedQuery(spawn: Spawn, args: seq<string>, cwd: Option<Path>): (r: Result<string, GitError>)
    ensures r.Ok? <==> RunGitCommand(spawn, args, cwd, true).Ok?
    ensures r.Ok? ==> r.value == Strip(RunGitCommand(spawn, args, cwd, true).value.stdout) && Trimmed(r.value)
    ensures r.Err? ==> r.error == RunGitCommand(spawn, args, cwd, true).error
  {
    match RunGitCommand(spawn, args, cwd, true)
    case Ok(out) => Ok(Strip(out.stdout))
    case Err(e) => Err(e)
  }

  function GetCurrentBranch(spawn: Spawn, cwd: Option<Path>): Result<string, GitError> {
    StrippedQuery(spawn, ["rev-parse", "--abbrev-ref", "HEAD"], cwd)
  }

  function GetCurrentCommit(spawn: Spawn, cwd: Option<Path>): Result<string, GitError> {
    StrippedQuery(spawn, ["rev-parse", "HEAD"], cwd)
  }

  /** `is_clean`: the porcelain status prints nothing but whitespace. */
  function IsClean(git: Git, cwd: Option<Path>): (r: bool)
    ensures r <==> AllSpace(git(["git", "status", "--porcelain"], cwd).stdout)
  {
    IsBlank(git(["git", "status", "--porcelain"], cwd).stdout)
  }

  /** `get_default_branch`: the remote HEAD's last segment when that query
      succeeds, else `main` when a `main` branch is listed, else `master`. */
  function GetDefaultBranch(git: Git, cwd: Option<Path>): (r: string)
    ensures var remote := git(["git", "symbolic-ref", "refs/remotes/origin/HEAD"], cwd);
            var local := git(["git", "branch", "--list", "main"], cwd);
            && (remote.returncode == 0 ==> r == LastPiece(Strip(remote.stdout)) && '/' !in r)
            && (remote.returncode != 0 && !AllSpace(local.stdout) ==> r == "main")
            && (remote.returncode != 0 && AllSpace(local.stdout) ==> r == "master")
  {
    var remote := git(["git", "symbolic-ref", "refs/remotes/origin/HEAD"], cwd);
    if remote.returncode == 0 then LastPiece(Strip(remote.stdout))
    else if !IsBlank(git(["git", "branch", "--list", "main"], cwd).stdout) then "main"
    else "master"
  }

  /** `s.split("/")[-1]`: the text after the last `/`, all of `s` without one. */
  function LastPiece(s: string): (r: string)
    ensures '/' !in r
    ensures '/' !in s ==> r == s
  {
    var parts := Split(s, '/');
    parts[|parts| - 1]
  }

  /** A reference offered to the user: what to show and the value to use. */
  datatype Ref = Ref(caption: string, value: string)

  /** Python's `xs[:n]`: a negative `n` drops that many from the end. */
  function Take<T>(xs: seq<T>, n: int): (r: seq<T>)
    ensures |r| <= |xs| && r == xs[..|r|]
    ensures n >= 0 ==> |r| == if n < |xs| then n else |xs|
    ensures n < 0 ==> |r| == if |xs| + n > 0 then |xs| + n else 0
  {
    if n >= 0 then (if n < |xs| then xs[..n] else xs)
    else if |xs| + n > 0 then xs[..|xs| + n] else []
  }

  /** The lines of an output, as `stdout.strip().splitlines()`. */
  function OutputLines(out: GitOutput): seq<string> {
    SplitLines(Strip(out.stdout))
  }

  /** One labelled reference per non-empty name, in order. */
  function Labelled(names: seq<string>, prefix: string): (r: seq<Ref>)
    ensures |r| <= |names|
    ensures forall x :: x in r ==> x.value != [] && x.caption == prefix + x.value && x.value in names
  {
    if names == [] then []
    else
      var n := names[|names| - 1];
      Labelled(names[..|names| - 1], prefix) + (if n != [] then [Ref(prefix + n, n)] else [])
  }

  /** The reference of one commit line, if it holds a `|`: the value
      before the first `|`, the stripped rest as the caption. */
  function CommitRef(line: string): (r: Option<Ref>)
    ensures r.None? <==> '|' !in line
    ensures r.Some? ==> '|' !in r.value.value && IsPrefix(r.value.value + "|", line)
  {
    var k := IndexOf(line, '|');
    if k < |line| then
      assert line[..k + 1] == line[..k] + "|";
      Some(Ref(Strip(line[k + 1..]), line[..k]))
    else None
  }

  /** The references of the commit lines, in order. */
  function CommitRefs(lines: seq<string>): (r: seq<Ref>)
    ensures |r| <= |lines|
  {
    FilterMap(lines, CommitRef)
  }

  /** Each commit reference comes from one line holding a `|`, and its
      value holds none. */
  lemma CommitRefsSpec(lines: seq<string>)
    ensures forall x :: x in CommitRefs(lines) <==> exists i :: 0 <= i < |lines| && CommitRef(lines[i]) == Some(x)
    ensures forall x :: x in CommitRefs(lines) ==> '|' !in x.value
  {
    FilterMapMembers(lines, CommitRef);
  }

  /** The values of `refs`. */
  function Values(refs: seq<Ref>): set<string> {
    set x | x in refs :: x.value
  }

  /** The first reference of each value, in order. */
  function FirstOfEach(refs: seq<Ref>): seq<Ref> {
    if refs == [] then []
    else
      var kept := FirstOfEach(refs[..|refs| - 1]);
      var x := refs[|refs| - 1];
      if x.value in Values(kept) then kept else kept + [x]
  }

  function RefValue(x: Ref): string {
    x.value
  }

  /** The deduplicated list holds each value once, every value of the input,
      and for each value the reference that came first. */
  lemma FirstOfEachSpec(refs: seq<Ref>)
    ensures KeysDistinct(FirstOfEach(refs), RefValue)
    ensures Values(FirstOfEach(refs)) == Values(refs)
    ensures forall x :: x in FirstOfEach(refs) ==>
              exists i :: 0 <= i < |refs| && refs[i] == x && forall j :: 0 <= j < i ==> refs[j].value != x.value
  {
    FirstOfEachValues(refs);
    FirstOfEachDistinct(refs);
    FirstOfEachFirst(refs);
  }

  lemma ValuesSnoc(refs: seq<Ref>, x: Ref)
    ensures Values(refs + [x]) == Values(refs) + {x.value}
  {
    var s := refs + [x];
    forall v | v in Values(s) ensures v in Values(refs) + {x.value} {
      var y :| y in s && y.value == v;
      if y != x {
        assert y in refs;
      }
    }
    forall v | v in Values(refs) ensures v in Values(s) {
      var y :| y in refs && y.value == v;
      assert y in s;
    }
    assert x in s;
  }

  lemma {:induction false} FirstOfEachValues(refs: seq<Ref>)
    ensures Values(FirstOfEach(refs)) == Values(refs)
    decreases |refs|
  {
    if refs != [] {
      var init := refs[..|refs| - 1];
      var x := refs[|refs| - 1];
      FirstOfEachValues(init);
      assert refs == init + [x];
      ValuesSnoc(init, x);
      ValuesSnoc(FirstOfEach(init), x);
    }
  }

  lemma {:induction false} FirstOfEachDistinct(refs: seq<Ref>)
    ensures KeysDistinct(FirstOfEach(refs), RefValue)
    decreases |refs|
  {
    if refs != [] {
      var kept := FirstOfEach(refs[..|refs| - 1]);
      var x := refs[|refs| - 1];
      FirstOfEachDistinct(refs[..|refs| - 1]);
      if x.value !in Values(kept) {
        forall i | 0 <= i < |kept| ensures kept[i].value != x.value {
          assert kept[i] in kept;
        }
      }
    }
  }

  lemma {:induction false} FirstOfEachFirst(refs: seq<Ref>)
    ensures forall x :: x in FirstOfEach(refs) ==>
              exists i :: 0 <= i < |refs| && refs[i] == x && forall j :: 0 <= j < i ==> refs[j].value != x.value
    decreases |refs|
  {
    if refs != [] {
      var init := refs[..|refs| - 1];
      var x := refs[|refs| - 1];
      var kept := FirstOfEach(init);
      FirstOfEachFirst(init);
      FirstOfEachValues(init);
      forall y | y in FirstOfEach(refs)
        ensures exists i :: 0 <= i < |refs| && refs[i] == y && forall j :: 0 <= j < i ==> refs[j].value != y.value
      {
        if y in kept {
          var i :| 0 <= i < |init| && init[i] == y && forall j :: 0 <= j < i ==> init[j].value != y.value;
          assert refs[i] == y;
          forall j | 0 <= j < i ensures refs[j].value != y.value { assert refs[j] == init[j]; }
        } else {
          assert y == x && x.value !in Values(init);
          forall j | 0 <= j < |refs| - 1 ensures refs[j].value != y.value {
            assert refs[j] == init[j] && init[j] in init;
          }
        }
      }
    }
  }

  /** `get_recent_refs`: branches, then tags, each capped at `limit` and
      only from successful queries, then the commit lines; the first
      reference of each value is kept and the list is cut to `2 * limit`. */
  method GetRecentRefs(git: Git, cwd: Option<Path>, limit: int) returns (refs: seq<Ref>)
    ensures refs == Take(FirstOfEach(AllRefs(git, cwd, limit)), limit * 2)
  {
    var all: seq<Ref> := [];
    var branches := git(BranchArgs, cwd);
    if branches.returncode == 0 {
      all := AppendLabelled(all, Take(OutputLines(branches), limit), "[branch] ");
    }
    assert all == BranchRefs(git, cwd, limit);
    var tags := git(TagArgs, cwd);
    if tags.returncode == 0 {
      all := AppendLabelled(all, Take(OutputLines(tags), limit), "[tag] ");
    }
    assert all == BranchRefs(git, cwd, limit) + TagRefs(git, cwd, limit);
    var log := git(LogArgs(limit), cwd);
    if log.returncode == 0 {
      all := AppendCommits(all, OutputLines(log));
    }
    assert all == AllRefs(git, cwd, limit);
    var unique := Deduplicate(all);
    refs := Take(unique, limit * 2);
  }

  const BranchArgs: seq<string> := ["git", "branch", "--sort=-committerdate", "--format=%(refname:short)"]
  const TagArgs: seq<string> := ["git", "tag", "--sort=-creatordate", "--format=%(refname:short)"]

  /** The branches, capped at `limit`, when the query succeeds. */
  function BranchRefs(git: Git, cwd: Option<Path>, limit: int): seq<Ref> {
    var out := git(BranchArgs, cwd);
    if out.returncode == 0 then Labelled(Take(OutputLines(out), limit), "[branch] ") else []
  }

  /** The tags, capped at `limit`, when the query succeeds. */
  function TagRefs(git: Git, cwd: Option<Path>, limit: int): seq<Ref> {
    var out := git(TagArgs, cwd);
    if out.returncode == 0 then Labelled(Take(OutputLines(out), limit), "[tag] ") else []
  }

  /** The commit references, when the query succeeds. */
  function LogRefs(git: Git, cwd: Option<Path>, limit: int): seq<Ref> {
    var out := git(LogArgs(limit), cwd);
    if out.returncode == 0 then CommitRefs(OutputLines(out)) else []
  }

  /** The arguments of the commit query. */
  function LogArgs(limit: int): seq<string> {
    ["git", "log", "-n" + IntStr(limit), "--pretty=format:%h|%h %d %s (%cr)"]
  }

  /** Everything collected before deduplication. */
  function AllRefs(git: Git, cwd: Option<Path>, limit: int): seq<Ref> {
    BranchRefs(git, cwd, limit) + TagRefs(git, cwd, limit) + LogRefs(git, cwd, limit)
  }

  /** The references offered hold each value once and are at most twice
      `limit`; a branch or tag name is never offered unless its query
      succeeded. */
  lemma RecentRefsSpec(git: Git, cwd: Option<Path>, limit: int)
    ensures var refs := Take(FirstOfEach(AllRefs(git, cwd, limit)), limit * 2);
            && KeysDistinct(refs, RefValue)
            && (limit >= 0 ==> |refs| <= 2 * limit)
            && Values(refs) <= Values(AllRefs(git, cwd, limit))
  {
    var all := AllRefs(git, cwd, limit);
    FirstOfEachSpec(all);
    var unique := FirstOfEach(all);
    var refs := Take(unique, limit * 2);
    forall x | x in refs ensures x in unique {
      var i :| 0 <= i < |refs| && refs[i] == x;
      assert unique[i] == x;
    }
  }

  /** The branch and tag loops. */
  method AppendLabelled(refs: seq<Ref>, names: seq<string>, prefix: string) returns (r: seq<Ref>)
    ensures r == refs + Labelled(names, prefix)
  {
    r := refs;
    var i := 0;
    while i < |names|
      invariant 0 <= i <= |names|
      invariant r == refs + Labelled(names[..i], prefix)
    {
      assert names[..i + 1][..i] == names[..i];
      if names[i] != [] {
        r := r + [Ref(prefix + names[i], names[i])];
      }
      i := i + 1;
    }
    assert names[..i] == names;
  }

  /** The commit loop. */
  method AppendCommits(refs: seq<Ref>, lines: seq<string>) returns (r: seq<Ref>)
    ensures r == refs + CommitRefs(lines)
  {
    r := refs;
    var i := 0;
    while i < |lines|
      invariant 0 <= i <= |lines|
      invariant r == refs + FilterMap(lines[..i], CommitRef)
    {
      FilterMapStep(lines, CommitRef, i);
      var ref := CommitRef(lines[i]);
      if ref.Some? {
        r := r + [ref.value];
      }
      i := i + 1;
    }
    assert lines[..i] == lines;
  }

  /** The deduplication loop with its `seen` set. */
  method Deduplicate(refs: seq<Ref>) returns (unique: seq<Ref>)
    ensures unique == FirstOfEach(refs)
  {
    unique := [];
    var seen: set<string> := {};
    var i := 0;
    while i < |refs|
      invariant 0 <= i <= |refs|
      invariant unique == FirstOfEach(refs[..i])
      invariant seen == Values(unique)
    {
      assert refs[..i + 1][..i] == refs[..i];
      if refs[i].value !in seen {
        unique := unique + [refs[i]];
        seen := seen + {refs[i].value};
        assert Values(unique) == Values(unique[..|unique| - 1]) + {refs[i].value} by {
          assert unique == unique[..|unique| - 1] + [refs[i]];
        }
      }
      i := i + 1;
    }
    assert refs[..i] == refs;
  }
}
