/** The diff queries of `pymelos.git.diff`, over git's answers. */
module GitDiff {
  import opened Wrappers
  import opened Strings
  import opened Seqs
  import opened Sorting
  import opened Paths
  import opened GitRepo

  /** The four queries `get_changed_files_in_package` issues: commits since
      the reference, staged changes, unstaged changes, untracked files. */
  function FourQueries(since: string, packagePath: string): (qs: seq<seq<string>>)
    ensures |qs| == 4
    ensures forall k :: 0 <= k < 4 ==> |qs[k]| >= 2 && qs[k][0] == "git" && qs[k][|qs[k]| - 1] == packagePath
  {
    [["git", "diff", "--name-only", since + "...HEAD", "--", packagePath],
     ["git", "diff", "--name-only", "--cached", "--", packagePath],
     ["git", "diff", "--name-only", "--", packagePath],
     ["git", "ls-files", "--others", "--exclude-standard", "--", packagePath]]
  }

  /** The lines a successful query contributes; a failed one contributes none. */
  function Contributed(out: GitOutput): set<string> {
    if out.returncode == 0 then set l | l in OutputLines(out) else {}
  }

  function Id(s: string): string {
    s
  }

  /** What each query contributes, in order. */
  function Contributions(git: Git, root: Path, queries: seq<seq<string>>): (r: seq<set<string>>)
    ensures |r| == |queries| && forall k :: 0 <= k < |r| ==> r[k] == Contributed(git(queries[k], Some(root)))
  {
    Map(queries, (q: seq<string>) => Contributed(git(q, Some(root))))
  }

  /** The union of the sets, folded from the back. */
  function Union(sets: seq<set<string>>): set<string> {
    if sets == [] then {} else Union(sets[..|sets| - 1]) + sets[|sets| - 1]
  }

  /** A member of the union is a member of one of the sets, and back. */
  lemma {:induction false} UnionMembers(sets: seq<set<string>>, f: string)
    ensures f in Union(sets) <==> exists k :: 0 <= k < |sets| && f in sets[k]
    decreases |sets|
  {
    if sets != [] {
      var n := |sets| - 1;
      var init := sets[..n];
      UnionMembers(init, f);
      if f in Union(init) {
        var k :| 0 <= k < n && f in init[k];
        assert init[k] == sets[k];
      } else if f !in sets[n] {
        forall k | 0 <= k < |sets| ensures f !in sets[k] {
          if k < n {
            assert init[k] == sets[k];
          }
        }
      }
    }
  }

  /** Runs each query in turn, keeping the lines of the successful ones. */
  method Gather(git: Git, root: Path, queries: seq<seq<string>>) returns (found: set<string>)
    ensures found == Union(Contributions(git, root, queries))
  {
    found := {};
    var i := 0;
    while i < |queries|
      invariant 0 <= i <= |queries|
      invariant found == Union(Contributions(git, root, queries[..i]))
    {
      assert queries[..i + 1][..i] == queries[..i];
      assert Contributions(git, root, queries[..i + 1]) == Contributions(git, root, queries[..i]) + [Contributed(git(queries[i], Some(root)))];
      var out := git(queries[i], Some(root));
      if out.returncode == 0 {
        found := found + set l | l in OutputLines(out);
      }
      i := i + 1;
    }
    assert queries[..i] == queries;
  }

  /** The non-empty members of `found`, each once, sorted. */
  method SortedNonEmpty(found: set<string>) returns (files: seq<string>)
    ensures SortedBy(files, Id) && NoDup(files)
    ensures forall f :: f in files <==> f in found && f != []
  {
    var kept := set f | f in found && f != [];
    var list := SetToSeq(kept);
    files := SortBy(list, Id);
    PermNoDup(list, files);
    forall f ensures f in files <==> f in list {
      assert f in files <==> f in multiset(files);
      assert f in list <==> f in multiset(list);
    }
  }

  /** `get_changed_files_in_package`: all four queries run; the non-empty
      lines of the successful ones, each once, sorted. */
  method ChangedFilesInPackage(git: Git, root: Path, since: string, packagePath: Path)
    returns (files: seq<string>, queries: seq<seq<string>>)
    ensures queries == FourQueries(since, AbsStr(packagePath))
    ensures SortedBy(files, Id) && NoDup(files)
    ensures forall f :: f in files <==>
              f != [] && exists k :: 0 <= k < 4 && f in Contributed(git(queries[k], Some(root)))
  {
    queries := FourQueries(since, AbsStr(packagePath));
    var found := Gather(git, root, queries);
    files := SortedNonEmpty(found);
    forall f ensures f in found <==> exists k :: 0 <= k < 4 && f in Contributed(git(queries[k], Some(root))) {
      UnionMembers(Contributions(git, root, queries), f);
    }
  }

  /** `get_file_diff`: the diff against the reference when it is not
      blank; otherwise, for an untracked file, the diff of the file
      against `/dev/null`; otherwise the blank diff. */
  function FileDiff(git: Git, root: Path, since: string, filePath: string): (r: string)
    ensures var first := git(["git", "diff", "--color=always", since, "--", filePath], Some(root));
            var untracked := git(["git", "ls-files", "--others", "--exclude-standard", "--", filePath], Some(root));
            var created := git(["git", "diff", "--color=always", "/dev/null", filePath], Some(root));
            && (r == first.stdout || r == created.stdout)
            && (!AllSpace(first.stdout) ==> r == first.stdout)
            && (r != first.stdout ==> AllSpace(first.stdout) && untracked.returncode == 0 && !AllSpace(untracked.stdout))
            && (AllSpace(first.stdout) && untracked.returncode == 0 && !AllSpace(untracked.stdout) ==> r == created.stdout)
  {
    var first := git(["git", "diff", "--color=always", since, "--", filePath], Some(root));
    if IsBlank(first.stdout) then
      var untracked := git(["git", "ls-files", "--others", "--exclude-standard", "--", filePath], Some(root));
      if untracked.returncode == 0 && !IsBlank(untracked.stdout) then
        git(["git", "diff", "--color=always", "/dev/null", filePath], Some(root)).stdout
      else first.stdout
    else first.stdout
  }
}
