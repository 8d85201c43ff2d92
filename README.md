# pymelos core, modelled in Dafny

pymelos manages Python monorepos (workspaces of packages under one root, built with `uv`). This
project models the decision-making at its core, with everything the program asks of git, `uv`, the
file system, subprocesses and the dependency graph given as plain inputs:

- conventional-commit parsing and the choice of version bump (`versioning/conventional.py`);
- the package filters (scope, ignore, since) and their fixed composition (`filters/`);
- the `changed`, `export`, `list`, `clean`, `bootstrap`, `run`, `exec`, `release` and `version`
  commands (`commands/`);
- the executor's fail-fast cancellation and batch sequencing, and the runner's environment and
  result bookkeeping (`execution/`);
- the helpers over tool output: the git diff union and file-diff fallback, the recent-ref
  deduplication, the default branch and clean-tree checks, the `git` error rule (`git/`), the `uv`
  argument lists (`uv/sync.py`), and the text-table layout (`cli/output/table.py`).

Each core source file has its own Dafny module (`conventional.dfy`, `scope.dfy`, `ignore.dfy`,
`chain.dfy`, `since.dfy`, `changed.dfy`, `export.dfy`, `parallel.dfy`, `runner.dfy`, `run.dfy`,
`exec.dfy`, `release.dfy`, `version.dfy`, `bootstrap.dfy`, `clean.dfy`, `list.dfy`, `diff.dfy`,
`repo.dfy`, `sync.dfy`, `table.dfy`). Helper modules stand in for what the core uses from Python and from
code outside the core:

- `strings.dfy`: `str` operations.
- `seqs.dfy`: order-preserving filters, maps and sublists.
- `sorting.dfy`: a stable sort by key, Python's `sorted` / `list.sort`.
- `paths.dfy`: paths as component sequences.
- `glob.dfy`: a `*`/`?` matcher in place of `fnmatch`.
- `workspace.dfy`: packages, configuration, and graph queries given as functions.
- `results.dfy`: execution and batch results.
- `versioning.dfy`: what `release` and `version` share: commits, parsing, the bump decision, and the
  version, tag and changelog collaborators given as functions.

Code that changes state step by step is modelled by methods with loops. Each such method is proved
against a specification function, and the properties are proved about that function. The
executor, whose cancellation flag is a field, is a class. Effects on the outside world are returned as
logs, never performed: file writes, commits, tags, publishing, deletions, and `uv` and hook invocations.

## Model

| member | source | states |
|---|---|---|
| Conventional.MatchType | src/pymelos/versioning/conventional.py:19 | the type alternation finds a listed type the line starts with (any case), or proves no listed type from that point starts it |
| Conventional.TypesPrefixFree | src/pymelos/versioning/conventional.py:19 | no listed type is a prefix of another, so at most one can start a line |
| Conventional.TypeUnique | src/pymelos/versioning/conventional.py:19 | two listed types that both start a line are the same type |
| Conventional.ScopeGroupIff | src/pymelos/versioning/conventional.py:20 | the optional scope group matches exactly a bracketed non-empty scope without `)`, or text not opening a bracket |
| Conventional.BangColonIff | src/pymelos/versioning/conventional.py:21-22 | the tail matches exactly an optional `!`, then `: `, then a non-empty description |
| Conventional.MatchHeaderSound | src/pymelos/versioning/conventional.py:18-24 | a matched header is well formed (listed type, non-empty scope without `)`, non-empty description) and the line is its text |
| Conventional.MatchTypeFinds | src/pymelos/versioning/conventional.py:19-23 | a line starting with a listed type in any case finds that type |
| Conventional.MatchHeaderComplete | src/pymelos/versioning/conventional.py:18-24 | every well-formed header text is matched, with the same parts |
| Conventional.MatchHeaderIff | src/pymelos/versioning/conventional.py:18-24 | the pattern matches a line exactly when it is a listed type (any case) followed by a well-formed header's tail |
| Conventional.ParseCommitMessage | src/pymelos/versioning/conventional.py:97-129 | a commit is parsed iff the stripped message's first line matches; the type is lowered and listed, scope and description come from the match, sha and raw message are kept; the body is `BodyOf` the message (none for one line, else the stripped rest); breaking iff `!` or that body names `BREAKING CHANGE:`/`BREAKING-CHANGE:` |
| Conventional.BreakingFooter | src/pymelos/versioning/conventional.py:114-119 | a parsed commit whose text after the first line break contains `BREAKING CHANGE:` or `BREAKING-CHANGE:` has a body and is breaking |
| Conventional.BodyShape | src/pymelos/versioning/conventional.py:107-114 | no body iff the stripped message has one line; otherwise the body is the text after the first line break, stripped |
| Conventional.IsConventional | src/pymelos/versioning/conventional.py:204-213 | holds iff the message parses |
| Conventional.BumpOf | src/pymelos/versioning/conventional.py:27-69 | breaking commits are major; otherwise feat is minor, fix/perf/revert are patch, every other type none |
| Conventional.FormattedScope | src/pymelos/versioning/conventional.py:71-76 | "(scope)" for a non-empty scope, else "" |
| Conventional.MaxBumpIsMax | src/pymelos/versioning/conventional.py:144-164 | the folded bump bounds every commit's bump and is some commit's bump; none for no commits |
| Conventional.MaxBumpMajorPrefix | src/pymelos/versioning/conventional.py:159-162 | once a prefix reaches major the rest cannot change the result, so the early exit is harmless |
| Conventional.DetermineBump | src/pymelos/versioning/conventional.py:144-164 | the loop with its early break returns the highest bump of the list, none for an empty list |
| Conventional.TypeSet | src/pymelos/versioning/conventional.py:178 | the set of the lowered requested types |
| Conventional.FilterByType | src/pymelos/versioning/conventional.py:167-181 | the order-preserving sublist of commits whose lowered type is a lowered requested type |
| Conventional.GroupByType | src/pymelos/versioning/conventional.py:184-201 | one group per lowered type occurring, holding exactly the commits of that type in their order |
| Conventional.GroupedSnoc | src/pymelos/versioning/conventional.py:196-200 | one pass of the loop keeps the grouping exact for the commits seen so far plus the new one |
| Conventional.NoGroupNoCommit | src/pymelos/versioning/conventional.py:198-199 | a type without a group has no commit so far, so its new group starts empty |
| Conventional.KeysOfSnoc | src/pymelos/versioning/conventional.py:197-199 | one more commit adds exactly its lowered type to the group keys |
| Conventional.AddCommit | src/pymelos/versioning/conventional.py:197-200 | the loop body opens the group of the lowered type if missing and appends the commit to it |
| Conventional.GroupsPartition | src/pymelos/versioning/conventional.py:184-201 | every commit lies in exactly the group of its lowered type, and no group is empty |
| Scope.StripAll | src/pymelos/filters/scope.py:27 | each piece stripped, same count |
| Scope.ParseScope | src/pymelos/filters/scope.py:10-28 | an empty scope gives no patterns; every pattern is stripped and non-empty |
| Scope.ParseScopeMembers | src/pymelos/filters/scope.py:27-28 | the patterns are exactly the non-blank comma pieces, stripped |
| Scope.CleanPiecesMembers | src/pymelos/filters/scope.py:27-28 | a pattern is kept iff it is the non-empty stripped form of some piece |
| Scope.AnySelects | src/pymelos/filters/scope.py:46-65 | some pattern selects the name by equality, case-insensitive equality, glob, or glob after `-`→`_` |
| Scope.MatchScope | src/pymelos/filters/scope.py:31-65 | no patterns select every package; otherwise some pattern selects the name |
| Scope.FilterByScope | src/pymelos/filters/scope.py:68-88 | an absent or pattern-less scope returns the input; otherwise the order-preserving sublist of matching packages |
| Scope.FilterByScopeIsFilter | src/pymelos/filters/scope.py:81-88 | the scope filter is a filter by one fixed predicate |
| Scope.ExactNameKept | src/pymelos/filters/scope.py:47-88 | a package named exactly like a pattern is kept |
| Ignore.ShouldIgnore | src/pymelos/filters/ignore.py:10-39 | false for no patterns; true iff a pattern glob-matches the name, the `-`→`_` name, or the path |
| Ignore.FilterByIgnore | src/pymelos/filters/ignore.py:42-58 | absent or empty patterns return the input; otherwise exactly the non-ignored packages in order |
| Ignore.FilterByIgnoreIsFilter | src/pymelos/filters/ignore.py:55-58 | the ignore filter is a filter by one fixed predicate |
| Chain.ByNames | src/pymelos/filters/chain.py:39-41 | the order-preserving sublist of packages whose name is listed |
| Chain.ApplyFilters | src/pymelos/filters/chain.py:13-49 | an order-preserving sublist; a package survives iff it passes the names (when given) or else the scope, and is not ignored |
| Chain.ApplyFiltersIsFilter | src/pymelos/filters/chain.py:36-49 | the chain is one filter by the conjunction of its stages |
| Chain.ApplyFiltersIdempotent | src/pymelos/filters/chain.py:36-49 | filtering the result again with the same arguments changes nothing |
| Chain.ApplyFiltersWithSince | src/pymelos/filters/chain.py:52-92 | scope, then since, then ignore; an order-preserving sublist; without since it equals scope-then-ignore |
| Since.TouchedSpec | src/pymelos/filters/since.py:53-63 | a package is recorded iff some changed file joined to the root lies under it; no duplicates; workspace order |
| Since.GetChangedPackages | src/pymelos/filters/since.py:32-69 | the nested loop records the touched packages, or the graph's affected packages for them when dependents are included |
| Since.FilterBySince | src/pymelos/filters/since.py:72-96 | no since returns the input; otherwise exactly the input packages whose name is among the changed names, in order |
| Glob.MatchLiteral | src/pymelos/filters/scope.py:56 | a pattern without wildcards matches exactly itself |
| Glob.MatchStar | src/pymelos/filters/ignore.py:28 | `*` matches every name |
| Changed.DirectTable | src/pymelos/commands/changed.py:59-72 | the `directly_changed` table has at most one entry per package |
| Changed.TableNames | src/pymelos/commands/changed.py:77 | the table's names, in order |
| Changed.AddNames | src/pymelos/commands/changed.py:79-81 | adding names only grows the set |
| Changed.Resolve | src/pymelos/commands/changed.py:88-92 | a resolved package has the name looked up, is a workspace package, and lies under the root |
| Changed.ResolveEntry | src/pymelos/commands/changed.py:88-107 | an entry becomes a row exactly when its package resolves |
| Changed.ResolveAll | src/pymelos/commands/changed.py:87-108 | success gives one row per entry |
| Changed.ChangedOf | src/pymelos/commands/changed.py:50-128 | the reported packages are sorted by name; `since` is echoed and the file total is the number of changed files |
| Changed.ResolveAllErrPrefix | src/pymelos/commands/changed.py:88-100 | a lookup failure in a prefix is the failure of the whole |
| Changed.FilesUnder | src/pymelos/commands/changed.py:62-69 | the inner loop collects exactly the package's changed files, in order |
| Changed.CollectDirect | src/pymelos/commands/changed.py:59-72 | the nested loop builds the `directly_changed` table |
| Changed.CollectDependents | src/pymelos/commands/changed.py:75-81 | the loop records the transitive dependents that are not directly changed |
| Changed.ResolveAllAppend | src/pymelos/commands/changed.py:86-108 | resolving direct rows then dependent rows is resolving their concatenation |
| Changed.ResolveEntries | src/pymelos/commands/changed.py:86-108 | the row-building loop looks up each package and its relative path, stopping at the first failure |
| Changed.ChangedExecute | src/pymelos/commands/changed.py:50-128 | the command's steps compute `ChangedOf` |
| Changed.PackageFilesSpec | src/pymelos/commands/changed.py:62-69 | a package's files are exactly the changed files under it, in order |
| Changed.DirectTableSpec | src/pymelos/commands/changed.py:61-72 | the table holds exactly the packages with at least one changed file under them, with those files |
| Changed.DirectTableNoDup | src/pymelos/commands/changed.py:59-72 | with unique package names, no name is in the table twice |
| Changed.AddNamesSpec | src/pymelos/commands/changed.py:75-81 | a name is recorded iff it was present or is a candidate outside the excluded names; none twice |
| Changed.DependentNamesSpec | src/pymelos/commands/changed.py:75-81 | the dependents are exactly the transitive dependents of changed packages that are not directly changed, each once |
| Changed.ResolveAllSpec | src/pymelos/commands/changed.py:86-108 | resolution succeeds iff every entry's package is found under the root, and then gives one row per entry in order |
| Changed.SurvivesIff | src/pymelos/commands/changed.py:111-119 | a row's name survives `apply_filters` iff its package passes the scope and ignore filters |
| Changed.NameSurvives | src/pymelos/commands/changed.py:111-119 | a row whose package is resolved by name survives a filter of the packages iff the filter keeps that package |
| Changed.RowsMembers | src/pymelos/commands/changed.py:84-108 | the rows are those of the resolved entries |
| Changed.KeptMembers | src/pymelos/commands/changed.py:110-119 | a row is kept iff no scope/ignore is given or its package passes them |
| Changed.ChangedMembers | src/pymelos/commands/changed.py:50-128 | a row is reported iff it is some entry's row and, with scope or ignore given, its package passes them |
| Changed.ChangedAsKept | src/pymelos/commands/changed.py:111-122 | the reported rows are exactly the kept rows, sorting only reordering them |
| Changed.KeptEntries | src/pymelos/commands/changed.py:111-119 | with all entries resolved, a row is kept iff it is some entry's row and, with scope or ignore given, its package passes them |
| Changed.EntriesKeysDistinct | src/pymelos/commands/changed.py:59-81 | with unique package names, no name has two entries |
| Changed.ChangedUniqueNames | src/pymelos/commands/changed.py:59-122 | with unique package names, each name is reported at most once |
| Changed.TableNamesIff | src/pymelos/commands/changed.py:61-72 | a name is in the table iff some changed file lies under the workspace package of that name |
| Changed.DependsFromTable | src/pymelos/commands/changed.py:77-79 | a dependent reached from a table entry is reached from a directly changed package |
| Changed.DependsToTable | src/pymelos/commands/changed.py:77-79 | a dependent of a directly changed package is reached from its table entry |
| Changed.DependentsIff | src/pymelos/commands/changed.py:75-81 | a name is recorded as dependent iff it is not directly changed and depends on a change |
| Changed.EntriesSpec | src/pymelos/commands/changed.py:86-108 | direct rows are the packages with changed files, with their file count and not dependent; dependent rows (only when requested) have 0 files and are exactly the non-direct dependents |
| Changed.DirectEntries | src/pymelos/commands/changed.py:86-96 | the direct rows are one per package with changed files, carrying their number |
| Changed.DependentEntries | src/pymelos/commands/changed.py:98-108 | the dependent rows, only when requested, are the transitive dependents of changed packages that are not changed themselves, with no files |
| Export.Validate | src/pymelos/commands/export.py:44-49 | no errors iff the package is in the workspace; otherwise one message naming it |
| Export.ReachesRefl | src/pymelos/commands/export.py:56 | a package reaches itself |
| Export.ReachesStep | src/pymelos/commands/export.py:58-60 | what a dependency reaches, its dependent reaches |
| Export.ClosedHoldsReach | src/pymelos/commands/export.py:56-60 | a dependency-closed set holding a package holds all it reaches |
| Export.SubsetCard | src/pymelos/commands/export.py:53-56 | a subset is no larger (the walk's termination measure) |
| Export.CollectDependencies | src/pymelos/commands/export.py:51-60 | an already collected package returns at once; otherwise the set only grows, gains only workspace packages reachable from the package, and is closed over what was added; an unknown dependency is reported |
| Export.VisitDependency | src/pymelos/commands/export.py:56-60 | visiting one dependency keeps what was collected, adds the dependency, stays within what the package reaches and closed over what was added; an unknown dependency is reported |
| Export.WalkStep | src/pymelos/commands/export.py:56-60 | the walk's invariants survive one recursive visit |
| Export.NeededPackages | src/pymelos/commands/export.py:100-101 | from the empty set, the walk collects exactly what the target reaches, a dependency-closed set of workspace packages |
| Export.ConfigText | src/pymelos/commands/export.py:62-76 | the generated configuration lists every member as `"packages/<name>"` |
| Export.ListedEntry | src/pymelos/commands/export.py:66-76 | every entry of the joined member list appears in the configuration text |
| Export.ExportExecute | src/pymelos/commands/export.py:90-124 | an unknown package is an error with the validation messages; otherwise the exported list holds each reachable package exactly once, all of them workspace packages, and the configuration lists them |
| Parallel.Flat | src/pymelos/execution/parallel.py:59-111 | a run from a reset flag records one result per package, and starts at most that many |
| Parallel.FailedBeforeMono | src/pymelos/execution/parallel.py:103-104 | a failure before an index is a failure before every later index |
| Parallel.FlatSpec | src/pymelos/execution/parallel.py:59-111 | result `i` is the runner's own unless fail-fast is on and an earlier package failed, when it is CANCELLED; the flag ends set iff fail-fast is on and some package failed |
| Parallel.FlatLaunched | src/pymelos/execution/parallel.py:64-101 | the packages handed to `run_in_package` are exactly those not cancelled, and form a prefix of the input |
| Parallel.LaunchedAfterCancel | src/pymelos/execution/parallel.py:64-70 | once the flag is set the next unit is not started and the started packages stay a prefix |
| Parallel.LaunchedWhileRunning | src/pymelos/execution/parallel.py:72-104 | while the flag is clear every unit so far was started, and so is the next |
| Parallel.NoFailFastRunsAll | src/pymelos/execution/parallel.py:103 | without fail-fast every result is the runner's own and the flag stays clear |
| Parallel.FailFastCancelsRest | src/pymelos/execution/parallel.py:64-104 | under fail-fast every package after a failing one is CANCELLED with exit code -1 |
| Parallel.FlatFlag | src/pymelos/execution/parallel.py:60-104 | after `execute` the flag is set iff fail-fast is on and some result failed |
| Parallel.FlatFrom | src/pymelos/execution/parallel.py:64-106 | each unit adds one result |
| Parallel.FlatIsFlatFrom | src/pymelos/execution/parallel.py:59-60 | a run from a reset executor is a run from the fresh state |
| Parallel.FlatFromAppend | src/pymelos/execution/parallel.py:108-109 | running two lists of units in turn is running their concatenation |
| Parallel.CancelledAll | src/pymelos/execution/parallel.py:140-150 | one CANCELLED result per package of the batch, in order |
| Parallel.FlatFromCancelled | src/pymelos/execution/parallel.py:65-70 | from a set flag every further unit is recorded CANCELLED and nothing starts |
| Parallel.FlatFromLive | src/pymelos/execution/parallel.py:59-111 | from a clear flag the units append exactly what a fresh run records |
| Parallel.Flatten | src/pymelos/execution/parallel.py:139 | no batches have no packages |
| Parallel.Batches | src/pymelos/execution/parallel.py:136-164 | one result per package of all batches |
| Parallel.BatchesIsFlat | src/pymelos/execution/parallel.py:136-164 | batch after batch records exactly what one sequential run over the concatenated batches records: same results in order, same packages started, same flag |
| Parallel.BatchesFlag | src/pymelos/execution/parallel.py:161-162 | after `execute_batches` the flag is set iff fail-fast is on and some result failed |
| Parallel.FailedBatchCancelsNext | src/pymelos/execution/parallel.py:139-162 | under fail-fast, once a failure is recorded the whole next batch is CANCELLED/-1 and nothing in it starts |
| Parallel.BatchesPrefix | src/pymelos/execution/parallel.py:159 | the results of the first batches are a prefix of the final results |
| Parallel.BatchesNoFailFast | src/pymelos/execution/parallel.py:136-164 | without fail-fast every package of every batch gets the runner's own result, in batch order |
| Parallel.ParallelExecutor.constructor | src/pymelos/execution/parallel.py:23-36 | concurrency is clamped to at least 1; the flag starts clear |
| Parallel.ParallelExecutor.Execute | src/pymelos/execution/parallel.py:38-111 | the flag is reset first; the results, the new flag and the started packages are those of `Flat` |
| Parallel.ParallelExecutor.RunUnits | src/pymelos/execution/parallel.py:64-109 | on a clear flag, the units in order give the results, flag and started packages of `Flat` |
| Parallel.ParallelExecutor.RunUnit | src/pymelos/execution/parallel.py:64-106 | one `run_one`: cancelled without starting when the flag is set, else the runner's result, the package started and the flag set on a failure under fail-fast |
| Parallel.ParallelExecutor.ExecuteBatches | src/pymelos/execution/parallel.py:113-164 | the flag is reset first; the results, the new flag and the started packages are those of `Batches` |
| Parallel.ParallelExecutor.RunBatch | src/pymelos/execution/parallel.py:139-162 | one loop iteration: a cancelled batch or a fresh `execute`, then the flag update |
| Parallel.ParallelExecutor.RecordCancelled | src/pymelos/execution/parallel.py:142-149 | the loop records every package of the batch as CANCELLED |
| Parallel.ParallelExecutor.Cancel | src/pymelos/execution/parallel.py:218-220 | sets the flag and starts nothing |
| Runner.EndOfStream | src/pymelos/execution/runner.py:24-27 | the index of the first empty read, every earlier read being non-empty |
| Runner.RStripAll | src/pymelos/execution/runner.py:30-32 | each line right-stripped |
| Runner.ReadStream | src/pymelos/execution/runner.py:18-32 | the buffer holds every line read before the first empty read, in order; the callback sees each right-stripped |
| Runner.RunEnv | src/pymelos/execution/runner.py:57-60 | the ambient environment overlaid by `env`: keys of both, `env` winning |
| Runner.RunCommand | src/pymelos/execution/runner.py:35-104 | the merged environment reaches the process; output is the joined buffers with exit code (None read as 0); a timeout gives (-1, "", "Command timed out after {t}s"); an exception gives (-1, "", its text) |
| Runner.PackageEnv | src/pymelos/execution/runner.py:129-133 | the caller's variables plus the package name, path and version variables, the caller's other keys kept |
| Runner.Classify | src/pymelos/execution/runner.py:144-160 | exit code 0 is a success, anything else a failure carrying the code, with the output and command kept |
| Runner.RunInPackage | src/pymelos/execution/runner.py:107-160 | the result names the package and command and is never CANCELLED |
| Runner.PackageResultSpec | src/pymelos/execution/runner.py:143-160 | the result of `run_in_package` names the package and the command and is never CANCELLED |
| Runner.PackageInvocationSpec | src/pymelos/execution/runner.py:129-138 | the command runs in the package directory with the package variables set to its name, path and version |
| RunCommand.ScriptNames | src/pymelos/commands/run.py:61-94 | the configured script names, in order |
| RunCommand.GetScript | src/pymelos/commands/run.py:57-97 | a found script is configured under that name; none iff the name is not configured |
| RunCommand.RunValidate | src/pymelos/commands/run.py:53-64 | no error iff the script is configured; otherwise one message naming it |
| RunCommand.EffectiveScopeSpec | src/pymelos/commands/run.py:73-76 | the command's non-empty scope wins, else the script's; a scope is in force iff either gives one |
| RunCommand.RunPackages | src/pymelos/commands/run.py:66-85 | an order-preserving sublist of the workspace packages passing the effective scope, the since filter (when given) and the ignore patterns |
| RunCommand.CommandScopeWins | src/pymelos/commands/run.py:74-76 | with a command scope, the selection ignores the script's scope |
| RunCommand.LayerEnv | src/pymelos/commands/run.py:105-108 | context env, then config env, then script env, later layers winning |
| RunCommand.RunExecute | src/pymelos/commands/run.py:87-130 | an unknown script is a `ScriptNotFound` error with the configured names; no packages give no results; otherwise fail-fast is the option OR the script's flag and batches are used iff the option AND the script ask for them, with the results of that run |
| RunCommand.Dispatch | src/pymelos/commands/run.py:110-130 | a fresh executor runs the packages in batches or all at once, with the results of `Batches` or `Flat`; without fail-fast no result is CANCELLED |
| RunCommand.NoCancellationWithoutFailFast | src/pymelos/commands/run.py:112-130 | without fail-fast no result is CANCELLED in either mode |
| ExecCommand.DefaultOptions | src/pymelos/commands/exec.py:21-32 | only the command given: no scope, since or ignore, concurrency 4, no fail-fast, not topological |
| ExecCommand.ExecPackages | src/pymelos/commands/exec.py:52-65 | an order-preserving sublist of the workspace packages passing scope, since and ignore |
| ExecCommand.LayerEnv | src/pymelos/commands/exec.py:73-75 | context env overlaid by the config env |
| ExecCommand.ExecExecute | src/pymelos/commands/exec.py:67-90 | no packages give no results; otherwise the options' fail-fast decides cancellation, batches iff topological; the flat run gives one result per package, in order, each naming its package |
| ExecCommand.FlatNames | src/pymelos/commands/exec.py:87-90 | each result of a flat run names the package at its position |
| Versioning.ParseAll | src/pymelos/commands/release.py:99 | at most one parsed commit per commit, and a parsed commit is present iff some commit parses to it |
| Versioning.ParseAllNone | src/pymelos/commands/release.py:99 | commits none of which parse give no parsed commits |
| Versioning.EffectiveBump | src/pymelos/commands/release.py:100 | an override always wins; otherwise the bump is at least every parsed commit's bump, is one of them, and is none when nothing parsed |
| Versioning.BumpByName | src/pymelos/commands/release.py:258-264 | a level is found iff its upper-case name equals the upper-cased text |
| Versioning.BumpByValue | src/pymelos/commands/release.py:258-264 | the lower-case value of every level is accepted and names that level |
| Versioning.ShortSha | src/pymelos/commands/release.py:120 | a prefix of the id, 7 characters long or the whole id when shorter |
| Versioning.ShortShas | src/pymelos/commands/release.py:120 | one shortened id per commit, in order |
| Release.PrepareRelease | src/pymelos/commands/release.py:87-122 | nothing to release iff there are no commits or the effective bump is none; an unparsable version is an error; otherwise the release carries the package name, the parsed old version, the bumped new version, the formatted tag, the short commit ids, the generated or manual changelog, unpublished |
| Release.NoConventionalNoRelease | src/pymelos/commands/release.py:96-103 | without an override, commits none of which are conventional release nothing |
| Release.BreakingIsMajor | src/pymelos/commands/release.py:99-103 | without an override, one breaking conventional commit makes the release major |
| Release.BreakingBumpsMajor | src/pymelos/commands/release.py:98-99 | one breaking conventional commit among the commits puts the determined bump at major |
| Release.BreakingIsMax | src/pymelos/versioning/conventional.py:153-164 | a breaking parsed commit makes the highest bump major |
| Release.OverrideDecides | src/pymelos/commands/release.py:96-106 | with an override and at least one commit, the release is at the override's level |
| Release.Plan | src/pymelos/commands/release.py:184-188 | at most one release per package, each with a real bump and unpublished |
| Release.PlanReleases | src/pymelos/commands/release.py:184-188 | the planning loop computes `Plan`: releases in package order, the first error stopping it |
| Release.PlanErrStays | src/pymelos/commands/release.py:184-188 | an error on a prefix of the packages is the error of the whole plan |
| Release.ApplyChanges | src/pymelos/commands/release.py:124-130 | per release in order, the version write and, unless disabled, the changelog prepend |
| Release.TagEffects | src/pymelos/commands/release.py:148-160 | one tag per release, in order, with message `Release name@version` |
| Release.CreateTags | src/pymelos/commands/release.py:155-160 | the tag loop creates exactly `TagEffects` |
| Release.FirstFailure | src/pymelos/commands/release.py:169-175 | the index of the first release whose publication fails: all before succeed, the one at it fails |
| Release.MarkPublished | src/pymelos/commands/release.py:173 | exactly the releases before the index are marked published, the rest unchanged |
| Release.Attempts | src/pymelos/commands/release.py:169-175 | one publication attempt per release up to and including the failing one |
| Release.PublishReleases | src/pymelos/commands/release.py:162-176 | nothing when publishing is off; otherwise releases before the first failure are published and marked, the error is that failure's message, and no attempt follows it |
| Release.PublishStopsAtFailure | src/pymelos/commands/release.py:169-175 | no release at or after the first failure is marked published |
| Release.ApplyReleases | src/pymelos/commands/release.py:197-209 | writes, then the commit unless disabled, then the tags unless disabled, then publication; the commit id only when committed; success iff no publication failed with a non-empty message, which is then the error; an empty message counts as success with no error, though publishing still stopped there |
| Release.ReleaseExecute | src/pymelos/commands/release.py:178-209 | a planning error changes nothing; an empty scope or plan is an empty success; a dry run returns the plan and changes nothing; otherwise the effects and result of `ApplyReleases` |
| Release.ReleaseBumpArg | src/pymelos/commands/release.py:258-264 | no text means no override; text naming a level in any case selects it; any other text is the "Invalid bump type" error |
| VersionCommand.PlanBump | src/pymelos/commands/version.py:62-93 | skipped iff there are neither commits nor an override, or the bump is none; an unparsable version is an error; otherwise the bump value, the parsed and bumped versions and the generated or manual changelog |
| VersionCommand.OverridePlansWithoutCommits | src/pymelos/commands/version.py:70-91 | an override plans a bump even with no commits, with the manual changelog entry |
| VersionCommand.UnconventionalSkipped | src/pymelos/commands/version.py:70-77 | without an override, commits none of which are conventional are skipped |
| VersionCommand.PlanAll | src/pymelos/commands/version.py:61-93 | at most one planned bump per package |
| VersionCommand.PlanBumps | src/pymelos/commands/version.py:61-93 | the planning loop computes `PlanAll`, the first error stopping it |
| VersionCommand.PlanAllErrStays | src/pymelos/commands/version.py:61-93 | an error on a prefix of the packages is the error of the whole plan |
| VersionCommand.WriteFiles | src/pymelos/commands/version.py:101-106 | per planned bump in order, the version write and, unless disabled, the changelog prepend |
| VersionCommand.WriteAllNoTags | src/pymelos/commands/version.py:101-106 | file writes never commit or tag |
| VersionCommand.TagAll | src/pymelos/commands/version.py:121-127 | one tag per planned bump, in order, with message `Release <tag>` |
| VersionCommand.CreateTags | src/pymelos/commands/version.py:122-127 | the tag loop creates exactly `TagAll` |
| VersionCommand.VersionExecute | src/pymelos/commands/version.py:56-129 | a planning error changes nothing; the result always lists the plan and succeeds; an empty plan or a dry run changes nothing; otherwise writes, then the commit and (inside it) the tags as the options allow; with `no_commit` nothing is committed or tagged |
| VersionCommand.ApplyBumps | src/pymelos/commands/version.py:101-127 | the file writes for each planned bump, then the commit and tags as the options allow; the commit sha is read only when committing |
| VersionCommand.NoCommitNoGit | src/pymelos/commands/version.py:111-127 | with `no_commit` nothing is committed or tagged |
| Bootstrap.SyncPlan | src/pymelos/commands/bootstrap.py:66-85 | one or two syncs: the first with `--locked` only when asked and a lock file exists; a second, unlocked, exactly when the locked sync failed saying the lock file needs updating |
| Bootstrap.SyncPlanFlags | src/pymelos/commands/bootstrap.py:66-85 | only the first sync may pass `--locked`, and only when asked and a lock file exists; `--frozen` exactly when asked; every sync installs all packages with dev dependencies and no extras |
| Bootstrap.NoLockNoRetry | src/pymelos/commands/bootstrap.py:66-85 | without a lock file there is exactly one sync and it is not locked |
| Bootstrap.HookResultsSound | src/pymelos/commands/bootstrap.py:100-116 | every hook result comes from a package-level hook run in a package of its scope with the context environment, names that package and is not cancelled |
| Bootstrap.RunOnceAddsNoResults | src/pymelos/commands/bootstrap.py:102-110 | hooks that run once at the root add no results |
| Bootstrap.HooksSnoc | src/pymelos/commands/bootstrap.py:100-116 | one more hook extends the package results and the root runs by exactly that hook's share |
| Bootstrap.RunHooks | src/pymelos/commands/bootstrap.py:100-116 | the hook loop yields the package results and the root runs, in hook order |
| Bootstrap.RunHookInPackages | src/pymelos/commands/bootstrap.py:113-116 | a package-level hook runs in each package of its scope, in order |
| Bootstrap.RunInEach | src/pymelos/commands/bootstrap.py:114-116 | the package loop gives, in order, the result of running the hook in each package |
| Bootstrap.BootstrapExecute | src/pymelos/commands/bootstrap.py:54-123 | success iff the last sync exits 0; a failure reports stderr, or stdout when stderr is empty, and does nothing else; a success installs the packages editable when asked, runs the hooks unless skipped and reports the package count and sync output |
| UvSync.Opt | src/pymelos/uv/sync.py:33-42 | a word is appended iff its flag asks for it |
| UvSync.SyncArgListMembers | src/pymelos/uv/sync.py:31-42 | the command line starts with `sync` and holds each option exactly when its flag asks for it (`--no-dev` when dev is off) |
| UvSync.SyncArgListNoDup | src/pymelos/uv/sync.py:31-42 | no word of the sync command line is repeated |
| UvSync.SyncArgs | src/pymelos/uv/sync.py:31-81 | the conditional appends build exactly `SyncArgList` |
| UvSync.Sync | src/pymelos/uv/sync.py:10-83 | the exit code and outputs are uv's answer to the sync command line |
| UvSync.Lock | src/pymelos/uv/sync.py:86-96 | uv's answer to `lock` |
| UvSync.AddArgs | src/pymelos/uv/sync.py:117-123 | `add`, the package, `--dev` when asked, then an `--extra` pair per extra in order |
| UvSync.AddDependency | src/pymelos/uv/sync.py:99-126 | uv's answer to the `add` line: `add`, the package, `--dev` when asked, then an `--extra` pair per extra in order |
| UvSync.RemoveArgs | src/pymelos/uv/sync.py:145-148 | `remove`, the package, and `--dev` exactly when asked |
| UvSync.RemoveDependency | src/pymelos/uv/sync.py:129-151 | uv's answer to that `remove` command line |
| Clean.CleanPackages | src/pymelos/commands/clean.py:44-49 | an order-preserving sublist of the workspace packages |
| Clean.GetPatterns | src/pymelos/commands/clean.py:51-55 | the given patterns when non-empty, else the configured ones |
| Clean.GetProtected | src/pymelos/commands/clean.py:57-61 | the given protected names when non-empty, else the configured ones, as a set |
| Clean.PackageCandidatesMembers | src/pymelos/commands/clean.py:79-85 | a package's entries are exactly its glob matches, under its name |
| Clean.CandidatesMembers | src/pymelos/commands/clean.py:79-85 | an entry is a candidate iff some package and some pattern produce it |
| Clean.PathsToCleanMembers | src/pymelos/commands/clean.py:63-85 | the paths to clean are exactly the matches whose final component matches no protected pattern |
| Clean.SweepSpec | src/pymelos/commands/clean.py:93-110 | the cleaned packages are the names of all entries; counts and bytes are non-negative and at most one removal is counted per entry; a dry run deletes nothing, otherwise one deletion is made per counted file or directory |
| Clean.DryRunCounts | src/pymelos/commands/clean.py:97-110 | a dry run leaves the tree alone, so it counts exactly the file entries and exactly the directory entries and deletes nothing |
| Clean.RemovalsSpec | src/pymelos/commands/clean.py:99-110 | every deletion is of an entry's path, an `unlink` exactly for a file and an `rmtree` exactly for a directory, and never of a path an earlier deletion already removed, so nothing is deleted twice |
| Clean.InnerEntrySkipped | src/pymelos/commands/clean.py:99-110 | an entry inside a directory deleted earlier in the same run is neither counted nor deleted again and adds no bytes, because `is_file`, `is_dir` and `_calculate_size` ask the tree as it is now |
| Clean.Sweep | src/pymelos/commands/clean.py:99-110 | the loop's counters and deletions are `SweepOf`, each entry judged on the tree left by the deletions before it |
| Clean.CleanExecute | src/pymelos/commands/clean.py:87-117 | the counters and deletions of the sweep over the paths to clean, dry when either the options or the context ask for it |
| Clean.CleanRemovesOnlyUnprotected | src/pymelos/commands/clean.py:84-110 | a deletion happens only outside a dry run, never to a protected path, and only to a match of a pattern in a selected package |
| ListCommand.ListPackages | src/pymelos/commands/list.py:66-79 | an order-preserving sublist of the workspace packages |
| ListCommand.NamesOf | src/pymelos/commands/list.py:97-98 | the names of the packages, in order |
| ListCommand.InfosSpec | src/pymelos/commands/list.py:86-100 | infos exist iff every package lies under the root; then one per package in order with its name, version, path relative to the root, dependency and dependent names |
| ListCommand.InfosErrStays | src/pymelos/commands/list.py:86-100 | a package outside the root anywhere makes the whole listing fail |
| ListCommand.CollectInfos | src/pymelos/commands/list.py:86-100 | the info loop computes `Infos`, the first package outside the root stopping it |
| ListCommand.ListExecute | src/pymelos/commands/list.py:81-105 | the infos sorted by name: sorted and a permutation of the unsorted infos; a failure passes through |
| Sorting.SortByStable | src/pymelos/commands/list.py:103 | sorting by name is stable: the elements sharing any key keep their input order |
| ListCommand.SelectFormat | src/pymelos/commands/list.py:146-150 | JSON iff asked, graph iff asked without JSON, table otherwise |
| ListCommand.GraphLine | src/pymelos/commands/list.py:170-175 | starts with `name vversion`, is exactly that without dependencies, and names every dependency |
| ListCommand.DepsCell | src/pymelos/commands/list.py:184 | "-" without dependencies, and names every dependency otherwise |
| ListCommand.HandleList | src/pymelos/commands/list.py:135-187 | the listing with scope and since; JSON records, graph lines or table rows of the sorted packages as the flags choose |
| GitRepo.IntStr | src/pymelos/git/repo.py:249 | a non-empty decimal text, starting with `-` iff negative |
| GitRepo.RunGitCommand | src/pymelos/git/repo.py:62-98 | no git is the "Git is not installed" error; with `check` a nonzero exit is an error naming the command, carrying stripped stderr or the exit-code message; otherwise the process result |
| GitRepo.UncheckedNeverFails | src/pymelos/git/repo.py:91-96 | without `check` an installed git always returns its result |
| GitRepo.IsGitRepo | src/pymelos/git/repo.py:12-29 | true iff git runs and `rev-parse --git-dir` exits 0 |
| GitRepo.GetRepoRoot | src/pymelos/git/repo.py:32-59 | the stripped top level on success; a "not a repository" failure becomes the fixed error with the command; other errors pass through |
| GitRepo.StrippedQuery | src/pymelos/git/repo.py:144-167 | the stripped output of a checked query, or its error |
| GitRepo.IsClean | src/pymelos/git/repo.py:170-180 | clean iff the porcelain status is blank |
| GitRepo.GetDefaultBranch | src/pymelos/git/repo.py:183-208 | the last segment of the remote HEAD when that query succeeds, else "main" when it exists, else "master" |
| GitRepo.LastPiece | src/pymelos/git/repo.py:200 | holds no `/`, and is the whole text when it has none |
| GitRepo.Take | src/pymelos/git/repo.py:230-267 | Python's `xs[:n]` for either sign of `n` |
| GitRepo.Labelled | src/pymelos/git/repo.py:229-243 | only non-empty names, each captioned with the prefix |
| GitRepo.CommitRef | src/pymelos/git/repo.py:254-257 | a reference iff the line holds a vertical bar; its value is the text before the first bar |
| GitRepo.CommitRefsSpec | src/pymelos/git/repo.py:253-257 | each commit reference comes from one line holding a vertical bar, and its value holds none |
| GitRepo.FirstOfEachSpec | src/pymelos/git/repo.py:259-265 | deduplication keeps each value once, loses no value, and keeps the first reference of each |
| GitRepo.ValuesSnoc | src/pymelos/git/repo.py:262-264 | one more reference adds exactly its value to the values seen |
| GitRepo.FirstOfEachValues | src/pymelos/git/repo.py:259-265 | deduplication loses no value and adds none |
| GitRepo.FirstOfEachDistinct | src/pymelos/git/repo.py:259-265 | deduplication keeps each value once |
| GitRepo.FirstOfEachFirst | src/pymelos/git/repo.py:259-265 | each kept reference is the first of its value in the input |
| GitRepo.AppendLabelled | src/pymelos/git/repo.py:229-243 | the branch and tag loops append exactly `Labelled` |
| GitRepo.AppendCommits | src/pymelos/git/repo.py:253-257 | the commit loop appends exactly `CommitRefs` |
| GitRepo.Deduplicate | src/pymelos/git/repo.py:259-265 | the `seen` loop computes `FirstOfEach` |
| GitRepo.GetRecentRefs | src/pymelos/git/repo.py:211-267 | branches, tags and commits, deduplicated, then cut at twice the limit |
| GitRepo.RecentRefsSpec | src/pymelos/git/repo.py:259-267 | the refs offered hold each value once, at most twice the limit and only values git reported |
| GitDiff.FourQueries | src/pymelos/git/diff.py:36-69 | four git queries, each ending with the package path |
| GitDiff.Contributions | src/pymelos/git/diff.py:36-69 | one contribution per query: its lines when it succeeds, none otherwise |
| GitDiff.UnionMembers | src/pymelos/git/diff.py:32-69 | a file is in the union iff one of the queries contributed it |
| GitDiff.Gather | src/pymelos/git/diff.py:32-69 | the query loop collects exactly the union of the contributions |
| GitDiff.SortedNonEmpty | src/pymelos/git/diff.py:71 | the non-empty members, sorted, each once |
| GitDiff.ChangedFilesInPackage | src/pymelos/git/diff.py:10-71 | sorted, without repeats, exactly the non-empty lines some successful query of the four reported |
| GitDiff.FileDiff | src/pymelos/git/diff.py:74-115 | the diff against the reference when not blank; else the `/dev/null` diff when the file is untracked; else the blank diff |
| Table.Pad | src/pymelos/cli/output/table.py:36-40 | left-aligned: the text, then spaces up to the width, never cut |
| Table.LongestCell | src/pymelos/cli/output/table.py:31 | bounds every cell of the column, is attained by one, and is 0 without rows |
| Table.Widths | src/pymelos/cli/output/table.py:25-32 | one width per column: the given one when present, else the longer of the header and the longest cell |
| Table.Cells | src/pymelos/cli/output/table.py:50 | one cell per column, the row's value or empty |
| Table.Dashes | src/pymelos/cli/output/table.py:41 | `n` dashes |
| Table.TableLines | src/pymelos/cli/output/table.py:21-53 | nothing without rows; otherwise four lines more than rows |
| Table.PrintTable | src/pymelos/cli/output/table.py:9-53 | the width and row loops print exactly `TableLines` |
| Table.CollectWidths | src/pymelos/cli/output/table.py:25-32 | the width loop computes `Widths` |
| Table.EmitRows | src/pymelos/cli/output/table.py:48-52 | the row loop appends one formatted line per row, in order |
| Table.JoinWidth | src/pymelos/cli/output/table.py:36 | joining parts of the given widths with the three-character column separator has the summed width plus the separators |
| Table.FormatWidth | src/pymelos/cli/output/table.py:36-51 | cells no wider than their columns give a line of exactly the table width |
| Table.FormatKeepsCells | src/pymelos/cli/output/table.py:36-51 | every cell appears in its formatted line |
| Table.TableShape | src/pymelos/cli/output/table.py:39-53 | separator, upper-case header, separator, one line per row in order, separator; every separator as long as the header |
| Table.RowKeepsValues | src/pymelos/cli/output/table.py:48-51 | each row's line shows each of its column values |
| Table.AutoWidthsFit | src/pymelos/cli/output/table.py:28-51 | with computed widths the header and every row line have the table width |
| Table.AutoWidthsAlign | src/pymelos/cli/output/table.py:25-53 | with computed widths every printed line has the same length |

## Left out

- Concurrency: the asyncio semaphore, task scheduling and `ParallelExecutor.stream` (`execution/parallel.py:166-216`) are not modelled. The executor runs one package at a time, in input order, which is the behaviour at concurrency 1; a batch is one atomic step.
- Process execution: spawning shells, killing on timeout, `run_command_sync` and the measured durations. A process is a function from the invocation to its outcome (exit code, output lines, timeout or exception).
- Git, `uv` and pip calls are not performed. Their outputs are inputs: git as a function from arguments and working directory to output, `uv` likewise, and the editable pip install as the list of paths it would receive. `run_git_command_async` and `pip_list` are not part of this model.
- File system effects are returned as logs, never performed: deletions in `clean`; version, changelog, commit, tag and publish effects in `release` and `version`. The directory work of `export` (removing, creating and copying the output tree, writing the configuration file, locking it) is not modelled; only the exported list and the configuration text are.
- Collaborators outside the core are given as functions with no assumptions: the dependency graph queries, `parallel_batches`, `get_affected_packages`, `Version.parse` and `bump`, changelog generation, and the tag and commit-message templates.
- Glob: `fnmatch` is modelled by a matcher for `*` and `?` only. Character classes and case normalisation of paths are not modelled.
- Case mapping (`lower`, `upper`) covers ASCII letters only.
- Set iteration order: Python leaves open the order of the exported packages, the dependents in `changed` and the cleaned package names. The model fixes one order (or keeps a set) and proves only order-independent facts about them.
- `ParsedCommit.formatted_type` (`versioning/conventional.py:79-95`) is not modelled; nothing in the core uses it.
- `bootstrap`'s `clean_first` option, which runs `clean` with default options before syncing, is not modelled.
- `list`: the rich bold markup of graph lines, the table widget's rendering and the `json.dumps` text are not modelled. The model returns the lines, rows and records that would be shown.
- The interactive confirmation flow of `handle_release_command` after the plan is not modelled; only its bump-argument check is.
- `add.py`, the CLI (`cli/app.py`), the interactive prompts, workspace initialisation and all console printing are not part of this model.
- Floating point: timeouts appear only in the timeout message, as given text; the kilobyte figure `clean` prints is not modelled.
- Table.Widths: a given width is a natural number, so the negative widths Python would reject while formatting cannot be expressed. Values are the already rendered `str()` texts.
- UvSync.Sync: `sync_async` builds the same argument list and is modelled by the same method.
- Git failures inside `release`, `version` and `clean` (a failing `git commit`, a tag that already exists, a deletion that raises) are not modelled; every effect in the log is taken to succeed, apart from publishing.
- Versioning.EffectiveBump: `BumpType` (`versioning/semver.py` is not part of this model) is taken to be an enum whose members are all true values, `NONE` included. A given override therefore always wins in `options.bump or determine_bump(...)`, and an override of `NONE` counts as given in `version`'s skip test `not commits and not options.bump`.
- Results.Failed: `ExecutionResult.failed` (`execution/results.py` is not part of this model) is taken to mean a status of FAILURE.
- Bootstrap.HookResults: `workspace.filter_packages(scope=...)` (`workspace/workspace.py` is not part of this model) is taken to be the scope filter `filter_by_scope`.
- Strings.SplitLines: lines break at `\n` only. `str.splitlines` also breaks at `\r`, `\r\n`, vertical tab, form feed, the file, group and record separators, NEL and the Unicode line and paragraph separators. This affects the git outputs read by `GitDiff` and `GitRepo`.
- GitRepo.IsClean, GitRepo.GetDefaultBranch, GitRepo.GetRecentRefs: git is taken to be installed. The "Git is not installed" error that `run_git_command` raises even with `check=False` is modelled only in `GitRepo.RunGitCommand`.
- Conventional.GroupByType: the result is a map, so the key order of the Python dict (the order in which types first occur) is not modelled. The order of commits inside each group is modelled.
