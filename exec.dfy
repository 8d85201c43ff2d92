/** The `exec` command (`pymelos.commands.exec`): an arbitrary shell
    command, run across the selected packages by a fresh executor. */
module ExecCommand {
  import opened Wrappers
  import opened Seqs
  import opened Paths
  import opened Workspaces
  import opened Scope
  import opened Ignore
  import opened Since
  import opened Chain
  import opened Results
  import opened Parallel

  /** `ExecOptions`; unlike `run`, batches are not the default. */
  datatype ExecOptions = ExecOptions(
    command: string,
    scope: Option<string>,
    since: Option<string>,
    ignore: Option<seq<string>>,
    concurrency: int,
    failFast: bool,
    topological: bool,
    includeDependents: bool)

  /** The options `exec` starts from: only the command is given. */
  function DefaultOptions(command: string): (opts: ExecOptions)
    ensures !opts.topological && !opts.failFast && opts.concurrency == 4
    ensures opts.command == command && opts.scope.None? && opts.since.None? && opts.ignore.None?
  {
    ExecOptions(command, None, None, None, 4, false, false, false)
  }

  /** `ExecCommand.get_packages`: the command's scope, since and ignore over
      the workspace packages in order. */
  function ExecPackages(ws: Workspace, opts: ExecOptions, changedFiles: string -> seq<Path>): (r: seq<Package>)
    ensures Sublist(r, ws.packages)
    ensures forall p :: p in r <==>
              && p in ws.packages
              && MatchScope(p, ScopePatterns(opts.scope))
              && (HasSince(opts.since) ==>
                    p.name in NamesOf(ChangedPackages(ws, changedFiles(opts.since.value), opts.includeDependents)))
              && !ShouldIgnore(p, IgnorePatterns(opts.ignore))
  {
    ApplyFiltersWithSince(ws.packages, ws, opts.scope, opts.since, opts.ignore, opts.includeDependents, changedFiles)
  }

  /** The environment of an exec run: the context's variables overlaid by
      the workspace configuration's. */
  method LayerEnv(contextEnv: map<string, string>, configEnv: map<string, string>) returns (env: map<string, string>)
    ensures env == Update(contextEnv, configEnv)
    ensures env.Keys == contextEnv.Keys + configEnv.Keys
    ensures forall k :: k in configEnv ==> env[k] == configEnv[k]
    ensures forall k :: k in contextEnv && k !in configEnv ==> env[k] == contextEnv[k]
  {
    env := contextEnv;
    env := Update(env, configEnv);
  }

  /** `ExecCommand.execute`: no selected package gives an empty result;
      otherwise an executor built from the command's concurrency and
      fail-fast runs the command flat, or in dependency batches when asked. */
  method ExecExecute(ws: Workspace, opts: ExecOptions, contextEnv: map<string, string>,
                     changedFiles: string -> seq<Path>, shell: Runner.Shell, ambient: map<string, string>,
                     hasHandler: bool)
    returns (r: BatchResult)
    ensures var pkgs := ExecPackages(ws, opts, changedFiles);
            var run := JobRun(shell, ambient, Job(opts.command, Some(Update(contextEnv, ws.config.env)), None));
            && (pkgs == [] ==> r.results == [])
            && (pkgs != [] && opts.topological ==>
                  r.results == Batches(ws.graph.parallelBatches(pkgs), opts.failFast, run).results)
            && (pkgs != [] && !opts.topological ==> r.results == Flat(pkgs, opts.failFast, run).results)
    ensures !opts.topological ==> |r.results| == |ExecPackages(ws, opts, changedFiles)|
    ensures !opts.topological ==>
              forall i :: 0 <= i < |r.results| ==> r.results[i].packageName == ExecPackages(ws, opts, changedFiles)[i].name
  {
    var pkgs := ExecPackages(ws, opts, changedFiles);
    if pkgs == [] {
      return BatchResult([]);
    }
    var env := LayerEnv(contextEnv, ws.config.env);
    var job := Job(opts.command, Some(env), None);
    var executor := new ParallelExecutor(opts.concurrency, opts.failFast);
    if opts.topological {
      r := executor.ExecuteBatches(ws.graph.parallelBatches(pkgs), job, shell, ambient, hasHandler);
    } else {
      r := executor.Execute(pkgs, job, shell, ambient, hasHandler);
      FlatNames(pkgs, opts.failFast, JobRun(shell, ambient, job));
    }
  }

  /** Each result of a flat run belongs to the package at its position. */
  lemma FlatNames(pkgs: seq<Package>, failFast: bool, run: Package -> ExecutionResult)
    requires forall p :: run(p).packageName == p.name
    ensures forall i :: 0 <= i < |pkgs| ==> Flat(pkgs, failFast, run).results[i].packageName == pkgs[i].name
  {
    FlatSpec(pkgs, failFast, run);
  }
}
