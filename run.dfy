/** The `run` command (`pymelos.commands.run`): a script from the
    configuration, run across the selected packages by a fresh executor. */
module RunCommand {
  import opened Wrappers
  import opened Seqs
  import opened Strings
  import opened Paths
  import opened Workspaces
  import opened Scope
  import opened Ignore
  import opened Since
  import opened Chain
  import opened Results
  import opened Parallel

  datatype RunOptions = RunOptions(
    scriptName: string,
    scope: Option<string>,
    since: Option<string>,
    ignore: Option<seq<string>>,
    concurrency: int,
    failFast: bool,
    topological: bool,
    includeDependents: bool)

  /** `ScriptNotFoundError` with the requested name and the configured names. */
  datatype RunError = ScriptNotFound(name: string, available: seq<string>)

  /** `config.script_names`, in configuration order. */
  function ScriptNames(config: Config): (names: seq<string>)
    ensures |names| == |config.scripts|
    ensures forall i :: 0 <= i < |names| ==> names[i] == config.scripts[i].name
  {
    Map(config.scripts, (s: Script) => s.name)
  }

  /** `config.get_script`: the script of that name, if configured. */
  function GetScript(config: Config, name: string): (r: Option<Script>)
    ensures r.Some? ==> r.value in config.scripts && r.value.name == name
    ensures r.None? <==> name !in ScriptNames(config)
    decreases |config.scripts|
  {
    if config.scripts == [] then None
    else if config.scripts[0].name == name then Some(config.scripts[0])
    else
      var rest := config.(scripts := config.scripts[1..]);
      assert ScriptNames(config) == [config.scripts[0].name] + ScriptNames(rest);
      GetScript(rest, name)
  }

  /** `RunCommand.validate`: one message, naming the script and listing the
      configured ones, when the script is not configured. */
  function RunValidate(ws: Workspace, opts: RunOptions): (errors: seq<string>)
    ensures errors == [] <==> opts.scriptName in ScriptNames(ws.config)
    ensures errors != [] ==> |errors| == 1 && Contains(errors[0], opts.scriptName)
  {
    if GetScript(ws.config, opts.scriptName).Some? then []
    else
      var msg := "Script '" + opts.scriptName + "' not found. Available: " + Join(", ", ScriptNames(ws.config));
      assert msg[8..][..|opts.scriptName|] == opts.scriptName;
      ContainsAt(msg, 8, opts.scriptName);
      [msg]
  }

  /** A scope argument Python treats as true: present and non-empty. */
  predicate Given(scope: Option<string>) {
    scope.Some? && scope.value != []
  }

  /** `get_packages`' scope: the command's own scope wins; the script's
      scope is used only when the command gives none. */
  function EffectiveScope(opts: RunOptions, script: Option<Script>): Option<string> {
    if !Given(opts.scope) && script.Some? && Given(script.value.scope) then script.value.scope else opts.scope
  }

  /** The selected scope is the command's when it gives one, the script's when
      only the script gives one, and the command's (empty) otherwise. */
  lemma EffectiveScopeSpec(opts: RunOptions, script: Option<Script>)
    ensures Given(opts.scope) ==> EffectiveScope(opts, script) == opts.scope
    ensures !Given(opts.scope) && script.Some? && Given(script.value.scope) ==>
              EffectiveScope(opts, script) == script.value.scope
    ensures Given(EffectiveScope(opts, script)) <==>
              Given(opts.scope) || (script.Some? && Given(script.value.scope))
  {
  }

  /** `RunCommand.get_packages`: scope, since and ignore over the workspace
      packages in order, `changedFiles` standing for git's answer. */
  function RunPackages(ws: Workspace, opts: RunOptions, changedFiles: string -> seq<Path>): (r: seq<Package>)
    ensures Sublist(r, ws.packages)
    ensures forall p :: p in r <==>
              && p in ws.packages
              && MatchScope(p, ScopePatterns(EffectiveScope(opts, GetScript(ws.config, opts.scriptName))))
              && (HasSince(opts.since) ==>
                    p.name in NamesOf(ChangedPackages(ws, changedFiles(opts.since.value), opts.includeDependents)))
              && !ShouldIgnore(p, IgnorePatterns(opts.ignore))
  {
    ApplyFiltersWithSince(ws.packages, ws, EffectiveScope(opts, GetScript(ws.config, opts.scriptName)),
                          opts.since, opts.ignore, opts.includeDependents, changedFiles)
  }

  /** A scope given on the command line decides the selection whatever the
      script says. */
  lemma CommandScopeWins(ws: Workspace, opts: RunOptions, changedFiles: string -> seq<Path>)
    requires Given(opts.scope)
    ensures RunPackages(ws, opts, changedFiles) ==
            ApplyFiltersWithSince(ws.packages, ws, opts.scope, opts.since, opts.ignore,
                                  opts.includeDependents, changedFiles)
  {
    EffectiveScopeSpec(opts, GetScript(ws.config, opts.scriptName));
  }

  /** The environment of a script run: the context's variables, then the
      workspace configuration's, then the script's; a later layer wins. */
  method LayerEnv(contextEnv: map<string, string>, configEnv: map<string, string>, scriptEnv: map<string, string>)
    returns (env: map<string, string>)
    ensures env == Update(Update(contextEnv, configEnv), scriptEnv)
    ensures env.Keys == contextEnv.Keys + configEnv.Keys + scriptEnv.Keys
    ensures forall k :: k in scriptEnv ==> env[k] == scriptEnv[k]
    ensures forall k :: k in configEnv && k !in scriptEnv ==> env[k] == configEnv[k]
    ensures forall k :: k in contextEnv && k !in configEnv && k !in scriptEnv ==> env[k] == contextEnv[k]
  {
    env := contextEnv;
    env := Update(env, configEnv);
    env := Update(env, scriptEnv);
  }

  /** The job a script run hands to the executor. */
  function ScriptJob(contextEnv: map<string, string>, config: Config, script: Script): Job {
    Job(script.run, Some(Update(Update(contextEnv, config.env), script.env)), None)
  }

  /** `RunCommand.execute`. An unknown script is an error; no selected
      package gives an empty result; otherwise the executor, built with the
      command's concurrency, runs with fail-fast when the command or the
      script asks for it, and in dependency batches only when both the
      command and the script allow it. */
  method RunExecute(ws: Workspace, opts: RunOptions, contextEnv: map<string, string>,
                    changedFiles: string -> seq<Path>, shell: Runner.Shell, ambient: map<string, string>,
                    hasHandler: bool)
    returns (r: Result<BatchResult, RunError>)
    ensures r.Err? <==> opts.scriptName !in ScriptNames(ws.config)
    ensures r.Err? ==> r.error == ScriptNotFound(opts.scriptName, ScriptNames(ws.config))
    ensures r.Ok? ==>
              var script := GetScript(ws.config, opts.scriptName).value;
              var pkgs := RunPackages(ws, opts, changedFiles);
              var failFast := opts.failFast || script.failFast;
              var run := JobRun(shell, ambient, ScriptJob(contextEnv, ws.config, script));
              && (pkgs == [] ==> r.value.results == [])
              && (pkgs != [] && opts.topological && script.topological ==>
                    r.value.results == Batches(ws.graph.parallelBatches(pkgs), failFast, run).results)
              && (pkgs != [] && !(opts.topological && script.topological) ==>
                    r.value.results == Flat(pkgs, failFast, run).results)
    ensures r.Ok? && !opts.failFast && !GetScript(ws.config, opts.scriptName).value.failFast ==>
              forall i :: 0 <= i < |r.value.results| ==> r.value.results[i].status != Cancelled
  {
    var errors := RunValidate(ws, opts);
    if errors != [] {
      return Err(ScriptNotFound(opts.scriptName, ScriptNames(ws.config)));
    }
    var script := GetScript(ws.config, opts.scriptName).value;
    var pkgs := RunPackages(ws, opts, changedFiles);
    if pkgs == [] {
      return Ok(BatchResult([]));
    }
    var env := LayerEnv(contextEnv, ws.config.env, script.env);
    var failFast := opts.failFast || script.failFast;
    var topological := opts.topological && script.topological;
    var job := Job(script.run, Some(env), None);
    assert job == ScriptJob(contextEnv, ws.config, script);
    var result := Dispatch(ws, pkgs, opts.concurrency, job, failFast, topological, shell, ambient, hasHandler);
    r := Ok(result);
  }

  /** The executor part of `execute`: a fresh executor runs the packages in
      dependency batches or all at once. */
  method Dispatch(ws: Workspace, pkgs: seq<Package>, concurrency: int, job: Job, failFast: bool, topological: bool,
                  shell: Runner.Shell, ambient: map<string, string>, hasHandler: bool)
    returns (result: BatchResult)
    ensures var run := JobRun(shell, ambient, job);
            && (topological ==> result.results == Batches(ws.graph.parallelBatches(pkgs), failFast, run).results)
            && (!topological ==> result.results == Flat(pkgs, failFast, run).results)
    ensures !failFast ==> forall i :: 0 <= i < |result.results| ==> result.results[i].status != Cancelled
  {
    var executor := new ParallelExecutor(concurrency, failFast);
    if topological {
      result := executor.ExecuteBatches(ws.graph.parallelBatches(pkgs), job, shell, ambient, hasHandler);
    } else {
      result := executor.Execute(pkgs, job, shell, ambient, hasHandler);
    }
    JobRunNeverCancelled(shell, ambient, job);
    NoCancellationWithoutFailFast(pkgs, ws.graph.parallelBatches(pkgs), failFast, topological,
                                  JobRun(shell, ambient, job), result);
  }

  /** The runner never reports a cancellation. */
  lemma JobRunNeverCancelled(shell: Runner.Shell, ambient: map<string, string>, job: Job)
    ensures forall p :: JobRun(shell, ambient, job)(p).status != Cancelled
  {
  }

  /** Without fail-fast no result is a cancellation, in either mode, since
      the runner itself never reports one. */
  lemma NoCancellationWithoutFailFast(pkgs: seq<Package>, batches: seq<seq<Package>>, failFast: bool,
                                      topological: bool, run: Package -> ExecutionResult, result: BatchResult)
    requires forall p :: run(p).status != Cancelled
    requires topological ==> result.results == Batches(batches, failFast, run).results
    requires !topological ==> result.results == Flat(pkgs, failFast, run).results
    ensures !failFast ==> forall i :: 0 <= i < |result.results| ==> result.results[i].status != Cancelled
  {
    if !failFast {
      if topological {
        BatchesNoFailFast(batches, run);
      } else {
        NoFailFastRunsAll(pkgs, run);
      }
    }
  }
}
