/** The `bootstrap` command (`pymelos.commands.bootstrap`): one `uv sync`,
    retried once without `--locked` when the lock file is out of date, then
    the bootstrap hooks. */
module Bootstrap {
  import opened Wrappers
  import opened Strings
  import opened Seqs
  import opened Paths
  import opened Workspaces
  import opened Scope
  import opened Results
  import opened UvSync
  import Runner

  datatype BootstrapOptions = BootstrapOptions(
    cleanFirst: bool,
    frozen: bool,
    locked: bool,
    skipHooks: bool,
    editable: bool)

  datatype BootstrapResult = BootstrapResult(
    success: bool,
    packagesInstalled: int,
    hookResults: seq<ExecutionResult>,
    uvOutput: string)

  /** `--locked` is passed only when asked for and a lock file exists. */
  function UseLocked(opts: BootstrapOptions, lockExists: bool): bool {
    opts.locked && lockExists
  }

  /** The flags of the first sync: all packages, dev dependencies kept. */
  function FirstFlags(opts: BootstrapOptions, lockExists: bool): SyncFlags {
    SyncFlags(opts.frozen, UseLocked(opts, lockExists), false, true, true)
  }

  /** The flags of the retry: the keyword defaults of `sync` but with
      `--locked` switched off. */
  function RetryFlags(opts: BootstrapOptions): SyncFlags {
    SyncFlags(opts.frozen, false, false, true, true)
  }

  const OutdatedLock: string := "needs to be updated"

  /** A failed locked sync whose error says the lock file is outdated is
      retried. */
  predicate NeedsRetry(opts: BootstrapOptions, lockExists: bool, first: (int, string, string)) {
    first.0 != 0 && UseLocked(opts, lockExists) && Contains(first.2, OutdatedLock)
  }

  /** The flags of every sync `bootstrap` runs, in order. */
  function SyncPlan(opts: BootstrapOptions, lockExists: bool, uv: Uv, root: Path): (r: seq<SyncFlags>)
    ensures 1 <= |r| <= 2 && r[0] == FirstFlags(opts, lockExists)
    ensures |r| == 2 <==> NeedsRetry(opts, lockExists, uv(SyncArgList(r[0]), root))
    ensures |r| == 2 ==> r[1] == RetryFlags(opts)
  {
    var first := FirstFlags(opts, lockExists);
    if NeedsRetry(opts, lockExists, uv(SyncArgList(first), root)) then [first, RetryFlags(opts)] else [first]
  }

  /** No sync passes `--locked` unless `locked` is set and the lock file
      exists, and the retry never passes it; `--no-dev` is never passed. */
  lemma SyncPlanFlags(opts: BootstrapOptions, lockExists: bool, uv: Uv, root: Path, i: nat)
    requires i < |SyncPlan(opts, lockExists, uv, root)|
    ensures var args := SyncArgList(SyncPlan(opts, lockExists, uv, root)[i]);
            && ("--locked" in args ==> opts.locked && lockExists && i == 0)
            && ("--frozen" in args <==> opts.frozen)
            && "--all-packages" in args
            && "--no-dev" !in args
            && "--all-extras" !in args
  {
    SyncArgListMembers(SyncPlan(opts, lockExists, uv, root)[i]);
  }

  /** Without a lock file there is exactly one sync. */
  lemma NoLockNoRetry(opts: BootstrapOptions, uv: Uv, root: Path)
    ensures |SyncPlan(opts, false, uv, root)| == 1
    ensures "--locked" !in SyncArgList(SyncPlan(opts, false, uv, root)[0])
  {
    SyncArgListMembers(FirstFlags(opts, false));
  }

  /** What the hooks that run in packages return: for each such hook in
      order, the result of each package of its scope in order. */
  function HookResults(ws: Workspace, shell: Runner.Shell, ambient: map<string, string>,
                       env: map<string, string>, hooks: seq<Hook>): seq<ExecutionResult>
  {
    FlatMap(hooks, HookShare(ws, shell, ambient, env))
  }

  function HookShare(ws: Workspace, shell: Runner.Shell, ambient: map<string, string>, env: map<string, string>)
    : Hook -> seq<ExecutionResult>
  {
    (hook: Hook) => HookOne(ws, shell, ambient, env, hook)
  }

  /** The results of one hook: none for a hook run once at the root. */
  function HookOne(ws: Workspace, shell: Runner.Shell, ambient: map<string, string>,
                   env: map<string, string>, hook: Hook): seq<ExecutionResult>
  {
    if hook.runOnce then [] else Map(FilterByScope(ws.packages, hook.scope), HookRun(shell, ambient, env, hook))
  }

  /** What `run_in_package` returns for the hook in one package. */
  function HookRun(shell: Runner.Shell, ambient: map<string, string>, env: map<string, string>, hook: Hook)
    : Package -> ExecutionResult
  {
    (pkg: Package) => Runner.PackageResult(shell, ambient, pkg, hook.run, Some(env), None)
  }

  /** `run` gives on `pkg` what `run_in_package` gives for the hook. */
  ghost predicate RunsHook(run: Package -> ExecutionResult, shell: Runner.Shell, ambient: map<string, string>,
                           env: map<string, string>, hook: Hook, pkg: Package)
  {
    run(pkg) == Runner.PackageResult(shell, ambient, pkg, hook.run, Some(env), None)
  }

  /** The processes started at the root, one per run-once hook in order. */
  function OnceRuns(ws: Workspace, ambient: map<string, string>, env: map<string, string>, hooks: seq<Hook>): seq<Runner.Invocation>
  {
    if hooks == [] then []
    else OnceRuns(ws, ambient, env, hooks[..|hooks| - 1]) + OnceOne(ws, ambient, env, hooks[|hooks| - 1])
  }

  function OnceOne(ws: Workspace, ambient: map<string, string>, env: map<string, string>, hook: Hook): seq<Runner.Invocation> {
    if hook.runOnce then [Runner.Invocation(hook.run, ws.root, Runner.RunEnv(ambient, Some(env)), None)] else []
  }

  /** Every hook result belongs to a package-level hook and to a package of
      that hook's scope, is that package's run of the hook, and is never a
      cancellation. */
  lemma HookResultsSound(ws: Workspace, shell: Runner.Shell, ambient: map<string, string>,
                         env: map<string, string>, hooks: seq<Hook>, k: nat)
    returns (h: nat, pkg: Package)
    requires k < |HookResults(ws, shell, ambient, env, hooks)|
    ensures h < |hooks| && !hooks[h].runOnce
    ensures pkg in FilterByScope(ws.packages, hooks[h].scope)
    ensures HookResults(ws, shell, ambient, env, hooks)[k] == Runner.PackageResult(shell, ambient, pkg, hooks[h].run, Some(env), None)
    ensures HookResults(ws, shell, ambient, env, hooks)[k].status != Cancelled
    ensures HookResults(ws, shell, ambient, env, hooks)[k].packageName == pkg.name
  {
    var i;
    h, i := FlatMapAt(hooks, HookShare(ws, shell, ambient, env), k);
    pkg := FilterByScope(ws.packages, hooks[h].scope)[i];
    Runner.PackageResultSpec(shell, ambient, pkg, hooks[h].run, Some(env), None);
  }

  /** Hooks that all run once at the root contribute no results. */
  lemma {:induction false} RunOnceAddsNoResults(ws: Workspace, shell: Runner.Shell, ambient: map<string, string>,
                                                env: map<string, string>, hooks: seq<Hook>)
    requires forall i :: 0 <= i < |hooks| ==> hooks[i].runOnce
    ensures HookResults(ws, shell, ambient, env, hooks) == []
    decreases |hooks|
  {
    if hooks != [] {
      RunOnceAddsNoResults(ws, shell, ambient, env, hooks[..|hooks| - 1]);
      assert HookShare(ws, shell, ambient, env)(hooks[|hooks| - 1]) == [];
    }
  }

  /** `BootstrapCommand.execute`. The sync runs as `SyncPlan` says; a
      failing sync is reported with its error output (its standard output
      when the error output is empty) and runs nothing else; a successful
      one installs the workspace packages in editable mode when asked and
      then runs the hooks unless skipped. */
  method BootstrapExecute(ws: Workspace, opts: BootstrapOptions, lockExists: bool, uv: Uv,
                          shell: Runner.Shell, ambient: map<string, string>, contextEnv: map<string, string>)
    returns (r: BootstrapResult, syncs: seq<SyncFlags>, editable: seq<Path>, rootRuns: seq<Runner.Invocation>)
    ensures syncs == SyncPlan(opts, lockExists, uv, ws.root)
    ensures var (code, out, err) := uv(SyncArgList(syncs[|syncs| - 1]), ws.root);
            && (r.success <==> code == 0)
            && (code != 0 ==> r == BootstrapResult(false, 0, [], if err != [] then err else out)
                                && editable == [] && rootRuns == [])
            && (code == 0 ==>
                  && r.packagesInstalled == |ws.packages|
                  && r.uvOutput == out
                  && editable == (if opts.editable then Map(ws.packages, (p: Package) => p.path) else [])
                  && r.hookResults == (if opts.skipHooks then [] else HookResults(ws, shell, ambient, contextEnv, ws.config.bootstrapHooks))
                  && rootRuns == (if opts.skipHooks then [] else OnceRuns(ws, ambient, contextEnv, ws.config.bootstrapHooks)))
  {
    var first := FirstFlags(opts, lockExists);
    var code, out, err := Sync(uv, ws.root, first);
    syncs := [first];
    if code != 0 && UseLocked(opts, lockExists) && Contains(err, OutdatedLock) {
      code, out, err := Sync(uv, ws.root, RetryFlags(opts));
      syncs := syncs + [RetryFlags(opts)];
    }
    if code != 0 {
      return BootstrapResult(false, 0, [], if err != [] then err else out), syncs, [], [];
    }
    editable := [];
    if opts.editable && ws.packages != [] {
      editable := Map(ws.packages, (p: Package) => p.path);
    }
    var hookResults: seq<ExecutionResult> := [];
    rootRuns := [];
    if !opts.skipHooks {
      hookResults, rootRuns := RunHooks(ws, shell, ambient, contextEnv);
    }
    r := BootstrapResult(true, |ws.packages|, hookResults, out);
  }

  /** One more hook extends both logs by that hook's share. */
  lemma HooksSnoc(ws: Workspace, shell: Runner.Shell, ambient: map<string, string>,
                  env: map<string, string>, hooks: seq<Hook>, i: nat)
    requires i < |hooks|
    ensures HookResults(ws, shell, ambient, env, hooks[..i + 1]) ==
            HookResults(ws, shell, ambient, env, hooks[..i]) + HookOne(ws, shell, ambient, env, hooks[i])
    ensures OnceRuns(ws, ambient, env, hooks[..i + 1]) == OnceRuns(ws, ambient, env, hooks[..i]) + OnceOne(ws, ambient, env, hooks[i])
  {
    FlatMapSnoc(hooks, HookShare(ws, shell, ambient, env), i);
    assert hooks[..i + 1][..i] == hooks[..i];
  }

  /** The hook loop. */
  method RunHooks(ws: Workspace, shell: Runner.Shell, ambient: map<string, string>, env: map<string, string>)
    returns (results: seq<ExecutionResult>, rootRuns: seq<Runner.Invocation>)
    ensures results == HookResults(ws, shell, ambient, env, ws.config.bootstrapHooks)
    ensures rootRuns == OnceRuns(ws, ambient, env, ws.config.bootstrapHooks)
  {
    var hooks := ws.config.bootstrapHooks;
    results, rootRuns := [], [];
    var i := 0;
    while i < |hooks|
      invariant 0 <= i <= |hooks|
      invariant results == HookResults(ws, shell, ambient, env, hooks[..i])
      invariant rootRuns == OnceRuns(ws, ambient, env, hooks[..i])
    {
      var hook := hooks[i];
      HooksSnoc(ws, shell, ambient, env, hooks, i);
      if hook.runOnce {
        var _, _, _ := Runner.RunCommand(shell, ambient, hook.run, ws.root, Some(env), None, false, false);
        rootRuns := rootRuns + [Runner.Invocation(hook.run, ws.root, Runner.RunEnv(ambient, Some(env)), None)];
      } else {
        var more := RunHookInPackages(ws, shell, ambient, env, hook);
        results := results + more;
      }
      i := i + 1;
    }
    assert hooks[..i] == hooks;
  }

  /** One package-level hook, run in each package of its scope in order. */
  method RunHookInPackages(ws: Workspace, shell: Runner.Shell, ambient: map<string, string>,
                           env: map<string, string>, hook: Hook)
    returns (results: seq<ExecutionResult>)
    requires !hook.runOnce
    ensures results == HookOne(ws, shell, ambient, env, hook)
  {
    results := RunInEach(FilterByScope(ws.packages, hook.scope), shell, ambient, env, hook,
                         HookRun(shell, ambient, env, hook));
  }

  /** The loop over the packages of the hook's scope, with `run` standing for
      the package runner. */
  method RunInEach(pkgs: seq<Package>, shell: Runner.Shell, ambient: map<string, string>,
                   env: map<string, string>, hook: Hook, ghost run: Package -> ExecutionResult)
    returns (results: seq<ExecutionResult>)
    requires forall p :: RunsHook(run, shell, ambient, env, hook, p)
    ensures results == Map(pkgs, run)
  {
    results := [];
    var j := 0;
    while j < |pkgs|
      invariant 0 <= j <= |pkgs|
      invariant |results| == j
      invariant forall k :: 0 <= k < j ==> results[k] == run(pkgs[k])
    {
      var result := Runner.RunInPackage(shell, ambient, pkgs[j], hook.run, Some(env), None, false, false);
      assert RunsHook(run, shell, ambient, env, hook, pkgs[j]);
      results := results + [result];
      j := j + 1;
    }
  }
}
