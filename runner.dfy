/** Running one shell command in one package (`pymelos.execution.runner`).
    Starting the process is the outside world: `Shell` maps an invocation to
    what happened, and the model works out what the runner makes of it. */
module Runner {
  import opened Wrappers
  import opened Strings
  import opened Paths
  import opened Workspaces
  import opened Results

  /** What the runner asks the operating system to do. `timeout` is the
      timeout's printed form. */
  datatype Invocation = Invocation(command: string, cwd: Path, env: map<string, string>, timeout: Option<string>)

  /** What happened: the process ran (with the successive `readline` results
      of each stream and its return code), the timeout expired, or starting
      or reading raised an exception with the given text. */
  datatype Outcome =
    | Ran(stdoutReads: seq<string>, stderrReads: seq<string>, returncode: Option<int>)
    | TimedOut
    | Raised(message: string)

  type Shell = Invocation -> Outcome

  /** The index of the first empty read (end of stream), or the number of chunks. */
  function EndOfStream(chunks: seq<string>): (k: nat)
    ensures k <= |chunks|
    ensures forall i :: 0 <= i < k ==> chunks[i] != []
    ensures k < |chunks| ==> chunks[k] == []
  {
    if chunks == [] || chunks[0] == [] then 0 else 1 + EndOfStream(chunks[1..])
  }

  /** The lines a stream delivers before its end. */
  function Delivered(chunks: seq<string>): seq<string> {
    chunks[..EndOfStream(chunks)]
  }

  /** `"".join(buffer)` */
  function Concat(parts: seq<string>): string {
    if parts == [] then [] else Concat(parts[..|parts| - 1]) + parts[|parts| - 1]
  }

  function RStripAll(lines: seq<string>): (r: seq<string>)
    ensures |r| == |lines|
    ensures forall i :: 0 <= i < |lines| ==> r[i] == RStrip(lines[i])
  {
    seq(|lines|, i requires 0 <= i < |lines| => RStrip(lines[i]))
  }

  /** `_read_stream`: appends every line up to the end of the stream, in
      order, and hands each one, right-stripped, to the callback if there is
      one. */
  method ReadStream(chunks: seq<string>, hasCallback: bool) returns (buffer: seq<string>, shown: seq<string>)
    ensures buffer == Delivered(chunks)
    ensures forall i :: 0 <= i < |buffer| ==> buffer[i] != []
    ensures shown == if hasCallback then RStripAll(buffer) else []
  {
    buffer := [];
    shown := [];
    var i := 0;
    while i < |chunks| && chunks[i] != []
      invariant 0 <= i <= EndOfStream(chunks)
      invariant buffer == chunks[..i]
      invariant shown == if hasCallback then RStripAll(buffer) else []
    {
      assert chunks[..i + 1] == buffer + [chunks[i]];
      RStripAllSnoc(buffer, chunks[i]);
      buffer := buffer + [chunks[i]];
      if hasCallback {
        shown := shown + [RStrip(chunks[i])];
      }
      i := i + 1;
    }
  }

  lemma RStripAllSnoc(lines: seq<string>, line: string)
    ensures RStripAll(lines + [line]) == RStripAll(lines) + [RStrip(line)]
  {
    assert forall i :: 0 <= i < |lines| ==> (lines + [line])[i] == lines[i];
  }

  /** `os.environ` updated with `env`: keys of `env` win. */
  function RunEnv(ambient: map<string, string>, env: Option<map<string, string>>): (r: map<string, string>)
    ensures env.None? ==> r == ambient
    ensures env.Some? ==> r.Keys == ambient.Keys + env.value.Keys
    ensures env.Some? ==> forall k :: k in env.value ==> r[k] == env.value[k]
    ensures forall k :: k in ambient && (env.None? || k !in env.value) ==> k in r && r[k] == ambient[k]
  {
    if env.None? || env.value == map[] then ambient else ambient + env.value
  }

  function TimeoutText(timeout: Option<string>): string {
    if timeout.None? then "None" else timeout.value
  }

  /** The exit code, stdout and stderr `run_command` reports for an outcome. */
  function Reported(outcome: Outcome, timeout: Option<string>): (int, string, string) {
    match outcome
    case Ran(outs, errs, rc) => (rc.GetOr(0), Concat(Delivered(outs)), Concat(Delivered(errs)))
    case TimedOut => (-1, "", "Command timed out after " + TimeoutText(timeout) + "s")
    case Raised(message) => (-1, "", message)
  }

  /** `run_command`: runs `command` in `cwd` with the merged environment and
      reports the joined output; a timeout or an exception becomes exit
      code -1 with an explanation on stderr, never an exception. */
  method RunCommand(shell: Shell, ambient: map<string, string>, command: string, cwd: Path,
                    env: Option<map<string, string>>, timeout: Option<string>,
                    hasStdoutCallback: bool, hasStderrCallback: bool)
    returns (exitCode: int, stdout: string, stderr: string)
    ensures (exitCode, stdout, stderr) == Reported(shell(Invocation(command, cwd, RunEnv(ambient, env), timeout)), timeout)
    ensures shell(Invocation(command, cwd, RunEnv(ambient, env), timeout)).TimedOut? ==>
              exitCode == -1 && stdout == [] && stderr == "Command timed out after " + TimeoutText(timeout) + "s"
    ensures shell(Invocation(command, cwd, RunEnv(ambient, env), timeout)).Raised? ==>
              exitCode == -1 && stdout == [] &&
              stderr == shell(Invocation(command, cwd, RunEnv(ambient, env), timeout)).message
  {
    var runEnv := RunEnv(ambient, env);
    var outcome := shell(Invocation(command, cwd, runEnv, timeout));
    match outcome {
      case Raised(message) =>
        return -1, "", message;
      case TimedOut =>
        return -1, "", "Command timed out after " + TimeoutText(timeout) + "s";
      case Ran(outs, errs, rc) =>
        var outBuffer, _ := ReadStream(outs, hasStdoutCallback);
        var errBuffer, _ := ReadStream(errs, hasStderrCallback);
        return rc.GetOr(0), Concat(outBuffer), Concat(errBuffer);
    }
  }

  const NameVar: string := "PYMELOS_PACKAGE_NAME"
  const PathVar: string := "PYMELOS_PACKAGE_PATH"
  const VersionVar: string := "PYMELOS_PACKAGE_VERSION"

  /** The caller's variables plus the three package variables. */
  function PackageEnv(env: Option<map<string, string>>, pkg: Package): (r: map<string, string>)
    ensures r.Keys == (if env.None? then {} else env.value.Keys) + {NameVar, PathVar, VersionVar}
    ensures r[NameVar] == pkg.name && r[PathVar] == AbsStr(pkg.path) && r[VersionVar] == pkg.version
    ensures env.Some? ==> forall k :: k in env.value && k !in {NameVar, PathVar, VersionVar} ==> r[k] == env.value[k]
  {
    var base := if env.None? then map[] else env.value;
    base[NameVar := pkg.name][PathVar := AbsStr(pkg.path)][VersionVar := pkg.version]
  }

  /** Exit code 0 is a success; anything else is a failure carrying the code. */
  function Classify(name: string, exitCode: int, stdout: string, stderr: string, command: string): (r: ExecutionResult)
    ensures r.packageName == name && r.exitCode == exitCode && r.command == command
    ensures r.stdout == stdout && r.stderr == stderr
    ensures r.status == Success <==> exitCode == 0
    ensures r.status == Failure <==> exitCode != 0
  {
    if exitCode == 0 then SuccessResult(name, stdout, stderr, command)
    else FailureResult(name, exitCode, stdout, stderr, command)
  }

  /** The invocation `run_in_package` makes: the command in the package
      directory with the package variables added. */
  function PackageInvocation(ambient: map<string, string>, pkg: Package, command: string,
                             env: Option<map<string, string>>, timeout: Option<string>): Invocation {
    Invocation(command, pkg.path, RunEnv(ambient, Some(PackageEnv(env, pkg))), timeout)
  }

  /** What `run_in_package` returns for one package. */
  function PackageResult(shell: Shell, ambient: map<string, string>, pkg: Package, command: string,
                         env: Option<map<string, string>>, timeout: Option<string>): ExecutionResult {
    var (code, out, err) := Reported(shell(PackageInvocation(ambient, pkg, command, env, timeout)), timeout);
    Classify(pkg.name, code, out, err, command)
  }

  /** The result names the package and the command and is never a cancellation. */
  lemma PackageResultSpec(shell: Shell, ambient: map<string, string>, pkg: Package, command: string,
                          env: Option<map<string, string>>, timeout: Option<string>)
    ensures var r := PackageResult(shell, ambient, pkg, command, env, timeout);
            r.packageName == pkg.name && r.command == command && r.status != Cancelled
  {
  }

  /** `run_in_package` */
  method RunInPackage(shell: Shell, ambient: map<string, string>, pkg: Package, command: string,
                      env: Option<map<string, string>>, timeout: Option<string>,
                      hasStdoutCallback: bool, hasStderrCallback: bool)
    returns (r: ExecutionResult)
    ensures r == PackageResult(shell, ambient, pkg, command, env, timeout)
    ensures r.packageName == pkg.name && r.command == command
    ensures r.status != Cancelled
  {
    var runEnv := PackageEnv(env, pkg);
    var code, out, err := RunCommand(shell, ambient, command, pkg.path, Some(runEnv), timeout,
                                     hasStdoutCallback, hasStderrCallback);
    r := Classify(pkg.name, code, out, err, command);
  }

  /** The package variables reach the process with the package's values,
      whatever the ambient environment holds, and the process runs in the
      package directory. */
  lemma PackageInvocationSpec(ambient: map<string, string>, pkg: Package, command: string,
                              env: Option<map<string, string>>, timeout: Option<string>)
    ensures var inv := PackageInvocation(ambient, pkg, command, env, timeout);
            && inv.cwd == pkg.path && inv.command == command
            && inv.env[NameVar] == pkg.name && inv.env[PathVar] == AbsStr(pkg.path)
            && inv.env[VersionVar] == pkg.version
            && (env.Some? ==> forall k :: k in env.value && k !in {NameVar, PathVar, VersionVar} ==>
                  inv.env[k] == env.value[k])
  {
  }
}
