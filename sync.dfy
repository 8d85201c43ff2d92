/** The `uv` wrappers of `pymelos.uv.sync`: each builds an argument list and
    hands it to `run_uv`, which is the outside world here. */
module UvSync {
  import opened Wrappers
  import opened Seqs
  import opened Paths

  /** `run_uv(args, cwd=cwd, check=False)`: exit code, stdout, stderr. */
  type Uv = (seq<string>, Path) -> (int, string, string)

  datatype SyncFlags = SyncFlags(frozen: bool, locked: bool, allExtras: bool, dev: bool, allPackages: bool)

  /** The keyword defaults of `sync`. */
  const DefaultSync: SyncFlags := SyncFlags(false, true, false, true, true)

  /** A word present only when asked for. */
  function Opt(b: bool, w: string): (r: seq<string>)
    ensures w in r <==> b
    ensures |r| <= 1 && forall x :: x in r ==> x == w
  {
    if b then [w] else []
  }

  /** The sync command line: `sync`, then each option its flag asks for, in
      a fixed order. */
  function SyncArgList(flags: SyncFlags): seq<string> {
    ["sync"]
    + Opt(flags.frozen, "--frozen")
    + Opt(flags.locked, "--locked")
    + Opt(flags.allExtras, "--all-extras")
    + Opt(flags.allPackages, "--all-packages")
    + Opt(!flags.dev, "--no-dev")
  }

  /** The command line starts with `sync` and holds each option exactly
      when its flag asks for it. */
  lemma SyncArgListMembers(flags: SyncFlags)
    ensures var args := SyncArgList(flags);
            && |args| >= 1 && args[0] == "sync"
            && ("--frozen" in args <==> flags.frozen)
            && ("--locked" in args <==> flags.locked)
            && ("--all-extras" in args <==> flags.allExtras)
            && ("--all-packages" in args <==> flags.allPackages)
            && ("--no-dev" in args <==> !flags.dev)
  {
    WordsDistinct();
    var args := SyncArgList(flags);
    var o1, o2, o3 := Opt(flags.frozen, "--frozen"), Opt(flags.locked, "--locked"), Opt(flags.allExtras, "--all-extras");
    var o4, o5 := Opt(flags.allPackages, "--all-packages"), Opt(!flags.dev, "--no-dev");
    assert args == ["sync"] + o1 + o2 + o3 + o4 + o5;
    assert forall x :: x in args <==> x == "sync" || x in o1 || x in o2 || x in o3 || x in o4 || x in o5;
  }

  /** No word of the command line is repeated. */
  lemma SyncArgListNoDup(flags: SyncFlags)
    ensures NoDup(SyncArgList(flags))
  {
    WordsDistinct();
    var a1 := ["sync"];
    var a2 := a1 + Opt(flags.frozen, "--frozen");
    var a3 := a2 + Opt(flags.locked, "--locked");
    var a4 := a3 + Opt(flags.allExtras, "--all-extras");
    var a5 := a4 + Opt(flags.allPackages, "--all-packages");
    var a6 := a5 + Opt(!flags.dev, "--no-dev");
    assert a6 == SyncArgList(flags);
    NoDupAppend(a1, Opt(flags.frozen, "--frozen"));
    NoDupAppend(a2, Opt(flags.locked, "--locked"));
    NoDupAppend(a3, Opt(flags.allExtras, "--all-extras"));
    NoDupAppend(a4, Opt(flags.allPackages, "--all-packages"));
    NoDupAppend(a5, Opt(!flags.dev, "--no-dev"));
  }

  /** The six words are pairwise different. */
  lemma WordsDistinct()
    ensures "sync" != "--frozen" && "sync" != "--locked" && "sync" != "--all-extras"
    ensures "sync" != "--all-packages" && "sync" != "--no-dev"
    ensures "--frozen" != "--locked" && "--frozen" != "--all-extras"
    ensures "--frozen" != "--all-packages" && "--frozen" != "--no-dev"
    ensures "--locked" != "--all-extras" && "--locked" != "--all-packages" && "--locked" != "--no-dev"
    ensures "--all-extras" != "--all-packages" && "--all-extras" != "--no-dev"
    ensures "--all-packages" != "--no-dev"
  {
    assert "sync"[0] == 's' && "--frozen"[0] == '-';
    assert |"--frozen"| == 8 && |"--locked"| == 8 && |"--no-dev"| == 8;
    assert |"--all-extras"| == 12 && |"--all-packages"| == 14 && |"sync"| == 4;
    assert "--frozen"[2] == 'f' && "--locked"[2] == 'l' && "--no-dev"[2] == 'n';
  }

  /** Appending at most one word that is not already there repeats nothing. */
  lemma NoDupAppend(a: seq<string>, b: seq<string>)
    requires NoDup(a) && |b| <= 1
    requires forall x :: x in b ==> x !in a
    ensures NoDup(a + b)
  {
    if |b| == 1 {
      assert b[0] in b;
      forall i, j | 0 <= i < j < |a + b|
        ensures (a + b)[i] != (a + b)[j]
      {
        if j == |a| {
          assert (a + b)[i] == a[i];
        }
      }
    } else {
      assert a + b == a;
    }
  }

  /** The argument list `sync` and `sync_async` build by conditional appends. */
  method SyncArgs(flags: SyncFlags) returns (args: seq<string>)
    ensures args == SyncArgList(flags)
  {
    args := ["sync"];
    if flags.frozen {
      args := args + ["--frozen"];
    }
    assert args == ["sync"] + Opt(flags.frozen, "--frozen");
    ghost var done := args;
    if flags.locked {
      args := args + ["--locked"];
    }
    assert args == done + Opt(flags.locked, "--locked");
    done := args;
    if flags.allExtras {
      args := args + ["--all-extras"];
    }
    assert args == done + Opt(flags.allExtras, "--all-extras");
    done := args;
    if flags.allPackages {
      args := args + ["--all-packages"];
    }
    assert args == done + Opt(flags.allPackages, "--all-packages");
    done := args;
    if !flags.dev {
      args := args + ["--no-dev"];
    }
    assert args == done + Opt(!flags.dev, "--no-dev");
  }

  /** `sync` (and `sync_async`, which builds the same list): the exit code
      and output of `uv` are returned unchanged. */
  method Sync(uv: Uv, cwd: Path, flags: SyncFlags) returns (exitCode: int, stdout: string, stderr: string)
    ensures (exitCode, stdout, stderr) == uv(SyncArgList(flags), cwd)
  {
    var args := SyncArgs(flags);
    var res := uv(args, cwd);
    exitCode, stdout, stderr := res.0, res.1, res.2;
  }

  /** `lock` */
  method Lock(uv: Uv, cwd: Path) returns (exitCode: int, stdout: string, stderr: string)
    ensures (exitCode, stdout, stderr) == uv(["lock"], cwd)
  {
    var res := uv(["lock"], cwd);
    exitCode, stdout, stderr := res.0, res.1, res.2;
  }

  /** The argument list of `add_dependency`: `add`, the package, `--dev`
      when asked, then one `--extra` pair per extra, in order. */
  method AddArgs(package: string, dev: bool, extras: Option<seq<string>>) returns (args: seq<string>)
    ensures var n := if extras.None? then 0 else |extras.value|;
            var base := if dev then 3 else 2;
            && |args| == base + 2 * n
            && args[..2] == ["add", package]
            && (dev ==> args[2] == "--dev")
            && (forall i :: 0 <= i < n ==> args[base + 2 * i] == "--extra" && args[base + 2 * i + 1] == extras.value[i])
  {
    args := ["add", package];
    if dev {
      args := args + ["--dev"];
    }
    var base := |args|;
    if extras.Some? {
      var es := extras.value;
      var i := 0;
      while i < |es|
        invariant 0 <= i <= |es|
        invariant |args| == base + 2 * i
        invariant args[..2] == ["add", package]
        invariant dev ==> args[2] == "--dev"
        invariant forall j :: 0 <= j < i ==> args[base + 2 * j] == "--extra" && args[base + 2 * j + 1] == es[j]
      {
        args := args + ["--extra", es[i]];
        i := i + 1;
      }
    }
  }

  /** `add_dependency`: `uv` is run on the list `AddArgs` builds. */
  method AddDependency(uv: Uv, cwd: Path, package: string, dev: bool, extras: Option<seq<string>>)
    returns (exitCode: int, stdout: string, stderr: string, ghost args: seq<string>)
    ensures var n := if extras.None? then 0 else |extras.value|;
            var base := if dev then 3 else 2;
            && |args| == base + 2 * n
            && args[..2] == ["add", package]
            && (dev ==> args[2] == "--dev")
            && (forall i :: 0 <= i < n ==> args[base + 2 * i] == "--extra" && args[base + 2 * i + 1] == extras.value[i])
    ensures (exitCode, stdout, stderr) == uv(args, cwd)
  {
    var a := AddArgs(package, dev, extras);
    args := a;
    var res := uv(a, cwd);
    exitCode, stdout, stderr := res.0, res.1, res.2;
  }

  /** The argument list of `remove_dependency`. */
  method RemoveArgs(package: string, dev: bool) returns (args: seq<string>)
    ensures |args| == if dev then 3 else 2
    ensures args[..2] == ["remove", package]
    ensures dev ==> args[2] == "--dev"
  {
    args := ["remove", package];
    if dev {
      args := args + ["--dev"];
    }
  }

  /** `remove_dependency` */
  method RemoveDependency(uv: Uv, cwd: Path, package: string, dev: bool)
    returns (exitCode: int, stdout: string, stderr: string)
    ensures (exitCode, stdout, stderr) == uv(["remove", package] + (if dev then ["--dev"] else []), cwd)
  {
    var args := RemoveArgs(package, dev);
    assert args == ["remove", package] + (if dev then ["--dev"] else []);
    var res := uv(args, cwd);
    exitCode, stdout, stderr := res.0, res.1, res.2;
  }
}
