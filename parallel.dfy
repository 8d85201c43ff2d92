/** The executor that runs one command across packages
    (`pymelos.execution.parallel`), with its fail-fast cancellation flag.
    Units run one after another in input order, which is what the executor
    does with a concurrency of 1; within `ExecuteBatches` each batch is one
    such sequential run. */
module Parallel {
  import opened Wrappers
  import opened Seqs
  import opened Workspaces
  import opened Results
  import opened Runner

  /** The command, extra environment and printed timeout every unit shares. */
  datatype Job = Job(command: string, env: Option<map<string, string>>, timeout: Option<string>)

  /** The executor state threaded through the units: results so far, the
      cancellation flag, and the packages actually handed to the runner. */
  datatype RunState = RunState(results: seq<ExecutionResult>, cancelled: bool, launched: seq<Package>)

  const Fresh: RunState := RunState([], false, [])

  /** One unit (`run_one`): a unit that finds the flag set records a
      cancellation without running; otherwise it runs, and a failure under
      fail-fast sets the flag. */
  function Unit(s: RunState, pkg: Package, failFast: bool, run: Package -> ExecutionResult): RunState {
    if s.cancelled then RunState(s.results + [CancelledResult(pkg.name)], true, s.launched)
    else
      var res := run(pkg);
      RunState(s.results + [res], failFast && Failed(res), s.launched + [pkg])
  }

  /** The units of `pkgs` in order, from a reset executor. */
  function Flat(pkgs: seq<Package>, failFast: bool, run: Package -> ExecutionResult): (s: RunState)
    ensures |s.results| == |pkgs| && |s.launched| <= |pkgs|
  {
    if pkgs == [] then Fresh
    else Unit(Flat(pkgs[..|pkgs| - 1], failFast, run), pkgs[|pkgs| - 1], failFast, run)
  }

  /** Some package before index `i` failed. */
  predicate FailedBefore(pkgs: seq<Package>, run: Package -> ExecutionResult, i: int) {
    exists j :: 0 <= j < i && j < |pkgs| && Failed(run(pkgs[j]))
  }

  lemma FailedBeforeMono(pkgs: seq<Package>, run: Package -> ExecutionResult, i: int, i': int)
    requires i <= i' && FailedBefore(pkgs, run, i)
    ensures FailedBefore(pkgs, run, i')
  {
  }

  /** One result per package, in order: a package is cancelled exactly when
      fail-fast is on and an earlier package failed, and the flag ends up set
      exactly when fail-fast is on and some package failed. */
  lemma {:induction false} FlatSpec(pkgs: seq<Package>, failFast: bool, run: Package -> ExecutionResult)
    ensures forall i :: 0 <= i < |pkgs| ==>
              Flat(pkgs, failFast, run).results[i] ==
                if failFast && FailedBefore(pkgs, run, i) then CancelledResult(pkgs[i].name) else run(pkgs[i])
    ensures Flat(pkgs, failFast, run).cancelled <==> failFast && FailedBefore(pkgs, run, |pkgs|)
    decreases |pkgs|
  {
    if pkgs != [] {
      var init := pkgs[..|pkgs| - 1];
      var last := pkgs[|pkgs| - 1];
      FlatSpec(init, failFast, run);
      var s0 := Flat(init, failFast, run);
      var s := Flat(pkgs, failFast, run);
      assert forall i :: 0 <= i < |init| ==> init[i] == pkgs[i];
      assert forall i :: 0 <= i <= |init| ==> (FailedBefore(init, run, i) <==> FailedBefore(pkgs, run, i));
      if !s0.cancelled && failFast && Failed(run(last)) {
        assert FailedBefore(pkgs, run, |pkgs|) by {
          assert Failed(run(pkgs[|pkgs| - 1]));
        }
      }
      if !s.cancelled {
        assert !FailedBefore(pkgs, run, |pkgs|) || !failFast;
      }
    }
  }

  /** Unit `i` runs: fail-fast is off or nothing before it failed. */
  predicate Runs(pkgs: seq<Package>, failFast: bool, run: Package -> ExecutionResult, i: int) {
    !(failFast && FailedBefore(pkgs, run, i))
  }

  /** The packages launched are a prefix of the input and are exactly the
      units that run. */
  ghost predicate LaunchedPrefix(pkgs: seq<Package>, failFast: bool, run: Package -> ExecutionResult) {
    var l := Flat(pkgs, failFast, run).launched;
    l == pkgs[..|l|] && forall i :: 0 <= i < |pkgs| ==> (i < |l| <==> Runs(pkgs, failFast, run, i))
  }

  /** The packages handed to the runner are exactly those not cancelled;
      they form a prefix of the input. */
  lemma {:induction false} FlatLaunched(pkgs: seq<Package>, failFast: bool, run: Package -> ExecutionResult)
    ensures var l := Flat(pkgs, failFast, run).launched;
            l == pkgs[..|l|] &&
            forall i :: 0 <= i < |pkgs| ==> (i < |l| <==> Runs(pkgs, failFast, run, i))
    decreases |pkgs|
  {
    if pkgs != [] {
      var init := pkgs[..|pkgs| - 1];
      FlatLaunched(init, failFast, run);
      FlatSpec(init, failFast, run);
      if Flat(init, failFast, run).cancelled {
        LaunchedAfterCancel(pkgs, failFast, run);
      } else {
        LaunchedWhileRunning(pkgs, failFast, run);
      }
    }
  }

  /** Once the flag is set, the last unit is not launched. */
  lemma LaunchedAfterCancel(pkgs: seq<Package>, failFast: bool, run: Package -> ExecutionResult)
    requires pkgs != []
    requires LaunchedPrefix(pkgs[..|pkgs| - 1], failFast, run)
    requires Flat(pkgs[..|pkgs| - 1], failFast, run).cancelled
    requires failFast && FailedBefore(pkgs[..|pkgs| - 1], run, |pkgs| - 1)
    ensures LaunchedPrefix(pkgs, failFast, run)
  {
    var init := pkgs[..|pkgs| - 1];
    var l0 := Flat(init, failFast, run).launched;
    var l := Flat(pkgs, failFast, run).launched;
    assert forall i :: 0 <= i < |init| ==> init[i] == pkgs[i];
    assert forall i :: 0 <= i <= |init| ==> (Runs(init, failFast, run, i) <==> Runs(pkgs, failFast, run, i));
    assert l == l0;
    assert pkgs[..|l|] == init[..|l0|];
    assert !Runs(pkgs, failFast, run, |init|);
  }

  /** While the flag is clear, every unit so far was launched, the last one
      too. */
  lemma LaunchedWhileRunning(pkgs: seq<Package>, failFast: bool, run: Package -> ExecutionResult)
    requires pkgs != []
    requires LaunchedPrefix(pkgs[..|pkgs| - 1], failFast, run)
    requires !Flat(pkgs[..|pkgs| - 1], failFast, run).cancelled
    requires !(failFast && FailedBefore(pkgs[..|pkgs| - 1], run, |pkgs| - 1))
    ensures LaunchedPrefix(pkgs, failFast, run)
  {
    var init := pkgs[..|pkgs| - 1];
    var l0 := Flat(init, failFast, run).launched;
    var l := Flat(pkgs, failFast, run).launched;
    assert forall i :: 0 <= i < |init| ==> init[i] == pkgs[i];
    assert forall i :: 0 <= i <= |init| ==> (Runs(init, failFast, run, i) <==> Runs(pkgs, failFast, run, i));
    forall i | 0 <= i < |init| ensures Runs(init, failFast, run, i) {
      if failFast && FailedBefore(init, run, i) {
        FailedBeforeMono(init, run, i, |init|);
      }
    }
    if init != [] {
      assert Runs(init, failFast, run, |init| - 1);
      assert |init| - 1 < |l0|;
    }
    assert l0 == init;
    assert l == pkgs;
    assert Runs(pkgs, failFast, run, |init|);
  }

  /** Without fail-fast every package is launched and every result is the
      runner's, and the flag stays clear. */
  lemma NoFailFastRunsAll(pkgs: seq<Package>, run: Package -> ExecutionResult)
    ensures var s := Flat(pkgs, false, run);
            && |s.results| == |pkgs|
            && (forall i :: 0 <= i < |pkgs| ==> s.results[i] == run(pkgs[i]))
            && !s.cancelled
  {
    FlatSpec(pkgs, false, run);
  }

  /** Under fail-fast, every package after a failing one is cancelled with
      exit code -1 and not launched. */
  lemma FailFastCancelsRest(pkgs: seq<Package>, run: Package -> ExecutionResult, i: nat, j: nat)
    requires i < j < |pkgs|
    requires Failed(Flat(pkgs, true, run).results[i])
    ensures Flat(pkgs, true, run).results[j] == CancelledResult(pkgs[j].name)
    ensures Flat(pkgs, true, run).results[j].status == Cancelled
    ensures Flat(pkgs, true, run).results[j].exitCode == -1
  {
    FlatSpec(pkgs, true, run);
    assert Flat(pkgs, true, run).results[i] == run(pkgs[i]);
    assert FailedBefore(pkgs, run, j);
  }

  /** The cancellation flag after a run is set exactly when fail-fast is on
      and some recorded result is a failure. */
  lemma {:induction false} FlatFlag(pkgs: seq<Package>, failFast: bool, run: Package -> ExecutionResult)
    ensures Flat(pkgs, failFast, run).cancelled <==> failFast && AnyFailure(Flat(pkgs, failFast, run).results)
    decreases |pkgs|
  {
    if pkgs != [] {
      var init := pkgs[..|pkgs| - 1];
      FlatFlag(init, failFast, run);
      var s0 := Flat(init, failFast, run);
      var s := Flat(pkgs, failFast, run);
      assert s.results[..|s0.results|] == s0.results;
      if AnyFailure(s0.results) {
        var j :| 0 <= j < |s0.results| && Failed(s0.results[j]);
        assert Failed(s.results[j]);
      }
      if !s0.cancelled {
        var res := run(pkgs[|pkgs| - 1]);
        assert s.results == s0.results + [res];
        if AnyFailure(s.results) {
          var j :| 0 <= j < |s.results| && Failed(s.results[j]);
          if j < |s0.results| {
            assert Failed(s0.results[j]);
          } else {
            assert Failed(res);
          }
        }
        if Failed(res) {
          assert Failed(s.results[|s0.results|]);
        }
      }
    }
  }

  /** Units run from state `s` onwards. */
  function FlatFrom(s: RunState, pkgs: seq<Package>, failFast: bool, run: Package -> ExecutionResult): (r: RunState)
    ensures |r.results| == |s.results| + |pkgs|
  {
    if pkgs == [] then s
    else Unit(FlatFrom(s, pkgs[..|pkgs| - 1], failFast, run), pkgs[|pkgs| - 1], failFast, run)
  }

  lemma {:induction false} FlatIsFlatFrom(pkgs: seq<Package>, failFast: bool, run: Package -> ExecutionResult)
    ensures Flat(pkgs, failFast, run) == FlatFrom(Fresh, pkgs, failFast, run)
    decreases |pkgs|
  {
    if pkgs != [] {
      FlatIsFlatFrom(pkgs[..|pkgs| - 1], failFast, run);
    }
  }

  lemma {:induction false} FlatFromAppend(s: RunState, xs: seq<Package>, ys: seq<Package>, failFast: bool,
                                          run: Package -> ExecutionResult)
    ensures FlatFrom(s, xs + ys, failFast, run) == FlatFrom(FlatFrom(s, xs, failFast, run), ys, failFast, run)
    decreases |ys|
  {
    if ys == [] {
      assert xs + ys == xs;
    } else {
      var init := ys[..|ys| - 1];
      FlatFromAppend(s, xs, init, failFast, run);
      assert (xs + ys)[..|xs + ys| - 1] == xs + init;
      assert (xs + ys)[|xs + ys| - 1] == ys[|ys| - 1];
    }
  }

  /** The record of a batch none of whose packages is started. */
  function CancelledAll(batch: seq<Package>): (r: seq<ExecutionResult>)
    ensures |r| == |batch|
    ensures forall i :: 0 <= i < |batch| ==> r[i] == CancelledResult(batch[i].name)
  {
    Map(batch, (p: Package) => CancelledResult(p.name))
  }

  /** From a cancelled state every further unit is recorded as cancelled. */
  lemma {:induction false} FlatFromCancelled(s: RunState, pkgs: seq<Package>, failFast: bool,
                                             run: Package -> ExecutionResult)
    requires s.cancelled
    ensures FlatFrom(s, pkgs, failFast, run) == RunState(s.results + CancelledAll(pkgs), true, s.launched)
    decreases |pkgs|
  {
    if pkgs != [] {
      var init := pkgs[..|pkgs| - 1];
      FlatFromCancelled(s, init, failFast, run);
      assert CancelledAll(pkgs) == CancelledAll(init) + [CancelledResult(pkgs[|pkgs| - 1].name)];
    }
  }

  /** From a live state the units append what a fresh run of them records. */
  lemma {:induction false} FlatFromLive(s: RunState, pkgs: seq<Package>, failFast: bool,
                                        run: Package -> ExecutionResult)
    requires !s.cancelled
    ensures var e := Flat(pkgs, failFast, run);
            FlatFrom(s, pkgs, failFast, run) == RunState(s.results + e.results, e.cancelled, s.launched + e.launched)
    decreases |pkgs|
  {
    if pkgs != [] {
      var init := pkgs[..|pkgs| - 1];
      FlatFromLive(s, init, failFast, run);
      var e0 := Flat(init, failFast, run);
      var last := pkgs[|pkgs| - 1];
      if !e0.cancelled {
        var res := run(last);
        assert s.results + e0.results + [res] == s.results + (e0.results + [res]);
        assert s.launched + e0.launched + [last] == s.launched + (e0.launched + [last]);
      } else {
        var res := CancelledResult(last.name);
        assert s.results + e0.results + [res] == s.results + (e0.results + [res]);
      }
    }
  }

  /** One iteration of `execute_batches`: a batch met with the flag set is
      recorded as cancelled; otherwise it is executed from a reset flag, its
      results are appended, and the flag is what `execute` left it or set
      because some result failed under fail-fast. */
  function BatchStep(s: RunState, batch: seq<Package>, failFast: bool, run: Package -> ExecutionResult): RunState {
    if s.cancelled then RunState(s.results + CancelledAll(batch), true, s.launched)
    else
      var e := Flat(batch, failFast, run);
      RunState(s.results + e.results, e.cancelled || (failFast && AnyFailure(e.results)), s.launched + e.launched)
  }

  /** The packages of all batches, in batch order. */
  function Flatten(batches: seq<seq<Package>>): (r: seq<Package>)
    ensures batches == [] ==> r == []
  {
    if batches == [] then [] else Flatten(batches[..|batches| - 1]) + batches[|batches| - 1]
  }

  /** `execute_batches` from a reset flag. */
  function Batches(batches: seq<seq<Package>>, failFast: bool, run: Package -> ExecutionResult): (s: RunState)
    ensures |s.results| == |Flatten(batches)|
  {
    if batches == [] then Fresh
    else BatchStep(Batches(batches[..|batches| - 1], failFast, run), batches[|batches| - 1], failFast, run)
  }

  /** Running batch after batch records exactly what one sequential run over
      all their packages records: the same results in the same order, the same
      packages started and the same final flag. In particular there is one
      result per package, batch by batch. */
  lemma {:induction false} BatchesIsFlat(batches: seq<seq<Package>>, failFast: bool, run: Package -> ExecutionResult)
    ensures Batches(batches, failFast, run) == Flat(Flatten(batches), failFast, run)
    decreases |batches|
  {
    if batches != [] {
      var init := batches[..|batches| - 1];
      var last := batches[|batches| - 1];
      BatchesIsFlat(init, failFast, run);
      var s0 := Batches(init, failFast, run);
      FlatIsFlatFrom(Flatten(batches), failFast, run);
      FlatIsFlatFrom(Flatten(init), failFast, run);
      FlatFromAppend(Fresh, Flatten(init), last, failFast, run);
      if s0.cancelled {
        FlatFromCancelled(s0, last, failFast, run);
      } else {
        FlatFromLive(s0, last, failFast, run);
        FlatFlag(last, failFast, run);
      }
    }
  }

  /** The flag after `execute_batches` is set exactly when fail-fast is on
      and some recorded result is a failure. */
  lemma BatchesFlag(batches: seq<seq<Package>>, failFast: bool, run: Package -> ExecutionResult)
    ensures Batches(batches, failFast, run).cancelled <==> failFast && AnyFailure(Batches(batches, failFast, run).results)
  {
    BatchesIsFlat(batches, failFast, run);
    FlatFlag(Flatten(batches), failFast, run);
  }

  /** Under fail-fast, once a failure is recorded, every package of the next
      batch is recorded as cancelled with exit code -1 and none is started. */
  lemma FailedBatchCancelsNext(batches: seq<seq<Package>>, run: Package -> ExecutionResult, j: nat)
    requires j < |batches|
    requires AnyFailure(Batches(batches[..j], true, run).results)
    ensures var before := Batches(batches[..j], true, run);
            var after := Batches(batches[..j + 1], true, run);
            && after.results == before.results + CancelledAll(batches[j])
            && after.launched == before.launched
            && after.cancelled
  {
    BatchesFlag(batches[..j], true, run);
    assert batches[..j + 1][..j] == batches[..j];
  }

  /** The results so far are a prefix of the final results. */
  lemma {:induction false} BatchesPrefix(batches: seq<seq<Package>>, failFast: bool, run: Package -> ExecutionResult, k: nat)
    requires k <= |batches|
    ensures var r := Batches(batches, failFast, run).results;
            var p := Batches(batches[..k], failFast, run).results;
            |p| <= |r| && r[..|p|] == p
    decreases |batches| - k
  {
    if k < |batches| {
      var init := batches[..|batches| - 1];
      BatchesPrefix(init, failFast, run, k);
      assert init[..k] == batches[..k];
    } else {
      assert batches[..k] == batches;
    }
  }

  /** Without fail-fast, batch after batch, every package's result is the
      runner's own, in the order of the flattened batches. */
  lemma BatchesNoFailFast(batches: seq<seq<Package>>, run: Package -> ExecutionResult)
    ensures var s := Batches(batches, false, run);
            && |s.results| == |Flatten(batches)|
            && (forall i :: 0 <= i < |s.results| ==> s.results[i] == run(Flatten(batches)[i]))
            && !s.cancelled
  {
    BatchesIsFlat(batches, false, run);
    NoFailFastRunsAll(Flatten(batches), run);
  }

  /** What `run_in_package` returns for `pkg` under the job. */
  function JobRun(shell: Shell, ambient: map<string, string>, job: Job): Package -> ExecutionResult {
    (p: Package) => PackageResult(shell, ambient, p, job.command, job.env, job.timeout)
  }

  /** `run` gives on `p` what `run_in_package` gives under the job. */
  ghost predicate Matches(run: Package -> ExecutionResult, shell: Shell, ambient: map<string, string>, job: Job,
                          p: Package)
  {
    run(p) == PackageResult(shell, ambient, p, job.command, job.env, job.timeout)
  }

  /** `ParallelExecutor`, run with one unit at a time. `launched` records,
      over the executor's life, the packages handed to `run_in_package`. */
  class ParallelExecutor {
    const concurrency: int
    const failFast: bool
    var cancelled: bool
    ghost var launched: seq<Package>

    /** The requested concurrency, clamped to at least 1. */
    constructor (concurrency: int, failFast: bool)
      ensures this.concurrency == (if concurrency < 1 then 1 else concurrency)
      ensures this.concurrency >= 1
      ensures this.failFast == failFast && !cancelled && launched == []
    {
      this.concurrency := if concurrency < 1 then 1 else concurrency;
      this.failFast := failFast;
      cancelled := false;
      launched := [];
    }

    /** `execute`: the flag is reset first, so its value before the call
        plays no part in the outcome. */
    method Execute(pkgs: seq<Package>, job: Job, shell: Shell, ambient: map<string, string>, hasHandler: bool)
      returns (r: BatchResult)
      modifies this
      ensures r.results == Flat(pkgs, failFast, JobRun(shell, ambient, job)).results
      ensures cancelled == Flat(pkgs, failFast, JobRun(shell, ambient, job)).cancelled
      ensures launched == old(launched) + Flat(pkgs, failFast, JobRun(shell, ambient, job)).launched
    {
      cancelled := false;
      var results := RunUnits(pkgs, job, shell, ambient, hasHandler, JobRun(shell, ambient, job));
      r := BatchResult(results);
    }

    /** The loop of `execute` over a reset flag, with `run` standing for the
        package runner. */
    method RunUnits(pkgs: seq<Package>, job: Job, shell: Shell, ambient: map<string, string>, hasHandler: bool,
                    ghost run: Package -> ExecutionResult)
      returns (results: seq<ExecutionResult>)
      requires !cancelled
      requires forall p :: Matches(run, shell, ambient, job, p)
      modifies this
      ensures results == Flat(pkgs, failFast, run).results
      ensures cancelled == Flat(pkgs, failFast, run).cancelled
      ensures launched == old(launched) + Flat(pkgs, failFast, run).launched
    {
      ghost var start := launched;
      results := [];
      var i := 0;
      while i < |pkgs|
        invariant 0 <= i <= |pkgs|
        invariant results == Flat(pkgs[..i], failFast, run).results
        invariant cancelled == Flat(pkgs[..i], failFast, run).cancelled
        invariant launched == start + Flat(pkgs[..i], failFast, run).launched
      {
        assert pkgs[..i + 1][..i] == pkgs[..i];
        results := RunUnit(pkgs[i], job, shell, ambient, hasHandler, run, Flat(pkgs[..i], failFast, run), results, start);
        i := i + 1;
      }
      assert pkgs[..i] == pkgs;
    }

    /** `run_one` for one package, from the state recorded so far. */
    method RunUnit(pkg: Package, job: Job, shell: Shell, ambient: map<string, string>, hasHandler: bool,
                   ghost run: Package -> ExecutionResult, ghost done: RunState, results: seq<ExecutionResult>, ghost start: seq<Package>)
      returns (results': seq<ExecutionResult>)
      requires Matches(run, shell, ambient, job, pkg)
      requires results == done.results && cancelled == done.cancelled && launched == start + done.launched
      modifies this
      ensures var next := Unit(done, pkg, failFast, run);
              results' == next.results && cancelled == next.cancelled && launched == start + next.launched
    {
      var res: ExecutionResult;
      if cancelled {
        res := CancelledResult(pkg.name);
      } else {
        res := RunInPackage(shell, ambient, pkg, job.command, job.env, job.timeout, hasHandler, hasHandler);
        launched := launched + [pkg];
        if failFast && Failed(res) {
          cancelled := true;
        }
      }
      results' := results + [res];
    }

    /** `execute_batches` */
    method ExecuteBatches(batches: seq<seq<Package>>, job: Job, shell: Shell, ambient: map<string, string>,
                          hasHandler: bool)
      returns (r: BatchResult)
      modifies this
      ensures r.results == Batches(batches, failFast, JobRun(shell, ambient, job)).results
      ensures cancelled == Batches(batches, failFast, JobRun(shell, ambient, job)).cancelled
      ensures launched == old(launched) + Batches(batches, failFast, JobRun(shell, ambient, job)).launched
    {
      ghost var run := JobRun(shell, ambient, job);
      assert forall p :: Matches(run, shell, ambient, job, p);
      ghost var start := launched;
      cancelled := false;
      var all: seq<ExecutionResult> := [];
      var b := 0;
      while b < |batches|
        invariant 0 <= b <= |batches|
        invariant all == Batches(batches[..b], failFast, run).results
        invariant cancelled == Batches(batches[..b], failFast, run).cancelled
        invariant launched == start + Batches(batches[..b], failFast, run).launched
      {
        all := RunBatch(batches[b], job, shell, ambient, hasHandler, run, Batches(batches[..b], failFast, run), all, start);
        assert batches[..b + 1][..b] == batches[..b];
        b := b + 1;
      }
      assert batches[..b] == batches;
      r := BatchResult(all);
    }

    /** One iteration of the batch loop, from the state recorded so far. A
        batch on a clear flag goes to `execute`, whose reset of the flag
        changes nothing here, so its loop runs directly. */
    method RunBatch(batch: seq<Package>, job: Job, shell: Shell, ambient: map<string, string>, hasHandler: bool,
                    ghost run: Package -> ExecutionResult, ghost done: RunState, all: seq<ExecutionResult>,
                    ghost start: seq<Package>)
      returns (all': seq<ExecutionResult>)
      requires forall p :: Matches(run, shell, ambient, job, p)
      requires all == done.results && cancelled == done.cancelled && launched == start + done.launched
      modifies this
      ensures var next := BatchStep(done, batch, failFast, run);
              all' == next.results && cancelled == next.cancelled && launched == start + next.launched
    {
      if cancelled {
        var rs := RecordCancelled(batch);
        all' := all + rs;
      } else {
        var results := RunUnits(batch, job, shell, ambient, hasHandler, run);
        ghost var e := Flat(batch, failFast, run);
        assert launched == start + (done.launched + e.launched);
        all' := all + results;
        if failFast && AnyFailure(results) {
          cancelled := true;
        }
      }
    }

    /** The loop that records every package of a batch as cancelled. */
    static method RecordCancelled(batch: seq<Package>) returns (rs: seq<ExecutionResult>)
      ensures rs == CancelledAll(batch)
    {
      rs := [];
      var k := 0;
      while k < |batch|
        invariant 0 <= k <= |batch|
        invariant rs == CancelledAll(batch[..k])
      {
        rs := rs + [CancelledResult(batch[k].name)];
        k := k + 1;
      }
      assert batch[..k] == batch;
    }

    /** `cancel` */
    method Cancel()
      modifies this
      ensures cancelled && launched == old(launched)
    {
      cancelled := true;
    }
  }
}
