/** `Runner::run`: expand the declared tests, prepare the project, run every
    test in order and count the failures. */
module Harness {
  import opened Wrappers
  import opened Text
  import opened Types
  import opened Naming
  import opened Expand
  import opened ProjectBuilder
  import opened Execute

  /** How a whole run ends. `PrepareFailed` is the panic before any test runs;
      in `Completed`, `aborted` is the panic reporting `failures` of `total`. */
  datatype Report =
    | PrepareFailed(error: Error)
    | Completed(total: nat, results: seq<Step>, failures: nat, noTestsNotice: bool, aborted: bool)

  /** Every expanded test run on its own, in order. */
  function RunAll(tests: seq<ExpandedTest>, w: World): (r: seq<Step>)
    ensures |r| == |tests|
    ensures forall i :: 0 <= i < |tests| ==> r[i] == RunExpanded(tests[i], w)
  {
    seq(|tests|, i requires 0 <= i < |tests| => RunExpanded(tests[i], w))
  }

  /** The number of failed steps. */
  function CountFailures(steps: seq<Step>): (n: nat)
    ensures n <= |steps|
    ensures n == 0 <==> forall i :: 0 <= i < |steps| ==> steps[i].result.Ok?
  {
    if steps == [] then 0
    else
      var init := steps[..|steps| - 1];
      var n := CountFailures(init);
      assert forall i :: 0 <= i < |init| ==> init[i] == steps[i];
      n + (if steps[|steps| - 1].result.Err? then 1 else 0)
  }

  /** Appending a step adds one to the count exactly when it failed. */
  lemma CountFailuresSnoc(steps: seq<Step>, step: Step)
    ensures CountFailures(steps + [step]) == CountFailures(steps) + (if step.result.Err? then 1 else 0)
  {
    assert (steps + [step])[..|steps|] == steps;
  }

  /** The indices of the failed steps. */
  function FailedIndices(steps: seq<Step>): set<nat> {
    set i: nat | i < |steps| && steps[i].result.Err?
  }

  /** The failure count is the number of steps that failed. */
  lemma {:induction false} CountFailuresIsCardinality(steps: seq<Step>)
    ensures CountFailures(steps) == |FailedIndices(steps)|
  {
    if steps != [] {
      var last := |steps| - 1;
      var init := steps[..last];
      CountFailuresIsCardinality(init);
      var before := FailedIndices(init);
      assert forall i :: 0 <= i < last ==> init[i] == steps[i];
      if steps[last].result.Err? {
        assert FailedIndices(steps) == before + {last};
        assert last !in before;
      } else {
        assert FailedIndices(steps) == before;
      }
    }
  }

  /** The counting in the loop of `Runner::run`: one more failure for every
      test whose run returned an error. */
  method CountFailed(steps: seq<Step>) returns (failures: nat)
    ensures failures == |FailedIndices(steps)|
    ensures failures <= |steps|
  {
    failures := 0;
    var i := 0;
    while i < |steps|
      invariant 0 <= i <= |steps|
      invariant failures == CountFailures(steps[..i])
    {
      assert steps[..i + 1] == steps[..i] + [steps[i]];
      CountFailuresSnoc(steps[..i], steps[i]);
      if steps[i].result.Err? {
        failures := failures + 1;
      }
      i := i + 1;
    }
    assert steps[..i] == steps;
    CountFailuresIsCardinality(steps);
  }

  /** `Runner::run`. A failed preparation stops the run before any test;
      otherwise every expanded test runs, an empty list gets the
      "no tests enabled" notice, and the run aborts exactly when some test failed. */
  method Run(runner: Runner, glob: GlobFn, env: Environment, w: World) returns (report: Report)
    ensures report.PrepareFailed? <==>
      env.targetDir.Err? || env.crateName.Err? || env.manifestDir.None? || env.setup.Some?
    ensures report.Completed? ==>
      var tests := ExpandGlobs(runner.tests, glob);
      && report.total == |tests|
      && report.results == RunAll(tests, w)
      && report.failures == |FailedIndices(report.results)|
      && (report.noTestsNotice <==> tests == [])
      && (report.aborted <==> exists i :: 0 <= i < |report.results| && report.results[i].result.Err?)
    ensures report.Completed? && runner.tests == [] ==> report == Completed(0, [], 0, true, false)
  {
    var tests := ExpandGlobs(runner.tests, glob);
    var prepared := Prepare(runner, tests, env);
    if prepared.Err? {
      return PrepareFailed(prepared.error);
    }
    var results: seq<Step> := [];
    var failures: nat := 0;
    var noTests := tests == [];
    if !noTests {
      // Every test sees the same `World`, so running the tests first and then
      // counting their failures gives what the interleaved loop gives.
      results := RunAll(tests, w);
      failures := CountFailed(results);
    } else {
      assert RunAll(tests, w) == [];
    }
    CountFailuresIsCardinality(results);
    report := Completed(|tests|, results, failures, noTests, failures > 0);
  }

  /** Declared tests without glob patterns each get their own bin target,
      in declaration order. */
  lemma PlainTestsAllResolved(tests: seq<Test>, glob: GlobFn)
    requires forall i :: 0 <= i < |tests| ==> !IsPattern(tests[i].path)
    ensures Resolved(ExpandGlobs(tests, glob)) == tests
  {
    var expanded := ExpandGlobs(tests, glob);
    ExpandGlobsIdentity(tests, glob);
    ResolvedAllOk(expanded);
  }

  /** A pass-expected test that builds and runs successfully: 0 failures of 1. */
  lemma ScenarioPassing(t: Test, w: World)
    requires t.expected == Pass && CheckExists(t.path, w).Ok?
    requires w.buildTest(Name(t)).Ok? && w.buildTest(Name(t)).value.success
    requires w.runTest(Name(t)).Ok? && w.runTest(Name(t)).value.success
    ensures |RunAll([ExpandedTest(t, None)], w)| == 1
    ensures CountFailures(RunAll([ExpandedTest(t, None)], w)) == 0
  {
    PassVerdict(t, w);
  }

  /** A compile-fail test whose build fails with "error: mismatched types" and
      that has no fixture: that text is staged under `wip/`, 0 failures of 1. */
  lemma ScenarioBootstrap(t: Test, w: World)
    requires t.expected == CompileFail && CheckExists(t.path, w).Ok?
    requires w.buildTest(Name(t)).Ok? && !w.buildTest(Name(t)).value.success
    requires w.normalize(w.buildTest(Name(t)).value.stderr) == "error: mismatched types"
    requires !w.pathExists(StderrPath(t)) && w.createDirAll(WipDir).None?
    requires w.write(WipPath(t), "error: mismatched types").None?
    ensures WriteFile(WipPath(t), "error: mismatched types") in RunAll([ExpandedTest(t, None)], w)[0].effects
    ensures CountFailures(RunAll([ExpandedTest(t, None)], w)) == 0
  {
    CompileFailBootstrap(t, w);
  }

  /** The same test with a fixture holding other text: `Mismatch`, 1 failure of 1. */
  lemma ScenarioMismatch(t: Test, w: World, fixture: string)
    requires t.expected == CompileFail && CheckExists(t.path, w).Ok?
    requires w.buildTest(Name(t)).Ok? && !w.buildTest(Name(t)).value.success
    requires w.normalize(w.buildTest(Name(t)).value.stderr) == "error: mismatched types"
    requires w.pathExists(StderrPath(t)) && w.readToString(StderrPath(t)) == Ok(fixture)
    requires !HasCrlf(fixture) && fixture != "error: mismatched types"
    ensures RunAll([ExpandedTest(t, None)], w)[0].result == Err(Mismatch)
    ensures CountFailures(RunAll([ExpandedTest(t, None)], w)) == 1
  {
    ReplaceCrlfKeeps(fixture);
    CompileFailFixture(t, w);
  }
}
