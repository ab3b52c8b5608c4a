/** `Test::run`, `Test::check_pass`, `Test::check_compile_fail` and
    `ExpandedTest::run`: the verdict on one test case. */
module Execute {
  import opened Wrappers
  import opened Paths
  import opened Text
  import opened Types
  import opened Naming

  /** The outside world as one test sees it. Each field answers one kind of
      call the harness makes; the harness only ever reads the answers. */
  datatype World = World(
    pathExists: Path -> bool,                  // Path::exists
    open: Path -> Option<IoError>,             // File::open: the error, if it fails
    buildTest: string -> Result<Output, Error>, // cargo::build_test for a target
    runTest: string -> Result<Output, Error>,   // cargo::run_test for a target
    normalize: seq<byte> -> string,            // normalize::diagnostics
    createDirAll: Path -> Option<IoError>,     // fs::create_dir_all
    write: (Path, string) -> Option<IoError>,  // fs::write
    readToString: Path -> Result<string, IoError>) // fs::read_to_string

  /** The calls of one test that act on the outside world, in order. */
  datatype Effect =
    | BuildTest(target: string)
    | RunTest(target: string)
    | CreateDir(dir: Path)
    | WriteFile(file: Path, contents: string)
    | ReadFile(file: Path)

  /** The verdict on one test and what it did to get there. */
  datatype Step = Step(result: Result<(), Error>, effects: seq<Effect>)

  const WipDir: Path := FromString("wip")
  const FallbackStderrName: Path := FromString("test.stderr")
  const StderrExtension: string := "stderr"

  /** The golden fixture of a test: its path with the extension `stderr`. */
  function StderrPath(t: Test): Path {
    WithExtension(t.path, StderrExtension)
  }

  /** Where a missing fixture is staged: the fixture's file name under `wip/`,
      or `wip/test.stderr` when it has none. */
  function WipPath(t: Test): Path {
    Join(WipDir, FileName(StderrPath(t)).GetOr(FallbackStderrName))
  }

  /** A missing fixture is staged at `wip/<stem>.stderr` when the test path
      has a file stem, and at `wip/test.stderr` when it has none. */
  lemma WipPathShape(t: Test)
    ensures FileStem(t.path).Some? ==> WipPath(t) == Join(WipDir, FileStem(t.path).value + [Dot] + FromString(StderrExtension))
    ensures FileStem(t.path).None? ==> WipPath(t) == Join(WipDir, FallbackStderrName)
  {
    if FileStem(t.path).Some? {
      WithExtensionFileName(t.path, StderrExtension);
    }
  }

  /** `check_exists`: the path exists, or at least opens. */
  function CheckExists(p: Path, w: World): (r: Result<(), Error>)
    ensures r.Ok? <==> w.pathExists(p) || w.open(p).None?
    ensures r.Err? ==> r.error == Open(p, w.open(p).value)
  {
    if w.pathExists(p) then Ok(())
    else match w.open(p)
      case None => Ok(())
      case Some(e) => Err(Open(p, e))
  }

  /** `check_pass`: a test that did not build fails with `CargoFail` and is
      not run; otherwise it is run and passes exactly when the run succeeds. */
  function CheckPass(t: Test, success: bool, w: World): (s: Step)
    ensures !success ==> s == Step(Err(CargoFail), [])
    ensures success ==> s.effects == [RunTest(Name(t))]
    ensures s.result.Ok? <==> success && w.runTest(Name(t)).Ok? && w.runTest(Name(t)).value.success
    ensures success && w.runTest(Name(t)).Err? ==> s.result == Err(w.runTest(Name(t)).error)
    ensures success && w.runTest(Name(t)).Ok? && !w.runTest(Name(t)).value.success ==> s.result == Err(RunFailed)
  {
    if !success then Step(Err(CargoFail), [])
    else
      var name := Name(t);
      match w.runTest(name)
      case Err(e) => Step(Err(e), [RunTest(name)])
      case Ok(output) => Step(if output.success then Ok(()) else Err(RunFailed), [RunTest(name)])
  }

  /** The no-fixture branch of `check_compile_fail`: create `wip/`, then
      write the diagnostics to `wipPath`; the test passes when both succeed. */
  function StageStderr(wipPath: Path, stderr: string, w: World): (s: Step)
    ensures w.createDirAll(WipDir).Some? ==> s == Step(Err(Io(w.createDirAll(WipDir).value)), [CreateDir(WipDir)])
    ensures w.createDirAll(WipDir).None? ==> s.effects == [CreateDir(WipDir), WriteFile(wipPath, stderr)]
    ensures s.result.Ok? <==> w.createDirAll(WipDir).None? && w.write(wipPath, stderr).None?
    ensures w.createDirAll(WipDir).None? && w.write(wipPath, stderr).Some? ==>
      s.result == Err(WriteStderr(w.write(wipPath, stderr).value))
  {
    match w.createDirAll(WipDir)
    case Some(e) => Step(Err(Io(e)), [CreateDir(WipDir)])
    case None =>
      var effects := [CreateDir(WipDir), WriteFile(wipPath, stderr)];
      match w.write(wipPath, stderr)
      case Some(e) => Step(Err(WriteStderr(e)), effects)
      case None => Step(Ok(()), effects)
  }

  /** The fixture branch of `check_compile_fail`: read the fixture and compare
      it, CR LF turned into LF, with the diagnostics. */
  function CompareStderr(stderrPath: Path, stderr: string, w: World): (s: Step)
    ensures s.effects == [ReadFile(stderrPath)]
    ensures w.readToString(stderrPath).Err? ==> s.result == Err(ReadStderr(w.readToString(stderrPath).error))
    ensures w.readToString(stderrPath).Ok? ==>
      var fixture := ReplaceCrlf(w.readToString(stderrPath).value);
      s.result == (if fixture == stderr then Ok(()) else Err(Mismatch))
  {
    match w.readToString(stderrPath)
    case Err(e) => Step(Err(ReadStderr(e)), [ReadFile(stderrPath)])
    case Ok(text) =>
      var expected := ReplaceCrlf(text);
      Step(if expected == stderr then Ok(()) else Err(Mismatch), [ReadFile(stderrPath)])
  }

  /** `check_compile_fail`: a test that built fails with
      `ShouldNotHaveCompiled`. Otherwise, with no fixture the diagnostics are
      staged under `wip/` and the test passes; with a fixture, the test passes
      exactly when the fixture, CR LF turned into LF, equals the diagnostics. */
  function CheckCompileFail(t: Test, success: bool, stderr: string, w: World): (s: Step)
    ensures success ==> s == Step(Err(ShouldNotHaveCompiled), [])
    ensures !success ==>
      s.effects == [CreateDir(WipDir)] || s.effects == [ReadFile(StderrPath(t))]
      || s.effects == [CreateDir(WipDir), WriteFile(WipPath(t), stderr)]
    ensures s.result.Ok? <==>
      && !success
      && (if !w.pathExists(StderrPath(t)) then w.createDirAll(WipDir).None? && w.write(WipPath(t), stderr).None?
          else w.readToString(StderrPath(t)).Ok? && ReplaceCrlf(w.readToString(StderrPath(t)).value) == stderr)
    ensures s.result.Ok? && !w.pathExists(StderrPath(t)) ==> s.effects == [CreateDir(WipDir), WriteFile(WipPath(t), stderr)]
    ensures !success && !w.pathExists(StderrPath(t)) && w.createDirAll(WipDir).Some? ==>
      s.result == Err(Io(w.createDirAll(WipDir).value))
    ensures !success && !w.pathExists(StderrPath(t)) && w.createDirAll(WipDir).None? && w.write(WipPath(t), stderr).Some? ==>
      s.result == Err(WriteStderr(w.write(WipPath(t), stderr).value))
    ensures !success && w.pathExists(StderrPath(t)) && w.readToString(StderrPath(t)).Err? ==>
      s.result == Err(ReadStderr(w.readToString(StderrPath(t)).error))
    ensures (!success && w.pathExists(StderrPath(t)) && w.readToString(StderrPath(t)).Ok? &&
             ReplaceCrlf(w.readToString(StderrPath(t)).value) != stderr) ==> s.result == Err(Mismatch)
  {
    if success then Step(Err(ShouldNotHaveCompiled), [])
    else if !w.pathExists(StderrPath(t)) then StageStderr(WipPath(t), stderr, w)
    else CompareStderr(StderrPath(t), stderr, w)
  }

  /** `Test::run`: check the source exists, build its target, then judge the
      build by the test's expectation. */
  function RunTestCase(t: Test, w: World): (s: Step)
    ensures CheckExists(t.path, w).Err? ==> s == Step(Err(CheckExists(t.path, w).error), [])
    ensures CheckExists(t.path, w).Ok? ==> |s.effects| > 0 && s.effects[0] == BuildTest(Name(t))
    ensures CheckExists(t.path, w).Ok? && w.buildTest(Name(t)).Err? ==>
      s == Step(Err(w.buildTest(Name(t)).error), [BuildTest(Name(t))])
    ensures forall i :: 0 < i < |s.effects| ==> !s.effects[i].BuildTest?
    ensures s.result.Ok? ==> w.buildTest(Name(t)).Ok? && (w.buildTest(Name(t)).value.success <==> t.expected == Pass)
  {
    match CheckExists(t.path, w)
    case Err(e) => Step(Err(e), [])
    case Ok(_) =>
      var name := Name(t);
      match w.buildTest(name)
      case Err(e) => Step(Err(e), [BuildTest(name)])
      case Ok(output) =>
        var stderr := w.normalize(output.stderr);
        var check :=
          match t.expected
          case Pass => CheckPass(t, output.success, w)
          case CompileFail => CheckCompileFail(t, output.success, stderr, w);
        Step(check.result, [BuildTest(name)] + check.effects)
  }

  /** `ExpandedTest::run`: an entry whose expansion failed reports that error
      and touches nothing; any other entry runs its test. */
  function RunExpanded(e: ExpandedTest, w: World): (s: Step)
    ensures e.error.Some? ==> s.result == Err(e.error.value) && s.effects == []
    ensures s.result.Ok? ==> e.error.None? && BuildTest(Name(e.test)) in s.effects
  {
    match e.error
    case None => RunTestCase(e.test, w)
    case Some(error) => Step(Err(error), [])
  }

  /** A pass-expected test that fails to build is reported as `CargoFail` and
      never run; one that builds is run, and passes exactly when the run
      succeeds, failing with `RunFailed` otherwise. */
  lemma PassVerdict(t: Test, w: World)
    requires t.expected == Pass && CheckExists(t.path, w).Ok?
    requires w.buildTest(Name(t)).Ok?
    ensures var built := w.buildTest(Name(t)).value.success;
      !built ==> RunTestCase(t, w) == Step(Err(CargoFail), [BuildTest(Name(t))])
    ensures var built := w.buildTest(Name(t)).value.success;
      var ran := w.runTest(Name(t));
      built && ran.Ok? ==>
        && RunTestCase(t, w).effects == [BuildTest(Name(t)), RunTest(Name(t))]
        && (RunTestCase(t, w).result.Ok? <==> ran.value.success)
        && (!ran.value.success ==> RunTestCase(t, w).result == Err(RunFailed))
  {
  }

  /** A compile-fail test that builds fails with `ShouldNotHaveCompiled`,
      and is never run, whatever running it would have done. */
  lemma CompileFailBuilt(t: Test, w: World)
    requires t.expected == CompileFail && CheckExists(t.path, w).Ok?
    requires w.buildTest(Name(t)).Ok? && w.buildTest(Name(t)).value.success
    ensures RunTestCase(t, w) == Step(Err(ShouldNotHaveCompiled), [BuildTest(Name(t))])
  {
  }

  /** Bootstrap: a compile-fail test that fails to build and has no fixture
      passes, after writing its normalized diagnostics to `wip/`. */
  lemma CompileFailBootstrap(t: Test, w: World)
    requires t.expected == CompileFail && CheckExists(t.path, w).Ok?
    requires w.buildTest(Name(t)).Ok? && !w.buildTest(Name(t)).value.success
    requires !w.pathExists(StderrPath(t))
    requires w.createDirAll(WipDir).None?
    requires w.write(WipPath(t), w.normalize(w.buildTest(Name(t)).value.stderr)).None?
    ensures RunTestCase(t, w).result.Ok?
    ensures RunTestCase(t, w).effects
         == [BuildTest(Name(t)), CreateDir(WipDir), WriteFile(WipPath(t), w.normalize(w.buildTest(Name(t)).value.stderr))]
  {
    var stderr := w.normalize(w.buildTest(Name(t)).value.stderr);
    assert CheckCompileFail(t, false, stderr, w) == Step(Ok(()), [CreateDir(WipDir), WriteFile(WipPath(t), stderr)]);
  }

  /** A compile-fail test that fails to build and has a readable fixture
      passes exactly when the fixture, CR LF turned into LF, equals the
      normalized diagnostics, and fails with `Mismatch` otherwise. */
  lemma CompileFailFixture(t: Test, w: World)
    requires t.expected == CompileFail && CheckExists(t.path, w).Ok?
    requires w.buildTest(Name(t)).Ok? && !w.buildTest(Name(t)).value.success
    requires w.pathExists(StderrPath(t)) && w.readToString(StderrPath(t)).Ok?
    ensures var fixture := ReplaceCrlf(w.readToString(StderrPath(t)).value);
      var stderr := w.normalize(w.buildTest(Name(t)).value.stderr);
      && (RunTestCase(t, w).result.Ok? <==> fixture == stderr)
      && (fixture != stderr ==> RunTestCase(t, w).result == Err(Mismatch))
  {
  }

  /** A fixture holding exactly the normalized diagnostics passes when those
      diagnostics contain no CR LF pair. */
  lemma FixtureRoundTrip(t: Test, w: World)
    requires t.expected == CompileFail && CheckExists(t.path, w).Ok?
    requires w.buildTest(Name(t)).Ok? && !w.buildTest(Name(t)).value.success
    requires w.pathExists(StderrPath(t))
    requires w.readToString(StderrPath(t)) == Ok(w.normalize(w.buildTest(Name(t)).value.stderr))
    requires !HasCrlf(w.normalize(w.buildTest(Name(t)).value.stderr))
    ensures RunTestCase(t, w).result.Ok?
  {
    ReplaceCrlfKeeps(w.normalize(w.buildTest(Name(t)).value.stderr));
  }

  /** Promoting a staged fixture: a first run with no fixture stages the
      normalized diagnostics `text` under `wip/`; a second run that gets the
      same diagnostics and finds `text` as the fixture passes exactly when
      `text` has no CR LF pair. */
  lemma PromotedFixture(t: Test, before: World, after: World)
    requires t.expected == CompileFail
    requires CheckExists(t.path, before).Ok? && CheckExists(t.path, after).Ok?
    requires before.buildTest(Name(t)).Ok? && !before.buildTest(Name(t)).value.success
    requires !before.pathExists(StderrPath(t)) && before.createDirAll(WipDir).None?
    requires after.buildTest(Name(t)).Ok? && !after.buildTest(Name(t)).value.success
    requires var text := before.normalize(before.buildTest(Name(t)).value.stderr);
      && after.normalize(after.buildTest(Name(t)).value.stderr) == text
      && after.pathExists(StderrPath(t))
      && after.readToString(StderrPath(t)) == Ok(text)
    ensures var text := before.normalize(before.buildTest(Name(t)).value.stderr);
      && WriteFile(WipPath(t), text) in RunTestCase(t, before).effects
      && (RunTestCase(t, after).result.Ok? <==> !HasCrlf(text))
  {
    var text := before.normalize(before.buildTest(Name(t)).value.stderr);
    ReplaceCrlfFixpoint(text);
  }
}
