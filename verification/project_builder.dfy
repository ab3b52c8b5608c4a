/** `Runner::prepare`, `Runner::make_manifest` and `Runner::make_config`:
    the synthetic project every test is built in. */
module ProjectBuilder {
  import opened Wrappers
  import opened Paths
  import opened Types
  import opened Naming

  /** Lints passed to rustc as `-A <lint>` for every build. */
  const IgnoredLints: seq<string> := ["dead_code"]

  const MainPath: Path := FromString("main.rs")

  /** Where the harness's environment lookups and file system work land: the
      cargo target directory, `CARGO_PKG_NAME`, `CARGO_MANIFEST_DIR`, and the
      first failure (if any) among serializing the manifest and config,
      writing them and `main.rs`, and prebuilding the dependencies. */
  datatype Environment = Environment(
    targetDir: Result<Path, Error>,
    crateName: Result<string, VarError>,
    manifestDir: Option<Path>,
    setup: Option<Error>)

  /** What a successful preparation produces. */
  datatype Prepared = Prepared(project: Project, manifest: Manifest, config: Config)

  /** The expanded tests whose expansion succeeded, in order. */
  function Resolved(tests: seq<ExpandedTest>): (r: seq<Test>)
    ensures |r| <= |tests|
  {
    if tests == [] then []
    else
      var init := Resolved(tests[..|tests| - 1]);
      var last := tests[|tests| - 1];
      init + (if last.error.None? then [last.test] else [])
  }

  /** Every resolved test comes from an expanded entry without an error. */
  lemma {:induction false} ResolvedProvenance(tests: seq<ExpandedTest>)
    ensures forall t :: t in Resolved(tests) ==> ExpandedTest(t, None) in tests
  {
    if tests != [] {
      var init := tests[..|tests| - 1];
      ResolvedProvenance(init);
      assert forall e :: e in init ==> e in tests;
    }
  }

  /** When no expansion failed, every expanded test is resolved, in order. */
  lemma {:induction false} ResolvedAllOk(tests: seq<ExpandedTest>)
    requires forall i :: 0 <= i < |tests| ==> tests[i].error.None?
    ensures |Resolved(tests)| == |tests|
    ensures forall i :: 0 <= i < |tests| ==> Resolved(tests)[i] == tests[i].test
  {
    if tests != [] {
      var init := tests[..|tests| - 1];
      ResolvedAllOk(init);
      var r, before := Resolved(tests), Resolved(init);
      assert r == before + [tests[|tests| - 1].test];
      forall i | 0 <= i < |init| ensures r[i] == tests[i].test {
        assert r[i] == before[i];
        assert init[i] == tests[i];
      }
    }
  }

  /** The indices of the expanded tests whose expansion succeeded. */
  function ResolvedIndices(tests: seq<ExpandedTest>): set<nat> {
    set i: nat | i < |tests| && tests[i].error.None?
  }

  /** There is one resolved test per expanded test without an error. */
  lemma {:induction false} ResolvedCount(tests: seq<ExpandedTest>)
    ensures |Resolved(tests)| == |ResolvedIndices(tests)|
  {
    if tests != [] {
      var last := |tests| - 1;
      var init := tests[..last];
      ResolvedCount(init);
      var before := ResolvedIndices(init);
      assert forall i :: 0 <= i < last ==> init[i] == tests[i];
      if tests[last].error.None? {
        assert ResolvedIndices(tests) == before + {last};
        assert last !in before;
      } else {
        assert ResolvedIndices(tests) == before;
      }
    }
  }

  /** Resolving one more expanded test appends its test exactly when its expansion succeeded. */
  lemma ResolvedSnoc(tests: seq<ExpandedTest>, i: nat)
    requires i < |tests|
    ensures Resolved(tests[..i + 1]) == Resolved(tests[..i]) + (if tests[i].error.None? then [tests[i].test] else [])
  {
    assert tests[..i + 1][..i] == tests[..i];
  }

  /** An extra dependency with its path, if any, taken relative to the manifest directory. */
  function Rebase(d: Dependency, manifestDir: Path): Dependency {
    d.(path := if d.path.Some? then Some(Join(manifestDir, d.path.value)) else None)
  }

  /** The bin target of a resolved test. */
  function TestBin(t: Test, manifestDir: Path): Bin {
    Bin(Name(t), Join(manifestDir, t.path))
  }

  /** The `[dependencies]` table: the crate under test by path, then every
      extra dependency, rebased, inserted over it. */
  method MakeDependencies(deps: map<string, Dependency>, crateName: string, manifestDir: Path)
    returns (r: map<string, Dependency>)
    ensures r.Keys == deps.Keys + {crateName}
    ensures crateName !in deps ==> r[crateName] == Dependency(None, Some(manifestDir), map[])
    ensures forall k :: k in deps ==>
      && r[k].version == deps[k].version
      && r[k].rest == deps[k].rest
      && r[k].path == (if deps[k].path.None? then None else Some(Join(manifestDir, deps[k].path.value)))
  {
    r := map[crateName := Dependency(None, Some(manifestDir), map[])];
    var todo := deps.Keys;
    while todo != {}
      invariant todo <= deps.Keys
      invariant r.Keys == (deps.Keys - todo) + {crateName}
      invariant crateName !in deps || crateName in todo ==> r[crateName] == Dependency(None, Some(manifestDir), map[])
      invariant forall k :: k in deps && k !in todo ==> r[k] == Rebase(deps[k], manifestDir)
      decreases todo
    {
      var k :| k in todo;
      r := r[k := Rebase(deps[k], manifestDir)];
      todo := todo - {k};
    }
  }

  /** The `[[bin]]` list: the project's own `main.rs`, then one target per
      resolved test in order; tests whose expansion failed get none. */
  method MakeBins(projectName: string, tests: seq<ExpandedTest>, manifestDir: Path) returns (bins: seq<Bin>)
    ensures |bins| == 1 + |Resolved(tests)|
    ensures bins[0] == Bin(projectName, MainPath)
    ensures forall i :: 0 <= i < |Resolved(tests)| ==> bins[i + 1] == TestBin(Resolved(tests)[i], manifestDir)
  {
    bins := [Bin(projectName, MainPath)];
    var i := 0;
    while i < |tests|
      invariant 0 <= i <= |tests|
      invariant |bins| == 1 + |Resolved(tests[..i])|
      invariant bins[0] == Bin(projectName, MainPath)
      invariant forall j :: 0 <= j < |Resolved(tests[..i])| ==> bins[j + 1] == TestBin(Resolved(tests[..i])[j], manifestDir)
    {
      ResolvedSnoc(tests, i);
      ghost var done := Resolved(tests[..i]);
      if tests[i].error.None? {
        bins := bins + [TestBin(tests[i].test, manifestDir)];
        assert Resolved(tests[..i + 1]) == done + [tests[i].test];
      } else {
        assert Resolved(tests[..i + 1]) == done;
      }
      i := i + 1;
    }
    assert tests[..|tests|] == tests;
  }

  /** The manifest `make_manifest` writes for a project: an unpublished
      2018-edition package `0.0.0` named after the project, in its own
      workspace, with the dependencies of `MakeDependencies` and the bins of
      `MakeBins`. */
  predicate ManifestFor(m: Manifest, deps: map<string, Dependency>, crateName: string, projectName: string,
                        tests: seq<ExpandedTest>, dir: Path) {
    && m.package == Package(projectName, "0.0.0", E2018, false)
    && m.workspace == Some(Workspace)
    && m.dependencies.Keys == deps.Keys + {crateName}
    && (crateName !in deps ==> m.dependencies[crateName] == Dependency(None, Some(dir), map[]))
    && (forall k :: k in deps ==> m.dependencies[k] == Rebase(deps[k], dir))
    && |m.bins| == 1 + |Resolved(tests)|
    && m.bins[0] == Bin(projectName, MainPath)
    && (forall i :: 0 <= i < |Resolved(tests)| ==> m.bins[i + 1] == TestBin(Resolved(tests)[i], dir))
  }

  /** `make_manifest`: fails with `ProjectDir` when the manifest directory is
      unknown; otherwise an unpublished 2018-edition package `0.0.0` named after
      the project, in its own workspace, with the dependencies and bins above. */
  method MakeManifest(deps: map<string, Dependency>, crateName: string, project: Project,
                      tests: seq<ExpandedTest>, manifestDir: Option<Path>)
    returns (r: Result<Manifest, Error>)
    ensures manifestDir.None? ==> r == Err(ProjectDir)
    ensures manifestDir.Some? ==> r.Ok?
    ensures r.Ok? ==> ManifestFor(r.value, deps, crateName, project.name, tests, manifestDir.value)
  {
    if manifestDir.None? {
      return Err(ProjectDir);
    }
    var dir := manifestDir.value;
    var dependencies := MakeDependencies(deps, crateName, dir);
    var bins := MakeBins(project.name, tests, dir);
    r := Ok(Manifest(Package(project.name, "0.0.0", E2018, false), dependencies, bins, Some(Workspace)));
  }

  /** `-A <lint>` for each lint, in order. */
  method AllowFlags(lints: seq<string>) returns (flags: seq<string>)
    ensures |flags| == 2 * |lints|
    ensures forall i :: 0 <= i < |lints| ==> flags[2 * i] == "-A" && flags[2 * i + 1] == lints[i]
  {
    flags := [];
    var i := 0;
    while i < |lints|
      invariant 0 <= i <= |lints|
      invariant |flags| == 2 * i
      invariant forall j :: 0 <= j < i ==> flags[2 * j] == "-A" && flags[2 * j + 1] == lints[j]
    {
      flags := flags + ["-A", lints[i]];
      i := i + 1;
    }
  }

  /** `make_config`: the rustflags allow exactly the ignored lints. */
  method MakeConfig() returns (c: Config)
    ensures |c.rustflags| == 2 * |IgnoredLints|
    ensures forall i :: 0 <= i < |IgnoredLints| ==> c.rustflags[2 * i] == "-A" && c.rustflags[2 * i + 1] == IgnoredLints[i]
  {
    var flags := AllowFlags(IgnoredLints);
    c := Config(flags);
  }

  /** The project directory and name for a crate: `<target>/tests/<crate>`,
      named `<crate>-tests`. */
  function ProjectFor(targetDir: Path, crate: string): Project {
    Project(Join(Join(targetDir, FromString("tests")), FromString(crate)), targetDir, crate + "-tests")
  }

  /** The successful part of `prepare`, once every lookup has succeeded. */
  method Assemble(runner: Runner, tests: seq<ExpandedTest>, targetDir: Path, crate: string, manifestDir: Path)
    returns (p: Prepared)
    ensures p.project == ProjectFor(targetDir, crate)
    ensures ManifestFor(p.manifest, runner.deps, crate, p.project.name, tests, manifestDir)
    ensures p.config.rustflags == ["-A", "dead_code"]
  {
    var project := ProjectFor(targetDir, crate);
    var manifest := MakeManifest(runner.deps, crate, project, tests, Some(manifestDir));
    assert ManifestFor(manifest.value, runner.deps, crate, project.name, tests, manifestDir);
    var config := MakeConfig();
    assert config.rustflags == ["-A", "dead_code"] by {
      assert IgnoredLints[0] == "dead_code";
    }
    p := Prepared(project, manifest.value, config);
  }

  /** `prepare`: the target directory, the crate name, the manifest directory
      and the setup work are needed in that order, and the first one missing is
      the error; otherwise the project for the crate, its manifest and config. */
  method Prepare(runner: Runner, tests: seq<ExpandedTest>, env: Environment) returns (r: Result<Prepared, Error>)
    ensures r.Ok? <==> env.targetDir.Ok? && env.crateName.Ok? && env.manifestDir.Some? && env.setup.None?
    ensures env.targetDir.Err? ==> r == Err(env.targetDir.error)
    ensures env.targetDir.Ok? && env.crateName.Err? ==> r == Err(PkgName(env.crateName.error))
    ensures env.targetDir.Ok? && env.crateName.Ok? && env.manifestDir.None? ==> r == Err(ProjectDir)
    ensures env.targetDir.Ok? && env.crateName.Ok? && env.manifestDir.Some? && env.setup.Some? ==>
      r == Err(env.setup.value)
    ensures r.Ok? ==>
      && r.value.project == ProjectFor(env.targetDir.value, env.crateName.value)
      && ManifestFor(r.value.manifest, runner.deps, env.crateName.value, r.value.project.name, tests, env.manifestDir.value)
      && r.value.config.rustflags == ["-A", "dead_code"]
  {
    if env.targetDir.Err? {
      return Err(env.targetDir.error);
    }
    if env.crateName.Err? {
      return Err(PkgName(env.crateName.error));
    }
    if env.manifestDir.None? {
      return Err(ProjectDir);
    }
    var prepared := Assemble(runner, tests, env.targetDir.value, env.crateName.value, env.manifestDir.value);
    if env.setup.Some? {
      return Err(env.setup.value);
    }
    r := Ok(prepared);
  }
}
