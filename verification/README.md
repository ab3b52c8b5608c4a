# trybuild test runner, modelled in Dafny

This project models the decision logic of `src/run.rs` from trybuild. trybuild is a Rust harness that checks two things about test files. Files declared `pass` must build and run. Files declared `compile_fail` must fail to build, and the compiler's diagnostics must match a golden `.stderr` fixture.

The model covers five pieces:

- **Glob expansion** (`Expand`). Declared tests whose path is valid UTF-8 and contains `*` are resolved by a glob matcher, which is a parameter. Every other path passes through unchanged. A failed glob keeps the declared test, with the error attached.
- **The synthetic project** (`ProjectBuilder`). This covers the project name and directory, the manifest's package, the `[dependencies]` table and the `[[bin]]` list, and the `-A <lint>` rustflags of `.cargo/config`.
- **Test names** (`Naming`). A test's name is its file stem, or its whole path when there is no stem, with `-` turned into `_`.
- **The per-test verdict** (`Execute`). This is the existence check, the build, and the pass or compile-fail policy. The compile-fail policy covers bootstrapping a missing fixture into `wip/` and comparing against an existing fixture after CR LF is turned into LF.
- **Aggregation** (`Harness`). Tests run in order, failures are counted, and the run aborts when any test failed.

Everything outside the process is a parameter:

- A `World` record answers `Path::exists`, `File::open`, `cargo::build_test`, `cargo::run_test`, `normalize::diagnostics`, `fs::create_dir_all`, `fs::write` and `fs::read_to_string`.
- An `Environment` record carries the cargo target directory, `CARGO_PKG_NAME` and `CARGO_MANIFEST_DIR`. It also carries the outcome of the serialization, file-system and dependency-build work of `prepare`.

Each test returns a `Step`: its verdict, plus the ordered trace of outside calls it made (build, run, create directory, write file, read file). Statements such as "never run" or "nothing is built" are therefore statements about that trace.

Paths are sequences of units. Each unit is a character or one maximal subpart of an ill-formed UTF-8 sequence (what `to_string_lossy` replaces by one U+FFFD), so a non-UTF-8 path can be represented. The `Paths` module follows Rust's Unix semantics for `file_name`, `file_stem`, `with_extension`, `join`, `to_str` and `to_string_lossy`.

Three details of the code are worth stating plainly:

- Test names only have `-` replaced by `_`, not every other separator (src/run.rs:162).
- Every test whose expansion succeeded gets a bin target, whatever it is expected to do (src/run.rs:129-136).
- A pass test's build diagnostics are only printed, so they are not part of its verdict (src/run.rs:182-197).

Files: `wrappers.dfy`, `paths.dfy`, `text.dfy`, `types.dfy`, `naming.dfy`, `expand.dfy`, `project_builder.dfy`, `execute.dfy`, `harness.dfy`.

## Model

| member | source | states |
|---|---|---|
| Expand.Collect | src/run.rs:249-253 | All paths in order when every glob entry is a path; otherwise the error of the first failing entry, with every entry before it a path |
| Expand.ExpandOne | src/run.rs:257-286 | The entries one declared test expands to; its three cases are stated by `Expand.ExpandOneCases` |
| Expand.ExpandOneCases | src/run.rs:257-285 | A non-pattern path (not UTF-8 or no `*`) gives exactly the input with no error; a pattern gives one error-free entry per match in match order, each with the declared expectation; a failed glob gives the declared test once, with the error |
| Expand.ExpandGlobs | src/run.rs:255-288 | `expand_globs`: every declared test's entries, in declaration order; specified by `Expand.ExpandGlobsProvenance`, `Expand.ExpandGlobsAppend`, `Expand.ExpandGlobsSplit` and `Expand.ExpandGlobsIdentity` |
| Expand.ExpandGlobsProvenance | src/run.rs:255-288 | Expansion invents nothing: every entry's expectation is that of some declared test, and every errored entry is a declared pattern test kept whole |
| Expand.ExpandGlobsAppend | src/run.rs:255-288 | Expanding a concatenation concatenates the expansions, so declaration order is kept |
| Expand.ExpandGlobsSplit | src/run.rs:257-286 | The entries of the k-th test sit after those of earlier tests and before those of later tests |
| Expand.ExpandGlobsIdentity | src/run.rs:258-285 | On input with no pattern paths, expansion is the identity: same length, and entry i is test i with no error |
| Naming.Name | src/run.rs:156-163 | `Test::name`; specified by `Naming.NameShape`, `Naming.NameIdempotent` and `Naming.NameOfSourceFile` |
| Naming.NameShape | src/run.rs:156-163 | The name has no `-` and has the length of the stem (or whole path). It matches that source unit by unit: `-` becomes `_`, an ill-formed UTF-8 subpart becomes U+FFFD, and every other character is kept |
| Naming.NameIdempotent | src/run.rs:162 | Replacing `-` in a name again changes nothing |
| Naming.NameOfSourceFile | src/run.rs:156-163 | For `dir/stem.ext`, the name is `stem` with `-` turned into `_`, whatever the directory and extension |
| Text.ReplaceCharIdempotent | src/run.rs:162 | After replacing a character by a different one, none is left and a second replacement is the identity |
| Text.ReplaceCrlfShrinks | src/run.rs:219-221 | Fixture text that has a CR LF pair gets strictly shorter under line-ending normalization |
| Text.ReplaceCrlfKeeps | src/run.rs:219-221 | Fixture text without a CR LF pair is unchanged by line-ending normalization |
| Text.ReplaceCrlfFixpoint | src/run.rs:219-221 | Line-ending normalization leaves a text unchanged if and only if the text has no CR LF pair |
| Paths.WithExtensionFileName | src/run.rs:206-212 | The fixture path of a path with a stem has file name `<stem>.stderr` |
| Paths.WithExtensionKeepsStem | src/run.rs:206 | Swapping the extension for `stderr` keeps the file stem |
| Paths.FileStemOfFile | src/run.rs:157-159 | `dir/stem.ext` has file name `stem.ext` and file stem `stem` |
| Paths.LossyOfValid | src/run.rs:161 | On a valid UTF-8 path the lossy conversion is the exact text |
| ProjectBuilder.ResolvedCount | src/run.rs:129-136 | The number of resolved tests is the number of expanded tests with no error |
| ProjectBuilder.ResolvedProvenance | src/run.rs:129-136 | Every resolved test comes from an expanded entry that carries no error |
| ProjectBuilder.ResolvedAllOk | src/run.rs:129-136 | When no expansion failed, the resolved tests are exactly the expanded tests, in order |
| ProjectBuilder.MakeDependencies | src/run.rs:105-122 | Keys are the extra dependencies plus the crate. The crate maps to a path dependency on the manifest directory with no version, unless an extra dependency of the same name overrides it. Each extra dependency keeps its version and other fields, and its path, if present, is joined to the manifest directory |
| ProjectBuilder.MakeBins | src/run.rs:124-136 | `bins[0]` is the project-named `main.rs`; then one bin per error-free expanded test, in order, named by `Name` at the manifest-directory path; so the length is 1 + the number of error-free tests |
| ProjectBuilder.MakeManifest | src/run.rs:83-139 | No manifest directory gives `ProjectDir`; otherwise the package is the project name, version 0.0.0, edition 2018, unpublished, with a workspace table, plus the dependencies and bins above |
| ProjectBuilder.AllowFlags | src/run.rs:141-148 | The flags are exactly the pairs `-A`, lint for each lint in order, so there are twice as many flags as lints |
| ProjectBuilder.MakeConfig | src/run.rs:141-152 | The rustflags are `-A` followed by each of the ignored lints (`dead_code`), in order, and their count is twice the number of lints |
| ProjectBuilder.Assemble | src/run.rs:61-76 | The project is `<target>/tests/<crate>` named `<crate>-tests`. The manifest is the full `make_manifest` result for it: the package, the workspace, the dependency table and every bin. The rustflags are `-A dead_code` |
| ProjectBuilder.Prepare | src/run.rs:57-81 | Succeeds if and only if the target directory, crate name, manifest directory and setup work all succeed. Otherwise it returns the first failure in that order: the target-directory error, `PkgName` carrying the environment-variable error, `ProjectDir`, then the setup error. On success the project, the full manifest and the rustflags are those of `Assemble` |
| Execute.WipPathShape | src/run.rs:206-213 | A missing fixture is staged at `wip/<stem>.stderr` when the test path has a file stem, and at `wip/test.stderr` when it has none |
| Execute.CheckExists | src/run.rs:233-241 | `check_exists` succeeds if and only if the path exists or opens; otherwise the error is `Open` with the path and the open error |
| Execute.CheckPass | src/run.rs:182-197 | A failed build gives `CargoFail` and no run. A successful build runs the target exactly once. The test passes if and only if the build and run both succeed. An error from cargo's run is returned as the result, and a run that cargo reports as failed gives `RunFailed` |
| Execute.StageStderr | src/run.rs:207-216 | With no fixture, a failure to create `wip/` is an `Io` error after that one call. Otherwise `wip/` is created and the diagnostics are written to the staged path, and a failed write is a `WriteStderr` error. The test passes exactly when both calls succeed |
| Execute.CompareStderr | src/run.rs:219-229 | With a fixture, the only call is reading it. An unreadable fixture gives `ReadStderr`. A readable one passes when, after CR LF is turned into LF, it equals the diagnostics, and gives `Mismatch` otherwise |
| Execute.CheckCompileFail | src/run.rs:199-230 | A successful build gives `ShouldNotHaveCompiled` with no calls. After a failed build the calls are exactly one of: creating `wip/`; reading the fixture; or creating `wip/` and writing the diagnostics to the staged file. Nothing is built or run. The test passes if and only if the build failed and either there is no fixture and both file-system calls succeed, or the fixture reads and equals the diagnostics after CR LF is turned into LF. The failures are `Io` (creating `wip/`), `WriteStderr` (the write), `ReadStderr` (the read) and `Mismatch` (a fixture that differs) |
| Execute.RunTestCase | src/run.rs:165-180 | A missing source gives its `Open` error with no effects. Otherwise the test's own target is built first and only once, and an error from cargo's build is the result after that one call. A passing test was built, and its build succeeded exactly when it was expected to pass |
| Execute.RunExpanded | src/run.rs:291-300 | An entry carrying an expansion error returns that error with no effects; a passing entry had no error and was built |
| Execute.PassVerdict | src/run.rs:182-197 | For a pass test whose build cargo reports, a failed build gives `CargoFail` without running. When the build succeeds and cargo reports the run, the target is built then run, and the test passes if and only if the run succeeds, failing with `RunFailed` otherwise |
| Execute.CompileFailBuilt | src/run.rs:199-204 | A compile-fail test that builds gives `ShouldNotHaveCompiled` and is never run |
| Execute.CompileFailBootstrap | src/run.rs:206-217 | A compile-fail test with no fixture passes after creating `wip/` and writing the normalized diagnostics to its `wip/` path |
| Execute.CompileFailFixture | src/run.rs:219-229 | With a fixture, a compile-fail test passes if and only if the fixture, after CR LF is turned into LF, equals the diagnostics; otherwise it fails with `Mismatch` |
| Execute.FixtureRoundTrip | src/run.rs:219-229 | A fixture holding exactly the CR LF-free normalized diagnostics passes |
| Execute.PromotedFixture | src/run.rs:206-229 | A run with no fixture stages the diagnostics `text` under `wip/`. A later run that finds `text` as the fixture passes if and only if `text` has no CR LF pair |
| Harness.CountFailures | src/run.rs:35-47 | The failure count is at most the number of tests, and it is zero exactly when every test passed |
| Harness.CountFailuresIsCardinality | src/run.rs:41-46 | The failure count equals the number of tests whose run returned an error |
| Harness.CountFailed | src/run.rs:36-46 | The loop's count is the number of steps whose run returned an error, so at most the number of tests |
| Harness.Run | src/run.rs:24-55 | The run stops before any test exactly when preparation fails. Otherwise every expanded test runs in order, the notice is given exactly when the list is empty, and the run aborts exactly when some test failed |
| Harness.PlainTestsAllResolved | src/run.rs:129-136 | Declared tests without patterns each get a bin target, in declaration order |
| Harness.ScenarioPassing | src/run.rs:165-197 | A pass test that builds and runs successfully gives 0 failures out of 1 |
| Harness.ScenarioBootstrap | src/run.rs:206-216 | A compile-fail test with diagnostics "error: mismatched types" and no fixture stages that text and gives 0 failures out of 1 |
| Harness.ScenarioMismatch | src/run.rs:219-229 | The same test, with a fixture holding different text, gives `Mismatch` and 1 failure out of 1 |

## Left out

- Printing (`message::*`, `banner::*`, `println!`) is left out: it does not affect any verdict.
- `normalize::diagnostics` is an uninterpreted function in `World`. Its source is not part of this model, so nothing is claimed about it being idempotent or deterministic.
- The cargo subprocesses (`cargo::target_dir`, `build_dependencies`, `build_test`, `run_test`) are oracle answers. The `project` argument of the per-test calls is implicit: the oracles stand for this run's project.
- TOML serialization, the writes of `.cargo/config`, `Cargo.toml` and `main.rs`, and the dependency prebuild in `prepare` are collapsed into one optional first error. Their contents are not modelled.
- Each test sees the same `World`. A file written by one test, such as a `wip/` file, is not seen by later tests in the same run. For the same reason, `Harness.Run` runs every test and then counts the failures, which gives what the source's interleaved loop gives.
- The real glob matcher depends on the file system, so it is a parameter (`GlobFn`). Its pattern syntax and match order are not modelled.
- Windows path prefixes and `\` separators are not modelled; paths follow Unix rules. One maximal subpart of an ill-formed UTF-8 sequence is one path unit, which `to_string_lossy` replaces by one U+FFFD. How the bytes of an OS string split into such subparts is not modelled.
- The extra dependencies come from a sorted map in the source. The model inserts them in arbitrary order, which gives the same table because their keys are distinct.
- A panic is modelled as `Report.PrepareFailed` or `Completed.aborted`, not as process termination.
- The crate's `Error` enum and the manifest records (`Dependency`, `Bin`, `Manifest`, `Config`) are defined outside `src/run.rs`, and those files are not part of this model. Their fields are reconstructed from how `src/run.rs` uses them. Errors from other crates are reduced to a message (`IoError`, `Glob`, `Pattern`, `Toml`, `Metadata`), except `std::env::VarError`, which keeps its two cases.
- A test path without a file stem and a test file named `test.*` are both staged at `wip/test.stderr`, so in one run one such staged file can overwrite the other. The model only states the path; it does not track files across tests.
