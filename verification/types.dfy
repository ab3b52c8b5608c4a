/** The records the harness works on: declared and expanded tests, the
    crate's error kinds, the synthetic manifest and build configuration, and
    the outputs of the build tool. */
module Types {
  import opened Wrappers
  import opened Paths

  /** What a test case is declared to do. */
  datatype Expected = Pass | CompileFail

  /** A declared test: a source path (or glob pattern) and its expectation. */
  datatype Test = Test(path: Path, expected: Expected)

  /** An `std::io::Error`, reduced to a description. */
  datatype IoError = IoError(description: string)

  /** `std::env::VarError`: the variable is unset, or its value is not
      valid Unicode. */
  datatype VarError = NotPresent | NotUnicode(value: Path)

  /** The crate's `Error` enum. Variants that wrap third-party errors carry
      their message. */
  datatype Error =
    | Cargo(cause: IoError)
    | CargoFail
    | Glob(message: string)
    | Io(cause: IoError)
    | Metadata(message: string)
    | Mismatch
    | Open(file: Path, cause: IoError)
    | Pattern(message: string)
    | PkgName(varError: VarError)
    | ProjectDir
    | ReadStderr(cause: IoError)
    | RunFailed
    | ShouldNotHaveCompiled
    | Toml(message: string)
    | WriteStderr(cause: IoError)

  /** A concrete test after glob expansion, with the error its expansion
      produced (reported when the test's turn comes). */
  datatype ExpandedTest = ExpandedTest(test: Test, error: Option<Error>)

  /** A TOML value, as kept in a dependency's extra fields. */
  datatype TomlValue =
    | TomlString(s: string)
    | TomlInteger(i: int)
    | TomlBoolean(b: bool)
    | TomlArray(items: seq<TomlValue>)

  /** A `[dependencies]` entry: optional version, optional path, and every
      other field kept as written. */
  datatype Dependency = Dependency(version: Option<string>, path: Option<Path>, rest: map<string, TomlValue>)

  datatype Edition = E2018

  datatype Package = Package(name: string, version: string, edition: Edition, publish: bool)

  /** A `[[bin]]` target. */
  datatype Bin = Bin(name: string, path: Path)

  /** The (empty) `[workspace]` table. */
  datatype Workspace = Workspace

  datatype Manifest = Manifest(
    package: Package,
    dependencies: map<string, Dependency>,
    bins: seq<Bin>,
    workspace: Option<Workspace>)

  /** `.cargo/config`: only `build.rustflags` is written. */
  datatype Config = Config(rustflags: seq<string>)

  /** The throwaway project: its directory, the shared target directory and its name. */
  datatype Project = Project(dir: Path, targetDir: Path, name: string)

  /** What the build tool reports for one invocation. */
  datatype Output = Output(success: bool, stdout: seq<byte>, stderr: seq<byte>)

  /** The harness's configuration: declared tests and extra dependencies
      (a sorted map in the source; its keys are distinct either way). */
  datatype Runner = Runner(tests: seq<Test>, deps: map<string, Dependency>)
}
