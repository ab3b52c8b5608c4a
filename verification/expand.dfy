/** `expand_globs`: turns the declared tests into concrete ones, resolving
    paths that contain `*` with the glob matcher. */
module Expand {
  import opened Wrappers
  import opened Paths
  import opened Types

  /** The glob matcher, which depends on the file system: a pattern either fails
      to parse, or yields the matched entries in order, each a path or an error. */
  type GlobFn = string -> Result<seq<Result<Path, Error>>, Error>

  /** `collect::<Result<Vec<_>>>()`: all paths when every entry is one,
      otherwise the first error. */
  function Collect(entries: seq<Result<Path, Error>>): (r: Result<seq<Path>, Error>)
    ensures r.Ok? <==> forall i :: 0 <= i < |entries| ==> entries[i].Ok?
    ensures r.Ok? ==> |r.value| == |entries| && forall i :: 0 <= i < |entries| ==> entries[i] == Ok(r.value[i])
    ensures r.Err? ==> exists i :: 0 <= i < |entries| && entries[i] == Err(r.error)
                                   && forall j :: 0 <= j < i ==> entries[j].Ok?
  {
    if entries == [] then Ok([])
    else match entries[0]
      case Err(e) => Err(e)
      case Ok(p) =>
        match Collect(entries[1..])
        case Err(e) =>
          var i :| 0 <= i < |entries[1..]| && entries[1..][i] == Err(e)
                   && forall j :: 0 <= j < i ==> entries[1..][j].Ok?;
          assert entries[i + 1] == Err(e);
          Err(e)
        case Ok(ps) => Ok([p] + ps)
  }

  /** The local `glob` helper: parse the pattern, then collect its matches. */
  function GlobPaths(glob: GlobFn, pattern: string): Result<seq<Path>, Error> {
    match glob(pattern)
    case Err(e) => Err(e)
    case Ok(entries) => Collect(entries)
  }

  /** A path that is expanded: valid UTF-8 and containing `*`. */
  predicate IsPattern(p: Path) {
    ToStr(p).Some? && '*' in ToStr(p).value
  }

  /** The entries one declared test expands to. */
  function ExpandOne(t: Test, glob: GlobFn): seq<ExpandedTest> {
    if IsPattern(t.path) then
      match GlobPaths(glob, ToStr(t.path).value)
      case Ok(paths) => seq(|paths|, i requires 0 <= i < |paths| => ExpandedTest(Test(paths[i], t.expected), None))
      case Err(e) => [ExpandedTest(t, Some(e))]
    else [ExpandedTest(t, None)]
  }

  /** A non-pattern path (not UTF-8, or no `*`) is kept as it is; a pattern
      gives one error-free entry per match, in match order, each with the
      declared expectation; a failed glob keeps the declared test once, with
      the error. */
  lemma ExpandOneCases(t: Test, glob: GlobFn)
    ensures !IsPattern(t.path) ==> ExpandOne(t, glob) == [ExpandedTest(t, None)]
    ensures IsPattern(t.path) && GlobPaths(glob, ToStr(t.path).value).Ok? ==>
      var r, paths := ExpandOne(t, glob), GlobPaths(glob, ToStr(t.path).value).value;
      |r| == |paths| && forall i :: 0 <= i < |r| ==> r[i] == ExpandedTest(Test(paths[i], t.expected), None)
    ensures IsPattern(t.path) && GlobPaths(glob, ToStr(t.path).value).Err? ==>
      ExpandOne(t, glob) == [ExpandedTest(t, Some(GlobPaths(glob, ToStr(t.path).value).error))]
  {
  }

  /** Expanding a test followed by others. */
  lemma ExpandGlobsCons(t: Test, rest: seq<Test>, glob: GlobFn)
    ensures ExpandGlobs([t] + rest, glob) == ExpandOne(t, glob) + ExpandGlobs(rest, glob)
  {
    assert ([t] + rest)[0] == t;
    assert ([t] + rest)[1..] == rest;
  }

  /** All declared tests, expanded in declaration order. */
  function ExpandGlobs(tests: seq<Test>, glob: GlobFn): seq<ExpandedTest> {
    if tests == [] then []
    else ExpandOne(tests[0], glob) + ExpandGlobs(tests[1..], glob)
  }

  /** The expectations the declared tests carry. */
  function Expectations(tests: seq<Test>): set<Expected> {
    set t | t in tests :: t.expected
  }

  /** Expansion invents nothing: every entry keeps the expectation of a
      declared test, and an entry carrying an error is a declared pattern test
      kept whole. */
  lemma {:induction false} ExpandGlobsProvenance(tests: seq<Test>, glob: GlobFn)
    ensures forall e :: e in ExpandGlobs(tests, glob) ==> e.test.expected in Expectations(tests)
    ensures forall e :: e in ExpandGlobs(tests, glob) && e.error.Some? ==> e.test in tests && IsPattern(e.test.path)
    decreases |tests|
  {
    if tests != [] {
      var head := ExpandOne(tests[0], glob);
      var rest := ExpandGlobs(tests[1..], glob);
      ExpandGlobsProvenance(tests[1..], glob);
      ExpandOneCases(tests[0], glob);
      assert Expectations(tests[1..]) <= Expectations(tests) by {
        forall t | t in tests[1..] ensures t in tests { }
      }
      assert tests[0] in tests;
      forall e: ExpandedTest | e in head + rest
        ensures e.test.expected in Expectations(tests)
        ensures e.error.Some? ==> e.test in tests && IsPattern(e.test.path)
      {
        if e in rest {
          assert e.error.Some? ==> e.test in tests[1..];
        } else {
          assert e in head;
          assert e.test.expected == tests[0].expected;
          assert e.error.Some? ==> e.test == tests[0] && IsPattern(tests[0].path);
        }
      }
    }
  }

  /** Expansion is compositional: expanding a concatenation is concatenating
      the expansions, so the output keeps the order of the declared tests. */
  lemma {:induction false} ExpandGlobsAppend(a: seq<Test>, b: seq<Test>, glob: GlobFn)
    ensures ExpandGlobs(a + b, glob) == ExpandGlobs(a, glob) + ExpandGlobs(b, glob)
    decreases |a|
  {
    if a == [] {
      assert a + b == b;
    } else {
      assert (a + b)[0] == a[0];
      assert (a + b)[1..] == a[1..] + b;
      ExpandGlobsAppend(a[1..], b, glob);
    }
  }

  /** The entries of the `k`-th declared test sit after those of the tests
      before it and before those of the tests after it. */
  lemma ExpandGlobsSplit(tests: seq<Test>, k: nat, glob: GlobFn)
    requires k < |tests|
    ensures ExpandGlobs(tests, glob)
         == ExpandGlobs(tests[..k], glob) + ExpandOne(tests[k], glob) + ExpandGlobs(tests[k + 1..], glob)
  {
    var pre, post := tests[..k], tests[k + 1..];
    SplitAround(tests, k);
    ExpandGlobsAppend(pre, [tests[k]] + post, glob);
    ExpandGlobsCons(tests[k], post, glob);
    ConcatAssoc(ExpandGlobs(pre, glob), ExpandOne(tests[k], glob), ExpandGlobs(post, glob));
  }

  /** A sequence is what comes before position `k`, the element there, and
      what comes after. */
  lemma SplitAround<T>(s: seq<T>, k: nat)
    requires k < |s|
    ensures s == s[..k] + ([s[k]] + s[k + 1..])
  {
  }

  /** Concatenation is associative. */
  lemma ConcatAssoc<T>(a: seq<T>, b: seq<T>, c: seq<T>)
    ensures a + (b + c) == a + b + c
  {
  }

  /** On declared tests that are not patterns (no `*`, or not valid UTF-8),
      expansion is the identity: one error-free entry per test, in order. */
  lemma {:induction false} ExpandGlobsIdentity(tests: seq<Test>, glob: GlobFn)
    requires forall i :: 0 <= i < |tests| ==> !IsPattern(tests[i].path)
    ensures |ExpandGlobs(tests, glob)| == |tests|
    ensures forall i :: 0 <= i < |tests| ==> ExpandGlobs(tests, glob)[i] == ExpandedTest(tests[i], None)
    decreases |tests|
  {
    if tests != [] {
      ExpandGlobsIdentity(tests[1..], glob);
      ExpandOneCases(tests[0], glob);
      var r := ExpandGlobs(tests, glob);
      assert r == [ExpandedTest(tests[0], None)] + ExpandGlobs(tests[1..], glob);
      forall i | 0 < i < |tests| ensures r[i] == ExpandedTest(tests[i], None) {
        assert tests[1..][i - 1] == tests[i];
      }
    }
  }
}
