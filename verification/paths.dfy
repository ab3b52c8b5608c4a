/** The part of Rust's `std::path` the harness relies on, with Unix semantics:
    `file_name`, `file_stem`, `with_extension`, `join`, `to_str` and
    `to_string_lossy`. */
module Paths {
  import opened Wrappers

  /** A byte of an OS string or of a process's output. */
  newtype byte = b: int | 0 <= b < 256

  /** One unit of an OS path: a Unicode scalar value, or one maximal subpart
      of an ill-formed UTF-8 sequence (what `to_string_lossy` replaces by one
      U+FFFD). */
  datatype PathUnit = Char(c: char) | Invalid(bytes: seq<byte>)

  type Path = seq<PathUnit>

  const Slash: PathUnit := Char('/')
  const Dot: PathUnit := Char('.')
  const ReplacementChar: char := '\U{FFFD}'

  /** The path whose text is `s`. */
  function FromString(s: string): (p: Path)
    ensures |p| == |s|
    ensures forall i :: 0 <= i < |s| ==> p[i] == Char(s[i])
  {
    seq(|s|, i requires 0 <= i < |s| => Char(s[i]))
  }

  /** Whether every unit of the path is a character (the path is valid UTF-8). */
  predicate IsUtf8(p: Path) {
    forall i :: 0 <= i < |p| ==> p[i].Char?
  }

  /** `Path::to_str`: the text of the path, when the path is valid UTF-8. */
  function ToStr(p: Path): (r: Option<string>)
    ensures r.Some? <==> IsUtf8(p)
    ensures r.Some? ==> FromString(r.value) == p
  {
    if IsUtf8(p) then Some(seq(|p|, i requires 0 <= i < |p| && IsUtf8(p) => p[i].c)) else None
  }

  /** `to_string_lossy`: each unit that is a maximal ill-formed subpart becomes
      one U+FFFD; characters stay. */
  function Lossy(p: Path): (s: string)
    ensures |s| == |p|
    ensures forall i :: 0 <= i < |p| ==> s[i] == (if p[i].Char? then p[i].c else ReplacementChar)
  {
    seq(|p|, i requires 0 <= i < |p| => if p[i].Char? then p[i].c else ReplacementChar)
  }

  /** On a valid UTF-8 path the lossy rendering is the exact text. */
  lemma LossyOfValid(p: Path)
    requires ToStr(p).Some?
    ensures Lossy(p) == ToStr(p).value
  {
    var s := ToStr(p).value;
    assert FromString(s) == p;
  }

  /** Position of the last `u` in `s`, or -1 when there is none. */
  function LastIndexOf(s: Path, u: PathUnit): (k: int)
    ensures -1 <= k < |s|
    ensures k >= 0 ==> s[k] == u
    ensures forall i :: k < i < |s| ==> s[i] != u
  {
    if s == [] then -1
    else if s[|s| - 1] == u then |s| - 1
    else LastIndexOf(s[..|s| - 1], u)
  }

  /** Drops what `Path::components` skips at the end of a path: trailing
      separators and trailing `/.` components. */
  function TrimEnd(p: Path): (t: Path)
    ensures t <= p
    ensures t == [] || t[|t| - 1] != Slash
    decreases |p|
  {
    if |p| > 0 && p[|p| - 1] == Slash then TrimEnd(p[..|p| - 1])
    else if |p| >= 2 && p[|p| - 1] == Dot && p[|p| - 2] == Slash then TrimEnd(p[..|p| - 1])
    else p
  }

  /** Index where the last component of the trimmed path starts. */
  function NameStart(t: Path): (k: nat)
    ensures k <= |t|
    ensures k > 0 ==> t[k - 1] == Slash
    ensures Slash !in t[k..]
  {
    var k := LastIndexOf(t, Slash) + 1;
    assert forall i :: 0 <= i < |t[k..]| ==> t[k..][i] == t[k + i];
    k
  }

  /** `Path::file_name`: the last component, unless it is the root, `.` or `..`. */
  function FileName(p: Path): (r: Option<Path>)
    ensures r.Some? ==> r.value != [] && Slash !in r.value
    ensures r.Some? ==> r.value != [Dot] && r.value != [Dot, Dot]
  {
    var t := TrimEnd(p);
    var name := t[NameStart(t)..];
    if name == [] || name == [Dot] || name == [Dot, Dot] then None else Some(name)
  }

  /** `Path::file_stem`: the file name up to its last `.`, except that a name
      whose only `.` is its first character is kept whole. */
  function FileStem(p: Path): (r: Option<Path>)
    ensures r.Some? <==> FileName(p).Some?
    ensures r.Some? ==> r.value != [] && r.value <= FileName(p).value
  {
    match FileName(p)
    case None => None
    case Some(name) =>
      var i := LastIndexOf(name, Dot);
      if i <= 0 then Some(name) else Some(name[..i])
  }

  /** The suffix `.ext`, or nothing for an empty extension. */
  function Extension(ext: string): Path {
    if ext == [] then [] else [Dot] + FromString(ext)
  }

  /** `Path::with_extension`: the path cut right after its file stem (so the
      directory part followed by the stem), then `.ext` (nothing when `ext` is
      empty); a path without a stem is kept. */
  function WithExtension(p: Path, ext: string): (r: Path)
    ensures FileStem(p).None? ==> r == p
  {
    match FileStem(p)
    case None => p
    case Some(stem) =>
      var t := TrimEnd(p);
      t[..NameStart(t)] + stem + Extension(ext)
  }

  /** `PathBuf::join`: an absolute `p` replaces `base`; otherwise a separator
      is put between them unless `base` is empty or already ends in one. */
  function Join(base: Path, p: Path): (r: Path)
    ensures |p| > 0 && p[0] == Slash ==> r == p
    ensures !(|p| > 0 && p[0] == Slash) ==> base <= r && |r| - |p| in {|base|, |base| + 1} && r[|r| - |p|..] == p
  {
    if |p| > 0 && p[0] == Slash then p
    else if |base| > 0 && base[|base| - 1] != Slash then base + [Slash] + p
    else base + p
  }

  /** Last index of `u` in a concatenation whose right part lacks `u`. */
  lemma LastIndexOfPrefix(a: Path, b: Path, u: PathUnit)
    requires u !in b
    ensures LastIndexOf(a + b, u) == LastIndexOf(a, u)
  {
    forall i | |a| <= i < |a + b| ensures (a + b)[i] != u {
      assert (a + b)[i] == b[i - |a|];
    }
    forall i | 0 <= i < |a| ensures (a + b)[i] == a[i] {
    }
  }

  /** A path that ends in neither a separator nor `/.` is its own trimmed form. */
  lemma TrimEndNoop(w: Path)
    requires w != [] && w[|w| - 1] != Slash
    requires !(|w| >= 2 && w[|w| - 1] == Dot && w[|w| - 2] == Slash)
    ensures TrimEnd(w) == w
  {
  }

  /** A character absent from a text is absent from its path. */
  lemma FromStringLacks(s: string, c: char)
    requires c !in s
    ensures Char(c) !in FromString(s)
  {
    var p := FromString(s);
    forall i | 0 <= i < |p| ensures p[i] != Char(c) {
      assert p[i] == Char(s[i]);
    }
  }

  /** The file name of `head + name`, where `head` is empty or ends in a
      separator and `name` is a proper single component. */
  lemma FileNameAfterSlash(head: Path, name: Path)
    requires head == [] || head[|head| - 1] == Slash
    requires Slash !in name
    requires name != [] && name != [Dot] && name != [Dot, Dot]
    ensures FileName(head + name) == Some(name)
  {
    var w := head + name;
    assert w[|w| - 1] == name[|name| - 1];
    if |name| >= 2 {
      assert w[|w| - 2] == name[|name| - 2];
    }
    TrimEndNoop(w);
    LastIndexOfPrefix(head, name, Slash);
    assert NameStart(w) == |head|;
    assert w[|head|..] == name;
  }

  /** A renamed path is the directory part of the original (empty or ending
      in a separator), its stem, and the new extension. */
  lemma WithExtensionShape(p: Path, ext: string) returns (head: Path)
    requires FileStem(p).Some? && ext != []
    ensures head == [] || head[|head| - 1] == Slash
    ensures WithExtension(p, ext) == head + (FileStem(p).value + [Dot] + FromString(ext))
  {
    var t := TrimEnd(p);
    head := t[..NameStart(t)];
    var stem, e := FileStem(p).value, FromString(ext);
    assert (head + stem) + ([Dot] + e) == head + (stem + [Dot] + e);
  }

  /** Renaming a file keeps its stem as the start of the new file name:
      `with_extension(ext)` ends the path in `stem.ext`. */
  lemma {:induction false} WithExtensionFileName(p: Path, ext: string)
    requires FileStem(p).Some?
    requires ext != [] && '/' !in ext
    ensures FileName(WithExtension(p, ext)) == Some(FileStem(p).value + [Dot] + FromString(ext))
  {
    var head := WithExtensionShape(p, ext);
    var stem, e := FileStem(p).value, FromString(ext);
    FromStringLacks(ext, '/');
    var name := stem + [Dot] + e;
    assert Slash !in name;
    assert |name| >= 3;
    FileNameAfterSlash(head, name);
  }

  /** The stem of a path whose file name has its last `.` past the start. */
  lemma FileStemOfName(p: Path, name: Path, k: int)
    requires FileName(p) == Some(name)
    requires 0 < k == LastIndexOf(name, Dot)
    ensures FileStem(p) == Some(name[..k])
  {
  }

  /** In `stem.ext` with no `.` in `ext`, the last `.` is the one after `stem`. */
  lemma LastDotBeforeExtension(stem: Path, e: Path)
    requires stem != [] && Dot !in e
    ensures 0 < |stem| == LastIndexOf(stem + [Dot] + e, Dot)
    ensures (stem + [Dot] + e)[..|stem|] == stem
  {
    LastIndexOfPrefix(stem + [Dot], e, Dot);
    assert LastIndexOf(stem + [Dot], Dot) == |stem|;
  }

  /** Renaming to an extension without `.` keeps the file stem. */
  lemma {:induction false} WithExtensionKeepsStem(p: Path, ext: string)
    requires FileStem(p).Some?
    requires ext != [] && '/' !in ext && '.' !in ext
    ensures FileStem(WithExtension(p, ext)) == FileStem(p)
  {
    var stem := FileStem(p).value;
    WithExtensionFileName(p, ext);
    FromStringLacks(ext, '.');
    LastDotBeforeExtension(stem, FromString(ext));
    FileStemOfName(WithExtension(p, ext), stem + [Dot] + FromString(ext), |stem|);
  }

  /** The stem and name of an ordinary `dir/stem.ext` file. */
  lemma {:induction false} FileStemOfFile(dir: Path, stem: Path, ext: Path)
    requires stem != [] && Slash !in stem && Dot !in stem
    requires ext != [] && Slash !in ext && Dot !in ext
    ensures FileName(dir + [Slash] + stem + [Dot] + ext) == Some(stem + [Dot] + ext)
    ensures FileStem(dir + [Slash] + stem + [Dot] + ext) == Some(stem)
  {
    var name := stem + [Dot] + ext;
    var head := dir + [Slash];
    assert head + name == dir + [Slash] + stem + [Dot] + ext;
    assert Slash !in name;
    FileNameAfterSlash(head, name);
    LastIndexOfPrefix(stem + [Dot], ext, Dot);
    assert LastIndexOf(name, Dot) == |stem|;
    assert name[..|stem|] == stem;
  }
}
