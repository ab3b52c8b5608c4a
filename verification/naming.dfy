/** `Test::name`: the binary target name a test is built under. */
module Naming {
  import opened Wrappers
  import opened Paths
  import opened Text
  import opened Types

  /** The part of the path the name is made from: the file stem, or the whole
      path when it has none. */
  function NameSource(p: Path): Path {
    FileStem(p).GetOr(p)
  }

  /** The target name: the lossy text of the stem (or whole path) with every
      `-` turned into `_`. */
  function Name(t: Test): string {
    ReplaceChar(Lossy(NameSource(t.path)), '-', '_')
  }

  /** The name has no `-`, is as long as its source, and agrees with it unit
      by unit: a `-` became `_`, an ill-formed UTF-8 subpart became U+FFFD, and
      every other unit is kept. */
  lemma NameShape(t: Test)
    ensures var r, src := Name(t), NameSource(t.path);
      && '-' !in r
      && |r| == |src|
      && (forall i :: 0 <= i < |r| && src[i] == Char('-') ==> r[i] == '_')
      && (forall i :: 0 <= i < |r| && src[i].Invalid? ==> r[i] == ReplacementChar)
      && (forall i :: 0 <= i < |r| && src[i].Char? && src[i] != Char('-') ==> src[i] == Char(r[i]))
  {
  }

  /** Names are already normalized: replacing `-` once more changes nothing. */
  lemma NameIdempotent(t: Test)
    ensures ReplaceChar(Name(t), '-', '_') == Name(t)
  {
    ReplaceCharIdempotent(Lossy(NameSource(t.path)), '-', '_');
  }

  /** The test `dir/stem.ext` is built as the target `stem`, dashes turned
      into underscores, whatever the directory and extension. */
  lemma NameOfSourceFile(dir: Path, stem: string, ext: string, expected: Expected)
    requires stem != [] && '/' !in stem && '.' !in stem
    requires ext != [] && '/' !in ext && '.' !in ext
    ensures Name(Test(dir + [Slash] + FromString(stem) + [Dot] + FromString(ext), expected))
         == ReplaceChar(stem, '-', '_')
  {
    var st := FromString(stem);
    var ex := FromString(ext);
    forall i | 0 <= i < |st| ensures st[i] != Slash && st[i] != Dot {
      assert st[i] == Char(stem[i]);
    }
    forall i | 0 <= i < |ex| ensures ex[i] != Slash && ex[i] != Dot {
      assert ex[i] == Char(ext[i]);
    }
    FileStemOfFile(dir, st, ex);
    assert Lossy(st) == stem;
  }
}
