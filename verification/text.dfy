/** The two string rewrites of the harness: `str::replace('-', "_")` on test
    names and `str::replace("\r\n", "\n")` on golden fixtures. */
module Text {

  /** `s.replace(from, to)` for single characters: same length, each `from` becomes `to`. */
  function ReplaceChar(s: string, from: char, to: char): (r: string)
    ensures |r| == |s|
    ensures forall i :: 0 <= i < |s| ==> r[i] == (if s[i] == from then to else s[i])
  {
    seq(|s|, i requires 0 <= i < |s| => if s[i] == from then to else s[i])
  }

  /** After replacing every `from` by a different character, no `from` is left,
      and replacing again changes nothing. */
  lemma ReplaceCharIdempotent(s: string, from: char, to: char)
    requires from != to
    ensures from !in ReplaceChar(s, from, to)
    ensures ReplaceChar(ReplaceChar(s, from, to), from, to) == ReplaceChar(s, from, to)
  {
    var r := ReplaceChar(s, from, to);
    assert forall i :: 0 <= i < |r| ==> r[i] != from;
  }

  /** Whether a carriage return is immediately followed by a line feed somewhere in `s`. */
  predicate HasCrlf(s: string) {
    exists i :: 0 <= i < |s| - 1 && s[i] == '\r' && s[i + 1] == '\n'
  }

  /** `s.replace("\r\n", "\n")`: a left-to-right scan that turns each
      non-overlapping CR LF pair into a single LF. */
  function ReplaceCrlf(s: string): (r: string)
    ensures |r| <= |s|
  {
    if |s| < 2 then s
    else if s[0] == '\r' && s[1] == '\n' then "\n" + ReplaceCrlf(s[2..])
    else [s[0]] + ReplaceCrlf(s[1..])
  }

  /** Text with a CR LF pair gets strictly shorter. */
  lemma {:induction false} ReplaceCrlfShrinks(s: string)
    requires HasCrlf(s)
    ensures |ReplaceCrlf(s)| < |s|
    decreases |s|
  {
    if s[0] == '\r' && s[1] == '\n' {
    } else {
      var i :| 0 <= i < |s| - 1 && s[i] == '\r' && s[i + 1] == '\n';
      assert i > 0;
      assert s[1..][i - 1] == '\r' && s[1..][i] == '\n';
      ReplaceCrlfShrinks(s[1..]);
    }
  }

  /** Text without a CR LF pair is left as it is. */
  lemma {:induction false} ReplaceCrlfKeeps(s: string)
    requires !HasCrlf(s)
    ensures ReplaceCrlf(s) == s
    decreases |s|
  {
    if |s| >= 2 {
      assert !(s[0] == '\r' && s[1] == '\n');
      forall i | 0 <= i < |s[1..]| - 1
        ensures !(s[1..][i] == '\r' && s[1..][i + 1] == '\n')
      {
        assert s[1..][i] == s[i + 1] && s[1..][i + 1] == s[i + 2];
      }
      ReplaceCrlfKeeps(s[1..]);
    }
  }

  /** Line-ending normalization leaves `s` unchanged exactly when `s` has no CR LF pair. */
  lemma ReplaceCrlfFixpoint(s: string)
    ensures ReplaceCrlf(s) == s <==> !HasCrlf(s)
  {
    if HasCrlf(s) {
      ReplaceCrlfShrinks(s);
    } else {
      ReplaceCrlfKeeps(s);
    }
  }
}
