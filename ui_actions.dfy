/**
 * The text helpers of src/actions/uiActions.ts that the "move content" action
 * uses to re-indent a dumped node: `indent` and `stripIndent`. Its copy of
 * `getKeyValue` is the same code as the one in completeBody.ts and is modelled
 * once, by CompleteBody.GetKeyValue.
 */
module UiActions {
  import opened LineUtils

  /** The characters `indent` copies. */
  predicate IsIndentChar(c: char) {
    c == ' ' || c == '\t'
  }

  /** The characters `indent` skips without copying. */
  predicate IsSkippedBreak(c: char) {
    c == '\r' || c == '\n'
  }

  /** Where the leading run of spaces, tabs, CRs and LFs of `line` ends. */
  function LeadingRunEnd(line: string): (k: nat)
    ensures k <= |line|
    ensures forall j :: 0 <= j < k ==> IsIndentChar(line[j]) || IsSkippedBreak(line[j])
    ensures k < |line| ==> !IsIndentChar(line[k]) && !IsSkippedBreak(line[k])
  {
    if line == [] || !(IsIndentChar(line[0]) || IsSkippedBreak(line[0])) then 0
    else 1 + LeadingRunEnd(line[1..])
  }

  /** The spaces and tabs of `s`, in their order. */
  function IndentChars(s: string): (r: string)
    ensures |r| <= |s|
    ensures forall j :: 0 <= j < |r| ==> IsIndentChar(r[j])
  {
    if s == [] then ""
    else IndentChars(s[..|s| - 1]) + (if IsIndentChar(s[|s| - 1]) then [s[|s| - 1]] else "")
  }

  /**
   * indent: the spaces and tabs of the leading run of whitespace of `line`;
   * CR and LF are stepped over, and the first other character ends the scan.
   */
  method Indent(line: string) returns (rs: string)
    ensures rs == IndentChars(line[..LeadingRunEnd(line)])
    ensures |rs| <= |line|
    ensures forall j :: 0 <= j < |rs| ==> IsIndentChar(rs[j])
  {
    rs := "";
    var i := 0;
    while i < |line|
      invariant 0 <= i <= |line|
      invariant forall j :: 0 <= j < i ==> IsIndentChar(line[j]) || IsSkippedBreak(line[j])
      invariant rs == IndentChars(line[..i])
    {
      var c := line[i];
      if c == '\r' || c == '\n' {
        assert line[..i + 1][..i] == line[..i];
        i := i + 1;
        continue;
      }
      if c == ' ' || c == '\t' {
        assert line[..i + 1][..i] == line[..i];
        rs := rs + [c];
        i := i + 1;
        continue;
      }
      break;
    }
    assert i == LeadingRunEnd(line);
  }

  /** A line that starts with pure indentation followed by content yields exactly that indentation. */
  lemma {:induction false} IndentOfIndentedLine(ws: string, rest: string)
    requires forall j :: 0 <= j < |ws| ==> IsIndentChar(ws[j])
    requires rest == [] || !(IsIndentChar(rest[0]) || IsSkippedBreak(rest[0]))
    ensures IndentChars((ws + rest)[..LeadingRunEnd(ws + rest)]) == ws
  {
    var line := ws + rest;
    assert LeadingRunEnd(line) == |ws| by {
      if |ws| < |line| {
        assert line[|ws|] == rest[0];
      }
    }
    assert line[..|ws|] == ws;
    AllIndentChars(ws);
  }

  lemma {:induction false} AllIndentChars(ws: string)
    requires forall j :: 0 <= j < |ws| ==> IsIndentChar(ws[j])
    ensures IndentChars(ws) == ws
  {
    if ws != [] {
      AllIndentChars(ws[..|ws| - 1]);
      assert ws[..|ws| - 1] + [ws[|ws| - 1]] == ws;
    }
  }

  /** `s.substring(n)`: JavaScript clamps a start beyond the end to the end. */
  function Drop(s: string, n: nat): (r: string)
    ensures |r| == if n <= |s| then |s| - n else 0
    ensures n <= |s| ==> s == s[..n] + r
  {
    if n <= |s| then s[n..] else ""
  }

  /** The lines stripIndent emits: the first one verbatim, every later one without its first n characters. */
  function StrippedLines(lines: seq<string>, n: nat): (r: seq<string>)
    ensures |r| == |lines|
  {
    seq(|lines|, i requires 0 <= i < |lines| => if i == 0 then lines[0] else Drop(lines[i], n))
  }

  /**
   * stripIndent: splits `text` into lines, keeps the first one, removes
   * `|indent|` characters from the front of each later one, whatever they are,
   * and joins the lines with no separator.
   */
  method StripIndent(text: string, indent: string) returns (r: string)
    ensures r == Concat(StrippedLines(SplitOnLines(text), |indent|))
    ensures SplitOnLines(text)[0] <= r
  {
    var lines := SplitOnLines(text);
    var rs: seq<string> := [];
    var i := 0;
    while i < |lines|
      invariant 0 <= i <= |lines|
      invariant |rs| == i
      invariant forall j :: 0 <= j < i ==> rs[j] == StrippedLines(lines, |indent|)[j]
    {
      if i == 0 {
        rs := rs + [lines[0]];
      } else {
        rs := rs + [Drop(lines[i], |indent|)];
      }
      i := i + 1;
    }
    assert rs == StrippedLines(lines, |indent|);
    r := Concat(rs);
    assert r == rs[0] + Concat(rs[1..]);
  }

  lemma {:induction false} StripNothing(lines: seq<string>)
    ensures StrippedLines(lines, 0) == lines
  {
    forall i | 0 <= i < |lines| ensures StrippedLines(lines, 0)[i] == lines[i] {
      assert lines[i][0..] == lines[i];
    }
  }

  /** With an empty indentation stripIndent gives the text back, given the round trip of splitOnLines. */
  lemma StripEmptyIndentRoundTrip(text: string)
    requires NoSeparators(text)
    ensures Concat(StrippedLines(SplitOnLines(text), 0)) == text
  {
    StripNothing(SplitOnLines(text));
    SplitRoundTrip(text);
  }

  /** Re-indenting the stripped lines gives the text back when every later line starts with the indentation. */
  lemma StripIndentReversible(text: string, indent: string)
    requires NoSeparators(text)
    requires forall i :: 0 < i < |SplitOnLines(text)| ==> indent <= SplitOnLines(text)[i]
    ensures var lines := SplitOnLines(text);
      var r := StrippedLines(lines, |indent|);
      Concat([r[0]] + seq(|r| - 1, i requires 0 <= i < |r| - 1 => indent + r[i + 1])) == text
  {
    var lines := SplitOnLines(text);
    var r := StrippedLines(lines, |indent|);
    var back := [r[0]] + seq(|r| - 1, i requires 0 <= i < |r| - 1 => indent + r[i + 1]);
    forall i | 0 <= i < |lines| ensures back[i] == lines[i] {
      if i > 0 {
        assert indent <= lines[i];
        assert back[i] == indent + Drop(lines[i], |indent|);
      }
    }
    assert back == lines;
    SplitRoundTrip(text);
  }
}
