/**
 * The line helpers of src/actionManagement/utils.ts.
 *
 * `splitOnLines` is `text.match(/^.*((\r\n|\n|\r)|$)/gm)`. In that pattern `.`
 * refuses the four ECMAScript line terminators (LF, CR, U+2028, U+2029), `^` and
 * `$` (multiline) recognise all four, yet only CR LF, LF and CR are ever
 * captured: a U+2028 or U+2029 ends a piece and is then skipped, so it is lost.
 * `LinesFrom` follows the global matcher position by position: `atLineStart`
 * says whether `^` holds at the current position.
 */
module LineUtils {

  /** The characters JavaScript regular expressions treat as line terminators. */
  predicate IsLineTerminator(c: char) {
    c == '\n' || c == '\r' || c == '\U{2028}' || c == '\U{2029}'
  }

  /** The two line terminators that no piece of `splitOnLines` ever contains. */
  predicate IsLineSeparator(c: char) {
    c == '\U{2028}' || c == '\U{2029}'
  }

  predicate NoSeparators(s: string) {
    forall i :: 0 <= i < |s| ==> !IsLineSeparator(s[i])
  }

  /** The characters String.prototype.trim removes: ECMAScript WhiteSpace and LineTerminator. */
  predicate IsTrimmed(c: char) {
    || c == '\t' || c == '\U{000B}' || c == '\U{000C}' || c == ' ' || c == '\U{00A0}'
    || c == '\U{FEFF}' || c == '\U{1680}' || ('\U{2000}' <= c <= '\U{200A}')
    || c == '\U{202F}' || c == '\U{205F}' || c == '\U{3000}'
    || IsLineTerminator(c)
  }

  /** `line.trim().length == 0` */
  predicate IsBlank(line: string) {
    forall i :: 0 <= i < |line| ==> IsTrimmed(line[i])
  }

  /** Where `.*` stops: the index of the first line terminator, or |s|. */
  function BodyEnd(s: string): (q: nat)
    ensures q <= |s|
    ensures forall k :: 0 <= k < q ==> !IsLineTerminator(s[k])
    ensures q < |s| ==> IsLineTerminator(s[q])
  {
    if s == [] || IsLineTerminator(s[0]) then 0 else 1 + BodyEnd(s[1..])
  }

  /** The length of what `(\r\n|\n|\r)` captures at q; 0 at U+2028, U+2029 or the end, where `$` matches. */
  function TerminatorLength(s: string, q: nat): (n: nat)
    requires q <= |s|
    ensures q + n <= |s|
    ensures n > 0 ==> s[q] == '\n' || s[q] == '\r'
  {
    if q + 1 < |s| && s[q] == '\r' && s[q + 1] == '\n' then 2
    else if q < |s| && (s[q] == '\n' || s[q] == '\r') then 1
    else 0
  }

  /**
   * The matches of the global search on the rest `s` of the text. An empty match
   * moves the search one character on, as RegExp.prototype[@@match] does.
   */
  function LinesFrom(s: string, atLineStart: bool): seq<string>
    decreases |s|
  {
    if !atLineStart then
      if s == [] then [] else LinesFrom(s[1..], IsLineTerminator(s[0]))
    else
      var q := BodyEnd(s);
      var e := q + TerminatorLength(s, q);
      if e > 0 then [s[..e]] + LinesFrom(s[e..], e > q)
      else if s == [] then [""]
      else [""] + LinesFrom(s[1..], true)
  }

  /** splitOnLines: `^` always holds at offset 0, so the match is never null. */
  function SplitOnLines(text: string): (lines: seq<string>)
    ensures |lines| >= 1
  {
    LinesFrom(text, true)
  }

  /** `lines.join("")` */
  function Concat(ps: seq<string>): string {
    if ps == [] then "" else ps[0] + Concat(ps[1..])
  }

  /** The lines cleanEmptyLines keeps, in order: those whose trimmed content is non-empty. */
  function NonBlankLines(ps: seq<string>): (r: seq<string>)
    ensures |r| <= |ps|
    ensures forall i :: 0 <= i < |r| ==> r[i] in ps && !IsBlank(r[i])
  {
    if ps == [] then []
    else NonBlankLines(ps[..|ps| - 1]) + (if IsBlank(ps[|ps| - 1]) then [] else [ps[|ps| - 1]])
  }

  /** The indices of the non-blank lines of `ps`, in order. */
  function KeptIndices(ps: seq<string>): (ix: seq<nat>)
    ensures |ix| <= |ps|
    ensures forall j :: 0 <= j < |ix| ==> ix[j] < |ps|
  {
    if ps == [] then []
    else KeptIndices(ps[..|ps| - 1]) + (if IsBlank(ps[|ps| - 1]) then [] else [|ps| - 1])
  }

  /**
   * The filter of cleanEmptyLines keeps exactly the non-blank lines, in their
   * order: its j-th line is the line at the j-th index of a strictly
   * increasing sequence of indices, which holds every non-blank line and no
   * blank one.
   */
  lemma {:induction false} NonBlankLinesExact(ps: seq<string>)
    ensures var r := NonBlankLines(ps);
      var ix := KeptIndices(ps);
      |r| == |ix|
      && (forall j :: 0 <= j < |ix| ==> r[j] == ps[ix[j]])
      && (forall j, k :: 0 <= j < k < |ix| ==> ix[j] < ix[k])
      && (forall i :: 0 <= i < |ps| ==> (i in ix <==> !IsBlank(ps[i])))
  {
    NonBlankAtKept(ps);
    KeptIndicesIncrease(ps);
    KeptIndicesExact(ps);
  }

  lemma {:induction false} NonBlankAtKept(ps: seq<string>)
    ensures |NonBlankLines(ps)| == |KeptIndices(ps)|
    ensures forall j :: 0 <= j < |KeptIndices(ps)| ==> NonBlankLines(ps)[j] == ps[KeptIndices(ps)[j]]
  {
    if ps != [] {
      var init := ps[..|ps| - 1];
      NonBlankAtKept(init);
      var r0, ix0 := NonBlankLines(init), KeptIndices(init);
      var r, ix := NonBlankLines(ps), KeptIndices(ps);
      forall j | 0 <= j < |ix| ensures r[j] == ps[ix[j]] {
        if j < |ix0| {
          assert r[j] == r0[j] && ix[j] == ix0[j];
          assert init[ix0[j]] == ps[ix0[j]];
        }
      }
    }
  }

  lemma {:induction false} KeptIndicesIncrease(ps: seq<string>)
    ensures forall j, k :: 0 <= j < k < |KeptIndices(ps)| ==> KeptIndices(ps)[j] < KeptIndices(ps)[k]
  {
    if ps != [] {
      var init := ps[..|ps| - 1];
      KeptIndicesIncrease(init);
      var ix0, ix := KeptIndices(init), KeptIndices(ps);
      forall j, k | 0 <= j < k < |ix| ensures ix[j] < ix[k] {
        assert ix[j] == ix0[j];
        if k < |ix0| {
          assert ix[k] == ix0[k];
        }
      }
    }
  }

  lemma {:induction false} KeptIndicesExact(ps: seq<string>)
    ensures forall i :: 0 <= i < |ps| ==> (i in KeptIndices(ps) <==> !IsBlank(ps[i]))
  {
    if ps != [] {
      var init := ps[..|ps| - 1];
      KeptIndicesExact(init);
      var ix0, ix := KeptIndices(init), KeptIndices(ps);
      forall i | 0 <= i < |ps| ensures i in ix <==> !IsBlank(ps[i]) {
        if i < |init| {
          assert ps[i] == init[i];
          assert i in ix <==> i in ix0;
        } else {
          assert i !in ix0;
        }
      }
    }
  }

  /** The text cleanEmptyLines returns. */
  function Cleaned(text: string): string {
    Concat(NonBlankLines(SplitOnLines(text)))
  }

  /** cleanEmptyLines: keeps the non-blank lines with their terminators and joins them. */
  method CleanEmptyLines(text: string) returns (r: string)
    ensures r == Cleaned(text)
  {
    var lines := SplitOnLines(text);
    var rs: seq<string> := [];
    var i := 0;
    while i < |lines|
      invariant 0 <= i <= |lines|
      invariant rs == NonBlankLines(lines[..i])
    {
      if !IsBlank(lines[i]) {
        rs := rs + [lines[i]];
      }
      assert lines[..i + 1][..i] == lines[..i];
      i := i + 1;
    }
    assert lines[..i] == lines;
    r := Concat(rs);
  }

  /** A piece of the split: a terminator-free body, then at most one captured terminator. */
  predicate IsLinePiece(p: string) {
    BodyEnd(p) + TerminatorLength(p, BodyEnd(p)) == |p|
  }

  predicate HasTerminator(p: string) {
    TerminatorLength(p, BodyEnd(p)) > 0
  }

  /** Every line is a non-blank piece. */
  predicate NonBlankPieces(ks: seq<string>) {
    forall i :: 0 <= i < |ks| ==> IsLinePiece(ks[i]) && !IsBlank(ks[i])
  }

  /** No line is blank, except an empty last line. */
  predicate BlankOnlyEmptyLast(ps: seq<string>) {
    forall i :: 0 <= i < |ps| ==> !IsBlank(ps[i]) || (i == |ps| - 1 && ps[i] == "")
  }

  // ---------------------------------------------------------------------------
  // Facts about BodyEnd and TerminatorLength on prefixes and concatenations
  // ---------------------------------------------------------------------------

  lemma {:induction false} BodyEndPrefix(s: string, n: nat)
    requires n <= |s|
    ensures BodyEnd(s[..n]) == if BodyEnd(s) < n then BodyEnd(s) else n
  {
    if n > 0 && !IsLineTerminator(s[0]) {
      assert s[..n][1..] == s[1..][..n - 1];
      BodyEndPrefix(s[1..], n - 1);
    }
  }

  lemma {:induction false} BodyEndConcat(a: string, b: string)
    ensures BodyEnd(a + b) == if BodyEnd(a) < |a| then BodyEnd(a) else |a| + BodyEnd(b)
  {
    if a != [] && !IsLineTerminator(a[0]) {
      assert (a + b)[1..] == a[1..] + b;
      BodyEndConcat(a[1..], b);
    } else if a == [] {
      assert a + b == b;
    }
  }

  lemma TerminatorLengthShift(a: string, b: string, q: nat)
    requires q <= |b|
    ensures TerminatorLength(a + b, |a| + q) == TerminatorLength(b, q)
  {
    if q < |b| { assert (a + b)[|a| + q] == b[q]; }
    if q + 1 < |b| { assert (a + b)[|a| + q + 1] == b[q + 1]; }
  }

  /** The piece the matcher cuts at the front of s is itself a piece, terminated exactly when e > q. */
  lemma FirstPiece(s: string)
    ensures var q := BodyEnd(s); var e := q + TerminatorLength(s, q);
      IsLinePiece(s[..e]) && BodyEnd(s[..e]) == q && (HasTerminator(s[..e]) <==> e > q)
  {
    var q := BodyEnd(s);
    var e := q + TerminatorLength(s, q);
    BodyEndPrefix(s, e);
    var p := s[..e];
    if e == q + 2 {
      assert p[q] == '\r' && p[q + 1] == '\n';
    } else if e == q + 1 {
      assert p[q] == s[q];
    }
  }

  /** A terminated piece followed by text that does not start with a terminator splits off unchanged. */
  lemma LinesFromTerminatedPiece(k: string, r: string)
    requires IsLinePiece(k) && HasTerminator(k)
    requires r == [] || !IsLineTerminator(r[0])
    ensures LinesFrom(k + r, true) == [k] + LinesFrom(r, true)
  {
    var s := k + r;
    var q := BodyEnd(k);
    BodyEndConcat(k, r);
    assert BodyEnd(s) == q;
    var n := TerminatorLength(k, q);
    if n == 2 {
      assert s[q] == k[q] && s[q + 1] == k[q + 1];
    } else {
      assert s[q] == k[q];
      if q + 1 < |s| {
        assert s[q + 1] == r[0];
      }
    }
    assert TerminatorLength(s, q) == n;
    assert s[..q + n] == k;
    assert s[q + n..] == r;
  }

  /** A non-blank piece starts with a character of its body. */
  lemma NonBlankPieceStart(p: string)
    requires IsLinePiece(p) && !IsBlank(p)
    ensures BodyEnd(p) > 0 && !IsLineTerminator(p[0])
  {
    if BodyEnd(p) == 0 {
      var n := TerminatorLength(p, 0);
      assert |p| == n;
      forall i | 0 <= i < |p| ensures IsTrimmed(p[i]) {
        assert p[i] == '\r' || p[i] == '\n';
      }
    }
  }

  lemma ConcatAppend(a: seq<string>, b: seq<string>)
    ensures Concat(a + b) == Concat(a) + Concat(b)
  {
    if a != [] {
      assert (a + b)[1..] == a[1..] + b;
      ConcatAppend(a[1..], b);
    } else {
      assert a + b == b;
    }
  }

  lemma PieceHasNoSeparator(p: string)
    requires IsLinePiece(p)
    ensures NoSeparators(p)
  {
    var q := BodyEnd(p);
    var n := TerminatorLength(p, q);
    forall i | 0 <= i < |p| ensures !IsLineSeparator(p[i]) {
      if i >= q {
        if n == 2 { assert p[q] == '\r' && p[q + 1] == '\n'; }
      }
    }
  }

  lemma {:induction false} ConcatNoSeparators(ps: seq<string>)
    requires forall i :: 0 <= i < |ps| ==> NoSeparators(ps[i])
    ensures NoSeparators(Concat(ps))
  {
    if ps != [] {
      ConcatNoSeparators(ps[1..]);
    }
  }

  // ---------------------------------------------------------------------------
  // Properties of splitOnLines
  // ---------------------------------------------------------------------------

  /** Every piece of splitOnLines is a terminator-free body followed by at most one terminator. */
  lemma {:induction false} LinesArePieces(s: string, atLineStart: bool)
    ensures forall i :: 0 <= i < |LinesFrom(s, atLineStart)| ==> IsLinePiece(LinesFrom(s, atLineStart)[i])
    decreases |s|
  {
    if !atLineStart {
      if s != [] { LinesArePieces(s[1..], IsLineTerminator(s[0])); }
    } else {
      var q := BodyEnd(s);
      var e := q + TerminatorLength(s, q);
      if e > 0 {
        FirstPiece(s);
        LinesArePieces(s[e..], e > q);
        var rest := LinesFrom(s[e..], e > q);
        assert LinesFrom(s, true) == [s[..e]] + rest;
        forall i | 0 < i < |LinesFrom(s, true)| ensures IsLinePiece(LinesFrom(s, true)[i]) {
          assert LinesFrom(s, true)[i] == rest[i - 1];
        }
      } else if s != [] {
        LinesArePieces(s[1..], true);
        var rest := LinesFrom(s[1..], true);
        assert LinesFrom(s, true) == [""] + rest;
        forall i | 0 < i < |LinesFrom(s, true)| ensures IsLinePiece(LinesFrom(s, true)[i]) {
          assert LinesFrom(s, true)[i] == rest[i - 1];
        }
      }
    }
  }

  /** Joining the pieces gives the text back when it holds no U+2028 or U+2029. */
  lemma {:induction false} SplitRoundTrip(s: string)
    requires NoSeparators(s)
    ensures Concat(SplitOnLines(s)) == s
    decreases |s|
  {
    var q := BodyEnd(s);
    if q < |s| {
      assert !IsLineSeparator(s[q]);
    }
    var e := q + TerminatorLength(s, q);
    if e > q {
      assert NoSeparators(s[e..]) by {
        forall i | 0 <= i < |s[e..]| ensures !IsLineSeparator(s[e..][i]) {
          assert s[e..][i] == s[e + i];
        }
      }
      SplitRoundTrip(s[e..]);
      assert SplitOnLines(s) == [s[..e]] + SplitOnLines(s[e..]);
      assert s == s[..e] + s[e..];
    } else if e > 0 {
      assert q == |s|;
      assert s[..e] == s && s[e..] == [];
      assert LinesFrom(s[e..], false) == [];
      assert SplitOnLines(s) == [s[..e]] + LinesFrom(s[e..], false);
    } else {
      assert s == [];
    }
  }

  /** Without U+2028 and U+2029, every piece but the last ends with a terminator. */
  lemma {:induction false} OnlyLastPieceUnterminated(s: string)
    requires NoSeparators(s)
    ensures var ps := SplitOnLines(s);
      forall i :: 0 <= i < |ps| - 1 ==> HasTerminator(ps[i])
    decreases |s|
  {
    var q := BodyEnd(s);
    if q < |s| {
      assert !IsLineSeparator(s[q]);
    }
    var e := q + TerminatorLength(s, q);
    if e > 0 {
      FirstPiece(s);
      if e > q {
        assert NoSeparators(s[e..]) by {
          forall i | 0 <= i < |s[e..]| ensures !IsLineSeparator(s[e..][i]) {
            assert s[e..][i] == s[e + i];
          }
        }
        OnlyLastPieceUnterminated(s[e..]);
        var rest := SplitOnLines(s[e..]);
        assert SplitOnLines(s) == [s[..e]] + rest;
        forall i | 0 < i < |rest| ensures HasTerminator(SplitOnLines(s)[i]) {
          assert SplitOnLines(s)[i] == rest[i - 1];
        }
      } else {
        assert q == |s|;
        assert s[e..] == [];
        assert LinesFrom(s[e..], false) == [];
        assert SplitOnLines(s) == [s[..e]] + LinesFrom(s[e..], false);
      }
    }
  }

  /** For any text, U+2028 and U+2029 included, joining the lines the split finds is never longer than the text. */
  lemma {:induction false} SplitNeverLonger(s: string, atLineStart: bool)
    ensures |Concat(LinesFrom(s, atLineStart))| <= |s|
    decreases |s|
  {
    if !atLineStart {
      if s != [] { SplitNeverLonger(s[1..], IsLineTerminator(s[0])); }
    } else {
      var q := BodyEnd(s);
      var e := q + TerminatorLength(s, q);
      if e > 0 {
        SplitNeverLonger(s[e..], e > q);
      } else if s != [] {
        SplitNeverLonger(s[1..], true);
      }
    }
  }

  /**
   * Splitting a join of non-blank pieces yields non-blank lines only, except for
   * an empty last line after a final terminator.
   */
  lemma {:induction false} SplitOfNonBlankPieces(ks: seq<string>)
    requires NonBlankPieces(ks)
    ensures BlankOnlyEmptyLast(SplitOnLines(Concat(ks)))
    decreases |ks|
  {
    if ks == [] {
      assert SplitOnLines("") == [""];
    } else if HasTerminator(ks[0]) {
      assert NonBlankPieces(ks[1..]) by {
        forall i | 0 <= i < |ks[1..]| ensures IsLinePiece(ks[1..][i]) && !IsBlank(ks[1..][i]) {
          assert ks[1..][i] == ks[i + 1];
        }
      }
      SplitOfNonBlankPieces(ks[1..]);
      SplitAfterTerminatedPiece(ks);
    } else if |ks| == 1 {
      LastUnterminatedPiece(ks[0]);
      assert ks[1..] == [];
      assert Concat(ks) == ks[0];
      assert SplitOnLines(Concat(ks)) == [ks[0]];
    } else {
      var merged := MergeFirstTwo(ks);
      SplitOfNonBlankPieces(merged);
    }
  }

  lemma SplitAfterTerminatedPiece(ks: seq<string>)
    requires NonBlankPieces(ks) && ks != [] && HasTerminator(ks[0])
    requires BlankOnlyEmptyLast(SplitOnLines(Concat(ks[1..])))
    ensures BlankOnlyEmptyLast(SplitOnLines(Concat(ks)))
  {
    var r := Concat(ks[1..]);
    if |ks| > 1 {
      NonBlankPieceStart(ks[1]);
      assert r[0] == ks[1][0];
    }
    LinesFromTerminatedPiece(ks[0], r);
    var rest := SplitOnLines(r);
    var ps := SplitOnLines(Concat(ks));
    assert ps == [ks[0]] + rest;
    forall i | 0 < i < |ps| ensures !IsBlank(ps[i]) || (i == |ps| - 1 && ps[i] == "") {
      assert ps[i] == rest[i - 1];
    }
  }

  /** Glues an unterminated first piece to the second one; the join is unchanged. */
  lemma MergeFirstTwo(ks: seq<string>) returns (merged: seq<string>)
    requires NonBlankPieces(ks) && |ks| >= 2 && !HasTerminator(ks[0])
    ensures NonBlankPieces(merged) && |merged| < |ks| && Concat(merged) == Concat(ks)
  {
    MergeUnterminatedPiece(ks[0], ks[1]);
    merged := [ks[0] + ks[1]] + ks[2..];
    forall i | 0 < i < |merged| ensures IsLinePiece(merged[i]) && !IsBlank(merged[i]) {
      assert merged[i] == ks[i + 1];
    }
    calc {
      Concat(ks);
      ks[0] + (ks[1] + Concat(ks[2..]));
      { assert ks[1..][1..] == ks[2..]; }
      (ks[0] + ks[1]) + Concat(ks[2..]);
      Concat(merged);
    }
  }

  lemma LastUnterminatedPiece(k: string)
    requires IsLinePiece(k) && !IsBlank(k) && !HasTerminator(k)
    ensures SplitOnLines(k) == [k]
  {
    NonBlankPieceStart(k);
    assert BodyEnd(k) == |k|;
    assert k[..|k|] == k && k[|k|..] == [];
    assert SplitOnLines(k) == [k] + LinesFrom([], false);
  }

  /** An unterminated piece glued to the next piece is one piece. */
  lemma MergeUnterminatedPiece(a: string, b: string)
    requires IsLinePiece(a) && !IsBlank(a) && !HasTerminator(a)
    requires IsLinePiece(b)
    ensures IsLinePiece(a + b) && !IsBlank(a + b)
  {
    assert BodyEnd(a) == |a|;
    BodyEndConcat(a, b);
    TerminatorLengthShift(a, b, BodyEnd(b));
    var i :| 0 <= i < |a| && !IsTrimmed(a[i]);
    assert (a + b)[i] == a[i];
  }

  // ---------------------------------------------------------------------------
  // Properties of cleanEmptyLines
  // ---------------------------------------------------------------------------

  lemma {:induction false} NonBlankOfNonBlank(ps: seq<string>)
    requires forall i :: 0 <= i < |ps| ==> !IsBlank(ps[i]) || ps[i] == ""
    ensures Concat(NonBlankLines(ps)) == Concat(ps)
  {
    if ps != [] {
      var init := ps[..|ps| - 1];
      NonBlankOfNonBlank(init);
      ConcatAppend(init, [ps[|ps| - 1]]);
      ConcatAppend(NonBlankLines(init), if IsBlank(ps[|ps| - 1]) then [] else [ps[|ps| - 1]]);
      assert init + [ps[|ps| - 1]] == ps;
    }
  }

  lemma {:induction false} NonBlankNeverLonger(ps: seq<string>)
    ensures |Concat(NonBlankLines(ps))| <= |Concat(ps)|
  {
    if ps != [] {
      var init := ps[..|ps| - 1];
      NonBlankNeverLonger(init);
      ConcatAppend(init, [ps[|ps| - 1]]);
      ConcatAppend(NonBlankLines(init), if IsBlank(ps[|ps| - 1]) then [] else [ps[|ps| - 1]]);
      assert init + [ps[|ps| - 1]] == ps;
    }
  }

  lemma CleanedPieces(text: string)
    ensures NonBlankPieces(NonBlankLines(SplitOnLines(text)))
  {
    var ps := SplitOnLines(text);
    var ks := NonBlankLines(ps);
    LinesArePieces(text, true);
    forall i | 0 <= i < |ks| ensures IsLinePiece(ks[i]) {
      var j :| 0 <= j < |ps| && ps[j] == ks[i];
    }
  }

  /** The output of cleanEmptyLines holds no whitespace-only line (but an empty last one after a final terminator). */
  lemma CleanedHasNoBlankLine(text: string)
    ensures BlankOnlyEmptyLast(SplitOnLines(Cleaned(text)))
  {
    CleanedPieces(text);
    SplitOfNonBlankPieces(NonBlankLines(SplitOnLines(text)));
  }

  /** cleanEmptyLines never lengthens its input. */
  lemma CleanedNeverLonger(text: string)
    ensures |Cleaned(text)| <= |text|
  {
    NonBlankNeverLonger(SplitOnLines(text));
    SplitNeverLonger(text, true);
  }

  /** cleanEmptyLines is idempotent. */
  lemma CleanedIdempotent(text: string)
    ensures Cleaned(Cleaned(text)) == Cleaned(text)
  {
    var c := Cleaned(text);
    var ks := NonBlankLines(SplitOnLines(text));
    CleanedPieces(text);
    forall i | 0 <= i < |ks| ensures NoSeparators(ks[i]) {
      PieceHasNoSeparator(ks[i]);
    }
    ConcatNoSeparators(ks);
    CleanedHasNoBlankLine(text);
    NonBlankOfNonBlank(SplitOnLines(c));
    SplitRoundTrip(c);
  }
}
