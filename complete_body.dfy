/**
 * `getKeyValue` of src/actions/remoteUI/completeBody/completeBody.ts (the same
 * code is in src/actions/uiActions.ts): the word under the cursor, read as a
 * mapping key. The "complete body" state calculator offers its action on a
 * response or method node only when this word is `body`.
 *
 * The offset is a JavaScript number and is not checked; `txt.charAt(i)` gives
 * "" outside the text, which is neither whitespace nor a stop character.
 */
module CompleteBody {

  /** The whitespace the backward scan looks for. */
  predicate IsKeyBreak(c: char) {
    c == ' ' || c == '\r' || c == '\n' || c == '\t'
  }

  /** The characters that end the key in the forward scan. */
  predicate IsKeyStop(c: char) {
    IsKeyBreak(c) || c == ':'
  }

  /** `txt.charAt(i)` */
  function CharAt(txt: string, i: int): (r: string)
    ensures |r| <= 1
  {
    if 0 <= i < |txt| then [txt[i]] else ""
  }

  /** The index of the nearest whitespace at or before i, or -1 when there is none. */
  function LastBreakAtOrBefore(txt: string, i: int): (r: int)
    ensures r == -1 || (0 <= r <= i && r < |txt| && IsKeyBreak(txt[r]))
    ensures forall j :: r < j <= i && 0 <= j < |txt| ==> !IsKeyBreak(txt[j])
    decreases if i < 0 then 0 else i + 1
  {
    if i < 0 then -1
    else if i >= |txt| then LastBreakAtOrBefore(txt, |txt| - 1)
    else if IsKeyBreak(txt[i]) then i
    else LastBreakAtOrBefore(txt, i - 1)
  }

  /** `m` after the backward loop: one past that whitespace, or the offset itself when there is none. */
  function KeyStart(offset: int, txt: string): int {
    var b := LastBreakAtOrBefore(txt, offset);
    if b >= 0 then b + 1 else offset
  }

  /** Where the forward loop starts reading characters of the text. */
  function ReadFrom(offset: int, txt: string): (from: nat)
    ensures from <= |txt|
  {
    var m := KeyStart(offset, txt);
    if m < 0 then 0 else if m > |txt| then |txt| else m
  }

  /** The first stop character at or after `from`, or the end of the text. */
  function KeyEnd(txt: string, from: nat): (k: nat)
    requires from <= |txt|
    ensures from <= k <= |txt|
    ensures forall j :: from <= j < k ==> !IsKeyStop(txt[j])
    ensures k < |txt| ==> IsKeyStop(txt[k])
    decreases |txt| - from
  {
    if from == |txt| || IsKeyStop(txt[from]) then from else KeyEnd(txt, from + 1)
  }

  /** The word getKeyValue returns. */
  function KeyValue(offset: int, txt: string): (r: string)
    ensures forall j :: 0 <= j < |r| ==> !IsKeyStop(r[j])
  {
    var from := ReadFrom(offset, txt);
    txt[from..KeyEnd(txt, from)]
  }

  /** The test of the backward loop on `txt.charAt(i)`. */
  predicate BreaksKey(c: string)
    ensures BreaksKey(c) <==> |c| == 1 && IsKeyBreak(c[0])
  {
    c == " " || c == "\r" || c == "\n" || c == "\t"
  }

  /** The test of the forward loop on `txt.charAt(i)`. */
  predicate StopsKey(c: string)
    ensures StopsKey(c) <==> |c| == 1 && IsKeyStop(c[0])
  {
    BreaksKey(c) || c == ":"
  }

  /** getKeyValue: a backward scan for whitespace, then a forward scan up to a stop character. */
  method GetKeyValue(offset: int, txt: string) returns (res: string)
    ensures res == KeyValue(offset, txt)
  {
    var m := ScanBack(offset, txt);
    res := ScanForward(m, txt);
  }

  /** The backward loop of getKeyValue: `m` starts at the offset and moves past the nearest whitespace. */
  method ScanBack(offset: int, txt: string) returns (m: int)
    ensures m == KeyStart(offset, txt)
  {
    m := offset;
    var i := offset;
    while i >= 0
      invariant i <= offset
      invariant m == offset
      invariant forall j :: i < j <= offset && 0 <= j < |txt| ==> !IsKeyBreak(txt[j])
    {
      var c := CharAt(txt, i);
      if BreaksKey(c) {
        m := i + 1;
        break;
      }
      i := i - 1;
    }
  }

  /** The forward loop of getKeyValue: the characters from `m` up to the first stop character. */
  method ScanForward(m: int, txt: string) returns (res: string)
    ensures var from := if m < 0 then 0 else if m > |txt| then |txt| else m;
      res == txt[from..KeyEnd(txt, from)]
  {
    ghost var from := if m < 0 then 0 else if m > |txt| then |txt| else m;
    res := "";
    var i := m;
    while i < |txt|
      invariant m <= i && (i <= |txt| || i == m)
      invariant i <= from || i > |txt| ==> res == ""
      invariant from <= i <= |txt| ==> res == txt[from..i]
      invariant forall j :: from <= j < i && j < |txt| ==> !IsKeyStop(txt[j])
    {
      var c := CharAt(txt, i);
      if StopsKey(c) {
        break;
      }
      if from <= i {
        assert c == [txt[i]];
        assert txt[from..i + 1] == txt[from..i] + c;
      }
      res := res + c;
      i := i + 1;
    }
    if m <= |txt| {
      KeyEndIsFirstStop(txt, from, if i < from then from else i);
    }
  }

  /** The first stop character at or after `from` is the only place the forward scan can end. */
  lemma KeyEndIsFirstStop(txt: string, from: nat, k: nat)
    requires from <= k <= |txt|
    requires forall j :: from <= j < k ==> !IsKeyStop(txt[j])
    requires k < |txt| ==> IsKeyStop(txt[k])
    ensures KeyEnd(txt, from) == k
  {
  }

  /** When the character under the cursor is whitespace, the key starts just after it. */
  lemma KeyStartsAfterBreakUnderCursor(offset: int, txt: string)
    requires 0 <= offset < |txt| && IsKeyBreak(txt[offset])
    ensures KeyStart(offset, txt) == offset + 1
  {
  }

  /** With no whitespace at or before the cursor, the scan starts at the cursor, not at the start of the text. */
  lemma KeyStartsAtCursorWithoutBreak(offset: int, txt: string)
    requires forall j :: 0 <= j <= offset && j < |txt| ==> !IsKeyBreak(txt[j])
    ensures KeyStart(offset, txt) == offset
  {
  }

  /**
   * With the cursor anywhere on the key `body` of a line `body:`, colon included,
   * getKeyValue returns exactly "body", provided whitespace precedes the key.
   */
  lemma BodyKeyUnderCursor(pre: string, post: string, offset: int)
    requires |pre| > 0 && IsKeyBreak(pre[|pre| - 1])
    requires |pre| <= offset <= |pre| + 4
    ensures KeyValue(offset, pre + "body:" + post) == "body"
  {
    var txt := pre + "body:" + post;
    assert txt[|pre|..|pre| + 5] == "body:";
    var b := LastBreakAtOrBefore(txt, offset);
    assert IsKeyBreak(txt[|pre| - 1]);
    assert b == |pre| - 1;
    assert ReadFrom(offset, txt) == |pre|;
    var k := KeyEnd(txt, |pre|);
    assert txt[|pre| + 4] == ':';
    assert k == |pre| + 4;
  }
}
