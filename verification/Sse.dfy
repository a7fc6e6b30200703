/** Framing messages as server-sent events, and reading them back by the HTML Living Standard, section
    9.2.6. */
module Sse {
  const COMMENT_FLOOD := "sse-comment-flood"
  const CR_COMMENTS := "sse-cr-comments"
  const COMMENT := ": reviewer keepalive"
  const LINE_BYTES := 2048
  const EVENT_LIMIT_BYTES := 8 * 1024 * 1024
  const LINE_COUNT := EVENT_LIMIT_BYTES / LINE_BYTES + 1

  // ----- encoding -----

  function Repeat(s: string, n: nat): string {
    if n == 0 then "" else s + Repeat(s, n - 1)
  }

  function FloodComment(lineBytes: nat): string
    requires lineBytes > |COMMENT| + 1
  {
    COMMENT + " " + Repeat("x", lineBytes - |COMMENT| - 2)
  }

  function Flood(lineBytes: nat, lineCount: nat): string
    requires lineBytes > |COMMENT| + 1
  {
    Repeat(FloodComment(lineBytes) + "\r", lineCount)
  }

  function Prefix(profile: string): string {
    if profile == COMMENT_FLOOD then Flood(LINE_BYTES, LINE_COUNT)
    else if profile == CR_COMMENTS then COMMENT + "\r"
    else ""
  }

  function Eol(profile: string): string {
    if profile == COMMENT_FLOOD || profile == CR_COMMENTS then "\r" else "\n"
  }

  function Frames(texts: seq<string>, eol: string): string {
    if texts == [] then "" else "data: " + texts[0] + eol + eol + Frames(texts[1..], eol)
  }

  function Encode(texts: seq<string>, profile: string): string {
    Prefix(profile) + Frames(texts, Eol(profile))
  }

  // ----- decoding -----

  predicate IsEol(c: char) { c == '\r' || c == '\n' }

  /** The number of characters before the first end of line. */
  function LineLength(s: string): (n: nat)
    ensures n <= |s| && (n < |s| ==> IsEol(s[n])) && forall i :: 0 <= i < n ==> !IsEol(s[i])
  {
    if s == [] || IsEol(s[0]) then 0 else 1 + LineLength(s[1..])
  }

  /** The complete lines of a stream; a carriage return and a line feed together end one line. */
  function Lines(s: string): seq<string>
    decreases |s|
  {
    var n := LineLength(s);
    if n == |s| then []
    else
      var next := if s[n] == '\r' && n + 1 < |s| && s[n + 1] == '\n' then n + 2 else n + 1;
      [s[..n]] + Lines(s[next..])
  }

  function ColonAt(s: string): (n: nat)
    ensures n <= |s| && (n < |s| ==> s[n] == ':') && forall i :: 0 <= i < n ==> s[i] != ':'
  {
    if s == [] || s[0] == ':' then 0 else 1 + ColonAt(s[1..])
  }

  function FieldName(line: string): string { line[..ColonAt(line)] }

  function FieldValue(line: string): string {
    var n := ColonAt(line);
    if n == |line| then ""
    else if n + 1 < |line| && line[n + 1] == ' ' then line[n + 2..]
    else line[n + 1..]
  }

  /** The data of the events dispatched, from a data buffer on. Other fields do not change it. */
  function Events(lines: seq<string>, data: string): seq<string> {
    if lines == [] then []
    else if lines[0] == "" then
      (if data == "" then [] else [if data[|data| - 1] == '\n' then data[..|data| - 1] else data])
        + Events(lines[1..], "")
    else if lines[0][0] != ':' && FieldName(lines[0]) == "data" then
      Events(lines[1..], data + FieldValue(lines[0]) + "\n")
    else Events(lines[1..], data)
  }

  function Decode(stream: string): seq<string> { Events(Lines(stream), "") }

  // ----- the round trip -----

  predicate OneLine(s: string) { forall i :: 0 <= i < |s| ==> !IsEol(s[i]) }

  /** A stream that does not continue an end of line. */
  predicate Fresh(s: string) { s == [] || s[0] != '\n' }

  lemma NextLine(line: string, eol: string, rest: string)
    requires OneLine(line) && (eol == "\n" || (eol == "\r" && Fresh(rest)))
    ensures Lines(line + eol + rest) == [line] + Lines(rest)
  {
    var s := line + eol + rest;
    var n := |line|;
    assert s[n] == eol[0] && forall i :: 0 <= i < n ==> s[i] == line[i];
    assert LineLength(s) == n;
    assert s[..n] == line && s[n + 1..] == rest;
    assert n + 1 < |s| ==> s[n + 1] == rest[0];
  }

  lemma DataField(text: string)
    ensures var line := "data: " + text;
      line != "" && line[0] != ':' && FieldName(line) == "data" && FieldValue(line) == text
  {
    var line := "data: " + text;
    assert line[4] == ':' && forall i :: 0 <= i < 4 ==> line[i] == "data"[i];
    assert ColonAt(line) == 4;
    assert line[..4] == "data" && line[5] == ' ' && line[6..] == text;
  }

  lemma BlankLine(eol: string, rest: string)
    requires eol == "\n" || (eol == "\r" && Fresh(rest))
    ensures Lines(eol + rest) == [""] + Lines(rest)
    ensures eol == "\r" ==> Fresh(eol + rest)
  {
    NextLine("", eol, rest);
    assert "" + eol + rest == eol + rest;
  }

  lemma Regroup(a: string, b: string, c: string, d: string)
    ensures a + b + c + d == a + b + (c + d)
  {
  }

  lemma TwoEnds(line: string, eol: string, rest: string)
    requires OneLine(line) && (eol == "\n" || (eol == "\r" && Fresh(rest)))
    ensures Lines(line + eol + eol + rest) == [line] + ([""] + Lines(rest))
  {
    BlankLine(eol, rest);
    NextLine(line, eol, eol + rest);
    Regroup(line, eol, eol, rest);
  }

  lemma FrameLines(text: string, eol: string, rest: string)
    requires OneLine(text) && (eol == "\n" || (eol == "\r" && Fresh(rest)))
    ensures Lines("data: " + text + eol + eol + rest) == ["data: " + text, ""] + Lines(rest)
  {
    TwoEnds("data: " + text, eol, rest);
    assert ["data: " + text] + ([""] + Lines(rest)) == ["data: " + text, ""] + Lines(rest);
  }

  lemma FrameEvent(text: string, more: seq<string>)
    ensures Events(["data: " + text, ""] + more, "") == [text] + Events(more, "")
  {
    var lines := ["data: " + text, ""] + more;
    DataField(text);
    var data := "" + text + "\n";
    assert lines[1..] == [""] + more && lines[1..][1..] == more;
    assert data[..|data| - 1] == text && data != "";
  }

  lemma {:induction false} FramesDecode(texts: seq<string>, eol: string)
    requires (eol == "\n" || eol == "\r") && forall i :: 0 <= i < |texts| ==> OneLine(texts[i])
    ensures Decode(Frames(texts, eol)) == texts && Fresh(Frames(texts, eol))
  {
    if texts != [] {
      var rest := Frames(texts[1..], eol);
      FramesDecode(texts[1..], eol);
      FrameLines(texts[0], eol, rest);
      FrameEvent(texts[0], Lines(rest));
    }
  }

  lemma CommentIgnored(comment: string, rest: string)
    requires comment != "" && comment[0] == ':' && OneLine(comment) && Fresh(rest)
    ensures Decode(comment + "\r" + rest) == Decode(rest)
  {
    NextLine(comment, "\r", rest);
    assert ([comment] + Lines(rest))[1..] == Lines(rest);
  }

  lemma {:induction false} CommentsIgnored(comment: string, n: nat, rest: string)
    requires comment != "" && comment[0] == ':' && OneLine(comment) && Fresh(rest)
    ensures Decode(Repeat(comment + "\r", n) + rest) == Decode(rest) && Fresh(Repeat(comment + "\r", n) + rest)
  {
    var c := comment + "\r";
    if n == 0 {
      assert "" + rest == rest;
    } else {
      CommentsIgnored(comment, n - 1, rest);
      assert Repeat(c, n) + rest == comment + "\r" + (Repeat(c, n - 1) + rest);
      CommentIgnored(comment, Repeat(c, n - 1) + rest);
    }
  }

  lemma {:induction false} RepeatedIsOneLine(n: nat)
    ensures OneLine(Repeat("x", n)) && |Repeat("x", n)| == n
  {
    if n > 0 {
      RepeatedIsOneLine(n - 1);
    }
  }

  lemma FloodIgnored(lineBytes: nat, lineCount: nat, rest: string)
    requires lineBytes > |COMMENT| + 1 && Fresh(rest)
    ensures Decode(Flood(lineBytes, lineCount) + rest) == Decode(rest)
    ensures |FloodComment(lineBytes) + "\r"| == lineBytes
  {
    RepeatedIsOneLine(lineBytes - |COMMENT| - 2);
    CommentsIgnored(FloodComment(lineBytes), lineCount, rest);
  }

  /** Reading an encoded stream gives the messages, in every profile. */
  lemma RoundTrip(texts: seq<string>, profile: string)
    requires forall i :: 0 <= i < |texts| ==> OneLine(texts[i])
    ensures Decode(Encode(texts, profile)) == texts
  {
    var frames := Frames(texts, Eol(profile));
    FramesDecode(texts, Eol(profile));
    if profile == COMMENT_FLOOD {
      FloodIgnored(LINE_BYTES, LINE_COUNT, frames);
    } else if profile == CR_COMMENTS {
      CommentIgnored(COMMENT, frames);
    } else {
      assert "" + frames == frames;
    }
  }

  // ----- what the profiles send -----

  function Copies(line: string, n: nat): (r: seq<string>)
    ensures |r| == n && forall i :: 0 <= i < n ==> r[i] == line
  {
    seq(n, i => line)
  }

  lemma CopiesCons(line: string, n: nat, tail: seq<string>)
    ensures [line] + (Copies(line, n) + tail) == Copies(line, n + 1) + tail
  {
  }

  lemma CommentLine(comment: string, n: nat, more: string, tail: seq<string>)
    requires OneLine(comment) && Fresh(more) && Lines(more) == Copies(comment, n) + tail
    ensures Lines(comment + "\r" + more) == Copies(comment, n + 1) + tail
  {
    NextLine(comment, "\r", more);
    CopiesCons(comment, n, tail);
  }

  lemma RepeatStep(s: string, n: nat, rest: string)
    ensures Repeat(s, n + 1) + rest == s + (Repeat(s, n) + rest)
  {
  }

  lemma {:induction false} CommentLines(comment: string, n: nat, rest: string)
    requires comment != "" && OneLine(comment) && comment[0] == ':' && Fresh(rest)
    ensures Lines(Repeat(comment + "\r", n) + rest) == Copies(comment, n) + Lines(rest)
    ensures Fresh(Repeat(comment + "\r", n) + rest)
  {
    var c := comment + "\r";
    if n == 0 {
      assert "" + rest == rest && Copies(comment, 0) + Lines(rest) == Lines(rest);
    } else {
      CommentLines(comment, n - 1, rest);
      RepeatStep(c, n - 1, rest);
      CommentLine(comment, n - 1, Repeat(c, n - 1) + rest, Lines(rest));
    }
  }

  /** The lines of the messages: a data line and an empty one for each. */
  predicate DataLines(lines: seq<string>, texts: seq<string>) {
    && |lines| == 2 * |texts|
    && forall i :: 0 <= i < |texts| ==> lines[2 * i] == "data: " + texts[i] && lines[2 * i + 1] == ""
  }

  lemma DataLinesCons(text: string, lines: seq<string>, texts: seq<string>)
    requires DataLines(lines, texts)
    ensures DataLines(["data: " + text, ""] + lines, [text] + texts)
  {
    var all, more := ["data: " + text, ""] + lines, [text] + texts;
    forall i | 0 <= i < |more|
      ensures all[2 * i] == "data: " + more[i] && all[2 * i + 1] == ""
    {
      if i > 0 {
        assert all[2 * i] == lines[2 * (i - 1)] && all[2 * i + 1] == lines[2 * (i - 1) + 1];
      }
    }
  }

  lemma NextFrame(text: string, texts: seq<string>, eol: string, rest: string)
    requires OneLine(text) && (eol == "\n" || (eol == "\r" && Fresh(rest))) && DataLines(Lines(rest), texts)
    ensures DataLines(Lines("data: " + text + eol + eol + rest), [text] + texts)
  {
    FrameLines(text, eol, rest);
    DataLinesCons(text, Lines(rest), texts);
  }

  lemma {:induction false} FramesLines(texts: seq<string>, eol: string)
    requires (eol == "\n" || eol == "\r") && forall i :: 0 <= i < |texts| ==> OneLine(texts[i])
    ensures DataLines(Lines(Frames(texts, eol)), texts) && Fresh(Frames(texts, eol))
  {
    if texts != [] {
      FramesLines(texts[1..], eol);
      NextFrame(texts[0], texts[1..], eol, Frames(texts[1..], eol));
      assert [texts[0]] + texts[1..] == texts;
    }
  }

  /** The comment lines that a profile sends first: 4097 of 2047 characters each, one, or none. */
  predicate ProfileComments(profile: string, comments: seq<string>) {
    if profile == "sse-comment-flood" then
      && |comments| == 4097
      && forall i :: 0 <= i < 4097 ==> |comments[i]| == 2047 && ": reviewer keepalive " <= comments[i]
    else if profile == "sse-cr-comments" then comments == [": reviewer keepalive"]
    else comments == []
  }

  /** The lines of an encoded stream: the comments of its profile, then the messages. */
  lemma StreamLines(texts: seq<string>, profile: string) returns (comments: seq<string>)
    requires forall i :: 0 <= i < |texts| ==> OneLine(texts[i])
    ensures ProfileComments(profile, comments)
    ensures var lines := Lines(Encode(texts, profile));
      comments <= lines && DataLines(lines[|comments|..], texts)
  {
    var frames := Frames(texts, Eol(profile));
    FramesLines(texts, Eol(profile));
    if profile == COMMENT_FLOOD {
      RepeatedIsOneLine(LINE_BYTES - |COMMENT| - 2);
      CommentLines(FloodComment(LINE_BYTES), LINE_COUNT, frames);
      comments := Copies(FloodComment(LINE_BYTES), LINE_COUNT);
    } else if profile == CR_COMMENTS {
      comments := [COMMENT];
      NextLine(COMMENT, "\r", frames);
    } else {
      comments := [];
      assert "" + frames == frames;
    }
    assert (comments + Lines(frames))[|comments|..] == Lines(frames);
  }

  lemma {:induction false} FramesEnds(texts: seq<string>, eol: string, c: char)
    requires IsEol(c) && eol != [c] && |eol| == 1 && forall i :: 0 <= i < |texts| ==> OneLine(texts[i])
    ensures c !in Frames(texts, eol)
  {
    if texts != [] {
      FramesEnds(texts[1..], eol, c);
      assert c !in "data: " && c !in texts[0] && c !in eol;
    }
  }

  lemma {:induction false} RepeatKeepsOut(s: string, n: nat, c: char)
    requires c !in s
    ensures c !in Repeat(s, n) && |Repeat(s, n)| == n * |s|
  {
    if n > 0 {
      RepeatKeepsOut(s, n - 1, c);
      assert n * |s| == (n - 1) * |s| + |s|;
    }
  }

  /** A flood alone is longer than the limit on one event. */
  lemma FloodSize()
    ensures '\n' !in Flood(LINE_BYTES, LINE_COUNT) && |Flood(LINE_BYTES, LINE_COUNT)| > 8 * 1024 * 1024
  {
    RepeatedIsOneLine(LINE_BYTES - |COMMENT| - 2);
    var c := '\n';
    assert c !in COMMENT && c !in " " && c !in "\r";
    RepeatKeepsOut(FloodComment(LINE_BYTES) + "\r", LINE_COUNT, c);
  }

  /** The comment profiles end their lines with carriage returns only, the others with line feeds only. */
  lemma StreamEnds(texts: seq<string>, profile: string)
    requires forall i :: 0 <= i < |texts| ==> OneLine(texts[i])
    ensures (if profile == "sse-comment-flood" || profile == "sse-cr-comments" then '\n' else '\r')
      !in Encode(texts, profile)
  {
    if profile == COMMENT_FLOOD || profile == CR_COMMENTS {
      FramesEnds(texts, "\r", '\n');
      if profile == COMMENT_FLOOD {
        FloodSize();
      }
    } else {
      FramesEnds(texts, "\n", '\r');
    }
  }
}
