/** Frames written as an event stream, as an upstream writes them: what the splitter reads from
    the text is what was written. */
module WireFormat {
  import opened Wrappers
  import opened Text
  import opened Json
  import opened SseSplitter

  /** Serialised JSON that stands on one line and reads back. */
  ghost predicate Prints(json: Value -> string, parse: Parser) {
    forall v :: parse(json(v)) == Some(v) && Plain(json(v)) && json(v) != "[DONE]"
  }

  /** Text that a line carries as it is: not empty, without line ends, and trimmed. */
  predicate Plain(s: string) { s != "" && '\n' !in s && '\r' !in s && Trim(s) == s }

  function Written(frame: Frame, json: Value -> string): string {
    "event: " + frame.0 + "\ndata: " + json(frame.1) + "\n\n"
  }

  function WrittenAll(frames: seq<Frame>, json: Value -> string): (r: seq<string>)
    ensures |r| == |frames| && forall i :: 0 <= i < |r| ==> r[i] == Written(frames[i], json)
  {
    seq(|frames|, i requires 0 <= i < |frames| => Written(frames[i], json))
  }

  /** The text of the whole stream. */
  function Wire(frames: seq<Frame>, json: Value -> string): string { Concat(WrittenAll(frames, json)) }

  // ---- One frame ----

  /** Two lines, and the blank line behind them. */
  function Framed(a: string, b: string): string { a + "\n" + b + "\n\n" }

  lemma FramedChars(a: string, b: string)
    ensures var (s, n) := (Framed(a, b), |a| + |b|);
            && |s| == n + 3 && s[..|a|] == a && s[|a|] == '\n' && s[|a| + 1..n + 1] == b
            && s[n + 1] == '\n' && s[n + 2] == '\n'
            && (forall i :: 0 <= i < |a| ==> s[i] == a[i])
            && (forall i :: |a| < i <= n ==> s[i] == b[i - |a| - 1])
  {
  }

  lemma NextNewline(s: string, from: nat, i: nat)
    requires from <= i < |s| && s[i] == '\n' && forall j :: from <= j < i ==> s[j] != '\n'
    ensures Find(s, "\n", from) == i
  {
    assert s[i..i + 1] == [s[i]] == "\n";
    forall j | from <= j < i ensures !At(s, j, "\n") {
      assert s[j..j + 1] == [s[j]];
    }
    FindIs(s, "\n", from, i);
  }

  lemma FramedLines(a: string, b: string)
    requires '\n' !in a && '\n' !in b
    ensures Lines(Framed(a, b), 0) == [a, b, ""]
  {
    var (s, n) := (Framed(a, b), |a| + |b|);
    FramedChars(a, b);
    LineTo(s, 0, |a|);
    TwoLines(s, |a| + 1, n + 1);
    assert s[0..|a|] == a;
  }

  /** The last two lines of a text that ends in a blank one. */
  lemma TwoLines(s: string, from: nat, i: nat)
    requires from <= i && |s| == i + 2 && s[i] == '\n' && s[i + 1] == '\n' && forall j :: from <= j < i ==> s[j] != '\n'
    ensures Lines(s, from) == [s[from..i], ""]
  {
    LineTo(s, from, i);
    LineTo(s, i + 1, i + 1);
    assert s[i + 1..i + 1] == "";
    NoLines(s);
    assert [s[from..i]] + ([""] + []) == [s[from..i], ""];
  }

  lemma NoLines(s: string)
    ensures Lines(s, |s|) == []
  {
  }

  lemma LineTo(s: string, from: nat, i: nat)
    requires from <= i < |s| && s[i] == '\n' && forall j :: from <= j < i ==> s[j] != '\n'
    ensures Lines(s, from) == [s[from..i]] + Lines(s, i + 1)
  {
    NextNewline(s, from, i);
  }

  lemma FramedEnds(a: string, b: string)
    requires '\n' !in a && '\n' !in b && b != ""
    ensures EndsAtBlankLine(Framed(a, b))
  {
    var (s, n) := (Framed(a, b), |a| + |b|);
    FramedChars(a, b);
    assert s[n + 1..n + 3] == [s[n + 1], s[n + 2]] == BLANK_LINE;
    forall j | 0 <= j < n + 1 ensures !At(s, j, BLANK_LINE) {
      assert s[j..j + 2] == [s[j], s[j + 1]];
    }
    FindIs(s, BLANK_LINE, 0, n + 1);
  }

  lemma TrimLeads(s: string)
    ensures Trim(" " + s) == Trim(s)
  {
    assert (" " + s)[1..] == s;
  }

  lemma WrittenIsFramed(frame: Frame, json: Value -> string)
    ensures Written(frame, json) == Framed("event: " + frame.0, "data: " + json(frame.1))
  {
  }

  lemma FieldOf(field: string, rest: string, line: string)
    requires line == field + " " + rest && Plain(rest)
    ensures At(line, 0, field) && Trim(line[|field|..]) == rest
  {
    assert line[0..|field|] == field && line[|field|..] == " " + rest;
    TrimLeads(rest);
  }

  /** The fields of the two lines of a frame. */
  lemma FieldsOf(name: string, data: string)
    requires Plain(name) && Plain(data)
    ensures var lines := ["event: " + name, "data: " + data, ""];
            EventName(lines, 3) == name && Payloads(lines, 3) == [data]
  {
    var (a, b) := ("event: " + name, "data: " + data);
    assert "event:" + " " == "event: ";
    FieldOf("event:", name, a);
    assert "data:" + " " == "data: ";
    FieldOf("data:", data, b);
    NotBoth(a);
    NotBoth(b);
    FieldsOfLines(a, b, name, data);
  }

  lemma FieldsOfLines(a: string, b: string, name: string, data: string)
    requires IsEventLine(a) && !IsDataLine(a) && Trim(a[6..]) == name
    requires IsDataLine(b) && !IsEventLine(b) && Trim(b[5..]) == data
    ensures EventName([a, b, ""], 3) == name && Payloads([a, b, ""], 3) == [data]
  {
    var lines := [a, b, ""];
    assert lines[0] == a && lines[1] == b && lines[2] == "";
    assert EventName(lines, 1) == name;
    assert EventName(lines, 2) == name;
    assert Payloads(lines, 0) == [] && Payloads(lines, 1) == [];
    assert Payloads(lines, 2) == [] + [data];
  }

  lemma WrittenIsParsed(frame: Frame, json: Value -> string, parse: Parser)
    requires Prints(json, parse) && Plain(frame.0)
    ensures Parsed(Written(frame, json), parse) == [frame] && EndsAtBlankLine(Written(frame, json))
    ensures '\r' !in Written(frame, json)
  {
    var data := json(frame.1);
    assert Plain(data) && data != "[DONE]" && parse(data) == Some(frame.1);
    WrittenIsFramed(frame, json);
    FramedLines("event: " + frame.0, "data: " + data);
    FramedEnds("event: " + frame.0, "data: " + data);
    FieldsOf(frame.0, data);
    ParsedFrom(Written(frame, json), ["event: " + frame.0, "data: " + data, ""], frame.0, data, parse);
    FramedHasNoCr("event: " + frame.0, "data: " + data);
  }

  lemma FramedHasNoCr(a: string, b: string)
    requires '\r' !in a && '\r' !in b
    ensures '\r' !in Framed(a, b)
  {
    FramedChars(a, b);
  }

  lemma ParsedFrom(s: string, lines: seq<string>, name: string, data: string, parse: Parser)
    requires Lines(s, 0) == lines && EventName(lines, |lines|) == name && Payloads(lines, |lines|) == [data]
    requires name != "" && data != "" && data != "[DONE]" && parse(data).Some?
    ensures Parsed(s, parse) == [(name, parse(data).value)]
  {
    ConcatOne([], data);
    assert [] + [data] == [data] && "" + data == data;
  }

  // ---- The stream ----

  lemma NothingToCut()
    ensures Cut("") == ([], "")
  {
    assert Find("", BLANK_LINE, 0) == 0;
  }

  lemma CutPiece(piece: string)
    requires EndsAtBlankLine(piece)
    ensures Cut(piece) == ([piece], "")
  {
    var end := |piece| - 2;
    CutOnce(piece, end);
    assert piece[..end + 2] == piece && piece[end + 2..] == "";
    NothingToCut();
    assert [piece] + [] == [piece];
  }

  lemma {:induction false} CutPieces(pieces: seq<string>)
    requires forall piece :: piece in pieces ==> EndsAtBlankLine(piece)
    ensures Cut(Concat(pieces)) == (pieces, "")
  {
    if |pieces| == 0 {
      NothingToCut();
    } else {
      var (init, last) := (pieces[..|pieces| - 1], pieces[|pieces| - 1]);
      CutPieces(init);
      ConcatOne(init, last);
      assert init + [last] == pieces;
      CutAppend(Concat(init), last);
      assert "" + last == last;
      CutPiece(last);
    }
  }

  lemma {:induction false} ParsedPieces(pieces: seq<string>, frames: seq<Frame>, parse: Parser)
    requires |pieces| == |frames| && forall i :: 0 <= i < |pieces| ==> Parsed(pieces[i], parse) == [frames[i]]
    ensures ParsedAll(pieces, parse) == frames
  {
    if |frames| > 0 {
      var n := |frames| - 1;
      ParsedPieces(pieces[..n], frames[..n], parse);
      assert frames[..n] + [frames[n]] == frames;
    }
  }

  lemma {:induction false} ConcatHasNoCr(pieces: seq<string>, n: nat)
    requires n <= |pieces| && forall i :: 0 <= i < |pieces| ==> '\r' !in pieces[i]
    ensures '\r' !in ConcatTo(pieces, n)
  {
    if n > 0 {
      ConcatHasNoCr(pieces, n - 1);
    }
  }

  /** What is written is read: the splitter gives the frames of the stream back, and nothing
      is left over. */
  lemma WireIsRead(frames: seq<Frame>, json: Value -> string, parse: Parser)
    requires Prints(json, parse) && forall i :: 0 <= i < |frames| ==> Plain(frames[i].0)
    ensures Split(Wire(frames, json), parse) == (frames, "")
  {
    var pieces := WrittenAll(frames, json);
    forall i | 0 <= i < |pieces|
      ensures EndsAtBlankLine(pieces[i]) && '\r' !in pieces[i] && Parsed(pieces[i], parse) == [frames[i]]
    {
      WrittenIsParsed(frames[i], json, parse);
    }
    ConcatHasNoCr(pieces, |pieces|);
    Stripped(Concat(pieces));
    CutPieces(pieces);
    ParsedPieces(pieces, frames, parse);
  }
}
