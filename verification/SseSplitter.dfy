/** The incremental splitter that cuts an event stream into frames. JSON parsing is a
    parameter: a function from the text of a data line to a value, where it has one. */
module SseSplitter {
  import opened Wrappers
  import opened Text
  import opened Json

  type Frame = (string, Value)
  type Parser = string -> Option<Value>

  const BLANK_LINE := "\n\n"

  /** `retain(|c| c != '\r')` */
  function StripCr(s: string): string {
    if |s| == 0 then "" else StripCr(s[..|s| - 1]) + if s[|s| - 1] == '\r' then "" else [s[|s| - 1]]
  }

  /** `lines`: what stands between the newlines; a newline at the end opens no further line. */
  function Lines(frame: string, from: nat): seq<string>
    requires from <= |frame|
    decreases |frame| - from
  {
    if from == |frame| then []
    else
      var end := Find(frame, "\n", from);
      [frame[from..end]] + if end == |frame| then [] else Lines(frame, end + 1)
  }

  predicate IsEventLine(line: string) { At(line, 0, "event:") }

  predicate IsDataLine(line: string) { At(line, 0, "data:") }

  /** The trimmed payload of the last of the first `n` lines that names an event. */
  function EventName(lines: seq<string>, n: nat): string
    requires n <= |lines|
  {
    if n == 0 then ""
    else if IsEventLine(lines[n - 1]) then Trim(lines[n - 1][6..])
    else EventName(lines, n - 1)
  }

  /** The trimmed payloads of the data lines among the first `n`, in order. */
  function Payloads(lines: seq<string>, n: nat): seq<string>
    requires n <= |lines|
  {
    if n == 0 then []
    else if IsDataLine(lines[n - 1]) then Payloads(lines, n - 1) + [Trim(lines[n - 1][5..])]
    else Payloads(lines, n - 1)
  }

  /** What a complete frame yields: nothing for an empty one, `[DONE]`, or data that is not JSON. */
  function Parsed(frame: string, parse: Parser): seq<Frame> {
    var lines := Lines(frame, 0);
    var (event, data) := (EventName(lines, |lines|), Concat(Payloads(lines, |lines|)));
    if data == "" || data == "[DONE]" then []
    else
      match parse(data)
      case None => []
      case Some(value) => [(if event == "" then GetStr(value, "type").GetOr("") else event, value)]
  }

  /** How many of the first `n` lines carry data. */
  function DataLines(lines: seq<string>, n: nat): nat
    requires n <= |lines|
  {
    if n == 0 then 0 else DataLines(lines, n - 1) + if IsDataLine(lines[n - 1]) then 1 else 0
  }

  /** Every line that begins with `data:` gives its trimmed payload, in its turn, and no other
      line gives any. */
  lemma {:induction false} DataLinesInTheirTurn(lines: seq<string>, n: nat, k: nat)
    requires k <= n <= |lines|
    ensures |Payloads(lines, n)| == DataLines(lines, n) && DataLines(lines, k) <= DataLines(lines, n)
    ensures k < n && "data:" <= lines[k] ==>
              && DataLines(lines, k) < DataLines(lines, n)
              && Payloads(lines, n)[DataLines(lines, k)] == Trim(lines[k][5..])
  {
    if k < n {
      DataLinesInTheirTurn(lines, n - 1, k);
      if "data:" <= lines[k] {
        assert lines[k][0..5] == "data:";
      }
    } else if n > 0 {
      DataLinesInTheirTurn(lines, n - 1, n - 1);
    }
  }

  /** What a frame gives: nothing if it has no data, says that the stream is done, or does not
      parse; else its value, under the name of the event, or under the type of the value where
      the frame names none. */
  lemma ParsedExactly(frame: string, parse: Parser)
    ensures var lines := Lines(frame, 0);
            var (event, data) := (EventName(lines, |lines|), Concat(Payloads(lines, |lines|)));
            && (Parsed(frame, parse) == [] <==> data == "" || data == "[DONE]" || parse(data) == None)
            && (Parsed(frame, parse) != [] ==>
                  && |Parsed(frame, parse)| == 1 && Some(Parsed(frame, parse)[0].1) == parse(data)
                  && (event != "" ==> Parsed(frame, parse)[0].0 == event)
                  && (event == "" ==>
                        Parsed(frame, parse)[0].0 ==
                        match Get(parse(data).value, "type") case Some(Str(t)) => t case _ => ""))
  {
  }

  /** Cuts text without carriage returns behind every blank line; the rest stays. */
  function Cut(text: string): (seq<string>, string) {
    var end := Find(text, BLANK_LINE, 0);
    if end == |text| then ([], text)
    else
      var (pieces, rest) := Cut(text[end + 2..]);
      ([text[..end + 2]] + pieces, rest)
  }

  ghost predicate EndsAtBlankLine(piece: string) {
    |piece| >= 2 && Find(piece, BLANK_LINE, 0) == |piece| - 2
  }

  /** The pieces and the rest give the text back. */
  lemma {:induction false} CutLosesNothing(text: string)
    ensures Concat(Cut(text).0) + Cut(text).1 == text
    decreases |text|
  {
    var end := Find(text, BLANK_LINE, 0);
    if end < |text| {
      var head, tail := text[..end + 2], text[end + 2..];
      CutLosesNothing(tail);
      CutOnce(text, end);
      var (pieces, rest) := Cut(tail);
      Reassembled(text, head, tail, pieces, rest);
    }
  }

  lemma Reassembled(text: string, head: string, tail: string, pieces: seq<string>, rest: string)
    requires head + tail == text && Concat(pieces) + rest == tail
    ensures Concat([head] + pieces) + rest == text
  {
    ConcatHead(head, pieces, rest);
  }

  /** A blank line stands at the end of each piece and nowhere else, and none is left:
      with `CutLosesNothing`, there is only one way to cut. */
  lemma {:induction false} CutIsExact(text: string)
    ensures forall piece :: piece in Cut(text).0 ==> EndsAtBlankLine(piece)
    ensures Find(Cut(text).1, BLANK_LINE, 0) == |Cut(text).1|
    decreases |text|
  {
    var end := Find(text, BLANK_LINE, 0);
    if end < |text| {
      CutIsExact(text[end + 2..]);
      CutOnce(text, end);
      HeadEnds(text, end);
    }
  }

  lemma CutOnce(text: string, end: nat)
    requires end == Find(text, BLANK_LINE, 0) < |text|
    ensures Cut(text) == ([text[..end + 2]] + Cut(text[end + 2..]).0, Cut(text[end + 2..]).1)
  {
    var (pieces, rest) := Cut(text[end + 2..]);
    assert Cut(text) == ([text[..end + 2]] + pieces, rest);
  }

  lemma HeadEnds(text: string, end: nat)
    requires end == Find(text, BLANK_LINE, 0) < |text|
    ensures EndsAtBlankLine(text[..end + 2])
  {
    FindPrefix(text, end + 2, BLANK_LINE, 0);
  }

  lemma ConcatHead(head: string, pieces: seq<string>, rest: string)
    ensures Concat([head] + pieces) + rest == head + (Concat(pieces) + rest)
  {
    ConcatAppend([head], pieces);
    ConcatOne([], head);
    assert [] + [head] == [head];
  }

  function ParsedAll(pieces: seq<string>, parse: Parser): seq<Frame> {
    if |pieces| == 0 then [] else ParsedAll(pieces[..|pieces| - 1], parse) + Parsed(pieces[|pieces| - 1], parse)
  }

  /** The frames of `buf`, and what stays in the buffer. */
  function Split(buf: string, parse: Parser): (seq<Frame>, string) {
    var (pieces, rest) := Cut(StripCr(buf));
    (ParsedAll(pieces, parse), rest)
  }

  lemma {:induction false} FirstLines(a: seq<string>, b: seq<string>, n: nat)
    requires n <= |a| && n <= |b| && a[..n] == b[..n]
    ensures EventName(a, n) == EventName(b, n) && Payloads(a, n) == Payloads(b, n)
  {
    if n > 0 {
      assert a[n - 1] == a[..n][n - 1] == b[..n][n - 1] == b[n - 1];
      assert a[..n - 1] == a[..n][..n - 1] == b[..n][..n - 1] == b[..n - 1];
      FirstLines(a, b, n - 1);
    }
  }

  /** What one more line adds to the event name and the data. */
  lemma OneMoreLine(lines: seq<string>, line: string)
    ensures var (more, n) := (lines + [line], |lines|);
            && EventName(more, n + 1) == (if IsEventLine(line) then Trim(line[6..]) else EventName(lines, n))
            && Concat(Payloads(more, n + 1)) ==
               Concat(Payloads(lines, n)) + if IsDataLine(line) then Trim(line[5..]) else ""
  {
    var (more, n) := (lines + [line], |lines|);
    assert more[..n] == lines[..n] && more[n] == line;
    FirstLines(more, lines, n);
    OneMorePayload(more, n, Payloads(lines, n));
  }

  lemma OneMorePayload(lines: seq<string>, n: nat, before: seq<string>)
    requires n < |lines| && Payloads(lines, n) == before
    ensures Concat(Payloads(lines, n + 1)) ==
            Concat(before) + if IsDataLine(lines[n]) then Trim(lines[n][5..]) else ""
  {
    if IsDataLine(lines[n]) {
      ConcatOne(before, Trim(lines[n][5..]));
    }
  }

  /** With an event line at `k` and none behind it, the name is its payload; without any it
      is empty. */
  lemma {:induction false} LastEventLineCounts(lines: seq<string>, n: nat, k: nat)
    requires n <= |lines| && (k < n ==> IsEventLine(lines[k]))
    requires forall j :: (if k < n then k + 1 else 0) <= j < n ==> !IsEventLine(lines[j])
    ensures EventName(lines, n) == if k < n then Trim(lines[k][6..]) else ""
  {
    if n > 0 && k != n - 1 {
      LastEventLineCounts(lines, n - 1, if k < n then k else n);
    }
  }

  lemma NotBoth(line: string)
    ensures !(IsEventLine(line) && IsDataLine(line))
  {
    if |line| >= 6 {
      assert line[0..6][0] == line[0] == line[0..5][0];
    }
  }

  /** Where the line after the one at `from` begins. */
  function After(frame: string, from: nat): (next: nat)
    requires from < |frame|
    ensures from < next <= |frame|
  {
    var end := Find(frame, "\n", from);
    if end == |frame| then end else end + 1
  }

  lemma OneLine(frame: string, from: nat, seen: seq<string>)
    requires from < |frame| && Lines(frame, 0) == seen + Lines(frame, from)
    ensures Lines(frame, 0) == seen + [frame[from..Find(frame, "\n", from)]] + Lines(frame, After(frame, from))
  {
    var line, rest := frame[from..Find(frame, "\n", from)], Lines(frame, After(frame, from));
    assert Lines(frame, from) == [line] + rest;
    assert seen + ([line] + rest) == seen + [line] + rest;
  }

  /** One line, folded into the event name and the data. */
  method ReadLine(line: string, event: string, data: string, ghost seen: seq<string>)
      returns (event': string, data': string)
    requires event == EventName(seen, |seen|) && data == Concat(Payloads(seen, |seen|))
    ensures event' == EventName(seen + [line], |seen| + 1) && data' == Concat(Payloads(seen + [line], |seen| + 1))
  {
    OneMoreLine(seen, line);
    NotBoth(line);
    event', data' := event, data;
    if IsEventLine(line) {
      event' := Trim(line[6..]);
      assert data + "" == data;
    } else if IsDataLine(line) {
      data' := data + Trim(line[5..]);
    } else {
      assert data + "" == data;
    }
  }

  /** The loop over a frame's lines takes the payload of the last event line, and all
      payloads of data lines put together. */
  method ReadFields(frame: string) returns (event: string, data: string)
    ensures var lines := Lines(frame, 0);
            event == EventName(lines, |lines|) && data == Concat(Payloads(lines, |lines|))
  {
    event, data := "", "";
    var from := 0;
    ghost var seen: seq<string> := [];
    assert [] + Lines(frame, 0) == Lines(frame, 0);
    while from < |frame|
      invariant from <= |frame|
      invariant Lines(frame, 0) == seen + Lines(frame, from)
      invariant event == EventName(seen, |seen|) && data == Concat(Payloads(seen, |seen|))
      decreases |frame| - from
    {
      OneLine(frame, from, seen);
      var line := frame[from..Find(frame, "\n", from)];
      event, data := ReadLine(line, event, data, seen);
      seen := seen + [line];
      from := After(frame, from);
    }
    assert seen + [] == seen;
  }

  lemma LineHasNoNewline(frame: string, from: nat, i: nat)
    requires from <= |frame| && from <= i < Find(frame, "\n", from)
    ensures frame[i] != '\n'
  {
    assert !At(frame, i, "\n");
    assert frame[i..i + 1] == [frame[i]];
  }

  lemma TerminatedCons(line: string, rest: seq<string>)
    ensures Terminated([line] + rest) == line + "\n" + Terminated(rest)
  {
    assert ([line] + rest)[1..] == rest;
  }

  lemma LineThenRest(frame: string, from: nat)
    requires from < |frame|
    ensures var end := Find(frame, "\n", from);
            frame[from..] + (if end == |frame| then "\n" else "") ==
            frame[from..end] + "\n" + frame[After(frame, from)..]
  {
    var end := Find(frame, "\n", from);
    if end < |frame| {
      assert frame[end..end + 1] == "\n";
      assert frame[from..] + "" == frame[from..end] + frame[end..end + 1] + frame[end + 1..];
    } else {
      assert frame[from..end] == frame[from..] && frame[end..] == "";
    }
  }

  lemma NoNewlineIn(frame: string, from: nat)
    requires from < |frame|
    ensures '\n' !in frame[from..Find(frame, "\n", from)]
  {
    var line := frame[from..Find(frame, "\n", from)];
    forall i | 0 <= i < |line| ensures line[i] != '\n' {
      LineHasNoNewline(frame, from, from + i);
    }
  }

  /** The frame from `from` on is closed by a newline. */
  function Closed(frame: string, from: nat): string
    requires from <= |frame|
  {
    if from < |frame| && frame[|frame| - 1] != '\n' then frame[from..] + "\n" else frame[from..]
  }

  /** No line holds a newline, and the lines, each with a newline behind it, are the frame,
      closed by a newline if it is not. */
  lemma {:induction false} LinesAreTheFrame(frame: string, from: nat)
    requires from <= |frame|
    ensures forall k :: 0 <= k < |Lines(frame, from)| ==> '\n' !in Lines(frame, from)[k]
    ensures Terminated(Lines(frame, from)) == Closed(frame, from)
    decreases |frame| - from
  {
    if from < |frame| {
      var (end, next) := (Find(frame, "\n", from), After(frame, from));
      LinesAreTheFrame(frame, next);
      NoNewlineIn(frame, from);
      LineThenRest(frame, from);
      TerminatedCons(frame[from..end], Lines(frame, next));
      assert Lines(frame, from) == [frame[from..end]] + Lines(frame, next);
      ClosedStep(frame, from);
    }
  }

  lemma ClosedStep(frame: string, from: nat)
    requires from < |frame|
    ensures Closed(frame, from) == frame[from..Find(frame, "\n", from)] + "\n" + Closed(frame, After(frame, from))
  {
    var end := Find(frame, "\n", from);
    LineThenRest(frame, from);
    if end == |frame| {
      LineHasNoNewline(frame, from, |frame| - 1);
    } else {
      assert frame[end..end + 1] == [frame[end]];
      var (line, rest) := (frame[from..end], frame[end + 1..]);
      assert frame[from..] + "" == frame[from..];
      assert line + "\n" + rest + "\n" == line + "\n" + (rest + "\n");
    }
  }

  /** Every line with a newline behind it. */
  function Terminated(lines: seq<string>): string {
    if lines == [] then "" else lines[0] + "\n" + Terminated(lines[1..])
  }

  /** What one frame yields: nothing, or its event name and value. */
  method ParseFrame(frame: string, parse: Parser) returns (parsed: seq<Frame>)
    ensures parsed == Parsed(frame, parse)
  {
    var event, data := ReadFields(frame);
    if data == "" || data == "[DONE]" {
      return [];
    }
    var value := parse(data);
    if value.None? {
      return [];
    }
    if event == "" {
      event := GetStr(value.value, "type").GetOr("");
    }
    parsed := [(event, value.value)];
  }

  method SplitSseFrames(buf: string, parse: Parser) returns (frames: seq<Frame>, rest: string)
    ensures (frames, rest) == Split(buf, parse)
  {
    rest := StripCr(buf);
    frames := [];
    ghost var pieces: seq<string> := [];
    ghost var whole := Cut(rest);
    assert [] + whole.0 == whole.0;
    var end := Find(rest, BLANK_LINE, 0);
    while end < |rest|
      invariant end == Find(rest, BLANK_LINE, 0)
      invariant whole == (pieces + Cut(rest).0, Cut(rest).1)
      invariant frames == ParsedAll(pieces, parse)
      decreases |rest|
    {
      CutOnce(rest, end);
      var frame := rest[..end + 2];
      rest := rest[end + 2..];
      ParsedOneMore(pieces, frame, Cut(rest).0, parse);
      pieces := pieces + [frame];
      var parsed := ParseFrame(frame, parse);
      frames := frames + parsed;
      end := Find(rest, BLANK_LINE, 0);
    }
    assert pieces + [] == pieces;
  }

  lemma ParsedOneMore(pieces: seq<string>, frame: string, tail: seq<string>, parse: Parser)
    ensures pieces + ([frame] + tail) == pieces + [frame] + tail
    ensures ParsedAll(pieces + [frame], parse) == ParsedAll(pieces, parse) + Parsed(frame, parse)
  {
    assert (pieces + [frame])[..|pieces|] == pieces;
  }

  // ---- Independence of chunking ----

  lemma {:induction false} StripAppend(a: string, b: string)
    ensures StripCr(a + b) == StripCr(a) + StripCr(b)
  {
    if |b| == 0 {
      assert a + b == a;
    } else {
      assert (a + b)[..|a + b| - 1] == a + b[..|b| - 1];
      StripAppend(a, b[..|b| - 1]);
    }
  }

  lemma {:induction false} Stripped(s: string)
    ensures '\r' !in StripCr(s)
    ensures '\r' !in s ==> StripCr(s) == s
  {
    if |s| > 0 {
      var (init, last) := (s[..|s| - 1], s[|s| - 1]);
      Stripped(init);
      assert s == init + [last];
      assert StripCr(s) == StripCr(init) + if last == '\r' then "" else [last];
    }
  }

  /** `Cut(whole)` starts with the cut of `part` and goes on with that of `behind`. */
  ghost predicate Extends(whole: (seq<string>, string), part: (seq<string>, string), behind: (seq<string>, string)) {
    whole.0 == part.0 + behind.0 && whole.1 == behind.1
  }

  lemma ExtendsBehind(head: string, whole: (seq<string>, string), part: (seq<string>, string),
      behind: (seq<string>, string))
    requires Extends(whole, part, behind)
    ensures Extends(([head] + whole.0, whole.1), ([head] + part.0, part.1), behind)
  {
    assert [head] + part.0 + behind.0 == [head] + (part.0 + behind.0);
  }

  lemma {:induction false} CutAppend(a: string, b: string)
    ensures Extends(Cut(a + b), Cut(a), Cut(Cut(a).1 + b))
    decreases |a|
  {
    var end := Find(a, BLANK_LINE, 0);
    if end < |a| {
      var tail := a[end + 2..];
      CutStep(a, b, end);
      CutAppend(tail, b);
      ExtendsBehind(a[..end + 2], Cut(tail + b), Cut(tail), Cut(Cut(tail).1 + b));
    }
  }

  lemma CutStep(a: string, b: string, end: nat)
    requires end == Find(a, BLANK_LINE, 0) < |a|
    ensures Cut(a) == ([a[..end + 2]] + Cut(a[end + 2..]).0, Cut(a[end + 2..]).1)
    ensures Cut(a + b) == ([a[..end + 2]] + Cut(a[end + 2..] + b).0, Cut(a[end + 2..] + b).1)
  {
    FindAppend(a, b, BLANK_LINE, 0);
    assert (a + b)[end + 2..] == a[end + 2..] + b;
    assert (a + b)[..end + 2] == a[..end + 2];
  }

  lemma {:induction false} ParsedAppend(a: seq<string>, b: seq<string>, parse: Parser)
    ensures ParsedAll(a + b, parse) == ParsedAll(a, parse) + ParsedAll(b, parse)
  {
    if |b| == 0 {
      assert a + b == a;
    } else {
      assert (a + b)[..|a + b| - 1] == a + b[..|b| - 1];
      ParsedAppend(a, b[..|b| - 1], parse);
    }
  }

  lemma CutHasNoCr(text: string)
    requires '\r' !in text
    ensures '\r' !in Cut(text).1
  {
    var (pieces, rest) := Cut(text);
    CutLosesNothing(text);
    assert rest == text[|Concat(pieces)|..];
  }

  /** Splitting `a` and then what is left of it with `b` gives the frames of `a + b`. */
  lemma SplitAppend(a: string, b: string, parse: Parser)
    ensures var (frames, rest) := Split(a, parse);
            var (more, rest') := Split(rest + b, parse);
            Split(a + b, parse) == (frames + more, rest')
  {
    var (pieces, rest) := Cut(StripCr(a));
    StripAppend(a, b);
    CutAppend(StripCr(a), StripCr(b));
    Stripped(a);
    CutHasNoCr(StripCr(a));
    Stripped(rest);
    StripAppend(rest, b);
    ParsedAppend(pieces, Cut(rest + StripCr(b)).0, parse);
  }

  /** A stream handed over chunk by chunk, the buffer carried along. */
  function Fed(chunks: seq<string>, parse: Parser): (seq<Frame>, string) {
    if |chunks| == 0 then ([], "")
    else
      var (frames, buf) := Fed(chunks[..|chunks| - 1], parse);
      var (more, rest) := Split(buf + chunks[|chunks| - 1], parse);
      (frames + more, rest)
  }

  /** However a stream is cut into chunks, carriage returns included, its frames and the
      final remainder are those of the whole text. */
  lemma {:induction false} ChunkingDoesNotMatter(chunks: seq<string>, parse: Parser)
    ensures Fed(chunks, parse) == Split(Concat(chunks), parse)
  {
    if |chunks| > 0 {
      var before := chunks[..|chunks| - 1];
      ChunkingDoesNotMatter(before, parse);
      ConcatOne(before, chunks[|chunks| - 1]);
      assert before + [chunks[|chunks| - 1]] == chunks;
      SplitAppend(Concat(before), chunks[|chunks| - 1], parse);
    }
  }
}
