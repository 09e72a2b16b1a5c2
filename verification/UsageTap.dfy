/** The pass-through body stream that looks for an Anthropic response's usage and drives
    the cache guard. The body is a text of characters; reading JSON out of a data line or
    of a whole body is a parameter. */
module UsageTap {
  import opened Wrappers
  import opened Text
  import opened RecencyRun
  import opened CacheTrace

  /** `fromFrame` reads a data line, `fromBody` a whole JSON body. */
  datatype Reader = Reader(fromFrame: string -> Option<Usage>, fromBody: string -> Option<Usage>)

  const USAGE_TAP_SSE_CAP := 64 * 1024
  const USAGE_TAP_JSON_CAP := 4 * 1024 * 1024

  datatype Scan = NotYet | Found(usage: Usage) | Absent

  /** The payload of the first `data:` line that is complete, scanning from `from`. */
  function FirstData(buf: string, from: nat): Option<string>
    requires from <= |buf|
    decreases |buf| - from
  {
    var end := Find(buf, "\n", from);
    if end == |buf| then None
    else if At(buf[from..end], 0, "data:") then Some(Trim(buf[from..end][5..]))
    else FirstData(buf, end + 1)
  }

  /** A complete line of the buffer, its newline at `to`. */
  ghost predicate IsLine(buf: string, from: int, to: int) {
    && 0 <= from <= to < |buf| && buf[to] == '\n' && (from == 0 || buf[from - 1] == '\n')
    && forall i :: from <= i < to ==> buf[i] != '\n'
  }

  ghost predicate IsDataLine(buf: string, from: int, to: int) {
    IsLine(buf, from, to) && "data:" <= buf[from..to]
  }

  /** What is found is the trimmed payload of the first complete line that begins with `data:`;
      nothing is found exactly when there is no such line. */
  lemma {:induction false} FirstDataExactly(buf: string, from: nat)
    requires from <= |buf| && (from == 0 || buf[from - 1] == '\n')
    ensures match FirstData(buf, from)
            case Some(data) =>
              exists a, b :: from <= a && IsDataLine(buf, a, b) && data == Trim(buf[a + 5..b])
                             && forall c, d :: from <= c < a ==> !IsDataLine(buf, c, d)
            case None => forall a, b :: from <= a ==> !IsDataLine(buf, a, b)
    decreases |buf| - from
  {
    var end := Find(buf, "\n", from);
    FirstLineEnds(buf, from);
    if end == |buf| {
      NoLineFrom(buf, from);
    } else {
      DataLineSays(buf, from, end);
      if !IsDataLine(buf, from, end) {
        FirstDataExactly(buf, end + 1);
        NoDataLineBefore(buf, from, end);
      }
    }
  }

  lemma NoLineFrom(buf: string, from: nat)
    requires from <= |buf| && forall i :: from <= i < |buf| ==> buf[i] != '\n'
    ensures forall a, b :: from <= a ==> !IsDataLine(buf, a, b)
  {
  }

  /** What the line at `from` makes of the scan. */
  lemma DataLineSays(buf: string, from: nat, end: nat)
    requires from <= |buf| && end == Find(buf, "\n", from) < |buf| && IsLine(buf, from, end)
    ensures FirstData(buf, from) ==
            if IsDataLine(buf, from, end) then Some(Trim(buf[from + 5..end])) else FirstData(buf, end + 1)
  {
    var line := buf[from..end];
    assert |line| >= 5 ==> line[0..5] == line[..5] && line[5..] == buf[from + 5..end];
  }

  lemma NoDataLineBefore(buf: string, from: nat, end: nat)
    requires IsLine(buf, from, end) && !IsDataLine(buf, from, end)
    ensures forall c, d :: from <= c <= end ==> !IsDataLine(buf, c, d)
  {
    forall c, d | from <= c <= end ensures !IsDataLine(buf, c, d) {
      OnlyOneLine(buf, from, end, c, d);
    }
  }

  lemma FirstLineEnds(buf: string, from: nat)
    requires from <= |buf|
    ensures var end := Find(buf, "\n", from);
            (forall i :: from <= i < end ==> buf[i] != '\n') && (end < |buf| ==> buf[end] == '\n')
  {
    var end := Find(buf, "\n", from);
    NewlineAt(buf, end);
    forall i | from <= i < end ensures buf[i] != '\n' {
      NewlineAt(buf, i);
    }
  }

  /** A line that begins within another is that line. */
  lemma OnlyOneLine(buf: string, from: nat, end: nat, c: int, d: int)
    requires IsLine(buf, from, end) && from <= c <= end
    ensures IsLine(buf, c, d) ==> c == from && d == end
  {
  }

  function ScanOf(buf: string, reader: Reader): Scan {
    match FirstData(buf, 0)
    case None => NotYet
    case Some(data) => ScanData(data, reader)
  }

  function ScanData(data: string, reader: Reader): Scan {
    match reader.fromFrame(data) case Some(u) => Found(u) case None => Absent
  }

  /** What a line says if it is the data line; `ended` lines lose their carriage return. */
  method ScanLine(line: string, ended: bool, reader: Reader) returns (scan: Option<Scan>)
    ensures scan == if At(line, 0, "data:") then Some(ScanData(Trim(line[5..]), reader)) else None
  {
    var seen := if ended then WithoutCr(line) else line;
    CrIsInvisible(line);
    if !At(seen, 0, "data:") {
      return None;
    }
    scan := Some(ScanData(Trim(seen[5..]), reader));
  }

  /** A line as `str::lines` yields it: a carriage return before its newline is not part of it. */
  function WithoutCr(line: string): string {
    if |line| > 0 && line[|line| - 1] == '\r' then line[..|line| - 1] else line
  }

  /** Dropping a carriage return at the end changes neither whether a line is a data line
      nor its trimmed payload. */
  lemma CrIsInvisible(line: string)
    ensures At(WithoutCr(line), 0, "data:") == At(line, 0, "data:")
    ensures At(line, 0, "data:") ==> Trim(WithoutCr(line)[5..]) == Trim(line[5..])
  {
    var short := WithoutCr(line);
    if short != line {
      assert line == short + "\r";
      if |short| >= 5 {
        AtAppend(short, "\r", 0, "data:");
        assert line[5..] == short[5..] + "\r";
        TrimCarriageReturn(short[5..]);
      }
    }
  }

  /** The last newline of `buf` before `end`, or `|buf|`. */
  method LastNewline(buf: string) returns (end: nat)
    ensures end <= |buf|
    ensures end < |buf| ==> buf[end] == '\n' && FirstData(buf, end + 1) == None
    ensures end == |buf| ==> FirstData(buf, 0) == None
  {
    var i := |buf|;
    while i > 0
      invariant 0 <= i <= |buf| && forall k :: i <= k < |buf| ==> buf[k] != '\n'
    {
      i := i - 1;
      if buf[i] == '\n' {
        NothingBehind(buf, i + 1);
        return i;
      }
    }
    NoNewline(buf);
    return |buf|;
  }

  lemma NewlineAt(s: string, i: nat)
    ensures At(s, i, "\n") <==> i < |s| && s[i] == '\n'
  {
    if i < |s| {
      assert s[i..i + 1] == [s[i]];
    }
  }

  /** Before the newline at `end` there is a line at `from`; it is the data line or the scan
      goes on behind it. */
  lemma LineAt(buf: string, from: nat, end: nat)
    requires from <= end < |buf| && buf[end] == '\n'
    ensures Find(buf, "\n", from) <= end
    ensures var line := buf[from..Find(buf, "\n", from)];
            FirstData(buf, from) ==
            if At(line, 0, "data:") then Some(Trim(line[5..])) else FirstData(buf, Find(buf, "\n", from) + 1)
  {
    NewlineAt(buf, end);
  }

  /** `usage_from_sse`: cut at the last newline, go through the lines, and let the first
      data line decide. */
  method UsageFromSse(buf: string, reader: Reader) returns (scan: Scan)
    ensures scan == ScanOf(buf, reader)
  {
    var end := LastNewline(buf);
    if end == |buf| {
      return NotYet;
    }
    var from := 0;
    while from <= end
      invariant from <= end + 1
      invariant FirstData(buf, 0) == FirstData(buf, from)
    {
      var stop := Find(buf, "\n", from);
      var line := buf[from..stop];
      LineAt(buf, from, end);
      // The last line of the cut text keeps a carriage return, the others lose it.
      var seen := ScanLine(line, stop < end, reader);
      if seen.Some? {
        return seen.value;
      }
      from := stop + 1;
    }
    return NotYet;
  }

  lemma NoNewline(buf: string)
    requires '\n' !in buf
    ensures FirstData(buf, 0) == None
  {
    NewlineAt(buf, Find(buf, "\n", 0));
  }

  lemma NothingBehind(buf: string, from: nat)
    requires from <= |buf| && forall i :: from <= i < |buf| ==> buf[i] != '\n'
    ensures FirstData(buf, from) == None
  {
    NewlineAt(buf, Find(buf, "\n", from));
  }

  lemma SameFirstLine(a: string, b: string, from: nat)
    requires from <= |a| && Find(a, "\n", from) < |a|
    ensures Find(a + b, "\n", from) == Find(a, "\n", from)
    ensures (a + b)[from..Find(a, "\n", from)] == a[from..Find(a, "\n", from)]
  {
    FindAppend(a, b, "\n", from);
  }

  /** Text behind a complete line does not change what the scan makes of the line. */
  lemma SameLine(a: string, whole: string, from: nat)
    requires from <= |a| <= |whole| && Find(a, "\n", from) == Find(whole, "\n", from) < |a|
    requires a[from..Find(a, "\n", from)] == whole[from..Find(a, "\n", from)]
    requires FirstData(a, Find(a, "\n", from) + 1).Some? ==>
             FirstData(whole, Find(a, "\n", from) + 1) == FirstData(a, Find(a, "\n", from) + 1)
    ensures FirstData(a, from).Some? ==> FirstData(whole, from) == FirstData(a, from)
  {
  }

  lemma NothingComplete(a: string, from: nat)
    requires from <= |a| && Find(a, "\n", from) == |a|
    ensures FirstData(a, from) == None
  {
  }

  /** Once a data line is complete, more text behind it changes nothing. */
  lemma {:induction false} FirstDataStable(a: string, b: string, whole: string, from: nat)
    requires from <= |a| && whole == a + b
    ensures FirstData(a, from).Some? ==> FirstData(whole, from) == FirstData(a, from)
    decreases |a| - from
  {
    if Find(a, "\n", from) == |a| {
      NothingComplete(a, from);
    } else {
      SameFirstLine(a, b, from);
      FirstDataStable(a, b, whole, Find(a, "\n", from) + 1);
      SameLine(a, whole, from);
    }
  }

  // ---- The tap ----

  datatype Item = Chunk(text: string) | Failed | End | NotReady

  /** The usage a response carries: in the first data line of a stream, or in a JSON body. */
  function UsageOf(body: string, streaming: bool, reader: Reader): Option<Usage> {
    if streaming then match ScanOf(body, reader) case Found(u) => Some(u) case _ => None
    else reader.fromBody(body)
  }

  /** The usage of a stream is what its first data line says, if it says any; that of a JSON body
      is what the body says. */
  lemma UsageExactly(body: string, reader: Reader, usage: Usage)
    ensures UsageOf(body, true, reader) == Some(usage) <==>
            exists a, b :: 0 <= a && IsDataLine(body, a, b) && reader.fromFrame(Trim(body[a + 5..b])) == Some(usage)
                           && forall c, d :: 0 <= c < a ==> !IsDataLine(body, c, d)
    ensures UsageOf(body, false, reader) == reader.fromBody(body)
  {
    FirstDataExactly(body, 0);
    forall a, b, c, d | IsDataLine(body, a, b) && IsDataLine(body, c, d) && 0 <= a == c ensures b == d {
      OnlyOneLine(body, a, b, c, d);
    }
  }

  function Cap(streaming: bool): nat { if streaming then USAGE_TAP_SSE_CAP else USAGE_TAP_JSON_CAP }

  function ItemText(item: Item): string { match item case Chunk(text) => text case _ => "" }

  /** The text of the chunks among `items`. */
  function TextOf(items: seq<Item>, n: nat): string
    requires n <= |items|
  {
    if n == 0 then "" else TextOf(items, n - 1) + ItemText(items[n - 1])
  }

  /** How a tap is set up; one that is not enabled only passes the body on. */
  datatype Setting = Setting(enabled: bool, streaming: bool, reader: Reader)

  /** What a tap holds, whether it has seen the response begin, and what it reported. */
  datatype TapState = TapState(buf: string, done: bool, begun: bool, reported: Option<Usage>)

  function Initial(s: Setting): TapState { TapState("", !s.enabled, false, None) }

  function Finished(t: TapState): TapState { t.(done := true, buf := "") }

  function Buffered(s: Setting, t: TapState, text: string): TapState {
    if |t.buf| + |text| > Cap(s.streaming) then Finished(t)
    else if !s.streaming then t.(buf := t.buf + text)
    else
      match ScanOf(t.buf + text, s.reader)
      case NotYet => t.(buf := t.buf + text)
      case Found(u) => Finished(t.(reported := Some(u)))
      case Absent => Finished(t)
  }

  /** A tap after one item. */
  function Polled(s: Setting, t: TapState, item: Item): TapState {
    if t.done then t
    else
      match item
      case Chunk(text) => Buffered(s, t.(begun := true), text)
      case Failed => Finished(t)
      case End => Finished(if s.streaming then t else t.(reported := s.reader.fromBody(t.buf)))
      case NotReady => t
  }

  /** A tap after the first `n` items. */
  function PolledTo(s: Setting, items: seq<Item>, n: nat): TapState
    requires n <= |items|
  {
    if n == 0 then Initial(s) else Polled(s, PolledTo(s, items, n - 1), items[n - 1])
  }

  // ---- What a tap reports ----

  /** The body is still coming: nothing among its first `n` items ends it. */
  ghost predicate Open(s: Setting, items: seq<Item>, n: nat)
    requires n <= |items|
  {
    s.enabled && forall i :: 0 <= i < n ==> items[i].Chunk? || items[i].NotReady?
  }

  /** The first `n` items say what the usage is: their text is within the cap, and completes
      a data line of a stream, or is a whole JSON body. */
  ghost predicate Reads(s: Setting, items: seq<Item>, n: nat)
    requires n <= |items|
  {
    && |TextOf(items, n)| <= Cap(s.streaming)
    && (if s.streaming then Open(s, items, n) && Decided(items, n, s.reader)
        else n > 0 && Open(s, items, n - 1) && items[n - 1].End?)
  }

  ghost predicate Decided(items: seq<Item>, n: nat, reader: Reader)
    requires n <= |items|
  {
    !ScanOf(TextOf(items, n), reader).NotYet?
  }

  ghost predicate NeverReads(s: Setting, items: seq<Item>, n: nat)
    requires n <= |items|
  {
    forall k :: 0 <= k <= n ==> !Reads(s, items, k)
  }

  ghost function UsageTo(s: Setting, items: seq<Item>, n: nat): Option<Usage>
    requires n <= |items|
  {
    UsageOf(TextOf(items, n), s.streaming, s.reader)
  }

  /** What is reported of the first `n` items: the usage in any of them that say it, and
      nothing where none do. */
  ghost predicate Reports(s: Setting, items: seq<Item>, n: nat, reported: Option<Usage>)
    requires n <= |items|
  {
    && (forall k :: 0 <= k <= n && Reads(s, items, k) ==> reported == UsageTo(s, items, k))
    && (NeverReads(s, items, n) ==> reported == None)
  }

  /** Whether one of the first `n` items is a chunk that came while the body was open. */
  ghost predicate Began(s: Setting, items: seq<Item>, n: nat)
    requires n <= |items|
  {
    exists i :: 0 <= i < n && items[i].Chunk? && Open(s, items, i)
  }

  lemma TextDecides(text: string, more: string, reader: Reader)
    requires !ScanOf(text, reader).NotYet?
    ensures ScanOf(text + more, reader) == ScanOf(text, reader)
  {
    FirstDataStable(text, more, text + more, 0);
  }

  /** The text grows at its end, and a data line once complete stays the one that decides. */
  lemma {:induction false} ScanStays(items: seq<Item>, m: nat, n: nat, reader: Reader)
    requires m <= n <= |items|
    ensures |TextOf(items, m)| <= |TextOf(items, n)|
    ensures Decided(items, m, reader) ==> Decided(items, n, reader)
    ensures Decided(items, m, reader) ==>
            UsageOf(TextOf(items, n), true, reader) == UsageOf(TextOf(items, m), true, reader)
  {
    if m < n {
      ScanStays(items, m, n - 1, reader);
      if Decided(items, n - 1, reader) {
        TextDecides(TextOf(items, n - 1), ItemText(items[n - 1]), reader);
      }
    }
  }

  /** While a tap is scanning it holds the text so far, which says nothing yet; once it is
      done nothing that follows can say more. */
  ghost predicate Tracks(s: Setting, items: seq<Item>, n: nat, t: TapState)
    requires n <= |items|
  {
    && Reports(s, items, n, t.reported)
    && (t.begun <==> Began(s, items, n))
    && if t.done then Open(s, items, n) ==> t.begun && Spent(s, items, n)
       else Open(s, items, n) && NeverReads(s, items, n) && t.buf == TextOf(items, n) && |t.buf| <= Cap(s.streaming)
  }

  ghost predicate Spent(s: Setting, items: seq<Item>, n: nat)
    requires n <= |items|
  {
    |TextOf(items, n)| > Cap(s.streaming) || (s.streaming && !NeverReads(s, items, n))
  }

  /** A tap that is done stays right. */
  lemma DoneTracks(s: Setting, items: seq<Item>, n: nat, t: TapState)
    requires n < |items| && Tracks(s, items, n, t) && t.done
    ensures Tracks(s, items, n + 1, t)
  {
    ScanStays(items, n, n + 1, s.reader);
    if Reads(s, items, n + 1) {
      var k :| 0 <= k <= n && Reads(s, items, k);
      ScanStays(items, k, n + 1, s.reader);
    }
    assert NeverReads(s, items, n + 1) ==> NeverReads(s, items, n);
  }

  /** An item that decides does so alone. */
  lemma FirstReads(s: Setting, items: seq<Item>, n: nat, t: TapState)
    requires n < |items| && NeverReads(s, items, n)
    ensures Reports(s, items, n + 1, if Reads(s, items, n + 1) then UsageTo(s, items, n + 1) else None)
    ensures NeverReads(s, items, n + 1) <==> !Reads(s, items, n + 1)
  {
  }

  lemma ChunkTracks(s: Setting, items: seq<Item>, n: nat, t: TapState)
    requires n < |items| && Tracks(s, items, n, t) && !t.done && t.reported == None && items[n].Chunk?
    ensures Tracks(s, items, n + 1, Polled(s, t, items[n]))
  {
    FirstReads(s, items, n, t);
    assert Began(s, items, n + 1);
  }

  lemma OtherTracks(s: Setting, items: seq<Item>, n: nat, t: TapState)
    requires n < |items| && Tracks(s, items, n, t) && !t.done && t.reported == None && !items[n].Chunk?
    ensures Tracks(s, items, n + 1, Polled(s, t, items[n]))
  {
    FirstReads(s, items, n, t);
    assert TextOf(items, n + 1) == TextOf(items, n);
    assert !Reads(s, items, n);
  }

  lemma {:induction false} PolledTracks(s: Setting, items: seq<Item>, n: nat)
    requires n <= |items|
    ensures Tracks(s, items, n, PolledTo(s, items, n))
  {
    if n == 0 {
      NoNewline("");
    } else {
      var t := PolledTo(s, items, n - 1);
      PolledTracks(s, items, n - 1);
      if t.done {
        DoneTracks(s, items, n - 1, t);
      } else if items[n - 1].Chunk? {
        ChunkTracks(s, items, n - 1, t);
      } else {
        OtherTracks(s, items, n - 1, t);
      }
    }
  }

  /** What is reported of a stream is the usage of all of it, however long it goes on, if
      any of its first items say it. */
  lemma StreamReport(s: Setting, items: seq<Item>, n: nat, reported: Option<Usage>)
    requires n <= |items| && Reports(s, items, n, reported) && s.streaming
    ensures reported == if NeverReads(s, items, n) then None else UsageTo(s, items, n)
  {
    if !NeverReads(s, items, n) {
      var k :| 0 <= k <= n && Reads(s, items, k);
      ScanStays(items, k, n, s.reader);
    }
  }

  /** A body that ends within the cap. */
  ghost predicate EndsWithin(s: Setting, items: seq<Item>) {
    var n := |items|;
    n > 0 && Open(s, items, n - 1) && items[n - 1].End? && |TextOf(items, n)| <= Cap(s.streaming)
  }

  /** A body that ends within the cap is reported as a whole. */
  lemma WholeReport(s: Setting, items: seq<Item>, reported: Option<Usage>)
    requires Reports(s, items, |items|, reported) && EndsWithin(s, items)
    ensures reported == UsageTo(s, items, |items|)
  {
    var n := |items|;
    if s.streaming {
      StreamReport(s, items, n, reported);
      assert TextOf(items, n) == TextOf(items, n - 1);
      assert Decided(items, n, s.reader) ==> Reads(s, items, n - 1);
    } else {
      assert Reads(s, items, n);
    }
  }

  lemma ReportSays(s: Setting, items: seq<Item>, reported: Option<Usage>)
    requires Reports(s, items, |items|, reported)
    ensures (s.streaming && reported.Some?) || EndsWithin(s, items) ==> reported == UsageTo(s, items, |items|)
  {
    if s.streaming {
      StreamReport(s, items, |items|, reported);
    }
    if EndsWithin(s, items) {
      WholeReport(s, items, reported);
    }
  }

  /** Both tables of the guard's tracker took what the guard said. */
  twostate predicate TablesTold(guard: InflightGuard, verdict: Option<bool>)
    requires guard.number > 0
    reads guard.tracker.prefix, guard.tracker.tools
  {
    && guard.tracker.prefix.run == Told(old(guard.tracker.prefix.run), guard.number, verdict)
    && guard.tracker.tools.run == Told(old(guard.tracker.tools.run), guard.number, verdict)
  }

  /** The tables and settles of a guard at one time. */
  datatype Ledger = Ledger(started: bool, settles: seq<bool>, prefix: Run<Key>, tools: Run<Key>)

  ghost function LedgerOf(guard: InflightGuard): Ledger
    reads guard, guard.tracker.prefix, guard.tracker.tools
  {
    Ledger(guard.started, guard.settles, guard.tracker.prefix.run, guard.tracker.tools.run)
  }

  /** The ledger once the guard has settled as succeeded. */
  ghost function Settled(before: Ledger, number: nat): Ledger
    requires number > 0
  {
    Ledger(true, if before.started then before.settles else [true],
           Told(before.prefix, number, Some(true)), Told(before.tools, number, Some(true)))
  }

  class Tap {
    const setting: Setting
    const guard: InflightGuard?
    var buf: string
    var done: bool
    /** Whether the response has begun, and the usage reported. */
    ghost var begun: bool
    ghost var reported: Option<Usage>

    ghost function State(): TapState
      reads this
    {
      TapState(buf, done, begun, reported)
    }

    /** The guard's line is written exactly when a usage was reported, and carries it. */
    ghost predicate Valid()
      reads this, guard, if guard == null then {} else {guard.tracker, guard.tracker.prefix, guard.tracker.tools}
    {
      && (!done ==> reported == None)
      && (guard != null ==> guard.Valid() && guard.lines == if reported.Some? then [reported] else [])
    }

    constructor (setting: Setting, guard: InflightGuard?)
      requires guard != null ==> guard.Valid() && guard.lines == []
      ensures Valid() && State() == Initial(setting)
      ensures this.setting == setting && this.guard == guard
    {
      this.setting, this.guard := setting, guard;
      buf, done, begun, reported := "", !setting.enabled, false, None;
    }

    method Finish()
      modifies this`buf, this`done
      ensures State() == Finished(old(State()))
    {
      done, buf := true, "";
    }

    method Report(usage: Usage)
      requires Valid() && !done
      modifies this`reported, this`done, this`buf, if guard == null then {} else {guard}
      ensures Valid() && State() == Finished(old(State()).(reported := Some(usage)))
      ensures guard != null ==> guard.settles == old(guard.settles) && guard.started == old(guard.started)
    {
      if guard != null {
        guard.Complete(Some(usage));
      }
      reported := Some(usage);
      Finish();
    }

    /** The first chunk is the response beginning; each is scanned until the usage is found. */
    method Observe(chunk: string)
      requires Valid() && !done
      modifies this, if guard == null then {} else {guard, guard.tracker.prefix, guard.tracker.tools}
      ensures Valid() && State() == Polled(setting, old(State()), Chunk(chunk))
      ensures guard != null ==>
              guard.started && guard.settles == if old(guard.started) then old(guard.settles) else [true]
      ensures guard != null ==> TablesTold(guard, Some(true)) && (old(guard.started) ==> TablesTold(guard, None))
    {
      if guard != null {
        guard.Finish(true);
      }
      begun := true;
      Buffer(chunk);
    }

    method Buffer(chunk: string)
      requires Valid() && !done
      modifies this, if guard == null then {} else {guard}
      ensures Valid() && State() == Buffered(setting, old(State()), chunk)
      ensures guard != null ==> guard.settles == old(guard.settles) && guard.started == old(guard.started)
    {
      if |buf| + |chunk| > Cap(setting.streaming) {
        Finish();
        return;
      }
      buf := buf + chunk;
      if setting.streaming {
        var scan := UsageFromSse(buf, setting.reader);
        match scan {
          case NotYet =>
          case Found(u) => Report(u);
          case Absent => Finish();
        }
      }
    }

    /** End of the body: a JSON body is read now. */
    method Eof()
      requires Valid() && !done
      modifies this, if guard == null then {} else {guard}
      ensures Valid() && State() == Polled(setting, old(State()), End)
      ensures guard != null ==> guard.settles == old(guard.settles) && guard.started == old(guard.started)
    {
      if !setting.streaming {
        var usage := setting.reader.fromBody(buf);
        if usage.Some? {
          Report(usage.value);
        }
      }
      Finish();
    }

    /** `poll_next`: what arrives is handed on as it is. */
    method Poll(item: Item) returns (out: Item)
      requires Valid()
      modifies this, if guard == null then {} else {guard, guard.tracker.prefix, guard.tracker.tools}
      ensures out == item && Valid() && State() == Polled(setting, old(State()), item)
      ensures guard != null && !(item.Chunk? && !old(done)) ==>
              guard.settles == old(guard.settles) && guard.started == old(guard.started)
      ensures guard != null && item.Chunk? && !old(done) ==>
                guard.started && guard.settles == if old(guard.started) then old(guard.settles) else [true]
      ensures guard != null ==> TablesTold(guard, if item.Chunk? && !old(done) then Some(true) else None)
      ensures guard != null && old(guard.started) ==> TablesTold(guard, None)
    {
      if !done {
        match item {
          case Chunk(text) => Observe(text);
          case Failed => Finish();
          case End => Eof();
          case NotReady =>
        }
      }
      out := item;
    }

    /** One item of a run. A chunk of the open body settles the guard, nothing else does. */
    method PollNext(item: Item, ghost before: Ledger, ghost after: Ledger) returns (out: Item)
      requires Valid()
      requires guard != null ==> after == Settled(before, guard.number)
      requires guard != null ==> LedgerOf(guard) == if begun then after else before
      modifies this, if guard == null then {} else {guard, guard.tracker.prefix, guard.tracker.tools}
      ensures Valid() && out == item && State() == Polled(setting, old(State()), item)
      ensures guard != null ==> LedgerOf(guard) == if begun then after else before
    {
      out := Poll(item);
    }

    /** The first `n` items of a run, polled one after the other. */
    method PollFirst(items: seq<Item>, n: nat, ghost before: Ledger, ghost after: Ledger) returns (out: seq<Item>)
      requires Valid() && State() == Initial(setting) && n <= |items|
      requires guard != null ==> LedgerOf(guard) == before && after == Settled(before, guard.number)
      modifies this, if guard == null then {} else {guard, guard.tracker.prefix, guard.tracker.tools}
      ensures Valid() && out == items[..n] && State() == PolledTo(setting, items, n)
      ensures guard != null ==> LedgerOf(guard) == if begun then after else before
    {
      if n == 0 {
        return [];
      }
      out := PollFirst(items, n - 1, before, after);
      var o := PollNext(items[n - 1], before, after);
      out := out + [o];
    }

    /** The tap goes, with its guard. */
    method Drop()
      requires Valid()
      modifies if guard == null then {} else {guard, guard.tracker.prefix, guard.tracker.tools}
      ensures guard != null ==>
                && guard.Valid() && guard.started && guard.lines == [reported]
                && guard.settles == (if old(guard.started) then old(guard.settles) else [false])
                && TablesTold(guard, Some(false)) && (old(guard.started) ==> TablesTold(guard, None))
    {
      if guard != null {
        guard.Drop();
      }
    }

    /** Any run of a tap: chunks cut in any way, pauses, a failure, the end or none of it, and
        then the drop. Every item comes out unchanged; the guard's one line carries the usage
        that some first items within the cap say, and none where none do; the tables are told
        once, of success exactly when a chunk of the open body came. */
    method PassBody(items: seq<Item>) returns (out: seq<Item>)
      requires Valid() && State() == Initial(setting)
      modifies this, if guard == null then {} else {guard, guard.tracker.prefix, guard.tracker.tools}
      ensures out == items && Reports(setting, items, |items|, reported)
      ensures setting.streaming && reported.Some? ==> reported == UsageTo(setting, items, |items|)
      ensures EndsWithin(setting, items) ==> reported == UsageTo(setting, items, |items|)
      ensures guard != null ==>
                && guard.Valid() && guard.started && guard.lines == [reported]
                && guard.settles ==
                   (if old(guard.started) then old(guard.settles) else [Began(setting, items, |items|)])
                && TablesTold(guard, Some(Began(setting, items, |items|)))
    {
      ghost var before := if guard == null then Ledger(false, [], Start(0), Start(0)) else LedgerOf(guard);
      ghost var after := if guard == null then before else Settled(before, guard.number);
      out := PollFirst(items, |items|, before, after);
      PolledTracks(setting, items, |items|);
      ReportSays(setting, items, reported);
      Drop();
    }
  }
}
