/** Turns a Responses event stream into Chat Completions chunks. */
module SseTranslator {
  import opened Wrappers
  import opened Json

  datatype Kind = TextDelta | ItemAdded | ArgumentsDelta | ItemDone | Completed | Failed | OtherKind

  function KindOf(event: string): Kind {
    if event == "response.output_text.delta" then TextDelta
    else if event == "response.output_item.added" then ItemAdded
    else if event == "response.function_call_arguments.delta" then ArgumentsDelta
    else if event == "response.output_item.done" then ItemDone
    else if event == "response.completed" then Completed
    else if event == "response.failed" || event == "error" then Failed
    else OtherKind
  }

  /** An event: what its name says, and its data. */
  type Event = (Kind, Value)

  datatype Reason = Stop | ToolCalls | Length

  /** The deltas a client receives, without their constant envelope. */
  datatype Chunk =
    | Role
    | Content(text: string)
    | CallStart(index: nat, id: Value, name: Value)
    | CallArguments(index: nat, text: string)
    | Finish(reason: Reason)
    | Error(message: string)

  datatype Cursor = Cursor(roleSent: bool, nextIndex: nat, itemIndex: map<string, nat>, sawToolCall: bool,
      finished: bool)

  const FRESH := Cursor(false, 0, map[], false, false)

  function IsCall(item: Value): bool { GetStr(item, "type") == Some("function_call") }

  /** The message of an error event: nested in a response, at the top, or a default. */
  function ErrorMessage(data: Value): string {
    var nested := match Get(data, "response")
                  case None => None
                  case Some(r) => match Get(r, "error") case None => None case Some(e) => Get(e, "message");
    match nested
    case Some(v) => if v.Str? then v.s else "codex stream failed"
    case None => GetStr(data, "message").GetOr("codex stream failed")
  }

  function Terminal(c: Cursor): seq<Chunk> {
    if c.finished then [] else [Finish(if c.sawToolCall then ToolCalls else Stop)]
  }

  /** What one event does to a cursor whose role is sent. */
  function React(c: Cursor, kind: Kind, data: Value): (Cursor, seq<Chunk>) {
    match kind
    case TextDelta =>
      (c, match GetStr(data, "delta") case Some(d) => [Content(d)] case None => [])
    case ItemAdded =>
      var item := GetOrNull(data, "item");
      if !IsCall(item) then (c, [])
      else
        (c.(sawToolCall := true, nextIndex := c.nextIndex + 1,
            itemIndex :=
              match GetStr(item, "id")
              case Some(id) => c.itemIndex[id := c.nextIndex]
              case None => c.itemIndex),
         [CallStart(c.nextIndex, GetOrNull(item, "call_id"), GetOrNull(item, "name"))])
    case ArgumentsDelta =>
      (c, match (GetStr(data, "item_id"), GetStr(data, "delta"))
          case (Some(id), Some(d)) => if id in c.itemIndex then [CallArguments(c.itemIndex[id], d)] else []
          case _ => [])
    case Completed => (c.(finished := true), Terminal(c))
    case Failed => (c.(finished := true), [Error(ErrorMessage(data))])
    case _ => (c, [])
  }

  function Pushed(c: Cursor, kind: Kind, data: Value): (Cursor, seq<Chunk>) {
    var (c', out) := React(c.(roleSent := true), kind, data);
    (c', (if c.roleSent then [] else [Role]) + out)
  }

  class Translator {
    var roleSent: bool
    var nextIndex: nat
    var itemIndex: map<string, nat>
    var sawToolCall: bool
    var finished: bool

    function State(): Cursor
      reads this
    {
      Cursor(roleSent, nextIndex, itemIndex, sawToolCall, finished)
    }

    constructor ()
      ensures State() == FRESH
    {
      roleSent, nextIndex, itemIndex, sawToolCall, finished := false, 0, map[], false, false;
    }

    /** Feeds one event under the name the splitter gave it. */
    method Push(event: string, data: Value) returns (out: seq<Chunk>)
      modifies this
      ensures (State(), out) == Pushed(old(State()), KindOf(event), data)
    {
      out := PushKind(KindOf(event), data);
    }

    method PushKind(kind: Kind, data: Value) returns (out: seq<Chunk>)
      modifies this
      ensures (State(), out) == Pushed(old(State()), kind, data)
    {
      out := [];
      if !roleSent {
        roleSent := true;
        out := [Role];
      }
      assert out + [] == out;
      match kind {
        case TextDelta =>
          var d := GetStr(data, "delta");
          if d.Some? {
            out := out + [Content(d.value)];
          }
        case ItemAdded =>
          var item := GetOrNull(data, "item");
          if IsCall(item) {
            sawToolCall := true;
            var index := nextIndex;
            nextIndex := nextIndex + 1;
            var id := GetStr(item, "id");
            if id.Some? {
              itemIndex := itemIndex[id.value := index];
            }
            out := out + [CallStart(index, GetOrNull(item, "call_id"), GetOrNull(item, "name"))];
          }
        case ArgumentsDelta =>
          var id := GetStr(data, "item_id");
          if id.Some? && id.value in itemIndex {
            var d := GetStr(data, "delta");
            if d.Some? {
              out := out + [CallArguments(itemIndex[id.value], d.value)];
            }
          }
        case Completed =>
          var last := FinishStream();
          out := out + last;
        case Failed =>
          finished := true;
          out := out + [Error(ErrorMessage(data))];
        case _ =>
      }
    }

    /** The terminal chunk, once. */
    method FinishStream() returns (out: seq<Chunk>)
      modifies this`finished
      ensures finished && out == Terminal(old(State()))
    {
      if finished {
        return [];
      }
      finished := true;
      out := [Finish(if sawToolCall then ToolCalls else Stop)];
    }
  }

  // ---- Events by name ----

  /** What an announced item sends: a call starts at the next index, under its id if it has one. */
  ghost predicate Announces(c: Cursor, item: Value, c': Cursor, more: seq<Chunk>) {
    if GetStr(item, "type") == Some("function_call") then
      && more == [CallStart(c.nextIndex, GetOrNull(item, "call_id"), GetOrNull(item, "name"))]
      && c'.nextIndex == c.nextIndex + 1 && c'.sawToolCall && c'.finished == c.finished
      && (forall id :: GetStr(item, "id") == Some(id) ==> c'.itemIndex == c.itemIndex[id := c.nextIndex])
      && (GetStr(item, "id") == None ==> c'.itemIndex == c.itemIndex)
    else more == [] && c' == c.(roleSent := true)
  }

  /** Arguments go to the index their item was announced under; without one they go nowhere. */
  ghost predicate Argues(c: Cursor, data: Value, more: seq<Chunk>) {
    match (GetStr(data, "item_id"), GetStr(data, "delta"))
    case (Some(id), Some(text)) => more == if id in c.itemIndex then [CallArguments(c.itemIndex[id], text)] else []
    case _ => more == []
  }

  /** What is sent behind the role for the event of each name, and that any other name sends
      nothing. */
  ghost predicate Answers(name: string, c: Cursor, data: Value, c': Cursor, more: seq<Chunk>) {
    if name == "response.output_text.delta" then
      && c' == c.(roleSent := true)
      && (forall text :: GetStr(data, "delta") == Some(text) ==> more == [Content(text)])
      && (GetStr(data, "delta") == None ==> more == [])
    else if name == "response.output_item.added" then Announces(c, GetOrNull(data, "item"), c', more)
    else if name == "response.function_call_arguments.delta" then c' == c.(roleSent := true) && Argues(c, data, more)
    else if name == "response.completed" then
      && c' == c.(roleSent := true, finished := true)
      && more == if c.finished then [] else [Finish(if c.sawToolCall then ToolCalls else Stop)]
    else if name == "response.failed" || name == "error" then
      && c' == c.(roleSent := true, finished := true)
      && exists message :: more == [Error(message)] && Explains(data, message)
    else c' == c.(roleSent := true) && more == []
  }

  /** The message of a failure: what the response says, else what the event says, else a phrase. */
  ghost predicate Explains(data: Value, message: string) {
    var nested := Get(GetOrNull(GetOrNull(data, "response"), "error"), "message");
    || nested == Some(Str(message))
    || (nested == None && Get(data, "message") == Some(Str(message)))
    || (message == "codex stream failed"
        && (nested == None ==> GetStr(data, "message") == None) && forall s: string :: nested != Some(Str(s)))
  }

  lemma ErrorIsExplained(data: Value)
    ensures Explains(data, ErrorMessage(data))
  {
  }

  /** A translator fed an event by its name: the role once, and then what the name stands for. */
  lemma PushByName(c: Cursor, name: string, data: Value)
    ensures var (c', out) := Pushed(c, KindOf(name), data);
            var start := if c.roleSent then [] else [Role];
            c'.roleSent && start <= out && Answers(name, c, data, c', out[|start|..])
  {
    var (c', more) := React(c.(roleSent := true), KindOf(name), data);
    var start := if c.roleSent then [] else [Role];
    assert (start + more)[|start|..] == more;
    NameAnswers(name, c, data);
  }

  lemma NameAnswers(name: string, c: Cursor, data: Value)
    ensures var (c', more) := React(c.(roleSent := true), KindOf(name), data); Answers(name, c, data, c', more)
  {
    ErrorIsExplained(data);
  }

  // ---- Whole streams ----

  /** The cursor and everything sent after the first `n` events. */
  function Ran(events: seq<Event>, n: nat): (Cursor, seq<Chunk>)
    requires n <= |events|
  {
    if n == 0 then (FRESH, [])
    else
      var (c, out) := Ran(events, n - 1);
      var (c', more) := Pushed(c, events[n - 1].0, events[n - 1].1);
      (c', out + more)
  }

  /** A stream that was closed after its events: the end of the stream finishes it. */
  function Streamed(events: seq<Event>): seq<Chunk> {
    var (c, out) := Ran(events, |events|);
    out + Terminal(c)
  }

  /** How many calls the first `n` chunks announce. */
  function Starts(out: seq<Chunk>, n: nat): nat
    requires n <= |out|
  {
    if n == 0 then 0 else Starts(out, n - 1) + if out[n - 1].CallStart? then 1 else 0
  }

  lemma {:induction false} StartsPrefix(out: seq<Chunk>, more: seq<Chunk>, n: nat)
    requires n <= |out|
    ensures Starts(out + more, n) == Starts(out, n)
  {
    if n > 0 {
      StartsPrefix(out, more, n - 1);
    }
  }

  /** What a client may rely on, at position `i` of what it received. */
  ghost predicate ChunkFits(out: seq<Chunk>, i: nat)
    requires i < |out|
  {
    match out[i]
    case Role => i == 0
    case CallStart(index, _, _) => index == Starts(out, i)
    case CallArguments(index, _) => index < Starts(out, i)
    case Finish(reason) =>
      && (reason == if Starts(out, i) > 0 then ToolCalls else Stop)
      && (forall j :: 0 <= j < i ==> !out[j].Finish? && !out[j].Error?)
    case _ => true
  }

  /** The role comes first and once; calls are announced with indices 0, 1, 2, …; arguments
      go to an announced index; a finish chunk is unique, follows no error, and says
      `tool_calls` exactly when a call was announced before it. */
  ghost predicate Fits(out: seq<Chunk>) {
    && (out != [] ==> out[0] == Role)
    && (forall i :: 0 <= i < |out| ==> ChunkFits(out, i))
  }

  ghost predicate CursorFits(c: Cursor, out: seq<Chunk>) {
    && Fits(out) && (c.roleSent <==> out != [])
    && c.nextIndex == Starts(out, |out|) && (c.sawToolCall <==> c.nextIndex > 0)
    && (forall id :: id in c.itemIndex ==> c.itemIndex[id] < c.nextIndex)
    && (c.finished <==> exists i :: 0 <= i < |out| && (out[i].Finish? || out[i].Error?))
  }

  /** One more chunk keeps what was there and must itself fit. */
  lemma AppendFits(out: seq<Chunk>, chunk: Chunk)
    requires Fits(out) && out != [] && ChunkFits(out + [chunk], |out|)
    ensures Fits(out + [chunk])
  {
    forall i | 0 <= i < |out| ensures ChunkFits(out + [chunk], i) {
      StartsPrefix(out, [chunk], i);
      assert ChunkFits(out, i);
    }
  }

  /** A chunk that `c` may send, leaving `c'`. */
  ghost predicate Sends(c: Cursor, chunk: Chunk, c': Cursor) {
    match chunk
    case Role => false
    case Content(_) => c' == c
    case CallArguments(index, _) => c' == c && index < c.nextIndex
    case CallStart(index, _, _) =>
      && index == c.nextIndex && c'.nextIndex == index + 1 && c'.sawToolCall
      && c'.finished == c.finished && c'.roleSent == c.roleSent
      && (forall id :: id in c'.itemIndex ==>
          (id in c.itemIndex && c'.itemIndex[id] == c.itemIndex[id]) || c'.itemIndex[id] == index)
    case Finish(reason) =>
      !c.finished && c' == c.(finished := true) && reason == if c.sawToolCall then ToolCalls else Stop
    case Error(_) => c' == c.(finished := true)
  }

  lemma SendFits(c: Cursor, out: seq<Chunk>, chunk: Chunk, c': Cursor)
    requires CursorFits(c, out) && c.roleSent && Sends(c, chunk, c')
    ensures CursorFits(c', out + [chunk])
  {
    var more := out + [chunk];
    StartsPrefix(out, [chunk], |out|);
    AppendFits(out, chunk);
    assert Starts(more, |more|) == Starts(out, |out|) + if chunk.CallStart? then 1 else 0;
    if c.finished {
      var i :| 0 <= i < |out| && (out[i].Finish? || out[i].Error?);
      assert more[i] == out[i];
    } else if c'.finished {
      assert more[|out|] == chunk;
    }
  }

  lemma ReactSends(c: Cursor, kind: Kind, data: Value)
    requires forall id :: id in c.itemIndex ==> c.itemIndex[id] < c.nextIndex
    ensures var (c', more) := React(c, kind, data);
            (more == [] && c' == c) || (|more| == 1 && Sends(c, more[0], c'))
  {
  }

  lemma ReactFits(c: Cursor, out: seq<Chunk>, kind: Kind, data: Value)
    requires CursorFits(c, out) && c.roleSent
    ensures var (c', more) := React(c, kind, data); CursorFits(c', out + more)
  {
    ReactSends(c, kind, data);
    var (c', more) := React(c, kind, data);
    if more == [] {
      assert out + more == out;
    } else {
      assert more == [more[0]];
      SendFits(c, out, more[0], c');
    }
  }

  lemma PushFits(c: Cursor, out: seq<Chunk>, kind: Kind, data: Value)
    requires CursorFits(c, out)
    ensures var (c', more) := Pushed(c, kind, data); CursorFits(c', out + more)
  {
    var start := if c.roleSent then [] else [Role];
    var (c', more) := React(c.(roleSent := true), kind, data);
    assert out + (start + more) == out + start + more;
    if c.roleSent {
      assert out + start == out;
    } else {
      assert out + start == [Role];
    }
    ReactFits(c.(roleSent := true), out + start, kind, data);
  }

  lemma {:induction false} RanFits(events: seq<Event>, n: nat)
    requires n <= |events|
    ensures CursorFits(Ran(events, n).0, Ran(events, n).1)
  {
    if n > 0 {
      RanFits(events, n - 1);
      var (c, out) := Ran(events, n - 1);
      PushFits(c, out, events[n - 1].0, events[n - 1].1);
    }
  }

  /** For every event sequence, well-formed or not, the client is told of an end, by a finish
      chunk or an error, and what it receives fits if and only if there was an event: a stream
      that closes before its first event is finished without a role. */
  lemma StreamFits(events: seq<Event>)
    ensures var out := Streamed(events);
            && (Fits(out) <==> |events| > 0)
            && ((exists i :: 0 <= i < |out| && out[i].Finish?) || (exists i :: 0 <= i < |out| && out[i].Error?))
  {
    if |events| > 0 {
      EventfulStreamFits(events);
    } else {
      assert Streamed(events) == [Finish(Stop)];
      assert Streamed(events)[0].Finish?;
    }
  }

  lemma EventfulStreamFits(events: seq<Event>)
    requires |events| > 0
    ensures var out := Streamed(events);
            && Fits(out)
            && ((exists i :: 0 <= i < |out| && out[i].Finish?) || (exists i :: 0 <= i < |out| && out[i].Error?))
  {
    RanFits(events, |events|);
    RoleSent(events, |events|);
    var (c, out) := Ran(events, |events|);
    if c.finished {
      assert out + Terminal(c) == out;
    } else {
      var last := Terminal(c)[0];
      StartsPrefix(out, [last], |out|);
      AppendFits(out, last);
      assert (out + [last])[|out|].Finish?;
    }
  }

  lemma RoleSent(events: seq<Event>, n: nat)
    requires 0 < n <= |events|
    ensures Ran(events, n).0.roleSent
  {
  }

  // ---- Which call an argument delta belongs to ----

  /** The id under which an event announces a call. */
  function AnnouncedId(event: Event): Option<string> {
    var item := GetOrNull(event.1, "item");
    if event.0.ItemAdded? && IsCall(item) then GetStr(item, "id") else None
  }

  predicate IsAnnouncement(event: Event) { event.0.ItemAdded? && IsCall(GetOrNull(event.1, "item")) }

  /** How many calls the first `n` events announce, and the index the next one will get. */
  function CallsBefore(events: seq<Event>, n: nat): nat
    requires n <= |events|
  {
    if n == 0 then 0 else CallsBefore(events, n - 1) + if IsAnnouncement(events[n - 1]) then 1 else 0
  }

  /** The index each id was last announced under. */
  function Indices(events: seq<Event>, n: nat): map<string, nat>
    requires n <= |events|
  {
    if n == 0 then map[]
    else
      match AnnouncedId(events[n - 1])
      case Some(id) => Indices(events, n - 1)[id := CallsBefore(events, n - 1)]
      case None => Indices(events, n - 1)
  }

  lemma PushIndex(c: Cursor, event: Event)
    ensures var c' := Pushed(c, event.0, event.1).0;
            && c'.nextIndex == c.nextIndex + (if IsAnnouncement(event) then 1 else 0)
            && c'.itemIndex ==
               match AnnouncedId(event)
               case Some(id) => c.itemIndex[id := c.nextIndex]
               case None => c.itemIndex
  {
  }

  lemma {:induction false} CursorIndices(events: seq<Event>, n: nat)
    requires n <= |events|
    ensures Ran(events, n).0.itemIndex == Indices(events, n) && Ran(events, n).0.nextIndex == CallsBefore(events, n)
  {
    if n > 0 {
      CursorIndices(events, n - 1);
      PushIndex(Ran(events, n - 1).0, events[n - 1]);
    }
  }

  /** The last of the first `n` events that announces a call under `id`. */
  function LatestAnnouncement(events: seq<Event>, n: nat, id: string): (r: Option<nat>)
    requires n <= |events|
    ensures r.Some? ==> r.value < n && AnnouncedId(events[r.value]) == Some(id)
    ensures forall j :: (if r.Some? then r.value + 1 else 0) <= j < n ==> AnnouncedId(events[j]) != Some(id)
  {
    if n == 0 then None
    else if AnnouncedId(events[n - 1]) == Some(id) then Some(n - 1)
    else LatestAnnouncement(events, n - 1, id)
  }

  lemma {:induction false} IndexOfLatest(events: seq<Event>, n: nat, id: string)
    requires n <= |events|
    ensures match LatestAnnouncement(events, n, id)
            case None => id !in Indices(events, n)
            case Some(i) => id in Indices(events, n) && Indices(events, n)[id] == CallsBefore(events, i)
  {
    if n > 0 {
      IndexOfLatest(events, n - 1, id);
    }
  }

  /** An argument delta is sent on to the index its item id was last announced under, the
      number of calls announced before that, and to no other; without an announcement it
      is dropped. A first event opens the stream with the role. */
  lemma ArgumentsFollowAnnouncement(events: seq<Event>, n: nat, id: string, delta: string)
    requires n < |events| && events[n].0.ArgumentsDelta?
    requires GetStr(events[n].1, "item_id") == Some(id) && GetStr(events[n].1, "delta") == Some(delta)
    ensures Ran(events, n + 1).1 == Ran(events, n).1 +
            (if n == 0 then [Role] else []) +
            match LatestAnnouncement(events, n, id)
            case None => []
            case Some(i) => [CallArguments(CallsBefore(events, i), delta)]
  {
    CursorIndices(events, n);
    IndexOfLatest(events, n, id);
    var (c, out) := Ran(events, n);
    if n > 0 {
      RoleSent(events, n);
    }
    var start := if c.roleSent then [] else [Role];
    var more := React(c.(roleSent := true), events[n].0, events[n].1).1;
    assert out + (start + more) == out + start + more;
  }
}
