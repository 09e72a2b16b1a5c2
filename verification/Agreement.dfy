/** The streamed and the aggregated form of one reply say the same. */
module Agreement {
  import opened Wrappers
  import opened Json
  import opened SseTranslator
  import opened Replies

  // ---- What a client makes of the chunks ----

  datatype Received = Received(content: string, calls: seq<Call>, finish: Option<Reason>)

  /** Content is concatenated, calls are put together by index, the first finish counts. */
  function Receive(r: Received, chunk: Chunk): Received {
    match chunk
    case Content(text) => r.(content := r.content + text)
    case CallStart(index, id, name) => r.(calls := r.calls + [Call(id, name, Str(""))])
    case CallArguments(index, text) =>
      if index < |r.calls| && r.calls[index].arguments.Str? then
        r.(calls := r.calls[index := r.calls[index].(arguments := Str(r.calls[index].arguments.s + text))])
      else r
    case Finish(reason) => if r.finish.None? then r.(finish := Some(reason)) else r
    case _ => r
  }

  function ReceiveTo(chunks: seq<Chunk>, n: nat): Received
    requires n <= |chunks|
  {
    if n == 0 then Received("", [], None) else Receive(ReceiveTo(chunks, n - 1), chunks[n - 1])
  }

  function ReceiveAll(chunks: seq<Chunk>): Received { ReceiveTo(chunks, |chunks|) }

  lemma {:induction false} ReceivePrefix(chunks: seq<Chunk>, more: seq<Chunk>, n: nat)
    requires n <= |chunks|
    ensures ReceiveTo(chunks + more, n) == ReceiveTo(chunks, n)
  {
    if n > 0 {
      ReceivePrefix(chunks, more, n - 1);
    }
  }

  lemma ReceiveOne(chunks: seq<Chunk>, chunk: Chunk)
    ensures ReceiveAll(chunks + [chunk]) == Receive(ReceiveAll(chunks), chunk)
  {
    ReceivePrefix(chunks, [chunk], |chunks|);
  }

  // ---- A well-formed reply ----

  /** An item that was announced, with the deltas seen for it so far. */
  datatype Message = Message(id: string, text: string)

  datatype CallItem = CallItem(id: string, callId: Value, name: Value, arguments: string)

  /** The books an observer of a stream keeps: messages and calls in the order announced,
      and how many of each are done. */
  datatype Books = Books(
    seen: set<string>,
    messages: seq<Message>,
    doneMessages: nat,
    calls: seq<CallItem>,
    doneCalls: nat,
    complete: bool)

  const BLANK := Books({}, [], 0, [], 0, false)

  /** The first position at or after `from` of an item with the given id, or the length. */
  function PositionOf<T>(items: seq<T>, idOf: T -> string, id: string, from: nat): (i: nat)
    requires from <= |items|
    ensures from <= i <= |items| && (i < |items| ==> idOf(items[i]) == id)
    decreases |items| - from
  {
    if from == |items| || idOf(items[from]) == id then from else PositionOf(items, idOf, id, from + 1)
  }

  /** The books after an event, or nothing where a well-formed reply would not have it:
      ids are unique, a delta belongs to an item that is open, the text of a message comes
      before the text of a later one, messages and calls are each done in the order they
      were announced, with exactly the text or the arguments of their deltas, and nothing
      is open at completion or follows it. */
  function Booked(b: Books, event: Event): Option<Books> {
    var (kind, data) := event;
    if b.complete || IsItemDone(data) != kind.ItemDone? || b.doneMessages > |b.messages| || b.doneCalls > |b.calls| then
      None
    else
      match kind
      case ItemAdded => BookAdded(b, GetOrNull(data, "item"))
      case TextDelta =>
        (match (GetStr(data, "item_id"), GetStr(data, "delta"))
         case (Some(id), Some(d)) => BookText(b, id, d)
         case _ => None)
      case ArgumentsDelta =>
        (match (GetStr(data, "item_id"), GetStr(data, "delta"))
         case (Some(id), Some(d)) => BookArguments(b, id, d)
         case _ => None)
      case ItemDone => (match Get(data, "item") case Some(item) => BookDone(b, item) case None => None)
      case Completed =>
        if b.doneMessages == |b.messages| && b.doneCalls == |b.calls| then Some(b.(complete := true)) else None
      case Failed => None
      case OtherKind => Some(b)
  }

  function BookAdded(b: Books, item: Value): Option<Books> {
    if !IsMessage(item) && !IsCall(item) then Some(b)
    else
      match GetStr(item, "id")
      case None => None
      case Some(id) =>
        if id in b.seen then None
        else if IsMessage(item) then Some(b.(seen := b.seen + {id}, messages := b.messages + [Message(id, "")]))
        else Some(b.(seen := b.seen + {id},
            calls := b.calls + [CallItem(id, GetOrNull(item, "call_id"), GetOrNull(item, "name"), "")]))
  }

  function BookText(b: Books, id: string, delta: string): Option<Books>
    requires b.doneMessages <= |b.messages|
  {
    var i := PositionOf(b.messages, (m: Message) => m.id, id, b.doneMessages);
    if i < |b.messages| && forall j :: i < j < |b.messages| ==> b.messages[j].text == "" then
      Some(b.(messages := b.messages[i := Message(id, b.messages[i].text + delta)]))
    else None
  }

  function BookArguments(b: Books, id: string, delta: string): Option<Books>
    requires b.doneCalls <= |b.calls|
  {
    var i := PositionOf(b.calls, (c: CallItem) => c.id, id, b.doneCalls);
    if i < |b.calls| then Some(b.(calls := b.calls[i := b.calls[i].(arguments := b.calls[i].arguments + delta)]))
    else None
  }

  function BookDone(b: Books, item: Value): Option<Books> {
    var (m, c) := (b.doneMessages, b.doneCalls);
    if IsMessage(item) then
      if m < |b.messages| && GetStr(item, "id") == Some(b.messages[m].id) && ItemText(item) == b.messages[m].text then
        Some(b.(doneMessages := m + 1))
      else None
    else if IsCall(item) then
      if c < |b.calls| && GetStr(item, "id") == Some(b.calls[c].id) && CallOf(item) == Announced(b.calls[c]) then
        Some(b.(doneCalls := c + 1))
      else None
    else Some(b)
  }

  function Announced(c: CallItem): Call { Call(c.callId, c.name, Str(c.arguments)) }

  function BooksTo(events: seq<Event>, n: nat): Option<Books>
    requires n <= |events|
  {
    if n == 0 then Some(BLANK)
    else match BooksTo(events, n - 1) case Some(b) => Booked(b, events[n - 1]) case None => None
  }

  /** A complete, well-formed reply. */
  predicate WellFormed(events: seq<Event>) {
    BooksTo(events, |events|).Some? && BooksTo(events, |events|).value.complete
  }

  // ---- What ties the three together ----

  /** The text of the first `n` messages. */
  function TextTo(messages: seq<Message>, n: nat): string
    requires n <= |messages|
  {
    if n == 0 then "" else TextTo(messages, n - 1) + messages[n - 1].text
  }

  ghost predicate CallsMatch(calls: seq<Call>, items: seq<CallItem>) {
    |calls| == |items| && forall i :: 0 <= i < |calls| ==> calls[i] == Announced(items[i])
  }

  /** Every call that is announced has its own index, and its id leads there. */
  ghost predicate Indexed(calls: seq<CallItem>, seen: set<string>, c: Cursor) {
    && c.nextIndex == |calls|
    && (forall i :: 0 <= i < |calls| ==>
        calls[i].id in seen && calls[i].id in c.itemIndex && c.itemIndex[calls[i].id] == i)
  }

  /** The client holds the text and calls of everything announced, the aggregator those of
      everything done. */
  ghost predicate Tied(b: Books, c: Cursor, r: Received, output: seq<Value>) {
    && b.doneMessages <= |b.messages| && b.doneCalls <= |b.calls|
    && Indexed(b.calls, b.seen, c) && (c.sawToolCall <==> c.nextIndex > 0)
    && r.content == TextTo(b.messages, |b.messages|)
    && CallsMatch(r.calls, b.calls)
    && Closing(b, c, r)
    && OutputText(output, |output|) == TextTo(b.messages, b.doneMessages)
    && CallsMatch(OutputCalls(output, |output|), b.calls[..b.doneCalls])
  }

  /** The finish chunk came with completion, and names the right reason. */
  ghost predicate Closing(b: Books, c: Cursor, r: Received) {
    && (c.finished <==> b.complete) && (r.finish.Some? <==> b.complete)
    && (b.complete ==>
          && b.doneMessages == |b.messages| && b.doneCalls == |b.calls|
          && r.finish == Some(if c.sawToolCall then ToolCalls else Stop))
  }

  lemma {:induction false} TextPrefix(a: seq<Message>, b: seq<Message>, n: nat)
    requires n <= |a| && n <= |b| && forall i :: 0 <= i < n ==> a[i] == b[i]
    ensures TextTo(a, n) == TextTo(b, n)
  {
    if n > 0 {
      TextPrefix(a, b, n - 1);
    }
  }

  lemma {:induction false} TextEmpty(messages: seq<Message>, i: nat, n: nat)
    requires i <= n <= |messages| && forall j :: i <= j < n ==> messages[j].text == ""
    ensures TextTo(messages, n) == TextTo(messages, i)
  {
    if i < n {
      TextEmpty(messages, i, n - 1);
    }
  }

  /** Text added to the last message that has any is added at the end of the whole. */
  lemma TextGrows(messages: seq<Message>, i: nat, delta: string, after: seq<Message>)
    requires i < |messages| && forall j :: i < j < |messages| ==> messages[j].text == ""
    requires after == messages[i := Message(messages[i].id, messages[i].text + delta)]
    ensures TextTo(after, |after|) == TextTo(messages, |messages|) + delta
  {
    TextEmpty(messages, i + 1, |messages|);
    TextEmpty(after, i + 1, |after|);
    TextGrowsAt(messages, i, delta, after);
  }

  lemma TextGrowsAt(messages: seq<Message>, i: nat, delta: string, after: seq<Message>)
    requires i < |messages| && |after| == |messages|
    requires after[i].text == messages[i].text + delta && forall j :: 0 <= j < i ==> after[j] == messages[j]
    ensures TextTo(after, i + 1) == TextTo(messages, i + 1) + delta
  {
    TextPrefix(messages, after, i);
    var before := TextTo(messages, i);
    assert before + (messages[i].text + delta) == (before + messages[i].text) + delta;
  }

  // ---- One event at a time ----

  lemma TiedMessageAdded(b: Books, c: Cursor, r: Received, output: seq<Value>, item: Value, b': Books)
    requires Tied(b, c, r, output) && !b.complete && BookAdded(b, item) == Some(b') && IsMessage(item)
    ensures Tied(b', c, r, output)
  {
    TextPrefix(b.messages, b'.messages, |b.messages|);
    TextPrefix(b.messages, b'.messages, b.doneMessages);
    assert TextTo(b'.messages, |b'.messages|) == TextTo(b.messages, |b.messages|) + "";
  }

  /** The cursor after announcing a call under `id`. */
  function Announcing(c: Cursor, id: string): Cursor {
    c.(sawToolCall := true, nextIndex := c.nextIndex + 1, itemIndex := c.itemIndex[id := c.nextIndex])
  }

  lemma TiedCallAdded(b: Books, c: Cursor, r: Received, output: seq<Value>, id: string, callId: Value, name: Value,
      b': Books)
    requires Tied(b, c, r, output) && !b.complete && id !in b.seen
    requires b' == b.(seen := b.seen + {id}, calls := b.calls + [CallItem(id, callId, name, "")])
    ensures Tied(b', Announcing(c, id), Receive(r, CallStart(c.nextIndex, callId, name)), output)
  {
    var call := CallItem(id, callId, name, "");
    assert b'.calls[..b.doneCalls] == b.calls[..b.doneCalls];
    IndexedAdded(b.calls, b.seen, c, call);
    CallsMatchAdded(r.calls, b.calls, call);
  }

  lemma IndexedAdded(calls: seq<CallItem>, seen: set<string>, c: Cursor, call: CallItem)
    requires Indexed(calls, seen, c) && call.id !in seen
    ensures Indexed(calls + [call], seen + {call.id}, Announcing(c, call.id))
  {
  }

  lemma CallsMatchAdded(calls: seq<Call>, items: seq<CallItem>, item: CallItem)
    requires CallsMatch(calls, items)
    ensures CallsMatch(calls + [Announced(item)], items + [item])
  {
  }

  lemma TiedText(b: Books, c: Cursor, r: Received, output: seq<Value>, id: string, delta: string, b': Books)
    requires Tied(b, c, r, output) && !b.complete && BookText(b, id, delta) == Some(b')
    ensures Tied(b', c, Receive(r, Content(delta)), output)
  {
    TextGrows(b.messages, PositionOf(b.messages, (m: Message) => m.id, id, b.doneMessages), delta, b'.messages);
    TextPrefix(b.messages, b'.messages, b.doneMessages);
  }

  lemma TiedArguments(b: Books, c: Cursor, r: Received, output: seq<Value>, id: string, delta: string, b': Books)
    requires Tied(b, c, r, output) && !b.complete && BookArguments(b, id, delta) == Some(b')
    ensures id in c.itemIndex && Tied(b', c, Receive(r, CallArguments(c.itemIndex[id], delta)), output)
  {
    var i := PositionOf(b.calls, (c: CallItem) => c.id, id, b.doneCalls);
    assert c.itemIndex[id] == i && r.calls[i] == Announced(b.calls[i]);
    assert b'.calls[..b.doneCalls] == b.calls[..b.doneCalls];
  }

  lemma OneMoreMessage(b: Books, c: Cursor, r: Received, output: seq<Value>, output': seq<Value>)
    requires Tied(b, c, r, output) && !b.complete && b.doneMessages < |b.messages|
    requires OutputText(output', |output'|) == OutputText(output, |output|) + b.messages[b.doneMessages].text
    requires OutputCalls(output', |output'|) == OutputCalls(output, |output|)
    ensures Tied(b.(doneMessages := b.doneMessages + 1), c, r, output')
  {
  }

  lemma MessageAppended(output: seq<Value>, item: Value)
    requires IsMessage(item)
    ensures OutputText(output + [item], |output| + 1) == OutputText(output, |output|) + ItemText(item)
    ensures OutputCalls(output + [item], |output| + 1) == OutputCalls(output, |output|)
  {
    OutputAppend(output, item);
  }

  lemma TiedMessageDone(b: Books, c: Cursor, r: Received, output: seq<Value>, item: Value, b': Books,
      output': seq<Value>)
    requires Tied(b, c, r, output) && !b.complete && BookDone(b, item) == Some(b') && IsMessage(item)
    requires output' == output + [item]
    ensures Tied(b', c, r, output')
  {
    assert b.doneMessages < |b.messages| && ItemText(item) == b.messages[b.doneMessages].text;
    assert b' == b.(doneMessages := b.doneMessages + 1);
    MessageAppended(output, item);
    OneMoreMessage(b, c, r, output, output');
  }

  lemma TiedCallDone(b: Books, c: Cursor, r: Received, output: seq<Value>, item: Value, b': Books, output': seq<Value>)
    requires Tied(b, c, r, output) && !b.complete && BookDone(b, item) == Some(b') && !IsMessage(item)
    requires output' == output + [item]
    ensures Tied(b', c, r, output')
  {
    OutputAppend(output, item);
    if IsCall(item) {
      var (before, after) := (OutputCalls(output, |output|), OutputCalls(output', |output'|));
      DoneCallsMatch(before, after, CallOf(item), b.calls, b.doneCalls);
    }
  }

  lemma DoneCallsMatch(before: seq<Call>, after: seq<Call>, call: Call, calls: seq<CallItem>, n: nat)
    requires n < |calls| && CallsMatch(before, calls[..n]) && after == before + [call] && call == Announced(calls[n])
    ensures CallsMatch(after, calls[..n + 1])
  {
  }

  lemma TiedItemAdded(b: Books, c: Cursor, r: Received, output: seq<Value>, item: Value, b': Books)
    requires Tied(b, c, r, output) && !b.complete && BookAdded(b, item) == Some(b')
    ensures if IsCall(item) then
              var start := CallStart(c.nextIndex, GetOrNull(item, "call_id"), GetOrNull(item, "name"));
              GetStr(item, "id").Some? && Tied(b', Announcing(c, GetStr(item, "id").value), Receive(r, start), output)
            else Tied(b', c, r, output)
  {
    if IsMessage(item) {
      TiedMessageAdded(b, c, r, output, item, b');
    } else if IsCall(item) {
      TiedCallAdded(b, c, r, output, GetStr(item, "id").value, GetOrNull(item, "call_id"), GetOrNull(item, "name"), b');
    }
  }

  /** The items gathered after one more event. */
  function OutputAfter(output: seq<Value>, data: Value): seq<Value> { Gather(Gathered(Null, output), data).output }

  /** The state after one event: at most one chunk went out, and everything is tied again. */
  ghost predicate Steps(b': Books, r: Received, output: seq<Value>, result: (Cursor, seq<Chunk>)) {
    |result.1| <= 1 && Tied(b', result.0, if result.1 == [] then r else Receive(r, result.1[0]), output)
  }

  lemma StepAdded(b: Books, c: Cursor, r: Received, output: seq<Value>, data: Value, b': Books)
    requires Tied(b, c, r, output) && Booked(b, (ItemAdded, data)) == Some(b')
    ensures Steps(b', r, output, React(c, ItemAdded, data))
  {
    TiedItemAdded(b, c, r, output, GetOrNull(data, "item"), b');
  }

  lemma StepText(b: Books, c: Cursor, r: Received, output: seq<Value>, data: Value, b': Books)
    requires Tied(b, c, r, output) && Booked(b, (TextDelta, data)) == Some(b')
    ensures Steps(b', r, output, React(c, TextDelta, data))
  {
    TiedText(b, c, r, output, GetStr(data, "item_id").value, GetStr(data, "delta").value, b');
  }

  lemma StepArguments(b: Books, c: Cursor, r: Received, output: seq<Value>, data: Value, b': Books)
    requires Tied(b, c, r, output) && Booked(b, (ArgumentsDelta, data)) == Some(b')
    ensures Steps(b', r, output, React(c, ArgumentsDelta, data))
  {
    TiedArguments(b, c, r, output, GetStr(data, "item_id").value, GetStr(data, "delta").value, b');
  }

  lemma StepDone(b: Books, c: Cursor, r: Received, output: seq<Value>, data: Value, b': Books)
    requires Tied(b, c, r, output) && Booked(b, (ItemDone, data)) == Some(b')
    ensures Steps(b', r, OutputAfter(output, data), React(c, ItemDone, data))
  {
    var item := Get(data, "item").value;
    if IsMessage(item) {
      TiedMessageDone(b, c, r, output, item, b', OutputAfter(output, data));
    } else {
      TiedCallDone(b, c, r, output, item, b', OutputAfter(output, data));
    }
  }

  lemma TiedCompleted(b: Books, c: Cursor, r: Received, output: seq<Value>, reason: Reason)
    requires Tied(b, c, r, output) && !b.complete && b.doneMessages == |b.messages| && b.doneCalls == |b.calls|
    requires reason == if c.sawToolCall then ToolCalls else Stop
    ensures !c.finished && Tied(b.(complete := true), c.(finished := true), Receive(r, Finish(reason)), output)
  {
  }

  lemma StepCompleted(b: Books, c: Cursor, r: Received, output: seq<Value>, data: Value, b': Books)
    requires Tied(b, c, r, output) && Booked(b, (Completed, data)) == Some(b')
    ensures Steps(b', r, output, React(c, Completed, data))
  {
    var reason := if c.sawToolCall then ToolCalls else Stop;
    BookedComplete(b, data, b');
    TiedCompleted(b, c, r, output, reason);
    CompletedSends(c, data, reason);
  }

  lemma BookedComplete(b: Books, data: Value, b': Books)
    requires Booked(b, (Completed, data)) == Some(b')
    ensures !b.complete && b.doneMessages == |b.messages| && b.doneCalls == |b.calls| && b' == b.(complete := true)
  {
  }

  lemma CompletedSends(c: Cursor, data: Value, reason: Reason)
    requires !c.finished && reason == if c.sawToolCall then ToolCalls else Stop
    ensures React(c, Completed, data) == (c.(finished := true), [Finish(reason)])
  {
  }

  lemma TiedStep(b: Books, c: Cursor, r: Received, output: seq<Value>, event: Event, b': Books)
    requires Tied(b, c, r, output) && Booked(b, event) == Some(b')
    ensures Steps(b', r, OutputAfter(output, event.1), React(c, event.0, event.1))
  {
    var (kind, data) := event;
    match kind
    case ItemDone => StepDone(b, c, r, output, data, b');
    case ItemAdded => StepAdded(b, c, r, output, data, b');
    case TextDelta => StepText(b, c, r, output, data, b');
    case ArgumentsDelta => StepArguments(b, c, r, output, data, b');
    case Completed => StepCompleted(b, c, r, output, data, b');
    case OtherKind =>
  }

  lemma ReceiveAtMostOne(chunks: seq<Chunk>, more: seq<Chunk>)
    requires |more| <= 1
    ensures ReceiveAll(chunks + more) == if more == [] then ReceiveAll(chunks) else Receive(ReceiveAll(chunks), more[0])
  {
    if more == [] {
      assert chunks + more == chunks;
    } else {
      assert more == [more[0]];
      ReceiveOne(chunks, more[0]);
    }
  }

  /** What a client makes of the chunks of one event; the role adds nothing. */
  lemma ReceivePushed(c: Cursor, out: seq<Chunk>, event: Event)
    ensures var more := React(c.(roleSent := true), event.0, event.1).1;
            |more| <= 1 ==>
              ReceiveAll(out + Pushed(c, event.0, event.1).1) ==
              if more == [] then ReceiveAll(out) else Receive(ReceiveAll(out), more[0])
  {
    var start, more := if c.roleSent then [] else [Role], React(c.(roleSent := true), event.0, event.1).1;
    if |more| <= 1 {
      assert out + (start + more) == out + start + more;
      ReceiveAtMostOne(out, start);
      ReceiveAtMostOne(out + start, more);
    }
  }

  lemma TiedPush(b: Books, c: Cursor, out: seq<Chunk>, output: seq<Value>, event: Event, b': Books)
    requires Tied(b, c, ReceiveAll(out), output) && Booked(b, event) == Some(b')
    ensures var (c', more) := Pushed(c, event.0, event.1);
            Tied(b', c', ReceiveAll(out + more), OutputAfter(output, event.1))
  {
    TiedStep(b, c.(roleSent := true), ReceiveAll(out), output, event, b');
    ReceivePushed(c, out, event);
  }

  lemma {:induction false} TiedAfter(events: seq<Event>, n: nat)
    requires n <= |events| && BooksTo(events, n).Some?
    ensures Tied(BooksTo(events, n).value, Ran(events, n).0, ReceiveAll(Ran(events, n).1), GatheredTo(events, n).output)
  {
    if n > 0 {
      TiedAfter(events, n - 1);
      var (c, out) := Ran(events, n - 1);
      TiedPush(BooksTo(events, n - 1).value, c, out, GatheredTo(events, n - 1).output, events[n - 1],
          BooksTo(events, n).value);
    }
  }

  /** The reply a non-streaming client gets for the same events. */
  function Aggregated(events: seq<Event>, model: string): ChatReply {
    ToChat(Rebuilt(GatheredTo(events, |events|)), model)
  }

  /** For every complete, well-formed reply, a streaming client puts together the same text
      and the same calls as a non-streaming one is given, and the finish reasons agree
      exactly when the reply was not cut off at its token limit: only the aggregated form
      reports that. */
  lemma StreamedAgreesWithAggregated(events: seq<Event>, model: string)
    requires WellFormed(events)
    ensures var (streamed, whole) := (ReceiveAll(Streamed(events)), Aggregated(events, model));
            && streamed.content == whole.content
            && streamed.calls == whole.toolCalls
            && streamed.finish.Some? && streamed.finish.value != Length
            && (streamed.finish == Some(whole.finish) <==> !Truncated(GatheredTo(events, |events|).response))
  {
    TiedAfter(events, |events|);
    RebuiltReply(GatheredTo(events, |events|), model);
    var (c, out) := Ran(events, |events|);
    assert Streamed(events) == out;
    var b := BooksTo(events, |events|).value;
    assert b.calls[..b.doneCalls] == b.calls;
  }
}
