/** Replies as an upstream streams them: every list of texts and calls has a stream that is
    well-formed, and a client that reads it is told just these. */
module UpstreamReply {
  import opened Wrappers
  import opened Text
  import opened Json
  import opened SseSplitter
  import opened SseTranslator
  import opened Replies
  import opened Agreement
  import opened TranslatedReply
  import opened WireFormat

  // ---- The frames of an item ----

  function Item(name: string, item: Value): Frame { (name, Object(map["type" := Str(name), "item" := item])) }

  function Delta(name: string, id: string, text: string): Frame {
    (name, Object(map["type" := Str(name), "item_id" := Str(id), "delta" := Str(text)]))
  }

  const COMPLETED: Frame := ("response.completed", Object(map["type" := Str("response.completed")]))

  function MessageItem(m: Message): Value {
    Object(map["type" := Str("message"), "id" := Str(m.id),
        "content" := Array([Object(map["type" := Str("output_text"), "text" := Str(m.text)])])])
  }

  function CallItemOf(c: CallItem): Value {
    Object(map["type" := Str("function_call"), "id" := Str(c.id), "call_id" := c.callId, "name" := c.name,
        "arguments" := Str(c.arguments)])
  }

  /** An item is announced, its text arrives, and it is done. */
  function MessageFrames(m: Message): seq<Frame> {
    [Item("response.output_item.added", MessageItem(m)), Delta("response.output_text.delta", m.id, m.text),
     Item("response.output_item.done", MessageItem(m))]
  }

  function CallFrames(c: CallItem): seq<Frame> {
    [Item("response.output_item.added", CallItemOf(c)),
     Delta("response.function_call_arguments.delta", c.id, c.arguments),
     Item("response.output_item.done", CallItemOf(c))]
  }

  /** The frames of the first `n` items, one item after the other. */
  function FramesTo<T>(framesOf: T -> seq<Frame>, items: seq<T>, n: nat): seq<Frame>
    requires n <= |items|
  {
    if n == 0 then [] else FramesTo(framesOf, items, n - 1) + framesOf(items[n - 1])
  }

  function ReplyFrames(messages: seq<Message>, calls: seq<CallItem>): seq<Frame> {
    FramesTo(MessageFrames, messages, |messages|) + FramesTo(CallFrames, calls, |calls|) + [COMPLETED]
  }

  // ---- What a frame says ----

  lemma ItemSays(name: string, item: Value)
    ensures GetOrNull(Item(name, item).1, "item") == item && Get(Item(name, item).1, "item") == Some(item)
    ensures IsItemDone(Item(name, item).1) <==> name == "response.output_item.done"
  {
  }

  lemma DeltaSays(name: string, id: string, text: string)
    ensures var data := Delta(name, id, text).1;
            && GetStr(data, "item_id") == Some(id) && GetStr(data, "delta") == Some(text)
            && (IsItemDone(data) <==> name == "response.output_item.done")
  {
  }

  lemma MessageItemSays(m: Message)
    ensures IsMessage(MessageItem(m)) && GetStr(MessageItem(m), "id") == Some(m.id)
    ensures ItemText(MessageItem(m)) == m.text
  {
    var part := Object(map["type" := Str("output_text"), "text" := Str(m.text)]);
    assert GetStr(part, "type") == Some("output_text") && GetStr(part, "text") == Some(m.text);
    assert GetItems(MessageItem(m), "content") == [part];
    assert PartsText([part], 0) == "" && PartsText([part], 1) == "" + m.text;
  }

  lemma CallItemSays(c: CallItem)
    ensures !IsMessage(CallItemOf(c)) && IsCall(CallItemOf(c)) && GetStr(CallItemOf(c), "id") == Some(c.id)
    ensures GetOrNull(CallItemOf(c), "call_id") == c.callId && GetOrNull(CallItemOf(c), "name") == c.name
    ensures CallOf(CallItemOf(c)) == Announced(c)
  {
    assert "message" != "function_call";
  }

  lemma KindsOfNames()
    ensures KindOf("response.output_item.added") == ItemAdded && KindOf("response.output_item.done") == ItemDone
    ensures KindOf("response.output_text.delta") == TextDelta
    ensures KindOf("response.function_call_arguments.delta") == ArgumentsDelta
    ensures KindOf("response.completed") == Completed
  {
  }

  // ---- What the books say of it ----

  /** The books where nothing is open. */
  predicate Closed(b: Books) { !b.complete && b.doneMessages == |b.messages| && b.doneCalls == |b.calls| }

  function WithMessage(b: Books, m: Message): Books {
    b.(seen := b.seen + {m.id}, messages := b.messages + [m], doneMessages := b.doneMessages + 1)
  }

  function WithCall(b: Books, c: CallItem): Books {
    b.(seen := b.seen + {c.id}, calls := b.calls + [c], doneCalls := b.doneCalls + 1)
  }

  /** The events so far lead to these books. */
  predicate Leads(events: seq<Event>, b: Books) { BooksTo(events, |events|) == Some(b) }

  lemma {:induction false} BooksPrefix(events: seq<Event>, event: Event, n: nat)
    requires n <= |events|
    ensures BooksTo(events + [event], n) == BooksTo(events, n)
  {
    if n > 0 {
      BooksPrefix(events, event, n - 1);
    }
  }

  lemma OneMore(events: seq<Event>, b: Books, event: Event, b': Books)
    requires Leads(events, b) && Booked(b, event) == Some(b')
    ensures Leads(events + [event], b')
  {
    BooksPrefix(events, event, |events|);
  }

  lemma LastPosition<T>(items: seq<T>, idOf: T -> string, id: string)
    requires |items| > 0 && idOf(items[|items| - 1]) == id
    ensures PositionOf(items, idOf, id, |items| - 1) == |items| - 1
  {
  }

  /** The books once an item is announced, and once its text has arrived. */
  function Announcing(b: Books, m: Message): Books {
    b.(seen := b.seen + {m.id}, messages := b.messages + [Message(m.id, "")])
  }

  function Told(b: Books, m: Message): Books { b.(seen := b.seen + {m.id}, messages := b.messages + [m]) }

  lemma MessageAddedBooked(b: Books, m: Message)
    requires Closed(b) && m.id !in b.seen
    ensures Booked(b, (ItemAdded, Item("response.output_item.added", MessageItem(m)).1)) == Some(Announcing(b, m))
  {
    MessageItemSays(m);
    ItemSays("response.output_item.added", MessageItem(m));
  }

  lemma MessageToldBooked(b: Books, m: Message)
    requires Closed(b)
    ensures Booked(Announcing(b, m), (TextDelta, Delta("response.output_text.delta", m.id, m.text).1)) ==
            Some(Told(b, m))
  {
    var b1 := Announcing(b, m);
    DeltaSays("response.output_text.delta", m.id, m.text);
    LastPosition(b1.messages, (x: Message) => x.id, m.id);
    assert "" + m.text == m.text;
    assert b1.messages[|b.messages| := m] == b.messages + [m];
  }

  lemma MessageDoneBooked(b: Books, m: Message)
    requires Closed(b)
    ensures Booked(Told(b, m), (ItemDone, Item("response.output_item.done", MessageItem(m)).1)) ==
            Some(WithMessage(b, m))
  {
    MessageItemSays(m);
    ItemSays("response.output_item.done", MessageItem(m));
  }

  lemma ThreeMore(events: seq<Event>, more: seq<Event>, b: Books, b1: Books, b2: Books, b3: Books)
    requires |more| == 3 && Leads(events, b) && Booked(b, more[0]) == Some(b1)
    requires Booked(b1, more[1]) == Some(b2) && Booked(b2, more[2]) == Some(b3)
    ensures Leads(events + more, b3)
  {
    OneMore(events, b, more[0], b1);
    OneMore(events + [more[0]], b1, more[1], b2);
    OneMore(events + [more[0]] + [more[1]], b2, more[2], b3);
    assert events + [more[0]] + [more[1]] + [more[2]] == events + more;
  }

  lemma MessageBooked(before: seq<Frame>, b: Books, m: Message)
    requires Leads(EventsOf(before), b) && Closed(b) && m.id !in b.seen
    ensures Leads(EventsOf(before + MessageFrames(m)), WithMessage(b, m)) && Closed(WithMessage(b, m))
  {
    KindsOfNames();
    MessageAddedBooked(b, m);
    MessageToldBooked(b, m);
    MessageDoneBooked(b, m);
    ThreeMore(EventsOf(before), EventsOf(MessageFrames(m)), b, Announcing(b, m), Told(b, m), WithMessage(b, m));
    MappedAppend(EventOf, before, MessageFrames(m));
  }

  function Calling(b: Books, c: CallItem): Books {
    b.(seen := b.seen + {c.id}, calls := b.calls + [c.(arguments := "")])
  }

  function Called(b: Books, c: CallItem): Books { b.(seen := b.seen + {c.id}, calls := b.calls + [c]) }

  lemma CallAddedBooked(b: Books, c: CallItem)
    requires Closed(b) && c.id !in b.seen
    ensures Booked(b, (ItemAdded, Item("response.output_item.added", CallItemOf(c)).1)) == Some(Calling(b, c))
  {
    CallItemSays(c);
    ItemSays("response.output_item.added", CallItemOf(c));
  }

  lemma CallToldBooked(b: Books, c: CallItem)
    requires Closed(b)
    ensures Booked(Calling(b, c),
                (ArgumentsDelta, Delta("response.function_call_arguments.delta", c.id, c.arguments).1)) ==
            Some(Called(b, c))
  {
    var b1 := Calling(b, c);
    DeltaSays("response.function_call_arguments.delta", c.id, c.arguments);
    LastPosition(b1.calls, (x: CallItem) => x.id, c.id);
    assert "" + c.arguments == c.arguments;
    assert b1.calls[|b.calls| := c] == b.calls + [c];
  }

  lemma CallDoneBooked(b: Books, c: CallItem)
    requires Closed(b)
    ensures Booked(Called(b, c), (ItemDone, Item("response.output_item.done", CallItemOf(c)).1)) == Some(WithCall(b, c))
  {
    CallItemSays(c);
    ItemSays("response.output_item.done", CallItemOf(c));
  }

  lemma CallBooked(before: seq<Frame>, b: Books, c: CallItem)
    requires Leads(EventsOf(before), b) && Closed(b) && c.id !in b.seen
    ensures Leads(EventsOf(before + CallFrames(c)), WithCall(b, c)) && Closed(WithCall(b, c))
  {
    KindsOfNames();
    CallAddedBooked(b, c);
    CallToldBooked(b, c);
    CallDoneBooked(b, c);
    ThreeMore(EventsOf(before), EventsOf(CallFrames(c)), b, Calling(b, c), Called(b, c), WithCall(b, c));
    MappedAppend(EventOf, before, CallFrames(c));
  }

  // ---- A whole reply ----

  /** The ids of the first `n` messages and `k` calls. */
  function Ids(messages: seq<Message>, n: nat, calls: seq<CallItem>, k: nat): set<string>
    requires n <= |messages| && k <= |calls|
  {
    (set i | 0 <= i < n :: messages[i].id) + (set i | 0 <= i < k :: calls[i].id)
  }

  ghost predicate IdsDiffer(messages: seq<Message>, calls: seq<CallItem>) {
    && (forall i :: 0 <= i < |messages| ==> messages[i].id !in Ids(messages, i, calls, 0))
    && (forall k :: 0 <= k < |calls| ==> calls[k].id !in Ids(messages, |messages|, calls, k))
  }

  function BooksWith(messages: seq<Message>, n: nat, calls: seq<CallItem>, k: nat): Books
    requires n <= |messages| && k <= |calls|
  {
    Books(Ids(messages, n, calls, k), messages[..n], n, calls[..k], k, false)
  }

  lemma BooksWithMessage(messages: seq<Message>, n: nat, calls: seq<CallItem>)
    requires 0 < n <= |messages| && IdsDiffer(messages, calls)
    ensures var b := BooksWith(messages, n - 1, calls, 0);
            && Closed(b) && messages[n - 1].id !in b.seen
            && WithMessage(b, messages[n - 1]) == BooksWith(messages, n, calls, 0)
  {
    var b := WithMessage(BooksWith(messages, n - 1, calls, 0), messages[n - 1]);
    assert b.messages == messages[..n];
    assert b.seen == Ids(messages, n, calls, 0);
  }

  lemma BooksWithCall(messages: seq<Message>, calls: seq<CallItem>, k: nat)
    requires 0 < k <= |calls| && IdsDiffer(messages, calls)
    ensures var b := BooksWith(messages, |messages|, calls, k - 1);
            && Closed(b) && calls[k - 1].id !in b.seen
            && WithCall(b, calls[k - 1]) == BooksWith(messages, |messages|, calls, k)
  {
    var b := WithCall(BooksWith(messages, |messages|, calls, k - 1), calls[k - 1]);
    assert b.calls == calls[..k];
    assert b.seen == Ids(messages, |messages|, calls, k);
  }

  /** What every item keeps, all of them keep. */
  lemma {:induction false} AllFrames<T(!new)>(holds: (seq<Frame>, nat) -> bool, before: seq<Frame>,
      framesOf: T -> seq<Frame>, items: seq<T>, n: nat)
    requires n <= |items| && holds(before, 0)
    requires forall f, k: nat :: k < |items| && holds(f, k) ==> holds(f + framesOf(items[k]), k + 1)
    ensures holds(before + FramesTo(framesOf, items, n), n)
  {
    if n == 0 {
      assert before + [] == before;
    } else {
      AllFrames(holds, before, framesOf, items, n - 1);
      var told := FramesTo(framesOf, items, n - 1);
      assert before + told + framesOf(items[n - 1]) == before + (told + framesOf(items[n - 1]));
    }
  }

  /** The frames lead to the books with the first `n` messages and `k` calls. */
  predicate Tells(frames: seq<Frame>, messages: seq<Message>, n: nat, calls: seq<CallItem>, k: nat) {
    n <= |messages| && k <= |calls| && Leads(EventsOf(frames), BooksWith(messages, n, calls, k))
  }

  lemma OneMessageMore(frames: seq<Frame>, messages: seq<Message>, n: nat, calls: seq<CallItem>)
    requires IdsDiffer(messages, calls) && n < |messages| && Tells(frames, messages, n, calls, 0)
    ensures Tells(frames + MessageFrames(messages[n]), messages, n + 1, calls, 0)
  {
    BooksWithMessage(messages, n + 1, calls);
    MessageBooked(frames, BooksWith(messages, n, calls, 0), messages[n]);
  }

  lemma OneCallMore(frames: seq<Frame>, messages: seq<Message>, calls: seq<CallItem>, k: nat)
    requires IdsDiffer(messages, calls) && k < |calls| && Tells(frames, messages, |messages|, calls, k)
    ensures Tells(frames + CallFrames(calls[k]), messages, |messages|, calls, k + 1)
  {
    BooksWithCall(messages, calls, k + 1);
    CallBooked(frames, BooksWith(messages, |messages|, calls, k), calls[k]);
  }

  lemma NothingTold(messages: seq<Message>, calls: seq<CallItem>)
    ensures Tells([], messages, 0, calls, 0)
  {
    assert BooksWith(messages, 0, calls, 0) == BLANK;
  }

  lemma MessagesTold(messages: seq<Message>, calls: seq<CallItem>)
    requires IdsDiffer(messages, calls)
    ensures Tells(FramesTo(MessageFrames, messages, |messages|), messages, |messages|, calls, 0)
  {
    var tells := (f: seq<Frame>, n: nat) => Tells(f, messages, n, calls, 0);
    forall f, n: nat | n < |messages| && tells(f, n) ensures tells(f + MessageFrames(messages[n]), n + 1) {
      OneMessageMore(f, messages, n, calls);
    }
    NothingTold(messages, calls);
    AllFrames(tells, [], MessageFrames, messages, |messages|);
    assert [] + FramesTo(MessageFrames, messages, |messages|) == FramesTo(MessageFrames, messages, |messages|);
  }

  lemma CallsTold(before: seq<Frame>, messages: seq<Message>, calls: seq<CallItem>)
    requires IdsDiffer(messages, calls) && Tells(before, messages, |messages|, calls, 0)
    ensures Tells(before + FramesTo(CallFrames, calls, |calls|), messages, |messages|, calls, |calls|)
  {
    var tells := (f: seq<Frame>, k: nat) => Tells(f, messages, |messages|, calls, k);
    CallsKeepTelling(messages, calls, tells);
    AllFrames(tells, before, CallFrames, calls, |calls|);
  }

  lemma CallsKeepTelling(messages: seq<Message>, calls: seq<CallItem>, tells: (seq<Frame>, nat) -> bool)
    requires IdsDiffer(messages, calls)
    requires forall f, k: nat :: tells(f, k) == Tells(f, messages, |messages|, calls, k)
    ensures forall f, k: nat :: k < |calls| && tells(f, k) ==> tells(f + CallFrames(calls[k]), k + 1)
  {
    forall f, k: nat | k < |calls| && tells(f, k) ensures tells(f + CallFrames(calls[k]), k + 1) {
      OneCallMore(f, messages, calls, k);
    }
  }

  lemma ReplyTold(messages: seq<Message>, calls: seq<CallItem>)
    requires IdsDiffer(messages, calls)
    ensures Leads(EventsOf(ReplyFrames(messages, calls)),
                BooksWith(messages, |messages|, calls, |calls|).(complete := true))
  {
    var told := FramesTo(MessageFrames, messages, |messages|);
    MessagesTold(messages, calls);
    CallsTold(told, messages, calls);
    var all := told + FramesTo(CallFrames, calls, |calls|);
    CompletedTold(all, BooksWith(messages, |messages|, calls, |calls|));
  }

  lemma CompletedTold(frames: seq<Frame>, b: Books)
    requires Leads(EventsOf(frames), b) && Closed(b)
    ensures Leads(EventsOf(frames + [COMPLETED]), b.(complete := true))
  {
    KindsOfNames();
    assert GetStr(COMPLETED.1, "type") == Some("response.completed");
    assert !IsItemDone(COMPLETED.1);
    OneMore(EventsOf(frames), b, EventOf(COMPLETED), b.(complete := true));
    MappedAppend(EventOf, frames, [COMPLETED]);
    assert Mapped(EventOf, [COMPLETED]) == [EventOf(COMPLETED)];
  }

  // ---- What the client makes of it ----

  /** What a client is told: all texts, all calls in order, and why the reply ended. */
  ghost predicate IsTold(r: Received, messages: seq<Message>, calls: seq<CallItem>) {
    && r.content == TextTo(messages, |messages|) && CallsMatch(r.calls, calls)
    && r.finish == Some(if calls == [] then Stop else ToolCalls)
  }

  lemma ClientIsTold(messages: seq<Message>, calls: seq<CallItem>)
    requires IdsDiffer(messages, calls)
    ensures var events := EventsOf(ReplyFrames(messages, calls));
            WellFormed(events) && IsTold(ReceiveAll(Streamed(events)), messages, calls)
  {
    ReplyTold(messages, calls);
    var b := BooksWith(messages, |messages|, calls, |calls|).(complete := true);
    assert b.messages == messages && b.calls == calls;
    BooksAreTold(EventsOf(ReplyFrames(messages, calls)), b);
  }

  lemma BooksAreTold(events: seq<Event>, b: Books)
    requires Leads(events, b) && b.complete
    ensures WellFormed(events) && IsTold(ReceiveAll(Streamed(events)), b.messages, b.calls)
  {
    TiedAfter(events, |events|);
    var (c, out) := Ran(events, |events|);
    assert out + [] == out;
  }

  // ---- Frames that a line carries ----

  predicate PlainNames(frames: seq<Frame>) { forall i :: 0 <= i < |frames| ==> Plain(frames[i].0) }

  lemma Untrimmed(s: string)
    requires s != "" && !IsWhitespace(s[0]) && !IsWhitespace(s[|s| - 1]) && '\n' !in s && '\r' !in s
    ensures Plain(s)
  {
  }

  lemma AddedIsPlain()
    ensures Plain("response.output_item.added")
  {
    Untrimmed("response.output_item.added");
  }

  lemma DoneIsPlain()
    ensures Plain("response.output_item.done")
  {
    Untrimmed("response.output_item.done");
  }

  lemma TextIsPlain()
    ensures Plain("response.output_text.delta")
  {
    Untrimmed("response.output_text.delta");
  }

  lemma ArgumentsArePlain()
    ensures Plain("response.function_call_arguments.delta")
  {
    Untrimmed("response.function_call_arguments.delta");
  }

  lemma CompletedIsPlain()
    ensures PlainNames([COMPLETED])
  {
    Untrimmed("response.completed");
  }

  lemma MessageNamesArePlain(m: Message)
    ensures PlainNames(MessageFrames(m))
  {
    AddedIsPlain();
    TextIsPlain();
    DoneIsPlain();
  }

  lemma CallNamesArePlain(c: CallItem)
    ensures PlainNames(CallFrames(c))
  {
    AddedIsPlain();
    ArgumentsArePlain();
    DoneIsPlain();
  }

  lemma {:induction false} ItemNamesArePlain<T>(framesOf: T -> seq<Frame>, items: seq<T>, n: nat)
    requires n <= |items| && forall i :: 0 <= i < |items| ==> PlainNames(framesOf(items[i]))
    ensures PlainNames(FramesTo(framesOf, items, n))
  {
    if n > 0 {
      ItemNamesArePlain(framesOf, items, n - 1);
      PlainTogether(FramesTo(framesOf, items, n - 1), framesOf(items[n - 1]));
    }
  }

  lemma PlainTogether(a: seq<Frame>, b: seq<Frame>)
    requires PlainNames(a) && PlainNames(b)
    ensures PlainNames(a + b)
  {
  }

  lemma ReplyNamesArePlain(messages: seq<Message>, calls: seq<CallItem>)
    ensures PlainNames(ReplyFrames(messages, calls))
  {
    forall i | 0 <= i < |messages| ensures PlainNames(MessageFrames(messages[i])) {
      MessageNamesArePlain(messages[i]);
    }
    forall k | 0 <= k < |calls| ensures PlainNames(CallFrames(calls[k])) {
      CallNamesArePlain(calls[k]);
    }
    ItemNamesArePlain(MessageFrames, messages, |messages|);
    ItemNamesArePlain(CallFrames, calls, |calls|);
    CompletedIsPlain();
    var told := FramesTo(MessageFrames, messages, |messages|);
    PlainTogether(told, FramesTo(CallFrames, calls, |calls|));
    PlainTogether(told + FramesTo(CallFrames, calls, |calls|), [COMPLETED]);
  }

  // ---- Every reply ----

  /** Ids that differ because their lengths do. */
  function Id(n: nat): string { seq(n + 1, i => 'x') }

  function MessagesOf(texts: seq<string>): (r: seq<Message>)
    ensures |r| == |texts| && forall i :: 0 <= i < |r| ==> r[i] == Message(Id(i), texts[i])
  {
    seq(|texts|, i requires 0 <= i < |texts| => Message(Id(i), texts[i]))
  }

  /** A call that a reply is to ask for: its id, name and arguments. */
  datatype Wanted = Wanted(callId: Value, name: Value, arguments: string)

  function CallsOf(wanted: seq<Wanted>, n: nat): (r: seq<CallItem>)
    ensures |r| == |wanted|
    ensures forall k :: 0 <= k < |r| ==>
            r[k] == CallItem(Id(n + k), wanted[k].callId, wanted[k].name, wanted[k].arguments)
  {
    seq(|wanted|, k requires 0 <= k < |wanted| =>
      CallItem(Id(n + k), wanted[k].callId, wanted[k].name, wanted[k].arguments))
  }

  lemma NumberedIdsDiffer(texts: seq<string>, wanted: seq<Wanted>)
    ensures IdsDiffer(MessagesOf(texts), CallsOf(wanted, |texts|))
  {
    assert forall i: nat :: |Id(i)| == i + 1;
  }

  lemma {:induction false} TextToIsConcat(texts: seq<string>, n: nat)
    requires n <= |texts|
    ensures TextTo(MessagesOf(texts), n) == ConcatTo(texts, n)
  {
    if n > 0 {
      TextToIsConcat(texts, n - 1);
    }
  }

  /** For every list of texts and calls there is an upstream text that is a complete,
      well-formed reply; a streaming client puts just these together from it, however it is
      cut, and a non-streaming one is given just these. */
  lemma EveryReplyIsTold(texts: seq<string>, wanted: seq<Wanted>, json: Value -> string, parse: Parser, model: string)
      returns (text: string)
    requires Prints(json, parse)
    ensures var events := Said(text, parse);
            var (client, reply) := (ReceiveAll(Streamed(events)), Aggregated(events, model));
            && WellFormed(events)
            && client.content == reply.content == Concat(texts) && client.calls == reply.toolCalls
            && |client.calls| == |wanted|
            && (forall k :: 0 <= k < |wanted| ==>
                  client.calls[k] == Call(wanted[k].callId, wanted[k].name, Str(wanted[k].arguments)))
            && client.finish == Some(if wanted == [] then Stop else ToolCalls)
  {
    var (messages, calls) := (MessagesOf(texts), CallsOf(wanted, |texts|));
    var frames := ReplyFrames(messages, calls);
    text := Wire(frames, json);
    ReplyNamesArePlain(messages, calls);
    WireIsRead(frames, json, parse);
    NumberedIdsDiffer(texts, wanted);
    ClientIsTold(messages, calls);
    TextToIsConcat(texts, |texts|);
    StreamedAgreesWithAggregated(EventsOf(frames), model);
  }
}
