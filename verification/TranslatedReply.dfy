/** A reply on its way to the client: the upstream's text is split into frames, and either
    translated chunk by chunk or gathered into one object. */
module TranslatedReply {
  import opened Wrappers
  import opened Text
  import opened Json
  import opened SseSplitter
  import opened SseTranslator
  import opened Replies
  import opened Agreement

  function Mapped<A, B>(f: A -> B, items: seq<A>): (r: seq<B>)
    ensures |r| == |items| && forall i :: 0 <= i < |r| ==> r[i] == f(items[i])
  {
    seq(|items|, i requires 0 <= i < |items| => f(items[i]))
  }

  lemma MappedAppend<A, B>(f: A -> B, a: seq<A>, b: seq<A>)
    ensures Mapped(f, a + b) == Mapped(f, a) + Mapped(f, b)
  {
  }

  function EventOf(frame: Frame): Event { (KindOf(frame.0), frame.1) }

  function EventsOf(frames: seq<Frame>): seq<Event> { Mapped(EventOf, frames) }

  /** The events that a text says. */
  function Said(text: string, parse: Parser): seq<Event> { EventsOf(Split(text, parse).0) }

  lemma {:induction false} RanPrefix(events: seq<Event>, more: seq<Event>, n: nat)
    requires n <= |events|
    ensures Ran(events + more, n) == Ran(events, n)
  {
    if n > 0 {
      RanPrefix(events, more, n - 1);
    }
  }

  /** The translator and what was sent are those after the first `n` events. */
  ghost predicate Follows(c: Cursor, sent: seq<Chunk>, events: seq<Event>, n: nat) {
    n <= |events| && (c, sent) == Ran(events, n)
  }

  lemma RanOne(c: Cursor, sent: seq<Chunk>, events: seq<Event>, n: nat, event: Event, c': Cursor, more: seq<Chunk>)
    requires Follows(c, sent, events, n) && n < |events| && events[n] == event
    requires (c', more) == Pushed(c, event.0, event.1)
    ensures Follows(c', sent + more, events, n + 1)
  {
  }

  /** The events from `n` on are those of the frames. */
  ghost predicate SaidFrom(events: seq<Event>, n: nat, frames: seq<Frame>) {
    n + |frames| == |events| && forall i :: 0 <= i < |frames| ==> events[n + i] == EventOf(frames[i])
  }

  lemma SaidBehind(before: seq<Event>, frames: seq<Frame>)
    ensures SaidFrom(before + Mapped(EventOf, frames), |before|, frames)
  {
  }

  /** One frame, translated as event `n`. */
  method PushFrame(translator: Translator, name: string, data: Value, sent: seq<Chunk>, ghost events: seq<Event>,
      ghost n: nat) returns (sent': seq<Chunk>)
    requires Follows(translator.State(), sent, events, n) && n < |events| && events[n] == EventOf((name, data))
    modifies translator
    ensures Follows(translator.State(), sent', events, n + 1)
  {
    ghost var c := translator.State();
    var more := translator.Push(name, data);
    RanOne(c, sent, events, n, events[n], translator.State(), more);
    sent' := sent + more;
  }

  /** Frames for a client that has been sent what the events before `n` say. */
  method PushFrames(translator: Translator, frames: seq<Frame>, sent: seq<Chunk>, ghost events: seq<Event>,
      ghost n: nat) returns (sent': seq<Chunk>)
    requires Follows(translator.State(), sent, events, n) && SaidFrom(events, n, frames)
    modifies translator
    ensures Follows(translator.State(), sent', events, |events|)
  {
    sent' := sent;
    for i := 0 to |frames|
      invariant Follows(translator.State(), sent', events, n + i)
    {
      sent' := PushFrame(translator, frames[i].0, frames[i].1, sent', events, n + i);
    }
  }

  lemma MoreEvents(c: Cursor, sent: seq<Chunk>, before: seq<Event>, more: seq<Event>)
    requires Follows(c, sent, before, |before|)
    ensures Follows(c, sent, before + more, |before|)
  {
    RanPrefix(before, more, |before|);
  }

  lemma FedOne(chunks: seq<string>, i: nat, parse: Parser)
    requires i < |chunks|
    ensures var (seen, buf) := Fed(chunks[..i], parse);
            var (frames, rest) := Split(buf + chunks[i], parse);
            Fed(chunks[..i + 1], parse) == (seen + frames, rest)
  {
    assert chunks[..i + 1][..i] == chunks[..i];
  }

  /** Where the relay stands after the first `i` chunks. */
  ghost predicate Relayed(c: Cursor, buf: string, sent: seq<Chunk>, chunks: seq<string>, i: nat, parse: Parser) {
    && i <= |chunks|
    && buf == Fed(chunks[..i], parse).1
    && Follows(c, sent, EventsTo(chunks, i, parse), |EventsTo(chunks, i, parse)|)
  }

  lemma RelayStarts(chunks: seq<string>, parse: Parser)
    ensures Relayed(FRESH, "", [], chunks, 0, parse)
  {
  }

  lemma RelayEnds(c: Cursor, buf: string, sent: seq<Chunk>, chunks: seq<string>, parse: Parser)
    requires Relayed(c, buf, sent, chunks, |chunks|, parse)
    ensures sent + Terminal(c) == Streamed(Said(Concat(chunks), parse))
  {
    assert chunks[..|chunks|] == chunks;
    ChunkingDoesNotMatter(chunks, parse);
  }

  /** One chunk: its complete frames are translated, the rest waits. */
  method RelayChunk(translator: Translator, buf: string, sent: seq<Chunk>, ghost chunks: seq<string>, ghost i: nat,
      chunk: string, parse: Parser) returns (rest: string, sent': seq<Chunk>)
    requires Relayed(translator.State(), buf, sent, chunks, i, parse) && i < |chunks| && chunks[i] == chunk
    modifies translator
    ensures Relayed(translator.State(), rest, sent', chunks, i + 1, parse)
  {
    var frames;
    frames, rest := SplitSseFrames(buf + chunk, parse);
    RelayMeets(translator.State(), buf, sent, chunks, i, parse, frames, rest);
    sent' := PushFrames(translator, frames, sent, EventsTo(chunks, i + 1, parse), |EventsTo(chunks, i, parse)|);
  }

  /** The events that the first `i` chunks complete. */
  ghost function EventsTo(chunks: seq<string>, i: nat, parse: Parser): seq<Event>
    requires i <= |chunks|
  {
    EventsOf(Fed(chunks[..i], parse).0)
  }

  lemma RelayMeets(c: Cursor, buf: string, sent: seq<Chunk>, chunks: seq<string>, i: nat, parse: Parser,
      frames: seq<Frame>, rest: string)
    requires Relayed(c, buf, sent, chunks, i, parse) && i < |chunks| && Split(buf + chunks[i], parse) == (frames, rest)
    ensures Fed(chunks[..i + 1], parse).1 == rest
    ensures var (events, n) := (EventsTo(chunks, i + 1, parse), |EventsTo(chunks, i, parse)|);
            Follows(c, sent, events, n) && SaidFrom(events, n, frames)
  {
    var before := EventsTo(chunks, i, parse);
    FedOne(chunks, i, parse);
    MappedAppend(EventOf, Fed(chunks[..i], parse).0, frames);
    MoreEvents(c, sent, before, Mapped(EventOf, frames));
    SaidBehind(before, frames);
  }

  /** The streaming path: the text arrives in chunks, what is incomplete waits in a buffer, and
      the end of the stream, or its failure, closes the conversation. However the text is cut,
      the client is sent what the events of the whole text say. */
  method ServeStream(chunks: seq<string>, parse: Parser) returns (sent: seq<Chunk>)
    ensures sent == Streamed(Said(Concat(chunks), parse))
  {
    var translator := new Translator();
    var buf := "";
    sent := [];
    RelayStarts(chunks, parse);
    for i := 0 to |chunks|
      invariant fresh(translator)
      invariant Relayed(translator.State(), buf, sent, chunks, i, parse)
    {
      buf, sent := RelayChunk(translator, buf, sent, chunks, i, chunks[i], parse);
    }
    RelayEnds(translator.State(), buf, sent, chunks, parse);
    var tail := translator.FinishStream();
    sent := sent + tail;
  }

  /** The other path: the whole text is read, gathered and turned into one reply. */
  method ServeWhole(text: string, parse: Parser, model: string) returns (reply: ChatReply)
    ensures reply == Aggregated(Said(text, parse), model)
  {
    var frames, rest := SplitSseFrames(text, parse);
    var whole := GatherFrames(frames);
    reply := ResponsesToChat(whole, model);
  }

  method GatherFrames(frames: seq<Frame>) returns (whole: Value)
    ensures whole == Rebuilt(GatheredTo(EventsOf(frames), |frames|))
  {
    var aggregator := new ResponseAggregator();
    for i := 0 to |frames|
      invariant fresh(aggregator)
      invariant aggregator.State() == GatheredTo(EventsOf(frames), i)
    {
      aggregator.Push(frames[i].1);
    }
    whole := aggregator.Finish();
  }

  /** Whatever text the upstream sends, and however it is cut for either client, a streaming
      client is sent what the whole text says; and where that is a complete, well-formed reply,
      it puts together the text and the calls that a non-streaming client is given, and the
      same finish reason unless the reply was cut off at its token limit. */
  lemma ClientsAgree(chunks: seq<string>, others: seq<string>, parse: Parser, model: string)
    requires Concat(chunks) == Concat(others)
    ensures var events := Said(Concat(chunks), parse);
            var sent := Streamed(EventsOf(Fed(chunks, parse).0));
            var (client, reply) := (ReceiveAll(sent), Aggregated(EventsOf(Fed(others, parse).0), model));
            && sent == Streamed(events)
            && (WellFormed(events) ==>
                  && client.content == reply.content && client.calls == reply.toolCalls
                  && (client.finish == Some(reply.finish) <==> !Truncated(GatheredTo(events, |events|).response)))
  {
    ChunkingDoesNotMatter(chunks, parse);
    ChunkingDoesNotMatter(others, parse);
    var events := Said(Concat(chunks), parse);
    if WellFormed(events) {
      StreamedAgreesWithAggregated(events, model);
    }
  }
}
