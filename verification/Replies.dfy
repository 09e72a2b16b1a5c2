/** Rebuilding a whole Responses reply from its stream, and turning one into a Chat reply. */
module Replies {
  import opened Wrappers
  import opened Json
  import opened SseTranslator

  // ---- The aggregator ----

  predicate IsItemDone(data: Value) { GetStr(data, "type") == Some("response.output_item.done") }

  datatype Gathered = Gathered(response: Value, output: seq<Value>)

  /** The last `response` member wins; the items arrive one by one as they are done. */
  function Gather(g: Gathered, data: Value): Gathered {
    Gathered(
      Get(data, "response").GetOr(g.response),
      if IsItemDone(data) && Get(data, "item").Some? then g.output + [Get(data, "item").value] else g.output)
  }

  function GatheredTo(events: seq<Event>, n: nat): Gathered
    requires n <= |events|
  {
    if n == 0 then Gathered(Null, []) else Gather(GatheredTo(events, n - 1), events[n - 1].1)
  }

  /** The reply object: only the members a Chat reply is made from. */
  function Rebuilt(g: Gathered): Value {
    Object(map[
      "id" := GetOrNull(g.response, "id"),
      "created_at" := GetOrNull(g.response, "created_at"),
      "status" := GetOrNull(g.response, "status"),
      "model" := GetOrNull(g.response, "model"),
      "usage" := GetOrNull(g.response, "usage"),
      "incomplete_details" := GetOrNull(g.response, "incomplete_details"),
      "object" := Str("response"),
      "output" := Array(g.output)])
  }

  /** The last event that carries a response gives it; without one there is none. */
  lemma {:induction false} LastResponseWins(events: seq<Event>, n: nat, k: nat)
    requires n <= |events| && (k < n ==> Get(events[k].1, "response").Some?)
    requires forall j :: (if k < n then k + 1 else 0) <= j < n ==> Get(events[j].1, "response") == None
    ensures GatheredTo(events, n).response == if k < n then Get(events[k].1, "response").value else Null
  {
    if n > 0 && k != n - 1 {
      LastResponseWins(events, n - 1, if k < n then k else n);
    }
  }

  /** The event hands over an item that is done. */
  predicate HandsOver(event: Event) {
    Get(event.1, "type") == Some(Str("response.output_item.done")) && Get(event.1, "item").Some?
  }

  function HandedTo(events: seq<Event>, n: nat): nat
    requires n <= |events|
  {
    if n == 0 then 0 else HandedTo(events, n - 1) + if HandsOver(events[n - 1]) then 1 else 0
  }

  /** Every item that is handed over is gathered, in its turn, and nothing else is. */
  lemma {:induction false} ItemsInTheirTurn(events: seq<Event>, n: nat, k: nat)
    requires k <= n <= |events|
    ensures |GatheredTo(events, n).output| == HandedTo(events, n) && HandedTo(events, k) <= HandedTo(events, n)
    ensures k < n && HandsOver(events[k]) ==>
              && HandedTo(events, k) < HandedTo(events, n)
              && GatheredTo(events, n).output[HandedTo(events, k)] == Get(events[k].1, "item").value
  {
    if k < n {
      ItemsInTheirTurn(events, n - 1, k);
    } else if n > 0 {
      ItemsInTheirTurn(events, n - 1, n - 1);
    }
  }

  class ResponseAggregator {
    var response: Value
    var output: seq<Value>

    function State(): Gathered
      reads this
    {
      Gathered(response, output)
    }

    constructor ()
      ensures State() == Gathered(Null, [])
    {
      response, output := Null, [];
    }

    method Push(data: Value)
      modifies this
      ensures State() == Gather(old(State()), data)
    {
      var resp := Get(data, "response");
      if resp.Some? {
        response := resp.value;
      }
      if IsItemDone(data) {
        var item := Get(data, "item");
        if item.Some? {
          output := output + [item.value];
        }
      }
    }

    method Finish() returns (reply: Value)
      ensures reply == Rebuilt(State())
    {
      reply := Rebuilt(Gathered(response, output));
    }
  }

  // ---- The Chat reply ----

  datatype Call = Call(id: Value, name: Value, arguments: Value)

  datatype ChatReply = ChatReply(
    id: Value,
    created: Value,
    model: string,
    content: string,
    toolCalls: seq<Call>,
    finish: Reason,
    promptTokens: Value,
    completionTokens: Value,
    totalTokens: Value)

  /** The text of the first `n` parts that are output text. */
  function PartsText(parts: seq<Value>, n: nat): string
    requires n <= |parts|
  {
    if n == 0 then ""
    else
      PartsText(parts, n - 1) +
      if GetStr(parts[n - 1], "type") == Some("output_text") then GetStr(parts[n - 1], "text").GetOr("") else ""
  }

  predicate IsMessage(item: Value) { GetStr(item, "type") == Some("message") }

  function ItemText(item: Value): string {
    var parts := GetItems(item, "content"); PartsText(parts, |parts|)
  }

  function CallOf(item: Value): Call {
    Call(GetOrNull(item, "call_id"), GetOrNull(item, "name"), Get(item, "arguments").GetOr(Str("")))
  }

  function OutputText(output: seq<Value>, n: nat): string
    requires n <= |output|
  {
    if n == 0 then ""
    else OutputText(output, n - 1) + if IsMessage(output[n - 1]) then ItemText(output[n - 1]) else ""
  }

  function OutputCalls(output: seq<Value>, n: nat): seq<Call>
    requires n <= |output|
  {
    if n == 0 then []
    else
      OutputCalls(output, n - 1) +
      if !IsMessage(output[n - 1]) && IsCall(output[n - 1]) then [CallOf(output[n - 1])] else []
  }

  /** The reply was cut off at its token limit. */
  predicate Truncated(resp: Value) {
    match Get(resp, "incomplete_details")
    case Some(d) => GetStr(d, "reason") == Some("max_output_tokens")
    case None => false
  }

  function ToChat(resp: Value, model: string): ChatReply {
    var output := GetItems(resp, "output");
    var usage := GetOrNull(resp, "usage");
    var calls := OutputCalls(output, |output|);
    ChatReply(
      Get(resp, "id").GetOr(Str("chatcmpl-codex")), Get(resp, "created_at").GetOr(Number(0)), model,
      OutputText(output, |output|), calls,
      if Truncated(resp) then Length else if |calls| > 0 then ToolCalls else Stop,
      Get(usage, "input_tokens").GetOr(Number(0)),
      Get(usage, "output_tokens").GetOr(Number(0)),
      Get(usage, "total_tokens").GetOr(Number(0)))
  }

  /** A call as it is read: its id and name, `null` if absent, and its arguments, the empty text
      if absent. */
  lemma CallReads(item: Value)
    ensures var c := CallOf(item);
            && (forall id :: Get(item, "call_id") == Some(id) ==> c.id == id)
            && (forall name :: Get(item, "name") == Some(name) ==> c.name == name)
            && (forall arguments :: Get(item, "arguments") == Some(arguments) ==> c.arguments == arguments)
            && (Get(item, "call_id") == None ==> c.id == Null) && (Get(item, "name") == None ==> c.name == Null)
            && (Get(item, "arguments") == None ==> c.arguments == Str(""))
  {
  }

  method ResponsesToChat(resp: Value, model: string) returns (reply: ChatReply)
    ensures reply == ToChat(resp, model)
  {
    var output := GetItems(resp, "output");
    var text, toolCalls := "", [];
    for i := 0 to |output|
      invariant text == OutputText(output, i) && toolCalls == OutputCalls(output, i)
    {
      var item := output[i];
      if IsMessage(item) {
        var parts := GetItems(item, "content");
        ghost var before := text;
        for j := 0 to |parts|
          invariant text == before + PartsText(parts, j)
        {
          if GetStr(parts[j], "type") == Some("output_text") {
            var t := GetStr(parts[j], "text");
            if t.Some? {
              text := text + t.value;
            }
          }
        }
      } else if IsCall(item) {
        toolCalls := toolCalls + [CallOf(item)];
      }
    }
    var finish := Stop;
    if Truncated(resp) {
      finish := Length;
    } else if |toolCalls| > 0 {
      finish := ToolCalls;
    }
    var usage := GetOrNull(resp, "usage");
    reply := ChatReply(
      Get(resp, "id").GetOr(Str("chatcmpl-codex")), Get(resp, "created_at").GetOr(Number(0)), model,
      text, toolCalls, finish,
      Get(usage, "input_tokens").GetOr(Number(0)),
      Get(usage, "output_tokens").GetOr(Number(0)),
      Get(usage, "total_tokens").GetOr(Number(0)));
  }

  /** Reading a rebuilt reply gives what was gathered: the text and the calls of the items,
      the finish reason, and the id and the usage of the last response. The defaults for an
      absent id and time never apply, as the rebuilt reply names both, as `null` if need be. */
  lemma RebuiltReply(g: Gathered, model: string)
    ensures var reply := ToChat(Rebuilt(g), model);
            && reply.content == OutputText(g.output, |g.output|)
            && reply.toolCalls == OutputCalls(g.output, |g.output|)
            && (reply.finish == Length <==>
                GetStr(GetOrNull(g.response, "incomplete_details"), "reason") == Some("max_output_tokens"))
            && (reply.finish == Stop <==> reply.finish != Length && reply.toolCalls == [])
            && reply.id == GetOrNull(g.response, "id") && reply.created == GetOrNull(g.response, "created_at")
            && reply.promptTokens == Get(GetOrNull(g.response, "usage"), "input_tokens").GetOr(Number(0))
            && reply.completionTokens == Get(GetOrNull(g.response, "usage"), "output_tokens").GetOr(Number(0))
            && reply.totalTokens == Get(GetOrNull(g.response, "usage"), "total_tokens").GetOr(Number(0))
            && reply.model == model
            && (Truncated(Rebuilt(g)) <==> Truncated(g.response))
  {
    RebuiltMembers(g);
  }

  lemma RebuiltMembers(g: Gathered)
    ensures var r := Rebuilt(g);
            && GetItems(r, "output") == g.output && Get(r, "usage") == Some(GetOrNull(g.response, "usage"))
            && Get(r, "id") == Some(GetOrNull(g.response, "id"))
            && Get(r, "created_at") == Some(GetOrNull(g.response, "created_at"))
            && Get(r, "incomplete_details") == Some(GetOrNull(g.response, "incomplete_details"))
            && Get(r, "status") == Some(GetOrNull(g.response, "status"))
            && Get(r, "model") == Some(GetOrNull(g.response, "model")) && Get(r, "object") == Some(Str("response"))
  {
  }

  lemma {:induction false} OutputPrefix(output: seq<Value>, more: seq<Value>, n: nat)
    requires n <= |output|
    ensures OutputText(output + more, n) == OutputText(output, n)
    ensures OutputCalls(output + more, n) == OutputCalls(output, n)
  {
    if n > 0 {
      OutputPrefix(output, more, n - 1);
    }
  }

  /** What one more item adds to the text and to the calls. */
  lemma OutputAppend(output: seq<Value>, item: Value)
    ensures var all := output + [item];
            && OutputText(all, |all|) == (if IsMessage(item) then OutputText(output, |output|) + ItemText(item)
                else OutputText(output, |output|))
            && OutputCalls(all, |all|) == (if !IsMessage(item) && IsCall(item)
                then OutputCalls(output, |output|) + [CallOf(item)]
                                           else OutputCalls(output, |output|))
  {
    OutputPrefix(output, [item], |output|);
    assert OutputText(output, |output|) + "" == OutputText(output, |output|);
    assert OutputCalls(output, |output|) + [] == OutputCalls(output, |output|);
  }
}
