/** Translating a Chat Completions request into a Responses request, and the round trip
    with the reply translation. */
module ChatRequest {
  import opened Wrappers
  import opened Text
  import opened Json
  import opened SseTranslator
  import opened Replies

  datatype TranslateError = Rejected(param: string) | NotAnObject

  // ---- Content ----

  function TextItem(text: string): Value { Object(map["type" := Str("input_text"), "text" := Str(text)]) }

  /** The url of an image part: inside an object, or the member itself. */
  function ImageUrl(part: Value): Value {
    match Get(part, "image_url") case Some(u) => Get(u, "url").GetOr(u) case None => Null
  }

  function ImageItem(part: Value): Value {
    Object(map["type" := Str("input_image"), "image_url" := ImageUrl(part)])
  }

  function PartTexts(parts: seq<Value>, n: nat): seq<string>
    requires n <= |parts|
  {
    if n == 0 then []
    else if GetStr(parts[n - 1], "type") == Some("text") then
      PartTexts(parts, n - 1) + [GetStr(parts[n - 1], "text").GetOr("")]
    else PartTexts(parts, n - 1)
  }

  function PartItems(parts: seq<Value>, n: nat): seq<Value>
    requires n <= |parts|
  {
    if n == 0 then []
    else if GetStr(parts[n - 1], "type") == Some("text") then
      PartItems(parts, n - 1) + [TextItem(GetStr(parts[n - 1], "text").GetOr(""))]
    else if GetStr(parts[n - 1], "type") == Some("image_url") then PartItems(parts, n - 1) + [ImageItem(parts[n - 1])]
    else PartItems(parts, n - 1)
  }

  /** The joined text, and the items of a user turn. */
  function ContentItems(content: Option<Value>): (string, seq<Value>) {
    match content
    case Some(Str(s)) => (s, [TextItem(s)])
    case Some(Array(parts)) => (Join(PartTexts(parts, |parts|), "\n"), PartItems(parts, |parts|))
    case _ => ("", [])
  }

  method ReadContent(content: Option<Value>) returns (text: string, items: seq<Value>)
    ensures (text, items) == ContentItems(content)
  {
    match content {
      case Some(Str(s)) => return s, [TextItem(s)];
      case Some(Array(parts)) =>
        var texts;
        texts, items := [], [];
        for i := 0 to |parts|
          invariant texts == PartTexts(parts, i) && items == PartItems(parts, i)
        {
          var kind := GetStr(parts[i], "type");
          if kind == Some("text") {
            var t := GetStr(parts[i], "text").GetOr("");
            texts, items := texts + [t], items + [TextItem(t)];
          } else if kind == Some("image_url") {
            items := items + [ImageItem(parts[i])];
          }
        }
        return Join(texts, "\n"), items;
      case _ => return "", [];
    }
  }

  // ---- Messages ----

  function MessageItem(text: string): Value {
    Object(map["type" := Str("message"), "role" := Str("assistant"),
               "content" := Array([Object(map["type" := Str("output_text"), "text" := Str(text)])])])
  }

  function FunctionCall(call: Call): Value {
    Object(map["type" := Str("function_call"), "call_id" := call.id, "name" := call.name,
        "arguments" := call.arguments])
  }

  function FunctionCallOutput(msg: Value, text: string): Value {
    Object(map["type" := Str("function_call_output"), "call_id" := GetOrNull(msg, "tool_call_id"),
        "output" := Str(text)])
  }

  function UserItem(text: string, items: seq<Value>): Value {
    Object(map["type" := Str("message"), "role" := Str("user"),
               "content" := Array(if items == [] then [TextItem(text)] else items)])
  }

  function RequestedCall(call: Value): Call {
    var f := GetOrNull(call, "function");
    Call(GetOrNull(call, "id"), GetOrNull(f, "name"), Get(f, "arguments").GetOr(Str("")))
  }

  function CallItems(calls: seq<Value>): (r: seq<Value>)
    ensures |r| == |calls| && forall i :: 0 <= i < |r| ==> r[i] == FunctionCall(RequestedCall(calls[i]))
  {
    seq(|calls|, i requires 0 <= i < |calls| => FunctionCall(RequestedCall(calls[i])))
  }

  datatype Speaker = Instructor | Tool | Assistant | User

  function SpeakerOf(msg: Value): Speaker {
    var role := GetStr(msg, "role").GetOr("user");
    if role == "system" || role == "developer" then Instructor
    else if role == "tool" then Tool
    else if role == "assistant" then Assistant
    else User
  }

  /** The input items one message becomes. A message with text and calls puts the text first. */
  function Items(speaker: Speaker, msg: Value): seq<Value> {
    var (text, items) := ContentItems(Get(msg, "content"));
    match speaker
    case Instructor => []
    case Tool => [FunctionCallOutput(msg, text)]
    case Assistant => (if text == "" then [] else [MessageItem(text)]) + CallItems(GetItems(msg, "tool_calls"))
    case User => [UserItem(text, items)]
  }

  function Piece(msg: Value): seq<Value> { Items(SpeakerOf(msg), msg) }

  /** A system or developer message is an instruction, not an input item. */
  function InstructionPiece(msg: Value): seq<string> {
    if SpeakerOf(msg).Instructor? then [ContentItems(Get(msg, "content")).0] else []
  }

  /** What the first `n` messages become, one behind the other. */
  function FlatMap<T>(f: Value -> seq<T>, messages: seq<Value>, n: nat): seq<T>
    requires n <= |messages|
  {
    if n == 0 then [] else FlatMap(f, messages, n - 1) + f(messages[n - 1])
  }

  function Input(messages: seq<Value>): seq<Value> { FlatMap(Piece, messages, |messages|) }

  function Instructions(messages: seq<Value>): seq<string> { FlatMap(InstructionPiece, messages, |messages|) }

  method TranslateAssistant(msg: Value, text: string) returns (items: seq<Value>)
    requires text == ContentItems(Get(msg, "content")).0
    ensures items == Items(Assistant, msg)
  {
    items := [];
    if text != "" {
      items := [MessageItem(text)];
    }
    ghost var start := items;
    var calls := GetItems(msg, "tool_calls");
    for j := 0 to |calls|
      invariant items == start + CallItems(calls)[..j]
    {
      items := items + [FunctionCall(RequestedCall(calls[j]))];
    }
  }

  method TranslateMessage(msg: Value) returns (items: seq<Value>, instructions: seq<string>)
    ensures items == Piece(msg) && instructions == InstructionPiece(msg)
  {
    var text, content := ReadContent(Get(msg, "content"));
    items, instructions := [], [];
    match SpeakerOf(msg) {
      case Instructor => instructions := [text];
      case Tool => items := [FunctionCallOutput(msg, text)];
      case Assistant => items := TranslateAssistant(msg, text);
      case User => items := [UserItem(text, content)];
    }
  }

  /** The loop over the messages. */
  method TranslateMessages(messages: seq<Value>) returns (input: seq<Value>, instructions: seq<string>)
    ensures input == Input(messages) && instructions == Instructions(messages)
  {
    input, instructions := [], [];
    for i := 0 to |messages|
      invariant input == FlatMap(Piece, messages, i) && instructions == FlatMap(InstructionPiece, messages, i)
    {
      var items, more := TranslateMessage(messages[i]);
      input, instructions := input + items, instructions + more;
    }
  }

  // ---- The request ----

  predicate IsSet(chat: map<string, Value>, param: string) { param in chat && chat[param] != Null }

  /** The first parameter whose semantics cannot be honoured. */
  function Unsupported(chat: map<string, Value>): Option<string> {
    if IsSet(chat, "seed") then Some("seed")
    else if IsSet(chat, "logprobs") then Some("logprobs")
    else if IsSet(chat, "top_logprobs") then Some("top_logprobs")
    else if IsSet(chat, "response_format") then Some("response_format")
    else if "n" in chat && chat["n"].Number? && chat["n"].n > 1 then Some("n")
    else None
  }

  function FlatTool(t: Value): Value {
    var f := Get(t, "function").GetOr(t);
    Object(map["type" := Str("function"), "name" := GetOrNull(f, "name"), "description" := GetOrNull(f, "description"),
               "parameters" := Get(f, "parameters").GetOr(Object(map[]))])
  }

  function FlatTools(chat: Value): Option<Value> {
    match Get(chat, "tools")
    case Some(Array(tools)) => Some(Array(seq(|tools|, i requires 0 <= i < |tools| => FlatTool(tools[i]))))
    case _ => None
  }

  function InstructionText(messages: seq<Value>): Option<Value> {
    if Instructions(messages) == [] then None else Some(Str(Join(Instructions(messages), "\n")))
  }

  function MaxTokens(chat: Value): Option<Value> {
    match Get(chat, "max_tokens") case Some(v) => Some(v) case None => Get(chat, "max_completion_tokens")
  }

  /** The members of a Responses request, in the order they are inserted. */
  const MEMBERS := ["model", "store", "stream", "instructions", "input", "max_output_tokens",
                    "temperature", "top_p", "tool_choice", "tools"]

  /** What each member carries, if it is there: the model as it is, that nothing is kept
      upstream and that it streams, the instructions, the history, the renamed limit, the
      parameters that keep their names, and the flattened tools. */
  function Carried(chat: Value): (r: seq<Option<Value>>)
    ensures |r| == |MEMBERS|
  {
    var messages := GetItems(chat, "messages");
    [Get(chat, "model"), Some(Bool(false)), Some(Bool(true)), InstructionText(messages), Some(Array(Input(messages))),
     MaxTokens(chat), Get(chat, "temperature"), Get(chat, "top_p"), Get(chat, "tool_choice"), FlatTools(chat)]
  }

  /** The first `n` members, inserted one after the other where they have a value. */
  function Inserted(names: seq<string>, values: seq<Option<Value>>, n: nat): map<string, Value>
    requires n <= |names| == |values|
  {
    if n == 0 then map[]
    else
      match values[n - 1]
      case Some(v) => Inserted(names, values, n - 1)[names[n - 1] := v]
      case None => Inserted(names, values, n - 1)
  }

  function ToResponses(chat: Value): Result<Value, TranslateError> {
    if !chat.Object? then Failure(NotAnObject)
    else
      match Unsupported(chat.fields)
      case Some(param) => Failure(Rejected(param))
      case None => Success(Object(Inserted(MEMBERS, Carried(chat), |MEMBERS|)))
  }

  lemma {:induction false} InsertedReads(names: seq<string>, values: seq<Option<Value>>, n: nat, i: nat)
    requires n <= |names| == |values| && i < |names|
    requires forall j, k :: 0 <= j < k < |names| ==> names[j] != names[k]
    ensures Get(Object(Inserted(names, values, n)), names[i]) == if i < n then values[i] else None
  {
    if n > 0 {
      InsertedReads(names, values, n - 1, i);
      assert i < n - 1 ==> names[i] != names[n - 1];
      assert n - 1 < i ==> names[n - 1] != names[i];
    }
  }

  lemma {:induction false} NothingElseInserted(names: seq<string>, values: seq<Option<Value>>, n: nat, name: string)
    requires n <= |names| == |values| && name !in names
    ensures Get(Object(Inserted(names, values, n)), name) == None
  {
    if n > 0 {
      NothingElseInserted(names, values, n - 1, name);
      assert names[n - 1] != name;
    }
  }

  /** Length, first and third character tell the members apart. */
  function Signature(name: string): (nat, char, char)
    requires |name| > 2
  {
    (|name|, name[0], name[2])
  }

  lemma MembersDiffer()
    ensures forall j, k :: 0 <= j < k < |MEMBERS| ==> MEMBERS[j] != MEMBERS[k]
  {
    var signatures := [(5, 'm', 'd'), (5, 's', 'o'), (6, 's', 'r'), (12, 'i', 's'), (5, 'i', 'p'), (17, 'm', 'x'),
                       (11, 't', 'm'), (5, 't', 'p'), (11, 't', 'o'), (5, 't', 'o')];
    forall j | 0 <= j < |MEMBERS| ensures |MEMBERS[j]| > 2 && Signature(MEMBERS[j]) == signatures[j] {
    }
    assert forall j, k :: 0 <= j < k < |signatures| ==> signatures[j] != signatures[k];
  }

  /** A request fails exactly when it is no object or sets a parameter that cannot be
      honoured, and names the first such. Otherwise it has just these members, each as it
      is to be carried. */
  lemma RequestCarriesTheHistory(chat: Value, name: string)
    ensures ToResponses(chat) == Failure(NotAnObject) <==> !chat.Object?
    ensures forall p :: ToResponses(chat) == Failure(Rejected(p)) <==>
            chat.Object? && Unsupported(chat.fields) == Some(p)
    ensures ToResponses(chat).Success? ==>
              && (forall i :: 0 <= i < |MEMBERS| ==> Get(ToResponses(chat).value, MEMBERS[i]) == Carried(chat)[i])
              && (name !in MEMBERS ==> Get(ToResponses(chat).value, name) == None)
  {
    if ToResponses(chat).Success? {
      MembersDiffer();
      forall i | 0 <= i < |MEMBERS| ensures Get(ToResponses(chat).value, MEMBERS[i]) == Carried(chat)[i] {
        InsertedReads(MEMBERS, Carried(chat), |MEMBERS|, i);
      }
      if name !in MEMBERS {
        NothingElseInserted(MEMBERS, Carried(chat), |MEMBERS|, name);
      }
    }
  }

  // ---- The round trip ----

  /** The tool calls of a Chat message. */
  function ChatCall(call: Call): Value {
    Object(map["id" := call.id, "type" := Str("function"),
               "function" := Object(map["name" := call.name, "arguments" := call.arguments])])
  }

  function ChatCalls(calls: seq<Call>): (r: seq<Value>)
    ensures |r| == |calls| && forall i :: 0 <= i < |r| ==> r[i] == ChatCall(calls[i])
  {
    seq(|calls|, i requires 0 <= i < |calls| => ChatCall(calls[i]))
  }

  /** The message of a Chat reply. */
  function ReplyMessage(content: string, calls: seq<Call>): Value {
    var base := map["role" := Str("assistant"), "content" := Str(content)];
    Object(if calls == [] then base else base["tool_calls" := Array(ChatCalls(calls))])
  }

  function FunctionCalls(calls: seq<Call>): (r: seq<Value>)
    ensures |r| == |calls| && forall i :: 0 <= i < |r| ==> r[i] == FunctionCall(calls[i])
  {
    seq(|calls|, i requires 0 <= i < |calls| => FunctionCall(calls[i]))
  }

  /** One message item with the whole text, if there is any, then the calls in order. */
  function Normal(content: string, calls: seq<Call>): seq<Value> {
    (if content == "" then [] else [MessageItem(content)]) + FunctionCalls(calls)
  }

  lemma CallRoundTrip(call: Call)
    ensures RequestedCall(ChatCall(call)) == call
  {
    var c := ChatCall(call);
    assert GetOrNull(c, "function") == Object(map["name" := call.name, "arguments" := call.arguments]);
  }

  /** A reply's message, sent back, becomes the text and the calls of the reply. */
  lemma ReplyRoundTrip(content: string, calls: seq<Call>)
    ensures Input([ReplyMessage(content, calls)]) == Normal(content, calls)
  {
    var msg := ReplyMessage(content, calls);
    assert GetStr(msg, "role") == Some("assistant") && Get(msg, "content") == Some(Str(content));
    assert GetItems(msg, "tool_calls") == ChatCalls(calls);
    forall i | 0 <= i < |calls| ensures CallItems(ChatCalls(calls))[i] == FunctionCalls(calls)[i] {
      CallRoundTrip(calls[i]);
    }
    assert CallItems(ChatCalls(calls)) == FunctionCalls(calls);
    assert FlatMap(Piece, [msg], 0) + Items(Assistant, msg) == Items(Assistant, msg);
  }

  lemma MessageItemReads(text: string)
    ensures IsMessage(MessageItem(text)) && ItemText(MessageItem(text)) == text
  {
    var part := Object(map["type" := Str("output_text"), "text" := Str(text)]);
    assert GetItems(MessageItem(text), "content") == [part];
    assert PartsText([part], 1) == PartsText([part], 0) + text;
  }

  lemma FunctionCallReads(call: Call)
    ensures !IsMessage(FunctionCall(call)) && IsCall(FunctionCall(call)) && CallOf(FunctionCall(call)) == call
  {
  }

  lemma {:induction false} CallsRead(before: seq<Value>, calls: seq<Call>, n: nat)
    requires n <= |calls|
    ensures var output := before + FunctionCalls(calls);
            && OutputText(output, |before| + n) == OutputText(before, |before|)
            && OutputCalls(output, |before| + n) == OutputCalls(before, |before|) + calls[..n]
  {
    if n == 0 {
      OutputPrefix(before, FunctionCalls(calls), |before|);
    } else {
      CallsRead(before, calls, n - 1);
      FunctionCallReads(calls[n - 1]);
      assert calls[..n] == calls[..n - 1] + [calls[n - 1]];
    }
  }

  /** Reading normal items gives the text and the calls back. */
  lemma NormalReads(content: string, calls: seq<Call>)
    ensures var output := Normal(content, calls);
            OutputText(output, |output|) == content && OutputCalls(output, |output|) == calls
  {
    var before := if content == "" then [] else [MessageItem(content)];
    CallsRead(before, calls, |calls|);
    assert calls[..|calls|] == calls;
    if content != "" {
      MessageItemReads(content);
      assert OutputText(before, 1) == OutputText(before, 0) + content;
    }
  }

  /** A reply translated to a Chat message and back. */
  function Normalised(output: seq<Value>): seq<Value> {
    Input([ReplyMessage(OutputText(output, |output|), OutputCalls(output, |output|))])
  }

  /** For every reply: one message item with all its text, none if empty, then every call
      in order with its id, name and arguments; doing it again changes nothing. */
  lemma NormalisedIsFixpoint(output: seq<Value>)
    ensures Normalised(output) == Normal(OutputText(output, |output|), OutputCalls(output, |output|))
    ensures Normalised(Normalised(output)) == Normalised(output)
  {
    ReplyRoundTrip(OutputText(output, |output|), OutputCalls(output, |output|));
    NormalReads(OutputText(output, |output|), OutputCalls(output, |output|));
  }

  // ---- Histories ----

  lemma {:induction false} FlatMapPrefix<T>(f: Value -> seq<T>, a: seq<Value>, b: seq<Value>, n: nat)
    requires n <= |a|
    ensures FlatMap(f, a + b, n) == FlatMap(f, a, n)
  {
    if n > 0 {
      FlatMapPrefix(f, a, b, n - 1);
    }
  }

  lemma {:induction false} FlatMapAppend<T>(f: Value -> seq<T>, a: seq<Value>, b: seq<Value>, n: nat)
    requires n <= |b|
    ensures FlatMap(f, a + b, |a| + n) == FlatMap(f, a, |a|) + FlatMap(f, b, n)
  {
    if n == 0 {
      FlatMapPrefix(f, a, b, |a|);
    } else {
      FlatMapAppend(f, a, b, n - 1);
      var (before, middle, last) := (FlatMap(f, a, |a|), FlatMap(f, b, n - 1), f(b[n - 1]));
      assert before + middle + last == before + (middle + last);
    }
  }

  /** Translation is a homomorphism: a longer history is translated message by message. */
  lemma InputAppend(a: seq<Value>, b: seq<Value>)
    ensures Input(a + b) == Input(a) + Input(b)
    ensures Instructions(a + b) == Instructions(a) + Instructions(b)
  {
    FlatMapAppend(Piece, a, b, |b|);
    FlatMapAppend(InstructionPiece, a, b, |b|);
  }

  /** Where a message's items stand in the whole. */
  lemma {:induction false} FlatMapHolds<T>(f: Value -> seq<T>, messages: seq<Value>, i: nat, k: nat, n: nat)
    requires i < n <= |messages| && k < |f(messages[i])|
    ensures |FlatMap(f, messages, i)| + k < |FlatMap(f, messages, n)|
    ensures FlatMap(f, messages, n)[|FlatMap(f, messages, i)| + k] == f(messages[i])[k]
  {
    if i < n - 1 {
      FlatMapHolds(f, messages, i, k, n - 1);
    }
  }

  predicate IsCallUnder(item: Value, id: Value) { IsCall(item) && Get(item, "call_id") == Some(id) }

  lemma FunctionCallUnder(call: Call)
    ensures IsCallUnder(FunctionCall(call), call.id)
  {
  }

  lemma AssistantEndsInCalls(msg: Value, k: nat)
    requires SpeakerOf(msg).Assistant? && k < |GetItems(msg, "tool_calls")|
    ensures var (n, m) := (|GetItems(msg, "tool_calls")|, |Piece(msg)|);
            n <= m && Piece(msg)[m - n + k] == FunctionCall(RequestedCall(GetItems(msg, "tool_calls")[k]))
  {
  }

  lemma ToolPiece(msg: Value)
    requires SpeakerOf(msg).Tool?
    ensures Piece(msg) == [FunctionCallOutput(msg, ContentItems(Get(msg, "content")).0)]
  {
  }

  lemma {:induction false} FlatMapGrows<T>(f: Value -> seq<T>, messages: seq<Value>, i: nat, n: nat)
    requires i <= n <= |messages|
    ensures FlatMap(f, messages, i) <= FlatMap(f, messages, n)
  {
    if i < n {
      FlatMapGrows(f, messages, i, n - 1);
    }
  }

  /** The `k`-th call that message `i` asks for stands among the items of the first `n`. */
  lemma CallStands(messages: seq<Value>, i: nat, k: nat, n: nat) returns (p: nat)
    requires i < n <= |messages| && SpeakerOf(messages[i]).Assistant? && k < |GetItems(messages[i], "tool_calls")|
    ensures p < |FlatMap(Piece, messages, n)|
    ensures FlatMap(Piece, messages, n)[p] == FunctionCall(RequestedCall(GetItems(messages[i], "tool_calls")[k]))
  {
    AssistantEndsInCalls(messages[i], k);
    var at := |Piece(messages[i])| - |GetItems(messages[i], "tool_calls")| + k;
    p := ItemStands(Piece, messages, i, at, n);
  }

  lemma ItemStands<T>(f: Value -> seq<T>, messages: seq<Value>, i: nat, at: nat, n: nat) returns (p: nat)
    requires i < n <= |messages| && at < |f(messages[i])|
    ensures p < |FlatMap(f, messages, n)| && FlatMap(f, messages, n)[p] == f(messages[i])[at]
  {
    FlatMapHolds(f, messages, i, at, n);
    p := |FlatMap(f, messages, i)| + at;
  }

  lemma OutputStands(messages: seq<Value>, j: nat)
    requires j < |messages| && SpeakerOf(messages[j]).Tool?
    ensures var q := |FlatMap(Piece, messages, j)|;
            && q < |Input(messages)|
            && Input(messages)[q] == FunctionCallOutput(messages[j], ContentItems(Get(messages[j], "content")).0)
  {
    ToolPiece(messages[j]);
    FlatMapHolds(Piece, messages, j, 0, |messages|);
  }

  /** Every tool result that had an earlier matching call still has one: its output stands
      at `q` of the input, and a function call under the same id at `p` before it. */
  lemma ToolOutputKeepsItsCall(messages: seq<Value>, i: nat, k: nat, j: nat, id: Value) returns (p: nat, q: nat)
    requires i < j < |messages| && SpeakerOf(messages[j]).Tool? && id == GetOrNull(messages[j], "tool_call_id")
    requires SpeakerOf(messages[i]).Assistant? && k < |GetItems(messages[i], "tool_calls")|
    requires RequestedCall(GetItems(messages[i], "tool_calls")[k]).id == id
    ensures p < q < |Input(messages)| && IsCallUnder(Input(messages)[p], id)
    ensures Input(messages)[q] == FunctionCallOutput(messages[j], ContentItems(Get(messages[j], "content")).0)
  {
    p := CallStands(messages, i, k, j);
    FunctionCallUnder(RequestedCall(GetItems(messages[i], "tool_calls")[k]));
    q := |FlatMap(Piece, messages, j)|;
    OutputStands(messages, j);
    FlatMapGrows(Piece, messages, j, |messages|);
  }
}
