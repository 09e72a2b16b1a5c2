/** What the upstream reads in a translated request, against what the Chat request says. */
module ChatReading {
  import opened Wrappers
  import opened Text
  import opened Json
  import opened SseTranslator
  import opened Replies
  import opened ChatRequest

  // ---- The turn of a user ----

  /** What a turn shows: texts and images, in order. */
  datatype Shown = TextShown(text: string) | ImageShown(url: Value)

  /** What a part of Chat content shows. An image stands in an object with its url, or is the
      url itself. */
  function PartShows(part: Value): seq<Shown> {
    match Get(part, "type")
    case Some(Str(kind)) =>
      if kind == "text" then
        [TextShown(match Get(part, "text") case Some(Str(s)) => s case _ => "")]
      else if kind == "image_url" then
        (match Get(part, "image_url")
         case None => [ImageShown(Null)]
         case Some(Object(m)) => [ImageShown(if "url" in m then m["url"] else Object(m))]
         case Some(v) => [ImageShown(v)])
      else []
    case _ => []
  }

  function ContentShows(content: Option<Value>): seq<Shown> {
    match content
    case Some(Str(s)) => [TextShown(s)]
    case Some(Array(parts)) => FlatMap(PartShows, parts, |parts|)
    case _ => []
  }

  /** What a part of an input item shows. */
  function ItemShows(item: Value): seq<Shown> {
    if GetStr(item, "type") == Some("input_text") then
      match GetStr(item, "text") case Some(s) => [TextShown(s)] case None => []
    else if GetStr(item, "type") == Some("input_image") then
      match Get(item, "image_url") case Some(url) => [ImageShown(url)] case None => []
    else []
  }

  function InputShows(item: Value): seq<Shown> {
    var parts := GetItems(item, "content"); FlatMap(ItemShows, parts, |parts|)
  }

  lemma TextItemShows(text: string)
    ensures ItemShows(TextItem(text)) == [TextShown(text)]
  {
  }

  lemma ImageItemShows(part: Value)
    requires GetStr(part, "type") == Some("image_url")
    ensures ItemShows(ImageItem(part)) == PartShows(part)
  {
    assert GetStr(ImageItem(part), "type") == Some("input_image");
    assert "input_text" != "input_image" && "text" != "image_url";
    assert Get(ImageItem(part), "image_url") == Some(ImageUrl(part));
  }

  /** The items of a part: one of the same kind for a text or an image, none otherwise. */
  function ItemsOfPart(part: Value): seq<Value> {
    if GetStr(part, "type") == Some("text") then [TextItem(GetStr(part, "text").GetOr(""))]
    else if GetStr(part, "type") == Some("image_url") then [ImageItem(part)]
    else []
  }

  lemma PartIsShown(part: Value)
    ensures var items := ItemsOfPart(part); FlatMap(ItemShows, items, |items|) == PartShows(part)
  {
    var items := ItemsOfPart(part);
    if GetStr(part, "type") == Some("text") {
      TextItemShows(GetStr(part, "text").GetOr(""));
    } else if GetStr(part, "type") == Some("image_url") {
      ImageItemShows(part);
    }
    if |items| == 1 {
      assert FlatMap(ItemShows, items, 0) == [];
      assert FlatMap(ItemShows, items, 1) == [] + ItemShows(items[0]);
    }
  }

  lemma PartItemsGrow(parts: seq<Value>, n: nat)
    requires 0 < n <= |parts|
    ensures PartItems(parts, n) == PartItems(parts, n - 1) + ItemsOfPart(parts[n - 1])
  {
    assert PartItems(parts, n - 1) + [] == PartItems(parts, n - 1);
  }

  lemma Together<T>(f: Value -> seq<T>, a: seq<Value>, b: seq<Value>)
    ensures FlatMap(f, a + b, |a + b|) == FlatMap(f, a, |a|) + FlatMap(f, b, |b|)
  {
    FlatMapAppend(f, a, b, |b|);
  }

  lemma {:induction false} PartsAreShown(parts: seq<Value>, n: nat)
    requires n <= |parts|
    ensures var items := PartItems(parts, n);
            FlatMap(ItemShows, items, |items|) == FlatMap(PartShows, parts, n)
    ensures |PartItems(parts, n)| == |FlatMap(PartShows, parts, n)|
  {
    if n > 0 {
      PartsAreShown(parts, n - 1);
      PartIsShown(parts[n - 1]);
      OneForOne(parts[n - 1]);
      PartItemsGrow(parts, n);
      Together(ItemShows, PartItems(parts, n - 1), ItemsOfPart(parts[n - 1]));
    }
  }

  lemma OneForOne(part: Value)
    ensures |ItemsOfPart(part)| == |PartShows(part)|
  {
    assert "text" != "image_url";
  }

  predicate IsUserTurn(msg: Value) {
    match Get(msg, "role")
    case Some(Str(role)) =>
      role != "system" && role != "developer" && role != "tool" && role != "assistant"
    case _ => true
  }

  lemma UserTurnsAreOnes(msg: Value)
    ensures SpeakerOf(msg).User? <==> IsUserTurn(msg)
  {
    assert "user" != "system" && "user" != "developer" && "user" != "tool" && "user" != "assistant";
  }

  /** A turn of a user becomes one message that shows just what the turn shows, and one empty
      text where the turn shows nothing. */
  lemma UserTurnIsShown(msg: Value)
    requires IsUserTurn(msg)
    ensures var items := Piece(msg);
            && |items| == 1 && GetStr(items[0], "type") == Some("message") && GetStr(items[0], "role") == Some("user")
            && InputShows(items[0]) ==
               if ContentShows(Get(msg, "content")) == [] then [TextShown("")] else ContentShows(Get(msg, "content"))
  {
    UserTurnsAreOnes(msg);
    var (text, items) := ContentItems(Get(msg, "content"));
    ItemsShowContent(Get(msg, "content"));
    TextIsJoined(Get(msg, "content"));
    var parts := if items == [] then [TextItem(text)] else items;
    assert GetItems(UserItem(text, items), "content") == parts;
    if items == [] {
      TextItemShows(text);
      OneShows(TextItem(text));
    }
  }

  lemma OneShows(item: Value)
    ensures FlatMap(ItemShows, [item], 1) == ItemShows(item)
  {
    assert FlatMap(ItemShows, [item], 0) == [];
  }

  lemma ItemsShowContent(content: Option<Value>)
    ensures var items := ContentItems(content).1;
            && FlatMap(ItemShows, items, |items|) == ContentShows(content)
            && (items == [] <==> ContentShows(content) == [])
  {
    if content.Some? && content.value.Str? {
      TextItemShows(content.value.s);
      OneShows(TextItem(content.value.s));
    } else if content.Some? && content.value.Array? {
      PartsAreShown(content.value.items, |content.value.items|);
    }
  }

  // ---- The text of the other turns ----

  /** The texts among what is shown. */
  function Texts(shown: seq<Shown>, n: nat): seq<string>
    requires n <= |shown|
  {
    if n == 0 then []
    else Texts(shown, n - 1) + match shown[n - 1] case TextShown(s) => [s] case ImageShown(_) => []
  }

  lemma {:induction false} TextsPrefix(a: seq<Shown>, b: seq<Shown>, n: nat)
    requires n <= |a|
    ensures Texts(a + b, n) == Texts(a, n)
  {
    if n > 0 {
      TextsPrefix(a, b, n - 1);
    }
  }

  lemma {:induction false} PartTextsAreShown(parts: seq<Value>, n: nat)
    requires n <= |parts|
    ensures var shown := FlatMap(PartShows, parts, n); PartTexts(parts, n) == Texts(shown, |shown|)
  {
    if n > 0 {
      var (before, more) := (FlatMap(PartShows, parts, n - 1), PartShows(parts[n - 1]));
      PartTextsAreShown(parts, n - 1);
      OneForOne(parts[n - 1]);
      TextsPrefix(before, more, |before|);
      assert before + [] == before && Texts(before, |before|) + [] == Texts(before, |before|);
      assert |more| == 1 ==> (before + more)[|before|] == more[0];
    }
  }

  /** The text of a turn is that of all its text parts, each on a line of its own. */
  lemma TextIsJoined(content: Option<Value>)
    ensures var shown := ContentShows(content); ContentItems(content).0 == Join(Texts(shown, |shown|), "\n")
  {
    if content.Some? && content.value.Array? {
      PartTextsAreShown(content.value.items, |content.value.items|);
    } else if content.Some? && content.value.Str? {
      var shown := ContentShows(content);
      assert Texts(shown, 0) == [] && Texts(shown, 1) == [content.value.s];
    }
  }

  // ---- The other roles ----

  /** Each role by its name: instructions leave the input, a tool's result keeps its call, an
      assistant's turn keeps its text, if it has any, and then its calls. */
  lemma RolesExactly(msg: Value)
    ensures var (role, text) := (GetStr(msg, "role"), ContentItems(Get(msg, "content")).0);
            && (role == Some("system") || role == Some("developer") ==>
                  Piece(msg) == [] && InstructionPiece(msg) == [text])
            && (role != Some("system") && role != Some("developer") ==> InstructionPiece(msg) == [])
            && (role == Some("tool") ==>
                  && |Piece(msg)| == 1 && GetStr(Piece(msg)[0], "type") == Some("function_call_output")
                  && Get(Piece(msg)[0], "call_id") == Some(GetOrNull(msg, "tool_call_id"))
                  && GetStr(Piece(msg)[0], "output") == Some(text))
            && (role == Some("assistant") ==>
                  OutputText(Piece(msg), |Piece(msg)|) == text
                  && |OutputCalls(Piece(msg), |Piece(msg)|)| == |GetItems(msg, "tool_calls")|)
  {
    if GetStr(msg, "role") == Some("assistant") {
      AssistantReads(msg);
    }
  }

  /** The calls a Chat message asks for. */
  function Requested(calls: seq<Value>): (r: seq<Call>)
    ensures |r| == |calls| && forall i :: 0 <= i < |r| ==> r[i] == RequestedCall(calls[i])
  {
    seq(|calls|, i requires 0 <= i < |calls| => RequestedCall(calls[i]))
  }

  /** Reading what became of an assistant's turn gives its text and its calls. */
  lemma AssistantReads(msg: Value)
    requires GetStr(msg, "role") == Some("assistant")
    ensures OutputText(Piece(msg), |Piece(msg)|) == ContentItems(Get(msg, "content")).0
    ensures OutputCalls(Piece(msg), |Piece(msg)|) == Requested(GetItems(msg, "tool_calls"))
  {
    var (text, calls) := (ContentItems(Get(msg, "content")).0, Requested(GetItems(msg, "tool_calls")));
    assert CallItems(GetItems(msg, "tool_calls")) == FunctionCalls(calls);
    assert Piece(msg) == Normal(text, calls);
    NormalReads(text, calls);
  }

  /** A requested call is read out of its function: the id beside it, the name and arguments
      within, and no arguments as the empty text. */
  lemma RequestedExactly(id: Value, name: Value, arguments: Value, more: map<string, Value>)
    requires "id" !in more && "function" !in more
    ensures var f := map["name" := name];
            && RequestedCall(Object(more["id" := id]["function" := Object(f["arguments" := arguments])])) ==
               Call(id, name, arguments)
            && RequestedCall(Object(more["id" := id]["function" := Object(f)])) == Call(id, name, Str(""))
  {
    assert "id" != "function" && "name" != "arguments";
  }

  // ---- The request ----

  /** A tool definition stands under `function`, or is the tool itself; what is carried names
      it, describes it, and says what it takes, nothing if it does not say; carrying a tool that
      was carried changes nothing. */
  lemma FlatToolReads(tool: Value)
    ensures var (f, t) := (match Get(tool, "function") case Some(d) => d case None => tool, FlatTool(tool));
            && Get(t, "type") == Some(Str("function")) && Get(t, "name") == Some(GetOrNull(f, "name"))
            && Get(t, "description") == Some(GetOrNull(f, "description"))
            && Get(t, "parameters") == Some(match Get(f, "parameters") case Some(p) => p case None => Object(map[]))
            && FlatTool(t) == t
  {
    var t := FlatTool(tool);
    assert "function" != "type" && "function" != "name" && "function" != "description" && "function" != "parameters";
    assert Get(t, "function") == None;
  }

  /** A parameter that is set to something that cannot be honoured. */
  predicate Offends(chat: map<string, Value>, param: string) {
    if param == "n" then "n" in chat && chat["n"].Number? && chat["n"].n > 1
    else param in {"seed", "logprobs", "top_logprobs", "response_format"} && param in chat && chat[param] != Null
  }

  const CHECKED := ["seed", "logprobs", "top_logprobs", "response_format", "n"]

  /** The parameter that is named is the first that offends; none is named exactly when none does. */
  lemma UnsupportedExactly(chat: map<string, Value>)
    ensures match Unsupported(chat)
            case Some(p) =>
              exists i :: 0 <= i < 5 && CHECKED[i] == p && Offends(chat, p)
                          && forall j :: 0 <= j < i ==> !Offends(chat, CHECKED[j])
            case None => forall p :: !Offends(chat, p)
  {
    assert CHECKED[0] == "seed" && CHECKED[1] == "logprobs" && CHECKED[2] == "top_logprobs";
    assert CHECKED[3] == "response_format" && CHECKED[4] == "n";
    assert "n" != "seed" && "n" != "logprobs" && "n" != "top_logprobs" && "n" != "response_format";
  }

  /** A request that is translated, member by member: what keeps its name, what is renamed, what
      is set for every request, and what is made of the messages and the tools. */
  lemma RequestReads(chat: Value)
    requires ToResponses(chat).Success?
    ensures var (r, messages) := (ToResponses(chat).value, GetItems(chat, "messages"));
            && Get(r, "model") == Get(chat, "model") && Get(r, "temperature") == Get(chat, "temperature")
            && Get(r, "top_p") == Get(chat, "top_p") && Get(r, "tool_choice") == Get(chat, "tool_choice")
            && Get(r, "store") == Some(Bool(false)) && Get(r, "stream") == Some(Bool(true))
            && Get(r, "input") == Some(Array(Input(messages)))
            && Get(r, "max_output_tokens") ==
               (if Get(chat, "max_tokens") != None then Get(chat, "max_tokens") else Get(chat, "max_completion_tokens"))
            && Get(r, "instructions") ==
               (if Instructions(messages) == [] then None else Some(Str(Join(Instructions(messages), "\n"))))
  {
    RequestCarriesTheHistory(chat, "");
    var (r, carried) := (ToResponses(chat).value, Carried(chat));
    assert Get(r, MEMBERS[0]) == carried[0] && Get(r, MEMBERS[1]) == carried[1] && Get(r, MEMBERS[2]) == carried[2];
    assert Get(r, MEMBERS[3]) == carried[3] && Get(r, MEMBERS[4]) == carried[4] && Get(r, MEMBERS[5]) == carried[5];
    assert Get(r, MEMBERS[6]) == carried[6] && Get(r, MEMBERS[7]) == carried[7] && Get(r, MEMBERS[8]) == carried[8];
  }

  /** The tools are carried one for one. */
  lemma ToolsAreCarried(chat: Value, tools: seq<Value>, i: nat)
    requires ToResponses(chat).Success? && Get(chat, "tools") == Some(Array(tools)) && i < |tools|
    ensures var carried := GetItems(ToResponses(chat).value, "tools");
            |carried| == |tools| && carried[i] == FlatTool(tools[i])
  {
    RequestCarriesTheHistory(chat, "");
    assert Get(ToResponses(chat).value, MEMBERS[9]) == Carried(chat)[9];
  }
}
