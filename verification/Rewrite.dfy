/** The two-pass rewrite of an Anthropic transcript, as a function: stale results collapse
    into stubs, then every block that is not exempt is compressed. What the engine and the
    archive compute is not visible; they are parameters. */
module Rewrite {
  import opened Wrappers
  import opened Text
  import opened Json
  import opened RetrieveMarker
  import opened Stale

  datatype Outcome = Outcome(fired: bool, text: string, hash: Option<string>, tokensBefore: nat, tokensAfter: nat)

  /** `print` serialises a tool's input; the others belong to the compression library. */
  datatype Engine = Engine(
    auto: string -> Outcome,
    archive: string -> Option<string>,
    note: string -> string,
    skeleton: (string, string) -> Option<string>,
    printed: Value -> string)

  // ---- The transcript ----

  /** A part of a result's content: text (possibly without its member) or anything else. */
  datatype Part = TextPart(text: Option<string>, rest: Value) | OtherPart(value: Value)

  datatype Content = Whole(text: string) | Parts(parts: seq<Part>) | NoText(value: Value)

  /** The content blocks of all messages in document order. `rest` is what a result carries
      beside its content. */
  datatype Block =
    | ToolUse(assistant: bool, id: Option<string>, name: string, input: Option<Value>)
    | ToolResult(toolUseId: Option<string>, content: Option<Content>, rest: Value)
    | Other(value: Value)

  function TextsOf(parts: seq<Part>, n: nat): seq<string>
    requires n <= |parts|
  {
    if n == 0 then []
    else if parts[n - 1].TextPart? && parts[n - 1].text.Some? then TextsOf(parts, n - 1) + [parts[n - 1].text.value]
    else TextsOf(parts, n - 1)
  }

  /** The text of a result that is purely text. */
  function PlainText(content: Content): Option<string> {
    match content
    case Whole(s) => Some(s)
    case Parts(parts) =>
      if parts == [] || exists i :: 0 <= i < |parts| && !parts[i].TextPart? then None
      else Some(Join(TextsOf(parts, |parts|), "\n"))
    case NoText(_) => None
  }

  // ---- Which tools show what ----

  predicate EndsWith(s: string, suffix: string) { |suffix| <= |s| && s[|s| - |suffix|..] == suffix }

  predicate IsReadTool(name: string) { name == "Read" || name == "read_file" || EndsWith(name, "__read_file") }

  function PathOf(input: Option<Value>): Option<string> {
    match input
    case None => None
    case Some(v) =>
      match Get(v, "file_path")
      case Some(p) => if p.Str? then Some(p.s) else None
      case None => GetStr(v, "path")
  }

  function ViewKey(e: Engine, name: string, input: Option<Value>): string {
    if !IsReadTool(name) then ""
    else name + "\U{1F}" + match input case Some(v) => e.printed(v) case None => ""
  }

  /** The words of a command, from `from` on. */
  function Words(s: string, from: nat, word: string): seq<string>
    requires from <= |s|
    decreases |s| - from
  {
    var done := if word == "" then [] else [word];
    if from == |s| then done
    else if IsWhitespace(s[from]) then done + Words(s, from + 1, "")
    else Words(s, from + 1, word + [s[from]])
  }

  /** A read, or a retrieval of archived text: its output must reach the model as it is. */
  predicate IsVerbatim(name: string, input: Option<Value>) {
    || IsReadTool(name) || EndsWith(name, "mur_retrieve")
    || (input.Some? && GetStr(input.value, "command").Some?
        && Retrieves(Words(GetStr(input.value, "command").value, 0, "")))
  }

  predicate Retrieves(words: seq<string>) {
    exists i :: 0 <= i < |words| - 1 && (words[i] == "mur" || EndsWith(words[i], "/mur")) && words[i + 1] == "retrieve"
  }

  // ---- The stale pass ----

  datatype Meta = Meta(name: string, path: Option<string>, view: string)

  /** The calls of the assistant by id; a later call under the same id replaces an earlier one. */
  function Metas(e: Engine, blocks: seq<Block>, n: nat): map<string, Meta>
    requires n <= |blocks|
  {
    if n == 0 then map[]
    else
      match blocks[n - 1]
      case ToolUse(true, Some(id), name, input) =>
        Metas(e, blocks, n - 1)[id := Meta(name, PathOf(input), ViewKey(e, name, input))]
      case _ => Metas(e, blocks, n - 1)
  }

  /** What the stale analysis sees of a block, if it looks at it at all. */
  function CandidateOf(metas: map<string, Meta>, block: Block): Option<Candidate> {
    match block
    case ToolResult(Some(id), Some(content), _) =>
      if id !in metas then None
      else
        (match PlainText(content)
         case None => None
         case Some(text) =>
           if text == "" || HasMarker(text) then None
           else Some(Candidate(metas[id].path, metas[id].view, IsReadTool(metas[id].name), text)))
    case _ => None
  }

  /** The places of the candidates among the first `n` blocks. */
  function Locators(metas: map<string, Meta>, blocks: seq<Block>, n: nat): (r: seq<nat>)
    requires n <= |blocks|
    ensures forall k :: 0 <= k < |r| ==> r[k] < n && CandidateOf(metas, blocks[r[k]]).Some?
    ensures forall j, k :: 0 <= j < k < |r| ==> r[j] < r[k]
  {
    if n == 0 then []
    else if CandidateOf(metas, blocks[n - 1]).Some? then Locators(metas, blocks, n - 1) + [n - 1]
    else Locators(metas, blocks, n - 1)
  }

  function CandidatesAt(metas: map<string, Meta>, blocks: seq<Block>, at: seq<nat>): (r: seq<Candidate>)
    requires forall k :: 0 <= k < |at| ==> at[k] < |blocks| && CandidateOf(metas, blocks[at[k]]).Some?
    ensures |r| == |at| && forall k :: 0 <= k < |r| ==> r[k] == CandidateOf(metas, blocks[at[k]]).value
  {
    seq(|at|, k requires 0 <= k < |at| => CandidateOf(metas, blocks[at[k]]).value)
  }

  function AllMetas(e: Engine, blocks: seq<Block>): map<string, Meta> { Metas(e, blocks, |blocks|) }

  function AllLocators(e: Engine, blocks: seq<Block>): seq<nat> { Locators(AllMetas(e, blocks), blocks, |blocks|) }

  function AllCandidates(e: Engine, blocks: seq<Block>): seq<Candidate> {
    CandidatesAt(AllMetas(e, blocks), blocks, AllLocators(e, blocks))
  }

  /** The replacement text of a collapsed result. */
  function StubOf(e: Engine, reason: Reason, original: string): string {
    var (what, skeleton) :=
      match reason
      case SupersededPath(path) =>
        ("superseded: a later read or edit of " + path + " appears further below in this conversation",
         e.skeleton(original, path))
      case Duplicate => ("identical to a later tool result in this conversation", None);
    var marker := match e.archive(original)
                  case Some(hash) => "[" + what + ". " + e.note(hash) + "]"
                  case None => "[" + what + "]";
    match skeleton case Some(sk) => marker + "\n\n" + sk case None => marker
  }

  function StubMaker(e: Engine): (Reason, string) -> string { (reason, original) => StubOf(e, reason, original) }

  /** The stub of each candidate that has a reason. */
  function StubsFor(stubOf: (Reason, string) -> string, reasons: seq<Option<Reason>>,
      c: seq<Candidate>)
    : (r: seq<Option<string>>)
    requires |reasons| == |c|
    ensures |r| == |c|
    ensures forall k {:trigger r[k]} :: 0 <= k < |c| ==>
              r[k] == match reasons[k] case Some(reason) => Some(stubOf(reason, c[k].text)) case None => None
  {
    seq(|c|, k requires 0 <= k < |c| =>
      match reasons[k] case Some(reason) => Some(stubOf(reason, c[k].text)) case None => None)
  }

  function StubTexts(e: Engine, c: seq<Candidate>): (r: seq<Option<string>>)
    ensures |r| == |c|
    ensures forall k {:trigger r[k]} :: 0 <= k < |c| ==>
              r[k] == match ReasonOf(c, k) case Some(reason) => Some(StubOf(e, reason, c[k].text)) case None => None
  {
    StubsFor(StubMaker(e), ReasonsOf(c), c)
  }

  /** The stubs of the first `n` candidates, by the place of their block. */
  function Stubs(texts: seq<Option<string>>, at: seq<nat>, n: nat): map<nat, string>
    requires n <= |texts| == |at|
  {
    if n == 0 then map[]
    else
      match texts[n - 1]
      case Some(stub) => Stubs(texts, at, n - 1)[at[n - 1] := stub]
      case None => Stubs(texts, at, n - 1)
  }

  function AllStubs(e: Engine, blocks: seq<Block>): map<nat, string> {
    Stubs(StubTexts(e, AllCandidates(e, blocks)), AllLocators(e, blocks), |AllLocators(e, blocks)|)
  }

  function WithStub(block: Block, stub: string): Block {
    if block.ToolResult? then block.(content := Some(Whole(stub))) else block
  }

  function WithStubs(blocks: seq<Block>, stubs: map<nat, string>): (r: seq<Block>)
    ensures |r| == |blocks|
    ensures forall i :: 0 <= i < |r| ==> r[i] == if i in stubs then WithStub(blocks[i], stubs[i]) else blocks[i]
  {
    seq(|blocks|, i requires 0 <= i < |blocks| => if i in stubs then WithStub(blocks[i], stubs[i]) else blocks[i])
  }

  function Collapsed(e: Engine, blocks: seq<Block>): seq<Block> { WithStubs(blocks, AllStubs(e, blocks)) }

  // ---- The compression pass ----

  function Utf8Len(s: string, n: nat): nat
    requires n <= |s|
  {
    if n == 0 then 0
    else
      var c := s[n - 1];
      Utf8Len(s, n - 1) + if c < '\U{80}' then 1 else if c < '\U{800}' then 2 else if c < '\U{10000}' then 3 else 4
  }

  datatype Verdict = Verdict(text: Option<string>, tokensBefore: nat, tokensAfter: nat)

  /** What the engine decides about a text: leave it alone, or this text for it. */
  function VerdictOf(e: Engine, s: string): Verdict {
    var out := e.auto(s);
    Verdict(
      if !out.fired then None
      else match out.hash
        case Some(h) => Some(out.text + "\n[" + e.note(h) + "]")
        case None => Some(out.text),
      out.tokensBefore, out.tokensAfter)
  }

  /** The text that replaces `s`, if any does. */
  function Compressed(e: Engine, minTokens: nat, s: string): Option<string> {
    if Utf8Len(s, |s|) < minTokens || HasMarker(s) then None else VerdictOf(e, s).text
  }

  function CompressedPart(e: Engine, minTokens: nat, part: Part): Part {
    match part
    case TextPart(Some(s), rest) => TextPart(Some(Compressed(e, minTokens, s).GetOr(s)), rest)
    case _ => part
  }

  predicate PartChanges(e: Engine, minTokens: nat, part: Part) {
    part.TextPart? && part.text.Some? && Compressed(e, minTokens, part.text.value).Some?
  }

  function CompressedParts(e: Engine, minTokens: nat, parts: seq<Part>): (r: seq<Part>)
    ensures |r| == |parts| && forall i :: 0 <= i < |r| ==> r[i] == CompressedPart(e, minTokens, parts[i])
  {
    seq(|parts|, i requires 0 <= i < |parts| => CompressedPart(e, minTokens, parts[i]))
  }

  function CompressedContent(e: Engine, minTokens: nat, content: Content): Content {
    match content
    case Whole(s) => Whole(Compressed(e, minTokens, s).GetOr(s))
    case Parts(parts) => Parts(CompressedParts(e, minTokens, parts))
    case NoText(_) => content
  }

  predicate ContentChanges(e: Engine, minTokens: nat, content: Content) {
    match content
    case Whole(s) => Compressed(e, minTokens, s).Some?
    case Parts(parts) => exists i :: 0 <= i < |parts| && PartChanges(e, minTokens, parts[i])
    case NoText(_) => false
  }

  /** The ids of calls whose results are exempt. */
  function Exempt(blocks: seq<Block>, n: nat): set<string>
    requires n <= |blocks|
  {
    if n == 0 then {}
    else
      match blocks[n - 1]
      case ToolUse(_, Some(id), name, input) =>
        if IsVerbatim(name, input) then Exempt(blocks, n - 1) + {id} else Exempt(blocks, n - 1)
      case _ => Exempt(blocks, n - 1)
  }

  /** An id is exempt exactly when one of the calls is to show or fetch something verbatim and
      bears it. */
  lemma {:induction false} ExemptExactly(blocks: seq<Block>, n: nat, id: string)
    requires n <= |blocks|
    ensures id in Exempt(blocks, n) <==>
            exists i :: 0 <= i < n && VerbatimCall(blocks[i], id)
  {
    if n > 0 {
      ExemptExactly(blocks, n - 1, id);
      assert VerbatimCall(blocks[n - 1], id) ==> id in Exempt(blocks, n);
    }
  }

  predicate VerbatimCall(block: Block, id: string) {
    block.ToolUse? && block.id == Some(id) && IsVerbatim(block.name, block.input)
  }

  /** Whether the compression pass looks into a block. */
  predicate Eligible(exempt: set<string>, block: Block) {
    block.ToolResult? && block.content.Some? && !(block.toolUseId.Some? && block.toolUseId.value in exempt)
  }

  function CompressedBlock(e: Engine, minTokens: nat, exempt: set<string>, block: Block): Block {
    if Eligible(exempt, block) then block.(content := Some(CompressedContent(e, minTokens, block.content.value)))
        else block
  }

  predicate BlockChanges(e: Engine, minTokens: nat, exempt: set<string>, block: Block) {
    Eligible(exempt, block) && ContentChanges(e, minTokens, block.content.value)
  }

  function CompressedBlocks(e: Engine, minTokens: nat, exempt: set<string>, blocks: seq<Block>): (r: seq<Block>)
    ensures |r| == |blocks| && forall i :: 0 <= i < |r| ==> r[i] == CompressedBlock(e, minTokens, exempt, blocks[i])
  {
    seq(|blocks|, i requires 0 <= i < |blocks| => CompressedBlock(e, minTokens, exempt, blocks[i]))
  }

  // ---- The rewrite ----

  function Rewritten(e: Engine, minTokens: nat, blocks: seq<Block>): seq<Block> {
    var c := Collapsed(e, blocks);
    CompressedBlocks(e, minTokens, Exempt(c, |c|), c)
  }

  /** Whether the rewrite replaces any text, in either pass. */
  predicate Changes(e: Engine, minTokens: nat, blocks: seq<Block>) {
    var c := Collapsed(e, blocks);
    || AllStubs(e, blocks) != map[]
    || exists i :: 0 <= i < |c| && BlockChanges(e, minTokens, Exempt(c, |c|), c[i])
  }

  /** `None` means: forward the original. */
  function RewriteOf(e: Engine, minTokens: nat, blocks: seq<Block>): Option<seq<Block>> {
    if Changes(e, minTokens, blocks) then Some(Rewritten(e, minTokens, blocks)) else None
  }
}
