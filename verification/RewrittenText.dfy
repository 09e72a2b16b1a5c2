/** What the model reads after a rewrite: what each replaced text is made of, and which texts
    are replaced. */
module RewrittenText {
  import opened Wrappers
  import opened Text
  import opened Json
  import opened RetrieveMarker
  import opened Stale
  import opened Rewrite
  import opened Idempotence
  import opened StaleTranscript
  import opened CommandWords

  // ---- The text of a result, and its size ----

  /** The bytes of a character in UTF-8 (section 3 of RFC 3629). */
  function Utf8(c: char): seq<int> {
    var n := c as int;
    var (low, q) := (0x80 + n % 64, n / 64);
    var (middle, r) := (0x80 + q % 64, q / 64);
    if n < 0x80 then [n]
    else if n < 0x800 then [0xC0 + q, low]
    else if n < 0x10000 then [0xE0 + r, middle, low]
    else [0xF0 + r / 64, 0x80 + r % 64, middle, low]
  }

  /** The bits of the bytes, without the marks that tell the first from the others. */
  function Decoded(bytes: seq<int>): int {
    match |bytes|
    case 1 => bytes[0]
    case 2 => (bytes[0] - 0xC0) * 64 + bytes[1] - 0x80
    case 3 => ((bytes[0] - 0xE0) * 64 + bytes[1] - 0x80) * 64 + bytes[2] - 0x80
    case 4 => (((bytes[0] - 0xF0) * 64 + bytes[1] - 0x80) * 64 + bytes[2] - 0x80) * 64 + bytes[3] - 0x80
    case _ => -1
  }

  /** Every character decodes, and its bytes carry the marks of their length and place. */
  lemma Utf8Decodes(c: char)
    ensures var bytes := Utf8(c);
            && Decoded(bytes) == c as int
            && (forall i :: 0 < i < |bytes| ==> 0x80 <= bytes[i] < 0xC0)
            && (if |bytes| == 1 then 0 <= bytes[0] < 0x80
                else if |bytes| == 2 then 0xC0 <= bytes[0] < 0xE0
                else if |bytes| == 3 then 0xE0 <= bytes[0] < 0xF0
                else |bytes| == 4 && 0xF0 <= bytes[0] < 0xF8)
  {
    var n := c as int;
    var q := n / 64;
    var r := q / 64;
    assert n == q * 64 + n % 64 && q == r * 64 + q % 64 && r == r / 64 * 64 + r % 64;
  }

  function Encoded(s: string, n: nat): seq<int>
    requires n <= |s|
  {
    if n == 0 then [] else Encoded(s, n - 1) + Utf8(s[n - 1])
  }

  /** What is compared with the minimum is the number of bytes of the text. */
  lemma {:induction false} Utf8LenCountsBytes(s: string, n: nat)
    requires n <= |s|
    ensures Utf8Len(s, n) == |Encoded(s, n)|
  {
    if n > 0 {
      Utf8LenCountsBytes(s, n - 1);
    }
  }

  /** The text of a result in parts: only if all are text parts, and then the texts that there
      are, each on a line of its own. */
  lemma PlainTextExactly(parts: seq<Part>, part: Part)
    ensures PlainText(Parts([])) == None
    ensures !part.TextPart? ==> PlainText(Parts(parts + [part])) == None
    ensures PlainText(Parts(parts)) == None && parts != [] ==> PlainText(Parts(parts + [part])) == None
    ensures part.TextPart? && part.text.Some? ==> PlainText(Parts([part])) == part.text
    ensures part.TextPart? && part.text.None? ==> PlainText(Parts([part])) == Some("")
    ensures part.TextPart? && PlainText(Parts(parts)).Some? ==>
              PlainText(Parts(parts + [part])) ==
              if part.text.None? then PlainText(Parts(parts))
              else if HasText(parts) then Some(PlainText(Parts(parts)).value + "\n" + part.text.value)
              else part.text
  {
    var all := parts + [part];
    assert all[|parts|] == part;
    TextsOfPrefix(parts, [part], |parts|);
    NoTexts(parts, |parts|);
    var texts := TextsOf(parts, |parts|);
    if part.TextPart? && part.text.Some? {
      JoinPrefix(texts, [part.text.value], "\n", |texts|);
    }
    assert forall i :: 0 <= i < |parts| ==> all[i] == parts[i];
    assert TextsOf([part], 1) == if part.TextPart? && part.text.Some? then [part.text.value] else [];
  }

  predicate HasText(parts: seq<Part>) { exists i :: 0 <= i < |parts| && parts[i].TextPart? && parts[i].text.Some? }

  lemma {:induction false} TextsOfPrefix(parts: seq<Part>, more: seq<Part>, n: nat)
    requires n <= |parts|
    ensures TextsOf(parts + more, n) == TextsOf(parts, n)
  {
    if n > 0 {
      TextsOfPrefix(parts, more, n - 1);
    }
  }

  lemma {:induction false} NoTexts(parts: seq<Part>, n: nat)
    requires n <= |parts|
    ensures TextsOf(parts, n) != [] <==> exists i :: 0 <= i < n && parts[i].TextPart? && parts[i].text.Some?
  {
    if n > 0 {
      NoTexts(parts, n - 1);
    }
  }

  lemma {:induction false} JoinPrefix(texts: seq<string>, more: seq<string>, sep: string, n: nat)
    requires n <= |texts|
    ensures JoinTo(texts + more, sep, n) == JoinTo(texts, sep, n)
  {
    if n > 0 {
      JoinPrefix(texts, more, sep, n - 1);
    }
  }

  // ---- Compressed text ----

  /** `after` is what stands for `before`: the engine's text where it fired on one that is long
      enough and not archived, with the note on its original if there is one, else `before`. */
  ghost predicate StandsFor(e: Engine, minTokens: nat, before: string, after: string) {
    var out := e.auto(before);
    if Utf8Len(before, |before|) >= minTokens && !HasMarker(before) && out.fired then
      && out.text <= after
      && (out.hash.None? ==> after == out.text)
      && (out.hash.Some? ==> after[|out.text|..] == "\n[" + e.note(out.hash.value) + "]")
    else after == before
  }

  /** A text is replaced exactly when it is judged and the engine fires; what replaces it is
      all of the engine's text. */
  lemma CompressedExactly(e: Engine, minTokens: nat, s: string)
    ensures Compressed(e, minTokens, s).Some? <==>
            Utf8Len(s, |s|) >= minTokens && !HasMarker(s) && e.auto(s).fired
    ensures StandsFor(e, minTokens, s, Compressed(e, minTokens, s).GetOr(s))
  {
    var out := e.auto(s);
    if out.hash.Some? {
      NoteBehind(out.text, e.note(out.hash.value));
    }
  }

  lemma NoteBehind(text: string, note: string)
    ensures var r := text + "\n[" + note + "]"; text <= r && r[|text|..] == "\n[" + note + "]"
  {
    var tail := "\n[" + note + "]";
    assert text + "\n[" + note + "]" == text + tail;
  }

  ghost predicate PartStands(e: Engine, minTokens: nat, before: Part, after: Part) {
    if before.TextPart? && before.text.Some? then
      after.TextPart? && after.text.Some? && after.rest == before.rest
      && StandsFor(e, minTokens, before.text.value, after.text.value)
    else after == before
  }

  /** Each text of a result stands for the one at its place, and the rest is as it was. */
  ghost predicate ContentStands(e: Engine, minTokens: nat, before: Content, after: Content) {
    match before
    case Whole(s) => after.Whole? && StandsFor(e, minTokens, s, after.text)
    case Parts(parts) =>
      && after.Parts? && |after.parts| == |parts|
      && forall i :: 0 <= i < |parts| ==> PartStands(e, minTokens, parts[i], after.parts[i])
    case NoText(_) => after == before
  }

  lemma ContentStandsFor(e: Engine, minTokens: nat, content: Content)
    ensures ContentStands(e, minTokens, content, CompressedContent(e, minTokens, content))
  {
    match content
    case Whole(s) => CompressedExactly(e, minTokens, s);
    case Parts(parts) =>
      forall i | 0 <= i < |parts| ensures PartStands(e, minTokens, parts[i], CompressedParts(e, minTokens, parts)[i]) {
        if parts[i].TextPart? && parts[i].text.Some? {
          CompressedExactly(e, minTokens, parts[i].text.value);
        }
      }
    case NoText(_) =>
  }

  // ---- Calls whose output must reach the model as it is ----

  ghost predicate IsMur(word: string) { word == "mur" || exists directory: string :: word == directory + "/mur" }

  /** The command runs `mur retrieve`, with `mur` under any directory. */
  ghost predicate RunsRetrieve(command: string) {
    exists a, b, c, d ::
      NextWord(IsWhitespace, command, a, b, c, d) && IsMur(command[a..b]) && command[c..d] == "retrieve"
  }

  /** A read, a retrieval through a server, or one from the command line. */
  ghost predicate MustStay(name: string, input: Option<Value>) {
    || ShowsFile(name)
    || (exists server: string :: name == server + "mur_retrieve")
    || (exists command: string ::
          input.Some? && Get(input.value, "command") == Some(Str(command)) && RunsRetrieve(command))
  }

  lemma RetrievesExactly(command: string)
    ensures Retrieves(Words(command, 0, "")) <==> RunsRetrieve(command)
  {
    WordsAreSpans(command, 0, 0);
    assert command[0..0] == "";
    SpansAreTheWords(IsWhitespace, command, 0, 0);
    WordsRun(command, Words(command, 0, ""), Spans(IsWhitespace, command, 0, 0));
  }

  /** Between the words and where they stand. */
  lemma WordsRun(command: string, words: seq<string>, spans: seq<(nat, nat)>)
    requires AreTheWords(IsWhitespace, command, 0, spans) && |words| == |spans|
    requires forall i :: 0 <= i < |spans| ==> words[i] == command[spans[i].0..spans[i].1]
    ensures Retrieves(words) <==> RunsRetrieve(command)
  {
    forall i | 0 <= i < |words| ensures (words[i] == "mur" || EndsWith(words[i], "/mur")) <==> IsMur(words[i]) {
      EndsExactly(words[i], "/mur");
    }
    if Retrieves(words) {
      var i :| 0 <= i < |words| - 1 && IsMur(words[i]) && words[i + 1] == "retrieve";
      assert NextWord(IsWhitespace, command, spans[i].0, spans[i].1, spans[i + 1].0, spans[i + 1].1);
    }
    if RunsRetrieve(command) {
      var a, b, c, d :|
        NextWord(IsWhitespace, command, a, b, c, d) && IsMur(command[a..b]) && command[c..d] == "retrieve";
      var i := NextSpan(IsWhitespace, command, 0, spans, a, b, c, d);
      assert IsMur(words[i]) && words[i + 1] == "retrieve";
    }
  }

  lemma EndsExactly(s: string, suffix: string)
    ensures EndsWith(s, suffix) <==> exists t: string :: s == t + suffix
  {
    if EndsWith(s, suffix) {
      assert s == s[..|s| - |suffix|] + suffix;
    }
  }

  lemma VerbatimExactly(name: string, input: Option<Value>)
    ensures IsVerbatim(name, input) <==> MustStay(name, input)
  {
    ReadToolsShowFiles(name);
    EndsExactly(name, "mur_retrieve");
    if input.Some? && GetStr(input.value, "command").Some? {
      RetrievesExactly(GetStr(input.value, "command").value);
    }
  }

  /** The result is that of a call whose output must reach the model as it is. */
  ghost predicate IsSpared(blocks: seq<Block>, result: Block) {
    && result.ToolResult? && result.toolUseId.Some?
    && exists i :: 0 <= i < |blocks| && blocks[i].ToolUse? && blocks[i].id == result.toolUseId
                   && MustStay(blocks[i].name, blocks[i].input)
  }

  lemma SparedExactly(blocks: seq<Block>, result: Block)
    requires result.ToolResult?
    ensures IsSpared(blocks, result) <==> result.toolUseId.Some? && result.toolUseId.value in Exempt(blocks, |blocks|)
  {
    if result.toolUseId.Some? {
      ExemptExactly(blocks, |blocks|, result.toolUseId.value);
      forall i | 0 <= i < |blocks| && blocks[i].ToolUse?
        ensures IsVerbatim(blocks[i].name, blocks[i].input) <==> MustStay(blocks[i].name, blocks[i].input)
      {
        VerbatimExactly(blocks[i].name, blocks[i].input);
      }
    }
  }

  /** The whole rewrite, block by block: behind the stale pass, every text of a result that is
      not spared is stood for by its own compression, and nothing else changes. */
  lemma RewrittenBlock(e: Engine, minTokens: nat, blocks: seq<Block>, p: nat)
    requires p < |blocks|
    ensures var (before, after) := (Collapsed(e, blocks)[p], Rewritten(e, minTokens, blocks)[p]);
            if before.ToolResult? && before.content.Some? && !IsSpared(blocks, blocks[p]) then
              && after.ToolResult? && after.content.Some? && after == before.(content := after.content)
              && ContentStands(e, minTokens, before.content.value, after.content.value)
            else after == before
  {
    var c := Collapsed(e, blocks);
    CollapseOnlyContent(e, blocks);
    MetasSame(e, blocks, c, |blocks|);
    assert SameButContent(blocks[p], c[p]);
    if c[p].ToolResult? {
      SparedExactly(blocks, c[p]);
      if c[p].content.Some? {
        ContentStandsFor(e, minTokens, c[p].content.value);
      }
    }
  }

  /** The original is forwarded only where the rewrite would be the very same, and else it is the
      rewrite that is sent. */
  lemma ForwardedOnlyIfSame(e: Engine, minTokens: nat, blocks: seq<Block>)
    ensures RewriteOf(e, minTokens, blocks) == None ==> Rewritten(e, minTokens, blocks) == blocks
    ensures RewriteOf(e, minTokens, blocks) != None ==>
              RewriteOf(e, minTokens, blocks) == Some(Rewritten(e, minTokens, blocks))
  {
    if RewriteOf(e, minTokens, blocks) == None {
      var c := Collapsed(e, blocks);
      assert c == blocks;
      forall i | 0 <= i < |c| ensures CompressedBlock(e, minTokens, Exempt(c, |c|), c[i]) == c[i] {
        if Eligible(Exempt(c, |c|), c[i]) {
          assert !BlockChanges(e, minTokens, Exempt(c, |c|), c[i]);
          UnchangedIsSame(e, minTokens, c[i].content.value);
        }
      }
    }
  }

  /** What the model reads for the result of a read: the text it had, unless it is out of date
      or shown again. */
  lemma ReadIsRewrittenExactly(e: Engine, minTokens: nat, blocks: seq<Block>, p: nat, c: int, text: string,
      file: Option<string>)
    requires TellsApart(e, blocks) && Answers(blocks, p, c) && Shown(blocks, p, text) && ShowsFile(blocks[c].name)
    requires forall f :: Targets(blocks[c].input, f) <==> file == Some(f)
    ensures Outdated(blocks, p) ==> file.Some?
    ensures Rewritten(e, minTokens, blocks)[p] ==
            if Outdated(blocks, p) then
              blocks[p].(content := Some(Whole(StubOf(e, SupersededPath(file.value), text))))
            else if ShownAgain(blocks, p, text) then blocks[p].(content := Some(Whole(StubOf(e, Duplicate, text))))
            else blocks[p]
  {
    StubbedExactly(e, blocks, p, c, text, file);
    RewrittenBlock(e, minTokens, blocks, p);
    assert MustStay(blocks[c].name, blocks[c].input);
  }

  // ---- Stubs ----

  ghost predicate Contains(s: string, part: string) { exists i: nat :: At(s, i, part) }

  lemma PartContained(s: string, a: string, part: string, b: string)
    requires s == a + part + b
    ensures Contains(s, part)
  {
    assert s[|a|..|a| + |part|] == part;
    assert At(s, |a|, part);
  }

  lemma ContainedDeeper(s: string, t: string, part: string)
    requires Contains(s, t) && Contains(t, part)
    ensures Contains(s, part)
  {
    var i: nat :| At(s, i, t);
    var j: nat :| At(t, j, part);
    forall k | 0 <= k < |part| ensures s[i + j + k] == part[k] {
      assert s[i..i + |t|][j + k] == t[j + k] == t[j..j + |part|][k];
    }
    assert s[i + j..i + j + |part|] == part;
    assert At(s, i + j, part);
  }

  /** The stub of an outdated read names its file; any stub of an archived text says how to
      get the very original back; and below a read's stands the skeleton of what it showed. */
  lemma StubSays(e: Engine, reason: Reason, original: string)
    ensures reason.SupersededPath? ==> Contains(StubOf(e, reason, original), reason.path)
    ensures e.archive(original).Some? ==> Contains(StubOf(e, reason, original), e.note(e.archive(original).value))
    ensures reason.SupersededPath? && e.skeleton(original, reason.path).Some? ==>
              EndsWith(StubOf(e, reason, original), "\n\n" + e.skeleton(original, reason.path).value)
  {
    var stub := StubOf(e, reason, original);
    match reason
    case SupersededPath(path) =>
      var what := BEFORE_PATH + path + AFTER_PATH;
      StubParts(what, e.archive(original), e.note, e.skeleton(original, path), stub);
      PartContained(what, BEFORE_PATH, path, AFTER_PATH);
      ContainedDeeper(stub, what, path);
    case Duplicate =>
      StubParts("identical to a later tool result in this conversation", e.archive(original), e.note, None, stub);
  }

  function MarkerFor(what: string, archived: Option<string>, note: string -> string): string {
    match archived case Some(hash) => "[" + what + ". " + note(hash) + "]" case None => "[" + what + "]"
  }

  /** The shape of a stub. */
  lemma StubParts(what: string, archived: Option<string>, note: string -> string, skeleton: Option<string>,
      stub: string)
    requires var marker := MarkerFor(what, archived, note);
             stub == match skeleton case Some(sk) => marker + "\n\n" + sk case None => marker
    ensures Contains(stub, what)
    ensures archived.Some? ==> Contains(stub, note(archived.value))
    ensures skeleton.Some? ==> EndsWith(stub, "\n\n" + skeleton.value)
  {
    var marker := MarkerFor(what, archived, note);
    MarkerParts(what, archived, note);
    match skeleton {
      case None => PartContained(stub, "", marker, "");
      case Some(sk) => SkeletonBelow(marker, sk, stub);
    }
    ContainedDeeper(stub, marker, what);
    if archived.Some? {
      ContainedDeeper(stub, marker, note(archived.value));
    }
  }

  lemma SkeletonBelow(marker: string, skeleton: string, stub: string)
    requires stub == marker + "\n\n" + skeleton
    ensures Contains(stub, marker) && EndsWith(stub, "\n\n" + skeleton)
  {
    var below := "\n\n" + skeleton;
    assert stub == marker + below == "" + marker + below;
    PartContained(stub, "", marker, below);
    assert stub[|stub| - |below|..] == below;
  }

  lemma MarkerParts(what: string, archived: Option<string>, note: string -> string)
    ensures Contains(MarkerFor(what, archived, note), what)
    ensures archived.Some? ==> Contains(MarkerFor(what, archived, note), note(archived.value))
  {
    var marker := MarkerFor(what, archived, note);
    match archived
    case None => PartContained(marker, "[", what, "]");
    case Some(hash) =>
      var n := note(hash);
      assert marker == "[" + what + (". " + n + "]");
      PartContained(marker, "[", what, ". " + n + "]");
      PartContained(marker, "[" + what + ". ", n, "]");
  }
}
