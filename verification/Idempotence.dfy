/** Rewriting a transcript that was already rewritten does nothing. */
module Idempotence {
  import opened Wrappers
  import opened Text
  import opened Json
  import opened RetrieveMarker
  import opened Stale
  import opened Rewrite

  /** Every text the stale pass may collapse can be archived. */
  ghost predicate Archives(e: Engine) {
    forall s :: s != "" && !HasMarker(s) ==> e.archive(s).Some?
  }

  /** The stale results of one transcript can be archived. */
  ghost predicate StaleArchive(e: Engine, blocks: seq<Block>) {
    var c := AllCandidates(e, blocks);
    forall k :: 0 <= k < |c| && ReasonOf(c, k).Some? ==> e.archive(c[k].text).Some?
  }

  lemma ArchivesEnough(e: Engine, blocks: seq<Block>)
    requires Archives(e)
    ensures StaleArchive(e, blocks)
  {
    var c := AllCandidates(e, blocks);
    forall k | 0 <= k < |c| && ReasonOf(c, k).Some? ensures e.archive(c[k].text).Some? {
      CandidateTextFits(AllMetas(e, blocks), blocks[AllLocators(e, blocks)[k]]);
    }
  }

  /** A note built from a hash carries a marker, and text the engine compressed has a hash. */
  ghost predicate NotesCarryMarkers(e: Engine) {
    && (forall s :: e.archive(s).Some? ==> HasMarker(e.note(e.archive(s).value)))
    && (forall s :: e.auto(s).fired ==> e.auto(s).hash.Some? && HasMarker(e.note(e.auto(s).hash.value)))
  }

  // ---- Whatever was replaced carries a marker ----

  lemma StubIsMarked(e: Engine, reason: Reason, original: string)
    requires NotesCarryMarkers(e) && e.archive(original).Some?
    ensures HasMarker(StubOf(e, reason, original))
  {
    var note := e.note(e.archive(original).value);
    var what :=
      match reason
      case SupersededPath(path) =>
        "superseded: a later read or edit of " + path + " appears further below in this conversation"
      case Duplicate => "identical to a later tool result in this conversation";
    var marker := "[" + what + ". " + note + "]";
    MarkerSurvives("[" + what + ". ", note, "]");
    assert "[" + what + ". " + note + "]" == marker;
    var skeleton := if reason.SupersededPath? then e.skeleton(original, reason.path) else None;
    if skeleton.Some? {
      MarkerSurvives("", marker, "\n\n" + skeleton.value);
      assert "" + marker + ("\n\n" + skeleton.value) == marker + "\n\n" + skeleton.value;
    }
  }

  lemma CompressedIsMarked(e: Engine, minTokens: nat, s: string)
    requires NotesCarryMarkers(e) && Compressed(e, minTokens, s).Some?
    ensures HasMarker(Compressed(e, minTokens, s).value)
  {
    var out := e.auto(s);
    MarkerSurvives(out.text + "\n[", e.note(out.hash.value), "]");
    assert out.text + "\n[" + e.note(out.hash.value) + "]" == Compressed(e, minTokens, s).value;
  }

  /** Compressing what was compressed, or left alone, replaces nothing. */
  lemma CompressedOnce(e: Engine, minTokens: nat, s: string)
    requires NotesCarryMarkers(e)
    ensures Compressed(e, minTokens, Compressed(e, minTokens, s).GetOr(s)) == None
  {
    if Compressed(e, minTokens, s).Some? {
      CompressedIsMarked(e, minTokens, s);
    }
  }

  lemma ContentSettles(e: Engine, minTokens: nat, content: Content)
    requires NotesCarryMarkers(e)
    ensures !ContentChanges(e, minTokens, CompressedContent(e, minTokens, content))
  {
    match content
    case Whole(s) => CompressedOnce(e, minTokens, s);
    case Parts(parts) =>
      forall i | 0 <= i < |parts| ensures !PartChanges(e, minTokens, CompressedParts(e, minTokens, parts)[i]) {
        if parts[i].TextPart? && parts[i].text.Some? {
          CompressedOnce(e, minTokens, parts[i].text.value);
        }
      }
    case NoText(_) =>
  }

  lemma {:induction false} TextsHold(parts: seq<Part>, n: nat, i: nat)
    requires i < n <= |parts| && parts[i].TextPart? && parts[i].text.Some?
    ensures parts[i].text.value in TextsOf(parts, n)
  {
    if i < n - 1 {
      TextsHold(parts, n - 1, i);
    }
  }

  /** Content that changed is not plain text any more, or its text carries a marker. */
  lemma ChangedIsMarked(e: Engine, minTokens: nat, content: Content)
    requires NotesCarryMarkers(e) && ContentChanges(e, minTokens, content)
    ensures var text := PlainText(CompressedContent(e, minTokens, content)); text.Some? ==> HasMarker(text.value)
  {
    match content
    case Whole(s) => CompressedIsMarked(e, minTokens, s);
    case Parts(parts) =>
      var i :| 0 <= i < |parts| && PartChanges(e, minTokens, parts[i]);
      var after := CompressedParts(e, minTokens, parts);
      CompressedIsMarked(e, minTokens, parts[i].text.value);
      TextsHold(after, |after|, i);
      var texts := TextsOf(after, |after|);
      var k :| 0 <= k < |texts| && texts[k] == after[i].text.value;
      JoinKeepsMarker(texts, "\n", k);
    case NoText(_) =>
  }

  lemma UnchangedIsSame(e: Engine, minTokens: nat, content: Content)
    requires !ContentChanges(e, minTokens, content)
    ensures CompressedContent(e, minTokens, content) == content
  {
    if content.Parts? {
      var after := CompressedParts(e, minTokens, content.parts);
      forall i | 0 <= i < |after| ensures after[i] == content.parts[i] {
        assert !PartChanges(e, minTokens, content.parts[i]);
      }
      assert after == content.parts;
    }
  }

  // ---- The stubs ----

  /** The stubs stand exactly at the stale candidates. */
  lemma {:induction false} StubsStand(texts: seq<Option<string>>, at: seq<nat>, n: nat, i: nat)
    requires n <= |texts| == |at| && forall j, k :: 0 <= j < k < |at| ==> at[j] < at[k]
    ensures i in Stubs(texts, at, n) <==> exists k :: 0 <= k < n && at[k] == i && texts[k].Some?
    ensures forall k :: 0 <= k < n && at[k] == i && texts[k].Some? ==> Stubs(texts, at, n)[i] == texts[k].value
  {
    if n > 0 {
      StubsStand(texts, at, n - 1, i);
    }
  }

  /** The candidate a stub replaces. */
  lemma StubFor(e: Engine, blocks: seq<Block>, i: nat) returns (k: nat)
    requires i in AllStubs(e, blocks)
    ensures k < |AllLocators(e, blocks)| && AllLocators(e, blocks)[k] == i
    ensures ReasonOf(AllCandidates(e, blocks), k).Some?
    ensures AllStubs(e, blocks)[i] == StubOf(e, ReasonOf(AllCandidates(e, blocks), k).value,
            AllCandidates(e, blocks)[k].text)
    ensures CandidateOf(AllMetas(e, blocks), blocks[i]) == Some(AllCandidates(e, blocks)[k])
  {
    var (texts, at) := (StubTexts(e, AllCandidates(e, blocks)), AllLocators(e, blocks));
    StubsStand(texts, at, |at|, i);
    k :| 0 <= k < |at| && at[k] == i && texts[k].Some?;
  }

  lemma {:induction false} LocatorsComplete(metas: map<string, Meta>, blocks: seq<Block>, n: nat, i: nat)
    requires i < n <= |blocks| && CandidateOf(metas, blocks[i]).Some?
    ensures i in Locators(metas, blocks, n)
  {
    if i < n - 1 {
      LocatorsComplete(metas, blocks, n - 1, i);
    }
  }

  lemma AllStubsMarked(e: Engine, blocks: seq<Block>, i: nat)
    requires StaleArchive(e, blocks) && NotesCarryMarkers(e) && i in AllStubs(e, blocks)
    ensures HasMarker(AllStubs(e, blocks)[i])
  {
    var k := StubFor(e, blocks, i);
    StubIsMarked(e, ReasonOf(AllCandidates(e, blocks), k).value, AllCandidates(e, blocks)[k].text);
  }

  lemma CandidateTextFits(metas: map<string, Meta>, block: Block)
    requires CandidateOf(metas, block).Some?
    ensures CandidateOf(metas, block).value.text != "" && !HasMarker(CandidateOf(metas, block).value.text)
  {
  }

  // ---- What both passes leave alone ----

  /** Neither pass touches anything but the content of results. */
  ghost predicate SameButContent(a: Block, b: Block) {
    if a.ToolResult? then b.ToolResult? && b.toolUseId == a.toolUseId && b.rest == a.rest
        && (a.content.Some? <==> b.content.Some?)
    else a == b
  }

  lemma CollapseOnlyContent(e: Engine, blocks: seq<Block>)
    ensures forall i :: 0 <= i < |blocks| ==> SameButContent(blocks[i], Collapsed(e, blocks)[i])
  {
    forall i | 0 <= i < |blocks| ensures SameButContent(blocks[i], Collapsed(e, blocks)[i]) {
      if i in AllStubs(e, blocks) {
        var k := StubFor(e, blocks, i);
      }
    }
  }

  /** No block is added, dropped or moved, and of a result only the content may change. */
  lemma OnlyContentChanges(e: Engine, minTokens: nat, blocks: seq<Block>)
    ensures var r := Rewritten(e, minTokens, blocks);
            |r| == |blocks| && forall i :: 0 <= i < |r| ==> SameButContent(blocks[i], r[i])
  {
    CollapseOnlyContent(e, blocks);
  }

  lemma {:induction false} MetasSame(e: Engine, a: seq<Block>, b: seq<Block>, n: nat)
    requires n <= |a| == |b| && forall i :: 0 <= i < n ==> SameButContent(a[i], b[i])
    ensures Metas(e, a, n) == Metas(e, b, n) && Exempt(a, n) == Exempt(b, n)
  {
    if n > 0 {
      MetasSame(e, a, b, n - 1);
      assert SameButContent(a[n - 1], b[n - 1]);
    }
  }

  // ---- The second pass ----

  /** What the second pass would still look at was left alone by the first. */
  lemma SeenAgainIsUntouched(e: Engine, minTokens: nat, blocks: seq<Block>, i: nat)
    requires StaleArchive(e, blocks) && NotesCarryMarkers(e) && i < |blocks|
    requires CandidateOf(AllMetas(e, blocks), Rewritten(e, minTokens, blocks)[i]).Some?
    ensures i !in AllStubs(e, blocks) && Rewritten(e, minTokens, blocks)[i] == blocks[i]
  {
    var c := Collapsed(e, blocks);
    var exempt := Exempt(c, |c|);
    var after := CompressedBlock(e, minTokens, exempt, c[i]);
    assert Rewritten(e, minTokens, blocks)[i] == after;
    CandidateTextFits(AllMetas(e, blocks), after);
    if i in AllStubs(e, blocks) {
      AllStubsMarked(e, blocks, i);
      StubStays(e, minTokens, exempt, AllMetas(e, blocks), c[i], AllStubs(e, blocks)[i]);
    } else if BlockChanges(e, minTokens, exempt, c[i]) {
      ChangedIsMarked(e, minTokens, c[i].content.value);
    } else if Eligible(exempt, c[i]) {
      UnchangedIsSame(e, minTokens, c[i].content.value);
    }
  }

  lemma StubStays(e: Engine, minTokens: nat, exempt: set<string>, metas: map<string, Meta>, block: Block, stub: string)
    requires HasMarker(stub) && (block.ToolResult? ==> block.content == Some(Whole(stub)))
    ensures CandidateOf(metas, CompressedBlock(e, minTokens, exempt, block)) == None
  {
  }

  /** The places of the second pass's candidates within the first's. */
  function PlacesIn(at: seq<nat>, places: seq<nat>): (r: seq<nat>)
    requires forall k :: 0 <= k < |places| ==> places[k] in at
    ensures |r| == |places| && forall k :: 0 <= k < |r| ==> r[k] < |at| && at[r[k]] == places[k]
  {
    seq(|places|, k requires 0 <= k < |places| => PlaceOf(at, places[k], 0))
  }

  function PlaceOf(at: seq<nat>, place: nat, from: nat): (i: nat)
    requires from <= |at| && place in at[from..]
    ensures i < |at| && at[i] == place
    decreases |at| - from
  {
    if at[from] == place then from else PlaceOf(at, place, from + 1)
  }

  /** A candidate of the second pass is one of the first, of the same text, not collapsed. */
  lemma SeenAgainWasSpared(e: Engine, minTokens: nat, blocks: seq<Block>, i: nat)
    requires StaleArchive(e, blocks) && NotesCarryMarkers(e) && i in AllLocators(e, Rewritten(e, minTokens, blocks))
    requires AllMetas(e, Rewritten(e, minTokens, blocks)) == AllMetas(e, blocks)
    ensures i in AllLocators(e, blocks) && i !in AllStubs(e, blocks) && Rewritten(e, minTokens, blocks)[i] == blocks[i]
  {
    SeenAgainIsUntouched(e, minTokens, blocks, i);
    LocatorsComplete(AllMetas(e, blocks), blocks, |blocks|, i);
  }

  lemma SparedHasNoReason(e: Engine, blocks: seq<Block>, k: nat)
    requires k < |AllLocators(e, blocks)| && AllLocators(e, blocks)[k] !in AllStubs(e, blocks)
    ensures ReasonOf(AllCandidates(e, blocks), k) == None
  {
    var (texts, at) := (StubTexts(e, AllCandidates(e, blocks)), AllLocators(e, blocks));
    StubsStand(texts, at, |at|, at[k]);
    assert texts[k].None?;
  }

  lemma NothingStaleAgain(e: Engine, minTokens: nat, blocks: seq<Block>)
    requires StaleArchive(e, blocks) && NotesCarryMarkers(e)
    ensures AllStubs(e, Rewritten(e, minTokens, blocks)) == map[]
  {
    var r := Rewritten(e, minTokens, blocks);
    OnlyContentChanges(e, minTokens, blocks);
    MetasSame(e, blocks, r, |blocks|);
    var (at, at') := (AllLocators(e, blocks), AllLocators(e, r));
    forall k | 0 <= k < |at'| ensures at'[k] in at && at'[k] !in AllStubs(e, blocks) && r[at'[k]] == blocks[at'[k]] {
      SeenAgainWasSpared(e, minTokens, blocks, at'[k]);
    }
    var places := PlacesIn(at, at');
    Rising(at, at', places);
    forall k | 0 <= k < |places| ensures ReasonOf(AllCandidates(e, blocks), places[k]) == None {
      SparedHasNoReason(e, blocks, places[k]);
    }
    NoReasons(e, r, AllCandidates(e, blocks), places);
  }

  lemma NoReasons(e: Engine, r: seq<Block>, c: seq<Candidate>, places: seq<nat>)
    requires PartOf(AllCandidates(e, r), c, places)
    requires forall k :: 0 <= k < |places| ==> ReasonOf(c, places[k]) == None
    ensures AllStubs(e, r) == map[]
  {
    var (c', at') := (AllCandidates(e, r), AllLocators(e, r));
    forall k | 0 <= k < |c'| ensures StubTexts(e, c')[k] == None {
      SurvivorsSurvive(c', c, places, k);
    }
    NoStubs(StubTexts(e, c'), at', |at'|);
  }

  lemma Rising(at: seq<nat>, at': seq<nat>, places: seq<nat>)
    requires forall j, k :: 0 <= j < k < |at| ==> at[j] < at[k]
    requires forall j, k :: 0 <= j < k < |at'| ==> at'[j] < at'[k]
    requires |places| == |at'| && forall k :: 0 <= k < |places| ==> places[k] < |at| && at[places[k]] == at'[k]
    ensures forall j, k :: 0 <= j < k < |places| ==> places[j] < places[k]
  {
    forall j, k | 0 <= j < k < |places| ensures places[j] < places[k] {
      assert at[places[j]] < at[places[k]];
    }
  }

  lemma {:induction false} NoStubs(texts: seq<Option<string>>, at: seq<nat>, n: nat)
    requires n <= |texts| == |at| && forall k :: 0 <= k < n ==> texts[k] == None
    ensures Stubs(texts, at, n) == map[]
  {
    if n > 0 {
      NoStubs(texts, at, n - 1);
    }
  }

  /** The whole rewrite is idempotent: what was rewritten once, with its stale results
      archived, is forwarded as it is. */
  lemma RewriteIsIdempotent(e: Engine, minTokens: nat, blocks: seq<Block>)
    requires StaleArchive(e, blocks) && NotesCarryMarkers(e)
    ensures RewriteOf(e, minTokens, Rewritten(e, minTokens, blocks)) == None
  {
    var r, c := Rewritten(e, minTokens, blocks), Collapsed(e, blocks);
    NothingStaleAgain(e, minTokens, blocks);
    assert Collapsed(e, r) == r;
    OnlyContentChanges(e, minTokens, blocks);
    MetasSame(e, blocks, r, |blocks|);
    CollapseOnlyContent(e, blocks);
    MetasSame(e, blocks, c, |blocks|);
    forall i | 0 <= i < |r| ensures !BlockChanges(e, minTokens, Exempt(r, |r|), r[i]) {
      if Eligible(Exempt(c, |c|), c[i]) {
        ContentSettles(e, minTokens, c[i].content.value);
      }
    }
  }

  // ---- When archiving fails ----

  lemma NoTagNoMarker(s: string)
    requires '=' !in s
    ensures !HasMarker(s)
  {
    forall i | 0 <= i < |s| ensures !MarkerAt(s, i) {
      TagChars(s, i);
    }
  }

  const INPUT := Some(Object(map["path" := Str("x")]))

  /** Two reads of the same view of the file `x`, showing `s` and `t`. */
  function TwoReads(s: string, t: string): seq<Block> {
    [ToolUse(true, Some("1"), "Read", INPUT), ToolResult(Some("1"), Some(Whole(s)), Null),
     ToolUse(true, Some("2"), "Read", INPUT), ToolResult(Some("2"), Some(Whole(t)), Null)]
  }

  lemma TwoReadsMetas(e: Engine, s: string, t: string)
    ensures var meta := Meta("Read", Some("x"), ViewKey(e, "Read", INPUT));
            AllMetas(e, TwoReads(s, t)) == map["1" := meta, "2" := meta]
  {
    var blocks := TwoReads(s, t);
    assert PathOf(INPUT) == Some("x") by { assert Get(INPUT.value, "file_path") == None; }
    var meta := Meta("Read", Some("x"), ViewKey(e, "Read", INPUT));
    assert Metas(e, blocks, 1) == map["1" := meta];
    assert Metas(e, blocks, 2) == map["1" := meta];
    assert Metas(e, blocks, 3) == map["1" := meta, "2" := meta];
  }

  lemma TwoReadsExempt(s: string, t: string)
    ensures Exempt(TwoReads(s, t), 4) == {"1", "2"}
  {
    var blocks := TwoReads(s, t);
    assert IsVerbatim("Read", INPUT);
    assert Exempt(blocks, 1) == {"1"} && Exempt(blocks, 2) == {"1"} && Exempt(blocks, 3) == {"1", "2"};
  }

  lemma TwoReadsLocators(metas: map<string, Meta>, s: string, t: string)
    requires "1" in metas && "2" in metas
    requires s != "" && !HasMarker(s) && t != "" && !HasMarker(t)
    ensures Locators(metas, TwoReads(s, t), 4) == [1, 3]
  {
    var blocks := TwoReads(s, t);
    assert CandidateOf(metas, blocks[0]).None? && CandidateOf(metas, blocks[2]).None?;
    assert CandidateOf(metas, blocks[1]).Some? && CandidateOf(metas, blocks[3]).Some?;
    assert Locators(metas, blocks, 1) == [];
    assert Locators(metas, blocks, 2) == [1];
    assert Locators(metas, blocks, 3) == [1];
  }

  /** The first of the two reads is superseded, whatever they show. */
  lemma TwoReadsCollapse(e: Engine, s: string, t: string)
    requires s != "" && !HasMarker(s) && t != "" && !HasMarker(t)
    ensures AllStubs(e, TwoReads(s, t)) == map[1 := StubOf(e, SupersededPath("x"), s)]
  {
    var blocks := TwoReads(s, t);
    TwoReadsMetas(e, s, t);
    TwoReadsLocators(AllMetas(e, blocks), s, t);
    assert IsReadTool("Read");
    var c := AllCandidates(e, blocks);
    assert |c| == 2 && c[0].text == s && c[0].path == Some("x");
    assert c[0].isRead && c[1].isRead && c[1].view == c[0].view;
    assert ReadAgain(c, 0);
    assert !TouchedLater(c, 1) && !ReadAgain(c, 1) && !HasTwin(c, 1);
    assert ReasonOf(c, 0) == Some(SupersededPath("x")) && ReasonOf(c, 1) == None;
    var texts := StubTexts(e, c);
    assert Stubs(texts, [1, 3], 1) == map[1 := texts[0].value];
    assert Stubs(texts, [1, 3], 2) == Stubs(texts, [1, 3], 1);
  }

  const BEFORE_PATH := "superseded: a later read or edit of "
  const AFTER_PATH := " appears further below in this conversation"

  /** The stub of a text that could not be archived, without a skeleton. */
  function PlainStub(): string { "[" + (BEFORE_PATH + "x" + AFTER_PATH) + "]" }

  lemma PlainStubHasNoMarker()
    ensures !HasMarker(PlainStub()) && |PlainStub()| > 0
  {
    assert '=' !in BEFORE_PATH;
    assert '=' !in AFTER_PATH;
    var path := BEFORE_PATH + "x";
    assert '=' !in path + AFTER_PATH;
    assert '=' !in "[" + (path + AFTER_PATH) + "]";
    NoTagNoMarker(PlainStub());
  }

  lemma PlainStubStands(e: Engine, s: string)
    requires e.archive(s) == None && e.skeleton(s, "x") == None
    ensures StubOf(e, SupersededPath("x"), s) == PlainStub()
  {
  }

  /** Reads are exempt: the compression pass leaves two reads as they are. */
  lemma TwoReadsStay(e: Engine, minTokens: nat, s: string, t: string)
    ensures CompressedBlocks(e, minTokens, Exempt(TwoReads(s, t), 4), TwoReads(s, t)) == TwoReads(s, t)
  {
    TwoReadsExempt(s, t);
    var (blocks, exempt) := (TwoReads(s, t), {"1", "2"});
    forall i | 0 <= i < 4 ensures CompressedBlock(e, minTokens, exempt, blocks[i]) == blocks[i] {
      assert !Eligible(exempt, blocks[i]);
    }
  }

  lemma TwoReadsStubbed(s: string, t: string, stub: string)
    ensures WithStubs(TwoReads(s, t), map[1 := stub]) == TwoReads(stub, t)
  {
    var (blocks, after) := (TwoReads(s, t), WithStubs(TwoReads(s, t), map[1 := stub]));
    assert after[0] == blocks[0] && after[2] == blocks[2] && after[3] == blocks[3];
    assert after[1] == TwoReads(stub, t)[1];
  }

  lemma TwoReadsRewritten(e: Engine, minTokens: nat, s: string, stub: string)
    requires AllStubs(e, TwoReads(s, "y")) == map[1 := stub]
    ensures Rewritten(e, minTokens, TwoReads(s, "y")) == TwoReads(stub, "y")
  {
    TwoReadsStubbed(s, "y", stub);
    TwoReadsStay(e, minTokens, stub, "y");
  }

  /** Where archiving a text fails, its stub has no marker, and the next rewrite collapses
      the stub itself: the rewrite reports a change again. */
  lemma UnarchivedIsRewrittenAgain(e: Engine, minTokens: nat, s: string)
    requires s != "" && !HasMarker(s) && e.archive(s) == None && e.skeleton(s, "x") == None
    ensures RewriteOf(e, minTokens, Rewritten(e, minTokens, TwoReads(s, "y"))).Some?
  {
    NoTagNoMarker("y");
    PlainStubHasNoMarker();
    TwoReadsCollapse(e, s, "y");
    PlainStubStands(e, s);
    TwoReadsRewritten(e, minTokens, s, PlainStub());
    TwoReadsCollapse(e, PlainStub(), "y");
    var again := TwoReads(PlainStub(), "y");
    assert Rewritten(e, minTokens, TwoReads(s, "y")) == again;
    assert 1 in AllStubs(e, again) && Changes(e, minTokens, again);
  }

  /** With notes that carry markers and no skeleton for a file of unknown kind, the rewrite
      is idempotent on every transcript if and only if every text it may collapse can be
      archived. */
  lemma IdempotentExactlyWhenArchived(e: Engine, minTokens: nat)
    requires NotesCarryMarkers(e) && forall s :: e.skeleton(s, "x") == None
    ensures Archives(e) <==> forall blocks :: RewriteOf(e, minTokens, Rewritten(e, minTokens, blocks)) == None
  {
    if Archives(e) {
      forall blocks ensures RewriteOf(e, minTokens, Rewritten(e, minTokens, blocks)) == None {
        ArchivesEnough(e, blocks);
        RewriteIsIdempotent(e, minTokens, blocks);
      }
    } else {
      var s :| s != "" && !HasMarker(s) && e.archive(s) == None;
      UnarchivedIsRewrittenAgain(e, minTokens, s);
      assert RewriteOf(e, minTokens, Rewritten(e, minTokens, TwoReads(s, "y"))) != None;
    }
  }
}
