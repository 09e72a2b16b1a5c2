/** The rewriter as it runs: a memo that outlives requests, counters per request, passes
    that update the transcript step by step. Its results are those of `Rewrite`. */
module Rewriter {
  import opened Wrappers
  import opened Lru
  import opened RetrieveMarker
  import opened Stale
  import opened Rewrite

  /** The 64-bit hashes the memo is keyed by. */
  datatype Keys = Keys(text: string -> nat, stub: (Reason, string) -> nat)

  ghost predicate CollisionFree(keys: Keys) {
    && (forall s, t :: keys.text(s) == keys.text(t) ==> s == t)
    && (forall r, s, q, t :: keys.stub(r, s) == keys.stub(q, t) ==> r == q && s == t)
  }

  // ---- The memo ----

  class Memo {
    const cap: nat
    const keys: Keys
    /** The engine the memo was built beside, and how it makes stubs. */
    ghost const engine: Engine
    ghost const stubOf: (Reason, string) -> string
    var inner: Table<nat, Verdict>
    var stale: Table<nat, string>

    ghost predicate Judged(entry: (nat, Verdict)) {
      exists s :: keys.text(s) == entry.0 && entry.1 == VerdictOf(engine, s)
    }

    ghost predicate Stubbed(entry: (nat, string)) {
      exists r, s :: keys.stub(r, s) == entry.0 && entry.1 == stubOf(r, s)
    }

    /** Every entry is what the engine would answer, and the tables stay within their bound. */
    ghost predicate Valid()
      reads this
    {
      && cap > 0 && CollisionFree(keys)
      && Distinct(inner) && |inner| <= cap && Distinct(stale) && |stale| <= cap
      && (forall i :: 0 <= i < |inner| ==> Judged(inner[i]))
      && (forall i :: 0 <= i < |stale| ==> Stubbed(stale[i]))
    }

    /** The judgement of `s` is remembered. */
    ghost predicate Knows(s: string)
      reads this
    {
      Peek(inner, keys.text(s)).Some?
    }

    ghost predicate KnowsStub(reason: Reason, s: string)
      reads this
    {
      Peek(stale, keys.stub(reason, s)).Some?
    }

    constructor (capacity: nat, keys: Keys, ghost engine: Engine)
      requires CollisionFree(keys)
      ensures Valid() && this.engine == engine && stubOf == StubMaker(engine) && this.keys == keys
    {
      cap := if capacity == 0 then 1 else capacity;
      this.keys := keys;
      this.engine, stubOf := engine, StubMaker(engine);
      inner, stale := [], [];
    }

    /** `get`: found exactly when remembered; an entry that is found becomes the most
        recently used, and nothing is forgotten. */
    method Get(s: string) returns (verdict: Option<Verdict>)
      requires Valid()
      modifies this`inner
      ensures Valid()
      ensures verdict.Some? <==> old(Knows(s))
      ensures verdict.Some? ==> verdict.value == VerdictOf(engine, s)
      ensures forall k :: Peek(inner, k) == old(Peek(inner, k))
      ensures verdict.Some? ==> MostRecent(inner, keys.text(s)) && SameOrderBut(old(inner), inner, keys.text(s))
    {
      var key := keys.text(s);
      var i := IndexOf(inner, key);
      if i == |inner| {
        return None;
      }
      assert Judged(inner[i]);
      var found := inner[i];
      Promoted(inner, key, found.1);
      inner := inner[..i] + inner[i + 1..] + [found];
      verdict := Some(found.1);
    }

    method Put(s: string, verdict: Verdict)
      requires Valid() && verdict == VerdictOf(engine, s)
      modifies this`inner
      ensures Valid() && Knows(s)
      ensures inner == Lru.Put(old(inner), cap, keys.text(s), verdict)
      ensures MostRecent(inner, keys.text(s)) && SameOrderBut(old(inner), inner, keys.text(s))
    {
      var entry := (keys.text(s), verdict);
      assert Judged(entry);
      PutProperties(inner, cap, keys.text(s), verdict);
      PutOrder(inner, cap, keys.text(s), verdict);
      inner := Lru.Put(inner, cap, keys.text(s), verdict);
    }

    method GetStub(reason: Reason, s: string) returns (stub: Option<string>)
      requires Valid()
      modifies this`stale
      ensures Valid()
      ensures stub.Some? <==> old(KnowsStub(reason, s))
      ensures stub.Some? ==> stub.value == stubOf(reason, s)
      ensures forall k :: Peek(stale, k) == old(Peek(stale, k))
      ensures stub.Some? ==>
                MostRecent(stale, keys.stub(reason, s)) && SameOrderBut(old(stale), stale, keys.stub(reason, s))
    {
      var key := keys.stub(reason, s);
      var i := IndexOf(stale, key);
      if i == |stale| {
        return None;
      }
      assert Stubbed(stale[i]);
      var found := stale[i];
      Promoted(stale, key, found.1);
      stale := stale[..i] + stale[i + 1..] + [found];
      stub := Some(found.1);
    }

    method PutStub(reason: Reason, s: string, stub: string)
      requires Valid() && stub == stubOf(reason, s)
      modifies this`stale
      ensures Valid() && KnowsStub(reason, s)
      ensures stale == Lru.Put(old(stale), cap, keys.stub(reason, s), stub)
      ensures MostRecent(stale, keys.stub(reason, s)) && SameOrderBut(old(stale), stale, keys.stub(reason, s))
    {
      var entry := (keys.stub(reason, s), stub);
      assert Stubbed(entry);
      PutProperties(stale, cap, keys.stub(reason, s), stub);
      PutOrder(stale, cap, keys.stub(reason, s), stub);
      stale := Lru.Put(stale, cap, keys.stub(reason, s), stub);
    }
  }

  /** Moving an entry to the most recent place forgets nothing. */
  lemma Promoted<K(!new), V>(t: Table<K, V>, k: K, v: V)
    requires Distinct(t) && Peek(t, k) == Some(v)
    ensures var i := IndexOf(t, k);
            var r := t[..i] + t[i + 1..] + [t[i]];
            && Distinct(r) && |r| == |t| && (forall x :: Peek(r, x) == Peek(t, x))
            && MostRecent(r, k) && SameOrderBut(t, r, k)
  {
    RemoveProperties(t, k);
    AppendProperties(Remove(t, k), k, v);
    OrderWithout(t, IndexOf(t, k), Remove(t, k) + [(k, v)], |t| - 1, k);
  }

  // ---- Counting ----

  datatype Summary = Summary(
    blocks: nat, hit: nat, miss: nat, small: nat, marker: nat, exempt: nat, fired: nat,
    staleHit: nat, staleMiss: nat, tokensBefore: nat, tokensAfter: nat)

  /** What a summary says apart from where verdicts and stubs came from. */
  datatype Tally = Tally(
    blocks: nat, judged: nat, small: nat, marker: nat, exempt: nat, fired: nat, stubs: nat,
    tokensBefore: nat, tokensAfter: nat)

  function TallyOf(s: Summary): Tally {
    Tally(s.blocks, s.hit + s.miss, s.small, s.marker, s.exempt, s.fired, s.staleHit + s.staleMiss, s.tokensBefore,
        s.tokensAfter)
  }

  predicate Balanced(t: Tally) { t.blocks == t.small + t.marker + t.judged }

  /** One text that reached the compressor. */
  function CountText(e: Engine, minTokens: nat, t: Tally, s: string): Tally {
    var u := t.(blocks := t.blocks + 1);
    if Utf8Len(s, |s|) < minTokens then u.(small := u.small + 1)
    else if HasMarker(s) then u.(marker := u.marker + 1)
    else
      var v := VerdictOf(e, s);
      u.(judged := u.judged + 1, tokensBefore := u.tokensBefore + v.tokensBefore,
          tokensAfter := u.tokensAfter + v.tokensAfter,
         fired := u.fired + if v.text.Some? then 1 else 0)
  }

  function CountPart(e: Engine, minTokens: nat, t: Tally, part: Part): Tally {
    match part
    case TextPart(Some(s), _) => CountText(e, minTokens, t, s)
    case _ => t
  }

  function CountParts(e: Engine, minTokens: nat, t: Tally, parts: seq<Part>, n: nat): Tally
    requires n <= |parts|
  {
    if n == 0 then t else CountPart(e, minTokens, CountParts(e, minTokens, t, parts, n - 1), parts[n - 1])
  }

  function CountContent(e: Engine, minTokens: nat, t: Tally, content: Content): Tally {
    match content
    case Whole(s) => CountText(e, minTokens, t, s)
    case Parts(parts) => CountParts(e, minTokens, t, parts, |parts|)
    case NoText(_) => t
  }

  function CountBlock(e: Engine, minTokens: nat, exempt: set<string>, t: Tally, block: Block): Tally {
    if Eligible(exempt, block) then CountContent(e, minTokens, t, block.content.value)
    else if block.ToolResult? && block.toolUseId.Some? && block.toolUseId.value in exempt then
      t.(exempt := t.exempt + 1)
    else t
  }

  function CountBlocks(e: Engine, minTokens: nat, exempt: set<string>, t: Tally, blocks: seq<Block>, n: nat): Tally
    requires n <= |blocks|
  {
    if n == 0 then t
    else CountBlock(e, minTokens, exempt, CountBlocks(e, minTokens, exempt, t, blocks, n - 1), blocks[n - 1])
  }

  /** The stubs of a request. */
  function CountStubs(e: Engine, t: Tally, blocks: seq<Block>): Tally {
    var reasons := ReasonsOf(AllCandidates(e, blocks));
    t.(stubs := t.stubs + StaleCount(reasons, |reasons|))
  }

  function CountPass(e: Engine, minTokens: nat, t: Tally, blocks: seq<Block>): Tally {
    CountBlocks(e, minTokens, Exempt(blocks, |blocks|), t, blocks, |blocks|)
  }

  /** The tally of a whole request, without any memo. */
  function TallyFor(e: Engine, minTokens: nat, t: Tally, blocks: seq<Block>): Tally {
    CountPass(e, minTokens, CountStubs(e, t, blocks), Collapsed(e, blocks))
  }

  /** How many of the first `n` candidates are stale. */
  function StaleCount(reasons: seq<Option<Reason>>, n: nat): nat
    requires n <= |reasons|
  {
    if n == 0 then 0 else StaleCount(reasons, n - 1) + if reasons[n - 1].Some? then 1 else 0
  }

  lemma {:induction false} PartsBalance(e: Engine, minTokens: nat, t: Tally, parts: seq<Part>, n: nat)
    requires n <= |parts| && Balanced(t)
    ensures Balanced(CountParts(e, minTokens, t, parts, n))
  {
    if n > 0 {
      PartsBalance(e, minTokens, t, parts, n - 1);
    }
  }

  lemma {:induction false} BlocksBalance(e: Engine, minTokens: nat, exempt: set<string>, t: Tally, blocks: seq<Block>,
      n: nat)
    requires n <= |blocks| && Balanced(t)
    ensures Balanced(CountBlocks(e, minTokens, exempt, t, blocks, n))
  {
    if n > 0 {
      BlocksBalance(e, minTokens, exempt, t, blocks, n - 1);
      var b := blocks[n - 1];
      if Eligible(exempt, b) && b.content.value.Parts? {
        PartsBalance(e, minTokens, CountBlocks(e, minTokens, exempt, t, blocks, n - 1), b.content.value.parts,
            |b.content.value.parts|);
      }
    }
  }

  /** Every text that reaches the compressor is small, marked, or judged: `Balanced` says
      `blocks == small + marker + hit + miss`. */
  lemma PassBalances(e: Engine, minTokens: nat, t: Tally, blocks: seq<Block>)
    ensures Balanced(t) ==> Balanced(CountPass(e, minTokens, t, blocks))
  {
    if !Balanced(t) {
      return;
    }
    BlocksBalance(e, minTokens, Exempt(blocks, |blocks|), t, blocks, |blocks|);
  }

  // ---- The compression pass ----

  /** The text reaches the engine or the memo. */
  predicate Judges(minTokens: nat, s: string) { Utf8Len(s, |s|) >= minTokens && !HasMarker(s) }

  /** `s` is replaced when the engine, now or on an earlier request, decided so. */
  method CompressText(e: Engine, minTokens: nat, memo: Memo, summary: Summary, s: string)
      returns (out: Option<string>, after: Summary)
    requires memo.Valid() && memo.engine == e
    modifies memo`inner
    ensures memo.Valid()
    ensures out == Compressed(e, minTokens, s)
    ensures TallyOf(after) == CountText(e, minTokens, TallyOf(summary), s)
    ensures after.hit == summary.hit + if Judges(minTokens, s) && old(memo.Knows(s)) then 1 else 0
    ensures Judges(minTokens, s) ==> memo.Knows(s)
  {
    after := summary.(blocks := summary.blocks + 1);
    if Utf8Len(s, |s|) < minTokens {
      return None, after.(small := after.small + 1);
    }
    var marked := HasRetrieveMarker(s);
    if marked {
      return None, after.(marker := after.marker + 1);
    }
    var hit := memo.Get(s);
    var verdict;
    match hit {
      case Some(v) =>
        after := after.(hit := after.hit + 1);
        verdict := v;
      case None =>
        after := after.(miss := after.miss + 1);
        verdict := VerdictOf(e, s);
        memo.Put(s, verdict);
    }
    after := after.(tokensBefore := after.tokensBefore + verdict.tokensBefore,
        tokensAfter := after.tokensAfter + verdict.tokensAfter);
    if verdict.text.Some? {
      after := after.(fired := after.fired + 1);
    }
    out := verdict.text;
  }

  method CompressPart(e: Engine, minTokens: nat, memo: Memo, summary: Summary, part: Part)
    returns (out: Part, changed: bool, after: Summary)
    requires memo.Valid() && memo.engine == e
    modifies memo`inner
    ensures memo.Valid()
    ensures out == CompressedPart(e, minTokens, part) && changed == PartChanges(e, minTokens, part)
    ensures TallyOf(after) == CountPart(e, minTokens, TallyOf(summary), part)
  {
    out, changed, after := part, false, summary;
    if part.TextPart? && part.text.Some? {
      var text;
      text, after := CompressText(e, minTokens, memo, summary, part.text.value);
      if text.Some? {
        out, changed := part.(text := text), true;
      }
    }
  }

  method CompressParts(e: Engine, minTokens: nat, memo: Memo, summary: Summary, parts: seq<Part>)
    returns (out: seq<Part>, changed: bool, after: Summary)
    requires memo.Valid() && memo.engine == e
    modifies memo`inner
    ensures memo.Valid()
    ensures out == CompressedParts(e, minTokens, parts)
    ensures changed == exists i :: 0 <= i < |parts| && PartChanges(e, minTokens, parts[i])
    ensures TallyOf(after) == CountParts(e, minTokens, TallyOf(summary), parts, |parts|)
  {
    out, changed, after := parts, false, summary;
    for i := 0 to |parts|
      invariant memo.Valid() && |out| == |parts|
      invariant forall k :: 0 <= k < i ==> out[k] == CompressedPart(e, minTokens, parts[k])
      invariant forall k :: i <= k < |parts| ==> out[k] == parts[k]
      invariant changed == exists k :: 0 <= k < i && PartChanges(e, minTokens, parts[k])
      invariant TallyOf(after) == CountParts(e, minTokens, TallyOf(summary), parts, i)
    {
      var part, changedHere;
      part, changedHere, after := CompressPart(e, minTokens, memo, after, parts[i]);
      out, changed := out[i := part], changed || changedHere;
    }
  }

  method CompressContent(e: Engine, minTokens: nat, memo: Memo, summary: Summary, content: Content)
    returns (out: Content, changed: bool, after: Summary)
    requires memo.Valid() && memo.engine == e
    modifies memo`inner
    ensures memo.Valid()
    ensures out == CompressedContent(e, minTokens, content)
    ensures changed == ContentChanges(e, minTokens, content)
    ensures TallyOf(after) == CountContent(e, minTokens, TallyOf(summary), content)
  {
    match content {
      case Whole(s) =>
        var text;
        text, after := CompressText(e, minTokens, memo, summary, s);
        out, changed := Whole(text.GetOr(s)), text.Some?;
      case Parts(parts) =>
        var newParts;
        newParts, changed, after := CompressParts(e, minTokens, memo, summary, parts);
        out := Parts(newParts);
      case NoText(_) => out, changed, after := content, false, summary;
    }
  }

  method CompressBlock(e: Engine, minTokens: nat, memo: Memo, summary: Summary, exempt: set<string>, block: Block)
    returns (out: Block, changed: bool, after: Summary)
    requires memo.Valid() && memo.engine == e
    modifies memo`inner
    ensures memo.Valid()
    ensures out == CompressedBlock(e, minTokens, exempt, block)
    ensures changed == BlockChanges(e, minTokens, exempt, block)
    ensures TallyOf(after) == CountBlock(e, minTokens, exempt, TallyOf(summary), block)
  {
    out, changed, after := block, false, summary;
    if block.ToolResult? {
      if block.toolUseId.Some? && block.toolUseId.value in exempt {
        after := summary.(exempt := summary.exempt + 1);
      } else if block.content.Some? {
        var content;
        content, changed, after := CompressContent(e, minTokens, memo, summary, block.content.value);
        out := block.(content := Some(content));
      }
    }
  }

  method CompressBlocks(e: Engine, minTokens: nat, memo: Memo, summary: Summary, exempt: set<string>,
      blocks: seq<Block>)
    returns (out: seq<Block>, changed: bool, after: Summary)
    requires memo.Valid() && memo.engine == e
    modifies memo`inner
    ensures memo.Valid()
    ensures out == CompressedBlocks(e, minTokens, exempt, blocks)
    ensures changed == exists i :: 0 <= i < |blocks| && BlockChanges(e, minTokens, exempt, blocks[i])
    ensures TallyOf(after) == CountBlocks(e, minTokens, exempt, TallyOf(summary), blocks, |blocks|)
  {
    out, changed, after := blocks, false, summary;
    for i := 0 to |blocks|
      invariant memo.Valid() && |out| == |blocks|
      invariant forall k :: 0 <= k < i ==> out[k] == CompressedBlock(e, minTokens, exempt, blocks[k])
      invariant forall k :: i <= k < |blocks| ==> out[k] == blocks[k]
      invariant changed == exists k :: 0 <= k < i && BlockChanges(e, minTokens, exempt, blocks[k])
      invariant TallyOf(after) == CountBlocks(e, minTokens, exempt, TallyOf(summary), blocks, i)
    {
      var block, changedHere;
      block, changedHere, after := CompressBlock(e, minTokens, memo, after, exempt, blocks[i]);
      out, changed := out[i := block], changed || changedHere;
    }
  }

  // ---- The stale pass ----

  /** Building a stub archives the original, so stubs are remembered too. */
  method StaleStub(stubOf: (Reason, string) -> string, memo: Memo, summary: Summary, reason: Reason, original: string)
    returns (stub: string, after: Summary)
    requires memo.Valid() && memo.stubOf == stubOf
    modifies memo`stale
    ensures memo.Valid() && stub == stubOf(reason, original)
    ensures after.staleHit == summary.staleHit + (if old(memo.KnowsStub(reason, original)) then 1 else 0)
            && memo.KnowsStub(reason, original)
    ensures TallyOf(after) == TallyOf(summary).(stubs := TallyOf(summary).stubs + 1)
  {
    var hit := memo.GetStub(reason, original);
    if hit.Some? {
      return hit.value, summary.(staleHit := summary.staleHit + 1);
    }
    after := summary.(staleMiss := summary.staleMiss + 1);
    stub := stubOf(reason, original);
    memo.PutStub(reason, original, stub);
  }

  method FindCandidates(e: Engine, blocks: seq<Block>) returns (at: seq<nat>, candidates: seq<Candidate>)
    ensures at == AllLocators(e, blocks) && candidates == AllCandidates(e, blocks)
  {
    var metas: map<string, Meta> := map[];
    for i := 0 to |blocks|
      invariant metas == Metas(e, blocks, i)
    {
      match blocks[i] {
        case ToolUse(true, Some(id), name, input) =>
          metas := metas[id := Meta(name, PathOf(input), ViewKey(e, name, input))];
        case _ =>
      }
    }
    at, candidates := [], [];
    for i := 0 to |blocks|
      invariant at == Locators(metas, blocks, i)
      invariant candidates == CandidatesAt(metas, blocks, at)
    {
      var c := CandidateOf(metas, blocks[i]);
      if c.Some? {
        at, candidates := at + [i], candidates + [c.value];
      }
    }
  }

  /** The blocks after the first `n` candidates, one stub placed after the other. */
  function Placed(blocks: seq<Block>, texts: seq<Option<string>>, at: seq<nat>, n: nat): (r: seq<Block>)
    requires n <= |texts| == |at| && forall k :: 0 <= k < |at| ==> at[k] < |blocks|
    ensures |r| == |blocks|
  {
    if n == 0 then blocks
    else
      var r := Placed(blocks, texts, at, n - 1);
      match texts[n - 1]
      case Some(stub) => r[at[n - 1] := WithStub(r[at[n - 1]], stub)]
      case None => r
  }

  /** Placing stubs one after the other is placing them all at once. */
  lemma {:induction false} PlacedTogether(blocks: seq<Block>, texts: seq<Option<string>>, at: seq<nat>, n: nat)
    requires n <= |texts| == |at| && forall k :: 0 <= k < |at| ==> at[k] < |blocks|
    ensures Placed(blocks, texts, at, n) == WithStubs(blocks, Stubs(texts, at, n))
  {
    if n == 0 {
      assert WithStubs(blocks, map[]) == blocks;
    } else {
      PlacedTogether(blocks, texts, at, n - 1);
      if texts[n - 1].Some? {
        StubPlaced(blocks, texts, at, n - 1);
      }
    }
  }

  /** Placing one more stub on the blocks that carry the earlier ones. */
  lemma StubPlaced(blocks: seq<Block>, texts: seq<Option<string>>, at: seq<nat>, k: nat)
    requires k < |texts| == |at| && at[k] < |blocks| && texts[k].Some?
    ensures var before := WithStubs(blocks, Stubs(texts, at, k));
            WithStubs(blocks, Stubs(texts, at, k + 1)) == before[at[k] := WithStub(before[at[k]], texts[k].value)]
  {
    var before := WithStubs(blocks, Stubs(texts, at, k));
    var next := WithStubs(blocks, Stubs(texts, at, k + 1));
    assert WithStub(before[at[k]], texts[k].value) == WithStub(blocks[at[k]], texts[k].value);
    assert next == before[at[k] := WithStub(before[at[k]], texts[k].value)];
  }

  lemma {:induction false} SomeStub(reasons: seq<Option<Reason>>, texts: seq<Option<string>>, at: seq<nat>, n: nat)
    requires n <= |reasons| == |texts| == |at| && forall k :: 0 <= k < n ==> (texts[k].Some? <==> reasons[k].Some?)
    ensures Stubs(texts, at, n) != map[] <==> StaleCount(reasons, n) > 0
  {
    if n > 0 {
      SomeStub(reasons, texts, at, n - 1);
      assert texts[n - 1].Some? ==> at[n - 1] in Stubs(texts, at, n);
    }
  }

  /** Puts the stubs in place, one stale candidate after the other. */
  method PlaceStubs(stubOf: (Reason, string) -> string, memo: Memo, summary: Summary, blocks: seq<Block>, at: seq<nat>,
      candidates: seq<Candidate>, reasons: seq<Option<Reason>>)
    returns (out: seq<Block>, changed: bool, after: Summary)
    requires memo.Valid() && memo.stubOf == stubOf
    requires |at| == |candidates| == |reasons| && forall k :: 0 <= k < |at| ==> at[k] < |blocks|
    modifies memo`stale
    ensures memo.Valid()
    ensures out == Placed(blocks, StubsFor(stubOf, reasons, candidates), at, |at|)
    ensures changed == (StaleCount(reasons, |reasons|) > 0)
    ensures TallyOf(after) == TallyOf(summary).(stubs := TallyOf(summary).stubs + StaleCount(reasons, |reasons|))
  {
    ghost var texts := StubsFor(stubOf, reasons, candidates);
    out, changed, after := blocks, false, summary;
    for k := 0 to |at|
      invariant memo.Valid()
      invariant out == Placed(blocks, texts, at, k)
      invariant changed == (StaleCount(reasons, k) > 0)
      invariant TallyOf(after) == TallyOf(summary).(stubs := TallyOf(summary).stubs + StaleCount(reasons, k))
    {
      if reasons[k].Some? {
        var stub;
        stub, after := StaleStub(stubOf, memo, after, reasons[k].value, candidates[k].text);
        out, changed := out[at[k] := WithStub(out[at[k]], stub)], true;
      }
    }
  }

  method Collapse(e: Engine, memo: Memo, summary: Summary, blocks: seq<Block>)
    returns (out: seq<Block>, changed: bool, after: Summary)
    requires memo.Valid() && memo.stubOf == StubMaker(e)
    modifies memo`stale
    ensures memo.Valid()
    ensures out == Collapsed(e, blocks) && changed == (AllStubs(e, blocks) != map[])
    ensures TallyOf(after) == CountStubs(e, TallyOf(summary), blocks)
  {
    var at, candidates := FindCandidates(e, blocks);
    var reasons := ComputeStaleReasons(candidates);
    out, changed, after := PlaceStubs(StubMaker(e), memo, summary, blocks, at, candidates, reasons);
    ghost var texts := StubTexts(e, candidates);
    PlacedTogether(blocks, texts, at, |at|);
    SomeStub(reasons, texts, at, |at|);
  }

  // ---- One request, and many ----

  /** The two passes and their flags are the rewrite. */
  lemma PassesAreTheRewrite(e: Engine, minTokens: nat, blocks: seq<Block>, c: seq<Block>, out: seq<Block>, stale: bool,
      changed: bool)
    requires c == Collapsed(e, blocks) && stale == (AllStubs(e, blocks) != map[])
    requires out == CompressedBlocks(e, minTokens, Exempt(c, |c|), c)
    requires changed == exists i :: 0 <= i < |c| && BlockChanges(e, minTokens, Exempt(c, |c|), c[i])
    ensures RewriteOf(e, minTokens, blocks) == if stale || changed then Some(out) else None
  {
  }

  /** Whatever the memo holds, the body and the tally are those of no memo at all. */
  method RewriteRequest(e: Engine, minTokens: nat, memo: Memo, start: Summary, blocks: seq<Block>)
    returns (out: Option<seq<Block>>, summary: Summary)
    requires memo.Valid() && memo.engine == e && memo.stubOf == StubMaker(e)
    modifies memo`inner, memo`stale
    ensures memo.Valid()
    ensures out == RewriteOf(e, minTokens, blocks)
    ensures TallyOf(summary) == TallyFor(e, minTokens, TallyOf(start), blocks)
    ensures Balanced(TallyOf(start)) ==> Balanced(TallyOf(summary))
  {
    var collapsed, stale, compressed, changed;
    collapsed, stale, summary := Collapse(e, memo, start, blocks);
    var exempt := FindExempt(collapsed);
    compressed, changed, summary := CompressBlocks(e, minTokens, memo, summary, exempt, collapsed);
    PassBalances(e, minTokens, CountStubs(e, TallyOf(start), blocks), collapsed);
    PassesAreTheRewrite(e, minTokens, blocks, collapsed, compressed, stale, changed);
    out := if stale || changed then Some(compressed) else None;
  }

  method FindExempt(blocks: seq<Block>) returns (exempt: set<string>)
    ensures exempt == Exempt(blocks, |blocks|)
    ensures forall id :: id in exempt <==> exists i :: 0 <= i < |blocks| && VerbatimCall(blocks[i], id)
  {
    forall id ensures id in Exempt(blocks, |blocks|) <==>
        exists i :: 0 <= i < |blocks| && VerbatimCall(blocks[i], id)
    {
      ExemptExactly(blocks, |blocks|, id);
    }
    exempt := {};
    for i := 0 to |blocks|
      invariant exempt == Exempt(blocks, i)
    {
      match blocks[i] {
        case ToolUse(_, Some(id), name, input) =>
          if IsVerbatim(name, input) {
            exempt := exempt + {id};
          }
        case _ =>
      }
    }
  }

  datatype Config = Config(enabled: bool, autoEnabled: bool, minTokens: nat, settings: string)

  /** How an engine is made from a configuration, if it can be, and the fingerprint that
      stands for one. */
  datatype Workshop = Workshop(build: Config -> Option<Engine>, fingerprint: Config -> nat, keys: Keys)

  ghost predicate Distinguishes(w: Workshop) {
    CollisionFree(w.keys) && forall c, d :: w.fingerprint(c) == w.fingerprint(d) ==> c == d
  }

  const MEMO_CAPACITY := 8192

  class Shared {
    const engine: Engine
    const minTokens: nat
    const memo: Memo
    const fingerprint: nat

    constructor (engine: Engine, minTokens: nat, fingerprint: nat, keys: Keys)
      requires CollisionFree(keys)
      ensures this.engine == engine && this.minTokens == minTokens && this.fingerprint == fingerprint
      ensures memo.Valid() && memo.engine == engine && memo.stubOf == StubMaker(engine) && fresh(memo)
    {
      this.engine, this.minTokens, this.fingerprint := engine, minTokens, fingerprint;
      memo := new Memo(MEMO_CAPACITY, keys, engine);
    }
  }

  class Gateway {
    const workshop: Workshop
    var shared: Shared?
    /** The configuration the shared engine was built from. */
    ghost var config: Config

    /** Engine and memo are those of one configuration, and the memo is the engine's. */
    ghost predicate Valid()
      reads this, shared, if shared == null then {} else {shared.memo}
    {
      && Distinguishes(workshop)
      && (shared != null ==>
            && workshop.build(config) == Some(shared.engine) && shared.minTokens == config.minTokens
            && shared.fingerprint == workshop.fingerprint(config)
            && shared.memo.Valid() && shared.memo.engine == shared.engine
            && shared.memo.stubOf == StubMaker(shared.engine))
    }

    constructor (workshop: Workshop)
      requires Distinguishes(workshop)
      ensures Valid() && this.workshop == workshop && shared == null
    {
      this.workshop, shared := workshop, null;
    }

    /** The engine for the configuration as it is now; a changed fingerprint rebuilds
        engine and memo together. */
    method SharedEngine(cfg: Config) returns (s: Shared?)
      requires Valid()
      modifies this
      ensures Valid()
      ensures s != null <==> cfg.enabled && cfg.autoEnabled && workshop.build(cfg).Some?
      ensures s != null ==> s == shared && config == cfg
      ensures shared == old(shared) || (shared != null && fresh(shared.memo))
      ensures s != null && old(shared) != null && old(shared).fingerprint == workshop.fingerprint(cfg) ==>
              s == old(shared)
    {
      if !cfg.enabled || !cfg.autoEnabled {
        return null;
      }
      var fingerprint := workshop.fingerprint(cfg);
      if shared != null && shared.fingerprint == fingerprint {
        return shared;
      }
      var engine := workshop.build(cfg);
      if engine.None? {
        return null;
      }
      s := new Shared(engine.value, cfg.minTokens, fingerprint, workshop.keys);
      shared, config := s, cfg;
    }

    /** One request under the configuration in force. */
    method Handle(cfg: Config, start: Summary, blocks: seq<Block>) returns (served: Served)
      requires Valid()
      modifies this, if shared == null then {} else {shared.memo}
      ensures Valid() && (shared == old(shared) || (shared != null && fresh(shared.memo)))
      ensures served == Expected(workshop, cfg, TallyOf(start), blocks)
    {
      var s := SharedEngine(cfg);
      if s == null {
        return Served(None, TallyOf(start));
      }
      var out, summary := RewriteRequest(s.engine, s.minTokens, s.memo, start, blocks);
      served := Served(out, TallyOf(summary));
    }
  }

  /** The body to send, if it was rewritten, and the totals of the rewrite. */
  datatype Served = Served(body: Option<seq<Block>>, tally: Tally)

  /** What a gateway without a memo would do with a request, counting from `start`. */
  function Expected(w: Workshop, cfg: Config, start: Tally, blocks: seq<Block>): Served {
    if !cfg.enabled || !cfg.autoEnabled then Served(None, start)
    else
      match w.build(cfg)
      case None => Served(None, start)
      case Some(e) => Served(RewriteOf(e, cfg.minTokens, blocks), TallyFor(e, cfg.minTokens, start, blocks))
  }

  /** Over any run of requests, with the configuration changing between them in any way,
      every body is the one a gateway without a memo would send, and the totals are its,
      whatever every request counts from. */
  method Serve(workshop: Workshop, start: Summary, requests: seq<(Config, seq<Block>)>) returns (served: seq<Served>)
    requires Distinguishes(workshop)
    ensures |served| == |requests|
    ensures forall i :: 0 <= i < |served| ==>
        served[i] == Expected(workshop, requests[i].0, TallyOf(start), requests[i].1)
  {
    var gateway := new Gateway(workshop);
    served := [];
    for i := 0 to |requests|
      invariant gateway.Valid() && gateway.workshop == workshop && fresh(gateway)
      invariant gateway.shared != null ==> fresh(gateway.shared.memo)
      invariant |served| == i
      invariant forall k :: 0 <= k < i ==> served[k] == Expected(workshop, requests[k].0, TallyOf(start), requests[k].1)
    {
      var one := gateway.Handle(requests[i].0, start, requests[i].1);
      served := served + [one];
    }
  }
}
