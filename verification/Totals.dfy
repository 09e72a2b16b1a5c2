/** The totals of a request, told by the texts of its transcript and not by how they are added up. */
module Totals {
  import opened Wrappers
  import opened RetrieveMarker
  import opened Stale
  import opened Rewrite
  import opened Idempotence
  import opened RewrittenText
  import opened Rewriter

  /** The texts of the results that are looked into, in order. */
  function Reached(exempt: set<string>, blocks: seq<Block>, n: nat): seq<string>
    requires n <= |blocks|
  {
    if n == 0 then []
    else
      Reached(exempt, blocks, n - 1) +
      if Eligible(exempt, blocks[n - 1]) then TextsIn(blocks[n - 1].content.value) else []
  }

  function TextsIn(content: Content): seq<string> {
    match content
    case Whole(s) => [s]
    case Parts(parts) => TextsOf(parts, |parts|)
    case NoText(_) => []
  }

  function Sum(f: string -> nat, texts: seq<string>, n: nat): nat
    requires n <= |texts|
  {
    if n == 0 then 0 else Sum(f, texts, n - 1) + f(texts[n - 1])
  }

  function Total(f: string -> nat, texts: seq<string>): nat { Sum(f, texts, |texts|) }

  lemma {:induction false} SumPrefix(f: string -> nat, a: seq<string>, b: seq<string>, n: nat)
    requires n <= |a|
    ensures Sum(f, a + b, n) == Sum(f, a, n)
  {
    if n > 0 {
      SumPrefix(f, a, b, n - 1);
    }
  }

  lemma {:induction false} SumAppend(f: string -> nat, a: seq<string>, b: seq<string>, n: nat)
    requires n <= |b|
    ensures Sum(f, a + b, |a| + n) == Total(f, a) + Sum(f, b, n)
  {
    if n == 0 {
      SumPrefix(f, a, b, |a|);
    } else {
      SumAppend(f, a, b, n - 1);
      assert (a + b)[|a| + n - 1] == b[n - 1];
    }
  }

  lemma TotalAppend(f: string -> nat, a: seq<string>, b: seq<string>)
    ensures Total(f, a + b) == Total(f, a) + Total(f, b)
  {
    SumAppend(f, a, b, |b|);
  }

  /** A count that every text that is looked into changes by `f`, and nothing else changes. */
  ghost predicate Counts(e: Engine, minTokens: nat, field: Tally -> nat, f: string -> nat) {
    && (forall t, s :: field(CountText(e, minTokens, t, s)) == field(t) + f(s))
    && (forall t: Tally, n :: field(t.(exempt := n)) == field(t))
  }

  lemma {:induction false} PartsCounted(e: Engine, minTokens: nat, field: Tally -> nat, f: string -> nat, t: Tally,
      parts: seq<Part>, n: nat)
    requires n <= |parts| && Counts(e, minTokens, field, f)
    ensures field(CountParts(e, minTokens, t, parts, n)) == field(t) + Total(f, TextsOf(parts, n))
  {
    if n > 0 {
      PartsCounted(e, minTokens, field, f, t, parts, n - 1);
      var part := parts[n - 1];
      if part.TextPart? && part.text.Some? {
        TotalAppend(f, TextsOf(parts, n - 1), [part.text.value]);
        OneCounted(f, part.text.value);
      }
    }
  }

  lemma OneCounted(f: string -> nat, s: string)
    ensures Total(f, [s]) == f(s)
  {
    assert Sum(f, [s], 0) == 0;
  }

  lemma ContentCounted(e: Engine, minTokens: nat, field: Tally -> nat, f: string -> nat, t: Tally, content: Content)
    requires Counts(e, minTokens, field, f)
    ensures field(CountContent(e, minTokens, t, content)) == field(t) + Total(f, TextsIn(content))
  {
    match content
    case Whole(s) => OneCounted(f, s);
    case Parts(parts) => PartsCounted(e, minTokens, field, f, t, parts, |parts|);
    case NoText(_) =>
  }

  lemma {:induction false} BlocksCounted(e: Engine, minTokens: nat, exempt: set<string>, field: Tally -> nat,
      f: string -> nat, t: Tally, blocks: seq<Block>, n: nat)
    requires n <= |blocks| && Counts(e, minTokens, field, f)
    ensures field(CountBlocks(e, minTokens, exempt, t, blocks, n)) == field(t) + Total(f, Reached(exempt, blocks, n))
  {
    if n > 0 {
      BlocksCounted(e, minTokens, exempt, field, f, t, blocks, n - 1);
      var (before, b) := (CountBlocks(e, minTokens, exempt, t, blocks, n - 1), blocks[n - 1]);
      var told := Reached(exempt, blocks, n - 1);
      if Eligible(exempt, b) {
        ContentCounted(e, minTokens, field, f, before, b.content.value);
        TotalAppend(f, told, TextsIn(b.content.value));
      } else {
        assert told + [] == told;
      }
    }
  }

  // ---- The totals ----

  function One(b: bool): nat { if b then 1 else 0 }

  predicate Small(minTokens: nat, s: string) { Utf8Len(s, |s|) < minTokens }

  // ---- What one text adds ----

  function Always(s: string): nat { 1 }

  function IsSmall(minTokens: nat, s: string): nat { One(Small(minTokens, s)) }

  function IsArchived(minTokens: nat, s: string): nat { One(!Small(minTokens, s) && HasMarker(s)) }

  function IsJudged(minTokens: nat, s: string): nat { One(!Small(minTokens, s) && !HasMarker(s)) }

  function IsReplaced(e: Engine, minTokens: nat, s: string): nat {
    One(!Small(minTokens, s) && !HasMarker(s) && e.auto(s).fired)
  }

  function Before(e: Engine, minTokens: nat, s: string): nat {
    if !Small(minTokens, s) && !HasMarker(s) then e.auto(s).tokensBefore else 0
  }

  function After(e: Engine, minTokens: nat, s: string): nat {
    if !Small(minTokens, s) && !HasMarker(s) then e.auto(s).tokensAfter else 0
  }

  function BlocksOf(t: Tally): nat { t.blocks }

  function SmallOf(t: Tally): nat { t.small }

  function MarkerOf(t: Tally): nat { t.marker }

  function JudgedOf(t: Tally): nat { t.judged }

  function FiredOf(t: Tally): nat { t.fired }

  function TokensBeforeOf(t: Tally): nat { t.tokensBefore }

  function TokensAfterOf(t: Tally): nat { t.tokensAfter }

  lemma BlocksFieldCounted(e: Engine, minTokens: nat, t: Tally, blocks: seq<Block>)
    ensures BlocksOf(CountPass(e, minTokens, t, blocks)) == BlocksOf(t) + Total(s => Always(s), TextsOfPass(blocks))
  {
    BlocksCounted(e, minTokens, Exempt(blocks, |blocks|), BlocksOf, s => Always(s), t, blocks, |blocks|);
  }

  lemma SmallCounted(e: Engine, minTokens: nat, t: Tally, blocks: seq<Block>)
    ensures SmallOf(CountPass(e, minTokens, t, blocks)) ==
            SmallOf(t) + Total(s => IsSmall(minTokens, s), TextsOfPass(blocks))
  {
    BlocksCounted(e, minTokens, Exempt(blocks, |blocks|), SmallOf, s => IsSmall(minTokens, s), t, blocks, |blocks|);
  }

  lemma MarkerCounted(e: Engine, minTokens: nat, t: Tally, blocks: seq<Block>)
    ensures MarkerOf(CountPass(e, minTokens, t, blocks)) ==
            MarkerOf(t) + Total(s => IsArchived(minTokens, s), TextsOfPass(blocks))
  {
    BlocksCounted(e, minTokens, Exempt(blocks, |blocks|), MarkerOf, s => IsArchived(minTokens, s), t, blocks, |blocks|);
  }

  lemma JudgedCounted(e: Engine, minTokens: nat, t: Tally, blocks: seq<Block>)
    ensures JudgedOf(CountPass(e, minTokens, t, blocks)) ==
            JudgedOf(t) + Total(s => IsJudged(minTokens, s), TextsOfPass(blocks))
  {
    BlocksCounted(e, minTokens, Exempt(blocks, |blocks|), JudgedOf, s => IsJudged(minTokens, s), t, blocks, |blocks|);
  }

  lemma FiredCounted(e: Engine, minTokens: nat, t: Tally, blocks: seq<Block>)
    ensures FiredOf(CountPass(e, minTokens, t, blocks)) ==
            FiredOf(t) + Total(s => IsReplaced(e, minTokens, s), TextsOfPass(blocks))
  {
    BlocksCounted(e, minTokens, Exempt(blocks, |blocks|), FiredOf, s => IsReplaced(e, minTokens, s),
        t, blocks, |blocks|);
  }

  lemma TokensBeforeCounted(e: Engine, minTokens: nat, t: Tally, blocks: seq<Block>)
    ensures TokensBeforeOf(CountPass(e, minTokens, t, blocks)) ==
            TokensBeforeOf(t) + Total(s => Before(e, minTokens, s), TextsOfPass(blocks))
  {
    BlocksCounted(e, minTokens, Exempt(blocks, |blocks|), TokensBeforeOf, s => Before(e, minTokens, s),
        t, blocks, |blocks|);
  }

  lemma TokensAfterCounted(e: Engine, minTokens: nat, t: Tally, blocks: seq<Block>)
    ensures TokensAfterOf(CountPass(e, minTokens, t, blocks)) ==
            TokensAfterOf(t) + Total(s => After(e, minTokens, s), TextsOfPass(blocks))
  {
    BlocksCounted(e, minTokens, Exempt(blocks, |blocks|), TokensAfterOf, s => After(e, minTokens, s),
        t, blocks, |blocks|);
  }

  /** The texts that the compression pass looks into. */
  function TextsOfPass(blocks: seq<Block>): seq<string> { Reached(Exempt(blocks, |blocks|), blocks, |blocks|) }

  lemma {:induction false} AlwaysOne(texts: seq<string>, n: nat)
    requires n <= |texts|
    ensures Sum(s => Always(s), texts, n) == n
  {
    if n > 0 {
      AlwaysOne(texts, n - 1);
    }
  }

  /** The compression pass counts every text it looks into once: as too small, as archived
      already, or as judged; of the judged it counts those that were replaced, and adds up the
      tokens that the engine says they had and have. */
  lemma PassCountsExactly(e: Engine, minTokens: nat, t: Tally, blocks: seq<Block>)
    ensures var (u, texts) := (CountPass(e, minTokens, t, blocks), TextsOfPass(blocks));
            && u.blocks == t.blocks + |texts|
            && u.small == t.small + Total(s => IsSmall(minTokens, s), texts)
            && u.marker == t.marker + Total(s => IsArchived(minTokens, s), texts)
            && u.judged == t.judged + Total(s => IsJudged(minTokens, s), texts)
            && u.fired == t.fired + Total(s => IsReplaced(e, minTokens, s), texts)
            && u.tokensBefore == t.tokensBefore + Total(s => Before(e, minTokens, s), texts)
            && u.tokensAfter == t.tokensAfter + Total(s => After(e, minTokens, s), texts)
  {
    BlocksFieldCounted(e, minTokens, t, blocks);
    SmallCounted(e, minTokens, t, blocks);
    MarkerCounted(e, minTokens, t, blocks);
    JudgedCounted(e, minTokens, t, blocks);
    FiredCounted(e, minTokens, t, blocks);
    TokensBeforeCounted(e, minTokens, t, blocks);
    TokensAfterCounted(e, minTokens, t, blocks);
    AlwaysOne(TextsOfPass(blocks), |TextsOfPass(blocks)|);
  }

  /** How many of the first `n` blocks are results whose call is to be shown verbatim. */
  ghost function Spared(blocks: seq<Block>, n: nat): nat
    requires n <= |blocks|
  {
    if n == 0 then 0 else Spared(blocks, n - 1) + One(IsSpared(blocks, blocks[n - 1]))
  }

  lemma {:induction false} SparedAreCounted(e: Engine, minTokens: nat, t: Tally, blocks: seq<Block>, n: nat)
    requires n <= |blocks|
    ensures CountBlocks(e, minTokens, Exempt(blocks, |blocks|), t, blocks, n).exempt == t.exempt + Spared(blocks, n)
  {
    if n > 0 {
      var b := blocks[n - 1];
      var before := CountBlocks(e, minTokens, Exempt(blocks, |blocks|), t, blocks, n - 1);
      SparedAreCounted(e, minTokens, t, blocks, n - 1);
      if b.ToolResult? {
        SparedExactly(blocks, b);
        if b.content.Some? {
          ExemptIsKept(e, minTokens, before, b.content.value);
        }
      }
    }
  }

  lemma ExemptIsKept(e: Engine, minTokens: nat, t: Tally, content: Content)
    ensures CountContent(e, minTokens, t, content).exempt == t.exempt
  {
    if content.Parts? {
      PartsKeepExempt(e, minTokens, t, content.parts, |content.parts|);
    }
  }

  lemma {:induction false} PartsKeepExempt(e: Engine, minTokens: nat, t: Tally, parts: seq<Part>, n: nat)
    requires n <= |parts|
    ensures CountParts(e, minTokens, t, parts, n).exempt == t.exempt
  {
    if n > 0 {
      PartsKeepExempt(e, minTokens, t, parts, n - 1);
    }
  }

  /** The stubs that are counted are those that are placed. */
  lemma StubsAreCounted(e: Engine, t: Tally, blocks: seq<Block>)
    ensures CountStubs(e, t, blocks).stubs == t.stubs + |AllStubs(e, blocks)|
  {
    var c := AllCandidates(e, blocks);
    PlacedCount(StubTexts(e, c), ReasonsOf(c), AllLocators(e, blocks), |c|);
  }

  lemma {:induction false} PlacedCount(texts: seq<Option<string>>, reasons: seq<Option<Reason>>, at: seq<nat>, n: nat)
    requires n <= |texts| == |reasons| == |at| && forall j, k :: 0 <= j < k < |at| ==> at[j] < at[k]
    requires forall k :: 0 <= k < |texts| ==> (texts[k].Some? <==> reasons[k].Some?)
    ensures |Stubs(texts, at, n)| == StaleCount(reasons, n)
  {
    if n > 0 {
      PlacedCount(texts, reasons, at, n - 1);
      StubsStand(texts, at, n - 1, at[n - 1]);
      if texts[n - 1].Some? {
        var before := Stubs(texts, at, n - 1);
        assert before[at[n - 1] := texts[n - 1].value].Keys == before.Keys + {at[n - 1]};
      }
    }
  }
}
