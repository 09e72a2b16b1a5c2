/** The stale rule in terms of the transcript itself: which results are collapsed, told by the
    calls they answer and not by the keys the analysis compares. */
module StaleTranscript {
  import opened Wrappers
  import opened Text
  import opened Json
  import opened RetrieveMarker
  import opened Stale
  import opened Rewrite
  import opened Idempotence

  // ---- Calls and their results ----

  predicate Asks(block: Block, id: string) { block.ToolUse? && block.assistant && block.id == Some(id) }

  /** Block `c` is the last of the first `n` that asks under the id. */
  ghost predicate LastAsk(blocks: seq<Block>, n: nat, id: string, c: int) {
    0 <= c < n <= |blocks| && Asks(blocks[c], id) && forall d :: c < d < n ==> !Asks(blocks[d], id)
  }

  /** Block `p` is a result of the call at `c`. */
  ghost predicate Answers(blocks: seq<Block>, p: int, c: int) {
    && 0 <= p < |blocks| && blocks[p].ToolResult? && blocks[p].toolUseId.Some?
    && LastAsk(blocks, |blocks|, blocks[p].toolUseId.value, c)
  }

  /** Block `p` answers a call with this text, and nothing in it is archived yet. */
  ghost predicate Shown(blocks: seq<Block>, p: int, text: string) {
    && (exists c :: Answers(blocks, p, c))
    && blocks[p].content.Some? && PlainText(blocks[p].content.value) == Some(text)
    && text != "" && !HasMarker(text)
  }

  /** The tool shows a file: Claude Code's, or the agent runtime's under any server. */
  ghost predicate ShowsFile(name: string) {
    name == "Read" || name == "read_file" || exists server: string :: name == server + "__read_file"
  }

  /** The input names the file, by `file_path` or, where it has none, by `path`. */
  ghost predicate Targets(input: Option<Value>, file: string) {
    && input.Some?
    && (Get(input.value, "file_path") == Some(Str(file))
        || (Get(input.value, "file_path") == None && Get(input.value, "path") == Some(Str(file))))
  }

  /** A later call makes the result of a read out of date: a read of the very same view, or
      a call on the same file that is not a read. */
  ghost predicate Overtakes(read: Block, later: Block)
    requires read.ToolUse? && later.ToolUse?
  {
    if ShowsFile(later.name) then later.name == read.name && later.input == read.input
    else exists file :: Targets(read.input, file) && Targets(later.input, file)
  }

  /** Block `p` answers a read of a file, and a later result that is shown overtakes it. */
  ghost predicate Outdated(blocks: seq<Block>, p: int) {
    exists c, file, q, d, text ::
      && Answers(blocks, p, c) && ShowsFile(blocks[c].name) && Targets(blocks[c].input, file)
      && p < q && Answers(blocks, q, d) && Shown(blocks, q, text) && Overtakes(blocks[c], blocks[d])
  }

  /** A later result that is shown, and not out of date itself, has the same text. */
  ghost predicate ShownAgain(blocks: seq<Block>, p: int, text: string) {
    exists q :: p < q && Shown(blocks, q, text) && !Outdated(blocks, q)
  }

  // ---- Keys tell views apart ----

  const SEPARATOR := '\U{1F}'

  /** Inputs are serialised without collision and never to nothing, and the separator of a key
      does not occur in the name of a tool. */
  ghost predicate TellsApart(e: Engine, blocks: seq<Block>) {
    && (forall v, w :: e.printed(v) == e.printed(w) ==> v == w) && (forall v :: e.printed(v) != "")
    && (forall i :: 0 <= i < |blocks| && blocks[i].ToolUse? ==> SEPARATOR !in blocks[i].name)
  }

  /** The first separator ends the name. */
  lemma SplitsOnce(a: string, b: string, c: string, d: string)
    requires SEPARATOR !in a && SEPARATOR !in c && a + [SEPARATOR] + b == c + [SEPARATOR] + d
    ensures a == c && b == d
  {
    var (s, t) := (a + [SEPARATOR] + b, c + [SEPARATOR] + d);
    assert s[|a|] == SEPARATOR && forall i :: 0 <= i < |a| ==> s[i] == a[i] != SEPARATOR;
    assert t[|c|] == SEPARATOR && forall i :: 0 <= i < |c| ==> t[i] == c[i] != SEPARATOR;
    assert |a| == |c|;
    assert s[..|a|] == a && t[..|c|] == c;
    assert s[|a| + 1..] == b && t[|c| + 1..] == d;
  }

  lemma ReadToolsShowFiles(name: string)
    ensures IsReadTool(name) <==> ShowsFile(name)
  {
    if EndsWith(name, "__read_file") {
      assert name == name[..|name| - |"__read_file"|] + "__read_file";
    }
  }

  /** Two calls that show files have the same view if and only if they have the same name and
      the same input. */
  lemma SameViewExactly(e: Engine, blocks: seq<Block>, c: nat, d: nat)
    requires TellsApart(e, blocks) && c < |blocks| && d < |blocks| && blocks[c].ToolUse? && blocks[d].ToolUse?
    requires ShowsFile(blocks[c].name) && ShowsFile(blocks[d].name)
    ensures ViewKey(e, blocks[c].name, blocks[c].input) == ViewKey(e, blocks[d].name, blocks[d].input) <==>
            blocks[c].name == blocks[d].name && blocks[c].input == blocks[d].input
  {
    ReadToolsShowFiles(blocks[c].name);
    ReadToolsShowFiles(blocks[d].name);
    var (v, w) := (Printed(e, blocks[c].input), Printed(e, blocks[d].input));
    KeyIs(e, blocks[c].name, blocks[c].input);
    KeyIs(e, blocks[d].name, blocks[d].input);
    if ViewKey(e, blocks[c].name, blocks[c].input) == ViewKey(e, blocks[d].name, blocks[d].input) {
      SplitsOnce(blocks[c].name, v, blocks[d].name, w);
    }
  }

  function Printed(e: Engine, input: Option<Value>): string { match input case Some(v) => e.printed(v) case None => "" }

  lemma KeyIs(e: Engine, name: string, input: Option<Value>)
    requires IsReadTool(name)
    ensures ViewKey(e, name, input) == name + [SEPARATOR] + Printed(e, input)
  {
  }

  lemma PathExactly(input: Option<Value>, file: string)
    ensures PathOf(input) == Some(file) <==> Targets(input, file)
  {
  }

  // ---- What the analysis sees ----

  lemma {:induction false} MetasExactly(e: Engine, blocks: seq<Block>, n: nat, id: string)
    requires n <= |blocks|
    ensures id in Metas(e, blocks, n) ==> exists c :: LastAsk(blocks, n, id, c)
    ensures forall c :: LastAsk(blocks, n, id, c) ==>
              id in Metas(e, blocks, n) && Metas(e, blocks, n)[id] == MetaOf(e, blocks[c])
  {
    if n > 0 {
      MetasExactly(e, blocks, n - 1, id);
      if Asks(blocks[n - 1], id) {
        assert LastAsk(blocks, n, id, n - 1);
        forall c | LastAsk(blocks, n, id, c) ensures c == n - 1 {
        }
      } else {
        MetasPassed(e, blocks, n, id);
        forall c ensures LastAsk(blocks, n - 1, id, c) <==> LastAsk(blocks, n, id, c) {
        }
        if id in Metas(e, blocks, n) {
          var c :| LastAsk(blocks, n - 1, id, c);
          assert LastAsk(blocks, n, id, c);
        }
      }
    }
  }

  lemma MetasPassed(e: Engine, blocks: seq<Block>, n: nat, id: string)
    requires 0 < n <= |blocks| && !Asks(blocks[n - 1], id)
    ensures id in Metas(e, blocks, n) <==> id in Metas(e, blocks, n - 1)
    ensures id in Metas(e, blocks, n) ==> Metas(e, blocks, n)[id] == Metas(e, blocks, n - 1)[id]
  {
  }

  function MetaOf(e: Engine, call: Block): Meta
    requires call.ToolUse?
  {
    Meta(call.name, PathOf(call.input), ViewKey(e, call.name, call.input))
  }

  /** What the analysis makes of a result and its call. */
  lemma SeenExactly(e: Engine, blocks: seq<Block>, p: nat, text: string)
    requires p < |blocks|
    ensures Shown(blocks, p, text) <==>
            var c := CandidateOf(AllMetas(e, blocks), blocks[p]); c.Some? && c.value.text == text
  {
    if blocks[p].ToolResult? && blocks[p].toolUseId.Some? {
      var id := blocks[p].toolUseId.value;
      MetasExactly(e, blocks, |blocks|, id);
      assert forall c :: Answers(blocks, p, c) <==> LastAsk(blocks, |blocks|, id, c);
      assert (exists c :: Answers(blocks, p, c)) <==> id in AllMetas(e, blocks);
    }
  }

  lemma SeenAs(e: Engine, blocks: seq<Block>, p: nat, c: int, text: string)
    requires p < |blocks| && Answers(blocks, p, c) && Shown(blocks, p, text)
    ensures var m := MetaOf(e, blocks[c]);
            CandidateOf(AllMetas(e, blocks), blocks[p]) == Some(Candidate(m.path, m.view, IsReadTool(m.name), text))
  {
    MetasExactly(e, blocks, |blocks|, blocks[p].toolUseId.value);
  }

  /** The candidate at a place, with its call and its text. */
  lemma CandidateAt(e: Engine, blocks: seq<Block>, k: nat) returns (c: int)
    requires k < |AllLocators(e, blocks)|
    ensures var (p, m) := (AllLocators(e, blocks)[k], AllCandidates(e, blocks)[k]);
            && Answers(blocks, p, c) && Shown(blocks, p, m.text)
            && m == Candidate(PathOf(blocks[c].input), ViewKey(e, blocks[c].name, blocks[c].input),
                IsReadTool(blocks[c].name), m.text)
  {
    var (p, m) := (AllLocators(e, blocks)[k], AllCandidates(e, blocks)[k]);
    SeenExactly(e, blocks, p, m.text);
    c :| Answers(blocks, p, c);
    SeenAs(e, blocks, p, c, m.text);
  }

  lemma LocatedAt(e: Engine, blocks: seq<Block>, p: nat, text: string) returns (k: nat)
    requires p < |blocks| && Shown(blocks, p, text)
    ensures k < |AllLocators(e, blocks)| && AllLocators(e, blocks)[k] == p && AllCandidates(e, blocks)[k].text == text
  {
    SeenExactly(e, blocks, p, text);
    LocatorsComplete(AllMetas(e, blocks), blocks, |blocks|, p);
    k :| 0 <= k < |AllLocators(e, blocks)| && AllLocators(e, blocks)[k] == p;
  }

  lemma SameCall(blocks: seq<Block>, p: int, c: int, d: int)
    requires Answers(blocks, p, c) && Answers(blocks, p, d)
    ensures c == d
  {
  }

  /** Candidate `t` supersedes candidate `k`. */
  ghost predicate Behind(c: seq<Candidate>, k: nat, t: nat)
    requires k < |c| && t < |c|
  {
    if c[t].isRead then c[t].view == c[k].view else c[t].path == c[k].path
  }

  /** Between the results of two calls, the keys say what the calls say. */
  lemma BehindExactly(e: Engine, blocks: seq<Block>, k: nat, t: nat, c: nat, d: nat, file: string)
    requires TellsApart(e, blocks) && k < |AllLocators(e, blocks)| && t < |AllLocators(e, blocks)|
    requires Answers(blocks, AllLocators(e, blocks)[k], c) && Answers(blocks, AllLocators(e, blocks)[t], d)
    requires ShowsFile(blocks[c].name) && Targets(blocks[c].input, file)
    ensures Behind(AllCandidates(e, blocks), k, t) <==> Overtakes(blocks[c], blocks[d])
  {
    var c' := CandidateAt(e, blocks, k);
    var d' := CandidateAt(e, blocks, t);
    SameCall(blocks, AllLocators(e, blocks)[k], c, c');
    SameCall(blocks, AllLocators(e, blocks)[t], d, d');
    ReadToolsShowFiles(blocks[d].name);
    if ShowsFile(blocks[d].name) {
      SameViewExactly(e, blocks, c, d);
    } else {
      SamePathExactly(blocks[c].input, blocks[d].input, file);
    }
  }

  lemma SamePathExactly(a: Option<Value>, b: Option<Value>, file: string)
    requires Targets(a, file)
    ensures PathOf(b) == PathOf(a) <==> exists f :: Targets(a, f) && Targets(b, f)
  {
    PathExactly(a, file);
    PathExactly(b, file);
    if PathOf(b) == PathOf(a) {
      assert Targets(b, file);
    }
  }

  lemma SupersededBehind(c: seq<Candidate>, k: nat)
    requires k < |c|
    ensures Superseded(c, k) <==> c[k].isRead && c[k].path.Some? && exists t :: k < t < |c| && Behind(c, k, t)
  {
    if TouchedLater(c, k) {
      var t :| k < t < |c| && !c[t].isRead && c[t].path == c[k].path;
      assert Behind(c, k, t);
    }
    if ReadAgain(c, k) {
      var t :| k < t < |c| && c[t].isRead && c[t].view == c[k].view;
      assert Behind(c, k, t);
    }
  }

  /** The analysis supersedes exactly what the transcript makes out of date. */
  lemma SupersededExactly(e: Engine, blocks: seq<Block>, k: nat)
    requires TellsApart(e, blocks) && k < |AllLocators(e, blocks)|
    ensures Superseded(AllCandidates(e, blocks), k) <==> Outdated(blocks, AllLocators(e, blocks)[k])
  {
    var (all, at) := (AllCandidates(e, blocks), AllLocators(e, blocks));
    SupersededBehind(all, k);
    if Superseded(all, k) {
      var t :| k < t < |all| && Behind(all, k, t);
      SupersededIsOutdated(e, blocks, k, t);
    }
    if Outdated(blocks, at[k]) {
      var c, file, q, d, text :|
        && Answers(blocks, at[k], c) && ShowsFile(blocks[c].name) && Targets(blocks[c].input, file)
        && at[k] < q && Answers(blocks, q, d) && Shown(blocks, q, text) && Overtakes(blocks[c], blocks[d]);
      OvertakenIsSuperseded(e, blocks, k, c, file, q, d, text);
    }
  }

  lemma OvertakenIsSuperseded(e: Engine, blocks: seq<Block>, k: nat, c: int, file: string, q: int, d: int, text: string)
    requires TellsApart(e, blocks) && k < |AllLocators(e, blocks)| && AllLocators(e, blocks)[k] < q
    requires Answers(blocks, AllLocators(e, blocks)[k], c) && ShowsFile(blocks[c].name)
    requires Targets(blocks[c].input, file)
    requires Answers(blocks, q, d) && Shown(blocks, q, text) && Overtakes(blocks[c], blocks[d])
    ensures Superseded(AllCandidates(e, blocks), k)
  {
    var t := LocatedAt(e, blocks, q, text);
    BehindExactly(e, blocks, k, t, c, d, file);
    var c' := CandidateAt(e, blocks, k);
    SameCall(blocks, AllLocators(e, blocks)[k], c, c');
    ReadToolsShowFiles(blocks[c].name);
    PathExactly(blocks[c].input, file);
    SupersededBehind(AllCandidates(e, blocks), k);
  }

  lemma SupersededIsOutdated(e: Engine, blocks: seq<Block>, k: nat, t: nat)
    requires TellsApart(e, blocks) && k < t < |AllLocators(e, blocks)|
    requires var c := AllCandidates(e, blocks)[k]; c.isRead && c.path.Some?
    requires Behind(AllCandidates(e, blocks), k, t)
    ensures Outdated(blocks, AllLocators(e, blocks)[k])
  {
    var (all, at) := (AllCandidates(e, blocks), AllLocators(e, blocks));
    var c := CandidateAt(e, blocks, k);
    var d := CandidateAt(e, blocks, t);
    var file := all[k].path.value;
    ReadToolsShowFiles(blocks[c].name);
    PathExactly(blocks[c].input, file);
    BehindExactly(e, blocks, k, t, c, d, file);
    assert at[k] < at[t] && Shown(blocks, at[t], all[t].text);
  }

  lemma TwinExactly(e: Engine, blocks: seq<Block>, k: nat)
    requires TellsApart(e, blocks) && k < |AllLocators(e, blocks)|
    ensures HasTwin(AllCandidates(e, blocks), k) <==>
            ShownAgain(blocks, AllLocators(e, blocks)[k], AllCandidates(e, blocks)[k].text)
  {
    var (all, at) := (AllCandidates(e, blocks), AllLocators(e, blocks));
    var text := all[k].text;
    if HasTwin(all, k) {
      var t :| k < t < |all| && Shows(all, t, text);
      SeenExactly(e, blocks, at[t], text);
      SupersededExactly(e, blocks, t);
      assert at[k] < at[t];
    }
    if ShownAgain(blocks, at[k], text) {
      var q :| at[k] < q && Shown(blocks, q, text) && !Outdated(blocks, q);
      var t := LocatedAt(e, blocks, q, text);
      SupersededExactly(e, blocks, t);
      assert k < t && Shows(all, t, text);
    }
  }

  /** What the stale pass makes of a result that is shown: a superseded stub exactly where the
      transcript makes it out of date, a duplicate stub exactly where it does not and the text
      is shown again, and otherwise what it was. */
  lemma StubbedExactly(e: Engine, blocks: seq<Block>, p: nat, c: int, text: string, file: Option<string>)
    requires TellsApart(e, blocks) && Answers(blocks, p, c) && Shown(blocks, p, text)
    requires forall f :: Targets(blocks[c].input, f) <==> file == Some(f)
    ensures Outdated(blocks, p) ==> file.Some?
    ensures Collapsed(e, blocks)[p] ==
            if Outdated(blocks, p) then
              blocks[p].(content := Some(Whole(StubOf(e, SupersededPath(file.value), text))))
            else if ShownAgain(blocks, p, text) then blocks[p].(content := Some(Whole(StubOf(e, Duplicate, text))))
            else blocks[p]
  {
    var k := LocatedAt(e, blocks, p, text);
    var c' := CandidateAt(e, blocks, k);
    SameCall(blocks, p, c, c');
    SameFile(blocks[c].input, file);
    SupersededExactly(e, blocks, k);
    TwinExactly(e, blocks, k);
    StubbedAt(e, blocks, k);
  }

  /** The candidate's reason decides its block. */
  lemma StubbedAt(e: Engine, blocks: seq<Block>, k: nat)
    requires k < |AllLocators(e, blocks)|
    ensures var (p, all) := (AllLocators(e, blocks)[k], AllCandidates(e, blocks));
            Collapsed(e, blocks)[p] ==
            match ReasonOf(all, k)
            case Some(reason) => WithStub(blocks[p], StubOf(e, reason, all[k].text))
            case None => blocks[p]
  {
    var (all, at) := (AllCandidates(e, blocks), AllLocators(e, blocks));
    StubsStand(StubTexts(e, all), at, |at|, at[k]);
    assert StubTexts(e, all)[k].Some? <==> ReasonOf(all, k).Some?;
  }

  lemma SameFile(input: Option<Value>, file: Option<string>)
    requires forall f :: Targets(input, f) <==> file == Some(f)
    ensures PathOf(input) == file
  {
    if file.Some? {
      PathExactly(input, file.value);
    } else if PathOf(input).Some? {
      PathExactly(input, PathOf(input).value);
    }
  }

  /** Everything else is left alone: a block that is no result, one whose call is not in the
      transcript, and one that shows no text or a marker. */
  lemma OthersStay(e: Engine, blocks: seq<Block>, p: nat)
    requires p < |blocks| && forall text :: !Shown(blocks, p, text)
    ensures Collapsed(e, blocks)[p] == blocks[p]
  {
    if p in AllStubs(e, blocks) {
      var k := StubFor(e, blocks, p);
      SeenExactly(e, blocks, p, AllCandidates(e, blocks)[k].text);
    }
  }
}
