# Verified model of the MUR model gateway

The gateway forwards model requests of coding agents and rewrites them on the way. This
project models the parts of it that carry state or rewrite content, and proves what every
run of them keeps.

- **The prompt-cache tracker** (`Lru`, `RecencyTable`, `RecencyRun`, `RecencyOrder`, `RecencyObject`,
  `CacheTrace`, `CacheTraffic`). Recency tables with pending counts, one level of rollback and an eviction
  that rotates around pending entries; a guard per request that settles once and prints once.
  `RecencyRun` is the protocol on values, over any interleaving of sends and settles;
  `RecencyObject` and `CacheTrace` are the objects that update the tables in place, and every
  method ties its new state to a step of that protocol; `CacheTraffic` carries any number of
  guards over one tracker.
- **What a request is made of** (`Breakpoints`, `Analysis`, `Divergence`). Breakpoint byte
  sums, prefix extent, fingerprints, and the capped comparison with the previous request.
- **The usage tap** (`UsageTap`). The pass-through stream that scans for usage and drives the guard.
- **The wire rewriter** (`RetrieveMarker`, `Stale`, `Rewrite`, `Idempotence`, `StaleTranscript`, `CommandWords`,
  `RewrittenText`, `Rewriter`, `Totals`, `SharedMemo`).
  `Stale` decides which tool results are out of date, `Rewrite` is the two-pass rewrite as a
  function, `Idempotence` proves that a second rewrite does nothing, and `Rewriter` is the
  rewriter as it runs: with a memo that outlives requests, counters and a shared engine.
  `StaleTranscript`, `RewrittenText` and `Totals` tell what the model reads, and what is counted, by
  the transcript alone. `SharedMemo` is that engine under concurrent requests, step by step of their locks.
- **The Chat Completions / Responses translator** (`SseSplitter`, `SseTranslator`, `Replies`,
  `Agreement`, `TranslatedReply`, `WireFormat`, `UpstreamReply`, `ChatRequest`, `ChatReading`).
  The incremental splitter, the streaming
  translator, the aggregator, both joined from the upstream's text to what a client holds, and
  the two message translations.
- **The credential cache** (`Freshness`, `CredentialCache`, `CredentialReads`) and **the Codex token refresh**
  (`CodexAuth`, `CodexRefresh`, `CodexTokens`). Two lock protocols as atomic steps of any number
  of callers under a clock, joined to the deadline arithmetic and to the credentials file.

`Wrappers`, `Text`, `Json` and `Runs` hold what the others share. A concurrent protocol is a state
machine whose events are single steps; a result "over any run" quantifies over every sequence
of events that is possible in its turn. Objects that the source updates in place are classes
whose methods are proved against functions, and the theorems are about those functions.

Calls into code that is not visible here are parameters: the hash functions and canonical
serialisation (`Analysis.Codec`, `Rewriter.Keys`), the compression engine, archive, retrieval
note and skeletons (`Rewrite.Engine`, the engine with its configured minimum built in), JSON
parsing of a data line (`SseSplitter.Parser`, `UsageTap.Reader`), the keychain's answers, the
provider's grants and the outcome of file operations (arguments of events). Where a statement
needs such a function to be collision-free or to put a marker into its notes, that is a
`requires` of that statement.

## Where the code and its own words differ

- `compute_stale_reasons` says that a collapse decision can only flip forward in time and that
  the most recent copy of any view and every result that is not a read are left alone. A
  duplicate can return to uncollapsed (`Stale.CollapseCanFlipBack`; exactly when is
  `Stale.UncollapsedExactly`). The latest view is superseded by a later edit, and either can be
  called a duplicate (`Stale.LatestIsNotLeftAlone`; exactly when they are left alone is
  `Stale.LeftAloneExactly`); what does hold is `Stale.TextSurvives` and `Stale.LatestViewSurvives`.
- `without_cc` says that a breakpoint is a directive and not content. It is where breakpoints can
  stand; a `cache_control` member on a message itself, or on a block inside the content of a
  block, changes the hash of the message: `Analysis.MarkElsewhereIsContent`, and exactly when is
  `Analysis.EditsAreNotContentExactly`.
- The rollback of a failed send is exact while sends of a key do not overlap, and only then:
  `RecencyRun.RollbackNeedsOneAtATime`. In any state, one more send is safe exactly when the
  entry names a send that has succeeded, or there is none: `RecencyRun.RollbackSafeExactly`.
- A translated stream that closes before its first event is finished without a role chunk; with
  an event it always opens with the role: `SseTranslator.StreamFits`.
- The rewrite is idempotent exactly when every text that it may collapse can be archived:
  `Idempotence.IdempotentExactlyWhenArchived`.
- The comment on the pair of deadlines says that those of a Claude credential differ by exactly
  the expiry margin. They do for a life between six minutes and eight hours: `Freshness.DeadlinesOf`.
- The refresh gate says that a rotation triggers one keychain read rather than one per request.
  A caller that gets the lock at once does not look at the cache again and reads a second time:
  `CredentialCache.OvertakenFetchesAgain`; its read is redundant exactly when the cache is fresh
  as it gets the lock: `CredentialReads.RedundantExactly`.
- An invalidation is overwritten by a read that was in flight, and by no other:
  `CredentialReads.InvalidationOverwrittenExactly`.
- A refresh token is redeemed twice exactly when a granted rotation was not stored and another
  grant followed it: `CodexTokens.RedeemedOnceExactlyWhenStored`. It happens wherever a second
  caller comes after the memo has expired: `CodexTokens.LostRotationIsSpentAgain`.

## Model

| member | source | states |
|---|---|---|
| `Lru.PutProperties` | src/compress.rs:57-66 | after `put` the key is found with its value, the table stays within its capacity with distinct keys, and every other key keeps its value, but for the least recently used one where a new key enters a full table |
| `Lru.PutOrder` | src/compress.rs:57-66 | what is put becomes the most recently used, and the others keep their order |
| `RecencyTable.TouchFrame` | src/cache_trace.rs:834-883 | a send that is held changes only its own entry; at a full table it evicts only the least recently used entry without a pending send, never one with a pending send, and never exceeds the capacity |
| `RecencyTable.TouchOrder` | src/cache_trace.rs:834-883 | a held send makes its key the most recently used; the others keep their order, but that an eviction moves the pending entries it passes behind those it did not reach |
| `RecencyTable.SettleFrame` | src/cache_trace.rs:888-913 | a settle touches no other entry, and its own becomes what the outcome demands or goes |
| `RecencyTable.SettleOrder` | src/cache_trace.rs:888-913 | a settle moves no entry |
| `RecencyOrder.EntriesStandInOrderOfUse` | src/cache_trace.rs:834-913 | in every run the entries stand in the order of their last uses, a use being a held send of the key or an eviction that passed it while it was pending |
| `RecencyOrder.EvictedIsLeastRecentlyUsed` | src/cache_trace.rs:834-883 | in every run the entry that a send evicts is idle and was used before every other idle one |
| `RecencyOrder.LastUseIsTheLastSend` | src/cache_trace.rs:834-883 | the last use of a key is at or after its latest held send, and is that send exactly if no eviction passed the key since |
| `RecencyOrder.EvictedWasSentFirst` | src/cache_trace.rs:834-883 | while no eviction passes a pending entry, the latest held send of the evicted key precedes that of every other idle key |
| `RecencyObject.Recency.MakeRoom` | src/cache_trace.rs:834-852 | on a full table removes exactly the first entry without a pending send and leaves the rest as a rotation, or refuses exactly when all are pending, with the order as it was |
| `RecencyObject.Recency.Touch` | src/cache_trace.rs:856-883 | the in-place update is the protocol's, a held key standing last, including the refusal that leaves the table unchanged |
| `RecencyObject.Recency.SettleEntry` | src/cache_trace.rs:888-913 | the in-place update is the protocol's: success raises the deadline, failure rolls back one level or removes the key |
| `RecencyObject.ReadingIsExact` | src/cache_trace.rs:814-829 | the reading before a send tells the run: pending is the number of unsettled guards, the age is that of a send with only failed ones behind it, the deadline is the latest of the successful sends, and a refused send has nothing to read |
| `RecencyObject.Recency.Send` | src/cache_trace.rs:973-992 | one table's half of a send is one step of the protocol, and its reading is exact for the run before it |
| `RecencyObject.Recency.Settle` | src/cache_trace.rs:783-797 | one table's half of a settle is one step of the protocol and closes exactly the hold of that send |
| `RecencyRun.StepKeeps` | src/cache_trace.rs:834-913 | every send and every settle, in any order, keeps the invariant that ties the table to the history of its guards |
| `RecencyRun.PendingCountsGuards` | src/cache_trace.rs:783-797 | in every reachable state an entry's pending count is the number of unsettled guards of its key, and every unsettled guard finds its entry with a positive count, so no settle misses and no subtraction saturates |
| `RecencyRun.EntryTracksHistory` | src/cache_trace.rs:856-913 | under any interleaving the entry names a send at or after the latest that did not fail, its previous one is older, its deadline is the maximum over its successful sends, an absent key has no such send, and the only error possible is to name a failed send |
| `RecencyRun.ReadableNeverFalls` | src/cache_trace.rs:888-901 | the deadline of a living entry never falls in any step |
| `RecencyRun.RollbackRefinesHistory` | src/cache_trace.rs:856-913 | in every run where the sends of a key settle before the next one, the time remembered is that of the latest send since the last eviction that succeeded or is pending, and the key is absent exactly when there is none |
| `RecencyRun.RollbackNeedsOneAtATime` | src/cache_trace.rs:888-913 | where the sends of a key came one at a time, sending again is safe for every outcome if and only if nothing on it is pending |
| `RecencyRun.RollbackSafeExactly` | src/cache_trace.rs:856-913 | in every reachable state, one more send of a key is remembered whatever comes of it and of a pending one if and only if the key is absent or its entry names a send that has succeeded |
| `RecencyRun.OverlapLosesHistory` | src/cache_trace.rs:896-905 | two overlapping sends that fail in send order leave the key naming a failed send |
| `CacheTrace.Tracker.Compare` | src/cache_trace.rs:949-971 | the request is compared with the previous one of the same client and model, which it then replaces |
| `CacheTrace.SlotKeeps` | src/cache_trace.rs:958-972 | a stored slot has the hashes of its request, and the canonical blocks exactly while they fit the budget |
| `CacheTrace.DivergesNowhereExactly` | src/cache_trace.rs:664-730 | against the slot of an earlier request nothing is reported exactly when settings, tools, system and messages have the same hashes, so a request sent again diverges nowhere |
| `CacheTrace.KeysTellApart` | src/cache_trace.rs:945-946 | two requests share an entry exactly when they are for the same model, under the same settings, with the same prefix or the same tools |
| `CacheTrace.SendAsks` | src/cache_trace.rs:945-993 | a send wants the prefix entry exactly when its prefix ends at a breakpoint, for that one's lifetime, and the tools entry exactly when it has tools, for the longest lifetime or five minutes |
| `CacheTrace.Tracker.Send` | src/cache_trace.rs:945-993 | one send compares with the stored previous request and replaces it, is one step of both tables, reads exactly the states before it, and is held by each table that took it |
| `CacheTrace.Tracker.Settle` | src/cache_trace.rs:783-797 | a settle is one step of both tables for the number and keys that the send holds |
| `CacheTrace.OnSend` | src/cache_trace.rs:934-1015 | a body that is no JSON object touches nothing; any other is compared with the stored previous request, replaces it, steps both tables, and yields a guard with the number and the holds of this send |
| `CacheTrace.InflightGuard.SetStatus` | src/cache_trace.rs:1042-1050 | a failure tells both tables of failure at once, a non-streaming success of success, a streaming success nothing yet; a guard that settled tells nothing more |
| `CacheTrace.VerdictExactly` | src/cache_trace.rs:1042-1050 | a status outside of 200 to 299 is a failure at once, one within is a success at once only where nothing streams |
| `CacheTrace.InflightGuard.Finish` | src/cache_trace.rs:1063-1070 | tells both tables once; a later call changes neither |
| `CacheTrace.InflightGuard.Complete` | src/cache_trace.rs:1073-1079 | writes the line once; a later call writes nothing |
| `CacheTrace.InflightGuard.Drop` | src/cache_trace.rs:1150-1159 | a guard that has not settled tells both tables of failure, one that has not printed prints without usage |
| `CacheTrace.InflightGuard.Live` | src/cache_trace.rs:1042-1079 | for every order of status, start, abandonment and usage, then the drop: both tables take exactly one settle, with the first verdict, and exactly one line is written, the first asked for |
| `CacheTrace.ReportedOffsetIsReal` | src/cache_trace.rs:664-730 | a byte offset reported against a stored slot is a real first difference of the first block that differs, given that every stored slot keeps the hashes of its blocks, which the tracker's invariant says |
| `CacheTraffic.Say` | src/cache_trace.rs:1034-1079 | whatever one guard is told, every other guard of the tracker stays valid and both tables take just what was said |
| `CacheTraffic.Receive` | src/cache_trace.rs:934-1015 | a further send leaves every guard of the tracker valid |
| `CacheTraffic.Carry` | src/cache_trace.rs:783-1079 | any traffic over one tracker, whatever is sent and said in whatever order: every guard stays valid and settles and prints at most once as first told, and both tables are those of the same sends and verdicts one after the other |
| `Breakpoints.MarksComplete` | src/cache_trace.rs:203-239 | every block with a breakpoint is among the marks of its section |
| `Breakpoints.PushBreakpoints` | src/cache_trace.rs:266-275 | the two push loops yield, for each breakpoint of tools then system, the bytes through its block and its lifetime |
| `Breakpoints.BpBytesGrow` | src/cache_trace.rs:266-288 | bytes parallel lifetimes, never decrease, and end at the prefix size |
| `Breakpoints.PrefixBytesMatchExtent` | src/cache_trace.rs:278-288 | the prefix size is the byte sum of exactly the blocks the prefix covers, and at most that of tools and system |
| `Breakpoints.PrefixEndsAtLast` | src/cache_trace.rs:276-284 | the prefix ends at the last breakpoint of tools and system, with that one's lifetime, and is all of both without one |
| `Breakpoints.SpanCoversPrefix` | src/cache_trace.rs:293-301 | the span exists exactly when there is a breakpoint anywhere, and then covers at least the prefix |
| `Breakpoints.SpanEndsAtLast` | src/cache_trace.rs:293-301 | the span ends at the last breakpoint anywhere: the automatic one, else the last of the messages, else that of the prefix |
| `Breakpoints.TtlMaxIsLongest` | src/cache_trace.rs:302-308 | the longest lifetime exists exactly when there is a breakpoint, bounds every one, and is that of one of them |
| `Analysis.BreakpointExactly` | src/cache_trace.rs:119-131 | a block carries a breakpoint exactly if its `cache_control` is ephemeral, of an hour if that says so and of five minutes otherwise |
| `Analysis.MessageBreakpointExactly` | src/cache_trace.rs:231-239 | a message's breakpoint is the longest of its blocks |
| `Analysis.LongestFollowsTheBody` | src/cache_trace.rs:302-308 | the longest lifetime of a request is an hour exactly when some breakpoint anywhere in the body is, and five minutes exactly when there are only such |
| `Analysis.PrefixFollowsTheBody` | src/cache_trace.rs:276-284 | the prefix ends at the last breakpoint of the body's system, else of its tools, with the lifetime that stands there, and is all of both without one |
| `Analysis.AnalysisReads` | src/cache_trace.rs:190-242 | the model, the canonical form of each tool and the hash of each message are those of the body |
| `Analysis.AnalysisReadsSystem` | src/cache_trace.rs:209-215 | the canonical forms of the system are those of its blocks, a string being one |
| `Analysis.FingerprintsAreContent` | src/cache_trace.rs:250-291 | for any two bodies the fingerprints of tools, system and messages are the same exactly when their content is, unless serialised forms collide |
| `Analysis.PrefixFollowsItsBlocks` | src/cache_trace.rs:289-291 | the prefix fingerprints of two bodies are the same exactly when the blocks that they cover are, unless serialised forms collide |
| `Analysis.PrefixBytesAreHashed` | src/cache_trace.rs:278-291 | the prefix size counts exactly the blocks whose hashes the prefix fingerprint folds |
| `Analysis.SectionBytes` | src/cache_trace.rs:264-288 | the section sizes count every block and bound the prefix |
| `Analysis.LayoutIsNotContent` | src/cache_trace.rs:64-89 | bodies that agree once `cache_control` is stripped share the fingerprints and sizes of tools and system and the message hashes, and the prefix too while it covers the same blocks |
| `Analysis.EditsAreNotContent` | src/cache_trace.rs:64-89 | setting, changing or removing any number of `cache_control` members at the places of breakpoints (tools, system blocks, blocks of messages, the body) changes no fingerprint or size of tools or system, no message hash and not the fingerprint of the settings |
| `Analysis.ContentEditedExactly` | src/cache_trace.rs:64-89 | an edit of one `cache_control` member anywhere in a body changes the content that is fingerprinted if and only if it leads into tools, system or messages, not to a breakpoint's place, and to an object where it alters something |
| `Analysis.EditsAreNotContentExactly` | src/cache_trace.rs:64-89 | unless serialised forms collide, the fingerprints of tools, system and messages change under such an edit in exactly those cases |
| `Analysis.MarkElsewhereIsContent` | src/cache_trace.rs:64-89 | a breakpoint set on a message itself, or on a block inside the content of a block, changes the content |
| `Analysis.ContextFollowsSettings` | src/cache_trace.rs:250-262 | two bodies share the context fingerprint exactly when thinking, effort, speed and the wish for citations are the same, unless their serialised settings collide |
| `Divergence.DiffAgreesWithFull` | src/cache_trace.rs:598-648 | the capped comparison gives the true first difference below the cap, a count exactly for a proper prefix shorter than the cap, `Same` exactly on equal sequences, and `Tail` in all other cases |
| `Divergence.NamesFirstDifferingSection` | src/cache_trace.rs:704-730 | the section named is the first, in the order context, tools, system, messages, that differs at all, and a message index is where the sequences first part |
| `Divergence.DiagnosisTells` | src/cache_trace.rs:598-730 | what is reported of the section is true of it: the block where the hashes first differ with the byte where the texts first differ if the earlier ones are kept, the shared count where one side only goes on, or that the difference lies beyond the cap |
| `Divergence.OffsetIsFirstDifference` | src/cache_trace.rs:664-691 | within a section whose hashes are those of its blocks, a byte offset is a real first difference of the first differing block |
| `UsageTap.UsageFromSse` | src/lib.rs:1497-1516 | the line scan up to the last newline finds what the first complete data line says, carriage returns or not |
| `UsageTap.FirstDataExactly` | src/lib.rs:1497-1516 | what is found is the trimmed payload of the first complete line that begins with `data:`, and nothing is found exactly when there is none |
| `UsageTap.UsageExactly` | src/lib.rs:1497-1516 | the usage of a stream is what its first data line says, if it says any, and that of a JSON body what the body says |
| `UsageTap.FirstDataStable` | src/lib.rs:1497-1516 | once a data line is complete, more text behind it changes nothing |
| `UsageTap.PolledTracks` | src/lib.rs:1559-1631 | after any items (chunks cut in any way, pauses, a failure, the end) what was reported is the usage that some first items within the cap say, however long the body goes on, and nothing where none do; the response has begun exactly when a chunk came while the body was open |
| `UsageTap.StreamReport` | src/lib.rs:1497-1593 | of a stream of any length, the usage of the whole is reported if some first items within the cap complete a data line, and nothing otherwise |
| `UsageTap.WholeReport` | src/lib.rs:1564-1608 | a body, stream or JSON, that ends within the cap is reported as a whole |
| `UsageTap.Tap.Observe` | src/lib.rs:1564-1593 | the first chunk tells both tables of success, later ones tell nothing; the chunk is buffered and scanned as the polled state says |
| `UsageTap.Tap.Eof` | src/lib.rs:1595-1608 | at the end the usage of a JSON body is reported and the tables are told nothing |
| `UsageTap.Tap.Poll` | src/lib.rs:1616-1631 | every item is handed on unchanged and takes the tap one state on; a chunk that is observed tells the tables of success, and nothing else tells them anything |
| `UsageTap.Tap.PassBody` | src/lib.rs:1559-1631 | for every run of items, ended, failed or dropped midway, every item comes out unchanged, one line is written with the usage that some first items within the cap say and none otherwise, and the tables are told once, of success exactly when a chunk came while the body was open |
| `RetrieveMarker.HasRetrieveMarker` | src/compress.rs:690-706 | the skipping scan finds a marker exactly when there is one |
| `RetrieveMarker.MarkerExactly` | src/compress.rs:690-704 | a text has a marker exactly when `hash=`, a quote or none, and sixteen hexadecimal digits stand in it |
| `RetrieveMarker.MarkerSurvives` | src/compress.rs:690-706 | a marker survives any text before and behind it |
| `RetrieveMarker.JoinKeepsMarker` | src/compress.rs:158-179 | a marker in one part of a result is one of the joined text |
| `Stale.ComputeStaleReasons` | src/compress.rs:323-361 | the two map passes and the nested loop decide exactly by the declarative rule |
| `Stale.TextSurvives` | src/compress.rs:323-361 | the exact text of every result that is not superseded is kept at its own index or later |
| `Stale.LatestViewSurvives` | src/compress.rs:311-322 | the last read of a view whose path is not touched later, and any result that is not a read, is never called superseded, and its text survives |
| `Stale.LeftAloneExactly` | src/compress.rs:314-361 | the latest read of a view, or a result that is no read, is left alone if and only if it is no read of a path touched later and every later result with its text is superseded |
| `Stale.LatestIsNotLeftAlone` | src/compress.rs:314-322 | transcripts on which the latest view is superseded by an edit, and on which it and a result that is no read are called duplicates |
| `Stale.SupersededForGood` | src/compress.rs:318-345 | appended turns never change a supersession or its path |
| `Stale.UncollapsedExactly` | src/compress.rs:318-361 | a result returns to uncollapsed exactly when it was a duplicate, is not superseded itself, every twin it had is superseded by the appended turns and no appended result shows its text |
| `Stale.CollapsesOnlyGrow` | src/compress.rs:318-361 | if the appended turns supersede no earlier read, every collapse stays |
| `Stale.CollapseCanFlipBack` | src/compress.rs:318-322 | a transcript on which a collapse is undone by one more turn |
| `Stale.SurvivorsSurvive` | src/compress.rs:323-361 | among results that were left alone a second analysis finds nothing to do |
| `StaleTranscript.SameViewExactly` | src/compress.rs:306-312 | where inputs serialise without collision and names hold no separator, two read calls have the same view exactly when they have the same name and the same input |
| `StaleTranscript.StubbedExactly` | src/compress.rs:323-455 | told by the calls of the transcript: a result gets the superseded stub exactly if it is that of a read of a file and a later shown result is that of a call on the file that is no read, or of a read of the same name and input; else the duplicate stub exactly if its text is shown again; else it is left alone |
| `StaleTranscript.OthersStay` | src/compress.rs:395-435 | a block that is no result, or answers no call, or shows no text or a marker, is left alone by the stale pass |
| `Idempotence.StubIsMarked` | src/compress.rs:231-266 | a stub whose original was archived carries a marker, with or without a skeleton |
| `Idempotence.CompressedIsMarked` | src/compress.rs:998-1012 | compressed text carries a marker |
| `RewrittenText.CompressedExactly` | src/compress.rs:974-1027 | a text is replaced exactly when it is long enough, not archived and the engine fires, by all of the engine's text, with the note behind it exactly if there is a hash |
| `RewrittenText.VerbatimExactly` | src/compress.rs:716-730 | a call is verbatim exactly if its tool shows a file or retrieves, or its command runs `mur retrieve`, whitespace apart |
| `RewrittenText.PlainTextExactly` | src/compress.rs:158-179 | a result has plain text only if all its parts are text, and then it is their texts, each on a line of its own |
| `RewrittenText.Utf8LenCountsBytes` | src/compress.rs:984-987 | what is compared with the minimum is the number of bytes of the text in UTF-8 |
| `RewrittenText.RewrittenBlock` | src/compress.rs:800-837 | behind the stale pass every text of a result that is not spared is stood for by its own compression, and nothing else changes |
| `RewrittenText.ForwardedOnlyIfSame` | src/compress.rs:834-837 | the original is forwarded only where the rewrite is the very same |
| `RewrittenText.ReadIsRewrittenExactly` | src/compress.rs:790-837 | what the model reads for the result of a read is what it was, unless it is out of date or shown again, and then the stub that says so |
| `RewrittenText.StubSays` | src/compress.rs:231-266 | the stub of an outdated read names its file, any stub of an archived text carries the note on the original, and the skeleton stands at the end |
| `Idempotence.ContentSettles` | src/compress.rs:815-833 | compressing content that was compressed replaces nothing, in string and in array form |
| `Idempotence.OnlyContentChanges` | src/compress.rs:783-839 | no block is added, dropped or moved, and of a result only the content changes |
| `Idempotence.NothingStaleAgain` | src/compress.rs:365-462 | a second stale pass over a transcript rewritten with its stale results archived decides nothing |
| `Idempotence.RewriteIsIdempotent` | src/compress.rs:783-839 | rewriting a transcript that was rewritten, with its stale results archived, forwards it as it is |
| `Idempotence.UnarchivedIsRewrittenAgain` | src/compress.rs:252-259 | where archiving fails the stub itself is collapsed by the next rewrite |
| `Idempotence.IdempotentExactlyWhenArchived` | src/compress.rs:231-266 | the rewrite is idempotent on every transcript if and only if every text it may collapse can be archived |
| `Rewriter.Memo.Get` | src/compress.rs:50-60 | a text is found exactly when it is remembered, what is found is what the engine would answer and becomes the most recently used, and nothing is forgotten by looking |
| `Rewriter.Memo.Put` | src/compress.rs:61-66 | remembering a judgement, and evicting for it, keeps every entry true and the memo within its capacity |
| `Rewriter.Memo.GetStub` | src/compress.rs:68-84 | a stub is found exactly when it is remembered, is the one that would be built and becomes the most recently used |
| `Rewriter.Memo.PutStub` | src/compress.rs:85-89 | remembering a stub keeps every entry true and the memo within its capacity |
| `Rewriter.CompressText` | src/compress.rs:974-1027 | whatever the memo holds, the replacement and the counts are those of no memo; a hit is counted exactly when the text was remembered, and it is remembered afterwards |
| `Rewriter.CompressParts` | src/compress.rs:820-830 | each text part is replaced or left as it would be alone, and a change is reported exactly when there is one |
| `Rewriter.CompressBlocks` | src/compress.rs:799-834 | the in-place pass over all blocks is the compression function, with exact change flag and counts |
| `Rewriter.StaleStub` | src/compress.rs:231-266 | from the memo or built anew, the stub is the same and is counted once |
| `Rewriter.FindCandidates` | src/compress.rs:375-434 | the two scans collect exactly the results the analysis may look at, each under the call it answers |
| `Rewriter.PlaceStubs` | src/compress.rs:436-461 | stubs go exactly to the stale candidates |
| `Rewriter.PlacedTogether` | src/compress.rs:443-459 | placing stubs one after the other is placing them all at once |
| `Rewriter.Collapse` | src/compress.rs:365-462 | the in-place stale pass is the collapse function, and reports a change exactly when something is stale |
| `Rewriter.FindExempt` | src/compress.rs:733-746 | an id is exempt if and only if some read or retrieval call of the transcript bears it |
| `Rewriter.PassBalances` | src/compress.rs:981-1024 | always `blocks == small + marker + hit + miss` |
| `Totals.PassCountsExactly` | src/compress.rs:981-1027 | every text that is looked into is counted once as small, archived or judged; of the judged those replaced are counted, and the tokens are those the engine counts in them |
| `Totals.SparedAreCounted` | src/compress.rs:806-814 | the results that are spared are counted, one for one |
| `Totals.StubsAreCounted` | src/compress.rs:440-455 | the stubs that are counted are those that are placed |
| `Rewriter.RewriteRequest` | src/compress.rs:783-839 | the memoised two-pass rewrite gives the body and the totals of a rewrite without a memo |
| `Rewriter.Gateway.SharedEngine` | src/compress.rs:1059-1090 | engine and memo are always those of one configuration, rebuilt together when it changes and kept while it does not |
| `Rewriter.Gateway.Handle` | src/compress.rs:1059-1147 | one request gives the body and the totals of a gateway without a memo, whatever it counts from |
| `Rewriter.Serve` | src/compress.rs:1059-1147 | any run of requests gives the bodies and the totals of a gateway without a memo, with the configuration changing in any way between them |
| `SharedMemo.StepKeeps` | src/compress.rs:54-84 | every lookup, store and rebuild, by any of the concurrent requests, keeps every memo true to its own engine and every request at the engine of its own configuration |
| `SharedMemo.AnswersAreItsOwnEngines` | src/compress.rs:993-1090 | in every reachable state, whatever the interleaving and however the configuration changed meanwhile, every verdict and stub that a request was given is what the engine of its own configuration gives without a memo |
| `SharedMemo.MemosAreBoundedAndUnmixed` | src/compress.rs:1059-1090 | no memo outgrows its bound, and requests that share one came with one configuration |
| `SseSplitter.ReadFields` | src/translate.rs:205-213 | the loop over a frame's lines takes the trimmed payload of the last event line, and the trimmed payloads of all data lines put together |
| `SseSplitter.LastEventLineCounts` | src/translate.rs:207-209 | with an event line and none behind it the name is its payload, without any it is empty |
| `SseSplitter.LinesAreTheFrame` | src/translate.rs:207 | no line holds a newline, and the lines, each closed by one, are the frame |
| `SseSplitter.DataLinesInTheirTurn` | src/translate.rs:207-213 | every line that begins with `data:` gives its trimmed payload, in its turn, and no other line gives any |
| `SseSplitter.ParsedExactly` | src/translate.rs:215-227 | a frame gives nothing if it has no data, is the end sentinel or does not parse, else its value under the name of the event or the type of the value |
| `Text.TrimExactly` | src/translate.rs:209-212 | trimming takes just the whitespace at both ends |
| `SseSplitter.SplitSseFrames` | src/translate.rs:197-229 | the drain loop yields the frames of the cut and leaves the unfinished rest |
| `SseSplitter.CutLosesNothing` | src/translate.rs:203-204 | the pieces and the rest are the buffer, every piece ends at a blank line and the rest holds none |
| `SseSplitter.CutIsExact` | src/translate.rs:203-204 | a cut with these properties is the only one |
| `SseSplitter.SplitAppend` | src/translate.rs:197-229 | the frames of two texts together are those of the first, then those of its rest with the second, with the same rest, carriage returns included |
| `SseSplitter.ChunkingDoesNotMatter` | src/translate.rs:197-229 | fed chunk by chunk in any way, a text gives the frames and the rest of the whole |
| `WireFormat.WireIsRead` | src/translate.rs:197-229 | frames written as an event stream are read back as they were, with nothing left over |
| `SseTranslator.Translator.Push` | src/translate.rs:396-473 | each event updates the cursor and sends chunks as the transition function says |
| `SseTranslator.PushByName` | src/translate.rs:396-473 | by the name of the event: what each of the seven names sends for its data, and that any other name sends nothing beyond the role |
| `SseTranslator.Translator.FinishStream` | src/translate.rs:475-487 | the terminal chunk is sent at most once |
| `SseTranslator.StreamFits` | src/translate.rs:396-487 | for every event sequence the client is told of an end, and if and only if there was an event: the role chunk is first and unique, calls get indices 0, 1, 2 and so on, arguments go to announced indices, and at most one finish chunk is sent, none after an error, saying `tool_calls` exactly when a call was announced before it |
| `SseTranslator.CursorIndices` | src/translate.rs:410-430 | the index map is a function of the announcements alone |
| `SseTranslator.ArgumentsFollowAnnouncement` | src/translate.rs:433-453 | an argument delta goes to the index its item was last announced under and to no other; an orphan is dropped |
| `Replies.ResponseAggregator.Push` | src/translate.rs:244-259 | the last response object wins and items are kept in the order they are done |
| `Replies.LastResponseWins` | src/translate.rs:244-251 | the last event that carries a response gives it, and without one there is none |
| `Replies.ItemsInTheirTurn` | src/translate.rs:252-259 | every item that is handed over is gathered in its turn, and nothing else is |
| `Replies.CallReads` | src/translate.rs:307-314 | a call is read with its id, name and arguments, `null` or the empty text where it has none |
| `Replies.ResponsesToChat` | src/translate.rs:285-357 | the loops collect the text of all messages, all calls in order, and the finish reason with truncation first |
| `Replies.RebuiltReply` | src/translate.rs:262-357 | reading a rebuilt reply gives the text and the calls of the gathered items, the finish reason, the model asked for, and the id and usage of the last response, `null` where it has none |
| `Agreement.TiedAfter` | src/translate.rs:244-473 | after every prefix of a well-formed stream the client holds what was announced and the aggregator what is done |
| `Agreement.StreamedAgreesWithAggregated` | src/translate.rs:239-487 | for every complete well-formed reply both forms give the same text and the same calls, and the finish reasons agree exactly when the reply was not truncated |
| `TranslatedReply.ServeStream` | src/lib.rs:1290-1342 | however the upstream's text is cut into chunks, the client is sent what the events of the whole text say, closed by the end of the stream |
| `TranslatedReply.ServeWhole` | src/lib.rs:1355-1376 | the client is given the reply that the events of the whole text make |
| `TranslatedReply.ClientsAgree` | src/lib.rs:1290-1376 | for any text and any two ways to cut it, a streaming client is sent the same, and where the text is a complete well-formed reply it holds the text and the calls a non-streaming client is given, and the same finish reason unless the reply was truncated |
| `UpstreamReply.EveryReplyIsTold` | src/translate.rs:197-487 | for every list of texts and calls there is an upstream text that is a complete well-formed reply, from which a streaming client puts together just these, and a non-streaming one is given just these |
| `ChatRequest.ReadContent` | src/translate.rs:24-52 | text parts are joined, images mapped, other parts skipped |
| `ChatRequest.TranslateMessage` | src/translate.rs:107-155 | each role becomes its items or its instruction |
| `ChatRequest.TranslateMessages` | src/translate.rs:97-156 | the loop translates message by message in order |
| `ChatReading.UserTurnIsShown` | src/translate.rs:24-52 | a turn of a user becomes one message that shows the texts and images of the turn in order, or one empty text where it shows nothing |
| `ChatReading.TextIsJoined` | src/translate.rs:24-52 | the text of a turn is that of its text parts, each on a line of its own |
| `ChatReading.RolesExactly` | src/translate.rs:103-155 | by the role: instructions leave the input, a tool's result keeps its call and text, an assistant's turn keeps its text and its calls, whatever else is a user's |
| `ChatReading.RequestedExactly` | src/translate.rs:132-141 | a requested call has the id beside its function and the name and arguments within, no arguments being the empty text |
| `ChatRequest.RequestCarriesTheHistory` | src/translate.rs:54-192 | a request fails exactly when it is no object or sets a parameter that cannot be honoured, and names the first such; otherwise it has just its members, each carried as it is to be: model, instructions, history, renamed limit, sampling parameters, flattened tools, streaming and storing nothing |
| `ChatReading.UnsupportedExactly` | src/translate.rs:61-75 | the parameter that is named is the first of the five that is set to something that cannot be honoured, and none is named exactly when none is |
| `ChatReading.RequestReads` | src/translate.rs:92-171 | member by member: what keeps its name, the renamed limit, what is set for every request, the joined instructions and the input |
| `ChatReading.FlatToolReads` | src/translate.rs:173-188 | a tool is carried with the name, the description and the parameters of its definition, nested or flat, and carrying it again changes nothing |
| `ChatReading.ToolsAreCarried` | src/translate.rs:172-189 | the tools are carried one for one |
| `ChatRequest.ReplyRoundTrip` | src/translate.rs:119-142 | the message of a reply, sent back, becomes one message item with its text, none if empty, then its calls in order with id, name and arguments |
| `ChatRequest.NormalReads` | src/translate.rs:292-324 | reading those items gives the text and the calls back |
| `ChatRequest.NormalisedIsFixpoint` | src/translate.rs:107-342 | reply to message to input normalises every reply, and doing it again changes nothing |
| `ChatRequest.InputAppend` | src/translate.rs:97-156 | input and instructions are homomorphisms over concatenation of histories |
| `ChatRequest.ToolOutputKeepsItsCall` | src/translate.rs:114-142 | every tool output that had an earlier matching call has one before it in the input |
| `Freshness.DeadlinesOf` | src/keychain.rs:169-194 | both deadlines lie between the floor and the cap, the grace is at most the margin, none without a known expiry, and the value is given up before its expiry exactly when it had the floor to live |
| `Freshness.RemainingExactly` | src/keychain.rs:178 | what is left is the time to the expiry, nothing once it has come, and no more than the clock can tell |
| `Freshness.DeadlinesExactly` | src/keychain.rs:169-194 | the credential is usable for the longest time between the floor and the cap that it lives, and refreshed after the longest that leaves the margin; everything else is kept for the floor |
| `Freshness.RejectionGate.Claim` | src/keychain.rs:469-479 | a claim is granted exactly when every earlier grant is a cooldown ago, so any two grants are a cooldown apart |
| `CredentialCache.StepKeeps` | src/keychain.rs:384-434 | every step of every caller, every tick and every invalidation keeps the protocol's invariant |
| `CredentialCache.ReachableKeeps` | src/keychain.rs:384-434 | the invariant holds in every reachable state |
| `CredentialCache.FetchesNeverOverlap` | src/keychain.rs:395-433 | no two keychain reads run at once, in any run |
| `CredentialCache.AnswersAreFetched` | src/keychain.rs:384-434 | every answer is the result of a read that had ended |
| `CredentialCache.UsableNeverWaits` | src/keychain.rs:397-409 | a caller holding a usable value never waits for the lock |
| `CredentialCache.StaleOnlyWhileRefreshed` | src/keychain.rs:390-404 | a value past its refresh deadline is served only to a caller refused the lock while another holds it |
| `CredentialCache.ReadOnlyWhenStaleOrOvertaken` | src/keychain.rs:390-432 | a read begins only on a stale snapshot; beside a fresh cache only for a caller that did not wait and was overtaken by a store |
| `CredentialCache.ReadsKeepTheirDistance` | src/keychain.rs:390-433 | a caller that holds a stored credential begins no read before the margin ahead of its expiry, or eight hours, if it had the floor and the margin to live, and none before the floor in any case |
| `CredentialCache.TurnsAreBounded` | src/keychain.rs:384-434 | callers take a bounded number of steps in any run |
| `CredentialCache.NeverStuck` | src/keychain.rs:395-430 | while a caller has no answer, some caller can move: no deadlock |
| `CredentialCache.ServedBeforeExpiry` | src/keychain.rs:390-424 | a credential that had the floor to live when it was fetched is never served out of the cache at its expiry or later, and nothing is served once the cap old |
| `CredentialCache.ServedLateExactly` | src/keychain.rs:181-193 | the condition is exact: some run serves a credential at its expiry or later if and only if it was fetched with less than the floor to live |
| `CredentialCache.OvertakenFetchesAgain` | src/keychain.rs:395-396 | of two callers that find the cache empty both can read, the second beside the value the first has just stored |
| `CredentialReads.InvalidationForcesARead` | src/keychain.rs:384-486 | after an invalidation with no read in flight, in every continuation, the cache holds and a caller that comes later is answered from only reads that began later |
| `CredentialReads.InvalidationOverwrittenExactly` | src/keychain.rs:431-486 | some continuation of an invalidation stores a read that had begun before it if and only if a read was in flight |
| `CredentialReads.WinnerAlwaysReads` | src/keychain.rs:395-433 | a caller with a stale snapshot that gets the lock at once is answered, in every continuation, from a read of its own that began after it got the lock |
| `CredentialReads.RedundantExactly` | src/keychain.rs:395-433 | its read can be made beside a fresh value if and only if the cache is fresh as it gets the lock |
| `CredentialReads.FreshIsServed` | src/keychain.rs:390-394 | a caller that comes while the cache holds a fresh value, and goes on to, is answered with it in every continuation, without a read and without the lock |
| `CredentialReads.FreshAnswersInTwo` | src/keychain.rs:390-394 | and it has that answer after two steps |
| `CredentialReads.RefusedIsServed` | src/keychain.rs:397-404 | a caller that is refused the lock is answered at once with the credential it saw, as long as that lives and for at most eight hours |
| `CodexAuth.RotationReadsBack` | src/codex.rs:179-195 | reading back a rotated document gives the granted tokens, the old refresh token if it was not rotated, and the same account; a document credentials were read from is never refused |
| `CodexAuth.RotationKeepsTheRest` | src/codex.rs:364-375 | every other field, at either level, keeps its value |
| `CodexAuth.ParsedExactly` | src/codex.rs:179-195 | a document holds credentials exactly when it is of a ChatGPT login with an access token among its tokens; a refresh token or an account may be missing |
| `CodexAuth.AuthFile.PersistRotation` | src/codex.rs:364-420 | the file becomes the rotated document as a whole, or stays as it was and failure is reported |
| `CodexRefresh.ReachableKeeps` | src/codex.rs:238-274 | the protocol's invariant holds in every reachable state |
| `CodexRefresh.RedemptionsAreSpaced` | src/codex.rs:252-257 | redemptions never overlap, and after a grant none begins within the memo's lifetime unless the memo was cleared in between |
| `CodexRefresh.InterleavedIsSequential` | src/codex.rs:252-267 | whatever the interleaving, the file is the one the redemptions leave one after the other, and each presents the refresh token left by those before it |
| `CodexRefresh.AnswersAreGranted` | src/codex.rs:251-272 | every caller is answered with a granted access token, or with nothing because the file had no refresh token or the provider refused the redemption that this caller made |
| `CodexRefresh.CurrentMemoAnswers` | src/codex.rs:251-256 | a caller whose turn with the lock finds a current memo is answered, in every continuation, with the access token of the latest grant since the memo was last cleared |
| `CodexRefresh.GrantAnswersItsCaller` | src/codex.rs:259-268 | a caller whose redemption was granted is answered, in every continuation, with that very grant, stored or not |
| `CodexTokens.FileStaysIntact` | src/codex.rs:364-375 | after any run of refreshes the file differs from the one at the start at most in the two tokens |
| `CodexTokens.PresentedNext` | src/codex.rs:259-267 | each redemption presents the token of the last stored rotation |
| `CodexTokens.StoredPairIsNewest` | src/codex.rs:259-267 | a stored grant leaves the newest pair in the file, whatever is refused later |
| `CodexTokens.RedeemedOnceExactlyWhenStored` | src/codex.rs:238-274 | with a rotating provider no refresh token is redeemed successfully twice if and only if every grant that was followed by another had been stored |
| `CodexTokens.LostRotationIsSpentAgain` | src/codex.rs:238-274 | wherever two callers are idle and a refresh token can be read, a run leads to a token redeemed twice: one caller's rotation is lost, the memo expires, the other presents the token again |

## Left out

- CacheTrace.OnSend: parsing the body is a parameter; the trace line's text, the breakpoint positions string and the message count are not modelled.
- RecencyRun.PendingCountsGuards: pending counts and sequence numbers are unbounded; the source's 32-bit and 64-bit counters are not wrapped.
- Divergence.DiffAgreesWithFull: the two folded tails that are compared must not collide; nothing is assumed of other hashes.
- UsageTap.Tap.PassBody: the body is a text of characters and its caps count characters; decoding of bytes is not modelled.
- Rewrite.Utf8Len: characters beyond the Unicode range do not occur; byte lengths are those of the UTF-8 encoding.
- Idempotence.RewriteIsIdempotent: the transcript is the flat list of content blocks in document order, with the role where it matters; message boundaries and other members of the body pass through unchanged and are not modelled.
- Idempotence.IdempotentExactlyWhenArchived: assumes that a file name without an extension has no skeleton, as no language is recognised from it.
- Rewriter.Memo.Get: the object serves one request after the other; interleavings of its lock operations are modelled on values in `SharedMemo`, without the counters. Keys are assumed not to collide.
- Rewriter.StaleStub: archiving is a pure function here; that a remembered stub is not archived again is not observable.
- Rewriter.RewriteRequest: the OpenAI and Gemini variants of the two passes are not modelled; they share the analysis, the stubs and the compressor proved here.
- SseSplitter.ChunkingDoesNotMatter: stated over characters; the source decodes each chunk of bytes on its own, which does not commute with chunking.
- WireFormat.WireIsRead: a frame as it is written has one event line and one data line; that what was written reads back, on one line, is asked of the JSON writer and the parser.
- StaleTranscript.StubbedExactly: the separator of a view's key does not occur in the name of a tool, and inputs serialise without collision and never to nothing.
- SseTranslator.StreamFits: the constant envelope of a chunk is not modelled.
- TranslatedReply.ServeStream: what is sent is the sequence of chunks; their JSON text, the closing `[DONE]` line and an upstream that answers with an error status are not modelled.
- Agreement.StreamedAgreesWithAggregated: truncated replies agree in text and calls but not in the finish reason, as only the aggregated form can report one.
- ChatRequest.RequestCarriesTheHistory: numbers are integers; the warning for a dropped cosmetic parameter is logging.
- Freshness.DeadlinesOf: clocks and durations are whole milliseconds; the source's monotonic clock is finer.
- CredentialCache.ServedBeforeExpiry: wall clock and monotonic clock run alike, and the wall clock stays within 64 bits.
- CredentialCache.FetchesNeverOverlap: a lock poisoned by a panic is not modelled.
- CodexTokens.FileStaysIntact: nobody else writes the file, and it holds JSON; the temporary file, its permissions and its name are not modelled.
- CodexAuth.AuthFile.PersistRotation: a document whose tokens are neither an object nor null makes the source panic; no run reaches this, as credentials were read from the document before.
- HTTP forwarding, header handling, routing predicates, provider permits, credential resolution order, the delegated refresh, logging, the installer and the command line.
- Platform code that reads the keychain, the parsing of its blob, and the compression library itself.
