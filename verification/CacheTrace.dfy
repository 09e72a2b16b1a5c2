/** The cache tracker and the guard that owns one request's trace line. */
module CacheTrace {
  import opened Wrappers
  import opened Json
  import opened Lru
  import opened RecencyTable
  import opened RecencyRun
  import opened RecencyObject
  import opened Breakpoints
  import opened Analysis
  import opened Divergence

  const PREV_SLOTS := 64
  const RECENCY_CAP := 1024
  const PREV_BYTES_BUDGET := 512 * 1024

  /** Model, context fingerprint, and the fingerprint of the prefix or of the tools. */
  type Key = (string, nat, nat)

  datatype Diverging = First | Against(diverged: Diverged)

  datatype SendTrace = SendTrace(diverged: Diverging, prefix: Reading, tools: Reading)

  function SlotOf(a: Analysis): Slot {
    Slot(a.ctxFp, a.toolsHashes, a.systemHashes, a.msgsHashes,
         if a.toolsBytes + a.systemBytes <= PREV_BYTES_BUDGET then Some((a.toolsCanon, a.systemCanon)) else None)
  }

  function PrefixKey(a: Analysis): Key { (a.model, a.ctxFp, a.prefixFp) }

  function ToolsKey(a: Analysis): Key { (a.model, a.ctxFp, a.toolsFp) }

  /** Only a send with a breakpoint in tools or system writes the prefix entry. */
  function PrefixEvent(a: Analysis, now: nat): Event<Key> {
    match a.layout.ttl
    case Some(ttl) => SendEvent(PrefixKey(a), now, Duration(ttl), true)
    case None => SendEvent(PrefixKey(a), now, 0, false)
  }

  /** Every send with tools writes the tools entry, for the longest lifetime it names. */
  function ToolsEvent(a: Analysis, now: nat): Event<Key> {
    SendEvent(ToolsKey(a), now, Duration(a.layout.ttlMax.GetOr(FiveMin)), |a.toolsHashes| > 0)
  }

  /** Two requests share an entry of a table exactly when they are for the same model, under
      the same settings, with the same prefix or the same tools. */
  lemma KeysTellApart(a: Analysis, b: Analysis)
    ensures PrefixKey(a) == PrefixKey(b) <==> a.model == b.model && a.ctxFp == b.ctxFp && a.prefixFp == b.prefixFp
    ensures ToolsKey(a) == ToolsKey(b) <==> a.model == b.model && a.ctxFp == b.ctxFp && a.toolsFp == b.toolsFp
  {
  }

  /** What a send asks of the tables. It wants the prefix entry exactly when its prefix ends at a
      breakpoint, for that one's lifetime; it wants the tools entry exactly when it has tools, for
      the longest lifetime anywhere, five minutes if there is none. */
  lemma SendAsks(a: Analysis, now: nat)
    ensures var (p, t) := (PrefixEvent(a, now), ToolsEvent(a, now));
            && p.SendEvent? && p.key == PrefixKey(a) && p.now == now && (p.wants <==> a.layout.ttl.Some?)
            && t.SendEvent? && t.key == ToolsKey(a) && t.now == now && (t.wants <==> a.toolsHashes != [])
            && (a.layout.ttl == Some(FiveMin) ==> p.ttl == 5 * 60 * 1000)
            && (a.layout.ttl == Some(OneHour) ==> p.ttl == 60 * 60 * 1000)
            && (a.layout.ttlMax == Some(OneHour) ==> t.ttl == 60 * 60 * 1000)
            && (a.layout.ttlMax != Some(OneHour) ==> t.ttl == 5 * 60 * 1000)
  {
  }

  type Hold = Option<(Key, nat)>

  /** The hashes of a slot are those of the canonical blocks kept beside them. */
  ghost predicate SlotFits(c: Codec, s: Slot) {
    s.canon.Some? ==> s.tools == Hashes(c, s.canon.value.0) && s.system == Hashes(c, s.canon.value.1)
  }

  ghost predicate AnalysisFits(c: Codec, a: Analysis) {
    a.toolsHashes == Hashes(c, a.toolsCanon) && a.systemHashes == Hashes(c, a.systemCanon)
  }

  /** Two block lists whose hashes first differ at block `i`, and whose texts of that block
      first differ at `o`, where one of them may end. */
  ghost predicate PartsAt(prev: seq<string>, cur: seq<string>, p: seq<nat>, c: seq<nat>, i: nat, o: nat) {
    DifferFirstAt(p, c, i) && i < |prev| && i < |cur| && prev[i] != cur[i] && PartAt(prev[i], cur[i], o)
  }

  lemma SectionOffset(c: Codec, cap: nat, p: seq<nat>, q: seq<nat>, prev: Option<seq<string>>, cur: seq<string>,
      i: nat, o: nat)
    requires FoldKeeps(c.fold, p, q, cap) && q == Hashes(c, cur) && (prev.Some? ==> p == Hashes(c, prev.value))
    requires Section(cap, DiffOf(p, q, cap, c.fold), prev, cur) == Some(BlockAt(i, Byte(o)))
    ensures prev.Some? && PartsAt(prev.value, cur, p, q, i, o)
  {
    OffsetIsFirstDifference(cap, p, q, prev.value, cur, c.hash, c.fold, i, o);
  }

  /** A byte offset reported against a stored slot is a real first difference of the first
      block that differs. */
  lemma ReportedOffsetIsReal(c: Codec, prev: Slot, a: Analysis, i: nat, o: nat)
    requires SlotFits(c, prev) && AnalysisFits(c, a)
    requires FoldKeeps(c.fold, prev.tools, a.toolsHashes, TOOLS_HASH_CAP)
    requires FoldKeeps(c.fold, prev.system, a.systemHashes, SYSTEM_HASH_CAP)
    ensures var d := DivergedFrom(prev, SlotOf(a), a.toolsCanon, a.systemCanon, c.fold);
            && (d == InTools(BlockAt(i, Byte(o))) ==>
                  prev.canon.Some? && PartsAt(prev.canon.value.0, a.toolsCanon, prev.tools, a.toolsHashes, i, o))
            && (d == InSystem(BlockAt(i, Byte(o))) ==>
                  prev.canon.Some? && PartsAt(prev.canon.value.1, a.systemCanon, prev.system, a.systemHashes, i, o))
  {
    SectionNamed(prev, SlotOf(a), a.toolsCanon, a.systemCanon, c.fold, BlockAt(i, Byte(o)));
    OffsetOfSection(c, TOOLS_HASH_CAP, prev.tools, a.toolsHashes, KeptTools(prev), a.toolsCanon, i, o);
    OffsetOfSection(c, SYSTEM_HASH_CAP, prev.system, a.systemHashes, KeptSystem(prev), a.systemCanon, i, o);
  }

  lemma OffsetOfSection(c: Codec, cap: nat, p: seq<nat>, q: seq<nat>, prev: Option<seq<string>>, cur: seq<string>,
      i: nat, o: nat)
    requires FoldKeeps(c.fold, p, q, cap) && q == Hashes(c, cur) && (prev.Some? ==> p == Hashes(c, prev.value))
    ensures Section(cap, DiffOf(p, q, cap, c.fold), prev, cur) == Some(BlockAt(i, Byte(o))) ==>
              prev.Some? && PartsAt(prev.value, cur, p, q, i, o)
  {
    if Section(cap, DiffOf(p, q, cap, c.fold), prev, cur) == Some(BlockAt(i, Byte(o))) {
      SectionOffset(c, cap, p, q, prev, cur, i, o);
    }
  }

  /** How a request compares with what was stored of the previous one. */
  function DivergingFrom(c: Codec, prev: Option<Slot>, a: Analysis): Diverging {
    match prev
    case None => First
    case Some(s) => Against(DivergedFrom(s, SlotOf(a), a.toolsCanon, a.systemCanon, c.fold))
  }

  /** What is stored of a request: its hashes, and its canonical blocks while they fit the
      budget. */
  lemma SlotKeeps(a: Analysis)
    ensures var s := SlotOf(a);
            && s.ctxFp == a.ctxFp && s.tools == a.toolsHashes && s.system == a.systemHashes && s.msgs == a.msgsHashes
            && (s.canon == Some((a.toolsCanon, a.systemCanon)) || s.canon == None)
            && (s.canon.Some? <==> a.toolsBytes + a.systemBytes <= 512 * 1024)
  {
  }

  /** Against the stored slot of an earlier request, a request diverges nowhere exactly when
      settings, tools, system and messages have the same hashes; so a request that is sent again
      never diverges, and the first of its kind is told apart from both. */
  lemma DivergesNowhereExactly(c: Codec, prev: Analysis, a: Analysis)
    requires FoldKeeps(c.fold, prev.toolsHashes, a.toolsHashes, TOOLS_HASH_CAP)
    requires FoldKeeps(c.fold, prev.systemHashes, a.systemHashes, SYSTEM_HASH_CAP)
    requires FoldKeeps(c.fold, prev.msgsHashes, a.msgsHashes, MSGS_HASH_CAP)
    ensures DivergingFrom(c, Some(SlotOf(prev)), a) == Against(Nowhere) <==>
            && prev.ctxFp == a.ctxFp && prev.toolsHashes == a.toolsHashes && prev.systemHashes == a.systemHashes
            && prev.msgsHashes == a.msgsHashes
    ensures DivergingFrom(c, None, a) == First != DivergingFrom(c, Some(SlotOf(prev)), a)
  {
    NamesFirstDifferingSection(SlotOf(prev), SlotOf(a), a.toolsCanon, a.systemCanon, c.fold);
  }

  type Slots = Table<(string, string), Slot>

  ghost predicate SlotsFit(c: Codec, prev: Slots) {
    Distinct(prev) && |prev| <= PREV_SLOTS && forall i :: 0 <= i < |prev| ==> SlotFits(c, prev[i].1)
  }

  /** Replacing a slot keeps the others true. */
  lemma SlotStored(c: Codec, prev: Slots, key: (string, string), s: Slot)
    requires SlotsFit(c, prev) && SlotFits(c, s)
    ensures SlotsFit(c, Put(prev, PREV_SLOTS, key, s))
  {
    PutProperties(prev, PREV_SLOTS, key, s);
  }

  class Tracker {
    const codec: Codec
    const prefix: Recency<Key>
    const tools: Recency<Key>
    var prev: Slots
    var number: nat

    ghost predicate Valid()
      reads this, prefix, tools
    {
      && prefix != tools && prefix.Valid() && tools.Valid()
      && |prefix.run.log| == number && |tools.run.log| == number
      && SlotsFit(codec, prev)
    }

    constructor (codec: Codec)
      ensures Valid() && fresh(prefix) && fresh(tools) && prev == []
      ensures prefix.run == Start(RECENCY_CAP) && tools.run == Start(RECENCY_CAP)
    {
      this.codec := codec;
      prefix := new Recency(RECENCY_CAP);
      tools := new Recency(RECENCY_CAP);
      prev, number := [], 0;
    }

    /** The previous request of the client and model, compared and replaced. */
    method Compare(client: string, a: Analysis) returns (diverged: Diverging)
      requires SlotsFit(codec, prev) && AnalysisFits(codec, a)
      modifies this`prev
      ensures SlotsFit(codec, prev) && prev == Put(old(prev), PREV_SLOTS, (client, a.model), SlotOf(a))
      ensures diverged == DivergingFrom(codec, Peek(old(prev), (client, a.model)), a)
    {
      var key := (client, a.model);
      match Peek(prev, key) {
        case Some(s) => diverged := Against(DivergedFrom(s, SlotOf(a), a.toolsCanon, a.systemCanon, codec.fold));
        case None => diverged := First;
      }
      SlotStored(codec, prev, key, SlotOf(a));
      prev := Put(prev, PREV_SLOTS, key, SlotOf(a));
    }

    /** One send: the previous request is compared, and both tables are read, then updated,
        under the lock. */
    method Send(client: string, a: Analysis, now: nat) returns (trace: SendTrace, prefixHold: Hold, toolsHold: Hold)
      requires Valid() && AnalysisFits(codec, a)
      modifies this, prefix, tools
      ensures Valid() && number == old(number) + 1
      ensures trace.diverged == DivergingFrom(codec, Peek(old(prev), (client, a.model)), a)
      ensures prev == Put(old(prev), PREV_SLOTS, (client, a.model), SlotOf(a))
      ensures prefix.run == Step(old(prefix.run), PrefixEvent(a, now))
      ensures tools.run == Step(old(tools.run), ToolsEvent(a, now))
      ensures Holding(prefix.run, number, prefixHold, true) && Holding(tools.run, number, toolsHold, true)
      ensures ReadsRun(trace.prefix, old(prefix.run), PrefixKey(a), now)
      ensures ReadsRun(trace.tools, old(tools.run), ToolsKey(a), now)
    {
      number := number + 1;
      var diverged := Compare(client, a);
      var ttl := match a.layout.ttl case Some(t) => Duration(t) case None => 0;
      var prefixReading, prefixSlot := prefix.Send(PrefixKey(a), number, now, ttl, a.layout.ttl.Some?);
      var toolsTtl := Duration(a.layout.ttlMax.GetOr(FiveMin));
      var toolsReading, toolsSlot := tools.Send(ToolsKey(a), number, now, toolsTtl, |a.toolsHashes| > 0);
      return SendTrace(diverged, prefixReading, toolsReading), prefixSlot, toolsSlot;
    }

    /** The outcome of send `n`, told to the tables that hold it. */
    method Settle(n: nat, prefixHold: Hold, toolsHold: Hold, success: bool)
      requires Valid()
      requires Holding(prefix.run, n, prefixHold, true) && Holding(tools.run, n, toolsHold, true)
      modifies prefix, tools
      ensures Valid()
      ensures prefix.run == Step(old(prefix.run), SettleEvent(n - 1, success))
      ensures tools.run == Step(old(tools.run), SettleEvent(n - 1, success))
      ensures Holding(prefix.run, n, prefixHold, false) && Holding(tools.run, n, toolsHold, false)
    {
      prefix.Settle(n, prefixHold, success);
      tools.Settle(n, toolsHold, success);
    }
  }

  // ---- The guard ----

  /** Usage facts the line may carry; what is in them does not matter here. */
  type Usage = string

  datatype GuardOp = SetStatus(status: nat, streaming: bool) | Begun | Abandon | Complete(usage: Option<Usage>)

  predicate IsSuccess(status: nat) { 200 <= status < 300 }

  /** A streaming success says nothing yet: its start is still to be seen. */
  function StatusVerdict(status: nat, streaming: bool): Option<bool> {
    if !IsSuccess(status) then Some(false) else if !streaming then Some(true) else None
  }

  /** A status outside of 200 to 299 is a failure at once; a success is one at once only where
      nothing streams. */
  lemma VerdictExactly(status: nat, streaming: bool)
    ensures StatusVerdict(status, streaming) == Some(false) <==> status < 200 || status > 299
    ensures StatusVerdict(status, streaming) == Some(true) <==> 200 <= status <= 299 && !streaming
    ensures StatusVerdict(status, streaming) == None <==> 200 <= status <= 299 && streaming
  {
  }

  /** What an operation says about the outcome of the send, if anything. */
  function Verdict(op: GuardOp): Option<bool> {
    match op
    case SetStatus(status, streaming) => StatusVerdict(status, streaming)
    case Begun => Some(true)
    case Abandon => Some(false)
    case Complete(_) => None
  }

  /** From `i` on the first verdict counts; a guard dropped without one was abandoned. */
  function Outcome(ops: seq<GuardOp>, i: nat): bool
    requires i <= |ops|
    decreases |ops| - i
  {
    if i == |ops| then false
    else match Verdict(ops[i]) case Some(v) => v case None => Outcome(ops, i + 1)
  }

  /** From `i` on the first line counts; a guard dropped without one writes one without usage. */
  function LineOf(ops: seq<GuardOp>, i: nat): Option<Usage>
    requires i <= |ops|
    decreases |ops| - i
  {
    if i == |ops| then None
    else match ops[i] case Complete(u) => u case _ => LineOf(ops, i + 1)
  }

  /** A table once the guard of send `number` said `verdict`; a second verdict changes nothing. */
  function Told(r: Run<Key>, number: nat, verdict: Option<bool>): Run<Key>
    requires number > 0
  {
    match verdict case None => r case Some(success) => Step(r, SettleEvent(number - 1, success))
  }

  class InflightGuard {
    const tracker: Tracker
    const number: nat
    const prefix: Hold
    const tools: Hold
    var status: Option<nat>
    var streaming: bool
    var started: bool
    var emitted: bool
    /** Every settle told to the tracker, and every line written. */
    ghost var settles: seq<bool>
    ghost var lines: seq<Option<Usage>>

    ghost predicate Valid()
      reads this, tracker, tracker.prefix, tracker.tools
    {
      tracker.Valid() && Stands(tracker.prefix.run, tracker.tools.run)
    }

    /** Its send is in both tables as it holds it, pending until it settled. */
    ghost predicate Stands(prefixRun: Run<Key>, toolsRun: Run<Key>)
      reads this
    {
      && number > 0 && Holding(prefixRun, number, prefix, !started) && Holding(toolsRun, number, tools, !started)
      && |settles| == (if started then 1 else 0)
      && |lines| == (if emitted then 1 else 0)
    }

    /** `on_send`: the tables take the send, the guard takes the line. */
    constructor (tracker: Tracker, number: nat, prefix: Hold, tools: Hold)
      requires tracker.Valid()
      requires Holding(tracker.prefix.run, number, prefix, true) && Holding(tracker.tools.run, number, tools, true)
      ensures Valid() && settles == [] && lines == []
      ensures this.tracker == tracker && this.number == number && this.prefix == prefix && this.tools == tools
      ensures !started && !emitted
    {
      this.tracker, this.number, this.prefix, this.tools := tracker, number, prefix, tools;
      status, streaming, started, emitted := None, false, false, false;
      settles, lines := [], [];
    }

    method SetStatus(status: nat, streaming: bool)
      requires Valid()
      modifies this, tracker.prefix, tracker.tools
      ensures Valid() && lines == old(lines) && emitted == old(emitted)
      ensures this.status == Some(status) && this.streaming == streaming
      ensures settles == SettlesAfter(old(settles), GuardOp.SetStatus(status, streaming))
      ensures tracker.prefix.run == Told(old(tracker.prefix.run), number, StatusVerdict(status, streaming))
      ensures tracker.tools.run == Told(old(tracker.tools.run), number, StatusVerdict(status, streaming))
      ensures old(started) ==>
              tracker.prefix.run == old(tracker.prefix.run) && tracker.tools.run == old(tracker.tools.run)
    {
      this.status, this.streaming := Some(status), streaming;
      if !IsSuccess(status) {
        Finish(false);
      } else if !streaming {
        Finish(true);
      }
    }

    /** Settles once; later calls are no-ops. */
    method Finish(success: bool)
      requires Valid()
      modifies this`started, this`settles, tracker.prefix, tracker.tools
      ensures Valid() && started
      ensures settles == if old(started) then old(settles) else [success]
      ensures tracker.prefix.run == Told(old(tracker.prefix.run), number, Some(success))
      ensures tracker.tools.run == Told(old(tracker.tools.run), number, Some(success))
      ensures old(started) ==>
              tracker.prefix.run == old(tracker.prefix.run) && tracker.tools.run == old(tracker.tools.run)
    {
      if started {
        return;
      }
      started := true;
      settles := settles + [success];
      tracker.Settle(number, prefix, tools, success);
    }

    /** Writes the line once; later calls are no-ops. */
    method Complete(usage: Option<Usage>)
      requires Valid()
      modifies this`emitted, this`lines
      ensures Valid() && emitted && settles == old(settles)
      ensures lines == if old(emitted) then old(lines) else [usage]
    {
      if emitted {
        return;
      }
      emitted := true;
      lines := lines + [usage];
    }

    /** `Drop`: every path that did not settle or print does so here. */
    method Drop()
      requires Valid()
      modifies this, tracker.prefix, tracker.tools
      ensures Valid() && started && emitted
      ensures settles == if old(started) then old(settles) else [false]
      ensures tracker.prefix.run == Told(old(tracker.prefix.run), number, Some(false))
      ensures tracker.tools.run == Told(old(tracker.tools.run), number, Some(false))
      ensures lines == if old(emitted) then old(lines) else [None]
    {
      if !started {
        Finish(false);
      }
      if !emitted {
        Complete(None);
      }
    }

    method Apply(op: GuardOp)
      requires Valid()
      modifies this, tracker.prefix, tracker.tools
      ensures Valid()
      ensures settles == SettlesAfter(old(settles), op) && lines == LinesAfter(old(lines), op)
      ensures tracker.prefix.run == Told(old(tracker.prefix.run), number, Verdict(op))
      ensures tracker.tools.run == Told(old(tracker.tools.run), number, Verdict(op))
      ensures old(started) ==>
              tracker.prefix.run == old(tracker.prefix.run) && tracker.tools.run == old(tracker.tools.run)
    {
      match op {
        case SetStatus(status, streaming) => SetStatus(status, streaming);
        case Begun => Finish(true);
        case Abandon => Finish(false);
        case Complete(usage) => Complete(usage);
      }
    }

    /** Whatever is called on a guard, in whatever order, the tables are told exactly once,
        with the first verdict it was given, and exactly one line is written, the first
        asked for. */
    method Live(ops: seq<GuardOp>)
      requires Valid() && !started && !emitted
      modifies this, tracker.prefix, tracker.tools
      ensures Valid() && started && emitted
      ensures settles == [Outcome(ops, 0)] && lines == [LineOf(ops, 0)]
      ensures tracker.prefix.run == Step(old(tracker.prefix.run), SettleEvent(number - 1, Outcome(ops, 0)))
      ensures tracker.tools.run == Step(old(tracker.tools.run), SettleEvent(number - 1, Outcome(ops, 0)))
    {
      ghost var (prefixRun, toolsRun) := (tracker.prefix.run, tracker.tools.run);
      for i := 0 to |ops|
        invariant Valid()
        invariant |settles| <= 1 && |lines| <= 1
        invariant Outcome(ops, 0) == if settles == [] then Outcome(ops, i) else settles[0]
        invariant LineOf(ops, 0) == if lines == [] then LineOf(ops, i) else lines[0]
        invariant if settles == [] then tracker.prefix.run == prefixRun && tracker.tools.run == toolsRun
                  else tracker.prefix.run == Step(prefixRun, SettleEvent(number - 1, settles[0]))
                       && tracker.tools.run == Step(toolsRun, SettleEvent(number - 1, settles[0]))
      {
        Apply(ops[i]);
      }
      Drop();
    }
  }

  function SettlesAfter(before: seq<bool>, op: GuardOp): seq<bool> {
    match Verdict(op) case Some(v) => if before == [] then [v] else before case None => before
  }

  function LinesAfter(before: seq<Option<Usage>>, op: GuardOp): seq<Option<Usage>> {
    match op case Complete(u) => (if before == [] then [u] else before) case _ => before
  }

  /** The request-side half of a body that is a JSON object: compared, recorded, and held by
      the guard that is returned. */
  method Admit(tracker: Tracker, client: string, a: Analysis, now: nat) returns (guard: InflightGuard, trace: SendTrace)
    requires tracker.Valid() && AnalysisFits(tracker.codec, a)
    modifies tracker, tracker.prefix, tracker.tools
    ensures tracker.Valid() && fresh(guard) && guard.Valid() && guard.settles == [] && guard.lines == []
    ensures !guard.started && !guard.emitted
    ensures guard.tracker == tracker && guard.number == tracker.number == old(tracker.number) + 1
    ensures trace.diverged == DivergingFrom(tracker.codec, Peek(old(tracker.prev), (client, a.model)), a)
    ensures tracker.prev == Put(old(tracker.prev), PREV_SLOTS, (client, a.model), SlotOf(a))
    ensures tracker.prefix.run == Step(old(tracker.prefix.run), PrefixEvent(a, now))
    ensures tracker.tools.run == Step(old(tracker.tools.run), ToolsEvent(a, now))
    ensures ReadsRun(trace.prefix, old(tracker.prefix.run), PrefixKey(a), now)
    ensures ReadsRun(trace.tools, old(tracker.tools.run), ToolsKey(a), now)
  {
    var prefixHold, toolsHold;
    trace, prefixHold, toolsHold := tracker.Send(client, a, now);
    guard := new InflightGuard(tracker, tracker.number, prefixHold, toolsHold);
  }

  /** `body` is `None` when it does not parse; that, and anything but an object, touches
      nothing. Any other body is admitted. */
  method OnSend(tracker: Tracker, client: string, body: Option<Value>, now: nat)
    returns (guard: InflightGuard?, trace: Option<SendTrace>)
    requires tracker.Valid()
    modifies tracker, tracker.prefix, tracker.tools
    ensures tracker.Valid()
    ensures guard == null <==> Analysed(tracker.codec, body) == None
    ensures trace.Some? <==> guard != null
    ensures guard == null ==> tracker.number == old(tracker.number) && tracker.prev == old(tracker.prev)
                              && tracker.prefix.run == old(tracker.prefix.run)
                              && tracker.tools.run == old(tracker.tools.run)
    ensures guard != null ==> fresh(guard) && guard.Valid() && guard.settles == [] && guard.lines == []
                              && !guard.started && !guard.emitted
                              && guard.tracker == tracker && guard.number == tracker.number == old(tracker.number) + 1
    ensures guard != null ==>
              var a := Analysed(tracker.codec, body).value;
              && trace.value.diverged == DivergingFrom(tracker.codec, Peek(old(tracker.prev), (client, a.model)), a)
              && tracker.prev == Put(old(tracker.prev), PREV_SLOTS, (client, a.model), SlotOf(a))
              && tracker.prefix.run == Step(old(tracker.prefix.run), PrefixEvent(a, now))
              && tracker.tools.run == Step(old(tracker.tools.run), ToolsEvent(a, now))
              && ReadsRun(trace.value.prefix, old(tracker.prefix.run), PrefixKey(a), now)
              && ReadsRun(trace.value.tools, old(tracker.tools.run), ToolsKey(a), now)
  {
    var a := Analysed(tracker.codec, body);
    if a.None? {
      return null, None;
    }
    var t;
    guard, t := Admit(tracker, client, a.value, now);
    trace := Some(t);
  }

  function Analysed(c: Codec, body: Option<Value>): (a: Option<Analysis>)
    ensures a.Some? ==> AnalysisFits(c, a.value)
  {
    match body case Some(root) => Analyze(c, root) case None => None
  }
}
