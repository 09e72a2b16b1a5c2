/** Runs of one recency table under any interleaving of sends and settles.

    `log[i]` is the send with sequence number `i + 1`: every request adds one, whether
    or not the table holds it. A held send whose guard has not settled is `Pending`, so
    the unsettled guards of the table are exactly the pending sends of the log. */
module RecencyRun {
  import opened Wrappers
  import opened Lru
  import opened RecencyTable

  datatype Phase = Unheld | Pending | Succeeded | Failed

  datatype Send<K> = Send(key: K, time: nat, expiry: nat, phase: Phase)

  /** `floor` records, for an evicted key, how long the log was when that happened:
      what the table may remember of the key starts there. */
  datatype Run<K> = Run(cap: nat, table: Table<K, Entry>, log: seq<Send<K>>, floor: map<K, nat>)

  /** `wants` is false for a request that never writes this table's entry. */
  datatype Event<K> = SendEvent(key: K, now: nat, ttl: nat, wants: bool) | SettleEvent(index: nat, success: bool)

  function Start<K>(cap: nat): Run<K> { Run(cap, [], [], map[]) }

  function Evicted<K(==)>(r: Run<K>, key: K): Option<K> {
    var i := FirstIdle(r.table);
    if Peek(r.table, key) == None && |r.table| >= r.cap && i < |r.table| then Some(r.table[i].0) else None
  }

  function Step<K>(r: Run<K>, ev: Event<K>): Run<K> {
    match ev
    case SendEvent(key, now, ttl, wants) =>
      var held := if wants then Touched(r.table, r.cap, key, |r.log| + 1, now) else None;
      var send := Send(key, now, now + ttl, if held.Some? then Phase.Pending else Unheld);
      Run(r.cap, held.GetOr(r.table), r.log + [send],
          match Evicted(r, key)
          case Some(x) => if held.Some? then r.floor[x := |r.log|] else r.floor
          case None => r.floor)
    case SettleEvent(i, success) =>
      // A guard settles once: a second settle, or one of a send the table does not hold, does nothing.
      if i < |r.log| && r.log[i].phase.Pending? then
        r.(table := Settled(r.table, r.log[i].key, i + 1, r.log[i].expiry, success),
           log := r.log[i := r.log[i].(phase := if success then Succeeded else Failed)])
      else r
  }

  function Steps<K>(r: Run<K>, evs: seq<Event<K>>): Run<K> {
    if |evs| == 0 then r else Step(Steps(r, evs[..|evs| - 1]), evs[|evs| - 1])
  }

  // ---- What the table must say about its log ----

  /** How many guards of `key` have not settled. */
  ghost function Unsettled<K>(log: seq<Send<K>>, key: K): nat {
    if |log| == 0 then 0
    else
      var n := |log| - 1;
      Unsettled(log[..n], key) + (if Holds(log, n, key) && log[n].phase.Pending? then 1 else 0)
  }

  /** Send `i` was one of `key` that the table held. */
  ghost predicate Holds<K>(log: seq<Send<K>>, i: int, key: K) {
    0 <= i < |log| && log[i].key == key && !log[i].phase.Unheld?
  }

  ghost function Floor<K>(r: Run<K>, key: K): nat { if key in r.floor then r.floor[key] else 0 }

  /** A held send of `key` since its last eviction. */
  ghost predicate Since<K>(r: Run<K>, i: int, key: K) { Floor(r, key) <= i && Holds(r.log, i, key) }

  /** The pair names a held send, and every held send in `(number - 1, before)` failed. */
  ghost predicate Names<K>(r: Run<K>, key: K, number: nat, time: nat, before: int) {
    && number > 0 && Since(r, number - 1, key) && r.log[number - 1].time == time
    && (forall i :: number - 1 < i < before && Holds(r.log, i, key) ==> r.log[i].phase.Failed?)
  }

  /** `readableUntil` is the maximum expiry over the successful sends since the last eviction. */
  ghost predicate ReadableIsMax<K>(r: Run<K>, key: K, readable: Option<nat>) {
    && (forall i :: Since(r, i, key) && r.log[i].phase.Succeeded? ==>
        readable.Some? && r.log[i].expiry <= readable.value)
    && (readable.Some? ==> exists i ::
        Since(r, i, key) && r.log[i].phase.Succeeded? && r.log[i].expiry == readable.value)
  }

  ghost predicate EntryFits<K>(r: Run<K>, key: K, e: Entry) {
    && Names(r, key, e.lastSeq, e.lastSent, |r.log|)
    && (e.prev.Some? ==> e.prev.value.0 < e.lastSeq && Names(r, key, e.prev.value.0, e.prev.value.1, e.lastSeq - 1))
    && ReadableIsMax(r, key, e.readableUntil)
  }

  ghost predicate KeyFits<K>(r: Run<K>, key: K) {
    && RecencyTable.Pending(r.table, key) == Unsettled(r.log, key)
    && Floor(r, key) <= |r.log|
    && (forall i :: Holds(r.log, i, key) && r.log[i].phase.Pending? ==> Floor(r, key) <= i)
    && match Peek(r.table, key)
       case Some(e) => EntryFits(r, key, e)
       case None => forall i :: Since(r, i, key) ==> r.log[i].phase.Failed?
  }

  ghost predicate Sized<K>(r: Run<K>) { r.cap > 0 && |r.table| <= r.cap && Distinct(r.table) }

  ghost predicate Inv<K(!new)>(r: Run<K>) { Sized(r) && forall key :: KeyFits(r, key) }

  // ---- Counting guards ----

  lemma UnsettledPositive<K>(log: seq<Send<K>>, key: K, i: nat)
    requires Holds(log, i, key) && log[i].phase.Pending?
    ensures Unsettled(log, key) > 0
  {
    if i < |log| - 1 {
      assert Holds(log[..|log| - 1], i, key);
      UnsettledPositive(log[..|log| - 1], key, i);
    }
  }

  lemma {:induction false} UnsettledUpdate<K>(log: seq<Send<K>>, i: nat, phase: Phase, key: K)
    requires i < |log| && log[i].phase.Pending? && !phase.Pending?
    ensures Unsettled(log[i := log[i].(phase := phase)], key) ==
            Unsettled(log, key) - if log[i].key == key then 1 else 0
  {
    var log' := log[i := log[i].(phase := phase)];
    var n := |log| - 1;
    if i < n {
      assert log'[..n] == log[..n][i := log[i].(phase := phase)];
      UnsettledUpdate(log[..n], i, phase, key);
    } else {
      assert log'[..n] == log[..n];
    }
  }

  lemma UnsettledNone<K>(log: seq<Send<K>>, key: K)
    requires Unsettled(log, key) == 0
    ensures forall i :: Holds(log, i, key) ==> !log[i].phase.Pending?
  {
    forall i | Holds(log, i, key) && log[i].phase.Pending? ensures false {
      UnsettledPositive(log, key, i);
    }
  }

  // ---- Every step keeps the invariant ----

  /** A key whose entry, floor and sends a step leaves alone still fits. */
  lemma FitsUnchanged<K>(r: Run<K>, r': Run<K>, key: K)
    requires KeyFits(r, key)
    requires Peek(r'.table, key) == Peek(r.table, key) && Floor(r', key) == Floor(r, key)
    requires Unsettled(r'.log, key) == Unsettled(r.log, key) && |r.log| <= |r'.log|
    requires forall i :: Holds(r'.log, i, key) == Holds(r.log, i, key)
    requires forall i :: Holds(r.log, i, key) ==> r'.log[i] == r.log[i]
    ensures KeyFits(r', key)
  {
    match Peek(r.table, key)
    case Some(e) =>
      NamesUnchanged(r, r', key, e.lastSeq, e.lastSent, |r.log|, |r'.log|);
      if e.prev.Some? {
        NamesUnchanged(r, r', key, e.prev.value.0, e.prev.value.1, e.lastSeq - 1, e.lastSeq - 1);
      }
      ReadableKept(r, r', key, e.readableUntil);
    case None =>
  }

  lemma NamesUnchanged<K>(r: Run<K>, r': Run<K>, key: K, number: nat, time: nat, before: int, before': int)
    requires Names(r, key, number, time, before) && Floor(r', key) == Floor(r, key)
    requires before' == before || before == |r.log|
    requires |r.log| <= |r'.log|
    requires forall i :: Holds(r'.log, i, key) == Holds(r.log, i, key)
    requires forall i :: Holds(r.log, i, key) ==> r'.log[i] == r.log[i]
    ensures Names(r', key, number, time, before')
  {
  }

  lemma SendLog<K>(r: Run<K>, ev: Event<K>, key: K)
    requires ev.SendEvent?
    ensures var r' := Step(r, ev);
            && |r'.log| == |r.log| + 1 && r'.log[..|r.log|] == r.log
            && (forall i :: i < |r.log| ==> Holds(r'.log, i, key) == Holds(r.log, i, key))
            && (forall i :: 0 <= i < |r.log| ==> r'.log[i] == r.log[i])
            && Unsettled(r'.log, key) ==
               Unsettled(r.log, key) + (if r'.log[|r.log|].phase.Pending? && key == ev.key then 1 else 0)
            && (Holds(r'.log, |r.log|, key) ==> key == ev.key && r'.log[|r.log|].phase.Pending?)
  {
    assert Step(r, ev).log[..|r.log|] == r.log;
  }

  lemma SendKeepsOthers<K(!new)>(r: Run<K>, ev: Event<K>, key: K)
    requires Sized(r) && KeyFits(r, key) && ev.SendEvent? && (key != ev.key || !Step(r, ev).log[|r.log|].phase.Pending?)
    ensures KeyFits(Step(r, ev), key)
  {
    var r', n := Step(r, ev), |r.log|;
    SendLog(r, ev, key);
    assert KeyFits(r, key);
    if r'.log[n].phase.Pending? {
      TouchFrame(r.table, r.cap, ev.key, n + 1, ev.now);
    }
    if Peek(r'.table, key) == Peek(r.table, key) && Floor(r', key) == Floor(r, key) {
      FitsUnchanged(r, r', key);
    } else {
      SendEvicts(r, ev, key);
    }
  }

  /** The evicted key had no unsettled guard, and what the table knows of it starts afresh. */
  lemma SendEvicts<K(!new)>(r: Run<K>, ev: Event<K>, key: K)
    requires Sized(r) && KeyFits(r, key) && ev.SendEvent? && key != ev.key && Step(r, ev).log[|r.log|].phase.Pending?
    requires Evicted(r, ev.key) == Some(key)
    ensures KeyFits(Step(r, ev), key)
  {
    var r', n := Step(r, ev), |r.log|;
    SendLog(r, ev, key);
    assert KeyFits(r, key);
    TouchFrame(r.table, r.cap, ev.key, n + 1, ev.now);
    UnsettledNone(r.log, key);
  }

  lemma SendKeepsOwn<K(!new)>(r: Run<K>, ev: Event<K>)
    requires Sized(r) && ev.SendEvent? && KeyFits(r, ev.key) && Step(r, ev).log[|r.log|].phase.Pending?
    ensures KeyFits(Step(r, ev), ev.key)
  {
    var r', n, key := Step(r, ev), |r.log|, ev.key;
    SendLog(r, ev, key);
    TouchFrame(r.table, r.cap, key, n + 1, ev.now);
    match Peek(r.table, key)
    case Some(e) => RefreshedFits(r, r', key, e);
    case None => FirstFits(r, r', key);
  }

  /** `r'` is `r` with one more send of `key`, which the table holds. */
  ghost predicate Extended<K>(r: Run<K>, r': Run<K>, key: K) {
    && |r'.log| == |r.log| + 1
    && r'.log[|r.log|].key == key && r'.log[|r.log|].phase.Pending?
    && (forall i :: 0 <= i < |r.log| ==> r'.log[i] == r.log[i])
    && (forall i :: i < |r.log| ==> Holds(r'.log, i, key) == Holds(r.log, i, key))
    && Floor(r', key) == Floor(r, key) <= |r.log|
  }

  lemma RefreshedFits<K>(r: Run<K>, r': Run<K>, key: K, e: Entry)
    requires KeyFits(r, key) && Extended(r, r', key) && Peek(r.table, key) == Some(e)
    requires Peek(r'.table, key) == Some(Refreshed(e, |r'.log|, r'.log[|r.log|].time))
    requires Unsettled(r'.log, key) == Unsettled(r.log, key) + 1
    ensures KeyFits(r', key)
  {
    var n := |r.log|;
    assert Since(r', n, key);
    ReadableKept(r, r', key, e.readableUntil);
    assert Names(r, key, e.lastSeq, e.lastSent, n);
    assert Names(r', key, e.lastSeq, e.lastSent, n);
    assert Names(r', key, n + 1, r'.log[n].time, n + 1);
  }

  lemma FirstFits<K>(r: Run<K>, r': Run<K>, key: K)
    requires KeyFits(r, key) && Extended(r, r', key) && Peek(r.table, key) == None
    requires Peek(r'.table, key) == Some(FirstSend(|r'.log|, r'.log[|r.log|].time))
    requires Unsettled(r'.log, key) == Unsettled(r.log, key) + 1
    ensures KeyFits(r', key)
  {
    var n := |r.log|;
    assert Since(r', n, key);
    forall i | Since(r', i, key) ensures !r'.log[i].phase.Succeeded? {
      assert i < n ==> Since(r, i, key);
    }
    assert Names(r', key, n + 1, r'.log[n].time, n + 1);
  }

  lemma ReadableKept<K>(r: Run<K>, r': Run<K>, key: K, readable: Option<nat>)
    requires ReadableIsMax(r, key, readable) && Floor(r, key) == Floor(r', key)
    requires forall i :: Since(r', i, key) && r'.log[i].phase.Succeeded? ==> Since(r, i, key) && r.log[i] == r'.log[i]
    requires forall i :: Since(r, i, key) && r.log[i].phase.Succeeded? ==> Since(r', i, key) && r.log[i] == r'.log[i]
    ensures ReadableIsMax(r', key, readable)
  {
  }

  ghost predicate Settles<K>(r: Run<K>, n: nat, success: bool, r': Run<K>) {
    && n < |r.log| && r.log[n].phase.Pending?
    && r' == Step(r, SettleEvent(n, success))
  }

  /** A settle rewrites one send's phase and no other send. */
  lemma SettledLog<K>(r: Run<K>, n: nat, success: bool, r': Run<K>, key: K)
    requires Settles(r, n, success, r')
    ensures |r'.log| == |r.log| && forall i :: 0 <= i < |r.log| && i != n ==> r'.log[i] == r.log[i]
    ensures r'.log[n] == r.log[n].(phase := if success then Succeeded else Failed)
    ensures forall i :: Holds(r'.log, i, key) == Holds(r.log, i, key)
    ensures forall i :: Since(r', i, key) == Since(r, i, key)
  {
  }

  lemma SettleKeepsOthers<K(!new)>(r: Run<K>, n: nat, success: bool, r': Run<K>, key: K)
    requires Sized(r) && KeyFits(r, key) && Settles(r, n, success, r') && key != r.log[n].key
    ensures KeyFits(r', key)
  {
    SettleFrame(r.table, r.log[n].key, n + 1, r.log[n].expiry, success);
    UnsettledUpdate(r.log, n, if success then Succeeded else Failed, key);
    SettledLog(r, n, success, r', key);
    assert KeyFits(r, key);
    FitsUnchanged(r, r', key);
  }

  lemma SuccessRaises<K>(r: Run<K>, n: nat, r': Run<K>, key: K, readable: Option<nat>)
    requires Settles(r, n, true, r') && key == r.log[n].key && Floor(r, key) <= n
    requires ReadableIsMax(r, key, readable)
    ensures ReadableIsMax(r', key, Some(Max(r.log[n].expiry, readable.GetOr(0))))
  {
    SettledLog(r, n, true, r', key);
    assert Since(r', n, key);
    if readable.Some? {
      var w :| Since(r, w, key) && r.log[w].phase.Succeeded? && r.log[w].expiry == readable.value;
      assert Since(r', w, key) && r'.log[w] == r.log[w];
    }
  }

  lemma NamesKept<K>(r: Run<K>, n: nat, success: bool, r': Run<K>, key: K, number: nat, time: nat, before: int)
    requires Settles(r, n, success, r') && Names(r, key, number, time, before)
    ensures Names(r', key, number, time, before)
  {
    SettledLog(r, n, success, r', key);
  }

  /** The rollback: with the last send failed, the send before it is named. */
  lemma RolledBack<K>(r: Run<K>, n: nat, r': Run<K>, key: K, e: Entry)
    requires Settles(r, n, false, r') && EntryFits(r, key, e) && e.lastSeq == n + 1 && e.prev.Some?
    ensures Names(r', key, e.prev.value.0, e.prev.value.1, |r'.log|)
  {
    SettledLog(r, n, false, r', key);
    var (ps, pt) := e.prev.value;
    forall i | ps - 1 < i < |r'.log| && Holds(r'.log, i, key) ensures r'.log[i].phase.Failed? {
      if i > n {
        assert Names(r, key, e.lastSeq, e.lastSent, |r.log|);
      } else if i < n {
        assert Names(r, key, ps, pt, e.lastSeq - 1);
      }
    }
  }

  lemma SettleKeepsOwn<K(!new)>(r: Run<K>, n: nat, success: bool, r': Run<K>, key: K)
    requires Sized(r) && KeyFits(r, key) && Settles(r, n, success, r') && key == r.log[n].key
    ensures KeyFits(r', key)
  {
    SettleFrame(r.table, key, n + 1, r.log[n].expiry, success);
    UnsettledUpdate(r.log, n, if success then Succeeded else Failed, key);
    SettledLog(r, n, success, r', key);
    assert KeyFits(r, key);
    assert Holds(r.log, n, key);
    UnsettledPositive(r.log, key, n);
    var e := Peek(r.table, key).value;
    NamesKept(r, n, success, r', key, e.lastSeq, e.lastSent, |r.log|);
    if e.prev.Some? {
      NamesKept(r, n, success, r', key, e.prev.value.0, e.prev.value.1, e.lastSeq - 1);
    }
    if success {
      SuccessRaises(r, n, r', key, e.readableUntil);
    } else {
      ReadableKept(r, r', key, e.readableUntil);
      if Peek(r'.table, key).None? {
        UnsettledNone(r'.log, key);
      } else if e.lastSeq == n + 1 && e.prev.Some? {
        RolledBack(r, n, r', key, e);
      }
    }
  }

  /** Every step, in any order, keeps the invariant. */
  lemma StepKeeps<K(!new)>(r: Run<K>, ev: Event<K>)
    requires Inv(r)
    ensures Inv(Step(r, ev))
  {
    var r' := Step(r, ev);
    match ev
    case SendEvent(key, now, ttl, wants) =>
      if wants && Touched(r.table, r.cap, key, |r.log| + 1, now).Some? {
        TouchFrame(r.table, r.cap, key, |r.log| + 1, now);
      }
      forall k ensures KeyFits(r', k) {
        if k == key && r'.log[|r.log|].phase.Pending? {
          SendKeepsOwn(r, ev);
        } else {
          SendKeepsOthers(r, ev, k);
        }
      }
    case SettleEvent(i, success) =>
      if i < |r.log| && r.log[i].phase.Pending? {
        SettleFrame(r.table, r.log[i].key, i + 1, r.log[i].expiry, success);
        forall k ensures KeyFits(r', k) {
          if k == r.log[i].key {
            SettleKeepsOwn(r, i, success, r', k);
          } else {
            SettleKeepsOthers(r, i, success, r', k);
          }
        }
      }
  }

  lemma {:induction false} RunKeeps<K(!new)>(r: Run<K>, evs: seq<Event<K>>)
    requires Inv(r)
    ensures Inv(Steps(r, evs))
  {
    if |evs| > 0 {
      RunKeeps(r, evs[..|evs| - 1]);
      StepKeeps(Steps(r, evs[..|evs| - 1]), evs[|evs| - 1]);
    }
  }

  // ---- What a reader gets from it ----

  /** In every reachable state a key's `pending` is the number of its unsettled guards,
      and every unsettled guard finds its entry with a positive count: no settle misses,
      no `saturating_sub` saturates. */
  lemma PendingCountsGuards<K(!new)>(cap: nat, evs: seq<Event<K>>, key: K)
    requires cap > 0
    ensures var r := Steps(Start<K>(cap), evs);
            && RecencyTable.Pending(r.table, key) == Unsettled(r.log, key)
            && |r.table| <= cap
            && (forall i :: 0 <= i < |r.log| && r.log[i].phase.Pending? ==>
                  Peek(r.table, r.log[i].key).Some? && RecencyTable.Pending(r.table, r.log[i].key) > 0)
  {
    var r := Steps(Start<K>(cap), evs);
    StartFits<K>(cap);
    RunKeeps(Start<K>(cap), evs);
    CapFixed(Start<K>(cap), evs);
    assert KeyFits(r, key);
    forall i | 0 <= i < |r.log| && r.log[i].phase.Pending?
      ensures Peek(r.table, r.log[i].key).Some? && RecencyTable.Pending(r.table, r.log[i].key) > 0
    {
      assert KeyFits(r, r.log[i].key);
      UnsettledPositive(r.log, r.log[i].key, i);
    }
  }

  lemma StartFits<K(!new)>(cap: nat)
    requires cap > 0
    ensures Inv(Start<K>(cap))
  {
    forall key: K ensures KeyFits(Start<K>(cap), key) { }
  }

  lemma CapFixed<K>(r: Run<K>, evs: seq<Event<K>>)
    ensures Steps(r, evs).cap == r.cap
  {
  }

  /** Send `i` is the latest of `key` since its last eviction that succeeded or is pending. */
  ghost predicate LatestUnfailed<K>(r: Run<K>, key: K, i: int) {
    && Since(r, i, key) && !r.log[i].phase.Failed?
    && (forall j :: i < j && Since(r, j, key) ==> r.log[j].phase.Failed?)
  }

  /** The table's answer about `key` is what a full history of its sends would give. */
  ghost predicate Remembers<K>(r: Run<K>, key: K) {
    match Peek(r.table, key)
    case Some(e) => LatestUnfailed(r, key, e.lastSeq - 1) && e.lastSent == r.log[e.lastSeq - 1].time
    case None => forall i :: !LatestUnfailed(r, key, i)
  }

  /** The entry of a key names a send at or after the latest unfailed one, `prev` an earlier
      one, `readableUntil` is the maximum expiry of the successful sends, an absent key has no
      unfailed send, and the only way to misremember a key is to name a send that itself failed. */
  ghost predicate TracksHistory<K>(r: Run<K>, key: K) {
    match Peek(r.table, key)
    case Some(e) =>
      && Since(r, e.lastSeq - 1, key) && e.lastSent == r.log[e.lastSeq - 1].time
      && (forall i :: LatestUnfailed(r, key, i) ==> i < e.lastSeq)
      && (e.prev.Some? ==> e.prev.value.0 < e.lastSeq)
      && ReadableIsMax(r, key, e.readableUntil)
      && (Remembers(r, key) <==> !r.log[e.lastSeq - 1].phase.Failed?)
    case None => Remembers(r, key)
  }

  /** Under any interleaving the table tracks the history of every key. */
  lemma EntryTracksHistory<K(!new)>(cap: nat, evs: seq<Event<K>>, key: K)
    requires cap > 0
    ensures TracksHistory(Steps(Start<K>(cap), evs), key)
  {
    ReachableFits<K>(cap, evs, key);
    FittingRemembers(Steps(Start<K>(cap), evs), key);
  }

  lemma ReachableFits<K(!new)>(cap: nat, evs: seq<Event<K>>, key: K)
    requires cap > 0
    ensures KeyFits(Steps(Start<K>(cap), evs), key)
  {
    StartFits<K>(cap);
    RunKeeps(Start<K>(cap), evs);
  }

  lemma FittingRemembers<K(!new)>(r: Run<K>, key: K)
    requires KeyFits(r, key)
    ensures TracksHistory(r, key)
  {
  }

  /** The deadline of an entry never falls while the entry lives. */
  lemma ReadableNeverFalls<K(!new)>(r: Run<K>, ev: Event<K>, key: K)
    requires Sized(r) && Peek(r.table, key).Some? && Peek(Step(r, ev).table, key).Some?
    requires Peek(r.table, key).value.readableUntil.Some?
    ensures Peek(Step(r, ev).table, key).value.readableUntil.Some?
    ensures Peek(r.table, key).value.readableUntil.value <= Peek(Step(r, ev).table, key).value.readableUntil.value
  {
    var e := Peek(r.table, key).value;
    match ev
    case SendEvent(k, now, ttl, wants) => SendSurvives(r, k, now, ttl, wants, key, e);
    case SettleEvent(i, success) =>
      if i < |r.log| && r.log[i].phase.Pending? {
        SettleFrame(r.table, r.log[i].key, i + 1, r.log[i].expiry, success);
      }
  }

  lemma SendSurvives<K(!new)>(r: Run<K>, k: K, now: nat, ttl: nat, wants: bool, key: K, e: Entry)
    requires Sized(r) && Peek(r.table, key) == Some(e)
    ensures var after := Peek(Step(r, SendEvent(k, now, ttl, wants)).table, key);
            after == None || after.value.readableUntil == e.readableUntil
  {
    if wants && Touched(r.table, r.cap, k, |r.log| + 1, now).Some? {
      TouchFrame(r.table, r.cap, k, |r.log| + 1, now);
    }
  }

  // ---- One send of a key at a time ----

  /** Every send of `key` in the run begins with no guard of `key` unsettled. */
  ghost predicate OneAtATime<K>(r: Run<K>, evs: seq<Event<K>>, key: K) {
    |evs| == 0 ||
    var (before, last) := (evs[..|evs| - 1], evs[|evs| - 1]);
    && OneAtATime(r, before, key)
    && (last.SendEvent? && last.wants && last.key == key ==> Unsettled(Steps(r, before).log, key) == 0)
  }

  ghost predicate Sequential<K>(r: Run<K>, key: K) {
    match Peek(r.table, key)
    case None => true
    case Some(e) =>
      && 0 < e.lastSeq <= |r.log| && !r.log[e.lastSeq - 1].phase.Failed?
      && (forall i :: Holds(r.log, i, key) && r.log[i].phase.Pending? ==> i == e.lastSeq - 1)
      && (r.log[e.lastSeq - 1].phase.Pending? ==>
            match e.prev
            case Some(p) => 0 < p.0 <= |r.log| && r.log[p.0 - 1].phase.Succeeded?
            case None => e.readableUntil == None)
  }

  lemma AllSettled<K>(log: seq<Send<K>>, key: K)
    requires forall i :: Holds(log, i, key) ==> !log[i].phase.Pending?
    ensures Unsettled(log, key) == 0
  {
    if |log| > 0 {
      assert forall i :: Holds(log[..|log| - 1], i, key) ==> Holds(log, i, key);
      AllSettled(log[..|log| - 1], key);
    }
  }

  lemma SequentialSend<K(!new)>(r: Run<K>, ev: Event<K>, key: K)
    requires Sized(r) && KeyFits(r, key) && ev.SendEvent? && Sequential(r, key)
    requires ev.wants && ev.key == key ==> Unsettled(r.log, key) == 0
    ensures Sequential(Step(r, ev), key)
  {
    var r', n := Step(r, ev), |r.log|;
    SendLog(r, ev, key);
    if !r'.log[n].phase.Pending? {
      SequentialUnchanged(r, r', key);
    } else if ev.key == key {
      SequentialSendOwn(r, ev);
    } else {
      SequentialSendOther(r, ev, key);
    }
  }

  lemma SequentialSendOther<K(!new)>(r: Run<K>, ev: Event<K>, key: K)
    requires Sized(r) && KeyFits(r, key) && ev.SendEvent? && ev.key != key && Sequential(r, key)
    requires Step(r, ev).log[|r.log|].phase.Pending?
    ensures Sequential(Step(r, ev), key)
  {
    SendLog(r, ev, key);
    TouchFrame(r.table, r.cap, ev.key, |r.log| + 1, ev.now);
    if Peek(Step(r, ev).table, key).Some? {
      SequentialUnchanged(r, Step(r, ev), key);
    }
  }

  lemma SequentialSendOwn<K(!new)>(r: Run<K>, ev: Event<K>)
    requires Sized(r) && ev.SendEvent? && KeyFits(r, ev.key) && Sequential(r, ev.key)
    requires Step(r, ev).log[|r.log|].phase.Pending? && (ev.wants ==> Unsettled(r.log, ev.key) == 0)
    ensures Sequential(Step(r, ev), ev.key)
  {
    SendLog(r, ev, ev.key);
    TouchFrame(r.table, r.cap, ev.key, |r.log| + 1, ev.now);
    UnsettledNone(r.log, ev.key);
    SequentialOwn(r, Step(r, ev), ev.key);
  }

  lemma SequentialUnchanged<K>(r: Run<K>, r': Run<K>, key: K)
    requires KeyFits(r, key) && Sequential(r, key) && Peek(r'.table, key) == Peek(r.table, key)
    requires |r.log| <= |r'.log|
    requires forall i :: Holds(r'.log, i, key) == Holds(r.log, i, key)
    requires forall i :: Holds(r.log, i, key) ==> r'.log[i] == r.log[i]
    ensures Sequential(r', key)
  {
    match Peek(r.table, key)
    case Some(e) =>
      assert Names(r, key, e.lastSeq, e.lastSent, |r.log|);
      assert e.prev.Some? ==> Names(r, key, e.prev.value.0, e.prev.value.1, e.lastSeq - 1);
    case None =>
  }

  lemma SequentialOwn<K>(r: Run<K>, r': Run<K>, key: K)
    requires KeyFits(r, key) && Sequential(r, key) && |r'.log| == |r.log| + 1 && r'.log[|r.log|].phase.Pending?
    requires forall i :: 0 <= i < |r.log| ==> r'.log[i] == r.log[i]
    requires forall i :: Holds(r.log, i, key) ==> !r.log[i].phase.Pending?
    requires Peek(r'.table, key) == Some(match Peek(r.table, key)
                                         case Some(e) => Refreshed(e, |r'.log|, r'.log[|r.log|].time)
                                         case None => FirstSend(|r'.log|, r'.log[|r.log|].time))
    ensures Sequential(r', key)
  {
    forall i | Holds(r'.log, i, key) && r'.log[i].phase.Pending? ensures i == |r.log| {
      if i < |r.log| {
        assert Holds(r.log, i, key);
      }
    }
    match Peek(r.table, key)
    case Some(e) => assert Names(r, key, e.lastSeq, e.lastSent, |r.log|);
    case None =>
  }

  lemma SequentialSettle<K(!new)>(r: Run<K>, n: nat, success: bool, key: K)
    requires Sized(r) && KeyFits(r, key) && n < |r.log| && r.log[n].phase.Pending? && Sequential(r, key)
    ensures Sequential(Step(r, SettleEvent(n, success)), key)
  {
    var r', mine := Step(r, SettleEvent(n, success)), r.log[n].key;
    SettleFrame(r.table, mine, n + 1, r.log[n].expiry, success);
    SettledLog(r, n, success, r', key);
    if mine != key {
      SequentialUnchanged(r, r', key);
    } else {
      assert Holds(r.log, n, key);
      UnsettledPositive(r.log, key, n);
      var e := Peek(r.table, key).value;
      assert n == e.lastSeq - 1;
      UnsettledUpdate(r.log, n, if success then Succeeded else Failed, key);
      assert forall i :: Holds(r'.log, i, key) ==> !r'.log[i].phase.Pending?;
      AllSettled(r'.log, key);
      SequentialSettled(r, n, success, r', key, e);
    }
  }

  lemma SequentialSettled<K>(r: Run<K>, n: nat, success: bool, r': Run<K>, key: K, e: Entry)
    requires Peek(r.table, key) == Some(e) && Sequential(r, key) && e.lastSeq == n + 1 && e.pending == 1
    requires Settles(r, n, success, r') && Peek(r'.table, key) == SettledEntry(e, n + 1, r.log[n].expiry, success)
    requires forall i :: Holds(r'.log, i, key) ==> !r'.log[i].phase.Pending?
    ensures Sequential(r', key)
  {
  }

  lemma {:induction false} SequentialRun<K(!new)>(r: Run<K>, evs: seq<Event<K>>, key: K)
    requires Inv(r) && Sequential(r, key) && OneAtATime(r, evs, key)
    ensures Sequential(Steps(r, evs), key)
  {
    if |evs| > 0 {
      var (before, last) := (evs[..|evs| - 1], evs[|evs| - 1]);
      SequentialRun(r, before, key);
      RunKeeps(r, before);
      if last.SendEvent? {
        SequentialSend(Steps(r, before), last, key);
      } else if last.index < |Steps(r, before).log| && Steps(r, before).log[last.index].phase.Pending? {
        SequentialSettle(Steps(r, before), last.index, last.success, key);
      }
    }
  }

  /** The one-level rollback refines a full send history: in a run where each send of a
      key settles before the next one, `lastSent` is the time of the latest send since
      the key's last eviction that succeeded or is pending, and the key is absent exactly
      when there is none. */
  lemma RollbackRefinesHistory<K(!new)>(cap: nat, evs: seq<Event<K>>, key: K)
    requires cap > 0 && OneAtATime(Start<K>(cap), evs, key)
    ensures Remembers(Steps(Start<K>(cap), evs), key)
  {
    StartFits<K>(cap);
    SequentialRun(Start<K>(cap), evs, key);
    RunKeeps(Start<K>(cap), evs);
    EntryTracksHistory(cap, evs, key);
  }

  /** Any two outcomes of the pending send (number `first`) and of a further one. */
  function BothSettle<K>(key: K, now: nat, ttl: nat, first: nat, second: nat, firstOk: bool, secondOk: bool)
    : seq<Event<K>>
  {
    [SendEvent(key, now, ttl, true), SettleEvent(first, firstOk), SettleEvent(second, secondOk)]
  }

  lemma StepsThree<K>(r: Run<K>, a: Event<K>, b: Event<K>, c: Event<K>)
    ensures Steps(r, [a, b, c]) == Step(Step(Step(r, a), b), c)
  {
    assert [a, b, c][..2] == [a, b];
    assert [a, b][..1] == [a];
    assert Steps(r, []) == r;
    assert Steps(r, [a]) == Step(r, a) by { assert [a][..0] == []; }
    assert Steps(r, [a, b]) == Step(Steps(r, [a]), b);
  }

  /** The condition is exact: sending again on a key is safe for every outcome of the
      pending sends if and only if nothing on it is pending. With one send pending, both
      failing in send order leaves the key naming a failed send. */
  lemma RollbackNeedsOneAtATime<K(!new)>(r: Run<K>, key: K, now: nat, ttl: nat)
    requires Inv(r) && Sequential(r, key) && Peek(r.table, key).Some?
    ensures Unsettled(r.log, key) == 0 <==>
            forall first, firstOk, secondOk ::
              Remembers(Steps(r, BothSettle(key, now, ttl, first, |r.log|, firstOk, secondOk)), key)
  {
    if Unsettled(r.log, key) == 0 {
      forall first, firstOk, secondOk
        ensures Remembers(Steps(r, BothSettle(key, now, ttl, first, |r.log|, firstOk, secondOk)), key)
      {
        var evs := BothSettle(key, now, ttl, first, |r.log|, firstOk, secondOk);
        assert evs[..2][..1][..0] == [] && evs[..2][..1] == [evs[0]] && evs[..2] == [evs[0], evs[1]];
        assert Steps(r, []) == r;
        assert OneAtATime(r, [evs[0]], key);
        assert OneAtATime(r, [evs[0], evs[1]], key);
        assert OneAtATime(r, evs, key);
        SequentialRun(r, evs, key);
        RunKeeps(r, evs);
        var r' := Steps(r, evs);
        assert KeyFits(r', key);
      }
    } else {
      assert KeyFits(r, key);
      var e := Peek(r.table, key).value;
      if forall i :: Holds(r.log, i, key) ==> !r.log[i].phase.Pending? {
        AllSettled(r.log, key);
        assert false;
      }
      var first := e.lastSeq - 1;
      OverlapLosesHistory(r, key, now, ttl, first);
      assert !Remembers(Steps(r, BothSettle(key, now, ttl, first, |r.log|, false, false)), key);
    }
  }

  lemma SendOverlaps<K>(r: Run<K>, key: K, now: nat, ttl: nat, e: Entry)
    requires Sized(r) && Peek(r.table, key) == Some(e)
    ensures var r' := Step(r, SendEvent(key, now, ttl, true));
            && Sized(r') && r'.log == r.log + [Send(key, now, now + ttl, Phase.Pending)]
            && Peek(r'.table, key) == Some(Refreshed(e, |r.log| + 1, now))
  {
    HeldAgain(r.table, r.cap, key, |r.log| + 1, now, e);
    HeldSend(r, key, now, ttl, Touched(r.table, r.cap, key, |r.log| + 1, now).value);
  }

  lemma HeldSend<K>(r: Run<K>, key: K, now: nat, ttl: nat, t: Table<K, Entry>)
    requires Touched(r.table, r.cap, key, |r.log| + 1, now) == Some(t)
    ensures var r' := Step(r, SendEvent(key, now, ttl, true));
            r'.table == t && r'.cap == r.cap && r'.log == r.log + [Send(key, now, now + ttl, Phase.Pending)]
  {
  }

  lemma HeldAgain<K>(t: Table<K, Entry>, cap: nat, key: K, number: nat, now: nat, e: Entry)
    requires Distinct(t) && |t| <= cap && Peek(t, key) == Some(e)
    ensures var held := Touched(t, cap, key, number, now);
            && held.Some? && Distinct(held.value) && |held.value| <= cap
            && Peek(held.value, key) == Some(Refreshed(e, number, now))
  {
    TouchFrame(t, cap, key, number, now);
  }

  lemma SettleFails<K>(r: Run<K>, n: nat, key: K, e: Entry)
    requires Sized(r) && n < |r.log| && r.log[n].key == key && r.log[n].phase.Pending?
    requires Peek(r.table, key) == Some(e)
    ensures var r' := Step(r, SettleEvent(n, false));
            && Sized(r') && r'.log == r.log[n := r.log[n].(phase := Failed)]
            && Peek(r'.table, key) == SettledEntry(e, n + 1, r.log[n].expiry, false)
  {
    SettleFrame(r.table, key, n + 1, r.log[n].expiry, false);
  }

  lemma OverlapLosesHistory<K(!new)>(r: Run<K>, key: K, now: nat, ttl: nat, first: nat)
    requires Sized(r) && Peek(r.table, key).Some? && first == Peek(r.table, key).value.lastSeq - 1
    requires first < |r.log| && r.log[first].key == key && r.log[first].phase.Pending?
    ensures !Remembers(Steps(r, BothSettle(key, now, ttl, first, |r.log|, false, false)), key)
  {
    var n := |r.log|;
    StepsThree(r, SendEvent(key, now, ttl, true), SettleEvent(first, false), SettleEvent(n, false));
    var e := BothFail(r, key, now, ttl, first, Peek(r.table, key).value);
  }

  lemma BothFail<K(!new)>(r: Run<K>, key: K, now: nat, ttl: nat, first: nat, e: Entry) returns (e3: Entry)
    requires Sized(r) && Peek(r.table, key) == Some(e) && first == e.lastSeq - 1
    requires first < |r.log| && r.log[first].key == key && r.log[first].phase.Pending?
    ensures var r3 := Step(Step(Step(r, SendEvent(key, now, ttl, true)), SettleEvent(first, false)),
            SettleEvent(|r.log|, false));
            && Peek(r3.table, key) == Some(e3) && e3.lastSeq == first + 1 && first < |r3.log|
            && r3.log[first].phase.Failed?
  {
    var n := |r.log|;
    SendOverlaps(r, key, now, ttl, e);
    var r1, e1 := Step(r, SendEvent(key, now, ttl, true)), Refreshed(e, n + 1, now);
    SettleFails(r1, first, key, e1);
    var r2, e2 := Step(r1, SettleEvent(first, false)), SettledEntry(e1, first + 1, r1.log[first].expiry, false).value;
    SettleFails(r2, n, key, e2);
    e3 := SettledEntry(e2, n + 1, r2.log[n].expiry, false).value;
  }

  // ---- Exactly when the rollback is safe ----

  /** The key is absent, or the send its entry names has succeeded. */
  ghost predicate Safe<K>(r: Run<K>, key: K) {
    match Peek(r.table, key)
    case None => true
    case Some(e) => 0 < e.lastSeq <= |r.log| && r.log[e.lastSeq - 1].phase.Succeeded?
  }

  /** The key is absent or its entry names a send that did not fail. */
  ghost predicate NamesUnfailed<K>(r: Run<K>, key: K) {
    match Peek(r.table, key)
    case None => true
    case Some(e) => 0 < e.lastSeq <= |r.log| && !r.log[e.lastSeq - 1].phase.Failed?
  }

  lemma UnfailedIsRemembered<K(!new)>(r: Run<K>, key: K)
    requires Inv(r)
    ensures NamesUnfailed(r, key) <==> Remembers(r, key)
  {
    assert KeyFits(r, key);
  }

  /** Settling a send other than the one the entry names leaves that name, and what it would
      roll back to, alone. */
  lemma OtherSettles<K>(r: Run<K>, first: nat, ok: bool, key: K, e: Entry)
    requires Sized(r) && Peek(r.table, key) == Some(e) && e.lastSeq != first + 1
    ensures var r' := Step(r, SettleEvent(first, ok));
            && Sized(r') && |r'.log| == |r.log| && Peek(r'.table, key).Some?
            && Peek(r'.table, key).value.lastSeq == e.lastSeq && Peek(r'.table, key).value.prev == e.prev
            && (forall i :: 0 <= i < |r.log| && i != first ==> r'.log[i] == r.log[i])
  {
    if first < |r.log| && r.log[first].phase.Pending? {
      SettleFrame(r.table, r.log[first].key, first + 1, r.log[first].expiry, ok);
    }
  }

  /** Settling the send the entry names: it stays named if it succeeded, and else the one
      before it is. */
  lemma NamedSettles<K>(r: Run<K>, n: nat, ok: bool, key: K, e: Entry)
    requires Sized(r) && Peek(r.table, key) == Some(e) && e.lastSeq == n + 1 && e.prev.Some?
    requires n < |r.log| && r.log[n].key == key && r.log[n].phase.Pending?
    ensures var r' := Step(r, SettleEvent(n, ok));
            && Sized(r') && |r'.log| == |r.log| && Peek(r'.table, key).Some?
            && Peek(r'.table, key).value.lastSeq == (if ok then n + 1 else e.prev.value.0)
            && r'.log == r.log[n := r.log[n].(phase := if ok then Succeeded else Failed)]
  {
    SettleFrame(r.table, key, n + 1, r.log[n].expiry, ok);
  }

  lemma SafeWhenSucceeded<K(!new)>(r: Run<K>, key: K, now: nat, ttl: nat, first: nat, firstOk: bool, secondOk: bool)
    requires Inv(r) && Peek(r.table, key).Some? && Safe(r, key)
    ensures NamesUnfailed(Step(Step(Step(r, SendEvent(key, now, ttl, true)), SettleEvent(first, firstOk)),
            SettleEvent(|r.log|, secondOk)), key)
  {
    var n, e := |r.log|, Peek(r.table, key).value;
    SendOverlaps(r, key, now, ttl, e);
    SafeAfterSend(Step(r, SendEvent(key, now, ttl, true)), n, key, Refreshed(e, n + 1, now), first, firstOk, secondOk);
  }

  lemma SafeAfterSend<K>(r: Run<K>, n: nat, key: K, e: Entry, first: nat, firstOk: bool, secondOk: bool)
    requires Sized(r) && Peek(r.table, key) == Some(e) && e.lastSeq == n + 1 && e.prev.Some?
    requires n < |r.log| && r.log[n].key == key && r.log[n].phase.Pending?
    requires 0 < e.prev.value.0 <= n && r.log[e.prev.value.0 - 1].phase.Succeeded?
    ensures NamesUnfailed(Step(Step(r, SettleEvent(first, firstOk)), SettleEvent(n, secondOk)), key)
  {
    var r' := Step(r, SettleEvent(first, firstOk));
    if first == n {
      NamedSettles(r, n, firstOk, key, e);
      assert Step(r', SettleEvent(n, secondOk)) == r';
    } else {
      OtherSettles(r, first, firstOk, key, e);
      assert r'.log[e.prev.value.0 - 1].phase.Succeeded?;
      NamedSettles(r', n, secondOk, key, Peek(r'.table, key).value);
    }
  }

  /** A send of an absent key: held by a new entry, or refused. */
  lemma FirstSends<K(!new)>(r: Run<K>, key: K, now: nat, ttl: nat)
    requires Inv(r) && Peek(r.table, key) == None
    ensures var r' := Step(r, SendEvent(key, now, ttl, true));
            && Sized(r') && |r'.log| == |r.log| + 1 && r'.log[|r.log|].key == key
            && (if r'.log[|r.log|].phase.Pending? then Peek(r'.table, key) == Some(FirstSend(|r.log| + 1, now))
                else r'.log[|r.log|].phase.Unheld? && Peek(r'.table, key) == None)
            && (forall i :: 0 <= i < |r.log| && r'.log[i].key == key ==> !r'.log[i].phase.Pending?)
  {
    assert KeyFits(r, key);
    if Touched(r.table, r.cap, key, |r.log| + 1, now).Some? {
      TouchFrame(r.table, r.cap, key, |r.log| + 1, now);
    }
    forall i | 0 <= i < |r.log| && r.log[i].key == key ensures !r.log[i].phase.Pending? {
      assert r.log[i].phase.Pending? ==> Holds(r.log, i, key);
    }
  }

  /** Settling a send of another key changes nothing for this one. */
  lemma ForeignSettles<K>(r: Run<K>, i: nat, ok: bool, key: K)
    requires Sized(r) && (i < |r.log| && r.log[i].phase.Pending? ==> r.log[i].key != key)
    ensures var r' := Step(r, SettleEvent(i, ok));
            && Sized(r') && |r'.log| == |r.log| && Peek(r'.table, key) == Peek(r.table, key)
            && (forall k :: 0 <= k < |r.log| && r.log[k].key == key ==> r'.log[k] == r.log[k])
  {
    if i < |r.log| && r.log[i].phase.Pending? {
      SettleFrame(r.table, r.log[i].key, i + 1, r.log[i].expiry, ok);
    }
  }

  /** The only send of a key either stays named or takes the key with it. */
  lemma OnlySendSettles<K>(r: Run<K>, n: nat, now: nat, ok: bool, key: K)
    requires Sized(r) && Peek(r.table, key) == Some(FirstSend(n + 1, now))
    requires n < |r.log| && r.log[n].key == key && r.log[n].phase.Pending?
    ensures NamesUnfailed(Step(r, SettleEvent(n, ok)), key)
    ensures Sized(Step(r, SettleEvent(n, ok))) && !Step(r, SettleEvent(n, ok)).log[n].phase.Pending?
  {
    SettleFrame(r.table, key, n + 1, r.log[n].expiry, ok);
  }

  lemma SafeWhenAbsent<K(!new)>(r: Run<K>, key: K, now: nat, ttl: nat, first: nat, firstOk: bool, secondOk: bool)
    requires Inv(r) && Peek(r.table, key) == None
    ensures NamesUnfailed(Step(Step(Step(r, SendEvent(key, now, ttl, true)), SettleEvent(first, firstOk)),
            SettleEvent(|r.log|, secondOk)), key)
  {
    var n := |r.log|;
    FirstSends(r, key, now, ttl);
    var r1 := Step(r, SendEvent(key, now, ttl, true));
    var r2 := Step(r1, SettleEvent(first, firstOk));
    if r1.log[n].phase.Unheld? {
      ForeignSettles(r1, first, firstOk, key);
      ForeignSettles(r2, n, secondOk, key);
    } else if first == n {
      OnlySendSettles(r1, n, now, firstOk, key);
    } else {
      ForeignSettles(r1, first, firstOk, key);
      OnlySendSettles(r2, n, now, secondOk, key);
    }
  }

  /** An entry that names a failed send names it again once the next send fails. */
  lemma FailedIsNamedAgain<K>(r: Run<K>, key: K, now: nat, ttl: nat, e: Entry)
    requires Sized(r) && Peek(r.table, key) == Some(e)
    requires 0 < e.lastSeq <= |r.log| && r.log[e.lastSeq - 1].phase.Failed?
    ensures var n := |r.log|;
            !NamesUnfailed(Step(Step(Step(r, SendEvent(key, now, ttl, true)), SettleEvent(n, false)),
                SettleEvent(n, false)), key)
  {
    var n := |r.log|;
    SendOverlaps(r, key, now, ttl, e);
    var r1 := Step(r, SendEvent(key, now, ttl, true));
    NamedSettles(r1, n, false, key, Refreshed(e, n + 1, now));
  }

  /** In every reachable state: one more send of a key, with one of the pending sends settling
      before it, is remembered whatever comes of the two, if and only if the key is absent or
      its entry names a send that has succeeded. */
  lemma RollbackSafeExactly<K(!new)>(r: Run<K>, key: K, now: nat, ttl: nat)
    requires Inv(r)
    ensures Safe(r, key) <==>
            forall first, firstOk, secondOk ::
              Remembers(Steps(r, BothSettle(key, now, ttl, first, |r.log|, firstOk, secondOk)), key)
  {
    assert KeyFits(r, key);
    if Safe(r, key) {
      forall first, firstOk, secondOk
        ensures Remembers(Steps(r, BothSettle(key, now, ttl, first, |r.log|, firstOk, secondOk)), key)
      {
        RunKeeps(r, BothSettle(key, now, ttl, first, |r.log|, firstOk, secondOk));
        StepsThree(r, SendEvent(key, now, ttl, true), SettleEvent(first, firstOk), SettleEvent(|r.log|, secondOk));
        if Peek(r.table, key).Some? {
          SafeWhenSucceeded(r, key, now, ttl, first, firstOk, secondOk);
        } else {
          SafeWhenAbsent(r, key, now, ttl, first, firstOk, secondOk);
        }
        UnfailedIsRemembered(Steps(r, BothSettle(key, now, ttl, first, |r.log|, firstOk, secondOk)), key);
      }
    } else {
      var n, e := |r.log|, Peek(r.table, key).value;
      if r.log[e.lastSeq - 1].phase.Pending? {
        OverlapLosesHistory(r, key, now, ttl, e.lastSeq - 1);
      } else {
        FailedIsNamedAgain(r, key, now, ttl, e);
        RunKeeps(r, BothSettle(key, now, ttl, n, n, false, false));
        StepsThree(r, SendEvent(key, now, ttl, true), SettleEvent(n, false), SettleEvent(n, false));
        UnfailedIsRemembered(Steps(r, BothSettle(key, now, ttl, n, n, false, false)), key);
      }
    }
  }
}
