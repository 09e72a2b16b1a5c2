/** The order of a recency table over whole runs: who is the least recently used. */
module RecencyOrder {
  import opened Wrappers
  import opened Lru
  import opened RecencyTable
  import opened RecencyRun

  /** A use of a key: the number of the send that made it, and whether it was a send of the
      key itself or one whose eviction passed the key while it was pending. */
  datatype Use = Use(at: int, own: bool)

  /** Uses of one send: the keys it passed come before its own. */
  predicate Precedes(a: Use, b: Use) { a.at < b.at || (a.at == b.at && !a.own) }

  predicate Held<K>(r: Run<K>, ev: Event<K>) {
    ev.SendEvent? && ev.wants && Touched(r.table, r.cap, ev.key, |r.log| + 1, ev.now).Some?
  }

  /** A send of `sender` evicts, and `key` stands before the entry that goes. */
  predicate Passed<K>(r: Run<K>, sender: K, key: K) {
    Evicted(r, sender).Some? && IndexOf(r.table, key) < FirstIdle(r.table)
  }

  function UseAfter<K>(r: Run<K>, ev: Event<K>, key: K, use: Use): Use {
    if !Held(r, ev) then use
    else if ev.key == key then Use(|r.log|, true)
    else if Passed(r, ev.key, key) then Use(|r.log|, false)
    else use
  }

  function LastUse<K>(r: Run<K>, evs: seq<Event<K>>, key: K): Use {
    if |evs| == 0 then Use(-1, true)
    else
      var before := evs[..|evs| - 1];
      UseAfter(Steps(r, before), evs[|evs| - 1], key, LastUse(r, before, key))
  }

  ghost predicate InOrder<K(!new)>(t: Table<K, Entry>, use: K -> Use) {
    forall p, q :: 0 <= p < q < |t| ==> Precedes(use(t[p].0), use(t[q].0))
  }

  ghost predicate Past<K(!new)>(use: K -> Use, n: nat) { forall key :: use(key).at < n }

  // ---- Every step keeps the order ----

  lemma InOrderWithout<K(!new)>(t: Table<K, Entry>, i: nat, use: K -> Use)
    requires i < |t| && InOrder(t, use)
    ensures InOrder(t[..i] + t[i + 1..], use)
  {
    var r := t[..i] + t[i + 1..];
    forall p, q | 0 <= p < q < |r| ensures Precedes(use(r[p].0), use(r[q].0)) {
      assert r[p] == t[if p < i then p else p + 1];
      assert r[q] == t[if q < i then q else q + 1];
    }
  }

  lemma RefreshInOrder<K(!new)>(t: Table<K, Entry>, key: K, e: Entry, use: K -> Use, use': K -> Use, n: nat)
    requires Distinct(t) && Peek(t, key) != None && InOrder(t, use) && Past(use, n)
    requires use'(key) == Use(n, true) && forall x :: x != key ==> use'(x) == use(x)
    ensures InOrder(Remove(t, key) + [(key, e)], use')
  {
    RemoveProperties(t, key);
    InOrderWithout(t, IndexOf(t, key), use);
    AppendInOrder(Remove(t, key), key, e, use, use', n);
  }

  lemma AppendInOrder<K(!new)>(t: Table<K, Entry>, key: K, e: Entry, use: K -> Use, use': K -> Use, n: nat)
    requires InOrder(t, use) && Past(use, n) && Peek(t, key) == None
    requires use'(key) == Use(n, true) && forall x :: x != key ==> use'(x) == use(x)
    ensures InOrder(t + [(key, e)], use')
  {
    var r := t + [(key, e)];
    forall p, q | 0 <= p < q < |r| ensures Precedes(use'(r[p].0), use'(r[q].0)) {
      assert r[p] == t[p] && t[p].0 != key;
    }
  }

  lemma EvictInOrder<K(!new)>(t: Table<K, Entry>, i: nat, key: K, e: Entry, use: K -> Use, use': K -> Use, n: nat)
    requires Distinct(t) && i < |t| && InOrder(t, use) && Past(use, n) && Peek(t, key) == None
    requires use'(key) == Use(n, true)
    requires forall x :: x != key ==> use'(x) == if IndexOf(t, x) < i then Use(n, false) else use(x)
    ensures InOrder(t[i + 1..] + t[..i] + [(key, e)], use')
  {
    var (r, m) := (t[i + 1..] + t[..i] + [(key, e)], |t| - i - 1);
    forall p, q | 0 <= p < q < |r| ensures Precedes(use'(r[p].0), use'(r[q].0)) {
      var a := if p < m then p + i + 1 else p - m;
      PeekAt(t, a);
      assert r[p] == t[a];
      if q < |r| - 1 {
        var b := if q < m then q + i + 1 else q - m;
        PeekAt(t, b);
        assert r[q] == t[b];
      }
    }
  }

  lemma SendInOrder<K(!new)>(r: Run<K>, ev: Event<K>, use: K -> Use, use': K -> Use)
    requires Sized(r) && Held(r, ev) && InOrder(r.table, use) && Past(use, |r.log|)
    requires forall key :: use'(key) == UseAfter(r, ev, key, use(key))
    ensures InOrder(Step(r, ev).table, use')
  {
    var (t, n) := (r.table, |r.log|);
    match Peek(t, ev.key)
    case Some(e) => RefreshInOrder(t, ev.key, Refreshed(e, n + 1, ev.now), use, use', n);
    case None =>
      if |t| < r.cap {
        AppendInOrder(t, ev.key, FirstSend(n + 1, ev.now), use, use', n);
      } else {
        EvictInOrder(t, FirstIdle(t), ev.key, FirstSend(n + 1, ev.now), use, use', n);
      }
  }

  lemma ReplacedInOrder<K(!new)>(t: Table<K, Entry>, i: nat, e: Entry, use: K -> Use)
    requires i < |t| && InOrder(t, use)
    ensures InOrder(t[i := (t[i].0, e)], use)
  {
    var r := t[i := (t[i].0, e)];
    assert forall p :: 0 <= p < |r| ==> r[p].0 == t[p].0;
  }

  lemma SettleInOrder<K(!new)>(t: Table<K, Entry>, key: K, number: nat, expiry: nat, success: bool, use: K -> Use)
    requires Distinct(t) && InOrder(t, use)
    ensures InOrder(Settled(t, key, number, expiry, success), use)
  {
    var i := IndexOf(t, key);
    if i < |t| {
      var e := SettledEntry(t[i].1, number, expiry, success);
      if e.Some? {
        ReplacedInOrder(t, i, e.value, use);
      } else {
        InOrderWithout(t, i, use);
      }
    }
  }

  // ---- Over runs ----

  lemma LogGrows<K>(r: Run<K>, ev: Event<K>)
    ensures |Step(r, ev).log| == if ev.SendEvent? then |r.log| + 1 else |r.log|
  {
  }

  lemma {:induction false} UsesArePast<K(!new)>(r: Run<K>, evs: seq<Event<K>>, key: K)
    ensures LastUse(r, evs, key).at < |Steps(r, evs).log|
  {
    if |evs| > 0 {
      UsesArePast(r, evs[..|evs| - 1], key);
      LogGrows(Steps(r, evs[..|evs| - 1]), evs[|evs| - 1]);
    }
  }

  ghost function UseIn<K(!new)>(r: Run<K>, evs: seq<Event<K>>): K -> Use { key => LastUse(r, evs, key) }

  /** In every run the entries stand in the order of their last uses. */
  lemma {:induction false} EntriesStandInOrderOfUse<K(!new)>(cap: nat, evs: seq<Event<K>>)
    requires cap > 0
    ensures InOrder(Steps(Start<K>(cap), evs).table, UseIn(Start<K>(cap), evs))
  {
    if |evs| > 0 {
      var (s, before, ev) := (Start<K>(cap), evs[..|evs| - 1], evs[|evs| - 1]);
      var (r, use, use') := (Steps(s, before), UseIn(s, before), UseIn(s, evs));
      EntriesStandInOrderOfUse(cap, before);
      ReachableIsSized(cap, before);
      forall key ensures use(key).at < |r.log| {
        UsesArePast(s, before, key);
      }
      if Held(r, ev) {
        SendInOrder(r, ev, use, use');
      } else {
        assert forall key :: use'(key) == use(key);
        if ev.SettleEvent? && ev.index < |r.log| && r.log[ev.index].phase.Pending? {
          var send := r.log[ev.index];
          SettleInOrder(r.table, send.key, ev.index + 1, send.expiry, ev.success, use);
        }
      }
    }
  }

  lemma ReachableIsSized<K(!new)>(cap: nat, evs: seq<Event<K>>)
    requires cap > 0
    ensures Sized(Steps(Start<K>(cap), evs))
  {
    StartFits<K>(cap);
    RunKeeps(Start<K>(cap), evs);
  }

  /** Whom a send evicts is idle, and was used before every other idle key. */
  lemma EvictedIsLeastRecentlyUsed<K(!new)>(cap: nat, evs: seq<Event<K>>, sender: K, evicted: K, other: K)
    requires cap > 0 && Evicted(Steps(Start<K>(cap), evs), sender) == Some(evicted) && other != evicted
    requires var t := Steps(Start<K>(cap), evs).table; Peek(t, other) != None && RecencyTable.Pending(t, other) == 0
    ensures RecencyTable.Pending(Steps(Start<K>(cap), evs).table, evicted) == 0
    ensures Precedes(LastUse(Start<K>(cap), evs, evicted), LastUse(Start<K>(cap), evs, other))
  {
    ReachableIsSized(cap, evs);
    EntriesStandInOrderOfUse(cap, evs);
    FirstIdlePrecedes(Steps(Start<K>(cap), evs).table, UseIn(Start<K>(cap), evs), other);
  }

  lemma FirstIdlePrecedes<K(!new)>(t: Table<K, Entry>, use: K -> Use, other: K)
    requires Distinct(t) && InOrder(t, use) && FirstIdle(t) < |t| && other != t[FirstIdle(t)].0
    requires Peek(t, other) != None && RecencyTable.Pending(t, other) == 0
    ensures RecencyTable.Pending(t, t[FirstIdle(t)].0) == 0 && Precedes(use(t[FirstIdle(t)].0), use(other))
  {
    PeekAt(t, FirstIdle(t));
    PeekAt(t, IndexOf(t, other));
  }

  /** The last use is at or after the latest send of the key that the table held, and it is
      that send exactly if the key was not passed since. */
  lemma {:induction false} LastUseIsTheLastSend<K(!new)>(r: Run<K>, evs: seq<Event<K>>, key: K)
    requires r.log == []
    ensures IsLastSend(Steps(r, evs).log, key, LastUse(r, evs, key))
  {
    if |evs| > 0 {
      var before := evs[..|evs| - 1];
      LastUseIsTheLastSend(r, before, key);
      UsesArePast(r, before, key);
      UseFollowsLog(Steps(r, before), evs[|evs| - 1], key, LastUse(r, before, key));
    }
  }

  ghost predicate IsLastSend<K>(log: seq<Send<K>>, key: K, u: Use) {
    && (forall i :: Holds(log, i, key) ==> i <= u.at && (i == u.at ==> u.own))
    && (u.own && u.at >= 0 ==> Holds(log, u.at, key))
  }

  lemma UseFollowsLog<K(!new)>(r: Run<K>, ev: Event<K>, key: K, u: Use)
    requires IsLastSend(r.log, key, u) && u.at < |r.log|
    ensures IsLastSend(Step(r, ev).log, key, UseAfter(r, ev, key, u))
  {
    if ev.SendEvent? {
      SendLog(r, ev, key);
    } else {
      assert forall i :: Holds(Step(r, ev).log, i, key) == Holds(r.log, i, key);
    }
  }

  /** No eviction of the run passed a pending entry. */
  ghost predicate NonePassed<K>(r: Run<K>, evs: seq<Event<K>>) {
    |evs| == 0 ||
    var (before, ev) := (evs[..|evs| - 1], evs[|evs| - 1]);
    && NonePassed(r, before)
    && (Held(Steps(r, before), ev) && Evicted(Steps(r, before), ev.key).Some? ==>
          FirstIdle(Steps(r, before).table) == 0)
  }

  lemma {:induction false} UsesAreOwn<K(!new)>(r: Run<K>, evs: seq<Event<K>>, key: K)
    requires NonePassed(r, evs)
    ensures LastUse(r, evs, key).own
  {
    if |evs| > 0 {
      UsesAreOwn(r, evs[..|evs| - 1], key);
    }
  }

  /** Send `i` is the latest of `key` that the table held. */
  ghost predicate LatestHeld<K>(log: seq<Send<K>>, i: int, key: K) {
    Holds(log, i, key) && forall j :: i < j ==> !Holds(log, j, key)
  }

  /** While no eviction passes a pending entry, the entry that goes is the one of the idle
      keys whose latest held send is the oldest. */
  lemma EvictedWasSentFirst<K(!new)>(cap: nat, evs: seq<Event<K>>, sender: K, evicted: K, other: K, i: nat, j: nat)
    requires cap > 0 && NonePassed(Start<K>(cap), evs) && other != evicted
    requires Evicted(Steps(Start<K>(cap), evs), sender) == Some(evicted)
    requires var r := Steps(Start<K>(cap), evs);
             && Peek(r.table, other) != None && RecencyTable.Pending(r.table, other) == 0
             && LatestHeld(r.log, i, evicted) && LatestHeld(r.log, j, other)
    ensures i < j
  {
    var s := Start<K>(cap);
    EvictedIsLeastRecentlyUsed(cap, evs, sender, evicted, other);
    LastUseIsTheLastSend(s, evs, evicted);
    LastUseIsTheLastSend(s, evs, other);
    UsesAreOwn(s, evs, evicted);
    UsesAreOwn(s, evs, other);
  }
}
