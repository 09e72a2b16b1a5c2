/** What a recency table of the cache tracker does to its entries: upstream cache entries
    keyed by fingerprint, none evicted while a send is pending on it. */
module RecencyTable {
  import opened Wrappers
  import opened Lru

  /** One upstream cache entry. `prev` is the one level of history a failure rolls back to. */
  datatype Entry = Entry(
    lastSeq: nat,
    lastSent: nat,
    prev: Option<(nat, nat)>,
    readableUntil: Option<nat>,
    pending: nat)

  function Pending<K(==)>(t: Table<K, Entry>, key: K): nat {
    match Peek(t, key) case Some(e) => e.pending case None => 0
  }

  /** The first position at or after `from` without a pending send, or `|t|`. */
  function IdleFrom<K>(t: Table<K, Entry>, from: nat): (i: nat)
    requires from <= |t|
    ensures from <= i <= |t|
    ensures i < |t| ==> t[i].1.pending == 0
    ensures forall j :: from <= j < i ==> t[j].1.pending != 0
    decreases |t| - from
  {
    if from == |t| || t[from].1.pending == 0 then from else IdleFrom(t, from + 1)
  }

  /** The least recently used position without a pending send, or `|t|`. */
  function FirstIdle<K>(t: Table<K, Entry>): nat { IdleFrom(t, 0) }

  /** What is left after making room for one more entry; `None` is a refusal. */
  function RoomMade<K>(t: Table<K, Entry>, cap: nat): Option<Table<K, Entry>> {
    var i := FirstIdle(t);
    if |t| < cap then Some(t)
    else if i < |t| then Some(t[i + 1..] + t[..i])
    else None
  }

  /** An entry that a further send refreshes. */
  function Refreshed(e: Entry, number: nat, now: nat): Entry {
    Entry(number, now, Some((e.lastSeq, e.lastSent)), e.readableUntil, e.pending + 1)
  }

  function FirstSend(number: nat, now: nat): Entry {
    Entry(number, now, None, None, 1)
  }

  /** The table once a send holds `key`; `None` when no entry could be evicted for it. */
  function Touched<K(==)>(t: Table<K, Entry>, cap: nat, key: K, number: nat, now: nat): Option<Table<K, Entry>> {
    match Peek(t, key)
    case Some(e) => Some(Remove(t, key) + [(key, Refreshed(e, number, now))])
    case None =>
      match RoomMade(t, cap)
      case Some(room) => Some(room + [(key, FirstSend(number, now))])
      case None => None
  }

  /** An entry after one of its sends came out; `None` removes the key. */
  function SettledEntry(e: Entry, number: nat, expiry: nat, success: bool): Option<Entry> {
    var pending := if e.pending > 0 then e.pending - 1 else 0;
    if success then
      Some(e.(pending := pending, readableUntil := Some(Max(expiry, e.readableUntil.GetOr(0)))))
    else if e.lastSeq != number then
      Some(e.(pending := pending))
    else
      match e.prev
      case Some(p) => Some(e.(pending := pending, lastSeq := p.0, lastSent := p.1, prev := None))
      case None =>
        if e.readableUntil == None && pending == 0 then None else Some(e.(pending := pending))
  }

  function Settled<K(==)>(t: Table<K, Entry>, key: K, number: nat, expiry: nat, success: bool): Table<K, Entry> {
    match Peek(t, key)
    case None => t
    case Some(e) =>
      match SettledEntry(e, number, expiry, success)
      case Some(e') => Replace(t, key, e')
      case None => Remove(t, key)
  }

  lemma RemoveReplaced<K>(t: Table<K, Entry>, key: K, e: Entry)
    requires Distinct(t) && Peek(t, key) != None
    ensures Remove(Replace(t, key, e), key) == Remove(t, key)
  {
    var i := IndexOf(t, key);
    PeekAt(Replace(t, key, e), i);
  }

  lemma RoomKeepsAbsent<K>(t: Table<K, Entry>, cap: nat, key: K)
    requires Distinct(t) && |t| <= cap && Peek(t, key) == None && RoomMade(t, cap).Some?
    ensures Distinct(RoomMade(t, cap).value) && Peek(RoomMade(t, cap).value, key) == None
    ensures |RoomMade(t, cap).value| < cap
    ensures |t| == cap ==> FirstIdle(t) < cap && Pending(t, t[FirstIdle(t)].0) == 0
                           && Peek(RoomMade(t, cap).value, t[FirstIdle(t)].0) == None
    ensures forall x :: x != key && Peek(RoomMade(t, cap).value, x) != Peek(t, x) ==>
              |t| == cap && x == t[FirstIdle(t)].0 && Pending(t, x) == 0 && Peek(RoomMade(t, cap).value, x) == None
  {
    var i := FirstIdle(t);
    if |t| >= cap {
      RotateProperties(t, i);
      PeekAt(t, i);
    }
  }

  /** A send changes its own entry and, at a full table, evicts the least recently
      used idle one; no entry with a pending send is lost. */
  lemma TouchFrame<K>(t: Table<K, Entry>, cap: nat, key: K, number: nat, now: nat)
    requires Distinct(t) && |t| <= cap && Touched(t, cap, key, number, now).Some?
    ensures var t' := Touched(t, cap, key, number, now).value;
            && Distinct(t') && |t'| <= cap
            && (Peek(t, key) == None ==> Peek(t', key) == Some(FirstSend(number, now)))
            && (Peek(t, key) != None ==> Peek(t', key) == Some(Refreshed(Peek(t, key).value, number, now)))
            && (Peek(t, key) == None && |t| == cap ==>
                  && FirstIdle(t) < |t| && t[FirstIdle(t)].0 != key
                  && Pending(t, t[FirstIdle(t)].0) == 0 && Peek(t', t[FirstIdle(t)].0) == None)
            && (forall x :: x != key && Peek(t', x) != Peek(t, x) ==>
                  && Peek(t, key) == None && |t| == cap && FirstIdle(t) < |t|
                  && x == t[FirstIdle(t)].0 && Pending(t, x) == 0 && Peek(t', x) == None)
  {
    match Peek(t, key)
    case Some(e) =>
      RemoveProperties(t, key);
      AppendProperties(Remove(t, key), key, Refreshed(e, number, now));
    case None =>
      RoomKeepsAbsent(t, cap, key);
      if |t| == cap {
        PeekAt(t, FirstIdle(t));
      }
      AppendProperties(RoomMade(t, cap).value, key, FirstSend(number, now));
  }

  // ---- The order ----

  /** The send must evict, and finds an entry to evict. */
  predicate Evicts<K(==)>(t: Table<K, Entry>, cap: nat, key: K) {
    Peek(t, key) == None && |t| >= cap && FirstIdle(t) < |t|
  }

  /** Position `a` stands before `b` once what stood before position `i` was moved to the back. */
  predicate BeforeRotated(a: nat, b: nat, i: nat) { if (a < i) == (b < i) then a < b else b < i }

  /** A held send makes its key the most recently used. The others keep their order, but that
      an eviction moves the pending entries it passes behind those it did not reach. */
  lemma TouchOrder<K(!new)>(t: Table<K, Entry>, cap: nat, key: K, number: nat, now: nat)
    requires Distinct(t) && |t| <= cap && Touched(t, cap, key, number, now).Some?
    ensures var t' := Touched(t, cap, key, number, now).value;
            && MostRecent(t', key)
            && (!Evicts(t, cap, key) ==> SameOrderBut(t, t', key))
            && (Evicts(t, cap, key) ==>
                  forall x, y :: x != key && y != key && Peek(t', x) != None && Peek(t', y) != None ==>
                    (Before(t', x, y) <==> BeforeRotated(IndexOf(t, x), IndexOf(t, y), FirstIdle(t))))
  {
    var t' := Touched(t, cap, key, number, now).value;
    TouchFrame(t, cap, key, number, now);
    var i := IndexOf(t, key);
    if i < |t| {
      OrderWithout(t, i, t', |t| - 1, key);
    } else if |t| < cap {
      OrderWithout(t, |t|, t', |t|, key);
    } else {
      RotatedOrder(t, FirstIdle(t), t', key);
    }
  }

  lemma RotatedOrder<K(!new)>(t: Table<K, Entry>, i: nat, t': Table<K, Entry>, key: K)
    requires Distinct(t) && Distinct(t') && i < |t| && |t'| == |t| && t'[|t| - 1].0 == key
    requires t'[..|t| - 1] == t[i + 1..] + t[..i]
    ensures forall x, y :: x != key && y != key && Peek(t', x) != None && Peek(t', y) != None ==>
              (Before(t', x, y) <==> BeforeRotated(IndexOf(t, x), IndexOf(t, y), i))
  {
    var n := |t| - i - 1;
    forall x, y | x != key && y != key && Peek(t', x) != None && Peek(t', y) != None
      ensures Before(t', x, y) <==> BeforeRotated(IndexOf(t, x), IndexOf(t, y), i)
    {
      var (a, b) := (IndexOf(t', x), IndexOf(t', y));
      assert t'[a] == t'[..|t| - 1][a] && t'[b] == t'[..|t| - 1][b];
      PeekAt(t, if a < n then a + i + 1 else a - n);
      PeekAt(t, if b < n then b + i + 1 else b - n);
    }
  }

  /** A settle moves no entry. */
  lemma SettleOrder<K(!new)>(t: Table<K, Entry>, key: K, number: nat, expiry: nat, success: bool)
    requires Distinct(t)
    ensures var t' := Settled(t, key, number, expiry, success);
            forall x, y :: Peek(t', x) != None && Peek(t', y) != None ==> (Before(t', x, y) <==> Before(t, x, y))
  {
    SettleFrame(t, key, number, expiry, success);
    var i := IndexOf(t, key);
    if i < |t| {
      var e := SettledEntry(t[i].1, number, expiry, success);
      if e.Some? {
        ReplacedOrder(t, i, e.value);
      } else {
        OrderWithout(t, i, Remove(t, key), |t| - 1, key);
      }
    }
  }

  lemma ReplacedOrder<K(!new)>(t: Table<K, Entry>, i: nat, e: Entry)
    requires Distinct(t) && i < |t|
    ensures var t' := t[i := (t[i].0, e)];
            forall x, y :: Peek(t', x) != None && Peek(t', y) != None ==> (Before(t', x, y) <==> Before(t, x, y))
  {
    var t' := t[i := (t[i].0, e)];
    forall x, y | Peek(t', x) != None && Peek(t', y) != None ensures Before(t', x, y) <==> Before(t, x, y) {
      PeekAt(t, IndexOf(t', x));
      PeekAt(t, IndexOf(t', y));
    }
  }

  /** A settle touches no other entry. */
  lemma SettleFrame<K>(t: Table<K, Entry>, key: K, number: nat, expiry: nat, success: bool)
    requires Distinct(t)
    ensures var t' := Settled(t, key, number, expiry, success);
            && Distinct(t') && |t'| <= |t|
            && (forall x :: x != key ==> Peek(t', x) == Peek(t, x))
            && Peek(t', key) ==
               match Peek(t, key) case None => None case Some(e) => SettledEntry(e, number, expiry, success)
  {
    RemoveProperties(t, key);
    match Peek(t, key)
    case None =>
    case Some(e) =>
      var s := SettledEntry(e, number, expiry, success);
      if s.Some? {
        ReplaceProperties(t, key, s.value);
      }
  }
}
