/** A recency table that is updated in place. Beside its entries it keeps, for the proofs
    alone, the run of sends and settles that led to them. */
module RecencyObject {
  import opened Wrappers
  import opened Lru
  import opened RecencyTable
  import opened RecencyRun

  /** What a table knew of a key just before a send. */
  datatype Reading = Reading(seenAgo: Option<nat>, ttlLeft: Option<int>, pending: nat)

  const NOTHING := Reading(None, None, 0)

  function ReadEntry(e: Option<Entry>, now: nat): Reading {
    match e
    case None => NOTHING
    case Some(e) =>
      Reading(
        Some(Ago(e.lastSent, now)),
        match e.readableUntil case None => None case Some(r) => Some(r - now),
        e.pending)
  }

  /** Send `i` is the last of `key` since its eviction that is not followed by an unfailed one. */
  ghost predicate LastSeen<K>(r: Run<K>, key: K, i: int) {
    Since(r, i, key) && forall j :: i < j && Since(r, j, key) ==> r.log[j].phase.Failed?
  }

  function Ago(time: nat, now: nat): nat { if time <= now then now - time else 0 }

  /** The reading is what the run says about the key: nothing was seen exactly when the
      table has no entry, then nothing is in flight either; `pending` counts the unsettled
      guards of the key, `seenAgo` is the age of a send with only failed ones behind it, and
      `ttlLeft` reaches to the latest expiry of a successful send. */
  ghost predicate ReadsRun<K>(reading: Reading, r: Run<K>, key: K, now: nat) {
    && reading.pending == Unsettled(r.log, key)
    && (reading.seenAgo.None? <==> Peek(r.table, key).None?)
    && (reading.seenAgo.None? ==> reading.pending == 0 && reading.ttlLeft.None?)
    && (reading.seenAgo.Some? ==>
          && (exists i :: LastSeen(r, key, i) && reading.seenAgo.value == Ago(r.log[i].time, now))
          && (reading.ttlLeft.Some? ==> reading.ttlLeft.value + now >= 0)
          && ReadableIsMax(r, key, match reading.ttlLeft case None => None case Some(left) => Some(left + now)))
  }

  /** A refused send reads nothing, as the code reports it: there was no entry to read. */
  lemma ReadingIsExact<K(!new)>(r: Run<K>, key: K, now: nat)
    requires Inv(r)
    ensures ReadsRun(ReadEntry(Peek(r.table, key), now), r, key, now)
    ensures Touched(r.table, r.cap, key, |r.log| + 1, now).None? ==> ReadEntry(Peek(r.table, key), now) == NOTHING
  {
    assert KeyFits(r, key);
    match Peek(r.table, key)
    case None =>
    case Some(e) =>
      assert LastSeen(r, key, e.lastSeq - 1);
  }

  /** Send `number` is held as `hold` says, and pending exactly while `open`. */
  ghost predicate Holding<K>(r: Run<K>, number: nat, hold: Option<(K, nat)>, open: bool) {
    && 0 < number <= |r.log|
    && match hold
       case None => r.log[number - 1].phase.Unheld?
       case Some(h) =>
         && r.log[number - 1].key == h.0 && r.log[number - 1].expiry == h.1
         && !r.log[number - 1].phase.Unheld? && (r.log[number - 1].phase.Pending? <==> open)
  }

  lemma RotatedOnce<K>(t: Table<K, Entry>, n: nat)
    requires n < |t|
    ensures var r := t[n..] + t[..n];
            r[0] == t[n] && r[1..] == t[n + 1..] + t[..n] && r[1..] + [r[0]] == t[n + 1..] + t[..n + 1]
  {
  }

  class Recency<K(==, !new)> {
    const cap: nat
    var items: Table<K, Entry>

    /** Everything that happened to the table since the gateway started. */
    ghost var run: Run<K>

    ghost predicate Shaped()
      reads this
    {
      cap > 0 && |items| <= cap && Distinct(items)
    }

    ghost predicate Valid()
      reads this
    {
      Shaped() && run.table == items && run.cap == cap && Inv(run)
    }

    constructor (cap: nat)
      requires cap > 0
      ensures Valid() && run == Start(cap) && this.cap == cap
    {
      this.cap, items, run := cap, [], Start(cap);
      StartFits<K>(cap);
    }

    /** Evicts the least recently used entry without a pending send, rotating the
        pending ones it passes. Refuses, and is back where it started, exactly when
        every entry of a full table is pending. */
    method MakeRoom() returns (ok: bool)
      requires Shaped()
      modifies this`items
      ensures Shaped()
      ensures old(|items|) < cap ==> ok && items == old(items)
      ensures old(|items|) == cap ==> ok == exists i :: 0 <= i < cap && old(items)[i].1.pending == 0
      ensures !ok ==> items == old(items)
      ensures ok && old(|items|) == cap ==>
                var i := FirstIdle(old(items));
                i < cap && items == old(items)[i + 1..] + old(items)[..i]
    {
      if |items| < cap {
        return true;
      }
      ghost var was := items;
      var n := 0;
      while n < cap
        invariant 0 <= n <= cap && |was| == cap && n <= FirstIdle(was)
        invariant items == was[n..] + was[..n]
      {
        RotatedOnce(was, n);
        if items[0].1.pending == 0 {
          items := items[1..];
          RotateProperties(was, n);
          return true;
        }
        items := items[1..] + [items[0]];
        n := n + 1;
      }
      return false;
    }

    /** Whether the table now holds this send. */
    method Touch(key: K, number: nat, now: nat) returns (held: bool)
      requires Shaped()
      modifies this`items
      ensures Shaped()
      ensures held == Touched(old(items), cap, key, number, now).Some?
      ensures items == Touched(old(items), cap, key, number, now).GetOr(old(items))
      ensures if held then MostRecent(items, key) else items == old(items)
    {
      var i := IndexOf(items, key);
      if i < |items| {
        var e := items[i].1;
        RemoveProperties(items, key);
        AppendProperties(Remove(items, key), key, Refreshed(e, number, now));
        items := Remove(items, key) + [(key, Refreshed(e, number, now))];
        return true;
      }
      ghost var was := items;
      var room := MakeRoom();
      if !room {
        return false;
      }
      RoomKeepsAbsent(was, cap, key);
      AppendProperties(items, key, FirstSend(number, now));
      items := items + [(key, FirstSend(number, now))];
      return true;
    }

    /** One send of the key has come back: a good one may only move the deadline later, a bad
        one is forgotten if it is the newest, along with the key if nothing else is known of it. */
    method SettleEntry(key: K, number: nat, expiry: nat, success: bool)
      requires Shaped()
      modifies this`items
      ensures Shaped()
      ensures items == Settled(old(items), key, number, expiry, success)
    {
      var remove := false;
      var i := IndexOf(items, key);
      RemoveProperties(items, key);
      if i < |items| {
        var e := items[i].1;
        e := e.(pending := if e.pending > 0 then e.pending - 1 else 0);
        if success {
          e := e.(readableUntil := Some(match e.readableUntil case None => expiry case Some(r) => Max(r, expiry)));
        } else if e.lastSeq == number {
          match e.prev {
            case Some(p) => e := e.(lastSeq := p.0, lastSent := p.1, prev := None);
            case None => remove := e.readableUntil == None && e.pending == 0;
          }
        }
        ReplaceProperties(items, key, e);
        RemoveReplaced(items, key, e);
        items := items[i := (key, e)];
      }
      if remove {
        items := Remove(items, key);
      }
    }

    /** One table's half of a send: what it knew of the key, then whether it holds the send.
        A send that does not write the entry only reads it. */
    method Send(key: K, number: nat, now: nat, ttl: nat, wants: bool) returns (reading: Reading, hold: Option<(K, nat)>)
      requires Valid() && number == |run.log| + 1
      modifies this`items, this`run
      ensures Valid() && run == Step(old(run), SendEvent(key, now, ttl, wants))
      ensures Holding(run, number, hold, true)
      ensures ReadsRun(reading, old(run), key, now)
    {
      ReadingIsExact(run, key, now);
      StepKeeps(run, SendEvent(key, now, ttl, wants));
      reading, hold := ReadEntry(Peek(items, key), now), None;
      if wants {
        var held := Touch(key, number, now);
        if held {
          hold := Some((key, now + ttl));
        } else {
          reading := NOTHING;
        }
      }
      run := Step(run, SendEvent(key, now, ttl, wants));
    }

    /** One table's half of a settle. */
    method Settle(number: nat, hold: Option<(K, nat)>, success: bool)
      requires Valid() && Holding(run, number, hold, true)
      modifies this`items, this`run
      ensures Valid() && run == Step(old(run), SettleEvent(number - 1, success))
      ensures Holding(run, number, hold, false)
    {
      ghost var next := Step(run, SettleEvent(number - 1, success));
      StepKeeps(run, SettleEvent(number - 1, success));
      if hold.Some? {
        SettleEntry(hold.value.0, number, hold.value.1, success);
      }
      assert items == next.table;
      run := next;
    }
  }
}
