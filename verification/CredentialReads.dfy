/** What becomes of an invalidation, and of a caller that gets the refresh lock at once, in
    every continuation of every run. */
module CredentialReads {
  import opened Wrappers
  import opened Freshness
  import opened Runs
  import opened CredentialCache

  // ---- After an invalidation ----

  /** A read of the keychain has begun and its value is not stored yet. */
  predicate InFlight(pc: Pc) { pc.Fetching? || pc.Fetched? || pc.Stamped? || pc.Storing? }

  predicate ReadInFlight(s: System) { exists i :: 0 <= i < |s.callers| && InFlight(s.callers[i]) }

  /** How many reads have begun so far. */
  function Begun(s: System): nat {
    |s.fetches| + if s.holder.Some? && s.holder.value < |s.callers| && s.callers[s.holder.value].Fetching? then 1 else 0
  }

  /** What a caller holds came from read number `base` or a later one; a read under way began
      at `since` or later. */
  predicate HoldsNew(base: nat, since: nat, pc: Pc) {
    match pc
    case Fetching(began, _, _, _) => began >= since
    case Fetched(f, _) => f >= base
    case Stamped(f, _, _) => f >= base
    case Storing(slot) => slot.from >= base
    case _ => true
  }

  predicate SeesNew(base: nat, pc: Pc) {
    match pc
    case Snapped(seen) => seen.Some? ==> seen.value.from >= base
    case Contending(seen) => seen.Some? ==> seen.value.from >= base
    case Refused(seen, _) => seen.Some? ==> seen.value.from >= base
    case Reread(seen) => seen.Some? ==> seen.value.from >= base
    case Leaving(a) => a.from >= base
    case Done(a) => a.from >= base
    case _ => true
  }

  /** The cache and whatever is on its way there are newer than `base`, and so is what caller
      `i` sees. */
  predicate Renewed(base: nat, since: nat, i: nat, s: System) {
    && |s.fetches| >= base && s.now >= since && (s.cache.Some? ==> s.cache.value.from >= base)
    && (forall k :: base <= k < |s.fetches| ==> s.fetches[k].began >= since)
    && (forall j :: 0 <= j < |s.callers| ==> HoldsNew(base, since, s.callers[j]))
    && (i < |s.callers| ==> SeesNew(base, s.callers[i]))
  }

  lemma RenewedStays(base: nat, since: nat, i: nat, s: System, e: Event)
    requires Renewed(base, since, i, s) && Can(s, e)
    ensures Renewed(base, since, i, Next(s, e))
  {
    if e.Turn? {
      assert HoldsNew(base, since, s.callers[e.i]);
    }
  }

  lemma RenewedForGood(base: nat, since: nat, i: nat, s: System, t: System)
    requires Renewed(base, since, i, s) && Leads(Try, s, t)
    ensures Renewed(base, since, i, t)
  {
    forall u, e | Renewed(base, since, i, u) && Try(u, e).Some? ensures Renewed(base, since, i, Try(u, e).value) {
      RenewedStays(base, since, i, u, e);
    }
    LeadsKeeps(Try, (u: System) => Renewed(base, since, i, u), s, t);
  }

  lemma InvalidatedIsRenewed(s: System, i: nat)
    requires !ReadInFlight(s) && i < |s.callers| && s.callers[i] == Idle
    ensures Renewed(|s.fetches|, s.now, i, Next(s, Invalidate))
  {
    forall j | 0 <= j < |s.callers| ensures HoldsNew(|s.fetches|, s.now, s.callers[j]) {
      assert !InFlight(s.callers[j]);
    }
  }

  /** After an invalidation with no read in flight, in every continuation, a caller that comes
      later is only answered from a read that began later, and the cache holds no other. */
  lemma InvalidationForcesARead(s: System, i: nat, t: System)
    requires !ReadInFlight(s) && i < |s.callers| && s.callers[i] == Idle
    requires Leads(Try, Next(s, Invalidate), t)
    ensures t.cache.Some? ==> t.cache.value.from >= |s.fetches|
    ensures i < |t.callers| && t.callers[i].Done? ==> t.callers[i].answer.from >= |s.fetches|
    ensures forall k :: |s.fetches| <= k < |t.fetches| ==> t.fetches[k].began >= s.now
  {
    InvalidatedIsRenewed(s, i);
    RenewedForGood(|s.fetches|, s.now, i, Next(s, Invalidate), t);
  }

  lemma NothingOldIsStored(s: System, t: System)
    requires !ReadInFlight(s) && Leads(Try, Next(s, Invalidate), t)
    ensures t.cache.Some? ==> t.cache.value.from >= |s.fetches|
  {
    var nobody := |s.callers|;
    forall j | 0 <= j < |s.callers| ensures HoldsNew(|s.fetches|, s.now, s.callers[j]) {
      assert !InFlight(s.callers[j]);
    }
    RenewedForGood(|s.fetches|, s.now, nobody, Next(s, Invalidate), t);
  }

  /** A read that is in flight when the cache is invalidated can be stored afterwards. */
  lemma InFlightIsStored(s: System, i: nat, read: Read) returns (t: System)
    requires Reachable(s) && i < |s.callers| && InFlight(s.callers[i])
    ensures Leads(Try, Next(s, Invalidate), t) && t.cache.Some? && t.cache.value.from < Begun(s)
  {
    ReachableKeeps(s);
    var o := Next(s, Invalidate);
    LeadsNowhere(Try, o);
    assert CallerOk(s.epoch, s.now, s.fetches, s.cache, s.callers[i], i) && s.holder == Some(i);
    match s.callers[i]
    case Fetching(_, _, _, _) =>
      var s1 := Advance(o, i, read);
      TurnTaken(o, o, i, read, s1);
      t := Stores(o, s1, i, |s.fetches|, read);
    case Fetched(f, r) => t := Stores(o, o, i, f, r);
    case Stamped(f, r, at) =>
      var slot := Slot(at, WallAt(s.epoch, s.now), r, f);
      var s1 := Placed(o, i, Storing(slot));
      TurnTaken(o, o, i, read, s1);
      t := SlotIsStored(o, s1, i, slot, read);
    case Storing(slot) => t := SlotIsStored(o, o, i, slot, read);
  }

  lemma SlotIsStored(o: System, s: System, i: nat, slot: Slot, read: Read) returns (t: System)
    requires Leads(Try, o, s) && i < |s.callers| && s.callers[i] == Storing(slot)
    ensures Leads(Try, o, t) && t.cache == Some(slot)
  {
    t := Advance(s, i, read);
    TurnTaken(o, s, i, read, t);
  }

  /** Exactly the reads in flight can overwrite an invalidation: some continuation stores a
      read that had begun before it if and only if one was in flight. */
  lemma InvalidationOverwrittenExactly(s: System)
    requires Reachable(s)
    ensures (exists t :: Leads(Try, Next(s, Invalidate), t) && t.cache.Some? && t.cache.value.from < Begun(s)) <==>
            ReadInFlight(s)
  {
    if ReadInFlight(s) {
      var i :| 0 <= i < |s.callers| && InFlight(s.callers[i]);
      var t := InFlightIsStored(s, i, Success(None));
    } else {
      forall t | Leads(Try, Next(s, Invalidate), t) && t.cache.Some? ensures t.cache.value.from >= Begun(s) {
        NothingOldIsStored(s, t);
        assert s.holder.Some? && s.holder.value < |s.callers| ==> !InFlight(s.callers[s.holder.value]);
      }
    }
  }

  // ---- Getting the lock at once ----

  /** Where a caller stands that got the lock at once, on the snapshot `seen`, when the cache
      held `beside` and `base` reads had ended. */
  predicate Wins(base: nat, since: nat, i: nat, seen: Option<Slot>, beside: Option<Slot>, s: System) {
    && i < |s.callers| && |s.fetches| >= base && s.now >= since
    && match s.callers[i]
       case Deciding(x, waited) => x == seen && !waited && (s.cache == None || s.cache == beside)
       case Fetching(began, x, waited, found) =>
         && x == seen && !waited && began >= since
         && (found == None || found == beside)
       case Fetched(f, _) => OwnRead(base, since, i, seen, beside, s.fetches, f)
       case Stamped(f, _, _) => OwnRead(base, since, i, seen, beside, s.fetches, f)
       case Storing(slot) => OwnRead(base, since, i, seen, beside, s.fetches, slot.from)
       case Leaving(a) => a.slot == None && OwnRead(base, since, i, seen, beside, s.fetches, a.from)
       case Done(a) => a.slot == None && OwnRead(base, since, i, seen, beside, s.fetches, a.from)
       case _ => false
  }

  /** Read `f` is caller `i`'s own, made on `seen`, beside `beside` or an emptied cache. */
  predicate OwnRead(base: nat, since: nat, i: nat, seen: Option<Slot>, beside: Option<Slot>, fetches: seq<Fetch>,
    f: nat)
  {
    && base <= f < |fetches| && fetches[f].caller == i && fetches[f].seen == seen && !fetches[f].waited
    && fetches[f].began >= since && (fetches[f].beside == None || fetches[f].beside == beside)
  }

  lemma WinsStays(base: nat, since: nat, i: nat, seen: Option<Slot>, beside: Option<Slot>, s: System, e: Event)
    requires Inv(s) && Wins(base, since, i, seen, beside, s) && Can(s, e)
    ensures Wins(base, since, i, seen, beside, Next(s, e))
  {
    if e.Turn? && e.i != i {
      assert Critical(s.callers[e.i]) ==> s.holder == Some(e.i);
      assert Critical(s.callers[i]) ==> s.holder == Some(i);
    }
  }

  lemma WinsForGood(base: nat, since: nat, i: nat, seen: Option<Slot>, beside: Option<Slot>, s: System, t: System)
    requires Inv(s) && Wins(base, since, i, seen, beside, s) && Leads(Try, s, t)
    ensures Wins(base, since, i, seen, beside, t)
  {
    forall u, e | Inv(u) && Wins(base, since, i, seen, beside, u) && Try(u, e).Some?
      ensures Inv(Try(u, e).value) && Wins(base, since, i, seen, beside, Try(u, e).value)
    {
      StepKeeps(u, e);
      WinsStays(base, since, i, seen, beside, u, e);
    }
    LeadsKeeps(Try, (u: System) => Inv(u) && Wins(base, since, i, seen, beside, u), s, t);
  }

  /** A caller with a stale snapshot that gets the lock at once always reads: in every
      continuation its answer is that of a read of its own that began after it got the lock. */
  lemma WinnerAlwaysReads(s: System, i: nat, read: Read, t: System)
    requires Reachable(s) && i < |s.callers| && s.callers[i].Contending? && s.holder == None
    requires Leads(Try, Advance(s, i, read), t) && i < |t.callers| && t.callers[i].Done?
    ensures var a := t.callers[i].answer;
            && a.slot == None && |s.fetches| <= a.from < |t.fetches|
            && t.fetches[a.from].caller == i && !t.fetches[a.from].waited && t.fetches[a.from].began >= s.now
            && (t.fetches[a.from].beside == None || t.fetches[a.from].beside == s.cache)
  {
    ReachableKeeps(s);
    StepKeeps(s, Turn(i, read));
    WinsForGood(|s.fetches|, s.now, i, s.callers[i].seen, s.cache, Advance(s, i, read), t);
  }

  /** So its read can turn out redundant, made beside a fresh value, if and only if the cache
      is fresh as it gets the lock. */
  lemma RedundantExactly(s: System, i: nat, read: Read)
    requires Reachable(s) && i < |s.callers| && s.callers[i].Contending? && s.holder == None
    ensures (exists t :: RedundantAnswer(Advance(s, i, read), i, t)) <==> Current(s.cache, s.now)
  {
    var s1 := Advance(s, i, read);
    if Current(s.cache, s.now) {
      LeadsNowhere(Try, s1);
      var t := FetchesAlone(s1, s1, i, read);
      assert t.fetches[|s.fetches|].beside == s.cache && t.fetches[|s.fetches|].began == s.now;
      assert RedundantAnswer(s1, i, t);
    }
    forall t | RedundantAnswer(s1, i, t) ensures Current(s.cache, s.now) {
      WinnerAlwaysReads(s, i, read, t);
    }
  }

  ghost predicate RedundantAnswer(s: System, i: nat, t: System) {
    && Leads(Try, s, t) && i < |t.callers| && t.callers[i].Done? && t.callers[i].answer.from < |t.fetches|
    && Current(t.fetches[t.callers[i].answer.from].beside, t.fetches[t.callers[i].answer.from].began)
  }

  // ---- While somebody else refreshes ----

  /** A caller that is refused the lock is answered with what it saw at once, as long as that
      credential lives, and for at most eight hours. */
  lemma RefusedIsServed(s: System, i: nat, slot: Slot, other: nat, read: Read)
    requires i < |s.callers| && s.callers[i] == Refused(Some(slot), other) && ExpiryOf(slot.read).Some?
    requires var r := Remaining(ExpiryOf(slot.read).value, slot.wall);
             s.now - slot.at < Min(r, MAX_CACHE_TTL) && r >= CACHE_TTL
    ensures Can(s, Turn(i, read)) && Next(s, Turn(i, read)).callers[i] == Done(ServedFrom(slot, s.now, Some(other)))
  {
    var r := Remaining(ExpiryOf(slot.read).value, slot.wall);
    DeadlinesExactly(slot.read, slot.wall);
    assert MayLast(Min(r, MAX_CACHE_TTL));
  }

  // ---- While the cache is fresh ----

  /** Steps under which the cache goes on to hold `slot`, and `slot` to be fresh. */
  function TryWhileFresh(slot: Slot): (System, Event) -> Option<System> {
    (s: System, e: Event) =>
      if Can(s, e) && Next(s, e).cache == Some(slot) && slot.Fresh(Next(s, e).now) then Some(Next(s, e)) else None
  }

  predicate ServedFresh(slot: Slot, pc: Pc) {
    || pc == Idle || pc == Snapped(Some(slot))
    || (pc.Done? && pc.answer.slot == Some(slot) && pc.answer.read == slot.read && pc.answer.refusedBy == None)
  }

  /** A caller that comes while the cache holds a fresh value, and goes on to, is answered with
      that value: it neither reads the keychain nor waits, whoever holds the lock. */
  lemma FreshIsServed(s: System, t: System, slot: Slot, i: nat)
    requires i < |s.callers| && s.callers[i] == Idle && s.cache == Some(slot) && slot.Fresh(s.now)
    requires Leads(TryWhileFresh(slot), s, t)
    ensures i < |t.callers| && ServedFresh(slot, t.callers[i])
  {
    var keeps := (u: System) =>
      i < |u.callers| && u.cache == Some(slot) && slot.Fresh(u.now) && ServedFresh(slot, u.callers[i]);
    forall u, e | keeps(u) && TryWhileFresh(slot)(u, e).Some? ensures keeps(TryWhileFresh(slot)(u, e).value) {
      FreshStays(slot, i, u, e);
    }
    LeadsKeeps(TryWhileFresh(slot), keeps, s, t);
  }

  lemma FreshStays(slot: Slot, i: nat, s: System, e: Event)
    requires i < |s.callers| && s.cache == Some(slot) && slot.Fresh(s.now)
    requires ServedFresh(slot, s.callers[i]) && Can(s, e)
    ensures i < |Next(s, e).callers| && ServedFresh(slot, Next(s, e).callers[i])
  {
  }

  /** And it is answered as soon as it has taken two steps. */
  lemma FreshAnswersInTwo(s: System, slot: Slot, i: nat, read: Read)
    requires i < |s.callers| && s.callers[i] == Idle && s.cache == Some(slot) && slot.Fresh(s.now)
    ensures Can(s, Turn(i, read)) && Can(Next(s, Turn(i, read)), Turn(i, read))
    ensures Next(Next(s, Turn(i, read)), Turn(i, read)).callers[i] == Done(ServedFrom(slot, s.now, None))
  {
  }
}
