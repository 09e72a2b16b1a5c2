/** The stale-while-revalidate credential cache: any number of callers that interleave in
    single steps over the cache slot and the refresh lock, under a clock that only grows. */
module CredentialCache {
  import opened Wrappers
  import opened Freshness
  import opened Runs

  /** A stored read: when it was stamped, the wall clock its deadlines were computed at, and
      the fetch it came from. */
  datatype Slot = Slot(at: nat, wall: i64, read: Read, from: nat) {
    function Lasts(): Deadlines { DeadlinesOf(read, wall) }

    predicate Fresh(now: nat) { now - at < Lasts().refreshAfter }

    predicate Usable(now: nat) { now - at < Lasts().usableFor }
  }

  /** An answer to a caller: what, when, from which fetch, out of which slot if it was not
      the caller's own fetch, and who held the lock if it was refused. */
  datatype Answer = Answer(read: Read, when: nat, from: nat, slot: Option<Slot>, refusedBy: Option<nat>)

  /** Where a caller stands in the protocol. */
  datatype Pc =
    | Idle
    | Snapped(seen: Option<Slot>)
    | Contending(seen: Option<Slot>)
    | Refused(seen: Option<Slot>, holder: nat)
    | Waiting(seen: Option<Slot>, since: nat)
    | Granted
    | Reread(seen: Option<Slot>)
    | Deciding(seen: Option<Slot>, waited: bool)
    | Fetching(began: nat, seen: Option<Slot>, waited: bool, beside: Option<Slot>)
    | Fetched(fetch: nat, read: Read)
    | Stamped(fetch: nat, read: Read, at: nat)
    | Storing(slot: Slot)
    | Leaving(answer: Answer)
    | Done(answer: Answer)

  /** A call of the keychain that has ended. `seen` is the snapshot it was decided on, `waited`
      whether after waiting for the lock, `beside` what the cache held when it began. */
  datatype Fetch = Fetch(caller: nat, began: nat, ended: nat, read: Read, seen: Option<Slot>, waited: bool,
      beside: Option<Slot>)

  datatype System = System(epoch: nat, now: nat, callers: seq<Pc>, cache: Option<Slot>, holder: Option<nat>,
      fetches: seq<Fetch>)

  const CLOCK_END := 0x8000_0000_0000_0000

  /** The wall clock as the code reads it, an `i64`. */
  function WallAt(epoch: nat, now: nat): i64 {
    if epoch + now < CLOCK_END then epoch + now else (epoch + now + CLOCK_END) % (2 * CLOCK_END) - CLOCK_END
  }

  /** Time passes, the credential is invalidated, or caller `i` takes its next step;
      `read` is the keychain's answer if that step ends a fetch. */
  datatype Event = Tick(d: nat) | Invalidate | Turn(i: nat, read: Read)

  predicate Can(s: System, e: Event) {
    match e
    case Tick(d) => s.epoch + s.now + d < CLOCK_END
    case Invalidate => true
    case Turn(i, _) => i < |s.callers| && !s.callers[i].Done? && (s.callers[i].Waiting? ==> s.holder == None)
  }

  predicate Servable(seen: Option<Slot>, now: nat) { seen.Some? && seen.value.Usable(now) }

  predicate Current(seen: Option<Slot>, now: nat) { seen.Some? && seen.value.Fresh(now) }

  function ServedFrom(slot: Slot, now: nat, refusedBy: Option<nat>): Answer {
    Answer(slot.read, now, slot.from, Some(slot), refusedBy)
  }

  /** The caller's own next step. */
  function Advance(s: System, i: nat, read: Read): System
    requires Can(s, Turn(i, read))
  {
    match s.callers[i]
    case Idle => s.(callers := s.callers[i := Snapped(s.cache)])
    case Snapped(seen) =>
      s.(callers := s.callers[i := if Current(seen, s.now) then Done(ServedFrom(seen.value, s.now, None))
                                   else Contending(seen)])
    case Contending(seen) =>
      if s.holder == None then s.(callers := s.callers[i := Deciding(seen, false)], holder := Some(i))
      else s.(callers := s.callers[i := Refused(seen, s.holder.value)])
    case Refused(seen, other) =>
      s.(callers := s.callers[i := if Servable(seen, s.now) then Done(ServedFrom(seen.value, s.now, Some(other)))
                                   else Waiting(seen, s.now)])
    case Waiting(_, _) => s.(callers := s.callers[i := Granted], holder := Some(i))
    case Granted => s.(callers := s.callers[i := Reread(s.cache)])
    case Reread(seen) =>
      s.(callers := s.callers[i := if Current(seen, s.now) then Leaving(ServedFrom(seen.value, s.now, None))
                                   else Deciding(seen, true)])
    case Deciding(seen, waited) => s.(callers := s.callers[i := Fetching(s.now, seen, waited, s.cache)])
    case Fetching(began, seen, waited, beside) =>
      s.(callers := s.callers[i := Fetched(|s.fetches|, read)],
          fetches := s.fetches + [Fetch(i, began, s.now, read, seen, waited, beside)])
    case Fetched(f, r) => s.(callers := s.callers[i := Stamped(f, r, s.now)])
    case Stamped(f, r, at) => s.(callers := s.callers[i := Storing(Slot(at, WallAt(s.epoch, s.now), r, f))])
    case Storing(slot) => s.(callers := s.callers[i := Leaving(Answer(slot.read, s.now, slot.from, None, None))],
        cache := Some(slot))
    case Leaving(answer) => s.(callers := s.callers[i := Done(answer)], holder := None)
    case Done(_) => s
  }

  function Next(s: System, e: Event): System
    requires Can(s, e)
  {
    match e
    case Tick(d) => s.(now := s.now + d)
    case Invalidate => s.(cache := None)
    case Turn(i, read) => Advance(s, i, read)
  }

  // ---- What every step keeps ----

  /** Between acquiring the refresh lock and dropping it. */
  predicate Critical(pc: Pc) {
    || pc.Granted? || pc.Reread? || pc.Deciding? || pc.Fetching?
    || pc.Fetched? || pc.Stamped? || pc.Storing? || pc.Leaving?
  }

  predicate EndedWith(fetches: seq<Fetch>, f: nat, read: Read, at: nat) {
    f < |fetches| && fetches[f].read == read && fetches[f].ended <= at
  }

  predicate SlotOk(epoch: nat, now: nat, fetches: seq<Fetch>, slot: Slot) {
    EndedWith(fetches, slot.from, slot.read, slot.at) && slot.at <= slot.wall - epoch <= now
  }

  predicate SeenOk(epoch: nat, now: nat, fetches: seq<Fetch>, seen: Option<Slot>) {
    seen.Some? ==> SlotOk(epoch, now, fetches, seen.value)
  }

  predicate AnswerOk(epoch: nat, now: nat, fetches: seq<Fetch>, a: Answer, i: nat) {
    && EndedWith(fetches, a.from, a.read, a.when) && a.when <= now && a.refusedBy != Some(i)
    && (a.slot.Some? ==>
          && a == ServedFrom(a.slot.value, a.when, a.refusedBy)
          && SlotOk(epoch, a.when, fetches, a.slot.value) && a.slot.value.Usable(a.when)
          && (a.refusedBy == None ==> a.slot.value.Fresh(a.when)))
  }

  /** A fetch begins on a stale snapshot; when the cache is fresh beside it, its caller did
      not wait and was overtaken by a store after its snapshot. */
  predicate BeganOk(began: nat, seen: Option<Slot>, waited: bool, beside: Option<Slot>) {
    !Current(seen, began) && (Current(beside, began) ==> !waited && beside != seen)
  }

  predicate NoneAfter(fetches: seq<Fetch>, began: nat) {
    forall k :: 0 <= k < |fetches| ==> fetches[k].ended <= began
  }

  predicate CallerOk(epoch: nat, now: nat, fetches: seq<Fetch>, cache: Option<Slot>, pc: Pc, i: nat) {
    match pc
    case Idle => true
    case Snapped(seen) => SeenOk(epoch, now, fetches, seen)
    case Contending(seen) => SeenOk(epoch, now, fetches, seen) && !Current(seen, now)
    case Refused(seen, other) => SeenOk(epoch, now, fetches, seen) && other != i
    case Waiting(seen, since) => since <= now && !Servable(seen, since)
    case Granted => true
    case Reread(seen) => SeenOk(epoch, now, fetches, seen) && (cache == None || cache == seen)
    case Deciding(seen, waited) =>
      && SeenOk(epoch, now, fetches, seen) && !Current(seen, now)
      && (waited ==> cache == None || cache == seen)
    case Fetching(began, seen, waited, beside) =>
      began <= now && BeganOk(began, seen, waited, beside) && NoneAfter(fetches, began)
    case Fetched(f, read) => EndedWith(fetches, f, read, now)
    case Stamped(f, read, at) => EndedWith(fetches, f, read, at) && at <= now
    case Storing(slot) => SlotOk(epoch, now, fetches, slot)
    case Leaving(a) => AnswerOk(epoch, now, fetches, a, i)
    case Done(a) => AnswerOk(epoch, now, fetches, a, i)
  }

  predicate FetchOk(now: nat, f: Fetch) {
    f.began <= f.ended <= now && BeganOk(f.began, f.seen, f.waited, f.beside)
  }

  /** Fetches follow one another. */
  predicate InTurn(fetches: seq<Fetch>) {
    forall j, k :: 0 <= j < k < |fetches| ==> fetches[j].ended <= fetches[k].began
  }

  predicate LockOk(s: System) {
    && (s.holder.Some? ==> s.holder.value < |s.callers|)
    && (forall i :: 0 <= i < |s.callers| ==> (Critical(s.callers[i]) <==> s.holder == Some(i)))
  }

  predicate Inv(s: System) {
    && s.epoch + s.now < CLOCK_END
    && LockOk(s) && InTurn(s.fetches)
    && (forall k :: 0 <= k < |s.fetches| ==> FetchOk(s.now, s.fetches[k]))
    && SeenOk(s.epoch, s.now, s.fetches, s.cache)
    && (forall i :: 0 <= i < |s.callers| ==> CallerOk(s.epoch, s.now, s.fetches, s.cache, s.callers[i], i))
  }

  /** What holds of a caller goes on to hold while others act. */
  lemma CallerStays(epoch: nat, now: nat, later: nat, fetches: seq<Fetch>, more: seq<Fetch>, cache: Option<Slot>,
      cache': Option<Slot>, pc: Pc, i: nat)
    requires CallerOk(epoch, now, fetches, cache, pc, i) && now <= later && fetches <= more
    requires !Critical(pc) || (fetches == more && (cache' == cache || cache' == None))
    ensures CallerOk(epoch, later, more, cache', pc, i)
  {
  }

  lemma OthersStay(s: System, s': System, i: nat)
    requires Inv(s) && i < |s.callers| && s'.epoch == s.epoch && s'.now == s.now
    requires |s'.callers| == |s.callers| && forall j :: 0 <= j < |s.callers| && j != i ==> s'.callers[j] == s.callers[j]
    requires s.fetches <= s'.fetches
    requires (s'.fetches == s.fetches && s'.cache == s.cache) || s.holder == Some(i)
    ensures forall j :: 0 <= j < |s.callers| && j != i ==>
            CallerOk(s'.epoch, s'.now, s'.fetches, s'.cache, s'.callers[j], j)
  {
    forall j | 0 <= j < |s.callers| && j != i
      ensures CallerOk(s'.epoch, s'.now, s'.fetches, s'.cache, s'.callers[j], j)
    {
      CallerStays(s.epoch, s.now, s.now, s.fetches, s'.fetches, s.cache, s'.cache, s.callers[j], j);
    }
  }

  /** A step that touches nothing but its caller's place, perhaps the lock. */
  lemma QuietTurn(s: System, i: nat, pc: Pc, holder: Option<nat>)
    requires Inv(s) && i < |s.callers|
    requires CallerOk(s.epoch, s.now, s.fetches, s.cache, pc, i)
    requires holder == if Critical(pc) then Some(i) else if Critical(s.callers[i]) then None else s.holder
    requires Critical(pc) && !Critical(s.callers[i]) ==> s.holder == None
    ensures Inv(s.(callers := s.callers[i := pc], holder := holder))
  {
    var s' := s.(callers := s.callers[i := pc], holder := holder);
    OthersStay(s, s', i);
  }

  lemma BeginKeeps(s: System, i: nat, seen: Option<Slot>, waited: bool)
    requires Inv(s) && i < |s.callers| && s.callers[i] == Deciding(seen, waited)
    ensures Inv(s.(callers := s.callers[i := Fetching(s.now, seen, waited, s.cache)]))
  {
    assert CallerOk(s.epoch, s.now, s.fetches, s.cache, s.callers[i], i);
    assert forall k :: 0 <= k < |s.fetches| ==> FetchOk(s.now, s.fetches[k]);
    QuietTurn(s, i, Fetching(s.now, seen, waited, s.cache), s.holder);
  }

  lemma EndKeeps(s: System, i: nat, read: Read)
    requires Inv(s) && i < |s.callers| && s.callers[i].Fetching?
    ensures Inv(Advance(s, i, read))
  {
    var s' := Advance(s, i, read);
    var f := s'.fetches[|s.fetches|];
    assert CallerOk(s.epoch, s.now, s.fetches, s.cache, s.callers[i], i);
    assert FetchOk(s.now, f);
    OthersStay(s, s', i);
  }

  lemma StoreKeeps(s: System, i: nat, slot: Slot)
    requires Inv(s) && i < |s.callers| && s.callers[i] == Storing(slot)
    ensures Inv(s.(callers := s.callers[i := Leaving(Answer(slot.read, s.now, slot.from, None, None))],
            cache := Some(slot)))
  {
    var s' := s.(callers := s.callers[i := Leaving(Answer(slot.read, s.now, slot.from, None, None))],
        cache := Some(slot));
    assert CallerOk(s.epoch, s.now, s.fetches, s.cache, s.callers[i], i);
    OthersStay(s, s', i);
  }

  lemma LookingKeeps(s: System, i: nat, read: Read)
    requires Inv(s) && Can(s, Turn(i, read)) && !Critical(s.callers[i])
    ensures Inv(Next(s, Turn(i, read)))
  {
    assert CallerOk(s.epoch, s.now, s.fetches, s.cache, s.callers[i], i);
    match s.callers[i]
    case Idle => QuietTurn(s, i, Snapped(s.cache), s.holder);
    case Snapped(seen) =>
      var pc := if Current(seen, s.now) then Done(ServedFrom(seen.value, s.now, None)) else Contending(seen);
      QuietTurn(s, i, pc, s.holder);
    case Contending(seen) =>
      if s.holder == None {
        QuietTurn(s, i, Deciding(seen, false), Some(i));
      } else {
        QuietTurn(s, i, Refused(seen, s.holder.value), s.holder);
      }
    case Refused(seen, other) =>
      var served := Servable(seen, s.now);
      var pc := if served then Done(ServedFrom(seen.value, s.now, Some(other))) else Waiting(seen, s.now);
      QuietTurn(s, i, pc, s.holder);
    case Waiting(_, _) => QuietTurn(s, i, Granted, Some(i));
  }

  lemma HoldingKeeps(s: System, i: nat, read: Read)
    requires Inv(s) && Can(s, Turn(i, read)) && Critical(s.callers[i])
    ensures Inv(Next(s, Turn(i, read)))
  {
    assert CallerOk(s.epoch, s.now, s.fetches, s.cache, s.callers[i], i);
    match s.callers[i]
    case Granted => QuietTurn(s, i, Reread(s.cache), s.holder);
    case Reread(seen) =>
      var pc := if Current(seen, s.now) then Leaving(ServedFrom(seen.value, s.now, None)) else Deciding(seen, true);
      QuietTurn(s, i, pc, s.holder);
    case Deciding(seen, waited) => BeginKeeps(s, i, seen, waited);
    case Fetching(_, _, _, _) => EndKeeps(s, i, read);
    case Fetched(f, r) => QuietTurn(s, i, Stamped(f, r, s.now), s.holder);
    case Stamped(f, r, at) => QuietTurn(s, i, Storing(Slot(at, WallAt(s.epoch, s.now), r, f)), s.holder);
    case Storing(slot) => StoreKeeps(s, i, slot);
    case Leaving(answer) => QuietTurn(s, i, Done(answer), None);
  }

  lemma ClockKeeps(s: System, d: nat)
    requires Inv(s) && s.epoch + s.now + d < CLOCK_END
    ensures Inv(s.(now := s.now + d))
  {
    forall i | 0 <= i < |s.callers| ensures CallerOk(s.epoch, s.now + d, s.fetches, s.cache, s.callers[i], i) {
      CallerStays(s.epoch, s.now, s.now + d, s.fetches, s.fetches, s.cache, s.cache, s.callers[i], i);
    }
  }

  lemma InvalidateKeeps(s: System)
    requires Inv(s)
    ensures Inv(s.(cache := None))
  {
    forall i | 0 <= i < |s.callers| ensures CallerOk(s.epoch, s.now, s.fetches, None, s.callers[i], i) {
      CallerStays(s.epoch, s.now, s.now, s.fetches, s.fetches, s.cache, None, s.callers[i], i);
    }
  }

  /** Every step of every caller, every tick and every invalidation keeps the invariant. */
  lemma StepKeeps(s: System, e: Event)
    requires Inv(s) && Can(s, e)
    ensures Inv(Next(s, e))
  {
    match e
    case Tick(d) => ClockKeeps(s, d);
    case Invalidate => InvalidateKeeps(s);
    case Turn(i, read) =>
      if Critical(s.callers[i]) {
        HoldingKeeps(s, i, read);
      } else {
        LookingKeeps(s, i, read);
      }
  }

  // ---- Runs ----

  predicate Starts(s: System) {
    && s.epoch + s.now < CLOCK_END && s.cache == None && s.holder == None && s.fetches == []
    && forall i :: 0 <= i < |s.callers| ==> s.callers[i] == Idle
  }

  function Try(s: System, e: Event): Option<System> { if Can(s, e) then Some(Next(s, e)) else None }

  ghost predicate Reachable(t: System) { exists s :: Starts(s) && Leads(Try, s, t) }

  /** The invariant holds in every reachable state. */
  lemma ReachableKeeps(t: System)
    requires Reachable(t)
    ensures Inv(t)
  {
    var s :| Starts(s) && Leads(Try, s, t);
    forall u, e | Inv(u) && Try(u, e).Some? ensures Inv(Try(u, e).value) {
      StepKeeps(u, e);
    }
    LeadsKeeps(Try, Inv, s, t);
  }

  // ---- Safety of every run ----

  /** No two fetches run at once: each ended before the next began, and while one runs all
      others have ended before it and nobody else is fetching. */
  lemma FetchesNeverOverlap(t: System)
    requires Reachable(t)
    ensures forall j, k :: 0 <= j < k < |t.fetches| ==> t.fetches[j].began <= t.fetches[j].ended <= t.fetches[k].began
    ensures forall i, j :: 0 <= i < |t.callers| && 0 <= j < |t.callers| && i != j ==>
              !(t.callers[i].Fetching? && t.callers[j].Fetching?)
    ensures forall i, k :: 0 <= i < |t.callers| && t.callers[i].Fetching? && 0 <= k < |t.fetches| ==>
            t.fetches[k].ended <= t.callers[i].began
  {
    ReachableKeeps(t);
    forall j, k | 0 <= j < k < |t.fetches| ensures t.fetches[j].began <= t.fetches[j].ended <= t.fetches[k].began {
      assert FetchOk(t.now, t.fetches[j]);
    }
    forall i | 0 <= i < |t.callers| && t.callers[i].Fetching?
      ensures t.holder == Some(i) && NoneAfter(t.fetches, t.callers[i].began)
    {
      assert CallerOk(t.epoch, t.now, t.fetches, t.cache, t.callers[i], i);
    }
  }

  /** Every answer came from a fetch that had ended. */
  lemma AnswersAreFetched(t: System, i: nat)
    requires Reachable(t) && i < |t.callers| && t.callers[i].Done?
    ensures var a := t.callers[i].answer;
            && a.from < |t.fetches| && t.fetches[a.from].read == a.read
            && t.fetches[a.from].ended <= a.when
  {
    ReachableKeeps(t);
    assert CallerOk(t.epoch, t.now, t.fetches, t.cache, t.callers[i], i);
  }

  /** Whoever waits held nothing usable when it began to wait. */
  lemma UsableNeverWaits(t: System, i: nat)
    requires Reachable(t) && i < |t.callers| && t.callers[i].Waiting?
    ensures !Servable(t.callers[i].seen, t.callers[i].since)
  {
    ReachableKeeps(t);
    assert CallerOk(t.epoch, t.now, t.fetches, t.cache, t.callers[i], i);
  }

  /** A value past its refresh deadline is served only to a caller that was refused the
      lock while somebody else held it to refresh. */
  lemma StaleOnlyWhileRefreshed(t: System, i: nat)
    requires Reachable(t) && i < |t.callers| && t.callers[i].Done? && t.callers[i].answer.slot.Some?
    requires !t.callers[i].answer.slot.value.Fresh(t.callers[i].answer.when)
    ensures t.callers[i].answer.refusedBy.Some? && t.callers[i].answer.refusedBy.value != i
  {
    ReachableKeeps(t);
    assert CallerOk(t.epoch, t.now, t.fetches, t.cache, t.callers[i], i);
  }

  /** The keychain is read only on a snapshot that was stale. It is read beside a fresh cache
      only by a caller that got the lock without waiting and was overtaken: another caller
      stored after its snapshot. */
  lemma ReadOnlyWhenStaleOrOvertaken(t: System, k: nat)
    requires Reachable(t) && k < |t.fetches|
    ensures var f := t.fetches[k];
            && !Current(f.seen, f.began)
            && (Current(f.beside, f.began) ==> !f.waited && f.beside != f.seen)
  {
    ReachableKeeps(t);
    assert FetchOk(t.now, t.fetches[k]);
  }

  /** A caller that holds a stored read begins no other before that one is due: for a
      credential that had `r` left to live and more than the floor and the margin, not before
      the margin ahead of its expiry, or eight hours later. */
  lemma ReadsKeepTheirDistance(t: System, k: nat, slot: Slot)
    requires Reachable(t) && k < |t.fetches| && t.fetches[k].seen == Some(slot)
    ensures t.fetches[k].began >= slot.at + 60 * 1000
    ensures ExpiryOf(slot.read).Some? ==>
              var r := Remaining(ExpiryOf(slot.read).value, slot.wall);
              r >= 6 * 60 * 1000 ==>
                t.fetches[k].began >= slot.at + Min(r - 5 * 60 * 1000, 8 * 60 * 60 * 1000)
  {
    ReadOnlyWhenStaleOrOvertaken(t, k);
    if ExpiryOf(slot.read).Some? {
      var r := Remaining(ExpiryOf(slot.read).value, slot.wall);
      DeadlinesExactly(slot.read, slot.wall);
      assert r >= CACHE_TTL + EXPIRY_MARGIN ==> MayLast(Min(r - EXPIRY_MARGIN, MAX_CACHE_TTL));
    }
  }

  // ---- Every caller is answered ----

  /** How many steps a caller has ahead of it at most. */
  function StepsLeft(pc: Pc): nat {
    match pc
    case Idle => 13
    case Snapped(_) => 12
    case Contending(_) => 11
    case Refused(_, _) => 10
    case Waiting(_, _) => 9
    case Granted => 8
    case Reread(_) => 7
    case Deciding(_, _) => 6
    case Fetching(_, _, _, _) => 5
    case Fetched(_, _) => 4
    case Stamped(_, _, _) => 3
    case Storing(_) => 2
    case Leaving(_) => 1
    case Done(_) => 0
  }

  function AllStepsLeft(callers: seq<Pc>, n: nat): nat
    requires n <= |callers|
  {
    if n == 0 then 0 else AllStepsLeft(callers, n - 1) + StepsLeft(callers[n - 1])
  }

  lemma {:induction false} OneChanges(a: seq<Pc>, b: seq<Pc>, i: nat, n: nat)
    requires n <= |a| == |b| && forall j :: 0 <= j < n && j != i ==> a[j] == b[j]
    ensures AllStepsLeft(b, n) == AllStepsLeft(a, n) + (if i < n then StepsLeft(b[i]) - StepsLeft(a[i]) else 0)
  {
    if n > 0 {
      OneChanges(a, b, i, n - 1);
    }
  }

  function Turns(es: seq<Event>, n: nat): nat
    requires n <= |es|
  {
    if n == 0 then 0 else Turns(es, n - 1) + if es[n - 1].Turn? then 1 else 0
  }

  lemma TurnCounts(s: System, i: nat, read: Read)
    requires Can(s, Turn(i, read))
    ensures var t := Advance(s, i, read);
            |t.callers| == |s.callers| && AllStepsLeft(t.callers, |t.callers|) < AllStepsLeft(s.callers, |s.callers|)
  {
    var callers := Advance(s, i, read).callers;
    assert StepsLeft(callers[i]) < StepsLeft(s.callers[i]) && callers == s.callers[i := callers[i]];
    OneChanges(s.callers, callers, i, |callers|);
  }

  /** No run loops: the callers take no more turns than they had steps ahead. */
  lemma {:induction false} TurnsAreBounded(s: System, es: seq<Event>, n: nat)
    requires n <= |es| && After(Try, s, es, n).Some?
    ensures var t := After(Try, s, es, n).value;
            && |t.callers| == |s.callers|
            && Turns(es, n) + AllStepsLeft(t.callers, |t.callers|) <= AllStepsLeft(s.callers, |s.callers|)
  {
    if n > 0 {
      TurnsAreBounded(s, es, n - 1);
      var t := After(Try, s, es, n - 1).value;
      if es[n - 1].Turn? {
        TurnCounts(t, es[n - 1].i, es[n - 1].read);
      }
    }
  }

  /** No deadlock: while a caller has no answer, some caller can take a turn. With the
      bound on turns, every caller is answered once no turn is left to take. */
  lemma NeverStuck(t: System, i: nat, read: Read) returns (mover: nat)
    requires Reachable(t) && i < |t.callers| && !t.callers[i].Done?
    ensures Can(t, Turn(mover, read))
  {
    ReachableKeeps(t);
    mover := if t.callers[i].Waiting? && t.holder.Some? then t.holder.value else i;
    assert Critical(t.callers[mover]) <==> t.holder == Some(mover);
  }

  // ---- How old an answer can be ----

  /** A credential that had `CACHE_TTL` to live when its deadlines were computed is never
      served out of the cache at its expiry or later; and nothing is served out of it once
      `MAX_CACHE_TTL` old. */
  lemma ServedBeforeExpiry(t: System, i: nat)
    requires Reachable(t) && i < |t.callers| && t.callers[i].Done? && t.callers[i].answer.slot.Some?
    ensures var (a, slot) := (t.callers[i].answer, t.callers[i].answer.slot.value);
            && slot.at <= a.when < slot.at + MAX_CACHE_TTL
            && (ExpiryOf(a.read) != None && Remaining(ExpiryOf(a.read).value, slot.wall) >= CACHE_TTL ==>
                t.epoch + a.when < ExpiryOf(a.read).value)
  {
    ReachableKeeps(t);
    assert CallerOk(t.epoch, t.now, t.fetches, t.cache, t.callers[i], i);
  }

  // ---- Runs that exist ----

  /** One turn of caller `i`, as it shows, on a run from `o`. */
  lemma TurnTaken(o: System, s: System, i: nat, read: Read, t: System)
    requires Leads(Try, o, s) && Can(s, Turn(i, read)) && t == Advance(s, i, read)
    ensures Leads(Try, o, t)
  {
    OneStep(Try, s, Turn(i, read), t);
    LeadsOn(Try, o, s, t);
  }

  function Placed(s: System, i: nat, pc: Pc): System
    requires i < |s.callers|
  {
    s.(callers := s.callers[i := pc])
  }

  lemma Fetches(o: System, s: System, i: nat, read: Read) returns (t: System)
    requires Leads(Try, o, s) && i < |s.callers| && s.callers[i].Deciding?
    ensures Leads(Try, o, t) && t == s.(callers := t.callers, fetches := t.fetches)
    ensures t.callers == s.callers[i := Fetched(|s.fetches|, read)]
    ensures t.fetches == s.fetches + [Fetch(i, s.now, s.now, read, s.callers[i].seen, s.callers[i].waited, s.cache)]
  {
    var s1 := Placed(s, i, Fetching(s.now, s.callers[i].seen, s.callers[i].waited, s.cache));
    TurnTaken(o, s, i, read, s1);
    t := Advance(s1, i, read);
    TurnTaken(o, s1, i, read, t);
  }

  lemma Stores(o: System, s: System, i: nat, f: nat, read: Read) returns (t: System)
    requires Leads(Try, o, s) && i < |s.callers| && s.callers[i] == Fetched(f, read)
    ensures Leads(Try, o, t) && t == s.(callers := t.callers, cache := t.cache)
    ensures t.cache == Some(Slot(s.now, WallAt(s.epoch, s.now), read, f))
    ensures t.callers == s.callers[i := Leaving(Answer(read, s.now, f, None, None))]
  {
    var s1 := Placed(s, i, Stamped(f, read, s.now));
    TurnTaken(o, s, i, read, s1);
    var slot := Slot(s.now, WallAt(s.epoch, s.now), read, f);
    var s2 := Placed(s1, i, Storing(slot));
    TurnTaken(o, s1, i, read, s2);
    t := Placed(s2, i, Leaving(Answer(read, s.now, f, None, None))).(cache := Some(slot));
    TurnTaken(o, s2, i, read, t);
    assert t.callers == s.callers[i := Leaving(Answer(read, s.now, f, None, None))];
  }

  lemma Leaves(o: System, s: System, i: nat, answer: Answer, read: Read)
    requires Leads(Try, o, s) && i < |s.callers| && s.callers[i] == Leaving(answer)
    ensures Leads(Try, o, s.(callers := s.callers[i := Done(answer)], holder := None))
  {
    TurnTaken(o, s, i, read, s.(callers := s.callers[i := Done(answer)], holder := None));
  }

  /** Caller `i`, having decided to fetch, does so undisturbed. */
  lemma FetchesAlone(o: System, s: System, i: nat, read: Read) returns (t: System)
    requires Leads(Try, o, s) && i < |s.callers| && s.callers[i].Deciding?
    ensures Leads(Try, o, t) && t.epoch == s.epoch && t.now == s.now && t.holder == None
    ensures t.cache == Some(Slot(s.now, WallAt(s.epoch, s.now), read, |s.fetches|))
    ensures t.callers == s.callers[i := Done(Answer(read, s.now, |s.fetches|, None, None))]
    ensures t.fetches == s.fetches + [Fetch(i, s.now, s.now, read, s.callers[i].seen, s.callers[i].waited, s.cache)]
  {
    var answer := Answer(read, s.now, |s.fetches|, None, None);
    var s1 := Fetches(o, s, i, read);
    var s2 := Stores(o, s1, i, |s.fetches|, read);
    assert s2.callers == s.callers[i := Leaving(answer)];
    Leaves(o, s2, i, answer, read);
    t := s2.(callers := s.callers[i := Done(answer)], holder := None);
    assert t.callers == s2.callers[i := Done(answer)];
  }

  /** Caller `i` finds nothing in the cache and the lock free. */
  lemma DecidesAlone(o: System, s: System, i: nat, read: Read) returns (t: System)
    requires Leads(Try, o, s) && i < |s.callers| && s.callers[i] == Idle && s.cache == None && s.holder == None
    ensures Leads(Try, o, t) && t == s.(callers := t.callers, holder := Some(i))
    ensures t.callers == s.callers[i := Deciding(None, false)]
  {
    var s1 := Placed(s, i, Snapped(None));
    TurnTaken(o, s, i, read, s1);
    var s2 := Placed(s1, i, Contending(None));
    TurnTaken(o, s1, i, read, s2);
    t := Placed(s2, i, Deciding(None, false)).(holder := Some(i));
    TurnTaken(o, s2, i, read, t);
    assert t.callers == s.callers[i := Deciding(None, false)];
  }

  ghost predicate ServedLate(t: System, i: nat, read: Read, wall: i64) {
    && i < |t.callers| && t.callers[i].Done? && t.callers[i].answer.slot.Some?
    && t.callers[i].answer.read == read && t.callers[i].answer.slot.value.wall == wall
    && ExpiryOf(read).Some? && t.epoch + t.callers[i].answer.when >= ExpiryOf(read).value
  }

  /** Caller `i` finds a slot and is served from it `d` later. */
  lemma ServedLater(o: System, s: System, i: nat, slot: Slot, d: nat, read: Read) returns (t: System)
    requires Leads(Try, o, s) && i < |s.callers| && s.callers[i] == Idle && s.cache == Some(slot)
    requires slot.Fresh(s.now + d) && s.epoch + s.now + d < CLOCK_END
    ensures Leads(Try, o, t) && t.epoch == s.epoch && |t.callers| == |s.callers|
    ensures t.callers[i] == Done(ServedFrom(slot, s.now + d, None))
  {
    var s1 := Placed(s, i, Snapped(Some(slot)));
    TurnTaken(o, s, i, read, s1);
    var s2 := s1.(now := s.now + d);
    TimePasses(o, s1, d, s2);
    t := Placed(s2, i, Done(ServedFrom(slot, s.now + d, None)));
    TurnTaken(o, s2, i, read, t);
  }

  lemma TimePasses(o: System, s: System, d: nat, t: System)
    requires Leads(Try, o, s) && Can(s, Tick(d)) && t == s.(now := s.now + d)
    ensures Leads(Try, o, t)
  {
    OneStep(Try, s, Tick(d), t);
    LeadsOn(Try, o, s, t);
  }

  lemma ShortLivedServedLate(read: Read, wall: i64) returns (t: System)
    requires ExpiryOf(read).Some? && 0 <= wall && wall + CACHE_TTL < CLOCK_END
    requires Remaining(ExpiryOf(read).value, wall) < CACHE_TTL
    ensures Reachable(t) && ServedLate(t, 1, read, wall)
  {
    var s := System(wall, 0, [Idle, Idle], None, None, []);
    LeadsNowhere(Try, s);
    var s1 := DecidesAlone(s, s, 0, read);
    var s2 := FetchesAlone(s, s1, 0, read);
    t := ServedLater(s, s2, 1, Slot(0, wall, read, 0), CACHE_TTL - 1, read);
    assert Starts(s) && Leads(Try, s, t);
  }

  /** The condition is exact: a credential fetched with less than `CACHE_TTL` to live is,
      on some run, served out of the cache at its expiry or later. */
  lemma ServedLateExactly(read: Read, wall: i64)
    requires ExpiryOf(read).Some? && 0 <= wall && wall + CACHE_TTL < CLOCK_END
    ensures (exists t, i :: Reachable(t) && ServedLate(t, i, read, wall)) <==>
            Remaining(ExpiryOf(read).value, wall) < CACHE_TTL
  {
    forall t, i | Reachable(t) && ServedLate(t, i, read, wall)
      ensures Remaining(ExpiryOf(read).value, wall) < CACHE_TTL
    {
      ServedBeforeExpiry(t, i);
    }
    if Remaining(ExpiryOf(read).value, wall) < CACHE_TTL {
      var t := ShortLivedServedLate(read, wall);
    }
  }

  /** The caller that gets the lock at once does not look at the cache again: of any two
      callers that find it empty, both can fetch, the second beside the value the first has
      just stored. */
  lemma OvertakenFetchesAgain(s: System, i: nat, j: nat, read: Read) returns (t: System)
    requires i < |s.callers| && j < |s.callers| && i != j
    requires s.callers[i] == Idle && s.callers[j] == Idle && s.cache == None && s.holder == None
    ensures Leads(Try, s, t) && |t.fetches| == |s.fetches| + 2
    ensures var f := t.fetches[|s.fetches| + 1]; Current(f.beside, f.began) && f.beside.value.from == |s.fetches|
  {
    LeadsNowhere(Try, s);
    var s1 := Placed(s, i, Snapped(None));
    TurnTaken(s, s, i, read, s1);
    var s2 := DecidesAlone(s, s1, j, read);
    var s3 := FetchesAlone(s, s2, j, read);
    assert s3.callers[i] == Snapped(None);
    t := FetchesOvertaken(s, s3, i, read);
    assert t.fetches[|s.fetches| + 1] == Fetch(i, s.now, s.now, read, None, false, s3.cache);
    assert s3.cache.value.Fresh(s.now);
  }

  /** A caller whose snapshot was empty fetches once the lock is free, whatever the cache
      holds by then. */
  lemma FetchesOvertaken(o: System, s: System, i: nat, read: Read) returns (t: System)
    requires Leads(Try, o, s) && i < |s.callers| && s.callers[i] == Snapped(None) && s.holder == None
    ensures Leads(Try, o, t) && t.fetches == s.fetches + [Fetch(i, s.now, s.now, read, None, false, s.cache)]
  {
    var s1 := Placed(s, i, Contending(None));
    TurnTaken(o, s, i, read, s1);
    var s2 := Placed(s1, i, Deciding(None, false)).(holder := Some(i));
    TurnTaken(o, s1, i, read, s2);
    t := Fetches(o, s2, i, read);
  }
}
