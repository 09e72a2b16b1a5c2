/** The refresh of the Codex access token: any number of callers that interleave in single
    steps, each holding one lock across its check, its redemption and its store. */
module CodexRefresh {
  import opened Wrappers
  import opened Json
  import opened CodexAuth
  import opened Runs
  import Freshness

  const CACHE_TTL := Freshness.CACHE_TTL

  /** The memo: when it was stored, the access token, and the redemption it came from. */
  datatype Memo = Memo(at: nat, access: string, from: nat) {
    predicate Fresh(now: nat) { now - at < CACHE_TTL }
  }

  /** What the provider answers: `None` refuses. */
  type Reply = Option<Grant>

  /** What a caller is answered: the access token of redemption `from`; nothing, as the file
      had no refresh token after `after` redemptions; or nothing, as the provider refused
      redemption `redemption`. */
  datatype Answer = Access(access: string, from: nat) | NoToken(after: nat) | Denied(redemption: nat)

  datatype Pc =
    | Idle
    | Locked
    | Checked
    | Redeeming(presented: string, began: nat)
    | Saving(presented: string, began: nat, grant: Grant)
    | Storing(presented: string, began: nat, grant: Grant, stored: bool)
    | Leaving(answer: Answer)
    | Done(answer: Answer)

  /** A finished redemption. `resets` counts how often the memo had been cleared before. */
  datatype Redemption = Redemption(caller: nat, presented: string, began: nat, ended: nat, reply: Reply, stored: bool,
      resets: nat)

  type File = Option<Value>

  /** What the protocol needs of the credentials file: the refresh token in it, and what it
      becomes when a grant is persisted and the file operations succeed or fail. */
  datatype Disk = Disk(refreshIn: File -> Option<string>, persist: (File, Grant, bool) -> File)

  /** `first` is the file at the start. */
  datatype System = System(
    disk: Disk, first: File, now: nat, callers: seq<Pc>, memo: Option<Memo>, holder: Option<nat>,
    file: File, log: seq<Redemption>, resets: nat)

  /** `reply` is the provider's answer and `stored` the outcome of the file operations, where
      the step asks for them. */
  datatype Event = Tick(d: nat) | Reset | Turn(i: nat, reply: Reply, stored: bool)

  predicate Can(s: System, e: Event) {
    match e
    case Tick(_) => true
    case Reset => s.holder == None
    case Turn(i, _, _) => i < |s.callers| && !s.callers[i].Done? && (s.callers[i].Idle? ==> s.holder == None)
  }

  function FromMemo(memo: Memo): Answer { Access(memo.access, memo.from) }

  predicate Current(memo: Option<Memo>, now: nat) { memo.Some? && memo.value.Fresh(now) }

  function Advance(s: System, i: nat, reply: Reply, stored: bool): System
    requires Can(s, Turn(i, reply, stored))
  {
    match s.callers[i]
    case Idle => s.(callers := s.callers[i := Locked], holder := Some(i))
    case Locked =>
      s.(callers := s.callers[i := if Current(s.memo, s.now) then Leaving(FromMemo(s.memo.value)) else Checked])
    case Checked =>
      var token := s.disk.refreshIn(s.file);
      s.(callers := s.callers[i := if token.None? then Leaving(NoToken(|s.log|)) else Redeeming(token.value, s.now)])
    case Redeeming(presented, began) =>
      (match reply
       case None =>
         s.(callers := s.callers[i := Leaving(Denied(|s.log|))],
             log := s.log + [Redemption(i, presented, began, s.now, None, false, s.resets)])
       case Some(grant) => s.(callers := s.callers[i := Saving(presented, began, grant)]))
    case Saving(presented, began, grant) =>
      s.(callers := s.callers[i := Storing(presented, began, grant, stored)],
          file := s.disk.persist(s.file, grant, stored))
    case Storing(presented, began, grant, saved) =>
      s.(callers := s.callers[i := Leaving(Access(grant.access, |s.log|))],
         memo := Some(Memo(s.now, grant.access, |s.log|)),
         log := s.log + [Redemption(i, presented, began, s.now, Some(grant), saved, s.resets)])
    case Leaving(answer) => s.(callers := s.callers[i := Done(answer)], holder := None)
    case Done(_) => s
  }

  function Next(s: System, e: Event): System
    requires Can(s, e)
  {
    match e
    case Tick(d) => s.(now := s.now + d)
    case Reset => s.(memo := None, resets := s.resets + 1)
    case Turn(i, reply, stored) => Advance(s, i, reply, stored)
  }

  // ---- The sequential meaning ----

  /** The file after the first `n` redemptions, one after the other. */
  function FileAfter(disk: Disk, first: File, log: seq<Redemption>, n: nat): File
    requires n <= |log|
  {
    if n == 0 then first
    else
      var before := FileAfter(disk, first, log, n - 1);
      match log[n - 1].reply case None => before case Some(grant) => disk.persist(before, grant, log[n - 1].stored)
  }

  lemma {:induction false} FilePrefix(disk: Disk, first: File, log: seq<Redemption>, r: Redemption, n: nat)
    requires n <= |log|
    ensures FileAfter(disk, first, log + [r], n) == FileAfter(disk, first, log, n)
  {
    if n > 0 {
      FilePrefix(disk, first, log, r, n - 1);
    }
  }

  function FileNow(s: System): File { FileAfter(s.disk, s.first, s.log, |s.log|) }

  // ---- What every step keeps ----

  predicate Critical(pc: Pc) { !pc.Idle? && !pc.Done? }

  predicate Stale(memo: Option<Memo>, now: nat) { memo.Some? ==> memo.value.at + CACHE_TTL <= now }

  /** An answer is what it says: a granted token, a file without one, or the refusal of the
      caller's own redemption. */
  predicate AnswerOk(s: System, i: nat, answer: Answer) {
    match answer
    case Access(access, k) => k < |s.log| && s.log[k].reply.Some? && s.log[k].reply.value.access == access
    case NoToken(n) => n <= |s.log| && s.disk.refreshIn(FileAfter(s.disk, s.first, s.log, n)) == None
    case Denied(k) => k < |s.log| && s.log[k].reply == None && s.log[k].caller == i
  }

  predicate CallerOk(s: System, i: nat, pc: Pc) {
    match pc
    case Idle => true
    case Locked => s.file == FileNow(s)
    case Checked => s.file == FileNow(s) && Stale(s.memo, s.now)
    case Redeeming(presented, began) => CallOk(s, presented, began) && s.file == FileNow(s)
    case Saving(presented, began, _) => CallOk(s, presented, began) && s.file == FileNow(s)
    case Storing(presented, began, grant, stored) =>
      CallOk(s, presented, began) && s.file == s.disk.persist(FileNow(s), grant, stored)
    case Leaving(answer) => s.file == FileNow(s) && AnswerOk(s, i, answer)
    case Done(answer) => AnswerOk(s, i, answer)
  }

  predicate CallOk(s: System, presented: string, began: nat) {
    began <= s.now && NoneAfter(s.log, began) && Stale(s.memo, began) && s.disk.refreshIn(FileNow(s)) == Some(presented)
  }

  predicate NoneAfter(log: seq<Redemption>, began: nat) {
    forall k :: 0 <= k < |log| ==> log[k].ended <= began
  }

  predicate InTurn(log: seq<Redemption>) {
    forall j, k :: 0 <= j < k < |log| ==> log[j].ended <= log[k].began
  }

  predicate LockOk(s: System) {
    && (s.holder.Some? ==> s.holder.value < |s.callers|)
    && (forall i :: 0 <= i < |s.callers| ==> (Critical(s.callers[i]) <==> s.holder == Some(i)))
  }

  /** The memo is the latest grant since the last reset. */
  predicate MemoOk(s: System) {
    && (s.memo.Some? ==> s.memo.value.at <= s.now && GrantedSince(s, s.memo.value.from)
                         && s.log[s.memo.value.from].reply.value.access == s.memo.value.access)
    && (forall k :: 0 <= k < |s.log| && GrantedSince(s, k) ==>
        s.memo.Some? && s.log[k].ended <= s.memo.value.at && k <= s.memo.value.from)
  }

  /** Redemption `k` was granted, and the memo was not cleared since. */
  predicate GrantedSince(s: System, k: int) {
    0 <= k < |s.log| && s.log[k].reply.Some? && s.log[k].resets == s.resets
  }

  predicate Spaced(log: seq<Redemption>) {
    forall j, k :: 0 <= j < k < |log| && log[j].reply.Some? && log[j].resets == log[k].resets ==>
        log[j].ended + CACHE_TTL <= log[k].began
  }

  /** Each redemption presents the token the file holds after those before it. */
  predicate Presented(disk: Disk, first: File, log: seq<Redemption>) {
    forall k :: 0 <= k < |log| ==> PresentedAt(disk, first, log, k)
  }

  predicate PresentedAt(disk: Disk, first: File, log: seq<Redemption>, k: nat)
    requires k < |log|
  {
    disk.refreshIn(FileAfter(disk, first, log, k)) == Some(log[k].presented)
  }

  predicate LogOk(s: System) {
    forall k :: 0 <= k < |s.log| ==> s.log[k].began <= s.log[k].ended <= s.now && s.log[k].resets <= s.resets
  }

  predicate Inv(s: System) {
    && LockOk(s) && MemoOk(s) && InTurn(s.log) && Spaced(s.log) && Presented(s.disk, s.first, s.log) && LogOk(s)
    && (s.holder == None ==> s.file == FileNow(s))
    && (forall i :: 0 <= i < |s.callers| ==> CallerOk(s, i, s.callers[i]))
  }

  lemma {:induction false} FileOf(disk: Disk, first: File, log: seq<Redemption>, more: seq<Redemption>, n: nat)
    requires n <= |log| && log <= more
    ensures FileAfter(disk, first, more, n) == FileAfter(disk, first, log, n)
  {
    if n > 0 {
      FileOf(disk, first, log, more, n - 1);
    }
  }

  lemma AnswerStays(s: System, t: System, i: nat, answer: Answer)
    requires AnswerOk(s, i, answer) && t.disk == s.disk && t.first == s.first && s.log <= t.log
    ensures AnswerOk(t, i, answer)
  {
    if answer.NoToken? {
      FileOf(s.disk, s.first, s.log, t.log, answer.after);
    }
  }

  /** What holds of the others goes on to hold while the holder of the lock acts. */
  lemma OthersStay(s: System, t: System, i: nat)
    requires Inv(s) && i < |s.callers| && (s.holder == None || s.holder == Some(i)) && s.log <= t.log
    requires t.disk == s.disk && t.first == s.first
    requires |t.callers| == |s.callers| && forall j :: 0 <= j < |s.callers| && j != i ==> t.callers[j] == s.callers[j]
    ensures forall j :: 0 <= j < |s.callers| && j != i ==> CallerOk(t, j, t.callers[j])
  {
    forall j | 0 <= j < |s.callers| && j != i ensures CallerOk(t, j, t.callers[j]) {
      assert CallerOk(s, j, s.callers[j]) && !Critical(s.callers[j]);
      if s.callers[j].Done? {
        AnswerStays(s, t, j, s.callers[j].answer);
      }
    }
  }

  /** A step that moves its caller and perhaps the lock. */
  lemma QuietTurn(s: System, i: nat, pc: Pc)
    requires Inv(s) && i < |s.callers| && (s.holder == None || s.holder == Some(i))
    requires CallerOk(s, i, pc) && !pc.Storing? && (s.callers[i].Storing? ==> Critical(pc))
    requires s.file == FileNow(s)
    ensures Inv(s.(callers := s.callers[i := pc], holder := if Critical(pc) then Some(i) else None))
  {
    var t := s.(callers := s.callers[i := pc], holder := if Critical(pc) then Some(i) else None);
    OthersStay(s, t, i);
    assert forall j :: 0 <= j < |s.callers| && j != i ==> !Critical(s.callers[j]);
    assert CallerOk(t, i, pc);
  }

  lemma StillPresented(disk: Disk, first: File, log: seq<Redemption>, r: Redemption, more: seq<Redemption>)
    requires Presented(disk, first, log) && disk.refreshIn(FileAfter(disk, first, log, |log|)) == Some(r.presented)
    requires more == log + [r]
    ensures Presented(disk, first, more)
    ensures FileAfter(disk, first, more, |log|) == FileAfter(disk, first, log, |log|)
  {
    forall k | 0 <= k < |more| ensures PresentedAt(disk, first, more, k) {
      FilePrefix(disk, first, log, r, k);
      if k < |log| {
        assert PresentedAt(disk, first, log, k);
      }
    }
    FilePrefix(disk, first, log, r, |log|);
  }

  lemma StillSpaced(s: System, r: Redemption)
    requires Spaced(s.log) && MemoOk(s) && Stale(s.memo, r.began) && r.resets == s.resets
    ensures Spaced(s.log + [r])
  {
    forall j | 0 <= j < |s.log| && s.log[j].reply.Some? && s.log[j].resets == r.resets
      ensures s.log[j].ended + CACHE_TTL <= r.began
    {
      assert GrantedSince(s, j);
    }
  }

  /** The log grows by the redemption that just ended; a grant becomes the memo. */
  lemma LogGrows(s: System, r: Redemption, t: System)
    requires Presented(s.disk, s.first, s.log) && InTurn(s.log) && Spaced(s.log) && MemoOk(s) && LogOk(s)
    requires CallOk(s, r.presented, r.began) && r.ended == s.now && r.resets == s.resets
    requires t.disk == s.disk && t.first == s.first && t.now == s.now && t.resets == s.resets && t.log == s.log + [r]
    requires t.memo == match r.reply case None => s.memo case Some(grant) => Some(Memo(s.now, grant.access, |s.log|))
    ensures Presented(t.disk, t.first, t.log) && InTurn(t.log) && Spaced(t.log) && LogOk(t) && MemoOk(t)
    ensures FileAfter(t.disk, t.first, t.log, |s.log|) == FileNow(s)
  {
    StillPresented(s.disk, s.first, s.log, r, t.log);
    StillSpaced(s, r);
    assert forall k :: 0 <= k < |s.log| ==> t.log[k] == s.log[k];
    forall k | GrantedSince(t, k) ensures t.memo.Some? && t.log[k].ended <= t.memo.value.at && k <= t.memo.value.from {
      if k < |s.log| {
        assert s.log[k].ended <= s.now && GrantedSince(s, k);
      }
    }
    if s.memo.Some? {
      assert GrantedSince(s, s.memo.value.from);
    }
  }

  lemma RefusedKeeps(s: System, i: nat, presented: string, began: nat)
    requires Inv(s) && i < |s.callers| && s.callers[i] == Redeeming(presented, began)
    ensures Inv(s.(callers := s.callers[i := Leaving(Denied(|s.log|))],
            log := s.log + [Redemption(i, presented, began, s.now, None, false, s.resets)]))
  {
    var r := Redemption(i, presented, began, s.now, None, false, s.resets);
    var t := s.(callers := s.callers[i := Leaving(Denied(|s.log|))], log := s.log + [r]);
    assert CallerOk(s, i, s.callers[i]) && s.holder == Some(i);
    LogGrows(s, r, t);
    OthersStay(s, t, i);
    assert LockOk(t);
    assert t.file == FileNow(t);
    assert CallerOk(t, i, Leaving(Denied(|s.log|)));
  }

  lemma SavingKeeps(s: System, i: nat, stored: bool)
    requires Inv(s) && i < |s.callers| && s.callers[i].Saving?
    ensures var (presented, began, grant) := (s.callers[i].presented, s.callers[i].began, s.callers[i].grant);
            Inv(s.(callers := s.callers[i := Storing(presented, began, grant, stored)],
                file := s.disk.persist(s.file, grant, stored)))
  {
    var (presented, began, grant) := (s.callers[i].presented, s.callers[i].began, s.callers[i].grant);
    var t := s.(callers := s.callers[i := Storing(presented, began, grant, stored)],
        file := s.disk.persist(s.file, grant, stored));
    assert CallerOk(s, i, s.callers[i]) && s.holder == Some(i);
    OthersStay(s, t, i);
    assert CallerOk(t, i, t.callers[i]);
  }

  lemma StoringKeeps(s: System, i: nat, presented: string, began: nat, grant: Grant, saved: bool)
    requires Inv(s) && i < |s.callers| && s.callers[i] == Storing(presented, began, grant, saved)
    ensures Inv(s.(callers := s.callers[i := Leaving(Access(grant.access, |s.log|))],
            memo := Some(Memo(s.now, grant.access, |s.log|)),
                   log := s.log + [Redemption(i, presented, began, s.now, Some(grant), saved, s.resets)]))
  {
    var r := Redemption(i, presented, began, s.now, Some(grant), saved, s.resets);
    var t := s.(callers := s.callers[i := Leaving(Access(grant.access, |s.log|))],
        memo := Some(Memo(s.now, grant.access, |s.log|)), log := s.log + [r]);
    assert CallerOk(s, i, s.callers[i]) && s.holder == Some(i);
    LogGrows(s, r, t);
    OthersStay(s, t, i);
    assert LockOk(t);
    assert t.file == FileNow(t);
    assert t.log[|s.log|] == r;
    assert CallerOk(t, i, Leaving(Access(grant.access, |s.log|)));
  }

  lemma CheckingKeeps(s: System, i: nat, reply: Reply, stored: bool)
    requires Inv(s) && Can(s, Turn(i, reply, stored))
    requires s.callers[i].Idle? || s.callers[i].Locked? || s.callers[i].Checked? || s.callers[i].Leaving?
    ensures Inv(Advance(s, i, reply, stored))
  {
    assert CallerOk(s, i, s.callers[i]);
    match s.callers[i]
    case Idle => QuietTurn(s, i, Locked);
    case Locked =>
      if Current(s.memo, s.now) {
        MemoAnswers(s, i);
        QuietTurn(s, i, Leaving(FromMemo(s.memo.value)));
      } else {
        QuietTurn(s, i, Checked);
      }
    case Checked =>
      var token := s.disk.refreshIn(s.file);
      QuietTurn(s, i, if token.None? then Leaving(NoToken(|s.log|)) else Redeeming(token.value, s.now));
    case Leaving(answer) => QuietTurn(s, i, Done(answer));
  }

  lemma TurnKeeps(s: System, i: nat, reply: Reply, stored: bool)
    requires Inv(s) && Can(s, Turn(i, reply, stored))
    ensures Inv(Advance(s, i, reply, stored))
  {
    match s.callers[i]
    case Redeeming(presented, began) =>
      assert CallerOk(s, i, s.callers[i]);
      match reply {
        case None => RefusedKeeps(s, i, presented, began);
        case Some(grant) => QuietTurn(s, i, Saving(presented, began, grant));
      }
    case Saving(_, _, _) => SavingKeeps(s, i, stored);
    case Storing(presented, began, grant, saved) => StoringKeeps(s, i, presented, began, grant, saved);
    case _ => CheckingKeeps(s, i, reply, stored);
  }

  lemma MemoAnswers(s: System, i: nat)
    requires MemoOk(s) && s.memo.Some?
    ensures AnswerOk(s, i, FromMemo(s.memo.value))
  {
    assert GrantedSince(s, s.memo.value.from);
  }

  lemma ClockKeeps(s: System, d: nat)
    requires Inv(s)
    ensures Inv(s.(now := s.now + d))
  {
    var t := s.(now := s.now + d);
    forall i | 0 <= i < |s.callers| ensures CallerOk(t, i, t.callers[i]) {
      assert CallerOk(s, i, s.callers[i]);
    }
  }

  lemma ResetKeeps(s: System)
    requires Inv(s) && s.holder == None
    ensures Inv(s.(memo := None, resets := s.resets + 1))
  {
    var t := s.(memo := None, resets := s.resets + 1);
    forall i | 0 <= i < |s.callers| ensures CallerOk(t, i, t.callers[i]) {
      assert CallerOk(s, i, s.callers[i]) && !Critical(s.callers[i]);
    }
  }

  /** Every step of every caller, every tick and every reset keeps the invariant. */
  lemma StepKeeps(s: System, e: Event)
    requires Inv(s) && Can(s, e)
    ensures Inv(Next(s, e))
  {
    match e
    case Tick(d) => ClockKeeps(s, d);
    case Reset => ResetKeeps(s);
    case Turn(i, reply, stored) => TurnKeeps(s, i, reply, stored);
  }

  // ---- Runs ----

  predicate Starts(s: System) {
    && s.memo == None && s.holder == None && s.file == s.first && s.log == [] && s.resets == 0
    && forall i :: 0 <= i < |s.callers| ==> s.callers[i] == Idle
  }

  function Try(s: System, e: Event): Option<System> { if Can(s, e) then Some(Next(s, e)) else None }

  ghost predicate Reachable(t: System) { exists s :: Starts(s) && Leads(Try, s, t) }

  /** The invariant holds in every reachable state. */
  lemma ReachableKeeps(t: System)
    requires Reachable(t)
    ensures Inv(t)
  {
    var s :| Starts(s) && Leads(Try, s, t);
    assert Inv(s);
    forall u, e | Inv(u) && Try(u, e).Some? ensures Inv(Try(u, e).value) {
      StepKeeps(u, e);
    }
    LeadsKeeps(Try, Inv, s, t);
  }

  /** Redemptions never overlap; after a grant none begins within `CACHE_TTL` unless the memo
      was cleared in between. */
  lemma RedemptionsAreSpaced(t: System, j: nat, k: nat)
    requires Reachable(t) && j < k < |t.log|
    ensures t.log[j].began <= t.log[j].ended <= t.log[k].began
    ensures t.log[j].reply.Some? && t.log[j].resets == t.log[k].resets ==> t.log[j].ended + CACHE_TTL <= t.log[k].began
  {
    ReachableKeeps(t);
    assert t.log[j].ended <= t.log[k].began;
  }

  /** Whatever the interleaving, the file is the one the redemptions leave one after the
      other, and each presents the refresh token the file holds after those before it. */
  lemma InterleavedIsSequential(t: System, k: nat)
    requires Reachable(t)
    ensures t.holder == None ==> t.file == FileNow(t)
    ensures k < |t.log| ==> t.disk.refreshIn(FileAfter(t.disk, t.first, t.log, k)) == Some(t.log[k].presented)
  {
    ReachableKeeps(t);
    assert k < |t.log| ==> PresentedAt(t.disk, t.first, t.log, k);
  }

  /** Every caller is answered with an access token that was granted, or with nothing because
      the file had no refresh token or because the provider refused the redemption that this
      caller made. */
  lemma AnswersAreGranted(t: System, i: nat)
    requires Reachable(t) && i < |t.callers| && t.callers[i].Done?
    ensures match t.callers[i].answer
            case Access(access, k) => k < |t.log| && t.log[k].reply.Some? && t.log[k].reply.value.access == access
            case NoToken(n) => n <= |t.log| && t.disk.refreshIn(FileAfter(t.disk, t.first, t.log, n)) == None
            case Denied(k) => k < |t.log| && t.log[k].reply == None && t.log[k].caller == i
  {
    ReachableKeeps(t);
    assert CallerOk(t, i, t.callers[i]);
  }

  // ---- In every continuation ----

  /** The caller is, or is about to be, answered in this way. */
  predicate Answered(pc: Pc, answer: Answer) { pc == Leaving(answer) || pc == Done(answer) }

  lemma AnswerIsKept(s: System, t: System, i: nat, answer: Answer)
    requires Leads(Try, s, t) && i < |s.callers| && Answered(s.callers[i], answer)
    ensures i < |t.callers| && Answered(t.callers[i], answer)
  {
    var keeps := (u: System) => i < |u.callers| && Answered(u.callers[i], answer);
    forall u, e | keeps(u) && Try(u, e).Some? ensures keeps(Try(u, e).value) {
      AnswerStands(u, e, i, answer);
    }
    LeadsKeeps(Try, keeps, s, t);
  }

  lemma AnswerStands(s: System, e: Event, i: nat, answer: Answer)
    requires i < |s.callers| && Answered(s.callers[i], answer) && Can(s, e)
    ensures i < |Next(s, e).callers| && Answered(Next(s, e).callers[i], answer)
  {
    if e.Turn? && e.i != i {
      OneMoves(s, e.i, e.reply, e.stored, i);
    }
  }

  /** A caller's turn moves no other caller, and the log only grows. */
  lemma OneMoves(s: System, j: nat, reply: Reply, stored: bool, i: nat)
    requires Can(s, Turn(j, reply, stored)) && i < |s.callers| && i != j
    ensures var t := Advance(s, j, reply, stored);
            |t.callers| == |s.callers| && t.callers[i] == s.callers[i] && s.log <= t.log
  {
  }

  /** A caller whose turn with the lock finds a current memo is answered, in every continuation,
      with the access token of the latest grant since the memo was last cleared. */
  lemma CurrentMemoAnswers(s: System, t: System, i: nat, reply: Reply, stored: bool)
    requires Reachable(s) && i < |s.callers| && s.callers[i] == Locked && Current(s.memo, s.now)
    requires Leads(Try, Next(s, Turn(i, reply, stored)), t)
    ensures exists k :: LatestGrant(s, k) && i < |t.callers|
                        && Answered(t.callers[i], Access(s.log[k].reply.value.access, k))
  {
    ReachableKeeps(s);
    var k := s.memo.value.from;
    assert LatestGrant(s, k);
    AnswerIsKept(Next(s, Turn(i, reply, stored)), t, i, FromMemo(s.memo.value));
  }

  ghost predicate LatestGrant(s: System, k: int) {
    GrantedSince(s, k) && forall j :: GrantedSince(s, j) ==> j <= k
  }

  /** A caller whose redemption was granted is answered, in every continuation, with that very
      grant, whether or not it could be stored. */
  lemma GrantAnswersItsCaller(s: System, t: System, i: nat)
    requires Reachable(s) && i < |s.callers| && s.callers[i].Saving? && Leads(Try, s, t)
    ensures i < |t.callers|
    ensures t.callers[i].Done? ==>
              var a := t.callers[i].answer;
              a.Access? && a.access == s.callers[i].grant.access && a.from < |t.log| && t.log[a.from].caller == i
              && t.log[a.from].reply == Some(s.callers[i].grant) && t.log[a.from].presented == s.callers[i].presented
  {
    var (presented, grant) := (s.callers[i].presented, s.callers[i].grant);
    var keeps := (u: System) => i < |u.callers| && Bound(u, i, presented, grant);
    forall u, e | keeps(u) && Try(u, e).Some? ensures keeps(Try(u, e).value) {
      BoundStays(u, e, i, presented, grant);
    }
    LeadsKeeps(Try, keeps, s, t);
  }

  lemma BoundStays(s: System, e: Event, i: nat, presented: string, grant: Grant)
    requires i < |s.callers| && Bound(s, i, presented, grant) && Can(s, e)
    ensures i < |Next(s, e).callers| && Bound(Next(s, e), i, presented, grant)
  {
    if e.Turn? && e.i != i {
      OneMoves(s, e.i, e.reply, e.stored, i);
    }
  }

  /** The caller is on its way to be answered with this grant. */
  predicate Bound(s: System, i: nat, presented: string, grant: Grant)
    requires i < |s.callers|
  {
    match s.callers[i]
    case Saving(p, _, g) => p == presented && g == grant
    case Storing(p, _, g, _) => p == presented && g == grant
    case Leaving(a) => IsGrant(s, i, presented, grant, a)
    case Done(a) => IsGrant(s, i, presented, grant, a)
    case _ => false
  }

  predicate IsGrant(s: System, i: nat, presented: string, grant: Grant, a: Answer) {
    && a.Access? && a.access == grant.access && a.from < |s.log|
    && s.log[a.from].caller == i && s.log[a.from].reply == Some(grant) && s.log[a.from].presented == presented
  }
}
