/** What a run of refreshes does to `auth.json` and to the provider's rotating tokens. */
module CodexTokens {
  import opened Wrappers
  import opened Json
  import opened CodexAuth
  import opened CodexRefresh
  import opened Runs

  const AUTH_JSON := Disk(file => RefreshIn(file), (file, grant, stored) => Persisted(file, grant, stored))

  /** The refresh token of the file after a redemption. */
  function NextToken(r: Redemption): string {
    if r.stored && Issues(r) then r.reply.value.refresh.value else r.presented
  }

  /** The grant rotated the refresh token. */
  predicate Issues(r: Redemption) { r.reply.Some? && r.reply.value.refresh.Some? }

  /** Every field other than the two tokens survives any number of redemptions. */
  lemma {:induction false} FileKeepsTheRest(first: Value, log: seq<Redemption>, n: nat)
    requires n <= |log|
    ensures var file := FileAfter(AUTH_JSON, Some(first), log, n); file.Some? && SameButTokens(first, file.value)
  {
    if n > 0 {
      FileKeepsTheRest(first, log, n - 1);
      var before := FileAfter(AUTH_JSON, Some(first), log, n - 1);
      var r := log[n - 1];
      if r.reply.Some? && Rotate(before.value, r.reply.value).Rotated? {
        RotationKeepsTheRest(before.value, r.reply.value);
        SameIsTransitive(first, before.value, Rotate(before.value, r.reply.value).doc);
      }
    }
  }

  /** So in every reachable state between refreshes the file is the one at the start but for
      its two tokens. */
  lemma FileStaysIntact(t: System, first: Value)
    requires Reachable(t) && t.disk == AUTH_JSON && t.holder == None && t.first == Some(first)
    ensures t.file.Some? && SameButTokens(first, t.file.value)
  {
    InterleavedIsSequential(t, |t.log|);
    FileKeepsTheRest(first, t.log, |t.log|);
  }

  predicate Holds(file: File, access: string, refresh: string) {
    AuthIn(file).Some? && AuthIn(file).value.access == access && AuthIn(file).value.refresh == Some(refresh)
  }

  /** The credentials a redemption leaves in the file. */
  lemma PersistedReadsBack(file: File, r: Redemption)
    requires r.reply.Some? && RefreshIn(file) == Some(r.presented)
    ensures RefreshIn(Persisted(file, r.reply.value, r.stored)) == Some(NextToken(r))
    ensures r.stored ==> Holds(Persisted(file, r.reply.value, r.stored), r.reply.value.access, NextToken(r))
  {
    RotationReadsBack(file.value, r.reply.value);
  }

  lemma TokenAfter(t: System, k: nat)
    requires Reachable(t) && t.disk == AUTH_JSON && k < |t.log|
    ensures RefreshIn(FileAfter(AUTH_JSON, t.first, t.log, k + 1)) == Some(NextToken(t.log[k]))
  {
    InterleavedIsSequential(t, k);
    if t.log[k].reply.Some? {
      PersistedReadsBack(FileAfter(AUTH_JSON, t.first, t.log, k), t.log[k]);
    }
  }

  /** Each redemption presents what the one before it left. */
  lemma PresentedNext(t: System, k: nat)
    requires Reachable(t) && t.disk == AUTH_JSON && k + 1 < |t.log|
    ensures t.log[k + 1].presented == NextToken(t.log[k])
  {
    TokenAfter(t, k);
    InterleavedIsSequential(t, k + 1);
  }

  lemma {:induction false} RefusalsLeaveTheFile(first: File, log: seq<Redemption>, k: nat, n: nat)
    requires k <= n <= |log| && forall j :: k <= j < n ==> log[j].reply.None?
    ensures FileAfter(AUTH_JSON, first, log, n) == FileAfter(AUTH_JSON, first, log, k)
  {
    if k < n {
      RefusalsLeaveTheFile(first, log, k, n - 1);
      assert log[n - 1].reply.None?;
    }
  }

  /** The stored pair is the newest: what the last grant issued, if it was stored, whatever
      was refused since. */
  lemma StoredPairIsNewest(t: System, k: nat)
    requires Reachable(t) && t.disk == AUTH_JSON && t.holder == None && k < |t.log|
    requires t.log[k].reply.Some? && t.log[k].stored && forall j :: k < j < |t.log| ==> t.log[j].reply.None?
    ensures Holds(t.file, t.log[k].reply.value.access, NextToken(t.log[k]))
  {
    InterleavedIsSequential(t, k);
    PersistedReadsBack(FileAfter(AUTH_JSON, t.first, t.log, k), t.log[k]);
    RefusalsLeaveTheFile(t.first, t.log, k + 1, |t.log|);
  }

  // ---- Rotating tokens ----

  /** A provider that rotates on every grant and never issues a token that was presented
      before or is being presented. */
  ghost predicate Rotates(log: seq<Redemption>) {
    forall m :: 0 <= m < |log| && log[m].reply.Some? ==>
      Issues(log[m]) && forall j :: 0 <= j <= m ==> log[m].reply.value.refresh.value != log[j].presented
  }

  /** A token redeemed successfully twice. */
  ghost predicate SpentAgain(log: seq<Redemption>, j: nat, k: nat) {
    j < k < |log| && log[j].reply.Some? && log[k].reply.Some? && log[j].presented == log[k].presented
  }

  /** A grant that was not stored, with a later grant. */
  ghost predicate LostAt(log: seq<Redemption>, j: nat, k: nat) {
    j < k < |log| && log[j].reply.Some? && !log[j].stored && log[k].reply.Some?
  }

  /** Each redemption presents what the one before it left. */
  ghost predicate Chained(log: seq<Redemption>) {
    forall k :: 0 < k < |log| ==> log[k].presented == NextToken(log[k - 1])
  }

  /** While only refusals follow, the same token is presented. */
  lemma {:induction false} PresentedWhileRefused(log: seq<Redemption>, j: nat, k: nat)
    requires Chained(log) && j < k < |log| && forall m :: j < m < k ==> log[m].reply.None?
    ensures log[k].presented == NextToken(log[j])
  {
    if j < k - 1 {
      PresentedWhileRefused(log, j, k - 1);
    }
  }

  /** The last grant before `k`, from `j` on. */
  lemma {:induction false} LastGrant(log: seq<Redemption>, j: nat, k: nat) returns (m: nat)
    requires j < k <= |log| && log[j].reply.Some?
    ensures j <= m < k && log[m].reply.Some? && forall x :: m < x < k ==> log[x].reply.None?
  {
    if log[k - 1].reply.Some? {
      m := k - 1;
    } else {
      m := LastGrant(log, j, k - 1);
    }
  }

  /** The first grant after `j`, up to `k`. */
  lemma {:induction false} FirstGrant(log: seq<Redemption>, j: nat, k: nat) returns (m: nat)
    requires j < k < |log| && log[k].reply.Some?
    ensures j < m <= k && log[m].reply.Some? && forall x :: j < x < m ==> log[x].reply.None?
    decreases k - j
  {
    if log[j + 1].reply.Some? {
      m := j + 1;
    } else {
      m := FirstGrant(log, j + 1, k);
    }
  }

  /** With a provider that rotates, no refresh token is redeemed successfully twice if and
      only if every grant that was followed by another had been stored. */
  lemma RedeemedOnceExactlyWhenStored(t: System)
    requires Reachable(t) && t.disk == AUTH_JSON && Rotates(t.log)
    ensures (exists j, k :: SpentAgain(t.log, j, k)) <==> (exists j, k :: LostAt(t.log, j, k))
  {
    forall k | 0 < k < |t.log| ensures t.log[k].presented == NextToken(t.log[k - 1]) {
      PresentedNext(t, k - 1);
    }
    forall j, k | SpentAgain(t.log, j, k) ensures exists m :: LostAt(t.log, m, k) {
      var m := LastGrant(t.log, j, k);
      PresentedWhileRefused(t.log, m, k);
      assert !t.log[m].stored;
      assert LostAt(t.log, m, k);
    }
    forall j, k | LostAt(t.log, j, k) ensures exists m :: SpentAgain(t.log, j, m) {
      var m := FirstGrant(t.log, j, k);
      PresentedWhileRefused(t.log, j, m);
      assert SpentAgain(t.log, j, m);
    }
  }

  // ---- A lost rotation ----

  lemma TurnTaken(o: System, s: System, i: nat, reply: Reply, stored: bool, t: System)
    requires Leads(Try, o, s) && Can(s, Turn(i, reply, stored)) && t == Advance(s, i, reply, stored)
    ensures Leads(Try, o, t)
  {
    OneStep(Try, s, Turn(i, reply, stored), t);
    LeadsOn(Try, o, s, t);
  }

  predicate Free(s: System, i: nat) { i < |s.callers| && s.callers[i].Idle? && s.holder == None }

  function Placed(s: System, i: nat, pc: Pc): System
    requires i < |s.callers|
  {
    s.(callers := s.callers[i := pc], holder := Some(i))
  }

  /** A caller gets the lock, finds no current memo, and reads the token it will present. */
  lemma Presents(o: System, s: System, i: nat, presented: string) returns (t: System)
    requires Leads(Try, o, s) && Free(s, i) && !Current(s.memo, s.now) && s.disk.refreshIn(s.file) == Some(presented)
    ensures Leads(Try, o, t) && t == Placed(s, i, Redeeming(presented, s.now))
  {
    TurnTaken(o, s, i, None, false, Placed(s, i, Locked));
    TurnTaken(o, Placed(s, i, Locked), i, None, false, Placed(s, i, Checked));
    t := Placed(s, i, Redeeming(presented, s.now));
    TurnTaken(o, Placed(s, i, Checked), i, None, false, t);
  }

  /** The system after one caller redeemed the token of the file, from start to end. */
  function Redeemed(s: System, i: nat, presented: string, grant: Grant, stored: bool): System
    requires i < |s.callers|
  {
    s.(callers := s.callers[i := Done(Access(grant.access, |s.log|))], memo := Some(Memo(s.now, grant.access, |s.log|)),
      file := s.disk.persist(s.file, grant, stored),
      log := s.log + [Redemption(i, presented, s.now, s.now, Some(grant), stored, s.resets)])
  }

  lemma Redeems(o: System, s: System, i: nat, presented: string, grant: Grant, stored: bool)
    requires Leads(Try, o, s) && Free(s, i) && !Current(s.memo, s.now) && s.disk.refreshIn(s.file) == Some(presented)
    ensures Leads(Try, o, Redeemed(s, i, presented, grant, stored))
  {
    var s1 := Presents(o, s, i, presented);
    var s2 := Placed(s, i, Saving(presented, s.now, grant));
    TurnTaken(o, s1, i, Some(grant), stored, s2);
    var s3 := Placed(s, i, Storing(presented, s.now, grant, stored)).(file := s.disk.persist(s.file, grant, stored));
    TurnTaken(o, s2, i, None, stored, s3);
    var t := Redeemed(s, i, presented, grant, stored);
    var s4 := t.(callers := s.callers[i := Leaving(Access(grant.access, |s.log|))], holder := Some(i));
    TurnTaken(o, s3, i, None, stored, s4);
    TurnTaken(o, s4, i, None, stored, t);
  }

  /** A grant a rotating provider may give next to one who presents `presented`. */
  ghost predicate Unspent(log: seq<Redemption>, presented: string, grant: Grant) {
    && grant.refresh.Some? && grant.refresh.value != presented
    && forall j :: 0 <= j < |log| ==> grant.refresh.value != log[j].presented
  }

  /** It does happen: wherever two callers are idle and a refresh token can be read, one
      redeems it without storing the rotation, and once the memo has expired the other
      redeems the same token again. */
  lemma LostRotationIsSpentAgain(s: System, i: nat, j: nat, presented: string, g: Grant, h: Grant)
      returns (t: System)
    requires Reachable(s) && s.disk == AUTH_JSON && Rotates(s.log) && RefreshIn(s.file) == Some(presented)
    requires i != j && Free(s, i) && Free(s, j)
    requires Unspent(s.log, presented, g) && Unspent(s.log, presented, h)
    ensures Leads(Try, s, t) && Reachable(t) && Rotates(t.log) && s.log <= t.log && |t.log| == |s.log| + 2
    ensures LostAt(t.log, |s.log|, |s.log| + 1) && SpentAgain(t.log, |s.log|, |s.log| + 1)
  {
    MemoIsPast(s);
    LeadsNowhere(Try, s);
    var s1 := Expired(s, s);
    Redeems(s, s1, i, presented, g, false);
    var s2 := Redeemed(s1, i, presented, g, false);
    var s3 := Expired(s, s2);
    Redeems(s, s3, j, presented, h, true);
    t := Redeemed(s3, j, presented, h, true);
    ReachableOn(s, t);
    SpentTwice(s.log, s2.log, t.log, presented, g, h);
  }

  lemma MemoIsPast(s: System)
    requires Reachable(s)
    ensures s.memo.Some? ==> s.memo.value.at <= s.now
  {
    ReachableKeeps(s);
  }

  lemma SpentTwice(log: seq<Redemption>, once: seq<Redemption>, twice: seq<Redemption>, presented: string, g: Grant,
      h: Grant)
    requires Rotates(log) && Unspent(log, presented, g) && Unspent(log, presented, h)
    requires |once| == |log| + 1 && log <= once && |twice| == |once| + 1 && once <= twice
    requires twice[|log|].reply == Some(g) && !twice[|log|].stored && twice[|once|].reply == Some(h)
    requires twice[|log|].presented == twice[|once|].presented == presented
    ensures Rotates(twice) && LostAt(twice, |log|, |once|) && SpentAgain(twice, |log|, |once|)
  {
    assert forall k :: 0 <= k < |log| ==> twice[k] == log[k];
  }

  /** Time passes until the memo is no longer current. */
  lemma Expired(o: System, s: System) returns (t: System)
    requires Leads(Try, o, s) && (s.memo.Some? ==> s.memo.value.at <= s.now)
    ensures t == s.(now := s.now + CACHE_TTL) && Leads(Try, o, t) && !Current(t.memo, t.now)
  {
    t := s.(now := s.now + CACHE_TTL);
    OneStep(Try, s, Tick(CACHE_TTL), t);
    LeadsOn(Try, o, s, t);
  }

  lemma ReachableOn(s: System, t: System)
    requires Reachable(s) && Leads(Try, s, t)
    ensures Reachable(t)
  {
    var o :| Starts(o) && Leads(Try, o, s);
    LeadsOn(Try, o, s, t);
  }
}
