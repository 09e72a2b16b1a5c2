/** How long a credential read from the keychain may be reused. Durations and clocks are
    whole milliseconds. */
module Freshness {
  import opened Wrappers

  type i64 = x: int | -0x8000_0000_0000_0000 <= x < 0x8000_0000_0000_0000

  const CACHE_TTL: nat := 60_000
  const MAX_CACHE_TTL: nat := 8 * 60 * 60 * 1000
  const EXPIRY_MARGIN: nat := 5 * 60 * 1000

  datatype Credential = Credential(token: string, expiresAt: Option<i64>)

  /** `Success(None)`: no entry exists. */
  type Read = Result<Option<Credential>, string>

  /** `refreshAfter`: when someone should fetch again; `usableFor`: how long the value at
      hand is still correct. */
  datatype Deadlines = Deadlines(refreshAfter: nat, usableFor: nat)

  function SaturatingSub(a: i64, b: i64): i64 {
    if a - b < -0x8000_0000_0000_0000 then -0x8000_0000_0000_0000
    else if a - b >= 0x8000_0000_0000_0000 then 0x7FFF_FFFF_FFFF_FFFF
    else a - b
  }

  /** The expiry a read carries, if any. */
  function ExpiryOf(read: Read): Option<i64> {
    match read
    case Success(Some(credential)) => credential.expiresAt
    case _ => None
  }

  lemma ExpiryExactly(read: Read, expiresAt: i64)
    ensures ExpiryOf(read) == Some(expiresAt) <==>
            exists c: Credential :: read == Success(Some(c)) && c.expiresAt == Some(expiresAt)
  {
  }

  /** What is left of a credential's life at `nowMs`. */
  function Remaining(expiresAt: i64, nowMs: i64): nat {
    var left := SaturatingSub(expiresAt, nowMs);
    if left < 0 then 0 else left
  }

  /** Never reused for less than `CACHE_TTL` nor more than `MAX_CACHE_TTL`, with a grace of
      at most `EXPIRY_MARGIN`, and none without a known expiry. The value is given up
      before its expiry exactly when it had `CACHE_TTL` to live. The grace is the whole
      margin exactly for a life between six minutes and eight hours; the source's comment
      claims it of every credential. */
  function DeadlinesOf(read: Read, nowMs: i64): (d: Deadlines)
    ensures CACHE_TTL <= d.refreshAfter <= d.usableFor <= MAX_CACHE_TTL
    ensures d.usableFor - d.refreshAfter <= EXPIRY_MARGIN
    ensures ExpiryOf(read) == None ==> d.usableFor == CACHE_TTL
    ensures ExpiryOf(read) != None ==>
            (d.usableFor <= Remaining(ExpiryOf(read).value, nowMs) <==>
                Remaining(ExpiryOf(read).value, nowMs) >= CACHE_TTL)
    ensures ExpiryOf(read) != None ==>
            (d.usableFor - d.refreshAfter == EXPIRY_MARGIN <==>
                CACHE_TTL + EXPIRY_MARGIN <= Remaining(ExpiryOf(read).value, nowMs) <= MAX_CACHE_TTL)
  {
    match ExpiryOf(read)
    case None => Deadlines(CACHE_TTL, CACHE_TTL)
    case Some(expiresAt) =>
      var remaining := Remaining(expiresAt, nowMs);
      var refreshAfter := Min(Max(if remaining < EXPIRY_MARGIN then 0 else remaining - EXPIRY_MARGIN, CACHE_TTL),
          MAX_CACHE_TTL);
      Deadlines(refreshAfter, Max(Min(remaining, MAX_CACHE_TTL), refreshAfter))
  }

  /** What is left is the time to the expiry: nothing once it has come, and no more than the
      clock can tell. */
  lemma RemainingExactly(expiresAt: i64, nowMs: i64)
    ensures Remaining(expiresAt, nowMs) ==
            if expiresAt <= nowMs then 0
            else if expiresAt - nowMs <= 0x7FFF_FFFF_FFFF_FFFF then expiresAt - nowMs
            else 0x7FFF_FFFF_FFFF_FFFF
  {
  }

  /** The longest time a read may be kept that does not exceed `bound`; the floor where even
      that is too long. */
  ghost predicate LongestWithin(d: nat, bound: int) {
    && MayLast(d) && (d <= bound || d == CACHE_TTL)
    && forall x :: MayLast(x) && x <= bound ==> x <= d
  }

  predicate MayLast(d: int) { CACHE_TTL <= d <= MAX_CACHE_TTL }

  /** A credential is usable as long as it lives, and refreshed a margin before; everything
      else is kept for the floor. */
  lemma DeadlinesExactly(read: Read, nowMs: i64)
    ensures var d := DeadlinesOf(read, nowMs);
            match ExpiryOf(read)
            case None => d == Deadlines(CACHE_TTL, CACHE_TTL)
            case Some(expiresAt) =>
              && LongestWithin(d.usableFor, Remaining(expiresAt, nowMs))
              && LongestWithin(d.refreshAfter, Remaining(expiresAt, nowMs) - EXPIRY_MARGIN)
  {
  }

  // ---- At most one invalidation per window ----

  /** `claim_rejection_slot` and its slot. `claims` lists when it was granted. */
  class RejectionGate {
    const cooldown: nat
    var last: Option<nat>
    ghost var claims: seq<nat>

    /** Any two grants are a cooldown apart, and the slot holds the latest. */
    ghost predicate Valid()
      reads this
    {
      && (last == if claims == [] then None else Some(claims[|claims| - 1]))
      && (forall i, j :: 0 <= i < j < |claims| ==> claims[i] + cooldown <= claims[j])
    }

    constructor (cooldown: nat)
      ensures Valid() && claims == [] && this.cooldown == cooldown
    {
      this.cooldown := cooldown;
      last, claims := None, [];
    }

    /** `now` is not before the latest grant: the clock is monotonic. */
    method Claim(now: nat) returns (granted: bool)
      requires Valid() && (last.Some? ==> last.value <= now)
      modifies this
      ensures Valid()
      ensures granted <==> forall i :: 0 <= i < |old(claims)| ==> old(claims)[i] + cooldown <= now
      ensures claims == if granted then old(claims) + [now] else old(claims)
    {
      granted := last.None? || now - last.value >= cooldown;
      if !granted {
        assert claims[|claims| - 1] + cooldown > now;
        return;
      }
      forall i | 0 <= i < |claims| ensures claims[i] + cooldown <= now {
        assert claims[i] <= claims[|claims| - 1];
      }
      last, claims := Some(now), claims + [now];
    }
  }
}
