/** Many requests at once over one tracker: sends, and what their guards are told, in any
    order. */
module CacheTraffic {
  import opened Wrappers
  import opened RecencyRun
  import opened RecencyObject
  import opened Analysis
  import opened CacheTrace

  /** A body is sent, or a guard is told something; a guard that is dropped is told `Abandon`
      and then `Complete(None)`. Guards are counted in the order of their sends. */
  datatype Happening =
    | Sent(client: string, a: Analysis, now: nat)
    | Said(guard: nat, op: GuardOp)

  /** How many guards the first `n` happenings made. */
  function Guards(hs: seq<Happening>, n: nat): nat
    requires n <= |hs|
  {
    if n == 0 then 0 else Guards(hs, n - 1) + if hs[n - 1].Sent? then 1 else 0
  }

  /** Happening `k` addresses guard `g`. */
  predicate Addresses(hs: seq<Happening>, k: nat, g: nat)
    requires k < |hs|
  {
    hs[k].Said? && hs[k].guard == g && g < Guards(hs, k)
  }

  /** The first verdict on guard `g` among the first `n` happenings, if there is one. */
  function SettlesOf(hs: seq<Happening>, n: nat, g: nat): seq<bool>
    requires n <= |hs|
  {
    if n == 0 then []
    else if Addresses(hs, n - 1, g) then SettlesAfter(SettlesOf(hs, n - 1, g), hs[n - 1].op)
    else SettlesOf(hs, n - 1, g)
  }

  /** The first line asked of guard `g`, if there is one. */
  function LinesOf(hs: seq<Happening>, n: nat, g: nat): seq<Option<Usage>>
    requires n <= |hs|
  {
    if n == 0 then []
    else if Addresses(hs, n - 1, g) then LinesAfter(LinesOf(hs, n - 1, g), hs[n - 1].op)
    else LinesOf(hs, n - 1, g)
  }

  datatype Which = Prefixes | Toolsets

  function EventOf(which: Which, a: Analysis, now: nat): Event<Key> {
    match which case Prefixes => PrefixEvent(a, now) case Toolsets => ToolsEvent(a, now)
  }

  /** One table after the first `n` happenings; guard `g` owns send number `|r.log| + g + 1`. */
  function TableAfter(which: Which, r: Run<Key>, hs: seq<Happening>, n: nat): Run<Key>
    requires n <= |hs|
  {
    if n == 0 then r
    else
      var before := TableAfter(which, r, hs, n - 1);
      match hs[n - 1]
      case Sent(_, a, now) => Step(before, EventOf(which, a, now))
      case Said(g, op) => if g < Guards(hs, n - 1) then Told(before, |r.log| + g + 1, Verdict(op)) else before
  }

  // ---- The other guards ----

  /** A hold of one send is not touched by a further send, nor by what another was told. */
  lemma HoldStays(r: Run<Key>, ev: Event<Key>, number: nat, hold: Hold, open: bool)
    requires Holding(r, number, hold, open) && (ev.SettleEvent? ==> ev.index != number - 1)
    ensures Holding(Step(r, ev), number, hold, open)
  {
  }

  lemma HoldStaysWhenTold(r: Run<Key>, other: nat, verdict: Option<bool>, number: nat, hold: Hold, open: bool)
    requires Holding(r, number, hold, open) && other > 0 && other != number
    ensures Holding(Told(r, other, verdict), number, hold, open)
  {
    if verdict.Some? {
      HoldStays(r, SettleEvent(other - 1, verdict.value), number, hold, open);
    }
  }

  // ---- All guards of a tracker ----

  /** Every guard is valid, and guard `g` owns send number `base + g + 1`. */
  ghost predicate AllStand(tracker: Tracker, base: nat, guards: seq<InflightGuard>)
    reads tracker, tracker.prefix, tracker.tools, guards
  {
    && tracker.Valid() && tracker.number == base + |guards|
    && forall g :: 0 <= g < |guards| ==>
         && guards[g].tracker == tracker && guards[g].number == base + g + 1
         && guards[g].Stands(tracker.prefix.run, tracker.tools.run)
  }

  /** One guard is told something: all stay valid, and the others do nothing. */
  method Say(tracker: Tracker, ghost base: nat, guards: seq<InflightGuard>, g: nat, op: GuardOp)
    requires AllStand(tracker, base, guards) && g < |guards|
    modifies tracker.prefix, tracker.tools, guards[g]
    ensures AllStand(tracker, base, guards)
    ensures guards[g].settles == SettlesAfter(old(guards[g].settles), op)
    ensures guards[g].lines == LinesAfter(old(guards[g].lines), op)
    ensures tracker.prefix.run == Told(old(tracker.prefix.run), base + g + 1, Verdict(op))
    ensures tracker.tools.run == Told(old(tracker.tools.run), base + g + 1, Verdict(op))
  {
    ghost var prefix, tools := tracker.prefix.run, tracker.tools.run;
    var guard := guards[g];
    guard.Apply(op);
    forall j | 0 <= j < |guards| && j != g ensures guards[j].Stands(tracker.prefix.run, tracker.tools.run) {
      HoldStaysWhenTold(prefix, base + g + 1, Verdict(op), guards[j].number, guards[j].prefix, !guards[j].started);
      HoldStaysWhenTold(tools, base + g + 1, Verdict(op), guards[j].number, guards[j].tools, !guards[j].started);
    }
  }

  /** One more request: all guards stay valid, and do nothing. */
  method Receive(tracker: Tracker, ghost base: nat, guards: seq<InflightGuard>, client: string, a: Analysis, now: nat)
    returns (guard: InflightGuard)
    requires AllStand(tracker, base, guards) && AnalysisFits(tracker.codec, a)
    modifies tracker, tracker.prefix, tracker.tools
    ensures AllStand(tracker, base, guards + [guard])
    ensures fresh(guard) && guard.settles == [] && guard.lines == []
    ensures tracker.prefix.run == Step(old(tracker.prefix.run), PrefixEvent(a, now))
    ensures tracker.tools.run == Step(old(tracker.tools.run), ToolsEvent(a, now))
  {
    ghost var prefix, tools := tracker.prefix.run, tracker.tools.run;
    var trace;
    guard, trace := Admit(tracker, client, a, now);
    forall j | 0 <= j < |guards| ensures guards[j].Stands(tracker.prefix.run, tracker.tools.run) {
      HoldStays(prefix, PrefixEvent(a, now), guards[j].number, guards[j].prefix, !guards[j].started);
      HoldStays(tools, ToolsEvent(a, now), guards[j].number, guards[j].tools, !guards[j].started);
    }
  }

  lemma {:induction false} NothingBefore(hs: seq<Happening>, n: nat, g: nat)
    requires n <= |hs| && g >= Guards(hs, n)
    ensures SettlesOf(hs, n, g) == [] && LinesOf(hs, n, g) == []
  {
    if n > 0 {
      NothingBefore(hs, n - 1, g);
    }
  }

  /** What guard `g` did is what the first `n` happenings said of it. */
  ghost predicate Follows(hs: seq<Happening>, n: nat, guard: InflightGuard, g: nat)
    requires n <= |hs|
    reads guard
  {
    guard.settles == SettlesOf(hs, n, g) && guard.lines == LinesOf(hs, n, g)
  }

  /** Happening `n` changes nothing of what a guard it does not address did. */
  predicate Kept(hs: seq<Happening>, n: nat, g: nat)
    requires n < |hs|
  {
    !Addresses(hs, n, g) ==>
        SettlesOf(hs, n + 1, g) == SettlesOf(hs, n, g) && LinesOf(hs, n + 1, g) == LinesOf(hs, n, g)
  }

  lemma OneMore(hs: seq<Happening>, n: nat, g: nat)
    requires n < |hs|
    ensures Kept(hs, n, g)
    ensures Addresses(hs, n, g) ==> SettlesOf(hs, n + 1, g) == SettlesAfter(SettlesOf(hs, n, g), hs[n].op)
    ensures Addresses(hs, n, g) ==> LinesOf(hs, n + 1, g) == LinesAfter(LinesOf(hs, n, g), hs[n].op)
  {
  }

  ghost predicate AllFollow(hs: seq<Happening>, n: nat, guards: seq<InflightGuard>)
    requires n <= |hs|
    reads guards
  {
    |guards| == Guards(hs, n) && forall g :: 0 <= g < |guards| ==> Follows(hs, n, guards[g], g)
  }

  /** Both tables are what the first `n` happenings made of `prefix` and `tools`. */
  ghost predicate TablesAre(tracker: Tracker, prefix: Run<Key>, tools: Run<Key>, hs: seq<Happening>, n: nat)
    requires n <= |hs|
    reads tracker, tracker.prefix, tracker.tools
  {
    && tracker.prefix.run == TableAfter(Prefixes, prefix, hs, n)
    && tracker.tools.run == TableAfter(Toolsets, tools, hs, n)
  }

  /** The state that the first `n` happenings lead to. */
  ghost predicate Led(tracker: Tracker, prefix: Run<Key>, tools: Run<Key>, guards: seq<InflightGuard>,
      hs: seq<Happening>, n: nat)
    requires n <= |hs|
    reads tracker, tracker.prefix, tracker.tools, guards
  {
    && |prefix.log| == |tools.log| && AllStand(tracker, |prefix.log|, guards)
    && AllFollow(hs, n, guards) && TablesAre(tracker, prefix, tools, hs, n)
  }

  method Hear(tracker: Tracker, ghost prefix: Run<Key>, ghost tools: Run<Key>, guards: seq<InflightGuard>,
      ghost hs: seq<Happening>, ghost n: nat, g: nat, op: GuardOp)
    requires n < |hs| && Led(tracker, prefix, tools, guards, hs, n) && hs[n] == Said(g, op) && g < |guards|
    modifies tracker.prefix, tracker.tools, guards[g]
    ensures Led(tracker, prefix, tools, guards, hs, n + 1)
  {
    Say(tracker, |prefix.log|, guards, g, op);
    forall j | 0 <= j < |guards| ensures Follows(hs, n + 1, guards[j], j) {
      OneMore(hs, n, j);
      assert j != g ==> guards[j] != guards[g];
    }
  }

  method Greet(tracker: Tracker, ghost prefix: Run<Key>, ghost tools: Run<Key>, guards: seq<InflightGuard>,
      ghost hs: seq<Happening>, ghost n: nat, client: string, a: Analysis, now: nat)
    returns (guard: InflightGuard)
    requires n < |hs| && Led(tracker, prefix, tools, guards, hs, n) && hs[n] == Sent(client, a, now)
    requires AnalysisFits(tracker.codec, a)
    modifies tracker, tracker.prefix, tracker.tools
    ensures Led(tracker, prefix, tools, guards + [guard], hs, n + 1) && fresh(guard)
  {
    guard := Receive(tracker, |prefix.log|, guards, client, a, now);
    NewFollows(hs, n, guards, guard);
  }

  /** Any traffic over one tracker: whatever is sent and said in whatever order, every guard
      stays valid, settles at most once, with the first verdict on it, and writes at most one
      line, and both tables are those of the same sends and verdicts, one after the other. */
  method Carry(tracker: Tracker, hs: seq<Happening>) returns (guards: seq<InflightGuard>)
    requires tracker.Valid() && forall k :: 0 <= k < |hs| && hs[k].Sent? ==> AnalysisFits(tracker.codec, hs[k].a)
    modifies tracker, tracker.prefix, tracker.tools
    ensures Led(tracker, old(tracker.prefix.run), old(tracker.tools.run), guards, hs, |hs|)
  {
    ghost var (prefix, tools) := (tracker.prefix.run, tracker.tools.run);
    guards := [];
    for n := 0 to |hs|
      invariant Led(tracker, prefix, tools, guards, hs, n)
      invariant forall g :: 0 <= g < |guards| ==> fresh(guards[g])
    {
      match hs[n] {
        case Sent(client, a, now) =>
          var guard := Greet(tracker, prefix, tools, guards, hs, n, client, a, now);
          guards := guards + [guard];
        case Said(g, op) =>
          if g < |guards| {
            Hear(tracker, prefix, tools, guards, hs, n, g, op);
          } else {
            UnheardFollows(hs, n, guards);
          }
      }
    }
  }

  lemma NewFollows(hs: seq<Happening>, n: nat, guards: seq<InflightGuard>, guard: InflightGuard)
    requires n < |hs| && hs[n].Sent? && AllFollow(hs, n, guards) && guard.settles == [] && guard.lines == []
    ensures AllFollow(hs, n + 1, guards + [guard])
  {
    NothingBefore(hs, n, |guards|);
    forall g | 0 <= g < |guards| + 1 ensures Follows(hs, n + 1, (guards + [guard])[g], g) {
      OneMore(hs, n, g);
    }
  }

  lemma UnheardFollows(hs: seq<Happening>, n: nat, guards: seq<InflightGuard>)
    requires n < |hs| && hs[n].Said? && hs[n].guard >= |guards| && AllFollow(hs, n, guards)
    ensures AllFollow(hs, n + 1, guards)
  {
    forall g | 0 <= g < |guards| ensures Follows(hs, n + 1, guards[g], g) {
      OneMore(hs, n, g);
    }
  }
}
