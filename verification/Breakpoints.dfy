/** The breakpoint layout of a Messages body: which blocks the cached prefix covers, the
    canonical bytes at each breakpoint, and the lifetimes. */
module Breakpoints {
  import opened Wrappers

  datatype Ttl = FiveMin | OneHour

  predicate AtMost(a: Ttl, b: Ttl) { a == b || b == OneHour }

  function Duration(t: Ttl): nat { match t case FiveMin => 300_000 case OneHour => 3_600_000 }

  /** A block of tools or system, or a message: its canonical size and its breakpoint. */
  datatype Part = Part(bytes: nat, bp: Option<Ttl>)

  type Mark = (nat, Ttl)

  /** The breakpoints among the first `n` parts, in order, with their positions. */
  function MarksTo(parts: seq<Part>, n: nat): (r: seq<Mark>)
    requires n <= |parts|
    ensures forall k :: 0 <= k < |r| ==> r[k].0 < n && parts[r[k].0].bp == Some(r[k].1)
    ensures forall j, k :: 0 <= j < k < |r| ==> r[j].0 < r[k].0
    ensures r == [] <==> forall i :: 0 <= i < n ==> parts[i].bp == None
  {
    if n == 0 then []
    else
      match parts[n - 1].bp
      case Some(ttl) => MarksTo(parts, n - 1) + [(n - 1, ttl)]
      case None => MarksTo(parts, n - 1)
  }

  function Marks(parts: seq<Part>): seq<Mark> { MarksTo(parts, |parts|) }

  /** Every breakpoint is listed. */
  lemma {:induction false} MarksComplete(parts: seq<Part>, n: nat, i: nat)
    requires i < n <= |parts| && parts[i].bp.Some?
    ensures (i, parts[i].bp.value) in MarksTo(parts, n)
  {
    if i < n - 1 {
      MarksComplete(parts, n - 1, i);
    }
  }

  function LongestOf(bps: seq<Option<Ttl>>): (r: Option<Ttl>)
    ensures r.None? <==> forall b :: b in bps ==> b == None
    ensures r.Some? ==> r in bps && forall b :: b in bps && b.Some? ==> AtMost(b.value, r.value)
  {
    if |bps| == 0 then None
    else
      assert bps[0] in bps && forall b :: b in bps <==> b == bps[0] || b in bps[1..];
      match (LongestOf(bps[1..]), bps[0])
      case (None, b) => b
      case (Some(t), Some(b)) => if AtMost(b, t) then Some(t) else Some(b)
      case (Some(t), None) => Some(t)
  }

  function Bps(parts: seq<Part>): (r: seq<Option<Ttl>>)
    ensures |r| == |parts| && forall i :: 0 <= i < |r| ==> r[i] == parts[i].bp
  {
    seq(|parts|, i requires 0 <= i < |parts| => parts[i].bp)
  }

  /** The canonical bytes of the first `n` parts. */
  function SizeTo(parts: seq<Part>, n: nat): nat
    requires n <= |parts|
  {
    if n == 0 then 0 else SizeTo(parts, n - 1) + parts[n - 1].bytes
  }

  function Size(parts: seq<Part>): nat { SizeTo(parts, |parts|) }

  lemma {:induction false} SizeGrows(parts: seq<Part>, i: nat, j: nat)
    requires i <= j <= |parts|
    ensures SizeTo(parts, i) <= SizeTo(parts, j)
  {
    if i < j {
      SizeGrows(parts, i, j - 1);
    }
  }

  datatype Layout = Layout(
    bpBytes: seq<nat>,
    bpTtls: seq<Ttl>,
    prefixTools: nat,
    prefixSystem: nat,
    prefixBytes: nat,
    spanBytes: Option<nat>,
    ttl: Option<Ttl>,
    ttlMax: Option<Ttl>)

  function BytesAt(marks: seq<Mark>, parts: seq<Part>, before: nat): (r: seq<nat>)
    requires forall k :: 0 <= k < |marks| ==> marks[k].0 < |parts|
    ensures |r| == |marks| && forall k :: 0 <= k < |r| ==> r[k] == before + SizeTo(parts, marks[k].0 + 1)
  {
    seq(|marks|, k requires 0 <= k < |marks| => before + SizeTo(parts, marks[k].0 + 1))
  }

  function TtlsOf(marks: seq<Mark>): (r: seq<Ttl>)
    ensures |r| == |marks| && forall k :: 0 <= k < |r| ==> r[k] == marks[k].1
  {
    seq(|marks|, k requires 0 <= k < |marks| => marks[k].1)
  }

  function BpBytes(tools: seq<Part>, system: seq<Part>): seq<nat> {
    BytesAt(Marks(tools), tools, 0) + BytesAt(Marks(system), system, Size(tools))
  }

  /** How many tools and how many system blocks the cached prefix covers: up to the last
      breakpoint of the two sections, or all of both. */
  function PrefixExtent(tools: seq<Part>, system: seq<Part>): (e: (nat, nat))
    ensures e.0 <= |tools| && e.1 <= |system|
  {
    var (t, s) := (Marks(tools), Marks(system));
    if |s| > 0 then (|tools|, s[|s| - 1].0 + 1)
    else if |t| > 0 then (t[|t| - 1].0 + 1, 0)
    else (|tools|, |system|)
  }

  function PrefixBytes(tools: seq<Part>, system: seq<Part>): nat {
    var b := BpBytes(tools, system);
    if |b| > 0 then b[|b| - 1] else Size(tools) + Size(system)
  }

  /** Bytes through the last breakpoint anywhere. */
  function SpanBytes(tools: seq<Part>, system: seq<Part>, msgs: seq<Part>, auto: Option<Ttl>): Option<nat> {
    var m := Marks(msgs);
    if auto.Some? then Some(Size(tools) + Size(system) + Size(msgs))
    else if |m| > 0 then Some(Size(tools) + Size(system) + SizeTo(msgs, m[|m| - 1].0 + 1))
    else if |BpBytes(tools, system)| == 0 then None
    else Some(PrefixBytes(tools, system))
  }

  function LayoutOf(tools: seq<Part>, system: seq<Part>, msgs: seq<Part>, auto: Option<Ttl>): Layout {
    var ttls := TtlsOf(Marks(tools)) + TtlsOf(Marks(system));
    Layout(
      BpBytes(tools, system), ttls,
      PrefixExtent(tools, system).0, PrefixExtent(tools, system).1,
      PrefixBytes(tools, system), SpanBytes(tools, system, msgs, auto),
      if |ttls| > 0 then Some(ttls[|ttls| - 1]) else None,
      LongestOf(Bps(tools + system + msgs) + [auto]))
  }

  /** Pushes the breakpoints of one section, behind `before` bytes of earlier sections. */
  method PushMarks(parts: seq<Part>, before: nat, bytes: seq<nat>, ttls: seq<Ttl>)
      returns (bpBytes: seq<nat>, bpTtls: seq<Ttl>)
    ensures bpBytes == bytes + BytesAt(Marks(parts), parts, before)
    ensures bpTtls == ttls + TtlsOf(Marks(parts))
  {
    var marks := Marks(parts);
    bpBytes, bpTtls := bytes, ttls;
    for i := 0 to |marks|
      invariant bpBytes == bytes + BytesAt(marks, parts, before)[..i]
      invariant bpTtls == ttls + TtlsOf(marks)[..i]
    {
      bpBytes, bpTtls := bpBytes + [before + SizeTo(parts, marks[i].0 + 1)], bpTtls + [marks[i].1];
    }
  }

  /** The two push loops that lay out the breakpoints of tools and system. */
  method PushBreakpoints(tools: seq<Part>, system: seq<Part>) returns (bpBytes: seq<nat>, bpTtls: seq<Ttl>)
    ensures bpBytes == BpBytes(tools, system)
    ensures bpTtls == TtlsOf(Marks(tools)) + TtlsOf(Marks(system))
  {
    bpBytes, bpTtls := PushMarks(tools, 0, [], []);
    bpBytes, bpTtls := PushMarks(system, Size(tools), bpBytes, bpTtls);
  }

  // ---- What holds of every body ----

  /** The bytes at the breakpoints parallel their lifetimes and never decrease. */
  lemma BpBytesGrow(tools: seq<Part>, system: seq<Part>, msgs: seq<Part>, auto: Option<Ttl>)
    ensures var l := LayoutOf(tools, system, msgs, auto);
            && |l.bpBytes| == |l.bpTtls|
            && (forall j, k :: 0 <= j <= k < |l.bpBytes| ==> l.bpBytes[j] <= l.bpBytes[k] <= l.prefixBytes)
            && (|l.bpBytes| > 0 ==> l.bpBytes[|l.bpBytes| - 1] == l.prefixBytes)
            && (l.ttl.Some? <==> |l.bpBytes| > 0)
  {
    var b := BpBytes(tools, system);
    forall j, k | 0 <= j <= k < |b| ensures b[j] <= b[k] {
      BpBytesOrdered(tools, system, j, k);
    }
  }

  lemma BpBytesOrdered(tools: seq<Part>, system: seq<Part>, j: nat, k: nat)
    requires j <= k < |BpBytes(tools, system)|
    ensures BpBytes(tools, system)[j] <= BpBytes(tools, system)[k]
  {
    var t, s := Marks(tools), Marks(system);
    if k < |t| {
      SizeGrows(tools, t[j].0 + 1, t[k].0 + 1);
    } else if j < |t| {
      SizeGrows(tools, t[j].0 + 1, |tools|);
    } else {
      SizeGrows(system, s[j - |t|].0 + 1, s[k - |t|].0 + 1);
    }
  }

  /** The prefix size counts exactly the blocks the prefix covers, and no more than tools
      and system hold. */
  lemma PrefixBytesMatchExtent(tools: seq<Part>, system: seq<Part>)
    ensures var (pt, ps) := PrefixExtent(tools, system);
            PrefixBytes(tools, system) == SizeTo(tools, pt) + SizeTo(system, ps) <= Size(tools) + Size(system)
  {
    var (pt, ps) := PrefixExtent(tools, system);
    SizeGrows(tools, pt, |tools|);
    SizeGrows(system, ps, |system|);
  }

  ghost predicate HasBreakpoint(parts: seq<Part>) { exists i :: 0 <= i < |parts| && parts[i].bp.Some? }

  /** The request carries a breakpoint somewhere. */
  ghost predicate HasAny(tools: seq<Part>, system: seq<Part>, msgs: seq<Part>, auto: Option<Ttl>) {
    auto.Some? || HasBreakpoint(tools) || HasBreakpoint(system) || HasBreakpoint(msgs)
  }

  lemma HasBreakpointConcat(a: seq<Part>, b: seq<Part>)
    ensures HasBreakpoint(a + b) <==> HasBreakpoint(a) || HasBreakpoint(b)
  {
    if HasBreakpoint(a) {
      var i :| 0 <= i < |a| && a[i].bp.Some?;
      assert (a + b)[i] == a[i];
    } else if HasBreakpoint(b) {
      var i :| 0 <= i < |b| && b[i].bp.Some?;
      assert (a + b)[|a| + i] == b[i];
    }
  }

  /** The span exists exactly when the request has a breakpoint somewhere, and then covers
      the prefix. */
  lemma SpanCoversPrefix(tools: seq<Part>, system: seq<Part>, msgs: seq<Part>, auto: Option<Ttl>)
    ensures var l := LayoutOf(tools, system, msgs, auto);
            && (l.spanBytes.Some? <==> HasAny(tools, system, msgs, auto))
            && (l.spanBytes.Some? ==> l.prefixBytes <= l.spanBytes.value)
  {
    PrefixBytesMatchExtent(tools, system);
  }

  /** The first `n` parts end at a breakpoint, and none stands behind them. */
  ghost predicate EndsAtLast(parts: seq<Part>, n: nat) {
    0 < n <= |parts| && parts[n - 1].bp.Some? && forall i :: n <= i < |parts| ==> parts[i].bp == None
  }

  lemma LastMarkEnds(parts: seq<Part>)
    requires HasBreakpoint(parts)
    ensures var m := Marks(parts); |m| > 0 && EndsAtLast(parts, m[|m| - 1].0 + 1)
    ensures var m := Marks(parts); parts[m[|m| - 1].0].bp == Some(m[|m| - 1].1)
  {
    var m := Marks(parts);
    forall i | 0 <= i < |parts| && parts[i].bp.Some? ensures i <= m[|m| - 1].0 {
      MarksComplete(parts, |parts|, i);
      var k :| 0 <= k < |m| && m[k] == (i, parts[i].bp.value);
      assert k == |m| - 1 || m[k].0 < m[|m| - 1].0;
    }
  }

  /** The prefix ends at the last breakpoint of tools and system, system coming last, and the
      lifetime of the prefix is that breakpoint's; without one it is all of both. */
  lemma PrefixEndsAtLast(tools: seq<Part>, system: seq<Part>, msgs: seq<Part>, auto: Option<Ttl>)
    ensures var l := LayoutOf(tools, system, msgs, auto);
            if HasBreakpoint(system) then
              l.prefixTools == |tools| && EndsAtLast(system, l.prefixSystem) && l.ttl == system[l.prefixSystem - 1].bp
            else if HasBreakpoint(tools) then
              l.prefixSystem == 0 && EndsAtLast(tools, l.prefixTools) && l.ttl == tools[l.prefixTools - 1].bp
            else l.prefixTools == |tools| && l.prefixSystem == |system| && l.ttl == None
  {
    if HasBreakpoint(system) {
      LastMarkEnds(system);
    } else if HasBreakpoint(tools) {
      LastMarkEnds(tools);
    }
    LastLifetime(Marks(tools), Marks(system));
  }

  lemma LastLifetime(t: seq<Mark>, s: seq<Mark>)
    ensures var ttls := TtlsOf(t) + TtlsOf(s);
            if |s| > 0 then |ttls| > 0 && ttls[|ttls| - 1] == s[|s| - 1].1
            else if |t| > 0 then |ttls| > 0 && ttls[|ttls| - 1] == t[|t| - 1].1
            else ttls == []
  {
  }

  /** The span ends at the last breakpoint anywhere: an automatic one is at the end of the
      messages, then come those of the messages, then the prefix. */
  lemma SpanEndsAtLast(tools: seq<Part>, system: seq<Part>, msgs: seq<Part>, auto: Option<Ttl>)
    ensures var l := LayoutOf(tools, system, msgs, auto);
            if auto.Some? then l.spanBytes == Some(Size(tools) + Size(system) + Size(msgs))
            else if HasBreakpoint(msgs) then
              exists n :: EndsAtLast(msgs, n) && l.spanBytes == Some(Size(tools) + Size(system) + SizeTo(msgs, n))
            else l.spanBytes == if HasBreakpoint(tools) || HasBreakpoint(system) then Some(l.prefixBytes) else None
  {
    if auto.None? && HasBreakpoint(msgs) {
      LastMarkEnds(msgs);
    }
  }

  /** `ttlMax` exists exactly when there is a breakpoint; it is the lifetime of one, and no
      breakpoint lives longer. */
  lemma TtlMaxIsLongest(tools: seq<Part>, system: seq<Part>, msgs: seq<Part>, auto: Option<Ttl>)
    ensures var l := LayoutOf(tools, system, msgs, auto);
            && (l.ttlMax.Some? <==> HasAny(tools, system, msgs, auto))
            && (forall p :: p in tools + system + msgs && p.bp.Some? ==> AtMost(p.bp.value, l.ttlMax.value))
            && (auto.Some? ==> AtMost(auto.value, l.ttlMax.value))
            && (forall t :: t in l.bpTtls ==> AtMost(t, l.ttlMax.value))
            && (l.ttlMax.Some? ==> auto == l.ttlMax || exists p :: p in tools + system + msgs && p.bp == l.ttlMax)
  {
    var l, parts := LayoutOf(tools, system, msgs, auto), tools + system + msgs;
    HasBreakpointConcat(tools, system);
    HasBreakpointConcat(tools + system, msgs);
    LongestOverParts(parts, auto);
    forall t | t in l.bpTtls ensures AtMost(t, l.ttlMax.value) {
      BpTtlIsAPart(tools, system, t);
      var p :| p in tools + system && p.bp == Some(t);
      assert p in parts;
    }
  }

  lemma LongestOverParts(parts: seq<Part>, auto: Option<Ttl>)
    ensures var longest := LongestOf(Bps(parts) + [auto]);
            && (longest.Some? <==> auto.Some? || HasBreakpoint(parts))
            && (forall p :: p in parts && p.bp.Some? ==> longest.Some? && AtMost(p.bp.value, longest.value))
            && (auto.Some? ==> AtMost(auto.value, longest.value))
            && (longest.Some? ==> auto == longest || exists p :: p in parts && p.bp == longest)
  {
    var bps := Bps(parts) + [auto];
    assert bps[|parts|] == auto;
    forall i | 0 <= i < |parts| ensures parts[i].bp in bps {
      assert bps[i] == parts[i].bp;
    }
    assert auto in bps;
    if HasBreakpoint(parts) {
      var i :| 0 <= i < |parts| && parts[i].bp.Some?;
      assert parts[i].bp in bps;
      var k :| 0 <= k < |bps| && bps[k] == LongestOf(bps);
      assert k < |parts| ==> parts[k] in parts && parts[k].bp == LongestOf(bps);
    } else if LongestOf(bps).Some? {
      var i :| 0 <= i < |bps| && bps[i] == LongestOf(bps);
      assert i == |parts|;
    }
  }

  lemma BpTtlIsAPart(tools: seq<Part>, system: seq<Part>, t: Ttl)
    requires t in TtlsOf(Marks(tools)) + TtlsOf(Marks(system))
    ensures exists p :: p in tools + system && p.bp == Some(t)
  {
    if t in TtlsOf(Marks(tools)) {
      var k :| 0 <= k < |Marks(tools)| && TtlsOf(Marks(tools))[k] == t;
      assert tools[Marks(tools)[k].0] in tools + system;
    } else {
      var k :| 0 <= k < |Marks(system)| && TtlsOf(Marks(system))[k] == t;
      assert system[Marks(system)[k].0] in tools + system;
    }
  }
}
