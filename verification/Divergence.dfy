/** Where a request first differs from the previous one by the same client and model. */
module Divergence {
  import opened Wrappers

  const TOOLS_HASH_CAP := 1024
  const SYSTEM_HASH_CAP := 64
  const MSGS_HASH_CAP := 4096

  /** A hash sequence capped at `cap` entries; what lies beyond is folded into one hash. */
  datatype Folded = Folded(head: seq<nat>, tail: Option<nat>, total: nat)

  function Fold(hashes: seq<nat>, cap: nat, fold: seq<nat> -> nat): Folded {
    if |hashes| <= cap then Folded(hashes, None, |hashes|)
    else Folded(hashes[..cap], Some(fold(hashes[cap..])), |hashes|)
  }

  datatype SeqDiff =
    | Same
    | DiffersAt(index: nat)
    | Tail
    | Count(shared: nat, curMore: bool)

  /** The first index from `from` at which the two differ, or `n`. */
  function FirstDifference<T(==)>(a: seq<T>, b: seq<T>, from: nat, n: nat): (i: nat)
    requires from <= n <= Min(|a|, |b|)
    ensures from <= i <= n
    ensures forall k :: from <= k < i ==> a[k] == b[k]
    ensures i < n ==> a[i] != b[i]
    decreases n - from
  {
    if from == n || a[from] != b[from] then from else FirstDifference(a, b, from + 1, n)
  }

  function Diff(prev: Folded, cur: Folded, cap: nat): SeqDiff {
    var n := Min(|prev.head|, |cur.head|);
    var i := FirstDifference(prev.head, cur.head, 0, n);
    if i < n then DiffersAt(i)
    else if prev.total != cur.total then
      var shared := Min(prev.total, cur.total);
      if shared >= cap then Tail else Count(shared, cur.total > prev.total)
    else if prev.tail != cur.tail then Tail
    else Same
  }

  /** The two have the same first `i` elements. */
  ghost predicate AgreeTo<T>(p: seq<T>, c: seq<T>, i: nat) {
    i <= |p| && i <= |c| && forall k :: 0 <= k < i ==> p[k] == c[k]
  }

  /** `i` is where two full sequences first differ. */
  ghost predicate DifferFirstAt<T>(p: seq<T>, c: seq<T>, i: nat) {
    i < |p| && i < |c| && AgreeTo(p, c, i) && p[i] != c[i]
  }

  /** The two folded tails do not collide. */
  ghost predicate FoldKeeps(fold: seq<nat> -> nat, p: seq<nat>, c: seq<nat>, cap: nat) {
    |p| > cap && |c| > cap && fold(p[cap..]) == fold(c[cap..]) ==> p[cap..] == c[cap..]
  }

  /** The capped comparison says what a comparison of the full sequences would: the first
      differing index when it lies below the cap, a count exactly when one is a proper
      prefix shorter than the cap, `Same` exactly on equal ones, and otherwise `Tail`.
      Only the two folded tails must not collide. */
  lemma DiffAgreesWithFull(p: seq<nat>, c: seq<nat>, cap: nat, fold: seq<nat> -> nat)
    requires FoldKeeps(fold, p, c, cap)
    ensures var d := Diff(Fold(p, cap, fold), Fold(c, cap, fold), cap);
            && (forall i: nat :: d == DiffersAt(i) <==> i < cap && DifferFirstAt(p, c, i))
            && (d.Count? <==> |p| != |c| && Min(|p|, |c|) < cap && AgreeTo(p, c, Min(|p|, |c|)))
            && (d.Count? ==> d.shared == Min(|p|, |c|) && d.curMore == (|c| > |p|))
            && (d.Same? <==> p == c)
            && (d.Tail? <==> p != c && AgreeTo(p, c, cap))
  {
    var (fp, fc) := (Fold(p, cap, fold), Fold(c, cap, fold));
    var n := Min(|fp.head|, |fc.head|);
    assert n == Min(cap, Min(|p|, |c|));
    var i := FirstDifference(fp.head, fc.head, 0, n);
    assert AgreeTo(p, c, i);
    if i < n {
      assert DifferFirstAt(p, c, i);
    } else if |p| == |c| && |p| > cap {
      EqualByParts(p, c, cap);
    }
  }

  lemma EqualByParts<T>(p: seq<T>, c: seq<T>, cap: nat)
    requires AgreeTo(p, c, cap)
    ensures p == c <==> p[cap..] == c[cap..]
  {
    if p[cap..] == c[cap..] {
      assert p[..cap] == c[..cap];
      assert p == p[..cap] + p[cap..] && c == c[..cap] + c[cap..];
    }
  }

  // ---- Sections, in cache-hierarchy order ----

  datatype Offset = Byte(at: nat) | Unknown

  datatype Where =
    | BlockAt(index: nat, offset: Offset)
    | Counts(shared: nat, more: bool)
    | BeyondCap(cap: nat)

  datatype Diverged =
    | Nowhere
    | InContext
    | InTools(at: Where)
    | InSystem(at: Where)
    | InMessages(index: nat)
    | InMessagesBeyondCap

  /** The first differing byte, or the shorter length when one is a prefix of the other. */
  function FirstDiff(a: string, b: string): nat { FirstDifference(a, b, 0, Min(|a|, |b|)) }

  function Section(cap: nat, diff: SeqDiff, prev: Option<seq<string>>, cur: seq<string>): Option<Where> {
    match diff
    case Same => None
    case Tail => Some(BeyondCap(cap))
    case Count(shared, more) => Some(Counts(shared, more))
    case DiffersAt(i) =>
      if prev.Some? && i < |prev.value| && i < |cur| then Some(BlockAt(i, Byte(FirstDiff(prev.value[i], cur[i]))))
      else Some(BlockAt(i, Unknown))
  }

  /** One side of the comparison: the hash sequences, and the canonical blocks while they
      fit the byte budget. */
  datatype Slot = Slot(ctxFp: nat, tools: seq<nat>, system: seq<nat>, msgs: seq<nat>,
      canon: Option<(seq<string>, seq<string>)>)

  function DiffOf(p: seq<nat>, c: seq<nat>, cap: nat, fold: seq<nat> -> nat): SeqDiff {
    Diff(Fold(p, cap, fold), Fold(c, cap, fold), cap)
  }

  function DivergedFrom(prev: Slot, cur: Slot, toolsCanon: seq<string>, systemCanon: seq<string>,
      fold: seq<nat> -> nat)
    : Diverged
  {
    var (pt, ps) := (KeptTools(prev), KeptSystem(prev));
    if prev.ctxFp != cur.ctxFp then InContext
    else
      match Section(TOOLS_HASH_CAP, DiffOf(prev.tools, cur.tools, TOOLS_HASH_CAP, fold), pt, toolsCanon)
      case Some(w) => InTools(w)
      case None =>
        match Section(SYSTEM_HASH_CAP, DiffOf(prev.system, cur.system, SYSTEM_HASH_CAP, fold), ps, systemCanon)
        case Some(w) => InSystem(w)
        case None =>
          match DiffOf(prev.msgs, cur.msgs, MSGS_HASH_CAP, fold)
          case Same => Nowhere
          case Tail => InMessagesBeyondCap
          case Count(shared, _) => InMessages(shared)
          case DiffersAt(i) => InMessages(i)
  }

  /** The canonical blocks that were kept, if any. */
  function KeptTools(s: Slot): Option<seq<string>> { match s.canon case Some(k) => Some(k.0) case None => None }

  function KeptSystem(s: Slot): Option<seq<string>> { match s.canon case Some(k) => Some(k.1) case None => None }

  lemma SectionNamed(prev: Slot, cur: Slot, toolsCanon: seq<string>, systemCanon: seq<string>, fold: seq<nat> -> nat,
      w: Where)
    ensures DivergedFrom(prev, cur, toolsCanon, systemCanon, fold) == InTools(w) ==>
              Section(TOOLS_HASH_CAP, DiffOf(prev.tools, cur.tools, TOOLS_HASH_CAP, fold), KeptTools(prev),
                  toolsCanon) == Some(w)
    ensures DivergedFrom(prev, cur, toolsCanon, systemCanon, fold) == InSystem(w) ==>
              Section(SYSTEM_HASH_CAP, DiffOf(prev.system, cur.system, SYSTEM_HASH_CAP, fold), KeptSystem(prev),
                  systemCanon) == Some(w)
  {
  }

  /** The name is that of the first section, in the order context, tools, system, messages,
      whose hashes differ at all; a message index is where the sequences first part. */
  lemma NamesFirstDifferingSection(prev: Slot, cur: Slot, toolsCanon: seq<string>, systemCanon: seq<string>,
      fold: seq<nat> -> nat)
    requires FoldKeeps(fold, prev.tools, cur.tools, TOOLS_HASH_CAP)
    requires FoldKeeps(fold, prev.system, cur.system, SYSTEM_HASH_CAP)
    requires FoldKeeps(fold, prev.msgs, cur.msgs, MSGS_HASH_CAP)
    ensures var d := DivergedFrom(prev, cur, toolsCanon, systemCanon, fold);
            && (d.InContext? <==> prev.ctxFp != cur.ctxFp)
            && (d.InTools? <==> prev.ctxFp == cur.ctxFp && prev.tools != cur.tools)
            && (d.InSystem? <==> prev.ctxFp == cur.ctxFp && prev.tools == cur.tools && prev.system != cur.system)
            && (d.Nowhere? <==>
                && prev.ctxFp == cur.ctxFp && prev.tools == cur.tools && prev.system == cur.system
                && prev.msgs == cur.msgs)
            && (d.InMessages? ==> AgreeTo(prev.msgs, cur.msgs, d.index)
                                  && (d.index < |prev.msgs| && d.index < |cur.msgs| ==>
                                      prev.msgs[d.index] != cur.msgs[d.index]))
            && (d.InMessagesBeyondCap? ==> prev.msgs != cur.msgs && AgreeTo(prev.msgs, cur.msgs, MSGS_HASH_CAP))
  {
    SectionTells(TOOLS_HASH_CAP, prev.tools, cur.tools, KeptTools(prev), toolsCanon, fold);
    SectionTells(SYSTEM_HASH_CAP, prev.system, cur.system, KeptSystem(prev), systemCanon, fold);
    DiffAgreesWithFull(prev.msgs, cur.msgs, MSGS_HASH_CAP, fold);
    if DiffOf(prev.msgs, cur.msgs, MSGS_HASH_CAP, fold).DiffersAt? {
      assert DifferFirstAt(prev.msgs, cur.msgs, DiffOf(prev.msgs, cur.msgs, MSGS_HASH_CAP, fold).index);
    }
  }

  /** What is said of a section that differs: the block where the hashes first differ, with the
      byte where its two texts first differ if the earlier ones were kept; or how many blocks
      are shared when one side only goes on; or that the difference lies beyond the cap. */
  ghost predicate Tells(w: Where, cap: nat, p: seq<nat>, c: seq<nat>, prev: Option<seq<string>>, cur: seq<string>) {
    match w
    case BlockAt(i, offset) =>
      && i < cap && DifferFirstAt(p, c, i)
      && (match offset
          case Byte(o) => prev.Some? && i < |prev.value| && i < |cur| && PartAt(prev.value[i], cur[i], o)
          case Unknown => !(prev.Some? && i < |prev.value| && i < |cur|))
    case Counts(shared, more) =>
      && |p| != |c| && shared == Min(|p|, |c|) < cap && AgreeTo(p, c, shared) && (more <==> |c| > |p|)
    case BeyondCap(n) => n == cap && p != c && AgreeTo(p, c, cap)
  }

  /** Two texts agree before `o` and part there, or one of them ends there. */
  ghost predicate PartAt(a: string, b: string, o: nat) {
    && AgreeTo(a, b, o) && (o < |a| && o < |b| ==> a[o] != b[o]) && (o == |a| || o == |b| || a[o] != b[o])
  }

  lemma SectionTells(cap: nat, p: seq<nat>, c: seq<nat>, prev: Option<seq<string>>, cur: seq<string>,
      fold: seq<nat> -> nat)
    requires FoldKeeps(fold, p, c, cap)
    ensures var w := Section(cap, DiffOf(p, c, cap, fold), prev, cur);
            (w.None? <==> p == c) && (w.Some? ==> Tells(w.value, cap, p, c, prev, cur))
  {
    DiffAgreesWithFull(p, c, cap, fold);
    var d := DiffOf(p, c, cap, fold);
    if d.DiffersAt? {
      assert DifferFirstAt(p, c, d.index);
    }
  }

  /** The whole diagnosis: what is said of the first section that differs is true of it, and of
      messages the place where they first part or end. */
  lemma DiagnosisTells(prev: Slot, cur: Slot, toolsCanon: seq<string>, systemCanon: seq<string>, fold: seq<nat> -> nat)
    requires FoldKeeps(fold, prev.tools, cur.tools, TOOLS_HASH_CAP)
    requires FoldKeeps(fold, prev.system, cur.system, SYSTEM_HASH_CAP)
    requires FoldKeeps(fold, prev.msgs, cur.msgs, MSGS_HASH_CAP)
    ensures match DivergedFrom(prev, cur, toolsCanon, systemCanon, fold)
            case InTools(w) =>
              Tells(w, TOOLS_HASH_CAP, prev.tools, cur.tools,
                  KeptTools(prev), toolsCanon)
            case InSystem(w) =>
              Tells(w, SYSTEM_HASH_CAP, prev.system, cur.system,
                  KeptSystem(prev), systemCanon)
            case InMessages(i) =>
              && i < MSGS_HASH_CAP && AgreeTo(prev.msgs, cur.msgs, i)
              && (DifferFirstAt(prev.msgs, cur.msgs, i)
                  || (|prev.msgs| != |cur.msgs| && i == Min(|prev.msgs|, |cur.msgs|)))
            case _ => true
  {
    SectionTells(TOOLS_HASH_CAP, prev.tools, cur.tools, KeptTools(prev), toolsCanon, fold);
    SectionTells(SYSTEM_HASH_CAP, prev.system, cur.system, KeptSystem(prev), systemCanon, fold);
    DiffAgreesWithFull(prev.msgs, cur.msgs, MSGS_HASH_CAP, fold);
    var d := DiffOf(prev.msgs, cur.msgs, MSGS_HASH_CAP, fold);
    if d.DiffersAt? {
      assert DifferFirstAt(prev.msgs, cur.msgs, d.index);
    }
  }

  /** A block named with a byte offset: the hash sequences first differ at that block, the
      two canonical texts agree before the offset, and they part there, one of them
      possibly ending. */
  lemma OffsetIsFirstDifference(cap: nat, p: seq<nat>, c: seq<nat>, prev: seq<string>, cur: seq<string>,
      hash: string -> nat, fold: seq<nat> -> nat, i: nat, o: nat)
    requires FoldKeeps(fold, p, c, cap)
    requires |prev| == |p| && |cur| == |c|
    requires forall k :: 0 <= k < |p| ==> p[k] == hash(prev[k])
    requires forall k :: 0 <= k < |c| ==> c[k] == hash(cur[k])
    requires Section(cap, DiffOf(p, c, cap, fold), Some(prev), cur) == Some(BlockAt(i, Byte(o)))
    ensures DifferFirstAt(p, c, i) && prev[i] != cur[i]
    ensures AgreeTo(prev[i], cur[i], o) && (o < |prev[i]| || o < |cur[i]|)
    ensures o < |prev[i]| && o < |cur[i]| ==> prev[i][o] != cur[i][o]
  {
    DiffAgreesWithFull(p, c, cap, fold);
    assert DifferFirstAt(p, c, i);
  }
}
