/** The string operations of the gateway's parsers: `trim`, `find`, `strip_prefix`. */
module Text {
  import opened Wrappers

  /** Unicode White_Space, what `str::trim` strips. */
  predicate IsWhitespace(c: char) {
    || '\t' <= c <= '\r' || c == ' ' || c == '\U{85}' || c == '\U{A0}' || c == '\U{1680}'
    || '\U{2000}' <= c <= '\U{200A}' || c == '\U{2028}' || c == '\U{2029}' || c == '\U{202F}'
    || c == '\U{205F}' || c == '\U{3000}'
  }

  function TrimStart(s: string): string {
    if |s| > 0 && IsWhitespace(s[0]) then TrimStart(s[1..]) else s
  }

  function TrimEnd(s: string): string {
    if |s| > 0 && IsWhitespace(s[|s| - 1]) then TrimEnd(s[..|s| - 1]) else s
  }

  function Trim(s: string): string { TrimEnd(TrimStart(s)) }

  /** `s` is `t` with whitespace in front of it and behind it. */
  ghost predicate Padded(s: string, before: string, t: string, behind: string) {
    && s == before + t + behind
    && (forall i :: 0 <= i < |before| ==> IsWhitespace(before[i]))
    && (forall i :: 0 <= i < |behind| ==> IsWhitespace(behind[i]))
  }

  /** Trimming takes just the whitespace at both ends: nothing else goes, and none is left. */
  lemma TrimExactly(s: string) returns (before: string, behind: string)
    ensures Padded(s, before, Trim(s), behind)
    ensures Trim(s) != "" ==> !IsWhitespace(Trim(s)[0]) && !IsWhitespace(Trim(s)[|Trim(s)| - 1])
  {
    before := StartOf(s);
    behind := EndOf(TrimStart(s));
    assert before + (Trim(s) + behind) == before + Trim(s) + behind;
  }

  lemma {:induction false} StartOf(s: string) returns (before: string)
    ensures s == before + TrimStart(s) && forall i :: 0 <= i < |before| ==> IsWhitespace(before[i])
    ensures TrimStart(s) != "" ==> !IsWhitespace(TrimStart(s)[0])
  {
    before := "";
    if |s| > 0 && IsWhitespace(s[0]) {
      var rest := StartOf(s[1..]);
      before := [s[0]] + rest;
      assert s == [s[0]] + s[1..];
    }
  }

  lemma {:induction false} EndOf(s: string) returns (behind: string)
    ensures s == TrimEnd(s) + behind && forall i :: 0 <= i < |behind| ==> IsWhitespace(behind[i])
    ensures TrimEnd(s) != "" ==> !IsWhitespace(TrimEnd(s)[|TrimEnd(s)| - 1]) && TrimEnd(s)[0] == s[0]
  {
    behind := "";
    if |s| > 0 && IsWhitespace(s[|s| - 1]) {
      var rest := EndOf(s[..|s| - 1]);
      behind := rest + [s[|s| - 1]];
      assert s == s[..|s| - 1] + [s[|s| - 1]];
    }
  }

  predicate At(s: string, i: nat, pat: string) { i + |pat| <= |s| && s[i..i + |pat|] == pat }

  /** `find`: the first occurrence of `pat` at or after `from`, or `|s|`. */
  function Find(s: string, pat: string, from: nat): (i: nat)
    requires from <= |s| && |pat| > 0
    ensures from <= i <= |s|
    ensures i < |s| ==> At(s, i, pat)
    ensures forall j :: from <= j < i ==> !At(s, j, pat)
    decreases |s| - from
  {
    if from == |s| || At(s, from, pat) then from else Find(s, pat, from + 1)
  }

  /** The first occurrence is the only position with none before it. */
  lemma FindIs(s: string, pat: string, from: nat, i: nat)
    requires from <= i && |pat| > 0 && At(s, i, pat) && forall j :: from <= j < i ==> !At(s, j, pat)
    ensures Find(s, pat, from) == i
  {
  }

  lemma AtAppend(s: string, t: string, i: nat, pat: string)
    requires i + |pat| <= |s|
    ensures At(s + t, i, pat) == At(s, i, pat)
  {
    assert (s + t)[i..i + |pat|] == s[i..i + |pat|];
  }

  /** An occurrence survives text appended behind it. */
  lemma FindAppend(s: string, t: string, pat: string, from: nat)
    requires from <= |s| && |pat| > 0 && Find(s, pat, from) < |s|
    ensures Find(s + t, pat, from) == Find(s, pat, from)
  {
    var i := Find(s, pat, from);
    AtAppend(s, t, i, pat);
    forall j | from <= j < i ensures !At(s + t, j, pat) {
      AtAppend(s, t, j, pat);
    }
    FindIs(s + t, pat, from, i);
  }

  /** An occurrence that ends within the first `n` characters is found there too. */
  lemma FindPrefix(s: string, n: nat, pat: string, from: nat)
    requires from <= n <= |s| && |pat| > 0 && Find(s, pat, from) + |pat| <= n
    ensures Find(s[..n], pat, from) == Find(s, pat, from)
  {
    var i := Find(s, pat, from);
    assert s == s[..n] + s[n..];
    AtAppend(s[..n], s[n..], i, pat);
    forall j | from <= j < i ensures !At(s[..n], j, pat) {
      AtAppend(s[..n], s[n..], j, pat);
    }
    FindIs(s[..n], pat, from, i);
  }

  /** A carriage return at the end does not survive `trim`. */
  lemma {:induction false} TrimCarriageReturn(s: string)
    ensures Trim(s + "\r") == Trim(s)
  {
    if |s| == 0 {
      assert s + "\r" == "\r" && TrimStart("\r"[1..]) == "";
    } else if IsWhitespace(s[0]) {
      assert (s + "\r")[1..] == s[1..] + "\r";
      TrimCarriageReturn(s[1..]);
    } else {
      assert (s + "\r")[..|s|] == s;
    }
  }

  function ConcatTo(parts: seq<string>, n: nat): string
    requires n <= |parts|
  {
    if n == 0 then "" else ConcatTo(parts, n - 1) + parts[n - 1]
  }

  function Concat(parts: seq<string>): string { ConcatTo(parts, |parts|) }

  lemma {:induction false} ConcatPrefix(parts: seq<string>, more: seq<string>, n: nat)
    requires n <= |parts|
    ensures ConcatTo(parts + more, n) == ConcatTo(parts, n)
  {
    if n > 0 {
      ConcatPrefix(parts, more, n - 1);
    }
  }

  lemma {:induction false} ConcatAppendTo(a: seq<string>, b: seq<string>, n: nat)
    requires n <= |b|
    ensures ConcatTo(a + b, |a| + n) == Concat(a) + ConcatTo(b, n)
  {
    if n == 0 {
      ConcatPrefix(a, b, |a|);
    } else {
      ConcatAppendTo(a, b, n - 1);
    }
  }

  lemma ConcatAppend(a: seq<string>, b: seq<string>)
    ensures Concat(a + b) == Concat(a) + Concat(b)
  {
    ConcatAppendTo(a, b, |b|);
  }

  lemma ConcatOne(a: seq<string>, s: string)
    ensures Concat(a + [s]) == Concat(a) + s
  {
    ConcatPrefix(a, [s], |a|);
  }

  /** `join`: the first `n` parts with `sep` between them. */
  function JoinTo(parts: seq<string>, sep: string, n: nat): string
    requires n <= |parts|
  {
    if n == 0 then ""
    else if n == 1 then parts[0]
    else JoinTo(parts, sep, n - 1) + sep + parts[n - 1]
  }

  function Join(parts: seq<string>, sep: string): string { JoinTo(parts, sep, |parts|) }

  /** Every part stands in what is joined. */
  lemma {:induction false} JoinHolds(parts: seq<string>, sep: string, n: nat, i: nat)
      returns (before: string, after: string)
    requires i < n <= |parts|
    ensures JoinTo(parts, sep, n) == before + parts[i] + after
  {
    if i == n - 1 {
      before, after := if n == 1 then "" else JoinTo(parts, sep, n - 1) + sep, "";
      assert before + parts[i] + after == before + parts[i];
    } else {
      var rest;
      before, rest := JoinHolds(parts, sep, n - 1, i);
      after := rest + sep + parts[n - 1];
      assert before + parts[i] + rest + sep + parts[n - 1] == before + parts[i] + after;
    }
  }
}
