/** The words of a command line, told by where they stand. `blank` decides what separates them. */
module CommandWords {
  import opened Text
  import opened Rewrite

  predicate Blank(blank: char -> bool, s: string, from: int, to: int) {
    0 <= from && to <= |s| && forall i :: from <= i < to ==> blank(s[i])
  }

  /** `s[from..to]` is a word: nothing blank in it, and a blank or an end on either side. */
  predicate IsWord(blank: char -> bool, s: string, from: int, to: int) {
    && 0 <= from < to <= |s| && (forall i :: from <= i < to ==> !blank(s[i]))
    && (from == 0 || blank(s[from - 1])) && (to == |s| || blank(s[to]))
  }

  /** A word at `a`, and the one behind it at `c`. */
  predicate NextWord(blank: char -> bool, s: string, a: int, b: int, c: int, d: int) {
    IsWord(blank, s, a, b) && IsWord(blank, s, c, d) && b <= c && Blank(blank, s, b, c)
  }

  /** Where the words stand from `from` on, one having begun at `start`. */
  ghost function Spans(blank: char -> bool, s: string, from: nat, start: nat): seq<(nat, nat)>
    requires start <= from <= |s|
    decreases |s| - from
  {
    var done := if start == from then [] else [(start, from)];
    if from == |s| then done
    else if blank(s[from]) then done + Spans(blank, s, from + 1, from + 1)
    else Spans(blank, s, from + 1, start)
  }

  lemma {:induction false} WordsAreSpans(s: string, from: nat, start: nat)
    requires start <= from <= |s|
    ensures |Words(s, from, s[start..from])| == |Spans(IsWhitespace, s, from, start)|
    ensures forall i :: 0 <= i < |Spans(IsWhitespace, s, from, start)| ==>
              var (a, b) := Spans(IsWhitespace, s, from, start)[i];
              a <= b <= |s| && Words(s, from, s[start..from])[i] == s[a..b]
    decreases |s| - from
  {
    if from < |s| {
      if IsWhitespace(s[from]) {
        WordsAreSpans(s, from + 1, from + 1);
        assert s[from + 1..from + 1] == "";
      } else {
        WordsAreSpans(s, from + 1, start);
        assert s[start..from] + [s[from]] == s[start..from + 1];
      }
    }
  }

  /** The spans are the words from `start` on, one behind the other. */
  ghost predicate AreTheWords(blank: char -> bool, s: string, start: nat, spans: seq<(nat, nat)>) {
    && start <= |s|
    && (forall i :: 0 <= i < |spans| ==> start <= spans[i].0 && IsWord(blank, s, spans[i].0, spans[i].1))
    && (forall i :: 0 <= i < |spans| - 1 ==>
          spans[i].1 <= spans[i + 1].0 && Blank(blank, s, spans[i].1, spans[i + 1].0))
    && Blank(blank, s, start, if |spans| > 0 then spans[0].0 else |s|)
    && (|spans| > 0 ==> Blank(blank, s, spans[|spans| - 1].1, |s|))
  }

  lemma {:induction false} SpansAreTheWords(blank: char -> bool, s: string, from: nat, start: nat)
    requires start <= from <= |s| && (start == 0 || blank(s[start - 1]))
    requires forall i :: start <= i < from ==> !blank(s[i])
    ensures AreTheWords(blank, s, start, Spans(blank, s, from, start))
    decreases |s| - from
  {
    if from < |s| {
      if blank(s[from]) {
        var rest := Spans(blank, s, from + 1, from + 1);
        SpansAreTheWords(blank, s, from + 1, from + 1);
        BlankInFront(blank, s, from, rest);
        if start < from {
          SpansInFront(blank, s, from, start, rest);
        } else {
          assert [] + rest == rest;
        }
      } else {
        SpansAreTheWords(blank, s, from + 1, start);
      }
    }
  }

  lemma BlankInFront(blank: char -> bool, s: string, from: nat, rest: seq<(nat, nat)>)
    requires from < |s| && blank(s[from]) && AreTheWords(blank, s, from + 1, rest)
    ensures AreTheWords(blank, s, from, rest) && Blank(blank, s, from, if |rest| > 0 then rest[0].0 else |s|)
  {
  }

  lemma SpansInFront(blank: char -> bool, s: string, from: nat, start: nat, rest: seq<(nat, nat)>)
    requires start < from && AreTheWords(blank, s, from + 1, rest) && IsWord(blank, s, start, from)
    requires Blank(blank, s, from, if |rest| > 0 then rest[0].0 else |s|)
    ensures AreTheWords(blank, s, start, [(start, from)] + rest)
  {
    var all := [(start, from)] + rest;
    forall i | 0 <= i < |all| ensures start <= all[i].0 && IsWord(blank, s, all[i].0, all[i].1) {
      if i > 0 {
        assert all[i] == rest[i - 1];
      }
    }
    forall i | 0 <= i < |all| - 1 ensures all[i].1 <= all[i + 1].0 && Blank(blank, s, all[i].1, all[i + 1].0) {
      assert all[i + 1] == rest[i];
      if i > 0 {
        assert all[i] == rest[i - 1];
      }
    }
  }

  /** No word is missed: two words one behind the other are two spans one behind the other. */
  lemma NextSpan(blank: char -> bool, s: string, start: nat, spans: seq<(nat, nat)>, a: nat, b: nat, c: nat, d: nat)
      returns (i: nat)
    requires AreTheWords(blank, s, start, spans) && NextWord(blank, s, a, b, c, d) && start <= a
    ensures i + 1 < |spans| && spans[i] == (a, b) && spans[i + 1] == (c, d)
  {
    i := SpanAt(blank, s, start, spans, a, b);
    var j := SpanAt(blank, s, start, spans, c, d);
    if j <= i {
      SpansRise(blank, s, start, spans, j, i);
    } else {
      SpansRise(blank, s, start, spans, i + 1, j);
      assert !blank(s[spans[i + 1].0]);
    }
  }

  lemma {:induction false} SpansRise(blank: char -> bool, s: string, start: nat, spans: seq<(nat, nat)>, i: nat, j: nat)
    requires AreTheWords(blank, s, start, spans) && i <= j < |spans|
    ensures spans[i].0 <= spans[j].0 && (i < j ==> spans[i].0 < spans[j].0)
  {
    if i < j {
      SpansRise(blank, s, start, spans, i, j - 1);
      assert IsWord(blank, s, spans[j - 1].0, spans[j - 1].1) && spans[j - 1].1 <= spans[j - 1 + 1].0;
    }
  }

  lemma SpanAt(blank: char -> bool, s: string, start: nat, spans: seq<(nat, nat)>, a: nat, b: nat) returns (i: nat)
    requires AreTheWords(blank, s, start, spans) && IsWord(blank, s, a, b) && start <= a
    ensures i < |spans| && spans[i] == (a, b)
  {
    i := 0;
    while i < |spans| && spans[i].1 <= a
      invariant i <= |spans| && (i > 0 ==> spans[i - 1].1 <= a)
    {
      i := i + 1;
    }
    assert !blank(s[a]);
    SameWord(blank, s, a, b, spans[i].0, spans[i].1);
  }

  /** Words that share a place are the same. */
  lemma SameWord(blank: char -> bool, s: string, a: nat, b: nat, c: nat, d: nat)
    requires IsWord(blank, s, a, b) && IsWord(blank, s, c, d) && c <= a < d
    ensures a == c && b == d
  {
    assert a == 0 || blank(s[a - 1]);
    assert b == |s| || blank(s[b]);
    assert d == |s| || blank(s[d]);
  }
}
