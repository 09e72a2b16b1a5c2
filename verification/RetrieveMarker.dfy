/** The retrieval marker of compressed text: `hash=`, an optional quote, sixteen hex digits. */
module RetrieveMarker {
  import opened Text

  predicate IsHex(c: char) { '0' <= c <= '9' || 'a' <= c <= 'f' || 'A' <= c <= 'F' }

  const TAG := "hash="

  /** Where the digits of a marker whose tag stands at `i` begin. */
  function DigitsAt(s: string, i: nat): nat {
    if i + 5 < |s| && s[i + 5] == '\"' then i + 6 else i + 5
  }

  predicate MarkerAt(s: string, i: nat) {
    && At(s, i, TAG) && DigitsAt(s, i) + 16 <= |s|
    && forall k :: DigitsAt(s, i) <= k < DigitsAt(s, i) + 16 ==> IsHex(s[k])
  }

  predicate HasMarker(s: string) { exists i :: 0 <= i < |s| && MarkerAt(s, i) }

  lemma TagChars(s: string, i: nat)
    ensures At(s, i, TAG) <==>
            i + 5 <= |s| && s[i] == 'h' && s[i + 1] == 'a' && s[i + 2] == 's' && s[i + 3] == 'h' && s[i + 4] == '='
  {
    if i + 5 <= |s| {
      assert s[i..i + 5] == [s[i], s[i + 1], s[i + 2], s[i + 3], s[i + 4]];
    }
  }

  /** How many hex digits follow one another from `from`. */
  method HexRun(s: string, from: nat) returns (n: nat)
    requires from <= |s|
    ensures from + n <= |s| && (forall k :: from <= k < from + n ==> IsHex(s[k]))
    ensures from + n == |s| || !IsHex(s[from + n])
  {
    n := 0;
    while from + n < |s| && IsHex(s[from + n])
      invariant from + n <= |s| && forall k :: from <= k < from + n ==> IsHex(s[k])
    {
      n := n + 1;
    }
  }

  /** The digits behind the tag at `i` decide whether a marker stands there. */
  method MarkerStands(s: string, i: nat) returns (stands: bool)
    requires At(s, i, TAG)
    ensures stands == MarkerAt(s, i)
  {
    var digits := DigitsAt(s, i);
    var n := HexRun(s, digits);
    stands := n >= 16;
    if n < 16 && digits + n < |s| {
      assert !IsHex(s[digits + n]);
    }
  }

  /** The scan behind each tag in turn finds a marker exactly when there is one: a tag
      never overlaps another, so skipping past it misses none. */
  method HasRetrieveMarker(s: string) returns (found: bool)
    ensures found == HasMarker(s)
  {
    var from := 0;
    var i := Find(s, TAG, from);
    while i < |s|
      invariant from <= |s| && i == Find(s, TAG, from)
      invariant forall j :: 0 <= j < from ==> !MarkerAt(s, j)
      decreases |s| - from
    {
      var stands := MarkerStands(s, i);
      if stands {
        return true;
      }
      NoOverlap(s, i);
      from := i + 5;
      i := Find(s, TAG, from);
    }
    return false;
  }

  lemma NoOverlap(s: string, i: nat)
    requires At(s, i, TAG)
    ensures forall j :: i < j < i + 5 ==> !At(s, j, TAG)
  {
    TagChars(s, i);
    forall j | i < j < i + 5 ensures !At(s, j, TAG) {
      TagChars(s, j);
    }
  }

  const HEX := "0123456789abcdefABCDEF"

  /** The text of a marker: the tag, a quote or none, and sixteen hexadecimal digits. */
  ghost predicate IsMarker(m: string) {
    exists quote, digits :: IsMadeOf(m, quote, digits)
  }

  predicate IsMadeOf(m: string, quote: string, digits: string) {
    && m == "hash=" + quote + digits && (quote == "" || quote == "\"")
    && |digits| == 16 && forall k :: 0 <= k < 16 ==> digits[k] in HEX
  }

  lemma HexExactly(c: char)
    ensures IsHex(c) <==> c in HEX
  {
    assert forall i :: 0 <= i < |HEX| ==> IsHex(HEX[i]);
    if '0' <= c <= '9' {
      assert HEX[c as int - '0' as int] == c;
    } else if 'a' <= c <= 'f' {
      assert HEX[10 + c as int - 'a' as int] == c;
    } else if 'A' <= c <= 'F' {
      assert HEX[16 + c as int - 'A' as int] == c;
    }
  }

  predicate IsAround(s: string, before: string, m: string, behind: string) { s == before + m + behind }

  ghost predicate HoldsMarker(s: string) {
    exists before, m, behind :: IsMarker(m) && IsAround(s, before, m, behind)
  }

  /** A text has a marker exactly when the text of one stands somewhere in it. */
  lemma MarkerExactly(s: string)
    ensures HasMarker(s) <==> HoldsMarker(s)
  {
    if HasMarker(s) {
      var i :| 0 <= i < |s| && MarkerAt(s, i);
      var d := DigitsAt(s, i);
      MarkerText(s, i, s[i + 5..d], s[d..d + 16]);
      assert IsAround(s, s[..i], s[i..d + 16], s[d + 16..]);
    }
    if HoldsMarker(s) {
      var before, m, behind :| IsMarker(m) && IsAround(s, before, m, behind);
      MarkerStandsAt(m);
      MarkerSurvives(before, m, behind);
    }
  }

  lemma MarkerText(s: string, i: nat, quote: string, digits: string)
    requires i < |s| && MarkerAt(s, i)
    requires quote == s[i + 5..DigitsAt(s, i)] && digits == s[DigitsAt(s, i)..DigitsAt(s, i) + 16]
    ensures IsMarker(s[i..DigitsAt(s, i) + 16])
  {
    var d := DigitsAt(s, i);
    assert s[i..d + 16] == "hash=" + quote + digits by {
      assert s[i..i + 5] == "hash=";
      assert s[i..d + 16] == s[i..i + 5] + s[i + 5..d] + s[d..d + 16];
    }
    forall k | 0 <= k < 16 ensures digits[k] in HEX {
      HexExactly(s[d + k]);
    }
    assert IsMadeOf(s[i..d + 16], quote, digits);
  }

  lemma MarkerStandsAt(m: string)
    requires IsMarker(m)
    ensures |m| > 0 && MarkerAt(m, 0)
  {
    var quote, digits :| IsMadeOf(m, quote, digits);
    assert m[0..5] == "hash=";
    HexExactly(digits[0]);
    assert DigitsAt(m, 0) == 5 + |quote|;
    var d := 5 + |quote|;
    forall k | d <= k < d + 16 ensures IsHex(m[k]) {
      HexExactly(digits[k - d]);
      assert m[k] == digits[k - d];
    }
  }

  /** A marker survives whatever stands before and behind it. */
  lemma MarkerSurvives(before: string, s: string, after: string)
    requires HasMarker(s)
    ensures HasMarker(before + s + after)
  {
    var i :| 0 <= i < |s| && MarkerAt(s, i);
    MarkerShifts(before + s + after, |before|, s, i);
  }

  lemma MarkerShifts(whole: string, d: nat, s: string, i: nat)
    requires d + |s| <= |whole| && forall k :: d <= k < d + |s| ==> whole[k] == s[k - d]
    requires i < |s| && MarkerAt(s, i)
    ensures d + i < |whole| && MarkerAt(whole, d + i)
  {
    TagChars(s, i);
    TagChars(whole, d + i);
    assert DigitsAt(whole, d + i) == d + DigitsAt(s, i);
    forall k | DigitsAt(whole, d + i) <= k < DigitsAt(whole, d + i) + 16 ensures IsHex(whole[k]) {
      assert whole[k] == s[k - d];
    }
  }

  /** Joining keeps the marker of any part. */
  lemma JoinKeepsMarker(parts: seq<string>, sep: string, i: nat)
    requires i < |parts| && HasMarker(parts[i])
    ensures HasMarker(Join(parts, sep))
  {
    var before, after := JoinHolds(parts, sep, |parts|, i);
    MarkerSurvives(before, parts[i], after);
  }
}
