/** Which tool results of a transcript are provably out of date. */
module Stale {
  import opened Wrappers

  datatype Candidate = Candidate(path: Option<string>, view: string, isRead: bool, text: string)

  datatype Reason = SupersededPath(path: string) | Duplicate

  /** A later call that is not a read touches the same path. */
  predicate TouchedLater(c: seq<Candidate>, i: nat)
    requires i < |c|
  {
    exists t :: i < t < |c| && !c[t].isRead && c[t].path == c[i].path
  }

  /** A later read asks for the same view. */
  predicate ReadAgain(c: seq<Candidate>, i: nat)
    requires i < |c|
  {
    exists t :: i < t < |c| && c[t].isRead && c[t].view == c[i].view
  }

  predicate Superseded(c: seq<Candidate>, i: nat)
    requires i < |c|
  {
    c[i].isRead && c[i].path.Some? && (TouchedLater(c, i) || ReadAgain(c, i))
  }

  /** Result `j` is not superseded and shows just `text`. */
  predicate Shows(c: seq<Candidate>, j: nat, text: string)
    requires j < |c|
  {
    c[j].text == text && !Superseded(c, j)
  }

  /** A later result that is not superseded has the very same text. */
  predicate HasTwin(c: seq<Candidate>, i: nat)
    requires i < |c|
  {
    exists j :: i < j < |c| && Shows(c, j, c[i].text)
  }

  /** The rule, stated at once for every candidate. */
  function ReasonOf(c: seq<Candidate>, i: nat): Option<Reason>
    requires i < |c|
  {
    if Superseded(c, i) then Some(SupersededPath(c[i].path.value))
    else if HasTwin(c, i) then Some(Duplicate)
    else None
  }

  function ReasonsOf(c: seq<Candidate>): (r: seq<Option<Reason>>)
    ensures |r| == |c| && forall k {:trigger r[k]} :: 0 <= k < |r| ==> r[k] == ReasonOf(c, k)
  {
    seq(|c|, k requires 0 <= k < |c| => ReasonOf(c, k))
  }

  // ---- The two map passes and the nested loop ----

  /** `last` holds, for each path, the last of the first `n` candidates that touches it. */
  ghost predicate LastTouches(c: seq<Candidate>, n: nat, last: map<string, nat>)
    requires n <= |c|
  {
    && (forall p :: p in last ==> last[p] < n && !c[last[p]].isRead && c[last[p]].path == Some(p))
    && (forall t :: 0 <= t < n && !c[t].isRead && c[t].path.Some? ==>
        c[t].path.value in last && t <= last[c[t].path.value])
  }

  ghost predicate LastReads(c: seq<Candidate>, n: nat, last: map<string, nat>)
    requires n <= |c|
  {
    && (forall v :: v in last ==> last[v] < n && c[last[v]].isRead && c[last[v]].view == v)
    && (forall t :: 0 <= t < n && c[t].isRead ==> c[t].view in last && t <= last[c[t].view])
  }

  method LastIndices(c: seq<Candidate>) returns (touches: map<string, nat>, views: map<string, nat>)
    ensures LastTouches(c, |c|, touches) && LastReads(c, |c|, views)
  {
    touches, views := map[], map[];
    for i := 0 to |c|
      invariant LastTouches(c, i, touches) && LastReads(c, i, views)
    {
      if c[i].isRead {
        views := views[c[i].view := i];
      } else if c[i].path.Some? {
        touches := touches[c[i].path.value := i];
      }
    }
  }

  lemma SupersededByMaps(c: seq<Candidate>, i: nat, touches: map<string, nat>, views: map<string, nat>)
    requires i < |c| && LastTouches(c, |c|, touches) && LastReads(c, |c|, views)
    requires c[i].isRead && c[i].path.Some?
    ensures TouchedLater(c, i) <==> (c[i].path.value in touches && touches[c[i].path.value] > i)
    ensures ReadAgain(c, i) <==> views[c[i].view] != i
  {
  }

  method FindSuperseded(c: seq<Candidate>) returns (reasons: seq<Option<Reason>>)
    ensures |reasons| == |c|
    ensures forall i :: 0 <= i < |c| ==>
            reasons[i] == if Superseded(c, i) then Some(SupersededPath(c[i].path.value)) else None
  {
    var touches, views := LastIndices(c);
    reasons := [];
    for i := 0 to |c|
      invariant |reasons| == i
      invariant forall k :: 0 <= k < i ==>
               reasons[k] == if Superseded(c, k) then Some(SupersededPath(c[k].path.value)) else None
    {
      var reason := None;
      if c[i].isRead && c[i].path.Some? {
        SupersededByMaps(c, i, touches, views);
        if (c[i].path.value in touches && touches[c[i].path.value] > i) || views[c[i].view] != i {
          reason := Some(SupersededPath(c[i].path.value));
        }
      }
      reasons := reasons + [reason];
    }
  }

  /** The code's passes decide exactly by the rule. */
  method ComputeStaleReasons(c: seq<Candidate>) returns (reasons: seq<Option<Reason>>)
    ensures reasons == ReasonsOf(c)
  {
    reasons := FindSuperseded(c);
    for i := 0 to |c|
      invariant |reasons| == |c|
      invariant forall k :: 0 <= k < i ==> reasons[k] == ReasonOf(c, k)
      invariant forall k :: i <= k < |c| ==> (reasons[k].None? <==> !Superseded(c, k))
      invariant forall k :: i <= k < |c| && Superseded(c, k) ==> reasons[k] == ReasonOf(c, k)
    {
      if reasons[i].None? {
        var j := i + 1;
        while j < |c| && !(reasons[j].None? && c[i].text == c[j].text)
          invariant i < j <= |c|
          invariant forall k :: i < k < j ==> !Shows(c, k, c[i].text)
        {
          j := j + 1;
        }
        if j < |c| {
          assert Shows(c, j, c[i].text);
          reasons := reasons[i := Some(Duplicate)];
        }
      }
    }
  }

  // ---- Nothing current is lost ----

  /** The exact text of every result that is not superseded is still there, at its own
      place or later. */
  lemma {:induction false} TextSurvives(c: seq<Candidate>, i: nat) returns (j: nat)
    requires i < |c| && !Superseded(c, i)
    ensures i <= j < |c| && ReasonOf(c, j) == None && c[j].text == c[i].text
    decreases |c| - i
  {
    if HasTwin(c, i) {
      var k :| i < k < |c| && Shows(c, k, c[i].text);
      j := TextSurvives(c, k);
    } else {
      j := i;
    }
  }

  /** The last read of a view, of a path not touched later, is never called superseded, so
      its text survives; and a result that is not a read never is. */
  lemma LatestViewSurvives(c: seq<Candidate>, i: nat) returns (j: nat)
    requires i < |c| && (!c[i].isRead || (!ReadAgain(c, i) && !TouchedLater(c, i)))
    ensures ReasonOf(c, i) == None || ReasonOf(c, i) == Some(Duplicate)
    ensures i <= j < |c| && ReasonOf(c, j) == None && c[j].text == c[i].text
  {
    j := TextSurvives(c, i);
  }

  /** The latest read of a view, or a result that is no read, is left alone exactly when it is
      no read of a path that a later call changes, and no later result that stays shows the
      same text. */
  lemma LeftAloneExactly(c: seq<Candidate>, i: nat)
    requires i < |c| && (c[i].isRead ==> !ReadAgain(c, i))
    ensures ReasonOf(c, i) == None <==>
            && !(c[i].isRead && c[i].path.Some? && TouchedLater(c, i))
            && (forall j :: i < j < |c| && c[j].text == c[i].text ==> Superseded(c, j))
  {
    forall j | i < j < |c|
      ensures Shows(c, j, c[i].text) <==> c[j].text == c[i].text && !Superseded(c, j)
    {
    }
  }

  /** The source's comment says that the most recent copy of a view and every result that is no
      read are left alone. A later edit supersedes the only read of a file, and a later result
      with the same text makes duplicates of both. */
  lemma LatestIsNotLeftAlone(text: string, other: string, path: string)
    ensures var output := Candidate(None, "", false, text);
            var read := Candidate(Some(path), "v", true, text);
            var edit := Candidate(Some(path), "", false, other);
            && ReasonOf([read, edit], 0) == Some(SupersededPath(path)) && !ReadAgain([read, edit], 0)
            && ReasonOf([read, output], 0) == Some(Duplicate) && !ReadAgain([read, output], 0)
            && ReasonOf([output, output], 0) == Some(Duplicate)
  {
    var output := Candidate(None, "", false, text);
    var read := Candidate(Some(path), "v", true, text);
    var edit := Candidate(Some(path), "", false, other);
    var (edited, shown, twice) := ([read, edit], [read, output], [output, output]);
    assert !edited[1].isRead && edited[1].path == edited[0].path;
    assert Shows(shown, 1, shown[0].text) && Shows(twice, 1, twice[0].text);
    assert shown[1].path == None && !shown[1].isRead && !TouchedLater(shown, 0);
    assert HasTwin(shown, 0) && HasTwin(twice, 0);
  }

  // ---- Appending turns ----

  /** Superseded is for good, and by the same path. */
  lemma SupersededForGood(c: seq<Candidate>, more: seq<Candidate>, i: nat)
    requires i < |c| && Superseded(c, i)
    ensures ReasonOf(c + more, i) == ReasonOf(c, i)
  {
    var all := c + more;
    assert forall t :: 0 <= t < |c| ==> all[t] == c[t];
    if TouchedLater(c, i) {
      var t :| i < t < |c| && !c[t].isRead && c[t].path == c[i].path;
      assert !all[t].isRead && all[t].path == all[i].path;
    } else {
      var t :| i < t < |c| && c[t].isRead && c[t].view == c[i].view;
      assert all[t].isRead && all[t].view == all[i].view;
    }
  }

  /** A result is uncollapsed again exactly when it was a duplicate, is not superseded now,
      no appended result that survives has its text, and every twin it had is superseded
      by the appended turns. */
  lemma UncollapsedExactly(c: seq<Candidate>, more: seq<Candidate>, i: nat)
    requires i < |c|
    ensures ReasonOf(c, i) != None && ReasonOf(c + more, i) == None <==>
            && ReasonOf(c, i) == Some(Duplicate) && !Superseded(c + more, i)
            && (forall j :: i < j < |c| && Shows(c, j, c[i].text) ==> Superseded(c + more, j))
            && (forall j :: |c| <= j < |c + more| ==> !Shows(c + more, j, c[i].text))
  {
    var all := c + more;
    assert forall t :: 0 <= t < |c| ==> all[t] == c[t];
    forall j | 0 <= j < |c|
      ensures Superseded(c, j) ==> Superseded(all, j)
      ensures Shows(all, j, c[i].text) <==> Shows(c, j, c[i].text) && !Superseded(all, j)
    {
      if Superseded(c, j) {
        SupersededForGood(c, more, j);
      }
    }
  }

  /** When the appended turns supersede no earlier read, what was collapsed stays collapsed. */
  lemma CollapsesOnlyGrow(c: seq<Candidate>, more: seq<Candidate>, i: nat)
    requires i < |c| && ReasonOf(c, i) != None
    requires forall j :: 0 <= j < |c| ==> (Superseded(c + more, j) <==> Superseded(c, j))
    ensures ReasonOf(c + more, i) == ReasonOf(c, i)
  {
    var all := c + more;
    assert forall t :: 0 <= t < |c| ==> all[t] == c[t];
    if !Superseded(c, i) {
      var j :| i < j < |c| && Shows(c, j, c[i].text);
      assert Shows(all, j, all[i].text);
    }
  }

  /** The source's comment says a collapse can only flip forward in time. It can flip back:
      a command's output equal to a later read is a duplicate until the file is edited. */
  lemma CollapseCanFlipBack(text: string, path: string)
    ensures var output := Candidate(None, "", false, text);
            var read := Candidate(Some(path), "v", true, text);
            var edit := Candidate(Some(path), "", false, text + "!");
            && ReasonOf([output, read], 0) == Some(Duplicate)
            && ReasonOf([output, read] + [edit], 0) == None
  {
    var output := Candidate(None, "", false, text);
    var read := Candidate(Some(path), "v", true, text);
    var edit := Candidate(Some(path), "", false, text + "!");
    var (c, all) := ([output, read], [output, read, edit]);
    assert [output, read] + [edit] == all;
    assert Shows(c, 1, c[0].text);
    assert !all[2].isRead && all[2].path == all[1].path;
    assert Superseded(all, 1);
    assert |text + "!"| != |text|;
  }

  // ---- A second pass ----

  /** `c'` is part of `c`: its candidates stand in `c` at the rising places `at`. */
  ghost predicate PartOf(c': seq<Candidate>, c: seq<Candidate>, at: seq<nat>) {
    && |at| == |c'|
    && (forall k :: 0 <= k < |at| ==> at[k] < |c| && c[at[k]] == c'[k])
    && (forall j, k :: 0 <= j < k < |at| ==> at[j] < at[k])
  }

  /** A reason to collapse within the part is one within the whole. */
  lemma ReasonsLift(c': seq<Candidate>, c: seq<Candidate>, at: seq<nat>, i: nat)
    requires PartOf(c', c, at) && i < |c'|
    ensures Superseded(c', i) ==> Superseded(c, at[i])
    ensures HasTwin(c', i) && (forall k :: 0 <= k < |at| ==> !Superseded(c, at[k])) ==> HasTwin(c, at[i])
  {
    if Superseded(c', i) {
      if TouchedLater(c', i) {
        var t :| i < t < |c'| && !c'[t].isRead && c'[t].path == c'[i].path;
        assert at[i] < at[t] && !c[at[t]].isRead && c[at[t]].path == c[at[i]].path;
      } else {
        var t :| i < t < |c'| && c'[t].isRead && c'[t].view == c'[i].view;
        assert at[i] < at[t] && c[at[t]].isRead && c[at[t]].view == c[at[i]].view;
      }
    }
    if HasTwin(c', i) {
      var j :| i < j < |c'| && Shows(c', j, c'[i].text);
      assert at[i] < at[j] && (!Superseded(c, at[j]) ==> Shows(c, at[j], c[at[i]].text));
    }
  }

  /** Among results the rule left alone, it finds nothing to do. */
  lemma SurvivorsSurvive(c': seq<Candidate>, c: seq<Candidate>, at: seq<nat>, i: nat)
    requires PartOf(c', c, at) && i < |c'|
    requires forall k :: 0 <= k < |at| ==> ReasonOf(c, at[k]) == None
    ensures ReasonOf(c', i) == None
  {
    ReasonsLift(c', c, at, i);
    assert forall k :: 0 <= k < |at| ==> !Superseded(c, at[k]);
  }
}
