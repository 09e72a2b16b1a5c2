/** Finite runs of a protocol that is given by its steps: `step` says what an event makes of
    a state, or nothing where the event is not possible. */
module Runs {
  import opened Wrappers

  /** The state after the first `n` events, if each was possible in its turn. */
  ghost function After<S, E>(step: (S, E) -> Option<S>, s: S, es: seq<E>, n: nat): Option<S>
    requires n <= |es|
  {
    if n == 0 then Some(s)
    else match After(step, s, es, n - 1) case None => None case Some(t) => step(t, es[n - 1])
  }

  ghost predicate Leads<S, E(!new)>(step: (S, E) -> Option<S>, s: S, t: S) {
    exists es: seq<E> :: After(step, s, es, |es|) == Some(t)
  }

  /** What every step keeps, every run keeps. */
  lemma {:induction false} RunKeeps<S(!new), E(!new)>(step: (S, E) -> Option<S>, inv: S -> bool,
      s: S, es: seq<E>, n: nat)
    requires n <= |es| && inv(s) && After(step, s, es, n).Some?
    requires forall t, e :: inv(t) && step(t, e).Some? ==> inv(step(t, e).value)
    ensures inv(After(step, s, es, n).value)
  {
    if n > 0 {
      RunKeeps(step, inv, s, es, n - 1);
    }
  }

  lemma LeadsKeeps<S(!new), E(!new)>(step: (S, E) -> Option<S>, inv: S -> bool, s: S, t: S)
    requires Leads(step, s, t) && inv(s)
    requires forall u, e :: inv(u) && step(u, e).Some? ==> inv(step(u, e).value)
    ensures inv(t)
  {
    var es: seq<E> :| After(step, s, es, |es|) == Some(t);
    RunKeeps(step, inv, s, es, |es|);
  }

  lemma LeadsNowhere<S, E(!new)>(step: (S, E) -> Option<S>, s: S)
    ensures Leads(step, s, s)
  {
    var none: seq<E> := [];
    assert After(step, s, none, |none|) == Some(s);
  }

  lemma {:induction false} Joined<S, E>(step: (S, E) -> Option<S>, s: S, t: S, es: seq<E>, more: seq<E>, n: nat)
    requires After(step, s, es, |es|) == Some(t) && n <= |more|
    ensures After(step, s, es + more, |es| + n) == After(step, t, more, n)
  {
    if n == 0 {
      PrefixSame(step, s, es, more, |es|);
    } else {
      Joined(step, s, t, es, more, n - 1);
      assert (es + more)[|es| + n - 1] == more[n - 1];
    }
  }

  lemma {:induction false} PrefixSame<S, E>(step: (S, E) -> Option<S>, s: S, es: seq<E>, more: seq<E>, n: nat)
    requires n <= |es|
    ensures After(step, s, es + more, n) == After(step, s, es, n)
  {
    if n > 0 {
      PrefixSame(step, s, es, more, n - 1);
      assert (es + more)[n - 1] == es[n - 1];
    }
  }

  lemma LeadsOn<S, E(!new)>(step: (S, E) -> Option<S>, s: S, t: S, u: S)
    requires Leads(step, s, t) && Leads(step, t, u)
    ensures Leads(step, s, u)
  {
    var es: seq<E> :| After(step, s, es, |es|) == Some(t);
    var more: seq<E> :| After(step, t, more, |more|) == Some(u);
    Joined(step, s, t, es, more, |more|);
    assert After(step, s, es + more, |es + more|) == Some(u);
  }

  lemma OneStep<S, E(!new)>(step: (S, E) -> Option<S>, s: S, e: E, t: S)
    requires step(s, e) == Some(t)
    ensures Leads(step, s, t)
  {
    var one: seq<E> := [e];
    assert After(step, s, one, 0) == Some(s);
    assert After(step, s, one, |one|) == Some(t);
  }
}
