/** The `lru::LruCache` of the gateway, as a sequence of entries ordered from the
    least to the most recently used. Keys occur once. */
module Lru {
  import opened Wrappers

  type Table<K, V> = seq<(K, V)>

  ghost predicate Distinct<K, V>(t: Table<K, V>) {
    forall i, j :: 0 <= i < j < |t| ==> t[i].0 != t[j].0
  }

  /** The first position of `k` at or after `from`, or `|t|`. */
  function IndexFrom<K(==), V>(t: Table<K, V>, k: K, from: nat): (i: nat)
    requires from <= |t|
    ensures from <= i <= |t|
    ensures i < |t| ==> t[i].0 == k
    ensures forall j :: from <= j < i ==> t[j].0 != k
    decreases |t| - from
  {
    if from == |t| || t[from].0 == k then from else IndexFrom(t, k, from + 1)
  }

  /** The position of `k`, or `|t|`. */
  function IndexOf<K(==), V>(t: Table<K, V>, k: K): nat { IndexFrom(t, k, 0) }

  /** `peek`: the value without touching the order. */
  function Peek<K(==), V>(t: Table<K, V>, k: K): Option<V> {
    var i := IndexOf(t, k);
    if i < |t| then Some(t[i].1) else None
  }

  /** `pop`: the table without `k`. */
  function Remove<K(==), V>(t: Table<K, V>, k: K): Table<K, V> {
    var i := IndexOf(t, k);
    if i < |t| then t[..i] + t[i + 1..] else t
  }

  /** Replaces the value of a key that is present, leaving its position alone. */
  function Replace<K(==), V>(t: Table<K, V>, k: K, v: V): Table<K, V> {
    var i := IndexOf(t, k);
    if i < |t| then t[i := (k, v)] else t
  }

  /** `put`: `k` becomes the most recently used; a full table loses its least recently used. */
  function Put<K(==), V>(t: Table<K, V>, cap: nat, k: K, v: V): Table<K, V> {
    if IndexOf(t, k) < |t| then Remove(t, k) + [(k, v)]
    else if |t| < cap || |t| == 0 then t + [(k, v)]
    else t[1..] + [(k, v)]
  }

  lemma PeekAt<K, V>(t: Table<K, V>, i: nat)
    requires Distinct(t) && i < |t|
    ensures IndexOf(t, t[i].0) == i && Peek(t, t[i].0) == Some(t[i].1)
  {
  }

  /** Two tables agree on a key when they hold the same pairs under it. */
  lemma PeekSame<K, V>(s: Table<K, V>, t: Table<K, V>, k: K)
    requires Distinct(t)
    requires forall i :: 0 <= i < |s| && s[i].0 == k ==> exists j :: 0 <= j < |t| && t[j] == s[i]
    requires forall j :: 0 <= j < |t| && t[j].0 == k ==> exists i :: 0 <= i < |s| && s[i].0 == k
    ensures Peek(s, k) == Peek(t, k)
  {
    var i := IndexOf(s, k);
    if i < |s| {
      var j :| 0 <= j < |t| && t[j] == s[i];
      PeekAt(t, j);
    }
  }

  lemma RemoveProperties<K, V>(t: Table<K, V>, k: K)
    requires Distinct(t)
    ensures Distinct(Remove(t, k)) && Peek(Remove(t, k), k) == None
    ensures |Remove(t, k)| == if Peek(t, k) == None then |t| else |t| - 1
    ensures forall x :: x != k ==> Peek(Remove(t, k), x) == Peek(t, x)
  {
    var i, r := IndexOf(t, k), Remove(t, k);
    assert i < |t| ==> forall j :: 0 <= j < |r| ==> r[j] == t[if j < i then j else j + 1];
    forall x | x != k ensures Peek(r, x) == Peek(t, x) {
      forall j | 0 <= j < |t| && t[j].0 == x ensures exists y :: 0 <= y < |r| && r[y].0 == x {
        assert r[if j < i then j else j - 1] == t[j];
      }
      PeekSame(r, t, x);
    }
  }

  lemma ReplaceProperties<K, V>(t: Table<K, V>, k: K, v: V)
    requires Distinct(t) && Peek(t, k) != None
    ensures Distinct(Replace(t, k, v)) && Peek(Replace(t, k, v), k) == Some(v)
    ensures |Replace(t, k, v)| == |t|
    ensures forall x :: x != k ==> Peek(Replace(t, k, v), x) == Peek(t, x)
  {
    var i, r := IndexOf(t, k), Replace(t, k, v);
    PeekAt(r, i);
    forall x | x != k ensures Peek(r, x) == Peek(t, x) {
      forall j | 0 <= j < |t| && t[j].0 == x ensures exists y :: 0 <= y < |r| && r[y].0 == x {
        assert r[j] == t[j];
      }
      PeekSame(r, t, x);
    }
  }

  lemma AppendProperties<K, V>(t: Table<K, V>, k: K, v: V)
    requires Distinct(t) && Peek(t, k) == None
    ensures Distinct(t + [(k, v)]) && Peek(t + [(k, v)], k) == Some(v)
    ensures forall x :: x != k ==> Peek(t + [(k, v)], x) == Peek(t, x)
  {
    var r := t + [(k, v)];
    PeekAt(r, |t|);
    forall x | x != k ensures Peek(r, x) == Peek(t, x) {
      forall j | 0 <= j < |t| && t[j].0 == x ensures exists y :: 0 <= y < |r| && r[y].0 == x {
        assert r[j] == t[j];
      }
      PeekSame(r, t, x);
    }
  }

  /** Dropping the entry at `i` and rotating what stood before it to the back. */
  lemma RotateProperties<K, V>(t: Table<K, V>, i: nat)
    requires Distinct(t) && i < |t|
    ensures Distinct(t[i + 1..] + t[..i]) && Peek(t[i + 1..] + t[..i], t[i].0) == None
    ensures forall x :: x != t[i].0 ==> Peek(t[i + 1..] + t[..i], x) == Peek(t, x)
  {
    var r := t[i + 1..] + t[..i];
    var n := |t| - i - 1;
    assert forall j :: 0 <= j < |r| ==> r[j] == t[if j < n then j + i + 1 else j - n];
    forall x | x != t[i].0 ensures Peek(r, x) == Peek(t, x) {
      forall j | 0 <= j < |t| && t[j].0 == x ensures exists y :: 0 <= y < |r| && r[y].0 == x {
        assert r[if j < i then j + n else j - i - 1] == t[j];
      }
      PeekSame(r, t, x);
    }
  }

  /** A key is found after `Put`; every other key keeps its value, but for the least recently
      used one where a new key enters a full table, which goes. */
  lemma PutProperties<K, V>(t: Table<K, V>, cap: nat, k: K, v: V)
    requires Distinct(t) && |t| <= cap && cap > 0
    ensures Distinct(Put(t, cap, k, v)) && |Put(t, cap, k, v)| <= cap
    ensures Peek(Put(t, cap, k, v), k) == Some(v)
    ensures forall x :: x != k ==>
              Peek(Put(t, cap, k, v), x) == if Peek(t, k) == None && |t| == cap && x == t[0].0 then None else Peek(t, x)
  {
    RemoveProperties(t, k);
    if Peek(t, k) != None {
      AppendProperties(Remove(t, k), k, v);
    } else if |t| < cap {
      AppendProperties(t, k, v);
    } else {
      RotateProperties(t, 0);
      assert t[1..] + t[..0] == t[1..];
      assert Peek(t[1..], k) == None;
      AppendProperties(t[1..], k, v);
    }
  }

  // ---- The order ----

  /** `x` was used less recently than `y`. */
  predicate Before<K(==), V>(t: Table<K, V>, x: K, y: K) { IndexOf(t, x) < IndexOf(t, y) < |t| }

  /** `k` is the most recently used of `t`. */
  predicate MostRecent<K(==), V>(t: Table<K, V>, k: K) { |t| > 0 && t[|t| - 1].0 == k }

  /** All that `t` still has, but for `k`, stands in the order of `s`. */
  ghost predicate SameOrderBut<K(!new), V>(s: Table<K, V>, t: Table<K, V>, k: K) {
    forall x, y :: x != k && y != k && Peek(t, x) != None && Peek(t, y) != None ==>
      (Before(t, x, y) <==> Before(s, x, y))
  }

  /** `t[..n]` is `s` without the entry at `i`. */
  lemma OrderWithout<K(!new), V>(s: Table<K, V>, i: nat, t: Table<K, V>, n: nat, k: K)
    requires Distinct(s) && Distinct(t) && i <= |s| && n <= |t| <= n + 1 && (|t| > n ==> t[n].0 == k)
    requires t[..n] == if i < |s| then s[..i] + s[i + 1..] else s
    ensures SameOrderBut(s, t, k)
  {
    forall x, y | x != k && y != k && Peek(t, x) != None && Peek(t, y) != None
      ensures Before(t, x, y) <==> Before(s, x, y)
    {
      var (a, b) := (IndexOf(t, x), IndexOf(t, y));
      assert t[a] == t[..n][a] && t[b] == t[..n][b];
      PeekAt(s, if a < i then a else a + 1);
      PeekAt(s, if b < i then b else b + 1);
    }
  }

  /** What is put becomes the most recently used, and the others keep their order. */
  lemma PutOrder<K(!new), V>(t: Table<K, V>, cap: nat, k: K, v: V)
    requires Distinct(t) && |t| <= cap && cap > 0
    ensures MostRecent(Put(t, cap, k, v), k) && SameOrderBut(t, Put(t, cap, k, v), k)
  {
    PutProperties(t, cap, k, v);
    var i := IndexOf(t, k);
    if i < |t| {
      OrderWithout(t, i, Remove(t, k) + [(k, v)], |t| - 1, k);
    } else if |t| < cap {
      OrderWithout(t, |t|, t + [(k, v)], |t|, k);
    } else {
      OrderWithout(t, 0, t[1..] + [(k, v)], |t| - 1, k);
    }
  }
}
