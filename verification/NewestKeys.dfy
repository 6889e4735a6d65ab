/** Finite maps keyed by timestamps: the newest `n` entries, the entries from a cutoff on,
    and how the two interact. Everything the metric store's eviction rests on is here. */
module NewestKeys {
  import opened Sets

  function Newer(keys: set<int>, t: int): set<int>
  {
    set u | u in keys && t < u
  }

  /** The `n` largest keys: those with fewer than `n` keys above them. */
  function Newest(keys: set<int>, n: nat): set<int>
  {
    set t | t in keys && |Newer(keys, t)| < n
  }

  function Since<V>(m: map<int, V>, cutoff: int): map<int, V>
  {
    map t | t in m && cutoff <= t :: m[t]
  }

  function KeepNewest<V>(m: map<int, V>, n: nat): map<int, V>
  {
    map t | t in Newest(m.Keys, n) :: m[t]
  }

  lemma {:induction false} MinExists(s: set<int>)
    requires s != {}
    ensures exists x :: x in s && forall y :: y in s ==> x <= y
    decreases |s|
  {
    var x := Member(s);
    var rest := s - {x};
    if rest != {} {
      MinExists(rest);
      var z :| z in rest && forall y :: y in rest ==> z <= y;
      var least := if x <= z then x else z;
      assert forall y :: y in s ==> y == x || y in rest;
      assert least in s && forall y :: y in s ==> least <= y;
    } else {
      assert forall y :: y in s ==> y == x || y in rest;
    }
  }

  function Min(s: set<int>): (x: int)
    requires s != {}
    ensures x in s && forall y :: y in s ==> x <= y
  {
    MinExists(s);
    var x :| x in s && forall y :: y in s ==> x <= y;
    x
  }

  lemma {:induction false} MaxExists(s: set<int>)
    requires s != {}
    ensures exists x :: x in s && forall y :: y in s ==> y <= x
    decreases |s|
  {
    var x := Member(s);
    var rest := s - {x};
    if rest != {} {
      MaxExists(rest);
      var z :| z in rest && forall y :: y in rest ==> y <= z;
      var largest := if x <= z then z else x;
      assert forall y :: y in s ==> y == x || y in rest;
      assert largest in s && forall y :: y in s ==> y <= largest;
    } else {
      assert forall y :: y in s ==> y == x || y in rest;
    }
  }

  function Max(s: set<int>): (x: int)
    requires s != {}
    ensures x in s && forall y :: y in s ==> y <= x
  {
    MaxExists(s);
    var x :| x in s && forall y :: y in s ==> y <= x;
    x
  }

  /** Ranks only shrink when keys are taken away or the timestamp grows. */
  lemma NewerMonotone(a: set<int>, b: set<int>, t: int, u: int)
    requires a <= b && t <= u
    ensures |Newer(a, u)| <= |Newer(b, t)|
  {
    SubsetSize(Newer(a, u), Newer(b, t));
  }

  lemma {:induction false} NewestUpClosed(keys: set<int>, n: nat, t: int, u: int)
    requires t in Newest(keys, n) && u in keys && t <= u
    ensures u in Newest(keys, n)
  {
    NewerMonotone(keys, keys, t, u);
  }

  /** Dropping the oldest key of an over-full set leaves its newest `n` alone. */
  lemma {:induction false} NewestDropMin(keys: set<int>, n: nat)
    requires n < |keys|
    ensures Newest(keys - {Min(keys)}, n) == Newest(keys, n)
  {
    var m := Min(keys);
    assert Newer(keys, m) == keys - {m};
    assert m !in Newest(keys, n);
    forall t | t in keys && t != m
      ensures Newer(keys - {m}, t) == Newer(keys, t)
    {
    }
  }

  lemma {:induction false} NewestSize(keys: set<int>, n: nat)
    ensures |Newest(keys, n)| == if |keys| <= n then |keys| else n
    ensures |keys| <= n ==> Newest(keys, n) == keys
    decreases |keys|
  {
    if |keys| <= n {
      forall t | t in keys
        ensures |Newer(keys, t)| < n
      {
        SubsetSize(Newer(keys, t), keys);
      }
      assert Newest(keys, n) == keys;
    } else {
      NewestDropMin(keys, n);
      NewestSize(keys - {Min(keys)}, n);
    }
  }

  lemma SinceSince<V>(m: map<int, V>, c: int, d: int)
    requires c <= d
    ensures Since(Since(m, c), d) == Since(m, d)
  {
  }

  lemma SinceMerge<V>(m: map<int, V>, upd: map<int, V>, c: int)
    ensures Since(m + upd, c) == Since(m, c) + Since(upd, c)
  {
  }

  lemma SinceHigher<V>(x: map<int, V>, y: map<int, V>, c: int, d: int)
    requires Since(x, c) == Since(y, c) && c <= d
    ensures Since(x, d) == Since(y, d)
  {
    SinceSince(x, c, d);
    SinceSince(y, c, d);
  }

  /** Keeping the newest commutes with cutting off a prefix. */
  lemma {:induction false} SinceNewest<V>(m: map<int, V>, n: nat, cutoff: int)
    ensures KeepNewest(Since(m, cutoff), n) == Since(KeepNewest(m, n), cutoff)
  {
    var s := Since(m, cutoff);
    forall t | t in m && cutoff <= t
      ensures Newer(s.Keys, t) == Newer(m.Keys, t)
    {
    }
    assert KeepNewest(s, n).Keys == Since(KeepNewest(m, n), cutoff).Keys;
  }

  /** Streaming selection equals batch selection, on key sets. */
  lemma {:induction false} NewestUnion(x: set<int>, y: set<int>, n: nat)
    ensures Newest(Newest(x, n) + y, n) == Newest(x + y, n)
  {
    var k := Newest(x, n);
    forall t | t in x + y
      ensures t in Newest(k + y, n) <==> t in Newest(x + y, n)
    {
      if t in Newest(x + y, n) {
        NewestUnionKeeps(x, y, n, t);
      } else if t in Newest(k + y, n) {
        NewestUnionAdmits(x, y, n, t);
        assert false;
      }
    }
  }

  lemma {:induction false} NewestUnionKeeps(x: set<int>, y: set<int>, n: nat, t: int)
    requires t in Newest(x + y, n)
    ensures t in Newest(Newest(x, n) + y, n)
  {
    var k := Newest(x, n);
    if t in x {
      NewerMonotone(x, x + y, t, t);
    }
    assert t in k + y;
    NewerMonotone(k + y, x + y, t, t);
  }

  lemma {:induction false} NewestUnionAdmits(x: set<int>, y: set<int>, n: nat, t: int)
    requires t in Newest(Newest(x, n) + y, n)
    ensures t in Newest(x + y, n)
  {
    var k := Newest(x, n);
    if u :| u in x && t < u && u !in k {
      // Something newer than t already fell to the cap, so n kept keys are newer than t.
      NewestSize(x, n);
      forall v | v in k
        ensures u < v
      {
        if v <= u {
          NewestUpClosed(x, n, v, u);
        }
      }
      SubsetSize(k, Newer(k + y, t));
      assert false;
    }
    assert Newer(x + y, t) == Newer(k + y, t);
  }

  /** Streaming selection equals batch selection, with the later map's values winning. */
  lemma {:induction false} KeepNewestMerge<V>(m: map<int, V>, upd: map<int, V>, n: nat)
    ensures KeepNewest(KeepNewest(m, n) + upd, n) == KeepNewest(m + upd, n)
  {
    NewestUnion(m.Keys, upd.Keys, n);
    assert KeepNewest(m, n).Keys == Newest(m.Keys, n);
    assert (KeepNewest(m, n) + upd).Keys == Newest(m.Keys, n) + upd.Keys;
    assert (m + upd).Keys == m.Keys + upd.Keys;
    assert KeepNewest(m + upd, n).Keys == Newest(m.Keys + upd.Keys, n);
  }
}
