/** A JavaScript `Map`: string keys remembered in insertion order. Setting an existing key
    keeps its place; deleting and setting it again moves it to the end. */
module OrderedMaps {

  datatype OrderedMap<V> = OrderedMap(order: seq<string>, at: map<string, V>)

  ghost predicate Distinct<T>(s: seq<T>)
  {
    forall i, j | 0 <= i < j < |s| :: s[i] != s[j]
  }

  ghost predicate Valid<V>(m: OrderedMap<V>)
  {
    Distinct(m.order) && forall k :: k in m.order <==> k in m.at
  }

  function Empty<V>(): (m: OrderedMap<V>)
    ensures Valid(m)
  {
    OrderedMap([], map[])
  }

  function Without(s: seq<string>, k: string): (r: seq<string>)
    ensures forall x :: x in r <==> x in s && x != k
    ensures Distinct(s) ==> Distinct(r) && |r| == if k in s then |s| - 1 else |s|
  {
    if s == [] then []
    else
      assert s == [s[0]] + s[1..];
      var rest := Without(s[1..], k);
      assert Distinct(s) ==> s[0] !in s[1..];
      assert s[0] !in s[1..] ==> s[0] !in rest;
      if s[0] == k then rest else [s[0]] + rest
  }

  function Keeping(s: seq<string>, keep: set<string>): (r: seq<string>)
    ensures forall x :: x in r <==> x in s && x in keep
    ensures Distinct(s) ==> Distinct(r)
    ensures |r| <= |s|
  {
    if s == [] then []
    else
      assert s == [s[0]] + s[1..];
      var rest := Keeping(s[1..], keep);
      if s[0] in keep then [s[0]] + rest else rest
  }

  function Delete<V>(m: OrderedMap<V>, k: string): (r: OrderedMap<V>)
    ensures Valid(m) ==> Valid(r) && |r.order| == if k in m.at then |m.order| - 1 else |m.order|
  {
    OrderedMap(Without(m.order, k), m.at - {k})
  }

  function Set<V>(m: OrderedMap<V>, k: string, v: V): (r: OrderedMap<V>)
    ensures Valid(m) ==> Valid(r) && |r.order| == if k in m.at then |m.order| else |m.order| + 1
  {
    OrderedMap(if k in m.at then m.order else m.order + [k], m.at[k := v])
  }

  /** Deletes the first key if it is truthy: an empty-string key would survive. */
  function DeleteOldest<V>(m: OrderedMap<V>): (r: OrderedMap<V>)
    ensures Valid(m) ==> Valid(r) && r.at.Keys <= m.at.Keys
    ensures Valid(m) && m.order != [] && "" !in m.at ==> |r.order| == |m.order| - 1
    ensures forall k :: k in r.at ==> k in m.at && r.at[k] == m.at[k]
  {
    if m.order != [] && m.order[0] != "" then
      assert m.order[0] in m.order;
      Delete(m, m.order[0])
    else m
  }

  function Restrict<V>(m: OrderedMap<V>, keep: set<string>): (r: OrderedMap<V>)
    ensures Valid(m) ==> Valid(r) && |r.order| <= |m.order|
  {
    OrderedMap(Keeping(m.order, keep), map k | k in m.at && k in keep :: m.at[k])
  }

  lemma {:induction false} KeepingWithout(s: seq<string>, keep: set<string>, k: string)
    ensures Without(Keeping(s, keep), k) == Keeping(s, keep - {k})
  {
    hide Distinct;
    if s != [] {
      KeepingWithout(s[1..], keep, k);
      if s[0] in keep {
        assert ([s[0]] + Keeping(s[1..], keep))[1..] == Keeping(s[1..], keep);
      }
    }
  }

  lemma {:induction false} KeepingAll(s: seq<string>, keep: set<string>)
    requires forall x | x in s :: x in keep
    ensures Keeping(s, keep) == s
  {
    hide Distinct;
    if s != [] {
      KeepingAll(s[1..], keep);
      assert s == [s[0]] + s[1..];
    }
  }

  lemma RestrictDelete<V>(m: OrderedMap<V>, keep: set<string>, k: string)
    ensures Delete(Restrict(m, keep), k) == Restrict(m, keep - {k})
  {
    KeepingWithout(m.order, keep, k);
    assert Restrict(m, keep).at - {k} == Restrict(m, keep - {k}).at;
  }

  /** A prefix whose keys are all kept stays in place. */
  lemma {:induction false} KeepingPrefix(s: seq<string>, keep: set<string>, n: nat)
    requires n <= |s| && forall i | 0 <= i < n :: s[i] in keep
    ensures s[..n] <= Keeping(s, keep)
  {
    hide Distinct;
    if n > 0 {
      KeepingPrefix(s[1..], keep, n - 1);
      assert s[..n] == [s[0]] + s[1..][..n - 1];
    }
  }

  lemma RestrictAt<V>(m: OrderedMap<V>, keep: set<string>, k: string)
    requires k in m.at && k in keep
    ensures k in Restrict(m, keep).at && Restrict(m, keep).at[k] == m.at[k]
  {
  }

  lemma RestrictPrefix<V>(m: OrderedMap<V>, keep: set<string>, n: nat)
    requires n <= |m.order| && forall i | 0 <= i < n :: m.order[i] in keep
    ensures m.order[..n] <= Restrict(m, keep).order
  {
    KeepingPrefix(m.order, keep, n);
  }

  lemma RestrictAll<V>(m: OrderedMap<V>)
    requires Valid(m)
    ensures Restrict(m, m.at.Keys) == m
  {
    KeepingAll(m.order, m.at.Keys);
    assert Restrict(m, m.at.Keys).at == m.at;
  }
}
