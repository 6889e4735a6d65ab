/** Facts about finite sets that several modules use. */
module Sets {

  lemma EmptyIfNoMember<T>(s: set<T>)
    requires forall x :: x !in s
    ensures s == {}
  {
  }

  /** A witness of non-emptiness, for choosing from `s` afterwards. */
  lemma Member<T>(s: set<T>) returns (x: T)
    requires s != {}
    ensures x in s
  {
    if !exists x :: x in s {
      EmptyIfNoMember(s);
      assert false;
    }
    x :| x in s;
  }

  lemma SubsetSize<T>(a: set<T>, b: set<T>)
    requires a <= b
    ensures |a| <= |b|
    ensures |a| == |b| ==> a == b
  {
    assert b == a + (b - a);
  }
}
