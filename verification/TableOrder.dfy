/** The importer's table order: depth-first over foreign keys, tolerating cycles. */
module TableOrder {
  import opened Sets

  type Table = string
  /** The tables each table references; self-references are left out when it is built. */
  type Dependencies = map<Table, set<Table>>

  ghost predicate IsPath(deps: Dependencies, p: seq<Table>)
  {
    |p| > 0 && forall i | 0 <= i < |p| - 1 :: p[i] in deps && p[i + 1] in deps[p[i]]
  }

  /** Following references from `a` leads to `b`, in zero or more steps. */
  ghost predicate Reaches(deps: Dependencies, a: Table, b: Table)
  {
    exists p :: IsPath(deps, p) && p[0] == a && p[|p| - 1] == b
  }

  ghost predicate HasEdge(deps: Dependencies, child: Table, parent: Table)
  {
    child in deps && parent in deps[child]
  }

  /** The edge lies on a cycle: its parent leads back to its child. */
  ghost predicate OnCycle(deps: Dependencies, child: Table, parent: Table)
  {
    HasEdge(deps, child, parent) && Reaches(deps, parent, child)
  }

  lemma ReachesSelf(deps: Dependencies, a: Table)
    ensures Reaches(deps, a, a)
  {
    assert IsPath(deps, [a]);
  }

  lemma {:induction false} ReachesEdge(deps: Dependencies, a: Table, b: Table, c: Table)
    requires Reaches(deps, a, b) && HasEdge(deps, b, c)
    ensures Reaches(deps, a, c)
  {
    var p :| IsPath(deps, p) && p[0] == a && p[|p| - 1] == b;
    var q := p + [c];
    assert IsPath(deps, q) && q[0] == a && q[|q| - 1] == c;
  }

  /** References built from the foreign-key rows: known tables only, no self-references. */
  method BuildDependencies(tables: set<Table>, rows: seq<(Table, Table)>) returns (deps: Dependencies)
    ensures deps.Keys == tables
    ensures forall c, p | HasEdge(deps, c, p) :: p in tables && p != c && (c, p) in rows
    ensures forall c, p | (c, p) in rows && c in tables && p in tables && c != p :: HasEdge(deps, c, p)
  {
    deps := map t | t in tables :: {};
    for i := 0 to |rows|
      invariant deps.Keys == tables
      invariant forall c, p | HasEdge(deps, c, p) :: p in tables && p != c && (c, p) in rows[..i]
      invariant forall c, p | (c, p) in rows[..i] && c in tables && p in tables && c != p :: HasEdge(deps, c, p)
    {
      var (child, parent) := rows[i];
      assert rows[..i + 1] == rows[..i] + [(child, parent)];
      assert forall x :: x in rows[..i + 1] <==> x in rows[..i] || x == (child, parent);
      ghost var before := deps;
      if child in deps && parent in deps && child != parent {
        deps := deps[child := deps[child] + {parent}];
      }
      assert forall c, p :: HasEdge(deps, c, p) ==> HasEdge(before, c, p) || (c, p) == (child, parent);
      assert forall c, p :: HasEdge(before, c, p) ==> HasEdge(deps, c, p);
    }
    assert rows[..|rows|] == rows;
  }

  /** What the emitted order promises: a parent that does not come earlier leads back. */
  ghost predicate WellOrdered(deps: Dependencies, ordered: seq<Table>)
  {
    forall i, parent | 0 <= i < |ordered| && HasEdge(deps, ordered[i], parent) ::
      parent in ordered[..i] || Reaches(deps, parent, ordered[i])
  }

  ghost predicate Distinct(s: seq<Table>)
  {
    forall i, j | 0 <= i < j < |s| :: s[i] != s[j]
  }

  class Ordering {
    const deps: Dependencies
    var ordered: seq<Table>
    var visiting: set<Table>
    var visited: set<Table>

    ghost predicate Valid()
      reads this
    {
      && Distinct(ordered) && (forall t :: t in ordered <==> t in visited)
      && visiting !! visited
      && visiting <= deps.Keys && visited <= deps.Keys
      && WellOrdered(deps, ordered)
    }

    constructor (deps: Dependencies)
      ensures Valid() && this.deps == deps && ordered == [] && visiting == {} && visited == {}
    {
      this.deps := deps;
      ordered, visiting, visited := [], {}, {};
    }

    method Visit(table: Table)
      requires Valid() && table in deps
      requires forall t | t in deps :: deps[t] <= deps.Keys
      requires forall v | v in visiting :: Reaches(deps, v, table)
      modifies this
      ensures Valid() && visiting == old(visiting)
      ensures table in visited || table in visiting
      ensures old(visited) <= visited
      decreases deps.Keys - visited - visiting, 0
    {
      hide WellOrdered, Reaches, Distinct;
      if table in visited {
        return;
      }
      if table in visiting {
        return;
      }
      visiting := visiting + {table};
      ReachesSelf(deps, table);
      VisitParents(table);
      visiting := visiting - {table};
      visited := visited + {table};
      AppendKeeps(deps, ordered, table);
      ordered := ordered + [table];
    }

    /** Parents are visited in an unspecified order; the source sorts them. */
    method VisitParents(table: Table)
      requires Valid() && table in visiting
      requires forall t | t in deps :: deps[t] <= deps.Keys
      requires forall v | v in visiting :: Reaches(deps, v, table)
      modifies this
      ensures Valid() && visiting == old(visiting)
      ensures forall p | p in deps[table] :: p in visited || p in visiting
      ensures old(visited) <= visited
      decreases deps.Keys - visited - visiting, 1
    {
      hide WellOrdered, Reaches, Distinct;
      var parents := deps[table];
      while parents != {}
        invariant Valid() && visiting == old(visiting)
        invariant parents <= deps[table]
        invariant forall p | p in deps[table] - parents :: p in visited || p in visiting
        invariant old(visited) <= visited
        decreases parents
      {
        ghost var some := Member(parents);
        var parent :| parent in parents;
        parents := parents - {parent};
        forall v | v in visiting
          ensures Reaches(deps, v, parent)
        {
          ReachesEdge(deps, v, table, parent);
        }
        Visit(parent);
      }
    }
  }

  lemma AppendKeeps(deps: Dependencies, ordered: seq<Table>, table: Table)
    requires WellOrdered(deps, ordered) && Distinct(ordered) && table !in ordered
    requires forall p | HasEdge(deps, table, p) :: p in ordered || Reaches(deps, p, table)
    ensures WellOrdered(deps, ordered + [table]) && Distinct(ordered + [table])
  {
    var longer := ordered + [table];
    forall i, parent | 0 <= i < |longer| && HasEdge(deps, longer[i], parent)
      ensures parent in longer[..i] || Reaches(deps, parent, longer[i])
    {
      if i < |ordered| {
        assert longer[..i] == ordered[..i];
      } else {
        assert longer[..i] == ordered;
      }
    }
  }

  /** Every table is emitted exactly once, and an edge whose child comes before its parent
      lies on a cycle. */
  method OrderedTables(tables: set<Table>, rows: seq<(Table, Table)>)
    returns (ordered: seq<Table>, deps: Dependencies)
    ensures deps.Keys == tables
    ensures forall c, p :: HasEdge(deps, c, p) <==> (c, p) in rows && c in tables && p in tables && c != p
    ensures Distinct(ordered) && (forall t :: t in ordered <==> t in tables)
    ensures WellOrdered(deps, ordered)
  {
    deps := BuildDependencies(tables, rows);
    assert forall t | t in deps :: deps[t] <= deps.Keys by {
      forall t, p | t in deps && p in deps[t]
        ensures p in deps.Keys
      {
        assert HasEdge(deps, t, p);
      }
    }
    var order := new Ordering(deps);
    var todo := tables;
    while todo != {}
      invariant order.Valid() && order.deps == deps && order.visiting == {}
      invariant todo <= tables && tables - todo <= order.visited
      decreases |todo|
    {
      ghost var some := Member(todo);
      var table :| table in todo;
      todo := todo - {table};
      order.Visit(table);
    }
    ordered := order.ordered;
  }

  // ---- Consequences for any such order ----

  /** Every parent comes before its children. */
  ghost predicate ParentsFirst(deps: Dependencies, ordered: seq<Table>)
  {
    forall i, parent | 0 <= i < |ordered| && HasEdge(deps, ordered[i], parent) :: parent in ordered[..i]
  }

  ghost predicate Acyclic(deps: Dependencies)
  {
    forall c, p | HasEdge(deps, c, p) :: !Reaches(deps, p, c)
  }

  lemma {:induction false} LateParentIsOnCycle(deps: Dependencies, ordered: seq<Table>, i: nat, j: nat)
    requires WellOrdered(deps, ordered) && Distinct(ordered)
    requires i < j < |ordered| && HasEdge(deps, ordered[i], ordered[j])
    ensures OnCycle(deps, ordered[i], ordered[j])
  {
    assert ordered[j] !in ordered[..i];
  }

  /** In a parents-first order, following references only ever moves towards the front. */
  lemma {:induction false} PathMovesForward(deps: Dependencies, ordered: seq<Table>, p: seq<Table>, i: nat)
    returns (k: nat)
    requires ParentsFirst(deps, ordered) && IsPath(deps, p) && i < |ordered| && ordered[i] == p[0]
    ensures k <= i && ordered[k] == p[|p| - 1]
    decreases |p|
  {
    if |p| == 1 {
      k := i;
    } else {
      assert HasEdge(deps, p[0], p[1]);
      assert p[1] in ordered[..i];
      var j :| 0 <= j < i && ordered[j] == p[1];
      forall m | 0 <= m < |p[1..]| - 1
        ensures p[1..][m] in deps && p[1..][m + 1] in deps[p[1..][m]]
      {
        assert p[m + 1] in deps && p[m + 2] in deps[p[m + 1]];
      }
      assert IsPath(deps, p[1..]);
      k := PathMovesForward(deps, ordered, p[1..], j);
    }
  }

  /** Parents come first exactly when the references have no cycle. */
  lemma {:induction false} ParentsFirstIffAcyclic(deps: Dependencies, ordered: seq<Table>)
    requires WellOrdered(deps, ordered) && Distinct(ordered) && forall t :: t in ordered <==> t in deps
    ensures ParentsFirst(deps, ordered) <==> Acyclic(deps)
  {
    if ParentsFirst(deps, ordered) {
      forall c, p | HasEdge(deps, c, p)
        ensures !Reaches(deps, p, c)
      {
        if Reaches(deps, p, c) {
          var path :| IsPath(deps, path) && path[0] == p && path[|path| - 1] == c;
          assert c in ordered;
          var i :| 0 <= i < |ordered| && ordered[i] == c;
          assert p in ordered[..i];
          var j :| 0 <= j < i && ordered[j] == p;
          var k := PathMovesForward(deps, ordered, path, j);
          assert false;
        }
      }
    }
    if Acyclic(deps) {
      forall i, parent | 0 <= i < |ordered| && HasEdge(deps, ordered[i], parent)
        ensures parent in ordered[..i]
      {
        assert !Reaches(deps, parent, ordered[i]);
      }
    }
  }
}
