/** The changes a write makes to the trees it finds, and what keeps them inside the allowed
    roots whatever other processes do in between. */
module WriteChanges {
  import opened Bytes
  import opened PosixPath
  import opened FileTree
  import opened AllowedRoots
  import opened Wrappers

  // ---- Interference ----

  /** What other processes make of the tree `fs` at the t-th await. */
  type Interference = (nat, Node) -> Node

  ghost predicate Calm(others: Interference)
  {
    forall t: nat, fs: Node :: others(t, fs) == fs
  }

  ghost predicate Still(seen: seq<Node>, from: nat, fs: Node)
  {
    forall i | from <= i < |seen| :: seen[i] == fs
  }

  lemma StillLast(seen: seq<Node>, from: nat)
    requires from < |seen|
    ensures forall fs | Still(seen, from, fs) :: fs == seen[|seen| - 1]
  {
  }

  lemma StillBefore(before: seq<Node>, seen: seq<Node>, from: nat)
    requires before <= seen
    ensures forall fs | Still(seen, from, fs) :: Still(before, from, fs)
  {
    forall fs | Still(seen, from, fs)
      ensures Still(before, from, fs)
    {
      assert forall i | from <= i < |before| :: before[i] == seen[i];
    }
  }

  lemma StillMore(before: seq<Node>, from: nat, fs: Node)
    requires from <= |before|
    ensures Still(before, from, fs) ==> Still(before + [fs], from, fs)
    ensures from == |before| ==> Still(before, from, fs)
  {
  }

  lemma StillAfter(seen: seq<Node>, from: nat, later: nat)
    requires from <= later
    ensures forall fs | Still(seen, from, fs) :: Still(seen, later, fs)
  {
  }

  // ---- Climbing to an existing ancestor ----

  /** In a tree that stood still, no ancestor deeper than the first `k` components exists. */
  ghost predicate ClimbedTo(seen: seq<Node>, from: nat, path: Path, k: nat)
    requires k < |path|
  {
    forall fs | Still(seen, from, fs) :: DeepestAncestor(fs, path, |path| - 1) == DeepestAncestor(fs, path, k)
  }

  lemma ClimbStart(seen: seq<Node>, from: nat, path: Path)
    requires path != []
    ensures ClimbedTo(seen, from, path, |path| - 1)
  {
  }

  lemma ClimbStep(seen: seq<Node>, from: nat, path: Path, k: nat, next: Node)
    requires from < |seen| && 0 < k < |path| && ClimbedTo(seen, from, path, k)
    requires !Exists(seen[|seen| - 1], path[..k])
    ensures ClimbedTo(seen + [next], from, path, k - 1)
  {
    hide Exists, Still;
    StillBefore(seen, seen + [next], from);
    StillLast(seen, from);
  }

  lemma ClimbEnd(seen: seq<Node>, from: nat, path: Path)
    requires from < |seen| && path != [] && ClimbedTo(seen, from, path, 0) && !Exists(seen[|seen| - 1], path[..0])
    ensures forall fs | Still(seen, from, fs) :: AncestorOf(fs, path) == None
  {
    hide Still;
    StillLast(seen, from);
  }

  lemma ClimbFound(seen: seq<Node>, from: nat, path: Path, k: nat, next: Node)
    requires from < |seen| && k < |path| && ClimbedTo(seen, from, path, k) && Exists(seen[|seen| - 1], path[..k])
    ensures forall fs | Still(seen + [next], from, fs) ::
              AncestorOf(fs, path) ==
              match Canonicalize(next, path[..k]) case None => None case Some(ancestor) => Some((k, ancestor))
  {
    hide Still, Canonicalize;
    StillBefore(seen, seen + [next], from);
    StillLast(seen, from);
    StillLast(seen + [next], from);
  }

  // ---- Roots found along the way ----

  /** `root` is the canonical form of the configured root in a tree that was there. */
  ghost predicate RootSeen(text: string, root: seq<string>, seen: seq<Node>)
  {
    && ParseAbsolute(text).Some? && root != []
    && exists t | 0 <= t < |seen| :: Canonicalize(seen[t], ParseAbsolute(text).value) == Some(root)
  }

  ghost predicate RootsSeen(allowed: seq<string>, roots: seq<seq<string>>, seen: seq<Node>)
  {
    allowed != [] && |roots| == |allowed| && forall i | 0 <= i < |allowed| :: RootSeen(allowed[i], roots[i], seen)
  }

  lemma SeenLasts(text: string, root: seq<string>, sofar: seq<Node>, seen: seq<Node>)
    requires RootSeen(text, root, sofar) && sofar <= seen
    ensures RootSeen(text, root, seen)
  {
    var t :| 0 <= t < |sofar| && Canonicalize(sofar[t], ParseAbsolute(text).value) == Some(root);
    assert seen[t] == sofar[t];
  }

  lemma LastSeen(text: string, root: seq<string>, seen: seq<Node>)
    requires ParseAbsolute(text).Some? && root != [] && seen != []
    requires Canonicalize(seen[|seen| - 1], ParseAbsolute(text).value) == Some(root)
    ensures RootSeen(text, root, seen)
  {
  }

  // ---- Changes ----

  /** A change made by a walk: a missing allowed root created below its ancestor as resolved in
      the tree `found`, directories created on the way to `target`, or a file written. */
  datatype Change =
    | MakeRoot(before: Node, after: Node, names: seq<string>, found: Node, raw: Path, k: nat)
    | MakeDirs(before: Node, after: Node, names: seq<string>, target: Path)
    | Put(before: Node, after: Node, names: seq<string>, content: seq<byte>)

  /** Directories made at the literal place of the configured root `raw`, below an ancestor of
      it as resolved in a tree that was really there. */
  ghost predicate RootChange(c: Change, raw: Path, seen: seq<Node>)
  {
    && c.MakeRoot? && c.raw == raw && c.k < |raw| && ValidNames(c.names) && c.found in seen
    && Canonicalize(c.found, raw[..c.k]).Some?
    && Embed(c.names) == Embed(Canonicalize(c.found, raw[..c.k]).value) + raw[c.k..]
    && exists j | 0 <= j <= |c.names| :: c.after == WithDirs(c.before, c.names[..j])
  }

  ghost predicate ConfinedChange(c: Change, allowed: seq<string>, roots: seq<seq<string>>, seen: seq<Node>,
                                 data: seq<byte>)
  {
    match c
    case MakeRoot(_, _, _, _, raw, _) =>
      RootChange(c, raw, seen) && exists i | 0 <= i < |allowed| :: ParseAbsolute(allowed[i]) == Some(raw)
    case MakeDirs(before, after, names, target) =>
      && ValidNames(names) && PathUnderRoots(target, roots) && Embed(names) < target
      && exists k | 0 <= k <= |names| :: after == WithDirs(before, names[..k])
    case Put(before, after, names, content) =>
      && Confined(names, roots) && names != [] && IsDirAt(before, names[..|names| - 1])
      && (Lookup(before, names).None? || Lookup(before, names).value.File?)
      && content <= data && after == Graft(before, names, File(content))
  }

  lemma {:induction false} RootChanged(c: Change, ancestor: seq<string>, j: nat, looked: seq<Node>, seen: seq<Node>)
    requires c.MakeRoot? && looked != [] && looked <= seen && c.found == looked[|looked| - 1]
    requires c.k < |c.raw| && ValidPath(c.raw) && Canonicalize(c.found, c.raw[..c.k]) == Some(ancestor)
    requires NormalNames(Embed(ancestor) + c.raw[c.k..]) == Some(c.names)
    requires j <= |c.names| && c.after == WithDirs(c.before, c.names[..j])
    ensures RootChange(c, c.raw, seen)
  {
    hide Canonicalize, WithDirs;
    CanonicalSound(c.found, c.raw[..c.k]);
    EmbedValid(ancestor);
    assert ValidPath(Embed(ancestor) + c.raw[c.k..]);
    assert seen[|looked| - 1] == c.found;
  }

  lemma RootChangeLasts(c: Change, raw: Path, sofar: seq<Node>, seen: seq<Node>)
    requires RootChange(c, raw, sofar) && sofar <= seen
    ensures RootChange(c, raw, seen)
  {
    var t :| 0 <= t < |sofar| && sofar[t] == c.found;
    assert seen[t] == c.found;
  }

  lemma RootChangesLast(changes: seq<Change>, raw: Path, sofar: seq<Node>, seen: seq<Node>)
    requires sofar <= seen && forall i | 0 <= i < |changes| :: RootChange(changes[i], raw, sofar)
    ensures forall i | 0 <= i < |changes| :: RootChange(changes[i], raw, seen)
  {
    hide RootChange;
    forall i | 0 <= i < |changes|
      ensures RootChange(changes[i], raw, seen)
    {
      RootChangeLasts(changes[i], raw, sofar, seen);
    }
  }

  lemma ChangeLasts(c: Change, allowed: seq<string>, roots: seq<seq<string>>, sofar: seq<Node>, seen: seq<Node>,
                    data: seq<byte>)
    requires ConfinedChange(c, allowed, roots, sofar, data) && sofar <= seen
    ensures ConfinedChange(c, allowed, roots, seen, data)
  {
    hide RootChange, ParseAbsolute;
    if c.MakeRoot? {
      RootChangeLasts(c, c.raw, sofar, seen);
    }
  }

  lemma OtherChangesLast(changes: seq<Change>, allowed: seq<string>, roots: seq<seq<string>>, sofar: seq<Node>,
                         seen: seq<Node>, data: seq<byte>)
    requires sofar <= seen && forall i | 0 <= i < |changes| ::
               !changes[i].MakeRoot? && ConfinedChange(changes[i], allowed, roots, sofar, data)
    ensures forall i | 0 <= i < |changes| ::
            !changes[i].MakeRoot? && ConfinedChange(changes[i], allowed, roots, seen, data)
  {
  }

  lemma ChangesLast(changes: seq<Change>, allowed: seq<string>, roots: seq<seq<string>>, sofar: seq<Node>,
                    seen: seq<Node>, data: seq<byte>)
    requires sofar <= seen && forall i | 0 <= i < |changes| :: ConfinedChange(changes[i], allowed, roots, sofar, data)
    ensures forall i | 0 <= i < |changes| :: ConfinedChange(changes[i], allowed, roots, seen, data)
    ensures RootsSeen(allowed, roots, sofar) ==> RootsSeen(allowed, roots, seen)
  {
    hide ConfinedChange, RootSeen;
    forall i | 0 <= i < |changes|
      ensures ConfinedChange(changes[i], allowed, roots, seen, data)
    {
      ChangeLasts(changes[i], allowed, roots, sofar, seen, data);
    }
    if RootsSeen(allowed, roots, sofar) {
      forall i | 0 <= i < |allowed|
        ensures RootSeen(allowed[i], roots[i], seen)
      {
        SeenLasts(allowed[i], roots[i], sofar, seen);
      }
    }
  }

  lemma RootConfined(c: Change, allowed: seq<string>, i: nat, seen: seq<Node>)
    requires i < |allowed| && ParseAbsolute(allowed[i]).Some? && RootChange(c, ParseAbsolute(allowed[i]).value, seen)
    ensures c.MakeRoot? && ConfinedChange(c, allowed, [], seen, [])
  {
  }

  /** Creating a root is judged without the roots and the data. */
  lemma RootChangesUnder(changes: seq<Change>, allowed: seq<string>, roots: seq<seq<string>>, seen: seq<Node>,
                         data: seq<byte>)
    requires forall i | 0 <= i < |changes| :: changes[i].MakeRoot? && ConfinedChange(changes[i], allowed, [], seen, [])
    ensures forall i | 0 <= i < |changes| :: ConfinedChange(changes[i], allowed, roots, seen, data)
  {
  }

  lemma EarlierKept(allowed: seq<string>, roots: seq<seq<string>>, changes: seq<Change>, sofar: seq<Node>,
                    seen: seq<Node>)
    requires sofar <= seen && |roots| <= |allowed|
    requires forall j | 0 <= j < |roots| :: RootSeen(allowed[j], roots[j], sofar)
    requires forall j | 0 <= j < |changes| :: changes[j].MakeRoot? && ConfinedChange(changes[j], allowed, [], sofar, [])
    ensures forall j | 0 <= j < |roots| :: RootSeen(allowed[j], roots[j], seen)
    ensures forall j | 0 <= j < |changes| :: changes[j].MakeRoot? && ConfinedChange(changes[j], allowed, [], seen, [])
  {
    hide ConfinedChange, RootSeen;
    forall j | 0 <= j < |roots|
      ensures RootSeen(allowed[j], roots[j], seen)
    {
      SeenLasts(allowed[j], roots[j], sofar, seen);
    }
    forall j | 0 <= j < |changes|
      ensures ConfinedChange(changes[j], allowed, [], seen, [])
    {
      ChangeLasts(changes[j], allowed, [], sofar, seen, []);
    }
  }

  /** All of `data` was put where a write to `path` goes in any tree that stood still during
      the check that began at `from`. */
  ghost predicate FullPut(c: Change, data: seq<byte>, path: Path, roots: seq<seq<string>>, seen: seq<Node>, from: nat)
  {
    && c.Put? && c.content == data && from < |seen| - 1 && c.before == seen[|seen| - 1]
    && forall fs | Still(seen[..|seen| - 1], from, fs) :: WriteTarget(fs, path, roots) == Ok(Embed(c.names))
  }

  ghost predicate PutAt(c: Change, data: seq<byte>, text: string, roots: seq<seq<string>>, seen: seq<Node>, from: nat)
  {
    ParseAbsolute(text).Some? && FullPut(c, data, ParseAbsolute(text).value, roots, seen, from)
  }

  lemma FullyPut(c: Change, data: seq<byte>, path: Path, roots: seq<seq<string>>, checked: seq<Node>, seen: seq<Node>,
                 from: nat, target: Path)
    requires c.Put? && c.content == data && from < |checked| && |seen| == |checked| + 1 && checked <= seen
    requires c.before == seen[|seen| - 1] && Embed(c.names) == target
    requires forall fs | Still(checked, from, fs) :: WriteTarget(fs, path, roots) == Ok(target)
    ensures FullPut(c, data, path, roots, seen, from)
  {
    hide WriteTarget, Still;
    assert seen[..|seen| - 1] == checked;
  }

  // ---- Everything that happens to the tree ----

  /** One thing that happens to the tree during a write: what an await finds, or a change. */
  datatype Link = Found(before: Node, after: Node) | Made(change: Change)

  function FoundIn(links: seq<Link>): seq<Node>
  {
    if links == [] then []
    else
      var init, last := links[..|links| - 1], links[|links| - 1];
      FoundIn(init) + if last.Found? then [last.after] else []
  }

  function MadeIn(links: seq<Link>): seq<Change>
  {
    if links == [] then []
    else
      var init, last := links[..|links| - 1], links[|links| - 1];
      MadeIn(init) + if last.Made? then [last.change] else []
  }

  /** The links lead from one tree to the other without a gap; awaits count from `t`, and what
      they find is what other processes made of the tree left before. */
  ghost predicate Chain(others: Interference, t: nat, from: Node, links: seq<Link>, to: Node)
  {
    if links == [] then from == to
    else
      var init, last := links[..|links| - 1], links[|links| - 1];
      match last
      case Found(before, after) =>
        after == to == others(t + |FoundIn(init)|, before) && Chain(others, t, from, init, before)
      case Made(c) => c.after == to && Chain(others, t, from, init, c.before)
  }

  /** `links` is all that happened between `from`, when `seen0` had been seen, and `to`: the
      awaits found exactly what has been seen since, and the changes are exactly `changes`. */
  ghost predicate Traced(others: Interference, from: Node, seen0: seq<Node>, links: seq<Link>, to: Node,
                         seen: seq<Node>, changes: seq<Change>)
  {
    seen == seen0 + FoundIn(links) && MadeIn(links) == changes && Chain(others, |seen0|, from, links, to)
  }

  lemma TracedNothing(others: Interference, fs: Node, seen: seq<Node>)
    ensures Traced(others, fs, seen, [], fs, seen, [])
  {
  }

  lemma TracedAwait(others: Interference, from: Node, seen0: seq<Node>, links: seq<Link>, to: Node, seen: seq<Node>,
                    changes: seq<Change>)
    requires Traced(others, from, seen0, links, to, seen, changes)
    ensures var after := others(|seen|, to);
            Traced(others, from, seen0, links + [Found(to, after)], after, seen + [after], changes)
  {
    var more := links + [Found(to, others(|seen|, to))];
    assert more[..|links|] == links;
    assert seen0 + (FoundIn(links) + [others(|seen|, to)]) == seen + [others(|seen|, to)];
  }

  lemma TracedMade(others: Interference, from: Node, seen0: seq<Node>, links: seq<Link>, seen: seq<Node>,
                   changes: seq<Change>, c: Change)
    requires Traced(others, from, seen0, links, c.before, seen, changes)
    ensures Traced(others, from, seen0, links + [Made(c)], c.after, seen, changes + [c])
    ensures changes == [] ==> Traced(others, from, seen0, links + [Made(c)], c.after, seen, [c])
  {
    assert [] + [c] == [c];
    assert (links + [Made(c)])[..|links|] == links;
  }

  lemma {:induction false} LinksThen(x: seq<Link>, y: seq<Link>)
    ensures FoundIn(x + y) == FoundIn(x) + FoundIn(y) && MadeIn(x + y) == MadeIn(x) + MadeIn(y)
    decreases |y|
  {
    if y == [] {
      assert x + y == x;
    } else {
      assert (x + y)[..|x + y| - 1] == x + y[..|y| - 1];
      LinksThen(x, y[..|y| - 1]);
    }
  }

  lemma {:induction false} ChainThen(others: Interference, t: nat, a: Node, x: seq<Link>, b: Node, y: seq<Link>,
                                     c: Node)
    requires Chain(others, t, a, x, b) && Chain(others, t + |FoundIn(x)|, b, y, c)
    ensures Chain(others, t, a, x + y, c)
    decreases |y|
  {
    if y == [] {
      assert x + y == x;
    } else {
      var init, last := y[..|y| - 1], y[|y| - 1];
      assert (x + y)[..|x + y| - 1] == x + init;
      LinksThen(x, init);
      ChainThen(others, t, a, x, b, init, if last.Found? then last.before else last.change.before);
    }
  }

  /** What happened first and what happened next. */
  lemma {:induction false} TracedThen(others: Interference, a: Node, seen0: seq<Node>, x: seq<Link>, b: Node,
                                      seen1: seq<Node>, first: seq<Change>, y: seq<Link>, c: Node, seen2: seq<Node>,
                                      next: seq<Change>)
    requires Traced(others, a, seen0, x, b, seen1, first) && Traced(others, b, seen1, y, c, seen2, next)
    ensures Traced(others, a, seen0, x + y, c, seen2, first + next)
    ensures first == next == [] ==> Traced(others, a, seen0, x + y, c, seen2, [])
  {
    assert first == next == [] ==> first + next == [];
    hide Chain, FoundIn, MadeIn;
    LinksThen(x, y);
    ChainThen(others, |seen0|, a, x, b, y, c);
    Associative(seen0, FoundIn(x), FoundIn(y));
  }

  // ---- Nothing outside the allowed roots ----

  /** Files, links and special nodes outside the roots are the same after any change, directories
      stay directories, and the only thing that can appear outside is a directory on the way to a
      target inside, or to a configured root that was missing. */
  lemma {:induction false} ChangeOutsideRoots(c: Change, allowed: seq<string>, roots: seq<seq<string>>, seen: seq<Node>,
                                              data: seq<byte>, q: seq<string>)
    requires ConfinedChange(c, allowed, roots, seen, data) && !UnderRoots(q, roots)
    ensures var before, after := Lookup(c.before, q), Lookup(c.after, q);
            && (before.Some? && !before.value.Dir? ==> after == before)
            && (before.Some? && before.value.Dir? ==> after.Some? && after.value.Dir?)
            && (before.None? && after.Some? ==> !c.Put? && q <= c.names && after.value.Dir?)
  {
    hide Canonicalize, ParseAbsolute, Lookup, WithDirs, Graft;
    match c
    case MakeRoot(before, after, names, _, raw, _) =>
      var k :| 0 <= k <= |names| && after == WithDirs(before, names[..k]);
      LookupWithDirs(before, names[..k], q);
    case MakeDirs(before, after, names, target) =>
      var k :| 0 <= k <= |names| && after == WithDirs(before, names[..k]);
      LookupWithDirs(before, names[..k], q);
    case Put(before, after, names, content) =>
      if names <= q {
        UnderRootsExtends(names, q, roots);
        assert false;
      }
      LookupGraft(before, names, File(content), q);
      if q <= names {
        assert q == names[..|names| - 1][..|q|];
        LookupPrefix(before, names[..|names| - 1], |q|);
        GraftKeepsParent(before, names, File(content));
        LookupPrefix(after, names[..|names| - 1], |q|);
      }
  }

  /** The same node is at `q`, or a directory still is. */
  ghost predicate SameAt(before: Node, after: Node, q: seq<string>)
  {
    Lookup(after, q) == Lookup(before, q) || (IsDirAt(before, q) && IsDirAt(after, q))
  }

  /** A directory on the way to something one of the changes made. */
  ghost predicate OnTheWay(changes: seq<Change>, q: seq<string>)
  {
    exists i | 0 <= i < |changes| :: !changes[i].Put? && q <= changes[i].names
  }

  lemma {:induction false} ChainOutsideRoots(others: Interference, t: nat, from: Node, links: seq<Link>, to: Node,
                                             allowed: seq<string>, roots: seq<seq<string>>, seen: seq<Node>,
                                             data: seq<byte>, q: seq<string>)
    requires Chain(others, t, from, links, to) && !UnderRoots(q, roots)
    requires forall i | 0 <= i < |links| && links[i].Found? :: SameAt(links[i].before, links[i].after, q)
    requires forall i | 0 <= i < |MadeIn(links)| :: ConfinedChange(MadeIn(links)[i], allowed, roots, seen, data)
    ensures SameAt(from, to, q) || (Lookup(from, q).None? && IsDirAt(to, q) && OnTheWay(MadeIn(links), q))
    decreases |links|
  {
    hide Lookup, ConfinedChange, UnderRoots;
    if links != [] {
      var init, last := links[..|links| - 1], links[|links| - 1];
      var made := MadeIn(init);
      assert forall i | 0 <= i < |made| :: made[i] == MadeIn(links)[i];
      ChainOutsideRoots(others, t, from, init, if last.Found? then last.before else last.change.before, allowed, roots,
                        seen, data, q);
      if last.Made? {
        assert MadeIn(links)[|made|] == last.change;
        ChangeOutsideRoots(last.change, allowed, roots, seen, data, q);
      }
    }
  }

  /** Over everything that happens during a write, whether it succeeds or fails, nothing is
      altered at a place outside the roots that other processes leave alone: at most a directory
      on the way appears there. */
  lemma TraceOutsideRoots(others: Interference, from: Node, seen0: seq<Node>, links: seq<Link>, to: Node,
                          seen: seq<Node>, changes: seq<Change>, allowed: seq<string>, roots: seq<seq<string>>,
                          data: seq<byte>, q: seq<string>)
    requires Traced(others, from, seen0, links, to, seen, changes) && !UnderRoots(q, roots)
    requires forall i | 0 <= i < |changes| :: ConfinedChange(changes[i], allowed, roots, seen, data)
    requires forall i | 0 <= i < |links| && links[i].Found? :: SameAt(links[i].before, links[i].after, q)
    ensures SameAt(from, to, q) || (Lookup(from, q).None? && IsDirAt(to, q) && OnTheWay(changes, q))
  {
    hide Lookup, ConfinedChange, UnderRoots, Chain;
    ChainOutsideRoots(others, |seen0|, from, links, to, allowed, roots, seen, data, q);
  }
}
