/** A file system as a finite tree, the edits the executor makes to it, and symlink-following
    canonicalisation. Hard links, mount points and permissions bits are not represented. */
module FileTree {
  import opened Bytes
  import opened PosixPath
  import opened Wrappers

  datatype Node =
    | Dir(entries: map<string, Node>)
    | File(content: seq<byte>)
    | Symlink(target: string)
    | Special

  /** The node at a literal path, reached through directories only. */
  function Lookup(node: Node, p: seq<string>): Option<Node>
    decreases |p|
  {
    if p == [] then Some(node)
    else if node.Dir? && p[0] in node.entries then Lookup(node.entries[p[0]], p[1..])
    else None
  }

  predicate IsDirAt(node: Node, p: seq<string>)
  {
    Lookup(node, p).Some? && Lookup(node, p).value.Dir?
  }

  /** The tree with the node at `p` replaced, or added to an existing directory. */
  function Graft(node: Node, p: seq<string>, sub: Node): (r: Node)
    requires p != [] ==> IsDirAt(node, p[..|p| - 1])
    decreases |p|
  {
    if p == [] then sub
    else
      assert p[..|p| - 1] != [] ==> p[..|p| - 1][0] == p[0] && p[..|p| - 1][1..] == p[1..][..|p| - 2];
      var below := if |p| == 1 then sub else Graft(node.entries[p[0]], p[1..], sub);
      Dir(node.entries[p[0] := below])
  }

  /** The tree without the node at `p`. */
  function Prune(node: Node, p: seq<string>): (r: Node)
    requires p != [] && Lookup(node, p).Some?
    decreases |p|
  {
    if |p| == 1 then Dir(node.entries - {p[0]})
    else Dir(node.entries[p[0] := Prune(node.entries[p[0]], p[1..])])
  }

  /** What is left of `whole` after deletions inside it: nothing new, nothing altered. */
  ghost predicate Remains(rest: Node, whole: Node)
    decreases rest
  {
    if rest.Dir? then
      whole.Dir? && rest.entries.Keys <= whole.entries.Keys
      && forall n | n in rest.entries :: Remains(rest.entries[n], whole.entries[n])
    else rest == whole
  }

  lemma {:induction false} RemainsRefl(node: Node)
    ensures Remains(node, node)
    decreases node
  {
    if node.Dir? {
      forall n | n in node.entries
        ensures Remains(node.entries[n], node.entries[n])
      {
        RemainsRefl(node.entries[n]);
      }
    }
  }

  // ---- How lookups see the edits ----

  lemma {:induction false} LookupConcat(node: Node, p: seq<string>, q: seq<string>)
    ensures Lookup(node, p + q) == match Lookup(node, p) case None => None case Some(n) => Lookup(n, q)
    decreases |p|
  {
    if p == [] {
      assert p + q == q;
    } else if node.Dir? && p[0] in node.entries {
      assert (p + q)[1..] == p[1..] + q;
      LookupConcat(node.entries[p[0]], p[1..], q);
    }
  }

  lemma LookupParent(node: Node, p: seq<string>)
    requires p != [] && Lookup(node, p).Some?
    ensures IsDirAt(node, p[..|p| - 1])
  {
    assert p == p[..|p| - 1] + [p[|p| - 1]];
    LookupConcat(node, p[..|p| - 1], [p[|p| - 1]]);
  }

  /** A grafted node is found at its place; paths that do not lead through it see nothing new. */
  lemma {:induction false} LookupGraft(node: Node, p: seq<string>, sub: Node, q: seq<string>)
    requires p != [] ==> IsDirAt(node, p[..|p| - 1])
    ensures p <= q ==> Lookup(Graft(node, p, sub), q) == Lookup(sub, q[|p|..])
    ensures !(p <= q) && !(q <= p) ==> Lookup(Graft(node, p, sub), q) == Lookup(node, q)
    decreases |p|
  {
    if p == [] {
      assert q[0..] == q;
    } else if q != [] && q[0] == p[0] {
      assert p <= q <==> p[1..] <= q[1..];
      assert q <= p <==> q[1..] <= p[1..];
      assert p <= q ==> q[|p|..] == q[1..][|p| - 1..];
      if |p| == 1 {
        assert p == [p[0]] && p <= q;
      } else {
        assert p[..|p| - 1] == [p[0]] + p[1..][..|p| - 2];
        assert p[..|p| - 1][1..] == p[1..][..|p| - 2];
        LookupGraft(node.entries[p[0]], p[1..], sub, q[1..]);
      }
    }
  }

  /** Deleting at `p` removes exactly the subtree at `p`: everything below is gone, every path
      that is not a proper prefix of `p` shows the same subtree as before, and a directory on
      the way to `p` is the old one pruned. */
  lemma {:induction false} LookupPrune(node: Node, p: seq<string>, q: seq<string>)
    requires p != [] && Lookup(node, p).Some?
    ensures q < p ==> Lookup(node, q).Some? && Lookup(Lookup(node, q).value, p[|q|..]).Some?
    ensures Lookup(Prune(node, p), q) ==
            if p <= q then None
            else if q < p then Some(Prune(Lookup(node, q).value, p[|q|..]))
            else Lookup(node, q)
    decreases |p|
  {
    if q == [] {
      assert p[0..] == p;
    } else if q[0] == p[0] {
      assert p <= q <==> p[1..] <= q[1..];
      assert q < p <==> q[1..] < p[1..];
      if |p| == 1 {
        assert p == [p[0]] && p <= q;
      } else {
        LookupPrune(node.entries[p[0]], p[1..], q[1..]);
        assert q < p ==> p[|q|..] == p[1..][|q[1..]|..];
      }
    }
  }

  // ---- Edits inside an edited directory ----

  lemma {:induction false} GraftKeepsParent(node: Node, p: seq<string>, sub: Node)
    requires p != [] ==> IsDirAt(node, p[..|p| - 1])
    ensures Lookup(Graft(node, p, sub), p) == Some(sub)
    ensures p != [] ==> IsDirAt(Graft(node, p, sub), p[..|p| - 1])
  {
    LookupGraft(node, p, sub, p);
    if p != [] {
      LookupParent(Graft(node, p, sub), p);
    }
  }

  /** One level of an edit below the root. */
  lemma GraftStep(node: Node, p: seq<string>, sub: Node)
    requires p != [] && IsDirAt(node, p[..|p| - 1])
    ensures node.Dir? && (|p| > 1 ==> p[0] in node.entries && IsDirAt(node.entries[p[0]], p[1..][..|p| - 2]))
    ensures Graft(node, p, sub) ==
            Dir(node.entries[p[0] := if |p| == 1 then sub else Graft(node.entries[p[0]], p[1..], sub)])
  {
    if |p| > 1 {
      assert p[..|p| - 1][0] == p[0] && p[..|p| - 1][1..] == p[1..][..|p| - 2];
    }
  }

  lemma {:induction false} GraftGraft(node: Node, p: seq<string>, e: map<string, Node>, n: string, sub: Node)
    requires p != [] ==> IsDirAt(node, p[..|p| - 1])
    ensures var dir := Graft(node, p, Dir(e));
            (p + [n])[..|p|] == p && IsDirAt(dir, p) && Graft(dir, p + [n], sub) == Graft(node, p, Dir(e[n := sub]))
    decreases |p|
  {
    hide Lookup;
    GraftKeepsParent(node, p, Dir(e));
    var q, dir := p + [n], Graft(node, p, Dir(e));
    assert q[..|p|] == p;
    GraftStep(dir, q, sub);
    if p != [] {
      GraftStep(node, p, Dir(e));
      GraftStep(node, p, Dir(e[n := sub]));
      if |p| == 1 {
        assert q[1..] == [n];
        GraftStep(Dir(e), q[1..], sub);
      } else {
        assert q[1..] == p[1..] + [n];
        GraftGraft(node.entries[p[0]], p[1..], e, n, sub);
      }
    }
  }

  lemma {:induction false} GraftAgain(node: Node, p: seq<string>, x: Node, y: Node)
    requires p != [] ==> IsDirAt(node, p[..|p| - 1])
    ensures p != [] ==> IsDirAt(Graft(node, p, x), p[..|p| - 1])
    ensures Graft(Graft(node, p, x), p, y) == Graft(node, p, y)
    decreases |p|
  {
    hide Lookup;
    if p != [] {
      GraftKeepsParent(node, p, x);
      GraftStep(node, p, x);
      GraftStep(node, p, y);
      GraftStep(Graft(node, p, x), p, y);
      if |p| > 1 {
        GraftAgain(node.entries[p[0]], p[1..], x, y);
      }
    }
  }

  lemma {:induction false} PruneGraftChild(node: Node, p: seq<string>, e: map<string, Node>, n: string)
    requires p != [] ==> IsDirAt(node, p[..|p| - 1])
    requires n in e
    ensures var dir := Graft(node, p, Dir(e));
            Lookup(dir, p + [n]).Some? && Prune(dir, p + [n]) == Graft(node, p, Dir(e - {n}))
    decreases |p|
  {
    GraftKeepsParent(node, p, Dir(e));
    LookupConcat(Graft(node, p, Dir(e)), p, [n]);
    if p != [] {
      assert (p + [n])[1..] == p[1..] + [n];
      if |p| == 1 {
        assert p == [p[0]];
        assert p[1..] + [n] == [n];
      } else {
        assert p[..|p| - 1][1..] == p[1..][..|p| - 2];
        PruneGraftChild(node.entries[p[0]], p[1..], e, n);
      }
    }
  }

  lemma {:induction false} PruneGraft(node: Node, p: seq<string>, sub: Node)
    requires p != [] && Lookup(node, p).Some?
    ensures IsDirAt(node, p[..|p| - 1])
    ensures Lookup(Graft(node, p, sub), p).Some? && Prune(Graft(node, p, sub), p) == Prune(node, p)
    decreases |p|
  {
    LookupParent(node, p);
    GraftKeepsParent(node, p, sub);
    if |p| > 1 {
      assert p[..|p| - 1][1..] == p[1..][..|p| - 2];
      PruneGraft(node.entries[p[0]], p[1..], sub);
    }
  }

  lemma {:induction false} GraftSame(node: Node, p: seq<string>)
    requires Lookup(node, p).Some?
    ensures p != [] ==> IsDirAt(node, p[..|p| - 1])
    ensures Graft(node, p, Lookup(node, p).value) == node
    decreases |p|
  {
    if p != [] {
      LookupParent(node, p);
      if |p| > 1 {
        assert p[..|p| - 1][1..] == p[1..][..|p| - 2];
        GraftSame(node.entries[p[0]], p[1..]);
      } else {
        assert node.entries[p[0] := node.entries[p[0]]] == node.entries;
      }
    }
  }

  // ---- Directories created on the way to a path ----

  function Chain(names: seq<string>): Node
  {
    if names == [] then Dir(map[]) else Dir(map[names[0] := Chain(names[1..])])
  }

  /** The tree with every missing directory along `names` created; stops at a non-directory. */
  function WithDirs(node: Node, names: seq<string>): Node
    decreases |names|
  {
    if names == [] || !node.Dir? then node
    else if names[0] !in node.entries then Dir(node.entries[names[0] := Chain(names[1..])])
    else Dir(node.entries[names[0] := WithDirs(node.entries[names[0]], names[1..])])
  }

  lemma {:induction false} LookupChain(names: seq<string>, q: seq<string>)
    ensures Lookup(Chain(names), q).Some? <==> q <= names
    ensures q <= names ==> Lookup(Chain(names), q).value.Dir?
    decreases |names|
  {
    if names != [] && q != [] {
      assert q <= names <==> q[0] == names[0] && q[1..] <= names[1..];
      if q[0] == names[0] {
        LookupChain(names[1..], q[1..]);
      }
    } else if q != [] {
      assert !(q <= names);
    }
  }

  /** Creating directories alters nothing that was there: files, links and special nodes are
      the same, directories stay directories, and all that is new is a directory on the way. */
  lemma {:induction false} LookupWithDirs(node: Node, names: seq<string>, q: seq<string>)
    ensures var before, after := Lookup(node, q), Lookup(WithDirs(node, names), q);
            && (before.Some? && !before.value.Dir? ==> after == before)
            && (before.Some? && before.value.Dir? ==> after.Some? && after.value.Dir?)
            && (before.None? && after.Some? ==> q <= names && after.value.Dir?)
            && (!(q <= names) ==> after == before)
    decreases |names|
  {
    if names != [] && node.Dir? && q != [] && q[0] == names[0] {
      assert q[1..] <= names[1..] ==> q <= names by {
        if q[1..] <= names[1..] {
          assert q == [q[0]] + q[1..] && names == [names[0]] + names[1..];
        }
      }
      if names[0] in node.entries {
        LookupWithDirs(node.entries[names[0]], names[1..], q[1..]);
      } else {
        LookupChain(names[1..], q[1..]);
      }
    }
  }

  lemma {:induction false} WithDirsOpen(node: Node, names: seq<string>)
    requires IsDirAt(node, names)
    ensures WithDirs(node, names) == node
    decreases |names|
  {
    if names != [] {
      WithDirsOpen(node.entries[names[0]], names[1..]);
      assert node.entries[names[0] := node.entries[names[0]]] == node.entries;
    }
  }

  /** Creating one more missing directory at the end of an existing chain. */
  lemma {:induction false} WithDirsStep(node: Node, names: seq<string>, n: string)
    requires IsDirAt(WithDirs(node, names), names) && Lookup(WithDirs(node, names), names + [n]).None?
    ensures (names + [n])[..|names|] == names
    ensures Graft(WithDirs(node, names), names + [n], Dir(map[])) == WithDirs(node, names + [n])
    decreases |names|
  {
    assert (names + [n])[..|names|] == names;
    if names == [] {
      assert [n][..0] == [] && [n][1..] == [];
      assert Chain([]) == Dir(map[]);
    } else {
      assert (names + [n])[1..] == names[1..] + [n];
      if names[0] in node.entries {
        WithDirsStep(node.entries[names[0]], names[1..], n);
      } else {
        ChainStep(names[1..], n);
      }
    }
  }

  /** A directory that is already there needs no creating. */
  lemma {:induction false} WithDirsExisting(node: Node, names: seq<string>, n: string)
    requires IsDirAt(WithDirs(node, names), names + [n])
    ensures WithDirs(node, names + [n]) == WithDirs(node, names)
    decreases |names|
  {
    if names == [] {
      assert [] + [n] == [n];
      assert WithDirs(node.entries[n], [n][1..]) == node.entries[n];
      assert node.entries[n := node.entries[n]] == node.entries;
    } else {
      assert (names + [n])[1..] == names[1..] + [n];
      assert (names + [n])[0] == names[0];
      if names[0] in node.entries {
        WithDirsExisting(node.entries[names[0]], names[1..], n);
      } else {
        LookupChain(names[1..], names[1..] + [n]);
        assert false;
      }
    }
  }

  lemma {:induction false} ChainStep(names: seq<string>, n: string)
    ensures IsDirAt(Chain(names), names) && (names + [n])[..|names|] == names
    ensures Graft(Chain(names), names + [n], Dir(map[])) == Chain(names + [n])
    decreases |names|
  {
    hide Lookup, Graft;
    var q := names + [n];
    assert q[..|names|] == names;
    LookupChain(names, names);
    GraftStep(Chain(names), q, Dir(map[]));
    if names == [] {
      assert q[1..] == [];
    } else {
      assert q[1..] == names[1..] + [n];
      ChainStep(names[1..], n);
    }
  }

  // ---- Canonicalisation ----

  /** Symbolic links followed before giving up, as Linux does. */
  const MAX_SYMLINKS: nat := 40

  /** Resolves `todo` from the directory `done`, following symbolic links. */
  function Resolve(root: Node, done: seq<string>, todo: Path, links: nat): Option<seq<string>>
    decreases links, |todo|
  {
    if todo == [] then Some(done)
    else if todo[0].Up? then Resolve(root, if done == [] then [] else done[..|done| - 1], todo[1..], links)
    else
      var next := done + [todo[0].name];
      match Lookup(root, next)
      case None => None
      case Some(Dir(_)) => Resolve(root, next, todo[1..], links)
      case Some(Symlink(target)) =>
        if links == 0 then None
        else Resolve(root, if IsAbsolute(target) then [] else done, Parts(target) + todo[1..], links - 1)
      case Some(_) => if |todo| == 1 then Some(next) else None
  }

  function Canonicalize(root: Node, path: Path): Option<seq<string>>
  {
    if root.Dir? then Resolve(root, [], path, MAX_SYMLINKS) else None
  }

  /** A canonical path is literal: it exists, is no link, and has only valid names. */
  lemma {:induction false} ResolveSound(root: Node, done: seq<string>, todo: Path, links: nat)
    requires IsDirAt(root, done) && ValidNames(done) && ValidPath(todo)
    requires Resolve(root, done, todo, links).Some?
    ensures var p := Resolve(root, done, todo, links).value;
            ValidNames(p) && Lookup(root, p).Some? && !Lookup(root, p).value.Symlink?
    decreases links, |todo|
  {
    if todo != [] {
      if todo[0].Up? {
        if done != [] {
          LookupParent(root, done);
        }
        ResolveSound(root, if done == [] then [] else done[..|done| - 1], todo[1..], links);
      } else {
        var next := done + [todo[0].name];
        match Lookup(root, next)
        case Some(Dir(_)) => ResolveSound(root, next, todo[1..], links);
        case Some(Symlink(target)) =>
          ResolveSound(root, if IsAbsolute(target) then [] else done, Parts(target) + todo[1..], links - 1);
        case _ =>
      }
    }
  }

  lemma {:induction false} CanonicalSound(root: Node, path: Path)
    requires ValidPath(path) && Canonicalize(root, path).Some?
    ensures var p := Canonicalize(root, path).value;
            ValidNames(p) && Lookup(root, p).Some? && !Lookup(root, p).value.Symlink?
  {
    ResolveSound(root, [], path, MAX_SYMLINKS);
  }

  lemma {:induction false} ResolveLiteral(root: Node, done: seq<string>, p: seq<string>, links: nat)
    requires Lookup(root, done + p).Some? && !Lookup(root, done + p).value.Symlink?
    ensures Resolve(root, done, Embed(p), links) == Some(done + p)
    decreases |p|
  {
    if p == [] {
      assert done + p == done;
    } else {
      var next := done + [p[0]];
      assert done + p == next + p[1..];
      assert Embed(p)[1..] == Embed(p[1..]);
      LookupConcat(root, next, p[1..]);
      if |p| == 1 {
        assert next + p[1..] == next;
        assert Embed(p[1..]) == [];
        if Lookup(root, next).value.Dir? {
          assert Resolve(root, next, [], links) == Some(next);
        }
      } else {
        assert p[1..] != [];
        ResolveLiteral(root, next, p[1..], links);
      }
    }
  }

  /** A path that resolves still resolves to the same place once directories are created. */
  lemma {:induction false} ResolveWithDirs(root: Node, names: seq<string>, done: seq<string>, todo: Path, links: nat)
    requires Resolve(root, done, todo, links).Some?
    ensures Resolve(WithDirs(root, names), done, todo, links) == Resolve(root, done, todo, links)
    decreases links, |todo|
  {
    if todo != [] {
      if todo[0].Up? {
        ResolveWithDirs(root, names, if done == [] then [] else done[..|done| - 1], todo[1..], links);
      } else {
        var next := done + [todo[0].name];
        LookupWithDirs(root, names, next);
        match Lookup(root, next)
        case Some(Dir(_)) => ResolveWithDirs(root, names, next, todo[1..], links);
        case Some(Symlink(target)) =>
          ResolveWithDirs(root, names, if IsAbsolute(target) then [] else done, Parts(target) + todo[1..], links - 1);
        case _ =>
      }
    }
  }

  /** Once the front of a path has resolved to a directory, the rest is resolved from there,
      with the links that are left. */
  lemma {:induction false} ResolveSplit(root: Node, done: seq<string>, todo: Path, rest: Path, links: nat,
                                        p: seq<string>)
    returns (left: nat)
    requires Resolve(root, done, todo, links) == Some(p) && IsDirAt(root, p)
    ensures left <= links && Resolve(root, done, todo + rest, links) == Resolve(root, p, rest, left)
    decreases links, |todo|
  {
    hide Lookup, Parts;
    if todo == [] {
      assert todo + rest == rest;
      left := links;
    } else {
      assert (todo + rest)[1..] == todo[1..] + rest;
      if todo[0].Up? {
        left := ResolveSplit(root, if done == [] then [] else done[..|done| - 1], todo[1..], rest, links, p);
      } else {
        var next := done + [todo[0].name];
        match Lookup(root, next)
        case Some(Dir(_)) => left := ResolveSplit(root, next, todo[1..], rest, links, p);
        case Some(Symlink(target)) =>
          assert Parts(target) + todo[1..] + rest == Parts(target) + (todo[1..] + rest);
          left := ResolveSplit(root, if IsAbsolute(target) then [] else done, Parts(target) + todo[1..], rest,
                               links - 1, p);
        case _ => assert false;
      }
    }
  }

  /** Below a directory that a path resolves to, literal names resolve to themselves. */
  lemma {:induction false} ResolveThen(root: Node, done: seq<string>, todo: Path, links: nat, p: seq<string>,
                                       q: seq<string>)
    requires Resolve(root, done, todo, links) == Some(p) && IsDirAt(root, p)
    requires Lookup(root, p + q).Some? || |q| == 1
    requires Lookup(root, p + q).Some? ==> !Lookup(root, p + q).value.Symlink?
    ensures Resolve(root, done, todo + Embed(q), links) == if Lookup(root, p + q).Some? then Some(p + q) else None
  {
    hide Lookup, Resolve, Embed;
    var left := ResolveSplit(root, done, todo, Embed(q), links, p);
    ResolveTail(root, p, q, left);
  }

  /** `..` after a path that resolves to a directory leads to that directory's parent. */
  lemma {:induction false} ResolveUp(root: Node, done: seq<string>, todo: Path, links: nat, p: seq<string>)
    requires Resolve(root, done, todo, links) == Some(p) && IsDirAt(root, p)
    ensures Resolve(root, done, todo + [Up], links) == Some(if p == [] then [] else p[..|p| - 1])
  {
    hide Lookup;
    var left := ResolveSplit(root, done, todo, [Up], links, p);
    assert [Up][1..] == [];
  }

  lemma ResolveTail(root: Node, p: seq<string>, q: seq<string>, links: nat)
    requires IsDirAt(root, p) && (Lookup(root, p + q).Some? || |q| == 1)
    requires Lookup(root, p + q).Some? ==> !Lookup(root, p + q).value.Symlink?
    ensures Resolve(root, p, Embed(q), links) == if Lookup(root, p + q).Some? then Some(p + q) else None
  {
    if Lookup(root, p + q).Some? {
      ResolveLiteral(root, p, q, links);
    } else {
      assert p + q == p + [q[0]];
    }
  }

  /** Canonical paths are fixed points of canonicalisation. */
  lemma {:induction false} CanonicalIdempotent(root: Node, path: Path)
    requires ValidPath(path) && Canonicalize(root, path).Some?
    ensures Canonicalize(root, Embed(Canonicalize(root, path).value)) == Canonicalize(root, path)
  {
    var p := Canonicalize(root, path).value;
    CanonicalSound(root, path);
    assert [] + p == p;
    ResolveLiteral(root, [], p, MAX_SYMLINKS);
  }

  lemma LookupPrefix(node: Node, p: seq<string>, k: nat)
    requires k <= |p| && IsDirAt(node, p)
    ensures IsDirAt(node, p[..k])
  {
    assert p == p[..k] + p[k..];
    LookupConcat(node, p[..k], p[k..]);
    if k < |p| {
      assert p[k..] != [];
    } else {
      assert p[..k] == p;
    }
  }

  lemma RootIsDir(fs: Node)
    ensures IsDirAt(fs, []) <==> fs.Dir?
  {
  }

  /** A non-directory in the way stays in the way, however many directories are created. */
  lemma BlockedDirs(node: Node, names: seq<string>, i: nat)
    requires i < |names|
    requires var found := Lookup(WithDirs(node, names[..i]), names[..i + 1]); found.Some? && !found.value.Dir?
    ensures !IsDirAt(WithDirs(node, names), names)
  {
    LookupWithDirs(node, names[..i], names[..i + 1]);
    LookupWithDirs(node, names, names[..i + 1]);
    if IsDirAt(WithDirs(node, names), names) {
      LookupPrefix(WithDirs(node, names), names, i + 1);
    }
  }
}
