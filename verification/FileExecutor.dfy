/** The agent's file operations: an allowed-root check on canonical paths, then a walk from
    the root directory that opens every component without following links.

    Between any two awaits other processes may change everything. An operation that looks and
    then acts once finds the tree `world(t)` at its t-th await, an arbitrary function. A write
    comes back to what it has made itself: it finds `others(t, fs)` where it left `fs`. Each
    walk is one step on the tree it finds. */
module FileExecutor {
  import opened Bytes
  import opened Sets
  import opened PosixPath
  import opened FileTree
  import opened FileListing
  import opened AllowedRoots
  import opened WriteChanges
  import opened UndisturbedWrite
  import opened Wrappers

  const DEFAULT_FILE_READ_MAX_BYTES: nat := 2 * 1024 * 1024
  const HARD_MAX_FILE_READ_BYTES: nat := 100 * 1024 * 1024
  const HARD_MAX_FILE_WRITE_BYTES: nat := 100 * 1024 * 1024
  const MAX_DIRECTORY_ENTRIES: nat := 10_000
  const FILE_PERMISSION_BITS_MASK: nat := 511

  // ---- Recursive deletion ----

  /** A subtree that can be deleted: no call on it is refused and no directory is over-full. */
  predicate Removable(node: Node, p: seq<string>, refused: set<seq<string>>)
    decreases node
  {
    && p !in refused
    && (node.Dir? ==>
          && |node.entries| <= MAX_DIRECTORY_ENTRIES
          && forall n | n in node.entries :: Removable(node.entries[n], p + [n], refused))
  }

  /** After a failed deletion at `p`: nothing outside the subtree at `p` differs, and inside
      it things may only be missing. */
  ghost predicate OnlyLost(before: Node, after: Node, p: seq<string>)
  {
    after == before ||
    (p != [] && Lookup(before, p).Some? && IsDirAt(before, p[..|p| - 1]) &&
     exists rest :: Remains(rest, Lookup(before, p).value) && after == Graft(before, p, rest))
  }

  lemma OnlyLostOutside(before: Node, after: Node, p: seq<string>, q: seq<string>)
    requires OnlyLost(before, after, p) && !(p <= q) && !(q <= p)
    ensures Lookup(after, q) == Lookup(before, q)
  {
    if after != before {
      var rest :| Remains(rest, Lookup(before, p).value) && after == Graft(before, p, rest);
      LookupGraft(before, p, rest, q);
    }
  }

  lemma LostInside(before: Node, p: seq<string>, rest: Node)
    requires p != [] && Lookup(before, p).Some? && IsDirAt(before, p[..|p| - 1])
    requires Remains(rest, Lookup(before, p).value)
    ensures OnlyLost(before, Graft(before, p, rest), p)
  {
  }

  lemma EmptiedRemains(whole: Node)
    requires whole.Dir?
    ensures Remains(Dir(map[]), whole)
  {
  }

  /** A directory that has lost some entries, one of which may be partly deleted. */
  lemma RemainsWith(whole: map<string, Node>, cur: map<string, Node>, n: string, rest: Node)
    requires cur.Keys <= whole.Keys && (forall m | m in cur :: cur[m] == whole[m])
    requires n in whole && Remains(rest, whole[n])
    ensures Remains(Dir(cur[n := rest]), Dir(whole)) && Remains(Dir(cur), Dir(whole))
  {
    forall m | m in cur
      ensures Remains(cur[m], whole[m])
    {
      RemainsRefl(whole[m]);
    }
  }

  method ReadDirNames(entries: map<string, Node>) returns (r: Outcome<seq<string>>)
    ensures r.Ok? <==> |entries| <= MAX_DIRECTORY_ENTRIES
    ensures r.Ok? ==> (forall n :: n in r.value <==> n in entries) && |r.value| == |entries|
    ensures r.Ok? ==> forall i, j | 0 <= i < j < |r.value| :: r.value[i] != r.value[j]
  {
    var names: seq<string> := [];
    var unread := entries.Keys;
    while unread != {}
      invariant unread <= entries.Keys && |names| + |unread| == |entries|
      invariant |names| <= MAX_DIRECTORY_ENTRIES
      invariant forall n :: n in names <==> n in entries && n !in unread
      invariant forall i, j | 0 <= i < j < |names| :: names[i] != names[j]
      decreases |unread|
    {
      ghost var some := Member(unread);
      var n :| n in unread;
      if MAX_DIRECTORY_ENTRIES <= |names| {
        return Err(());
      }
      names := names + [n];
      unread := unread - {n};
    }
    return Ok(names);
  }

  class Executor {
    /** The file system as the running walk finds it. */
    var root: Node
    /** Paths at which looking up or opening fails for reasons of its own. */
    var denied: set<seq<string>>
    /** Paths at which a file can be opened or created but then not be emptied. */
    var balky: set<seq<string>>
    /** Paths that can neither be made nor unlinked, for example because their parent is not
        writable. */
    var stuck: set<seq<string>>
    /** The trees found at the awaits of a write so far. */
    var seen: seq<Node>

    constructor (root: Node, denied: set<seq<string>>, balky: set<seq<string>>, stuck: set<seq<string>>)
      ensures this.root == root && this.denied == denied && this.balky == balky && this.stuck == stuck && seen == []
    {
      this.root, this.denied, this.balky, this.stuck, this.seen := root, denied, balky, stuck, [];
    }

    /** No call fails for reasons of its own. */
    ghost predicate Unhindered()
      reads this`denied, this`balky, this`stuck
    {
      denied == {} && balky == {} && stuck == {}
    }

    method OpenDirParts(parts: seq<string>) returns (ok: bool)
      ensures ok ==> IsDirAt(root, parts)
      ensures denied == {} ==> (ok <==> IsDirAt(root, parts))
    {
      var dir := root;
      if [] in denied || !dir.Dir? {
        if IsDirAt(root, parts) && parts != [] {
          LookupPrefix(root, parts, 0);
        }
        return false;
      }
      for i := 0 to |parts|
        invariant dir.Dir? && Lookup(root, parts[..i]) == Some(dir)
      {
        assert parts[..i + 1] == parts[..i] + [parts[i]];
        LookupConcat(root, parts[..i], [parts[i]]);
        assert [parts[i]][1..] == [];
        if parts[..i + 1] in denied || parts[i] !in dir.entries || !dir.entries[parts[i]].Dir? {
          if IsDirAt(root, parts) {
            LookupPrefix(root, parts, i + 1);
          }
          return false;
        }
        dir := dir.entries[parts[i]];
      }
      assert parts[..|parts|] == parts;
      return true;
    }

    method RemoveDirAllAt(parent: seq<string>, name: string) returns (ok: bool)
      requires IsDirAt(root, parent + [name])
      modifies this`root
      ensures ok <==> Removable(old(Lookup(root, parent + [name]).value), parent + [name], denied + stuck)
      ensures ok ==> root == Prune(old(root), parent + [name])
      ensures !ok ==> OnlyLost(old(root), root, parent + [name])
      decreases Lookup(root, parent + [name]).value, 1
    {
      hide Graft, Prune, Remains, Lookup;
      ghost var root0 := root;
      var p := parent + [name];
      assert p[..|p| - 1] == parent;
      LookupParent(root, p);
      var whole := Lookup(root, p).value;
      if p in denied {
        return false;
      }
      var listing := ReadDirNames(whole.entries);
      if listing.Err? {
        return false;
      }
      GraftSame(root0, p);
      ok := RemoveEntries(root0, p, whole.entries, listing.value);
      if !ok {
        return false;
      }
      if p in stuck {
        EmptiedRemains(whole);
        LostInside(root0, p, Dir(map[]));
        return false;
      }
      PruneGraft(root0, p, Dir(map[]));
      root := Prune(root, p);
      return true;
    }

    method RemoveEntries(ghost root0: Node, p: seq<string>, whole: map<string, Node>, names: seq<string>)
      returns (ok: bool)
      requires p != [] && Lookup(root0, p) == Some(Dir(whole)) && IsDirAt(root0, p[..|p| - 1])
      requires root == Graft(root0, p, Dir(whole))
      requires forall n :: n in names <==> n in whole
      requires forall i, j | 0 <= i < j < |names| :: names[i] != names[j]
      modifies this`root
      ensures ok <==> forall n | n in whole :: Removable(whole[n], p + [n], denied + stuck)
      ensures ok ==> root == Graft(root0, p, Dir(map[]))
      ensures !ok ==> OnlyLost(root0, root, p)
      decreases Dir(whole), 0
    {
      hide Graft, Remains, Lookup, Removable, OnlyLost, IsDirAt;
      ghost var gone: set<string> := {};
      assert whole - gone == whole;
      for i := 0 to |names|
        invariant root == Graft(root0, p, Dir(whole - gone))
        invariant forall j | 0 <= j < i ::
                  names[j] in gone && Removable(whole[names[j]], p + [names[j]], denied + stuck)
        invariant forall j | i <= j < |names| :: names[j] !in gone
      {
        var entry := names[i];
        assert entry in names;
        ok := RemoveEntry(root0, p, whole, whole - gone, entry);
        if !ok {
          return false;
        }
        assert whole - gone - {entry} == whole - (gone + {entry});
        gone := gone + {entry};
      }
      forall n | n in whole
        ensures n in gone && Removable(whole[n], p + [n], denied + stuck)
      {
        assert n in names;
      }
      assert whole - gone == map[];
      return true;
    }

    /** One turn of the deletion loop, on a directory already partly emptied. */
    method RemoveEntry(ghost root0: Node, p: seq<string>, whole: map<string, Node>, ghost cur: map<string, Node>,
                       entry: string)
      returns (ok: bool)
      requires p != [] && Lookup(root0, p) == Some(Dir(whole)) && IsDirAt(root0, p[..|p| - 1])
      requires root == Graft(root0, p, Dir(cur)) && entry in cur
      requires cur.Keys <= whole.Keys && forall m | m in cur :: cur[m] == whole[m]
      modifies this`root
      ensures ok <==> Removable(whole[entry], p + [entry], denied + stuck)
      ensures ok ==> root == Graft(root0, p, Dir(cur - {entry}))
      ensures !ok ==> OnlyLost(root0, root, p)
      decreases whole[entry], 2
    {
      var child := p + [entry];
      PruneGraftChild(root0, p, cur, entry);
      GraftKeepsParent(root0, p, Dir(cur));
      LookupConcat(root, p, [entry]);
      assert [entry][1..] == [];
      assert Lookup(root, child) == Some(whole[entry]);
      RemainsRefl(whole[entry]);
      RemainsWith(whole, cur, entry, whole[entry]);
      LostInside(root0, p, Dir(cur));
      if child in denied {
        return false;
      }
      if whole[entry].Dir? {
        ghost var before := root;
        ok := RemoveDirAllAt(p, entry);
        if !ok && root != before {
          assert child[..|child| - 1] == p;
          ghost var rest :| Remains(rest, whole[entry]) && root == Graft(before, child, rest);
          GraftGraft(root0, p, cur, entry, rest);
          RemainsWith(whole, cur, entry, rest);
          LostInside(root0, p, Dir(cur[entry := rest]));
        }
      } else if child in stuck {
        return false;
      } else {
        root := Prune(root, child);
        return true;
      }
    }

    method DeletePathWalk(names: seq<string>, recursive: bool) returns (ok: bool)
      modifies this`root
      ensures ok ==> names != [] && Lookup(old(root), names).Some? && root == Prune(old(root), names)
      ensures !ok ==> OnlyLost(old(root), root, names)
      ensures denied + stuck == {} ==> (ok <==> DeletableAt(old(root), names, recursive))
    {
      if names == [] {
        return false;
      }
      var parent, name := names[..|names| - 1], names[|names| - 1];
      assert names == parent + [name];
      if Lookup(root, names).Some? {
        LookupParent(root, names);
      }
      var open := OpenDirParts(parent);
      if !open || names in denied || Lookup(root, names).None? {
        return false;
      }
      var node := Lookup(root, names).value;
      if node.Dir? && recursive {
        ok := RemoveDirAllAt(parent, name);
      } else if names in stuck || (node.Dir? && node.entries != map[]) {
        return false;
      } else {
        root := Prune(root, names);
        return true;
      }
    }

    method CreateDirAll(names: seq<string>) returns (ok: bool, ghost k: nat)
      modifies this`root
      ensures k <= |names| && root == WithDirs(old(root), names[..k])
      ensures ok ==> k == |names| && IsDirAt(root, names)
      ensures Unhindered() ==> (ok <==> IsDirAt(WithDirs(old(root), names), names))
    {
      ghost var root0 := root;
      k := 0;
      if !root.Dir? || [] in denied {
        assert !root.Dir? ==> WithDirs(root0, names) == root0;
        return false, 0;
      }
      assert names[..0] == [];
      for i := 0 to |names|
        invariant k == i && root == WithDirs(root0, names[..i]) && IsDirAt(root, names[..i])
      {
        ghost var made := names[..i];
        var next := names[..i + 1];
        assert next == made + [names[i]];
        match Lookup(root, next) {
          case Some(Dir(_)) =>
            WithDirsExisting(root0, made, names[i]);
          case Some(_) =>
            BlockedDirs(root0, names, i);
            return false, k;
          case None =>
            if next in stuck {
              return false, k;
            }
            WithDirsStep(root0, made, names[i]);
            assert next[..|next| - 1] == made;
            GraftKeepsParent(root, next, Dir(map[]));
            root := Graft(root, next, Dir(map[]));
        }
        k := i + 1;
        if next in denied {
          return false, k;
        }
      }
      assert names[..|names|] == names;
      return true, k;
    }

    /** Opens or creates a regular file and empties it. A failure after the file was created
        leaves it there, empty. */
    method CreateFile(names: seq<string>) returns (ok: bool)
      modifies this`root
      ensures ok || root != old(root) ==>
                && names != [] && IsDirAt(old(root), names[..|names| - 1])
                && (Lookup(old(root), names).None? || Lookup(old(root), names).value.File?)
                && root == Graft(old(root), names, File([]))
      ensures !ok && root != old(root) ==> Lookup(old(root), names).None?
      ensures Unhindered() ==>
                (ok <==> names != [] && IsDirAt(old(root), names[..|names| - 1])
                         && (Lookup(old(root), names).None? || Lookup(old(root), names).value.File?))
    {
      if names == [] {
        return false;
      }
      var open := OpenDirParts(names[..|names| - 1]);
      if !open || names in denied {
        return false;
      }
      var existing := Lookup(root, names);
      if existing.Some? && !existing.value.File? {
        return false;
      }
      if existing.None? {
        if names in stuck {
          return false;
        }
        root := Graft(root, names, File([]));
      }
      if names in balky {
        return false;
      }
      if existing.Some? {
        root := Graft(root, names, File([]));
      }
      return true;
    }

    /** Writes through the open handle until the disk takes no more. */
    method WriteAll(ghost before: Node, names: seq<string>, data: seq<byte>, disk: nat) returns (written: seq<byte>)
      requires names != [] && IsDirAt(before, names[..|names| - 1]) && root == Graft(before, names, File([]))
      modifies this`root
      ensures written <= data && root == Graft(before, names, File(written))
      ensures written == data <==> |data| <= disk
    {
      GraftKeepsParent(before, names, File([]));
      written := if |data| <= disk then data else data[..disk];
      GraftAgain(before, names, File([]), File(written));
      root := Graft(root, names, File(written));
    }

    method ReadFileWalk(names: seq<string>, offset: nat, maxRead: nat) returns (r: Outcome<seq<byte>>)
      ensures r.Ok? ==> Lookup(root, names).Some? && Lookup(root, names).value.File?
                        && r.value == Slice(Lookup(root, names).value.content, offset, maxRead)
      ensures denied == {} ==>
                (r.Ok? <==> names != [] && Lookup(root, names).Some? && Lookup(root, names).value.File?)
    {
      if names == [] {
        return Err(());
      }
      if Lookup(root, names).Some? {
        LookupParent(root, names);
      }
      var open := OpenDirParts(names[..|names| - 1]);
      if !open || names in denied {
        return Err(());
      }
      var node := Lookup(root, names);
      if node.None? || !node.value.File? {
        return Err(());
      }
      return Ok(Slice(node.value.content, offset, maxRead));
    }

    method ListWalk(names: seq<string>) returns (r: Outcome<seq<FileEntry>>)
      ensures r.Ok? ==> IsDirAt(root, names) && IsListing(r.value, Lookup(root, names).value.entries)
      ensures denied == {} ==>
                (r.Ok? <==> IsDirAt(root, names) && |Lookup(root, names).value.entries| <= MAX_DIRECTORY_ENTRIES)
    {
      hide Lookup, Listing, EntryOf, NameBefore;
      var open := OpenDirParts(names);
      if !open {
        return Err(());
      }
      var entries := Lookup(root, names).value.entries;
      var listing := ReadDirNames(entries);
      if listing.Err? {
        return Err(());
      }
      var found: seq<FileEntry> := [];
      for i := 0 to |listing.value|
        invariant |found| == i
        invariant forall j | 0 <= j < i ::
                    listing.value[j] in entries && found[j] == EntryOf(listing.value[j], entries[listing.value[j]])
      {
        var n := listing.value[i];
        assert n in listing.value;
        if names + [n] in denied {
          return Err(());
        }
        found := found + [EntryOf(n, entries[n])];
      }
      EntriesListed(entries, listing.value, found);
      return Ok(SortByName(found));
    }

    // ---- Whole operations, with interference at every await ----

    method ReadFile(world: nat -> Node, text: string, offset: nat, length: nat, allowed: seq<string>)
      returns (r: Outcome<seq<byte>>, roots: seq<seq<string>>, p: seq<string>)
      modifies this`root
      ensures r.Ok? ==>
                && RootsAt(world, allowed, roots) && Confined(p, roots)
                && ResolveExistingPath(world(|allowed|), text, roots) == Ok(p)
                && Lookup(world(|allowed| + 1), p).Some? && Lookup(world(|allowed| + 1), p).value.File?
                && r.value == Slice(Lookup(world(|allowed| + 1), p).value.content, offset,
                                    if length == 0 then DEFAULT_FILE_READ_MAX_BYTES else length)
                && |r.value| <= HARD_MAX_FILE_READ_BYTES
      ensures denied == {} ==>
                (r.Ok? <==> length <= HARD_MAX_FILE_READ_BYTES &&
                            exists rs :: RootsAt(world, allowed, rs) && ReadableAt(world, |allowed|, text, rs))
      ensures root == old(root) || root == world(|allowed| + 1)
    {
      roots, p := [], [];
      if HARD_MAX_FILE_READ_BYTES < length {
        return Err(()), roots, p;
      }
      var maxRead := if length == 0 then DEFAULT_FILE_READ_MAX_BYTES else length;
      var checked := CanonicalAllowedRoots(world, allowed);
      if checked.Err? {
        return Err(()), roots, p;
      }
      roots := checked.value;
      forall rs | RootsAt(world, allowed, rs)
        ensures rs == roots
      {
        RootsUnique(world, allowed, rs, roots);
      }
      var resolved := ResolveExistingPath(world(|allowed|), text, roots);
      if resolved.Err? {
        return Err(()), roots, p;
      }
      p := resolved.value;
      root := world(|allowed| + 1);
      r := ReadFileWalk(p, offset, maxRead);
    }

    method ListFiles(world: nat -> Node, text: string, allowed: seq<string>)
      returns (r: Outcome<seq<FileEntry>>, roots: seq<seq<string>>, p: seq<string>)
      modifies this`root
      ensures r.Ok? ==>
                && RootsAt(world, allowed, roots) && Confined(p, roots)
                && ResolveExistingPath(world(|allowed|), text, roots) == Ok(p)
                && IsDirAt(world(|allowed| + 1), p)
                && IsListing(r.value, Lookup(world(|allowed| + 1), p).value.entries)
      ensures denied == {} ==>
                (r.Ok? <==> exists rs :: RootsAt(world, allowed, rs) && ListableAt(world, |allowed|, text, rs))
      ensures root == old(root) || root == world(|allowed| + 1)
    {
      roots, p := [], [];
      var checked := CanonicalAllowedRoots(world, allowed);
      if checked.Err? {
        return Err(()), roots, p;
      }
      roots := checked.value;
      forall rs | RootsAt(world, allowed, rs)
        ensures rs == roots
      {
        RootsUnique(world, allowed, rs, roots);
      }
      var resolved := ResolveExistingPath(world(|allowed|), text, roots);
      if resolved.Err? {
        return Err(()), roots, p;
      }
      p := resolved.value;
      root := world(|allowed| + 1);
      r := ListWalk(p);
    }

    /** The entry itself is deleted, never what a link at that place points to. */
    method DeletePath(world: nat -> Node, text: string, recursive: bool, allowed: seq<string>)
      returns (ok: bool, roots: seq<seq<string>>, p: seq<string>, ghost walked: bool)
      modifies this`root
      ensures walked ==>
                && RootsAt(world, allowed, roots)
                && DeletionTarget(world(|allowed|), text, roots) == Ok(p)
                && UnderRoots(p[..|p| - 1], roots)
      ensures ok ==> walked && Lookup(world(|allowed| + 1), p).Some? && root == Prune(world(|allowed| + 1), p)
      ensures walked && !ok ==> OnlyLost(world(|allowed| + 1), root, p)
      ensures !walked ==> root == old(root)
      ensures denied + stuck == {} ==>
                (ok <==> exists rs :: RootsAt(world, allowed, rs) &&
                           var target := DeletionTarget(world(|allowed|), text, rs);
                           target.Ok? && DeletableAt(world(|allowed| + 1), target.value, recursive))
    {
      roots, p, walked := [], [], false;
      var checked := CanonicalAllowedRoots(world, allowed);
      var parsed := ParseAbsolute(text);
      if checked.Err? || parsed.None? || parsed.value == [] {
        return false, roots, p, walked;
      }
      roots := checked.value;
      forall rs | RootsAt(world, allowed, rs)
        ensures rs == roots
      {
        RootsUnique(world, allowed, rs, roots);
      }
      var raw := parsed.value;
      var last := raw[|raw| - 1];
      if last.Up? {
        return false, roots, p, walked;
      }
      var parent := Canonicalize(world(|allowed|), raw[..|raw| - 1]);
      if parent.None? || !UnderRoots(parent.value, roots) {
        return false, roots, p, walked;
      }
      p := parent.value + [last.name];
      root := world(|allowed| + 1);
      walked := true;
      ok := DeletePathWalk(p, recursive);
    }

    // ---- Writing ----

    /** Lets other processes run; what they leave is added to `links`, all that happened since
        the tree was `from` and `seen0` had been seen. */
    method Await(others: Interference, ghost from: Node, ghost seen0: seq<Node>, ghost links: seq<Link>,
                 ghost changes: seq<Change>)
      returns (ghost more: seq<Link>)
      requires Traced(others, from, seen0, links, root, seen, changes)
      modifies this`root, this`seen
      ensures root == others(|old(seen)|, old(root)) && seen == old(seen) + [root]
      ensures Traced(others, from, seen0, more, root, seen, changes)
    {
      TracedAwait(others, from, seen0, links, root, seen, changes);
      more := links + [Found(root, others(|seen|, root))];
      root := others(|seen|, root);
      seen := seen + [root];
    }

    /** Climbs to the first existing ancestor of a missing path and resolves it. */
    method FindAncestor(others: Interference, path: Path)
      returns (r: Option<(nat, seq<string>)>, ghost links: seq<Link>)
      requires path != []
      modifies this`root, this`seen
      ensures old(seen) < seen && Traced(others, old(root), old(seen), links, root, seen, [])
      ensures r.Some? ==> r.value.0 < |path| && Canonicalize(seen[|seen| - 1], path[..r.value.0]) == Some(r.value.1)
      ensures forall fs | Still(seen, |old(seen)|, fs) :: r == AncestorOf(fs, path)
      ensures Calm(others) ==> root == old(root) && Still(seen, |old(seen)|, root)
    {
      hide Canonicalize, Traced, Still, ClimbedTo, DeepestAncestor, AncestorOf, Exists;
      ghost var from := |seen|;
      var k := |path| - 1;
      TracedNothing(others, root, seen);
      StillMore(seen, from, root);
      links := Await(others, root, seen, [], []);
      ClimbStart(seen, from, path);
      while !Exists(root, path[..k])
        invariant 0 <= k < |path| && old(seen) < seen && root == seen[|seen| - 1]
        invariant Traced(others, old(root), old(seen), links, root, seen, []) && ClimbedTo(seen, from, path, k)
        invariant Calm(others) ==> root == old(root) && Still(seen, from, root)
        decreases k
      {
        if k == 0 {
          ClimbEnd(seen, from, path);
          return None, links;
        }
        ghost var before := seen;
        StillMore(seen, from, root);
        links := Await(others, old(root), old(seen), links, []);
        ClimbStep(before, from, path, k, root);
        k := k - 1;
      }
      ghost var before := seen;
      StillMore(seen, from, root);
      links := Await(others, old(root), old(seen), links, []);
      ClimbFound(before, from, path, k, root);
      var ancestor := Canonicalize(root, path[..k]);
      return (if ancestor.None? then None else Some((k, ancestor.value))), links;
    }

    /** Every existence test and canonicalisation is an await of its own. */
    method ResolveWriteTarget(others: Interference, path: Path, roots: seq<seq<string>>)
      returns (r: Outcome<Path>, ghost links: seq<Link>)
      requires ValidPath(path)
      modifies this`root, this`seen
      ensures old(seen) < seen && Traced(others, old(root), old(seen), links, root, seen, [])
      ensures r.Ok? ==> ValidPath(r.value) && PathUnderRoots(r.value, roots)
      ensures forall fs | Still(seen, |old(seen)|, fs) :: r == WriteTarget(fs, path, roots)
      ensures Calm(others) ==> root == old(root) && r == WriteTarget(old(root), path, roots)
    {
      hide Canonicalize, DeepestAncestor, UnderRoots, PathUnderRoots, Embed, ValidPath, Traced;
      ghost var from := |seen|;
      TracedNothing(others, root, seen);
      links := Await(others, root, seen, [], []);
      StillLast(seen, from);
      ghost var before, left := seen, root;
      if Exists(root, path) {
        links := Await(others, old(root), old(seen), links, []);
        StillBefore(before, seen, from);
        StillLast(seen, from);
        var canonical := Canonicalize(root, path);
        if canonical.None? || !UnderRoots(canonical.value, roots) {
          return Err(()), links;
        }
        CanonicalTarget(root, path, roots);
        return Ok(Embed(canonical.value)), links;
      }
      if path == [] {
        return Err(()), links;
      }
      var found, climbed := FindAncestor(others, path);
      TracedThen(others, old(root), old(seen), links, left, before, [], climbed, root, seen, []);
      links := links + climbed;
      StillBefore(before, seen, from);
      StillAfter(seen, from, |before|);
      if found.None? || !UnderRoots(found.value.1, roots) {
        return Err(()), links;
      }
      var (k, ancestor) := found.value;
      AncestorTarget(seen[|seen| - 1], path, k, roots);
      return Ok(Embed(ancestor) + path[k..]), links;
    }

    /** One configured root: creates it if it is missing, then resolves it. */
    method EnsureRoot(others: Interference, raw: Path)
      returns (r: Outcome<seq<string>>, changes: seq<Change>, ghost links: seq<Link>)
      requires ValidPath(raw) && raw != []
      modifies this`root, this`seen
      ensures old(seen) < seen && Traced(others, old(root), old(seen), links, root, seen, changes)
      ensures r.Ok? ==> r.value != [] && Canonicalize(seen[|seen| - 1], raw) == Some(r.value)
      ensures forall i | 0 <= i < |changes| :: RootChange(changes[i], raw, seen)
      ensures Unhindered() && Calm(others) ==>
                match EnsuredRoot(old(root), raw)
                case None => r.Err?
                case Some((p, after)) => r == Ok(p) && root == after
    {
      hide Canonicalize, RootChange, Traced, EnsuredRoot;
      changes := [];
      TracedNothing(others, root, seen);
      links := Await(others, root, seen, [], []);
      ExistingRoot(root, raw);
      if !Exists(root, raw) {
        ghost var left, sofar := root, seen;
        var ok;
        ghost var making;
        ok, changes, making := MakeMissingRoot(others, raw);
        TracedThen(others, old(root), old(seen), links, left, sofar, [], making, root, seen, changes);
        assert [] + changes == changes;
        links := links + making;
        if !ok {
          return Err(()), changes, links;
        }
      }
      ghost var sofar := seen;
      links := Await(others, old(root), old(seen), links, changes);
      RootChangesLast(changes, raw, sofar, seen);
      var canonical := Canonicalize(root, raw);
      if canonical.None? || canonical.value == [] {
        return Err(()), changes, links;
      }
      return Ok(canonical.value), changes, links;
    }

    /** Creates a missing root below its deepest existing ancestor. */
    method MakeMissingRoot(others: Interference, raw: Path)
      returns (ok: bool, changes: seq<Change>, ghost links: seq<Link>)
      requires ValidPath(raw) && raw != []
      modifies this`root, this`seen
      ensures old(seen) <= seen && Traced(others, old(root), old(seen), links, root, seen, changes)
      ensures forall i | 0 <= i < |changes| :: RootChange(changes[i], raw, seen)
      ensures Unhindered() && Calm(others) && !Exists(old(root), raw) ==>
                match EnsuredRoot(old(root), raw)
                case None => !ok
                case Some((p, after)) => ok && root == after && p != [] && Canonicalize(root, raw) == Some(p)
    {
      hide Canonicalize, NormalNames, WithDirs, IsDirAt, DeepestAncestor, AncestorOf, Traced, RootChange;
      changes := [];
      ghost var fs := root;
      var found;
      found, links := FindAncestor(others, raw);
      var looked := seen;
      assert Calm(others) ==> found == AncestorOf(fs, raw);
      if found.None? {
        return false, changes, links;
      }
      var (k, ancestor) := found.value;
      var names := NormalNames(Embed(ancestor) + raw[k..]);
      if names.None? {
        return false, changes, links;
      }
      links := Await(others, old(root), old(seen), links, []);
      var before := root;
      ghost var made;
      ok, made := CreateDirAll(names.value);
      var c := MakeRoot(before, root, names.value, looked[|looked| - 1], raw, k);
      changes := [c];
      TracedMade(others, old(root), old(seen), links, seen, [], c);
      links := links + [Made(c)];
      RootChanged(c, ancestor, made, looked, seen);
      assert names.value[..|names.value|] == names.value;
      if ok && Calm(others) {
        CreatedRootResolves(fs, raw, k, ancestor, names.value);
      }
    }

    method EnsureAllowedRoots(others: Interference, allowed: seq<string>)
      returns (r: Outcome<seq<seq<string>>>, changes: seq<Change>, ghost links: seq<Link>)
      modifies this`root, this`seen
      ensures old(seen) <= seen && Traced(others, old(root), old(seen), links, root, seen, changes)
      ensures r.Ok? ==> RootsSeen(allowed, r.value, seen)
      ensures forall i | 0 <= i < |changes| :: changes[i].MakeRoot? && ConfinedChange(changes[i], allowed, [], seen, [])
      ensures Unhindered() && Calm(others) ==>
                if allowed == [] then r.Err?
                else match EnsuredRoots(old(root), allowed)
                  case None => r.Err?
                  case Some((roots, after)) => r == Ok(roots) && root == after
    {
      hide EnsuredRoot, RootChange, ConfinedChange, RootSeen, Canonicalize, ParseAbsolute, Traced;
      changes, links := [], [];
      TracedNothing(others, root, seen);
      if allowed == [] {
        return Err(()), changes, links;
      }
      var roots: seq<seq<string>> := [];
      assert allowed[..0] == [];
      for i := 0 to |allowed|
        invariant |roots| == i && old(seen) <= seen
        invariant Traced(others, old(root), old(seen), links, root, seen, changes)
        invariant forall j | 0 <= j < i :: RootSeen(allowed[j], roots[j], seen)
        invariant forall j | 0 <= j < |changes| ::
                  changes[j].MakeRoot? && ConfinedChange(changes[j], allowed, [], seen, [])
        invariant Unhindered() && Calm(others) ==> EnsuredRoots(old(root), allowed[..i]) == Some((roots, root))
      {
        EnsuredOneMore(old(root), allowed, i);
        var parsed := ParseAbsolute(allowed[i]);
        if parsed.None? || parsed.value == [] {
          NotEnsured(old(root), allowed, i + 1);
          return Err(()), changes, links;
        }
        ghost var left, sofar := root, seen;
        var canonical, made, more := EnsureRoot(others, parsed.value);
        TracedThen(others, old(root), old(seen), links, left, sofar, changes, more, root, seen, made);
        links := links + more;
        EarlierKept(allowed, roots, changes, sofar, seen);
        forall j | 0 <= j < |made|
          ensures made[j].MakeRoot? && ConfinedChange(made[j], allowed, [], seen, [])
        {
          RootConfined(made[j], allowed, i, seen);
        }
        changes := changes + made;
        if canonical.Err? {
          NotEnsured(old(root), allowed, i + 1);
          return Err(()), changes, links;
        }
        LastSeen(allowed[i], canonical.value, seen);
        roots := roots + [canonical.value];
      }
      assert allowed[..|allowed|] == allowed;
      return Ok(roots), changes, links;
    }

    /** Creates missing roots, checks the target, optionally creates its parents, checks again,
        then writes. `disk` is how many bytes the disk takes and `modeSet` whether setting the
        file mode succeeds. The changes made on the way are returned, with `links`, all that
        happened to the tree meanwhile; `from` is where the second check begins in `seen`. */
    method WriteFile(others: Interference, text: string, data: seq<byte>, mode: Option<nat>, createDirs: bool,
                     allowed: seq<string>, disk: nat, modeSet: bool)
      returns (r: Outcome<nat>, roots: seq<seq<string>>, changes: seq<Change>, ghost links: seq<Link>,
               ghost from: nat)
      modifies this`root, this`seen
      ensures old(seen) <= seen && Traced(others, old(root), old(seen), links, root, seen, changes)
      ensures forall i | 0 <= i < |changes| ::
                && ConfinedChange(changes[i], allowed, roots, seen, data)
                && (changes[i].MakeRoot? || RootsSeen(allowed, roots, seen))
      ensures r.Ok? ==> r.value == |data| <= HARD_MAX_FILE_WRITE_BYTES
      ensures r.Ok? ==> changes != [] && PutAt(changes[|changes| - 1], data, text, roots, seen, from)
                        && root == changes[|changes| - 1].after
      ensures Unhindered() && Calm(others) ==>
                && (r.Ok? <==> && Permitted(data, mode) && |data| <= disk && (mode.Some? ==> modeSet)
                               && Written(old(root), text, data, createDirs, allowed).Some?)
                && (r.Ok? ==> root == Written(old(root), text, data, createDirs, allowed).value)
    {
      hide RootsSeen, ConfinedChange, EnsuredRoots, WrittenUnder, FullPut, ParseAbsolute, Traced;
      roots, changes, links, from := [], [], [], 0;
      TracedNothing(others, root, seen);
      if HARD_MAX_FILE_WRITE_BYTES < |data| || (mode.Some? && FILE_PERMISSION_BITS_MASK < mode.value) {
        return Err(()), roots, changes, links, from;
      }
      var checked;
      checked, changes, links := EnsureAllowedRoots(others, allowed);
      RootChangesUnder(changes, allowed, roots, seen, data);
      if checked.Err? {
        return Err(()), roots, changes, links, from;
      }
      roots := checked.value;
      RootChangesUnder(changes, allowed, roots, seen, data);
      var parsed := ParseAbsolute(text);
      if parsed.None? {
        return Err(()), roots, changes, links, from;
      }
      ghost var left, sofar, next := root, seen, links;
      var ok, more;
      ok, more, next, from := WriteUnder(others, parsed.value, allowed, roots, data, createDirs, disk);
      ChangesLast(changes, allowed, roots, sofar, seen, data);
      TracedThen(others, old(root), old(seen), links, left, sofar, changes, next, root, seen, more);
      changes, links := changes + more, links + next;
      if !ok {
        return Err(()), roots, changes, links, from;
      }
      if mode.Some? && !modeSet {
        return Err(()), roots, changes, links, from;
      }
      return Ok(|data|), roots, changes, links, from;
    }

    /** The part of a write after its roots are known. */
    method WriteUnder(others: Interference, path: Path, ghost allowed: seq<string>, roots: seq<seq<string>>,
                      data: seq<byte>, createDirs: bool, disk: nat)
      returns (ok: bool, changes: seq<Change>, ghost links: seq<Link>, ghost from: nat)
      requires ValidPath(path)
      modifies this`root, this`seen
      ensures old(seen) <= seen && Traced(others, old(root), old(seen), links, root, seen, changes)
      ensures forall i | 0 <= i < |changes| ::
              !changes[i].MakeRoot? && ConfinedChange(changes[i], allowed, roots, seen, data)
      ensures ok ==> changes != [] && FullPut(changes[|changes| - 1], data, path, roots, seen, from)
                     && root == changes[|changes| - 1].after
      ensures Unhindered() && Calm(others) ==>
                && (ok <==> |data| <= disk && WrittenUnder(old(root), path, roots, data, createDirs).Some?)
                && (ok ==> root == WrittenUnder(old(root), path, roots, data, createDirs).value)
    {
      hide ConfinedChange, WriteTarget, CreatableAt, WithDirs, Lookup, NormalNames, Graft, WrittenUnder, FullPut,
           PutOutcome, Traced;
      from := 0;
      ok, changes, links := Prepare(others, path, allowed, roots, data, createDirs);
      if !ok {
        return;
      }
      ghost var left, sofar, next := root, seen, links;
      from := |seen|;
      var more;
      ok, more, next := CheckAndPut(others, path, allowed, roots, data, disk);
      TracedThen(others, old(root), old(seen), links, left, sofar, changes, next, root, seen, more);
      links := links + next;
      OtherChangesLast(changes, allowed, roots, sofar, seen, data);
      changes := changes + more;
    }

    /** The first check of the target, and the creation of its parents. */
    method Prepare(others: Interference, path: Path, ghost allowed: seq<string>, roots: seq<seq<string>>,
                   ghost data: seq<byte>, createDirs: bool)
      returns (ok: bool, changes: seq<Change>, ghost links: seq<Link>)
      requires ValidPath(path)
      modifies this`root, this`seen
      ensures old(seen) <= seen && Traced(others, old(root), old(seen), links, root, seen, changes)
      ensures forall i | 0 <= i < |changes| ::
              !changes[i].MakeRoot? && ConfinedChange(changes[i], allowed, roots, seen, data)
      ensures Unhindered() && Calm(others) ==>
                && (!ok ==> WrittenUnder(old(root), path, roots, data, createDirs).None?)
                && (ok ==>
                      PutOutcome(root, path, roots, data) ==
                      WrittenUnder(old(root), path, roots, data, createDirs))
    {
      hide ConfinedChange, PathUnderRoots, WriteTarget, CreatableAt, WithDirs, Lookup, Embed, NormalNames, Graft,
           WrittenUnder, PutOutcome, Traced;
      changes := [];
      ghost var fs := root;
      var target;
      target, links := ResolveWriteTarget(others, path, roots);
      if target.Err? {
        NoTarget(fs, path, roots, data, createDirs);
        return false, changes, links;
      }
      ok := true;
      if createDirs && target.value != [] {
        links := Await(others, old(root), old(seen), links, []);
        ok, changes := CreateParents(target.value, allowed, roots, seen, data);
        if changes != [] {
          TracedMade(others, old(root), old(seen), links, seen, [], changes[0]);
          links := links + [Made(changes[0])];
          assert changes == [changes[0]];
        }
        if !ok {
          ParentsRefused(fs, path, roots, data, target.value);
          return;
        }
      }
      if Unhindered() && Calm(others) {
        OnceForAll(fs, path, roots, data, createDirs, target.value);
      }
    }

    /** The second check of the target, and the write. */
    method CheckAndPut(others: Interference, path: Path, ghost allowed: seq<string>, roots: seq<seq<string>>,
                       data: seq<byte>, disk: nat)
      returns (ok: bool, changes: seq<Change>, ghost links: seq<Link>)
      requires ValidPath(path)
      modifies this`root, this`seen
      ensures old(seen) <= seen && Traced(others, old(root), old(seen), links, root, seen, changes)
      ensures forall i | 0 <= i < |changes| ::
              !changes[i].MakeRoot? && ConfinedChange(changes[i], allowed, roots, seen, data)
      ensures ok ==> changes != [] && FullPut(changes[|changes| - 1], data, path, roots, seen, |old(seen)|)
                     && root == changes[|changes| - 1].after
      ensures Unhindered() && Calm(others) ==>
                && (ok <==> |data| <= disk && PutOutcome(old(root), path, roots, data).Some?)
                && (ok ==> root == PutOutcome(old(root), path, roots, data).value)
    {
      hide ConfinedChange, PathUnderRoots, WriteTarget, Embed, NormalNames, Graft, FullPut, Lookup, Traced;
      var target;
      target, links := ResolveWriteTarget(others, path, roots);
      ghost var checked := seen;
      if target.Err? {
        return false, [], links;
      }
      links := Await(others, old(root), old(seen), links, []);
      ok, changes := PutTarget(target.value, allowed, roots, seen, data, disk);
      if changes != [] {
        TracedMade(others, old(root), old(seen), links, seen, [], changes[0]);
        links := links + [Made(changes[0])];
        assert changes == [changes[0]];
      }
      if ok {
        FullyPut(changes[0], data, path, roots, checked, seen, |old(seen)|, target.value);
      }
    }

    method CreateParents(target: Path, ghost allowed: seq<string>, ghost roots: seq<seq<string>>,
                         ghost trees: seq<Node>, ghost data: seq<byte>)
      returns (ok: bool, changes: seq<Change>)
      requires ValidPath(target) && PathUnderRoots(target, roots) && target != []
      modifies this`root
      ensures forall i | 0 <= i < |changes| ::
              !changes[i].MakeRoot? && ConfinedChange(changes[i], allowed, roots, trees, data)
      ensures if changes == [] then root == old(root)
              else |changes| == 1 && changes[0].before == old(root) && changes[0].after == root
      ensures ok ==> |changes| == 1 && changes[0].MakeDirs? && Embed(changes[0].names) == target[..|target| - 1]
                     && root == WithDirs(old(root), changes[0].names) && IsDirAt(root, changes[0].names)
      ensures Unhindered() ==>
                var names := NormalNames(target[..|target| - 1]);
                && (ok <==> names.Some? && IsDirAt(WithDirs(old(root), names.value), names.value))
                && (ok ==> changes[0].names == names.value)
    {
      var parent := NormalNames(target[..|target| - 1]);
      if parent.None? {
        return false, [];
      }
      var before := root;
      ghost var k;
      ok, k := CreateDirAll(parent.value);
      assert parent.value[..|parent.value|] == parent.value;
      changes := [MakeDirs(before, root, parent.value, target)];
    }

    method PutTarget(target: Path, ghost allowed: seq<string>, ghost roots: seq<seq<string>>, ghost trees: seq<Node>,
                     data: seq<byte>, disk: nat)
      returns (ok: bool, changes: seq<Change>)
      requires ValidPath(target) && PathUnderRoots(target, roots)
      modifies this`root
      ensures forall i | 0 <= i < |changes| ::
              !changes[i].MakeRoot? && ConfinedChange(changes[i], allowed, roots, trees, data)
      ensures changes == [] ==> root == old(root)
      ensures changes != [] ==> |changes| == 1 && changes[0].Put? && changes[0].before == old(root)
                                && changes[0].after == root && Embed(changes[0].names) == target
                                && NormalNames(target) == Some(changes[0].names)
                                && changes[0].names != []
                                && IsDirAt(old(root), changes[0].names[..|changes[0].names| - 1])
                                && root == Graft(old(root), changes[0].names, File(changes[0].content))
      ensures ok ==> changes != [] && |data| <= disk && changes[0].content == data
      ensures Unhindered() ==> (ok <==> CreatableAt(old(root), target) && |data| <= disk)
    {
      var names := NormalNames(target);
      if names.None? {
        return false, [];
      }
      UnderRootsEmbed(names.value, roots);
      var before := root;
      var open := CreateFile(names.value);
      if !open {
        return false, if root == before then [] else [Put(before, root, names.value, [])];
      }
      var written := WriteAll(before, names.value, data, disk);
      return |data| <= disk, [Put(before, root, names.value, written)];
    }
  }

  predicate Permitted(data: seq<byte>, mode: Option<nat>)
  {
    |data| <= HARD_MAX_FILE_WRITE_BYTES && (mode.Some? ==> mode.value <= FILE_PERMISSION_BITS_MASK)
  }

  /** The path passes the check at `t` and names a regular file one await later. */
  predicate ReadableAt(world: nat -> Node, t: nat, text: string, roots: seq<seq<string>>)
  {
    var resolved := ResolveExistingPath(world(t), text, roots);
    && resolved.Ok? && Lookup(world(t + 1), resolved.value).Some? && Lookup(world(t + 1), resolved.value).value.File?
  }

  /** The path passes the check at `t` and names a directory that can be listed one await later. */
  predicate ListableAt(world: nat -> Node, t: nat, text: string, roots: seq<seq<string>>)
  {
    var resolved := ResolveExistingPath(world(t), text, roots);
    && resolved.Ok? && IsDirAt(world(t + 1), resolved.value)
    && |Lookup(world(t + 1), resolved.value).value.entries| <= MAX_DIRECTORY_ENTRIES
  }

  /** What a delete needs of the tree it finds. */
  predicate DeletableAt(fs: Node, p: seq<string>, recursive: bool)
  {
    && p != [] && Lookup(fs, p).Some?
    && var node := Lookup(fs, p).value;
       node.Dir? ==> if recursive then Removable(node, p, {}) else node.entries == map[]
  }

  function Slice(content: seq<byte>, offset: nat, length: nat): seq<byte>
  {
    if |content| <= offset then []
    else if |content| - offset <= length then content[offset..]
    else content[offset..offset + length]
  }

  /** A deletion whose parent is under a root, whether it succeeds or fails half-way, leaves
      everything outside the roots as it was. */
  lemma {:induction false} DeletionOutsideRoots(before: Node, after: Node, p: seq<string>, roots: seq<seq<string>>,
                                                q: seq<string>)
    requires p != [] && UnderRoots(p[..|p| - 1], roots) && !UnderRoots(q, roots)
    requires (Lookup(before, p).Some? && after == Prune(before, p)) || OnlyLost(before, after, p)
    ensures Lookup(before, q).Some? && !Lookup(before, q).value.Dir? ==> Lookup(after, q) == Lookup(before, q)
    ensures Lookup(before, q).Some? && Lookup(before, q).value.Dir? ==> IsDirAt(after, q)
    ensures Lookup(before, q).None? ==> Lookup(after, q).None?
  {
    hide Prune, Graft, Remains;
    var parent := p[..|p| - 1];
    assert parent <= p;
    if p <= q {
      UnderRootsExtends(parent, q, roots);
      assert false;
    }
    if after != before {
      LookupParent(before, p);
      if Lookup(before, p).Some? && after == Prune(before, p) {
        LookupPrune(before, p, q);
      } else {
        var rest :| Remains(rest, Lookup(before, p).value) && after == Graft(before, p, rest);
        LookupGraft(before, p, rest, q);
        GraftKeepsParent(before, p, rest);
      }
      if q < p {
        assert q == p[..|p| - 1][..|q|];
        LookupPrefix(before, p[..|p| - 1], |q|);
        if after == Prune(before, p) {
          PrunedIsDir(before, p, q);
        } else {
          LookupPrefix(after, p[..|p| - 1], |q|);
        }
      }
    }
  }

  lemma PrunedIsDir(before: Node, p: seq<string>, q: seq<string>)
    requires p != [] && Lookup(before, p).Some? && q < p
    ensures IsDirAt(Prune(before, p), q)
  {
    LookupPrune(before, p, q);
  }
}
