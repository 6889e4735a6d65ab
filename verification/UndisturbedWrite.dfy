/** What a write does when nobody interferes: it looks its target up once, creates what is
    missing, and writes. The executor looks twice; here it is shown that this comes to the same. */
module UndisturbedWrite {
  import opened Bytes
  import opened PosixPath
  import opened FileTree
  import opened AllowedRoots
  import opened Wrappers

  /** The place and the tree after ensuring one root. */
  function EnsuredRoot(fs: Node, raw: Path): Option<(seq<string>, Node)>
    requires raw != []
  {
    match Canonicalize(fs, raw)
    case Some(p) => if p == [] then None else Some((p, fs))
    case None =>
      match AncestorOf(fs, raw)
      case None => None
      case Some((k, ancestor)) =>
        match NormalNames(Embed(ancestor) + raw[k..])
        case None => None
        case Some(names) =>
          if IsDirAt(WithDirs(fs, names), names) then Some((names, WithDirs(fs, names))) else None
  }

  /** A root that is there is left as it is. */
  lemma ExistingRoot(fs: Node, raw: Path)
    requires raw != []
    ensures var p := Canonicalize(fs, raw);
            p.Some? ==> EnsuredRoot(fs, raw) == if p.value == [] then None else Some((p.value, fs))
  {
    hide Canonicalize;
  }

  function EnsuredRoots(fs: Node, allowed: seq<string>): Option<(seq<seq<string>>, Node)>
  {
    if allowed == [] then Some(([], fs))
    else
      match EnsuredRoots(fs, allowed[..|allowed| - 1])
      case None => None
      case Some((roots, before)) =>
        var raw := ParseAbsolute(allowed[|allowed| - 1]);
        if raw.None? || raw.value == [] then None
        else
          match EnsuredRoot(before, raw.value)
          case None => None
          case Some((p, after)) => Some((roots + [p], after))
  }

  lemma EnsuredOneMore(fs: Node, allowed: seq<string>, i: nat)
    requires i < |allowed|
    ensures allowed[..i + 1][..i] == allowed[..i] && allowed[..i + 1][i] == allowed[i]
  {
  }

  /** A root that cannot be ensured ends the whole check. */
  lemma {:induction false} NotEnsured(fs: Node, allowed: seq<string>, i: nat)
    requires i <= |allowed|
    ensures EnsuredRoots(fs, allowed[..i]).None? ==> EnsuredRoots(fs, allowed).None?
    decreases |allowed| - i
  {
    hide EnsuredRoot, ParseAbsolute;
    if i == |allowed| {
      assert allowed[..i] == allowed;
    } else {
      EnsuredOneMore(fs, allowed, i);
      NotEnsured(fs, allowed, i + 1);
    }
  }

  /** A literal path in an existing directory, where no directory, link or special node is. */
  predicate CreatableAt(fs: Node, target: Path)
  {
    var names := NormalNames(target);
    && names.Some? && names.value != [] && IsDirAt(fs, names.value[..|names.value| - 1])
    && (Lookup(fs, names.value).None? || Lookup(fs, names.value).value.File?)
  }

  /** The tree after writing `data` at `path`, given the roots: the target is looked up once,
      its parents are created if asked for, and it must be free or a regular file. */
  function WrittenUnder(fs: Node, path: Path, roots: seq<seq<string>>, data: seq<byte>, createDirs: bool): Option<Node>
  {
    match WriteTarget(fs, path, roots)
    case Err(_) => None
    case Ok(target) =>
      var names := NormalNames(target);
      if names.None? || names.value == [] then None
      else
        var dirs := names.value[..|names.value| - 1];
        var ready := if createDirs then WithDirs(fs, dirs) else fs;
        if IsDirAt(ready, dirs) && (Lookup(fs, names.value).None? || Lookup(fs, names.value).value.File?)
        then Some(Graft(ready, names.value, File(data))) else None
  }

  function Written(fs: Node, text: string, data: seq<byte>, createDirs: bool, allowed: seq<string>): Option<Node>
  {
    if allowed == [] || EnsuredRoots(fs, allowed).None? || ParseAbsolute(text).None? then None
    else
      var (roots, ready) := EnsuredRoots(fs, allowed).value;
      WrittenUnder(ready, ParseAbsolute(text).value, roots, data, createDirs)
  }

  // ---- Created directories resolve to where they were made ----

  /** Once the missing directories exist, a path resolves to the literal place they were made. */
  lemma {:induction false} DirsResolve(fs: Node, path: Path, k: nat, ancestor: seq<string>, dirs: seq<string>)
    requires k <= |path| && Canonicalize(fs, path[..k]) == Some(ancestor)
    requires ancestor <= dirs && Embed(dirs[|ancestor|..]) == path[k..]
    requires IsDirAt(WithDirs(fs, dirs), dirs)
    ensures Canonicalize(WithDirs(fs, dirs), path) == Some(dirs)
  {
    hide Lookup, WithDirs, Resolve, Embed;
    var rest := dirs[|ancestor|..];
    var after := WithDirs(fs, dirs);
    assert dirs == ancestor + rest;
    ResolveWithDirs(fs, dirs, [], path[..k], MAX_SYMLINKS);
    LookupPrefix(after, dirs, |ancestor|);
    LookupPrefix(after, dirs, 0);
    assert dirs[..|ancestor|] == ancestor && dirs[..0] == [];
    ResolveThen(after, [], path[..k], MAX_SYMLINKS, ancestor, rest);
    assert path[..k] + Embed(rest) == path;
    RootIsDir(after);
  }

  /** A root that was missing resolves, once made, to the place where it was made. */
  lemma {:induction false} CreatedRootResolves(fs: Node, raw: Path, k: nat, ancestor: seq<string>, names: seq<string>)
    requires k < |raw| && Canonicalize(fs, raw[..k]) == Some(ancestor)
    requires NormalNames(Embed(ancestor) + raw[k..]) == Some(names)
    requires IsDirAt(WithDirs(fs, names), names)
    ensures Canonicalize(WithDirs(fs, names), raw) == Some(names) && names != []
  {
    hide Canonicalize, IsDirAt, WithDirs;
    LiteralTail(ancestor, raw[k..], names);
    DirsResolve(fs, raw, k, ancestor, names);
  }

  // ---- The second check ----

  /** Creating the parents of a target does not move it: the second check finds the same
      place, and the write then succeeds unless something other than a file is there. */
  lemma {:induction false} ParentsKeepTarget(fs: Node, path: Path, roots: seq<seq<string>>, names: seq<string>)
    requires ValidPath(path) && names != [] && WriteTarget(fs, path, roots) == Ok(Embed(names))
    requires var dirs := names[..|names| - 1]; IsDirAt(WithDirs(fs, dirs), dirs)
    ensures var after := WithDirs(fs, names[..|names| - 1]);
            && WriteTarget(after, path, roots) == Ok(Embed(names))
            && (CreatableAt(after, Embed(names)) <==> Lookup(fs, names).None? || Lookup(fs, names).value.File?)
  {
    var dirs := names[..|names| - 1];
    LookupWithDirs(fs, dirs, names);
    if Lookup(fs, names).Some? {
      LookupParent(fs, names);
      WithDirsOpen(fs, dirs);
    } else {
      NewTargetKept(fs, path, roots, names);
    }
    NormalNamesOf(names);
  }

  lemma {:induction false} NewTargetKept(fs: Node, path: Path, roots: seq<seq<string>>, names: seq<string>)
    requires ValidPath(path) && names != [] && WriteTarget(fs, path, roots) == Ok(Embed(names))
             && Lookup(fs, names).None?
    requires var dirs := names[..|names| - 1]; IsDirAt(WithDirs(fs, dirs), dirs)
    ensures WriteTarget(WithDirs(fs, names[..|names| - 1]), path, roots) == Ok(Embed(names))
  {
    hide Lookup, WithDirs, Resolve;
    if Canonicalize(fs, path).Some? {
      var canonical := Canonicalize(fs, path).value;
      EmbedPrefix(names, canonical);
      EmbedPrefix(canonical, names);
      assert canonical == names;
      CanonicalSound(fs, path);
      assert false;
    }
    var k := DeepestAncestor(fs, path, |path| - 1).value;
    var ancestor := Canonicalize(fs, path[..k]).value;
    LiteralTail(ancestor, path[k..], names);
    var dirs := names[..|names| - 1];
    assert path[..|path| - 1][..k] == path[..k] && Embed(dirs[|ancestor|..]) == path[..|path| - 1][k..];
    DirsResolve(fs, path[..|path| - 1], k, ancestor, dirs);
    LookupWithDirs(fs, dirs, names);
    UnderRootsExtends(ancestor, dirs, roots);
    TargetBelow(WithDirs(fs, dirs), path, names, roots);
  }

  /** A missing last component below an allowed directory is the target itself. */
  lemma {:induction false} TargetBelow(fs: Node, path: Path, names: seq<string>, roots: seq<seq<string>>)
    requires names != [] && path != [] && path[|path| - 1] == Name(names[|names| - 1])
    requires var dirs := names[..|names| - 1];
             && Canonicalize(fs, path[..|path| - 1]) == Some(dirs) && IsDirAt(fs, dirs) && UnderRoots(dirs, roots)
    requires Lookup(fs, names).None?
    ensures WriteTarget(fs, path, roots) == Ok(Embed(names))
  {
    hide Lookup, Resolve;
    var dirs, last := names[..|names| - 1], [names[|names| - 1]];
    assert names == dirs + last;
    ResolveThen(fs, [], path[..|path| - 1], MAX_SYMLINKS, dirs, last);
    assert path[..|path| - 1] + Embed(last) == path;
    assert Embed(dirs) + path[|path| - 1..] == Embed(names);
  }

  /** Looking the target up again after creating its parents decides as looking it up once: a
      target that ends in `..` then names an existing directory and cannot be written. */
  lemma {:induction false} UndisturbedParents(fs: Node, path: Path, roots: seq<seq<string>>, target: Path)
    requires ValidPath(path) && target != [] && WriteTarget(fs, path, roots) == Ok(target)
    requires NormalNames(target[..|target| - 1]).Some?
    requires var dirs := NormalNames(target[..|target| - 1]).value; IsDirAt(WithDirs(fs, dirs), dirs)
    ensures var dirs := NormalNames(target[..|target| - 1]).value;
            var after := WithDirs(fs, dirs);
            var second, names := WriteTarget(after, path, roots), NormalNames(target);
            && (names.Some? ==> dirs == names.value[..|names.value| - 1] && names.value != [] && second == Ok(target))
            && (second.Ok? && CreatableAt(after, second.value) <==>
                names.Some? && (Lookup(fs, names.value).None? || Lookup(fs, names.value).value.File?))
  {
    hide Lookup, WithDirs, Canonicalize, DeepestAncestor, WriteTarget;
    var dirs := NormalNames(target[..|target| - 1]).value;
    if NormalNames(target).Some? {
      var names := NormalNames(target).value;
      LiteralParent(target, names, dirs);
      ParentsKeepTarget(fs, path, roots, names);
    } else {
      NormalLast(target);
      assert target == Embed(dirs) + [Up];
      UpTargetExists(fs, path, roots, dirs);
    }
  }

  /** A missing path whose target ends in `..`: after its parents are made it exists and is a
      directory. */
  lemma {:induction false} UpTargetExists(fs: Node, path: Path, roots: seq<seq<string>>, dirs: seq<string>)
    requires ValidPath(path) && WriteTarget(fs, path, roots) == Ok(Embed(dirs) + [Up])
    requires IsDirAt(WithDirs(fs, dirs), dirs)
    ensures var after := WithDirs(fs, dirs);
            var second := WriteTarget(after, path, roots);
            second.Ok? ==> !CreatableAt(after, second.value)
  {
    hide Lookup, WithDirs, Resolve, DeepestAncestor, UnderRoots;
    NotLiteral(dirs);
    if Canonicalize(fs, path).Some? {
      NormalNamesOf(Canonicalize(fs, path).value);
      assert false;
    }
    var k := DeepestAncestor(fs, path, |path| - 1).value;
    var ancestor := Canonicalize(fs, path[..k]).value;
    UpTail(ancestor, path, k, dirs);
    DirsResolve(fs, path[..|path| - 1], k, ancestor, dirs);
    var after := WithDirs(fs, dirs);
    ResolveUp(after, [], path[..|path| - 1], MAX_SYMLINKS, dirs);
    assert path[..|path| - 1] + [Up] == path;
    var up := if dirs == [] then [] else dirs[..|dirs| - 1];
    LookupPrefix(after, dirs, |up|);
    assert dirs[..|up|] == up;
    assert Canonicalize(after, path) == Some(up);
    NormalNamesOf(up);
  }

  lemma UpTail(ancestor: seq<string>, path: Path, k: nat, dirs: seq<string>)
    requires k < |path| && Embed(ancestor) + path[k..] == Embed(dirs) + [Up]
    ensures path[|path| - 1] == Up && ancestor <= dirs && path[..|path| - 1][..k] == path[..k]
    ensures Embed(dirs[|ancestor|..]) == path[..|path| - 1][k..]
  {
    var whole := Embed(dirs) + [Up];
    assert path[k..][|path| - k - 1] == whole[|whole| - 1];
    assert Embed(ancestor) == whole[..|ancestor|] == Embed(dirs)[..|ancestor|];
    EmbedPrefix(ancestor, dirs);
    assert path[k..] == whole[|ancestor|..];
    assert path[..|path| - 1][k..] == path[k..][..|path| - 1 - k] == Embed(dirs)[|ancestor|..];
  }

  // ---- The whole outcome ----

  lemma NoTarget(fs: Node, path: Path, roots: seq<seq<string>>, data: seq<byte>, createDirs: bool)
    ensures WriteTarget(fs, path, roots).Err? ==> WrittenUnder(fs, path, roots, data, createDirs).None?
  {
    hide WriteTarget;
  }

  /** Parents that cannot be made make the write impossible. */
  lemma ParentsRefused(fs: Node, path: Path, roots: seq<seq<string>>, data: seq<byte>, target: Path)
    requires target != []
    ensures WriteTarget(fs, path, roots) == Ok(target) ==>
            var dirs := NormalNames(target[..|target| - 1]);
            !(dirs.Some? && IsDirAt(WithDirs(fs, dirs.value), dirs.value)) ==>
            WrittenUnder(fs, path, roots, data, true).None?
  {
    hide WriteTarget, WithDirs, Lookup;
    if NormalNames(target).Some? {
      assert NormalNames(target[..|target| - 1]).Some?;
      LiteralParent(target, NormalNames(target).value, NormalNames(target[..|target| - 1]).value);
    }
  }

  /** The tree after the second check and the write, started in `fs`. */
  function PutOutcome(fs: Node, path: Path, roots: seq<seq<string>>, data: seq<byte>): Option<Node>
  {
    match WriteTarget(fs, path, roots)
    case Err(_) => None
    case Ok(target) =>
      if CreatableAt(fs, target) then Some(Graft(fs, NormalNames(target).value, File(data))) else None
  }

  /** Checking again in the tree with the parents made, and writing there, comes to what a
      write with a single check does. */
  lemma {:induction false} OnceForAll(fs: Node, path: Path, roots: seq<seq<string>>, data: seq<byte>, createDirs: bool,
                                      target: Path)
    requires ValidPath(path) && WriteTarget(fs, path, roots) == Ok(target)
    requires createDirs && target != [] ==>
               NormalNames(target[..|target| - 1]).Some? &&
               var dirs := NormalNames(target[..|target| - 1]).value; IsDirAt(WithDirs(fs, dirs), dirs)
    ensures var ready :=
              if createDirs && target != [] then WithDirs(fs, NormalNames(target[..|target| - 1]).value) else fs;
            PutOutcome(ready, path, roots, data) == WrittenUnder(fs, path, roots, data, createDirs)
  {
    hide WriteTarget, WithDirs, Lookup, Graft;
    if createDirs && target != [] {
      UndisturbedParents(fs, path, roots, target);
    }
  }
}
