/** Allowed file roots: which paths lie below them, and where reads, deletions and writes go. */
module AllowedRoots {
  import opened PosixPath
  import opened FileTree
  import opened Wrappers

  predicate UnderRoots(p: seq<string>, roots: seq<seq<string>>)
  {
    exists i | 0 <= i < |roots| :: roots[i] <= p
  }

  predicate PathUnderRoots(path: Path, roots: seq<seq<string>>)
  {
    exists i | 0 <= i < |roots| :: Embed(roots[i]) <= path
  }

  /** A literal path below an allowed root, with no name that could lead out of it. */
  predicate Confined(p: seq<string>, roots: seq<seq<string>>)
  {
    ValidNames(p) && UnderRoots(p, roots)
  }

  lemma UnderRootsEmbed(p: seq<string>, roots: seq<seq<string>>)
    ensures PathUnderRoots(Embed(p), roots) <==> UnderRoots(p, roots)
  {
    forall i | 0 <= i < |roots|
      ensures Embed(roots[i]) <= Embed(p) <==> roots[i] <= p
    {
      EmbedPrefix(roots[i], p);
    }
  }

  lemma UnderRootsExtends(p: seq<string>, q: seq<string>, roots: seq<seq<string>>)
    requires UnderRoots(p, roots) && p <= q
    ensures UnderRoots(q, roots)
  {
    var i :| 0 <= i < |roots| && roots[i] <= p;
    assert roots[i] <= q;
  }

  lemma PathUnderRootsExtends(path: Path, more: Path, roots: seq<seq<string>>)
    requires PathUnderRoots(path, roots)
    ensures PathUnderRoots(path + more, roots)
  {
    var i :| 0 <= i < |roots| && Embed(roots[i]) <= path;
    assert Embed(roots[i]) <= path + more;
  }

  function ParseAbsolute(text: string): (r: Option<Path>)
    ensures r.Some? ==> ValidPath(r.value)
  {
    if '\0' in text || !IsAbsolute(Trim(text)) then None else Some(Parts(Trim(text)))
  }

  predicate Exists(fs: Node, path: Path)
  {
    Canonicalize(fs, path).Some?
  }

  // ---- The configured roots ----

  /** `roots` are the canonical forms, at the first awaits, of the configured roots. */
  ghost predicate RootsAt(world: nat -> Node, allowed: seq<string>, roots: seq<seq<string>>)
  {
    && allowed != [] && |roots| == |allowed|
    && forall i | 0 <= i < |allowed| ::
         && ParseAbsolute(allowed[i]).Some? && ParseAbsolute(allowed[i]).value != []
         && roots[i] != []
         && Canonicalize(world(i), ParseAbsolute(allowed[i]).value) == Some(roots[i])
  }

  lemma RootsUnique(world: nat -> Node, allowed: seq<string>, x: seq<seq<string>>, y: seq<seq<string>>)
    requires RootsAt(world, allowed, x) && RootsAt(world, allowed, y)
    ensures x == y
  {
    assert forall i | 0 <= i < |allowed| ::
           Some(x[i]) == Canonicalize(world(i), ParseAbsolute(allowed[i]).value) == Some(y[i]);
  }

  method CanonicalAllowedRoots(world: nat -> Node, allowed: seq<string>) returns (r: Outcome<seq<seq<string>>>)
    ensures r.Ok? ==> RootsAt(world, allowed, r.value)
    ensures r.Err? ==> forall roots :: !RootsAt(world, allowed, roots)
  {
    if allowed == [] {
      return Err(());
    }
    var roots: seq<seq<string>> := [];
    for i := 0 to |allowed|
      invariant |roots| == i
      invariant forall j | 0 <= j < i ::
                  && ParseAbsolute(allowed[j]).Some? && ParseAbsolute(allowed[j]).value != []
                  && roots[j] != [] && Canonicalize(world(j), ParseAbsolute(allowed[j]).value) == Some(roots[j])
    {
      var parsed := ParseAbsolute(allowed[i]);
      if parsed.None? || parsed.value == [] {
        return Err(());
      }
      var canonical := Canonicalize(world(i), parsed.value);
      if canonical.None? || canonical.value == [] {
        return Err(());
      }
      roots := roots + [canonical.value];
    }
    return Ok(roots);
  }

  // ---- Where an operation goes ----

  function ResolveExistingPath(fs: Node, text: string, roots: seq<seq<string>>): (r: Outcome<seq<string>>)
    ensures r.Ok? ==> Confined(r.value, roots)
    ensures r.Ok? ==> Lookup(fs, r.value).Some? && !Lookup(fs, r.value).value.Symlink?
    ensures r.Ok? <==> ParseAbsolute(text).Some? && Canonicalize(fs, ParseAbsolute(text).value).Some?
                       && UnderRoots(Canonicalize(fs, ParseAbsolute(text).value).value, roots)
  {
    var parsed := ParseAbsolute(text);
    if parsed.None? || Canonicalize(fs, parsed.value).None? then Err(())
    else
      CanonicalSound(fs, parsed.value);
      var canonical := Canonicalize(fs, parsed.value).value;
      if UnderRoots(canonical, roots) then Ok(canonical) else Err(())
  }

  /** The entry a request to delete `text` names: its literal last component, in the canonical
      form of the directory before it. */
  function DeletionTarget(fs: Node, text: string, roots: seq<seq<string>>): (r: Outcome<seq<string>>)
    ensures r.Ok? ==> r.value != [] && ValidNames(r.value) && UnderRoots(r.value[..|r.value| - 1], roots)
  {
    var parsed := ParseAbsolute(text);
    if parsed.None? || parsed.value == [] || parsed.value[|parsed.value| - 1].Up? then Err(())
    else
      var raw := parsed.value;
      match Canonicalize(fs, raw[..|raw| - 1])
      case None => Err(())
      case Some(parent) =>
        if !UnderRoots(parent, roots) then Err(())
        else
          CanonicalSound(fs, raw[..|raw| - 1]);
          assert (parent + [raw[|raw| - 1].name])[..|parent|] == parent;
          Ok(parent + [raw[|raw| - 1].name])
  }

  /** The longest existing proper ancestor among the first `k` components. */
  function DeepestAncestor(fs: Node, path: Path, k: nat): (r: Option<nat>)
    requires k <= |path|
    ensures r.Some? ==> r.value <= k && Exists(fs, path[..r.value])
    ensures forall j | (if r.Some? then r.value + 1 else 0) <= j <= k :: !Exists(fs, path[..j])
  {
    if Exists(fs, path[..k]) then Some(k) else if k == 0 then None else DeepestAncestor(fs, path, k - 1)
  }

  /** The deepest existing ancestor of a missing path, and what it resolves to. */
  function AncestorOf(fs: Node, path: Path): Option<(nat, seq<string>)>
    requires path != []
  {
    match DeepestAncestor(fs, path, |path| - 1)
    case None => None
    case Some(k) => match Canonicalize(fs, path[..k]) case None => None case Some(ancestor) => Some((k, ancestor))
  }

  /** Where a write to `path` should go in a tree nobody else is changing. */
  function WriteTarget(fs: Node, path: Path, roots: seq<seq<string>>): Outcome<Path>
  {
    match Canonicalize(fs, path)
    case Some(canonical) => if UnderRoots(canonical, roots) then Ok(Embed(canonical)) else Err(())
    case None =>
      if path == [] || DeepestAncestor(fs, path, |path| - 1).None? then Err(())
      else
        var k := DeepestAncestor(fs, path, |path| - 1).value;
        match Canonicalize(fs, path[..k])
        case None => Err(())
        case Some(ancestor) => if UnderRoots(ancestor, roots) then Ok(Embed(ancestor) + path[k..]) else Err(())
  }

  lemma CanonicalTarget(fs: Node, path: Path, roots: seq<seq<string>>)
    requires ValidPath(path) && Canonicalize(fs, path).Some? && UnderRoots(Canonicalize(fs, path).value, roots)
    ensures var p := Embed(Canonicalize(fs, path).value); ValidPath(p) && PathUnderRoots(p, roots)
  {
    var canonical := Canonicalize(fs, path).value;
    CanonicalSound(fs, path);
    EmbedValid(canonical);
    UnderRootsEmbed(canonical, roots);
  }

  lemma AncestorTarget(fs: Node, path: Path, k: nat, roots: seq<seq<string>>)
    requires ValidPath(path) && k <= |path|
    requires Canonicalize(fs, path[..k]).Some? && UnderRoots(Canonicalize(fs, path[..k]).value, roots)
    ensures var p := Embed(Canonicalize(fs, path[..k]).value) + path[k..]; ValidPath(p) && PathUnderRoots(p, roots)
  {
    CanonicalTarget(fs, path[..k], roots);
    PathUnderRootsExtends(Embed(Canonicalize(fs, path[..k]).value), path[k..], roots);
  }

  // ---- Why the write needs both checks ----

  /** The target is literal exactly when the path exists or its missing tail has no `..`. */
  lemma {:induction false} TargetLiteralIff(fs: Node, path: Path, roots: seq<seq<string>>)
    requires WriteTarget(fs, path, roots).Ok?
    ensures NormalNames(WriteTarget(fs, path, roots).value).Some? <==>
              Exists(fs, path) ||
              var k := DeepestAncestor(fs, path, |path| - 1).value; forall i | k <= i < |path| :: path[i].Name?
  {
    hide Canonicalize, DeepestAncestor;
    if !Exists(fs, path) {
      var k := DeepestAncestor(fs, path, |path| - 1).value;
      NormalAfterNames(Canonicalize(fs, path[..k]).value, path[k..]);
      assert forall i | k <= i < |path| :: path[i] == path[k..][i - k];
    }
  }

  lemma NormalAfterNames(names: seq<string>, tail: Path)
    ensures NormalNames(Embed(names) + tail).Some? <==> forall i | 0 <= i < |tail| :: tail[i].Name?
  {
    assert forall i | 0 <= i < |tail| :: (Embed(names) + tail)[|names| + i] == tail[i];
  }

  /** The root check alone lets a climbing tail through: with only `/srv` existing and allowed,
      `/srv/x/../../etc` resolves to a target that starts with `/srv`. The walk refuses it. */
  lemma {:induction false} ClimbingTailPassesRootCheck()
    ensures var fs := Dir(map["srv" := Dir(map[])]);
            var path := [Name("srv"), Name("x"), Up, Up, Name("etc")];
            && WriteTarget(fs, path, [["srv"]]) == Ok(path)
            && NormalNames(path).None?
  {
    var fs := Dir(map["srv" := Dir(map[])]);
    var path := [Name("srv"), Name("x"), Up, Up, Name("etc")];
    forall k | 2 <= k <= 5
      ensures !Exists(fs, path[..k])
    {
      MissingSecond(fs, path[..k]);
    }
    assert path[..5] == path;
    assert path[..1] == Embed(["srv"]);
    assert [] + ["srv"] == ["srv"];
    ResolveLiteral(fs, [], ["srv"], MAX_SYMLINKS);
    assert Canonicalize(fs, path[..1]) == Some(["srv"]);
    assert DeepestAncestor(fs, path, 1) == Some(1);
    assert DeepestAncestor(fs, path, 2) == Some(1);
    assert DeepestAncestor(fs, path, 4) == Some(1);
    assert UnderRoots(["srv"], [["srv"]]) by { assert [["srv"]][0] <= ["srv"]; }
    assert path == Embed(["srv"]) + path[1..];
    assert path[2].Up?;
  }

  lemma MissingSecond(fs: Node, path: Path)
    requires fs == Dir(map["srv" := Dir(map[])])
    requires |path| >= 2 && path[0] == Name("srv") && path[1] == Name("x")
    ensures !Exists(fs, path)
  {
    assert [] + ["srv"] == ["srv"];
    assert ["srv"] + ["x"] == ["srv", "x"];
    assert ["srv"][1..] == [] && ["srv", "x"][1..] == ["x"];
    assert Lookup(fs, ["srv"]) == Some(Dir(map[]));
    assert Lookup(fs, ["srv", "x"]) == Lookup(Dir(map[]), ["x"]) == None;
    assert Resolve(fs, [], path, MAX_SYMLINKS) == Resolve(fs, ["srv"], path[1..], MAX_SYMLINKS);
  }
}
