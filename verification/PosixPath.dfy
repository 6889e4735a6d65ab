/** Path text as Rust's `Path::components` reads it on Unix: repeated slashes and `.`
    segments vanish, `..` stays, and comparisons are component by component. */
module PosixPath {
  import opened Wrappers

  datatype Part = Name(name: string) | Up
  /** The components of an absolute path after its root. */
  type Path = seq<Part>

  predicate ValidName(n: string)
  {
    n != "" && n != "." && n != ".." && '/' !in n
  }

  predicate ValidNames(names: seq<string>)
  {
    forall i | 0 <= i < |names| :: ValidName(names[i])
  }

  predicate ValidPath(path: Path)
  {
    forall i | 0 <= i < |path| :: path[i].Name? ==> ValidName(path[i].name)
  }

  function SlashAt(s: string): (i: nat)
    ensures i <= |s| && '/' !in s[..i] && (i < |s| ==> s[i] == '/')
  {
    if s == "" || s[0] == '/' then 0
    else
      var i := SlashAt(s[1..]);
      assert s[..i + 1] == [s[0]] + s[1..][..i];
      i + 1
  }

  function PartOf(segment: string): Path
  {
    if segment == "" || segment == "." then [] else if segment == ".." then [Up] else [Name(segment)]
  }

  function Parts(s: string): (path: Path)
    ensures ValidPath(path)
    decreases |s|
  {
    var i := SlashAt(s);
    if i == |s| then PartOf(s[..i]) else PartOf(s[..i]) + Parts(s[i + 1..])
  }

  predicate IsAbsolute(s: string)
  {
    s != "" && s[0] == '/'
  }

  predicate IsWhitespace(c: char)
  {
    var n := c as int;
    9 <= n <= 13 || n == 32 || n == 0x85 || n == 0xA0 || n == 0x1680 || 0x2000 <= n <= 0x200A
    || n == 0x2028 || n == 0x2029 || n == 0x202F || n == 0x205F || n == 0x3000
  }

  function TrimStart(s: string): string
  {
    if s != "" && IsWhitespace(s[0]) then TrimStart(s[1..]) else s
  }

  function TrimEnd(s: string): string
  {
    if s != "" && IsWhitespace(s[|s| - 1]) then TrimEnd(s[..|s| - 1]) else s
  }

  function Trim(s: string): string
  {
    TrimEnd(TrimStart(s))
  }

  function Embed(names: seq<string>): (path: Path)
    ensures |path| == |names| && forall i | 0 <= i < |names| :: path[i] == Name(names[i])
  {
    seq(|names|, i requires 0 <= i < |names| => Name(names[i]))
  }

  /** The names of a path that has no `..` left in it. */
  function NormalNames(path: Path): (r: Option<seq<string>>)
    ensures r.Some? <==> forall i | 0 <= i < |path| :: path[i].Name?
    ensures r.Some? ==> Embed(r.value) == path
    ensures r.Some? && ValidPath(path) ==> ValidNames(r.value)
  {
    if forall i | 0 <= i < |path| :: path[i].Name? then
      Some(seq(|path|, i requires 0 <= i < |path| => path[i].name))
    else None
  }

  lemma EmbedPrefix(a: seq<string>, b: seq<string>)
    ensures Embed(a) <= Embed(b) <==> a <= b
  {
    if Embed(a) <= Embed(b) {
      forall i | 0 <= i < |a|
        ensures a[i] == b[i]
      {
        assert Embed(a)[i] == Embed(b)[i];
      }
    }
    if a <= b {
      assert forall i | 0 <= i < |a| :: Embed(a)[i] == Embed(b)[i];
    }
  }

  lemma EmbedValid(names: seq<string>)
    requires ValidNames(names)
    ensures ValidPath(Embed(names))
  {
  }

  lemma NormalNamesOf(names: seq<string>)
    ensures NormalNames(Embed(names)) == Some(names)
  {
    EmbedPrefix(NormalNames(Embed(names)).value, names);
    assert NormalNames(Embed(names)).value == names;
  }

  lemma NormalLast(target: Path)
    requires target != [] && NormalNames(target[..|target| - 1]).Some? && NormalNames(target).None?
    ensures target[|target| - 1].Up? && target == Embed(NormalNames(target[..|target| - 1]).value) + [Up]
  {
    assert target == target[..|target| - 1] + [target[|target| - 1]];
  }

  lemma LiteralParent(target: Path, names: seq<string>, dirs: seq<string>)
    requires target != [] && NormalNames(target) == Some(names) && NormalNames(target[..|target| - 1]) == Some(dirs)
    ensures Embed(names) == target && names != [] && dirs == names[..|names| - 1]
  {
    EmbedPrefix(dirs, names[..|names| - 1]);
    EmbedPrefix(names[..|names| - 1], dirs);
    assert Embed(names[..|names| - 1]) == target[..|target| - 1];
  }

  lemma NotLiteral(dirs: seq<string>)
    ensures NormalNames(Embed(dirs) + [Up]).None?
  {
    assert (Embed(dirs) + [Up])[|dirs|] == Up;
  }

  lemma LiteralTail(a: seq<string>, tail: Path, names: seq<string>)
    requires Embed(a) + tail == Embed(names)
    ensures a <= names && Embed(names[|a|..]) == tail
  {
    assert Embed(a) <= Embed(names);
    EmbedPrefix(a, names);
  }
}
