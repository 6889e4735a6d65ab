/** Directory listings: one entry for every name, sorted by name. */
module FileListing {
  import opened FileTree

  datatype FileType = RegularOrOther | Directory | Link(target: string)
  datatype FileEntry = FileEntry(name: string, fileType: FileType)

  function EntryOf(name: string, node: Node): FileEntry
  {
    FileEntry(name, match node case Symlink(target) => Link(target) case Dir(_) => Directory case _ => RegularOrOther)
  }

  function Listing(entries: map<string, Node>): set<FileEntry>
  {
    set n | n in entries :: EntryOf(n, entries[n])
  }

  /** The order of names, by code points. */
  predicate NameBefore(a: string, b: string)
  {
    b != "" && (a == "" || a[0] < b[0] || (a[0] == b[0] && NameBefore(a[1..], b[1..])))
  }

  lemma {:induction false} NameBeforeTransitive(a: string, b: string, c: string)
    requires NameBefore(a, b) && NameBefore(b, c)
    ensures NameBefore(a, c)
  {
    if a != "" && a[0] == b[0] == c[0] {
      NameBeforeTransitive(a[1..], b[1..], c[1..]);
    }
  }

  lemma {:induction false} NameBeforeTotal(a: string, b: string)
    ensures a == b || NameBefore(a, b) || NameBefore(b, a)
  {
    if a != "" && b != "" && a[0] == b[0] {
      NameBeforeTotal(a[1..], b[1..]);
      if a[1..] == b[1..] {
        assert a == [a[0]] + a[1..] && b == [b[0]] + b[1..];
      }
    }
  }

  predicate SortedByName(s: seq<FileEntry>)
  {
    forall i, j | 0 <= i < j < |s| :: NameBefore(s[i].name, s[j].name)
  }

  predicate DistinctNames(s: seq<FileEntry>)
  {
    forall i, j | 0 <= i < j < |s| :: s[i].name != s[j].name
  }

  function InsertByName(e: FileEntry, s: seq<FileEntry>): (r: seq<FileEntry>)
    requires SortedByName(s) && forall x | x in s :: x.name != e.name
    ensures SortedByName(r) && forall x :: x in r <==> x == e || x in s
  {
    if s == [] then [e]
    else
      assert s == [s[0]] + s[1..];
      NameBeforeTotal(e.name, s[0].name);
      if NameBefore(e.name, s[0].name) then
        FirstByName(e, s);
        [e] + s
      else
        var rest := InsertByName(e, s[1..]);
        assert s[0] in s && forall x | x in rest :: NameBefore(s[0].name, x.name);
        [s[0]] + rest
  }

  lemma FirstByName(e: FileEntry, s: seq<FileEntry>)
    requires SortedByName(s) && s != [] && NameBefore(e.name, s[0].name)
    ensures SortedByName([e] + s)
  {
    forall i | 0 < i < |s|
      ensures NameBefore(e.name, s[i].name)
    {
      NameBeforeTransitive(e.name, s[0].name, s[i].name);
    }
  }

  function SortByName(s: seq<FileEntry>): (r: seq<FileEntry>)
    requires DistinctNames(s)
    ensures SortedByName(r) && forall x :: x in r <==> x in s
  {
    if s == [] then []
    else
      assert s == s[..|s| - 1] + [s[|s| - 1]];
      InsertByName(s[|s| - 1], SortByName(s[..|s| - 1]))
  }

  /** Exactly the entries of the directory, once each and sorted by name. */
  ghost predicate IsListing(listing: seq<FileEntry>, entries: map<string, Node>)
  {
    SortedByName(listing) && forall e :: e in listing <==> e in Listing(entries)
  }

  lemma EntriesListed(entries: map<string, Node>, names: seq<string>, found: seq<FileEntry>)
    requires forall n :: n in names <==> n in entries
    requires forall i, j | 0 <= i < j < |names| :: names[i] != names[j]
    requires |found| == |names| && forall i | 0 <= i < |names| ::
               names[i] in names && found[i] == EntryOf(names[i], entries[names[i]])
    ensures DistinctNames(found) && forall e :: e in found <==> e in Listing(entries)
  {
    forall e | e in Listing(entries)
      ensures e in found
    {
      var n :| n in entries && e == EntryOf(n, entries[n]);
      assert n in names;
      var i :| 0 <= i < |names| && names[i] == n;
      assert found[i] == e;
    }
  }
}
