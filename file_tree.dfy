/**
 * Trees of named entries, shared by the three tree-shaped stores: the memory
 * store's directories and files (src/FileSystem/Memory/), the nested-object
 * snapshot of the JSON store, and the directory handles the File System Access
 * store walks. A directory is a `Node` mapping names to entries; a file is a `Leaf`
 * holding its content, which `GetContent` returns unchanged.
 */
module FileTree {
  import opened Wrappers

  datatype Tree<F> = Leaf(content: F) | Node(children: map<string, Tree<F>>)
  {
    /** `getContent()`: the content the file was created with. */
    function GetContent(): F
      requires Leaf?
    {
      content
    }
  }

  /** An empty directory. */
  function EmptyDirectory<F>(): (d: Tree<F>)
    ensures d.Node? && |d.children| == 0
  {
    Node(map[])
  }

  /** A new file holding `content`. */
  function NewFile<F>(content: F): (f: Tree<F>)
    ensures f.Leaf? && f.GetContent() == content
  {
    Leaf(content)
  }

  // ---------------------------------------------------------------------------
  // The directory operations (MemoryFileSystemDirectory).
  // ---------------------------------------------------------------------------

  /** `addEntry(name, entry)`: `name` now maps to `entry`, replacing any previous one. */
  function AddEntry<F>(d: Tree<F>, name: string, entry: Tree<F>): (r: Tree<F>)
    requires d.Node?
    ensures r.Node? && GetEntry(r, name) == Some(entry)
    ensures forall n :: n != name ==> GetEntry(r, n) == GetEntry(d, n)
    ensures r.children.Keys == d.children.Keys + {name}
  {
    Node(d.children[name := entry])
  }

  /** `getEntry(name)`: the entry under `name`, or nothing (`null`). */
  function GetEntry<F>(d: Tree<F>, name: string): (r: Option<Tree<F>>)
    requires d.Node?
    ensures r.None? <==> name !in d.children
    ensures r.Some? ==> r.value == d.children[name]
  {
    if name in d.children then Some(d.children[name]) else None
  }

  /** `hasEntry(name)`. */
  predicate HasEntry<F>(d: Tree<F>, name: string)
    requires d.Node?
  {
    name in d.children
  }

  /** `removeEntry(name)`: only `name` goes; a missing name changes nothing. */
  function RemoveEntry<F>(d: Tree<F>, name: string): (r: Tree<F>)
    requires d.Node?
    ensures r.Node? && GetEntry(r, name).None?
    ensures forall n :: n != name ==> GetEntry(r, n) == GetEntry(d, n)
    ensures !HasEntry(d, name) ==> r == d
  {
    Node(d.children - {name})
  }

  /** `hasEntry` holds exactly when `getEntry` finds something. */
  lemma HasEntryGetEntry<F>(d: Tree<F>, name: string)
    requires d.Node?
    ensures HasEntry(d, name) <==> GetEntry(d, name).Some?
  {
  }

  /** One entry of a directory listing (`Dirent` of `ExternalFileSystem.readdir`). */
  datatype Dirent = Dirent(name: string, isDirectory: bool, isFile: bool, isSymbolicLink: bool)

  /** What `stat` reports. */
  datatype Stats = Stats(isDirectory: bool, isFile: bool)

  /** The listing entry for `entry` under `name`: a directory or a file, never a link. */
  function DirentOf<F>(name: string, entry: Tree<F>): (r: Dirent)
    ensures r.name == name && r.isDirectory == entry.Node? && r.isFile == !r.isDirectory
    ensures !r.isSymbolicLink
  {
    Dirent(name, entry.Node?, !entry.Node?, false)
  }

  /** The stats of an entry: directories are not files and files are not directories. */
  function StatsOf<F>(entry: Tree<F>): (r: Stats)
    ensures r.isDirectory == entry.Node? && r.isFile == !r.isDirectory
  {
    Stats(entry.Node?, !entry.Node?)
  }

  /** `ds` lists the directory `d`: each child once, with its kind. */
  ghost predicate Lists<F>(d: Tree<F>, ds: seq<Dirent>)
    requires d.Node?
  {
    && |ds| == |d.children|
    && (forall i :: 0 <= i < |ds| ==> ds[i].name in d.children && ds[i] == DirentOf(ds[i].name, d.children[ds[i].name]))
    && (forall n :: n in d.children ==> exists i :: 0 <= i < |ds| && ds[i].name == n)
    && (forall i, j :: 0 <= i < j < |ds| ==> ds[i].name != ds[j].name)
  }

  /** A listing names exactly the children. */
  lemma ListsNames<F>(d: Tree<F>, ds: seq<Dirent>)
    requires d.Node? && Lists(d, ds)
    ensures (set i | 0 <= i < |ds| :: ds[i].name) == d.children.Keys
  {
    var names := set i | 0 <= i < |ds| :: ds[i].name;
    forall n | n in d.children ensures n in names {
      var i :| 0 <= i < |ds| && ds[i].name == n;
    }
  }

  /**
   * The loop over `getEntries()` that builds a listing, one entry per child.
   * The order of a JavaScript `Map` (insertion order) is not modelled.
   */
  method ReadEntries<F>(d: Tree<F>) returns (ds: seq<Dirent>)
    requires d.Node?
    ensures Lists(d, ds)
  {
    ds := [];
    var rest := d.children.Keys;
    while rest != {}
      invariant rest <= d.children.Keys
      invariant |ds| + |rest| == |d.children|
      invariant forall i :: 0 <= i < |ds| ==> ds[i].name in d.children && ds[i].name !in rest
      invariant forall i :: 0 <= i < |ds| ==> ds[i] == DirentOf(ds[i].name, d.children[ds[i].name])
      invariant forall n :: n in d.children ==> n in rest || exists i :: 0 <= i < |ds| && ds[i].name == n
      invariant forall i, j :: 0 <= i < j < |ds| ==> ds[i].name != ds[j].name
      decreases |rest|
    {
      var n :| n in rest;
      var listed := ds;
      ds := ds + [DirentOf(n, d.children[n])];
      forall m | m in d.children && m !in rest - {n}
        ensures exists i :: 0 <= i < |ds| && ds[i].name == m
      {
        if m == n {
          assert ds[|listed|].name == m;
        } else {
          var i :| 0 <= i < |listed| && listed[i].name == m;
          assert ds[i].name == m;
        }
      }
      rest := rest - {n};
    }
  }

  // ---------------------------------------------------------------------------
  // Walking a path of segments from a root, as the stores' `findEntry` loops do.
  // ---------------------------------------------------------------------------

  /** Where a walk ends: at an entry, at a step through a file, or at a missing name. */
  datatype Walked<F> = Found(entry: Tree<F>) | NotDirectory | Missing

  /** One step of a walk; an empty segment stays where it is. */
  function Step<F>(t: Tree<F>, part: string): (r: Walked<F>)
    ensures part == "" ==> r == Found(t)
    ensures part != "" && t.Leaf? ==> r.NotDirectory?
    ensures part != "" && t.Node? ==> (r.Missing? <==> part !in t.children)
    ensures r.Found? && part != "" ==> t.Node? && part in t.children && r.entry == t.children[part]
  {
    if part == "" then Found(t)
    else if t.Leaf? then NotDirectory
    else if part !in t.children then Missing
    else Found(t.children[part])
  }

  /** The walk along `parts` from `t`, segment by segment, skipping empty segments. */
  function Walk<F>(t: Tree<F>, parts: seq<string>): Walked<F>
    decreases |parts|
  {
    if |parts| == 0 then Found(t)
    else match Step(t, parts[0])
      case Found(c) => Walk(c, parts[1..])
      case other => other
  }

  /** A walk one segment longer is the shorter walk followed by one step. */
  lemma {:induction false} WalkSnoc<F>(t: Tree<F>, parts: seq<string>, part: string)
    ensures Walk(t, parts + [part]) ==
      match Walk(t, parts) case Found(c) => Step(c, part) case other => other
    decreases |parts|
  {
    if |parts| == 0 {
      assert [] + [part] == [part];
    } else {
      assert (parts + [part])[1..] == parts[1..] + [part];
      match Step(t, parts[0])
      case Found(c) => WalkSnoc(c, parts[1..], part);
      case other =>
    }
  }

  /** The first `i + 1` segments are the first `i` and then segment `i`. */
  lemma SliceNext<T>(s: seq<T>, i: nat)
    requires i < |s|
    ensures s[..i + 1] == s[..i] + [s[i]] && s[..i + 1][..i] == s[..i] && s[..i + 1] + s[i + 1..] == s
  {
  }

  /**
   * The walk along the first `i + 1` segments is one step past the walk along the
   * first `i`, and the whole walk continues from there.
   */
  lemma WalkNext<F>(t: Tree<F>, parts: seq<string>, i: nat)
    requires i < |parts|
    ensures Walk(t, parts[..i + 1]) ==
      match Walk(t, parts[..i]) case Found(c) => Step(c, parts[i]) case other => other
    ensures Walk(t, parts) ==
      match Walk(t, parts[..i + 1]) case Found(c) => Walk(c, parts[i + 1..]) case other => other
  {
    SliceNext(parts, i);
    WalkSnoc(t, parts[..i], parts[i]);
    WalkAppend(t, parts[..i + 1], parts[i + 1..]);
  }

  /** A walk along two paths is the walk along the first, then along the second. */
  lemma {:induction false} WalkAppend<F>(t: Tree<F>, p: seq<string>, q: seq<string>)
    ensures Walk(t, p + q) == match Walk(t, p) case Found(c) => Walk(c, q) case other => other
    decreases |p|
  {
    if |p| == 0 {
      assert p + q == q;
    } else {
      assert (p + q)[1..] == p[1..] + q;
      match Step(t, p[0])
      case Found(c) => WalkAppend(c, p[1..], q);
      case other =>
    }
  }

  /** Empty segments do not change where a walk ends. */
  lemma {:induction false} WalkEmpty<F>(t: Tree<F>, parts: seq<string>)
    requires forall i :: 0 <= i < |parts| ==> parts[i] == ""
    ensures Walk(t, parts) == Found(t)
    decreases |parts|
  {
    if |parts| > 0 {
      WalkEmpty(t, parts[1..]);
    }
  }

  /**
   * The tree after replacing, in the directory that `parts` leads to, the entry
   * `name` by `entry` (`addEntry` on that directory).
   */
  function Put<F>(t: Tree<F>, parts: seq<string>, name: string, entry: Tree<F>): (r: Tree<F>)
    requires Walk(t, parts).Found? && Walk(t, parts).entry.Node?
    ensures r.Node?
    ensures Walk(r, parts) == Found(AddEntry(Walk(t, parts).entry, name, entry))
    decreases |parts|
  {
    if |parts| == 0 then AddEntry(t, name, entry)
    else if parts[0] == "" then Put(t, parts[1..], name, entry)
    else Node(t.children[parts[0] := Put(t.children[parts[0]], parts[1..], name, entry)])
  }

  /** The tree after removing `name` from the directory that `parts` leads to. */
  function Delete<F>(t: Tree<F>, parts: seq<string>, name: string): (r: Tree<F>)
    requires Walk(t, parts).Found? && Walk(t, parts).entry.Node?
    ensures r.Node?
    ensures Walk(r, parts) == Found(RemoveEntry(Walk(t, parts).entry, name))
    decreases |parts|
  {
    if |parts| == 0 then RemoveEntry(t, name)
    else if parts[0] == "" then Delete(t, parts[1..], name)
    else Node(t.children[parts[0] := Delete(t.children[parts[0]], parts[1..], name)])
  }

  /** After `Put`, the walk to the replaced name ends at the new entry. */
  lemma PutThenWalk<F>(t: Tree<F>, parts: seq<string>, name: string, entry: Tree<F>)
    requires Walk(t, parts).Found? && Walk(t, parts).entry.Node? && name != ""
    ensures Walk(Put(t, parts, name, entry), parts + [name]) == Found(entry)
  {
    WalkSnoc(Put(t, parts, name, entry), parts, name);
  }

  /** After `Put`, the walk to any other name of that directory ends where it did. */
  lemma PutKeepsSibling<F>(t: Tree<F>, parts: seq<string>, name: string, entry: Tree<F>, other: string)
    requires Walk(t, parts).Found? && Walk(t, parts).entry.Node? && other != name && other != ""
    ensures Walk(Put(t, parts, name, entry), parts + [other]) == Walk(t, parts + [other])
  {
    var added := AddEntry(Walk(t, parts).entry, name, entry);
    assert GetEntry(added, other) == GetEntry(Walk(t, parts).entry, other);
    assert Step(added, other) == Step(Walk(t, parts).entry, other);
    WalkSnoc(t, parts, other);
    WalkSnoc(Put(t, parts, name, entry), parts, other);
  }

  /** After `Delete`, the walk to the removed name finds nothing. */
  lemma DeleteThenWalk<F>(t: Tree<F>, parts: seq<string>, name: string)
    requires Walk(t, parts).Found? && Walk(t, parts).entry.Node? && name != ""
    ensures Walk(Delete(t, parts, name), parts + [name]) == Missing
  {
    WalkSnoc(Delete(t, parts, name), parts, name);
  }
}
