/**
 * What the memory store promises across calls: addresses, the write/read round
 * trip, what each operation leaves untouched, and how recursive `mkdir` behaves.
 */
module MemoryFsProps {
  import opened Wrappers
  import opened Strings
  import opened ErrorFactory
  import opened Bytes
  import opened FileTree
  import opened MemoryFs

  // ---------------------------------------------------------------------------
  // Addresses
  // ---------------------------------------------------------------------------

  /** One trailing slash is dropped: `…/d/` has the segments of `…/d`. */
  lemma TrailingSlash(location: string)
    requires StartsWith(location, BASE_URI) && !EndsWithSlash(location)
    ensures GetPathParts(location + "/") == GetPathParts(location)
  {
    var s := location + "/";
    assert s[..|s| - 1] == location;
    assert s[..|BASE_URI|] == location[..|BASE_URI|];
  }

  /** So `…/d/` and `…/d` find the same entry, or both fail. */
  lemma TrailingSlashFind(root: Entry, location: string, parent: bool)
    requires StartsWith(location, BASE_URI) && !EndsWithSlash(location)
    ensures Find(root, location + "/", parent).Ok? <==> Find(root, location, parent).Ok?
    ensures Find(root, location, parent).Ok? ==>
      Find(root, location + "/", parent).value == Find(root, location, parent).value
  {
    TrailingSlash(location);
  }

  /** `file:///` is the root itself. */
  lemma RootAddress(root: Entry)
    ensures GetPathParts(BASE_URI) == Ok([""])
    ensures Find(root, BASE_URI, false) == Ok(root)
  {
    assert BASE_URI[..|BASE_URI| - 1] == "file://";
    assert Split("", '/') == [""];
  }

  /** Any address outside `file:///` is refused with EACCES by every operation. */
  lemma OutsideBase(root: Entry, location: string, data: Data)
    requires root.Node? && !StartsWith(location, BASE_URI)
    ensures ReadFileSpec(root, location) == Fail(EACCES, location)
    ensures StatSpec(root, location) == Fail(EACCES, location)
    ensures WriteFileSpec(root, location, data) == (root, Fail(EACCES, location))
    ensures UnlinkSpec(root, location) == (root, Fail(EACCES, location))
    ensures forall o :: MkdirSpec(root, location, o) == (root, Fail(EACCES, location))
  {
  }

  // ---------------------------------------------------------------------------
  // writeFile and readFile
  // ---------------------------------------------------------------------------

  /** The last segment of an address is not empty: it does not end in `//` and is not the root. */
  predicate NamesEntry(location: string)
  {
    GetPathParts(location).Ok? && Basename(GetPathParts(location).value) != ""
  }

  /** A successful write is read back. */
  lemma WriteThenRead(root: Entry, location: string, data: Data)
    requires root.Node? && NamesEntry(location)
    requires WriteFileSpec(root, location, data).1.Ok?
    ensures ReadFileSpec(WriteFileSpec(root, location, data).0, location) == Ok(data)
  {
    var parts := GetPathParts(location).value;
    PutThenWalk(root, ParentParts(parts), Basename(parts), NewFile(data));
  }

  /**
   * `writeFile` fails with EISDIR on a directory and with ENOENT when the parent is
   * a file; otherwise only the named child of the parent is replaced.
   */
  lemma WriteFileOutcome(root: Entry, location: string, data: Data)
    requires root.Node? && GetPathParts(location).Ok?
    ensures var parts := GetPathParts(location).value;
      var w := Walk(root, ParentParts(parts));
      var r := WriteFileSpec(root, location, data);
      && (w.Found? && w.entry.Leaf? ==> r == (root, Fail(ENOENT, location)))
      && ((w.Found? && w.entry.Node? && Basename(parts) in w.entry.children
          && w.entry.children[Basename(parts)].Node?) ==> r == (root, Fail(EISDIR, location)))
      && (w.Found? && w.entry.Node? && (Basename(parts) !in w.entry.children
          || w.entry.children[Basename(parts)].Leaf?) ==>
        r.1.Ok? && Walk(r.0, ParentParts(parts)) ==
          Found(Node(w.entry.children[Basename(parts) := Leaf(data)])))
      && (!w.Found? ==> r.0 == root && r.1 == Err(Report(w, location).error))
  {
  }

  /** A write leaves every sibling of the written name as it was. */
  lemma WriteKeepsSiblings(root: Entry, location: string, data: Data, other: string)
    requires root.Node? && GetPathParts(location).Ok? && WriteFileSpec(root, location, data).1.Ok?
    requires other != Basename(GetPathParts(location).value) && other != ""
    ensures var pp := ParentParts(GetPathParts(location).value);
      Walk(WriteFileSpec(root, location, data).0, pp + [other]) == Walk(root, pp + [other])
  {
    var parts := GetPathParts(location).value;
    var pp, name := ParentParts(parts), Basename(parts);
    assert Walk(root, pp) == Found(Find(root, location, true).value);
    assert WriteFileSpec(root, location, data).0 == Put(root, pp, name, NewFile(data));
    PutKeepsSibling(root, pp, name, NewFile(data), other);
  }

  // ---------------------------------------------------------------------------
  // readFile, readdir and stat on the two kinds of entry
  // ---------------------------------------------------------------------------

  /** `readFile` succeeds exactly on files; `stat` then says file, never directory. */
  lemma ReadFileKinds(root: Entry, location: string)
    ensures ReadFileSpec(root, location).Ok? <==>
      Find(root, location, false).Ok? && Find(root, location, false).value.Leaf?
    ensures Find(root, location, false).Ok? && Find(root, location, false).value.Node? ==>
      ReadFileSpec(root, location) == Fail(EISDIR, location)
    ensures StatSpec(root, location).Ok? <==> Find(root, location, false).Ok?
    ensures ReadFileSpec(root, location).Ok? ==> StatSpec(root, location) == Ok(Stats(false, true))
  {
  }

  // ---------------------------------------------------------------------------
  // mkdir
  // ---------------------------------------------------------------------------

  /**
   * A non-recursive `mkdir` fails with ENOTDIR when the parent is a file and with
   * EEXIST when the name is taken; otherwise it adds one empty directory.
   */
  lemma MkdirPlain(root: Entry, location: string)
    requires root.Node? && GetPathParts(location).Ok?
    ensures var parts := GetPathParts(location).value;
      var w := Walk(root, ParentParts(parts));
      var r := MkdirSpec(root, location, Some(MkdirOptions(false)));
      && (w.Found? && w.entry.Leaf? ==> r == (root, Fail(ENOTDIR, location)))
      && (w.Found? && w.entry.Node? && Basename(parts) in w.entry.children ==>
          r == (root, Fail(EEXIST, location)))
      && (w.Found? && w.entry.Node? && Basename(parts) !in w.entry.children ==>
          r.1.Ok? && Walk(r.0, ParentParts(parts)) ==
            Found(Node(w.entry.children[Basename(parts) := EmptyDirectory()])))
      && (!w.Found? ==> r.0 == root && r.1 == Err(Report(w, location).error))
  {
  }

  /** After a successful `mkdir` the address is an empty directory. */
  lemma MkdirThenStat(root: Entry, location: string, options: MkdirOptions)
    requires root.Node? && NamesEntry(location)
    requires MkdirSpec(root, location, Some(options)).1.Ok?
    ensures var after := MkdirSpec(root, location, Some(options)).0;
      Find(after, location, false) == Ok(EmptyDirectory()) &&
      StatSpec(after, location) == Ok(Stats(true, false))
  {
    var parts := GetPathParts(location).value;
    var made := if options.recursive then MakeDirs(root, parts) else (root, true);
    PutThenWalk(made.0, ParentParts(parts), Basename(parts), EmptyDirectory<Data>());
  }

  /** Without options `mkdir` throws a TypeError, after the address check. */
  lemma MkdirWithoutOptions(root: Entry, location: string)
    requires root.Node? && StartsWith(location, BASE_URI)
    ensures MkdirSpec(root, location, None) == (root, Err(MISSING_OPTIONS))
    ensures MISSING_OPTIONS.name == "TypeError"
  {
  }

  /** Existing directories along the path are reused: nothing changes. */
  lemma {:induction false} MakeDirsReuses(t: Entry, parts: seq<string>)
    requires t.Node? && Walk(t, parts).Found? && Walk(t, parts).entry.Node?
    ensures MakeDirs(t, parts) == (t, true)
    decreases |parts|
  {
    if |parts| > 0 {
      var pre, x := ParentParts(parts), Basename(parts);
      WalkSnoc(t, pre, x);
      MakeDirsReuses(t, pre);
    }
  }

  /** Missing directories are created; the last one is new and empty. */
  lemma {:induction false} MakeDirsCreates(t: Entry, parts: seq<string>)
    requires t.Node? && Walk(t, parts).Missing?
    ensures MakeDirs(t, parts).1
    ensures Walk(MakeDirs(t, parts).0, parts) == Found(EmptyDirectory())
    decreases |parts|
  {
    var pre, x := ParentParts(parts), Basename(parts);
    WalkSnoc(t, pre, x);
    var made := MakeDirs(t, pre);
    WalkSnoc(made.0, pre, x);
    if Walk(t, pre).Found? {
      MakeDirsReuses(t, pre);
      PutThenWalk(made.0, pre, x, EmptyDirectory<Data>());
    } else {
      MakeDirsCreates(t, pre);
      if x != "" {
        PutThenWalk(made.0, pre, x, EmptyDirectory<Data>());
      }
    }
  }

  /** A path through a file, or onto one, stops the recursive part. */
  lemma {:induction false} MakeDirsBlocked(t: Entry, parts: seq<string>)
    requires t.Node?
    requires Walk(t, parts).NotDirectory? || (Walk(t, parts).Found? && Walk(t, parts).entry.Leaf?)
    ensures !MakeDirs(t, parts).1
    decreases |parts|
  {
    if |parts| > 0 {
      var pre, x := ParentParts(parts), Basename(parts);
      WalkSnoc(t, pre, x);
      var w := Walk(t, pre);
      if w.Found? && w.entry.Node? {
        MakeDirsReuses(t, pre);
      } else {
        MakeDirsBlocked(t, pre);
      }
    }
  }

  /** The recursive part succeeds exactly when no segment of the path is a file. */
  lemma MakeDirsSucceeds(t: Entry, parts: seq<string>)
    requires t.Node?
    ensures MakeDirs(t, parts).1 <==>
      Walk(t, parts).Missing? || (Walk(t, parts).Found? && Walk(t, parts).entry.Node?)
  {
    var w := Walk(t, parts);
    if w.Missing? {
      MakeDirsCreates(t, parts);
    } else if w.Found? && w.entry.Node? {
      MakeDirsReuses(t, parts);
    } else {
      MakeDirsBlocked(t, parts);
    }
  }

  /**
   * A recursive `mkdir` of a named path through directories creates the whole path
   * and then still fails with EEXIST, because the terminal check finds the
   * directory it has just made.
   */
  lemma MkdirRecursiveEndsExisting(root: Entry, location: string)
    requires root.Node? && NamesEntry(location)
    requires var w := Walk(root, GetPathParts(location).value);
      w.Missing? || (w.Found? && w.entry.Node?)
    ensures var r := MkdirSpec(root, location, Some(MkdirOptions(true)));
      r.1 == Fail(EEXIST, location) &&
      Walk(r.0, GetPathParts(location).value).Found? &&
      Walk(r.0, GetPathParts(location).value).entry.Node?
  {
    var parts := GetPathParts(location).value;
    MakeDirsSucceeds(root, parts);
    var made := MakeDirs(root, parts);
    WalkSnoc(made.0, ParentParts(parts), Basename(parts));
  }

  /** A recursive `mkdir` whose path meets a file fails with EEXIST. */
  lemma MkdirRecursiveBlocked(root: Entry, location: string)
    requires root.Node? && GetPathParts(location).Ok?
    requires var w := Walk(root, GetPathParts(location).value);
      w.NotDirectory? || (w.Found? && w.entry.Leaf?)
    ensures MkdirSpec(root, location, Some(MkdirOptions(true))).1 == Fail(EEXIST, location)
  {
    MakeDirsBlocked(root, GetPathParts(location).value);
  }

  // ---------------------------------------------------------------------------
  // unlink
  // ---------------------------------------------------------------------------

  /**
   * `unlink` fails with ENOENT unless the parent is a directory holding the name;
   * otherwise exactly that name goes, with everything below it.
   */
  lemma UnlinkOutcome(root: Entry, location: string)
    requires root.Node? && GetPathParts(location).Ok?
    ensures var parts := GetPathParts(location).value;
      var w := Walk(root, ParentParts(parts));
      var r := UnlinkSpec(root, location);
      && (w.Found? && (w.entry.Leaf? || Basename(parts) !in w.entry.children) ==>
          r == (root, Fail(ENOENT, location)))
      && (w.Found? && w.entry.Node? && Basename(parts) in w.entry.children ==>
          r.1.Ok? && r.0.Node? &&
          Walk(r.0, ParentParts(parts)) == Found(Node(w.entry.children - {Basename(parts)})))
      && (!w.Found? ==> r.0 == root && r.1 == Err(Report(w, location).error))
  {
  }

  /** After a successful `unlink` of a named entry, it is gone. */
  lemma UnlinkThenFind(root: Entry, location: string)
    requires root.Node? && NamesEntry(location) && UnlinkSpec(root, location).1.Ok?
    ensures Find(UnlinkSpec(root, location).0, location, false) == Fail(ENOENT, location)
  {
    var parts := GetPathParts(location).value;
    DeleteThenWalk(root, ParentParts(parts), Basename(parts));
  }
}
