/** Properties of the File System Access store's operations. */
module FsaFsProps {
  import opened Strings
  import opened ErrorFactory
  import opened Bytes
  import opened FileTree
  import opened FsaFs

  /** Every segment is a name a handle may have. */
  predicate AllValid(p: seq<string>) {
    forall i :: 0 <= i < |p| ==> ValidName(p[i])
  }

  /** Over valid names, the handle lookups reach a directory exactly when the walk does. */
  lemma {:induction false} DescendWalk(t: Handle, p: seq<string>)
    requires t.Node? && AllValid(p)
    ensures Descend(t, p).Ok? <==> Walk(t, p).Found? && Walk(t, p).entry.Node?
    decreases |p|
  {
    if |p| > 0 {
      var pre, x := p[..|p| - 1], p[|p| - 1];
      assert p == pre + [x];
      WalkSnoc(t, pre, x);
      DescendWalk(t, pre);
    }
  }

  /** The address of the root itself: its parent is the root, but it names no entry. */
  lemma RootAddress(root: Handle)
    requires root.Node?
    ensures SplitPath("file:///") == Ok([])
    ensures Resolve(root, "file:///", true) == Ok(root)
    ensures Resolve(root, "file:///", false) == Fail(ENOENT, "file:///")
  {
    assert "file:///"[|PREFIX|..] == "/";
    assert Split("/", '/') == ["", ""] by {
      assert "/" == "" + ['/'];
      SplitTrailing("", '/');
    }
    assert ["", ""][1..] == [""] && [""][1..] == [];
    assert NonEmpty(["", ""]) == [];
    assert StartsWith("file:///", PREFIX);
  }

  /** `writeFile` of the root address writes a file named "undefined" in the root. */
  lemma WriteRootAddress(root: Handle, data: Data)
    requires root.Node? && WriteFileSpec(root, "file:///", data).1.Ok?
    ensures WriteFileSpec(root, "file:///", data).0 == AddEntry(root, "undefined", Leaf(FileData(ToBytes(data), false)))
  {
    RootAddress(root);
  }

  /** After a successful `writeFile` of a named file, `readFile` returns the bytes written. */
  lemma WriteThenRead(root: Handle, location: string, data: Data)
    requires root.Node? && SplitPath(location).Ok? && |SplitPath(location).value| > 0
    requires WriteFileSpec(root, location, data).1.Ok?
    ensures ReadFileSpec(WriteFileSpec(root, location, data).0, location) == Ok(ToBytes(data))
    ensures StatSpec(WriteFileSpec(root, location, data).0, location) == Ok(Stats(false, true))
  {
    WrittenEntry(root, location, data);
  }

  /** After a successful `writeFile`, the parent directory holds the written file under the name. */
  lemma WrittenEntry(root: Handle, location: string, data: Data)
    requires root.Node? && SplitPath(location).Ok? && |SplitPath(location).value| > 0
    requires WriteFileSpec(root, location, data).1.Ok?
    ensures Resolve(WriteFileSpec(root, location, data).0, location, false) == Ok(Leaf(FileData(ToBytes(data), false)))
  {
    var parts := SplitPath(location).value;
    var dirs, name := Dirs(parts), BaseName(parts);
    var leaf := Leaf(FileData(ToBytes(data), false));
    var parent := Resolve(root, location, true).value;
    assert Descend(root, dirs) == Ok(parent);
    var after := WriteFileSpec(root, location, data).0;
    assert after == Put(root, dirs, name, leaf);
    ParentAfterWrite(root, dirs, name, leaf, parent);
  }

  /** Putting an entry into a directory reached by handle lookups leaves that directory reachable, with the entry in it. */
  lemma ParentAfterWrite(root: Handle, dirs: seq<string>, name: string, leaf: Handle, parent: Handle)
    requires root.Node? && Descend(root, dirs) == Ok(parent)
    ensures Walk(root, dirs) == Found(parent) && parent.Node?
    ensures Descend(Put(root, dirs, name, leaf), dirs) == Ok(AddEntry(parent, name, leaf))
  {
    var after := Put(root, dirs, name, leaf);
    DescendWalk(after, dirs);
  }

  /** A successful `writeFile` leaves every other entry of the parent directory as it was. */
  lemma WriteKeepsSiblings(root: Handle, location: string, data: Data, other: string)
    requires root.Node? && SplitPath(location).Ok?
    requires WriteFileSpec(root, location, data).1.Ok?
    requires other != BaseName(SplitPath(location).value)
    ensures var dirs := Dirs(SplitPath(location).value);
      var after := WriteFileSpec(root, location, data).0;
      && Descend(after, dirs).Ok? && Descend(root, dirs).Ok?
      && GetEntry(Descend(after, dirs).value, other) == GetEntry(Descend(root, dirs).value, other)
  {
    var parts := SplitPath(location).value;
    var dirs, name := Dirs(parts), BaseName(parts);
    var leaf := Leaf(FileData(ToBytes(data), false));
    var parent := Resolve(root, location, true).value;
    assert Descend(root, dirs) == Ok(parent);
    assert WritableFile(parent, name).Ok?;
    assert WriteFileSpec(root, location, data).0 == Put(root, dirs, name, leaf);
    ParentAfterWrite(root, dirs, name, leaf, parent);
  }

  /** `writeFile` refuses an invalid name and a directory with EEXIST and a locked file with EPERM, changing nothing. */
  lemma WriteFileRefusals(root: Handle, location: string, data: Data)
    requires root.Node? && SplitPath(location).Ok?
    requires Resolve(root, location, true).Ok?
    ensures var parent := Resolve(root, location, true).value;
      var name := BaseName(SplitPath(location).value);
      && (!ValidName(name) ==>
          WriteFileSpec(root, location, data) == (root, Fail(EEXIST, location + ": " + "TypeError")))
      && (ValidName(name) && name in parent.children && parent.children[name].Node? ==>
          WriteFileSpec(root, location, data) == (root, Fail(EEXIST, location + ": " + "TypeMismatchError")))
      && (ValidName(name) && name in parent.children && parent.children[name].Leaf? && parent.children[name].content.locked ==>
          WriteFileSpec(root, location, data) == (root, Fail(EPERM, location + ": " + "NoModificationAllowedError")))
  {
    var parent := Resolve(root, location, true).value;
    var name := BaseName(SplitPath(location).value);
    if !ValidName(name) {
      assert WritableFile(parent, name) == Err(DomError("TypeError"));
      assert "TypeError"[1] != "NoModificationAllowedError"[1];
    } else if name in parent.children && parent.children[name].Node? {
      assert WritableFile(parent, name) == Err(DomError("TypeMismatchError"));
      assert "TypeMismatchError"[1] != "NoModificationAllowedError"[1];
    }
  }

  /** Existing directories along the path are reused: nothing changes. */
  lemma {:induction false} MakeAllReuses(t: Handle, p: seq<string>)
    requires t.Node? && AllValid(p) && Walk(t, p).Found? && Walk(t, p).entry.Node?
    ensures MakeAll(t, p) == (t, true)
    decreases |p|
  {
    if |p| > 0 {
      var pre, x := p[..|p| - 1], p[|p| - 1];
      assert p == pre + [x];
      WalkSnoc(t, pre, x);
      MakeAllReuses(t, pre);
    }
  }

  /** Missing directories are created; the last one is new and empty. */
  lemma {:induction false} MakeAllCreates(t: Handle, p: seq<string>)
    requires t.Node? && AllValid(p) && Walk(t, p).Missing?
    ensures MakeAll(t, p).1
    ensures Walk(MakeAll(t, p).0, p) == Found(EmptyDirectory())
    decreases |p|
  {
    var pre, x := p[..|p| - 1], p[|p| - 1];
    assert p == pre + [x];
    WalkSnoc(t, pre, x);
    var made := MakeAll(t, pre);
    WalkSnoc(made.0, pre, x);
    if Walk(t, pre).Found? {
      MakeAllReuses(t, pre);
    } else {
      MakeAllCreates(t, pre);
    }
    PutThenWalk(made.0, pre, x, EmptyDirectory<FileData>());
  }

  /** A path through a file, or onto one, cannot be made. */
  lemma {:induction false} MakeAllBlocked(t: Handle, p: seq<string>)
    requires t.Node? && AllValid(p)
    requires Walk(t, p).NotDirectory? || (Walk(t, p).Found? && Walk(t, p).entry.Leaf?)
    ensures !MakeAll(t, p).1
    decreases |p|
  {
    if |p| > 0 {
      var pre, x := p[..|p| - 1], p[|p| - 1];
      assert p == pre + [x];
      WalkSnoc(t, pre, x);
      var w := Walk(t, pre);
      if w.Found? && w.entry.Node? {
        MakeAllReuses(t, pre);
      } else {
        MakeAllBlocked(t, pre);
      }
    }
  }

  /** The loop of `mkdir` succeeds exactly when every name is valid and no segment is a file. */
  lemma MakeAllSucceeds(t: Handle, p: seq<string>)
    requires t.Node?
    ensures MakeAll(t, p).1 <==>
      AllValid(p) && (Walk(t, p).Missing? || (Walk(t, p).Found? && Walk(t, p).entry.Node?))
  {
    if AllValid(p) {
      var w := Walk(t, p);
      if w.Missing? {
        MakeAllCreates(t, p);
      } else if w.Found? && w.entry.Node? {
        MakeAllReuses(t, p);
      } else {
        MakeAllBlocked(t, p);
      }
    }
  }

  /** Unlike the memory store, `mkdir` of existing directories succeeds and changes nothing. */
  lemma MkdirExisting(root: Handle, location: string)
    requires root.Node? && SplitPath(location).Ok?
    requires AllValid(SplitPath(location).value)
    requires var w := Walk(root, SplitPath(location).value); w.Found? && w.entry.Node?
    ensures MkdirSpec(root, location) == (root, Ok(()))
  {
    MakeAllReuses(root, SplitPath(location).value);
  }

  /** After a successful `mkdir` of a named path, `stat` reports a directory there. */
  lemma MkdirThenStat(root: Handle, location: string)
    requires root.Node? && SplitPath(location).Ok? && |SplitPath(location).value| > 0
    requires MkdirSpec(root, location).1.Ok?
    ensures StatSpec(MkdirSpec(root, location).0, location) == Ok(Stats(true, false))
  {
    var parts := SplitPath(location).value;
    var made := MakeAll(root, parts);
    assert MkdirSpec(root, location).0 == made.0 && made.1;
    ResolveWalked(made.0, location, parts);
  }

  /** A path of valid names that walks to a directory resolves, through the handle lookups, to that directory. */
  lemma ResolveWalked(t: Handle, location: string, parts: seq<string>)
    requires t.Node? && SplitPath(location) == Ok(parts) && |parts| > 0
    requires AllValid(parts) && Walk(t, parts).Found? && Walk(t, parts).entry.Node?
    ensures Resolve(t, location, false) == Ok(Walk(t, parts).entry)
  {
    var pre, x := Dirs(parts), BaseName(parts);
    assert parts == pre + [x];
    WalkSnoc(t, pre, x);
    assert AllValid(pre) by {
      forall i | 0 <= i < |pre| ensures ValidName(pre[i]) {
        assert pre[i] == parts[i];
      }
    }
    DescendWalk(t, pre);
  }

  /** After a successful `unlink` of a named entry, it is gone. */
  lemma UnlinkThenStat(root: Handle, location: string)
    requires root.Node? && SplitPath(location).Ok? && |SplitPath(location).value| > 0
    requires UnlinkSpec(root, location).1.Ok?
    ensures StatSpec(UnlinkSpec(root, location).0, location) == Fail(ENOENT, location)
  {
    var parts := SplitPath(location).value;
    var after := UnlinkSpec(root, location).0;
    DescendWalk(after, Dirs(parts));
  }

  /** `unlink` of a directory that still holds entries fails with ENOENT and changes nothing. */
  lemma UnlinkNonEmpty(root: Handle, location: string)
    requires root.Node? && SplitPath(location).Ok? && Resolve(root, location, true).Ok?
    requires var parent := Resolve(root, location, true).value;
      var name := BaseName(SplitPath(location).value);
      name in parent.children && parent.children[name].Node? && |parent.children[name].children| > 0
    ensures UnlinkSpec(root, location) == (root, Fail(ENOENT, location))
  {
  }

  /** `readFile` answers only for files, `readdir` only for directories, `stat` for both. */
  lemma ReadFileKinds(root: Handle, location: string)
    requires root.Node?
    ensures ReadFileSpec(root, location).Ok? <==>
      Resolve(root, location, false).Ok? && Resolve(root, location, false).value.Leaf?
    ensures Resolve(root, location, false).Ok? && Resolve(root, location, false).value.Node? ==>
      ReadFileSpec(root, location) == Fail(EISDIR, location)
    ensures StatSpec(root, location).Ok? <==> Resolve(root, location, false).Ok?
  {
  }

  /** An address without `file://` is refused with EACCES by every operation. */
  lemma OutsidePrefix(root: Handle, location: string, data: Data)
    requires root.Node? && !StartsWith(location, PREFIX)
    ensures ReadFileSpec(root, location) == Fail(EACCES, location)
    ensures StatSpec(root, location) == Fail(EACCES, location)
    ensures MkdirSpec(root, location) == (root, Fail(EACCES, location))
    ensures UnlinkSpec(root, location) == (root, Fail(EACCES, location))
    ensures WriteFileSpec(root, location, data) == (root, Fail(EACCES, location))
  {
  }
}
