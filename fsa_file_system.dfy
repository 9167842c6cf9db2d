/**
 * The File System Access store (src/FileSystem/FSAFileSystem.js). The browser's
 * directory and file handles are modelled as a tree of named entries whose files
 * hold bytes; each handle operation the store awaits is a function that either
 * answers or fails with the `DOMException` the File System Access API names for
 * that case.
 */
module FsaFs {
  import opened Wrappers
  import opened Strings
  import opened ErrorFactory
  import opened Bytes
  import opened FileTree

  /** A file: its bytes, and whether another writer holds its lock. */
  datatype FileData = FileData(content: seq<Byte>, locked: bool)

  type Handle = Tree<FileData>

  /** The prefix `splitPath` requires: two slashes, unlike the other stores. */
  const PREFIX := "file://"

  /** A `DOMException` (or `TypeError`) raised by a handle operation; its message text is not modelled. */
  function DomError(name: string): (e: Thrown)
    ensures e.Error? && e.name == name
  {
    Error(name, name)
  }

  /** The text a store error appends after the address: the exception's message. */
  function MessageOf(e: Thrown): string
  {
    if e.Error? then e.message else ""
  }

  /** A name a handle may have: not empty, not `.` or `..`, no `/`. */
  predicate ValidName(name: string) {
    name != "" && name != "." && name != ".." && '/' !in name
  }

  // ---------------------------------------------------------------------------
  // Handle operations
  // ---------------------------------------------------------------------------

  /** `dir.getDirectoryHandle(name)`: the child directory. */
  function GetDirectoryHandle(dir: Handle, name: string): (r: Result<Handle>)
    requires dir.Node?
    ensures r.Ok? <==> ValidName(name) && name in dir.children && dir.children[name].Node?
    ensures r.Ok? ==> r.value == dir.children[name]
  {
    if !ValidName(name) then Err(DomError("TypeError"))
    else if name !in dir.children then Err(DomError("NotFoundError"))
    else if dir.children[name].Leaf? then Err(DomError("TypeMismatchError"))
    else Ok(dir.children[name])
  }

  /** `dir.removeEntry(name)`: refuses a missing name, a non-empty directory and a locked file. */
  function RemovableEntry(dir: Handle, name: string): (r: Result<()>)
    requires dir.Node?
    ensures r.Ok? <==> (ValidName(name) && name in dir.children &&
      (dir.children[name].Node? ==> |dir.children[name].children| == 0) &&
      (dir.children[name].Leaf? ==> !dir.children[name].content.locked))
  {
    if !ValidName(name) then Err(DomError("TypeError"))
    else if name !in dir.children then Err(DomError("NotFoundError"))
    else if dir.children[name].Node? && |dir.children[name].children| > 0 then Err(DomError("InvalidModificationError"))
    else if dir.children[name].Leaf? && dir.children[name].content.locked then Err(DomError("NoModificationAllowedError"))
    else Ok(())
  }

  /** `dir.getFileHandle(name, {create: true})` then `createWritable()`: whether the file can be written. */
  function WritableFile(dir: Handle, name: string): (r: Result<()>)
    requires dir.Node?
    ensures r.Ok? <==> (ValidName(name) && (name in dir.children ==>
      dir.children[name].Leaf? && !dir.children[name].content.locked))
  {
    if !ValidName(name) then Err(DomError("TypeError"))
    else if name in dir.children && dir.children[name].Node? then Err(DomError("TypeMismatchError"))
    else if name in dir.children && dir.children[name].content.locked then Err(DomError("NoModificationAllowedError"))
    else Ok(())
  }

  // ---------------------------------------------------------------------------
  // Addresses
  // ---------------------------------------------------------------------------

  /** The non-empty pieces of `parts`, in order (`filter(part => part.length)`). */
  function NonEmpty(parts: seq<string>): (r: seq<string>)
    ensures |r| <= |parts|
    ensures forall i :: 0 <= i < |r| ==> r[i] != "" && r[i] in parts
    ensures (forall i :: 0 <= i < |parts| ==> parts[i] != "") ==> r == parts
    decreases |parts|
  {
    if |parts| == 0 then []
    else if parts[0] == "" then NonEmpty(parts[1..])
    else [parts[0]] + NonEmpty(parts[1..])
  }

  /** `splitPath(location)`: the non-empty segments after `file://`; EACCES otherwise. */
  function SplitPath(location: string): (r: Result<seq<string>>)
    ensures r.Err? <==> !StartsWith(location, PREFIX)
    ensures r.Err? ==> r == Fail(EACCES, location)
    ensures r.Ok? ==> forall i :: 0 <= i < |r.value| ==> r.value[i] != "" && '/' !in r.value[i]
  {
    if !StartsWith(location, PREFIX) then Fail(EACCES, location)
    else
      var parts := Split(location[|PREFIX|..], '/');
      var r := NonEmpty(parts);
      assert forall i :: 0 <= i < |r| ==> '/' !in r[i] by {
        forall i | 0 <= i < |r| ensures '/' !in r[i] {
          var j :| 0 <= j < |parts| && parts[j] == r[i];
        }
      }
      Ok(r)
  }

  /** All segments but the last (everything `parts.pop()` leaves). */
  function Dirs(parts: seq<string>): seq<string> {
    if |parts| == 0 then [] else parts[..|parts| - 1]
  }

  /**
   * The last segment as the handle methods receive it: `parts.pop()` of an empty
   * list is `undefined`, which becomes the name "undefined".
   */
  function BaseName(parts: seq<string>): string {
    if |parts| == 0 then "undefined" else parts[|parts| - 1]
  }

  /** The directory reached from `t` through the directories `p`, one lookup at a time. */
  function Descend(t: Handle, p: seq<string>): (r: Result<Handle>)
    requires t.Node?
    ensures r.Ok? ==> r.value.Node? && Walk(t, p) == Found(r.value)
    ensures r.Ok? ==> forall i :: 0 <= i < |p| ==> ValidName(p[i])
    decreases |p|
  {
    if |p| == 0 then Ok(t)
    else
      var pre := p[..|p| - 1];
      assert p == pre + [p[|p| - 1]];
      WalkSnoc(t, pre, p[|p| - 1]);
      match Descend(t, pre)
      case Err(e) => Err(e)
      case Ok(dir) => GetDirectoryHandle(dir, p[|p| - 1])
  }

  /** A failed lookup ends the descent. */
  lemma {:induction false} DescendStops(t: Handle, p: seq<string>, q: seq<string>)
    requires t.Node? && Descend(t, p).Err?
    ensures Descend(t, p + q) == Descend(t, p)
    decreases |q|
  {
    if |q| > 0 {
      DescendStops(t, p, q[..|q| - 1]);
      assert (p + q)[..|p + q| - 1] == p + q[..|q| - 1];
    } else {
      assert p + q == p;
    }
  }

  /**
   * `resolve(location, resolveParent)` over the root directory: the parent
   * directory, or the entry named by the last segment; a failed lookup is ENOENT.
   */
  function Resolve(root: Handle, location: string, parent: bool): (r: Result<Handle>)
    requires root.Node?
    ensures r.Ok? && parent ==> r.value.Node?
  {
    match SplitPath(location)
    case Err(e) => Err(e)
    case Ok(parts) =>
      match Descend(root, Dirs(parts))
      case Err(e) => Fail(ENOENT, location + ": " + MessageOf(e))
      case Ok(dir) =>
        if parent then Ok(dir)
        else if |parts| > 0 && BaseName(parts) in dir.children then Ok(dir.children[BaseName(parts)])
        else Fail(ENOENT, location)
  }

  // ---------------------------------------------------------------------------
  // Operations
  // ---------------------------------------------------------------------------

  /**
   * The loop of `mkdir`, which always runs (`options.recursive || true`): each
   * segment is looked up with `create: true`; `false` once one cannot be.
   */
  function MakeAll(t: Handle, p: seq<string>): (r: (Handle, bool))
    requires t.Node?
    ensures r.0.Node?
    ensures r.1 ==> Walk(r.0, p).Found? && Walk(r.0, p).entry.Node?
    ensures r.1 ==> forall i :: 0 <= i < |p| ==> ValidName(p[i])
    decreases |p|
  {
    if |p| == 0 then (t, true)
    else
      var pre, x := p[..|p| - 1], p[|p| - 1];
      assert p == pre + [x];
      var made := MakeAll(t, pre);
      WalkSnoc(made.0, pre, x);
      if !made.1 then made
      else
        var dir := Walk(made.0, pre).entry;
        if !ValidName(x) then (made.0, false)
        else if x !in dir.children then
          PutThenWalk(made.0, pre, x, EmptyDirectory<FileData>());
          (Put(made.0, pre, x, EmptyDirectory()), true)
        else if dir.children[x].Node? then made
        else (made.0, false)
  }

  /** A segment that could not be made ends the loop. */
  lemma {:induction false} MakeAllStops(t: Handle, p: seq<string>, q: seq<string>)
    requires t.Node? && !MakeAll(t, p).1
    ensures MakeAll(t, p + q) == MakeAll(t, p)
    decreases |q|
  {
    if |q| > 0 {
      MakeAllStops(t, p, q[..|q| - 1]);
      assert (p + q)[..|p + q| - 1] == p + q[..|q| - 1];
    } else {
      assert p + q == p;
    }
  }

  /** One more segment that can be made: the walk goes one directory further. */
  lemma MakeAllNext(t: Handle, parts: seq<string>, i: nat, root: Handle, dir: Handle)
    requires t.Node? && i < |parts| && MakeAll(t, parts[..i]) == (root, true) && Walk(root, parts[..i]) == Found(dir)
    requires ValidName(parts[i]) && !(parts[i] in dir.children && dir.children[parts[i]].Leaf?)
    ensures parts[i] !in dir.children ==>
      && MakeAll(t, parts[..i + 1]) == (Put(root, parts[..i], parts[i], EmptyDirectory()), true)
      && Walk(Put(root, parts[..i], parts[i], EmptyDirectory()), parts[..i + 1]) == Found(EmptyDirectory())
    ensures parts[i] in dir.children ==>
      && MakeAll(t, parts[..i + 1]) == (root, true)
      && Walk(root, parts[..i + 1]) == Found(dir.children[parts[i]])
  {
    SliceNext(parts, i);
    WalkSnoc(root, parts[..i], parts[i]);
    if parts[i] !in dir.children {
      PutThenWalk(root, parts[..i], parts[i], EmptyDirectory<FileData>());
    }
  }

  /** A segment that cannot be made fails the walk that reaches it. */
  lemma MakeAllHalts(t: Handle, p: seq<string>, x: string, root: Handle, dir: Handle)
    requires t.Node? && MakeAll(t, p) == (root, true) && Walk(root, p) == Found(dir)
    requires !ValidName(x) || (x in dir.children && dir.children[x].Leaf?)
    ensures MakeAll(t, p + [x]) == (root, false)
  {
    assert (p + [x])[..|p + [x]| - 1] == p;
  }

  /** A segment that cannot be made ends the loop with what was made so far. */
  lemma MakeAllEnds(t: Handle, parts: seq<string>, i: nat, root: Handle, dir: Handle)
    requires t.Node? && i < |parts| && MakeAll(t, parts[..i]) == (root, true) && Walk(root, parts[..i]) == Found(dir)
    requires !ValidName(parts[i]) || (parts[i] in dir.children && dir.children[parts[i]].Leaf?)
    ensures MakeAll(t, parts) == (root, false)
  {
    SliceNext(parts, i);
    MakeAllHalts(t, parts[..i], parts[i], root, dir);
    MakeAllStops(t, parts[..i + 1], parts[i + 1..]);
  }

  /** `mkdir(location)`: the new tree and the outcome. */
  function MkdirSpec(root: Handle, location: string): (r: (Handle, Result<()>))
    requires root.Node?
    ensures r.0.Node?
    ensures !StartsWith(location, PREFIX) ==> r == (root, Fail(EACCES, location))
    ensures r.1.Err? && StartsWith(location, PREFIX) ==> r.1 == Fail(EEXIST, location)
  {
    match SplitPath(location)
    case Err(e) => (root, Err(e))
    case Ok(parts) =>
      var made := MakeAll(root, parts);
      (made.0, if made.1 then Ok(()) else Fail(EEXIST, location))
  }

  /** `unlink(location)`: the new tree and the outcome. */
  function UnlinkSpec(root: Handle, location: string): (r: (Handle, Result<()>))
    requires root.Node?
    ensures r.0.Node?
    ensures r.1.Err? ==> r.0 == root
    ensures !StartsWith(location, PREFIX) ==> r == (root, Fail(EACCES, location))
  {
    match Resolve(root, location, true)
    case Err(e) => (root, Err(e))
    case Ok(parent) =>
      var parts := SplitPath(location).value;
      match RemovableEntry(parent, BaseName(parts))
      case Err(_) => (root, Fail(ENOENT, location))
      case Ok(_) => (Delete(root, Dirs(parts), BaseName(parts)), Ok(()))
  }

  /** `writeFile(location, data)`: the new tree and the outcome. */
  function WriteFileSpec(root: Handle, location: string, data: Data): (r: (Handle, Result<()>))
    requires root.Node?
    ensures r.1.Err? ==> r.0 == root
    ensures !StartsWith(location, PREFIX) ==> r == (root, Fail(EACCES, location))
  {
    match Resolve(root, location, true)
    case Err(e) => (root, Err(e))
    case Ok(parent) =>
      var parts := SplitPath(location).value;
      match WritableFile(parent, BaseName(parts))
      case Err(e) =>
        if e.name == "NoModificationAllowedError" then (root, Fail(EPERM, location + ": " + MessageOf(e)))
        else (root, Fail(EEXIST, location + ": " + MessageOf(e)))
      case Ok(_) => (Put(root, Dirs(parts), BaseName(parts), Leaf(FileData(ToBytes(data), false))), Ok(()))
  }

  /** `readFile(location)`: the bytes of a file; EISDIR for a directory. */
  function ReadFileSpec(root: Handle, location: string): (r: Result<seq<Byte>>)
    requires root.Node?
    ensures r.Ok? <==> Resolve(root, location, false).Ok? && Resolve(root, location, false).value.Leaf?
    ensures r.Ok? ==> r.value == Resolve(root, location, false).value.content.content
    ensures Resolve(root, location, false).Err? ==> r == Err(Resolve(root, location, false).error)
  {
    match Resolve(root, location, false)
    case Err(e) => Err(e)
    case Ok(entry) => if entry.Leaf? then Ok(entry.content.content) else Fail(EISDIR, location)
  }

  /** `stat(location)`. */
  function StatSpec(root: Handle, location: string): (r: Result<Stats>)
    requires root.Node?
    ensures r.Ok? <==> Resolve(root, location, false).Ok?
    ensures r.Ok? ==> r.value.isDirectory == Resolve(root, location, false).value.Node?
    ensures r.Ok? ==> r.value.isFile == !r.value.isDirectory
  {
    match Resolve(root, location, false)
    case Err(e) => Err(e)
    case Ok(entry) => Ok(StatsOf(entry))
  }

  class FSAFileSystem {
    /** The store's root directory. */
    var root: Handle

    ghost predicate Valid()
      reads this
    {
      root.Node?
    }

    constructor(root: Handle)
      requires root.Node?
      ensures Valid() && this.root == root
    {
      this.root := root;
    }

    /** `resolve(location, resolveParent)`: the loop moving `current` one directory at a time. */
    method ResolveEntry(location: string, parent: bool) returns (r: Result<Handle>)
      requires Valid()
      ensures r == Resolve(root, location, parent)
    {
      var split := SplitPath(location);
      if split.Err? {
        return Err(split.error);
      }
      var parts := split.value;
      var dirs := Dirs(parts);
      var current := root;
      var i := 0;
      while i < |dirs|
        invariant 0 <= i <= |dirs|
        invariant Descend(root, dirs[..i]) == Ok(current)
      {
        var next := dirs[..i + 1];
        assert next[..|next| - 1] == dirs[..i];
        var child := GetDirectoryHandle(current, dirs[i]);
        if child.Err? {
          DescendStops(root, next, dirs[i + 1..]);
          assert next + dirs[i + 1..] == dirs;
          return Fail(ENOENT, location + ": " + MessageOf(child.error));
        }
        current := child.value;
        i := i + 1;
      }
      assert dirs[..i] == dirs;
      if !parent {
        var baseName := BaseName(parts);
        if |parts| > 0 && baseName in current.children {
          return Ok(current.children[baseName]);
        }
        return Fail(ENOENT, location);
      }
      return Ok(current);
    }

    /** `chmod`: does nothing and never fails. */
    method Chmod(location: string, mode: int) returns (r: Result<()>)
      ensures r.Ok?
    {
      return Ok(());
    }

    /** `mkdir(location)`: creates every missing directory along the path. */
    method Mkdir(location: string) returns (r: Result<()>)
      requires Valid()
      modifies this
      ensures Valid()
      ensures (root, r) == MkdirSpec(old(root), location)
    {
      var split := SplitPath(location);
      if split.Err? {
        return Err(split.error);
      }
      var made := MakeDirectories(split.value);
      r := if made then Ok(()) else Fail(EEXIST, location);
    }

    /** The loop of `mkdir`: each segment looked up with `create: true`, stopping at one that cannot be. */
    method MakeDirectories(parts: seq<string>) returns (made: bool)
      requires Valid()
      modifies this
      ensures Valid()
      ensures (root, made) == MakeAll(old(root), parts)
    {
      var current := root;
      var i := 0;
      while i < |parts|
        invariant 0 <= i <= |parts|
        invariant MakeAll(old(root), parts[..i]) == (root, true)
        invariant root.Node? && Walk(root, parts[..i]) == Found(current) && current.Node?
      {
        var part := parts[i];
        if !ValidName(part) || (part in current.children && current.children[part].Leaf?) {
          MakeAllEnds(old(root), parts, i, root, current);
          return false;
        }
        MakeAllNext(old(root), parts, i, root, current);
        if part !in current.children {
          root := Put(root, parts[..i], part, EmptyDirectory());
          current := EmptyDirectory();
        } else {
          current := current.children[part];
        }
        i := i + 1;
      }
      assert parts[..i] == parts;
      return true;
    }

    /** `readdir(location)`: the listing of a directory; ENOTDIR for a file. */
    method Readdir(location: string) returns (r: Result<seq<Dirent>>)
      requires Valid()
      ensures Resolve(root, location, false).Err? ==> r == Err(Resolve(root, location, false).error)
      ensures Resolve(root, location, false).Ok? && Resolve(root, location, false).value.Leaf? ==>
        r == Fail(ENOTDIR, location)
      ensures Resolve(root, location, false).Ok? && Resolve(root, location, false).value.Node? ==>
        r.Ok? && Lists(Resolve(root, location, false).value, r.value)
    {
      var dir := ResolveEntry(location, false);
      if dir.Err? {
        return Err(dir.error);
      }
      if dir.value.Leaf? {
        return Fail(ENOTDIR, location);
      }
      var result := ReadEntries(dir.value);
      return Ok(result);
    }

    /** `readFile(location)`. */
    method ReadFile(location: string) returns (r: Result<seq<Byte>>)
      requires Valid()
      ensures r == ReadFileSpec(root, location)
    {
      var file := ResolveEntry(location, false);
      if file.Err? {
        return Err(file.error);
      }
      if !file.value.Leaf? {
        return Fail(EISDIR, location);
      }
      return Ok(file.value.content.content);
    }

    /** `stat(location)`. */
    method Stat(location: string) returns (r: Result<Stats>)
      requires Valid()
      ensures r == StatSpec(root, location)
    {
      var entry := ResolveEntry(location, false);
      if entry.Err? {
        return Err(entry.error);
      }
      return Ok(StatsOf(entry.value));
    }

    /** `unlink(location)`. */
    method Unlink(location: string) returns (r: Result<()>)
      requires Valid()
      modifies this
      ensures Valid()
      ensures (root, r) == UnlinkSpec(old(root), location)
    {
      var parent := ResolveEntry(location, true);
      if parent.Err? {
        return Err(parent.error);
      }
      var parts := SplitPath(location).value;
      var name := BaseName(parts);
      var removed := RemovableEntry(parent.value, name);
      if removed.Err? {
        return Fail(ENOENT, location);
      }
      root := Delete(root, Dirs(parts), name);
      return Ok(());
    }

    /** `writeFile(location, data)`: creates or truncates the file, then writes the bytes. */
    method WriteFile(location: string, data: Data) returns (r: Result<()>)
      requires Valid()
      modifies this
      ensures Valid()
      ensures (root, r) == WriteFileSpec(old(root), location, data)
    {
      var parent := ResolveEntry(location, true);
      if parent.Err? {
        return Err(parent.error);
      }
      var parts := SplitPath(location).value;
      var name := BaseName(parts);
      var file := WritableFile(parent.value, name);
      if file.Err? {
        if file.error.name == "NoModificationAllowedError" {
          return Fail(EPERM, location + ": " + MessageOf(file.error));
        }
        return Fail(EEXIST, location + ": " + MessageOf(file.error));
      }
      root := Put(root, Dirs(parts), name, Leaf(FileData(ToBytes(data), false)));
      return Ok(());
    }
  }

  // ---------------------------------------------------------------------------
  // Opening the store and probing for support
  // ---------------------------------------------------------------------------

  /** The name of the store's root directory: `spyglass_` and the identifier with `/` made `_`. */
  function RootName(identifier: string): (name: string)
    ensures StartsWith(name, "spyglass_") && |name| == 9 + |identifier|
    ensures '/' !in name
    ensures forall i :: 0 <= i < |identifier| ==>
      name[9 + i] == if identifier[i] == '/' then '_' else identifier[i]
  {
    "spyglass_" + ReplaceAll(identifier, '/', '_')
  }

  /**
   * `create(identifier)`: the root directory is looked up in the origin's private
   * directory with `create: true`; the updated origin and the root, or the error
   * when a file already has that name.
   */
  function Create(origin: Handle, identifier: string): (r: Result<(Handle, Handle)>)
    requires origin.Node?
    ensures r.Ok? ==> r.value.0.Node? && r.value.1.Node?
    ensures r.Ok? ==> r.value.0.children == origin.children[RootName(identifier) := r.value.1]
  {
    var name := RootName(identifier);
    if name in origin.children && origin.children[name].Leaf? then Err(DomError("TypeMismatchError"))
    else if name in origin.children then Ok((origin, origin.children[name]))
    else Ok((AddEntry(origin, name, EmptyDirectory()), EmptyDirectory()))
  }

  /** What `queryPermission({mode: 'readwrite'})` does, if the handle has it. */
  datatype PermissionQuery = NoQuery | Answers(state: string) | Rejects(error: Thrown)

  /** The parts of the browser `checkBrowserSupport` consults. */
  datatype Browser = Browser(hasGetDirectory: bool, getDirectoryRejects: bool, query: PermissionQuery)

  /**
   * The answer of the create-and-remove probe: it starts by calling
   * `Random.getString`, but `Random` is not imported, so the ReferenceError is
   * caught and the probe answers false on every browser.
   */
  const PROBE_RESULT := false

  /** `checkBrowserSupport()`; a rejected `queryPermission` is not caught. */
  function CheckBrowserSupport(b: Browser): (r: Result<bool>)
    ensures b.getDirectoryRejects ==> r == Ok(false)
    ensures r.Err? ==> b.query.Rejects? && r.error == b.query.error
    ensures b.query.Answers? && b.query.state != "granted" ==> r == Ok(false)
  {
    if !b.hasGetDirectory || b.getDirectoryRejects then Ok(false)
    else match b.query
      case Answers(state) => if state == "granted" then Ok(true) else Ok(PROBE_RESULT)
      case Rejects(e) => Err(e)
      case NoQuery => Ok(PROBE_RESULT)
  }

  /** Support is reported exactly when `queryPermission` answers `'granted'`. */
  lemma SupportedIffGranted(b: Browser)
    ensures CheckBrowserSupport(b) == Ok(true) <==>
      b.hasGetDirectory && !b.getDirectoryRejects && b.query == Answers("granted")
    ensures !b.hasGetDirectory ==> CheckBrowserSupport(b) == Ok(false)
    ensures CheckBrowserSupport(b).Err? <==>
      b.hasGetDirectory && !b.getDirectoryRejects && b.query.Rejects?
  {
  }

  /** The static `supported` cache. */
  class Support {
    var supported: Option<bool>

    constructor()
      ensures supported == None
    {
      supported := None;
    }

    /** `isSupported()`: probes once, then answers from the cache. */
    method IsSupported(b: Browser) returns (r: Result<bool>)
      modifies this
      ensures old(supported).Some? ==> r == Ok(old(supported).value) && supported == old(supported)
      ensures old(supported).None? ==> r == CheckBrowserSupport(b)
      ensures old(supported).None? && r.Ok? ==> supported == Some(r.value)
      ensures old(supported).None? && r.Err? ==> supported == None
    {
      if supported.None? {
        var checked := CheckBrowserSupport(b);
        if checked.Err? {
          return Err(checked.error);
        }
        supported := Some(checked.value);
      }
      return Ok(supported.value);
    }
  }
}
