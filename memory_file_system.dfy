/**
 * The in-memory store (src/FileSystem/MemoryFileSystem.js): a root directory of
 * nested directories and files, addressed by `file:///` URIs.
 *
 * The directory objects of the source are modelled as the value tree of
 * `FileTree`; a method that changes a directory in place here rebuilds `root` along
 * the path to that directory (`Put`, `Delete`). The directory methods are declared
 * `async` in the source but called without `await`; the model gives them the
 * synchronous `Map` semantics the store evidently relies on.
 */
module MemoryFs {
  import opened Wrappers
  import opened Strings
  import opened ErrorFactory
  import opened Bytes
  import opened FileTree

  type Entry = Tree<Data>

  /** `baseUri`: every address must start with it. */
  const BASE_URI := "file:///"

  /** Options of `mkdir`; the source reads only `recursive`. */
  datatype MkdirOptions = MkdirOptions(recursive: bool)

  /** What reading `options.recursive` throws when no options are passed. */
  const MISSING_OPTIONS := Error("TypeError", "Cannot read properties of undefined (reading 'recursive')")

  /**
   * `getPathParts(location)`: the segments after `file:///`, once one trailing
   * slash is dropped; EACCES for any other address.
   */
  function GetPathParts(location: string): (r: Result<seq<string>>)
    ensures r.Err? <==> !StartsWith(location, BASE_URI)
    ensures r.Err? ==> r == Fail(EACCES, location)
    ensures r.Ok? ==> |r.value| >= 1
    ensures r.Ok? && !EndsWithSlash(location) ==> r.value == Split(location[|BASE_URI|..], '/')
  {
    if !StartsWith(location, BASE_URI) then Fail(EACCES, location)
    else
      var str := if EndsWithSlash(location) then location[..|location| - 1] else location;
      Ok(Split(Substring(str, |BASE_URI|), '/'))
  }

  /** The segments of the parent (`parts.pop()` removes the last one). */
  function ParentParts(parts: seq<string>): (r: seq<string>)
    requires |parts| >= 1
    ensures parts == r + [Basename(parts)]
  {
    parts[..|parts| - 1]
  }

  /** The last segment, the name `mkdir`, `unlink` and `writeFile` act on. */
  function Basename(parts: seq<string>): string
    requires |parts| >= 1
  {
    parts[|parts| - 1]
  }

  /** The outcome of a walk as `findEntry` reports it. */
  function Report(w: Walked<Data>, location: string): (r: Result<Entry>)
    ensures w.Found? <==> r.Ok?
    ensures w.Found? ==> r.value == w.entry
    ensures w.NotDirectory? ==> r == Fail(ENOTDIR, location)
    ensures w.Missing? ==> r == Fail(ENOENT, location)
  {
    match w
    case Found(e) => Ok(e)
    case NotDirectory => Fail(ENOTDIR, location)
    case Missing => Fail(ENOENT, location)
  }

  /** `findEntry(location, parent)` on the tree `root`. */
  function Find(root: Entry, location: string, parent: bool): (r: Result<Entry>)
    ensures !StartsWith(location, BASE_URI) ==> r == Fail(EACCES, location)
    ensures r.Err? && StartsWith(location, BASE_URI) ==>
      r == Fail(ENOTDIR, location) || r == Fail(ENOENT, location)
  {
    match GetPathParts(location)
    case Err(e) => Err(e)
    case Ok(parts) => Report(Walk(root, if parent then ParentParts(parts) else parts), location)
  }

  /**
   * The recursive part of `mkdir`: along `parts`, every missing directory is created
   * and every existing one reused; `false` when a segment names a file, with the
   * directories made before it kept.
   */
  function MakeDirs(t: Entry, parts: seq<string>): (r: (Entry, bool))
    requires t.Node?
    ensures r.0.Node?
    ensures r.1 ==> Walk(r.0, parts).Found? && Walk(r.0, parts).entry.Node?
    decreases |parts|
  {
    if |parts| == 0 then (t, true)
    else
      var prefix := ParentParts(parts);
      var part := Basename(parts);
      var made := MakeDirs(t, prefix);
      WalkSnoc(made.0, prefix, part);
      if !made.1 then made
      else if part == "" then made
      else
        var current := Walk(made.0, prefix).entry;
        if part !in current.children then
          PutThenWalk(made.0, prefix, part, EmptyDirectory<Data>());
          (Put(made.0, prefix, part, EmptyDirectory()), true)
        else if current.children[part].Node? then made
        else (made.0, false)
  }

  /** Once a segment names a file, the rest of the path changes nothing more. */
  lemma {:induction false} MakeDirsStops(t: Entry, p: seq<string>, q: seq<string>)
    requires t.Node? && !MakeDirs(t, p).1
    ensures MakeDirs(t, p + q) == MakeDirs(t, p)
    decreases |q|
  {
    if |q| > 0 {
      var q' := ParentParts(q);
      MakeDirsStops(t, p, q');
      assert ParentParts(p + q) == p + q';
    } else {
      assert p + q == p;
    }
  }

  /** `mkdir(location, options)`: the new tree and the outcome. */
  function MkdirSpec(root: Entry, location: string, options: Option<MkdirOptions>): (r: (Entry, Result<()>))
    requires root.Node?
    ensures r.0.Node?
    ensures !StartsWith(location, BASE_URI) ==> r == (root, Fail(EACCES, location))
    ensures StartsWith(location, BASE_URI) && options.None? ==> r == (root, Err(MISSING_OPTIONS))
    ensures options == Some(MkdirOptions(false)) && r.1.Err? ==> r.0 == root
  {
    match GetPathParts(location)
    case Err(e) => (root, Err(e))
    case Ok(parts) =>
      if options.None? then (root, Err(MISSING_OPTIONS))
      else
        var made := if options.value.recursive then MakeDirs(root, parts) else (root, true);
        if !made.1 then (made.0, Fail(EEXIST, location))
        else match Find(made.0, location, true)
          case Err(e) => (made.0, Err(e))
          case Ok(parent) =>
            if parent.Leaf? then (made.0, Fail(ENOTDIR, location))
            else if HasEntry(parent, Basename(parts)) then (made.0, Fail(EEXIST, location))
            else (Put(made.0, ParentParts(parts), Basename(parts), EmptyDirectory()), Ok(()))
  }

  /** `readFile(location)`: the content of a file; EISDIR for a directory. */
  function ReadFileSpec(root: Entry, location: string): (r: Result<Data>)
    ensures r.Ok? <==> Find(root, location, false).Ok? && Find(root, location, false).value.Leaf?
    ensures r.Ok? ==> r.value == Find(root, location, false).value.content
    ensures Find(root, location, false).Err? ==> r == Err(Find(root, location, false).error)
  {
    match Find(root, location, false)
    case Err(e) => Err(e)
    case Ok(entry) => if entry.Leaf? then Ok(entry.GetContent()) else Fail(EISDIR, location)
  }

  /** `stat(location)`. */
  function StatSpec(root: Entry, location: string): (r: Result<Stats>)
    ensures r.Ok? <==> Find(root, location, false).Ok?
    ensures r.Ok? ==> r.value.isDirectory == Find(root, location, false).value.Node?
    ensures r.Ok? ==> r.value.isFile == !r.value.isDirectory
  {
    match Find(root, location, false)
    case Err(e) => Err(e)
    case Ok(entry) => Ok(StatsOf(entry))
  }

  /** `unlink(location)`: the new tree and the outcome. */
  function UnlinkSpec(root: Entry, location: string): (r: (Entry, Result<()>))
    ensures r.1.Err? ==> r.0 == root
    ensures root.Node? ==> r.0.Node?
    ensures !StartsWith(location, BASE_URI) ==> r == (root, Fail(EACCES, location))
  {
    match GetPathParts(location)
    case Err(e) => (root, Err(e))
    case Ok(parts) =>
      match Find(root, location, true)
      case Err(e) => (root, Err(e))
      case Ok(parent) =>
        if parent.Leaf? || !HasEntry(parent, Basename(parts)) then (root, Fail(ENOENT, location))
        else (Delete(root, ParentParts(parts), Basename(parts)), Ok(()))
  }

  /** `writeFile(location, data)`: the new tree and the outcome. */
  function WriteFileSpec(root: Entry, location: string, data: Data): (r: (Entry, Result<()>))
    ensures r.1.Err? ==> r.0 == root
    ensures !StartsWith(location, BASE_URI) ==> r == (root, Fail(EACCES, location))
  {
    match GetPathParts(location)
    case Err(e) => (root, Err(e))
    case Ok(parts) =>
      match Find(root, location, true)
      case Err(e) => (root, Err(e))
      case Ok(parent) =>
        if parent.Leaf? then (root, Fail(ENOENT, location))
        else if HasEntry(parent, Basename(parts)) && !parent.children[Basename(parts)].Leaf? then
          (root, Fail(EISDIR, location))
        else (Put(root, ParentParts(parts), Basename(parts), NewFile(data)), Ok(()))
  }

  class MemoryFileSystem {
    /** The root directory; never replaced by another kind of entry. */
    var root: Entry

    ghost predicate Valid()
      reads this
    {
      root.Node?
    }

    constructor()
      ensures Valid() && root == EmptyDirectory()
    {
      root := EmptyDirectory();
    }

    /** `findEntry(location, parent)`: the loop that walks `current` down from the root. */
    method FindEntry(location: string, parent: bool) returns (r: Result<Entry>)
      ensures r == Find(root, location, parent)
    {
      var pathParts := GetPathParts(location);
      if pathParts.Err? {
        return Err(pathParts.error);
      }
      var parts := pathParts.value;
      if parent {
        parts := ParentParts(parts);
      }
      var current := root;
      var i := 0;
      while i < |parts|
        invariant 0 <= i <= |parts|
        invariant Walk(root, parts[..i]) == Found(current)
      {
        var part := parts[i];
        WalkNext(root, parts, i);
        if |part| == 0 {
          i := i + 1;
          continue;
        }
        if current.Leaf? {
          return Fail(ENOTDIR, location);
        }
        var next := GetEntry(current, part);
        if next.None? {
          return Fail(ENOENT, location);
        }
        current := next.value;
        i := i + 1;
      }
      assert parts[..i] == parts;
      return Ok(current);
    }

    /** `chmod`: does nothing and never fails. */
    method Chmod(location: string, mode: int) returns (r: Result<()>)
      ensures r.Ok?
    {
      return Ok(());
    }

    /** `mkdir(location, options)`. */
    method Mkdir(location: string, options: Option<MkdirOptions>) returns (r: Result<()>)
      requires Valid()
      modifies this
      ensures Valid()
      ensures (root, r) == MkdirSpec(old(root), location, options)
    {
      var pathParts := GetPathParts(location);
      if pathParts.Err? {
        return Err(pathParts.error);
      }
      var parts := pathParts.value;
      if options.None? {
        return Err(MISSING_OPTIONS);
      }
      if options.value.recursive {
        var current := root;
        var i := 0;
        while i < |parts|
          invariant 0 <= i <= |parts|
          invariant MakeDirs(old(root), parts[..i]) == (root, true)
          invariant root.Node? && Walk(root, parts[..i]) == Found(current) && current.Node?
        {
          var part := parts[i];
          assert ParentParts(parts[..i + 1]) == parts[..i];
          WalkSnoc(root, parts[..i], part);
          if |part| == 0 {
            i := i + 1;
            continue;
          }
          var next := GetEntry(current, part);
          if next.None? {
            var made := EmptyDirectory();
            PutThenWalk(root, parts[..i], part, made);
            root := Put(root, parts[..i], part, made);
            current := made;
          } else if next.value.Leaf? {
            MakeDirsStops(old(root), parts[..i + 1], parts[i + 1..]);
            assert parts[..i + 1] + parts[i + 1..] == parts;
            return Fail(EEXIST, location);
          } else {
            current := next.value;
          }
          i := i + 1;
        }
        assert parts[..i] == parts;
      }
      var parent := FindEntry(location, true);
      if parent.Err? {
        return Err(parent.error);
      }
      var basename := Basename(parts);
      if parent.value.Leaf? {
        return Fail(ENOTDIR, location);
      }
      if HasEntry(parent.value, basename) {
        return Fail(EEXIST, location);
      }
      root := Put(root, ParentParts(parts), basename, EmptyDirectory());
      return Ok(());
    }

    /** `readdir(location)`: the listing of a directory; ENOTDIR for a file. */
    method Readdir(location: string) returns (r: Result<seq<Dirent>>)
      ensures Find(root, location, false).Err? ==> r == Err(Find(root, location, false).error)
      ensures Find(root, location, false).Ok? && Find(root, location, false).value.Leaf? ==>
        r == Fail(ENOTDIR, location)
      ensures Find(root, location, false).Ok? && Find(root, location, false).value.Node? ==>
        r.Ok? && Lists(Find(root, location, false).value, r.value)
    {
      var directory := FindEntry(location, false);
      if directory.Err? {
        return Err(directory.error);
      }
      if directory.value.Leaf? {
        return Fail(ENOTDIR, location);
      }
      var result := ReadEntries(directory.value);
      return Ok(result);
    }

    /** `readFile(location)`. */
    method ReadFile(location: string) returns (r: Result<Data>)
      ensures r == ReadFileSpec(root, location)
    {
      var entry := FindEntry(location, false);
      if entry.Err? {
        return Err(entry.error);
      }
      if !entry.value.Leaf? {
        return Fail(EISDIR, location);
      }
      return Ok(entry.value.GetContent());
    }

    /** `stat(location)`. */
    method Stat(location: string) returns (r: Result<Stats>)
      ensures r == StatSpec(root, location)
    {
      var entry := FindEntry(location, false);
      if entry.Err? {
        return Err(entry.error);
      }
      return Ok(StatsOf(entry.value));
    }

    /** `unlink(location)`. */
    method Unlink(location: string) returns (r: Result<()>)
      requires Valid()
      modifies this
      ensures Valid()
      ensures (root, r) == UnlinkSpec(old(root), location)
    {
      var pathParts := GetPathParts(location);
      if pathParts.Err? {
        return Err(pathParts.error);
      }
      var parts := pathParts.value;
      var parent := FindEntry(location, true);
      if parent.Err? {
        return Err(parent.error);
      }
      var basename := Basename(parts);
      if parent.value.Leaf? || !HasEntry(parent.value, basename) {
        return Fail(ENOENT, location);
      }
      root := Delete(root, ParentParts(parts), basename);
      return Ok(());
    }

    /** `writeFile(location, data)`. */
    method WriteFile(location: string, data: Data) returns (r: Result<()>)
      requires Valid()
      modifies this
      ensures Valid()
      ensures (root, r) == WriteFileSpec(old(root), location, data)
    {
      var pathParts := GetPathParts(location);
      if pathParts.Err? {
        return Err(pathParts.error);
      }
      var parts := pathParts.value;
      var parent := FindEntry(location, true);
      if parent.Err? {
        return Err(parent.error);
      }
      var basename := Basename(parts);
      if parent.value.Leaf? {
        return Fail(ENOENT, location);
      }
      if HasEntry(parent.value, basename) && !GetEntry(parent.value, basename).value.Leaf? {
        return Fail(EISDIR, location);
      }
      root := Put(root, ParentParts(parts), basename, NewFile(data));
      return Ok(());
    }
  }
}
