/**
 * The read-only snapshot store (src/FileSystem/JsonFileSystem.js): a nested object
 * whose keys are names, whose nested objects are directories and whose string
 * values are the base64 text of file contents.
 */
module JsonFs {
  import opened Strings
  import opened ErrorFactory
  import opened Bytes
  import opened FileTree
  import Base64

  /** A snapshot: objects are `Node`s, base64 strings are `Leaf`s. */
  type Snapshot = Tree<string>

  const BASE_URI := "file:///"

  /** What every operation that would change the snapshot throws. */
  const NOT_PERMITTED := CreateKind(EPERM, "Operation not permitted")

  /** The segments after `file:///`; no trailing slash is dropped here. */
  function PathParts(location: string): (r: Result<seq<string>>)
    ensures r.Err? <==> !StartsWith(location, BASE_URI)
    ensures r.Err? ==> r == Fail(EACCES, location)
    ensures r.Ok? ==> r.value == Split(location[|BASE_URI|..], '/')
  {
    if !StartsWith(location, BASE_URI) then Fail(EACCES, location)
    else Ok(Split(location[|BASE_URI|..], '/'))
  }

  /**
   * `findEntry(location)` over `entries`: a missing key, and a step into a string,
   * are both ENOENT.
   */
  function Find(entries: Snapshot, location: string): (r: Result<Snapshot>)
    ensures PathParts(location).Err? ==> r == Fail(EACCES, location)
    ensures PathParts(location).Ok? ==>
      var w := Walk(entries, PathParts(location).value);
      (w.Found? ==> r == Ok(w.entry)) && (!w.Found? ==> r == Fail(ENOENT, location))
  {
    match PathParts(location)
    case Err(e) => Err(e)
    case Ok(parts) =>
      match Walk(entries, parts)
      case Found(e) => Ok(e)
      case _ => Fail(ENOENT, location)
  }

  class JsonFileSystem {
    /** The snapshot; nothing assigns it after construction. */
    const entries: Snapshot

    constructor(entries: Snapshot)
      ensures this.entries == entries
    {
      this.entries := entries;
    }

    /** `findEntry(location)`: the loop moving `current` one key at a time. */
    method FindEntry(location: string) returns (r: Result<Snapshot>)
      ensures r == Find(entries, location)
    {
      if !StartsWith(location, BASE_URI) {
        return Fail(EACCES, location);
      }
      var parts := Split(Substring(location, |BASE_URI|), '/');
      var current := entries;
      var i := 0;
      while i < |parts|
        invariant 0 <= i <= |parts|
        invariant Walk(entries, parts[..i]) == Found(current)
      {
        var part := parts[i];
        WalkSnoc(entries, parts[..i], part);
        assert parts[..i + 1] == parts[..i] + [part];
        WalkAppend(entries, parts[..i + 1], parts[i + 1..]);
        assert parts[..i + 1] + parts[i + 1..] == parts;
        if |part| == 0 {
          i := i + 1;
          continue;
        }
        if current.Leaf? || part !in current.children {
          return Fail(ENOENT, location);
        }
        current := current.children[part];
        i := i + 1;
      }
      assert parts[..i] == parts;
      return Ok(current);
    }

    /** `readdir(location)`: ENOTDIR for a string; otherwise one entry per key. */
    method Readdir(location: string) returns (r: Result<seq<Dirent>>)
      ensures Find(entries, location).Err? ==> r == Err(Find(entries, location).error)
      ensures Find(entries, location).Ok? && Find(entries, location).value.Leaf? ==>
        r == Fail(ENOTDIR, location)
      ensures Find(entries, location).Ok? && Find(entries, location).value.Node? ==>
        r.Ok? && Lists(Find(entries, location).value, r.value)
    {
      var entry := FindEntry(location);
      if entry.Err? {
        return Err(entry.error);
      }
      if entry.value.Leaf? {
        return Fail(ENOTDIR, location);
      }
      var result := ReadEntries(entry.value);
      return Ok(result);
    }

    /** `readFile(location)`: the decoded bytes of a string; EISDIR for an object. */
    function ReadFile(location: string): (r: Result<seq<Byte>>)
      ensures Find(entries, location).Err? ==> r == Err(Find(entries, location).error)
      ensures Find(entries, location).Ok? && Find(entries, location).value.Node? ==>
        r == Fail(EISDIR, location)
      ensures r.Ok? ==> Find(entries, location).Ok? && Find(entries, location).value.Leaf?
      ensures Find(entries, location).Ok? && Find(entries, location).value.Leaf? ==>
        r == Base64.DecodeOrThrow(Find(entries, location).value.content)
    {
      match Find(entries, location)
      case Err(e) => Err(e)
      case Ok(entry) =>
        if entry.Node? then Fail(EISDIR, location)
        else Base64.DecodeOrThrow(entry.content)
    }

    /** `stat(location)`: objects are directories, strings are files. */
    function Stat(location: string): (r: Result<Stats>)
      ensures r.Ok? <==> Find(entries, location).Ok?
      ensures r.Ok? ==> r.value.isDirectory == Find(entries, location).value.Node?
      ensures r.Ok? ==> r.value.isFile == !r.value.isDirectory
    {
      match Find(entries, location)
      case Err(e) => Err(e)
      case Ok(entry) => Ok(StatsOf(entry))
    }

    /** `chmod`: refused for every address. */
    function Chmod(location: string, mode: int): (r: Result<()>)
      ensures r.Err? && IsKind(r.error, EPERM)
    {
      Err(NOT_PERMITTED)
    }

    /** `mkdir`: refused for every address. */
    function Mkdir(location: string): (r: Result<()>)
      ensures r.Err? && IsKind(r.error, EPERM)
    {
      Err(NOT_PERMITTED)
    }

    /** `unlink`: refused for every address. */
    function Unlink(location: string): (r: Result<()>)
      ensures r.Err? && IsKind(r.error, EPERM)
    {
      Err(NOT_PERMITTED)
    }

    /** `writeFile`: refused for every address. */
    function WriteFile(location: string, data: Data): (r: Result<()>)
      ensures r.Err? && IsKind(r.error, EPERM)
    {
      Err(NOT_PERMITTED)
    }
  }

  /** Empty segments are skipped: `…/d/` finds what `…/d` finds. */
  lemma TrailingSlash(entries: Snapshot, location: string)
    requires StartsWith(location, BASE_URI)
    ensures Find(entries, location + "/").Ok? <==> Find(entries, location).Ok?
    ensures Find(entries, location).Ok? ==> Find(entries, location + "/").value == Find(entries, location).value
  {
    var s := location + "/";
    assert s[..|BASE_URI|] == location[..|BASE_URI|];
    assert s[|BASE_URI|..] == location[|BASE_URI|..] + ['/'];
    SplitTrailing(location[|BASE_URI|..], '/');
    var parts := Split(location[|BASE_URI|..], '/');
    WalkAppend(entries, parts, [""]);
  }
}
