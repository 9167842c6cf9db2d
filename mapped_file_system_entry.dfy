/**
 * One binding of the router (src/FileSystem/Mapped/MappedFileSystemEntry.js):
 * addresses under a source prefix are rewritten to the same suffix under a
 * target prefix and handled by one backing store.
 */
module MappedEntry {
  import opened Wrappers
  import opened Strings
  import MemoryFs
  import JsonFs
  import LocalStorageFs
  import FsaFs

  /** The backing store of a binding: one of the four store classes. */
  datatype Store =
    | MemoryStore(memory: MemoryFs.MemoryFileSystem)
    | JsonStore(json: JsonFs.JsonFileSystem)
    | LocalStorageStore(local: LocalStorageFs.LocalStorageFileSystem)
    | FsaStore(fsa: FsaFs.FSAFileSystem)

  /** The object behind a store reference. */
  function ObjectOf(s: Store): object {
    match s
    case MemoryStore(m) => m
    case JsonStore(j) => j
    case LocalStorageStore(l) => l
    case FsaStore(f) => f
  }

  datatype MappedFileSystemEntry = MappedFileSystemEntry(sourceBaseUri: string, targetBaseUri: string, fileSystem: Store)

  /** The constructor: both prefixes end with `/` afterwards; one that does already is kept. */
  function NewEntry(sourceBaseUri: string, targetBaseUri: string, fileSystem: Store): (e: MappedFileSystemEntry)
    ensures Normal(e) && e.fileSystem == fileSystem
    ensures EndsWithSlash(sourceBaseUri) ==> e.sourceBaseUri == sourceBaseUri
    ensures EndsWithSlash(targetBaseUri) ==> e.targetBaseUri == targetBaseUri
    ensures !EndsWithSlash(sourceBaseUri) ==> e.sourceBaseUri == sourceBaseUri + "/"
    ensures !EndsWithSlash(targetBaseUri) ==> e.targetBaseUri == targetBaseUri + "/"
  {
    MappedFileSystemEntry(EnsureEndingSlash(sourceBaseUri), EnsureEndingSlash(targetBaseUri), fileSystem)
  }

  /** What the constructor guarantees about both prefixes. */
  predicate Normal(e: MappedFileSystemEntry) {
    EndsWithSlash(e.sourceBaseUri) && EndsWithSlash(e.targetBaseUri)
  }

  /**
   * `map(location)`: the source prefix itself without its slash maps to the
   * target prefix; an address under the source prefix maps to the same suffix
   * under the target prefix; anything else maps to nothing (`null`).
   */
  function Map(e: MappedFileSystemEntry, location: string): (r: Option<string>)
    ensures location + "/" == e.sourceBaseUri ==> r == Some(e.targetBaseUri)
    ensures location + "/" != e.sourceBaseUri && !StartsWith(location, e.sourceBaseUri) ==> r.None?
    ensures r.Some? ==> StartsWith(r.value, e.targetBaseUri)
  {
    if location + "/" == e.sourceBaseUri then Some(e.targetBaseUri)
    else if !StartsWith(location, e.sourceBaseUri) then None
    else Some(e.targetBaseUri + Substring(location, |e.sourceBaseUri|))
  }

  /** `getFileSystem()`: the store given to the constructor. */
  function GetFileSystem(e: MappedFileSystemEntry): Store {
    e.fileSystem
  }

  /** The store of a binding is the one it was constructed with, whatever the prefixes. */
  lemma GetFileSystemOfNew(sourceBaseUri: string, targetBaseUri: string, fileSystem: Store)
    ensures GetFileSystem(NewEntry(sourceBaseUri, targetBaseUri, fileSystem)) == fileSystem
  {
  }

  /** Addresses under the source prefix keep their suffix: `map(source + rest) == target + rest`. */
  lemma MapSuffix(e: MappedFileSystemEntry, rest: string)
    ensures Map(e, e.sourceBaseUri + rest) == Some(e.targetBaseUri + rest)
  {
    var location := e.sourceBaseUri + rest;
    assert |location + "/"| > |e.sourceBaseUri|;
    assert location[..|e.sourceBaseUri|] == e.sourceBaseUri;
    assert location[|e.sourceBaseUri|..] == rest;
  }

  /** A binding maps an address exactly when it is under the source prefix or is that prefix without its slash. */
  lemma MapDefined(e: MappedFileSystemEntry, location: string)
    ensures Map(e, location).Some? <==> location + "/" == e.sourceBaseUri || StartsWith(location, e.sourceBaseUri)
  {
  }

  /** What a binding built by the constructor maps to is never empty (so never falsy). */
  lemma MapNonEmpty(e: MappedFileSystemEntry, location: string)
    requires Normal(e) && Map(e, location).Some?
    ensures Map(e, location).value != "" && EndsWithSlash(e.targetBaseUri)
  {
    assert |Map(e, location).value| >= |e.targetBaseUri| > 0;
  }
}
