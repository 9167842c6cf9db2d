/**
 * The persisted store (src/FileSystem/LocalStorageFileSystem.js): a flat dictionary
 * from exact address strings to records, written as a whole to the browser's
 * `localStorage` after every change. There is no tree: `readdir` lists nothing and
 * `file:///d` and `file:///d/` are two unrelated keys.
 */
module LocalStorageFs {
  import opened Wrappers
  import opened Strings
  import opened ErrorFactory
  import opened Bytes
  import opened FileTree
  import Base64

  /** A record: `{type: 'directory'}` or `{type: 'file', content}` with base64 content. */
  datatype Record = DirectoryRecord | FileRecord(content: string)

  type States = map<string, Record>

  /** `KEY_PREFIX`. */
  const KEY_PREFIX := "spyglassmc-browser-fs"

  /** `getKey()`: the `localStorage` item that holds the dictionary of store `id`. */
  function GetKey(id: string): (k: string)
    ensures StartsWith(k, KEY_PREFIX + "-") && k[|KEY_PREFIX| + 1..] == id
  {
    KEY_PREFIX + "-" + id
  }

  /** Distinct stores keep their dictionaries under distinct items. */
  lemma GetKeyInjective(id: string, other: string)
    requires id != other
    ensures GetKey(id) != GetKey(other)
  {
    assert GetKey(id)[|KEY_PREFIX| + 1..] == id;
    assert GetKey(other)[|KEY_PREFIX| + 1..] == other;
  }

  /** `mkdir(location)`: the new dictionary and the outcome. */
  function MkdirOf(states: States, location: string): (r: (States, Result<()>))
    ensures var key := EnsureEndingSlash(location);
      (key in states ==> r == (states, Fail(EEXIST, key))) &&
      (key !in states ==> r == (states[key := DirectoryRecord], Ok(())))
  {
    var key := EnsureEndingSlash(location);
    if key in states then (states, Fail(EEXIST, key)) else (states[key := DirectoryRecord], Ok(()))
  }

  /** `readFile(location)`: ENOENT for no record, EISDIR for a directory record. */
  function ReadFileOf(states: States, location: string): (r: Result<seq<Byte>>)
    ensures location !in states ==> r == Fail(ENOENT, location)
    ensures location in states && states[location].DirectoryRecord? ==> r == Fail(EISDIR, location)
    ensures r.Ok? ==> (location in states && states[location].FileRecord? &&
                       Base64.Decode(states[location].content) == Some(r.value))
  {
    if location !in states then Fail(ENOENT, location)
    else match states[location]
      case DirectoryRecord => Fail(EISDIR, location)
      case FileRecord(content) => Base64.DecodeOrThrow(content)
  }

  /** `stat(location)`: ENOENT for no record; otherwise the record's type. */
  function StatOf(states: States, location: string): (r: Result<Stats>)
    ensures r.Ok? <==> location in states
    ensures r.Ok? ==> r.value.isDirectory == states[location].DirectoryRecord?
    ensures r.Ok? ==> r.value.isFile == states[location].FileRecord?
    ensures r.Err? ==> r == Fail(ENOENT, location)
  {
    if location !in states then Fail(ENOENT, location)
    else Ok(Stats(states[location].DirectoryRecord?, states[location].FileRecord?))
  }

  /** `unlink(location)`: the new dictionary and the outcome. */
  function UnlinkOf(states: States, location: string): (r: (States, Result<()>))
    ensures location !in states ==> r == (states, Fail(ENOENT, location))
    ensures location in states ==> r.1.Ok? && r.0 == states - {location}
  {
    if location !in states then (states, Fail(ENOENT, location)) else (states - {location}, Ok(()))
  }

  /** The record `writeFile` stores: string data is UTF-8 encoded, then base64. */
  function FileRecordOf(data: Data): (r: Record)
    ensures r.FileRecord? && r.content == Base64.Encode(ToBytes(data))
  {
    FileRecord(Base64.Encode(ToBytes(data)))
  }

  class LocalStorageFileSystem {
    const id: string
    /** The dictionary of records, keyed by exact address strings. */
    var states: States
    /** The `localStorage` items: item key to the dictionary stored under it. */
    ghost var storage: map<string, States>

    /** `constructor(id)`: the dictionary saved under `getKey()`, or an empty one. */
    constructor(id: string, storage: map<string, States>)
      ensures this.id == id && this.storage == storage
      ensures GetKey(id) in storage ==> states == storage[GetKey(id)]
      ensures GetKey(id) !in storage ==> states == map[]
    {
      this.id := id;
      this.storage := storage;
      var key := GetKey(id);
      states := if key in storage then storage[key] else map[];
    }

    /** `saveStates()`: the whole dictionary is written under this store's item. */
    method SaveStates()
      modifies this
      ensures states == old(states) && storage == old(storage)[GetKey(id) := states]
    {
      storage := storage[GetKey(id) := states];
    }

    /** `chmod`: does nothing and never fails. */
    method Chmod(location: string, mode: int) returns (r: Result<()>)
      ensures r.Ok?
    {
      return Ok(());
    }

    /** `mkdir(location)`. */
    method Mkdir(location: string) returns (r: Result<()>)
      modifies this
      ensures (states, r) == MkdirOf(old(states), location)
      ensures r.Ok? ==> storage == old(storage)[GetKey(id) := states]
      ensures r.Err? ==> storage == old(storage)
    {
      var key := EnsureEndingSlash(location);
      if key in states {
        return Fail(EEXIST, key);
      }
      states := states[key := DirectoryRecord];
      SaveStates();
      return Ok(());
    }

    /** `readdir`: not implemented by the store; always an empty list. */
    method Readdir(location: string) returns (r: Result<seq<Dirent>>)
      ensures r == Ok([])
    {
      return Ok([]);
    }

    /** `readFile(location)`. */
    method ReadFile(location: string) returns (r: Result<seq<Byte>>)
      ensures r == ReadFileOf(states, location)
    {
      if location !in states {
        return Fail(ENOENT, location);
      }
      var entry := states[location];
      if entry.DirectoryRecord? {
        return Fail(EISDIR, location);
      }
      return Base64.DecodeOrThrow(entry.content);
    }

    /** `stat(location)`. */
    method Stat(location: string) returns (r: Result<Stats>)
      ensures r == StatOf(states, location)
    {
      if location !in states {
        return Fail(ENOENT, location);
      }
      var entry := states[location];
      return Ok(Stats(entry.DirectoryRecord?, entry.FileRecord?));
    }

    /** `unlink(location)`. */
    method Unlink(location: string) returns (r: Result<()>)
      modifies this
      ensures (states, r) == UnlinkOf(old(states), location)
      ensures r.Ok? ==> storage == old(storage)[GetKey(id) := states]
      ensures r.Err? ==> storage == old(storage)
    {
      if location !in states {
        return Fail(ENOENT, location);
      }
      states := states - {location};
      SaveStates();
      return Ok(());
    }

    /** `writeFile(location, data)`: always succeeds, replacing any record. */
    method WriteFile(location: string, data: Data) returns (r: Result<()>)
      modifies this
      ensures r.Ok? && states == old(states)[location := FileRecordOf(data)]
      ensures storage == old(storage)[GetKey(id) := states]
    {
      var bytes := ToBytes(data);
      var content := Base64.Encode(bytes);
      states := states[location := FileRecord(content)];
      SaveStates();
      return Ok(());
    }
  }

  /** A written payload is read back as its bytes (UTF-8 for a string). */
  lemma WriteThenRead(states: States, location: string, data: Data)
    ensures ReadFileOf(states[location := FileRecordOf(data)], location) == Ok(ToBytes(data))
  {
    Base64.DecodeEncode(ToBytes(data));
  }

  /** Writing over a directory record turns it into a file. */
  lemma WriteOverDirectory(states: States, location: string, data: Data)
    requires location in states && states[location].DirectoryRecord?
    ensures StatOf(states[location := FileRecordOf(data)], location) == Ok(Stats(false, true))
  {
  }

  /**
   * Keys are exact: after `mkdir("…/d")` the record is under `"…/d/"`, so `stat`
   * of `"…/d"` still fails when there was no record under it.
   */
  lemma MkdirKeyHasSlash(states: States, location: string)
    requires !EndsWithSlash(location) && location !in states && location + "/" !in states
    ensures var after := MkdirOf(states, location).0;
      StatOf(after, location) == Fail(ENOENT, location) &&
      StatOf(after, location + "/") == Ok(Stats(true, false))
  {
    assert location != location + "/" by { assert |location| != |location + "/"|; }
  }

  /** `unlink` removes only its own key. */
  lemma UnlinkKeepsOthers(states: States, location: string, other: string)
    requires other != location
    ensures StatOf(UnlinkOf(states, location).0, other) == StatOf(states, other)
    ensures ReadFileOf(UnlinkOf(states, location).0, other) == ReadFileOf(states, other)
  {
  }

  /** A second `mkdir` of the same directory fails with EEXIST and changes nothing. */
  lemma MkdirTwice(states: States, location: string)
    ensures var once := MkdirOf(states, location).0;
      MkdirOf(once, location) == (once, Fail(EEXIST, EnsureEndingSlash(location)))
  {
  }
}
