/**
 * The router (src/FileSystem/MappedFileSystem.js): an ordered list of bindings.
 * Every operation rewrites its address with the first binding that maps it and
 * hands the call to that binding's store; an address no binding maps is refused
 * with EACCES.
 */
module MappedFs {
  import opened Wrappers
  import opened Strings
  import opened ErrorFactory
  import opened Bytes
  import opened FileTree
  import opened MappedEntry
  import MemoryFs
  import JsonFs
  import LocalStorageFs
  import FsaFs
  import Watcher

  /** The target prefix `mount` uses when none is given. */
  const DEFAULT_TARGET := "file:///"

  /** The message `showFile` always throws. */
  const NO_SHOW_FILE := Error("Error", "showFile not supported on browser")

  /** `if (mapped)`: a binding is taken only when it maps the address to a non-empty string. */
  predicate Maps(e: MappedFileSystemEntry, location: string) {
    Map(e, location).Some? && Map(e, location).value != ""
  }

  /** `findFileSystem(location)`: the store and address of the first binding that maps it. */
  function Route(bindings: seq<MappedFileSystemEntry>, location: string): (r: Result<(Store, string)>)
    ensures r.Err? ==> r == Fail(EACCES, location)
    decreases |bindings|
  {
    if |bindings| == 0 then Fail(EACCES, location)
    else if Maps(bindings[0], location) then Ok((bindings[0].fileSystem, Map(bindings[0], location).value))
    else Route(bindings[1..], location)
  }

  /** The bindings left after `umount(sourceBaseUri)`, in their order. */
  function Without(bindings: seq<MappedFileSystemEntry>, sourceBaseUri: string): (r: seq<MappedFileSystemEntry>)
    ensures |r| <= |bindings|
    ensures forall i :: 0 <= i < |r| ==> r[i].sourceBaseUri != sourceBaseUri && r[i] in bindings
    ensures forall e :: e in bindings && e.sourceBaseUri != sourceBaseUri ==> e in r
    decreases |bindings|
  {
    if |bindings| == 0 then []
    else if bindings[0].sourceBaseUri == sourceBaseUri then Without(bindings[1..], sourceBaseUri)
    else [bindings[0]] + Without(bindings[1..], sourceBaseUri)
  }

  /** What `readdir` of a tree-shaped store answers for the entry it found. */
  ghost predicate ListingOf<F>(found: Result<Tree<F>>, location: string, r: Result<seq<Dirent>>) {
    match found
    case Err(e) => r == Err(e)
    case Ok(entry) => if entry.Leaf? then r == Fail(ENOTDIR, location) else r.Ok? && Lists(entry, r.value)
  }

  /** All stores the bindings refer to. */
  function StoreObjects(bindings: seq<MappedFileSystemEntry>): set<object> {
    set i | 0 <= i < |bindings| :: ObjectOf(bindings[i].fileSystem)
  }

  /** The invariant a store keeps: the tree-shaped ones have a directory at the root. */
  ghost predicate StoreValid(s: Store)
    reads ObjectOf(s)
  {
    match s
    case MemoryStore(m) => m.Valid()
    case FsaStore(f) => f.Valid()
    case _ => true
  }

  /** `mkdir` of `mapped` on store `fs`, called without options, answered `r`. */
  twostate predicate Made(new fs: Store, mapped: string, new r: Result<()>)
    reads ObjectOf(fs)
  {
    match fs
    case MemoryStore(m) => old(allocated(m)) && old(m.root).Node? && (m.root, r) == MemoryFs.MkdirSpec(old(m.root), mapped, None)
    case JsonStore(j) => r == j.Mkdir(mapped)
    case LocalStorageStore(l) => old(allocated(l)) && (l.states, r) == LocalStorageFs.MkdirOf(old(l.states), mapped)
    case FsaStore(f) => old(allocated(f)) && old(f.root).Node? && (f.root, r) == FsaFs.MkdirSpec(old(f.root), mapped)
  }

  /** `unlink` of `mapped` on store `fs` answered `r`. */
  twostate predicate Unlinked(new fs: Store, mapped: string, new r: Result<()>)
    reads ObjectOf(fs)
  {
    match fs
    case MemoryStore(m) => old(allocated(m)) && old(m.root).Node? && (m.root, r) == MemoryFs.UnlinkSpec(old(m.root), mapped)
    case JsonStore(j) => r == j.Unlink(mapped)
    case LocalStorageStore(l) => old(allocated(l)) && (l.states, r) == LocalStorageFs.UnlinkOf(old(l.states), mapped)
    case FsaStore(f) => old(allocated(f)) && old(f.root).Node? && (f.root, r) == FsaFs.UnlinkSpec(old(f.root), mapped)
  }

  /** `writeFile` of `data` at `mapped` on store `fs` answered `r`. */
  twostate predicate Written(new fs: Store, mapped: string, data: Data, new r: Result<()>)
    reads ObjectOf(fs)
  {
    match fs
    case MemoryStore(m) => old(allocated(m)) && old(m.root).Node? && (m.root, r) == MemoryFs.WriteFileSpec(old(m.root), mapped, data)
    case JsonStore(j) => r == j.WriteFile(mapped, data)
    case LocalStorageStore(l) => old(allocated(l)) && r.Ok? && l.states == old(l.states)[mapped := LocalStorageFs.FileRecordOf(data)]
    case FsaStore(f) => old(allocated(f)) && old(f.root).Node? && (f.root, r) == FsaFs.WriteFileSpec(old(f.root), mapped, data)
  }

  /** Every store the bindings refer to keeps its invariant. */
  ghost predicate AllValid(bindings: seq<MappedFileSystemEntry>)
    reads StoreObjects(bindings)
  {
    forall i :: 0 <= i < |bindings| ==> StoreValid(bindings[i].fileSystem)
  }

  /** `fs.mkdir(mapped)`, on whichever store `fs` is. */
  method MkdirOn(fs: Store, mapped: string, ghost bindings: seq<MappedFileSystemEntry>) returns (r: Result<()>)
    requires AllValid(bindings) && ObjectOf(fs) in StoreObjects(bindings) && StoreValid(fs)
    modifies ObjectOf(fs)
    ensures AllValid(bindings) && Made(fs, mapped, r)
  {
    match fs {
      case MemoryStore(m) => r := m.Mkdir(mapped, None);
      case JsonStore(j) => r := j.Mkdir(mapped);
      case LocalStorageStore(l) => r := l.Mkdir(mapped);
      case FsaStore(f) => r := f.Mkdir(mapped);
    }
    forall i | 0 <= i < |bindings|
      ensures StoreValid(bindings[i].fileSystem)
    {
      var other := bindings[i].fileSystem;
      if ObjectOf(other) == ObjectOf(fs) {
        ObjectOfInjective(other, fs);
      }
    }
  }

  /** `fs.unlink(mapped)`. */
  method UnlinkOn(fs: Store, mapped: string, ghost bindings: seq<MappedFileSystemEntry>) returns (r: Result<()>)
    requires AllValid(bindings) && ObjectOf(fs) in StoreObjects(bindings) && StoreValid(fs)
    modifies ObjectOf(fs)
    ensures AllValid(bindings) && Unlinked(fs, mapped, r)
  {
    match fs {
      case MemoryStore(m) => r := m.Unlink(mapped);
      case JsonStore(j) => r := j.Unlink(mapped);
      case LocalStorageStore(l) => r := l.Unlink(mapped);
      case FsaStore(f) => r := f.Unlink(mapped);
    }
    forall i | 0 <= i < |bindings|
      ensures StoreValid(bindings[i].fileSystem)
    {
      var other := bindings[i].fileSystem;
      if ObjectOf(other) == ObjectOf(fs) {
        ObjectOfInjective(other, fs);
      }
    }
  }

  /** `fs.writeFile(mapped, data)`. */
  method WriteFileOn(fs: Store, mapped: string, data: Data, ghost bindings: seq<MappedFileSystemEntry>) returns (r: Result<()>)
    requires AllValid(bindings) && ObjectOf(fs) in StoreObjects(bindings) && StoreValid(fs)
    modifies ObjectOf(fs)
    ensures AllValid(bindings) && Written(fs, mapped, data, r)
  {
    match fs {
      case MemoryStore(m) => r := m.WriteFile(mapped, data);
      case JsonStore(j) => r := j.WriteFile(mapped, data);
      case LocalStorageStore(l) => r := l.WriteFile(mapped, data);
      case FsaStore(f) => r := f.WriteFile(mapped, data);
    }
    forall i | 0 <= i < |bindings|
      ensures StoreValid(bindings[i].fileSystem)
    {
      var other := bindings[i].fileSystem;
      if ObjectOf(other) == ObjectOf(fs) {
        ObjectOfInjective(other, fs);
      }
    }
  }

  class MappedFileSystem {
    var fileSystems: seq<MappedFileSystemEntry>

    ghost function Objects(): set<object>
      reads this
    {
      StoreObjects(fileSystems)
    }

    /** The store a call on `location` may change: the one the router picks, if any. */
    ghost function Target(location: string): set<object>
      reads this
    {
      if Route(fileSystems, location).Ok? then {ObjectOf(Route(fileSystems, location).value.0)} else {}
    }

    ghost predicate Valid()
      reads this, Objects()
    {
      AllValid(fileSystems)
    }

    constructor(fileSystems: seq<MappedFileSystemEntry>)
      ensures this.fileSystems == fileSystems
    {
      this.fileSystems := fileSystems;
    }

    /** `mount(source, fileSystem, target)`: one binding more, at the end; returns the router. */
    method Mount(sourceBaseUri: string, fileSystem: Store, targetBaseUri: string) returns (self: MappedFileSystem)
      modifies this
      ensures self == this
      ensures fileSystems == old(fileSystems) + [NewEntry(sourceBaseUri, targetBaseUri, fileSystem)]
    {
      fileSystems := fileSystems + [NewEntry(sourceBaseUri, targetBaseUri, fileSystem)];
      return this;
    }

    /** `umount(source)`: drops every binding whose stored source prefix is `source`. */
    method Umount(sourceBaseUri: string) returns (self: MappedFileSystem)
      modifies this
      ensures self == this
      ensures fileSystems == Without(old(fileSystems), sourceBaseUri)
    {
      fileSystems := Without(fileSystems, sourceBaseUri);
      return this;
    }

    /** `findFileSystem(location)`: the loop over the bindings in order. */
    method FindFileSystem(location: string) returns (r: Result<(Store, string)>)
      ensures r == Route(fileSystems, location)
    {
      var i := 0;
      while i < |fileSystems|
        invariant 0 <= i <= |fileSystems|
        invariant Route(fileSystems, location) == Route(fileSystems[i..], location)
      {
        assert fileSystems[i..][1..] == fileSystems[i + 1..];
        var entry := fileSystems[i];
        var mapped := Map(entry, location);
        if mapped.Some? && mapped.value != "" {
          return Ok((GetFileSystem(entry), mapped.value));
        }
        i := i + 1;
      }
      return Fail(EACCES, location);
    }

    /** `chmod`: forwarded; every store accepts it except the read-only snapshot. */
    method Chmod(location: string, mode: int) returns (r: Result<()>)
      ensures Route(fileSystems, location).Err? ==> r == Fail(EACCES, location)
      ensures Route(fileSystems, location).Ok? ==>
        (r.Ok? <==> !Route(fileSystems, location).value.0.JsonStore?)
      ensures Route(fileSystems, location).Ok? && Route(fileSystems, location).value.0.JsonStore? ==>
        r == Err(JsonFs.NOT_PERMITTED)
    {
      var found := FindFileSystem(location);
      if found.Err? {
        return Err(found.error);
      }
      var (fs, mapped) := found.value;
      match fs
      case MemoryStore(m) => r := m.Chmod(mapped, mode);
      case JsonStore(j) => r := j.Chmod(mapped, mode);
      case LocalStorageStore(l) => r := l.Chmod(mapped, mode);
      case FsaStore(f) => r := f.Chmod(mapped, mode);
    }

    /** `mkdir(location, _options)`: the options are ignored and only the address is forwarded, so the memory store sees none. */
    method Mkdir(location: string) returns (r: Result<()>)
      requires Valid()
      modifies Target(location)
      ensures Valid()
      ensures Route(fileSystems, location).Err? ==> r == Fail(EACCES, location)
      ensures Route(old(fileSystems), location).Ok? ==>
        var (fs, mapped) := Route(old(fileSystems), location).value;
        Made(fs, mapped, r)
    {
      var found := FindFileSystem(location);
      if found.Err? {
        return Err(found.error);
      }
      var (fs, mapped) := found.value;
      assert ObjectOf(fs) in Objects() && StoreValid(fs) by {
        RouteChoice(fileSystems, location);
      }
      NotRouter(fs, this);
      r := MkdirOn(fs, mapped, fileSystems);
    }

    /** `readdir`: forwarded. */
    method Readdir(location: string) returns (r: Result<seq<Dirent>>)
      requires Valid()
      ensures Route(fileSystems, location).Err? ==> r == Fail(EACCES, location)
      ensures Route(fileSystems, location).Ok? ==>
        var (fs, mapped) := Route(fileSystems, location).value;
        match fs
        case MemoryStore(m) => ListingOf(MemoryFs.Find(m.root, mapped, false), mapped, r)
        case JsonStore(j) => ListingOf(JsonFs.Find(j.entries, mapped), mapped, r)
        case LocalStorageStore(l) => r == Ok([])
        case FsaStore(f) => f.root.Node? && ListingOf(FsaFs.Resolve(f.root, mapped, false), mapped, r)
    {
      var found := FindFileSystem(location);
      if found.Err? {
        return Err(found.error);
      }
      var (fs, mapped) := found.value;
      assert StoreValid(fs) by {
        RouteChoice(fileSystems, location);
      }
      match fs
      case MemoryStore(m) => r := m.Readdir(mapped);
      case JsonStore(j) => r := j.Readdir(mapped);
      case LocalStorageStore(l) => r := l.Readdir(mapped);
      case FsaStore(f) =>
        r := f.Readdir(mapped);
    }

    /** `readFile`: forwarded; the stores that hold bytes answer bytes. */
    method ReadFile(location: string) returns (r: Result<Data>)
      requires Valid()
      ensures Route(fileSystems, location).Err? ==> r == Fail(EACCES, location)
      ensures Route(fileSystems, location).Ok? ==>
        var (fs, mapped) := Route(fileSystems, location).value;
        match fs
        case MemoryStore(m) => r == MemoryFs.ReadFileSpec(m.root, mapped)
        case JsonStore(j) => r == AsData(j.ReadFile(mapped))
        case LocalStorageStore(l) => r == AsData(LocalStorageFs.ReadFileOf(l.states, mapped))
        case FsaStore(f) => f.root.Node? && r == AsData(FsaFs.ReadFileSpec(f.root, mapped))
    {
      var found := FindFileSystem(location);
      if found.Err? {
        return Err(found.error);
      }
      var (fs, mapped) := found.value;
      assert StoreValid(fs) by {
        RouteChoice(fileSystems, location);
      }
      match fs
      case MemoryStore(m) => r := m.ReadFile(mapped);
      case JsonStore(j) => r := AsData(j.ReadFile(mapped));
      case LocalStorageStore(l) =>
        var bytes := l.ReadFile(mapped);
        r := AsData(bytes);
      case FsaStore(f) =>
        var bytes := f.ReadFile(mapped);
        r := AsData(bytes);
    }

    /** `stat`: forwarded. */
    method Stat(location: string) returns (r: Result<Stats>)
      requires Valid()
      ensures Route(fileSystems, location).Err? ==> r == Fail(EACCES, location)
      ensures Route(fileSystems, location).Ok? ==>
        var (fs, mapped) := Route(fileSystems, location).value;
        match fs
        case MemoryStore(m) => r == MemoryFs.StatSpec(m.root, mapped)
        case JsonStore(j) => r == j.Stat(mapped)
        case LocalStorageStore(l) => r == LocalStorageFs.StatOf(l.states, mapped)
        case FsaStore(f) => f.root.Node? && r == FsaFs.StatSpec(f.root, mapped)
    {
      var found := FindFileSystem(location);
      if found.Err? {
        return Err(found.error);
      }
      var (fs, mapped) := found.value;
      assert StoreValid(fs) by {
        RouteChoice(fileSystems, location);
      }
      match fs
      case MemoryStore(m) => r := m.Stat(mapped);
      case JsonStore(j) => r := j.Stat(mapped);
      case LocalStorageStore(l) => r := l.Stat(mapped);
      case FsaStore(f) =>
        r := f.Stat(mapped);
    }

    /** `unlink`: forwarded. */
    method Unlink(location: string) returns (r: Result<()>)
      requires Valid()
      modifies Target(location)
      ensures Valid()
      ensures Route(fileSystems, location).Err? ==> r == Fail(EACCES, location)
      ensures Route(old(fileSystems), location).Ok? ==>
        var (fs, mapped) := Route(old(fileSystems), location).value;
        Unlinked(fs, mapped, r)
    {
      var found := FindFileSystem(location);
      if found.Err? {
        return Err(found.error);
      }
      var (fs, mapped) := found.value;
      assert ObjectOf(fs) in Objects() && StoreValid(fs) by {
        RouteChoice(fileSystems, location);
      }
      NotRouter(fs, this);
      r := UnlinkOn(fs, mapped, fileSystems);
    }

    /** `writeFile`: forwarded. */
    method WriteFile(location: string, data: Data) returns (r: Result<()>)
      requires Valid()
      modifies Target(location)
      ensures Valid()
      ensures Route(fileSystems, location).Err? ==> r == Fail(EACCES, location)
      ensures Route(old(fileSystems), location).Ok? ==>
        var (fs, mapped) := Route(old(fileSystems), location).value;
        Written(fs, mapped, data, r)
    {
      var found := FindFileSystem(location);
      if found.Err? {
        return Err(found.error);
      }
      var (fs, mapped) := found.value;
      assert ObjectOf(fs) in Objects() && StoreValid(fs) by {
        RouteChoice(fileSystems, location);
      }
      NotRouter(fs, this);
      r := WriteFileOn(fs, mapped, data, fileSystems);
    }

    /** `watch(locations)`: a fresh no-op watcher; the bindings are not consulted. */
    function Watch(locations: seq<string>): (w: Watcher.DummyFsWatcher)
      ensures w == Watcher.DummyFsWatcher
    {
      Watcher.DummyFsWatcher
    }

    /** `showFile(path)`: always refused. */
    function ShowFile(path: string): (r: Result<()>)
      ensures r == Err(NO_SHOW_FILE)
    {
      Err(NO_SHOW_FILE)
    }
  }

  /** The bytes a store answered, as the router's result. */
  function AsData(r: Result<seq<Byte>>): (d: Result<Data>)
    ensures d.Ok? <==> r.Ok?
    ensures d.Ok? ==> d.value == Binary(r.value)
    ensures d.Err? ==> d.error == r.error
  {
    match r
    case Ok(bytes) => Ok(Binary(bytes))
    case Err(e) => Err(e)
  }

  /** A store is never the router itself. */
  lemma NotRouter(fs: Store, router: MappedFileSystem)
    ensures ObjectOf(fs) != router
  {
    match fs
    case MemoryStore(m) =>
    case JsonStore(j) =>
    case LocalStorageStore(l) =>
    case FsaStore(f) =>
  }

  /** Two store references to the same object are the same store. */
  lemma ObjectOfInjective(a: Store, b: Store)
    requires ObjectOf(a) == ObjectOf(b)
    ensures a == b
  {
    match a
    case MemoryStore(m) =>
    case JsonStore(j) =>
    case LocalStorageStore(l) =>
    case FsaStore(f) =>
  }

  /** The binding the router takes is one of its bindings. */
  lemma {:induction false} RouteChoice(bindings: seq<MappedFileSystemEntry>, location: string)
    requires Route(bindings, location).Ok?
    ensures exists i :: 0 <= i < |bindings| && bindings[i].fileSystem == Route(bindings, location).value.0
    ensures ObjectOf(Route(bindings, location).value.0) in StoreObjects(bindings)
    decreases |bindings|
  {
    if !Maps(bindings[0], location) {
      RouteChoice(bindings[1..], location);
      var i :| 0 <= i < |bindings[1..]| && bindings[1..][i].fileSystem == Route(bindings, location).value.0;
      assert bindings[i + 1].fileSystem == Route(bindings, location).value.0;
    } else {
      assert bindings[0].fileSystem == Route(bindings, location).value.0;
    }
  }
}
