/**
 * The snapshot builder (build.js): `insertFile` threads a path of keys into a
 * nested object, creating objects on the way, and `buildDependency` inserts the
 * base64 text of every file entry of an archive. The object the source updates in
 * place is the tree these members take and return.
 */
module Build {
  import opened Strings
  import opened ErrorFactory
  import opened Bytes
  import opened FileTree
  import Base64
  import JsonFs

  type Snapshot = Tree<string>

  /** Whether `!value` is false in JavaScript: every object, and every non-empty string. */
  predicate Truthy(value: Snapshot) {
    value.Node? || value.content != ""
  }

  /** What a strict-mode assignment of `key` on the string `text` throws. */
  function CannotCreate(key: string, text: string): (e: Thrown)
    ensures e.Error? && e.name == "TypeError"
  {
    Error("TypeError", "Cannot create property '" + key + "' on string '" + text + "'")
  }

  /**
   * The loop of `insertFile` over the directory keys `dirs`: missing and falsy
   * values become `{}`, objects are reused, and the cursor may end on a non-empty
   * string, onto which the next assignment fails.
   */
  function Descend(t: Snapshot, dirs: seq<string>): (r: (Snapshot, Result<()>))
    requires t.Node?
    ensures r.0.Node?
    ensures r.1.Ok? ==> Walk(r.0, dirs).Found? && Truthy(Walk(r.0, dirs).entry)
    decreases |dirs|
  {
    if |dirs| == 0 then (t, Ok(()))
    else
      var p, x := dirs[..|dirs| - 1], dirs[|dirs| - 1];
      assert dirs == p + [x];
      var made := Descend(t, p);
      WalkSnoc(made.0, p, x);
      if made.1.Err? || x == "" then made
      else
        var current := Walk(made.0, p).entry;
        if current.Leaf? then (made.0, Err(CannotCreate(x, current.content)))
        else if x in current.children && Truthy(current.children[x]) then made
        else
          PutThenWalk(made.0, p, x, EmptyDirectory<string>());
          (Put(made.0, p, x, EmptyDirectory()), Ok(()))
  }

  /** `insertFile(object, path, content)`: the updated object and the outcome. */
  function Insert(t: Snapshot, path: string, content: string): (r: (Snapshot, Result<()>))
    requires t.Node?
    ensures r.0.Node?
  {
    var parts := Split(path, '/');
    var dirs, name := parts[..|parts| - 1], parts[|parts| - 1];
    var made := Descend(t, dirs);
    if made.1.Err? then made
    else
      var current := Walk(made.0, dirs).entry;
      if current.Leaf? then (made.0, Err(CannotCreate(name, current.content)))
      else (Put(made.0, dirs, name, Leaf(content)), Ok(()))
  }

  /** `insertFile`: walks `current` down the keys, then assigns the last one. */
  method InsertFile(target: Snapshot, path: string, content: string) returns (result: Snapshot, r: Result<()>)
    requires target.Node?
    ensures (result, r) == Insert(target, path, content)
  {
    var parts := Split(path, '/');
    var dirs := parts[..|parts| - 1];
    result := target;
    var current := target;
    var i := 0;
    while i < |dirs|
      invariant 0 <= i <= |dirs|
      invariant Descend(target, dirs[..i]) == (result, Ok(()))
      invariant result.Node? && Walk(result, dirs[..i]) == Found(current) && Truthy(current)
    {
      var part := dirs[i];
      assert dirs[..i + 1] == dirs[..i] + [part];
      DescendSnocCases(target, dirs[..i], part, result, current);
      if part == "" {
        i := i + 1;
        continue;
      }
      if current.Leaf? {
        DescendStops(target, dirs[..i + 1], dirs[i + 1..]);
        assert dirs[..i + 1] + dirs[i + 1..] == dirs;
        return result, Err(CannotCreate(part, current.content));
      }
      if !(part in current.children && Truthy(current.children[part])) {
        result := Put(result, dirs[..i], part, EmptyDirectory());
        current := EmptyDirectory();
      } else {
        current := current.children[part];
      }
      i := i + 1;
    }
    assert dirs[..i] == dirs;
    var name := parts[|parts| - 1];
    if current.Leaf? {
      return result, Err(CannotCreate(name, current.content));
    }
    result := Put(result, dirs, name, Leaf(content));
    r := Ok(());
  }

  /** What one more key does to the object and the cursor, when the keys before it succeeded. */
  lemma DescendSnocCases(t: Snapshot, p: seq<string>, part: string, result: Snapshot, current: Snapshot)
    requires t.Node?
    requires Descend(t, p) == (result, Ok(()))
    requires result.Node? && Walk(result, p) == Found(current) && Truthy(current)
    ensures part == "" ==> Descend(t, p + [part]) == (result, Ok(())) && Walk(result, p + [part]) == Found(current)
    ensures part != "" && current.Leaf? ==> Descend(t, p + [part]) == (result, Err(CannotCreate(part, current.content)))
    ensures part != "" && current.Node? && part in current.children && Truthy(current.children[part]) ==>
      Descend(t, p + [part]) == (result, Ok(())) && Walk(result, p + [part]) == Found(current.children[part])
    ensures part != "" && current.Node? && !(part in current.children && Truthy(current.children[part])) ==>
      Descend(t, p + [part]) == (Put(result, p, part, EmptyDirectory()), Ok(())) &&
      Walk(Put(result, p, part, EmptyDirectory()), p + [part]) == Found(EmptyDirectory())
  {
    var dirs := p + [part];
    assert dirs[..|dirs| - 1] == p && dirs[|dirs| - 1] == part;
    WalkSnoc(result, p, part);
    if part != "" && current.Node? && !(part in current.children && Truthy(current.children[part])) {
      PutThenWalk(result, p, part, EmptyDirectory<string>());
    }
  }

  /** Once an assignment has failed, the remaining keys change nothing. */
  lemma {:induction false} DescendStops(t: Snapshot, p: seq<string>, q: seq<string>)
    requires t.Node? && Descend(t, p).1.Err?
    ensures Descend(t, p + q) == Descend(t, p)
    decreases |q|
  {
    if |q| > 0 {
      var q' := q[..|q| - 1];
      DescendStops(t, p, q');
      assert (p + q)[..|p + q| - 1] == p + q';
    } else {
      assert p + q == p;
    }
  }

  /** Existing objects along the keys are reused: nothing changes. */
  lemma {:induction false} DescendReuses(t: Snapshot, dirs: seq<string>)
    requires t.Node? && Walk(t, dirs).Found? && Walk(t, dirs).entry.Node?
    ensures Descend(t, dirs) == (t, Ok(()))
    decreases |dirs|
  {
    if |dirs| > 0 {
      var p, x := dirs[..|dirs| - 1], dirs[|dirs| - 1];
      assert dirs == p + [x];
      WalkSnoc(t, p, x);
      DescendReuses(t, p);
    }
  }

  /** Missing keys along the way become objects; the last one is new and empty. */
  lemma {:induction false} DescendCreates(t: Snapshot, dirs: seq<string>)
    requires t.Node? && Walk(t, dirs).Missing?
    ensures Descend(t, dirs).1.Ok?
    ensures Walk(Descend(t, dirs).0, dirs) == Found(EmptyDirectory())
    decreases |dirs|
  {
    var p, x := dirs[..|dirs| - 1], dirs[|dirs| - 1];
    assert dirs == p + [x];
    WalkSnoc(t, p, x);
    var made := Descend(t, p);
    WalkSnoc(made.0, p, x);
    if Walk(t, p).Found? {
      DescendReuses(t, p);
      PutThenWalk(made.0, p, x, EmptyDirectory<string>());
    } else {
      DescendCreates(t, p);
      if x != "" {
        PutThenWalk(made.0, p, x, EmptyDirectory<string>());
      }
    }
  }

  /**
   * Inserting at a path whose directories are objects or absent puts the content
   * under the last key of the innermost target, which otherwise keeps its keys.
   */
  lemma InsertPlaces(t: Snapshot, path: string, content: string)
    requires t.Node?
    requires var parts := Split(path, '/'); var w := Walk(t, parts[..|parts| - 1]);
      w.Missing? || (w.Found? && w.entry.Node?)
    ensures var parts := Split(path, '/');
      var dirs, name := parts[..|parts| - 1], parts[|parts| - 1];
      var w := Walk(t, dirs);
      var r := Insert(t, path, content);
      && r.1.Ok?
      && (w.Missing? ==> Walk(r.0, dirs) == Found(Node(map[name := Leaf(content)])))
      && (w.Found? ==> Walk(r.0, dirs) == Found(Node(w.entry.children[name := Leaf(content)])))
  {
    var parts := Split(path, '/');
    var dirs := parts[..|parts| - 1];
    if Walk(t, dirs).Missing? {
      DescendCreates(t, dirs);
    } else {
      DescendReuses(t, dirs);
    }
  }

  /**
   * The snapshot store finds what was inserted: after `insertFile(o, p, c)` on a
   * path without empty keys and without a string on the way, `file:///p` is `c`.
   */
  lemma InsertThenFind(t: Snapshot, path: string, content: string)
    requires t.Node?
    requires forall i :: 0 <= i < |Split(path, '/')| ==> Split(path, '/')[i] != ""
    requires var parts := Split(path, '/'); var w := Walk(t, parts[..|parts| - 1]);
      w.Missing? || (w.Found? && w.entry.Node?)
    ensures JsonFs.Find(Insert(t, path, content).0, JsonFs.BASE_URI + path) == Ok(Leaf(content))
  {
    var parts := Split(path, '/');
    var dirs, name := parts[..|parts| - 1], parts[|parts| - 1];
    InsertPlaces(t, path, content);
    var location := JsonFs.BASE_URI + path;
    assert location[..|JsonFs.BASE_URI|] == JsonFs.BASE_URI;
    assert location[|JsonFs.BASE_URI|..] == path;
    assert parts == dirs + [name];
    WalkSnoc(Insert(t, path, content).0, dirs, name);
  }

  /** So the snapshot store reads back the bytes whose base64 text was inserted. */
  lemma InsertThenRead(fs: JsonFs.JsonFileSystem, t: Snapshot, path: string, bytes: seq<Byte>)
    requires t.Node?
    requires forall i :: 0 <= i < |Split(path, '/')| ==> Split(path, '/')[i] != ""
    requires var parts := Split(path, '/'); var w := Walk(t, parts[..|parts| - 1]);
      w.Missing? || (w.Found? && w.entry.Node?)
    requires fs.entries == Insert(t, path, Base64.Encode(bytes)).0
    ensures fs.ReadFile(JsonFs.BASE_URI + path) == Ok(bytes)
  {
    InsertThenFind(t, path, Base64.Encode(bytes));
    Base64.DecodeEncode(bytes);
  }

  // ---------------------------------------------------------------------------
  // buildDependency
  // ---------------------------------------------------------------------------

  /** One entry of a decompressed archive: its path, its type and its bytes. */
  datatype ArchiveEntry = ArchiveEntry(path: string, kind: string, data: seq<Byte>)

  /** The snapshot built from `entries`, and the outcome; a failed insertion ends the build. */
  function BuildSpec(entries: seq<ArchiveEntry>): (r: (Snapshot, Result<()>))
    ensures r.0.Node?
    decreases |entries|
  {
    if |entries| == 0 then (EmptyDirectory(), Ok(()))
    else
      var before := BuildSpec(entries[..|entries| - 1]);
      var e := entries[|entries| - 1];
      if before.1.Err? || e.kind != "file" then before
      else Insert(before.0, e.path, Base64.Encode(e.data))
  }

  /** The file entries, in order. */
  function Files(entries: seq<ArchiveEntry>): (r: seq<ArchiveEntry>)
    ensures |r| <= |entries|
    ensures forall i :: 0 <= i < |r| ==> r[i].kind == "file" && r[i] in entries
    decreases |entries|
  {
    if |entries| == 0 then []
    else
      var rest := Files(entries[..|entries| - 1]);
      if entries[|entries| - 1].kind == "file" then rest + [entries[|entries| - 1]] else rest
  }

  /** The loop of `buildDependency`: only entries of type `'file'` are inserted. */
  method BuildDependency(entries: seq<ArchiveEntry>) returns (result: Snapshot, r: Result<()>)
    ensures (result, r) == BuildSpec(entries)
  {
    result := EmptyDirectory();
    r := Ok(());
    var i := 0;
    while i < |entries|
      invariant 0 <= i <= |entries|
      invariant (result, r) == BuildSpec(entries[..i]) && r.Ok?
    {
      var entry := entries[i];
      BuildTurn(entries, i);
      if entry.kind != "file" {
        i := i + 1;
        continue;
      }
      result, r := InsertFile(result, entry.path, Base64.Encode(entry.data));
      if r.Err? {
        BuildStopsAt(entries, i + 1);
        return;
      }
      i := i + 1;
    }
    assert entries[..i] == entries;
  }

  /** One turn of the loop of `buildDependency`, after the entries before it were inserted. */
  lemma BuildTurn(entries: seq<ArchiveEntry>, i: nat)
    requires i < |entries| && BuildSpec(entries[..i]).1.Ok?
    ensures var before, e := BuildSpec(entries[..i]), entries[i];
      BuildSpec(entries[..i + 1]) == if e.kind != "file" then before else Insert(before.0, e.path, Base64.Encode(e.data))
  {
    assert entries[..i + 1][..i] == entries[..i];
  }

  /** Once an insertion has failed, later entries are not looked at. */
  lemma {:induction false} BuildStops(p: seq<ArchiveEntry>, q: seq<ArchiveEntry>)
    requires BuildSpec(p).1.Err?
    ensures BuildSpec(p + q) == BuildSpec(p)
    decreases |q|
  {
    if |q| > 0 {
      BuildStops(p, q[..|q| - 1]);
      assert (p + q)[..|p + q| - 1] == p + q[..|q| - 1];
    } else {
      assert p + q == p;
    }
  }

  /** A failed insertion at entry `i - 1` is the outcome of the whole build. */
  lemma BuildStopsAt(entries: seq<ArchiveEntry>, i: nat)
    requires i <= |entries| && BuildSpec(entries[..i]).1.Err?
    ensures BuildSpec(entries) == BuildSpec(entries[..i])
  {
    BuildStops(entries[..i], entries[i..]);
    assert entries[..i] + entries[i..] == entries;
  }

  /** Entries that are not files make no difference to the snapshot. */
  lemma {:induction false} BuildIgnoresNonFiles(entries: seq<ArchiveEntry>)
    ensures BuildSpec(entries) == BuildSpec(Files(entries))
    decreases |entries|
  {
    if |entries| > 0 {
      var p := entries[..|entries| - 1];
      BuildIgnoresNonFiles(p);
      var e := entries[|entries| - 1];
      if e.kind == "file" {
        var f := Files(p) + [e];
        assert f[..|f| - 1] == Files(p);
      }
    }
  }
}
