/**
 * What the plugin guarantees: hints and marks are well formed and follow the
 * service's ranges when nothing was edited; the initialisation and sync states
 * move only forward; and the router it builds sends the cache and root prefixes
 * to their stores ahead of every dependency, and each dependency's mount point to
 * its store, when the identifiers keep the mount points apart.
 */
module PluginProps {
  import opened Wrappers
  import opened Strings
  import opened MappedEntry
  import opened MappedFs
  import opened MappedFsProps
  import opened ErrorFactory
  import opened Dependency
  import opened PluginOptions
  import opened Decorations
  import opened RangeMapping
  import opened Plugin

  // ---------------------------------------------------------------------------
  // Hints and marks.
  // ---------------------------------------------------------------------------

  /** Every hint has `from <= to` and is an error or a warning; no error gives two hints. */
  lemma {:induction false} HintsWellFormed(changes: seq<ChangedRange>, errors: seq<LintError>)
    ensures |Hints(changes, errors)| <= |errors|
    ensures forall k :: 0 <= k < |Hints(changes, errors)| ==>
      Hints(changes, errors)[k].from <= Hints(changes, errors)[k].to &&
      Hints(changes, errors)[k].severity in {"error", "warning"}
    decreases |errors|
  {
    if |errors| > 0 {
      HintsWellFormed(changes, errors[..|errors| - 1]);
    }
  }

  /**
   * With no edits recorded, each well-formed error gives exactly one hint, in order,
   * over its own range, with its message, and an error exactly when its severity is 3.
   */
  lemma {:induction false} HintsUnedited(errors: seq<LintError>)
    requires forall i :: 0 <= i < |errors| ==> errors[i].start <= errors[i].end
    ensures |Hints([], errors)| == |errors|
    ensures forall i :: 0 <= i < |errors| ==>
      Hints([], errors)[i] == Hint(errors[i].start, errors[i].end, errors[i].message, SeverityName(errors[i].severity))
    decreases |errors|
  {
    if |errors| > 0 {
      HintsUnedited(errors[..|errors| - 1]);
    }
  }

  /** Every mark covers a non-empty range; no token gives two marks. */
  lemma {:induction false} MarksWellFormed(changes: seq<ChangedRange>, tokens: seq<ColorToken>)
    ensures |Marks(changes, tokens)| <= |tokens|
    ensures forall k :: 0 <= k < |Marks(changes, tokens)| ==> Marks(changes, tokens)[k].from < Marks(changes, tokens)[k].to
    decreases |tokens|
  {
    if |tokens| > 0 {
      MarksWellFormed(changes, tokens[..|tokens| - 1]);
    }
  }

  /** With no edits recorded, each non-empty token gives one mark of its type over its own range, in order. */
  lemma {:induction false} MarksUnedited(tokens: seq<ColorToken>)
    requires forall i :: 0 <= i < |tokens| ==> tokens[i].start < tokens[i].end
    ensures |Marks([], tokens)| == |tokens|
    ensures forall i :: 0 <= i < |tokens| ==>
      Marks([], tokens)[i] == Mark(tokens[i].start, tokens[i].end, tokens[i].tokenType)
    decreases |tokens|
  {
    if |tokens| > 0 {
      MarksUnedited(tokens[..|tokens| - 1]);
    }
  }

  /** An empty token adds nothing (`end <= start` is skipped). */
  lemma MarksSkipEmpty(changes: seq<ChangedRange>, tokens: seq<ColorToken>, t: ColorToken)
    requires MapRange(changes, (t.start, t.end)).1 <= MapRange(changes, (t.start, t.end)).0
    ensures Marks(changes, tokens + [t]) == Marks(changes, tokens)
  {
    assert (tokens + [t])[..|tokens|] == tokens;
  }

  // ---------------------------------------------------------------------------
  // Initialisation and synchronisation.
  // ---------------------------------------------------------------------------

  /** The state every operation keeps. */
  lemma ReachableKept(s: Session, u: EditorUpdate)
    requires Reachable(s)
    ensures Reachable(START)
    ensures Reachable(StartInitialize(s)) && Reachable(Update(s, u))
    ensures s.initState == Initialising ==> Reachable(InitializeDone(s))
    ensures s.syncScheduled ==> Reachable(Synced(s))
  {
  }

  /** Initialisation starts at most once; the state never goes back. */
  lemma InitializeOnce(s: Session, u: EditorUpdate)
    ensures StartInitialize(StartInitialize(s)) == StartInitialize(s)
    ensures StartInitialize(s).initState != Uninitialized
    ensures s.initState == Initialized ==> Update(s, u).initState == Initialized
    ensures s.initState == Initialising ==> Update(s, u) == s
    ensures Update(s, u).documentVersion == s.documentVersion
  {
  }

  /** Before initialisation completes an update records nothing and schedules nothing. */
  lemma NothingRecordedBeforeReady(s: Session, u: EditorUpdate)
    requires Reachable(s) && s.initState != Initialized
    ensures Update(s, u).changedRanges == [] && !Update(s, u).syncScheduled
  {
  }

  /**
   * Two recorded updates move a range as the older record, then the first update's
   * changes, then the second's.
   */
  lemma UpdatesCompose(s: Session, u1: EditorUpdate, u2: EditorUpdate, range: Range)
    requires s.initState == Initialized && u1.docChanged && u2.docChanged
    ensures MapRange(Update(Update(s, u1), u2).changedRanges, range) ==
      MapRange(u2.changedRanges, MapRange(u1.changedRanges, MapRange(s.changedRanges, range)))
  {
    MapRangeAppend(s.changedRanges + u1.changedRanges, u2.changedRanges, range);
    MapRangeAppend(s.changedRanges, u1.changedRanges, range);
  }

  /** After a sync the version is the next one and ranges are no longer moved. */
  lemma SyncForgets(s: Session, range: Range)
    requires s.syncScheduled
    ensures Synced(s).documentVersion == s.documentVersion + 1
    ensures MapRange(Synced(s).changedRanges, range) == range
  {
  }

  // ---------------------------------------------------------------------------
  // The project options and the router.
  // ---------------------------------------------------------------------------

  lemma {:induction false} NamesAt(deps: seq<BundledDependency>, k: nat)
    requires k < |deps|
    ensures Names(deps)[k] == DependencyName(deps[k])
    decreases |deps|
  {
    if k < |deps| - 1 {
      NamesAt(deps[..|deps| - 1], k);
    }
  }

  lemma {:induction false} RegistrationsAt(deps: seq<BundledDependency>, k: nat)
    requires k < |deps|
    ensures Registrations(deps)[k] == DependencyInitializer(Dependency.Initializer(deps[k]))
    decreases |deps|
  {
    if k < |deps| - 1 {
      RegistrationsAt(deps[..|deps| - 1], k);
    }
  }

  lemma {:induction false} DependencyBindingsAt(deps: seq<BundledDependency>, k: nat)
    requires k < |deps|
    ensures DependencyBindings(deps)[k] == NewEntry(MountPoint(deps[k]), BaseUri(deps[k]), deps[k].fileSystem)
    decreases |deps|
  {
    if k < |deps| - 1 {
      DependencyBindingsAt(deps[..|deps| - 1], k);
    }
  }

  /**
   * The service's project lists: the loaded initializers first, then one per
   * dependency in order, each registering its mount point under its key; the
   * configuration lists each dependency's key after its existing ones.
   */
  lemma ServicedLists(p: ProjectState, deps: seq<BundledDependency>, k: nat)
    requires p.initializers.Some? && k < |deps|
    ensures var q := Serviced(p, deps);
      && q.initializers.value[..|p.initializers.value|] == p.initializers.value
      && q.initializers.value[|p.initializers.value| + k] == DependencyInitializer(Registration(DependencyName(deps[k]), MountPoint(deps[k]), 0))
      && q.defaultConfig.value.dependencies[|p.defaultConfig.GetOr(VANILLA_CONFIG).dependencies| + k] == "@" + deps[k].identifier
      && q.cacheRoot == Some(CACHE_URI) && q.projectRoots == Some([ROOT_URI])
  {
    NamesAt(deps, k);
    RegistrationsAt(deps, k);
  }

  predicate SlashFree(s: string) {
    forall k :: 0 <= k < |s| ==> s[k] != '/'
  }

  /**
   * Mount points of different slash-free names share no address: nothing under
   * one is under the other, or is the other without its slash.
   */
  lemma MountPointsApart(a: string, b: string, rest: string)
    requires SlashFree(a) && SlashFree(b) && a != b
    ensures !StartsWith("file:///" + a + "/" + rest, "file:///" + b + "/")
    ensures "file:///" + a + "/" + rest + "/" != "file:///" + b + "/"
  {
    var l := "file:///" + a + "/" + rest;
    var p := "file:///" + b + "/";
    assert l[8..8 + |a|] == a && l[8 + |a|] == '/';
    assert p[8..8 + |b|] == b && p[8 + |b|] == '/';
  }

  /** The binding of a mount point under `name` does not take an address under another name's mount point. */
  lemma NotTaken(name: string, other: string, target: string, fs: Store, rest: string)
    requires SlashFree(name) && SlashFree(other) && name != other
    ensures !Maps(NewEntry("file:///" + other + "/", target, fs), "file:///" + name + "/" + rest)
  {
    MountPointsApart(name, other, rest);
    assert EndsWithSlash("file:///" + other + "/");
  }

  /** The two fixed prefixes are mount points of slash-free names, and bind as given. */
  lemma FixedPrefixes(cache: Store, root: Store)
    ensures CACHE_URI == "file:///" + "cache" + "/" && ROOT_URI == "file:///" + "root" + "/"
    ensures SlashFree("cache") && SlashFree("root")
    ensures NewEntry(CACHE_URI, DEFAULT_TARGET, cache) == MappedFileSystemEntry(CACHE_URI, DEFAULT_TARGET, cache)
    ensures NewEntry(ROOT_URI, DEFAULT_TARGET, root) == MappedFileSystemEntry(ROOT_URI, DEFAULT_TARGET, root)
  {
  }

  /** The router's first two bindings: the cache, then the root. */
  lemma BindingsHead(cache: Store, root: Store, deps: seq<BundledDependency>)
    ensures Bindings(cache, root, deps)[0] == MappedFileSystemEntry(CACHE_URI, DEFAULT_TARGET, cache)
    ensures Bindings(cache, root, deps)[1] == MappedFileSystemEntry(ROOT_URI, DEFAULT_TARGET, root)
  {
    FixedPrefixes(cache, root);
  }

  /** The bindings after those two are the dependencies', in order. */
  lemma BindingsTail(cache: Store, root: Store, deps: seq<BundledDependency>, k: nat)
    requires k < |deps|
    ensures Bindings(cache, root, deps)[k + 2] == NewEntry(MountPoint(deps[k]), BaseUri(deps[k]), deps[k].fileSystem)
  {
    DependencyBindingsAt(deps, k);
  }

  /** Addresses under the cache prefix go to the cache store, at the same path under its root. */
  lemma CacheRoute(cache: Store, root: Store, deps: seq<BundledDependency>, path: string)
    ensures Route(Bindings(cache, root, deps), CACHE_URI + path) == Ok((cache, DEFAULT_TARGET + path))
  {
    var bindings := Bindings(cache, root, deps);
    BindingsHead(cache, root, deps);
    MapSuffix(bindings[0], path);
    RouteFirstMatch(bindings, CACHE_URI + path, 0);
  }

  /**
   * Addresses under the root prefix go to the root store, at the same path, whatever
   * the dependencies are; so does the document's own address.
   */
  lemma RootRoute(cache: Store, root: Store, deps: seq<BundledDependency>, path: string)
    ensures Route(Bindings(cache, root, deps), ROOT_URI + path) == Ok((root, DEFAULT_TARGET + path))
    ensures Route(Bindings(cache, root, deps), FileUri(path)) == Ok((root, DEFAULT_TARGET + path))
  {
    var bindings := Bindings(cache, root, deps);
    BindingsHead(cache, root, deps);
    FixedPrefixes(cache, root);
    NotTaken("root", "cache", DEFAULT_TARGET, cache, path);
    MapSuffix(bindings[1], path);
    RouteFirstMatch(bindings, ROOT_URI + path, 1);
  }

  /** The document's address as the constructor builds it is served by the root store. */
  lemma DocumentRoute(cache: Store, root: Store, deps: seq<BundledDependency>, given: PluginOptionsObject)
    ensures Route(Bindings(cache, root, deps), FileUriAsWritten(given)) ==
      Ok((root, DEFAULT_TARGET + given.filePath.GetOr("undefined")))
  {
    RootRoute(cache, root, deps, given.filePath.GetOr("undefined"));
  }

  /** A dependency named `root` is never reached through its mount point: the root store answers. */
  lemma RootShadowsDependency(cache: Store, root: Store, deps: seq<BundledDependency>, i: nat, rest: string)
    requires i < |deps| && deps[i].identifier == "root"
    ensures Route(Bindings(cache, root, deps), MountPoint(deps[i]) + rest) == Ok((root, DEFAULT_TARGET + rest))
  {
    FixedPrefixes(cache, root);
    assert MountPoint(deps[i]) == "file:///" + "root" + "/";
    RootRoute(cache, root, deps, rest);
  }

  /**
   * An address under a dependency's mount point goes to that dependency's store, at
   * the same path under its root, when the identifiers have no slash, the
   * dependency is not named `cache` or `root`, and no earlier one has its name.
   */
  lemma DependencyRoute(cache: Store, root: Store, deps: seq<BundledDependency>, i: nat, rest: string)
    requires i < |deps|
    requires forall j :: 0 <= j < |deps| ==> SlashFree(deps[j].identifier)
    requires deps[i].identifier != "cache" && deps[i].identifier != "root"
    requires forall j :: 0 <= j < i ==> deps[j].identifier != deps[i].identifier
    ensures Route(Bindings(cache, root, deps), MountPoint(deps[i]) + rest) == Ok((deps[i].fileSystem, DEFAULT_TARGET + rest))
  {
    var bindings := Bindings(cache, root, deps);
    var location := MountPoint(deps[i]) + rest;
    forall j | 0 <= j < i + 2
      ensures !Maps(bindings[j], location)
    {
      EarlierNotTaken(cache, root, deps, i, j, rest);
    }
    OwnBindingTakes(cache, root, deps, i, rest);
    RouteFirstMatch(bindings, location, i + 2);
  }

  /** No binding before a dependency's own takes an address under its mount point. */
  lemma EarlierNotTaken(cache: Store, root: Store, deps: seq<BundledDependency>, i: nat, j: nat, rest: string)
    requires i < |deps| && j < i + 2
    requires forall j :: 0 <= j < |deps| ==> SlashFree(deps[j].identifier)
    requires deps[i].identifier != "cache" && deps[i].identifier != "root"
    requires forall j :: 0 <= j < i ==> deps[j].identifier != deps[i].identifier
    ensures !Maps(Bindings(cache, root, deps)[j], MountPoint(deps[i]) + rest)
  {
    var name := deps[i].identifier;
    assert MountPoint(deps[i]) + rest == "file:///" + name + "/" + rest;
    BindingsHead(cache, root, deps);
    FixedPrefixes(cache, root);
    if j == 0 {
      NotTaken(name, "cache", DEFAULT_TARGET, cache, rest);
    } else if j == 1 {
      NotTaken(name, "root", DEFAULT_TARGET, root, rest);
    } else {
      var d := deps[j - 2];
      BindingsTail(cache, root, deps, j - 2);
      NotTaken(name, d.identifier, BaseUri(d), d.fileSystem, rest);
    }
  }

  /** A dependency's own binding takes the addresses under its mount point, keeping the path. */
  lemma OwnBindingTakes(cache: Store, root: Store, deps: seq<BundledDependency>, i: nat, rest: string)
    requires i < |deps|
    ensures var own := Bindings(cache, root, deps)[i + 2];
      && own.fileSystem == deps[i].fileSystem
      && Maps(own, MountPoint(deps[i]) + rest)
      && Map(own, MountPoint(deps[i]) + rest) == Some(DEFAULT_TARGET + rest)
  {
    BindingsTail(cache, root, deps, i);
    var own := Bindings(cache, root, deps)[i + 2];
    MountPointKept(deps[i]);
    MapSuffix(own, rest);
  }

  // ---------------------------------------------------------------------------
  // The document address.
  // ---------------------------------------------------------------------------

  /** As written, a missing `filePath` makes the address `file:///root/undefined`, not the default file. */
  lemma FileUriIgnoresDefault(given: PluginOptionsObject)
    requires given.filePath.None?
    ensures FileUriAsWritten(given) == "file:///root/undefined"
    ensures FileUriAsWritten(given) != FileUri(given.filePath.GetOr(DEFAULT_FILE_PATH))
  {
    assert FileUri(DEFAULT_FILE_PATH)[|ROOT_URI|..] == DEFAULT_FILE_PATH;
    assert FileUriAsWritten(given)[|ROOT_URI|..] == "undefined";
  }

  /**
   * The corrected address is the root prefix and the loaded path: the default file
   * when none is given, and the same as the code's address when one is.
   */
  lemma FileUriUsesDefault(given: PluginOptionsObject)
    ensures given.filePath.None? ==> FileUri(given.filePath.GetOr(DEFAULT_FILE_PATH)) == "file:///root/file.mcfunction"
    ensures given.filePath.Some? ==> FileUri(given.filePath.GetOr(DEFAULT_FILE_PATH)) == FileUriAsWritten(given)
  {
  }
}
