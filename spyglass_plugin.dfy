/**
 * The editor plugin (src/SpyglassPlugin.js): it builds the router the language
 * service reads its files through, tracks its own initialisation, records the
 * edits made since the service last saw the text, and turns the service's errors
 * and colour tokens into hints and marks moved through those edits.
 *
 * The service itself (`Service`, `project.getClientManaged`, `colorize`, the
 * awaited project calls) is outside the model: what it returns is a parameter
 * (`DocAndNode`), and each `await` is a point where the state machine pauses.
 */
module Plugin {
  import opened Wrappers
  import opened MappedEntry
  import opened MappedFs
  import opened Dependency
  import opened PluginOptions
  import opened Decorations
  import opened RangeMapping

  const ROOT_URI: string := "file:///root/"
  const CACHE_URI: string := "file:///cache/"

  /** `InitState`. */
  datatype InitState = Uninitialized | Initialising | Initialized

  // ---------------------------------------------------------------------------
  // What the language service reports for the open document.
  // ---------------------------------------------------------------------------

  /** An error of the parsed file (`FileNode.getErrors`): its range, message and severity number. */
  datatype LintError = LintError(start: int, end: int, message: string, severity: int)

  /** A colour token (`service.colorize`): its range and token type. */
  datatype ColorToken = ColorToken(start: int, end: int, tokenType: string)

  /** `getClientManaged(fileUri)` when it finds the document: its version, errors and tokens. */
  datatype DocAndNode = DocAndNode(version: int, errors: seq<LintError>, tokens: seq<ColorToken>)

  /** `Hint`: a range, a message and `'error'` or `'warning'`. */
  datatype Hint = Hint(from: int, to: int, message: string, severity: string)

  /** Severity 3 is an error; any other number a warning. */
  function SeverityName(severity: int): (r: string)
    ensures r == "error" <==> severity == 3
    ensures r == "warning" <==> severity != 3
  {
    if severity == 3 then "error" else "warning"
  }

  /** The hint for one error, or none when the moved range ends before it starts. */
  function HintOf(changes: seq<ChangedRange>, e: LintError): (r: Option<Hint>)
    ensures r.None? <==> MapRange(changes, (e.start, e.end)).1 < MapRange(changes, (e.start, e.end)).0
    ensures r.Some? ==> (r.value.from, r.value.to) == MapRange(changes, (e.start, e.end)) && r.value.from <= r.value.to
    ensures r.Some? ==> r.value.message == e.message && r.value.severity == SeverityName(e.severity)
  {
    var (start, end) := MapRange(changes, (e.start, e.end));
    if end < start then None else Some(Hint(start, end, e.message, SeverityName(e.severity)))
  }

  /** The hints `lint` returns for `errors`, in their order. */
  function Hints(changes: seq<ChangedRange>, errors: seq<LintError>): (r: seq<Hint>)
    ensures |r| <= |errors|
    ensures forall i :: 0 <= i < |r| ==> r[i].from <= r[i].to
    decreases |errors|
  {
    if |errors| == 0 then []
    else
      var before := Hints(changes, errors[..|errors| - 1]);
      match HintOf(changes, errors[|errors| - 1])
      case None => before
      case Some(h) => before + [h]
  }

  /** The mark for one token, or none when the moved range is empty or reversed. */
  function MarkOf(changes: seq<ChangedRange>, t: ColorToken): (r: Option<Mark>)
    ensures r.None? <==> MapRange(changes, (t.start, t.end)).1 <= MapRange(changes, (t.start, t.end)).0
    ensures r.Some? ==> (r.value.from, r.value.to) == MapRange(changes, (t.start, t.end)) && r.value.tokenType == t.tokenType
  {
    var (start, end) := MapRange(changes, (t.start, t.end));
    if end <= start then None else Some(Mark(start, end, t.tokenType))
  }

  /** The decorations `decorate` builds for `tokens`, added in their order. */
  function Marks(changes: seq<ChangedRange>, tokens: seq<ColorToken>): (r: DecorationSet)
    ensures |r| <= |tokens|
    ensures forall i :: 0 <= i < |r| ==> r[i].from < r[i].to
    decreases |tokens|
  {
    if |tokens| == 0 then NONE
    else
      var before := Marks(changes, tokens[..|tokens| - 1]);
      match MarkOf(changes, tokens[|tokens| - 1])
      case None => before
      case Some(m) => before + [m]
  }

  // ---------------------------------------------------------------------------
  // The initialisation and synchronisation state, as a value.
  // ---------------------------------------------------------------------------

  /**
   * The plugin's own state: initialisation, the document version last sent to the
   * service, the edits recorded since, and whether a sync is scheduled
   * (`editorUpdateTimeout`).
   */
  datatype Session = Session(
    initState: InitState,
    documentVersion: nat,
    changedRanges: seq<ChangedRange>,
    syncScheduled: bool)

  /** A new plugin. */
  const START: Session := Session(Uninitialized, 0, [], false)

  /** What an editor update carries: whether the text changed, and the changes. */
  datatype EditorUpdate = EditorUpdate(docChanged: bool, changedRanges: seq<ChangedRange>)

  /** `initialize` up to its first `await`: only an uninitialised plugin starts. */
  function StartInitialize(s: Session): (r: Session)
    ensures s.initState == Uninitialized ==> r.initState == Initialising
    ensures s.initState != Uninitialized ==> r == s
    ensures r.documentVersion == s.documentVersion && r.changedRanges == s.changedRanges && r.syncScheduled == s.syncScheduled
  {
    if s.initState != Uninitialized then s else s.(initState := Initialising)
  }

  /** The rest of `initialize`, once the awaited project calls have returned. */
  function InitializeDone(s: Session): (r: Session)
    requires s.initState == Initialising
    ensures r.initState == Initialized
    ensures r.documentVersion == s.documentVersion && r.changedRanges == s.changedRanges && r.syncScheduled == s.syncScheduled
  {
    s.(initState := Initialized)
  }

  /**
   * `handleEditorUpdate`: before initialisation it only initialises; afterwards
   * a change is recorded and a sync scheduled in place of any pending one.
   */
  function Update(s: Session, u: EditorUpdate): (r: Session)
    ensures r.documentVersion == s.documentVersion
    ensures s.initState == Initialized && u.docChanged ==>
      r.syncScheduled && r.changedRanges == s.changedRanges + u.changedRanges && r.initState == Initialized
    ensures !(s.initState == Initialized && u.docChanged) ==>
      r.changedRanges == s.changedRanges && r.syncScheduled == s.syncScheduled
  {
    if s.initState != Initialized then StartInitialize(s)
    else if !u.docChanged then s
    else s.(changedRanges := s.changedRanges + u.changedRanges, syncScheduled := true)
  }

  /** The scheduled sync: the service gets the next version and the record is cleared. */
  function Synced(s: Session): (r: Session)
    requires s.syncScheduled
    ensures r.documentVersion == s.documentVersion + 1 && r.changedRanges == [] && !r.syncScheduled
    ensures r.initState == s.initState
  {
    s.(documentVersion := s.documentVersion + 1, changedRanges := [], syncScheduled := false)
  }

  /** What holds of every state the plugin can be in. */
  predicate Reachable(s: Session) {
    && (s.initState != Initialized ==> s.documentVersion == 0 && s.changedRanges == [] && !s.syncScheduled)
  }

  // ---------------------------------------------------------------------------
  // The router and the project options the plugin builds.
  // ---------------------------------------------------------------------------

  /** The binding of each dependency: its mount point onto its store's root, in order. */
  function DependencyBindings(deps: seq<BundledDependency>): (r: seq<MappedFileSystemEntry>)
    ensures |r| == |deps|
    decreases |deps|
  {
    if |deps| == 0 then []
    else DependencyBindings(deps[..|deps| - 1]) + [NewEntry(MountPoint(deps[|deps| - 1]), BaseUri(deps[|deps| - 1]), deps[|deps| - 1].fileSystem)]
  }

  /** The router's bindings: the cache, then the root, then the dependencies. */
  function Bindings(cache: Store, root: Store, deps: seq<BundledDependency>): (r: seq<MappedFileSystemEntry>)
    ensures |r| == |deps| + 2
  {
    [NewEntry(CACHE_URI, DEFAULT_TARGET, cache), NewEntry(ROOT_URI, DEFAULT_TARGET, root)] + DependencyBindings(deps)
  }

  /** The dependency keys pushed onto `defaultConfig.env.dependencies`, in order. */
  function Names(deps: seq<BundledDependency>): (r: seq<string>)
    ensures |r| == |deps|
    decreases |deps|
  {
    if |deps| == 0 then [] else Names(deps[..|deps| - 1]) + [DependencyName(deps[|deps| - 1])]
  }

  /** The dependency initializers pushed onto `initializers`, in order. */
  function Registrations(deps: seq<BundledDependency>): (r: seq<Initializer>)
    ensures |r| == |deps|
    decreases |deps|
  {
    if |deps| == 0 then [] else Registrations(deps[..|deps| - 1]) + [DependencyInitializer(Dependency.Initializer(deps[|deps| - 1]))]
  }

  /** The bare `VanillaConfig`, used when no default configuration is set; its own dependency list is not modelled. */
  const VANILLA_CONFIG: Config := Config(VanillaConfig, [], None)

  /** The project options after `createSpyglassService`. */
  function Serviced(p: ProjectState, deps: seq<BundledDependency>): ProjectState
    requires p.initializers.Some?
  {
    var config := p.defaultConfig.GetOr(VANILLA_CONFIG);
    p.(cacheRoot := Some(CACHE_URI),
       defaultConfig := Some(config.(dependencies := config.dependencies + Names(deps))),
       initializers := Some(p.initializers.value + Registrations(deps)),
       projectRoots := Some([ROOT_URI]))
  }

  /**
   * The constructor's loop over the dependencies: each one's key, initializer and
   * binding are appended, in the order of `deps`.
   */
  method MountDependencies(fileSystem: MappedFileSystem, project: Project, deps: seq<BundledDependency>)
    requires project.initializers.Some? && project.defaultConfig.Some?
    modifies fileSystem, project
    ensures fileSystem.fileSystems == old(fileSystem.fileSystems) + DependencyBindings(deps)
    ensures project.initializers == Some(old(project.initializers.value) + Registrations(deps))
    ensures project.defaultConfig == Some(old(project.defaultConfig.value).(dependencies := old(project.defaultConfig.value.dependencies) + Names(deps)))
    ensures project.externals == old(project.externals) && project.cacheRoot == old(project.cacheRoot)
    ensures project.projectRoots == old(project.projectRoots)
  {
    ghost var bindings0 := fileSystem.fileSystems;
    ghost var initializers0 := project.initializers.value;
    ghost var config0 := project.defaultConfig.value;
    var i := 0;
    assert deps[..0] == [];
    assert bindings0 + [] == bindings0 && initializers0 + [] == initializers0 && config0.dependencies + [] == config0.dependencies;
    while i < |deps|
      invariant 0 <= i <= |deps|
      invariant fileSystem.fileSystems == bindings0 + DependencyBindings(deps[..i])
      invariant project.initializers == Some(initializers0 + Registrations(deps[..i]))
      invariant project.defaultConfig == Some(config0.(dependencies := config0.dependencies + Names(deps[..i])))
      invariant project.externals == old(project.externals) && project.cacheRoot == old(project.cacheRoot)
      invariant project.projectRoots == old(project.projectRoots)
    {
      ghost var bindings, initializers, names := fileSystem.fileSystems, project.initializers.value, project.defaultConfig.value.dependencies;
      AddDependency(fileSystem, project, deps[i]);
      DependencyStep(deps, i);
      SnocAssociates(initializers0, Registrations(deps[..i]), DependencyInitializer(Dependency.Initializer(deps[i])));
      SnocAssociates(config0.dependencies, Names(deps[..i]), DependencyName(deps[i]));
      SnocAssociates(bindings0, DependencyBindings(deps[..i]), NewEntry(MountPoint(deps[i]), BaseUri(deps[i]), deps[i].fileSystem));
      i := i + 1;
    }
    assert deps[..|deps|] == deps;
  }

  /** The three lists one dependency further. */
  lemma DependencyStep(deps: seq<BundledDependency>, i: nat)
    requires i < |deps|
    ensures Registrations(deps[..i + 1]) == Registrations(deps[..i]) + [DependencyInitializer(Dependency.Initializer(deps[i]))]
    ensures Names(deps[..i + 1]) == Names(deps[..i]) + [DependencyName(deps[i])]
    ensures DependencyBindings(deps[..i + 1]) == DependencyBindings(deps[..i]) + [NewEntry(MountPoint(deps[i]), BaseUri(deps[i]), deps[i].fileSystem)]
  {
    assert deps[..i + 1][..i] == deps[..i];
  }

  lemma SnocAssociates<T>(a: seq<T>, b: seq<T>, x: T)
    ensures a + (b + [x]) == a + b + [x]
  {
  }

  /** One turn of that loop: the key, the initializer and the binding of `dependency`. */
  method AddDependency(fileSystem: MappedFileSystem, project: Project, dependency: BundledDependency)
    requires project.initializers.Some? && project.defaultConfig.Some?
    modifies fileSystem, project
    ensures fileSystem.fileSystems == old(fileSystem.fileSystems) + [NewEntry(MountPoint(dependency), BaseUri(dependency), dependency.fileSystem)]
    ensures project.initializers == Some(old(project.initializers.value) + [DependencyInitializer(Dependency.Initializer(dependency))])
    ensures project.defaultConfig == Some(old(project.defaultConfig.value).(dependencies := old(project.defaultConfig.value.dependencies) + [DependencyName(dependency)]))
    ensures project.externals == old(project.externals) && project.cacheRoot == old(project.cacheRoot)
    ensures project.projectRoots == old(project.projectRoots)
  {
    var config := project.defaultConfig.value;
    project.defaultConfig := Some(config.(dependencies := config.dependencies + [DependencyName(dependency)]));
    project.initializers := Some(project.initializers.value + [DependencyInitializer(Dependency.Initializer(dependency))]);
    var _ := fileSystem.Mount(MountPoint(dependency), dependency.fileSystem, BaseUri(dependency));
  }

  /**
   * `createSpyglassService()` up to `new Service(...)`: the project options get
   * their cache root, configuration, dependency keys, initializers and project
   * roots, and the router is built; it is returned (the code installs it as
   * `externals.fs`).
   */
  method CreateSpyglassService(options: SpyglassPluginOptions) returns (fileSystem: MappedFileSystem)
    requires options.spyglassOptions != null && options.spyglassOptions.project != null
    requires options.spyglassOptions.project.initializers.Some? && options.spyglassOptions.project.externals.Some?
    requires options.rootFileSystem.Some? && options.cacheFileSystem.Some?
    modifies options.spyglassOptions.project
    ensures fresh(fileSystem)
    ensures fileSystem.fileSystems == Bindings(options.cacheFileSystem.value, options.rootFileSystem.value, options.dependencies)
    ensures options.spyglassOptions.project.State() == Serviced(old(options.spyglassOptions.project.State()), options.dependencies)
  {
    var project := options.spyglassOptions.project;
    var cache, root, deps := options.cacheFileSystem.value, options.rootFileSystem.value, options.dependencies;
    ghost var p0 := project.State();
    project.cacheRoot := Some(CACHE_URI);
    if project.defaultConfig.None? {
      project.defaultConfig := Some(VANILLA_CONFIG);
    }
    ghost var config := project.defaultConfig.value;
    assert config == p0.defaultConfig.GetOr(VANILLA_CONFIG);
    fileSystem := new MappedFileSystem([]);
    fileSystem := fileSystem.Mount(CACHE_URI, cache, DEFAULT_TARGET);
    fileSystem := fileSystem.Mount(ROOT_URI, root, DEFAULT_TARGET);
    assert fileSystem.fileSystems == [NewEntry(CACHE_URI, DEFAULT_TARGET, cache), NewEntry(ROOT_URI, DEFAULT_TARGET, root)];
    MountDependencies(fileSystem, project, deps);
    project.projectRoots := Some([ROOT_URI]);
    assert project.initializers == Some(p0.initializers.value + Registrations(deps));
    assert project.defaultConfig == Some(config.(dependencies := config.dependencies + Names(deps)));
  }

  /**
   * The document's address as line 44 builds it: the root URI and the `filePath`
   * of the object passed in, not of the loaded options, so a missing path is
   * concatenated as JavaScript's `"undefined"`.
   */
  function FileUriAsWritten(given: PluginOptionsObject): (r: string)
    ensures given.filePath.Some? ==> r == ROOT_URI + given.filePath.value
  {
    ROOT_URI + given.filePath.GetOr("undefined")
  }

  /** The document's address as intended: the root URI and the loaded (defaulted) `filePath`. */
  function FileUri(filePath: string): (r: string)
    ensures |r| == |ROOT_URI| + |filePath| && r[..|ROOT_URI|] == ROOT_URI && r[|ROOT_URI|..] == filePath
  {
    ROOT_URI + filePath
  }

  /** The options a plugin loads from `given` fill its project as `load` does. */
  ghost function LoadedProject(given: PluginOptionsObject): ProjectState
    reads Footprint(given.spyglassOptions)
  {
    var o := given.spyglassOptions;
    Filled(if o == null || o.project == null then EMPTY_PROJECT else o.project.State())
  }

  class SpyglassPlugin {
    var options: SpyglassPluginOptions
    var fileUri: string
    var fileSystem: MappedFileSystem
    var decorationsCache: DecorationsCache
    var initState: InitState
    var documentVersion: nat
    var changedRanges: seq<ChangedRange>
    var editorUpdateTimeout: bool
    var lastLintedVersion: Option<int>

    /** The initialisation and synchronisation state. */
    function SessionState(): Session
      reads this
    {
      Session(initState, documentVersion, changedRanges, editorUpdateTimeout)
    }

    /**
     * `new SpyglassPlugin(options)`: the options loaded, the document address set
     * from the object passed in (so `"undefined"` without a path), and the
     * service's project options and router prepared, with the plugin
     * uninitialised and nothing recorded.
     */
    constructor(given: PluginOptionsObject)
      requires given.rootFileSystem.Some? && given.cacheFileSystem.Some?
      modifies Footprint(given.spyglassOptions)
      ensures SessionState() == START && lastLintedVersion.None?
      ensures fresh(decorationsCache) && decorationsCache.version.None?
      ensures options.filePath == given.filePath.GetOr(DEFAULT_FILE_PATH) && fileUri == FileUriAsWritten(given)
      ensures options.languageId == given.languageId.GetOr(DEFAULT_LANGUAGE_ID)
      ensures options.dependencies == given.dependencies.GetOr([])
      ensures fileSystem.fileSystems == Bindings(given.cacheFileSystem.value, given.rootFileSystem.value, options.dependencies)
      ensures options.spyglassOptions != null && options.spyglassOptions.project != null
      ensures options.spyglassOptions.project.State() == Serviced(old(LoadedProject(given)), options.dependencies)
    {
      ghost var p0 := LoadedProject(given);
      var loaded := new SpyglassPluginOptions();
      loaded := loaded.Load(given);
      assert loaded.spyglassOptions.project.State() == p0;
      var router := CreateSpyglassService(loaded);
      options := loaded;
      fileUri := FileUriAsWritten(given);
      fileSystem := router;
      decorationsCache := new DecorationsCache();
      initState := Uninitialized;
      documentVersion := 0;
      changedRanges := [];
      editorUpdateTimeout := false;
      lastLintedVersion := None;
    }

    /** `mapRangeToChanges(start, end)`: the loop over the recorded changes. */
    method MapRangeToChanges(start: int, end: int) returns (s: int, e: int)
      ensures (s, e) == MapRange(changedRanges, (start, end))
    {
      s, e := start, end;
      var i := 0;
      while i < |changedRanges|
        invariant 0 <= i <= |changedRanges|
        invariant (s, e) == MapRange(changedRanges[..i], (start, end))
      {
        var change := changedRanges[i];
        assert changedRanges[..i + 1][..i] == changedRanges[..i];
        if s >= change.toA {
          s := s + (change.toB - change.toA);
          e := e + (change.toB - change.toA);
        } else if s >= change.fromA && e < change.toA {
          s := 0;
          e := 0;
        } else if e >= change.fromA && e <= change.toA {
          e := Min(e, change.toB);
        }
        i := i + 1;
      }
      assert changedRanges[..|changedRanges|] == changedRanges;
    }

    /** `isLintRefreshRequired()`: the document is known and was not linted at its version. */
    predicate IsLintRefreshRequired(docAndNode: Option<DocAndNode>)
      reads this
      ensures IsLintRefreshRequired(docAndNode) ==> docAndNode.Some?
      ensures docAndNode.Some? && lastLintedVersion.None? ==> IsLintRefreshRequired(docAndNode)
    {
      docAndNode.Some? && lastLintedVersion != Some(docAndNode.value.version)
    }

    /**
     * `lint()`: no hints for an unknown document; otherwise the version is noted
     * and each error becomes a hint over its moved range, unless that range ends
     * before it starts.
     */
    method Lint(docAndNode: Option<DocAndNode>) returns (hints: seq<Hint>)
      modifies this
      ensures docAndNode.None? ==> hints == [] && lastLintedVersion == old(lastLintedVersion)
      ensures docAndNode.Some? ==> lastLintedVersion == Some(docAndNode.value.version)
      ensures docAndNode.Some? ==> hints == Hints(changedRanges, docAndNode.value.errors)
      ensures !IsLintRefreshRequired(docAndNode)
      ensures SessionState() == old(SessionState()) && options == old(options) && fileUri == old(fileUri)
      ensures fileSystem == old(fileSystem) && decorationsCache == old(decorationsCache)
    {
      if docAndNode.None? {
        return [];
      }
      var doc := docAndNode.value;
      lastLintedVersion := Some(doc.version);
      hints := [];
      var i := 0;
      while i < |doc.errors|
        invariant 0 <= i <= |doc.errors|
        invariant hints == Hints(changedRanges, doc.errors[..i])
        invariant SessionState() == old(SessionState()) && options == old(options) && fileUri == old(fileUri)
        invariant fileSystem == old(fileSystem) && decorationsCache == old(decorationsCache)
        invariant lastLintedVersion == Some(doc.version)
      {
        var error := doc.errors[i];
        assert doc.errors[..i + 1][..i] == doc.errors[..i];
        var start, end := MapRangeToChanges(error.start, error.end);
        if end >= start {
          hints := hints + [Hint(start, end, error.message, SeverityName(error.severity))];
        }
        i := i + 1;
      }
      assert doc.errors[..|doc.errors|] == doc.errors;
    }

    /**
     * `decorate(previous)`: the previous set for an unknown document; the cached set
     * when the cache holds the document's version; otherwise a mark for each token
     * whose moved range is non-empty, cached under the version.
     */
    method Decorate(previous: DecorationSet, docAndNode: Option<DocAndNode>) returns (r: DecorationSet)
      modifies decorationsCache
      ensures docAndNode.None? ==> r == previous && unchanged(decorationsCache)
      ensures docAndNode.Some? && old(decorationsCache.Has(Some(docAndNode.value.version))) ==>
        r == old(decorationsCache.Get()) && unchanged(decorationsCache)
      ensures docAndNode.Some? && !old(decorationsCache.Has(Some(docAndNode.value.version))) ==>
        r == Marks(changedRanges, docAndNode.value.tokens)
      ensures docAndNode.Some? ==> decorationsCache.Has(Some(docAndNode.value.version)) && decorationsCache.Get() == r
    {
      if docAndNode.None? {
        return previous;
      }
      var doc := docAndNode.value;
      if decorationsCache.Has(Some(doc.version)) {
        return decorationsCache.Get();
      }
      var decorations := NONE;
      var i := 0;
      while i < |doc.tokens|
        invariant 0 <= i <= |doc.tokens|
        invariant decorations == Marks(changedRanges, doc.tokens[..i])
        invariant unchanged(decorationsCache)
      {
        var token := doc.tokens[i];
        assert doc.tokens[..i + 1][..i] == doc.tokens[..i];
        var start, end := MapRangeToChanges(token.start, token.end);
        if end > start {
          decorations := decorations + [Mark(start, end, token.tokenType)];
        }
        i := i + 1;
      }
      assert doc.tokens[..|doc.tokens|] == doc.tokens;
      var _ := decorationsCache.Set(doc.version, decorations);
      r := decorations;
    }

    /**
     * `initialize(view)` up to its first `await`: returns whether it started, which
     * only an uninitialised plugin does.
     */
    method Initialize() returns (started: bool)
      modifies this
      ensures started <==> old(initState) == Uninitialized
      ensures SessionState() == StartInitialize(old(SessionState()))
      ensures lastLintedVersion == old(lastLintedVersion) && options == old(options) && fileUri == old(fileUri)
      ensures fileSystem == old(fileSystem) && decorationsCache == old(decorationsCache)
    {
      if initState != Uninitialized {
        return false;
      }
      initState := Initialising;
      return true;
    }

    /** The end of `initialize`, after the service has opened and checked the document. */
    method FinishInitialize()
      requires initState == Initialising
      modifies this
      ensures SessionState() == InitializeDone(old(SessionState()))
      ensures lastLintedVersion == old(lastLintedVersion) && options == old(options) && fileUri == old(fileUri)
      ensures fileSystem == old(fileSystem) && decorationsCache == old(decorationsCache)
    {
      initState := Initialized;
    }

    /**
     * `handleEditorUpdate(update)`: returns whether a sync was scheduled. A recorded
     * change also empties the decorations cache.
     */
    method HandleEditorUpdate(u: EditorUpdate) returns (scheduled: bool)
      modifies this, decorationsCache
      ensures SessionState() == Update(old(SessionState()), u)
      ensures scheduled <==> old(initState) == Initialized && u.docChanged
      ensures scheduled ==> decorationsCache.version.None? && decorationsCache.decorations == NONE
      ensures !scheduled ==> unchanged(old(decorationsCache))
      ensures lastLintedVersion == old(lastLintedVersion) && options == old(options) && fileUri == old(fileUri)
      ensures fileSystem == old(fileSystem) && decorationsCache == old(decorationsCache)
    {
      if initState != Initialized {
        var _ := Initialize();
        return false;
      }
      if !u.docChanged {
        return false;
      }
      changedRanges := changedRanges + u.changedRanges;
      var _ := decorationsCache.Flush();
      editorUpdateTimeout := true;
      return true;
    }

    /**
     * The scheduled callback: the document version is incremented (before the
     * service is told, whether or not it then fails) and the record is cleared.
     */
    method Sync()
      requires editorUpdateTimeout
      modifies this
      ensures SessionState() == Synced(old(SessionState()))
      ensures lastLintedVersion == old(lastLintedVersion) && options == old(options) && fileUri == old(fileUri)
      ensures fileSystem == old(fileSystem) && decorationsCache == old(decorationsCache)
    {
      documentVersion := documentVersion + 1;
      changedRanges := [];
      editorUpdateTimeout := false;
    }
  }
}
