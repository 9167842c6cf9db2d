/**
 * The plugin's options (src/SpyglassPluginOptions.js). `load` fills in every
 * missing field of a plain options object with its default and completes the
 * Spyglass project options it carries, in place: the project object, externals,
 * initializers (adding the mcdoc and Java Edition initializers once each), the
 * default configuration and the logger. Library objects (initializers, externals,
 * loggers, highlight styles, configurations) are opaque values here.
 */
module PluginOptions {
  import opened Wrappers
  import opened Dependency
  import opened MappedEntry

  /** A project initializer: the two Spyglass ones, a dependency's, or one the caller supplied. */
  datatype Initializer =
    | McdocInitialize
    | JeInitialize
    | DependencyInitializer(registration: Registration)
    | SuppliedInitializer(id: nat)

  /** `project.externals`: the plugin's own (`PluginExternals`) or the caller's. */
  datatype Externals = PluginExternals | SuppliedExternals(id: nat)

  /** `options.logger`: `Logger.noop()` or the caller's. */
  datatype Logger = NoopLogger | SuppliedLogger(id: nat)

  /** `highlightStyle`: CodeMirror's `defaultHighlightStyle` or the caller's. */
  datatype HighlightStyle = DefaultHighlightStyle | SuppliedHighlightStyle(id: nat)

  /** What a configuration is built on: Spyglass's `VanillaConfig` or the caller's object. */
  datatype ConfigBase = VanillaConfig | SuppliedConfig(id: nat)

  /**
   * A project configuration: its base, `env.dependencies` (which the plugin appends
   * to) and `lint.undeclaredSymbol`.
   */
  datatype Config = Config(base: ConfigBase, dependencies: seq<string>, undeclaredSymbol: Option<bool>)

  const DEFAULT_FILE_PATH: string := "file.mcfunction"
  const DEFAULT_LANGUAGE_ID: string := "mcfunction"

  /** The initializers `load` makes sure of, in this order. */
  const DEFAULT_INITIALIZERS: seq<Initializer> := [McdocInitialize, JeInitialize]

  /** `ConfigService.merge(VanillaConfig, {env: {dependencies: []}, lint: {undeclaredSymbol: false}})`. */
  const DEFAULT_CONFIG: Config := Config(VanillaConfig, [], Some(false))

  /** The fields of a project options object that the plugin reads or writes. */
  datatype ProjectState = ProjectState(
    externals: Option<Externals>,
    initializers: Option<seq<Initializer>>,
    defaultConfig: Option<Config>,
    cacheRoot: Option<string>,
    projectRoots: Option<seq<string>>)

  /** A fresh `{}`. */
  const EMPTY_PROJECT: ProjectState := ProjectState(None, None, None, None, None)

  /** A project options object (`ProjectOptions`), which `load` and the plugin update in place. */
  class Project {
    var externals: Option<Externals>
    var initializers: Option<seq<Initializer>>
    var defaultConfig: Option<Config>
    var cacheRoot: Option<string>
    var projectRoots: Option<seq<string>>

    function State(): ProjectState
      reads this
    {
      ProjectState(externals, initializers, defaultConfig, cacheRoot, projectRoots)
    }

    /** An object holding `state`; `{}` is `EMPTY_PROJECT`. */
    constructor(state: ProjectState)
      ensures State() == state
    {
      externals := state.externals;
      initializers := state.initializers;
      defaultConfig := state.defaultConfig;
      cacheRoot := state.cacheRoot;
      projectRoots := state.projectRoots;
    }

    /**
     * The loop over `[mcdoc.initialize, je.initialize]` in `load`: each initializer
     * of `defaults` not yet in the list is pushed onto it.
     */
    method IncludeAll(defaults: seq<Initializer>)
      requires initializers.Some?
      modifies this
      ensures State() == old(State()).(initializers := Some(Included(old(initializers.value), defaults)))
    {
      var i := 0;
      while i < |defaults|
        invariant 0 <= i <= |defaults|
        invariant State() == old(State()).(initializers := Some(Included(old(initializers.value), defaults[..i])))
      {
        var initializer := defaults[i];
        assert defaults[..i + 1][..i] == defaults[..i];
        if initializer !in initializers.value {
          initializers := Some(initializers.value + [initializer]);
        }
        i := i + 1;
      }
      assert defaults[..|defaults|] == defaults;
    }

    /** The part of `load` that completes the project: each missing field gets its default. */
    method Fill()
      modifies this
      ensures State() == Filled(old(State()))
    {
      if externals.None? {
        externals := Some(PluginExternals);
      }
      if initializers.None? {
        initializers := Some([]);
      }
      IncludeAll(DEFAULT_INITIALIZERS);
      if defaultConfig.None? {
        defaultConfig := Some(DEFAULT_CONFIG);
      }
    }
  }

  /** Spyglass's own options object (`SpyglassOptions`), also updated in place by `load`. */
  class SpyglassOptions {
    var isDebugging: Option<bool>
    var logger: Option<Logger>
    var project: Project?

    constructor(isDebugging: Option<bool>, logger: Option<Logger>, project: Project?)
      ensures this.isDebugging == isDebugging && this.logger == logger && this.project == project
    {
      this.isDebugging := isDebugging;
      this.logger := logger;
      this.project := project;
    }

    /**
     * The part of `load` that completes these options: a fresh `{}` project when
     * there is none, that project filled, and the no-op logger when none is set.
     */
    method Complete()
      modifies this, project
      ensures isDebugging == old(isDebugging) && logger == Some(old(logger).GetOr(NoopLogger))
      ensures project != null
      ensures old(project) != null ==> project == old(project) && project.State() == Filled(old(project.State()))
      ensures old(project) == null ==> fresh(project) && project.State() == Filled(EMPTY_PROJECT)
    {
      if project == null {
        project := new Project(EMPTY_PROJECT);
      }
      project.Fill();
      if logger.None? {
        logger := Some(NoopLogger);
      }
    }
  }

  /** The objects `load` may change: the passed Spyglass options and their project. */
  function Footprint(o: SpyglassOptions?): set<object>
    reads o
  {
    if o == null then {} else if o.project == null then {o} else {o, o.project}
  }

  /** The plain object a caller passes (`SpyglassPluginOptionsObject`); `None` is a missing field. */
  datatype PluginOptionsObject = PluginOptionsObject(
    filePath: Option<string>,
    languageId: Option<string>,
    highlightStyle: Option<HighlightStyle>,
    dependencies: Option<seq<BundledDependency>>,
    spyglassOptions: SpyglassOptions?,
    rootFileSystem: Option<Store>,
    cacheFileSystem: Option<Store>)

  /** Appending each of `ys` that is not there yet, in order (the `includes`/`push` loop). */
  function Included(xs: seq<Initializer>, ys: seq<Initializer>): (r: seq<Initializer>)
    ensures |r| <= |xs| + |ys|
    decreases |ys|
  {
    if |ys| == 0 then xs
    else
      var before := Included(xs, ys[..|ys| - 1]);
      if ys[|ys| - 1] in before then before else before + [ys[|ys| - 1]]
  }

  /** What `load` makes of a project options object: the missing fields filled in. */
  function Filled(p: ProjectState): (r: ProjectState)
    ensures r.externals.Some? && r.initializers.Some? && r.defaultConfig.Some?
    ensures p.externals.Some? ==> r.externals == p.externals
    ensures p.defaultConfig.Some? ==> r.defaultConfig == p.defaultConfig
    ensures r.cacheRoot == p.cacheRoot && r.projectRoots == p.projectRoots
  {
    p.(externals := Some(p.externals.GetOr(PluginExternals)),
       initializers := Some(Included(p.initializers.GetOr([]), DEFAULT_INITIALIZERS)),
       defaultConfig := Some(p.defaultConfig.GetOr(DEFAULT_CONFIG)))
  }

  predicate NoDuplicates(xs: seq<Initializer>) {
    forall i, j :: 0 <= i < j < |xs| ==> xs[i] != xs[j]
  }

  // ---------------------------------------------------------------------------
  // Properties of the initializer list.
  // ---------------------------------------------------------------------------

  /** The existing initializers stay first and in their order. */
  lemma {:induction false} IncludedPrefix(xs: seq<Initializer>, ys: seq<Initializer>)
    ensures |xs| <= |Included(xs, ys)| && Included(xs, ys)[..|xs|] == xs
    decreases |ys|
  {
    if |ys| > 0 {
      IncludedPrefix(xs, ys[..|ys| - 1]);
    }
  }

  /** Afterwards every `ys` is present, and nothing else was added. */
  lemma {:induction false} IncludedMembers(xs: seq<Initializer>, ys: seq<Initializer>)
    ensures forall y :: y in ys ==> y in Included(xs, ys)
    ensures forall z :: z in Included(xs, ys) ==> z in xs || z in ys
    decreases |ys|
  {
    if |ys| > 0 {
      var init := ys[..|ys| - 1];
      IncludedMembers(xs, init);
      assert ys == init + [ys[|ys| - 1]];
    }
  }

  /** When every `ys` is already there, the list is left as it is. */
  lemma {:induction false} IncludedPresent(xs: seq<Initializer>, ys: seq<Initializer>)
    requires forall y :: y in ys ==> y in xs
    ensures Included(xs, ys) == xs
    decreases |ys|
  {
    if |ys| > 0 {
      var init := ys[..|ys| - 1];
      assert forall y :: y in init ==> y in ys;
      IncludedPresent(xs, init);
      assert ys[|ys| - 1] in ys;
    }
  }

  /** Including twice adds nothing the first time did not. */
  lemma IncludedIdempotent(xs: seq<Initializer>, ys: seq<Initializer>)
    ensures Included(Included(xs, ys), ys) == Included(xs, ys)
  {
    IncludedMembers(xs, ys);
    IncludedPresent(Included(xs, ys), ys);
  }

  /** A list without duplicates stays so, whatever is included. */
  lemma {:induction false} IncludedNoDuplicates(xs: seq<Initializer>, ys: seq<Initializer>)
    requires NoDuplicates(xs)
    ensures NoDuplicates(Included(xs, ys))
    decreases |ys|
  {
    if |ys| > 0 {
      var before := Included(xs, ys[..|ys| - 1]);
      IncludedNoDuplicates(xs, ys[..|ys| - 1]);
      var y := ys[|ys| - 1];
      if y !in before {
        var r := before + [y];
        forall i, j | 0 <= i < j < |r| ensures r[i] != r[j] {
          if j == |before| {
            assert r[i] == before[i];
          }
        }
      }
    }
  }

  // ---------------------------------------------------------------------------
  // Properties of `load`'s project completion.
  // ---------------------------------------------------------------------------

  /**
   * After loading, the project has both Spyglass initializers, each once, after the
   * caller's initializers, whose order is kept; externals and configuration are the
   * caller's where given.
   */
  lemma FilledInitializers(p: ProjectState)
    requires p.initializers.Some? ==> NoDuplicates(p.initializers.value)
    ensures var inits := Filled(p).initializers.value;
      && McdocInitialize in inits && JeInitialize in inits
      && NoDuplicates(inits)
      && (p.initializers.Some? ==> |p.initializers.value| <= |inits| && inits[..|p.initializers.value|] == p.initializers.value)
      && (forall z :: z in inits && z !in DEFAULT_INITIALIZERS ==> p.initializers.Some? && z in p.initializers.value)
  {
    var xs := p.initializers.GetOr([]);
    IncludedMembers(xs, DEFAULT_INITIALIZERS);
    IncludedPrefix(xs, DEFAULT_INITIALIZERS);
    IncludedNoDuplicates(xs, DEFAULT_INITIALIZERS);
  }

  /** A project with neither initializer gets them appended in the order mcdoc, Java Edition. */
  lemma FilledAppends(p: ProjectState)
    requires p.initializers.Some?
    requires McdocInitialize !in p.initializers.value && JeInitialize !in p.initializers.value
    ensures Filled(p).initializers.value == p.initializers.value + [McdocInitialize, JeInitialize]
  {
    var xs := p.initializers.value;
    assert DEFAULT_INITIALIZERS[..1][..0] == [];
    assert DEFAULT_INITIALIZERS[..1] == [McdocInitialize];
    assert Included(xs, [McdocInitialize]) == xs + [McdocInitialize];
    assert JeInitialize !in xs + [McdocInitialize];
  }

  /** Loading the same Spyglass options twice changes nothing the second time. */
  lemma FilledIdempotent(p: ProjectState)
    ensures Filled(Filled(p)) == Filled(p)
  {
    IncludedIdempotent(p.initializers.GetOr([]), DEFAULT_INITIALIZERS);
  }

  /** The plugin options (`SpyglassPluginOptions`). */
  class SpyglassPluginOptions {
    var filePath: string
    var languageId: string
    var highlightStyle: HighlightStyle
    var dependencies: seq<BundledDependency>
    var spyglassOptions: SpyglassOptions?
    var rootFileSystem: Option<Store>
    var cacheFileSystem: Option<Store>

    /** Options before `load`: no Spyglass options yet; the other fields are placeholders. */
    constructor()
      ensures spyglassOptions == null && dependencies == []
    {
      filePath := "";
      languageId := "";
      highlightStyle := DefaultHighlightStyle;
      dependencies := [];
      spyglassOptions := null;
      rootFileSystem := None;
      cacheFileSystem := None;
    }

    /**
     * `load(object)`: every field from `given` or its default (`??`, so a supplied
     * empty string is kept), and the Spyglass options completed in place, or a fresh
     * `{}` completed when none were passed. Returns the options themselves.
     */
    method Load(given: PluginOptionsObject) returns (self: SpyglassPluginOptions)
      modifies this, Footprint(given.spyglassOptions)
      ensures self == this
      ensures filePath == given.filePath.GetOr(DEFAULT_FILE_PATH)
      ensures languageId == given.languageId.GetOr(DEFAULT_LANGUAGE_ID)
      ensures highlightStyle == given.highlightStyle.GetOr(DefaultHighlightStyle)
      ensures dependencies == given.dependencies.GetOr([])
      ensures rootFileSystem == given.rootFileSystem && cacheFileSystem == given.cacheFileSystem
      ensures spyglassOptions != null && spyglassOptions.project != null
      ensures given.spyglassOptions != null ==> spyglassOptions == given.spyglassOptions
      ensures given.spyglassOptions == null ==>
        && fresh(spyglassOptions) && fresh(spyglassOptions.project)
        && spyglassOptions.isDebugging.None? && spyglassOptions.logger == Some(NoopLogger)
        && spyglassOptions.project.State() == Filled(EMPTY_PROJECT)
      ensures given.spyglassOptions != null ==>
        && spyglassOptions.isDebugging == old(given.spyglassOptions.isDebugging)
        && spyglassOptions.logger == Some(old(given.spyglassOptions.logger).GetOr(NoopLogger))
      ensures given.spyglassOptions != null && old(given.spyglassOptions.project) != null ==>
        && spyglassOptions.project == old(given.spyglassOptions.project)
        && spyglassOptions.project.State() == Filled(old(given.spyglassOptions.project.State()))
      ensures given.spyglassOptions != null && old(given.spyglassOptions.project) == null ==>
        && fresh(spyglassOptions.project)
        && spyglassOptions.project.State() == Filled(EMPTY_PROJECT)
    {
      filePath := given.filePath.GetOr(DEFAULT_FILE_PATH);
      languageId := given.languageId.GetOr(DEFAULT_LANGUAGE_ID);
      highlightStyle := given.highlightStyle.GetOr(DefaultHighlightStyle);
      dependencies := given.dependencies.GetOr([]);
      rootFileSystem := given.rootFileSystem;
      cacheFileSystem := given.cacheFileSystem;

      var options := given.spyglassOptions;
      if options == null {
        options := new SpyglassOptions(None, None, null);
      }
      options.Complete();
      spyglassOptions := options;
      return this;
    }
  }
}
