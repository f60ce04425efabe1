/** The startup sequence of `KonfigAndInjektScopedMain` and its path-scoped
    registrar, over the state they change in place: the shared list of
    pending records and the injection scope's singleton store. */
module TypesafeConfigInjection {
  import opened Wrappers
  import opened KonfigPaths
  import opened KonfigBindings
  import opened KonfigLoading

  /** The add-on identifier under which the pending list is kept. */
  const ADDON_ID: string := "Konfigure"

  /** The shared `MutableList<KonfigureClassAtPath>` of pending records. */
  class BindingList {
    var items: seq<KonfigureClassAtPath>

    /** `linkedListOf<KonfigureClassAtPath>()`. */
    constructor ()
      ensures items == []
    {
      items := [];
    }

    /** `add`: appends one record at the end. */
    method Add(b: KonfigureClassAtPath)
      modifies this
      ensures items == old(items) + [b]
    {
      items := items + [b];
    }
  }

  /** The parts of an injection scope this startup uses: its singleton store
      keyed by class, its add-on metadata, and whether
      `registerInjectables` has run.  Instances are of type `I`.  Scopes are
      created by Injekt, so the startup receives one and never makes one. */
  class InjektScope<I> {
    var singletons: map<Klass, I>
    var addonMetadata: map<string, BindingList>
    var injectablesRegistered: bool

    /** `getAddonMetadata(id)`: the value stored under `id`, if any. */
    method GetAddonMetadata(id: string) returns (r: Option<BindingList>)
      ensures r.Some? <==> id in addonMetadata
      ensures r.Some? ==> r.value == addonMetadata[id]
    {
      if id in addonMetadata {
        r := Some(addonMetadata[id]);
      } else {
        r := None;
      }
    }

    /** `setAddonMetadata(id, value)`: stores `value` under `id` and returns it. */
    method SetAddonMetadata(id: string, value: BindingList) returns (r: BindingList)
      modifies this
      ensures r == value
      ensures addonMetadata == old(addonMetadata)[id := value]
      ensures singletons == old(singletons) && injectablesRegistered == old(injectablesRegistered)
    {
      addonMetadata := addonMetadata[id := value];
      r := value;
    }

    /** `registrar.addSingleton(klass, instance)`: `instance` becomes the
        singleton for `klass`, replacing any earlier one. */
    method AddSingleton(klass: Klass, instance: I)
      modifies this
      ensures singletons == old(singletons)[klass := instance]
      ensures addonMetadata == old(addonMetadata) && injectablesRegistered == old(injectablesRegistered)
    {
      singletons := singletons[klass := instance];
    }

    /** `registrar.registerInjectables()`: only the fact that it ran is kept. */
    method RegisterInjectables()
      modifies this
      ensures injectablesRegistered
      ensures singletons == old(singletons) && addonMetadata == old(addonMetadata)
    {
      injectablesRegistered := true;
    }
  }

  /** A registrar handing out bindings below `path`, appending them to the
      shared `itemsToConfigure`.  `readValue` stands for the object mapper of
      the enclosing startup object. */
  class ScopedKonfigRegistrar<I> {
    const path: seq<string>
    const scope: InjektScope<I>
    const itemsToConfigure: BindingList
    const readValue: (string, Klass) -> Option<I>

    constructor (path: seq<string>, scope: InjektScope<I>, itemsToConfigure: BindingList,
                 readValue: (string, Klass) -> Option<I>)
      ensures this.path == path && this.scope == scope
      ensures this.itemsToConfigure == itemsToConfigure && this.readValue == readValue
    {
      this.path := path;
      this.scope := scope;
      this.itemsToConfigure := itemsToConfigure;
      this.readValue := readValue;
    }

    /** Runs `konfigModule` under a child registrar whose prefix is extended by the
        pieces of `atPath`; the child shares this registrar's list, so the
        import itself adds nothing but what the module binds. */
    method ImportModule(atPath: string, konfigModule: KonfigModule)
      modifies itemsToConfigure
      ensures itemsToConfigure.items == old(itemsToConfigure.items) + Expand(ChildPrefix(path, atPath), konfigModule)
      decreases konfigModule, 1
    {
      var child := new ScopedKonfigRegistrar(path + Split(atPath), scope, itemsToConfigure, readValue);
      child.RegisterWith(konfigModule);
    }

    /** Appends one record whose path is the normalised prefix. */
    method BindClassAtConfigRoot(klass: Klass)
      modifies itemsToConfigure
      ensures itemsToConfigure.items == old(itemsToConfigure.items) + [KonfigureClassAtPath(RootPath(path), klass)]
      ensures AllDotFree(path) ==> IsNormalizedPath(RootPath(path)) && NoStrayDots(RootPath(path))
    {
      if AllDotFree(path) {
        FullPathNormalized(path);
        FullPathNoStrayDots(path);
      }
      var fullpath := FullPath(path);
      itemsToConfigure.Add(KonfigureClassAtPath(fullpath, klass));
    }

    /** Appends one record whose path is the normalised prefix followed by
        the pieces of `configPath`. */
    method BindClassAtConfigPath(configPath: string, klass: Klass)
      modifies itemsToConfigure
      ensures itemsToConfigure.items == old(itemsToConfigure.items) + [KonfigureClassAtPath(PathAt(path, configPath), klass)]
      ensures AllDotFree(path) ==> IsNormalizedPath(PathAt(path, configPath)) && NoStrayDots(PathAt(path, configPath))
    {
      if AllDotFree(path) {
        var p := ChildPrefix(path, configPath);
        FullPathNormalized(p);
        FullPathNoStrayDots(p);
      }
      var fullpath := FullPath(path + Split(configPath));
      itemsToConfigure.Add(KonfigureClassAtPath(fullpath, klass));
    }

    /** `module.registerWith(this)`: the module's `registerConfigurables`
        makes its calls on this registrar, in order. */
    method RegisterWith(konfigModule: KonfigModule)
      modifies itemsToConfigure
      ensures itemsToConfigure.items == old(itemsToConfigure.items) + Expand(path, konfigModule)
      decreases konfigModule, 0
    {
      var i := 0;
      while i < |konfigModule.calls|
        invariant 0 <= i <= |konfigModule.calls|
        invariant itemsToConfigure.items == old(itemsToConfigure.items) + ExpandCalls(path, konfigModule.calls[..i])
      {
        ExpandCallsSnoc(path, konfigModule.calls[..i], konfigModule.calls[i]);
        assert konfigModule.calls[..i + 1] == konfigModule.calls[..i] + [konfigModule.calls[i]];
        match konfigModule.calls[i] {
          case Import(atPath, m) => ImportModule(atPath, m);
          case BindRoot(klass) => BindClassAtConfigRoot(klass);
          case BindPath(configPath, klass) => BindClassAtConfigPath(configPath, klass);
        }
        i := i + 1;
      }
      assert konfigModule.calls[..i] == konfigModule.calls;
    }

    /** Walks the whole shared list in order: looks up each record's subtree,
        renders it, deserialises it and stores the instance as the singleton
        for the record's class.  The first failure ends the walk and is
        returned; the singletons stored before it stay. */
    method LoadAndInject(config: Config) returns (error: Option<KonfigError>)
      modifies scope
      ensures LoadResult(scope.singletons, error)
           == InjectAll(old(scope.singletons), itemsToConfigure.items, config, readValue)
      ensures scope.addonMetadata == old(scope.addonMetadata)
      ensures scope.injectablesRegistered == old(scope.injectablesRegistered)
    {
      var items := itemsToConfigure.items;
      var i := 0;
      while i < |items|
        invariant 0 <= i <= |items| && items == itemsToConfigure.items
        invariant InjectAll(old(scope.singletons), items, config, readValue)
               == InjectAll(scope.singletons, items[i..], config, readValue)
        invariant scope.addonMetadata == old(scope.addonMetadata)
        invariant scope.injectablesRegistered == old(scope.injectablesRegistered)
      {
        var b := items[i];
        assert items[i..][0] == b && items[i..][1..] == items[i + 1..];
        if b.path !in config.objects {
          return Some(MissingConfigPath(b.path));
        }
        var asJson := Render(config.objects[b.path]);
        var instance := readValue(asJson, b.klass);
        if instance.None? {
          return Some(DeserializationFailed(b.path, b.klass));
        }
        scope.AddSingleton(b.klass, instance.value);
        i := i + 1;
      }
      error := None;
    }
  }

  /** The records already pending under the add-on identifier. */
  ghost function Pending<I>(scope: InjektScope<I>): seq<KonfigureClassAtPath>
    reads scope, scope.addonMetadata.Values
  {
    if ADDON_ID in scope.addonMetadata then scope.addonMetadata[ADDON_ID].items else []
  }

  /** The `init` block of a startup object with the given scope, object
      mapper, own configuration module and configuration factory result
      (`None` when `configFactory()` fails).  The pending list under the
      add-on identifier is reused if there is one and created otherwise; the
      module's bindings go after those already pending; the configuration is
      resolved; the whole list is loaded; the scope is finalised.  Each
      failure ends the sequence and is returned. */
  method Init<I>(scope: InjektScope<I>, readValue: (string, Klass) -> Option<I>, konfigModule: KonfigModule,
                 configFactory: Option<Config>) returns (r: Result<Config, KonfigError>)
    modifies scope, scope.addonMetadata.Values
    ensures ADDON_ID in scope.addonMetadata
    ensures old(ADDON_ID in scope.addonMetadata) ==> scope.addonMetadata == old(scope.addonMetadata)
    ensures old(ADDON_ID !in scope.addonMetadata) ==>
              && fresh(scope.addonMetadata[ADDON_ID])
              && scope.addonMetadata == old(scope.addonMetadata)[ADDON_ID := scope.addonMetadata[ADDON_ID]]
    ensures scope.addonMetadata[ADDON_ID].items == old(Pending(scope)) + Expand([], konfigModule)
    ensures AllPathsNormalized(old(Pending(scope))) ==> AllPathsNormalized(scope.addonMetadata[ADDON_ID].items)
    ensures forall l :: l in old(scope.addonMetadata.Values) && l != scope.addonMetadata[ADDON_ID] ==>
              l.items == old(l.items)
    ensures configFactory.None? ==>
              && r == Failure(ConfigFactoryFailed)
              && scope.singletons == old(scope.singletons)
              && scope.injectablesRegistered == old(scope.injectablesRegistered)
    ensures configFactory.Some? ==>
              var load := InjectAll(old(scope.singletons), scope.addonMetadata[ADDON_ID].items, configFactory.value, readValue);
              && scope.singletons == load.singletons
              && (load.error.Some? ==> r == Failure(load.error.value)
                                       && scope.injectablesRegistered == old(scope.injectablesRegistered))
              && (load.error.None? ==> r == Success(configFactory.value) && scope.injectablesRegistered)
  {
    var existing := scope.GetAddonMetadata(ADDON_ID);
    var itemsToConfigure: BindingList;
    if existing.Some? {
      itemsToConfigure := existing.value;
    } else {
      var created := new BindingList();
      itemsToConfigure := scope.SetAddonMetadata(ADDON_ID, created);
    }
    ghost var before := itemsToConfigure.items;
    var registrar := new ScopedKonfigRegistrar([], scope, itemsToConfigure, readValue);
    registrar.RegisterWith(konfigModule);
    assert AllDotFree([]);
    ExpandNormalized([], konfigModule);
    if AllPathsNormalized(before) {
      AllPathsNormalizedConcat(before, Expand([], konfigModule));
    }
    if configFactory.None? {
      return Failure(ConfigFactoryFailed);
    }
    var resolvedConfig := configFactory.value;
    var error := registrar.LoadAndInject(resolvedConfig);
    if error.Some? {
      return Failure(error.value);
    }
    scope.RegisterInjectables();
    r := Success(resolvedConfig);
  }

  /** Two startup objects built on one scope, the first finding no pending
      list: the second reuses the list the first created, so both modules'
      bindings end up in one list, the first's before the second's, and the
      second load walks all of them. */
  method StartTwice<I>(scope: InjektScope<I>, readValue: (string, Klass) -> Option<I>,
                       first: KonfigModule, second: KonfigModule, config: Config)
    returns (r1: Result<Config, KonfigError>, r2: Result<Config, KonfigError>)
    requires ADDON_ID !in scope.addonMetadata
    modifies scope, scope.addonMetadata.Values
    ensures ADDON_ID in scope.addonMetadata
    ensures scope.addonMetadata[ADDON_ID].items == Expand([], first) + Expand([], second)
    ensures var load1 := InjectAll(old(scope.singletons), Expand([], first), config, readValue);
            r1.Success? <==> load1.error.None?
    ensures var load1 := InjectAll(old(scope.singletons), Expand([], first), config, readValue);
            var load2 := InjectAll(load1.singletons, Expand([], first) + Expand([], second), config, readValue);
            && scope.singletons == load2.singletons
            && (r2.Success? <==> load2.error.None?)
  {
    assert Pending(scope) == [];
    r1 := Init(scope, readValue, first, Some(config));
    ghost var afterFirst := scope.singletons;
    assert Pending(scope) == Expand([], first);
    r2 := Init(scope, readValue, second, Some(config));
    assert scope.singletons == InjectAll(afterFirst, Expand([], first) + Expand([], second), config, readValue).singletons;
  }
}
