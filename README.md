# Typesafe Config bindings for Injekt, modelled in Dafny

This project models the startup shim in `TypesafeConfigInjection.kt`. The shim
binds a Typesafe Config tree to class instances that an Injekt scope holds as
singletons. It has two parts, and both are modelled here.

- **The path-scoped registrar** (`ScopedKonfigRegistrar`). A registrar carries a
  path prefix, which is a list of segments, and a reference to a shared mutable
  list of pending `(path, class)` records. `importModule(atPath, module)` runs
  an application module under a child registrar whose prefix is extended by
  `atPath.split('.')`. `bindClassAtConfigRoot` and `bindClassAtConfigPath`
  normalise the prefix, plus the extra path's pieces. Normalising drops blank
  segments, strips one leading and one trailing `.` from each remaining segment
  and joins the rest with `.`. Each then appends one record.
- **The startup sequence** (the `init` block and `loadAndInject`). The pending
  list stored under the add-on id `"Konfigure"` is reused, or created and
  stored. The startup object's own module registers its bindings. The
  configuration factory runs. Then every pending record is loaded in list
  order: look up the object at its path, render it as JSON, deserialise it, and
  store it as the singleton for its class. Finally the scope is finalised.

Files:

- `paths.dfy` (module `KonfigPaths`): Kotlin's `split('.')`, `isBlank`,
  `removePrefix(".")`, `removeSuffix(".")` and `joinToString(".")` as
  functions, and the normalisation pipeline `FullPath`. Its lemmas cover the
  split/join round trips, well-formed results, idempotence, blank segments
  being ignored, and how prefixes concatenate.
- `bindings.dfy` (module `KonfigBindings`): the record type, and an application
  module as the list of calls its `registerConfigurables` makes (an import, a
  root binding, a binding at a path). `Expand` is the pure reference for what
  running a module under a prefix appends. Its lemmas cover imports, nesting,
  well-formed paths, and mounting a module anywhere.
- `loading.dfy` (module `KonfigLoading`): the configuration as a partial map
  from dotted paths to objects, one record's lookup and deserialisation, the
  walk over the list (`InjectAll`), and what the walk leaves in the singleton
  store.
- `injection.dfy` (module `TypesafeConfigInjection`): the state that changes in
  place. `BindingList` is the shared list. `InjektScope` holds the singleton
  store and the add-on metadata. `ScopedKonfigRegistrar` has the methods named
  above, with loops proved against `Expand` and `InjectAll`. `Init` is the
  `init` block.

Modelling decisions:

- Deserialisation (Jackson `readValue`) is a function parameter
  `readValue: (string, Klass) -> Option<I>`. `None` stands for any failure,
  including the `null` that `!!` rejects.
- The configuration factory's result is a parameter `Option<Config>`. `None`
  means `configFactory()` threw.
- A `Config` maps dotted paths to the object subtrees `getConfig` finds there.
  A path that is absent, or whose value is not an object, is not in the map.
- A subtree is carried by its concise JSON rendering.
- A Java class is `Klass(name)`.
- `addSingleton` replaces any earlier singleton for the same class.
  `addSingleton` belongs to Injekt, outside `TypesafeConfigInjection.kt`;
  replace-on-rebind is an assumption about it.
- The code throws exceptions; the model returns each failure as a value instead
  (`KonfigError`). The error kinds are a missing path, a deserialisation
  failure and a factory failure.
- Two details of the normalisation matter:
  - Normalisation filters out blank segments *before* stripping dots, so a
    segment `"."` or `".."` would leave an empty segment behind. Segments only
    ever come from `split('.')` and never contain a dot, so this cannot happen.
    The proved properties (no empty segment, idempotence) therefore assume
    dot-free segments. `KonfigPaths.IdempotenceNeedsDotFreeSegments` shows the
    pipeline is not idempotent on arbitrary segments.
  - The dot stripping never changes a segment that can actually occur
    (`KonfigPaths.StripEachDotFree`).
- Each startup walks the *whole* shared list. A second startup on the same
  scope therefore loads the first startup's records again, before its own
  (`StartTwice`).

## Model

| member | source | states |
|---|---|---|
| `KonfigPaths.JoinSplit` | config-typesafe-jdk6/src/main/kotlin/uy/kohesive/injekt/config/typesafe/TypesafeConfigInjection.kt:36 | joining the pieces of `split('.')` with `.` gives back any string |
| `KonfigPaths.SplitDotFree` | config-typesafe-jdk6/src/main/kotlin/uy/kohesive/injekt/config/typesafe/TypesafeConfigInjection.kt:36 | no piece of a split contains `.`, so prefixes built by imports are dot-free |
| `KonfigPaths.SplitJoin` | config-typesafe-jdk6/src/main/kotlin/uy/kohesive/injekt/config/typesafe/TypesafeConfigInjection.kt:45 | splitting the join of a non-empty list of dot-free segments gives back that list |
| `KonfigPaths.KeepNotBlank` | config-typesafe-jdk6/src/main/kotlin/uy/kohesive/injekt/config/typesafe/TypesafeConfigInjection.kt:45 | the filter keeps no blank segment and never lengthens the list |
| `KonfigPaths.KeepNotBlankConcat` | config-typesafe-jdk6/src/main/kotlin/uy/kohesive/injekt/config/typesafe/TypesafeConfigInjection.kt:45 | filtering a concatenation of lists is concatenating the filtered lists |
| `KonfigPaths.StripEachDotFree` | config-typesafe-jdk6/src/main/kotlin/uy/kohesive/injekt/config/typesafe/TypesafeConfigInjection.kt:40 | removing one leading and one trailing `.` changes no dot-free segment |
| `KonfigPaths.FullPathDotFree` | config-typesafe-jdk6/src/main/kotlin/uy/kohesive/injekt/config/typesafe/TypesafeConfigInjection.kt:40 | on dot-free segments the path is the non-blank segments joined, and it is `""` exactly when every segment is blank |
| `KonfigPaths.FullPathSegments` | config-typesafe-jdk6/src/main/kotlin/uy/kohesive/injekt/config/typesafe/TypesafeConfigInjection.kt:45 | splitting a non-empty produced path gives exactly the non-blank segments, in order |
| `KonfigPaths.FullPathNormalized` | config-typesafe-jdk6/src/main/kotlin/uy/kohesive/injekt/config/typesafe/TypesafeConfigInjection.kt:40-45 | a produced path has no empty or blank segment, and the root of an empty prefix is `""` |
| `KonfigPaths.FullPathNoStrayDots` | config-typesafe-jdk6/src/main/kotlin/uy/kohesive/injekt/config/typesafe/TypesafeConfigInjection.kt:40-45 | a produced path has no leading `.`, no trailing `.` and no `..` |
| `KonfigPaths.FullPathIdempotent` | config-typesafe-jdk6/src/main/kotlin/uy/kohesive/injekt/config/typesafe/TypesafeConfigInjection.kt:40-45 | splitting a produced path and normalising it again returns the same path |
| `KonfigPaths.IdempotenceNeedsDotFreeSegments` | config-typesafe-jdk6/src/main/kotlin/uy/kohesive/injekt/config/typesafe/TypesafeConfigInjection.kt:45 | on the unreachable segment list `["..", "a"]` the pipeline gives `.a`, and renormalising that gives `a` |
| `KonfigPaths.BlankSegmentIgnored` | config-typesafe-jdk6/src/main/kotlin/uy/kohesive/injekt/config/typesafe/TypesafeConfigInjection.kt:45 | a blank segment anywhere in the list does not change the path |
| `KonfigPaths.BlankPiecesIgnored` | config-typesafe-jdk6/src/main/kotlin/uy/kohesive/injekt/config/typesafe/TypesafeConfigInjection.kt:45 | under any prefix, binding at `a..b` or at ` .a.b.` gives the same path as binding at `a.b` |
| `KonfigPaths.FullPathConcat` | config-typesafe-jdk6/src/main/kotlin/uy/kohesive/injekt/config/typesafe/TypesafeConfigInjection.kt:36-45 | normalising two concatenated dot-free lists joins their normalisations, with a `.` only between two non-empty parts |
| `KonfigBindings.ChildPrefix` | config-typesafe-jdk6/src/main/kotlin/uy/kohesive/injekt/config/typesafe/TypesafeConfigInjection.kt:36 | the child prefix extends the parent's, and stays dot-free when the parent's is |
| `KonfigBindings.ExpandCallsConcat` | config-typesafe-jdk6/src/main/kotlin/uy/kohesive/injekt/config/typesafe/TypesafeConfigInjection.kt:91-95 | running two call lists one after the other appends both contributions, in order |
| `KonfigBindings.ImportedRootIsBindAtPath` | config-typesafe-jdk6/src/main/kotlin/uy/kohesive/injekt/config/typesafe/TypesafeConfigInjection.kt:35-46 | importing at `atPath` a module that binds at its root records the same record as binding at `atPath` |
| `KonfigBindings.NestedImportsCompose` | config-typesafe-jdk6/src/main/kotlin/uy/kohesive/injekt/config/typesafe/TypesafeConfigInjection.kt:35-41 | an import at `a` of an import at `b` of a root binding records the path `a.b` |
| `KonfigBindings.ExpandNormalized` | config-typesafe-jdk6/src/main/kotlin/uy/kohesive/injekt/config/typesafe/TypesafeConfigInjection.kt:34-47 | under a dot-free prefix, every record a module appends, at any nesting depth, has a normalised path with no stray `.` |
| `KonfigBindings.AllPathsNormalizedConcat` | config-typesafe-jdk6/src/main/kotlin/uy/kohesive/injekt/config/typesafe/TypesafeConfigInjection.kt:41-46 | appending records with normalised paths to a list whose paths are normalised keeps every path normalised |
| `KonfigBindings.MountMount` | config-typesafe-jdk6/src/main/kotlin/uy/kohesive/injekt/config/typesafe/TypesafeConfigInjection.kt:36 | moving records below `b` and then below `a` is moving them below `a` joined with `b` |
| `KonfigBindings.ExpandMounted` | config-typesafe-jdk6/src/main/kotlin/uy/kohesive/injekt/config/typesafe/TypesafeConfigInjection.kt:34-47 | a module's records under a dot-free prefix are its records under the empty prefix, each path joined below the prefix's path |
| `KonfigLoading.LoadOne` | config-typesafe-jdk6/src/main/kotlin/uy/kohesive/injekt/config/typesafe/TypesafeConfigInjection.kt:52-55 | one record fails exactly when its path is absent or deserialisation fails; an absent path is a missing-path error; on success the instance is the deserialisation of the rendered subtree |
| `KonfigLoading.FirstFailure` | config-typesafe-jdk6/src/main/kotlin/uy/kohesive/injekt/config/typesafe/TypesafeConfigInjection.kt:51-57 | the index of the first record that fails to load (or the list's length): every record before it loads |
| `KonfigLoading.InjectAllCharacterized` | config-typesafe-jdk6/src/main/kotlin/uy/kohesive/injekt/config/typesafe/TypesafeConfigInjection.kt:51-57 | the walk reports the first failing record's error, and no error when none fails; the store gains exactly the classes of the records before it; other classes are unchanged; each class holds its last record's instance |
| `KonfigLoading.LoadStopsAtMissingPath` | config-typesafe-jdk6/src/main/kotlin/uy/kohesive/injekt/config/typesafe/TypesafeConfigInjection.kt:52 | a record with an absent path, all earlier records loading, stops the walk with that path's error; earlier records stay injected; classes bound only later are not added |
| `KonfigLoading.LoadAllPresent` | config-typesafe-jdk6/src/main/kotlin/uy/kohesive/injekt/config/typesafe/TypesafeConfigInjection.kt:51-57 | when every record loads, the walk reports no error and injects every record |
| `KonfigLoading.LaterBindingOverwrites` | config-typesafe-jdk6/src/main/kotlin/uy/kohesive/injekt/config/typesafe/TypesafeConfigInjection.kt:56 | binding a class again later in the list leaves the later record's instance as that class's singleton |
| `TypesafeConfigInjection.BindingList.constructor` | config-typesafe-jdk6/src/main/kotlin/uy/kohesive/injekt/config/typesafe/TypesafeConfigInjection.kt:62 | a new pending list is empty |
| `TypesafeConfigInjection.BindingList.Add` | config-typesafe-jdk6/src/main/kotlin/uy/kohesive/injekt/config/typesafe/TypesafeConfigInjection.kt:41 | appends exactly one record at the end; earlier records are unchanged |
| `TypesafeConfigInjection.InjektScope.GetAddonMetadata` | config-typesafe-jdk6/src/main/kotlin/uy/kohesive/injekt/config/typesafe/TypesafeConfigInjection.kt:62 | returns the list stored under the id, or nothing when none is stored |
| `TypesafeConfigInjection.InjektScope.SetAddonMetadata` | config-typesafe-jdk6/src/main/kotlin/uy/kohesive/injekt/config/typesafe/TypesafeConfigInjection.kt:62 | stores the list under the id, returns it, and changes nothing else |
| `TypesafeConfigInjection.InjektScope.AddSingleton` | config-typesafe-jdk6/src/main/kotlin/uy/kohesive/injekt/config/typesafe/TypesafeConfigInjection.kt:56 | the instance becomes the singleton for the class, replacing any earlier one; nothing else changes |
| `TypesafeConfigInjection.InjektScope.RegisterInjectables` | config-typesafe-jdk6/src/main/kotlin/uy/kohesive/injekt/config/typesafe/TypesafeConfigInjection.kt:67 | records that finalisation ran; the store and the metadata are unchanged |
| `TypesafeConfigInjection.ScopedKonfigRegistrar.constructor` | config-typesafe-jdk6/src/main/kotlin/uy/kohesive/injekt/config/typesafe/TypesafeConfigInjection.kt:34 | a registrar keeps the prefix, scope and list it is given; the list is shared, not copied |
| `TypesafeConfigInjection.ScopedKonfigRegistrar.ImportModule` | config-typesafe-jdk6/src/main/kotlin/uy/kohesive/injekt/config/typesafe/TypesafeConfigInjection.kt:35-37 | the shared list gains exactly what the imported module appends under the extended prefix; the import adds nothing itself |
| `TypesafeConfigInjection.ScopedKonfigRegistrar.BindClassAtConfigRoot` | config-typesafe-jdk6/src/main/kotlin/uy/kohesive/injekt/config/typesafe/TypesafeConfigInjection.kt:39-42 | appends exactly one record, with the normalised prefix as its path; the path is normalised when the prefix is dot-free |
| `TypesafeConfigInjection.ScopedKonfigRegistrar.BindClassAtConfigPath` | config-typesafe-jdk6/src/main/kotlin/uy/kohesive/injekt/config/typesafe/TypesafeConfigInjection.kt:44-47 | appends exactly one record, with the normalised prefix plus the pieces of the path as its path; the path is normalised when the prefix is dot-free |
| `TypesafeConfigInjection.ScopedKonfigRegistrar.RegisterWith` | config-typesafe-jdk6/src/main/kotlin/uy/kohesive/injekt/config/typesafe/TypesafeConfigInjection.kt:91-95 | running a module's calls in order appends exactly `Expand(prefix, module)` after the existing records |
| `TypesafeConfigInjection.ScopedKonfigRegistrar.LoadAndInject` | config-typesafe-jdk6/src/main/kotlin/uy/kohesive/injekt/config/typesafe/TypesafeConfigInjection.kt:50-58 | the store and the returned error are those of `InjectAll` over the whole shared list; the metadata is unchanged |
| `TypesafeConfigInjection.Init` | config-typesafe-jdk6/src/main/kotlin/uy/kohesive/injekt/config/typesafe/TypesafeConfigInjection.kt:61-68 | an existing pending list is reused; otherwise a fresh one is stored. The module's records go after the pending ones, and other lists are untouched. A factory failure is returned with the store unchanged. Otherwise the whole list is loaded; a load error is returned before finalisation; on success the scope is finalised |
| `TypesafeConfigInjection.StartTwice` | config-typesafe-jdk6/src/main/kotlin/uy/kohesive/injekt/config/typesafe/TypesafeConfigInjection.kt:62-66 | two startups on one scope share one list: the first module's records, then the second's. The second load walks both, starting from the store the first left |

## Left out

- Typesafe Config parsing, resolution and rendering are not modelled: they are a
  foreign library. A `Config` is a partial map; a subtree carries its rendered
  JSON. In particular the model does not say whether `getConfig("")` succeeds.
  A root binding of the top-level module has the path `""`, and whether that
  path is present is up to the map.
- Jackson deserialisation is a function parameter. Its failure modes are
  reduced to "may fail".
- Injekt's internals (`registerInjectables`, the global `Injekt` scope behind
  `KonfigAndInjektMain`, how singletons are stored and resolved) are not
  modelled. `InjektScope.RegisterInjectables` only records that it ran. The
  replace-on-rebind behaviour of `AddSingleton` is an assumption about
  Injekt, which lies outside `TypesafeConfigInjection.kt`. Scopes are created
  by Injekt, so `InjektScope` has no constructor in the model.
- Add-on metadata of other types is not modelled. The metadata map holds only
  pending lists.
- The reified helpers `bindClassAtConfigPath<T>()` / `bindClassAtConfigRoot<T>()`
  only forward to the modelled methods.
- The bodies of application modules are not modelled in general. A module is
  the list of registrar calls its `registerConfigurables` makes; modules that
  compute their calls, or call anything else, are not modelled.
- Import cycles: the code recurses without end (until a stack overflow escapes
  the constructor) on a module that imports itself, directly or through another
  module. `KonfigModule` values are finite trees, so cycles are not modelled,
  and `Expand`, `RegisterWith` and `Init` always terminate.
- `resolvedConfig` (a `Delegates.notNull` property) is not modelled as a field.
  `Init` returns the resolved configuration instead.
- Exceptions are not modelled as exceptions. `Init` returns the first failure
  as a value, while the code throws it out of the constructor.
- Thread safety is not modelled: startup is single-threaded.
- Characters: `IsWhitespace` lists the characters Kotlin's `Char.isWhitespace`
  accepts on Java 6 to 8, where U+180E is still a space separator; on Java 9
  and later U+180E is not whitespace, and a segment made of it would be kept. The proofs rely only on `.` not being whitespace.
