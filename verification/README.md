# xtent.js in Dafny

xtent.js is an in-process dependency-injection container for TypeScript. This
project models the container's core and the pure helpers of its examples and
scripts, and proves properties of them.

- **Identifiers** (`Identifier`, `Extension`). `entity(type, variant)` and the
  older `defineExtension` build a (name, variant) pair. Calling an identifier
  with a new variant gives the sibling identifier that has the same name.
- **Scope keys** (`Scope`). A scope path is stringified by joining its
  segments with `/`.
- **Synthesized factories** (`Factory`). `buildFactoryFunction` turns a
  dependency list into constructor arguments:
  - a plain identifier becomes `get(id)`;
  - a one-element array `[id]` becomes the list of `getAll(id)` values;
  - an array of any other length is an error;
  - the context is always the last argument.
- **Registry and resolver** (`Registry`, `Resolver`, `ContainerContract`). The
  store maps kind → variant → recipe, kept in registration order. A context
  holds a snapshot of the registry and a memo pool. The resolver carries an
  in-flight stack and yields:
  - EntityNotFound for an identifier with no recipe;
  - MissingDependency for a missing dependency;
  - CircularDependency for a cycle;
  - a recursion-limit error beyond depth 100.

  Every success is pooled. `ContainerContract` proves the behaviour that the
  unit tests assert, for every registry.
- **Plugin-system examples** (`JsonMerge`, `PluginConfig`, `PluginHost`,
  `PluginSystem`, `Bundler`, `TextTransforms`). These cover:
  - `mergeDeep` on JSON-like values;
  - the config fold `buildConfigFromPlugins`;
  - config and transform plugins, whose registration threads the key counter
    explicitly;
  - the shebang, licence and indentation transforms;
  - `processModule` and `processFile`.

  `PluginSystem` models the `lib/` variant; `Bundler` models `lib.ts`.
- **Plugin-priority example** (`Priority`). Database plugins register their
  class and publish metadata. The preferred database is the first entry of
  highest priority after a stable descending sort.
- **Changelog script** (`Changelog`). This covers:
  - the commit classifier, including an exact model of
    `/^(\w+)(?:\(.+\))?:/`;
  - `processLog` with its sentinel line;
  - `generateMarkdown`;
  - the changeset file-name check `/^[a-z]+-[a-z]+-[a-z]+\.md$/`.

The source's `src/store.ts` and `src/context.ts` are placeholders: `insert`
only logs, and `get` throws "not implemented". The store and context semantics
therefore come from the assertions in `tests/xtent.unit.spec.ts`. Where the
tests say nothing, the model makes its own choices, listed under "## Left out".

The identifier's name field needs a note:
- `src/entity.ts:14` and `src/extension.ts:14` write the name into a field
  called `type`.
- `src/types.ts:17` and the test at `tests/xtent.unit.spec.ts:59,64` read it
  as `kind`.

The model keeps a single field, `name`, and leaves this divergence unresolved.

## Model

| member | source | states |
|---|---|---|
| `Identifier.Entity` | src/entity.ts:5-18 | the identifier's name is the type passed in and its variant is the variant passed in |
| `Identifier.OmittedVariantIsDefault` | src/entity.ts:3-7 | when the variant is omitted it is "default" |
| `Identifier.Sibling` | src/entity.ts:9-12 | calling an identifier with `v` gives the same name with variant `v`, which is `entity(name, v)` |
| `Identifier.SiblingIgnoresVariant` | src/entity.ts:9-12 | `entity(t, a)(b)` equals `entity(t, b)` and shares the kind of `entity(t, a)` |
| `Identifier.SiblingOfOwnVariant` | src/entity.ts:9-12 | calling an identifier with its own variant gives it back |
| `Identifier.DerivationKeepsName` | src/entity.ts:5-18 | however many times an identifier is called, the name is unchanged and only the last variant counts |
| `Extension.DefineExtension` | src/extension.ts:5-18 | `defineExtension`'s name and variant fields are its arguments, and it builds an identifier of the same family as `entity` |
| `Extension.OmittedExtensionVariantIsDefault` | src/extension.ts:3-7 | the omitted variant is "default" |
| `Extension.ExtensionSibling` | src/extension.ts:9-12 | calling an extension id with `b` gives `defineExtension(type, b)` whatever its own variant was; both constructors build the same identifier |
| `Scope.RootStringifiesToEmpty` | src/const.ts:2-5 | the root scope has no segments and stringifies to "" |
| `Scope.SingleSegmentUnchanged` | src/const.ts:3-4 | a one-segment scope stringifies to that segment |
| `Scope.StringifyAppend` | src/const.ts:3-4 | the segments are joined in order with one "/" between neighbours |
| `Scope.StringifyRoundTrip` | src/const.ts:2-6 | splitting a non-root key on "/" gives back the segments, when no segment holds a "/" |
| `Scope.DefaultVariantsAgree` | src/const.ts:7 | `ENTITY_VARIANT_DEFAULT` is "default", the same value entity.ts uses |
| `Factory.BuildArgs` | src/utils.ts:24-46 | the argument loop succeeds iff every dependency is well-formed and resolves, giving one argument per dependency in order: `get` for an id, the `getAll` list for `[id]`; otherwise it fails with the first failing dependency's error |
| `Factory.Build` | src/utils.ts:19-55 | the target is called only if every dependency resolved, with the resolved arguments followed by the context, on both the constructor and the function path |
| `Factory.NoDependenciesOnlyContext` | src/utils.ts:19-53 | with the default empty dependency list the target receives only the context |
| `Factory.BadPatternThrows` | src/utils.ts:29-34 | an array dependency whose length is not 1 throws, with that length, and the target is never called |
| `Strings.SplitJoin` | examples/plugin-system/lib.ts:81-83 | `join` then `split` on the same separator gives back the parts when no part contains it |
| `Strings.JoinSplit` | examples/plugin-system/lib.ts:81-83 | `split` then `join` gives back the string |
| `Strings.TrimStart` | examples/plugin-system/lib.ts:82 | `trimStart` drops exactly the longest prefix of whitespace and line terminators |
| `Strings.NatToStringInjective` | examples/plugin-system/lib/plugins.ts:18 | distinct counter values render as distinct decimal variants |
| `Registry.Put` | src/store.ts:15-18 | `Map.set` on a kind's table: the new recipe is found, other variants keep theirs, an existing variant keeps its position and a new one is appended |
| `Registry.Register` | tests/xtent.unit.spec.ts:196-211 | registration sets exactly one slot and leaves every other slot and kind alone; without override an occupied slot is a conflict |
| `Registry.Override` | tests/xtent.unit.spec.ts:196-211 | `override` always binds the new recipe and changes no other slot |
| `Registry.DuplicateRegistrationConflicts` | tests/xtent.unit.spec.ts:196-211 | a second `use` of a slot fails, while `override` of it replaces the recipe |
| `Registry.LastOverrideWins` | tests/xtent.unit.spec.ts:196-211 | after several overrides of one identifier the last one is bound |
| `Registry.RegistrationOrder` | tests/xtent.unit.spec.ts:272-293 | registering a new variant appends it to its kind's variant order, and re-registering keeps the order |
| `Registry.FreshRegistrationsAppend` | tests/xtent.unit.spec.ts:272-293 | registering distinct new variants appends exactly those bindings, in order, and leaves other kinds alone |
| `Resolver.Resolve` | tests/xtent.unit.spec.ts:352-401 | the pool only grows, nothing on the stack is pooled, a success is pooled under its id, and EntityNotFound escapes only for the id itself when it has no recipe; a pooled id is returned as is; an unpooled id one level past 100 fails with RecursionLimit; an unpooled id already on the stack fails with CircularDependency along the stack; an EntityNotFound(m) raised while running the recipe becomes MissingDependency(m, id) |
| `Resolver.ResolveDeps` | src/utils.ts:25-46 | the resolver's argument loop gives one argument per dependency, and every plain dependency it used is registered |
| `Resolver.Get` | tests/xtent.unit.spec.ts:306-357 | `get` keeps the registry and only adds to the pool; a success is pooled under the id; EntityNotFound means the id has no recipe |
| `Resolver.GetAll` | tests/xtent.unit.spec.ts:271-303 | `getAll` returns exactly the non-excluded variants of the kind in registration order, each pooled under its own key |
| `Resolver.GetOptional` | src/context.ts:12-14 | `getOptional` gives None exactly when the id has no recipe; any other error is the error `get` raises, and a value is the value `get` returns |
| `ContainerContract.UnregisteredIsNotFound` | tests/xtent.unit.spec.ts:352-357 | `get` of an identifier with no recipe fails with EntityNotFound |
| `ContainerContract.ResolveDepsSplit` | src/utils.ts:25-46 | the argument loop over a dependency list is the loop over any prefix that succeeds, followed by the loop over the rest from the pool the prefix left, with the arguments concatenated |
| `ContainerContract.MissingDependencyIsReported` | tests/xtent.unit.spec.ts:359-370 | a binding whose dependency k is unregistered, the dependencies before it having resolved, fails with MissingDependency naming both, not EntityNotFound |
| `ContainerContract.FirstDependencyMissing` | tests/xtent.unit.spec.ts:359-370 | the tested shape: a binding whose first dependency is unregistered fails with MissingDependency naming both |
| `ContainerContract.CycleIsDetected` | tests/xtent.unit.spec.ts:372-387 | two bindings whose first dependencies are each other fail with CircularDependency along the path a, b, a (the general rule for any stack is part of Resolver.Resolve) |
| `ContainerContract.RepeatedGetIsPooled` | tests/xtent.unit.spec.ts:389-401 | a second `get` on the same context returns the same value and leaves the context unchanged |
| `ContainerContract.ResolvedArgsArePooled` | tests/xtent.unit.spec.ts:243-268 | the arguments the resolver injected are exactly those `buildFactoryFunction` computes from the pooled values, so injected values are the pooled instances |
| `ContainerContract.InjectedDependencyIsPooled` | tests/xtent.unit.spec.ts:233-241 | the value injected for a plain dependency is what a later direct `get` on the same context returns, and that `get` changes nothing |
| `ContainerContract.GetAllOfUnregisteredKindIsEmpty` | tests/xtent.unit.spec.ts:295-303 | `getAll` of an unregistered kind succeeds with no entries and leaves the context unchanged |
| `ContainerContract.GetAllKeepsRegistrationOrder` | tests/xtent.unit.spec.ts:272-293 | two variants used one after the other come back from `getAll` in that order |
| `ContainerContract.ConstantsResolveInOrder` | tests/xtent.unit.spec.ts:272-293 | resolving variants bound to values yields those values in the order asked, pooling nothing else |
| `ContainerContract.GetAllOfConstants` | tests/xtent.unit.spec.ts:272-293 | on a fresh context, `getAll` of value bindings gives each selected variant's value and pools only that kind |
| `ContainerContract.GetAllOfTable` | tests/xtent.unit.spec.ts:272-293 | on a fresh context, `getAll` of a kind bound only to values returns its whole table in order |
| `ContainerContract.AliasResolvesToTarget` | tests/xtent.unit.spec.ts:196-207 | a factory `cx => cx.get(X)` resolves to the instance of X |
| `ContainerContract.ConstructWithoutDepsResolves` | tests/xtent.unit.spec.ts:219-223 | an added class without dependencies resolves to a new instance called with the context alone, pooled under its id |
| `ContainerContract.OverrideTakesEffect` | tests/xtent.unit.spec.ts:208-210 | a context created after `override` resolves through the new factory |
| `ContainerContract.DatabasePluginStep` | tests/xtent.unit.spec.ts:78-81 | a plugin's `register` adds its class and points `AnyDatabase` at it, touching nothing else |
| `ContainerContract.LastPluginWins` | tests/xtent.unit.spec.ts:105-115 | after distinct plugins register in turn, `AnyDatabase` is bound to the last plugin's class |
| `ContainerContract.LastPluginResolves` | tests/xtent.unit.spec.ts:117-119 | `AnyDatabase` then resolves to an instance of the last plugin's class |
| `ContainerContract.MockOnlyScenario` | tests/xtent.unit.spec.ts:122-124 | with only the default mock plugin, the database is the mock |
| `ContainerContract.NoSqlScenario` | tests/xtent.unit.spec.ts:126-127 | adding the NoSQL plugin after the mock gives the NoSQL database |
| `ContainerContract.SqlLastScenario` | tests/xtent.unit.spec.ts:128-130 | adding NoSQL then SQL gives the SQL database |
| `JsonMerge.MergeDeep` | examples/plugin-system/lib/transformer.ts:90-118 | a non-object on either side returns the source; an object target gets the keys of both sides, keeps its own where the source is silent, and takes the merge of the two values for every source key; two top-level arrays are merged in place index by index, to the longer length, with the target's surplus items kept |
| `JsonMerge.ArrayMergeMatchesObjectView` | examples/plugin-system/lib/transformer.ts:101-115 | the in-place merge of two top-level arrays, read by decimal index, is exactly the key-by-key merge of the two arrays' index keys |
| `JsonMerge.MergeDeepLeaves` | examples/plugin-system/lib/transformer.ts:90-118 | for two array-free object trees, the leaf at any path of the result is the source's leaf there, unless the path leaves the source through a missing key, where it is the target's |
| `JsonMerge.MergeInto` | examples/plugin-system/lib/transformer.ts:101-115 | the merged object has the keys of both sides; target-only keys keep their values; each source key takes the merge of its two values |
| `JsonMerge.NonObjectGivesSource` | examples/plugin-system/lib/transformer.ts:97-99 | if either argument is not an object the source is returned |
| `JsonMerge.TargetOnlyKeysKept` | examples/plugin-system/lib/transformer.ts:101-115 | keys present only in the target keep their values, and the result has exactly the keys of both |
| `JsonMerge.ArraysConcatenate` | examples/plugin-system/lib.ts:170-171 | where both values are arrays the result is target followed by source |
| `JsonMerge.ObjectsMergeRecursively` | examples/plugin-system/lib/transformer.ts:107-111 | where both values are objects (not both arrays) the merge recurses into a plain-object copy of the target value |
| `JsonMerge.SourceWinsOtherwise` | examples/plugin-system/lib/transformer.ts:112-114 | in every other case the source value replaces the target value |
| `JsonMerge.EmptySourceIsIdentity` | examples/plugin-system/lib/transformer.ts:101-117 | merging an empty object changes nothing |
| `JsonMerge.MergeIntoUndefined` | examples/plugin-system/lib/transformer.ts:112-114 | a value merged over an absent property comes back unchanged |
| `JsonMerge.MergeIntoEmptyCopies` | examples/plugin-system/lib/transformer.ts:107-111 | merging a value into an empty object copies its properties and adds none |
| `PluginConfig.DefaultConfig` | examples/plugin-system/lib/transformer.ts:43-47 | the merge starts from exactly `name`, `outDir` "dist" and empty `inputs` |
| `PluginConfig.MergeAllAppend` | examples/plugin-system/lib/transformer.ts:54-56 | the configs are folded in order: the last one is merged last |
| `PluginConfig.MergeAllKeys` | examples/plugin-system/lib/transformer.ts:54-56 | the merged config has the keys of the defaults and of every config |
| `PluginConfig.UnmentionedKeyKept` | examples/plugin-system/lib/transformer.ts:43-56 | a key no config mentions keeps its default value |
| `PluginConfig.LastScalarWins` | examples/plugin-system/lib/transformer.ts:54-56 | a key takes the non-object value of the last config that mentions it |
| `PluginConfig.ConfigFrom` | examples/plugin-system/lib/transformer.ts:42-58 | the config builder keeps the registry, only adds to the pool, and its result always has the default keys |
| `PluginHost.RegisterPlugin` | examples/plugin-system/lib/plugins.ts:15-32 | a config plugin advances the counter and a transform plugin does not; registration succeeds iff its slot is free, binds exactly that slot to the plugin's payload, and leaves the others alone |
| `PluginHost.ConfigSlotsDistinct` | examples/plugin-system/lib/plugins.ts:14-18 | config plugins registered at different counter values use different variants |
| `PluginHost.TransformSlotIsName` | examples/plugin-system/lib/plugins.ts:23-32 | a transform plugin registers under a variant equal to its name |
| `PluginHost.ConfigPluginsRegisterEach` | examples/plugin-system/lib/plugins.ts:15-21 | registering config plugins binds their objects, in order, under consecutive counter variants |
| `PluginHost.TransformPluginsRegisterEach` | examples/plugin-system/lib/plugins.ts:23-32 | registering transform plugins binds each transformer under its name, in order |
| `PluginHost.ConfigBindingsFresh` | examples/plugin-system/lib/plugins.ts:14-18 | the counter variants are pairwise distinct and never "default" |
| `PluginHost.ConfigFromConfigPlugins` | examples/plugin-system/lib/transformer.ts:42-58 | with config plugins only, registration succeeds and the built config is the defaults merged with every plugin's object in registration order, "default" excluded |
| `PluginHost.TransformersFromTransformPlugins` | examples/plugin-system/lib/transformer.ts:61 | with distinctly named transform plugins, `getAll` returns their transformers in registration order |
| `PluginSystem.XtentWellFormed` | examples/plugin-system/lib/plugins.ts:8-18 | the `${key}` variants are distinct and never "default", and the two kinds differ |
| `PluginSystem.ShebangOnlyForIncluded` | examples/plugin-system/lib/plugins.ts:34-43 | shebang leaves code whose file is not included unchanged, and prefixes included files with the shebang line |
| `PluginSystem.DefaultShebangChangesNothing` | examples/plugin-system/lib/plugins.ts:34-38 | with the default empty include list the shebang never changes the code |
| `PluginSystem.LicenceWraps` | examples/plugin-system/lib/plugins.ts:45-52 | the licence output is 8 characters longer than licence and code together, and ends with the code |
| `PluginSystem.ProcessModule` | examples/plugin-system/lib/transformer.ts:60-66 | processing changes only the module's code |
| `PluginSystem.ProcessModuleSequential` | examples/plugin-system/lib/transformer.ts:61-63 | each transformer sees the module as the earlier ones left it |
| `PluginSystem.ProcessModuleCompose` | examples/plugin-system/lib/transformer.ts:61-63 | running two transformer lists in turn is running their concatenation |
| `PluginSystem.ProcessModuleIn` | examples/plugin-system/lib/transformer.ts:60-66 | `processModule` with a context changes only the code |
| `PluginSystem.XtentConfig` | examples/plugin-system/lib/transformer.ts:42-58 | the lib/ variant's config is the defaults named "xtent" merged with the config plugins' objects in order |
| `PluginSystem.ShebangLicenceTransformers` | examples/plugin-system/lib/transformer.ts:10-19 | a transformer set up with the shebang and licence plugins sees those two transformers, in plugin order |
| `PluginSystem.ShebangLicenceChain` | examples/plugin-system/lib/transformer.ts:61-63 | the licence transform runs on the shebang transform's output |
| `PluginSystem.ShebangThenLicence` | examples/plugin-system/lib/transformer.ts:10-66 | processing a module with those plugins gives the licence banner around the shebang-transformed code |
| `TextTransforms.WithShebang` | examples/plugin-system/lib.ts:91 | the shebang transform returns the shebang line followed by the unchanged code |
| `TextTransforms.WithLicence` | examples/plugin-system/lib.ts:99-100 | the licence output starts with "/*\n", ends with the code, and is 8 characters longer than licence and code together |
| `TextTransforms.LicenceRecoverable` | examples/plugin-system/lib.ts:99-100 | the licence text and the code can both be read back from the output |
| `TextTransforms.LinesOfRemoveIndentation` | examples/plugin-system/lib.ts:80-83 | indentation removal keeps the number of lines, and each output line is its input line without leading whitespace |
| `TextTransforms.RemoveIndentationIdempotent` | examples/plugin-system/lib.ts:80-84 | removing indentation twice is the same as once |
| `Bundler.BundleWellFormed` | examples/plugin-system/lib.ts:51-61 | the `c-${key}` variants are distinct and never "default", and the two kinds differ |
| `Bundler.ProcessFile` | examples/plugin-system/lib.ts:123-131 | `processFile` keeps `outFilePath`, and with no transformers returns the file unchanged |
| `Bundler.RunAllSequential` | examples/plugin-system/lib.ts:126-128 | each transformer receives the previous one's output |
| `Bundler.ProcessFileIn` | examples/plugin-system/lib.ts:123-131 | `processFile` with a context never changes `outFilePath` |
| `Bundler.BundleConfig` | examples/plugin-system/lib.ts:105-121 | the config is the defaults named "bundle" with `outDir` "dist", merged with the config plugins' objects in order |
| `Bundler.DemoTransformers` | examples/plugin-system/lib.ts:9-18 | the indentation, shebang and licence plugins register, and `getAll` returns their transformers in that order |
| `Bundler.DemoChain` | examples/plugin-system/lib.ts:77-103 | the three transforms compose as de-indent, then shebang, then licence |
| `Bundler.DemoPipeline` | examples/plugin-system/lib.ts:123-131 | a file processed with those plugins gets the composed code at the same output path |
| `Priority.MetaId` | examples/plugin-priority/index.ts:36 | metadata is registered under kind "DatabasePlugins" with the plugin's type as variant |
| `Priority.MetaOf` | examples/plugin-priority/index.ts:36-40 | the metadata carries the plugin's type, its class and its priority, which defaults to 0 |
| `Priority.RegisterPlugin` | examples/plugin-priority/index.ts:32-41 | a plugin without a type throws before registering anything; otherwise it succeeds iff its class and metadata slots are free, binding exactly those two |
| `Priority.SortByPriority` | examples/plugin-priority/index.ts:62-64 | the sort is a permutation into non-increasing priority |
| `Priority.InsertKeepsDescending` | examples/plugin-priority/index.ts:62-64 | one insertion step keeps the sequence in non-increasing priority |
| `Priority.FirstMax` | examples/plugin-priority/index.ts:62-66 | the chosen entry's priority is at least every other entry's, and it is the first such entry |
| `Priority.SortedHeadIsFirstMax` | examples/plugin-priority/index.ts:62-66 | the head of the stable descending sort is the first entry of highest priority |
| `Priority.ResolvePreferred` | examples/plugin-priority/index.ts:59-72 | with no metadata registered, selection fails with "no database implementation found"; the registry is kept and the pool only grows |
| `Priority.RegisterPluginAppends` | examples/plugin-priority/index.ts:32-41 | a plugin registering on free slots appends its metadata to the metadata table |
| `Priority.RegisterPluginsTable` | examples/plugin-priority/index.ts:85-87 | compatible plugins on free slots all register, and their metadata is appended in plugin order |
| `Priority.RegisterPluginsKeeps` | examples/plugin-priority/index.ts:85-87 | registering plugins leaves every slot they do not use unchanged |
| `Priority.RegisterPluginsClass` | examples/plugin-priority/index.ts:34 | after registration each plugin's class is bound to a constructor without dependencies |
| `Priority.AppTable` | examples/plugin-priority/index.ts:78-90 | the app's store holds the metadata of the default plugins followed by the given ones |
| `Priority.AppMetadata` | examples/plugin-priority/index.ts:60 | `getAll` of the metadata kind returns the plugins' metadata in registration order |
| `Priority.PreferredIsFirstHighest` | examples/plugin-priority/index.ts:59-72 | the app's database is an instance of the class whose metadata is first among the highest priority |
| `Priority.DefaultAppUsesMock` | examples/plugin-priority/index.ts:97 | with the default plugins only, MOCK is selected |
| `Priority.SqlOutranksOthers` | examples/plugin-priority/index.ts:98 | with SQL (1000) and NOSQL (100) added, SQL is selected |
| `Priority.UntypedPluginStopsApp` | examples/plugin-priority/index.ts:33 | a plugin without a type stops registration with "A type is required", whatever follows it |
| `Changelog.WordLength` | scripts/changelog-gen.mjs:55 | `\w+` takes the longest run of word characters |
| `Changelog.ScopeFromFinds` | scripts/changelog-gen.mjs:55 | the backtracking scan for `\(.+\):` succeeds iff some later `):` closes the group with no line terminator before it |
| `Changelog.HeaderTypeMatches` | scripts/changelog-gen.mjs:55 | the computed header type is `w` iff the line matches `/^(\w+)(?:\(.+\))?:/` with group 1 equal to `w` |
| `Changelog.Classify` | scripts/changelog-gen.mjs:55-60 | every line is filed under one of the listed commit types |
| `Changelog.ClassifyByType` | scripts/changelog-gen.mjs:55-57 | a line goes to a listed type other than "other" iff its header matches that type |
| `Changelog.ClassifyOther` | scripts/changelog-gen.mjs:58-59 | a line goes to "other" iff no other listed type matches its header |
| `Changelog.EmptyLineIsOther` | scripts/changelog-gen.mjs:58-59 | an empty line goes to "other" |
| `Changelog.EmptyGroups` | scripts/changelog-gen.mjs:67-70 | the groups start with one empty list per commit type |
| `Changelog.ProcessLines` | scripts/changelog-gen.mjs:49-64 | processing keeps the set of groups |
| `Changelog.StopAt` | scripts/changelog-gen.mjs:53 | the stop position is the first line starting with "chore: version packages", or the end |
| `Changelog.ProcessLinesGroups` | scripts/changelog-gen.mjs:52-63 | each group gains exactly the lines before the sentinel that classify into it, in log order; the result is true iff a sentinel line was found |
| `Changelog.FreshLogGroups` | scripts/changelog-gen.mjs:49-70 | on fresh groups, each group of a processed log is exactly its lines before the sentinel |
| `Changelog.ClaimedOnce` | scripts/changelog-gen.mjs:55-60 | with distinct types that cover every classification, each line is claimed by exactly one type |
| `Changelog.EveryLineGrouped` | scripts/changelog-gen.mjs:52-60 | every line lands in exactly one of the listed groups |
| `Changelog.TotalGrows` | scripts/changelog-gen.mjs:52-60 | the grouped total grows by the number of lines before the sentinel claimed by the given types |
| `Changelog.GroupedCount` | scripts/changelog-gen.mjs:52-60 | the total grouped count grows by exactly the number of lines before the sentinel |
| `Changelog.UpperAscii` | scripts/changelog-gen.mjs:103 | a lowercase ASCII letter becomes its uppercase letter; other characters are unchanged |
| `Changelog.Capitalize` | scripts/changelog-gen.mjs:103 | only the first character is upper-cased and the rest is kept |
| `Changelog.Bullets` | scripts/changelog-gen.mjs:104 | each commit renders as "- " followed by its message, in order |
| `Changelog.MarkdownAppend` | scripts/changelog-gen.mjs:101-107 | groups are rendered in order, and an empty group adds nothing |
| `Changelog.NoCommitsNoMarkdown` | scripts/changelog-gen.mjs:102 | when every group is empty the markdown is empty |
| `Changelog.SectionIsJoin` | scripts/changelog-gen.mjs:103-105 | a section is the heading, the bullets and a final empty line, joined by newlines |
| `Changelog.SectionLines` | scripts/changelog-gen.mjs:103-105 | split on newlines, a section gives back the heading, each bullet, and a final empty line |
| `Changelog.ChangesetNameMatches` | scripts/changelog-gen.mjs:22 | a changeset file name is accepted iff it is three non-empty a–z runs joined by "-", followed by ".md" |

## Left out

- Scopes and parent contexts: the resolver has a single root scope. The store in `src/store.ts` has no scope logic to follow, and the tests use none.
- `isConstructor` (src/utils.ts:4-17) relies on `Reflect.construct` probing. The target is instead a tagged `Ctor | Fn`.
- The constructor-to-identity table: a class used as a key is modelled as `ClassId(name)`, the class name under the default variant.
- `src/store.ts`, `src/context.ts` and `src/provider.ts` are stubs, so the registry, the context and `getOptional` follow the tests instead. The tests never register into an occupied slot without `override`; the model makes that a RegistrationConflict.
- The model bounds resolution depth at 100 (RecursionLimit). The stubbed context has no resolver, so no depth bound exists in the source.
- I/O is not modelled:
  - `loadFiles`, `build()`, `mkdirSync` and `writeFileSync`;
  - `readGitCommits`, with its `execSync` git calls and Promise;
  - `getChangelogFile`, with its `readdir` and ctime sort;
  - the script's final `appendFileSync`.
- `readGitCommits` can loop forever on a log with no sentinel line. This was not modelled, because the loop is driven by git output.
- `examples/plugin-system/lib/lib.mjs`, `index.ts`, `index.mjs` and `build.ts` are not modelled: they are a generated bundle and demo wiring.
- JavaScript object identity is not modelled. An instance is named by its pool key, and `mergeDeep`'s in-place mutation is replaced by value semantics.
- PluginConfig.ConfigFrom: only states that the default keys survive. The full fold is stated for fresh registries by `PluginHost.ConfigFromConfigPlugins`, `PluginSystem.XtentConfig` and `Bundler.BundleConfig`.
- Priority.ResolvePreferred: only states the empty case and the pool invariant directly. The selected database is stated for the app's store by `Priority.PreferredIsFirstHighest`.
- PluginHost.TransformersOf has no row. Its contract states only the registry and pool invariants; what it returns is stated by `PluginHost.TransformersFromTransformPlugins`.
- The config builder itself (`store.use(Config, buildConfigFromPlugins)`) is not resolved through the registry. `ConfigOf` calls it directly, with the default variant excluded as in the source.
- Payloads of the wrong kind are skipped: `Picked` drops a value that is not a config object (or not a transformer), where the source would merge it anyway.
- JsonMerge.MergeDeep: does not cover an array target merged with an object source at the top level, because JavaScript would add named properties to the array.
- JSON numbers are integers. The merge only moves them, and the plugin priorities are compared as integers.
- Changelog.UpperAscii: only upper-cases ASCII letters. `toUpperCase` is Unicode-aware, but the commit types are all ASCII.
- The database factory in the priority example is not itself pooled under `Database`. `ResolvePreferred` models `resolvePreferedDatabase` directly.
