# Generator resolution and listing

A Dafny model of the generator layer of `index.js`. The layer maps a
namespace such as `yeoman:jasmine` to a generator module on disk, creates
the generator together with the children its hooks ask for, and decides
whether to run it, show its help or report where it searched. It also
lists every generator it can find, grouped by namespace, for the help
screen.

`require` is replaced by a `Loader`, a map from path to `Loaded(module)`
or `Threw(message)`; a path the map does not list throws Node's
`Cannot find module '<path>'`. A failure whose message mentions the path
means "nothing here" and is swallowed; any other failure escapes. Escaping
errors are modelled as values (`Raised`, `Failed`, `Failure`) that stop the
computation and carry the message outwards.

Each module has two layers:

- reference functions, which state what the code computes in one
  expression:
  - `Resolution.LookupSpec`, `Resolution.FindSpec`;
  - `Factory.ResolveSpec`, `Factory.CreateSpec`, `Factory.Expand`;
  - `Invocation.Decide`;
  - `HelpCatalog.Catalog`, `HelpCatalog.HelpOutput`;
  - `Prepare.RewriteTasks`.
- the imperative code in the `Engine.Generators` class. Its fields are the
  module object's state: the loader, the built-in, application and plugin
  roots, the `loadedPath` log, and the prepared name, arguments and
  options. Its methods have the source's loops for `lookup`,
  `findByNamespace`, `create`, `invoke` and the plugin loop of `help`,
  and are proved to compute the reference functions, log included. The
  loops of `lookupHelp` and `help` that work on values alone (the `paths`
  filter, the grouping and the printing) are the `HelpCatalog` methods
  `DedupByFullpath`, `GroupByBase`, `PrintGroups` and `PrintHelp`, each
  proved to compute its reference function.

The properties the code promises are proved as lemmas about the reference
functions:

- the probing order and exactly which paths are logged;
- the fallbacks of `create`;
- the shape of created generators and their hooks;
- the round trips of the path convention;
- that the help listing shows each visible namespace once, in its group.

Modules, in dependency order:

| file | module | what it holds |
|---|---|---|
| `wrappers.dfy` | `Wrappers` | `Option`, `Result` |
| `strings.dfy` | `Strings` | JavaScript `split`/`join` on one character, prefixes, `indexOf(..) !== -1`, ASCII upper-casing |
| `js_values.dfy` | `JsValues` | option and configuration values, truthiness, `a \|\| b`, `String(v)` |
| `path_convention.dfy` | `PathConvention` | namespace ↔ path |
| `loading.dfy` | `Loading` | the loader, module descriptions, the "nothing here" rule |
| `resolution.dfy` | `Resolution` | `lookup` and `findByNamespace` as ordered searches with a log |
| `factory.dfy` | `Factory` | `create`: fallbacks, instantiation, identity stamps, hook expansion |
| `invocation.dfy` | `Invocation` | what `invoke` does with the created generator |
| `help_catalog.dfy` | `HelpCatalog` | `lookupHelp`, `help`, `printList` |
| `prepare.dfy` | `Prepare` | the command-line rewrite of `prepare` |
| `engine.dfy` | `Engine` | the `generators` object and its methods |

Where the code and its comments disagree, the model follows the code:

- The comment at `index.js:317-321` gives the candidates of
  `findByNamespace('jasmine', 'yeoman')` as `"yeoman:jasmine", "jasmine"`.
  The code at `index.js:335` tries `[base + ':' + name, base]`, and the model
  does the same (`Resolution.Candidates`).
- A hook with no override in the options or in `config.generator` gets the
  context `"undefined:<alias or name>"`, because `undefined + ':'` is
  `"undefined:"`. The model keeps this literal value
  (`Factory.UnconfiguredHookContext`) and does not substitute a default.
- The comparator of the sort in `lookupHelp` returns a boolean, never a
  negative number, so the order it produces depends on the JavaScript
  engine rather than being an ascending sort. The model leaves the sort out;
  see below.

## Model

| member | source | states |
|---|---|---|
| Strings.Split | index.js:265 | `split` always yields at least one piece, and no piece contains the separator |
| Strings.JoinSplit | index.js:265-267 | joining the pieces of a split with the same separator gives the string back |
| Strings.SplitJoin | index.js:419 | splitting a join of separator-free pieces gives the pieces back |
| Strings.SplitAround | index.js:419 | splitting `a + c + b`, with `c` absent from `a`, gives `a` followed by the pieces of `b` |
| Strings.SplitBeforeLast | index.js:418-419 | splitting `x + c + y`, with `c` absent from `y`, gives the pieces of `x` followed by `y` as the last piece |
| Strings.ReplaceIsSubstitute | index.js:477 | `split(a).join(b)` replaces each `a` by `b` and leaves every other character and the length unchanged |
| Strings.StripPrefix | index.js:192 | with the prefix present, prefix + result is the input; without it, the input is returned unchanged |
| Strings.ContainsInfix | index.js:387 | `indexOf(sub) !== -1` holds for any string that has `sub` as an infix |
| JsValues.Or | index.js:300 | `a \|\| b` is one of its two operands, the first one when it is truthy, and is truthy exactly when either operand is |
| JsValues.Get | index.js:300 | reading cannot tell a missing property from one set to `undefined`; a truthy read means the property is present and truthy |
| PathConvention.NamespaceToPathAt | index.js:477 | the path is the namespace with every `:` turned into `/`: same length, other characters unchanged, no `:` left |
| PathConvention.NamespacesToPaths | index.js:475-479 | one path per namespace, in order; no path keeps a `:`, and stamping a path as `lookup` does gives back its namespace whenever that has no `/` |
| PathConvention.StampInvertsConvention | index.js:383 | stamping `rawPath.split('/').join(':')` returns the original namespace when it has no `/` |
| PathConvention.SlashIsNotPreserved | index.js:383 | a namespace containing `/` does not survive the round trip |
| PathConvention.PathSegments | index.js:419 | the path of a `/`-free namespace splits on `/` into the namespace's `:` segments |
| Loading.Classify | index.js:385-389 | an attempt is present exactly when `require` loads; absent exactly when the failure message contains the path; any other failure is an error with the message unchanged |
| Loading.UnlistedIsAbsent | index.js:385-389 | a path with no module behind it throws a message naming the path, so it is swallowed |
| Resolution.Candidates | index.js:335 | `[base:name, base]` when `base` is non-empty (not `base:name, name` as the comment above it says), `[name]` otherwise; the first candidate splits into the base's segments followed by the name |
| Resolution.TryCandidateCases | index.js:370-391 | both sub-bases are tried and logged in order unless the first throws; a module under `generators` overwrites one under `yeoman/generators`; the found class is stamped with the attempted path and the namespace read back from the raw path; a miss means both attempts were absent |
| Resolution.AbortIsFinal | index.js:385-389 | once an error has escaped, nothing more is tried or logged |
| Resolution.SequenceStep | index.js:365-368 | one step of an ordered search: a miss logs and goes on, anything else decides |
| Resolution.SequenceFirstDecisive | index.js:365-368 | the search result is the first entry that does not miss, after the logs of every entry before it |
| Resolution.SequenceMiss | index.js:365-368 | the search misses exactly when every entry misses, and then it has logged every entry |
| Resolution.SequenceOutcomeFromEntry | index.js:365-368 | whatever the search returns was returned by one of its entries |
| Resolution.SequenceAppend | index.js:338-350 | searching `a + b` is searching `a`, then `b` only if `a` missed, with the logs concatenated |
| Resolution.LogsAppend | index.js:374-377 | the log of two runs of searches is the first log followed by the second |
| Resolution.LogsSnoc | index.js:374-377 | one more search appends its log |
| Resolution.SearchRootsAppend | index.js:338-350 | searching roots `a + b` searches `b` only when nothing was found in `a` |
| Resolution.SearchOneRoot | index.js:338 | searching a single root is one `lookup` of it |
| Resolution.MissedTriesLogAllPaths | index.js:374-377 | candidates that all miss log both sub-base paths of every candidate, in order |
| Resolution.LookupMiss | index.js:359-395 | `lookup` misses exactly when every path it can try is absent, and then it has logged all of them, in order |
| Resolution.LookupFirstDecisive | index.js:365-392 | candidates after the first decisive one are neither tried nor logged; those before it logged both sub-base paths |
| Resolution.LookupHitStamped | index.js:379-383 | a returned class was loaded at a logged candidate path and carries the namespace read back from that candidate |
| Resolution.FirstNonMiss | index.js:365-368 | a search that does not miss has a first entry that does not miss |
| Resolution.LocalPrecedence | index.js:338-340 | when the local root finds the class, `findByNamespace` returns the local result and consults nothing else |
| Resolution.RootOrder | index.js:340-350 | roots are probed local, plugins, built-in: the first root that does not miss decides, after every earlier root was fully searched and logged, and later roots are never probed |
| Resolution.SearchMissLog | index.js:334-353 | a search that finds nothing has logged every candidate path of every root, root by root |
| Resolution.MissedLookupsLogAllPaths | index.js:342-344 | roots that all miss log all their candidate paths, in root order |
| Factory.SplitNamespace | index.js:265-267 | the name is the last `:` segment and contains no `:`; base segments and name join back to the namespace; there are no base segments exactly when the namespace has no `:` |
| Factory.NoFallbackWithBase | index.js:267-275 | with base segments, resolution is one `findByNamespace(name, base)` with no fallback |
| Factory.FallbackOrder | index.js:270-277 | without base segments: the plain name; only on a miss, the name under `yeoman`; only on a second miss, `name:all`; the logs of the searches made, in order |
| Factory.CreateNotFoundIffUnresolved | index.js:280-282 | `create` returns nothing exactly when resolution (fallbacks included) finds no class, and then the log is the resolution's |
| Factory.UnresolvedTrailWithBase | index.js:264-282 | an unresolved namespace with a base has logged every candidate path of every root |
| Factory.UnresolvedTrailBare | index.js:270-277 | an unresolved bare name has logged every path for the name, then for `yeoman:name`/`yeoman`, then for `name:all` |
| Factory.UnconstructibleFails | index.js:284-298 | a class whose instantiation throws, or whose instance has no `_hooks` to map, makes `create` fail with that error after the class lookup, having logged only the lookup's paths |
| Factory.ExpandStopsOnlyOnFailure | index.js:298-308 | hook expansion stops only on an escaped error or on exhausted nesting, never because a child was not found |
| Factory.ExpandShape | index.js:298-308 | a completed expansion has one hook per declaration, in order; each hook is filled in from its declaration and holds the child created for its context, or no child when none was found |
| Factory.CreatedIdentity | index.js:284-310 | a created generator is `new Klass(args, options, config)` of the class resolution found, which threw nothing: it carries that class's module, namespace, path and template root, the requested name, the values it was created with, and the hooks of a completed expansion (whose shape `Factory.ExpandShape` gives) |
| Factory.InstantiationMade | index.js:284-308 | an instantiation yields a generator only when `new Klass(...)` threw nothing and every hook was expanded, and then the generator is the instance with those hooks |
| Factory.HookContextHasBase | index.js:302 | a hook context always has a base segment, whatever the alias, so a hook's child is never resolved through the `yeoman` or `:all` fallbacks |
| Factory.HookContextSegments | index.js:302 | when the alias (or the parent's name) has no `:`, it is the child's name and the base segments join back to the stringified override |
| Factory.UnconfiguredHookContext | index.js:299-302 | with no override in the options or in `config.generator`, the context is `undefined:` followed by the alias or the name |
| Factory.HookContextPrefersOptions | index.js:300 | a truthy override in the options wins over `config.generator` |
| Invocation.Bullets | index.js:232-234 | one bullet per logged path, in order; stripping the ` - ` marker gives the path back, and a bullet has a line break only when its path has one |
| Invocation.TrailLines | index.js:232-234 | the trail text is the heading followed by one line per logged path |
| Invocation.WithSourceRoot | index.js:239-241 | an unset `sourceRoot` becomes `<generatorPath>/templates`; a set one is kept |
| Invocation.Decide | index.js:229-259 | not found reports the namespace and the trail; help is shown when a required argument is declared and no args were given, or `--help` is set; otherwise the generator runs with the args after the `.. Invoke <ns without yeoman:> ..` heading; an error escaping `create` propagates with its message unchanged, and exhausted nesting is reported as such |
| Prepare.RewriteTask | index.js:55-56 | every rewritten task starts with `init:` |
| Prepare.RewriteTasks | index.js:54-57 | one task per word, in order, each an `init:` task from which its word reads back (`init` as `yeoman`) |
| Prepare.SplitCommandLine | index.js:45-46 | the name is the second word and the arguments are the words after it, with nothing dropped or reordered; with fewer than two words there is no name and no argument |
| Prepare.RewriteRoundTrip | index.js:54-57 | stripping `init:` gives the word back, except that `init` comes back as `yeoman` |
| Prepare.RewriteCollisions | index.js:55-56 | two words are rewritten alike exactly when they are equal or are `init` and `yeoman` |
| HelpCatalog.KeepFirstByKeys | index.js:466-471 | the kept entries have distinct keys and together have every key of the input |
| HelpCatalog.KeepFirstByFirst | index.js:466-471 | the kept entries are a subsequence of the input, and each is the first entry with its key |
| HelpCatalog.GeneratorFiles | index.js:407-415 | a file is listed exactly when it matches `<prefix>/**/index.js` and its parent directory is not `templates` |
| HelpCatalog.GeneratorEntries | index.js:455-460 | an entry is kept exactly when its module loaded and passes the generator test |
| HelpCatalog.DedupByFullpath | index.js:466-471 | the `paths` filter keeps the first entry of each `fullpath`, in order |
| HelpCatalog.ScanFailureCause | index.js:422-430 | `lookupHelp` fails only with an error that `require` threw at a listed file and that is not a missing `yeoman` module; when the loader lists every file on disk, it is the error that file's module throws |
| HelpCatalog.CatalogDistinctFiles | index.js:449-471 | a catalog lists only generators and each file at most once |
| HelpCatalog.NamespaceOfInvertsConvention | index.js:418-419 | a generator at `<prefix>/<path of ns>/index.js` is listed under `ns` |
| HelpCatalog.UniqDistinct | index.js:152 | `_.uniq` leaves each namespace once and drops none |
| HelpCatalog.Visible | index.js:155-157 | a namespace stays exactly when it is not hidden |
| HelpCatalog.VisibleKeepsDistinct | index.js:155-157 | filtering keeps namespaces distinct |
| HelpCatalog.ShownClean | index.js:147-157 | the listed namespaces are distinct; a namespace is listed exactly when some catalog entry has it and it is not hidden |
| HelpCatalog.Members | index.js:160-169 | a group holds exactly the namespaces whose first segment is its key |
| HelpCatalog.GroupByBase | index.js:160-169 | the keys are the first segments in first-seen order, and each group holds its members in order |
| HelpCatalog.GroupStep | index.js:161-169 | one more namespace adds its key if new and appends itself to its group only |
| HelpCatalog.GroupKeysFromFirsts | index.js:161-169 | every group key is the first segment of some namespace |
| HelpCatalog.MembersOfAbsentKey | index.js:191 | a key no namespace starts with has an empty group (`groups.yeoman \|\| []`) |
| HelpCatalog.StripAll | index.js:191-193 | member by member, a name that starts with `yeoman:` is shown without it (prefix + shown name is the namespace), and any other is shown unchanged |
| HelpCatalog.Indented | index.js:209-211 | one line per namespace, in order, each the namespace after two spaces, which stripping the indentation gives back |
| HelpCatalog.PrintListShape | index.js:206-213 | a list is its capitalised heading, one `  ns` line per namespace, and an empty line |
| HelpCatalog.PrintGroups | index.js:197-202 | one list per key other than `yeoman`, in key order |
| HelpCatalog.ListsOfListed | index.js:196-202 | the `yeoman` list followed by the other lists is the rendering of the `yeoman` section and the sections of the visited keys |
| HelpCatalog.ListsOfStep | index.js:197-202 | visiting one more key keeps the printed lists equal to the rendered sections |
| HelpCatalog.ListedStart | index.js:196 | before the key loop only the `yeoman` list has been printed |
| HelpCatalog.ListedStep | index.js:197-202 | visiting a key prints its group, and prints nothing for `yeoman` |
| HelpCatalog.RenderSnoc | index.js:201 | rendering one more section prints its list after the others |
| HelpCatalog.OtherSectionsFor | index.js:197-202 | every key other than `yeoman` gets its own section |
| HelpCatalog.OtherSectionsHeadings | index.js:197-202 | every other section is headed by a key other than `yeoman` and holds that key's members |
| HelpCatalog.ListedUnderFirstSegment | index.js:190-202 | the `yeoman` section comes first; every shown namespace is listed in the section of its first segment (stripped under `yeoman`) and in no other section |
| HelpCatalog.PrintHelp | index.js:172-202 | the output is the usage text, then the `yeoman` list, then the other groups, as the sections of the shown namespaces render |
| Engine.Generators.Prepare | index.js:42-61 | the name and the arguments are read off the command line, the options are copied before `help` is switched off, and every task word is rewritten |
| Engine.Generators.ProbeCandidate | index.js:370-391 | one candidate under one root computes `TryCandidate` and appends its attempts to `loadedPath` |
| Engine.Generators.LookupPaths | index.js:365-392 | `lookup`'s loop computes the ordered search over the candidates and appends its log |
| Engine.Generators.Lookup | index.js:359-395 | `lookup(namespaces, basedir)` under `basedir`, or under the application root when `basedir` is empty, computes `LookupSpec` and appends its log |
| Engine.Generators.LookupEach | index.js:342-344 | the plugin loop computes the ordered search over the plugin roots and appends its log |
| Engine.Generators.FindByNamespace | index.js:334-353 | local root, then plugins, then built-in root: the result and the log of `FindSpec` over the roots in that order |
| Engine.Generators.ResolveClass | index.js:265-277 | the class lookup of `create` computes `ResolveSpec` and appends its log |
| Engine.Generators.ResolveBare | index.js:270-277 | the fallbacks of a bare name compute `ResolveSpec` and append its log |
| Engine.Generators.Create | index.js:264-311 | `create` returns the outcome of `CreateSpec` and appends its log |
| Engine.Generators.CreateFrom | index.js:284-310 | instantiation, stamps and hooks give the generator assembled from the class and the expansion of its hooks, or the error instantiation throws |
| Engine.Generators.CreateHooks | index.js:298-308 | the hook loop yields the expanded hooks, or stops with the outcome that stopped the expansion, and appends the expansion's log |
| Engine.Generators.CreateHook | index.js:299-306 | one hook: its record, the child created for it, and how the expansion goes on |
| Engine.Generators.Invoke | index.js:217-260 | `loadedPath` is reset and then holds exactly the creation's log; the decision is `Decide` on the created generator |
| Engine.Generators.LookupHelp | index.js:402-472 | `lookupHelp(basedir)`, under the application root when `basedir` is empty, computes `Catalog` |
| Engine.Generators.PluginHelp | index.js:136-141 | the plugin catalogs are concatenated in plugin order; the first failure escapes |
| Engine.Generators.Help | index.js:129-203 | the built-in, application and plugin catalogs are read and the listing `HelpOutput` is printed |
| Engine.WithChild | index.js:306-307 | the hook record gets the created generator as its child, and a hook whose child was not found keeps no child |
| Engine.ExpandAdvance | index.js:298-308 | after one child is created, the expansion either goes on with one more hook and the child's log, or stops with the child's outcome |

## Left out

- `setup` (`index.js:91-126`) is not modelled. It reads the working
  directory, searches for the Gruntfile, loads it, changes directory and
  globs for plugins. The loader and the built-in, application and plugin
  roots are fixed when an `Engine.Generators` object is constructed.
  Because `setup` changes into the application root, `process.cwd()` in
  `help` is modelled as that root.
- `init` and `warnOn` (`index.js:65-79`, `index.js:484-499`) are not
  modelled. They only pass Grunt state to `setup`, `help`, `invoke` and
  `create`, and read a field of the result.
- Real module loading is not modelled. `require` is the `Loader` map, and
  the test `typeof module === 'function' && instance instanceof Base` is
  the flag `isGenerator` on the loaded module. Every loaded module is
  taken to be a non-null object: a falsy export, which `lookup` and
  `create` would treat as not found, and a `null` export, whose stamping
  throws a `TypeError` that does not name the path, are not modelled.
  What a generator's
  constructor declares (arguments, hooks, template root) is recorded on the
  module value, and so is the error `new Klass(...)` or the `_hooks.map`
  call of `create` throws (`constructError`); constructors have no other
  effect.
- `generator.invoke`, `generator.run`, `generator.help()`,
  `grunt.log.subhead` and the call-back are not modelled, because they are
  calls into the generator instance and the host. `Invocation.Decide` returns
  which of these would happen, with its arguments. The `sourceRoot`
  update is modelled on the value.
- HelpCatalog.Scan: the files on disk and the loader are independent
  inputs. A listed file that the loader does not list fails with
  `Cannot find module`, which a real glob, finding only existing files,
  cannot cause. `HelpCatalog.ScanFailureCause` states where a failure
  comes from, and that with a loader listing every file it is the error
  of a listed module.
- Console output is not written. `help` returns its lines. The diagnostic
  lines `lookupHelp` prints for a missing `yeoman` module are not
  returned.
- HelpCatalog.GeneratorEntries: the help catalog never constructs a
  module. `new generator.module(args, options, config)` at
  `index.js:459` is the `isGenerator` test, so an error that constructor
  throws, which makes `lookupHelp` and `help` throw in the source, is not
  modelled; `constructError` is read only by `create`.
- Engine.Generators.LookupHelp: it computes `HelpCatalog.Catalog`, so it
  does not fail on a constructor error either (see the line above).
- Engine.Generators.LookupHelp: the sort at `index.js:461-463` is not
  modelled. Its comparator returns a boolean, so the order it produces
  depends on the JavaScript engine. The catalog keeps the order of the scan
  (sub-base by sub-base, in the host's file order), and the help listing's
  first-seen order follows from it.
- Factory.CreateSpec: hook expansion re-enters `create` with no bound in
  the code. The model counts nesting with `fuel`. When `fuel` runs out, the
  creation ends as `Exhausted` instead of recursing further. An actual
  cyclic hook declaration would overflow the stack.
- Path joining is plain concatenation with `/`; `path.join` and
  `path.resolve` normalisation (`..`, duplicate separators) is not
  modelled. The roots are taken as already resolved.
- `Object.keys` puts integer-like keys first. This ordering is not
  modelled: group keys are listed in insertion order.
- Keys that clash with `Object.prototype` properties, such as
  `constructor`, are not modelled. Numbers are not modelled among option
  and configuration values either.
- Factory.GeneratorSection: a truthy `config.generator` that is not an
  object is read as `{}`.
- Strings.UpperAscii: `toUpperCase` is modelled on ASCII letters only.
- The hook records are updated in place in the source. The model builds new
  records, so aliasing between a class's hook declarations and its
  instances is not captured.
