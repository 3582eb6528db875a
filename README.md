# grunto, modelled in Dafny

grunto assembles a Grunt configuration from many small module files. A
`GruntO` object collects:

- scan descriptors (`scan`);
- options handed to every module (`context`);
- an initial configuration (`config`).

A run then does the following, in order:

1. It merges the configuration buffered by the override shim.
2. It expands every scan to its matching files and builds one descriptor per file: relative path, module path, normalised cwd and namespace prefix.
3. It executes each module against shared alias and reference tables, and merges the configuration fragment each module returns.
4. It restores the shim and adds the reserved alias `grunto`.
5. It checks that every task an alias names is defined, registers every alias with Grunt, and hands the configuration to `grunt.initConfig`.
6. It reports counts: modules, tasks, sub-tasks, aliases, and tasks that were loaded but left unused.

The model is split into these modules:

- `Wrappers`: `Option`, `Result` and `Outcome`.
- `Js`: the shapes of JavaScript values the code dispatches on, truthiness, property reads, `_.extend`, and lookup in an object literal.
- `Grunt`: the fatal errors, the recorded host calls, descriptors, the shared tables, and the host as a record of functions (`Host`).
- `Prefix`: `getPrefix`, modelled as the regular-expression engine's lazy search. A closed-form reference definition is proved equal to that search.
- `Discovery`: `_searchGruntOModules`. Two loop methods are proved equal to specification functions.
- `Pipeline`: `_run`, covering merge order, the module loop, the reserved alias, and validation with registration.
- `Statistics`: `_statistic`.
- `Orchestrator`: the class `GruntO`, holding the fields `scans`, `options` and `config` and the shim's `intercepting` flag, plus the factory's option defaults.

A call to `grunt.fail.fatal` is modelled as an `Err`/`Fail` result carrying the reason. Where the code throws a TypeError, the model returns `TypeError`.

## Model

| member | source | states |
|---|---|---|
| Js.Get | lib/index.js:112-121 | reading a property of null or undefined fails; a plain object, a function or another object yields its own property; a missing property reads as undefined |
| Js.Lookup | lib/index.js:179 | `refs[t]` on an object literal: an own key yields its value; a missing key is truthy exactly when it is inherited from `Object.prototype` |
| Js.Extend | lib/index.js:71 | `_.extend`: the keys are the union of both maps; the source's values win; the target's other keys are unchanged |
| Prefix.LazyCaptureCuts | lib/index.js:99 | the lazy group `(.+?)` is the shortest prefix of length at least k whose remaining tail the optional `/default` and `.js` groups accept |
| Prefix.CollapseBackslashes | lib/index.js:99 | the second replace leaves no backslash and never lengthens the string |
| Prefix.StripPattern | lib/index.js:99 | the first replace never lengthens its input; with no match it returns the input; with a match it returns a non-empty capture no longer than the input after `[\/]?` |
| Prefix.GetPrefix | lib/index.js:98-100 | the derived prefix contains no backslash |
| Prefix.StripLongestSuffixIsMinimalCut | lib/index.js:99 | the reference cut always leaves at least one character, leaves a removable tail, and no shorter cut does |
| Prefix.LazyCaptureIsStripLongestSuffix | lib/index.js:99 | the engine's lazy search removes the longest of `/default.js`, `/default` and `.js` that leaves a non-empty capture |
| Prefix.StripPatternSpec | lib/index.js:99 | where the pattern matches, the first replace drops one leading `/` (only when a character follows it) and then the longest removable suffix |
| Prefix.StripPatternNoMatch | lib/index.js:99 | on the empty string or on text containing a line terminator, the pattern does not match and the input is returned unchanged |
| Prefix.LeadingSlashIgnored | lib/index.js:99 | a single leading `/` does not change the derived prefix |
| Prefix.CollapseWithoutBackslashes | lib/index.js:99 | text without backslashes passes the second replace unchanged |
| Prefix.CollapseIdempotent | lib/index.js:99 | applying the backslash normalisation twice gives the same result as applying it once |
| Prefix.CollapseLeadingRun | lib/index.js:99 | a leading run of any number of backslashes becomes exactly one `/` |
| Prefix.CollapseRun | lib/index.js:99 | a run of backslashes after plain text becomes exactly one `/`, and the plain text is kept |
| Prefix.GetPrefixDropsDefaultJs | lib/index.js:98-100 | `x + "/default.js"` gives `x` (for example `foo/bar/default.js` gives `foo/bar`) |
| Prefix.GetPrefixDropsJs | lib/index.js:98-100 | `x + ".js"` gives `x` when `x` does not end in `/default` |
| Prefix.GetPrefixJsAndSlash | lib/index.js:98-100 | `x.js` gives `x`, and `/a/b` gives `a/b` |
| Prefix.GetPrefixBackslashes | lib/index.js:98-100 | `a\b\c.js` gives `a/b/c` |
| Prefix.StripBeforeBackslashDefault | lib/index.js:99 | a backslash before `default.js` stops `/default` from matching, so only `.js` is removed |
| Prefix.CollapseOneBackslash | lib/index.js:99 | one backslash between two texts without backslashes becomes `/` |
| Prefix.GetPrefixNormalisesAfterStripping | lib/index.js:99 | normalisation runs after stripping: `x + "\default.js"` gives `x + "/default"`, not `x` |
| Prefix.GetPrefixSlashes | lib/index.js:99 | `/` gives `/`, and `//a` gives `/a`: the leading slash goes only when something follows it, and only one goes |
| Discovery.NormaliseCwd | lib/index.js:113 | a falsy cwd gives `""`; one leading `./` is removed; any other string is kept; a truthy non-string throws a TypeError |
| Discovery.ModulePath | lib/index.js:115-119 | the joined path when it is absolute, otherwise the process cwd, `/` and the joined path |
| Discovery.ModulePathEndsWithJoined | lib/index.js:115-119 | either way the module path ends with the joined path |
| Discovery.ChoosePrefix | lib/index.js:121-133 | a falsy prefix falls back to `getPrefix`; a regular expression is applied; a string is used verbatim; a function's result is used; any other type is fatal |
| Discovery.Describe | lib/index.js:112-140 | a built descriptor records the matched path, the normalised cwd and the module path for that cwd; it fails exactly when the scan is null or undefined, its cwd is not usable, or its prefix type is invalid; a cwd error wins over a prefix error |
| Discovery.DescribedPrefix | lib/index.js:120-140 | a built descriptor carries the prefix the scan's strategy chooses for its path and its normalised cwd |
| Discovery.DescribeAll | lib/index.js:112-141 | one descriptor per matched path of a scan, in match order |
| Discovery.DescribeAllElements | lib/index.js:112-141 | the k-th descriptor is the description of the k-th match |
| Discovery.DescribeAllSucceeds | lib/index.js:112-141 | if every match can be described, the scan's expansion succeeds |
| Discovery.DescribeAllFirstError | lib/index.js:112-141 | the first match that cannot be described stops the scan with its error |
| Discovery.DescribeAllNext | lib/index.js:112-141 | when the matches before it are described, a failing match decides the scan's error and a described one extends the descriptors by one |
| Discovery.ExpandScan | lib/index.js:111-112 | a null or undefined scan throws a TypeError when `scan.src` is read; otherwise one descriptor per match, carrying its path, in match order |
| Discovery.Expansion | lib/index.js:111-142 | when it succeeds, there is one descriptor for every path any scan matched |
| Discovery.ExpansionStep | lib/index.js:111-142 | one more scan appends its descriptors to those of the scans before it, or its error |
| Discovery.ExpansionStopsAt | lib/index.js:111-142 | an error among the first n scans is the error of the whole search |
| Discovery.ExpansionConcat | lib/index.js:111-142 | expanding the concatenation of two scan lists equals expanding the first list, then the second |
| Discovery.ExpansionOfOneScan | lib/index.js:111-142 | expanding a single scan gives that scan's descriptors |
| Discovery.VerbatimPrefix | lib/index.js:124-125 | a non-empty string prefix reaches every descriptor of its scan unchanged |
| Discovery.DerivedPrefix | lib/index.js:113-133 | with a falsy prefix, each descriptor keeps its path and the normalised cwd, and its prefix is `getPrefix` of its path |
| Discovery.InvalidPrefixIsFatal | lib/index.js:128-129 | a prefix of another truthy type is fatal as soon as the scan matches a file, and harmless when it matches none |
| Discovery.ExpansionFollowsMatches | lib/index.js:111-142 | descriptors come in scan order, then match order, one per match |
| Discovery.DescribeMatches | lib/index.js:112-141 | the inner loop computes `DescribeAll` |
| Discovery.SearchModules | lib/index.js:107-145 | the nested loops compute `Expansion`, including its first error |
| Pipeline.MergeConfig | lib/index.js:81-89 | a plain object is shallow-merged (its keys win, the other keys are unchanged); null and undefined change nothing; any other value is fatal |
| Pipeline.MergeAllLastWriterWins | lib/index.js:159-169 | after successive merges, each key holds the value of the last fragment that writes it; a key no fragment writes keeps its value |
| Pipeline.Step | lib/index.js:163-168 | a module that throws stops the run; otherwise the run fails exactly when the returned fragment is neither a plain object nor null or undefined, and on success the tables are those it left, with the fragment merged into the configuration |
| Pipeline.ExecModules | lib/index.js:163-169 | no modules leave the tables unchanged; the loop fails only by a module throwing or by an invalid returned fragment |
| Pipeline.ExecModulesMergesReturned | lib/index.js:163-169 | the module loop merges exactly one returned fragment per module, in module order |
| Pipeline.Collect | lib/index.js:159-169 | an invalid flushed configuration fails before any scan is expanded; on success the flushed configuration merged without error and the modules are the search result, one per matched path |
| Pipeline.MergeOrder | lib/index.js:159-169 | the final configuration is the flushed fragment merged first, then each module's fragment in module order |
| Pipeline.WithReservedAlias | lib/index.js:173-175 | `grunto` is always present, as `[]` when no module set it; every other alias is unchanged; no other alias is added |
| Pipeline.RegisterAliases | lib/index.js:177-187 | success exactly when every listed task is defined; then each alias is registered once with its own list, followed by one `initConfig` with the configuration; otherwise the error names an alias and its first undefined task, and `initConfig` is not called |
| Statistics.Difference | lib/index.js:225 | `_.difference`: exactly the registered keys that are not configuration keys |
| Statistics.DifferenceKeepsOrder | lib/index.js:225 | the unused list keeps the order of the registered keys |
| Statistics.Statistic | lib/index.js:204-226 | counts of modules, tasks and aliases; sub-tasks equal `|refs| - |aliases|`; the unused list appears exactly when there are more registered keys than configuration keys |
| Statistics.ReportedUnusedIsNonEmpty | lib/index.js:224-226 | when the unused line is written, it names at least one task |
| Statistics.UnusedCanGoUnreported | lib/index.js:224 | the guard compares counts, not sets, so an unused task can go unreported |
| Orchestrator.GruntO.constructor | lib/index.js:18-28 | a fresh instance has no scans, no options, an empty configuration, and the shim intercepting |
| Orchestrator.GruntO.Scan | lib/index.js:38-57 | an array is appended element by element; a plain object or a string is appended whole; anything else is fatal and leaves the scans unchanged; nothing else changes |
| Orchestrator.GruntO.Context | lib/index.js:65-73 | a plain object is shallow-merged into the options; anything else is fatal and leaves them unchanged |
| Orchestrator.GruntO.Config | lib/index.js:81-89 | the configuration becomes `MergeConfig` of the old one, and is unchanged on a fatal error |
| Orchestrator.GruntO.Run | lib/index.js:152-192 | a fatal error or a module throwing before `restore()` stops the run with nothing registered and the shim still installed; otherwise the configuration is the collected one, the shim is restored, registration behaves as `Registration` states, and statistics are computed only on success |
| Orchestrator.FactoryOptions | lib/index.js:235-238 | `autoload` and `timeMetric` default to `true`; the own properties of the caller's options are added and override the defaults |
| Orchestrator.IsEmpty | lib/index.js:248 | `_.isEmpty`: every falsy value is empty; an array or a string is empty when it has no elements; an object or a function when it has no own properties; booleans, numbers and regular expressions are empty |
| Orchestrator.PluginPlan | lib/index.js:247-253 | `load-grunt-tasks` runs when `autoload` is truthy, with `{}` when `autoload` is empty and with the value itself otherwise; `time-grunt` runs when `timeMetric` is truthy |
| Orchestrator.DefaultPlugins | lib/index.js:234-253 | without options, both plugins run, and `load-grunt-tasks` uses its defaults |
| Orchestrator.DisabledPlugins | lib/index.js:234-253 | a falsy `autoload` switches off `load-grunt-tasks`, and `timeMetric` keeps its default |

## Left out

- File globbing, path absoluteness, `process.cwd()`, `utils.joinPaths`, regular-expression prefixes, calling a function prefix and executing a module are foreign calls. They are fields of `Host`, passed in as functions. The results of `flushConfig()` and `registered()` are fields of `Host` too, passed in as plain values.
- `Discovery.ModulePath` states only "join, then put the process cwd in front when the result is not absolute"; the join itself is a host function.
- `Discovery.ExpandScan`: globbing, applying a regular-expression prefix and calling a function prefix are total host functions. A glob or a prefix function that throws, which would stop the run with nothing registered, is not modelled. A module that throws is modelled (`Threw`).
- `Js.Get`: an array, a string or a regular expression carrying extra own properties such as `cwd` or `prefix` reads them as undefined. Properties inherited from a prototype other than `Object.prototype` are not modelled.
- Executing a module is one host function from the descriptor, the shared tables and the options to the tables it leaves and the fragment it returns. `GruntOModuleContext`, `require` and the override shim's internals are not part of this model.
- The order in which the aliases are visited (JavaScript key order) is left unspecified: `RegisterAliases` picks any remaining alias. The result holds for every order.
- `Orchestrator.GruntO.Run`: when a fatal error occurs before `restore()`, the configuration reached at that point is not specified.
- `grunt.fail.fatal` halting the process is modelled as an error result. The code after a fatal call in `scan` and `context` is never reached and is not modelled.
- The registration of `gruntoTask`, running `load-grunt-tasks` and `time-grunt`, and calling the setup function passed to the factory are plugin wiring. Only the decision of whether and how to run each plugin (`PluginPlan`) is modelled.
- `Orchestrator.FactoryOptions`: a string or an array given as options would copy its index keys into the options; the model adds none. Inherited enumerable properties are not modelled.
- `Orchestrator.IsEmpty`: a regular expression is treated as having no own enumerable properties; maps, sets and `arguments` objects are not modelled.
- Timing (`Date.now()`, the division by 1000) and the text of the statistics message are clocks, floating point and output formatting.
- Numbers are integers: NaN and fractional values are not modelled, so `Truthy` of a number means that it is non-zero.
- Strings are sequences of Unicode scalar values rather than UTF-16 code units.
- `restore()` (line 171) is not inside a `finally`: a fatal error or a throw before it leaves `intercepting` true; a fatal error in validation happens after it.
- The shim's buffered configuration is merged before the scans are expanded (line 159).
