# briananders.com build, modelled in Dafny

The briananders.com repository builds a static web site with Node. The
build is a set of stage tasks that share one mutable record of completion
flags and talk to each other through an event emitter:

- moving images and videos;
- bundling SCSS;
- rendering EJS and Markdown templates;
- minifying HTML and JavaScript;
- hashing assets and rewriting CSS references;
- gzipping;
- writing the sitemap;
- marking external links;
- optimising SVGs.

Each task resets its flag, fans out over a globbed file list, joins either
with a counter or with `Promise.all`, then sets its flag and emits its
event. `checkDone` ends the process once the eleven flags it reads are all
set. `index.js` wires the events and installs one of three profiles. The
golden profile forces the hashing and gzip flags. The comparison profile
replaces hashing and gzip with a synthetic chain of events.

The repository also holds the deploy script, an image-conversion script, a
`<year-selector>` custom element and screenshot-comparison utilities. Each
of these is modelled too.

How the model is organised:

- **The event bus.** `EventBus.Dispatch` is a pure function of a world:
  - flags;
  - an `exited` marker standing for `process.exit()`;
  - a trace of published events, task starts and the final exit.

  Listeners run synchronously in registration order, and a re-emit
  recurses. Termination rests on a rank that every handler's emits strictly
  lower (`WellRanked`).
- **Shared state.** `BuildContext.Build` is the shared `configs` object: the
  flags, the listeners, the trace and the hashing name list.
- **Stage tasks.** Each stage task is a class:
  - its constructor is the synchronous part of the call (flag resets and
    the record that the stage task started);
  - each method is one asynchronous completion, taken as one atomic step in
    any order.
- **Parameters.** Globs, file contents, hash values, the EJS renderer, the
  converters, the clock and the URL parser are parameters.
- **Strings.** JavaScript strings are modelled over ASCII:
  - `replace` with a string pattern replaces the first occurrence;
  - `split(p).join(q)` replaces every non-overlapping occurrence, left to
    right;
  - `trim` and `\s` use the six ASCII whitespace characters;
  - `path.extname` follows Node's rule for the last path segment.

Points where the code does something other than it seems to intend, and
the model follows the code as written:

- **The comparison profile.** The comment at
  build/comparison-builder.js:7-8 says the profile skips gzip and asset
  hashing but must still complete. The code sets only `ASSET_HASH.DONE`
  and `GZIP`. It never sets the three listing flags that `checkDone` also
  reads, so the build cannot end (see Findings).
- **Template failures.** `renderTemplate` rejects with no reason, so the
  bundlers' `err && production` test (build/bundlers/bundle-ejs.js:199)
  never rethrows: the `.catch` counts the template. The process then ends
  on an error nobody handles. The bundler hands `undefined` to
  `fs.writeFile`, which throws in the `mkdirp` callback
  (build/bundlers/bundle-ejs.js:210-213). After a failed layout read the
  `.then` also calls `toString` on `undefined` (line 129). In production a
  failed layout read throws inside a detached `.catch` (line 119): the
  render never settles, and that unhandled rejection ends the process.
  Either way, a failed template ends the build before templatesMoved is
  published.
- **Page-relative links.** `isExternalLink` skips only links that start
  with `/`, `./` or `../`, and parses the rest against the base URL
  `https://example.com` (build/optimize/process-external-links.js:86). A
  link such as `about/` or `page.html` therefore gets the host
  `example.com` and is marked external.
- **Logging in `checkDone`.** `checkDone` reads `isComparisonBuild`, which
  `index.js` never puts in `configs`, so only `--verbose` makes it log.
- **Installing the comparison profile.** `index.js` never installs it, so
  it is modelled as an installer of its own.
- **Which bundlers start.** `index.js` starts `bundleEJS` and
  `bundleMarkdown`, not `bundleTemplates`.

## Model

| member | source | states |
|---|---|---|
| Text.IndexOfFrom | build/bundlers/bundle-markdown.js:53-58 | the index found is the first occurrence of the pattern at or after the start, and -1 means it occurs nowhere there (`indexOf`/`includes`) |
| Text.LastIndexOf | build/hashing/hash-css.js:22 | the index is the last occurrence of the character, and -1 means it does not occur |
| Text.ReplaceFirst | build/bundlers/bundle-templates.js:253 | a string pattern that does not occur leaves the text alone; otherwise only its first occurrence is replaced |
| Text.ReplaceFirstPrefix | build/bundlers/bundle-ejs.js:185 | a pattern that starts the text is replaced at the start |
| Text.ReplaceAllIsSplitJoin | build/hashing/update-css-with-image-hashes.js:24 | replacing every occurrence left to right equals `split(p).join(r)` |
| Text.SplitJoinRoundTrip | build/bundlers/bundle-markdown.js:44-82 | splitting and joining with the same separator gives back the text |
| Text.ReplaceAllSelf | build/hashing/update-css-with-image-hashes.js:24 | replacing a pattern by itself changes nothing |
| Text.ReplaceAllAbsent | build/hashing/update-css-with-image-hashes.js:23-24 | when the pattern does not occur, `split(p).join(r)` changes nothing, so the `indexOf` guard does not change the result |
| Text.SplitOnCharAbsent | build/bundlers/bundle-markdown.js:44 | splitting a text with no separator yields that text alone |
| Text.SplitJoinLines | build/bundlers/bundle-markdown.js:44-82 | lines without a newline, joined and split again, are the same lines |
| Text.SplitOnCharParts | build/bundlers/bundle-markdown.js:44 | no piece of a split holds the separator |
| Text.ContainsChar | build/bundlers/bundle-markdown.js:39 | `includes` of a one-character pattern holds exactly when the character occurs |
| Text.ReplaceAllKeepsAbsent | build/helpers/ejs-functions.js:23 | replacing never introduces a character that neither the text nor the replacement holds |
| Text.ReplaceAllRemoves | build/helpers/ejs-functions.js:23 | replacing every occurrence of a character by text without it removes the character |
| Text.TrimStart | build/bundlers/bundle-markdown.js:58 | the result is a suffix of the input, does not start with white space, and only white space was removed |
| Text.TrimEnd | build/bundlers/bundle-markdown.js:61 | the result is a prefix of the input, does not end with white space, and only white space was removed |
| Text.ToLower | scripts/convert-images.js:33 | the result has the input's length and each character is the lower-case form of the input's |
| OrderedDict.Keys | build/hashing/update-css-with-image-hashes.js:18 | `Object.keys` lists the keys in insertion order, one per entry |
| OrderedDict.Get | build/hashing/asset-hashing.js:41 | a lookup is `undefined` exactly when the key was never assigned |
| OrderedDict.Put | build/hashing/asset-hashing.js:41 | assigning a new key appends it to the key order; assigning an existing key keeps the order |
| OrderedDict.GetPut | build/hashing/asset-hashing.js:41 | after an assignment, the key reads the new value and every other key reads what it read before |
| OrderedDict.PutDistinct | build/hashing/asset-hashing.js:41 | assignment never lists a key twice |
| NodePath.TrimSlashes | s3-uploader.js:25 | the result does not end with `/` |
| NodePath.ExtName | s3-uploader.js:25 | `path.extname` is empty or a `.` followed by text without a `.` |
| NodePath.ExtNameOf | scripts/convert-images.js:94 | a base name `<stem>.<ext>` has the extension `.<ext>` |
| NodePath.ExtNameJoin | scripts/convert-images.js:27-33 | joining a name under a directory does not change its extension |
| NodePath.BaseNameJoin | scripts/convert-images.js:27 | the base name of a name joined under a directory is that name |
| HashNames.SubstrFrom | build/hashing/hash-css.js:22 | `substr(start)` with a start inside the text is the suffix from that start |
| HashNames.Prefix | build/hashing/hash-css.js:22 | `substr(0, len)` with a length inside the text is the prefix of that length |
| HashNames.StemExtension | build/hashing/hash-css.js:22 | the part before the last `.` and the part from it on make up the name, and the extension holds a single `.` at its start |
| HashNames.HashedNameSplit | build/hashing/asset-hashing.js:40 | with a `.` in the name, the hashed name inserts `-<hash>` just before the extension |
| HashNames.HashedNameNoDot | build/hashing/asset-hashing.js:40 | with no `.` in the name, `lastIndexOf` is -1, so the stem is lost and only the last character follows the hash |
| HashNames.LastIndexOfPrefix | build/hashing/asset-hashing.js:40 | appending text without the character does not move its last occurrence |
| HashNames.LastIndexOfMiddle | build/hashing/asset-hashing.js:40 | in `s + c + t` with no `c` in `t`, the last `c` is the one in the middle |
| HashNames.StemExtensionOf | build/hashing/asset-hashing.js:40 | the stem and extension of `<stem>.<rest>` are `<stem>` and `.<rest>` when `rest` has no `.` |
| HashNames.HashedNameExtension | build/hashing/asset-hashing.js:55 | a hashed name keeps the file's extension and its stem is the file's stem, `-` and the hash |
| HashNames.LastDash | build/hashing/asset-hashing.js:55 | the last `-` of `s-t`, when `t` has none, is just before `t` |
| HashNames.HashedNameInjective | build/hashing/asset-hashing.js:55 | two files with a `.` and hashes without `.` or `-` get the same hashed name only when file and hash are the same |
| Text.SplitOn | build/bundlers/bundle-templates.js:50 | `split` on a non-empty separator always yields at least one piece |
| CompletionFlags.GetSet | build/constants/completion-flags.js:1-17 | writing one flag of the record changes that flag and no other |
| CompletionFlags.CheckDone | build/helpers/check-done.js:22-49 | the flag record is logged exactly when `debug` or `isComparisonBuild` is set |
| CompletionFlags.SomeFalseIff | build/helpers/check-done.js:42 | `some(flag => !flag)` holds exactly when one of the listed flags is false |
| CompletionFlags.AllCheckedSetNoneFalse | build/helpers/check-done.js:28-44 | with all eleven checked flags set, no checked flag is false |
| CompletionFlags.SomeFalseWitness | build/helpers/check-done.js:28-44 | one unset checked flag is enough for check-done to return false |
| CompletionFlags.CheckDoneExitsIff | build/helpers/check-done.js:28-48 | check-done ends the process exactly when all eleven checked flags are set, whether or not it logs |
| CompletionFlags.InitialNotDone | build/constants/completion-flags.js:1-17 | every flag starts false, so a fresh record never ends the build |
| CompletionFlags.UncheckedFlagsIrrelevant | build/helpers/check-done.js:28-40 | PREVIEW_READY, EXTERNAL_LINKS_PROCESSED and SVG_OPTIMIZATION never decide whether the build ends |
| CompletionFlags.SetUncheckedKeepsDecision | build/helpers/check-done.js:28-40 | writing a flag that check-done does not list never changes its decision |
| EventBus.ClearAllFrame | build/hashing/asset-hashing.js:10-11 | clearing a list of flags clears exactly those and leaves the others alone |
| EventBus.ResetOnlyClears | build/hashing/asset-hashing.js:10-11 | calling a stage task clears exactly the flags that task resets and no other |
| EventBus.StartTask | build/hashing/asset-hashing.js:7-11 | a task's call resets its flags, records that it started, and neither ends the process nor changes `debug` |
| EventBus.QuietWellRanked | build/golden-builder.js:21-52 | listeners that publish nothing cannot form a publishing cycle |
| EventBus.BoundIn | index.js:67-71 | every listener `emit(e)` calls was registered for `e`, and there are no more of them than registrations |
| EventBus.BoundDescends | build/comparison-builder.js:9-49 | in an acyclic registration, every listener of `e` publishes only events ranked below `e` |
| EventBus.BoundSingle | index.js:71 | one registration is called for its own event and for no other |
| EventBus.BoundAppend | index.js:67-79 | listeners registered later are called after the ones registered earlier |
| EventBus.BoundNone | index.js:67-71 | an event nobody registered for calls nothing |
| EventBus.BoundUnique | build/comparison-builder.js:9-52 | an event with a single registration calls just that listener |
| EventBus.RunHandlersQuiet | index.js:67-71 | listeners that publish nothing run one after the other |
| EventBus.DispatchQuiet | index.js:67-71 | publishing an event whose listeners publish nothing records the event with the current flags, then runs its listeners in registration order |
| EventBus.DispatchOne | build/comparison-builder.js:9-12 | publishing an event that has one listener runs just that listener after recording the event |
| EventBus.ApplyOne | index.js:57-65 | a single listener runs unless the process has already ended |
| EventBus.ApplyTwo | index.js:69-70 | two listeners run in order, and the second does not run once the first ends the process |
| EventBus.DispatchExtends | build/helpers/check-done.js:42-48 | publishing only appends to the trace, does nothing after `process.exit()`, finalises at most once, and finalises only with every checked flag set |
| EventBus.PublishedFirst | build/comparison-builder.js:39-42 | publishing records the event with the flags as they are at that moment, so a flag written just before `emit` is what every listener sees |
| EventBus.RunFinalisesAtMostOnce | build/helpers/check-done.js:42-48 | whatever completions arrive, in any order, the build finalises at most once, has exited exactly when it finalised, and finalised only with every checked flag set |
| EventBus.DispatchFrame | build/comparison-builder.js:39-49 | publishing never changes a flag that no registered listener writes |
| BuildContext.Build.constructor | index.js:44-53 | the configuration starts with every flag false, no listeners, an empty name list and the `debug` setting |
| BuildContext.Build.On | index.js:67 | `on(e, handler)` appends the registration and changes nothing else |
| BuildContext.Build.Emit | build/comparison-builder.js:11 | `emit(e)` leaves the build as publishing `e` under the current listeners leaves it |
| BuildContext.Build.SetFlag | build/golden-builder.js:8 | a flag write changes that flag and nothing else |
| BuildContext.Build.Complete | build/hashing/asset-hashing.js:46-48 | a stage's end sets its flag and then publishes its event, and the event is recorded with the flag already set; after the process has ended it does nothing |
| BuildContext.Build.Start | index.js:90-93 | calling a task performs its synchronous prefix |
| BuildContext.Build.Record | build/hashing/asset-hashing.js:41 | `hashingFileNameList[file] = hashed` assigns that key and changes nothing else |
| Index.SelectProfile | index.js:73-79 | the preview builder outside production, the golden builder in production with `--golden`, the production builder otherwise |
| Index.Launch | index.js:13-101 | `debug` is `--verbose`, the profile follows `--golden` and production, the index listeners come first and the profile's after, and the server listens on port 3000 only outside production |
| Index.ListenIndex | index.js:67-71 | the five registrations of index.js, in order |
| Index.AfterClean | index.js:87-94 | after `clean`, the page data, JavaScript, stylesheets and assets tasks start in that order |
| Index.IndexBound | index.js:67-70 | the listeners index.js registers for the two move events and for `pageMappingDataCompiled`, in order |
| Index.IndexWellRanked | index.js:67-71 | the index.js listeners publish nothing, so they form no cycle |
| Index.IndexDispatch | index.js:67-70 | publishing a move event or `pageMappingDataCompiled` runs the index.js listeners of that event in order |
| Index.GateStep | index.js:57-65 | the gate starts both template bundlers exactly when images and videos are both moved, and writes no flag |
| Index.BundleGate | index.js:57-68 | after either move event, both template bundlers start exactly when both move flags are set, and no flag changes |
| Index.BundlersStartTwice | index.js:57-68 | the gate has no once-only guard: a second move event starts both bundlers again |
| Index.SitemapStep | index.js:70 | the sitemap listener's call clears SITE_MAP and changes nothing else |
| Index.PageDataStep | index.js:69-70 | `pageMappingDataCompiled` runs the gate and then the sitemap |
| Index.PageDataStartsSitemap | index.js:69-70 | compiled page data runs the template gate and then starts the sitemap |
| GoldenBuilder.CheckDoneBindingsAscending | build/golden-builder.js:21-52 | the profile registers check-done on events in ascending order of their keys |
| GoldenBuilder.CheckDoneBindingsAllCheckDone | build/golden-builder.js:21-52 | every one of those sixteen registrations is check-done |
| GoldenBuilder.AllCheckDoneQuiet | build/helpers/check-done.js:22-49 | check-done publishes nothing and writes no flag |
| GoldenBuilder.GoldenBound | build/golden-builder.js:16-52 | the profile's listeners of an event: its minifier for that event, if any, then check-done if the profile lists the event |
| GoldenBuilder.CheckDoneOnce | build/golden-builder.js:21-52 | check-done runs once for each event it is registered on and never for any other |
| GoldenBuilder.GoldenQuiet | build/golden-builder.js:16-52 | none of the profile's listeners publishes an event |
| GoldenBuilder.ForceFlags | build/golden-builder.js:8-12 | the four hashing flags and GZIP are set and nothing else changes |
| GoldenBuilder.Install | build/golden-builder.js:1-53 | the forced flags are set and the two minifiers and sixteen check-done listeners are appended in source order |
| GoldenBuilder.CheckDoneFirstHalf | build/golden-builder.js:21-36 | the first eight check-done registrations, in order |
| GoldenBuilder.CheckDoneSecondHalf | build/golden-builder.js:37-52 | the last eight check-done registrations, in order |
| GoldenBuilder.ForcedFlagsSuffice | build/golden-builder.js:8-12 | with the forced flags set, check-done ends the build exactly when the six flags the golden build still produces are set |
| GoldenWiring.WiringQuiet | build/golden-builder.js:16-52 | no listener of the golden build publishes an event, so the wiring is acyclic |
| GoldenWiring.IndexUntouched | index.js:57-71 | the index.js listeners never write a flag the golden profile forces |
| GoldenWiring.MinifierUntouched | build/golden-builder.js:16-19 | the minifiers never write a flag the golden profile forces |
| GoldenWiring.ForcedUntouched | build/golden-builder.js:8-52 | no listener of the golden build writes a forced flag |
| GoldenWiring.ForcedFlagsKept | build/golden-builder.js:8-12 | the forced flags stay set whatever is published |
| GoldenWiring.WiringBound | build/golden-builder.js:16-52 | an event's listeners in a golden build: those of index.js, then the profile's minifier, then check-done if listed |
| GoldenWiring.WiringDispatch | build/golden-builder.js:16-52 | publishing under the golden wiring runs the event's listeners one after the other |
| GoldenWiring.CheckStep | build/helpers/check-done.js:22-49 | check-done logs in verbose mode, ends the build exactly when every checked flag is set, and writes no flag |
| GoldenWiring.CheckOnlyBound | build/golden-builder.js:21-52 | the events with no other golden listener call check-done alone |
| GoldenWiring.FinalisesOnCompletion | build/golden-builder.js:21-52 | after styles are moved or a minifier or the sitemap finishes, the golden build ends exactly when every checked flag is set, and no flag changes |
| GoldenWiring.MoveBound | build/golden-builder.js:33-52 | a move event calls the index.js gate and then check-done |
| GoldenWiring.FinalisesOnMove | build/golden-builder.js:33-52 | after a move event the gate runs first, writes no flag, and the build ends exactly when every checked flag is set |
| GoldenWiring.JsMovedBound | build/golden-builder.js:16-40 | `jsMoved` calls minifyJS and then check-done |
| GoldenWiring.MinifyJsThenCheck | build/golden-builder.js:16-40 | minifyJS's call clears JS_IS_MINIFIED, so the check-done that follows cannot end the build |
| GoldenWiring.NeverFinalisesOnJsMoved | build/golden-builder.js:16-40 | `jsMoved` never ends a golden build |
| GoldenWiring.TemplatesMovedBound | build/golden-builder.js:18-50 | `templatesMoved` calls minifyHTML and then check-done |
| GoldenWiring.MinifyHtmlThenCheck | build/golden-builder.js:18-50 | minifyHTML's call clears HTML_IS_MINIFIED, so the check-done that follows cannot end the build |
| GoldenWiring.NeverFinalisesOnTemplatesMoved | build/golden-builder.js:18-50 | `templatesMoved` never ends a golden build |
| ComparisonBuilder.ComparisonWellRanked | build/comparison-builder.js:9-52 | every relay publishes an event further down the chain, so every `emit` returns |
| ComparisonBuilder.Install | build/comparison-builder.js:1-53 | the profile appends its ten listeners in source order and changes no flag |
| ComparisonBuilder.RelayRegistrations | build/comparison-builder.js:9-37 | the six relays of move and listing events, in order |
| ComparisonBuilder.HashingRegistrations | build/comparison-builder.js:39-52 | the two completion markers and the two check-done registrations, in order |
| ComparisonBuilder.ComparisonEventsDistinct | build/comparison-builder.js:9-52 | the profile registers at most one listener per event |
| ComparisonBuilder.ListenerAt | build/comparison-builder.js:9-52 | each registered event calls exactly its own listener |
| ComparisonBuilder.HashingListeners | build/comparison-builder.js:39-51 | the listeners of assetHashJsListed, hashingDone and gzipDone |
| ComparisonBuilder.ListedListeners | build/comparison-builder.js:29-37 | the relays of the image and stylesheet listing events |
| ComparisonBuilder.MoveListeners | build/comparison-builder.js:9-27 | the relays of the four move events |
| ComparisonBuilder.GzipDoneLink | build/comparison-builder.js:51 | check-done after gzipDone logs in verbose mode and ends the build exactly when every checked flag is set |
| ComparisonBuilder.HashingDoneLink | build/comparison-builder.js:45-49 | hashingDone sets GZIP and then publishes gzipDone |
| ComparisonBuilder.JsListedLink | build/comparison-builder.js:39-43 | assetHashJsListed sets ASSET_HASH.DONE and then publishes hashingDone |
| ComparisonBuilder.RelayLink | build/comparison-builder.js:9-37 | a relayed event is recorded and then its successor is published |
| ComparisonBuilder.RelayEffects | build/comparison-builder.js:9-37 | one trace entry per relayed event, in chain order, all seeing the same flags |
| ComparisonBuilder.HashingLinks | build/comparison-builder.js:39-49 | assetHashJsListed reaches gzipDone with ASSET_HASH.DONE and GZIP set |
| ComparisonBuilder.HashingTail | build/comparison-builder.js:39-51 | from assetHashJsListed to check-done: both markers set, then check-done decides on the resulting flags |
| ComparisonBuilder.ImagesRelays | build/comparison-builder.js:9-12 | imagesMoved relays through the image and stylesheet listings to assetHashJsListed |
| ComparisonBuilder.StylesRelays | build/comparison-builder.js:14-17 | stylesMoved relays through the stylesheet listing to assetHashJsListed |
| ComparisonBuilder.CodeRelays | build/comparison-builder.js:19-27 | jsMoved and templatesMoved relay straight to assetHashJsListed |
| ComparisonBuilder.MoveRunsChain | build/comparison-builder.js:9-51 | each move event runs the whole chain once: the relays, one hashingDone with ASSET_HASH.DONE set, one gzipDone with GZIP set, then one check-done |
| ComparisonBuilder.ChainFrom | build/comparison-builder.js:9-51 | the same chain under any listener list that binds the chain's events as the profile does |
| ComparisonBuilder.ComparisonWrites | build/comparison-builder.js:39-49 | no listener of the profile writes a flag other than ASSET_HASH.DONE and GZIP |
| ComparisonBuilder.ComparisonFrame | build/comparison-builder.js:9-52 | whatever is published, every other flag keeps its value |
| ComparisonBuilder.CheckDoneOnlyAfterGzipAndSitemap | build/comparison-builder.js:51-52 | check-done is registered for gzipDone and sitemapDone and no other event |
| ComparisonBuilder.ChainNeedsListingFlags | build/comparison-builder.js:9-52 | the relays leave the three listing flags unset, so while one of them is unset the chain never ends the build |
| ComparisonBuilder.InitialChainStalls | build/comparison-builder.js:9-52 | from the initial record, the first move event runs the whole chain and the build goes on |
| ComparisonBuilder.InstallForcingListed | build/comparison-builder.js:1-53 | the corrected profile sets the three listing flags, as the golden profile does, and registers the same listeners |
| ComparisonBuilder.ForcedChainFinalises | build/comparison-builder.js:9-52 | with the listing flags set, each move event ends the build exactly when the six flags of the stages that still run are set |
| ComparisonBuilder.ComparisonChainListeners | build/comparison-builder.js:9-37 | the comparison profile listens on every relay event of the chain with exactly the relay handlers it installs |
| Joins.FiringsCount | build/asset-hashing.js:32-37 | with the `>=` comparison, a counter that passes `n` publishes once per completion from the `n`-th on |
| Joins.ExactFiringsCount | build/asset-hashing.js:32-37 | with an exact comparison, the event is published once, when the counter equals `n` |
| Joins.FiresOnceWhenAllCounted | build/asset-hashing.js:32-37 | counting each of `n > 0` files once, the event is published exactly once, on the last completion |
| Joins.NoFiringBeforeAllCounted | build/asset-hashing.js:32-37 | nothing is published before the counter reaches `n` |
| Joins.DoubleCountFiresTwice | build/asset-hashing.js:32-37 | a completion counted twice makes `>=` publish a second time |
| Joins.IndexSetBound | build/asset-hashing.js:23-39 | a counter of distinct completions never passes the glob size |
| Joins.AllIndicesCounted | build/asset-hashing.js:23-39 | once every file has completed, the counter has reached the glob size |
| Joins.CountedOnce | build/asset-hashing.js:23-39 | with each completion counted once, the event is published once if a positive glob size is reached and never otherwise |
| HashRecords.RecordAllOther | build/hashing/asset-hashing.js:37-41 | paths outside the glob keep their name-list entries |
| HashRecords.RecordAllAt | build/hashing/asset-hashing.js:37-41 | every globbed file is listed under its hashed name |
| HashRecords.RecordHashes | build/hashing/asset-hashing.js:37-41 | the synchronous part of each callback adds the file's entry, in glob order, and changes nothing else |
| RenameJoins.RenameJoin.constructor | build/hashing/hash-css.js:17-26 | the promises of the glob, none settled, with the name list they started from |
| RenameJoins.RenameJoin.Renamed | build/hashing/hash-css.js:24 | a resolved rename moves that file to its hashed name |
| RenameJoins.RenameJoin.Settle | build/hashing/hash-css.js:27-30 | once every rename has resolved, each file lives at the name the name list gives it, the flag is set and then the event published |
| HashCss.HashCss | build/hashing/hash-css.js:7-31 | the call clears ASSET_HASH.CSS, lists every stylesheet in glob order and leaves one pending join that sets ASSET_HASH.CSS and publishes assetHashCssListed |
| HashCss.ListedStylesheets | build/hashing/hash-css.js:17-23 | each stylesheet is listed under a name that keeps its extension and carries its hash just before it, and other paths keep their entries |
| AssetHashing.GateIff | build/hashing/asset-hashing.js:17-23 | hashing goes ahead exactly when the three minification flags and both move flags are set |
| AssetHashing.ResetKeepsGate | build/hashing/asset-hashing.js:10-23 | the resets at the top never change the gate's decision |
| AssetHashing.GatedOutStillClears | build/hashing/asset-hashing.js:10-23 | gated out, the call still clears ASSET_HASH.IMAGES and ASSET_HASH.JS |
| AssetHashing.AssetHashing | build/hashing/asset-hashing.js:7-65 | gated out, nothing is listed and no join exists; otherwise every script and then every asset is listed, and two joins are pending |
| AssetHashing.ScriptsThenAssets | build/hashing/asset-hashing.js:36-64 | a script keeps its hashed name unless an asset at the same path overwrote it; assets always keep theirs |
| LegacyHashing.MovedStep | build/asset-hashing.js:29 | one more completed rename moves one more file to its hashed name |
| LegacyHashing.RenameCounter.constructor | build/asset-hashing.js:23-28 | the counter starts at 0 with no completed renames and nothing published |
| LegacyHashing.RenameCounter.Renamed | build/asset-hashing.js:29-37 | a callback counts its file and publishes once the counter reaches the glob size, so with each file counted once the event fires exactly once |
| LegacyHashing.RenameCounter.Move | build/asset-hashing.js:29 | the file now lives at its hashed name |
| LegacyHashing.RenameCounter.Count | build/asset-hashing.js:32 | the counter counts distinct completions and never passes the glob size |
| LegacyHashing.RenameCounter.Check | build/asset-hashing.js:33-37 | below the glob size nothing happens; at it the flag is set and the event published |
| LegacyHashing.LegacyGateWeaker | build/asset-hashing.js:8-13 | the older gate omits VIDEOS_ARE_MOVED, so it lets hashing start while videos are still being moved |
| LegacyHashing.LegacyFormatsIncluded | build/asset-hashing.js:21 | every image the older glob hashes the newer one hashes too, but not the other way round |
| LegacyHashing.LegacyAssetHashing | build/asset-hashing.js:5-57 | gated out nothing is listed; otherwise every script and then every image is listed and two counters are pending; no flag is reset |
| LegacyHashing.CountBoth | build/asset-hashing.js:20-56 | the two `forEach` calls list scripts then images and leave two counters pending |
| LegacyHashing.LegacyHashCss | build/hash-css.js:5-26 | every stylesheet is listed and one counter is pending; no flag is reset |
| LegacyHashing.CountGlob | build/asset-hashing.js:24-39 | one `forEach` lists its files in order and leaves its counter at 0 |
| LegacyHashing.LegacyNeverResets | build/asset-hashing.js:5-13 | neither older script clears a flag on entry |
| FileJoins.FileJoin.constructor | build/optimize/minify-html.js:19-40 | one promise per path of the glob, none settled, nothing written, not rejected |
| FileJoins.FileJoin.Wrote | build/optimize/minify-html.js:39 | a promise that resolved after writing its own path records that file's new text |
| FileJoins.FileJoin.Resolved | build/bundlers/bundle-scss.js:45-55 | a promise whose callback caught its error resolves without writing |
| FileJoins.FileJoin.Rejected | build/optimize/minify-js.js:21 | a promise whose callback threw rejects the join |
| FileJoins.FileJoin.Finish | build/optimize/minify-html.js:42-45 | once every promise has settled: resolved, every path has been written but those whose error was caught, and the flag is set and then the event published; rejected, nothing more happens |
| FileJoins.FileJoin.AllWritten | build/optimize/minify-html.js:19-42 | once `Promise.all` has resolved, every path of the glob has been written except those whose callback caught its error |
| FileJoins.FileJoin.EveryPathWritten | build/optimize/minify-js.js:17-29 | when no callback catches its error, the flag and the event come only after every path of the glob has been written |
| MinifyHtml.MinifyHtml | build/optimize/minify-html.js:7-45 | the call clears HTML_IS_MINIFIED and leaves one pending join whose promises write back the globbed pages at their own paths and catch nothing, already complete for an empty glob; so HTML_IS_MINIFIED is set and htmlMinified published only once every page is written back |
| MinifyHtml.PageWritten | build/optimize/minify-html.js:22-39 | a page is minified and written back over itself, and its promise counts as one that wrote |
| MinifyJs.MinifyJs | build/optimize/minify-js.js:7-29 | the call clears JS_IS_MINIFIED and leaves one pending join whose promises write back the globbed scripts at their own paths and catch nothing, already complete for an empty glob; so JS_IS_MINIFIED is set and jsMinified published only once every script is written back |
| MinifyJs.ScriptDone | build/optimize/minify-js.js:17-24 | a script's minified code is written back over it, and a minifier error rejects the join instead |
| BundleScss.CssSuffix | build/bundlers/bundle-scss.js:23 | a trailing `.scss` becomes `.css`, and a name without it is unchanged |
| BundleScss.OutFileOfSource | build/bundlers/bundle-scss.js:23 | a stylesheet under the source directory compiles to the same path under the package directory, ending in `.css` |
| BundleScss.BundleScss | build/bundlers/bundle-scss.js:11-58 | the call clears CSS_IS_MINIFIED and leaves one pending join, over each source's package path, that ends with stylesMoved |
| BundleScss.StylesheetDone | build/bundlers/bundle-scss.js:26-55 | a compiled stylesheet is written to its package path, minified only in production; a compile error writes nothing and rejects the join in production, and outside production its promise is one that caught its error |
| GzipFiles.GzName | build/optimize/gzip-files.js:27 | the compressed copy's name is the file's name followed by `.gz` |
| GzipFiles.GzNameInjective | build/optimize/gzip-files.js:27 | two files never share a compressed copy |
| GzipFiles.RecordedStep | build/optimize/gzip-files.js:27-30 | each counted write adds that file's copy |
| GzipFiles.GzipRun.constructor | build/optimize/gzip-files.js:7-22 | the call clears GZIP and starts with the counter at 0 and no copy written |
| GzipFiles.GzipRun.Written | build/optimize/gzip-files.js:27-35 | a finished write records the copy, counts it, and publishes gzipDone with GZIP set once the counter reaches the glob size, so exactly once |
| GzipFiles.GzipRun.Count | build/optimize/gzip-files.js:30 | the counter counts distinct finished writes and never passes the glob size |
| GzipFiles.GzipRun.Check | build/optimize/gzip-files.js:31-35 | below the glob size nothing happens; at it GZIP is set and gzipDone published |
| Sitemap.OutputFilesDistinct | build/bundlers/sitemap.js:38-59 | the two branches write different files |
| Sitemap.SitemapRun.constructor | build/bundlers/sitemap.js:6-26 | the call clears SITE_MAP with no branch finished |
| Sitemap.SitemapRun.Written | build/bundlers/sitemap.js:16-61 | each finished branch counts; at two SITE_MAP is set and sitemapDone published, and once both branches finish it has been published exactly once |
| MoveImages.MoveImages | build/move-images.js:18-53 | the call clears IMAGES_ARE_MOVED and VIDEOS_ARE_MOVED and leaves the three copies pending |
| MoveImages.ImagesCopied | build/move-images.js:29-37 | the images copy starts the favicon conversion and, without waiting for it, sets IMAGES_ARE_MOVED and publishes imagesMoved |
| MoveImages.VideosCopied | build/move-images.js:40-45 | the videos copy sets VIDEOS_ARE_MOVED and publishes videosMoved |
| OptimizeSvgs.RewrittenStep | build/optimize/optimize-svgs.js:52 | each counted write leaves that SVG holding its optimised text |
| OptimizeSvgs.SvgRun.constructor | build/optimize/optimize-svgs.js:31-44 | the call adds and clears SVG_OPTIMIZATION and starts with the counter at 0 |
| OptimizeSvgs.SvgRun.Written | build/optimize/optimize-svgs.js:52-61 | a finished write counts and, when the counter equals the glob size, sets SVG_OPTIMIZATION and publishes svgsOptimized, so exactly once |
| OptimizeSvgs.SvgRun.Count | build/optimize/optimize-svgs.js:55 | the counter counts distinct writes and never passes the glob size |
| OptimizeSvgs.SvgRun.Record | build/optimize/optimize-svgs.js:52 | the SVG now holds its optimised text |
| OptimizeSvgs.SvgRun.Tally | build/optimize/optimize-svgs.js:55 | `processed++` keeps the count of distinct writes |
| OptimizeSvgs.SvgRun.Check | build/optimize/optimize-svgs.js:57-61 | the exact comparison publishes once, when the count equals the glob size |
| OptimizeSvgs.SvgRun.AllWritten | build/optimize/optimize-svgs.js:44-63 | once every write has finished, every SVG holds its optimised text and svgsOptimized was published once for a non-empty glob and never for an empty one |
| UpdateCss.Segment | build/hashing/update-css-with-image-hashes.js:19-20 | `split(package)[1]` is defined exactly when the text splits into at least two pieces |
| UpdateCss.Chars | build/hashing/update-css-with-image-hashes.js:24 | `split('')` gives the characters one by one |
| UpdateCss.RewriteCss | build/hashing/update-css-with-image-hashes.js:17-26 | the key loop of one stylesheet computes the rewrite of its text under the name list, key by key in insertion order |
| UpdateCss.RewriteAppend | build/hashing/update-css-with-image-hashes.js:18-26 | running the keys of one list and then another is running the keys of both |
| UpdateCss.SplitOnAbsent | build/hashing/update-css-with-image-hashes.js:19 | a separator that does not occur splits nothing |
| UpdateCss.SegmentOfPackagePath | build/hashing/update-css-with-image-hashes.js:19-20 | the relative name of a path inside the package directory is what follows the directory |
| UpdateCss.UpdateReplacesRelativeName | build/hashing/update-css-with-image-hashes.js:19-25 | one key's step replaces every occurrence of the file's relative name by its hashed relative name, and changes nothing where the name does not occur |
| UpdateCss.OutsideKeyIgnored | build/hashing/update-css-with-image-hashes.js:19-25 | a key outside the package directory never changes a stylesheet |
| UpdateCss.WroteStep | build/hashing/update-css-with-image-hashes.js:27 | each finished write leaves that stylesheet with its rewritten text |
| UpdateCss.CssWrites.constructor | build/hashing/update-css-with-image-hashes.js:15-29 | the pending writes of the glob, none finished |
| UpdateCss.CssWrites.Wrote | build/hashing/update-css-with-image-hashes.js:27 | a finished write stores that stylesheet's rewritten text, changed or not |
| UpdateCss.CssWrites.Settle | build/hashing/update-css-with-image-hashes.js:30-32 | once every write has finished, every stylesheet holds its rewritten text and indexCssForHashing is published without any flag written first |
| UpdateCss.UpdateCssWithImageHashes | build/hashing/update-css-with-image-hashes.js:6-29 | every stylesheet's new text is its rewrite under the name list, and the writes are pending |
| ExternalLinks.StripWww | build/optimize/process-external-links.js:90-91 | a leading `www.` is removed and any other text is kept |
| ExternalLinks.CurrentDomainOfSiteUrl | build/optimize/process-external-links.js:21 | the domain of a site URL with either scheme and at most one trailing slash is its host |
| ExternalLinks.CurrentDomainKeepsSecondSlash | build/optimize/process-external-links.js:21 | only one trailing slash is removed |
| ExternalLinks.IsExternalLink | build/optimize/process-external-links.js:73-98 | empty, fragment, `javascript:`, `mailto:` and `tel:` links, links starting with `/`, `./` or `../`, and unparsable links are never external, and an external link's host differs from the site's once case and `www.` are ignored |
| ExternalLinks.BaseRelativeExternal | build/optimize/process-external-links.js:80-93 | an href with no scheme that starts with neither `/`, `\`, `./` nor `../` takes the host of the base URL `https://example.com`, so it is external exactly when the site is not example.com |
| ExternalLinks.AboutIsExternal | build/optimize/process-external-links.js:80-93 | the page-relative link `about/` is external on every site but example.com |
| ExternalLinks.ToLowerIdempotent | build/optimize/process-external-links.js:87-90 | lower-casing twice is lower-casing once |
| ExternalLinks.DomainCaseIgnored | build/optimize/process-external-links.js:90 | the site's domain is compared without regard to letter case |
| ExternalLinks.SameSiteNotExternal | build/optimize/process-external-links.js:86-93 | a link to the site itself, in any case and with or without `www.`, is never external |
| ExternalLinks.RewriteAnchor | build/optimize/process-external-links.js:35-49 | an anchor that is not marked is returned as matched |
| ExternalLinks.MarkedStaysMarked | build/optimize/process-external-links.js:37-45 | a changed anchor carries `is-external`, so matching it again leaves it alone: processing a file twice marks nothing new |
| ExternalLinks.Modified | build/optimize/process-external-links.js:30-49 | a file is modified exactly when one of its anchors is marked |
| ExternalLinks.UnmodifiedKeepsAnchors | build/optimize/process-external-links.js:35-51 | an unmodified file's anchors are all returned as matched |
| ExternalLinks.LinksRun.constructor | build/optimize/process-external-links.js:6-23 | the call clears EXTERNAL_LINKS_PROCESSED, computes the site's domain and starts with nothing read |
| ExternalLinks.LinksRun.Read | build/optimize/process-external-links.js:26-60 | a modified file's write starts; an unmodified file is counted at once and the join checked |
| ExternalLinks.LinksRun.Unchanged | build/optimize/process-external-links.js:57-60 | an unmodified file is counted at once and the join checked |
| ExternalLinks.LinksRun.StartWrite | build/optimize/process-external-links.js:51-52 | a modified file's new text is pending |
| ExternalLinks.LinksRun.WriteDone | build/optimize/process-external-links.js:52-56 | a finished write stores the file's new text, counts it and checks the join |
| ExternalLinks.LinksRun.Count | build/optimize/process-external-links.js:54 | the counter counts distinct finished files |
| ExternalLinks.LinksRun.Counted | build/optimize/process-external-links.js:54-55 | the event count follows the exact comparison after one more file |
| ExternalLinks.LinksRun.Check | build/optimize/process-external-links.js:64-70 | the exact comparison sets EXTERNAL_LINKS_PROCESSED and publishes externalLinksProcessed once the counter equals the glob size |
| ExternalLinks.LinksRun.AllProcessed | build/optimize/process-external-links.js:23-70 | once every file is finished, the files written are exactly the modified ones, and the event was published once, or never for an empty glob |
| TemplatePaths.Classify | build/bundlers/bundle-templates.js:222-232 | a template is Markdown+EJS exactly when its name ends in `.md.ejs`, Markdown exactly when it ends in `.md`, EJS otherwise |
| TemplatePaths.ReplaceSuffix | build/bundlers/bundle-templates.js:247-253 | an anchored suffix pattern replaces the suffix when the text ends with it and leaves the text alone otherwise |
| TemplatePaths.ReplaceSuffixOf | build/bundlers/bundle-templates.js:247-253 | replacing the suffix of `a + suffix` gives `a` followed by the replacement |
| TemplatePaths.RelocateTemplate | build/bundlers/bundle-templates.js:247-253 | the templates directory prefix is swapped for the package directory |
| TemplatePaths.SwapExtension | build/bundlers/bundle-templates.js:247-253 | moving a template and swapping its extension keeps the name in between |
| TemplatePaths.MarkdownEjsOutput | build/bundlers/bundle-templates.js:245-247 | a `.md.ejs` template is written to `<name>/index.html` |
| TemplatePaths.MarkdownOutput | build/bundlers/bundle-templates.js:248-250 | a `.md` template is written to `<name>/index.html` |
| TemplatePaths.EjsOutput | build/bundlers/bundle-templates.js:251-253 | an EJS template not named `.html.ejs` is written to `<name>/index.html` |
| TemplatePaths.HtmlTemplateOutput | build/bundlers/bundle-templates.js:251-253 | a `.html.ejs` template is written to `<name>.html` |
| TemplatePaths.DoubleExtension | build/bundlers/bundle-templates.js:253 | swapping only the last of two extensions keeps the first |
| TemplatePaths.HtmlTemplateDropsEjs | build/bundlers/bundle-templates.js:253 | a template ending in `.html.ejs` only loses its `.ejs` |
| TemplatePaths.HtmlTemplateIsEjs | build/bundlers/bundle-templates.js:223-232 | a `.html.ejs` template is classed as EJS |
| TemplatePaths.HtmlTemplateContains | build/bundlers/bundle-templates.js:253 | a template ending in `.html.ejs` passes the `includes('.html.ejs')` test |
| TemplatePaths.EjsBundlerOnMarkdown | build/bundlers/bundle-ejs.js:169-185 | bundle-ejs.js also picks up `.md.ejs` templates and writes them to `<name>.md/index.html`, a different file from the `<name>/index.html` the Markdown bundler writes |
| TemplatePaths.FirstIndexHtml | build/bundlers/bundle-templates.js:256 | `index.html` is first found just after `<name>/` when the name does not contain it |
| TemplatePaths.PagePathOfIndex | build/bundlers/bundle-templates.js:256 | the page path of `<name>/index.html` is `<name>/` |
| TemplatePaths.PagePathOfOther | build/bundlers/bundle-templates.js:256 | an output path without `index.html` keeps everything after the package directory |
| Marked.Track | build/bundlers/bundle-templates.js:58-64 | a line with `<li>` enters a list, one with `</pre>` leaves a code block, one with only `<pre>` enters it, and a line with neither leaves the code flag as it was |
| Marked.ParagraphLines | build/bundlers/bundle-templates.js:50-88 | the pass produces one line for each line read |
| Marked.Paragraphs | build/bundlers/bundle-templates.js:55-86 | the `for` loop with its two flags produces exactly the pass's lines |
| Marked.PushedPrefix | build/bundlers/bundle-templates.js:55-86 | each push extends the output by the pass's next line |
| Marked.TrackLine | build/bundlers/bundle-templates.js:58-64 | the flag updates at the top of the loop body follow the tracking rule |
| Marked.PushLine | build/bundlers/bundle-templates.js:66-85 | what is pushed for a line follows the push rule |
| Marked.PushCases | build/bundlers/bundle-templates.js:66-85 | a line becomes empty exactly when it is blank, is wrapped in `<p>` exactly when the wrapping test holds, and is kept as it is otherwise |
| Marked.ListItemKept | build/bundlers/bundle-templates.js:63-85 | a line holding a list item is never wrapped |
| Marked.InsideCode | build/bundlers/bundle-templates.js:59-60 | between a line that opens `<pre>` and the next line that closes it, the pass is inside a code block |
| Marked.CodeBlockKept | build/bundlers/bundle-templates.js:59-75 | no non-blank line of a code block is wrapped or altered |
| Marked.LinesPreserved | build/bundlers/bundle-markdown.js:44-82 | the pass never splits or merges lines: it returns as many lines as it read, each kept, blanked or wrapped |
| ErrorPage.SpacePairsKeepsAbsent | build/bundlers/bundle-templates.js:112 | the whitespace-pair step never introduces a character that is in neither the text nor `&nbsp;` |
| ErrorPage.SpacePairsHead | build/bundlers/bundle-templates.js:112 | the pair step keeps the text's first character unless it starts a pair |
| ErrorPage.NoSpacePairAppend | build/bundlers/bundle-templates.js:112 | joining two texts without adjacent whitespace, at a join without it, has none |
| ErrorPage.SpacePairsLeavesNoPair | build/bundlers/bundle-templates.js:112 | after the pair step no two whitespace characters are adjacent |
| ErrorPage.SpacePairsIdentity | build/bundlers/bundle-templates.js:112 | text without adjacent whitespace passes the pair step unchanged |
| ErrorPage.EscapedMessageSafe | build/bundlers/bundle-templates.js:104-113 | the escaped message holds no quote, apostrophe or newline and no two adjacent whitespace characters |
| ErrorPage.PlainMessageUnchanged | build/bundlers/bundle-templates.js:104-113 | a message with nothing to escape appears on the page as it is |
| EjsMarkdown.NoBlankLineAppend | build/bundlers/bundle-ejs.js:58 | joining two texts without a blank line, at a join without one, has none |
| EjsMarkdown.BreakHead | build/bundlers/bundle-ejs.js:58 | the paragraph step keeps the text's first character when it is not a newline |
| EjsMarkdown.ParagraphStepLeavesNoBlankLine | build/bundlers/bundle-ejs.js:58 | after the paragraph step the text has no blank line |
| EjsMarkdown.FinishedContentHasNoBlankLine | build/bundlers/bundle-ejs.js:55-65 | the content `processMarkdownInContent` returns has no blank line |
| EjsMarkdown.SingleLineWrapped | build/bundlers/bundle-ejs.js:55-65 | one line of plain text, not starting with a tag and holding no list, becomes one paragraph around the unchanged text |
| TemplateBundlers.OutputsAgree | build/bundlers/bundle-markdown.js:226-233 | bundle-markdown.js and bundle-templates.js write a `.md` or `.md.ejs` template to the same `<name>/index.html` |
| TemplateBundlers.MarkdownSkipsEjs | build/bundlers/bundle-templates.js:161-169 | plain Markdown content never depends on the EJS renderer, always succeeds and keeps the line count of the rewritten text |
| TemplateBundlers.EjsBundlerInput | build/bundlers/bundle-ejs.js:15-66 | the content bundle-ejs.js hands to EJS after its Markdown pass holds no blank line |
| TemplateBundlers.RenderOutcome | build/bundlers/bundle-templates.js:131-199 | outside production a template with no layout rejects; a failed layout read rejects, or in production throws in a detached `.catch`, which ends the process; once the layout is read the render resolves, to the error page when EJS throws |
| TemplateBundlers.LoopResolve | build/bundlers/bundle-templates.js:259 | a resolved render keeps the loop's bookkeeping consistent and records the page for the template |
| TemplateBundlers.LoopReject | build/bundlers/bundle-templates.js:270-280 | a rejected render keeps the bookkeeping consistent and adds one new template to the rejected ones |
| TemplateBundlers.TemplateRun.constructor | build/bundlers/bundle-templates.js:212-257 | the run holds the glob and one output path per template, computed by its bundler, and nothing is rendered, written or counted yet |
| TemplateBundlers.TemplateRun.Render | build/bundlers/bundle-templates.js:259-285 | a resolved page is kept for writing and the loop moves on; a rejection is counted and ends the process; a throw in the render ends the process with the loop still awaiting |
| TemplateBundlers.TemplateRun.Resolve | build/bundlers/bundle-templates.js:259 | the awaited render resolved: its page is kept for the write |
| TemplateBundlers.TemplateRun.Reject | build/bundlers/bundle-templates.js:270-285 | the `.catch` counts the template once without checking the counter; the write of `undefined` then ends the process, before any publication |
| TemplateBundlers.TemplateRun.BeforeRender | build/bundlers/bundle-templates.js:259-289 | while the loop awaits a render, the counter is below the glob size and nothing has been published |
| TemplateBundlers.TemplateRun.Written | build/bundlers/bundle-templates.js:282-296 | a finished write puts the page at its output path and counts it; templatesMoved is published exactly when the counter has reached the glob size |
| TemplateBundlers.TemplateRun.Count | build/bundlers/bundle-templates.js:289 | the counter is the number of rejections plus finished writes, and the publications so far are accounted for |
| TemplateBundlers.TemplateRun.Record | build/bundlers/bundle-templates.js:285 | the write puts the template's page at its output path |
| TemplateBundlers.TemplateRun.Check | build/bundlers/bundle-templates.js:291-294 | templatesMoved is published, once, exactly when the counter is at least the glob size |
| TemplateBundlers.TemplateRun.CounterBounded | build/bundlers/bundle-templates.js:279-289 | each template is counted at most once, so the counter never passes the glob size |
| TemplateBundlers.TemplateRun.PublishedAtMostOnce | build/bundlers/bundle-templates.js:289-294 | templatesMoved is published at most once per run, and never for an empty glob |
| TemplateBundlers.TemplateRun.AllWritten | build/bundlers/bundle-templates.js:218-297 | when every render resolved and every write finished, templatesMoved was published exactly once (for a non-empty glob) and, with distinct output paths, every page is in place |
| TemplateBundlers.TemplateRun.PublishedOnlyWhenAllWritten | build/bundlers/bundle-templates.js:218-297 | templatesMoved is published only while the process runs, with no failed render, the loop past the last template and a page written for every template |
| TemplateBundlers.StartBundleEjs | build/bundlers/bundle-ejs.js:163-174 | bundle-ejs.js starts a run over its glob and records its task start |
| TemplateBundlers.StartBundleMarkdown | build/bundlers/bundle-markdown.js:196-209 | bundle-markdown.js starts a run over its glob and records its task start |
| TemplateBundlers.StartBundleTemplates | build/bundlers/bundle-templates.js:203-216 | bundle-templates.js starts a run over its glob |
| EjsFunctions.SqueakyClean | build/helpers/ejs-functions.js:10-17 | the splice loop returns exactly what the one-pass cleaning rule gives on the input array |
| EjsFunctions.CleanedStep | build/helpers/ejs-functions.js:11-15 | one turn of the loop: a filled entry is kept, a blank one is spliced out and the entry after it is skipped |
| EjsFunctions.Filled | build/helpers/ejs-functions.js:12 | the filtered list holds no blank entry |
| EjsFunctions.CleanedKeepsFilled | build/helpers/ejs-functions.js:10-17 | every entry that is not `null` or empty survives, and the survivors keep their order |
| EjsFunctions.CleanedRemovesIsolatedBlanks | build/helpers/ejs-functions.js:10-17 | without two blanks in a row, the pass removes every blank entry |
| EjsFunctions.SecondBlankSurvives | build/helpers/ejs-functions.js:11-15 | of two blank entries in a row the second survives, because the index moves on past the splice |
| EjsFunctions.IndexOfEntry | build/helpers/ejs-functions.js:39 | `indexOf` gives the first index holding the entry, or -1 exactly when the entry is absent |
| EjsFunctions.ChildPages | build/helpers/ejs-functions.js:35-50 | the child pages are exactly the pages of the mapping that pass the child test, and no more pages than there are |
| EjsFunctions.ChildIff | build/helpers/ejs-functions.js:39-48 | below a named parent, a page is a child exactly when the parent's first occurrence among the URL's segments is the second-to-last segment |
| EjsFunctions.RootChildIff | build/helpers/ejs-functions.js:41-42 | at the root, the children are the pages with one URL segment and no `.html` in their URL |
| EjsFunctions.SplitWhite | build/helpers/ejs-functions.js:23 | splitting on whitespace always yields at least one piece |
| EjsFunctions.SplitWhiteJoin | build/helpers/ejs-functions.js:23 | splitting on whitespace and joining with a space keeps the length and replaces each whitespace character by a space |
| EjsFunctions.CleanUpChars | build/helpers/ejs-functions.js:19-24 | the cleaned value has the length of the trimmed text, each whitespace character turned into one space, runs not collapsed, and no space at either end |
| EjsFunctions.CleanUpIdempotent | build/helpers/ejs-functions.js:19-24 | cleaning a cleaned value changes nothing |
| EjsFunctions.LastSpace | build/helpers/ejs-functions.js:62 | the index of the last whitespace character, or -1 exactly when there is none |
| EjsFunctions.LastGapJoined | build/helpers/ejs-functions.js:59-63 | a text ending in a word after a whitespace character gets `&nbsp;` in that place |
| EjsFunctions.NoGapUnchanged | build/helpers/ejs-functions.js:59-63 | a text without whitespace, or ending in whitespace, is left alone by the first step |
| EjsFunctions.UnderscoreHead | build/helpers/ejs-functions.js:62 | the underscore step keeps the first character when it is not an underscore |
| EjsFunctions.NoUnderscorePairAppend | build/helpers/ejs-functions.js:62 | joining two texts without `__`, at a join without one, has none |
| EjsFunctions.NoDoubleUnderscore | build/helpers/ejs-functions.js:62 | after the underscore step no `__` is left |
| EjsFunctions.NoWidowsLeavesNoDoubleUnderscore | build/helpers/ejs-functions.js:59-63 | what `noWidows` returns holds no `__` |
| EjsFunctions.Merge | build/helpers/ejs-functions.js:135 | after `merge(a, b)` the keys are exactly those of `a` and `b` |
| EjsFunctions.MergeGet | build/helpers/ejs-functions.js:135 | after `merge(a, b)` a key holds `b`'s value when `b` sets it and `a`'s otherwise |
| EjsFunctions.WithClass | build/helpers/ejs-functions.js:133 | after the default, `class` is always set |
| EjsFunctions.AttributeList | build/helpers/ejs-functions.js:151 | the anchor has one attribute per key |
| EjsFunctions.Attrs.constructor | build/helpers/ejs-functions.js:129 | the caller's object holds the given entries |
| EjsFunctions.Link | build/helpers/ejs-functions.js:129-152 | `link` throws without a truthy `href` and leaves the caller's object alone; otherwise it returns the anchor and leaves the caller's object with the class default and, for a link that is not external, the type's class suffix |
| EjsFunctions.TypedLink | build/helpers/ejs-functions.js:154-168 | the variants call `link` on a fresh merge of the type default and the caller's object |
| EjsFunctions.InlineLink | build/helpers/ejs-functions.js:154-156 | `inlineLink` is `link` with type `inline` as a default |
| EjsFunctions.CardLink | build/helpers/ejs-functions.js:162-164 | `cardLink` is `link` with type `card` as a default |
| EjsFunctions.ButtonLink | build/helpers/ejs-functions.js:166-168 | `buttonLink` is `link` with type `button` as a default |
| EjsFunctions.BlockLink | build/helpers/ejs-functions.js:158-160 | `blockLink` appends the arrow to the text, makes a block link and wraps it in a span, or fails as `link` does |
| EjsFunctions.WithClassGet | build/helpers/ejs-functions.js:133 | the class default touches only `class` and does not change whether the link is external |
| EjsFunctions.ExternalMergeGet | build/helpers/ejs-functions.js:134-136 | for an external link the caller's `rel` and `target` win over the defaults |
| EjsFunctions.LinkAttributeValues | build/helpers/ejs-functions.js:133-151 | every attribute of the anchor has the caller's value, except `class` (the caller's class or `''` plus the type's suffix) and, for an external link, `rel`/`target` defaulting to `noopener`/`blank` |
| EjsFunctions.VariantTypeDefault | build/helpers/ejs-functions.js:154-168 | a `type` the caller sets wins over the variant's own |
| EjsFunctions.ClassAttribute | build/helpers/ejs-functions.js:82 | the class attribute is empty exactly when the class list is |
| EjsFunctions.Img | build/helpers/ejs-functions.js:75-83 | `img` throws exactly when `src` is missing or empty or the file cannot be measured |
| EjsFunctions.ImgExplicitSize | build/helpers/ejs-functions.js:82 | explicit, non-zero dimensions make the measured size irrelevant |
| EjsFunctions.ImgClassAttribute | build/helpers/ejs-functions.js:82 | the class attribute sits just before the closing ` />`, where the tag without classes has nothing |
| S3Uploader.ContentType | s3-uploader.js:24-65 | a file goes out as `application/octet-stream` exactly when the table does not name its extension |
| S3Uploader.MimeTypeDefault | s3-uploader.js:28-64 | the `switch` falls to `application/octet-stream` exactly for an extension it does not list |
| S3Uploader.CacheControl | s3-uploader.js:109-125 | as written, caching is off exactly for names whose last extension is `.html`, `.xml`, `.json` or `.txt`, and every other file is cached for 180 days |
| S3Uploader.GzippedPageLongLived | s3-uploader.js:109-144 | as written, a gzipped page `<dir>/<name>.html.gz`, the full path `uploadFile` passes, is cached for 180 days, because its extension is only `.gz` |
| S3Uploader.CacheControlBySuffix | s3-uploader.js:112-121 | under the intended rule, caching is off exactly for names ending in one of the eight listed suffixes |
| S3Uploader.GzippedPageNotCached | s3-uploader.js:114 | under the intended rule a gzipped page is not cached |
| S3Uploader.MatchCount | s3-uploader.js:219-228 | the filtered pattern list is non-empty exactly when one of the suffixes ends the name |
| S3Uploader.EndsWithAnyPrefixed | s3-uploader.js:241 | a key that must always be replaced keeps that property with the package directory in front |
| S3Uploader.DeleteList | s3-uploader.js:235-236 | a bucket key is deleted exactly when no local file has its path or it must always be replaced |
| S3Uploader.UploadList | s3-uploader.js:238-242 | a local path is uploaded exactly when it is not a directory and is absent from the bucket or must always be replaced |
| S3Uploader.SyncCoversLocalFiles | s3-uploader.js:230-252 | after the sync every local file is in the bucket under its key |
| S3Uploader.UploadedUnderPackage | s3-uploader.js:238-248 | an uploaded file's path is the package directory followed by its key |
| S3Uploader.SyncOnlyLocalFiles | s3-uploader.js:230-252 | after the sync every key left in the bucket names something under the package directory |
| S3Uploader.AlwaysSwappedRefreshed | s3-uploader.js:235-242 | a key that must always be replaced is deleted and, when it exists locally, uploaded again |
| S3Uploader.UnchangedFileUntouched | s3-uploader.js:235-242 | a file present on both sides that need not be replaced is neither deleted nor uploaded |
| S3Uploader.Rooted | s3-uploader.js:193 | every key is given a leading slash |
| S3Uploader.CollapseSlashes | s3-uploader.js:194 | after the rewrite no two slashes are adjacent, the first character is kept, and a key without slashes is unchanged |
| S3Uploader.InvalidationPath | s3-uploader.js:193-194 | each invalidation path starts with a slash and has no doubled slash |
| S3Uploader.Dedup | s3-uploader.js:192 | `Array.from(new Set(...))` keeps each value once and loses none |
| S3Uploader.ChangedPaths | s3-uploader.js:192-194 | the changed keys map one for one to their invalidation paths |
| S3Uploader.ChangedPathsWellFormed | s3-uploader.js:192-194 | every changed path is rooted and has no doubled slash |
| S3Uploader.Capped | s3-uploader.js:196-200 | the wildcard when nothing changed, all paths when at most 1000, otherwise the first 1000, never more, and still distinct |
| S3Uploader.Invalidation | s3-uploader.js:189-211 | the invalidation lists between 1 and 1000 distinct well-formed paths, its quantity is their number, and it is the wildcard when no key changed |
| S3Uploader.InvalidationFromKeys | s3-uploader.js:189-200 | every item invalidated is the path of a changed key unless no key changed |
| S3Uploader.InvalidationCovers | s3-uploader.js:189-200 | when at most 1000 distinct paths changed, every changed key is invalidated |
| S3Uploader.DeleteS3Files | s3-uploader.js:88-107 | no request is made exactly when the delete list is empty; otherwise it names exactly those keys |
| S3Uploader.Deploy | s3-uploader.js:230-259 | the sync uses the production or staging bucket, deletes and uploads the computed lists, and invalidates the changed keys in production only |
| S3Uploader.UploadKeys | s3-uploader.js:248 | each uploaded path maps to its key |
| S3Uploader.ChangedKeysCover | s3-uploader.js:256-257 | every deleted key and every uploaded file's key is among the changed keys |
| S3Uploader.ChangesInvalidated | s3-uploader.js:253-259 | in production, when at most 1000 paths changed, every deleted and every uploaded key is invalidated |
| S3Uploader.Uploads.constructor | s3-uploader.js:158-185 | `uploadFiles` starts the first `min(total, concurrency)` uploads, and resolves at once for an empty list |
| S3Uploader.Uploads.StartUploads | s3-uploader.js:172-182 | the `while` loop starts uploads in index order until `concurrency` are in flight or none is left |
| S3Uploader.Uploads.Complete | s3-uploader.js:176-180 | a finished upload stores its key at its own index, lowers the in-flight count and schedules again; the promise resolves once nothing is left and nothing is in flight |
| S3Uploader.Uploads.Fail | s3-uploader.js:181 | a failed upload rejects the promise |
| S3Uploader.Uploads.CompleteAll | s3-uploader.js:158-187 | with no failure and a positive concurrency, completing the uploads in any order resolves the promise with every file's key at its own index |
| S3Uploader.Uploads.ResolvedResults | s3-uploader.js:163-177 | once resolved, `results[i]` is the key of `fileList[i]` for every `i` |
| S3Uploader.Uploads.StallsOnlyWithoutConcurrency | s3-uploader.js:167-185 | without a failure, the promise stays pending with nothing in flight only when `concurrency` is zero |
| ConvertImages.ShouldConvertOf | scripts/convert-images.js:93-96 | a file `<stem>.<ext>` is converted exactly when `ext`, lower-cased, is one of the WebP candidates `jpg`, `png`, `jpeg` |
| ConvertImages.NoExtensionNotConverted | scripts/convert-images.js:93-96 | a path without an extension is never converted |
| ConvertImages.ReplaceExtension | scripts/convert-images.js:44 | the output path ends in the new extension, or is the input unchanged when it has no extension to replace |
| ConvertImages.ReplaceExtensionOf | scripts/convert-images.js:44 | `<stem>.<old>` becomes `<stem>.<new>`, whatever dots the stem holds |
| ConvertImages.Convert | scripts/convert-images.js:43-91 | a conversion yields its output path exactly when that file did not exist and the converter did not throw, and never yields an existing file |
| ConvertImages.FindImageFiles | scripts/convert-images.js:16-22 | an absent directory gives no file; otherwise the files are those the walk finds |
| ConvertImages.ListImageFiles | scripts/convert-images.js:24-40 | the `for` loop over a directory's entries gathers exactly the files the walk finds, in order |
| ConvertImages.ListEntry | scripts/convert-images.js:27-37 | one entry contributes its subtree's images, itself when it is an image file, or nothing |
| ConvertImages.FoundAreImages | scripts/convert-images.js:16-41 | every file found lies under the directory and carries a listed image extension other than `.svg` |
| ConvertImages.EntryFoundAreImages | scripts/convert-images.js:27-37 | every file an entry contributes lies under the directory and carries an image extension |
| ConvertImages.EntryFilesFound | scripts/convert-images.js:26-38 | whatever an entry of the directory contributes is among the files found |
| ConvertImages.TopLevelImagesFound | scripts/convert-images.js:32-36 | an image file directly inside the directory is always found |
| ConvertImages.SkippedDirectoryAddsNothing | scripts/convert-images.js:30 | nothing inside a hidden directory or `node_modules` is ever found |
| ConvertImages.Process | scripts/convert-images.js:43-144 | a non-candidate adds nothing; a candidate adds at most one record, one or two new files per record, none of which `fs.existsSync` saw |
| ConvertImages.SeenIff | scripts/convert-images.js:64-138 | `fs.existsSync` sees a file exactly when it was there at the start or an earlier image's `avifenc` run wrote it |
| ConvertImages.SeenStep | scripts/convert-images.js:64-80 | one more image adds its AVIF copy, if one was written, to what `fs.existsSync` sees |
| ConvertImages.ConversionsStep | scripts/convert-images.js:112-144 | the loop's result for a list is its result for all but the last file, followed by the last file's step taken with the files seen after the earlier ones |
| ConvertImages.ProcessOutputs | scripts/convert-images.js:126-143 | the new files one image adds are the outputs its record names |
| ConvertImages.ConversionsRecorded | scripts/convert-images.js:112-144 | `modifiedFiles` holds exactly the new files the records of `convertedFiles` name, in order |
| ConvertImages.ConversionsAreCandidates | scripts/convert-images.js:112-144 | every record is a file found, a conversion candidate, with at least one new file, and no new file existed before |
| ConvertImages.AvifOnce | scripts/convert-images.js:64-138 | no AVIF copy is recorded twice: a later image whose copy has the same name finds it written and skips that conversion |
| ConvertImages.SameCopies | scripts/convert-images.js:43-138 | two candidates whose copies have the same names, in a directory without copies: both get the WebP copy, only the first the AVIF copy, and `modifiedFiles` lists the WebP copy twice |
| ConvertImages.SameStemImages | scripts/convert-images.js:43-138 | `<stem>.<e1>` then `<stem>.<e2>`, such as `a.jpg` then `a.png`: both record `<stem>.webp`, only the first records `<stem>.avif` |
| ConvertImages.SummaryBounds | scripts/convert-images.js:151-155 | the summary has `convertedImages <= newFiles <= 2 * convertedImages` |
| ConvertImages.ProcessFile | scripts/convert-images.js:113-143 | one pass of the loop body adds exactly the image's step |
| ConvertImages.ConvertAll | scripts/convert-images.js:98-158 | `main()` converts every file found; it writes no summary exactly when no image is found, and otherwise the summary counts the images, the records and the new files |
| ConvertImages.ConvertEach | scripts/convert-images.js:112-144 | the `for` loop over the images, adding each AVIF copy it writes to the files it checks, accumulates exactly the conversions of the whole list |
| ScreenshotComparison.FirstShot | test/screenshots/utils/screenshot-comparison.js:66-74 | the first screenshot seen for a key has that key |
| ScreenshotComparison.GroupedIsExpected | test/screenshots/utils/screenshot-comparison.js:64-78 | a group is created by the first matching file of its key, which gives its name, viewport and timestamp; the last file of each kind sets that kind's path |
| ScreenshotComparison.NoShotNoPath | test/screenshots/utils/screenshot-comparison.js:72-76 | a key with no screenshot has no path of either kind |
| ScreenshotComparison.GroupedDistinct | test/screenshots/utils/screenshot-comparison.js:64-78 | each key appears once in `grouped` |
| ScreenshotComparison.Paired | test/screenshots/utils/screenshot-comparison.js:80 | the filter keeps exactly the groups that have both a local and a live path, and no more than there are |
| ScreenshotComparison.GetComparisonFiles | test/screenshots/utils/screenshot-comparison.js:55-81 | a missing directory gives no comparison; otherwise the comparisons are the paired groups of the listing |
| ScreenshotComparison.PutTwice | test/screenshots/utils/screenshot-comparison.js:76 | a second assignment to a key replaces the first in place |
| ScreenshotComparison.PairedPaths | test/screenshots/utils/screenshot-comparison.js:66-80 | every pair returned is some key's expected group and has both paths |
| ScreenshotComparison.PairedFrom | test/screenshots/utils/screenshot-comparison.js:80 | every pair returned comes from a position of the grouped values |
| ScreenshotComparison.GetAt | test/screenshots/utils/screenshot-comparison.js:64-80 | with distinct keys, the value at a position is what its key looks up |
| ScreenshotComparison.FileSize | test/screenshots/utils/screenshot-comparison.js:86-93 | a file that cannot be stated has size 0 |
| ScreenshotComparison.SizeDifference | test/screenshots/utils/screenshot-comparison.js:98-108 | the difference is the second size minus the first |
| ScreenshotComparison.SizeDifferenceSwap | test/screenshots/utils/screenshot-comparison.js:98-101 | swapping the files negates the difference |
| ScreenshotComparison.ComparisonReport | test/screenshots/utils/screenshot-comparison.js:29-43 | the report has one row per comparison, in order, with both paths, both sizes and their difference |
| ScreenshotComparison.Insert | test/screenshots/utils/screenshot-comparison.js:138 | inserting keeps every item and adds the new one |
| ScreenshotComparison.InsertNewestFirst | test/screenshots/utils/screenshot-comparison.js:138 | inserting into a list sorted newest first keeps it sorted |
| ScreenshotComparison.SortNewest | test/screenshots/utils/screenshot-comparison.js:138 | the sort returns a permutation of the group |
| ScreenshotComparison.SortNewestFirst | test/screenshots/utils/screenshot-comparison.js:138 | the sort puts the newest first |
| ScreenshotComparison.Retention | test/screenshots/utils/screenshot-comparison.js:136-139 | the clean-up keeps `min(5, size)` items of each group, deletes the rest, loses none, and never deletes an item newer than one it keeps |
| ScreenshotComparison.Files | test/screenshots/utils/screenshot-comparison.js:141-142 | the files unlinked are the files of the items, in order |
| ScreenshotComparison.CleanupOldScreenshots | test/screenshots/utils/screenshot-comparison.js:113-151 | `cleanupOldScreenshots()` unlinks exactly the files past the five newest of each group, group by group |
| ScreenshotComparison.GroupForCleanup | test/screenshots/utils/screenshot-comparison.js:115-134 | the `forEach` groups the screenshots by key as the grouping function does |
| ScreenshotComparison.Unlink | test/screenshots/utils/screenshot-comparison.js:141-149 | each doomed file is unlinked in turn, whether or not an earlier one failed |
| YearSelector.Years | src/js/_components/year-selector.js:136-145 | the drop-down has `max - min + 1` options, or none when `max < min` |
| YearSelector.YearsShape | src/js/_components/year-selector.js:136-145 | the `k`-th option is `max - k`, and the options are exactly the years from `min` to `max` |
| YearSelector.YearsDescending | src/js/_components/year-selector.js:136-145 | the options strictly descend, so no year is offered twice |
| YearSelector.YearsSnoc | src/js/_components/year-selector.js:138-144 | the loop appends at the low end |
| YearSelector.YearSelector.constructor | src/js/_components/year-selector.js:57-74 | the element reads its three attributes and then updates, so what it shows matches them and one `change` event is dispatched |
| YearSelector.YearSelector.AttributeChanged | src/js/_components/year-selector.js:80-90 | the attribute is stored; within 10 ms of the last update nothing else changes, otherwise the field takes the new value and the element updates |
| YearSelector.YearSelector.Update | src/js/_components/year-selector.js:120-134 | the buttons, options, attributes and slot all show the fields, the clock is stamped and one `change` event is dispatched |
| YearSelector.YearSelector.Next | src/js/_components/year-selector.js:100-108 | the value moves one year on, with no upper bound, and the element updates |
| YearSelector.YearSelector.Back | src/js/_components/year-selector.js:110-118 | the value moves one year back, with no lower bound, and the element updates |
| YearSelector.YearSelector.CheckDisabled | src/js/_components/year-selector.js:120-134 | next is disabled exactly at `max`, back exactly at `min`, and the options are rebuilt |
| YearSelector.YearSelector.UpdateSelect | src/js/_components/year-selector.js:136-145 | the options are the years from `max` down to `min`, and `value` is selected when it is one of them |
| YearSelector.YearSelector.SelectChanged | src/js/_components/year-selector.js:147-150 | a year picked from the drop-down lies within `[min, max]` and becomes the value |
| YearSelector.YearSelector.SelectedWithinRange | src/js/_components/year-selector.js:136-145 | a value within `[min, max]` is always selected in the drop-down |

## Left out

- File system, globbing, `process.exit`, logging, desktop notifications and the Express preview server are out. Globs and file contents are parameters, `process.exit()` is the `exited` marker, and the server is only its port in `Index.Launch`.
- The third-party calls are parameters or atomic steps:
  - EJS rendering and gray-matter;
  - sass, CleanCSS, html-minifier, uglify-js and svgo;
  - xxhash, zlib, image-size and highlight.js;
  - the AWS SDK, webp-converter and avifenc.
- The regular-expression passes are left out and are parameters where the code depends on them: `marked.parse`'s rewrite chain, the list, emphasis, code and link rewrites of `processMarkdownInContent`, the anchor rewrite of the external-links task, and the screenshot file-name pattern. Only the line-based and literal steps around them are modelled.
- Because those passes are left out, the model states nothing about how many `<ul>`/`<ol>` wrappers `processMarkdownInContent` inserts.
- URL hostname parsing in `isExternalLink` is a partial function given as a parameter. Only its result for an href resolved against the base URL is pinned down (`ExternalLinks.ResolvesAgainstBase`). Hrefs with a scheme, a leading backslash, or a space or control character are left to the parameter.
- Nested front matter (a rendered page that itself starts with front matter and is rendered again) is not modelled. TemplateBundlers.RenderOutcome takes the final page as a parameter.
- TemplateBundlers.TemplateRun.Reject: the process's end is taken as part of the step that counts the rejection. In the no-layout case the error that ends it comes at a later I/O callback, and a write of an earlier page that finishes in between is not modelled.
- The end of the process on a template failure stops only the template run. The other stage tasks' classes do not see it, just as they do not see `process.exit()`.
- FileJoins.FileJoin.Finish and RenameJoins.RenameJoin.Settle: a rejected join also ends the process, because `emit` drops the promise the stage returns and nobody handles the rejection. This covers minifyJS's throw (build/optimize/minify-js.js:21), bundleSCSS's rethrow in production (build/bundlers/bundle-scss.js:46) and a failed rename. The model keeps only that the flag and the event never come; the rest of the build is not stopped.
- Time is left out. Timestamps are integers: the screenshot time order and the year-selector clock. `formattedDate` and the ISO timestamps written into reports are not modelled.
- Floating point is left out: the size-difference percentage and `formatFileSize` in the screenshot utilities, and the upload progress percentage in the deploy script.
- YearSelector: `Number(...)` of an attribute is taken to give an integer. `NaN` and non-integer years are not modelled.
- YearSelector.YearSelector.Update: the `attributeChangedCallback` calls that `update()`'s own `setAttribute` calls trigger are not separate steps. They arrive within the 10 ms window that `update()` has just opened, so they change nothing.
- `partial`, `formattedDate`, `code`, `lazyImage`, `lazyVideo`, `dasherize`, `camelize`, `getFileContents`, `defaultLastFMModule` and `inlineScss` in build/helpers/ejs-functions.js are out. They only call the file system, image-size, highlight.js, sass or underscore.string.
- `ensureDirectories`, `generateHTMLReport`, `formatFileSize` and the command-line switch of test/screenshots/utils/screenshot-comparison.js are out. They are directory creation, HTML text and floating point.
- The paging loop of `listAllS3Objects` is out. The bucket listing is a parameter of `S3Uploader.Deploy`.
- `fs.existsSync` in the image-conversion script sees the files there at the start plus every AVIF copy written so far, since `avifenc` runs under `execSync` and finishes before the next image. A WebP copy is taken to be absent until the script ends: the `webp-converter` promise is never awaited, and when its write lands relative to later images is not modelled. A `grant_permission` call or converter that throws is the `webpFailing` set.
- `path.join` is modelled as joining with `/`. It does not normalise `.` or `..` segments.
- build/preview-builder.js, build/prod-builder.js, build/page-mapping-data.js, build/bundlers/bundle-js.js, build/move-assets.js and build/constants/build-events.js are not part of this model. Their stage tasks appear only as the events they emit.
- The canvas animations, browser-only modules, test suites, `clean.js`, `generate-build-txt.js`, `preview-production.js` and the constant files are not part of this model.

## Findings

| source | as written | input that shows it | evidently intended | confidence | as-written member | corrected member |
|---|---|---|---|---|---|---|
| build/comparison-builder.js:9-52 | the comparison profile sets `ASSET_HASH.DONE` and `GZIP` but never `ASSET_HASH.IMAGES`, `.CSS` or `.JS`, which `checkDone` also reads | flags with every move and minify flag and `SITE_MAP` set but the listing flags unset, then `imagesMoved`: the chain reaches `checkDone`, which returns false | skipping hashing also satisfies the three listing flags, so the build ends once the real stages are done | medium, not executed | ComparisonBuilder.ChainNeedsListingFlags | ComparisonBuilder.ForcedChainFinalises |
| s3-uploader.js:109-125 | `getCacheControl` switches on `path.extname`, which is `.gz` for `page.html.gz`, so its four `.<type>.gz` cases never match | `index.html.gz` gets `max-age=15552000,public` | compressed pages are not cached, like the pages they compress | medium, not executed | S3Uploader.GzippedPageLongLived | S3Uploader.GzippedPageNotCached |
