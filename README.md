# Gatsby bootstrap: page discovery and the page registry

This project models the page-handling core of Gatsby's bootstrap function
(`lib/bootstrap/index.js`). It covers two parts.

- **Page discovery** (`autoPathCreator`). Every file found under
  `<program directory>/pages` becomes a page object
  `{component: file, path: file}`. The path is made relative to the pages
  directory. Pages whose relative path starts with `_` are dropped, and so
  are pages whose relative path contains `PAGE_TEMPLATE`. Each page that
  remains is routed with `path = createPath(pagesDirectory, component)`.
- **The page registry** (`pagesDB`). A JavaScript `Map` from path to page.
  The pages the `createPages` hook returns are saved first, when the answer
  is truthy. The discovered pages are saved next. Saving means building a
  `Map` with `set(page.path, page)` for each page in turn and then
  replacing the registry by `new Map([...pagesDB(), ...pagesMap])`. Finally
  the registry is replaced wholesale by what the `onPostCreatePages` hook
  returns.

The Dafny modules follow that structure.

- `Seqs`: the list helpers the source gets from lodash and JavaScript:
  - `_.filter` as `Filter`;
  - `_.includes` on strings as `Includes`;
  - subsequences;
  - the "new elements in first-occurrence order" operation that a `Map`
    performs on its keys.
- `OrderedMaps`: a JavaScript `Map` as a value: its keys in insertion order
  plus a `map` from key to value. It models `set`, `new Map(entries)`, the
  spread `[...m]`, and the merge `new Map([...a, ...b])`.
- `Pages`: the `Page` record and the `Map` built from a page list by the
  `forEach`/`set` loop.
- `Discovery`: `autoPathCreator` from the moment the glob has returned.
  - The method `AutoPathCreator` runs the stages imperatively:
    - an array of page objects updated in place;
    - the two filters;
    - the routing loop.
  - `AutoPathCreator` is proved equal to `Discovered`, a one-file-at-a-time
    reference definition.
- `Bootstrap`:
  - the class `PagesDB`, which replaces the process-wide `pagesDB` global;
  - the two save phases;
  - the orchestration of the page steps of the exported function.

`createPath` lives in a module that is not part of this model. It is a
function-valued parameter `createPath: (string, string) -> string`, and so
is the `onPostCreatePages` hook (`Registry -> Registry`).

### Behaviour of the code worth noting

- **Underscore filter.** The comment at lib/bootstrap/index.js:25-26 says
  that files *not* underscored become pages. The filter at line 47 looks
  only at the first character of the whole path relative to the pages
  directory. A file in a sub-directory whose own name starts with `_` is
  therefore kept: `blog/_x.js` is discovered
  (`Discovery.NestedUnderscoreKept`).
- **Page objects.** Discovery builds plain `{component, path}` objects
  (lines 34-37). The model's `Page` also carries a `context` map. It stands
  for the further fields that pages returned by plugins may have, and it is
  empty for discovered pages.
- **Override precedence.** The code saves the discovered pages after the
  plugin pages (lines 129-143), and each save merges unconditionally. A
  discovered page therefore replaces a plugin page with the same path. The
  model proves this in three lemmas:
  - `Bootstrap.AutoPagesWin`;
  - `Bootstrap.DiscoveredRoutesWin`;
  - `Bootstrap.SamePathScenario`.

## Model

| member | source | states |
|---|---|---|
| Seqs.Filter | lib/bootstrap/index.js:46-53 | definition of `_.filter`: the result holds exactly the elements of the input that satisfy the predicate, and is no longer than the input; its occurrence counts are in `Seqs.FilterCounts`, its order in `Seqs.FilterIsSubsequence` |
| Seqs.FilterCounts | lib/bootstrap/index.js:46-53 | `_.filter` keeps every occurrence of a kept element and no occurrence of a dropped one: for each value, the count in the result is its count in the input if the predicate holds, and zero otherwise |
| Seqs.FilterIsSubsequence | lib/bootstrap/index.js:46-53 | `_.filter` keeps the relative order of the elements it keeps |
| Seqs.Includes | lib/bootstrap/index.js:52 | definition of `_.includes` on a string, by recursion on the searched string; its meaning is in `Seqs.IncludesIffOccurs` |
| Seqs.IncludesIffOccurs | lib/bootstrap/index.js:52 | `_.includes(s, t)` holds exactly when `t` occurs in `s` as a contiguous block at some index |
| Seqs.IncludesInfix | lib/bootstrap/index.js:52 | a block placed between two strings is found by `_.includes` |
| Seqs.IncludesMembers | lib/bootstrap/index.js:52 | every character of a block that `_.includes` finds occurs in the searched string |
| Seqs.NewElements | lib/bootstrap/index.js:131-134 | definition of the keys a `Map` appends when keys are inserted in order, given the keys already present; its position-by-position characterisation is `Seqs.NewElementsKeepsFirstOccurrences`, and its other properties are in `Seqs.NewElementsMembers`, `Seqs.NewElementsDistinct`, `Seqs.NewElementsIsSubsequence`, `Seqs.NewElementsConcat` and `Seqs.NewElementsTwice` |
| Seqs.NewElementsKeepsFirstOccurrences | lib/bootstrap/index.js:131-134 | a `Map` appends the key at position `i` of the inserted list exactly when it is neither already present nor earlier in the list; otherwise the key order does not change. Applied to each prefix in turn, this fixes the whole appended list |
| Seqs.NewElementsMembers | lib/bootstrap/index.js:131-134 | the keys a `Map` appends are exactly the inserted keys not already present |
| Seqs.NewElementsDistinct | lib/bootstrap/index.js:131-134 | a key is never appended twice |
| Seqs.NewElementsIsSubsequence | lib/bootstrap/index.js:131-134 | appended keys keep the order of their insertion |
| Seqs.NewElementsConcat | lib/bootstrap/index.js:134-142 | inserting two key lists one after the other appends the first list's new keys, then the second list's keys that are new to both |
| Seqs.NewElementsTwice | lib/bootstrap/index.js:134-142 | filtering already-present keys against a larger key set at once or in two steps gives the same list |
| Seqs.NewElementsOfDistinct | lib/bootstrap/index.js:134 | a repetition-free key list with no present key is appended whole |
| OrderedMaps.Empty | lib/bootstrap/index.js:130-140 | definition of `new Map()`: no keys, no values; `OrderedMaps.MergeEmptyLeft` and `OrderedMaps.MergeEmptyRight` show it is neutral for the merge |
| OrderedMaps.OrderedMap.Set | lib/bootstrap/index.js:132 | definition of `Map.prototype.set`: a new key is appended to the key order, a present key keeps its place, and the value is overwritten; its properties are in `OrderedMaps.SetValid`, `OrderedMaps.SetAllKeyOrder` and `OrderedMaps.SetAllLastWriter` |
| OrderedMaps.OrderedMap.Entries | lib/bootstrap/index.js:134 | definition of the spread `[...m]`: the key/value pairs in key order; `OrderedMaps.KeysOfEntries` and `OrderedMaps.FromEntriesOfEntries` relate it to the map |
| OrderedMaps.SetAll | lib/bootstrap/index.js:131-134 | definition of inserting a list of entries with `set`, one after the other; its properties are in `OrderedMaps.SetAllKeySet`, `OrderedMaps.SetAllKeyOrder`, `OrderedMaps.SetAllLastWriter` and `OrderedMaps.SetAllConcat` |
| OrderedMaps.FromEntries | lib/bootstrap/index.js:134 | definition of `new Map(entries)` as the entries set on an empty map; `OrderedMaps.FromEntriesOfEntries` gives the round trip with the spread |
| OrderedMaps.Merge | lib/bootstrap/index.js:134-142 | definition of `new Map([...a, ...b])`; its outcome is stated in `OrderedMaps.MergeSpec` and its associativity in `OrderedMaps.MergeAssociative` |
| OrderedMaps.SetValid | lib/bootstrap/index.js:132 | `Map.set` keeps each key listed once and the listed keys equal to the stored ones |
| OrderedMaps.SetAllValid | lib/bootstrap/index.js:131-133 | a sequence of `set` calls keeps the map valid |
| OrderedMaps.SetAllKeySet | lib/bootstrap/index.js:131-133 | after a sequence of `set` calls, the map's keys are the old keys plus the inserted keys, and no others |
| OrderedMaps.SetAllUntouched | lib/bootstrap/index.js:131-133 | a key that no `set` call mentions keeps its value |
| OrderedMaps.SetAllKeyOrder | lib/bootstrap/index.js:131-133 | existing keys keep their order, and new keys are appended in the order of their first insertion |
| OrderedMaps.SetAllLastWriter | lib/bootstrap/index.js:131-133 | the value under a key is the one given by the last `set` call with that key |
| OrderedMaps.SetAllConcat | lib/bootstrap/index.js:131-134 | setting two entry lists one after the other is setting their concatenation |
| OrderedMaps.KeysOfEntries | lib/bootstrap/index.js:134 | the keys of `[...m]` are the keys of `m` in order |
| OrderedMaps.FromEntriesOfEntries | lib/bootstrap/index.js:134 | `new Map([...m])` is `m`: same keys, same order, same values |
| OrderedMaps.MergeIsSetAll | lib/bootstrap/index.js:134 | `new Map([...a, ...b])` is `a` with every entry of `b` set on it |
| OrderedMaps.MergeValues | lib/bootstrap/index.js:134-142 | after a merge, keys of `b` hold `b`'s value and all other keys of `a` keep `a`'s value |
| OrderedMaps.MergeKeys | lib/bootstrap/index.js:134-142 | after a merge, `a`'s keys come first in their order, followed by `b`'s keys missing from `a` in `b`'s order; the result is valid |
| OrderedMaps.MergeSpec | lib/bootstrap/index.js:134-142 | the whole outcome of the merge: validity, values (the union with `b` winning) and key order |
| OrderedMaps.MergeEmptyRight | lib/bootstrap/index.js:134 | merging an empty `Map` in changes nothing |
| OrderedMaps.MergeEmptyLeft | lib/bootstrap/index.js:134 | merging into an empty `Map` gives the merged map |
| OrderedMaps.MergeAssociativeKeys | lib/bootstrap/index.js:134-142 | merging `b` then `c` into `a` gives the same key order as merging (`b` merged with `c`) into `a` |
| OrderedMaps.MergeAssociativeValues | lib/bootstrap/index.js:134-142 | the same two orders of merging give the same values |
| OrderedMaps.MergeAssociative | lib/bootstrap/index.js:134-142 | the merge is associative on whole maps |
| Pages.PageEntries | lib/bootstrap/index.js:131-141 | definition of the `(page.path, page)` pairs that the `set` calls insert, in list order; `Pages.KeysOfPageEntries` gives their keys and `Pages.BuildPagesMap` inserts them |
| Pages.FromPages | lib/bootstrap/index.js:130-141 | definition of the `Map` the `forEach`/`set` loop builds from a page list; its properties are in `Pages.FromPagesKeys`, `Pages.FromPagesLastWriter` and `Pages.FromPagesValuesListed` |
| Pages.BuildPagesMap | lib/bootstrap/index.js:130-133 | the `forEach`/`set` loop produces `FromPages(pages)`, the `Map` of the page list |
| Pages.KeysOfPageEntries | lib/bootstrap/index.js:131-133 | the keys inserted by the loop are the pages' paths in list order |
| Pages.FromPagesKeys | lib/bootstrap/index.js:130-141 | the map built from a page list is valid; its key set is exactly the distinct paths; keys stand in first-occurrence order |
| Pages.FromPagesLastWriter | lib/bootstrap/index.js:130-141 | for a duplicated path, the map holds the last page in the list with that path |
| Pages.FromPagesValuesListed | lib/bootstrap/index.js:130-141 | every stored page is one of the listed pages and is stored under its own path |
| Pages.LastIndexOf | lib/bootstrap/index.js:130-133 | a listed path has a last index in the list, and no later page has that path |
| Discovery.PagesDirectory | lib/bootstrap/index.js:30 | definition of `path.join(program.directory, 'pages')`, without normalisation |
| Discovery.RelativePath | lib/bootstrap/index.js:41 | `path.relative` of a file below the directory is the part that, joined back onto the directory, gives the file |
| Discovery.RelativeOfJoined | lib/bootstrap/index.js:41 | `path.relative` undoes joining a relative path onto the directory |
| Discovery.IsPrivate | lib/bootstrap/index.js:47 | definition of the underscore test: the relative path starts with `_`; used by `Discovery.PrivateAndTemplateFilesDropped` and `Discovery.NestedUnderscoreKept` |
| Discovery.IsPublic | lib/bootstrap/index.js:46-48 | definition of the first filter's predicate on a page object; `Discovery.PipelineIsDiscovered` relates the filter stage to the reference |
| Discovery.IsTemplate | lib/bootstrap/index.js:52 | definition of the template test: the relative path includes `PAGE_TEMPLATE`; used by `Discovery.PrivateAndTemplateFilesDropped` and `Discovery.ScenarioTemplateMarker` |
| Discovery.IsNotTemplate | lib/bootstrap/index.js:51-53 | definition of the second filter's predicate on a page object; `Discovery.PipelineIsDiscovered` relates the filter stage to the reference |
| Discovery.IsPageFile | lib/bootstrap/index.js:41-53 | definition of the rule for keeping one file: it lies below the pages directory, and its relative path neither starts with `_` nor contains `PAGE_TEMPLATE`. `Discovery.PipelineStep` ties it to the two filters. `Discovery.DiscoveredComplete` and `Discovery.DiscoveredComponents` show that discovery keeps exactly these files |
| Discovery.FilePage | lib/bootstrap/index.js:34-37 | definition of the initial page object `{component: file, path: file}` |
| Discovery.AutoPage | lib/bootstrap/index.js:34-60 | definition of a file's page after routing, `{component: file, path: createPath(pagesDirectory, file)}`; `Discovery.DiscoveredComplete` proves that this page is discovered exactly for the listed page files, and `Discovery.DiscoveredPages` proves that every discovered page has this form |
| Discovery.Relativized | lib/bootstrap/index.js:34-43 | definition of the page list after the `map` and the `forEach` that relativises each path; `Discovery.AutoPathCreator` proves its array loop computes it |
| Discovery.Routed | lib/bootstrap/index.js:57-60 | definition of the routing `map`: `path := createPath(pagesDirectory, component)`; `Discovery.AutoPathCreator` proves its loop computes it |
| Discovery.Discovered | lib/bootstrap/index.js:34-62 | definition of discovery one file at a time, the reference the pipeline is proved against (`Discovery.PipelineIsDiscovered`); its properties are in `Discovery.DiscoveredPages`, `Discovery.DiscoveredComplete`, `Discovery.DiscoveredComponents` and `Discovery.DiscoveredInOrder` |
| Discovery.AutoPathCreator | lib/bootstrap/index.js:30-62 | the imperative pipeline yields exactly `Discovered`, for every list of files the glob can return |
| Discovery.PipelineIsDiscovered | lib/bootstrap/index.js:34-60 | the staged pipeline equals the per-file reference definition: relativise, filter, filter, route |
| Discovery.PipelineStep | lib/bootstrap/index.js:40-60 | one file's page goes through both filters and the routing exactly when it is a page file |
| Discovery.DiscoveredPages | lib/bootstrap/index.js:34-60 | every discovered page renders one of the files, is a page file, has `path == createPath(pagesDirectory, component)`; there are at most as many pages as files |
| Discovery.DiscoveredComplete | lib/bootstrap/index.js:34-62 | the routed page of a file is discovered if and only if the file is listed and is a page file |
| Discovery.DiscoveredComponents | lib/bootstrap/index.js:34-62 | the components of the discovered pages are exactly the page files, in input order |
| Discovery.DiscoveredInOrder | lib/bootstrap/index.js:34-62 | discovery preserves the relative order of the files |
| Discovery.PrivateAndTemplateFilesDropped | lib/bootstrap/index.js:46-53 | no discovered page comes from a relative path that starts with `_` or contains `PAGE_TEMPLATE` |
| Discovery.NoTemplateWithoutP | lib/bootstrap/index.js:51-53 | a relative path without the letter `P` passes the template filter |
| Discovery.NestedUnderscoreKept | lib/bootstrap/index.js:46-48 | only the first character of the relative path is inspected: `blog/_x.js` is discovered |
| Discovery.ScenarioTemplateMarker | lib/bootstrap/index.js:51-53 | `blog/PAGE_TEMPLATE.js` is a template |
| Discovery.ScenarioAbout | lib/bootstrap/index.js:41-53 | `about.js` is a page file |
| Discovery.ScenarioDraft | lib/bootstrap/index.js:46-48 | `_draft.js` is dropped |
| Discovery.ScenarioTemplate | lib/bootstrap/index.js:51-53 | `blog/PAGE_TEMPLATE.js` is dropped |
| Discovery.ScenarioPost | lib/bootstrap/index.js:41-53 | `blog/post-1.js` is a page file |
| Discovery.DiscoveredFirstAndLast | lib/bootstrap/index.js:34-62 | of four files, only the page files at the ends yield pages, in order |
| Discovery.ScenarioDiscovery | lib/bootstrap/index.js:34-62 | of `about.js`, `_draft.js`, `blog/PAGE_TEMPLATE.js` and `blog/post-1.js`, exactly `about.js` and `blog/post-1.js` become pages, in that order |
| Bootstrap.SavePages | lib/bootstrap/index.js:130-142 | a save keeps the registry valid |
| Bootstrap.CollectPhase | lib/bootstrap/index.js:129-135 | the plugin phase keeps the registry valid |
| Bootstrap.Registered | lib/bootstrap/index.js:129-143 | both phases keep the registry valid |
| Bootstrap.PagesDB.Save | lib/bootstrap/index.js:130-142 | the registry becomes `SavePages(old registry, pages)` |
| Bootstrap.PagesDB.Replace | lib/bootstrap/index.js:146 | the registry becomes the given value, wholesale |
| Bootstrap.Bootstrap | lib/bootstrap/index.js:125-146 | final registry = `onPostCreatePages` applied to (old registry, plus the plugin pages if the answer was not null/undefined, plus the discovered pages) |
| Bootstrap.SavePagesKeys | lib/bootstrap/index.js:134-142 | a save adds exactly the saved paths; old paths keep their order; new paths are appended in first-occurrence order |
| Bootstrap.SavePagesKeepsOthers | lib/bootstrap/index.js:134-142 | a path none of the saved pages has keeps its page |
| Bootstrap.SavePagesLastWriter | lib/bootstrap/index.js:131-142 | a saved path holds the last saved page with that path |
| Bootstrap.SavePagesListed | lib/bootstrap/index.js:131-142 | a saved path holds one of the saved pages, and that page has the path |
| Bootstrap.CollectNothing | lib/bootstrap/index.js:129-135 | a missing `createPages` answer, or an empty one, leaves the registry unchanged |
| Bootstrap.AutoPagesWin | lib/bootstrap/index.js:125-143 | after both phases, every discovered path holds a discovered page with that path, whatever the plugins created |
| Bootstrap.DiscoveredRoutesWin | lib/bootstrap/index.js:34-143 | the route `createPath(dir, f)` of every page file `f` holds a discovered page rendered from a page file |
| Bootstrap.PluginPagesKept | lib/bootstrap/index.js:129-143 | a plugin path that discovery does not produce holds the last plugin page with that path |
| Bootstrap.RegisteredKeys | lib/bootstrap/index.js:129-143 | after both phases, the key set is old ∪ plugin paths ∪ discovered paths; old keys come first, then new plugin paths, then new discovered paths |
| Bootstrap.SamePathScenario | lib/bootstrap/index.js:129-143 | a plugin page and a discovered page at path `/x/`: the discovered page is kept |
| Bootstrap.SamePathScenarioKeys | lib/bootstrap/index.js:129-143 | in that scenario `/x/` is listed once |

## Left out

- The glob scan at lib/bootstrap/index.js:32 is filesystem I/O, so the file list is an input.
  - The `.js`/`.jsx`/`.cjsx` extension pattern is applied by the glob, so it is not modelled.
  - The glob's `err` argument is ignored by the source and is not modelled.
  - The one assumption kept is that every file lies below the pages directory, as a glob over that directory guarantees.
- Path handling is plain string handling, with no normalisation of `..`, repeated separators or platform separators:
  - `path.join(program.directory, 'pages')` is `directory + "/pages"`;
  - `path.relative` strips the directory prefix and its `/`.
- `createPath` (imported at lib/bootstrap/index.js:8) is not part of this model. It is an arbitrary function parameter.
- The `apiRunner` hooks are not part of this model (lib/bootstrap/index.js:125, 145).
  - The `createPages` answer is an input.
  - `onPostCreatePages` is an arbitrary function on registries. Nothing is assumed about its result.
- Truthiness of the `createPages` answer: `None` stands for `null`/`undefined`. No other falsy values are modelled (`false`, `0`, `''`), and neither are non-array truthy values.
- The initial contents of `pagesDB` (lib/utils/globals) are not part of this model. `Bootstrap` accepts any valid registry as the starting state.
- `Map` keys are strings compared by equality. Pages with a missing or non-string `path` are not modelled.
- Page fields other than `path` and `component` are a `map<string, string>` passed through untouched. Arbitrary JavaScript values are not modelled.
- Page objects are values:
  - the in-place `page.path = …` updates (lines 41 and 58) are record updates;
  - the discovered pages are fresh objects that nothing else references, so no aliasing is modelled;
  - the forEach step keeps an array updated in place.
- `autoPathCreator` receives `pages` as an argument but never uses it, so `AutoPathCreator` does not take it. The promise never rejects, and this is not modelled.
- Storing the program in `programDB` (lib/bootstrap/index.js:70), loading the config with `require` and `process.exit` (lines 73-87), and the `siteDB` update are global state and I/O outside the page registry.
- The `fs.copy`/`mkdirs` of the intermediate build directory (lib/bootstrap/index.js:90-98) is filesystem I/O.
- The schema builder and the `graphql` runner closure (lib/bootstrap/index.js:101-102) are foreign modules. So is `queryRunner` (line 148).
- The unhandled-rejection handlers (lib/bootstrap/index.js:16-21), the promise sequencing and the `cb(null, schema)` callback (line 149) are asynchronous plumbing.
