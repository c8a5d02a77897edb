# A model of the starter kit's template build

The starter kit is a static-site build for gulp. Its `templates` task does five things:

- It loads two theme directories (`__theme`, then `theme`) into a nunjucks template environment. A theme's configuration files become globals and its filter scripts become filters.
- It indexes the Markdown and HTML documents under `content/`.
- It runs every document through four in-place passes:
  - reading the front matter;
  - wrapping Markdown in a `markdown` filter block;
  - setting `data.main`;
  - rendering with the wrapper layout.
- It writes each document that is not a draft to `.tmp/<dir>/<name>.html`.
- Around it sits a small reload guard. A build error in development shows a notification in the browser and skips the next live reload.

The theme ships two template filters. `attributes` writes an object out as HTML attributes. `absolute_url` tests for an `http://` or `https://` prefix.

The model:

- **JavaScript values.** The values the build handles are a Dafny datatype (`JsValues.Value`). It covers `undefined`, `null`, booleans, integral numbers, NaN and the infinities, strings, arrays, plain objects and functions. An object is its own enumerable properties in enumeration order.
- **lodash.** `_.merge`, `_.mergeWith` with the array customizer, and `_.set` are functions over these values (`DeepMerge`, `Customizer`).
- **Configuration and filters.** Configuration loading (`ConfigLoader`) and filter registration (`FilterRegistry`) are loops over an accumulator, each proved against a fold.
  - The sort the source leaves partly unspecified is an admissibility predicate. `GetConfig` proves its result is the fold over some admissible order.
- **Theme layering.** The environment (`TemplateEnvironment.Environment`) and the content loader (`ContentIndex.ContentLoader`) are classes whose methods update their fields.
- **The passes.** Each pass is a sweep over the loader's documents. A later document sees the rewrites of earlier ones through the loader, as the source's `map` over shared objects does.
- **The filters.** `attributes` is imperative code proved against a function (`AttributesFilter`). `absolute_url` is a predicate with a small backtracking matcher for its regular expression (`AbsoluteUrl`).

External effects are parameters of the model:

- template rendering: a `Renderer` function, built by an `Engine` from the loaded globals and filters, that returns the rendered text or a throw;
- YAML parsing and `require`: each configuration file's parsed value, and each filter script's exports;
- `gray-matter`: each document's front matter and body;
- glob enumeration;
- file writes: the result map from target path to content.

Where the code does something other than its comments or its surrounding design suggest, the model follows the code:

- **Depth sort.** The sort at gulpfile.babel.js:310 is descending by depth, contrary to its comment.
- **Layout and block.** The layout/block pass builds its wrapped string in a local variable and never stores it, so the model's pass leaves `content` unchanged and only sets `data.main`.
- **Wrapper.** The final pass asks for the wrapper template as the code resolves it. A document without a `wrapper`, in a site without a `wrapper` global, asks for `layouts/undefined.html` (see Findings). The intended resolution is modelled beside it, and the two are proved to agree everywhere else.
- **Throwing renders.** A render that throws stops the pass's `map` at that document and ends the task, so nothing is written. The documents rewritten before the throw keep their new content.
- **Index keys.** They keep the source extension. `a.md` and `a.html` are two entries that meet only at the same target path, where the HTML document is written last and wins.

## Model

| member | source | states |
|---|---|---|
| Strings.TrimIsInfix | gulpfile.babel.js:519 | `trim()` returns an infix of the body and drops only white space before and after it |
| Strings.TrimBoundaries | gulpfile.babel.js:519 | a trimmed body is empty or neither starts nor ends with white space |
| Strings.TrimIdempotent | gulpfile.babel.js:519 | trimming a trimmed body changes nothing |
| Strings.NatToString | __theme/filters/attributes.js:51 | the decimal form of a natural number is non-empty, all digits, and starts with 0 only for 0 |
| Strings.IntToString | __theme/filters/attributes.js:50-51 | `toString` of an integer is non-empty and starts with `-` exactly for negative numbers |
| Strings.ParseNatToString | __theme/filters/attributes.js:51 | reading a rendered number back gives the number |
| Strings.NatToStringInjective | __theme/filters/attributes.js:51 | distinct numbers render distinctly |
| JsValues.Or | __theme/filters/attributes.js:13 | `v \|\| w` is `v` when `v` is truthy and `w` otherwise |
| JsValues.Lookup | gulpfile.babel.js:327 | a property read finds nothing exactly when the key is absent |
| JsValues.SetProp | gulpfile.babel.js:289 | assignment keeps the key order and appends a new key at the end |
| JsValues.SetPropKeySet | gulpfile.babel.js:289 | after `o[k] = v` the keys are the old keys plus `k` |
| JsValues.SetPropLookup | gulpfile.babel.js:289 | after `o[k] = v`, `o[k]` reads `v` and every other key reads what it did |
| JsValues.SetPropKeepsDistinct | gulpfile.babel.js:289 | assignment never makes a key appear twice |
| JsValues.OwnEntries | __theme/filters/attributes.js:41-42 | `for...in` with `hasOwnProperty` yields an object's own properties, an array's indices with their elements, and a string's indices with its characters |
| JsValues.IndexEntriesKeepHasOwnProperty | gulpfile.babel.js:287-288 | array and string index keys never shadow `hasOwnProperty` |
| JsValues.OwnEntriesDistinct | __theme/filters/attributes.js:41 | the entries of an array or string have distinct keys |
| JsValues.JoinElementsIsJoin | __theme/filters/attributes.js:53 | `Array.prototype.join` joins the elements' strings, with null and undefined as empty strings |
| Paths.Parse | gulpfile.babel.js:304 | `path.parse` of a glob path gives a non-empty name, `base == name + ext`, no `/` in the base, and an extension that is empty or one dot and no other |
| Paths.SplitExt | gulpfile.babel.js:304 | name and extension concatenate to the base; the extension starts at the last dot |
| Paths.ParseJoin | gulpfile.babel.js:509 | `path.join(dir, name + ext)` of a parsed glob path gives the path back |
| Paths.DepthIsSeparatorCount | gulpfile.babel.js:306 | a file's depth is the number of `/` in its relative path |
| Paths.ReplaceRunsRemovesClass | gulpfile.babel.js:281-282 | a global replace removes every character of the class when the replacement has none |
| Paths.ReplaceRunsIdentity | gulpfile.babel.js:281-282 | a string with no character of the class is unchanged |
| Paths.ReplaceRunsIdempotent | gulpfile.babel.js:318-319 | replacing twice is replacing once |
| Paths.ReplaceRunsEmpty | gulpfile.babel.js:318-319 | with a non-empty replacement, the result is empty exactly for the empty string |
| Paths.ReplaceRunsKeepsOthers | gulpfile.babel.js:318-319 | characters outside the class and the replacement keep their count |
| Paths.SanitizeDirShape | gulpfile.babel.js:281 | the sanitised directory is empty iff the directory is, holds no `/` and no `-`, and has one `.` per run of slashes |
| Paths.SanitizeNameShape | gulpfile.babel.js:282 | the sanitised name is empty iff the name is, holds no hyphen or white space, and keeps its `/` and `.` |
| Paths.ConfigObjectPathEmpty | gulpfile.babel.js:317-320 | a configuration file's object path is empty exactly for an `index` file (or an empty name) at the top level |
| Paths.ConfigObjectPathCharacters | gulpfile.babel.js:317-320 | an object path holds no `/` and no `-` |
| Paths.FilterObjectPathShape | gulpfile.babel.js:280-283 | a top-level filter script registers under its sanitised name, a nested one under the sanitised directory, `_` and the sanitised name |
| Customizer.Customize | gulpfile.babel.js:461-471 | lodash's default applies exactly when neither side is an array; onto an array, the customizer throws exactly when the incoming value is null, undefined, or a plain object whose `"0"` or last-index property is `'...'` (it has no `slice`); an incoming array always yields an array, and any other incoming value replaces |
| Customizer.SentinelObjectThrows | gulpfile.babel.js:464-467 | a plain object with `'...'` at `"0"`, or at the index below its `length`, throws rather than splicing |
| Customizer.PrimitiveReplaces | gulpfile.babel.js:464-469 | onto an array, a string, boolean or number replaces |
| Customizer.Append | gulpfile.babel.js:464-465 | a leading `'...'` gives the existing elements followed by the rest, and nothing is lost |
| Customizer.Prepend | gulpfile.babel.js:466-467 | a trailing `'...'`, without a leading one, gives the rest followed by the existing elements |
| Customizer.Replace | gulpfile.babel.js:469 | an array with no sentinel at either end replaces |
| Customizer.NeitherArray | gulpfile.babel.js:462 | with no array on either side the customizer returns `undefined` |
| Customizer.AppendToMissing | gulpfile.babel.js:463-465 | appending to a missing value keeps the `undefined` as the first element |
| Customizer.AppendTwice | gulpfile.babel.js:464-465 | two appending layers compose into one append |
| Customizer.PrependTwice | gulpfile.babel.js:466-467 | two prepending layers put the later layer's elements first |
| DeepMerge.Assign | gulpfile.babel.js:482 | a missing key always receives the merged value; only `undefined` is not written |
| DeepMerge.MergeKey | gulpfile.babel.js:482 | merging one source property without a customizer never throws, and a missing key always gets a value |
| DeepMerge.MergeProps | gulpfile.babel.js:327 | `_.merge` of an object's properties never throws |
| DeepMerge.MergeElems | gulpfile.babel.js:482 | merging arrays element by element keeps the longer length and the untouched prefix |
| DeepMerge.MergeInto | gulpfile.babel.js:327 | `_.merge` never throws |
| DeepMerge.MergePropsFrame | gulpfile.babel.js:482 | after a merge the keys are the destination's plus the source's, and keys the source lacks are unchanged |
| DeepMerge.MergePropsKeepsDistinct | gulpfile.babel.js:482 | a merge never duplicates a key |
| DeepMerge.MergePropsScalarWins | gulpfile.babel.js:482 | a source key holding plain data ends up with the source's value |
| DeepMerge.ArrayKeyTakesCustomizerResult | gulpfile.babel.js:461-471 | with the customizer, a key whose source value is an array ends up with the customizer's result |
| DeepMerge.SplitDots | gulpfile.babel.js:327 | `_.set` splits its path into at least one piece, none holding a dot |
| DeepMerge.SplitDotsJoin | gulpfile.babel.js:320 | the pieces joined by `.` give the object path back |
| DeepMerge.SetInGetIn | gulpfile.babel.js:327 | what `_.set` writes at a path reads back at that path |
| DeepMerge.SetInKeepsDistinct | gulpfile.babel.js:327 | `_.set` never duplicates a key |
| DeepMerge.SetInFrame | gulpfile.babel.js:327 | `_.set` changes only the path's first key, which is then present |
| ConfigLoader.ToEntry | gulpfile.babel.js:304-308 | every configuration entry has a non-empty name |
| ConfigLoader.Entries | gulpfile.babel.js:303-308 | one entry per file, in glob order |
| ConfigLoader.InsertDescPermutes | gulpfile.babel.js:310 | insertion adds exactly one element |
| ConfigLoader.InsertDescSorted | gulpfile.babel.js:310 | insertion keeps a sequence ordered deepest first |
| ConfigLoader.SortByDepthDesc | gulpfile.babel.js:310 | the first sort is a permutation ordered by descending depth |
| ConfigLoader.AdmissibleIgnoresInputOrder | gulpfile.babel.js:310-312 | which orders the second sort admits does not depend on the order the first sort produced |
| ConfigLoader.SortIndexAsc | gulpfile.babel.js:312 | the index files ordered by ascending depth, none lost |
| ConfigLoader.FilterIndexSplit | gulpfile.babel.js:312 | index and other files together are all the files |
| ConfigLoader.IndexFirstAdmissible | gulpfile.babel.js:312 | an admissible order exists for every input |
| ConfigLoader.RootMergesComeFirst | gulpfile.babel.js:312 | in every admissible order, the files merged into the root come before all others |
| ConfigLoader.StepEffect | gulpfile.babel.js:327 | a file at a path reads back there; a file merged into the root adds its keys |
| ConfigLoader.FoldAppend | gulpfile.babel.js:314-328 | the fold over one more file is one more step |
| ConfigLoader.FoldKeepsDistinct | gulpfile.babel.js:314-328 | the configuration never holds a key twice |
| ConfigLoader.LastWriteAtKeyWins | gulpfile.babel.js:314-328 | a file set at a path keeps its value when no later file writes under the same top-level key |
| ConfigLoader.StepElsewhere | gulpfile.babel.js:327 | setting under another top-level key leaves a path as it was |
| ConfigLoader.Reduce | gulpfile.babel.js:314-328 | the accumulator loop computes the fold |
| ConfigLoader.GetConfig | gulpfile.babel.js:298-329 | the configuration is an object, the fold over some order the two sorts admit |
| FilterRegistry.MethodFilters | gulpfile.babel.js:287-291 | only function-valued own entries register, no more than there are entries |
| FilterRegistry.MethodFiltersMembers | gulpfile.babel.js:287-291 | a registration is exactly a function-valued entry under `prefix_key` |
| FilterRegistry.ParseModules | gulpfile.babel.js:275 | `.map(path.parse)`: one parsed script per globbed script, in order, carrying its exports |
| FilterRegistry.ModuleFilters | gulpfile.babel.js:277-292 | a script throws exactly when its exports are null or undefined, or an object or function holding its own `hasOwnProperty` entry (line 288 then throws at the first key); otherwise it registers only functions |
| FilterRegistry.ShadowedExportsThrow | gulpfile.babel.js:287-288 | exports `{hasOwnProperty: …, f: …}` throw instead of registering `f` |
| FilterRegistry.AllFiltersOutcome | gulpfile.babel.js:274-294 | the fold throws exactly when some script's exports are null or undefined or hold their own `hasOwnProperty`; every registration is a function |
| FilterRegistry.AssignedAppend | gulpfile.babel.js:285-289 | assignments in sequence compose |
| FilterRegistry.AssignedAt | gulpfile.babel.js:285-289 | a key is present iff it was before or was assigned, and holds the last assignment |
| FilterRegistry.AddMethodFilters | gulpfile.babel.js:287-291 | with `hasOwnProperty` not shadowed, the `for...in` loop assigns the method filters in order |
| FilterRegistry.AllFiltersStep | gulpfile.babel.js:276-294 | one more script throws, or appends its registrations |
| FilterRegistry.RegisterModule | gulpfile.babel.js:277-293 | one script throws exactly when its registrations do, and otherwise applies its assignments to the accumulator |
| FilterRegistry.GetFilters | gulpfile.babel.js:272-296 | `get_filters` throws iff the fold does; otherwise it returns the fold's assignments |
| FilterRegistry.PrefixThrows | gulpfile.babel.js:276-294 | a throwing prefix makes the whole fold throw |
| FilterRegistry.FiltersAreFunctions | gulpfile.babel.js:284-291 | every registered filter is a function |
| FilterRegistry.SingleFunctionRegistersPath | gulpfile.babel.js:279-285 | a lone function registers exactly itself under the object path |
| FilterRegistry.MethodScriptRegistersFunctions | gulpfile.babel.js:286-291 | a script exporting an object registers exactly its function members under `prefix_key` |
| FilterRegistry.AssignedLater | gulpfile.babel.js:285-289 | each of a later run of assignments with distinct keys is the last one to its key |
| FilterRegistry.LaterScriptWins | gulpfile.babel.js:276-294 | a filter of the last script replaces same-named filters of earlier scripts |
| TemplateEnvironment.GetGlobal | gulpfile.babel.js:479 | `getGlobal` throws exactly for a missing or undefined global, and otherwise returns it |
| TemplateEnvironment.LayerValue | gulpfile.babel.js:477-485 | a key whose global is not a plain object takes the configured value; within one key's turn only the merge can throw (the throw of line 476 is the whole loop's, below) |
| TemplateEnvironment.ShadowedConfigThrows | gulpfile.babel.js:475-476 | a configuration holding its own `hasOwnProperty` entry fails `load` at once, with the globals and filters untouched |
| TemplateEnvironment.HasOwnPropertyKeyFailsLoad | gulpfile.babel.js:475-476 | a `config/hasOwnProperty.yaml`, or a root `hasOwnProperty:` key, fails the load |
| TemplateEnvironment.LayerConfigFrame | gulpfile.babel.js:475-487 | globals the configuration does not name are untouched |
| TemplateEnvironment.LayerConfigPerKey | gulpfile.babel.js:475-487 | each configured key ends up with its layered value |
| TemplateEnvironment.ReplacesNonObject | gulpfile.babel.js:483-484 | a missing or non-object global is replaced |
| TemplateEnvironment.MergesObjects | gulpfile.babel.js:481-482 | layering onto a plain-object global keeps its keys plus the new ones, and the keys it does not name are unchanged |
| TemplateEnvironment.AppendsToList | gulpfile.babel.js:464-465 | a list starting with `'...'` extends the lower theme's list |
| TemplateEnvironment.ReplacesList | gulpfile.babel.js:469 | a list without the sentinel replaces the lower theme's list |
| TemplateEnvironment.Environment.constructor | gulpfile.babel.js:448-455 | the environment starts with the engine's globals plus `_` and `d3`, and the engine's filters |
| TemplateEnvironment.Environment.LoadConfig | gulpfile.babel.js:475-494 | `load` layers the configuration over the globals and then registers the filters, stopping at the first throw, at once when the configuration holds its own `hasOwnProperty` |
| TemplateEnvironment.Environment.Load | gulpfile.babel.js:457-495 | `load` with a configuration `get_config` can return |
| TemplateEnvironment.Environment.LoadThemes | gulpfile.babel.js:497-501 | the `while (i--)` loop loads the themes from last to first, stopping at the first throw |
| TemplateEnvironment.Environment.LoadNext | gulpfile.babel.js:498-500 | one turn of that loop loads one more theme, and the layering so far extends by its configuration |
| TemplateEnvironment.LoadOneMore | gulpfile.babel.js:497-501 | loading one more theme is one more `load` |
| TemplateEnvironment.CustomThemeWins | gulpfile.babel.js:441-444 | a key the custom theme sets takes its value outright where the base theme left no plain object there, and otherwise the base's object deep-merged with it; keys the custom theme does not set keep the base theme's |
| TemplateEnvironment.LaterThemeFiltersWin | gulpfile.babel.js:489-494 | over two loads the filters are the engine's, then the base theme's, then the custom theme's, each replacing the names before it |
| TemplateEnvironment.LoadAllTwo | gulpfile.babel.js:497-501 | the second load starts from what the first left, unless the first threw |
| TemplateEnvironment.LoadResultFilters | gulpfile.babel.js:489-494 | a finished load added all of its theme's filters over the existing ones |
| ContentIndex.ToEntry | gulpfile.babel.js:504 | joining a document's parsed parts gives its glob path |
| ContentIndex.FilterHtml | gulpfile.babel.js:507 | selecting HTML or other documents takes a sub-multiset of the right kind |
| ContentIndex.FilterHtmlSplit | gulpfile.babel.js:507 | HTML and other documents together are all documents |
| ContentIndex.HtmlAfterOthersAdmissible | gulpfile.babel.js:505-507 | the order "others, then HTML" is one the comparator admits |
| ContentIndex.TargetPathShape | gulpfile.babel.js:510-511 | the target is `.tmp/<dir>/<name>.html`, which for HTML is `.tmp/` + id |
| ContentIndex.ToPage | gulpfile.babel.js:509-511 | the id is `path.join(dir, name + ext)`, and an HTML document's target is `.tmp/` + id |
| ContentIndex.GetSource | gulpfile.babel.js:336-346 | `getSource` returns null exactly for an empty or unknown name; otherwise the document's content, its name and `noCache` |
| ContentIndex.FirstWithId | gulpfile.babel.js:337-342 | the first document with the name, or none |
| ContentIndex.ServesOwnContent | gulpfile.babel.js:336-346 | with distinct ids, each document's own id serves its own content |
| ContentIndex.ContentLoader.constructor | gulpfile.babel.js:332-334 | a new loader holds no documents |
| ContentIndex.ContentLoader.BuildIndex | gulpfile.babel.js:503-514 | the loader holds the documents in an order that puts HTML last |
| ContentIndex.Index | gulpfile.babel.js:508-514 | one document record per entry, in order |
| ContentIndex.IndexPages | gulpfile.babel.js:508-514 | the reduce builds the records |
| ContentIndex.PermutationKeepsDistinct | gulpfile.babel.js:507 | a sort keeps distinct elements distinct |
| ContentIndex.IndexIdsDistinct | gulpfile.babel.js:509-512 | the indexed ids are distinct and non-empty |
| ContentIndex.SourceFile | gulpfile.babel.js:509 | each indexed id is the path of a globbed file |
| ContentIndex.OrderDistinct | gulpfile.babel.js:507 | the sorted entries do not repeat |
| PageCompiler.WrapperResolution | gulpfile.babel.js:556 | the document's wrapper wins, then a truthy global, then `base`; this agrees with the code whenever the global exists |
| PageCompiler.WrapperName | gulpfile.babel.js:556 | the intended wrapper is always truthy |
| PageCompiler.WrapperTemplatesAgree | gulpfile.babel.js:556-558 | the template the code asks for is the intended one whenever the document names a wrapper or the `wrapper` global exists |
| PageCompiler.WrapperAsWrittenMissesDefault | gulpfile.babel.js:556-558 | as written, a document and a site without a wrapper render `layouts/undefined.html` |
| PageCompiler.IntendedWrapperDefault | gulpfile.babel.js:556 | the intended resolution then asks for `layouts/base.html` |
| PageCompiler.Update | gulpfile.babel.js:516-560 | no pass changes a document's id, directory, name, extension, target or front matter; only the two rendering passes can throw (the Markdown one only on Markdown), and they change only the content |
| PageCompiler.Sweep | gulpfile.babel.js:516-560 | a sweep keeps the number of documents |
| PageCompiler.Run | gulpfile.babel.js:516-560 | a pass keeps the number of documents |
| PageCompiler.SweepCompletedPrefix | gulpfile.babel.js:516-560 | a pass that got through a document got through every one before it |
| PageCompiler.SweepStops | gulpfile.babel.js:516-560 | after a throw the pass changes nothing more |
| PageCompiler.SweepStable | gulpfile.babel.js:516-560 | a document already rewritten stays as it is for the rest of the pass |
| PageCompiler.SweepAt | gulpfile.babel.js:516-560 | a document the pass has not reached is untouched, and one it got through is its rewrite, made against the documents as the earlier ones left them |
| PageCompiler.SweepThrows | gulpfile.babel.js:516-560 | a pass completes iff no rewrite throws; when one throws, the documents stay as they were just before it |
| PageCompiler.RunAt | gulpfile.babel.js:516-560 | after a completed pass a document is the pass's update of the original, given what the earlier documents became |
| PageCompiler.PassFails | gulpfile.babel.js:516-560 | a pass fails iff the update of some document it reached throws |
| PageCompiler.SweepTotal | gulpfile.babel.js:516-560 | a sweep whose every rewrite returns completes |
| PageCompiler.TotalPasses | gulpfile.babel.js:517-551 | the front-matter and template passes never throw |
| PageCompiler.SweepKeeps | gulpfile.babel.js:516-560 | rewrites that keep a document's identifying fields keep them at every point of a pass, thrown or not |
| PageCompiler.SweepKeepsIdentity | gulpfile.babel.js:516-560 | at every point of a pass, every document keeps its identifying fields |
| PageCompiler.FrontMatterRead | gulpfile.babel.js:517-523 | the pass completes; content and raw content are the trimmed body, and data is the front matter |
| PageCompiler.MarkdownFramed | gulpfile.babel.js:524-529 | a non-Markdown document is unchanged, even when the pass throws; after a completed pass a Markdown one becomes `{% filter markdown %}` + its render + `\n{% endfilter %}`; the render sees the document's own text under its id |
| PageCompiler.RenderedContentOnly | gulpfile.babel.js:524-560 | a rendering pass that completes changes only documents' content |
| PageCompiler.MainIsId | gulpfile.babel.js:530-551 | the pass completes; the content is unchanged, `data.main` is the id, and every other data key is unchanged |
| PageCompiler.WrapperRendered | gulpfile.babel.js:552-560 | after a completed pass, the content is the render of the wrapper template the code names, with the document's data, and nothing else changed |
| PageCompiler.Compile | gulpfile.babel.js:516-560 | the four passes in turn keep the number of documents |
| PageCompiler.CompileChain | gulpfile.babel.js:516-560 | a completed compilation ran every pass to completion, each over what the one before left |
| PageCompiler.CompiledDocument | gulpfile.babel.js:516-560 | a compiled document keeps its identity and front matter, and its data is the front matter with `main` set to its id |
| PageCompiler.CompiledData | gulpfile.babel.js:516-560 | in a compiled document `data.main` is the id and every other data key is the front matter's |
| PageCompiler.CompiledContent | gulpfile.babel.js:552-560 | a compiled document's content is what its wrapper template rendered to against its final data, with the documents after the template pass, those before it already rendered, as sources |
| PageCompiler.LastWriter | gulpfile.babel.js:561-567 | the last document that is not a draft and writes the path, or none |
| PageCompiler.WrittenLastWins | gulpfile.babel.js:561-567 | a path is written iff some document that is not a draft targets it, and it holds the last such document's content |
| PageCompiler.WritePages | gulpfile.babel.js:561-567 | the write loop produces the output tree |
| PageCompiler.RunPass | gulpfile.babel.js:516-560 | one `map` over the loader's documents, which it rewrites in place, stopping at a throw |
| PageCompiler.IndexHasShape | gulpfile.babel.js:505-514 | the built index has distinct non-empty ids, HTML last, and HTML targets at `.tmp/` + id |
| PageCompiler.RunKeepsShape | gulpfile.babel.js:516-560 | every pass keeps that shape, thrown or not |
| PageCompiler.ShapeOfSame | gulpfile.babel.js:516-560 | the shape depends only on the identifying fields |
| PageCompiler.HtmlWins | gulpfile.babel.js:505-507 | an HTML document that is not a draft is what ends up at its target, over a Markdown document of the same name |
| PageCompiler.NoLaterWriter | gulpfile.babel.js:510-511 | no document after an HTML one targets the same path |
| PageCompiler.CompilePages | gulpfile.babel.js:503-567 | the loader ends holding the four passes' result over the index, in an order that puts HTML last; there is output iff no render threw, and it is the writes of those documents: only documents that are not drafts write, and HTML ones win at their target |
| PageCompiler.TemplatesTask | gulpfile.babel.js:446-567 | the task writes iff every theme loaded and no render threw; its documents are the compilation with the loaded globals and filters, and the output is what `CompilePages` promises |
| LiveReload.Outcomes | gulpfile.babel.js:245-270 | one outcome per request |
| LiveReload.FlagIsPendingError | gulpfile.babel.js:245-270 | a reload is skipped exactly when a development error happened since the last reload request |
| LiveReload.SuppressesOnlyNextReload | gulpfile.babel.js:246-264 | development errors, however many, swallow the next reload only; the one after goes through |
| LiveReload.ErrorsOutcomes | gulpfile.babel.js:255-264 | each development error notifies and leaves a reload pending |
| LiveReload.ProductionErrorsKeepFlag | gulpfile.babel.js:269 | outside development an error is thrown on and the flag kept; a reload always clears it, and reloads iff no skip was pending |
| LiveReload.ReloadGuard.constructor | gulpfile.babel.js:245 | no skip is pending at first |
| LiveReload.ReloadGuard.Reload | gulpfile.babel.js:246-253 | `reload` clears the flag, and calls `browserSync.reload` iff no skip was pending |
| LiveReload.ReloadGuard.HandleBuildError | gulpfile.babel.js:255-270 | in development the flag is set and the stream ends; otherwise the error is thrown and the flag kept |
| AttributesFilter.Emitted | __theme/filters/attributes.js:41-57 | never more attributes than entries |
| AttributesFilter.Texts | __theme/filters/attributes.js:59 | one text per attribute, `key="value"` or the bare key |
| AttributesFilter.CollectNames | __theme/filters/attributes.js:17-24 | a string names itself, an array its truthy elements, anything else its own keys |
| AttributesFilter.NotIncluded | __theme/filters/attributes.js:26-29 | with an include list, the excluded keys are the object's keys the list does not name, save `Object.prototype`'s names |
| AttributesFilter.ExcludedKeys | __theme/filters/attributes.js:11-39 | the exclude dictionary comes from the include list when it is truthy, else from the exclude list, else it is empty |
| AttributesFilter.EmitEntries | __theme/filters/attributes.js:41-57 | the loop throws iff `hasOwnProperty` is shadowed; otherwise it emits the kept entries in order |
| AttributesFilter.Attributes | __theme/filters/attributes.js:3-60 | the filter computes its specification |
| AttributesFilter.FalsyObjectIsEmpty | __theme/filters/attributes.js:4 | a falsy object gives the empty string |
| AttributesFilter.IncludeIgnoresExclude | __theme/filters/attributes.js:15-31 | a truthy include list decides alone, and an own key is kept iff the list names it or `Object.prototype` has it |
| AttributesFilter.EmittedIsFilter | __theme/filters/attributes.js:41-57 | an attribute is emitted iff it comes from an entry whose key is not excluded |
| AttributesFilter.EmittedSound | __theme/filters/attributes.js:41-57 | every emitted attribute comes from a kept entry |
| AttributesFilter.EmittedComplete | __theme/filters/attributes.js:41-57 | every kept entry is emitted |
| AttributesFilter.EmittedAll | __theme/filters/attributes.js:41-57 | excluding nothing emits every entry, in order |
| AttributesFilter.ExcludingMoreEmitsFewer | __theme/filters/attributes.js:42 | a larger exclude set never emits more |
| AttributesFilter.RenderedForms | __theme/filters/attributes.js:46-59 | booleans, strings, finite numbers and arrays render as `key="…"`; anything else renders as the bare key |
| AttributesFilter.NamesOfSingleton | __theme/filters/attributes.js:21 | an array of one truthy element names that element |
| AttributesFilter.ExampleExclude | __theme/filters/attributes.js:3-60 | `{class:"a b", hidden:true, data:[1,null,"x"], style:undefined}` with `exclude:["data"]` gives `class="a b" hidden="true" style` |
| AttributesFilter.ExampleInclude | __theme/filters/attributes.js:15-29 | with both an include and an exclude of `n`, `{id:"x", n:7}` gives `n="7"` |
| AttributesFilter.ShadowedHasOwnPropertyThrows | __theme/filters/attributes.js:42 | an exclude list naming `hasOwnProperty` makes any object with a key throw |
| AttributesFilter.OwnHasOwnPropertyThrows | __theme/filters/attributes.js:42 | an object holding its own `hasOwnProperty` entry throws, whatever the keyword arguments |
| AbsoluteUrl.IsAbsoluteUrlMeaning | __theme/filters/absolute-url.js:3-6 | the filter is true exactly for strings starting with `http://` or `https://` |
| AbsoluteUrl.SchemeMatch | __theme/filters/absolute-url.js:5 | the anchored pattern matches exactly those prefixes |
| AbsoluteUrl.PlainPatternIsPrefix | __theme/filters/absolute-url.js:5 | a pattern of plain characters matches exactly the strings it starts |
| AbsoluteUrl.OptionalS | __theme/filters/absolute-url.js:5 | `s?://` matches what starts with `s://` or `://` |
| AbsoluteUrl.AppendKeepsAbsolute | __theme/filters/absolute-url.js:5 | appending text keeps a URL absolute |
| AbsoluteUrl.AbsoluteExamples | __theme/filters/absolute-url.js:5 | `http://a` and `https://example.com/x` are absolute |
| AbsoluteUrl.AnchoredExample | __theme/filters/absolute-url.js:5 | `x http://a` is not |
| AbsoluteUrl.CaseSensitiveExample | __theme/filters/absolute-url.js:5 | `HTTP://a` is not |
| AbsoluteUrl.SlashesExamples | __theme/filters/absolute-url.js:5 | `http:/a`, `//a` and `ftp://a` are not |
| AbsoluteUrl.NonStringExample | __theme/filters/absolute-url.js:4 | anything but a string is not absolute |

## Left out

- **Key order.** Object properties keep their insertion order. JavaScript's enumeration of integer-like keys first, in ascending order, is not modelled.
- **Prototype keys.** An assignment to `__proto__` (which changes the prototype rather than adding a key) is not modelled.
- **Numbers.** Numbers are integers, NaN or an infinity. Non-integral numbers and their formatting are floating point, outside the model.
- Strings.IntToString: integers are unbounded; JavaScript prints magnitudes of 10^21 and above in exponent form (`1e+21`), and integers above 2^53 are not exact doubles, so the decimal form here agrees with `toString` only below those bounds. AttributesFilter.RenderValue inherits this.
- JsValues.OwnEntries: a Dafny string is a sequence of Unicode scalar values, while `for...in` over a JavaScript string counts UTF-16 code units; for a string with characters outside the Basic Multilingual Plane, the indices and one-character entries here differ from the source's.
- ContentIndex.GetSource: the index is a plain `{}`, so a name that is a member of `Object.prototype` (`constructor`, `toString`, `__proto__` and so on) finds that member, and the code returns a source whose text is `undefined` instead of null; the model returns none for such a name unless a document has that id. No document id is such a name, since every id ends in `.md`, `.markdown` or `.html`.
- Customizer.Customize: for a plain object, a `length` that is a string, array, object or function is taken to give the key `"NaN"`, whereas JavaScript converts it to a number (`"3" - 1` is 2); an own function-valued `slice` property, which the source would call, is not modelled; a function as the incoming value always replaces, since its own `"0"` and arity are not consulted.
- DeepMerge.MergeInto: lodash's treatment of array-like objects, typed arrays and a plain object merged onto an array is not modelled; arrays merge element by element and objects key by key.
- DeepMerge.SetIn: `_.set` through arrays or functions, and bracket paths, are not modelled. Two cases of lodash's path handling differ from the model:
  - lodash creates a missing intermediate as an array when the next piece is an array index, so `config/posts/2019.yaml` with no earlier `posts` makes `posts` a sparse array of length 2020 holding the value at 2019; the model creates an object with the key `"2019"`, because sparse arrays are not modelled;
  - lodash keeps the whole dotted path as one key when the object already has that exact key (a root file that defined `a.b` makes `config/a/b.yaml` assign `a.b`); the model always splits at the dots.
- ConfigLoader.GetConfig: inherits both `DeepMerge.SetIn` differences; its result is the model's for configuration directories named by array indices or by an existing dotted key.
- **Loading errors.** YAML parse errors, a `require` that throws, and `matter.read` failing on an unreadable document or malformed front-matter YAML are not modelled; each file's parsed value, and each document's front matter, is an input. Each of these failures would end the task before any write.
- PageCompiler.TotalPasses: the front-matter pass is total only because front matter is an input; `matter.read` at gulpfile.babel.js:518 can throw.
- **External services.** `gray-matter`, `glob.sync`, `mkdirp`, `fs.writeFileSync` and console output are outside the model. Their results are inputs, and the output tree is a map.
- **Error reporting.** The ANSI-to-HTML conversion and the notification markup of `handleBuildError` are display only.
- **Rendering.** The nunjucks engine, its `FileSystemLoader` fallback over the theme directories, and the theme layouts are outside the model; rendering is a function parameter given the name, the loader and the context, returning the text or a throw. Which renders throw (a missing template, a syntax error, an unknown or throwing filter) is up to that parameter.
- **Build root.** `__dirname` is taken as the project root, which makes the targets `.tmp/…`.
- **Dead code.** The commented-out `FileSystemLoader` (gulpfile.babel.js:349-418) is not modelled.
- **Other tasks.** The other gulp tasks, `getBundlers`, `tripfile.babel.js` and `__builder/markdown.js` are build wiring outside the templates task.
- ContentIndex.ContentLoader.BuildIndex: states only that HTML documents come after the rest, not that the HTML documents keep their relative order.
- **Document identity.** The model identifies a document by its position in the loader's sequence rather than by object identity; since `_.values` lists every document once, the two agree.
- **Existing output.** Output files already present before the task starts are not part of the output map.
- **Dictionary order.** `_.values(content_loader.files)` is taken in insertion order, which for the non-integer keys the index uses is JavaScript's order too.
- AttributesFilter.AttributesOf: an object whose own `hasOwnProperty` entry is itself a function is modelled as throwing, like any other shadowing value.
- FilterRegistry.ModuleFilters: exports whose own `hasOwnProperty` is a function would have it called for each key at line 288; the model treats them as throwing, like any other shadowing value.
- TemplateEnvironment.LayerConfig: likewise, a `.js` configuration whose own `hasOwnProperty` is a function is treated as throwing at line 476.
- TemplateEnvironment.Environment.LoadConfig: a filter named `hasOwnProperty` (a top-level `filters/hasOwnProperty.js` exporting a lone function) shadows `filters.hasOwnProperty` at line 490, which then calls it for every key and registers only the filters it answers truthily for; the model registers every filter.
- **`safe`.** The `safe` filter is the identity function: it only marks its input as trusted HTML.

## Findings

| source | as written | input that shows it | evidently intended | confidence | as-written member | corrected member |
|---|---|---|---|---|---|---|
| gulpfile.babel.js:556-558 | `f.data.wrapper \|\| env.getGlobal('wrapper') \|\| 'base'` sits inside the `try`, so when the `wrapper` global does not exist `getGlobal` throws before `'base'` is reached and `wrapper` stays `undefined` | a document with no `wrapper` in its front matter, in a site whose configuration sets no `wrapper` global: the render asks for `layouts/undefined.html` | fall back to `layouts/base.html` | not executed | PageCompiler.WrapperAsWrittenMissesDefault | PageCompiler.WrapperResolution |
