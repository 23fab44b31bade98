# Kali Linux Toolmap: a verified model of its path, tree, search and registry logic

Kali Linux Toolmap is a browser catalogue of penetration-testing tools. A
YAML/JSON registry lists every tool with a `category_path` (for example
`["00_Common", "Scanning", "Port_Scanners"]`), flags such as `best_in` and
`installed`, and free-text notes. Python build scripts turn the registry into
a category taxonomy and sort the tools by it. The browser code builds indices
over the registry, drives a sidebar tree with per-phase memory, a breadcrumb,
a search with tiered scoring, a notes patcher for the YAML file, and an
export that folds the user's stars and installed flags back into the registry.

This project models that logic in Dafny, one module per source file, and
proves what the code promises: taxonomy numbering is a pre-order permutation,
the sort is stable, indices contain exactly the prefixes, subtree collapse
removes exactly a subtree, escaping leaves no raw `<`, the notes patcher leaves
other blocks untouched, and the export is idempotent.

Shared modules:

- `Base`: JavaScript values (`JsVal`), truthiness, `||`, `??` and `String(v)`.
- `Text`: split and join on one character, ASCII lower-casing, the JavaScript
  and Python whitespace classes and trims, and decimal rendering.
- `Sorting`: a stable sort by a total preorder, proved a permutation.
- `Taxonomy` and `PreOrder`: nested dictionaries and their pre-order walk.

Where the code and its documentation disagree, the model follows the code.
Values that the code gets from a library it calls are parameters:
- `localeCompare` is a total preorder;
- `normalize('NFD')` is a string normaliser;
- `isNaN` and `parseFloat` are a numeric test and a conversion.

YAML and JSON parsing is taken as its parsed result.

## Model

| member | source | states |
|---|---|---|
| SortTools.OrderBuilder.Visit | utils/sort_tools.py:40-46 | `visit` numbers every key of the dictionary, and everything below each non-empty dictionary value, in pre-order; the shared counter grows by the number of nodes numbered |
| SortTools.OrderBuilder.VisitEntry | utils/sort_tools.py:41-46 | one iteration gives the current path the counter's value, then descends only into a non-empty dictionary |
| SortTools.BuildCategoryOrder | utils/sort_tools.py:32-49 | the order map is the pre-order list of nodes numbered from 0 |
| SortTools.CategoryOrderDomain | utils/sort_tools.py:37-49 | the numbered paths are exactly the taxonomy's nodes |
| SortTools.CategoryOrderNumbering | utils/sort_tools.py:38-44 | the k-th node in pre-order gets k, so the numbers are exactly 0..N-1 and no two nodes share one |
| SortTools.CategoryOrderPreOrder | utils/sort_tools.py:40-46 | a node's number is below its descendants', and its subtree occupies one contiguous block |
| SortTools.PathTuple | utils/sort_tools.py:58 | `tuple(category_path or [])`: an array gives its items, a falsy value the empty tuple |
| SortTools.PrefixIndexLongest | utils/sort_tools.py:61-65 | the prefix search returns the longest proper non-empty prefix present, or the 999999 sentinel when there is none |
| SortTools.CategoryIndexSpec | utils/sort_tools.py:60-67 | the category index is the full path's number, else the longest proper prefix's, else 999999 (also for an empty path) |
| SortTools.NameKey | utils/sort_tools.py:70 | the name key is the lower-cased name, or '' when it is missing or empty |
| SortTools.GetSortKey | utils/sort_tools.py:52-71 | the key computation raises exactly on a truthy number or boolean `category_path` or a truthy name that is not a string; otherwise the key is (category index, 0 iff `best_in` is truthy else 1, name key) |
| SortTools.KeyLeTotalPreorder | utils/sort_tools.py:74-75 | comparing tools by their key tuples is a total preorder |
| SortTools.SortToolsCorrect | utils/sort_tools.py:74-75 | `sort_tools` returns a permutation of its input, non-decreasing by key, with equal keys in input order |
| SortTools.UnmatchedLast | utils/sort_tools.py:66-67 | with fewer than 999999 nodes, every tool without a matching prefix sorts after every tool that has one |
| SortTools.RunSort | utils/sort_tools.py:118-160 | `main` aborts on a non-list, writes "[]" for an empty list, aborts on an empty or non-dict taxonomy, crashes when the key computation raises on any tool (the tool checks only warn), and otherwise writes the sorted tools |
| Sorting.StableSortCorrect | utils/sort_tools.py:75 | the stable sort that `sorted` performs is a permutation of the input positions, keeps the multiset of elements, is non-decreasing under the preorder, and keeps equal elements in input order |
| Taxonomy.InsertHasPath | generate_template.py:13-15 | one `setdefault` walk adds exactly the non-empty prefixes of its path as nodes and keeps every existing node |
| Taxonomy.InsertKeys | generate_template.py:15 | `setdefault` reuses an existing child: a dictionary's key list grows by the new segment at the end, or not at all |
| Taxonomy.InsertPresent | generate_template.py:13-15 | walking a path that is already present changes nothing |
| Taxonomy.TreeHasPath | generate_template.py:10-16 | `build_tree(paths)` has a node for exactly the non-empty prefixes of the given paths |
| Taxonomy.TreeWellFormed | generate_template.py:10-16 | no dictionary of the built tree repeats a key |
| Taxonomy.TreeTwice | generate_template.py:10-16 | building from the same paths twice gives the same tree |
| Taxonomy.TreeGrows | generate_template.py:10-16 | adding more paths only extends the tree |
| PreOrder.NodesHasPath | utils/sort_tools.py:40-46 | the recursive visit lists exactly the nodes of the taxonomy |
| PreOrder.NodesShape | utils/sort_tools.py:40-46 | the visit lists no node twice, lists ancestors before descendants and lists each subtree as one block |
| PathNorm.PyStr | build_taxonomy_from_registry.py:10 | `str(s)` of a string is the string and of an integer its decimal text |
| PathNorm.Iterate | build_taxonomy_from_registry.py:10 | `cp or []` iterates nothing for a falsy value and fails exactly for a truthy number or boolean |
| PathNorm.NormItems | build_taxonomy_from_registry.py:10 | the normalised segments are the stripped texts of the items that are not empty, in order |
| PathNorm.NormItemsClean | build_taxonomy_from_registry.py:10 | every normalised segment is stripped and non-empty |
| PathNorm.NormItemsOfClean | build_taxonomy_from_registry.py:10 | normalising a path of clean segments gives it back |
| PathNorm.NormItemsIdempotent | build_taxonomy_from_registry.py:10 | normalisation is idempotent |
| PathNorm.Norm | build_taxonomy_from_registry.py:9-10 | `norm(cp)` fails exactly when `cp` cannot be iterated, and gives [] for a falsy value |
| PathNorm.NormClean | build_taxonomy_from_registry.py:9-10 | a list of clean segments is its own normal form |
| PathNorm.ToolPath | build_taxonomy_from_registry.py:15 | a tool's normalised path fails exactly when its `category_path` cannot be iterated |
| PathNorm.NormToolsAt | build_taxonomy_from_registry.py:14-15 | normalising the tools fails iff one tool's path fails, and otherwise lists every tool's path in order |
| PathNorm.DedupMembers | build_taxonomy_from_registry.py:16-18 | the kept paths are exactly the non-empty paths not already seen, each kept once |
| PathNorm.DedupFirstSeen | build_taxonomy_from_registry.py:16-18 | the kept paths appear in the order of their first occurrence |
| PathNorm.DedupSnoc | build_taxonomy_from_registry.py:16-18 | a further tool path is appended exactly when it is non-empty and new |
| PathNorm.CollectPaths | generate_template.py:219-226 | the loop fails when a path cannot be iterated, and otherwise returns the initial paths followed by the new distinct non-empty tool paths in first-seen order |
| PathNorm.BuildTree | generate_template.py:10-16 | the tree loop computes the functional tree of the paths |
| GenerateTemplate.FixNoteSpec | generate_template.py:233-239 | a missing or null note becomes '', a string note whose stripped text ends with "Utilizzo principale:" gets the bash example appended, any other note is kept, and no other field changes |
| GenerateTemplate.CompletedNote | generate_template.py:237-239 | a completed note no longer ends with the heading |
| GenerateTemplate.FixNoteIdempotent | generate_template.py:233-239 | after the fix-up every note is set and complete, and a second pass changes nothing |
| GenerateTemplate.FixNoteKeeps | generate_template.py:233-239 | a tool whose note is set and complete is left as it is |
| GenerateTemplate.FixNotes | generate_template.py:233-239 | the in-place loop replaces every tool with its fixed-up record |
| GenerateTemplate.Generate | generate_template.py:202-251 | nothing is generated and no tool changes when a category path cannot be iterated; otherwise the tree of the merged paths is built and every note is fixed |
| GenerateTemplate.MergedTreeNodes | generate_template.py:219-230 | the dashboard tree has a node for exactly the non-empty prefixes of the taxonomy paths and the tools' normalised paths |
| GenerateTemplate.MergedPathsMembers | generate_template.py:219-226 | the merged paths keep every taxonomy path and add each new non-empty tool path |
| RegistryScripts.WritePathsDocument | build_taxonomy_from_registry.py:7-21 | the script fails when a path cannot be iterated, and otherwise writes `{"paths": …}` with the distinct normalised paths |
| RegistryScripts.BuildTaxonomy | utils/build_taxonomy_from_registry.py:13-30 | the paths are the distinct normalised paths and the dictionary is the tree built from them |
| RegistryScripts.RegistryPathsSpec | build_taxonomy_from_registry.py:12-18 | the written paths are the distinct non-empty normalised paths of the tools, in first-occurrence order, made of stripped non-empty segments |
| RegistryScripts.NormPathsFrom | build_taxonomy_from_registry.py:14-15 | the normalised paths are those of the tools, one per tool |
| RegistryScripts.RegistryPathsClean | build_taxonomy_from_registry.py:10-18 | every segment of a written path is stripped and non-empty |
| RegistryScripts.RegistryTaxonomyNodes | utils/build_taxonomy_from_registry.py:22-30 | `taxonomy.js` has a node for exactly the non-empty prefixes of the tools' paths, and no dictionary in it repeats a key |
| Registry.PathSegments | app/js/registry.js:70-71 | a tool's path is `Root` followed by its category path |
| Registry.LeafKey | app/js/registry.js:72 | the leaf key is the '>'-join of the whole path |
| Registry.Enrich | app/js/registry.js:75-81 | the stored tool keeps every other field of the input and sets `id`, `phase`, `phaseColor` and `path` |
| Registry.RegisterKey | app/js/registry.js:86-98 | one prefix key becomes a node (created empty only when missing), joins the key list, and is linked under its parent; nothing existing is lost |
| Registry.RegisterPath | app/js/registry.js:85-99 | every prefix key of a path is a linked node afterwards, and the nodes and links added come from that path |
| Registry.PushLeafId | app/js/registry.js:102 | pushing an id at the leaf keeps the key list and the distinct children and loses nothing |
| Registry.IndexTools | app/js/registry.js:64-103 | tools whose normalised id is empty are skipped; every other tool has its whole path as linked nodes and its id at its leaf, and every node, link and leaf id comes from some kept tool |
| Registry.StoreById | app/js/registry.js:75-82 | the enriched tool is stored under its id, replacing an earlier tool with the same id, and its leaf key is remembered |
| Registry.IndexSkip | app/js/registry.js:65-66 | a tool without an id changes neither the coverage nor the provenance of the node index |
| Registry.AddUnder | app/js/registry.js:107-117 | the id is added under exactly the prefix keys of its leaf key, and nothing else changes |
| Registry.DistributeTools | app/js/registry.js:106-118 | every id lies under exactly the prefix keys of its leaf key |
| Registry.FinalizeUnder | app/js/registry.js:121-124 | every listed key gets an entry, empty when no tool lies below it, and earlier entries are kept |
| Registry.UnderFromLeaves | app/js/registry.js:106-124 | after the last loop an id lies under a key iff the last tool with that id has its leaf at or below the key |
| Registry.BuildIndices | app/js/registry.js:56-133 | `toolsById` holds exactly the non-empty ids, each with the last enriched tool of that id; the node index covers every kept tool's path and holds nothing else; `allToolsUnder` holds every node and exactly the ids below each key |
| Registry.UnderAncestorsClosed | app/js/registry.js:106-117 | `allToolsUnder` is closed upwards: an id under a key is under every ancestor of it |
| Registry.RootAboveLeaf | app/js/registry.js:71-72 | every leaf key lies below `Root` |
| Registry.KeptUnderRoot | app/js/registry.js:106-117 | every kept tool id is under `Root` |
| Registry.UnderIsNode | app/js/registry.js:106-121 | when no segment holds '>', the keys ids lie under are nodes of the index |
| Registry.Fallback | app/js/registry.js:139-147 | the fallback indices hold only `Root`, with no tools |
| Registry.Initialize | app/js/registry.js:165-193 | missing text, text that does not parse and a non-array all give the fallback; an array gives its indices |
| Helpers.KeepIdChars | app/js/utils/helpers.js:22 | only word characters, '-' and ' ' survive |
| Helpers.KeepIdCharsAll | app/js/utils/helpers.js:22 | a string of such characters is left alone |
| Helpers.CollapseRuns | app/js/utils/helpers.js:23-24 | every maximal run of matching characters becomes one replacement character: empty iff the input is empty, never longer |
| Helpers.CollapseRunsFrom | app/js/utils/helpers.js:23-24 | every character of the result is the replacement or an input character outside the runs |
| Helpers.NormalizeIdClean | app/js/utils/helpers.js:19-25 | a normalised id is lower-case, holds no whitespace and no run of two hyphens |
| Helpers.NormalizeIdIdempotent | app/js/utils/helpers.js:19-25 | normalising a normalised id changes nothing |
| Helpers.IdPipelineFixed | app/js/utils/helpers.js:20-25 | the pipeline leaves a clean id alone |
| Helpers.GetName | app/js/utils/helpers.js:31-33 | the name is the text of the first truthy of `title`, `name`, `id`, else '' |
| Helpers.GetCategoryPath | app/js/utils/helpers.js:38-43 | `category_path` when it is an array, else `categoryPath` when it is one, else [] |
| Helpers.GetPrimaryPhase | app/js/utils/helpers.js:48-51 | the first segment of the category path, or '' |
| Helpers.GetPhaseGroupKey | app/js/utils/helpers.js:57-63 | a phase that starts with two or more digits and then a non-digit is keyed by that number; any other is keyed by 9998 and its lower-cased text |
| Helpers.NumberedPhaseKey | app/js/utils/helpers.js:58-61 | the numbered key depends only on the digit run, not on what follows it |
| Helpers.ToolmapPhaseKey | app/js/utils/helpers.js:57-63 | the toolmap's `0<k>_…` phases are keyed by `k`, which sorts before every unnumbered phase |
| Helpers.GetPhaseColor | app/js/utils/helpers.js:68-70 | a known phase gets its colour, any other the accent colour |
| Helpers.FirstNonNullishSpec | app/js/utils/helpers.js:77 | `a ?? b ?? …` is the first value that is neither null nor undefined, and nullish only when all are |
| Helpers.ReadBestInFlagSpec | app/js/utils/helpers.js:75-78 | the flag is the truthiness of the first present, non-null spelling among `best_in`, `bestIn`, `best-in`, `best`, and false when none is |
| Helpers.ReadInstalledFlag | app/js/utils/helpers.js:83-86 | the flag is true iff `installed` is present and truthy |
| Helpers.PathKeyRoundTrip | app/js/utils/helpers.js:103-105 | a '>'-joined key splits back into its segments when no segment holds '>' |
| Helpers.EscapeSafe | app/js/utils/helpers.js:214-223 | the escaped text holds no `<`, `>`, `"` or `'`, and every `&` starts one of the produced entities |
| Helpers.UnescapeEscape | app/js/utils/helpers.js:130-137 | escaping loses nothing: decoding the entities gives the text back (for both apostrophe spellings) |
| Helpers.EscapeAttrSame | app/js/utils/helpers.js:228-230 | `escapeAttr` equals `escapeHtml`, whose output holds no `"` left to replace |
| Helpers.ListLinesNested | app/js/utils/helpers.js:170-193 | the list pass opens and closes `<ul>` in matched pairs, with every `<li>` inside one |
| Helpers.ListLinesContent | app/js/utils/helpers.js:170-193 | one `<li>` per item line, with its marker removed, in order; every other line passes through unchanged and in order |
| Helpers.ListPass | app/js/utils/helpers.js:171-190 | the loop with its `inList` flag computes the recursive list pass |
| Helpers.Lists | app/js/utils/helpers.js:170-193 | `_lists` splits on newlines, runs the list pass and joins the output |
| Helpers.DropNumberPrefix | app/js/utils/helpers.js:238 | the result is a suffix of the input; an input without a leading digit is unchanged; otherwise exactly the leading digit run and every `_`/`-` right after it are removed, so the result does not start with `_` or `-` |
| Helpers.DropNumberPrefixOf | app/js/utils/helpers.js:238 | digits, then a run of `_`/`-`, then a rest starting with neither a digit nor `_`/`-`, lose exactly the digits and the run |
| Helpers.FormatLabel | app/js/utils/helpers.js:236-241 | the shown label holds no `_` (the replace turns every one into a space) |
| Helpers.FormatLabelDropsNumber | app/js/utils/helpers.js:232-241 | the label of digits, a run of `_`/`-`, then a rest is the rest with spaces for underscores, trimmed; the documented example "01_Information_Gathering" is the instance with digits "01", run "_" and rest "Information_Gathering" |
| Helpers.FormatLabelPlain | app/js/utils/helpers.js:236-241 | a trimmed label without a leading digit or an underscore is shown as it is |
| SidebarConstants.SplitPath | app/js/sidebar/sidebar-constants.js:195-198 | [] for a non-string or '', otherwise exactly the non-empty '/'-fields, none holding '/' |
| SidebarConstants.SplitPathJoin | app/js/sidebar/sidebar-constants.js:195-198 | a path joined from non-empty segments without '/' splits back into them |
| SidebarConstants.PhaseFromPath | app/js/sidebar/sidebar-constants.js:200-203 | the phase is the first '/'-field; null for a non-string, '' or a path starting with '/' |
| SidebarConstants.PhaseIsFirstSegment | app/js/sidebar/sidebar-constants.js:195-203 | for a non-empty path not starting with '/', the phase is the first segment of `splitPath` |
| SidebarConstants.HasChildrenSpec | app/js/sidebar/sidebar-constants.js:191-192 | a node has children iff it is a dictionary with a key |
| SidebarConstants.ReduceStaysNone | app/js/sidebar/sidebar-constants.js:206 | once a lookup fails the reduce stays undefined |
| SidebarConstants.ReduceAt | app/js/sidebar/sidebar-constants.js:206 | the reduce follows the taxonomy walk, except that a null value counts as not found |
| SidebarConstants.NodeByPathSpec | app/js/sidebar/sidebar-constants.js:205-207 | `getNodeByPath` finds exactly the non-null node the walk along the '/'-fields reaches |
| SidebarConstants.StripNumberPrefix | app/js/sidebar/sidebar-constants.js:189 | `/^\d+_/` removes a leading digit run and its '_' or nothing |
| SidebarConstants.FormatLabel | app/js/sidebar/sidebar-constants.js:189 | the label as written holds no '_' |
| SidebarConstants.FormatLabelKeepsNumber | app/js/sidebar/sidebar-constants.js:189 | as written, the label is only the text with spaces for underscores: the number prefix is never removed |
| SidebarConstants.FormatLabelFixed | app/js/sidebar/sidebar-constants.js:189 | the corrected label (prefix removed first) holds no '_' |
| SidebarConstants.FormatLabelFixedDropsNumber | app/js/sidebar/sidebar-constants.js:189 | the corrected label drops a leading `digits_` and shows the rest with spaces |
| SidebarState.Ensured | app/js/sidebar/sidebar-state.js:22-25 | `ensurePhase` adds the phase, and only it |
| SidebarState.EnsuredKeeps | app/js/sidebar/sidebar-state.js:22-25 | an existing entry is never altered; a missing one starts with no active path and nothing expanded |
| SidebarState.ActiveAfterSet | app/js/sidebar/sidebar-state.js:27-33 | the active path reads back as set, or null when set to ''; other phases are unaffected; an unset phase reads null |
| SidebarState.ExpandSpec | app/js/sidebar/sidebar-state.js:35-37 | after `expandBranch` the path is expanded, nothing else is added, and the active path is kept |
| SidebarState.Collapse | app/js/sidebar/sidebar-state.js:39-44 | collapsing never lengthens the expanded list |
| SidebarState.CollapseSpec | app/js/sidebar/sidebar-state.js:39-44 | collapsing removes exactly the prefix and the paths below it ('/'-aligned) and keeps the rest, distinct, in order |
| SidebarState.CollapseKeepsSibling | app/js/sidebar/sidebar-state.js:41 | collapsing "A/B" keeps "A/Bx" and removes "A/B/c" |
| SidebarState.ExpandedOrderSpec | app/js/sidebar/sidebar-state.js:46-48 | the expanded paths come out as a permutation, fewer fields first, ties in insertion order |
| SidebarState.ResetSpec | app/js/sidebar/sidebar-state.js:50-55 | after a reset every phase is still there, with no active path and nothing expanded |
| SidebarState.PhaseMemory.constructor | app/js/sidebar/sidebar-state.js:17-20 | one fresh entry per taxonomy phase |
| SidebarState.PhaseMemory.EnsurePhase | app/js/sidebar/sidebar-state.js:22-25 | the memory becomes the ensured map, and the entry returned is the phase's |
| SidebarState.PhaseMemory.SetActivePathSlash | app/js/sidebar/sidebar-state.js:27-29 | the memory becomes the map with the phase's active path set |
| SidebarState.PhaseMemory.GetActivePathSlash | app/js/sidebar/sidebar-state.js:31-33 | the phase is ensured and its active path read, null when unset or '' |
| SidebarState.PhaseMemory.ExpandBranch | app/js/sidebar/sidebar-state.js:35-37 | the memory becomes the map with the path expanded |
| SidebarState.PhaseMemory.CollapseSubtree | app/js/sidebar/sidebar-state.js:39-44 | the loop over a snapshot deletes exactly the matching paths |
| SidebarState.PhaseMemory.GetExpandedPaths | app/js/sidebar/sidebar-state.js:46-48 | the phase is ensured and its expanded paths returned in depth order |
| SidebarState.PhaseMemory.ResetPhaseMemory | app/js/sidebar/sidebar-state.js:50-55 | every phase is reset and none is added or removed |
| SidebarState.RootOf | app/js/sidebar/sidebar-state.js:61 | the root is the registry's name, else its title, else 'Root' |
| SidebarState.KeyMatchesIsEndsWith | app/js/sidebar/sidebar-state.js:72 | the three tests of the key scan amount to "ends with the suffix" |
| SidebarState.LongestMatchFound | app/js/sidebar/sidebar-state.js:70-76 | the scan's result is unset or a listed key ending with the suffix |
| SidebarState.LongestMatchLongest | app/js/sidebar/sidebar-state.js:70-76 | no non-empty key ending with the suffix is longer than the result |
| SidebarState.LongestMatchFirst | app/js/sidebar/sidebar-state.js:70-76 | of equally long matches the first listed wins |
| SidebarState.ResolveSpec | app/js/sidebar/sidebar-state.js:58-84 | a registered candidate (the suffix, then `root>suffix`) wins; else the longest node key ending with the path, with its ids; else `root>suffix` with no ids |
| SidebarState.ResolveToolIds | app/js/sidebar/sidebar-state.js:58-84 | the candidate loop and the key scan compute that answer |
| SidebarState.FirstColorSpec | app/js/sidebar/sidebar-state.js:88-91 | the colour found is the first listed tool's own colour; with none found no listed tool has one |
| SidebarState.PhaseColorSpec | app/js/sidebar/sidebar-state.js:86-93 | a colour is always produced; without a coloured tool it is the phase's palette entry or the accent |
| SidebarState.FirstToolColor | app/js/sidebar/sidebar-state.js:88-91 | the loop returns the first tool colour |
| SidebarState.DerivePhaseColor | app/js/sidebar/sidebar-state.js:86-93 | `derivePhaseColor` is a tool's own colour, else the phase's |
| SidebarIcons.LongestPrefixSpec | app/js/sidebar/sidebar-icons.js:99-101 | the prefix scan gives unset or a key that is a raw string prefix of the path, and no non-empty prefix key is longer |
| SidebarIcons.PrefixUnique | app/js/sidebar/sidebar-icons.js:99-101 | equally long prefixes are equal, so the key order never changes the choice |
| SidebarIcons.PrefixNotAligned | app/js/sidebar/sidebar-icons.js:100 | a prefix key need not end at a segment boundary: "02_Ex" matches "02_Exploitation/Web" |
| SidebarIcons.InheritSpec | app/js/sidebar/sidebar-icons.js:108-117 | a leaf takes the nearest ancestor with a `byPath` entry; with none found no ancestor has one |
| SidebarIcons.IconRules | app/js/sidebar/sidebar-icons.js:91-119 | an exact entry decides first; then the longest prefix entry (a plain string only for leaves); then, for a leaf, the nearest ancestor; else the closed folder |
| SidebarIcons.IconNeverEmpty | app/js/sidebar/sidebar-icons.js:91-119 | an icon is always produced when the default folder is set |
| SidebarIcons.GetIconStatic | app/js/sidebar/sidebar-icons.js:91-119 | the loops compute that choice |
| SidebarIcons.FillFrame | app/js/sidebar/sidebar-icons.js:122-129 | the walk stores exactly the keys of its nodes and leaves every other key alone |
| SidebarIcons.FillValue | app/js/sidebar/sidebar-icons.js:122-129 | every node's key holds the icon of that node, with its own children deciding folder or leaf |
| SidebarIcons.IconMap.Walk | app/js/sidebar/sidebar-icons.js:122-129 | the recursive walk stores the functional fill of its entries |
| SidebarIcons.IconMap.PrecomputeIconMap | app/js/sidebar/sidebar-icons.js:121-130 | the icon map becomes the fill of the whole taxonomy |
| SidebarIcons.SlashKeyInjective | app/js/sidebar/sidebar-icons.js:124 | distinct clean paths get distinct '/'-joined keys |
| SidebarIcons.IconMapSpec | app/js/sidebar/sidebar-icons.js:121-130 | on a well-formed taxonomy the map has one entry per node, keyed by its '/'-joined path, holding that node's icon, and nothing else |
| LegacySidebar.PhaseToColor | app/js/sidebar.js:242-251 | a phase in the older five-entry table gets its CSS variable, any other `var(--accent-2)` |
| LegacySidebar.TablesDiffer | app/js/sidebar.js:242-251 | the older table has no Red Team entry and names CSS variables where the newer one names colours |
| LegacySidebar.LegacyPhaseColorSpec | app/js/sidebar.js:253-262 | a colour is always produced, and a tool's own colour wins over the table |
| LegacySidebar.DerivePhaseColor | app/js/sidebar.js:253-262 | the loop computes that colour |
| LegacySidebar.DepthOfJoin | app/js/sidebar.js:271-274 | the depth of a '/'-joined path is its number of segments minus one |
| LegacySidebar.DepthChild | app/js/sidebar.js:271-274 | one more segment is one level deeper |
| TmpSidebar.EnsuredTmp | tmp/sidebar.js:71-76 | `ensurePhase` adds the phase, and only it |
| TmpSidebar.VisitedSpec | tmp/sidebar.js:78-89 | the visited tree gains exactly the prefixes of the new path without its phase and loses no branch; the active path is set and other phases are unchanged |
| TmpSidebar.ActiveTmpSpec | tmp/sidebar.js:78-92 | an unset phase has no active path; after a set it reads back, unless set to '' |
| TmpSidebar.WithoutIsCollapse | tmp/sidebar.js:100-107 | deleting the collected paths one by one is collapsing the subtree |
| TmpSidebar.TmpPhaseMemory.constructor | tmp/sidebar.js:64-69 | one fresh entry per taxonomy phase |
| TmpSidebar.TmpPhaseMemory.EnsurePhase | tmp/sidebar.js:71-76 | the memory becomes the ensured map, and the entry returned is the phase's |
| TmpSidebar.TmpPhaseMemory.SetActivePath | tmp/sidebar.js:78-89 | the in-place walk over `visited` is the `setdefault`-style insert of the path |
| TmpSidebar.TmpPhaseMemory.GetActivePath | tmp/sidebar.js:91-93 | the phase is ensured and its active path read, null when unset or '' |
| TmpSidebar.TmpPhaseMemory.ExpandBranch | tmp/sidebar.js:95-97 | the path is added to the phase's expanded paths |
| TmpSidebar.TmpPhaseMemory.CollapseSubtree | tmp/sidebar.js:100-107 | collecting the matches and then deleting them leaves the collapse of the subtree |
| TmpSidebar.TmpPhaseMemory.GetExpandedPaths | tmp/sidebar.js:109-113 | the phase is ensured and its expanded paths returned in depth order |
| ScriptPaths.DecodeEncode | app/script.js:330-336 | `decodeURIComponent(encodeURIComponent(s)) == s` for every segment (unreserved characters kept, all others escaped as their UTF-8 bytes); the escape never holds '/' and is empty only for '' |
| ScriptPaths.DecodeEscaped | app/script.js:330-336 | the `%XY` escape of the UTF-8 bytes of any reserved character decodes back to that character, consuming exactly the escape |
| ScriptPaths.EncodeSegSelf | app/script.js:331 | `encodeURIComponent` leaves a segment unchanged when all its characters are unreserved, and makes it strictly longer otherwise |
| ScriptPaths.KeyPhase | app/script.js:338-340 | `getPhaseFromKey(pathToKey(p))` is the escaped first segment, not the raw one |
| ScriptPaths.MapDecodeEncode | app/script.js:330-336 | escaping every segment can be undone segment by segment and leaves no '/' in any segment |
| ScriptPaths.KeyRoundTrip | app/script.js:330-336 | `keyToPath(pathToKey(p)) == p` for a path without empty segments |
| ScriptPaths.JoinExtends | app/script.js:342-345 | on joined keys, "starts with the key and '/'" is "strictly extends the segments" |
| ScriptPaths.AncestorIsPrefix | app/script.js:342-345 | `isAncestorPath` on keys agrees with the prefix order on paths without empty segments, the empty key being everyone's ancestor |
| ScriptPaths.PathMatches | app/script.js:369-376 | `pathMatches` holds iff the filter is a prefix of the item path |
| ScriptPaths.KeyOrderTotal | app/script.js:357 | the default `sort()` order on strings is a total preorder |
| ScriptPaths.TreeChildrenSpec | app/script.js:347-358 | the children listed are exactly the keys of the node reached, each once, in ascending code-unit order; none when the walk fails |
| ScriptPaths.DescendAt | app/script.js:348-353 | on a taxonomy of dictionaries, a prefix without empty segments reaches exactly the node the taxonomy walk names |
| ScriptPaths.GetTreeChildren | app/script.js:347-358 | the loop computes the children of the reached node |
| ScriptPaths.BuildAllTreePaths | app/script.js:360-367 | the accumulator gets every key's path followed by the paths below it |
| ScriptPaths.AllTreePathsSpec | app/script.js:360-367 | all tree paths are listed, each once, and nothing else |
| ScriptPaths.KeepPhaseSpec | app/script.js:676-680 | the kept keys are exactly those whose escaped first segment is empty or equals the given phase text |
| ScriptPaths.ClickPhase | app/script.js:663-685 | opening a phase keeps exactly the open keys whose escaped first segment is empty or equals the phase attribute, adds the phase's key and selects it |
| ScriptPaths.ClickEscapedPhase | app/script.js:663-680 | since `data-phase` holds the raw name (line 629) and `getPhaseFromKey` the escaped one, opening a phase whose name needs escaping (a space, say) closes that phase's own open branches too |
| ScriptPaths.ClickOpenPhase | app/script.js:667-671 | closing an open phase clears the expanded set and the selection |
| ScriptPaths.ClickCollapse | app/script.js:688-700 | closing an open branch removes it and every key below it and nothing else; a selection inside it moves to the branch's parent, any other stays |
| ScriptPaths.ClickExpand | app/script.js:701-706 | opening a branch adds only its key and selects it |
| ScriptPaths.TreeState.constructor | app/script.js:654-708 | the page starts with nothing selected or expanded |
| ScriptPaths.TreeState.HandleTreeClick | app/script.js:654-708 | the click handler's state updates are the functional click |
| ScriptSearch.SplitWs | app/script.js:102 | the fields of a split on whitespace hold no whitespace |
| ScriptSearch.OneWord | app/script.js:102 | a query without whitespace is one word, or none when empty |
| ScriptSearch.Matched | app/script.js:109 | all terms survive the filter iff every term occurs in the joined fields |
| ScriptSearch.TierSpec | app/script.js:67-78 | the tier is 1000, 500, 200 or 0, chosen by the first of equal, starts with and contains that holds for the name or the id |
| ScriptSearch.BonusBounds | app/script.js:80-112 | bonuses are never negative; for a one-word query they add at most 140; the words bonus is positive iff there are several words and each occurs |
| ScriptSearch.SimpleMatchSpec | app/script.js:56-122 | the empty query scores 0 and matches all; otherwise a tool matches iff some field holds the query or every one of several words occurs |
| ScriptSearch.TierDecides | app/script.js:56-116 | for a one-word query a tool in a higher tier scores more than any tool in a lower one |
| ScriptYaml.LineTests | app/script.js:144-156 | blank is "trims to ''", the indent is the leading whitespace, and a notes line is one matching `^(\s*)notes:` |
| ScriptYaml.RunKeeps | app/script.js:144-150 | outside a notes entry, lines that are not notes lines are kept |
| ScriptYaml.RunSkips | app/script.js:151-156 | inside a notes entry, blank and deeper lines are consumed |
| ScriptYaml.RemoveNothing | app/script.js:135-165 | a block without a notes line comes back unchanged |
| ScriptYaml.RemoveExistingNotes | app/script.js:135-165 | the loop with its `skipping` flag computes the recursive scan |
| ScriptYaml.FormatNotesSpec | app/script.js:127-132 | blank notes give ''; otherwise a `|` line, then every line of the end-trimmed text behind `baseIndent` spaces, which removing the spaces gives back |
| ScriptYaml.WrittenNotesLine | app/script.js:167-178 | the notes line written is one that `removeExistingNotes` recognises, at the indentation written |
| ScriptYaml.CleanLines | app/script.js:168 | the lines of a cleaned block are lines of the block |
| ScriptYaml.WrittenConsumed | app/script.js:135-178 | the lines written are read back as one notes entry and all consumed |
| ScriptYaml.RemoveAdded | app/script.js:135-178 | removing the notes of a block just given notes yields the block without its trailing newlines, when it had no notes of its own |
| ScriptYaml.IndentOfFirstKey | app/script.js:214-215 | the notes go at the indentation of the first indented key below the id line |
| ScriptYaml.BlockIdOf | app/script.js:207-208 | an id line `- id: v`, bare or quoted, is read back as `v` |
| ScriptYaml.StartIndicesSpec | app/script.js:187-189 | the start indices are the block-start lines, each once, ascending |
| ScriptYaml.FindBlockStarts | app/script.js:186-189 | the first loop computes the start indices |
| ScriptYaml.ExtractBlocks | app/script.js:197-203 | the second loop cuts the lines into blocks from one start to the next |
| ScriptYaml.ProcessBlock | app/script.js:206-220 | a block whose id has notes loses its old notes and gets the new ones; any other is kept |
| ScriptYaml.ProcessBlocks | app/script.js:206-220 | the map applies that to every block in order |
| ScriptYaml.PatchRegistryYaml | app/script.js:181-228 | the method computes the functional patch |
| ScriptYaml.FinishSpec | app/script.js:223 | the result always ends with a newline, and one already ending so is kept |
| ScriptYaml.PatchShape | app/script.js:181-224 | a registry without a block comes back as it is; otherwise the result ends with a newline |
| ScriptYaml.ProcessSpec | app/script.js:206-220 | a block keeps its lines unless its id has notes; then it loses exactly its notes entry and gains the new one |
| ScriptYaml.Reassemble | app/script.js:195-222 | the text before the first block put back in front of the joined blocks gives all the lines |
| ScriptYaml.PatchFixedPreserves | app/script.js:195-224 | with the corrected prefix test, a patch that gives no block notes returns the registry with at most a final newline added |
| ScriptYaml.PatchAgrees | app/script.js:195-222 | the as-written and corrected patches differ only when the text before the first block is one empty line |
| ScriptYaml.PatchDropsLeadingBlankLine | app/script.js:195-222 | as written, "\n- id: x" comes back as "- id: x\n": the leading empty line is lost |
| Search.FirstsMembers | app/js/search.js:113-126 | the insertion-ordered keys of a `Map` or `Set` hold exactly the elements added |
| Search.FirstsDistinct | app/js/search.js:113-126 | they hold every element once |
| Search.HitPhasesCount | app/js/search.js:104-124 | a phase has been met iff its count is positive; a phase never met has no paths |
| Search.HitStepMiss | app/js/search.js:105-106 | an id naming no tool, or a tool with an empty path, contributes nothing |
| Search.HitStepHit | app/js/search.js:108-123 | a hit contributes its first segment as phase, its '/'-joined path to that phase, and one to that phase's count |
| Search.AddHit | app/js/search.js:113-123 | the maps are updated for one hit: the phase is added when new, the path is added to its set, and its count goes up by one |
| Search.Gather | app/js/search.js:104-124 | the `forEach` over the ids gathers exactly the phases, path sets and counts of the hits |
| Search.PushGroup | app/js/search.js:131-133 | every path of a set is pushed split on '/' |
| Search.CollectPaths | app/js/search.js:130-134 | the loop over the phases met pushes the split paths of each, phase by phase |
| Search.BuildSearchContext | app/js/search.js:96-144 | the context carries the query and the ids, the phases in first-met order, and a count for exactly those phases |
| Search.PhaseCountSpec | app/js/search.js:122 | a phase's count is the number of input ids, with repetitions, that name a tool with a non-empty path in that phase |
| Search.HitPhasesFrom | app/js/search.js:109-115 | a phase is met iff some hit has it |
| Search.PhaseKeysSpec | app/js/search.js:126 | the context's phases are distinct, are exactly the hit phases, and come in first-seen order |
| Search.HitPathsFrom | app/js/search.js:110-116 | a joined path of a phase comes from a hit of that phase |
| Search.HitRoundTrip | app/js/search.js:111-132 | splitting a joined hit path gives the category path back when no segment holds '/' |
| Search.GroupDistinct | app/js/search.js:130-134 | the paths of one phase group are distinct |
| Search.GroupPhase | app/js/search.js:130-134 | every path of a phase group starts with that phase |
| Search.ContextPathsDistinct | app/js/search.js:127-134 | no path appears twice in the context |
| Search.ContextPathsMember | app/js/search.js:127-134 | the context holds exactly the paths of the hits of its phases |
| Search.SearchPathsSpec | app/js/search.js:96-144 | the context's paths are every distinct non-empty category path of a found tool, exactly once |
| Search.NameHits | app/js/search.js:199-201 | the name bonus counts at most one per term |
| Search.NameHitsAll | app/js/search.js:199-201 | all terms count iff all are in the name; none counts iff none is |
| Search.ScoreTool | app/js/search.js:169-202 | the three `every` tests and the per-term bonus compute the fuzzy score |
| Search.FuzzyScoreSpec | app/js/search.js:178-202 | a tool is a result iff every term is in its name or description; a full name match scores 20 or 30, a full description match 10, a mixed match 5 plus 2 per term in the name |
| Search.MixedAboveDescription | app/js/search.js:186-202 | the tiers overlap: three terms in the name and a fourth only in the description score 11, above a full description match |
| Search.ScoreAll | app/js/search.js:169-207 | the scan over the tools yields the positive-score candidates in key order |
| Search.CandidatesSound | app/js/search.js:204-206 | every candidate has a positive score and is a scored tool of the scan |
| Search.CandidatesComplete | app/js/search.js:169-207 | every tool whose terms all occur in its name or description is a candidate |
| Search.CandidatesEveryKey | app/js/search.js:169-207 | when the scan runs over `Object.entries(toolsById)` (each key once, nothing else), every tool whose terms all occur in its name or description is a candidate, and every candidate is some tool with its positive score |
| Search.ScoreOrderTotal | app/js/search.js:211 | ordering by descending score is a total preorder |
| Search.SortedResultsSpec | app/js/search.js:211 | the sorted results are a permutation of the candidates in non-increasing score, with equal scores in scan order |
| Search.SearchState.constructor | app/js/search.js:7-53 | search starts inactive, not typing, with no query and no snapshot |
| Search.SearchState.ExitSearchMode | app/js/search.js:351-378 | nothing happens when search is not active; otherwise search ends and the query is cleared, and the snapshot is dropped when skipping, restored when it has a path key, dropped otherwise |
| Search.SearchState.SetTypingMode | app/js/search.js:459-471 | with a sidebar, the typing flag becomes the argument; without one nothing changes |
| Search.SearchState.PerformFuzzySearch | app/js/search.js:150-229 | an empty query leaves search mode; otherwise the result is the context of the sorted results' ids |
| Breadcrumb.FormatLabelDropsNumber | app/js/breadcrumb-manager.js:61-65 | the label of `digits_rest` is `rest` with spaces for underscores |
| Breadcrumb.FormatLabelIsFixed | app/js/breadcrumb-manager.js:61-65 | the breadcrumb's label is the corrected sidebar label, and '' for a falsy value |
| Breadcrumb.FormatLabelIdempotent | app/js/breadcrumb-manager.js:61-65 | a label holds no underscore, so formatting it again changes nothing |
| Breadcrumb.ConvertPathToSlash | app/js/breadcrumb-manager.js:79-82 | null exactly for an empty key; otherwise the key with '/' for every '>' and a leading "Root/" removed |
| Breadcrumb.SplitPathKeyClean | app/js/breadcrumb-manager.js:87-97 | every part of a split key is non-empty and holds no '>' |
| Breadcrumb.SplitPathKeyRoot | app/js/breadcrumb-manager.js:87-97 | `splitPathKey` undoes the registry key: "Root>a>b" gives [a, b] |
| Breadcrumb.SplitPathKeyPlain | app/js/breadcrumb-manager.js:87-97 | a key without the root segment splits into its parts |
| Breadcrumb.JoinReplace | app/js/breadcrumb-manager.js:81 | replacing the separator of a join joins with the new separator |
| Breadcrumb.ConvertMatchesSegments | app/js/breadcrumb-manager.js:79-97 | the copied path of "Root>a>b" is "a/b", the '/'-join of the segments shown |
| Breadcrumb.Take | app/js/breadcrumb-manager.js:112 | the slice taken is a prefix of the visible parts |
| Breadcrumb.RootKeyParts | app/js/breadcrumb-manager.js:102-113 | the key "Root>p1>…>pn" is led by the root segment and shows p1 … pn |
| Breadcrumb.SegmentClickIsAncestor | app/js/breadcrumb-manager.js:483-490 | clicking the t-th segment of "Root>p1>…>pn" asks for the ancestor key "Root>p1>…>pt" |
| Breadcrumb.SegmentClickIsAncestorPlain | app/js/breadcrumb-manager.js:483-490 | the same for a key without the root segment |
| Breadcrumb.CommonAffixes | app/js/breadcrumb-manager.js:329-354 | the two loops find the longest case-insensitive common prefix and then the longest common suffix that does not overlap it |
| Breadcrumb.FinalTextMatches | app/js/breadcrumb-manager.js:356-394 | the text shown at the end equals the new query up to letter case |
| Breadcrumb.DeleteFrames | app/js/breadcrumb-manager.js:364-374 | the deleting ticks show the old middle losing one character per tick |
| Breadcrumb.TypeFrames | app/js/breadcrumb-manager.js:377-393 | the typing ticks show the new middle growing one character per tick |
| Breadcrumb.TicksAreFrames | app/js/breadcrumb-manager.js:364-393 | the deleting ticks then the typing ticks are the animation's frames, and the last shows the new middle |
| Breadcrumb.AnimateTextChange | app/js/breadcrumb-manager.js:326-395 | the affixes and the frames: every tick keeps the old prefix and suffix around a middle being deleted or typed |
| Breadcrumb.NoCountSpec | app/js/breadcrumb-manager.js:409-412 | `(toolsCount || 0) === 0` holds exactly for a falsy count |
| Breadcrumb.Labels | app/js/breadcrumb-manager.js:433-439 | one formatted label per part, in order |
| Breadcrumb.SearchKeyRendersDefault | app/js/breadcrumb-manager.js:263-269 | a `search:` key renders the default breadcrumb and leaves nothing to copy |
| Breadcrumb.RootKeyRendersSegments | app/js/breadcrumb-manager.js:251-274 | the key "Root>p1>…>pn" renders the labels of p1 … pn and copies "p1/…/pn" |
| Breadcrumb.BreadcrumbState.constructor | app/js/breadcrumb-manager.js:8-54 | the initial state: no path, no key, no query, an empty summary |
| Breadcrumb.BreadcrumbState.RenderDefault | app/js/breadcrumb-manager.js:400-416 | no path to copy, and "No tools" exactly when nothing was ever visited, no key or scope is set and the count is zero |
| Breadcrumb.BreadcrumbState.RenderPath | app/js/breadcrumb-manager.js:420-439 | the view and the copy path for the key; a key without parts renders the default |
| Breadcrumb.BreadcrumbState.Render | app/js/breadcrumb-manager.js:251-274 | nothing while a search is typed; otherwise the query is forgotten and the key, a search key counting as none, is rendered |
| Breadcrumb.BreadcrumbState.HandleScopeSet | app/js/breadcrumb-manager.js:653-672 | a search key keeps the search breadcrumb while a search is typed and otherwise resets; any other key is remembered and rendered |
| Breadcrumb.BreadcrumbState.HandleReset | app/js/breadcrumb-manager.js:674-679 | key, path and query are cleared, and the default is rendered unless a search is typed |
| Breadcrumb.BreadcrumbState.HandleContextSummary | app/js/breadcrumb-manager.js:681-687 | the detail is merged into the summary, and without a path key the default is rendered again |
| Breadcrumb.BreadcrumbState.HandleSearchQuery | app/js/breadcrumb-manager.js:696-734 | an empty query renders the remembered key; a changed query animates the text shown; the first query creates the search breadcrumb |
| App.Lookup | app/js/app.js:492 | the lookup keeps at most one tool per id |
| App.LookupAppend | app/js/app.js:492 | looking up a concatenation looks up each part in turn, so the order of the ids is kept |
| App.LookupMembers | app/js/app.js:492 | a tool is visible exactly when one of the ids names it |
| App.LookupKnown | app/js/app.js:492 | ids that are all known map one to one onto their tools |
| App.VisibleAll | app/js/app.js:486-493 | with the scope "all", the visible tools are the tools of the listed keys, one per key, in the order of the listing |
| App.VisibleEveryTool | app/js/app.js:486-493 | when the listing is `Object.keys(toolsById)` (each key once, nothing else), the scope "all" shows exactly one entry per tool, every tool at the position of its key |
| App.VisibleScoped | app/js/app.js:486-493 | otherwise a tool is visible exactly when a scope id names it; without scope ids nothing is |
| App.StarredOfSpec | app/js/app.js:498-510 | the local star wins over the registry; without a local entry the flag is the first set spelling of `best_in`, or false |
| App.WithStarredIdempotent | app/js/app.js:498-510 | writing `_starred` does not change what it is computed from, so applying the stars again changes nothing |
| App.ApplyStarredState | app/js/app.js:498-510 | the loop writes `_starred` on every tool and changes nothing else |
| App.KeyLeLevels | app/js/app.js:515-536 | the comparator orders by phase number, then phase name, then starred first, then name, each level deciding only on a tie of the one before |
| App.ToolLeTotal | app/js/app.js:515-536 | the comparator is a total preorder whenever the locale order is |
| App.SortTools | app/js/app.js:515-536 | the in-place sort leaves the stable sort of the old array |
| App.SortToolsSpec | app/js/app.js:515-536 | the sorted tools are a permutation of the input ordered by the four levels, with tools equal on all four in input order |
| App.StarAll | app/js/app.js:498-510 | every tool with its `_starred` written, in order |
| App.VisibleSorted | app/js/app.js:443-449 | what `render` shows: the visible tools with their stars, sorted |
| App.VisitsPhaseIffSegments | app/js/app.js:246-250 | a phase counts as visited exactly when the breadcrumb shows a segment for the key |
| App.Ids | app/js/app.js:254 | one id per tool, in order |
| App.CodeOrderTotal | app/js/app.js:254 | the default `sort()` order is a total preorder |
| App.IdsKeySorted | app/js/app.js:254 | the change key lists the visible ids, each as often as it is visible, in code order |
| App.AppState.constructor | app/js/app.js:19-28 | at load every tool is in scope, nothing is visited and the last key is '' |
| App.AppState.HandleScopeSet | app/js/app.js:236-262 | ignored during a reset unless it sets "all"; otherwise the scope is taken from the detail, a visited phase is remembered, and a render is scheduled exactly when the sorted id key changed |
| App.AppState.HandleReset | app/js/app.js:276-287 | back to every tool in scope with nothing visited, unless a reset is in progress |
| Features.FlagMap.constructor | app/js/utils/features.js:26-34 | the map starts as the stored one |
| Features.FlagMap.Toggle | app/js/utils/features.js:118-129 | a missing id returns `{}` and changes nothing; otherwise the id's flag becomes the truthiness of the value, and the whole map is returned |
| Features.ToggleKeepsOthers | app/js/utils/features.js:59-70 | a toggle sets the flag of its id and keeps every other entry |
| Features.UpdateRegistryRecords | app/js/utils/features.js:164-200 | the in-place loop replaces every record with its updated record |
| Features.UpdateRecord | app/js/utils/features.js:166-199 | one pass of the loop body yields exactly the record the export specifies: untouched without an id, otherwise notes, `best_in` and `installed` rewritten and the legacy keys gone |
| Features.UpdatedAll | app/js/utils/features.js:164-200 | one updated record per record, in order |
| Features.Serialize | app/js/utils/features.js:149-159 | no output without a registry; otherwise the updated records of a clone, the registry itself untouched |
| Features.NoIdUntouched | app/js/utils/features.js:166-167 | a record without an id is left as it is |
| Features.UpdatedRecordSpec | app/js/utils/features.js:164-200 | a record with an id gets notes only when its tool is in memory, `best_in` from the local star or else the registry flag, no legacy spelling, and `installed` from the local map or else the registry |
| Features.UpdatedRecordKeepsOthers | app/js/utils/features.js:164-200 | every other property of the record is kept |
| Features.ExportedFacts | app/js/utils/features.js:164-200 | an exported record already holds what a second export would write |
| Features.UpdatedRecordIdempotent | app/js/utils/features.js:164-200 | exporting an exported record again changes nothing |
| Features.ToggledStarExported | app/js/utils/features.js:59-70 | a star toggled for a record's id is what the next export writes as its `best_in` |
| LegacyFeatures.StarMap.constructor | app/js/features.js:18-24 | the map starts as the stored one |
| LegacyFeatures.StarMap.Toggle | app/js/features.js:33-38 | the id's flag becomes the truthiness of the value, for any id (a missing one under "undefined"), and the map is returned |
| LegacyFeatures.UpdateRegistryRecords | app/js/features.js:57-86 | the in-place loop replaces every record with its older updated record |
| LegacyFeatures.Serialize | app/js/features.js:46-54 | no output without a registry; otherwise the updated records of a clone, the registry itself untouched |
| LegacyFeatures.AgreesWithCurrent | app/js/features.js:57-86 | the older export writes what the current one writes except `installed`, which it leaves as it was |
| LegacyFeatures.BestInBoolean | app/js/features.js:74-84 | the older `best_in` is the local star, else the registry flag, and no legacy spelling is left |
| ToolsLoader.PositionsAtSpec | app/js/tools-loader.js:28-41 | a position is in the bucket list of a path exactly when it is one of the first `n` tools and that tool's joined `category_path` is the path, and the list is strictly increasing |
| ToolsLoader.BucketsSpec | app/js/tools-loader.js:28-41 | the index holds a path exactly when some tool has it, and then exactly those tools' positions in list order |
| ToolsLoader.GatherPositions | app/js/tools-loader.js:43-50 | the tools at a bucket's positions are exactly the tools whose path is that bucket, in list order |
| ToolsLoader.BucketsOnlyPaths | app/js/tools-loader.js:28-41 | two tool lists whose tools agree on their paths build the same index |
| ToolsLoader.FilteredMembers | app/js/tools-loader.js:58-67 | the filter keeps exactly the tools matching the query |
| ToolsLoader.FilteredAppend | app/js/tools-loader.js:58-67 | the filter keeps list order: filtering a concatenation filters each part |
| ToolsLoader.BlankIffSpaces | app/js/tools-loader.js:53-55 | a query is blank after `trim()` exactly when it is all whitespace |
| ToolsLoader.LowerKeepsSpaces | app/js/tools-loader.js:53-57 | lower-casing a query neither makes nor removes a blank one |
| ToolsLoader.LowerIdempotent | app/js/tools-loader.js:57 | lower-casing twice is lower-casing once |
| ToolsLoader.QueryKey | app/js/tools-loader.js:52-57 | no search term exactly when the trimmed query is empty |
| ToolsLoader.SearchIgnoresQueryCase | app/js/tools-loader.js:52-68 | the search depends on the query only up to case |
| ToolsLoader.FirstWithId | app/js/tools-loader.js:71 | the first position whose tool has the id, or the length when none has |
| ToolsLoader.FirstWithIdUnique | app/js/tools-loader.js:71 | the first position with the id is the only position meeting that contract |
| ToolsLoader.NoteKeepsPath | app/js/tools-loader.js:70-77 | setting a note never moves a tool to another bucket |
| ToolsLoader.Loader.constructor | app/js/tools-loader.js:6-9 | no tools and an empty index |
| ToolsLoader.Loader.Load | app/js/tools-loader.js:11-26 | a failed fetch or parse returns no tools and changes nothing; otherwise the parsed array, or no tools for a non-array, and the index rebuilt over it |
| ToolsLoader.Loader.IndexToolsByPath | app/js/tools-loader.js:28-41 | the tools are unchanged and the index is the bucket map of the whole list, built from empty |
| ToolsLoader.Loader.GetToolsByPath | app/js/tools-loader.js:43-50 | every tool for a missing or empty path; otherwise exactly the tools of that path, in list order |
| ToolsLoader.Loader.SearchTools | app/js/tools-loader.js:52-68 | every tool for a blank query; otherwise exactly the tools matching the lower-cased query, in list order |
| ToolsLoader.Loader.UpdateToolNote | app/js/tools-loader.js:70-77 | the first tool with the id gets the note and nothing else changes; the result is whether there was one; the index stays valid |
| AiConfig.Convert | app/js/ai/config.js:114-120 | `true` and `false` by name, a number for a numeric text, otherwise the text |
| AiConfig.KeyValueSplit | app/js/ai/config.js:109-110 | the key is the text before the first `=` and the value the rest, so key, `=` and value rebuild the line; a line without `=` is all key |
| AiConfig.ParseLineSpec | app/js/ai/config.js:102-112 | blank lines and comments set nothing; a line that sets something has a non-empty key, a `=` and a non-empty trimmed value |
| AiConfig.StepOn | app/js/ai/config.js:122-124 | one line keeps the key set, sets the key it names when that key is known, and leaves every other key |
| AiConfig.AppliedKeys | app/js/ai/config.js:98-125 | parsing a file never adds or removes a setting |
| AiConfig.AppliedUnset | app/js/ai/config.js:98-125 | a setting no line sets keeps its value |
| AiConfig.AppliedLastWins | app/js/ai/config.js:98-125 | the last line that sets a known key decides its value |
| AiConfig.Config.constructor | app/js/ai/config.js:11-17 | the settings start at their five defaults |
| AiConfig.Config.ParseEnvFile | app/js/ai/config.js:98-125 | the settings after the loop are every line of the text applied in order, with the same keys |
| AiConfig.Config.Get | app/js/ai/config.js:345-347 | a value exactly for a known key, and then that setting |
| AiConfig.Config.GetAll | app/js/ai/config.js:349-351 | a copy of every setting |
| AiConfig.Config.Set | app/js/ai/config.js:353-360 | a known key gets the value; an unknown key changes nothing |
| Embeddings.StripHtml | app/js/search_tools/utils/generate-embeddings.js:73-96 | '' for an empty text; otherwise a text with no whitespace at either end and no two whitespace characters in a row |
| Embeddings.TagsGone | app/js/search_tools/utils/generate-embeddings.js:82 | after the tag removal no `<` is followed anywhere by a `>` |
| Embeddings.RewriteDeletes | app/js/search_tools/utils/generate-embeddings.js:82 | removing matches introduces no character that was not in the text |
| Embeddings.LiteralMiss | app/js/search_tools/utils/generate-embeddings.js:85-91 | an entity that does not occur leaves the text as it is |
| Embeddings.DoubleEscapeDecoded | app/js/search_tools/utils/generate-embeddings.js:85-91 | the entities are decoded in their listed order, so a doubly escaped `&amp;lt;` ends as `<` |
| Embeddings.TrimKeepsNoDouble | app/js/search_tools/utils/generate-embeddings.js:94-95 | trimming a text without double whitespace keeps it so |
| Embeddings.FirstIndex | app/js/search_tools/utils/generate-embeddings.js:113 | the position of the first occurrence of a value in the parts |
| Embeddings.DedupeSpec | app/js/search_tools/utils/generate-embeddings.js:113 | `[...new Set(parts)]` keeps every value exactly once, in the order of first occurrence |
| Embeddings.TruthyOnlyMembers | app/js/search_tools/utils/generate-embeddings.js:114 | the filter keeps exactly the truthy values |
| Embeddings.TruthyOnlySpec | app/js/search_tools/utils/generate-embeddings.js:114 | filtering a duplicate-free ordered list keeps it duplicate-free and in order |
| Embeddings.KeptSpec | app/js/search_tools/utils/generate-embeddings.js:101-117 | the words of the text are exactly the truthy parts, each once, in the order of first occurrence |
| Embeddings.NameFirst | app/js/search_tools/utils/generate-embeddings.js:102-103 | a truthy name is the first word of the text |
| PathNorm.ToolPathClean | build_taxonomy_from_registry.py:9-10 | every segment of a normalised tool path is stripped and non-empty |
| Features.NotesStable | app/js/utils/features.js:172-175 | a record whose notes were already copied keeps them under a second export |

## Left out

- The DOM, CSS, events, timers, `requestAnimationFrame` and `CustomEvent` dispatch are not modelled: they only display state that the model already computes. The same goes for the highlight and navigation builders and the listeners in the core files.
- Network and storage are not modelled. This covers `fetch`, `localStorage`/`sessionStorage`, the Python file reads and writes, the OpenAI calls, `loadEnv` and `loadBackupConfig`, `fetchRegistry`, and the model loading and embedding in `generateEmbeddings`. The texts these would read are parameters.
- JSON and YAML parsing and dumping (`json`, `yaml`, `JSON.parse`, `jsyaml.dump` in `exportRegistry`) are not modelled. A parse is taken as its parsed value or as a failure, and output is the model's value before dumping. Python floats inside YAML are not distinguished from other scalars.
- `localeCompare` (in `compareByName` and the `sortTools` of app/js/app.js) is a parameter assumed to be a total preorder. The actual locale collation is not modelled.
- `normalize('NFD')` in `toolSearchScore` is a parameter: an arbitrary string normaliser.
- `isNaN` and `parseFloat` in `parseEnvFile` are a numeric test and a conversion given as parameters.
- Lower-casing covers ASCII letters only, and strings are sequences of characters. Python's default string order is taken as code-point order, and the UTF-16 order of JavaScript is not distinguished from it.
- `renderMarkdown`, `MarkdownUtils._codeBlocks`/`_headers`/`_inline`/`_links`/`_paragraphs`, `NotesModal._renderMarkdown` and `Icons._getCanonicalKey` are chains of regular expressions whose behaviour is hard to state, and are left out. `MarkdownUtils._escape` and `_lists` are modelled.
- `build_html` in generate_template.py and `load_taxonomy` in utils/sort_tools.py are left out. The first is HTML templating; the second is file reading and a YAML parse whose result is a parameter.
- Floating point is left out. This covers pixel and width arithmetic, badge easing, cosine similarity and the cache hit percentage.
- `performAPISearch`, `handleResetClick`, `handleShowAll` and the breadcrumb's `handleSearchSet` are left out. They are network calls or event plumbing around state updates that are modelled (`handleReset`, `exitSearchMode`, `setTypingMode`).
- Search.BuildSearchContext: the `pathHits` map that `buildSearchContext` fills but never returns is left out.
- Search.BuildSearchContext: a truthy `category_path` that is a non-empty string makes `categoryPath.join` throw. The model treats any `category_path` that is not an array as an empty path, so such a tool is not a hit, and the exception is not modelled.
- Search.FuzzyScoreSpec: a truthy `desc` (or, without it, `description`) that is not a string makes `toLowerCase` throw in `performFuzzySearch`. The model reads it as '' and does not model the exception.
- AiConfig.Config.Get: `config[key]` also returns members inherited from `Object.prototype`, such as `toString` or `constructor`. The model holds only the settings and gives no value for those keys.
- SortTools.GetSortKey: a dictionary `category_path` is modelled without its keys. The source's `tuple(...)` makes a tuple of those keys; the model counts it as no path. Elements of the tool list that are not dictionaries cannot be represented, and in the source they raise at `tool.get`.
- SortTools.RunSort: the crash on tool-list elements that are not dictionaries is not modelled, since the model's tools are all dictionaries.
- ScriptPaths.DecodeEncode: `decodeURIComponent` throws a `URIError` on a malformed escape, and on a well-formed escape of an overlong UTF-8 sequence. The model's decoder keeps malformed text as it is and decodes overlong sequences. Only keys the model itself escapes are decoded in the proofs.
- Object identity is not modelled: tools and records are values. The exception is ToolsLoader, where the buckets hold positions in the tool list, so a note update is seen through the index as it is through shared objects.
- ToolsLoader.Loader.UpdateToolNote: `t.id === toolId` is value equality on the model's values, which differs from JavaScript's reference equality only for ids that are objects.
- ToolsLoader.Loader.SearchTools: a truthy `name`, `desc` or `kind` that is not a string, or truthy `caps` or `phases` that are not an array, make `searchTools` throw. The model counts such a field as not matching and does not model the exception. List elements are strings in the model.
- Embeddings.KeptSpec: a truthy `caps`, `phases` or `category_path` that is neither an array nor a string is not iterable and makes `toolToText` throw. The model treats it as empty. A truthy `desc` or `desc_long` that is not a string makes `stripHtml` throw; the model strips '' instead.
- Embeddings.StripHtml: the contract states only the shape of the output: '' for an empty input, trimmed, and no two whitespace characters in a row. It does not say that tags are gone from the output, because decoding `&lt;b&gt;` after the tag rule creates "<b>" again. Embeddings.TagsGone is about the text after the tag rule, before decoding. It also does not state that closing block tags and `<br>`/`<hr>` become spaces; that is a matter of the rewrite rules themselves.
- SidebarState.ResolveSpec: when the path is empty and the empty key is registered, the candidate loop stops at `""` and never tries `Root>`. The contract leaves the chosen key unconstrained in that one case.
- The segments of a path are assumed to hold no '/' and no '>', wherever the code splits and joins keys on those characters. Segments holding them break the prefix invariants, and the lemmas that need it require it.
- Where app/js/sidebar.js repeats a function of the split sidebar modules unchanged, the function is modelled once and LegacySidebar imports it.

## Findings

| source | as written | input that shows it | evidently intended | confidence | as-written member | corrected member |
|---|---|---|---|---|---|---|
| app/js/sidebar/sidebar-constants.js:189 | `formatLabel` replaces every `_` with a space before applying `/^\d+_/`, so that pattern can never match and the number prefix stays | "01_Information_Gathering" gives "01 Information Gathering" | "Information Gathering", as the breadcrumb's `Utils.formatLabel` and `DOMUtils.formatLabel` give | high; not executed | SidebarConstants.FormatLabelKeepsNumber | SidebarConstants.FormatLabelFixed |
| app/script.js:195-222 | `patchRegistryYaml` keeps the text before the first block only when its `join('\n')` is truthy, and a prefix of exactly one empty line joins to "" | "\n- id: x" with an empty notes map gives "- id: x\n" | the leading blank line is kept: "\n- id: x\n" | medium; not executed | ScriptYaml.PatchDropsLeadingBlankLine | ScriptYaml.PatchFixedPreserves |
