# SFCC cartridge overrides: a verified model

A Salesforce Commerce Cloud storefront is a stack of *cartridges*. The cartridge path `a:b:c` lists them by precedence: a file in `a` overrides the file at the same relative path in `b` and `c`. The VS Code extension modelled here finds the files of every cartridge in the workspace and groups them by relative path. It counts, for each cartridge, folder and file, how many overrides it has, with other cartridges *above* and *below* it. It shows everything as a tree, one root per cartridge of the path. A second panel lists, for the file picked in that tree, every cartridge that provides it. For a controller it adds the routes each cartridge registers; for a `.properties` resource bundle, the keys more than one cartridge defines.

The repository holds two generations of this engine, and the model covers both:

- **Current** (`extension/`):
  - `constants.js`: the cartridge regular expression and the cache-key replacement (module `Constants`).
  - `util.js`: the file-type classifier, the icon paths and the log-line format (module `Util`).
  - `Cartridges.js`:
    - the cartridge path and the grouping of files (`OverrideIndex`);
    - the two counting schemes and the cache (`OverrideIndex`);
    - the segment trie built per cartridge (`Trie`, `TreeItems`, `CartridgeTree`);
    - the class holding it all (`CurrentCartridges`).
  - `CartridgesProvider.js`: the tree lookup (`CartridgesView`).
  - `CartridgeOverridesProvider.js`: the overrides panel (`OverridesPanel`) and its two text scanners (`RouteScan`, `PropertiesScan`). The listings come from `PanelTrees`.
- **Older** (repository root):
  - `sfccCartridges.js` (`LegacyGeneration`, with the older counting in `OverrideIndex`). As written, this class cannot run: it calls `util.debug`, which the older `util.js` does not export. `LegacyGeneration` states that failure, and it models the rest of the class as it would behave with a `debug` that only logs.
  - `sfccCartridgesView.js`, the older tree provider (`CartridgesView.LegacyViewProvider`).
  - `CartridgeOverridesProvider.js` (`LegacyOverridesPanel`). No caller in the older generation loads this file.
  - The directory mapping of `util.js` (`CartridgeDirs`).

`Strings` and `Dicts` model the JavaScript primitives the code relies on. `Strings` covers `indexOf`, `includes`, `split`/`join`, `replace` with a string pattern, `trim`, and sorting by `localeCompare`. `Dicts` models a plain object used as a dictionary, whose `Object.keys` lists keys in the order they were first assigned; it treats every key as an ordinary own property (see the `__proto__` and integer-like keys under "## Left out"). `Wrappers` holds `Option`.

The form follows the source:

- Pure code becomes functions and lemmas in Dafny.
- Code that updates fields becomes classes with `modifies` clauses:
  - `Cartridges` with its caches;
  - `CartridgesProvider` and `LegacyViewProvider`;
  - the two `OverridesProvider` classes with `lastOpened` and `treeData`.
- Loops become methods with invariants, each proved equal to a reference function:
  - grouping, the counting filter and reduce;
  - the trie walk, the route and key scans;
  - the key pruning, the splice-while-filtering;
  - the `getElement` walk and the listing builders.
- The properties are proved about those reference functions.

Documents, file lists, settings and the workspace path are inputs. The asynchronous scans are read as a fold over all the documents' texts, from the last occurrence to the first, as the reversed `forEach` intends.

Some behaviours are modelled as written and stated as lemmas rather than corrected, because they are not failures:

- The panel's guard key confuses some pairs of files (`OverridesPanel.CollidingFileKeepsListing`).
- The cache key merges `a/b.js` with `a.b.js` (`OverrideIndex.CacheKeysCollide`).
- The relative-key test is a substring test, so a folder's count takes in a sibling folder whose name extends it (`OverrideIndex.SiblingFolderCounts`).
- The splice performed inside the filter skips the directory right after a match (`CartridgeDirs.CloneFilterSkips`). The first match, the only one used for the path, is still the first directory of that name, and a cartridge listed twice with a single directory is reported missing the second time (`CartridgeDirs.DuplicateCartridgeMissing`).
- The two generations count `above`/`below` differently (`OverrideIndex.GenerationsDiffer`).

## Model

| member | source | states |
|---|---|---|
| Constants.MatchWithBaseSound | extension/constants.js:5 | a match attempted with a fixed base length is a decomposition of the whole path into base, `/cartridges/`, name, `/cartridge/`, remainder with a base of that length |
| Constants.MatchWithBaseComplete | extension/constants.js:5 | every decomposition of the path is found by the attempt at its base length |
| Constants.MatchFrom | extension/constants.js:5 | the backtracking search over base lengths `b` down to 1 finds a decomposition whenever one with a base of at most `b` exists, and the one it finds has the longest such base |
| Constants.MatchCartridge | extension/constants.js:5 | `path.match(REGEXP_CARTRIDGE)`: a result reassembles to the input with a non-empty line-terminator-free base and remainder and a separator-free cartridge name; no result exactly when no such decomposition exists; the greedy base is the longest possible |
| Constants.ShortPathUnmatched | extension/constants.js:5 | a path of at most 25 characters never matches |
| Constants.ReplaceSeparators | extension/constants.js:6 | `replace(REGEXP_PATH, '-')`: length kept, each separator and each dot becomes `-`, every other character kept in place |
| Constants.ReplaceSeparatorsClean | extension/constants.js:6 | neither a separator nor a dot remains after the replacement |
| Util.GetType | extension/util.js:58-70 | `getType`: controller iff `/controllers/` occurs; model iff it does not and `/models/` does; script and template likewise in that order; unknown iff none of the four occurs |
| Util.ControllerAtAnyDepth | extension/util.js:59-60 | `/controllers/` anywhere in the path, at any depth, makes a controller |
| Util.TemplateLosesToScript | extension/util.js:63-66 | with `/scripts/` and `/templates/` both present (and no earlier marker) the type is script |
| Util.GetIcon | extension/util.js:46-51 | a positive count names `<dir>/resources/light/<type>-active.svg` and `<dir>/resources/dark/<type>-active.svg`, any other count `<type>.svg` in the same two folders, and the light path is the `-active` one exactly when the count is positive |
| Util.IconFileActive | extension/util.js:48-49 | the file name is `<type>-active.svg` iff the count is positive and `<type>.svg` iff it is not |
| Util.GetIconThemes | extension/util.js:46-51 | the light and dark paths differ only in the theme folder |
| Util.LogLine | extension/util.js:16-38 | the logged line ends with the message |
| Util.LogLinePrefix | extension/util.js:17-37 | a non-empty type gives a newline, the type's icon, then the message; no type or an empty type gives just the message |
| Util.LogIconKnown | extension/util.js:25-34 | exactly `debug`, `error`, `success` and `warn` get an icon, each a symbol followed by a space |
| OverrideIndex.PositionOf | extension/Cartridges.js:275 | `indexOf`: -1 exactly when absent, otherwise an index holding the value with no earlier one |
| OverrideIndex.InsertionPoint | extension/Cartridges.js:372-381 | the stable sort after a push places the new occurrence after every occurrence whose position is not larger and before those whose position is larger |
| OverrideIndex.InsertByPositionShape | extension/Cartridges.js:372-381 | push then stable sort of a sorted group inserts the new occurrence at the insertion point and moves nothing else |
| OverrideIndex.InsertByPositionSorted | extension/Cartridges.js:372-381 | the group stays sorted by position and holds the old occurrences plus the new one |
| OverrideIndex.AddOccurrence | extension/Cartridges.js:359-381 | filing under a new relative path appends the key and creates the group; an existing group grows by exactly the occurrence; every other group is unchanged; all groups stay sorted |
| OverrideIndex.GroupFiles | extension/Cartridges.js:346-383 | the grouping loop keeps every group sorted by cartridge position |
| OverrideIndex.GroupFilesContents | extension/Cartridges.js:346-383 | a group exists exactly for the relative paths some matching file has, and it is a sorted permutation of the occurrences of those files |
| OverrideIndex.GroupAll | extension/Cartridges.js:346-383 | the `forEach` loop over the files builds exactly the grouping (also sfccCartridges.js:149-186, without resource URIs) |
| OverrideIndex.GroupFilesSkips | extension/Cartridges.js:351 | a file that does not match REGEXP_CARTRIDGE leaves the groups unchanged |
| OverrideIndex.CountRivals | extension/Cartridges.js:301-304 | the filter counts the occurrences of other cartridges on the requested side of the position |
| OverrideIndex.MatchedKeys | extension/Cartridges.js:278-292 | only keys of the groups are pushed onto `matches` |
| OverrideIndex.KeysSpreadRepeat | extension/Cartridges.js:299-305 | summing `n` more copies of a key adds `n` times that group's rivals |
| OverrideIndex.KeysLegacySpreadRepeat | sfccCartridges.js:223-233 | in the older sum, `n` more copies of a key add `n` when the group has a rival on that side and nothing otherwise |
| OverrideIndex.MatchedKeysCounts | extension/Cartridges.js:278-305 | the number of pushed keys is `total`; summing over them gives the per-group `above`/`below` of each generation |
| OverrideIndex.CollectGroup | extension/Cartridges.js:280-290 | the inner filter pushes the group's key once per match and adds as many to `total`; a group of one file contributes nothing |
| OverrideIndex.CollectMatches | extension/Cartridges.js:272-292 | the reduce over all groups gives exactly the reference `matches`, with `total` its length |
| OverrideIndex.CountOverrides | extension/Cartridges.js:272-312 | current `getOverrides` without the cache: `above`/`below` add every rival of every match, `total` counts the matches |
| OverrideIndex.LegacyCountOverrides | sfccCartridges.js:194-240 | older `getOverrides`: `above`/`below` add one per match whose group has a rival on that side |
| OverrideIndex.SingletonsNeverCount | extension/Cartridges.js:282 | groups of a single file never contribute to any count, in either generation (also sfccCartridges.js:205-207) |
| OverrideIndex.LegacyBoundedByTotal | sfccCartridges.js:202-233 | in the older generation `above` and `below` never exceed `total` |
| OverrideIndex.GenerationsAgreeOnPresence | sfccCartridges.js:223-233 | the older count never exceeds the current one (extension/Cartridges.js:299-305), and they are zero together |
| OverrideIndex.GenerationsDiffer | extension/Cartridges.js:301 | a match with two cartridges above it counts 2 in the current generation and 1 in the older one (sfccCartridges.js:225-227) |
| OverrideIndex.CacheKey | extension/Cartridges.js:264 | the key is the cartridge followed by the relative key of the same length in which no separator or dot remains |
| OverrideIndex.CacheKeysCollide | extension/Cartridges.js:264-269 | relative keys that differ only in separators versus dots share one cache key, so the second lookup is served the first's counts |
| OverrideIndex.CacheKeyFolderVersusDot | extension/Cartridges.js:264 | `a/b.js` and `a.b.js` of one cartridge share a cache key |
| OverrideIndex.SiblingFolderCounts | extension/Cartridges.js:282 | the relative key is matched as a substring, so a folder's count takes in a sibling folder whose name extends it |
| TreeItems.LabelsAboveThenBelow | extension/Cartridges.js:476-500 | description and tooltip are null exactly when both counts are 0; otherwise the `above` part comes before the `below` part, and each tooltip part is plural exactly when its count exceeds 1 |
| TreeItems.ItemInsertionPoint | extension/Cartridges.js:503-522 | push followed by the stable sibling sort puts the new item after every sibling the comparator does not place behind it |
| TreeItems.InsertItemShape | extension/Cartridges.js:503-522 | the new item lands at the insertion point and the other siblings keep their order |
| TreeItems.GreaterIsSiblingLess | extension/Cartridges.js:508-522 | on folders and files the comparator is the order "folders before files, then by name" below the first level and "by name" on it |
| TreeItems.SiblingLessTransitive | extension/Cartridges.js:508-522 | that order is transitive |
| TreeItems.SiblingLessTotal | extension/Cartridges.js:508-522 | that order relates any two siblings of different names |
| TreeItems.InsertItemMembers | extension/Cartridges.js:503-504 | the insertion keeps every sibling and adds exactly the new item |
| TreeItems.InsertItemSorted | extension/Cartridges.js:503-522 | inserting a folder or file with a fresh name into sorted siblings keeps them sorted, folders before files and then by name |
| Trie.LegacyGetIcon | sfccCartridges.js:412-417 | a positive count names `<dir>/resources/light/<type>-override.svg` and `<dir>/resources/dark/<type>-override.svg`, any other count `<type>.svg` in the same two folders, and the light path is the `-override` one exactly when the count is positive |
| Trie.ResolveCache | extension/Cartridges.js:262-319 | a cache hit returns the stored counts and leaves the cache unchanged; a miss returns fresh counts and stores them exactly when writes are not skipped; no entry is ever changed or removed; the older generation (sfccCartridges.js:194-240) always counts afresh |
| Trie.ResolveTwice | extension/Cartridges.js:266-269 | asking again after a stored answer gives the same counts and leaves the cache as it was |
| Trie.ResolveCollision | extension/Cartridges.js:264-269 | once one relative key is stored, a colliding key is answered with its counts |
| Trie.CtxOf | extension/Cartridges.js:416 | a matched file's relative path splits into at least one segment |
| Trie.RelativeKeyOfFile | extension/Cartridges.js:432 | the key built for a file's last segment is the file's own path |
| Trie.NewNode | extension/Cartridges.js:435-505 | a new node is named after its segment with context `<first segment>`, `folder` or `file`; its counts and the cache after them come from one `getOverrides` call; it is attached exactly when overrides-only is off or its total is positive (also sfccCartridges.js:293-368) |
| Trie.FileNodeCommand | extension/Cartridges.js:456-474 | a file node has no icon, the workspace-prefixed resource, `vscode.open` on it and panel data in the current generation; in the older one `viewOverrides` exactly when its total is positive and no panel data (sfccCartridges.js:315-338) |
| Trie.FindKid | extension/Cartridges.js:435 | `obj[name]`: the index of a child with the name, or -1 exactly when no child has it |
| Trie.InsertWellFormed | extension/Cartridges.js:431-526 | walking one file keeps the trie well formed: sibling names distinct (a node is created at most once per parent), each node attached exactly as overrides-only allows, folders and files only below the first level |
| Trie.InsertHasPath | extension/Cartridges.js:431-526 | after the walk the file's whole segment path exists in the trie |
| Trie.InsertExisting | extension/Cartridges.js:435 | a file whose path is already present changes nothing and looks up no counts |
| Trie.ChildrenMembers | extension/Cartridges.js:503-505 | a node's visible `treeData` holds the tree item of every attached child and nothing else |
| Trie.ChildrenShown | extension/Cartridges.js:503-522 | the visible lists of a well-formed trie are sorted siblings (folders before files, then by name) at every depth, each item present only if overrides-only is off or its total is positive |
| Trie.ShownInsert | extension/Cartridges.js:503-522 | inserting an admissible shown item into a shown list keeps it shown |
| CartridgeTree.StripWorkspace | extension/Cartridges.js:333 | one path per found file, in order, each with its first occurrence of the workspace path removed |
| CartridgeTree.PreparedSorted | extension/Cartridges.js:331-340 | a fresh file list is sorted and is a permutation of the stripped paths (also sfccCartridges.js:141-146) |
| CartridgeTree.CartridgeFiles | extension/Cartridges.js:388 | the files of one cartridge are exactly those containing `cartridges/<name>/cartridge` |
| CartridgeTree.FileStep | extension/Cartridges.js:406-531 | one file step keeps the root entries a valid dictionary |
| CartridgeTree.FilesFoldSnoc | extension/Cartridges.js:406 | the fold over the cartridge's files takes one step per file, in list order |
| CartridgeTree.SetTrees | extension/Cartridges.js:528-531 | every entry given this iteration's tree shows it; every other entry and the key order are unchanged |
| CartridgeTree.CartridgeStep | extension/Cartridges.js:386-533 | one cartridge-path iteration keeps the root entries a valid dictionary |
| CartridgeTree.ProcessCartridges | extension/Cartridges.js:386-539 | the whole cartridge-path loop yields a valid dictionary of root entries |
| CartridgeTree.ProcessCartridgesSnoc | extension/Cartridges.js:386 | the loop takes one iteration per cartridge of the path, in order |
| CartridgeTree.CartridgeWithoutFiles | extension/Cartridges.js:390-397 | a cartridge without files gets `{missing: true, overrides: null, tree: []}` exactly when overrides-only is off and it has no entry; otherwise nothing changes (also sfccCartridges.js:247-254) |
| CartridgeTree.FileStepRoot | extension/Cartridges.js:418-428 | a file's cartridge gets an entry with its base counts exactly when overrides-only is off or the total is positive, and that entry then receives this iteration's tree (also sfccCartridges.js:276-286) |
| CartridgeTree.FilesFoldKeeps | extension/Cartridges.js:419 | an entry once created keeps its missing flag and its counts |
| CartridgeTree.FileStepInvariant | extension/Cartridges.js:406-531 | a file step keeps the trie well formed and every entry's tree shown |
| CartridgeTree.FilesFoldInvariant | extension/Cartridges.js:406-533 | so does the whole fold over a cartridge's files |
| CartridgeTree.ProcessCartridgesShown | extension/Cartridges.js:386-539 | after the loop every entry shows a tree sorted folders first then by name, with nothing of total 0 under overrides-only (also sfccCartridges.js:243-397) |
| CartridgeTree.SetTreesShown | extension/Cartridges.js:528-531 | assigning a shown tree keeps every entry's tree shown |
| CartridgeTree.RootItem | extension/Cartridges.js:68-122 | a root item is a `folder` named after its cartridge showing the entry's tree; it has a command exactly when the cartridge is missing, and then the missing command and labels; otherwise the labels of its counts (also sfccCartridges.js:38-92) |
| CartridgeTree.GenerateRoots | extension/Cartridges.js:62-127 | the `forEach` loop builds exactly the reference list of root items (also sfccCartridges.js:32-97) |
| CartridgeTree.RootItemsOrder | extension/Cartridges.js:67-76 | the roots follow the cartridge path, one per name that has an entry, each built from that entry |
| CartridgeTree.PresentMembers | extension/Cartridges.js:76 | exactly the names of the path that have an entry appear |
| CurrentCartridges.WithoutIgnored | extension/Cartridges.js:148-152 | exactly the entries other than `modules` are kept |
| CurrentCartridges.WithoutIgnoredKeeps | extension/Cartridges.js:152 | with no `modules` entry the list is kept as it is, order included |
| CurrentCartridges.WithoutIgnoredAppend | extension/Cartridges.js:152 | the filter distributes over concatenation, so the kept entries stay in order |
| CurrentCartridges.GetCartridgesPathSplits | extension/Cartridges.js:140-153 | the path entries hold no `:` and are not `modules`; when nothing was dropped, joining them with `:` gives the setting back |
| CurrentCartridges.Cartridges.constructor | extension/Cartridges.js:18-39 | the path comes from the setting (empty for an absent or empty one), the caches are those persisted, the tree is empty |
| CurrentCartridges.Cartridges.RunEnv | extension/Cartridges.js:346-383 | the environment of a run uses the current generation's counting over the grouped list |
| CurrentCartridges.Cartridges.GetOverrides | extension/Cartridges.js:262-319 | the counts and the counts cache after the call are exactly the cached lookup |
| CurrentCartridges.Cartridges.PrepareFiles | extension/Cartridges.js:328-343 | a fresh list is stripped, sorted and stored under `workspaceFiles`; with writes skipped the list given is used and nothing is stored |
| CurrentCartridges.Cartridges.ProcessFile | extension/Cartridges.js:406-532 | one file updates the root entries, the trie and the counts cache as the file step says |
| CurrentCartridges.Cartridges.ProcessCartridge | extension/Cartridges.js:386-534 | one cartridge iteration: the missing entry, the fold over its files, the tree handed to its entries |
| CurrentCartridges.Cartridges.ProcessAll | extension/Cartridges.js:386-534 | the loop over the cartridge path, in order |
| CurrentCartridges.Cartridges.ProcessFiles | extension/Cartridges.js:327-540 | `processFiles`: the file-list cache and the counts cache after it, and the entries of the cartridge-path loop over the prepared list |
| CurrentCartridges.Cartridges.Reload | extension/Cartridges.js:542-555 | a stored list is reused with cache writes skipped, otherwise the found files are prepared and stored; the tree becomes the root items of the entries (extension/Cartridges.js:576-579) |
| CurrentCartridges.Cartridges.Refresh | extension/Cartridges.js:561-593 | without the cache both caches are flushed first; then as `Reload` |
| CurrentCartridges.StoredListReused | extension/Cartridges.js:340-345 | after a refresh without a stored list the stored list is the prepared one, sorted, for the next cached refresh |
| LegacyGeneration.LegacyCartridgesPathAgrees | sfccCartridges.js:103-116 | as written, reading the path fails for every setting (`util.debug` at line 109, which util.js:132-137 does not export); with a `debug` that returns, it fails only for an absent setting (`split` at line 106), an empty setting gives `[""]`, and any other setting the current generation's path (extension/Cartridges.js:140-153) |
| LegacyGeneration.DebugCallsThrow | sfccCartridges.js:13-25 | as written, construction fails for every setting, the listing fails before `findFiles` (lines 131-135), and a path naming a missing cartridge fails `generateTree` (line 80) |
| LegacyGeneration.GenerateTreeCorrects | sfccCartridges.js:32-97 | `generateTree` as written fails exactly when some cartridge of the path has a missing entry, and otherwise gives the root items in path order; with a `debug` that returns it always gives them |
| LegacyGeneration.LegacyEnv | sfccCartridges.js:135-186 | a run of the older generation counts the older way, over groups without resource URIs, with nothing cached |
| LegacyGeneration.LegacyResolveKeepsCache | sfccCartridges.js:194-240 | the older `getOverrides` ignores any cache and never writes one |
| LegacyGeneration.LegacyInsertKeepsCache | sfccCartridges.js:289-389 | so a trie walk of the older generation leaves the cache unchanged |
| LegacyGeneration.ListCartridgesCorrects | sfccCartridges.js:149-155 | the listing as written fails exactly when some prepared file is outside the pattern (`fileParts.length` on `null`), and where it succeeds it agrees with the corrected listing |
| LegacyGeneration.UnmatchedFileSkipped | extension/Cartridges.js:351 | in the corrected step a file outside the pattern changes nothing |
| LegacyGeneration.PreparedSingle | sfccCartridges.js:141-146 | a single file under the workspace root is stripped to its relative path |
| LegacyGeneration.MarkedFile | sfccCartridges.js:245 | a path containing `cartridges/<c>/cartridge` is a file of cartridge `c` |
| LegacyGeneration.RootCartridgesFolderFails | sfccCartridges.js:151-155 | with the `cartridges` folder at the workspace root the stripped path starts with the separator, `(.+)` has nothing to match and the older listing fails, while the corrected listing yields no entry |
| LegacyGeneration.UnmatchedOnlyFile | sfccCartridges.js:245-269 | a cartridge whose only file is outside the pattern gets no entry, missing or not, in the corrected listing |
| LegacyGeneration.LegacyCartridges.constructor | sfccCartridges.js:13-25 | the path comes from a present setting as `getCartridgesPath` computes it once `util.debug` returns, the tree is empty |
| LegacyGeneration.LegacyCartridges.GetOverrides | sfccCartridges.js:194-240 | the counts are the older lookup under any cache, which stays as it was |
| LegacyGeneration.LegacyCartridges.ProcessFile | sfccCartridges.js:263-395 | one file updates the root entries and the trie as the file step says |
| LegacyGeneration.LegacyCartridges.ProcessCartridge | sfccCartridges.js:243-397 | one cartridge iteration: the missing entry, the fold over its files, the tree handed to its entries |
| LegacyGeneration.LegacyCartridges.ProcessAll | sfccCartridges.js:243-397 | the loop over the cartridge path, in order |
| LegacyGeneration.LegacyCartridges.GetCartridges | sfccCartridges.js:135-403 | the corrected listing over the stripped, sorted file list |
| LegacyGeneration.LegacyCartridges.Refresh | sfccCartridges.js:422-441 | the tree becomes the root items, in cartridge-path order, of the corrected listing (sfccCartridges.js:32-97) |
| CartridgesView.FindItem | extension/CartridgesProvider.js:63-65 | `find` by name: the first item with the name, or -1 exactly when none has it |
| CartridgesView.TreePath | extension/CartridgesProvider.js:57-60 | the names to follow are the cartridge, then the `/`-split relative path |
| CartridgesView.ElementCorrects | extension/CartridgesProvider.js:48-81 | `getElement` as written throws exactly for a file outside the pattern (`parts.length` on `null`) or before the first refresh (`find` on `null`), and otherwise returns the corrected lookup's chain |
| CartridgesView.ControllerOutsideCartridgeThrows | extension/CartridgesProvider.js:52-55 | `/controllers/A.js`, a controller by `getType` that the editor hook (extension/index.js:69-78) hands over, makes the lookup as written throw; the corrected one finds nothing |
| CartridgesView.ChainFollowsNames | extension/CartridgesProvider.js:63-77 | the k-th found item is named `tree[k]`, the first is a root item, each next one is a child of the one before, and the chain is never longer than `tree` |
| CartridgesView.ChainFirstMatchLongest | extension/CartridgesProvider.js:63-77 | every level takes the first child with the next name, and the walk stops only where no child has the next name or the names ran out |
| CartridgesView.NoRootNoElement | extension/CartridgesProvider.js:63-68 | nothing is found when no root item has the cartridge's name |
| CartridgesView.CartridgesProvider.constructor | extension/CartridgesProvider.js:15-25 | no data before the first refresh |
| CartridgesView.CartridgesProvider.GetChildren | extension/CartridgesProvider.js:32-41 | an item's own children, or the root list when no item is given |
| CartridgesView.CartridgesProvider.Refresh | extension/CartridgesProvider.js:118-121 | the root list is replaced by the argument |
| CartridgesView.CartridgesProvider.GetElement | extension/CartridgesProvider.js:48-81 | the `while` walk collects exactly the corrected lookup's chain |
| CartridgesView.LegacyViewProvider.constructor | sfccCartridgesView.js:7-12 | the root list is the one given, absent when none is, and auto-refresh is on |
| CartridgesView.LegacyViewProvider.GetChildren | sfccCartridgesView.js:14-21 | an item's own children, or the root list when no item is given |
| CartridgesView.LegacyViewProvider.Update | sfccCartridgesView.js:37-40 | the root list is replaced by the argument |
| CartridgesView.LegacyActivationRoots | extension.js:15 | the older activation builds the provider without a tree, so its first `getChildren()` yields no root list |
| RouteScan.VerbNamesDistinct | extension/CartridgeOverridesProvider.js:100-101 | the six verb keys of the route table name six different verbs |
| RouteScan.QuoteFrom | extension/CartridgeOverridesProvider.js:87 | the index found is the first quote at or after the start, or -1 when the rest of the text holds no quote |
| RouteScan.MatchRouteAt | extension/CartridgeOverridesProvider.js:87-94 | a match at an index ends strictly after it and inside the text |
| RouteScan.MatchRouteAtIsRegex | extension/CartridgeOverridesProvider.js:87-94 | what is found at an index is a match of `server\.<verb>\(([^'"]+)?['"]([^'"]+)['"]` there, and every match of the pattern there yields the same group 2 and end |
| RouteScan.MatchNameClean | extension/CartridgeOverridesProvider.js:98 | the route name of a match (group 2) is non-empty and holds no quote |
| RouteScan.FindRoutesNames | extension/CartridgeOverridesProvider.js:87-98 | every name `matchAll` yields is non-empty and quote-free |
| RouteScan.FindRoutesNeedPrefix | extension/CartridgeOverridesProvider.js:87-94 | a text in which `server.<verb>(` never occurs yields no route of that verb |
| RouteScan.LineNumberFrom | extension/CartridgeOverridesProvider.js:108-120 | a line number found from line `i` on is 1-based and lies after `i` and inside the file |
| RouteScan.LineNumberReports | extension/CartridgeOverridesProvider.js:111-119 | the line found holds `server.<verb>` and the name is on it or on the next line |
| RouteScan.LineNumberFirst | extension/CartridgeOverridesProvider.js:111-119 | no earlier line qualifies: the `break` stops at the first one |
| RouteScan.LineNumberNone | extension/CartridgeOverridesProvider.js:108-120 | the line number stays `null` exactly when no line qualifies |
| RouteScan.LineNumberCorrects | extension/CartridgeOverridesProvider.js:111-119 | the loop as written throws exactly when no line qualifies and the last line holds `server.<verb>` without the name; otherwise it gives the corrected line number |
| RouteScan.LastLineThrows | extension/CartridgeOverridesProvider.js:84-119 | on the controller text `server.get(`, blank line, `'Show')`, `server.get`, the pattern finds the route `Show` (its first name), the line loop as written throws on the last line, and the corrected search reports no line |
| RouteScan.TestLine | extension/CartridgeOverridesProvider.js:112-116 | one line's test is true exactly when that line qualifies |
| RouteScan.SearchLineNumber | extension/CartridgeOverridesProvider.js:108-120 | the `for` loop with its `break` returns the first qualifying line's 1-based number, or none |
| RouteScan.VerbIndex | extension/CartridgeOverridesProvider.js:96-316 | each verb has its own place among the six scans, which run get, post, use, append, prepend, replace |
| RouteScan.ScanVerbsContents | extension/CartridgeOverridesProvider.js:96-316 | the first `k` scans of a file add its routes of verb `v` under its cartridge only when `v` is among those `k`, and touch no other list |
| RouteScan.ScanFileContents | extension/CartridgeOverridesProvider.js:96-316 | the six scans of a file append the file's routes of each verb, in text order, under that verb and the file's cartridge, and change no other list |
| RouteScan.ScanAllContents | extension/CartridgeOverridesProvider.js:78-319 | after the reversed walk over the overrides, `routes[verb][cartridge]` holds that verb's routes of each file of the cartridge, the last override first, each in text order |
| RouteScan.ScanAllWellFormed | extension/CartridgeOverridesProvider.js:100-106 | the table keeps only verb-name keys, and no list it creates stays empty |
| RouteScan.SingleFileRoutes | extension/CartridgeOverridesProvider.js:78-319 | a cartridge with just one file among the overrides gets exactly the records of that file's routes of each verb, in text order |
| RouteScan.NoOtherFile | extension/CartridgeOverridesProvider.js:104-106 | a cartridge none of whose files was scanned has no routes |
| RouteScan.PushRoutes | extension/CartridgeOverridesProvider.js:96-131 | one `forEach` over the matches pushes each route's record, name, file, position, verb, line number and `server.<verb>('<name>')` tooltip, in order |
| RouteScan.ScanDocument | extension/CartridgeOverridesProvider.js:80-316 | the body over one document is the six scans in source order |
| RouteScan.CheckControllers | extension/CartridgeOverridesProvider.js:75-320 | `checkControllers()` returns the table of the reversed walk over every document |
| PropertiesScan.PropKeyBeforeFirstEquals | extension/CartridgeOverridesProvider.js:420-423 | a line yields a key exactly when it holds a `=`, and the key is the trimmed text before the first `=`, free of `=` |
| PropertiesScan.TrimInfix | extension/CartridgeOverridesProvider.js:423 | trimming adds no character, so a key cut before the first `=` has no `=` |
| PropertiesScan.LineKeys | extension/CartridgeOverridesProvider.js:418-423 | one entry per line, each the key that line yields or none |
| PropertiesScan.KeyRecordsSound | extension/CartridgeOverridesProvider.js:433-438 | every record of a key comes from a line that defines the key, names the key and carries its 1-based line number, file and position |
| PropertiesScan.KeyRecordsComplete | extension/CartridgeOverridesProvider.js:418-440 | every line that defines a key has its record |
| PropertiesScan.KeyRecordsIncreasing | extension/CartridgeOverridesProvider.js:418-440 | the records of a key are in strictly increasing line order |
| PropertiesScan.KeyRecordsFirstDefines | extension/CartridgeOverridesProvider.js:473 | the first record of a key lies on a line of the document that defines it |
| PropertiesScan.KeyRecordsFirstLine | extension/CartridgeOverridesProvider.js:473 | no earlier line defines the key, so the link opens the key's first definition |
| PropertiesScan.ScanLinesContents | extension/CartridgeOverridesProvider.js:418-440 | the line loop appends to `properties[k][c]` the document's records of key `k` when `c` is its cartridge, and nothing otherwise |
| PropertiesScan.ScanPropsContents | extension/CartridgeOverridesProvider.js:410-443 | after the reversed walk, `properties[k][c]` holds the records of `k` of every document of `c`, the last occurrence first |
| PropertiesScan.ScanPropsWellFormed | extension/CartridgeOverridesProvider.js:425-431 | both levels of the table stay valid and no list it creates is empty |
| PropertiesScan.ScanPresence | extension/CartridgeOverridesProvider.js:410-443 | cartridge `c` has an entry under key `k` exactly when one of its documents defines `k`, and that entry is those documents' records |
| PropertiesScan.PrunedKeeps | extension/CartridgeOverridesProvider.js:449-454 | the cleanup keeps exactly the keys that two or more cartridges define, each with its entry unchanged |
| PropertiesScan.PrunedWellFormed | extension/CartridgeOverridesProvider.js:449-454 | the cleaned table is still well formed |
| PropertiesScan.FilterOut | extension/CartridgeOverridesProvider.js:449-454 | a key is left exactly when it was there and is not filtered out |
| PropertiesScan.FilterOutDistinct | extension/CartridgeOverridesProvider.js:449-454 | filtering keeps the keys distinct |
| PropertiesScan.RemoveKeyIsFilterOut | extension/CartridgeOverridesProvider.js:452 | `delete` of one key removes exactly that key from the key order |
| PropertiesScan.PruneStep | extension/CartridgeOverridesProvider.js:449-454 | one step of the cleanup loop keeps its invariant: the keys seen so far that fewer than two cartridges define are deleted and nothing else changed |
| PropertiesScan.PruneProperties | extension/CartridgeOverridesProvider.js:449-454 | the cleanup leaves exactly the keys of two or more cartridges, with their entries and in their order |
| PropertiesScan.ScanDocumentProps | extension/CartridgeOverridesProvider.js:415-440 | the `for` loop over one document's lines adds what the line fold over it adds |
| PropertiesScan.CheckProperties | extension/CartridgeOverridesProvider.js:408-444 | `checkProperties()` returns the table of the reversed walk over every document |
| PanelTrees.GuardKey | extension/CartridgeOverridesProvider.js:34 | the key is the cartridge, `_`, then the file name character by character with every separator and dot turned into `-` |
| PanelTrees.GuardKeyClean | extension/CartridgeOverridesProvider.js:34 | past the cartridge and the `_`, the key holds no separator and no dot |
| PanelTrees.GuardKeyCartridgeCollision | extension/CartridgeOverridesProvider.js:34-37 | cartridge `a_b` with file `n` and cartridge `a` with file `b_n` share the key whenever `b` has no separator or dot |
| PanelTrees.GuardKeySeparatorCollision | extension/CartridgeOverridesProvider.js:34 | `x/y` and `x.y` in one cartridge share the key |
| PanelTrees.Selected | extension/CartridgeOverridesProvider.js:42 | `isSelected` is 1 exactly for the selected cartridge's occurrences and 0 exactly for the others |
| PanelTrees.IconKindsDiffer | extension/util.js:46-51 | icons of two different kinds differ whatever the count, so the type icon is never the `override` icon |
| PanelTrees.ParentIconLast | extension/CartridgeOverridesProvider.js:54 | an entry gets the type icon, not the `override` one, exactly when it is the last occurrence |
| PanelTrees.ParentShape | extension/CartridgeOverridesProvider.js:359-369 | a parent with children is a `folder` holding them and has no command; one without is a `file` that opens its occurrence; both carry its cartridge and index |
| PanelTrees.DefaultTreeListing | extension/CartridgeOverridesProvider.js:41-56 | one entry per occurrence, in order, named after the file, labelled with its cartridge, numbered by its index, opening its file, selected exactly for the selected cartridge, and only the last has the type icon |
| PanelTrees.BuildDefaultTree | extension/CartridgeOverridesProvider.js:39-56 | the loop builds that flat listing |
| PanelTrees.FirstRecordsMember | extension/CartridgeOverridesProvider.js:339-357 | a record is among a parent's children exactly when it heads the non-empty list of that parent's cartridge under one of the keys |
| PanelTrees.FirstRecordsOfTable | extension/CartridgeOverridesProvider.js:339-341 | over a whole valid table, the children of a cartridge are the heads of its non-empty lists |
| PanelTrees.RoutesByVerb | extension/CartridgeOverridesProvider.js:323-341 | after the scan, a cartridge's list under each verb is that verb's routes from its files, the last override first |
| PanelTrees.ControllerFirstRoutes | extension/CartridgeOverridesProvider.js:339-357 | over a well-formed routes table, the children of a cartridge are exactly the first routes of each verb it has |
| PanelTrees.RouteChildren | extension/CartridgeOverridesProvider.js:339-357 | the inner loop builds one route child per verb key with an entry for the cartridge, in key order, opening the route's line when it has one |
| PanelTrees.BuildControllerTree | extension/CartridgeOverridesProvider.js:325-373 | one parent per occurrence, named after the file without `.js`, with its route children |
| PanelTrees.PropertiesFirstKeys | extension/CartridgeOverridesProvider.js:447-488 | after the scan and the cleanup, the children of a cartridge are exactly the first definitions, for that cartridge, of the keys two or more cartridges define |
| PanelTrees.PropertyChildren | extension/CartridgeOverridesProvider.js:471-488 | the inner loop builds one child per shared key the cartridge defines, in key order, opening the key's line |
| PanelTrees.BuildPropertiesTree | extension/CartridgeOverridesProvider.js:457-504 | one parent per occurrence, named after the file, with its property children |
| PanelTrees.FindByDescription | extension/CartridgeOverridesProvider.js:554-559 | an entry is found exactly when one is labelled with the cartridge, and the one found is the first such entry |
| PanelTrees.LoadTarget | extension/CartridgeOverridesProvider.js:587-606 | an unknown type has no generator; a template whose last dot-separated part is `properties` goes to the properties generator and every other template to the template generator |
| PanelTrees.PropertiesNameIff | extension/CartridgeOverridesProvider.js:599 | a file is a resource bundle exactly when it is called `properties` or ends in `.properties` |
| OverridesPanel.Guarded | extension/CartridgeOverridesProvider.js:34-37 | the file shown last is skipped and the panel is unchanged; any other file replaces the listing and becomes the last opened |
| OverridesPanel.Cleared | extension/CartridgeOverridesProvider.js:608-611 | `reset()` empties the listing and keeps the last opened file |
| OverridesPanel.LoadIdempotent | extension/CartridgeOverridesProvider.js:587-606 | picking the same file twice in a row shows what picking it once shows |
| OverridesPanel.LoadGuard | extension/CartridgeOverridesProvider.js:587-606 | a file of known type always ends up as the last opened, and its listing is rebuilt exactly when it was not the last opened one already |
| OverridesPanel.LoadIgnores | extension/CartridgeOverridesProvider.js:589-604 | a missing file and a file of unknown type leave the panel alone |
| OverridesPanel.ResetThenSameFile | extension/CartridgeOverridesProvider.js:608-611 | after `reset()`, picking the last opened file again leaves the panel empty |
| OverridesPanel.CollidingFileKeepsListing | extension/CartridgeOverridesProvider.js:34-37 | picking cartridge `a`'s `b_n` right after cartridge `a_b`'s `n` keeps the old listing |
| OverridesPanel.OverridesProvider.constructor | extension/CartridgeOverridesProvider.js:15-25 | no file opened and an empty listing |
| OverridesPanel.OverridesProvider.DefaultGenerator | extension/CartridgeOverridesProvider.js:33-64 | past the guard the listing becomes the flat listing and the file the last opened; `true` exactly then |
| OverridesPanel.OverridesProvider.GenerateControllerTree | extension/CartridgeOverridesProvider.js:66-382 | past the guard the listing becomes the controller listing of the scanned routes |
| OverridesPanel.OverridesProvider.GeneratePropertiesTree | extension/CartridgeOverridesProvider.js:399-513 | past the guard the listing becomes the properties listing of the scanned and cleaned keys |
| OverridesPanel.OverridesProvider.GenerateModelTree | extension/CartridgeOverridesProvider.js:389-392 | the flat listing with the `models` icon |
| OverridesPanel.OverridesProvider.GenerateScriptTree | extension/CartridgeOverridesProvider.js:520-523 | the flat listing with the `scripts` icon |
| OverridesPanel.OverridesProvider.GenerateTemplateTree | extension/CartridgeOverridesProvider.js:530-532 | the flat listing with the `templates` icon |
| OverridesPanel.OverridesProvider.Load | extension/CartridgeOverridesProvider.js:587-606 | the new panel state is what `load` gives: unchanged for a missing or unknown file, otherwise the chosen generator's guarded listing |
| OverridesPanel.OverridesProvider.Reset | extension/CartridgeOverridesProvider.js:608-611 | the listing is emptied and the last opened file kept |
| OverridesPanel.OverridesProvider.GetChildren | extension/CartridgeOverridesProvider.js:539-548 | an entry's children, or the whole listing for the root |
| OverridesPanel.OverridesProvider.GetElement | extension/CartridgeOverridesProvider.js:554-559 | the first entry labelled with the cartridge |
| LegacyOverridesPanel.TemplateTreeAsWritten | CartridgeOverridesProvider.js:75-109 | as written the generator fails exactly when the guard lets the file through and it has an occurrence; otherwise the panel is updated as the guard says |
| LegacyOverridesPanel.TemplateTreeCorrects | CartridgeOverridesProvider.js:83-106 | where the code as written fails, the corrected generator shows one entry per occurrence, the last with the `templates` icon, and records the file |
| LegacyOverridesPanel.TemplateTreeAgrees | CartridgeOverridesProvider.js:75-109 | wherever the code as written does not fail, it agrees with the corrected generator |
| LegacyOverridesPanel.LoadOthersEmpty | CartridgeOverridesProvider.js:166-185 | controllers, models, scripts and resource bundles always record the file and, past the guard, leave the panel empty |
| LegacyOverridesPanel.LoadIdempotent | CartridgeOverridesProvider.js:166-185 | picking the same file twice in a row shows what picking it once shows |
| LegacyOverridesPanel.OverridesProvider.constructor | CartridgeOverridesProvider.js:10-23 | no file opened and an empty listing |
| LegacyOverridesPanel.OverridesProvider.ClearListing | CartridgeOverridesProvider.js:25-36 | past the guard the listing is emptied and the file becomes the last opened |
| LegacyOverridesPanel.OverridesProvider.GenerateControllerTree | CartridgeOverridesProvider.js:25-36 | the guarded empty listing |
| LegacyOverridesPanel.OverridesProvider.GenerateModelTree | CartridgeOverridesProvider.js:37-48 | the guarded empty listing |
| LegacyOverridesPanel.OverridesProvider.GeneratePropertiesTree | CartridgeOverridesProvider.js:50-61 | the guarded empty listing |
| LegacyOverridesPanel.OverridesProvider.GenerateScriptTree | CartridgeOverridesProvider.js:63-74 | the guarded empty listing |
| LegacyOverridesPanel.OverridesProvider.GenerateTemplateTree | CartridgeOverridesProvider.js:75-109 | past the guard the listing becomes the flat listing with the older icons; `true` exactly then |
| LegacyOverridesPanel.OverridesProvider.Load | CartridgeOverridesProvider.js:166-185 | the new panel state is what the older `load` gives, with the corrected template generator |
| LegacyOverridesPanel.OverridesProvider.Reset | CartridgeOverridesProvider.js:187-190 | the listing is emptied and the last opened file kept |
| LegacyOverridesPanel.OverridesProvider.GetChildren | CartridgeOverridesProvider.js:116-125 | an entry's children, or the whole listing for the root |
| LegacyOverridesPanel.OverridesProvider.GetElement | CartridgeOverridesProvider.js:131-138 | the first entry labelled with the cartridge |
| CartridgeDirs.StripProject | util.js:53 | a path ending in `/.project` loses exactly that suffix; any other path is unchanged |
| CartridgeDirs.StripProjectOfMarker | util.js:53 | the marker file of a directory gives back that directory |
| CartridgeDirs.TrimSlashes | util.js:57 | the result is the string up to its trailing separators, and does not end in one |
| CartridgeDirs.SegNameShape | util.js:57 | the captured name is the last run of non-separators before any trailing separators, preceded by a separator or the start of the string; it is empty only for a string of separators |
| CartridgeDirs.SegNameOfDir | util.js:57 | a directory called `name` inside any base is matched by `name` |
| CartridgeDirs.ByNameMembers | util.js:71-72 | exactly the directories whose name is the cartridge are kept |
| CartridgeDirs.Detected | util.js:53 | one directory per `.project` file found, in order |
| CartridgeDirs.FilteredKeeps | util.js:56-59 | the filter keeps exactly the directories named after a cartridge of the path, and for each such cartridge the same directories in the same order |
| CartridgeDirs.CloneFilterMatches | util.js:70-80 | every match has the cartridge's name, there is a match exactly when a remaining directory has it, and the first match is the first such directory |
| CartridgeDirs.CloneFilterKeepsOthers | util.js:70-80 | splicing out matches leaves the directories of every other name in place and in order |
| CartridgeDirs.CloneFilterSkips | util.js:70-80 | two adjacent directories of the same name: the splice makes the filter skip the second, which stays in the list |
| CartridgeDirs.SpliceFilter | util.js:70-80 | the loop that filters and splices at once gives the matches and the list left that the model describes |
| CartridgeDirs.DirEntry | util.js:83-94 | an entry is missing exactly when nothing matched, and then has no path |
| CartridgeDirs.DirEntryRelative | util.js:92 | a directory under the workspace gets its path relative to it, starting with `.` |
| CartridgeDirs.MapDirsNames | util.js:68-95 | one entry per cartridge of the path, in that order |
| CartridgeDirs.MapDirsDistinct | util.js:68-95 | when no cartridge is listed twice, each entry is that of all directories of its name: missing exactly when there is none, else the first one's path |
| CartridgeDirs.DuplicateCartridgeMissing | util.js:68-95 | a cartridge listed twice with one directory: the second entry is reported missing |
| CartridgeDirs.MissingNamesMembers | util.js:85-87 | a name is in the missing list exactly when some entry of that name is missing |
| CartridgeDirs.MissingNamesSnoc | util.js:85-87 | each new entry appends its name to the missing list exactly when it is missing, so the list keeps the path order |
| CartridgeDirs.GetCartridgeDirectories | util.js:30-111 | without a workspace the result is the error; otherwise it is the directory map of the filtered directories and the list of missing names |
| Dicts.Set | extension/CartridgeOverridesProvider.js:100-102 | assigning keeps the dictionary valid, maps the key to the value, puts a new key last and leaves an existing key in its place |
| Dicts.Remove | extension/CartridgeOverridesProvider.js:452 | `delete` keeps the dictionary valid and takes exactly that key out of the values and the key list |
| Dicts.PushAllGet | extension/CartridgeOverridesProvider.js:100-106 | the pushes append to exactly the one list they name and leave every other list as it was |
| Dicts.PushAllKeys | extension/CartridgeOverridesProvider.js:100-106 | a key created on either level goes last, existing keys keep their places |
| Dicts.PushAllValid | extension/CartridgeOverridesProvider.js:100-106 | pushing keeps both levels valid |
| Dicts.PushAllNoEmptyList | extension/CartridgeOverridesProvider.js:104-106 | a list is created only by a push onto it, so no list is ever empty |
| Strings.Split | extension/CartridgeOverridesProvider.js:84 | `split` gives at least one part |
| Strings.SplitJoin | extension/CartridgeOverridesProvider.js:84 | splitting a join of parts that do not hold the separator gives the parts back |
| Strings.JoinSplit | extension/CartridgeOverridesProvider.js:84 | joining the parts of a split with the separator gives the string back |
| Strings.Trim | extension/CartridgeOverridesProvider.js:423 | the trimmed key neither starts nor ends with white space |
| Strings.ReplaceFirst | extension/Cartridges.js:333 | a string pattern replaces only its first occurrence, and a string without it is unchanged |
| Strings.LexLessTotal | extension/Cartridges.js:336-338 | any two different strings are ordered one way or the other |
| Strings.LexLessTransitive | extension/Cartridges.js:336-338 | the order is transitive |
| Strings.SortStrings | extension/Cartridges.js:336-338 | the sorted list is in order and a permutation of the input |
| Strings.LastPartSuffix | extension/CartridgeOverridesProvider.js:599 | `split(c).pop()` is a suffix, preceded by `c` unless it is the whole string |
| Strings.LastPartIsLast | extension/CartridgeOverridesProvider.js:599 | what follows the last `c` is exactly the last element `split(c)` gives |
| Strings.LastPartClean | extension/CartridgeOverridesProvider.js:599 | `split(c).pop()` holds no `c` |

## Left out

- VS Code host APIs: `findFiles`, `openTextDocument`, `withProgress`, the change events, `TreeItem`, `Range`/`Selection`, reading and updating the configuration, and message dialogs. They are not modelled. Resource URIs are opaque strings, a selection is a 0-based line, and file lists, document texts, settings and the workspace path are inputs.
- `getTreeItem` and `getParent` of the three providers: they only convert entries into host objects.
- Asynchronous orchestration. `checkControllers` and `checkProperties` resolve their promise inside `forEach(async ...)`, which races the document reads, and `lastOpened` is set before the listing arrives. The model scans every document in order and sets both fields together.
- `refresh` progress and promise plumbing, apart from the state changes modelled in `Cartridges.Refresh`, `Cartridges.Reload` and `LegacyCartridges.Refresh`.
- `getCartridgesFromConfig`: reading `dw.json`, `JSON.parse` and the confirmation dialog.
- `getWorkspace` in both `util.js` files. The workspace path is a parameter, and "no workspace" is a result value in place of `showErrorMessage`.
- The `Cache` module, which is not part of this model. It is a map field with lookup, write and flush.
- Localized description and tooltip strings. Only their above-then-below order is kept, over an abstract message type.
- `localeCompare`: modelled as lexicographic order on character codes.
- `path.sep`: fixed to `/`, so the Windows form of the patterns is not modelled.
- JavaScript property-name collisions in the trie dictionaries (a segment called `constructor`, `__proto__` or `treeData`). Also the ordering of integer-like keys in `Object.keys`, which the model treats like any other key, in insertion order, in every dictionary.
- The key `__proto__` in the properties table (extension/CartridgeOverridesProvider.js:420-438), the one dictionary keyed by file content. For a line such as `__proto__=x`, `hasOwnProperty` is false and the assignment replaces the table's prototype instead of adding a key, so `Object.keys` (lines 449 and 471) never lists it, and the records pushed land on that prototype. `PropertiesScan` stores the key like any other, so `PanelTrees.PropertiesTree` would show a `__proto__` child where two cartridges define it. The route tables are keyed by verb name and cartridge name only.
- The host writes of `logger`, `console.log` and the log summaries with `toLocaleString`; only the line `logger` builds is modelled (`Util.LogLine`).
- The handler of the older `viewOverrides` command. It only logs its argument (extension.js:27). Nothing in the older generation requires `CartridgeOverridesProvider.js` (extension.js:3-4 load only `sfccCartridges` and `sfccCartridgesView`), so `LegacyOverridesPanel` models code that no caller reaches.
- The older `cartridgeListUpdated` handler (extension.js:22). It calls `refresh` on the older view provider, which defines only `update` (sfccCartridgesView.js:37-40). The model keeps `LegacyViewProvider.Update` and leaves out the failing call.
- LegacyCartridgesPathAgrees: states the older path computation for an optional setting. The class itself takes a present setting, because an absent one makes `split` throw at sfccCartridges.js:106.
- constructor (LegacyGeneration.LegacyCartridges): builds the state the older constructor would build if `util.debug` returned. As written the constructor throws for every setting, inside `getCartridgesPath` at sfccCartridges.js:109 (see `LegacyGeneration.DebugCallsThrow` and the findings). It also takes a present setting only, since an absent one throws at sfccCartridges.js:106.
- ListCartridgesCorrects: compares the listing with `util.debug` read as a log write. As written, `getCartridges` throws at sfccCartridges.js:131 before `findFiles` runs, so the failure at lines 151-155 is reached only once that call is fixed (`LegacyGeneration.GetCartridgesIn`).
- LegacyGeneration.LegacyCartridges.GetCartridges: models the listing once `util.debug` returns. As written it throws at sfccCartridges.js:131.
- LegacyGeneration.LegacyCartridges.Refresh: models the refresh once `util.debug` returns. As written, `getCartridges` throws and the tree keeps its old value.
- CartridgeTree.RootItem: for the older generation (`legacy` true), it models `generateTree` once `util.debug` returns. As written, a missing cartridge throws at sfccCartridges.js:80 (`LegacyGeneration.GenerateTreeCorrects`).
- CartridgeTree.GenerateRoots: for the older generation, it builds the tree once `util.debug` returns. As written, a path naming a missing cartridge makes it throw (`LegacyGeneration.GenerateTreeIn`).
- `extension/index.js` and `extension.js` (activation, command registration, timers, listeners) and `extension/welcome.js` (webview, `marked`). Only the fact that the editor hook hands any controller path to `getElement` is used, in `CartridgesView.ControllerOutsideCartridgeThrows`.
- The `title: 'Open File'` field of the older template entries' command: commands are modelled by their arguments only.
- Item fields that only feed `getTreeItem` (the collapsible state derived from `children`) are not kept separately from `children`.

## Findings

| source | as written | input that shows it | evidently intended | confidence | as-written member | corrected member |
|---|---|---|---|---|---|---|
| extension/CartridgeOverridesProvider.js:111-119 | a line holding `server.<verb>` but not the route name evaluates `nextLine.includes(...)`; on the last line `nextLine` is `undefined`, so the scan throws instead of reporting no line | the controller text `"server.get(\n\n'Show')\nserver.get"`: the pattern, which spans line breaks, finds the route `Show`; no line holding `server.get` has `Show` on it or on the next line, and the last line holds `server.get` | a missing next line holds nothing, and the route gets no line number | not executed; certain by the semantics of `undefined.includes` | RouteScan.LastLineThrows | RouteScan.LineNumberFrom |
| sfccCartridges.js:151-155 | `fileParts.length` is read before checking that `match` found anything, so a file outside `^(.+)/cartridges/([^/]+)/cartridge/(.+)$` throws and the whole listing fails | a workspace whose `cartridges` folder sits at its root: the stripped path `/cartridges/a/cartridge/b` leaves `(.+)` nothing before the marker | non-matching files are skipped, as the comment says and as the current generation does | not executed; certain for the input shown, once line 131 stops throwing first (next row) | LegacyGeneration.RootCartridgesFolderFails | LegacyGeneration.ListCartridgesCorrects |
| sfccCartridges.js:109 | the older class calls `util.debug` (lines 80, 109, 131-132, 400), but the older util.js exports only `getCartridgeDirectories`, `getResourcePath`, `getWorkspace` and `saveContext` (util.js:132-137). So `getCartridgesPath` throws, and with it `new Cartridges()` at extension.js:12; `getCartridges` throws before `findFiles`; `generateTree` throws at the first missing cartridge | any setting: the constructor fails while it reads the cartridge path, and activation fails with it | `util.debug` writes a log line and returns | not executed; certain from the module's exports | LegacyGeneration.DebugCallsThrow | LegacyGeneration.LegacyCartridgesPathAgrees |
| extension/CartridgesProvider.js:52-55 | `parts.length` is read on the result of `match` without checking for `null` | `/controllers/A.js`: a controller by `getType`, outside any cartridge | the sanity check yields an empty result | not executed; certain for the input shown | CartridgesView.ControllerOutsideCartridgeThrows | CartridgesView.ElementCorrects |
| CartridgeOverridesProvider.js:97-99 | the older template generator calls `util.getIcon`, but the root `util.js` exports no `getIcon`, so any template with an occurrence throws past the guard | any template file with at least one occurrence, not the last one opened | icons from the older icon helper (`-override` suffix), one entry per occurrence | not executed; certain from the module's exports (util.js:132-137) | LegacyOverridesPanel.TemplateTreeAsWritten | LegacyOverridesPanel.TemplateTreeCorrects |
