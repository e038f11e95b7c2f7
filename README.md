# Playground file tree, persistence and Rugged store — a Dafny model

This project models the state-handling core of the evmts Playground and of
its "Rugged" island game:

- **The playground's UI store** (`usePlaygroundStore`, a zustand store). It
  holds the selected file, the two collapse flags, the panel sizes, the
  accumulated execution output and the set of expanded folders. The class
  `PlaygroundStore.Store` has one `state` field that each action reassigns.
  `app/state/State.ts:25-56` declares the same store again with the same
  initial values and the same eight actions, so that class models both
  files.
- **The file tree of the explorer** (`useFileTree`). Without a sandbox, the
  tree is read back from storage. With a sandbox, the root directory is
  listed with `getAllFiles`, and every expanded folder is merged into the
  list: the loop descends along the folder's path segments and then
  replaces the `children` of the node with the folder's name. Nodes are
  reached by index paths, so an assignment in place becomes "the tree with
  one node's children replaced" (`FileTree.SetChildren`). As written, an
  expanded folder never shows its contents. The descent
  (`app/hooks/useFileTree.tsx:26-33`) takes every segment of the folder's
  path, the folder's own name included, so it ends inside the folder's
  children. The lookup by full name at line 35 then searches that list,
  where the folder itself is not found. A top-level folder is therefore left
  as listed, and a deeper one ends the query with `undefined`
  (`UseFileTree.QueryOnRootListing`, `UseFileTree.NestedFolderEndsQuery`).
- **Persistence.**
  - `convertToWebContainerFormat` flattens nodes into a
    `{ [path]: { file: { contents } } }` object.
  - `convertFromWebContainerFormat` turns such an object back into nodes.
  - `saveFilesToStorage` writes `{ version, files }` to local storage.
  - `getInitialFiles` reads it back. When nothing is stored, it removes the
    keys of older storage versions instead.
  - Local storage is the class `LocalStorage.Storage`: a map and a "quota
    exhausted" flag.
- **The Rugged store** (`useRuggedStore`).
  - The 38-item catalogue and the four disaster types.
  - Item selection against a 50 000 budget and a five-item limit.
  - Sort toggling.
  - The commit, which picks two random "rugged" items, splits the players
    600/400, and draws an average protection per disaster.
  - The read-only queries `calculateProtection`, `getTotalProtection` and
    `getSortedItems`.

Randomness (`Math.random`) is a nondeterministic choice (`:|`). The
filesystem of the sandbox is a value of type `FileSystem` (its `readdir`
and `readFile`). `JSON.parse` and `JSON.stringify`, the storage key and
version, and the built-in sample files are all parameters.

## Model

| member | source | states |
|---|---|---|
| Json.Lookup | app/web-container/convertFromWebContainerFormat.ts:5-8 | a property is found iff some member has that key, and the value found belongs to such a member |
| Json.GetProperty | app/web-container/convertFromWebContainerFormat.ts:8 | reading a property throws exactly on `null`; only objects have the properties read |
| Paths.CollapseSlashes | app/web-container/getAllFiles.ts:13 | `replace(/\/+/g, '/')` never lengthens a path, keeps its first and last character, and leaves no `//` |
| Paths.Split | app/hooks/useFileTree.tsx:23 | `split('/')` gives at least one piece, and no piece holds a `/` |
| Paths.PathParts | app/hooks/useFileTree.tsx:23 | every segment `split('/').filter(Boolean)` keeps is non-empty and free of `/` |
| Paths.NonEmpty | app/hooks/useFileTree.tsx:23 | `filter(Boolean)` keeps only non-empty segments |
| Paths.SplitNoSlash | app/hooks/useFileTree.tsx:23 | `split('/')` of a slash-free string is that string alone |
| Paths.PathPartsOfName | app/hooks/useFileTree.tsx:23 | a non-empty slash-free name has itself as its only segment |
| Paths.PathPartsLeadingSlash | app/hooks/useFileTree.tsx:23 | a leading `/` does not change the segments |
| Paths.CollapseKeepsParts | app/web-container/getAllFiles.ts:13 | collapsing slashes keeps the segments that `split('/').filter(Boolean)` sees |
| Paths.CollapseFixesClean | app/web-container/getAllFiles.ts:13 | a path without `//` is left unchanged by the collapse |
| Paths.CollapseIdempotent | app/web-container/getAllFiles.ts:13 | collapsing twice equals collapsing once |
| FileNodes.FullPath | app/web-container/getAllFiles.ts:13 | every node name built from directory and entry is free of `//` |
| FileNodes.GetAllFiles | app/web-container/getAllFiles.ts:10-27 | one node per directory entry, in listing order: directories become folders with content "" and children [], other entries become files without children holding the text read at their own path |
| FileNodes.NoDoubleSlashInNames | app/web-container/getAllFiles.ts:13 | no listed node has `//` in its name |
| FileNodes.FullPathParts | app/web-container/getAllFiles.ts:13 | a node name's segments are its directory's segments plus the entry name |
| FileNodes.RootNamesHaveOneSegment | app/web-container/getAllFiles.ts:13 | in the root listing every name has exactly one segment |
| WebContainerFiles.Get | app/web-container/webContainerPromise.ts:9 | a path reads a value iff it is a key of the object |
| WebContainerFiles.Put | app/web-container/webContainerPromise.ts:9-13 | assigning an existing key keeps the number of keys, and a new key adds one; `PutSpec` states what each key then reads and where it sits |
| WebContainerFiles.PutSpec | app/web-container/webContainerPromise.ts:9-13 | after `result[name] = …` the key reads the new contents, every other key reads as before, and a new key is appended while an existing key keeps its place |
| WebContainerFiles.PutKeepsKeysDistinct | app/web-container/webContainerPromise.ts:9-13 | assigning a key never duplicates it |
| WebContainerFiles.ToJson | app/web-container/saveFilesToStorage.ts:8-11 | the JSON form of the files object has one member `path: { file: { contents } }` per entry, in order |
| WebContainerPromise.ContentsOrEmpty | app/web-container/webContainerPromise.ts:11 | `file.content || ''` is the node's content, or "" when it has none |
| WebContainerPromise.Converted | app/web-container/webContainerPromise.ts:7-15 | the object the `forEach` builds never has more keys than there were nodes; `ConvertedKeys`, `ConvertedDistinct` and `ConvertedLastWins` state which keys and contents |
| WebContainerPromise.ConvertToWebContainerFormat | app/web-container/webContainerPromise.ts:4-18 | the `forEach` loop builds exactly the object `Converted` describes |
| WebContainerPromise.ConvertedSnoc | app/web-container/webContainerPromise.ts:7-15 | visiting one more node assigns it when it is a file and changes nothing when it is a folder |
| WebContainerPromise.ConvertedDistinct | app/web-container/webContainerPromise.ts:4-18 | the object never holds a key twice |
| WebContainerPromise.ConvertedKeys | app/web-container/webContainerPromise.ts:7-15 | the keys are exactly the names of the file nodes of the list |
| WebContainerPromise.ConvertedLastWins | app/web-container/webContainerPromise.ts:9-13 | when names repeat, the last file node with that name gives the contents |
| WebContainerPromise.ConvertedIgnoresChildren | app/web-container/webContainerPromise.ts:7-8 | only the top-level list is walked: nested `children` never affect the result |
| FromWebContainer.MemberNode | app/web-container/convertFromWebContainerFormat.ts:5-9 | an entry becomes a node iff its value is an object whose `file` is present and not null and whose `file.contents` is missing, null or a string; the node is a file named by the key, without children, holding that string, or no content when there is none |
| FromWebContainer.MemberNodes | app/web-container/convertFromWebContainerFormat.ts:5-9 | on success the `map` gives one node per entry, in entry order, each a file named by its key, without children |
| FromWebContainer.ConvertFromWebContainerFormat | app/web-container/convertFromWebContainerFormat.ts:4-10 | `null` throws; every node produced is a file without children; on an object there is one node per entry |
| FromWebContainer.ConvertSucceeds | app/web-container/convertFromWebContainerFormat.ts:4-10 | the conversion fails exactly on `null`, on a non-empty string, or on an object with an entry that `MemberNode` rejects; on success there is one node per entry, in entry order, each that entry's own node |
| FromWebContainer.MemberNodesSucceed | app/web-container/convertFromWebContainerFormat.ts:5-9 | the `map` over entries fails iff some entry fails, and otherwise yields each entry's node in order |
| FromWebContainer.ConvertFromFilesObject | app/web-container/convertFromWebContainerFormat.ts:4-10 | on a files object the conversion succeeds with one file node per entry: name from the key, content from `file.contents`, no children |
| FromWebContainer.ConvertRoundTrip | app/web-container/convertFromWebContainerFormat.ts:4-10 | converting a files object to nodes and flattening them again gives the object back |
| FromWebContainer.NodesRoundTrip | app/web-container/convertFromWebContainerFormat.ts:4-10 | distinctly named file nodes without children come back from flattening and converting in order, each holding its content, or "" when it had none; when every node holds content they come back unchanged |
| FromWebContainer.ConvertedOfFileNodes | app/web-container/webContainerPromise.ts:7-15 | flattening distinctly named file nodes gives one entry per node, in node order |
| LocalStorage.Storage.GetItem | app/web-container/getInitialFiles.ts:6 | `getItem` returns the stored value, or `null` when the key is absent |
| LocalStorage.Storage.SetItem | app/web-container/saveFilesToStorage.ts:8-11 | `setItem` stores the value, or throws `QuotaExceededError` and changes nothing when storage is full |
| LocalStorage.Storage.RemoveItem | app/web-container/getInitialFiles.ts:19 | `removeItem` drops the key and nothing else |
| Numbers.DecimalString | app/web-container/getInitialFiles.ts:19 | `${i}` is a non-empty digit string without a leading zero |
| Numbers.ParseInt | app/web-container/getInitialFiles.ts:18 | `parseInt` is `NaN` exactly when the string does not start with a digit |
| Numbers.DigitsValueOfDecimal | app/web-container/getInitialFiles.ts:19 | the digits of `${n}` denote `n` |
| Numbers.ParseIntOfDecimal | app/web-container/getInitialFiles.ts:18 | `parseInt(`${n}`)` is `n` |
| Numbers.DecimalStringInjective | app/web-container/getInitialFiles.ts:19 | different numbers have different numerals |
| SaveFiles.Snapshot | app/web-container/saveFilesToStorage.ts:8-11 | the saved object is `{ version, files }` with the files object's JSON form |
| SaveFiles.SaveFilesToStorage | app/web-container/saveFilesToStorage.ts:5-15 | writes the serialised snapshot of the flattened nodes under the storage key and nothing else; a failing write changes nothing and the error is logged, not raised |
| SaveFiles.SnapshotHoldsOnlyTopLevelFiles | app/web-container/saveFilesToStorage.ts:7-11 | every saved path is a top-level file node's name, with the contents of the last such node: folders and nested children are never saved |
| InitialFiles.VersionKeys | app/web-container/getInitialFiles.ts:18-20 | the cleanup removes the key `playground-files-v${i}` of every version below the bound |
| InitialFiles.VersionKeyInjective | app/web-container/getInitialFiles.ts:19 | distinct versions have distinct keys |
| InitialFiles.VersionKeysExactly | app/web-container/getInitialFiles.ts:18-20 | version `i`'s key is removed iff `i < parseInt(STORAGE_VERSION)`, so the current version's key is kept |
| InitialFiles.LoadedFiles | app/web-container/getInitialFiles.ts:5-23 | with no stored value, or an empty one, the sample files are returned; otherwise the result is the stored value as parsed, or the sample files |
| InitialFiles.ItemsAfterLoad | app/web-container/getInitialFiles.ts:6-20 | loading only ever removes keys and never changes a value, and leaves storage as it was when a value is stored |
| InitialFiles.GetInitialFiles | app/web-container/getInitialFiles.ts:5-23 | returns the parsed stored value, the sample files when parsing throws, or (with nothing stored) the sample files after removing the older version keys |
| InitialFiles.LoadWithStoredValue | app/web-container/getInitialFiles.ts:6-15 | a stored value is returned as parsed, with no version check, or replaced by the sample files when unparsable; storage is untouched either way |
| InitialFiles.LoadWithoutStoredValue | app/web-container/getInitialFiles.ts:18-22 | with nothing stored, a key survives iff it is no older version's key, and surviving keys keep their values |
| InitialFiles.LoadAfterSave | app/web-container/getInitialFiles.ts:6-11 | what `saveFilesToStorage` writes is read back as the whole `{ version, files }` wrapper, and converting that wrapper to nodes throws |
| PlaygroundStore.Deleted | app/state/usePlaygroundStore.ts:27 | `Set.delete` removes exactly that member and keeps the set free of duplicates |
| PlaygroundStore.Toggled | app/state/usePlaygroundStore.ts:24-32 | the toggled path's membership flips and every other path's membership is kept |
| PlaygroundStore.ToggleTwice | app/state/usePlaygroundStore.ts:24-32 | toggling the same path twice restores the set's members |
| PlaygroundStore.ToggleTwiceOrder | app/state/usePlaygroundStore.ts:24-32 | toggling twice restores the order of a path that was absent, and moves a present path to the end |
| PlaygroundStore.DeleteLast | app/state/usePlaygroundStore.ts:27-29 | deleting a value just added at the end undoes the addition |
| PlaygroundStore.Store.constructor | app/state/usePlaygroundStore.ts:6-12 | the initial state: nothing selected, nothing collapsed, 280 by 200, no output, no folder expanded |
| PlaygroundStore.Store.SetSelectedFile | app/state/usePlaygroundStore.ts:15 | only `selectedFile` changes |
| PlaygroundStore.Store.SetIsFileTreeCollapsed | app/state/usePlaygroundStore.ts:16 | only `isFileTreeCollapsed` changes |
| PlaygroundStore.Store.SetIsResultCollapsed | app/state/usePlaygroundStore.ts:17 | only `isResultCollapsed` changes |
| PlaygroundStore.Store.SetSidebarWidth | app/state/usePlaygroundStore.ts:18 | only `sidebarWidth` changes |
| PlaygroundStore.Store.SetResultHeight | app/state/usePlaygroundStore.ts:19 | only `resultHeight` changes |
| PlaygroundStore.Store.SetExecutionResult | app/state/usePlaygroundStore.ts:20 | only `executionResult` changes |
| PlaygroundStore.Store.AppendExecutionResult | app/state/usePlaygroundStore.ts:21-23 | the old output stays as a prefix and the appended text follows it |
| PlaygroundStore.Store.ToggleFolder | app/state/usePlaygroundStore.ts:24-32 | flips the path's membership, changes nothing else, and keeps the set free of duplicates |
| PlaygroundStore.ToggleFolders | app/state/usePlaygroundStore.ts:24-32 | from a fresh store, a path ends up expanded iff it was toggled an odd number of times, and none is held twice |
| FileTree.FindFolder | app/hooks/useFileTree.tsx:27 | `find` returns the first folder whose name ends in `/part`, or nothing when there is none |
| FileTree.FindNamed | app/hooks/useFileTree.tsx:35 | `find` returns the first node with exactly that name, or nothing when there is none |
| FileTree.Descend | app/hooks/useFileTree.tsx:26-33 | a successful descent is a valid path with one step per segment |
| FileTree.DescendFailureIsFinal | app/hooks/useFileTree.tsx:28-32 | once a segment is not found, the whole descent fails |
| FileTree.SetChildren | app/hooks/useFileTree.tsx:37 | `folderInTree.children = folderFiles` gives that one node the new children and changes nothing else. Every other node of its list is kept. At each level the path passes through, the list keeps its length and every node it does not go into. The top-level list keeps every node's name, type and content |
| FileTree.ReplaceLevelOffPath | app/hooks/useFileTree.tsx:29-37 | replacing the list reached through `currentLevel = folder.children` leaves every node off the path as it was, at every level |
| FileTree.MergeFolder | app/hooks/useFileTree.tsx:22-38 | one expanded folder fails iff its descent fails, and otherwise keeps every top-level node's name, type and content |
| FileTree.Merge | app/hooks/useFileTree.tsx:21-39 | merging the expanded folders keeps the top-level list's length and every node's name, type and content |
| FileTree.MergeFailureIsFinal | app/hooks/useFileTree.tsx:31 | an unreachable folder ends the whole query: later folders are never merged |
| FileTree.MergeFolderOnFlat | app/hooks/useFileTree.tsx:22-38 | on a root listing, one folder's merge leaves the list unchanged when the folder is reachable and fails otherwise |
| FileTree.MergeOnFlat | app/hooks/useFileTree.tsx:21-39 | on a root listing, the merge leaves the list unchanged when every expanded folder is reachable, and fails otherwise |
| FileTree.RootListingIsFlat | app/web-container/getAllFiles.ts:13-19 | the root listing has one segment per name and empty children for every folder |
| UseFileTree.DescendLevels | app/hooks/useFileTree.tsx:26-33 | the inner `for` loop computes the descent, and on success `currentLevel` is the list at the path reached |
| UseFileTree.LoadFileTree | app/hooks/useFileTree.tsx:18-41 | the outer loop computes exactly `Merge` of the root listing and the expanded folders, `undefined` included |
| UseFileTree.MergeStep | app/hooks/useFileTree.tsx:21-39 | one more pass of the outer loop merges the next expanded folder into the tree built so far |
| UseFileTree.FileTreeQuery | app/hooks/useFileTree.tsx:14-42 | without a sandbox, the query converts what `getInitialFiles` returns and leaves storage as that call does; with one, it merges the expanded folders and leaves storage alone |
| UseFileTree.QueryResult | app/hooks/useFileTree.tsx:15-17 | without a sandbox, the query resolves with the converted nodes exactly when the conversion succeeds, and otherwise rejects with the conversion's own error |
| UseFileTree.OnSuccess | app/hooks/useFileTree.tsx:44-47 | selects the first top-level node when the tree is non-empty and no file was selected, and otherwise changes nothing |
| UseFileTree.QueryOnRootListing | app/hooks/useFileTree.tsx:18-41 | with a sandbox, the query's tree is the root listing itself or `undefined`: expanded folders never show their contents |
| UseFileTree.TopLevelFoldersLeaveTreeUnchanged | app/hooks/useFileTree.tsx:21-38 | expanding existing top-level folders leaves the tree exactly as listed |
| UseFileTree.NestedFolderEndsQuery | app/hooks/useFileTree.tsx:26-32 | expanding any folder two or more levels deep makes the query resolve to `undefined` |
| RuggedCatalogue.DisasterTypesNames | src/State.ts:44-49 | the names of `DISASTER_TYPES` are STORM, FLOOD, QUAKE and VOLCANO |
| RuggedCatalogue.ProtectionValue | src/State.ts:174 | `protections[key]` has a value exactly for the four disaster names |
| RuggedCatalogue.FindItem | src/State.ts:126 | `ITEMS.find` returns a catalogue item with that name, and nothing only when no item has it |
| RuggedCatalogue.FindItemOf | src/State.ts:126 | in a catalogue with distinct names, looking up an item's name finds that item |
| RuggedCatalogue.CatalogueFacts | src/State.ts:3-42 | `ITEMS` has 38 items with distinct names, positive prices and protections from 0 to 100 |
| RuggedCatalogue.ItemsOk | src/State.ts:3-42 | `ITEMS` has at least two items, distinct names and positive prices |
| RuggedCatalogue.ItemNamesDistinct | src/State.ts:3-42 | no two catalogue items share a name |
| RuggedCatalogue.PricesPositive | src/State.ts:3-42 | every catalogue price is positive |
| RuggedCatalogue.StormAndFloodInRange | src/State.ts:3-42 | every STORM and FLOOD protection lies in 0..100 |
| RuggedCatalogue.QuakeAndVolcanoInRange | src/State.ts:3-42 | every QUAKE and VOLCANO protection lies in 0..100 |
| RuggedCatalogue.EmergencyFoodSupplyPrice | src/State.ts:26 | "EMERGENCY FOOD SUPPLY" costs 95 000, more than the starting budget |
| RuggedStore.RemoveAll | src/State.ts:132 | `filter(i => i !== itemName)` removes every occurrence and keeps every other name exactly as often as before, so a duplicate-free list stays duplicate-free |
| RuggedStore.RemoveAllAppend | src/State.ts:132 | the filter distributes over concatenation, so the names kept stay in their order |
| RuggedStore.SelectItem | src/State.ts:124-140 | an unknown name changes nothing; a selected one is removed with its price refunded; an unselected one is appended and paid for when affordable and fewer than five are selected, else nothing changes; no other field changes |
| RuggedStore.TotalPriceRemoveAll | src/State.ts:131-132 | removing a name takes its price off the total once per occurrence |
| RuggedStore.SelectItemConserves | src/State.ts:124-140 | on a duplicate-free selection, budget plus the price of the selection is unchanged by a click |
| RuggedStore.SelectItemKeepsInvariant | src/State.ts:124-140 | a click keeps the selection to catalogue names, free of duplicates, at most five, the budget non-negative and summing with the selection to 50 000 |
| RuggedStore.EmergencyFoodSupplyNeverSelected | src/State.ts:134 | under that invariant the 95 000 item is never selected |
| RuggedStore.SortAfter | src/State.ts:141-148 | sorting by the current key flips the order; by a new key, it sorts ascending by that key; nothing else changes |
| RuggedStore.SortTwice | src/State.ts:141-148 | two clicks on the current key restore the state; two on a new key give that key descending |
| RuggedStore.Shuffled | src/State.ts:152 | the shuffled copy holds the catalogue's items in the drawn order |
| RuggedStore.ShuffledFrontDistinct | src/State.ts:152-162 | the first two names of a shuffle are two different catalogue names |
| RuggedStore.Store.constructor | src/State.ts:91-107 | the initial state, including the 50 000 budget and EAST/WEST at 0; the catalogue is `ITEMS` and the selection invariant holds |
| RuggedStore.Store.SetSelectedIsland | src/State.ts:108 | only `selectedIsland` changes |
| RuggedStore.Store.SetSelectedItems | src/State.ts:109 | only `selectedItems` changes |
| RuggedStore.Store.SetRemainingBudget | src/State.ts:110 | only `remainingBudget` changes |
| RuggedStore.Store.SetIsCommitted | src/State.ts:111 | only `isCommitted` changes |
| RuggedStore.Store.SetDisasterCountdown | src/State.ts:112 | only `disasterCountdown` changes |
| RuggedStore.Store.SetDisasters | src/State.ts:113 | only `disasters` changes |
| RuggedStore.Store.SetShowItemSelection | src/State.ts:114 | only `showItemSelection` changes |
| RuggedStore.Store.SetSortBy | src/State.ts:115 | only `sortBy` changes |
| RuggedStore.Store.SetSortOrder | src/State.ts:116 | only `sortOrder` changes |
| RuggedStore.Store.SetRuggedItems | src/State.ts:117 | only `ruggedItems` changes |
| RuggedStore.Store.SetPlayersLeft | src/State.ts:118 | only `playersLeft` changes |
| RuggedStore.Store.SetIslandStats | src/State.ts:119 | only `islandStats` changes |
| RuggedStore.Store.SetAverageProtection | src/State.ts:120 | only `averageProtection` changes |
| RuggedStore.Store.SetEliminatedPlayers | src/State.ts:121 | only `eliminatedPlayers` changes |
| RuggedStore.Store.SetShowPayoutSchedule | src/State.ts:122 | only `showPayoutSchedule` changes |
| RuggedStore.Store.SetCountdown | src/State.ts:123 | only `countdown` changes |
| RuggedStore.Store.HandleItemSelection | src/State.ts:124-140 | the new state is the selection click's `SelectItem` of the old one |
| RuggedStore.Store.HandleSort | src/State.ts:141-148 | the new state is `SortAfter` of the old one |
| RuggedStore.Store.HandleCommit | src/State.ts:149-167 | without an island or any item, nothing changes. Otherwise the store is committed, two different catalogue names become the rugged items, the players are split 600 EAST / 400 WEST, each disaster gets an average protection from 25 to 74, and nothing else changes |
| RuggedStore.RandomShuffle | src/State.ts:152 | the random sort yields some ordering of the catalogue's positions |
| RuggedStore.DrawAverageProtection | src/State.ts:155-158 | the `reduce` gives exactly the four disaster names, each a value from 25 to 74 |
| RuggedStore.SelectFromStart | src/State.ts:124-140 | any sequence of clicks from the initial store keeps at most five distinct items, a non-negative budget that sums with the selection to 50 000, and never selects the 95 000 item |
| RuggedQueries.Contribution | src/State.ts:172-174 | a rugged item, or a key that is no disaster name (`|| 0`), adds 0; with protections in 0..100 each name adds between 0 and 100 |
| RuggedQueries.ProtectionSum | src/State.ts:171-175 | the `reduce` gives 0 for a key that is no disaster name, and with protections in 0..100 lies between 0 and 100 per selected name |
| RuggedQueries.CalculateProtection | src/State.ts:170-176 | `calculateProtection` is 0 for a key that is no disaster name and lies between 0 and 100 times the number of selected items |
| RuggedQueries.Unrugged | src/State.ts:172 | the selected names that are not rugged items |
| RuggedQueries.ProtectionSumAppend | src/State.ts:171-175 | the protection of a concatenated selection is the sum of the parts |
| RuggedQueries.ProtectionSumSkipsRugged | src/State.ts:172 | rugged items contribute nothing: the protection equals the sum over the unrugged selection |
| RuggedQueries.ProtectionTable | src/State.ts:180-183 | the `reduce` gives one entry per disaster name, set to that disaster's protection |
| RuggedQueries.GetTotalProtection | src/State.ts:178-184 | exactly the four disaster names, each mapped to `calculateProtection` of it |
| RuggedQueries.Insert | src/State.ts:187 | inserting adds exactly that element: the result is one longer and holds the old elements and `x`, each as often |
| RuggedQueries.SortBy | src/State.ts:187 | the sorted copy is in key order and as long as the input |
| RuggedQueries.SortByPermutes | src/State.ts:187 | the sorted copy holds each item as often as the input |
| RuggedQueries.SortByStable | src/State.ts:187 | items with equal keys keep their relative order |
| RuggedQueries.SortByConstantKey | src/State.ts:187 | when every key ties, the order is left as it is |
| RuggedQueries.SortKey | src/State.ts:188-196 | sorting by an inherited key such as "toString" gives every item the same key, since the comparator returns `NaN` |
| RuggedQueries.GetSortedItems | src/State.ts:186-197 | `[...ITEMS].sort(...)` has as many items as `ITEMS` |
| RuggedQueries.GetSortedItemsPermutes | src/State.ts:186-197 | `getSortedItems` is a permutation of `ITEMS` |
| RuggedQueries.GetSortedItemsOrder | src/State.ts:186-197 | price and disaster keys sort rising or falling with `sortOrder`; any other non-inherited key sorts by name, always rising |
| RuggedQueries.GetSortedItemsStable | src/State.ts:186-197 | items that compare equal stay in catalogue order |
| RuggedQueries.GetSortedItemsInheritedKey | src/State.ts:190 | sorting by a key that `in` finds on the prototype (e.g. "toString") leaves the catalogue order unchanged |

## Left out

- JSON is modelled without arrays or floating-point numbers. `JSON.parse` and `JSON.stringify` are parameters, and a parse that throws is `None`. A modelled object may list a key twice, and a property read finds its first member. `JSON.parse` never builds such an object, because it keeps the last of repeated keys. The model therefore admits more objects than JavaScript can produce, and nothing constrains the `parse` parameter to exclude them.
- FromWebContainer.MemberNode: a `file.contents` that is a number, a boolean or an object makes an error here, where JavaScript builds a node holding that value. Missing and null contents both give a node without content.
- WebContainerFiles.Put: keys are kept in insertion order. JavaScript lists keys that read as array indices ("1", "42") first, in numeric order, and assigning to `__proto__` creates no own key. Neither case is modelled, because every path the playground writes starts with "/". An object edited by hand in storage could still hold such keys.
- Numbers.ParseInt: leading whitespace, a sign and `0x` prefixes are not modelled; the version string is taken to start with its digits.
- RuggedQueries.CalculateProtection: for an inherited key such as "toString", JavaScript adds a function to the total and concatenates strings. The model gives 0 there. `getTotalProtection` only asks for the four disaster names.
- Numbers are integers in the Rugged store and reals for the panel sizes. The random draws use floating point: the shuffle comparator `0.5 - Math.random()` and `Math.floor(Math.random() * 50) + 25`. They are modelled as choices: some ordering of the catalogue in `RuggedStore.RandomShuffle`, and a value from 25 to 74 in `RuggedStore.DrawAverageProtection`. Apart from those, the only non-integer constant is in `Math.floor(1000 * 0.6)`. In floating point, `1000 * 0.6` evaluates to exactly 600, and the model writes it as `1000 * 6 / 10`.
- RuggedQueries.GetSortedItemsOrder: `localeCompare` is an abstract `rank` function on names. Collation itself is not modelled.
- RuggedStore.Store.HandleCommit: requires `CatalogueOk(catalogue)`. This is a proved fact of `ITEMS` (`RuggedCatalogue.ItemsOk`), which is what the store's catalogue always is.
- The store's `catalogue` field is fixed to `ITEMS` by the constructor. Selection and commit are stated for any catalogue, and for `ITEMS` in the lemmas that need its values.
- The `readdir`/`readFile` calls of `getAllFiles` cannot fail here, and they return in listing order; `Promise.all` and `await` are not modelled.
- `useQuery`'s caching, re-fetching and asynchrony are not modelled. The `selectedFile` the success handler reads is the value captured when the query was set up, which `UseFileTree.OnSuccess` takes as a parameter.
- The set of expanded folders is iterated in insertion order, which is how a JavaScript `Set` iterates.
- `console.error` logging is not modelled. `SaveFiles.SaveFilesToStorage` returns the error it would log.
- `app/web-container/localStorage.ts` (STORAGE_KEY, STORAGE_VERSION) is not part of this model: the key and version are the `StorageSettings` parameter.
- `app/web-container/initialFiles.ts` is not part of this model: the sample files are a parameter.
- The storage quota is a single "full" flag: a write fails exactly when it is set.
- The countdown, disasters, eliminated players and payout fields of the Rugged store only have setters in the source, and the model gives them only setters.
- React components, the sandbox's boot sequence and the terminal are outside this model.
