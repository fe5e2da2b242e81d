# Versioned storage, proved

This project models the versioned-map engine of Pond and the read accelerators built on it,
and proves that each fast path agrees with a simple meaning over every run.

- **Trees, commits, lenses.** A dictionary is stored as a content-addressed tree of chunks of
  64. A lens stages changes, commits deltas or snapshots, keeps a pointer to the nearest
  snapshot, and branches, undoes and merges. Any number of lenses interleaving operations
  give exactly the answers of a plain versioned map (`VersionedMap`, `LensRuns.Run`).
- **JSON delta log and collector.** Deltas with a snapshot every 64 commits and skip
  pointers, read by bounded walks; and a mark-sweep collector that looks for addresses in the
  text of documents and changes nothing that any name reads.
- **Replica and delayed deletion.** A replica that lags behind the primary, while compaction
  retires packs that are deleted after a grace period. Every run is safe exactly when the
  grace period covers the lag plus the time a compaction takes.
- **Pruned scans.** Row groups and column chunks are skipped by their statistics; a scan
  yields what a full scan and filter yields, and the one-blob manifest what the single blobs
  do.

`dafny verify dfyconfig.toml` checks everything. The files, bottom up:

- `Basics`, `Texts`, `Codec`, `Kernel`: bytes and key order, UTF-8, the binary layout, the
  kernel contract.
- `ProllyTree`, `TreeSharing`, `OlderTree`: the tree, what an overwrite shares, and the
  builder before its fix.
- `History`, `Commits`, `CommitStore`, `Refs`: the ledger of versions, how blobs represent
  it, reading and writing commits, the references of a collection.
- `LensSteps`, `ProllyLens`: the lens. `VersionedMap`, `LensRuns`: what it means, and that
  every run refines it. `StaleCounters`, `OlderLens`, `OlderRuns`: the journal bound with
  several lenses, and the older lens that recounts, over whole runs.
- `JsonDocs`, `DeltaHistory`, `DeltaReads`, `DeltaLog`: the JSON log. `Gc`, `DeltaGc`: the
  collector, and that it changes nothing.
- `Replication`, `HazardSimulator`, `Compaction`: the timed machine, the simulator that
  implements it in place, and compaction on top.
- `Pruning`, `ZoneMapBuild`, `ZoneMapIndex`, `PruningReader`, `RowGroups`: statistics,
  pruning, the index with its manifest, the reader, and writing row groups that scans may
  trust. `ColumnChunks`, `PackFile`: column-chunk storage and pack files.

How the model is set up:

- The digest is a parameter. Nothing assumes that it is injective: the kernel carries a
  monitor, `collisionFree`, that turns false when a write meets a different stored blob or
  produces the reserved all-zero address, and what readers rely on is proved for the runs in
  which that never happens.
- The ledger of versions is ghost state beside the store. It plays the part of the plain
  meaning; the store is proved to represent it.
- Keys of the binary engine are their UTF-8 bytes (RFC 3629), which keep the order of the texts
  by code point (`Texts.OrderKept`). Bytes that are no encoding of a text are refused by the
  encoders and decoders (`Texts.FitsExactly`). Addresses are 32 bytes there and 64
  hexadecimal digits in the JSON log, where the text matters.
- Reference names are values; that the names a collection renders them to never clash is
  `Refs.RefsDistinct` and `DeltaLog.LogNamesDistinct`.
- Time stamps, messages and clock readings are parameters. A dictionary may be walked in any
  order.
- Where a value exceeds its field (`struct.error`), writing fails and changes no reference
  and no version.
- The compaction threshold of the lens is any number of at least one. With the shipped value
  of one, snapshots and deltas alternate: the code is followed, not the comment at
  archive/legacy-sdk/prolly_tree.py:57-73 that says every commit is a snapshot.
- archive/libraries/delta_view.py:23 gives the cost of a history walk of depth D as
  O(D/64 + 64): a skip pointer jumps over every other interval only, so the walk of the code
  reads about D/2 commits (`DeltaReads.ToIndex`, `DeltaReads.ReadsHalf`).
- An index keeps one total for all collections (archive/legacy-extensions/zone_map_index.py:88-92),
  so the count of pruned row groups can be that of another scan: `PruningReader.PruningReader.Scan`
  says exactly when it is right, `PruningReader.StaleTotal` shows a scan for which it is not.
- The kernel of archive/destruction/04_storage.py stands for the kernel everywhere, as the
  one the engine imports is not part of this model.

## Model

| member | source | states |
|---|---|---|
| `Kernel.MemoryKernel.Write` | archive/destruction/04_storage.py:77-81 | a blob lands under its digest and no stored blob changes; the monitor notes the first collision or reserved address |
| `Kernel.MemoryKernel.Reference` | archive/destruction/04_storage.py:97-100 | a name can only be bound to a stored blob; a refused binding changes nothing |
| `Texts.FitsExactly` | archive/legacy-sdk/binary_encoding.py:64-73 | the bytes that pass as a key or a message are exactly the encodings of sequences of Unicode scalar values, of at most 65535 bytes |
| `Texts.OrderKept` | archive/legacy-sdk/prolly_tree.py:106-118 | comparing encodings byte by byte is comparing texts by code point, as the program sorts and compares them |
| `Texts.LessExactly` | archive/legacy-sdk/prolly_tree.py:106-118 | a smaller key is a proper beginning of the larger or smaller at the first byte that differs |
| `Codec.NodeRoundTrip` | archive/legacy-sdk/binary_encoding.py:64-116 | decoding undoes encoding for every leaf and internal node whose keys are text that fits its length field |
| `Codec.NodeExactly` | archive/legacy-sdk/binary_encoding.py:86-116 | what is read as a node with whole hashes is exactly the bytes of that node, with whatever follows them |
| `Codec.NodeLayout` | archive/legacy-sdk/binary_encoding.py:64-84 | the type byte, the little-endian count and the first entry stand at offsets 0, 1 and 5 |
| `Codec.CommitRoundTrip` | archive/legacy-sdk/binary_encoding.py:118-247 | decoding a written commit gives back both parents, the snapshot, the additions as a dictionary, the deletions, message, timestamp and index; an all-zero address reads as absent |
| `Codec.CommitLayout` | archive/legacy-sdk/binary_encoding.py:118-177 | type, parent, snapshot, count of additions and first addition stand at offsets 0, 1, 33, 65 and 69; message, time stamp and index stand at the end |
| `Codec.HashFieldsSurvive` | archive/legacy-sdk/binary_encoding.py:118-247 | the parents and the snapshot survive a round trip exactly when none of them is the reserved all-zero address |
| `Codec.CommitBytesInjective` | archive/legacy-sdk/binary_encoding.py:118-177 | two commits with the same bytes mean the same, so a content address identifies a commit |
| `Codec.EncodeNode` | archive/legacy-sdk/binary_encoding.py:64-84 | encoding succeeds exactly when there are at most 4294967295 entries and every key is the encoding of a text of at most 65535 bytes, and yields the layout that the round trip is proved for |
| `Codec.EncodeCommit` | archive/legacy-sdk/binary_encoding.py:118-177 | encoding succeeds exactly when counts and index fit four bytes and keys and message are encodings of texts of at most 65535 bytes, and yields that layout |
| `Codec.DecodeNode` | archive/legacy-sdk/binary_encoding.py:86-116 | the byte-by-byte decoder agrees with the grammar of nodes on every input, truncated ones and keys that are not UTF-8 included |
| `Codec.DecodeCommit` | archive/legacy-sdk/binary_encoding.py:179-247 | the byte-by-byte decoder agrees with the grammar of commits on every input, truncated ones and text that is not UTF-8 included |
| `ProllyTree.HeightLeast` | archive/legacy-sdk/prolly_tree.py:106-158 | the height of a tree of n entries is the least h of at least one with 64^h at least n |
| `ProllyTree.TreeOfShape` | archive/legacy-sdk/prolly_tree.py:106-158 | all leaves of a built tree are at the same depth, and that depth is the least height |
| `ProllyTree.FlattenTreeOf` | archive/legacy-sdk/prolly_tree.py:106-158 | the leaves of a built tree, left to right, are the sorted entries |
| `ProllyTree.AddressDeterminesTree` | archive/legacy-sdk/prolly_tree.py:85-97 | two stored trees with the same root address are the same tree |
| `ProllyTree.RootIdentifiesMap` | archive/legacy-sdk/prolly_tree.py:218-232 | two stored dictionaries have the same root exactly when they are equal, so the equal-root shortcut of diff is right |
| `ProllyTree.Build` | archive/legacy-sdk/prolly_tree.py:106-158 | for every dictionary the bottom-up build terminates and stores the whole tree under its root, writing no node outside that tree; it fails exactly when some key does not fit |
| `ProllyTree.SearchLeaf` | archive/legacy-sdk/prolly_tree.py:168-178 | the binary search in a leaf finds a key at its index or proves it absent |
| `ProllyTree.SearchInternal` | archive/legacy-sdk/prolly_tree.py:179-194 | the binary search in an internal node finds the first child whose largest key is not below the key |
| `ProllyTree.Lookup` | archive/legacy-sdk/prolly_tree.py:160-197 | the nested binary searches answer as the dictionary does for every key, reading at most as many nodes as the tree is high |
| `ProllyTree.ReadAllRecursive` | archive/legacy-sdk/prolly_tree.py:206-216 | recursion over the nodes assigns all entries in key order on top of what was there |
| `ProllyTree.ReadAll` | archive/legacy-sdk/prolly_tree.py:199-204 | the entries read back are exactly those of the dictionary |
| `TreeSharing.OverwriteShares` | archive/legacy-sdk/prolly_tree.py:94-97 | overwriting one existing key produces at most as many addresses outside the old tree as the tree is high |
| `TreeSharing.BuildOverwritten` | archive/legacy-sdk/prolly_tree.py:106-158 | building the overwritten dictionary adds at most that many blobs to a store that holds the old tree |
| `TreeSharing.DiffTrees` | archive/legacy-sdk/prolly_tree.py:218-232 | diff of two roots gives exactly the added, removed and modified keys, with the equal-root shortcut |
| `TreeSharing.DiffTells` | archive/legacy-sdk/prolly_tree.py:218-232 | taking the removed keys out and putting the added ones in gives the keys of the second dictionary, the modified keys are those with different values, and values are shown by their first digits |
| `TreeSharing.DiffEmptyIffEqual` | archive/legacy-sdk/prolly_tree.py:218-232 | a diff is empty exactly when the two dictionaries are equal |
| `OlderTree.OlderSameTree` | archive/libraries/prolly_view.py:90-130 | up to 4096 entries the older builder makes the same tree, hence the same root |
| `OlderTree.OlderReadsChunks` | archive/libraries/prolly_view.py:90-130 | between 4096 and 64^3 entries, reading the older tree gives one entry per leaf chunk, keyed by the largest key of the chunk |
| `OlderTree.OlderLosesData` | archive/legacy-sdk/prolly_tree.py:118-153 | the older builder keeps a dictionary exactly when it has at most 4096 entries: the data loss that the fix records |
| `OlderTree.OlderBuild` | archive/libraries/prolly_view.py:90-130 | the older loop terminates and stores the tree that these lemmas speak about |
| `OlderTree.OlderStoresRemaining` | archive/libraries/prolly_view.py:90-130 | for every dictionary of any size the older builder stores the tree of another one of at most 4096 keys, which is the dictionary itself exactly when it has at most 4096 entries |
| `OlderTree.RemainingRows` | archive/libraries/prolly_view.py:90-130 | between 4096 and 64^3 entries that other dictionary has exactly ceil(N/64) keys, the largest of every leaf chunk |
| `OlderTree.OlderReads` | archive/legacy-sdk/prolly_tree.py:118-153 | building with the older loop and then reading all returns exactly that dictionary |
| `History.AncestorStep` | archive/legacy-sdk/prolly_tree.py:565-573 | one more step of undo is one first parent further back, and stays at the root |
| `History.NearestGrown` | archive/legacy-sdk/prolly_tree.py:692-700 | new commits change neither the nearest snapshot of an old commit nor the length of its journal |
| `History.LogAt` | archive/legacy-sdk/prolly_tree.py:505-527 | the i-th line of the history is that of the i-th first-parent ancestor, and the history stops early only at the root |
| `Commits.SameTree` | archive/legacy-sdk/prolly_tree.py:737-760 | a stored snapshot root stands for one state only |
| `Commits.ConsistentGrown` | archive/legacy-sdk/prolly_tree.py:737-760 | writing more blobs keeps every commit readable as the version it stands for |
| `Commits.Enter` | archive/legacy-sdk/prolly_tree.py:344-363 | a newly stored commit changes no version: if its address was known, the same version was |
| `CommitStore.ReplayOlder` | archive/legacy-sdk/prolly_tree.py:753-759 | replaying a journal on top of an older delta is replaying the longer journal |
| `CommitStore.ApplyDelta` | archive/legacy-sdk/prolly_tree.py:344-348 | the key-by-key update of a dictionary is: add all additions, then drop all deletions |
| `CommitStore.LookupTree` | archive/legacy-sdk/prolly_tree.py:413-416 | a lookup in the stored tree of a snapshot is a lookup in the state |
| `CommitStore.ReadTree` | archive/legacy-sdk/prolly_tree.py:743-744 | the stored tree of a snapshot reads back as the state |
| `CommitStore.FindLatestSnapshot` | archive/legacy-sdk/prolly_tree.py:692-700 | the walk finds the nearest snapshot on the first-parent line |
| `CommitStore.CountDeltas` | archive/legacy-sdk/prolly_tree.py:702-714 | the walk counts the journal exactly, up to the point where it gives up two past the threshold |
| `CommitStore.ReadState` | archive/legacy-sdk/prolly_tree.py:737-760 | at every commit the full walk reads the state that was committed there |
| `CommitStore.StoreCommit` | archive/legacy-sdk/prolly_tree.py:350-363 | a commit is stored exactly when its fields fit, what is stored decodes to the fields given, and the ledger records the version with its message, time stamp and index |
| `CommitStore.WriteSnapshot` | archive/legacy-sdk/prolly_tree.py:341-358 | a snapshot commit is written, and its state recorded, exactly when all keys, message and index fit; otherwise no version changes |
| `CommitStore.WriteDelta` | archive/legacy-sdk/prolly_tree.py:359-365 | a delta commit records the parent state with additions and then deletions applied |
| `Refs.RefsDistinct` | archive/legacy-sdk/prolly_tree.py:277-280 | HEAD, the snapshot pointer and all branches of one collection have different names |
| `Refs.MovedOk` | archive/legacy-sdk/prolly_tree.py:356-369 | when HEAD moves together with the snapshot pointer, the pointer is again the nearest snapshot of HEAD |
| `Refs.DeltaMoves` | archive/legacy-sdk/prolly_tree.py:359-369 | a delta commit may leave the snapshot pointer alone: it still is the nearest snapshot |
| `LensSteps.AddsFirstIff` | archive/legacy-sdk/prolly_tree.py:398-404 | reading additions before deletions is right for every state and key exactly when no key is staged both ways |
| `LensSteps.SearchJournal` | archive/legacy-sdk/prolly_tree.py:391-405 | the journal walk from HEAD either answers as the state at HEAD does, or leaves the answer to the snapshot |
| `LensSteps.LookupCurrent` | archive/legacy-sdk/prolly_tree.py:380-424 | journal first, then tree: the value of the key in the state at HEAD |
| `LensSteps.LookupFromHead` | archive/legacy-sdk/prolly_tree.py:441-460 | the walk without the snapshot pointer answers the same |
| `LensSteps.ReadCurrent` | archive/legacy-sdk/prolly_tree.py:467-499 | tree first, then journal replayed: the state at HEAD |
| `LensSteps.JournalDeltas` | archive/legacy-sdk/prolly_tree.py:483-490 | the deltas above the snapshot lead from the snapshot to the state at HEAD, and are as many as the journal is long |
| `LensSteps.WalkBack` | archive/legacy-sdk/prolly_tree.py:565-571 | undo walks to the n-th first-parent ancestor, stopping at the root |
| `LensSteps.CommitOnHead` | archive/legacy-sdk/prolly_tree.py:313-374 | the shared part of a commit: a snapshot exactly on an empty collection or a full journal, success exactly when everything fits, and then one new version on HEAD with every earlier one unchanged |
| `LensSteps.CommitSnapshot` | archive/legacy-sdk/prolly_tree.py:800-827 | the shared part of both merges: the given state becomes a snapshot version with both parents, and HEAD and snapshot pointer point at it |
| `LensSteps.SetSnapshotPointer` | archive/legacy-sdk/prolly_tree.py:281-291 | opening an older store sets the missing snapshot pointer to the nearest snapshot of HEAD |
| `ProllyLens.Lens.constructor` | archive/legacy-sdk/prolly_tree.py:268-296 | opening establishes the lens invariant, the next index and the count of deltas at HEAD |
| `ProllyLens.Lens.Stage` | archive/legacy-sdk/prolly_tree.py:298-300 | staging an addition withdraws a staged deletion, so the two never overlap |
| `ProllyLens.Lens.StageDelete` | archive/legacy-sdk/prolly_tree.py:302-304 | staging a deletion withdraws a staged addition |
| `ProllyLens.Lens.Commit` | archive/legacy-sdk/prolly_tree.py:313-374 | commit applies staged additions and then deletions to the state at HEAD, and the new version carries the message, the time stamp and the index given; it moves HEAD, snapshot pointer and active branch, and clears staging; it fails exactly when nothing is staged or a field does not fit, changing no reference, version or field |
| `ProllyLens.Lens.Lookup` | archive/legacy-sdk/prolly_tree.py:380-424 | the value of the key in the state at HEAD |
| `ProllyLens.Lens.ReadAll` | archive/legacy-sdk/prolly_tree.py:467-499 | the state at HEAD |
| `ProllyLens.Lens.ReadAt` | archive/legacy-sdk/prolly_tree.py:721-735 | the state recorded at any commit |
| `ProllyLens.Lens.Branch` | archive/legacy-sdk/prolly_tree.py:533-539 | a branch is put on HEAD; refused on an empty collection |
| `ProllyLens.Lens.Checkout` | archive/legacy-sdk/prolly_tree.py:541-555 | HEAD goes to the branch, the snapshot pointer to its nearest snapshot, staging is dropped, count and index are recomputed, the branch becomes active; a missing branch changes nothing |
| `ProllyLens.Lens.Undo` | archive/legacy-sdk/prolly_tree.py:565-582 | HEAD goes to the n-th first-parent ancestor, stopping at the root, and no branch is active any more; refused on an empty collection, and a step count of zero or less moves nothing |
| `ProllyLens.Lens.Merge` | archive/legacy-sdk/prolly_tree.py:588-627 | the new snapshot version is the union of both states with the branch winning, records both parents, and moves neither the active branch nor what is staged |
| `ProllyLens.Lens.CreateMergeCommit` | archive/legacy-sdk/prolly_tree.py:766-834 | the staged changes on top of any given parent become a two-parent snapshot version, HEAD and the active branch follow, staging is cleared |
| `ProllyLens.Lens.History` | archive/legacy-sdk/prolly_tree.py:505-527 | the history is the lines of the first-parent ancestors of HEAD, newest first, at most as many as asked for: first digits of the address, message, time stamp, index, kind and second parent |
| `VersionedMap.CommitsNeverChange` | archive/legacy-sdk/prolly_tree.py:721-735 | in every run of any number of clients, whatever is committed keeps its parents, message, time stamp, number and state for ever |
| `VersionedMap.HistoryTells` | archive/legacy-sdk/prolly_tree.py:505-527 | in every run, every history that reaches a commit or merge shows the message and the time stamp that the operation was given, its number, and whether it is a merge |
| `VersionedMap.CommitsStack` | archive/legacy-sdk/prolly_tree.py:565-582 | after n commits by any clients the old HEAD is n steps behind the new one |
| `VersionedMap.UndoTakesBack` | archive/legacy-sdk/prolly_tree.py:565-582 | undo(n) after n commits restores HEAD and its state; on a collection that was empty it stops at the root commit |
| `VersionedMap.StaysWhole` | archive/legacy-sdk/prolly_tree.py:298-304 | in every run nothing dangles and no client stages a key both ways |
| `LensRuns.WorldAdvanced` | archive/legacy-sdk/prolly_tree.py:367-369 | what a new version does to ledger and references is, seen as a plain map, publishing one commit |
| `LensRuns.AncestorIsBack` | archive/legacy-sdk/prolly_tree.py:565-573 | walking back in the ledger is walking back in the plain map |
| `LensRuns.LogIsLog` | archive/legacy-sdk/prolly_tree.py:505-527 | the history from the ledger is the history of the plain map |
| `LensRuns.BoundKeptExactly` | archive/legacy-sdk/prolly_tree.py:336-365 | a commit keeps the journal within the threshold exactly when the cached count has reached the threshold or the true journal is below it |
| `LensRuns.CountedAdvanced` | archive/legacy-sdk/prolly_tree.py:336-365 | with one lens, a commit keeps the cached count true and no journal beyond the threshold |
| `LensRuns.CountedReset` | archive/legacy-sdk/prolly_tree.py:541-582 | recounting after checkout or undo gives the true count while the bound holds |
| `LensRuns.CommitSteps` | archive/legacy-sdk/prolly_tree.py:313-374 | a successful commit is the commit step of the plain versioned map |
| `LensRuns.UndoSteps` | archive/legacy-sdk/prolly_tree.py:565-582 | undo is the undo step of the plain versioned map |
| `LensRuns.MergeSteps` | archive/legacy-sdk/prolly_tree.py:588-627 | merge is the merge step of the plain versioned map |
| `LensRuns.MergeOntoSteps` | archive/legacy-sdk/prolly_tree.py:766-834 | a merge commit with staged changes, on any commits as parents, is a step of the plain versioned map |
| `LensRuns.ReadsAgree` | archive/legacy-sdk/prolly_tree.py:380-499 | pointer lookup, walk from HEAD, tree-and-journal read and full walk agree for every key |
| `LensRuns.Perform` | archive/legacy-sdk/prolly_tree.py:298-834 | every operation refines its step of the plain versioned map, and with one lens keeps the cached delta count true and the journal bound |
| `LensRuns.Run` | archive/legacy-sdk/prolly_tree.py:298-834 | any number of lenses interleaving any operations, which may name HEAD, a branch tip, any known commit or the answer of an earlier operation, give exactly the answers of the plain versioned map, keep the snapshot pointer at the nearest snapshot of HEAD, and with one lens keep the journal bound |
| `LensRuns.RunFromNothing` | archive/legacy-sdk/prolly_tree.py:268-834 | starting from an empty store, with any number of lenses, all of this holds without further hypothesis; with one lens no commit ever rests on more than K deltas and the cached count is the true one |
| `LensRuns.FollowedOn` | archive/legacy-sdk/prolly_tree.py:298-834 | every event of a run extends the trace of the plain versioned map, and every commit that was answered stays known |
| `StaleCounters.TwoLenses` | archive/legacy-sdk/prolly_tree.py:336-365 | with two lenses and the shipped threshold of one, a stale counter lets HEAD rest on two deltas |
| `OlderLens.LookupWithValve` | archive/libraries/prolly_view.py:310-349 | the older lookup answers as the state does unless its valve cuts the walk, which needs a journal of more than five; with journals of at most four it reads at most five commits |
| `OlderLens.BuildOlder` | archive/libraries/prolly_view.py:90-130 | for a state of any size the tree stored is that of what remains of it |
| `OlderLens.ShallowExtended` | archive/libraries/prolly_view.py:272-298 | a delta on a parent with fewer than four deltas, or a snapshot, keeps every journal at four or less |
| `OlderLens.WriteRecounted` | archive/libraries/prolly_view.py:258-298 | counting afresh, a commit is a snapshot exactly on an empty collection or at four deltas, and what a snapshot stores is what the older builder leaves of the state |
| `OlderLens.OlderLens.Commit` | archive/libraries/prolly_view.py:258-306 | whatever other instances have committed since, and however large the state, a commit keeps every journal at four or less |
| `OlderLens.OlderLens.Lookup` | archive/libraries/prolly_view.py:310-349 | with any number of instances the valve never fires and the answer is right |
| `OlderLens.OlderLens.Checkout` | archive/libraries/prolly_view.py:423-432 | HEAD goes to the branch, which becomes active; staging is dropped and the index recomputed; a missing branch changes nothing |
| `OlderLens.OlderLens.Undo` | archive/libraries/prolly_view.py:442-454 | HEAD goes to the n-th first-parent ancestor, stopping at the root, and no branch is active any more |
| `OlderLens.OlderLens.Merge` | archive/libraries/prolly_view.py:460-483 | a snapshot of what the older builder leaves of the union, the branch winning, with HEAD as its only parent, becomes HEAD; every journal stays at four or less |
| `OlderRuns.Perform` | archive/libraries/prolly_view.py:243-483 | every operation of an older lens is a step of the machine over versions, references and what each lens stages |
| `OlderRuns.RunFromNothing` | archive/libraries/prolly_view.py:231-483 | from an empty store, any number of older lenses interleaving any operations follow that machine: every read answers the state at HEAD, every history the commits as they were made, and no commit ever rests on more than four deltas |
| `OlderRuns.StoredWhole` | archive/libraries/prolly_view.py:90-130 | a version is stored as it was meant exactly when it is a delta or has at most 4096 keys |
| `JsonDocs.FindQuoted` | archive/engineering/02_gc.py:44 | scanning for runs of 64 hexadecimal digits never swallows a quotation mark, so it finds every digest that follows one |
| `JsonDocs.HexBody` | archive/libraries/delta_view.py:127-129 | escaping leaves a digest as it is |
| `JsonDocs.JoinedQuotes` | archive/libraries/delta_view.py:140-150 | what a part of a document quotes the document quotes |
| `DeltaHistory.AppliedUpdates` | archive/libraries/delta_view.py:254-258 | applying a delta sets the added keys, removes the deleted ones and leaves all others |
| `DeltaHistory.AtIndexVia` | archive/libraries/delta_view.py:469-477 | an ancestor by index can be reached through any ancestor in between |
| `DeltaHistory.MeaningGrown` | archive/libraries/delta_view.py:220-260 | later documents do not change the state at a commit |
| `DeltaHistory.SoundGrown` | archive/libraries/delta_view.py:97-164 | adding a faithful commit keeps all others faithful: index equal to first-parent depth, a snapshot equal to the full state at every positive multiple of 64, skip pointers 65 back |
| `DeltaHistory.SoundShrunk` | archive/engineering/02_gc.py:105-124 | a part of the store that keeps what its commits name stays faithful |
| `DeltaReads.LookupFrom` | archive/libraries/delta_view.py:170-214 | the walk answers as the state does, reads at most 64 commits and one snapshot, and its safety valve never fires |
| `DeltaReads.ReadStateFrom` | archive/libraries/delta_view.py:408-439 | the state at a commit, the snapshot commit having its own delta applied once more |
| `DeltaReads.WalkBack` | archive/libraries/delta_view.py:469-477 | the ancestor that many indices below, nothing past the root |
| `DeltaReads.LogFrom` | archive/libraries/delta_view.py:266-283 | the history lists the ancestors by index, newest first: the first twelve digits of their addresses, their messages and time stamps |
| `DeltaReads.SkipLands` | archive/libraries/delta_view.py:134-137 | a skip pointer leads to the ancestor 65 below; targets below it are found from there as before, a target 64 below is overshot |
| `DeltaReads.ToIndex` | archive/libraries/delta_view.py:285-310 | skip-pointer navigation never returns a commit with another index, finds what a plain parent walk finds exactly when the target is not a positive multiple of 64 an odd number of intervals below HEAD, and reads exactly `Reads(top, target)` commits, for every integer target |
| `DeltaReads.ReadsHalf` | archive/libraries/delta_view.py:14-23 | how many that is: for a target at distance d, about d/2; twice the number is at least d - 62 and at most d + 129 |
| `DeltaReads.ReadsWithin` | archive/libraries/delta_view.py:14-23 | when that stays within the d/64 + 64 of the documentation, taken without a factor: exactly when fewer than one round of two intervals is needed, or one or two rounds are and HEAD stands early enough in its interval; never from d = 256 on |
| `DeltaLog.LogNamesDistinct` | archive/libraries/delta_view.py:316-323 | HEAD and the branches of a log have different names |
| `DeltaLog.AddedIsSound` | archive/libraries/delta_view.py:97-164 | a commit that fits keeps the log sound and stands for the intended state |
| `DeltaLog.StaleIsUnsound` | archive/libraries/delta_view.py:458-467 | a stored commit whose index is not the one after its parent makes the log unsound |
| `DeltaLog.FullState` | archive/libraries/delta_view.py:479-489 | reading through the temporarily moved name gives the state at the commit and puts the name back |
| `DeltaLog.WriteStaged` | archive/libraries/delta_view.py:107-150 | the stored part of a commit, with compaction and skip pointer, stands for the parent state with the delta applied; the log stays sound exactly when the index given is the one after the parent |
| `DeltaLog.WriteMerge` | archive/libraries/delta_view.py:364-403 | a merge stands for the union of both states, the branch winning; the log stays sound exactly when the index given is the one after the parent |
| `DeltaLog.DeltaView.Commit` | archive/libraries/delta_view.py:97-164 | commit makes the staged additions and deletions, key by key, the only differences between the old and the new state at HEAD, records message, time stamp and index, and fails exactly when nothing is staged; through an instance whose log others may have written to since, it keeps the log sound exactly when the cached index is the one HEAD calls for |
| `DeltaLog.DeltaView.Lookup` | archive/libraries/delta_view.py:170-214 | lookup answers as the state at HEAD does after at most 64 commits read, so a key deleted by the last commit is not found |
| `DeltaLog.DeltaView.ReadAll` | archive/libraries/delta_view.py:220-260 | read_all is the state at HEAD |
| `DeltaLog.DeltaView.History` | archive/libraries/delta_view.py:266-283 | the first-parent line of HEAD with twelve-digit addresses, messages, timestamps and indices |
| `DeltaLog.DeltaView.HistoryToIndex` | archive/libraries/delta_view.py:285-310 | the exact reach of skip-pointer navigation from HEAD, and the exact number of commits it reads |
| `DeltaLog.DeltaView.Branch` | archive/libraries/delta_view.py:316-323 | a branch is put on HEAD; refused on an empty log |
| `DeltaLog.DeltaView.Checkout` | archive/libraries/delta_view.py:325-335 | HEAD goes to the branch, which becomes active, and the cached index is right again, even if it was stale |
| `DeltaLog.DeltaView.Undo` | archive/libraries/delta_view.py:346-358 | HEAD goes back by that many indices, stopping at the root, the cached index is right again, even if it was stale, and the active branch stays active |
| `DeltaLog.DeltaView.Merge` | archive/libraries/delta_view.py:364-403 | merge appends the union of both states, the branch winning, with message, time stamp and index, and keeps staging; it keeps the log sound exactly when the cached index is the one HEAD calls for |
| `DeltaLog.TwoInstances` | archive/libraries/delta_view.py:111-162 | two instances of one log: a commit through the first makes the cached index of the second stale, and a commit through that makes the log unsound |
| `Gc.ReachableLeast` | archive/engineering/02_gc.py:77-104 | an address is reachable exactly when every set that holds the names and is closed under links holds it |
| `Gc.Enqueue` | archive/engineering/02_gc.py:97-102 | exactly the embedded addresses that are not marked yet are queued |
| `Gc.MarkedOne` | archive/engineering/02_gc.py:91-104 | marking one address keeps everything met reachable and everything reachable from marked documents met |
| `Gc.Mark` | archive/engineering/02_gc.py:77-104 | the worklist terminates and marks exactly what is reachable from the names |
| `Gc.Sweep` | archive/engineering/02_gc.py:106-124 | exactly the unmarked documents are deleted, and counted |
| `Gc.Collect` | archive/engineering/02_gc.py:73-135 | collection keeps exactly the stored documents reachable from names, as they were, and returns the number of reachable addresses and of deleted documents |
| `Gc.CollectTwice` | archive/engineering/02_gc.py:324-353 | a second collection deletes nothing |
| `JsonDocs.FoundThere` | archive/engineering/02_gc.py:26-29 | what the search finds is 64 hexadecimal digits that stand in the text |
| `DeltaGc.MentionsFound` | archive/engineering/02_gc.py:26-29 | every address that a document of the log mentions is found in its JSON text |
| `DeltaGc.LiveData` | archive/engineering/02_gc.py:63-64 | the data behind every key of a live state is reachable |
| `DeltaGc.KeptIsSound` | archive/engineering/02_gc.py:63-64 | after collection the log is sound and its commits stand for what they stood for |
| `DeltaGc.CollectLogs` | archive/engineering/02_gc.py:73-135 | collection leaves the state and the data of every log, and the state and all ancestors of every kept commit, branch tips included, as they were, and is idempotent |
| `Replication.SafeRuns` | scripts/phase_l_hazard_simulator.py:263-357 | in every run, with a grace period of at least the lag plus the time a compaction takes, whatever the replica resolves is still stored |
| `Replication.UnsafeRun` | scripts/phase_o_remaining_hazards.py:359-370 | with any shorter grace period there is a run in which the replica resolves a deleted blob |
| `Replication.GraceIsExact` | scripts/phase_l_hazard_simulator.py:313-343 | all disciplined runs are safe exactly when the grace period covers the lag plus the compaction time |
| `Replication.RebindExact` | scripts/phase_l_hazard_simulator.py:263-339 | pointing any name at a stored blob is safe, whatever is collected later, exactly when the blob carries no mark |
| `Replication.NeverGoesBack` | scripts/phase_l_hazard_simulator.py:345-357 | of the updates made at least the lag before a reading, a later reading counts at least as many as an earlier one; with a positive lag these are what the simulator answers by |
| `Replication.CatchesUp` | scripts/phase_l_hazard_simulator.py:345-357 | once the last update of a name is as old as the lag, the value the lag before the reading is the one on the primary; with a positive lag that value is what the simulator answers |
| `Replication.GuardedStep` | scripts/phase_l_hazard_simulator.py:263-357 | every event keeps each blob visible through the replica stored, and each marked one abandoned in time |
| `HazardSimulator.SyncOne` | scripts/phase_l_hazard_simulator.py:352-356 | replaying one log moves its name, and no other, to the cutoff |
| `HazardSimulator.SyncStarts` | scripts/phase_l_hazard_simulator.py:352-356 | whatever an earlier sync left in the table, there is an update that replaces it |
| `HazardSimulator.HazardSimulator.Write` | scripts/phase_l_hazard_simulator.py:159-190 | a write puts the data under its address, unless something is there, and changes no other blob |
| `HazardSimulator.HazardSimulator.Reference` | scripts/phase_l_hazard_simulator.py:263-276 | an update is bound on the primary and logged with its time; a missing blob changes nothing |
| `HazardSimulator.HazardSimulator.MaybeSync` | scripts/phase_l_hazard_simulator.py:345-357 | every sync, with any lag, leaves the table at the state of the lag ago; no sync goes back |
| `HazardSimulator.HazardSimulator.ResolveSecondary` | scripts/phase_l_hazard_simulator.py:282-287 | the answer is the value the lag ago by the logs of the last sync; with a positive lag exactly the value the primary had |
| `HazardSimulator.ReadsNeverGoBack` | scripts/phase_l_hazard_simulator.py:345-357 | with any lag: as the logs that syncs went through only grow, a later read never answers with an older update |
| `HazardSimulator.HazardSimulator.MarkOrphaned` | scripts/phase_l_hazard_simulator.py:313-316 | a mark is the mark event of the timed machine |
| `HazardSimulator.HazardSimulator.GcCollect` | scripts/phase_l_hazard_simulator.py:318-339 | exactly the marked blobs whose grace period is over, and which no race spares, are deleted and unmarked; the data of all others stays |
| `HazardSimulator.NoLagMisses` | scripts/phase_l_hazard_simulator.py:345-357 | without lag an update made at the reading of the last sync is missed |
| `HazardSimulator.MissedExactly` | scripts/phase_l_hazard_simulator.py:345-357 | without lag, a read at the reading of the last sync is exact precisely when the updates since then left the name at the same blob |
| `Compaction.CompactSafe` | scripts/phase_o_remaining_hazards.py:359-370 | a compaction that takes at most d and reinstates no marked pack keeps the region safe |
| `Compaction.CompactExact` | scripts/phase_o_remaining_hazards.py:359-370 | after a compaction of a safe region every later read of the replica finds its pack, whatever is collected meanwhile, exactly when the new pack was neither marked nor the current one |
| `Compaction.MarkedIsLost` | scripts/phase_o_remaining_hazards.py:359-370 | compacting to a marked pack or to the current one: when its grace period is over it is gone, and the replica resolves it |
| `Compaction.Reinstated` | scripts/phase_o_remaining_hazards.py:353-385 | compacting to the data that the current pack holds already leaves the replica with a pack that is gone, for every lag and grace period |
| `Compaction.OldPackStays` | scripts/phase_o_remaining_hazards.py:359-370 | the old pack survives its own compaction exactly when the collection comes within the grace period or spares it |
| `Compaction.ReadSafe` | scripts/phase_l_hazard_simulator.py:282-287 | in a safe region the pack that the replica resolves is stored |
| `Compaction.ConcurrentCompactionReplication.WritePack` | scripts/phase_o_remaining_hazards.py:353-357 | writing a pack that is not marked keeps the region safe |
| `Compaction.ConcurrentCompactionReplication.Compact` | scripts/phase_o_remaining_hazards.py:359-370 | compaction remembers and marks the old pack, binds the new one, collects, and keeps the region safe under those conditions; and exactly when the old pack survives it |
| `Compaction.ConcurrentCompactionReplication.SecondaryReadOldPack` | scripts/phase_o_remaining_hazards.py:372-385 | whether the last pack compacted away is still stored; in a safe region it is as long as the replica resolves it |
| `Compaction.ConcurrentCompactionReplication.SecondaryRead` | scripts/phase_l_hazard_simulator.py:282-287 | in a safe region the replica finds the pack it resolves |
| `Pruning.MinIsMin` | archive/legacy-extensions/collection_metadata.py:232-255 | the accumulated minimum is a lower bound that some row attains |
| `Pruning.PruneSound` | archive/legacy-extensions/pruning.py:226-249 | a pruned row group holds no row that the filter accepts, for conjunctions and disjunctions |
| `Pruning.ZoneSound` | archive/legacy-extensions/pruning.py:145-199 | a value within the bounds that satisfies the operator is never ruled out |
| `Pruning.OrderedPruneExact` | archive/legacy-extensions/pruning.py:175-186 | for the four orderings and attained bounds a row group is pruned exactly when no row matches |
| `Pruning.ZoneExact` | archive/legacy-extensions/pruning.py:145-199 | for every operator, exactly what bounds rule out: equality and the orderings when no value between them satisfies, an inequality only without nulls, a list of values when it lies all below or all above |
| `Pruning.PruneExactly` | archive/legacy-extensions/pruning.py:226-249 | a conjunction prunes when one side is ruled out, a disjunction when all are, and no predicate without sides |
| `Pruning.ChunkExact` | archive/legacy-extensions/column_chunk_zone_map.py:193-221 | chunks rule out what bounds do, but never an inequality, and nothing without bounds |
| `Pruning.NullsCounted` | archive/legacy-extensions/collection_metadata.py:247-248 | the null count is the number of rows with an explicit null |
| `Pruning.ValuelessCounted` | bindings/python/sdk/extensions/physical_structures/column_source.py:103-112 | the null count of a chunk is the number of its rows that are null or have no value |
| `Pruning.ChunkSound` | archive/legacy-extensions/column_chunk_zone_map.py:193-221 | a pruned chunk holds no row that matches |
| `ZoneMapBuild.ComputeZoneMap` | archive/legacy-extensions/collection_metadata.py:213-260 | one pass gives for every selected column exactly its minimum, maximum and null count, and nothing for the others |
| `ZoneMapBuild.ExactMeans` | archive/legacy-extensions/collection_metadata.py:232-255 | minimum and maximum are attained bounds and the null count is the number of nulls, for the columns asked for and no others |
| `ZoneMapBuild.RowWith` | archive/legacy-extensions/collection_metadata.py:239-254 | entering one value keeps the accumulated statistics exact |
| `ZoneMapBuild.ListStats` | bindings/python/sdk/extensions/physical_structures/column_source.py:92-134 | the statistics of a slice are its true minimum and maximum and the number of values that are null or missing |
| `ZoneMapBuild.BuildChunks` | archive/legacy-extensions/column_chunk_zone_map.py:88-130 | every chunk of every column gets its index, its true minimum and maximum, and the number of its rows without a value |
| `ZoneMapIndex.RangeOfZones` | archive/legacy-extensions/zone_map_index.py:298-302 | filtering the manifest by range is listing the keys in range |
| `ZoneMapIndex.SortSorts` | archive/legacy-extensions/zone_map_index.py:295-296 | the stable sort by key orders any listing and keeps what is in it |
| `ZoneMapIndex.ManifestSorted` | archive/legacy-extensions/zone_map_index.py:295-296 | the manifest is in key order already, so sorting it changes nothing |
| `ZoneMapIndex.ScanManifest` | archive/legacy-extensions/zone_map_index.py:290-321 | the one-blob path yields the unpruned zone maps of the range in key order, and counts those examined |
| `ZoneMapIndex.ScanBlobs` | archive/legacy-extensions/zone_map_index.py:323-363 | the path over single blobs yields the same |
| `ZoneMapIndex.UnprunedLists` | archive/legacy-extensions/zone_map_index.py:290-363 | the list has, in strictly increasing order, exactly the committed keys that do not begin with an underscore, lie between the bounds, both included, and are not pruned |
| `ZoneMapIndex.CommittedReplaces` | archive/legacy-extensions/zone_map_index.py:134-146 | committing sets the staged keys, removes those staged for deletion and leaves all others |
| `ZoneMapIndex.ZoneMapIndex.constructor` | archive/legacy-extensions/zone_map_index.py:85-100 | one index serves any number of collections, with or without manifests, on any store whose manifests list what is committed |
| `ZoneMapIndex.ZoneMapIndex.AddZoneMap` | archive/legacy-extensions/zone_map_index.py:110-132 | a zone map is stored and staged for its collection; no committed one and no other collection changes |
| `ZoneMapIndex.ZoneMapIndex.ClearZoneMaps` | archive/legacy-extensions/zone_map_index.py:369-395 | every visible committed key is staged for deletion, and counted |
| `ZoneMapIndex.ZoneMapIndex.CommitZoneMaps` | archive/legacy-extensions/zone_map_index.py:134-170 | what is staged for a collection is committed and its manifest lists exactly the committed zone maps; refused, changing nothing, exactly when nothing is staged or the lens below cannot pack keys and message |
| `ZoneMapIndex.ZoneMapIndex.ScanWithPruning` | archive/legacy-extensions/zone_map_index.py:249-363 | whichever path is taken, in strictly increasing key order exactly the committed zone maps whose key does not begin with an underscore, lies between the bounds, both included, and is not pruned; the total equals the number in range exactly when the collection has a manifest or was committed, or the last scan through the index, of whatever collection, left zero |
| `ZoneMapIndex.ZoneMapIndex.BothPaths` | archive/legacy-extensions/zone_map_index.py:287-363 | with a manifest both paths yield the same sequence and count for every predicate and range |
| `PruningReader.SkippedGroups` | archive/legacy-extensions/pruning_reader.py:232-247 | skipping pruned row groups loses no row that the filter keeps |
| `PruningReader.ChunkPredicates` | archive/legacy-extensions/pruning_reader.py:218-224 | an operator is used for exactly the named columns that some predicate is about, and it is that of the last predicate on the column |
| `PruningReader.ComputeSurviving` | archive/legacy-extensions/pruning_reader.py:110-164 | the surviving chunks are those that might match on every predicate column with statistics |
| `PruningReader.SliceRows` | archive/legacy-extensions/pruning_reader.py:166-182 | the rows kept are those of the surviving chunks, in order |
| `PruningReader.SurvivorsEnough` | archive/legacy-extensions/pruning_reader.py:239-264 | for every conjunction, and every disjunction that can do with it, reading only the surviving chunks loses no row that the filter keeps |
| `PruningReader.AllChunks` | archive/legacy-extensions/column_chunk_zone_map.py:113-128 | the chunks of a row group, one after the other, are its rows |
| `PruningReader.PruningReader.Scan` | archive/legacy-extensions/pruning_reader.py:184-277 | for every predicate, filter and choice of columns: what a consumed scan yields; when the predicate can do with chunk pruning, the accepted rows among them are those of a full scan that filter and predicate keep, in the same order, and with a filter that implies the predicate they are all; examined plus pruned row groups are the zone maps in range exactly when no predicate is given, or the collection has a manifest or was committed, or the last scan through the shared index left a total of zero |
| `PruningReader.ScanWithPlaces` | archive/legacy-extensions/pruning_reader.py:184-277 | the rows of a scan are exactly those that the filter keeps, in row groups that the predicate does not prune, in chunks that the last predicate on no named column rules out, in the order of row groups and positions |
| `PruningReader.ScanPlaced` | archive/legacy-extensions/pruning_reader.py:218-270 | what is read group by group and chunk by chunk is exactly that |
| `PruningReader.EmptyScan` | archive/legacy-extensions/zone_map_index.py:323-328 | scanning a collection without zone maps reports as pruned whatever total an earlier scan left |
| `PruningReader.StaleTotal` | archive/legacy-extensions/pruning_reader.py:272-277 | a collection with n zone maps is scanned and then, through the same index, one without any: the second scan reports n pruned row groups |
| `PruningReader.Interleaved` | archive/legacy-extensions/pruning_reader.py:272-277 | two scans through one index, the second started before the first has ended: the first counts with the total of the second |
| `PruningReader.ChunkSafeExact` | archive/legacy-extensions/pruning_reader.py:110-182 | for any predicate and columns, reading the surviving chunks of every row group with true statistics loses no accepted row exactly when the predicate is a conjunction, or each side that some value satisfies meets only operators that never prune on the other named columns, and all its values are read on its own |
| `PruningReader.LosesRow` | archive/legacy-extensions/pruning_reader.py:150-182 | an accepted row whose value on a named column is ruled out is missing from what the read of a row group yields |
| `PruningReader.ReadGroup` | archive/legacy-extensions/pruning_reader.py:236-270 | one row group yields the rows in surviving chunks that the filter keeps |
| `RowGroups.AddRowGroup` | archive/legacy-extensions/collection_metadata.py:178-211 | a row group is stored with exactly the statistics of its rows, of the columns and chunks asked for, and can be trusted by every later scan |
| `RowGroups.TruthfulApplied` | archive/legacy-extensions/zone_map_index.py:134-146 | committing keeps all statistics true |
| `RowGroups.LoadAndScan` | archive/legacy-extensions/collection_metadata.py:178-211 | adding row groups, committing and scanning yields the full scan and filter of the committed row groups, with no assumption about the new statistics; everything written is committed exactly when something is staged and keys and message can be packed |
| `RowGroups.Load` | archive/legacy-extensions/zone_map_index.py:110-170 | after adding and committing, exactly when something is staged and keys and message can be packed, the committed entries lead to the data written last under each key, with exactly its statistics; otherwise it all stays staged |
| `RowGroups.WrittenLast` | archive/legacy-extensions/zone_map_index.py:110-132 | every key written is there, with the data of the last row group written under it |
| `RowGroups.Rebuild` | archive/legacy-extensions/collection_metadata.py:178-211 | clearing, adding and committing leaves exactly the keys written visible, apart from keys that were only staged before |
| `RowGroups.TruthfulScans` | archive/legacy-extensions/pruning_reader.py:232-247 | true statistics are what a scan relies on |
| `ColumnChunks.WriteRowGroup` | archive/legacy-extensions/column_chunk_storage.py:75-169 | every column is split into chunk blobs that decode to its chunks, listed in a manifest under the row-group key, and a zone map with their addresses and true statistics |
| `ColumnChunks.ReadFullRowGroup` | archive/legacy-extensions/column_chunk_storage.py:171-204 | concatenating the chunks restores every column |
| `ColumnChunks.ReadColumnChunks` | archive/legacy-extensions/column_chunk_storage.py:206-260 | what a columnar read of surviving chunks concatenates to is the column of the rows at their positions; nothing at all when a chunk to be read has no address |
| `PackFile.PackRoundTrip` | archive/experiments/packed_backend.py:76-159 | for every dictionary within the field widths a pack gives each blob back exactly, nothing for absent hashes, and the whole dictionary in bulk |
| `PackFile.PackEntry` | archive/experiments/packed_backend.py:88-103 | every index entry leads to its blob: the offsets match the concatenated layout |
| `PackFile.PackLayout` | archive/experiments/packed_backend.py:62-103 | the word POND, the count, then per blob hash, offset in eight bytes and length in four; the data starts behind the index and follows in order |
| `PackFile.Create` | archive/experiments/packed_backend.py:76-103 | the incremental offsets build that layout; the index returned beside the pack names exactly the blobs, and each offset and length cuts the blob out of the pack; creation fails exactly when a field does not fit |
| `PackFile.ReadBlob` | archive/experiments/packed_backend.py:105-130 | the linear search over the index, short and malformed files included |
| `PackFile.ReadAllBlobs` | archive/experiments/packed_backend.py:132-159 | the bulk read of the index, short and malformed files included |

## Left out

- LensRuns.Run: opening a lens in the middle of a run is not an operation of the script; a lens opened on a sound repository satisfies what a further run requires.  A commit that no lens wrote is not named.
- VersionedMap.Step: the refusal of a commit is stated for all layouts at once; `ProllyLens.Lens.Commit` states exactly when it happens.
- OlderLens: its commits are written in the layout of the later lens, which has one more flag byte, for the second parent.
- Gc.Collect: counts of bytes and samples; what is staged but not committed is not protected, as the exact set of survivors shows.
- ZoneMapIndex: the lens below it is represented by its committed state, what is staged, its counters and when a commit packs, which `LensRuns.Run` justifies; the name that points at the tree root.
- PruningReader.PruningReader.Scan: a scan is consumed in one go, but for `PruningReader.Interleaved`; the counters `data_blobs_read` and `column_chunks_pruned`; decoding is a function to a list of rows.
- Pruning: one totally ordered type for all columns, nulls match nothing, and values of other types do not occur.
- HazardSimulator: lag on reads and listings, partial writes and reads, partitions, corruption and clock skew.
- Defaults of commit messages.
- Names of different collections or logs that render to the same string.
- Diff and prefix lookup of lenses, lists of branches, secondary indexes, and the subclasses' encoders.
- The tiered commit model, the object-store kernel, incremental indexes, zone-map compaction and encoded chunks.
- File systems, object stores, databases, HTTP, Parquet and the bindings to other languages.
