# KBFS client core: a verified model

KBFS keeps each folder as a tree of immutable, content-addressed blocks under a signed metadata
revision. A client changes files in a local cache of dirty blocks, copies changed directories up to a
new root, and appends a metadata revision; clients that collide go to branches of their own and merge
later; blocks that no revision needs any more are archived and in the end deleted. This project models
that client core and proves what it is for:

* `FlatFile`, `FileBlocks`, `BlockCache`, `FolderBlocks`, `FileRuns` — the file data path. A file of any
  number of blocks behaves as one flat byte string under writes, truncates and reads; a sync works on a
  snapshot that operations arriving meanwhile cannot change; and those operations, replayed on the synced
  file, give what the user saw.
* `Merkle`, `PathCopy`, `Renames`, `SyncTrees`, `PathTrees` — directories. Copying a path up to the root is
  replacing one entry of the tree; rename is a move; conflict resolution makes one tree of the resolved paths
  and writes all the changed blocks on it back, each once and children first.
* `ChainHistory`, `ChainCollapse`, `CRChains`, `ChainReplay`, `ActionCollapse` — conflict resolution's view of
  a stretch of history: where every block pointer has got to, what was done to every node, that this, done
  again, makes the directories what they are, and what of it, and of the actions derived from it, is left
  after collapsing.
* `Reclamation`, `BlockRefs`, `PathRefs` — archiving and quota reclamation: what a reclamation deletes, what
  stays readable over whole runs, and that the references a history counts are those its root reaches.
* `MDHistory` — any number of clients writing metadata revisions through one server, over a network that
  loses requests and replies.
* `NodeSearch` — resolving pointers to paths by searching changed directories only.
* `Padding` — block padding and the choice of the block size.
* `Pointers` — what these share.

State that the program updates in place is modelled by classes with the same fields; code that only
computes is modelled by functions. Where a property the code is meant to have turned out not to hold, the
code is modelled as it is, and the exact condition under which the property does hold is proved:

* During a sync of a file of several blocks, a truncate that cuts a captured leaf does not record that leaf
  for deletion. The operations are replayed on the file that was synced if and only if some operation of the
  run writes to each captured leaf that the run cuts (`FileRuns.SyncedFile`, `FileRuns.SyncSession`). A single
  truncate that cuts such a file is therefore lost: the replayed truncate finds nothing to do, and the entry
  keeps the old size (`FileRuns.TruncateDuringSync`; `FileRuns.LostTruncate` is a five-byte file).
* Renaming an entry to itself removes it (`Renames.SelfRename`), and moving a directory right into itself
  nests a copy of it (`Renames.NestedRename`); a move deeper into itself is refused (`Renames.RenameLocked`,
  `Renames.RenameMoves`).
* Collapsing a chain forgets the removal of a name that existed before, was first overwritten by a rename
  without a removal being recorded (as over a symbolic link, which has no block to unreference), and was
  then removed (`ChainCollapse.CollapseMeaning`, `ChainReplay.CollapsedReplays`; `ChainCollapse.CollapseLoses`
  is such a chain).
* Giving a chain another original leaves pointers traced back to the old one without a chain, and the two
  indexes in disagreement, unless the chain's pointer never changed or had become the new original
  (`CRChains.CrChains.ChangeOriginal`; `CRChains.ChangeOriginalBreaks` is a node replaced twice).
* Collapsing actions loses one if an unmerged name looks like the key of a merged one
  (`ActionCollapse.CollapseCovers`; `ActionCollapse.ClashLoses` is a pair of renames).
* Reclamations do not lie side by side: a client picks its head before it takes the lock, and if another
  reclamation was recorded after that head, it goes over the same revisions again and may record an earlier
  end. They do if and only if no recorded one went by such a head (`BlockRefs.ReclamationsTile`;
  `BlockRefs.OverlappingRun` is a run of two). Nothing in use is lost by it (`BlockRefs.ReferencesStayLive`).
* A staged client's write reaches the server if and only if the server's branch ends at the client's head
  (`MDHistory.StagedWrite`). It does not in exactly two cases: the branch is gone and the server has no record
  of it for the device, or the branch is one revision ahead because the reply to the client's last write was
  lost (`MDHistory.NotAtEnd`). Then no write gets through until the client resolves, gives the branch up or
  starts over (`MDHistory.StuckWrites`; `MDHistory.ReplyLostRun` and `MDHistory.PruneLostRun` are such runs).
* A client whose branch the server has no record of any more, because the reply to a prune was lost, stays
  staged however often it resolves, even if its resolutions are merged (`MDHistory.ResolutionDone`,
  `MDHistory.NeverResolved`). Giving the branch up leaves it on an unmerged revision while it counts as not
  staged, unless the server still has the branch or the merged history has got as far as the client
  (`MDHistory.UnstageStands`; `MDHistory.PruneLostRun` reaches a state where neither holds).
* Giving up a branch need not be for good: if the request to prune it is lost, the client is back on it once it
  has started over (`MDHistory.BranchComesBack`; `MDHistory.BackAgainRun` is such a run). Otherwise it is not
  (`MDHistory.GivenUpForGood`).
* Padding is reversible only for blocks shorter than 2^32 bytes (`Padding.PadRoundTrip`;
  `Padding.LongBlockLost` is the shortest that is not). Removing it checks the length in front, except that
  the comparison wraps around for lengths within four of 2^32 (`Padding.DepadExact`, `Padding.DepadShort`).

## Model

| member | source | states |
|---|---|---|
| FileBlocks.CopyUntilSplit | kbfs/libkbfs/bsplitter_simple.go:79-113 | the block afterwards is the old one, zero-filled up to the offset, with the bytes counted by the result written over it; all the data fits or ends in the old block, or exactly what fits under the maximum size is taken, and nothing if there is no room |
| BlockCache.FindLeaf | kbfs/libkbfs/folder_block_ops.go:495-541 | the search through the indirect pointers finds the last leaf that starts at or before the offset |
| FlatFile.ByteAfterRun | kbfs/libkbfs/folder_block_ops.go:1204-1415 | every byte of a file after any run of writes and truncates is the one written by the last operation within the size limit that touched its position, 0 if that was a truncate or the position was first reached in the run, and the old byte if there was none |
| FlatFile.LengthAfterRun | kbfs/libkbfs/folder_block_ops.go:1204-1415 | the file has a byte at a position after the run if and only if it had and nothing cut it off, or an operation reached beyond it and none after that cut it off |
| FlatFile.LimitKept | kbfs/libkbfs/folder_block_ops.go:1052-1054 | no run takes a file beyond the size limit |
| FlatFile.RefusedIff | kbfs/libkbfs/folder_block_ops.go:1052-1054 | an operation of a run is refused if and only if it would take the file beyond the limit, or is an empty write that points beyond it |
| FolderBlocks.FolderBlockOps.CacheBlockIfNotYetDirty | kbfs/libkbfs/folder_block_ops.go:688-716 | the block replaces the cached one exactly where that is not dirty or is held by a sync, and a write to any pointer under sync is to be deferred |
| FolderBlocks.FolderBlockOps.NewRightBlock | kbfs/libkbfs/folder_block_ops.go:718-760 | a new empty leaf under an unused ID becomes the last one at the given offset, and the top block is dirty; no other pointer of the file changes |
| FolderBlocks.FolderBlockOps.GetFileBlockAtOffset | kbfs/libkbfs/folder_block_ops.go:495-541 | returns the leaf whose range holds the offset, the last one for offsets beyond the end, and a block that is new or may be written: never one a sync holds |
| FolderBlocks.FolderBlockOps.MakeIndirect | kbfs/libkbfs/folder_block_ops.go:1100-1137 | a file's only block becomes the first leaf of a new top block with an empty leaf to its right, with the same contents |
| FolderBlocks.FolderBlockOps.WriteLoop | kbfs/libkbfs/folder_block_ops.go:1082-1189 | the loop that copies data into one leaf after another, adding leaves and levels, ends, never finds an inconsistent split, and has written all the data into the flat contents |
| FolderBlocks.FolderBlockOps.WriteData | kbfs/libkbfs/folder_block_ops.go:1047-1199 | the flat contents become the old ones with the data written at the offset, zero-filled where there was a gap; a file beyond the limit is refused and nothing changes; no block a sync holds changes; a write to a file under sync is deferred unless it changes nothing; every pointer made dirty is reported, and on a file of several blocks exactly those of the leaves the data goes to and the file's own |
| FolderBlocks.FolderBlockOps.ShrinkIndirect | kbfs/libkbfs/folder_block_ops.go:1309-1342 | cutting a file of several blocks drops the leaves after the cut and shortens the leaf at it, which is cutting the flat contents |
| FolderBlocks.FolderBlockOps.TruncateDirect | kbfs/libkbfs/folder_block_ops.go:1261-1360 | a file of one block is cut, or extended by zeros, to the size, and the change is deferred under a sync; an extension reports every pointer it makes dirty, each the file's own or a new one, and a cut reports none |
| FolderBlocks.FolderBlockOps.TruncateIndirect | kbfs/libkbfs/folder_block_ops.go:1261-1360 | a file of several blocks likewise; a cut puts back just the leaf it shortens and reports no pointer, an extension reports those of the leaves it goes to |
| FolderBlocks.FolderBlockOps.TruncateData | kbfs/libkbfs/folder_block_ops.go:1261-1360 | the flat contents are cut, or extended by zeros, to the size; an extension beyond the limit changes nothing; every pointer an extension makes dirty is reported, and on a file of one block only its own and new ones; a cut of a file of several blocks reports none of the pointers it makes dirty |
| FolderBlocks.FolderBlockOps.Read | kbfs/libkbfs/folder_block_ops.go:935-974 | the loop over leaves fills the buffer with exactly the flat contents from the offset on, up to its length or the end of the file, and returns how many bytes that are |
| FolderBlocks.FolderBlockOps.Apply | kbfs/libkbfs/folder_block_ops.go:1204-1415 | a write or truncate takes effect on the flat contents at once, and is queued as well when the file is under sync and it changes anything; with it the pointers it reports, and only those, are recorded for deletion; unless it shortens the file it reports every pointer it makes dirty |
| FolderBlocks.FolderBlockOps.SplitLeaf | kbfs/libkbfs/folder_block_ops.go:1629-1665 | the leaf is cut at the split point, the bytes beyond it go in front of the next, or a new, leaf, the leaves before it are left alone and the flat contents are as they were |
| FolderBlocks.FolderBlockOps.FillLeaf | kbfs/libkbfs/folder_block_ops.go:1666-1718 | the leaf gets as many bytes of the next one as the splitter takes, the next one goes when it is used up, the leaves before it are left alone and the flat contents are as they were |
| FolderBlocks.FolderBlockOps.Rebalance | kbfs/libkbfs/folder_block_ops.go:1629-1718 | for any splitter that keeps its contract the loop over dirty leaves ends, never meets a dirty leaf with an encoded size, and leaves the flat contents as they are; every leaf dirty afterwards ends where the splitter asked when it saw the bytes from the start of the leaf on; a splitter that is content with its own splits would split none of them again; with a splitter that is always content nothing changes |
| BlockCache.EndsSettled | kbfs/libkbfs/interfaces.go:956-960 | a leaf that ends where such a splitter asked is not split again by it |
| FolderBlocks.FolderBlockOps.ReadyLeaves | kbfs/libkbfs/folder_block_ops.go:1720-1757 | no inconsistency is found, every leaf is afterwards held under a clean pointer with its contents, and every pointer marked as under sync is among those returned |
| FolderBlocks.FolderBlockOps.StartSync | kbfs/libkbfs/folder_block_ops.go:1554-1765 | the sync captures exactly the file's contents at that moment, and every captured block is marked so that the next write copies it |
| FolderBlocks.FolderBlockOps.ApplyInSync | kbfs/libkbfs/folder_block_ops.go:1204-1415 | whatever is written or cut while a sync is in flight, no captured block changes, the operation shows at once, and it is queued whenever it reaches any leaf; exactly the leaves it writes to are recorded; every pointer made dirty since the sync began is recorded for deletion, shadows a clean block or was dirty before |
| FolderBlocks.FolderBlockOps.FollowInSync | kbfs/libkbfs/folder_block_ops.go:1204-1415 | as it goes on, which captured leaves the file still has, which were written to and which were cut is a function of the lengths and operations alone |
| FolderBlocks.FolderBlockOps.SwitchAfter | kbfs/libkbfs/folder_block_ops.go:1883-1928 | what is left once the recorded blocks are dropped shows the captured contents if and only if every captured leaf that was cut was also written to; every pointer then dirty was so before the sync or shadows a clean block |
| FolderBlocks.FolderBlockOps.FinishSync | kbfs/libkbfs/folder_block_ops.go:1875-1935 | replaying the queued operations on the synced file gives exactly the contents the old path showed, and nothing is left queued; every pointer then dirty was so before the sync, shadows a clean block, or was made by the replay |
| FolderBlocks.FolderBlockOps.FinishCutSync | kbfs/libkbfs/folder_block_ops.go:1875-1935 | after a sync during which a leaf was cut, the replayed truncate does nothing: the entry keeps the old size and the file counts as clean |
| FileRuns.RunAndRead | kbfs/libkbfs/folder_block_ops.go:1204-1415 | after any run of writes and truncates, a read sees what the same run does to a flat byte string |
| FileRuns.SyncSession | kbfs/libkbfs/folder_block_ops.go:1816-1935 | what is synced is the contents at the start of the sync, and after it the file has those with all operations made during the sync applied in order: for every run on a file of one block, and otherwise for every run that writes to each captured leaf it cuts; every pointer then dirty was so before the sync, shadows a clean block, or was made by the replay, of which there are none if nothing was replayed |
| FileRuns.SyncedFile | kbfs/libkbfs/folder_block_ops.go:1875-1928 | for every run: the file the queued operations are replayed on is the one that was synced if and only if the run writes to each captured leaf it cuts; every pointer dirty then was dirty before or shadows a clean block |
| FileRuns.TruncateDuringSync | kbfs/libkbfs/folder_block_ops.go:1366-1415 | a single truncate during a sync survives it if and only if the file had a single block or the truncate does not cut it; otherwise the entry keeps the old size and the file counts as clean |
| FileRuns.LostTruncate | kbfs/libkbfs/folder_block_ops.go:1366-1415 | five bytes in blocks of four, truncated to one during a sync, are five again |
| PathCopy.TreeWriter.GetDir | kbfs/libkbfs/folder_branch_ops.go:1286-1306 | a directory is taken from the local cache if it is there and otherwise is a private copy of the stored one |
| PathCopy.TreeWriter.EnterInParent | kbfs/libkbfs/folder_branch_ops.go:1308-1367 | the parent's entry points to the new block, keeping its type if it was there, with the times given and otherwise those it had; the pointer it gives up is logged; an entry is made only where that is allowed, and otherwise nothing changes |
| PathCopy.TreeWriter.SyncBlock | kbfs/libkbfs/folder_branch_ops.go:1243-1394 | the loop readies the block and every directory above it up to the root or the stopping point: what the root entry, or the cached stopping directory, then lists denotes the tree with only that entry replaced; the returned path leads there, and up to the root it is made of copies of the old directories, each with just the next entry changed; the entry written back gets the times asked for, its directory's entry too if it is new, and every other entry of the path keeps its times; every new block is among the ones to be put; the old pointers are given up from the bottom up, each once, and the new ones logged are those of the new path; it fails if and only if a directory of the path does not list the next one, and then the root entry is unchanged |
| Renames.SyncEntry | kbfs/libkbfs/folder_branch_ops.go:1243-1394 | from a clean state, the new root denotes the old tree with exactly dir/name replaced or added |
| Renames.SetElsewhere | kbfs/libkbfs/folder_branch_ops.go:1223-1232 | replacing one subtree changes no subtree that is neither above nor below it |
| Renames.CommonAncestor | kbfs/libkbfs/folder_branch_ops.go:2299-2320 | finds the last index up to which two paths share their pointers |
| Renames.PrepRename | kbfs/libkbfs/folder_block_ops.go:869-930 | returns copies of both parents, one object if they are the same directory, and the entry; neither is in the local cache, which holds exactly the directory above the old parent with the old parent dated, if the new parent is another directory and not that one; without one the root entry is dated instead; fails if and only if the entry does not exist |
| Renames.RenameWithin | kbfs/libkbfs/folder_branch_ops.go:2325-2328 | within one directory the entry appears under the new name and the old name is gone, in the tree the new root denotes |
| Renames.RenameDown | kbfs/libkbfs/folder_branch_ops.go:2328-2335 | into a directory below the old parent, one write-back that finds the old parent in the cache makes the moved tree; it is refused if and only if the target lies deeper inside what moves |
| Renames.RenameAcross | kbfs/libkbfs/folder_branch_ops.go:2336-2361 | otherwise two write-backs sharing the common ancestor through the cache, where the new parent may be that ancestor itself, make the moved tree |
| Renames.RenameLocked | kbfs/libkbfs/folder_branch_ops.go:2257-2379 | in every constellation of the two parents the new root denotes the renamed tree and every block not stored before is to be put; it fails exactly if the entry is missing, the target is a directory, or the target lies deeper inside what moves, and then the root still denotes the old tree |
| Renames.RenameMoves | kbfs/libkbfs/folder_branch_ops.go:2257-2379 | what a successful rename leaves is the tree with the entry moved if and only if the entry is not renamed to itself and a directory with other entries is not moved right into itself |
| Renames.SelfRename | kbfs/libkbfs/folder_branch_ops.go:2284-2328 | a file renamed to itself is gone |
| Renames.NestedRename | kbfs/libkbfs/folder_branch_ops.go:2328-2335 | a directory moved right into itself stays and holds a copy of itself |
| SyncTrees.SyncLeaf | kbfs/libkbfs/conflict_resolver.go:2443-2494 | a leaf's block, a cached directory or a new file, is written back up to the stopping point |
| SyncTrees.SyncTree | kbfs/libkbfs/conflict_resolver.go:2439-2517 | for any order of children, what is listed above the node is its pending tree with every change below it, its directories are given up in post-order, and nothing but them and the path up to the stopping point changes |
| SyncTrees.PostOrderOnce | kbfs/libkbfs/conflict_resolver.go:2428-2438 | in a post-order every directory involved is given up exactly once |
| SyncTrees.SyncRoot | kbfs/libkbfs/conflict_resolver.go:2738-2748 | the new root denotes exactly the pending tree, every new block is to be put, and every directory involved is given up once |
| PathTrees.AddPath | kbfs/libkbfs/conflict_resolver.go:2667-2736 | a path, and nodes for the new files of the directories on it, are added below a node |
| PathTrees.BuildTree | kbfs/libkbfs/conflict_resolver.go:2665-2736 | the tree of all the resolved paths, in any order, has a node for every directory that changed and every new file in one, and for nothing else but the directories above them |
| PathTrees.BuiltPending | kbfs/libkbfs/conflict_resolver.go:2665-2736 | what stands to be written back at such a tree is the folder with all changed directories and new files in it |
| PathTrees.BuiltApart | kbfs/libkbfs/conflict_resolver.go:2665-2736 | no directory has two nodes in it |
| PathTrees.SyncBlocks | kbfs/libkbfs/conflict_resolver.go:2660-2748 | if every directory that changed is on a resolved path, the new root denotes the folder with all changed directories and new files in it, every new block is to be put, and every directory on the paths is given up exactly once |
| PathRefs.Swapped | kbfs/libkbfs/folder_branch_ops.go:1243-1394 | where no pointer is used twice, a write-back changes the pointers reachable from the root by exactly the old and the new path and what is below the old and the new block |
| PathRefs.OnceSwapped | kbfs/libkbfs/folder_branch_ops.go:1243-1394 | and still no pointer is used twice if what is below the new block is used nowhere else |
| PathRefs.WriteBack | kbfs/libkbfs/folder_branch_ops.go:1243-1394 | the same of the write-back itself, whose log gives up the old path and entry and brings in the new path |
| PathRefs.WriteFile | kbfs/libkbfs/folder_branch_ops.go:1343-1352 | however often files are written back, what the log says is in use is what the root reaches |
| PathRefs.LedgerIsReach | kbfs/libkbfs/folder_branch_ops.go:1343-1352 | the references a history counts as in use after the revision with such a log are those of the pointers its root reaches, and the revision drops only what is in use |
| ChainCollapse.CrChain.Collapse | kbfs/libkbfs/cr_chains.go:28-64 | the two loops leave the chain without the operations that cancel each other out |
| ChainCollapse.CollapseMeaning | kbfs/libkbfs/cr_chains.go:22-64 | for every legal chain and directory, the collapsed chain does the same to the directory if and only if no name that existed was first overwritten by a rename and in the end removed |
| ChainCollapse.CollapseLoses | kbfs/libkbfs/cr_chains.go:33-48 | a legal chain that removes an existing entry and collapses to nothing |
| ChainCollapse.CollapseNormal | kbfs/libkbfs/cr_chains.go:22-64 | a collapsed legal chain holds, of any name, at most one remove and then at most one create, and collapsing it again changes nothing |
| ChainCollapse.CollapseOthers | kbfs/libkbfs/cr_chains.go:48-63 | all other operations stay, in order |
| ChainHistory.IndexAgrees | kbfs/libkbfs/cr_chains.go:222-239 | over every history in which pointers are replaced at most once and by new ones, the index maps each original pointer to where following the updates one by one leads, each current one back to its original, and each later one to an original whose trace it is on, with exactly those domains |
| CRChains.CrChains.ApplyUpdate | kbfs/libkbfs/cr_chains.go:222-239 | one update moves the chain that ends at the old pointer on, or starts one, and keeps both indexes over the same chain objects consistent |
| CRChains.CrChains.AddOp | kbfs/libkbfs/cr_chains.go:209-217 | the operation goes to the end of the chain that ends at the pointer, and fails, changing nothing, exactly if there is none |
| CRChains.CrChains.TrackBlocks | kbfs/libkbfs/cr_chains.go:241-254 | referenced pointers count as created, and the originals of unreferenced ones as deleted |
| CRChains.HistoryIs | kbfs/libkbfs/cr_chains.go:521-539 | the operations taken are exactly those of the revisions that are not copies |
| CRChains.OriginIs | kbfs/libkbfs/cr_chains.go:241-254 | what a pointer is traced back to is, if it is current, the pointer from before the history that following leads to it, and otherwise itself |
| CRChains.BlocksTold | kbfs/libkbfs/cr_chains.go:241-254 | what counts as created is what some operation references, and as deleted the originals, at that point of the history, of what some operation unreferences |
| CRChains.CrChains.TrackRename | kbfs/libkbfs/cr_chains.go:307-340 | a rename extends what is known of the renamed node's original |
| CRChains.CrChains.MakeChainForOp | kbfs/libkbfs/cr_chains.go:219-378 | an operation's updates, references and effects go into the chains, a rename as a removal, the removal of what it overwrote, and a creation; it fails exactly if it names something no chain ends at |
| CRChains.OneOpTells | kbfs/libkbfs/cr_chains.go:256-375 | one operation adds to the chain of a node exactly what it did at the node's pointer: a creation, a removal or the two or three parts of a rename at a directory, a write or an attribute change at a file; it fails if and only if it names a pointer no chain ends at |
| CRChains.ChainOps | kbfs/libkbfs/cr_chains.go:256-375 | each chain holds the operations of the whole history on its node, in their order |
| CRChains.ChainTells | kbfs/libkbfs/cr_chains.go:256-375 | which are, for every original and in order, exactly what the operations did at the pointers that the history had led it to by then |
| CRChains.ChainTouches | kbfs/libkbfs/cr_chains.go:348-366 | among them the writes and attribute changes are exactly those of the history whose file traces back to the original, before and after collapsing |
| CRChains.MadeIff | kbfs/libkbfs/cr_chains.go:219-378 | chains can be made of a history if and only if every operation names, at its turn, only pointers that are then current |
| CRChains.HistoryUpdatesAre | kbfs/libkbfs/cr_chains.go:219-239 | the updates followed are those that operations list and those of the directories and files the operations are about |
| CRChains.RenameSpan | kbfs/libkbfs/cr_chains.go:318-340 | however often a node was renamed, what is kept is where it first came from and where it ended |
| CRChains.NewCRChains | kbfs/libkbfs/cr_chains.go:513-569 | chains made from a linear history agree with it: the indexes with following every pointer through it; each chain with the collapsed operations done at the pointers its original was led to, of which no write or attribute change is missing; what was created with all references and what was deleted with the originals of all unreferenced pointers; renames with where each node first came from and ended; and the original root with that of the first revision whose root a chain ends at; copied revisions do not count; it fails if and only if an operation names a pointer that is not current at its turn |
| CRChains.RootLeads | kbfs/libkbfs/cr_chains.go:542-549 | the original of the root is the pointer that leads to the root of the first revision that counts and whose root a chain ends at, and there is none if and only if there is no such revision |
| CRChains.CrChains.ChangeOriginal | kbfs/libkbfs/cr_chains.go:644-678 | the chain is found under the new original only; the indexes agree afterwards if and only if the chain had only its original and no chain ended at the new one, or ended at the new one itself and no other at the old one; every traced pointer still leads to a chain if and only if none was traced back to the old original |
| CRChains.ChangeOriginalBreaks | kbfs/libkbfs/cr_chains.go:644-678 | a node replaced twice and given another original: the indexes disagree, and a pointer is traced back to nothing |
| ChainReplay.ChainReplays | kbfs/libkbfs/cr_chains.go:256-375 | for every linear history that could be done on real directories, the operations on a directory's chain are legal on it as it was, and make it what it is, under its current pointer |
| ChainReplay.CollapsedReplays | kbfs/libkbfs/cr_chains.go:513-569 | the collapsed chain does so too if and only if no name that existed was first overwritten by a rename and in the end removed |
| ActionCollapse.Collapse | kbfs/libkbfs/cr_actions.go:781-867 | the loops leave the collapsed list, with attributes merged into the attribute copy that stays |
| ActionCollapse.CollapseNormal | kbfs/libkbfs/cr_actions.go:792-867 | for every list: no two actions left have the same key, collapsing again changes nothing, and actions about no entry stay in order |
| ActionCollapse.CollapseOnePer | kbfs/libkbfs/cr_actions.go:792-867 | no two actions left are about the entry of the same name on the same side |
| ActionCollapse.CollapseCovers | kbfs/libkbfs/cr_actions.go:845-851 | every entry that had an action still has one if and only if no unmerged name looks like the key of a merged one |
| ActionCollapse.ClashLoses | kbfs/libkbfs/cr_actions.go:845-851 | an unmerged entry named as the key of a merged one: the rename of the merged entry is dropped |
| ActionCollapse.EntryPrecedence | kbfs/libkbfs/cr_actions.go:796-843 | if no names clash, of all actions about an entry a rename is left before an entry copy before an attribute copy, the last of its kind but the first attribute copy, and that one has exactly the attributes of all |
| Reclamation.GetMostRecentOldEnoughAndGCRevisions | kbfs/libkbfs/folder_block_manager.go:527-593 | walking back in batches of ten finds the latest revision up to the client's head that is old enough, and the end recorded by the latest operation that records one, over the whole history up to there |
| Reclamation.OldEnoughIs | kbfs/libkbfs/folder_block_manager.go:556-561 | the revision found is old enough and none after it up to the head is, or there is none |
| Reclamation.LastGCIs | kbfs/libkbfs/folder_block_manager.go:563-578 | the end found is the one recorded by the last operation in the history up to the head that records one, and 0 if and only if none does |
| Reclamation.GetUnreferencedBlocks | kbfs/libkbfs/folder_block_manager.go:600-706 | returns exactly the pointers dropped after the one revision up to another, which is the latest one asked for or the first that takes their number over a hundred; walking back in batches of ten, and the order in which positions are looked at, do not show |
| Reclamation.GatheredIs | kbfs/libkbfs/folder_block_manager.go:640-673 | the pointers gathered are exactly those that some operation of a revision gone over unreferences or replaces |
| Reclamation.PlanReclamation | kbfs/libkbfs/folder_block_manager.go:740-855 | a reclamation takes up where the last one recorded up to the client's head left off, and goes no further than some revision that is old enough nor than a hundred revisions, nor further than it needs to for more than a hundred pointers; it does nothing if and only if there is no revision to go over, or nothing to delete in any of at most a hundred that are old enough |
| BlockRefs.MemStorage.AddReference | kbfs/libkbfs/bserver_local_storage.go:95-115 | adds a live reference exactly if the block has one that is not archived; every other reference stays as it was |
| BlockRefs.MemStorage.RemoveReference | kbfs/libkbfs/bserver_local_storage.go:117-136 | removes that reference, live or archived, and, with the last one, the block; every other reference stays as it was; a block already gone is no error |
| BlockRefs.MemStorage.ArchiveReference | kbfs/libkbfs/bserver_local_storage.go:138-157 | an existing reference is archived afterwards and every other stays as it was; fails exactly if there is none |
| BlockRefs.InUseIs | kbfs/libkbfs/folder_block_manager.go:447-525 | a pointer is in use as of a revision if and only if some revision up to it brought it in and none from then on dropped it |
| BlockRefs.ReferencesStayLive | kbfs/libkbfs/folder_block_manager.go:447-855 | in every state of every run of writes, commits, abandoned writes, archiving and reclamations by any head, up to date or not, finished or given up at any point: every pointer in use is live, every pointer in use as of a revision no reclamation has taken on is still stored, and everything dropped up to the end of any reclamation recorded is gone |
| BlockRefs.ArchivedForGood | kbfs/libkbfs/folder_block_manager.go:447-525 | over any stretch of any run a reference once archived is never live again |
| BlockRefs.ReclamationsTile | kbfs/libkbfs/folder_block_manager.go:754-810 | over every run each recorded reclamation starts exactly where the one recorded before it ended if and only if none went by a head that another was recorded after; even otherwise each starts at the beginning or where an earlier one ended, ends after it started and before its own revision, and what is read back from the history is what was recorded |
| BlockRefs.OverlappingRun | kbfs/libkbfs/folder_block_manager.go:754-810 | a run in which two clients at the same head reclaim and record the same revisions |
| MDHistory.MDServer.Put | kbfs/libkbfs/mdserver_local.go:404-559 | a merged revision is appended if and only if the request arrives and it has the number after the latest one's and names that as its predecessor; the reply says which, if it arrives; nothing else changes |
| MDHistory.MDServer.PutOnBranch | kbfs/libkbfs/mdserver_local.go:444-509 | an unmerged revision is appended if and only if the request arrives and it succeeds the last of its branch or, for a new branch, the merged revision of the number before it; a new branch is recorded for the device; nothing else changes |
| MDHistory.MDServer.PruneBranch | kbfs/libkbfs/mdserver_local.go:561-592 | the record of the device's branch goes if it is that branch, and otherwise the request fails; the branch itself stays |
| MDHistory.FolderBranch.constructor | kbfs/libkbfs/folder_branch_ops.go:585-638 | a client starts at the end of the branch recorded for its device, and otherwise at the merged head |
| MDHistory.RestartDone | kbfs/libkbfs/folder_branch_ops.go:585-638 | in every run a client that starts over is staged at the end of the branch recorded for its device, which is the one it was on if it was staged, and if none is recorded it is not staged and stands on the latest merged revision |
| MDHistory.JoinDone | kbfs/libkbfs/folder_branch_ops.go:585-638 | in every run a client that joins is not staged and stands on the latest merged revision |
| MDHistory.FolderBranch.FinalizeMDWrite | kbfs/libkbfs/folder_branch_ops.go:1597-1696 | a write is merged if the client is not staged and there is no conflict, and otherwise goes to its branch, an old or a new one; what reaches the server and what the client takes for done is given for every loss of requests and replies |
| MDHistory.WriteDone | kbfs/libkbfs/folder_branch_ops.go:1597-1696 | in every run a write of a client that is not staged is merged if and only if the request arrives and the client stands on the latest merged revision; after a conflict it is on a new branch recorded for the device, if that request arrives; the client stands on its write exactly if the reply arrives too |
| MDHistory.FolderBranch.FinalizeMergedOnly | kbfs/libkbfs/folder_branch_ops.go:1698-1786 | a rekey or the record of a reclamation is merged or dropped |
| MDHistory.MergedOnlyDone | kbfs/libkbfs/folder_branch_ops.go:1698-1786 | in every run a rekey or the record of a reclamation is merged if and only if the client is not staged, the request arrives and the client stands on the latest merged revision; the client moves to it if and only if the reply arrives too, and nothing else changes |
| MDHistory.FolderBranch.ApplyMDUpdates | kbfs/libkbfs/folder_branch_ops.go:3096-3152 | the loop over updates does what applying them one by one does |
| MDHistory.UpdatesKeep | kbfs/libkbfs/folder_branch_ops.go:3127-3137 | applied to any stretch of the merged history, updates keep a client on it and never move it back; the heads it takes are the merged revisions after its own, one after the other, to the last of them; they fail exactly if it is staged or there is a gap before the first, and then nothing changes |
| MDHistory.HeadNeverGoesBack | kbfs/libkbfs/folder_branch_ops.go:3127-3137 | over any stretch of any run in which it does not start over, the merged revision a client stands on, or left for its branch, never goes back |
| MDHistory.FolderBranch.FinalizeResolution | kbfs/libkbfs/folder_branch_ops.go:3829-3890 | a resolution is merged or given up; on success the branch goes and the client stands on the new revision |
| MDHistory.FolderBranch.UnstageBranch | kbfs/libkbfs/folder_branch_ops.go:3249-3325 | giving up a branch takes the client to the revision before it and prunes it, whatever becomes of the request; if that revision is not found the client is left where it is, not staged |
| MDHistory.UnstageDone | kbfs/libkbfs/folder_branch_ops.go:3249-3325 | in every run a client that gives up its branch is not staged afterwards and stands on the merged revision its branch started from, or, if the server no longer has the branch, the one of its head's number; the server's record for the device is gone if and only if the request arrives, and nothing else there changes |
| MDHistory.GivenUpForGood | kbfs/libkbfs/folder_branch_ops.go:3318-3323 | in every run a client that starts over after giving up its branch, if the request arrived and it has not written since, is not staged and stands on the latest merged revision |
| MDHistory.BranchComesBack | kbfs/libkbfs/folder_branch_ops.go:3318-3323 | a client that gives up its branch and next starts over is staged again, on that branch, if and only if the request to prune it was lost and the server has a branch recorded for the device |
| MDHistory.BackAgainRun | kbfs/libkbfs/folder_branch_ops.go:3318-3323 | a run in which it is |
| MDHistory.UnstageStands | kbfs/libkbfs/folder_branch_ops.go:3264-3284 | after giving up its branch the client stands on the merged history, as every run needs it to, if and only if the server still has the branch or the merged history has got as far as the client |
| MDHistory.RunKeeps | kbfs/libkbfs/folder_branch_ops.go:1597-1786 | over every run of any number of clients the merged history is a chain without gaps, every branch is one that starts at a merged revision, every client that is not staged stands on the merged revision of its number, and every staged one on its branch, which no other client uses, if the server still has it |
| MDHistory.MergedStays | kbfs/libkbfs/interfaces.go:802-838 | over any stretch of any run, what was merged stays merged, at the same place |
| MDHistory.MergedGrows | kbfs/libkbfs/interfaces.go:802-838 | only writes of clients that are not staged, and resolutions, add to the merged history |
| MDHistory.StagedWritesOwnBranch | kbfs/libkbfs/folder_branch_ops.go:1604-1642 | over any stretch of any run in which it neither resolves, gives up nor starts over, a staged client stays staged on its branch whatever others do, and each of its writes touches that branch only |
| MDHistory.StagedWrite | kbfs/libkbfs/folder_branch_ops.go:1622-1643 | in every run a staged client's write changes the server if and only if the request arrives and the branch there ends at the client's head, and then by that revision at the end of the branch; it moves the client on, to that revision, if and only if the reply arrives too |
| MDHistory.NotAtEnd | kbfs/libkbfs/folder_branch_ops.go:1636-1642 | the branch there does not end at the client's head in exactly two cases: it is gone, and not recorded for the device; or it is one revision ahead |
| MDHistory.StuckWrites | kbfs/libkbfs/folder_branch_ops.go:1636-1642 | then, over any stretch of any run in which it neither resolves, gives up nor starts over, the client does not move, nothing it writes reaches the server, and that stays so |
| MDHistory.ReplyLostRun | kbfs/libkbfs/folder_branch_ops.go:1636-1642 | five steps to a client that is stuck because its branch is one ahead |
| MDHistory.PruneLostRun | kbfs/libkbfs/folder_branch_ops.go:3862-3865 | eight steps to a client that is stuck because its branch is gone, ahead of the merged history |
| MDHistory.ResolutionDone | kbfs/libkbfs/folder_branch_ops.go:3829-3890 | in every run a resolution is merged if and only if the request arrives and it succeeds the latest merged revision, and the client is staged no more if and only if also both replies arrive and the server has a branch recorded for the device; what becomes of the record and where the client then stands is given for every case |
| MDHistory.NeverResolved | kbfs/libkbfs/folder_branch_ops.go:3862-3865 | without such a record a staged client stays staged, on the same branch, over any stretch of any run in which it neither gives up nor starts over |
| NodeSearch.Search.SearchInDir | kbfs/libkbfs/folder_block_ops.go:1957-2008 | whatever the order of entries, either everything asked for is found or everything listed below has been looked at, and the count is that of the pointers found |
| NodeSearch.ListedIs | kbfs/libkbfs/folder_block_ops.go:1957-2008 | what is listed for a directory are the paths that go on from it by entries of stored directories and on which every directory after it but the last node is a changed one |
| NodeSearch.RegionIs | kbfs/libkbfs/folder_block_ops.go:1957-2063 | what the search covers are the paths from the root that follow entries by name and on which every directory strictly between the ends is a changed one |
| NodeSearch.SearchForNodes | kbfs/libkbfs/folder_block_ops.go:2015-2063 | a pointer is resolved to a path if and only if the path starts at the root, follows stored entries by name, ends at the pointer, and every directory strictly between is a directory whose pointer is among the changed ones: stopping early loses nothing |
| Padding.NextPower | kbfs/libkbfs/crypto_common.go:369-391 | for every 32-bit length from 256 on, the bit operations give the next greater power of two, or 0 if that has 33 bits |
| Padding.PadRoundTrip | kbfs/libkbfs/crypto_common.go:395-437 | removing the padding gives the block back if and only if it is shorter than 2^32 bytes |
| Padding.PadLayout | kbfs/libkbfs/crypto_common.go:395-419 | what is stored is the length in four bytes, the lowest first, the block, and the padding |
| Padding.LongBlockLost | kbfs/libkbfs/crypto_common.go:395-437 | a block of 2^32 bytes comes back empty |
| Padding.DepadExact | kbfs/libkbfs/crypto_common.go:421-437 | for any bytes: as many as the length in front says are returned if and only if there are as many; fewer are returned without an error if and only if that length is within four of 2^32 |
| Padding.DepadShort | kbfs/libkbfs/crypto_common.go:421-437 | four bytes that are such a block |
| Padding.PaddedLength | kbfs/libkbfs/crypto_common.go:395-419 | for every block shorter than 2^32 bytes, block and padding are together as long as the smallest power of two above the block's length and at least 256 |
| Padding.NewBlockSplitterSimple | kbfs/libkbfs/bsplitter_simple.go:20-75 | a size found encodes to exactly the size aimed at; if the encoding adds a fixed overhead smaller than that, the size found is the rest; the search cannot leave its buffer as long as no encoding is shorter than its contents or longer by more than the size aimed at |
| Padding.FullBlockSize | kbfs/libkbfs/bsplitter_simple.go:22-27 | for a block size of 2^k the splitter aims at an encoding one byte shorter, and such a block is padded to exactly 2^k |

## Left out

- Locks, timeouts, channels and goroutines: methods that hold one lock throughout are single steps; steps of different clients and of archiving and reclamation are interleaved in runs.
- File data path: one file per folder; the flag that a block was already synced, byte counts, unreferenced pointers of the sync, and recovery after a failed sync are not modelled.
- File data path: where a leaf is split during rebalancing, the moved bytes share their array with the leaf in the program; the model copies them.
- FileRuns.SyncSession: for files of several blocks, runs that cut a captured leaf and never write to it are excluded, because by FileRuns.SyncedFile they are replayed on a file that is not the synced one; what such a run ends with is given for a single truncate, by FileRuns.TruncateDuringSync.
- FolderBlocks.FolderBlockOps.FinishCutSync: for a sync whose only operation was such a truncate, and states the entry's size and that the file is clean, not what the damaged file shows.
- FolderBlocks.FolderBlockOps.SplitLeaf: that the moved bytes go right in front of the next leaf's follows from the cut and the flat contents, and is not said apart.
- FolderBlocks.FolderBlockOps.StartSync: for the simple splitter only, and without the list of pointers to be unreferenced; FolderBlocks.FolderBlockOps.Rebalance is for any splitter.
- Renames: the times of entries after a whole rename, entry sizes, block sizes and the unreferencing of overwritten files are not modelled, nor is the embedding of large change lists in blocks.
- Renames.RenameLocked: no directory is reachable under two names, as block pointers are unique in the program.
- SyncTrees.SyncLeaf: the references to the leaves of new files of several blocks are not modelled.
- PathTrees.SyncBlocks: that the resolved paths cover the changed directories is what the earlier phases of the resolution are there for, and is required; the fixing up of the operations' pointers afterwards is not modelled.
- PathRefs.WriteFile: for new contents of files, including new files; what removals and renames unreference is not modelled, and a file has a single block here.
- CRChains: writer information, unembedded changes and the pointers of the blocks they are in, and chains made for new operations during resolution.
- CRChains.NewCRChains: histories in which a pointer is replaced twice, or by one seen before, do not occur and are excluded.
- ActionCollapse: what the actions do, and how they are derived from conflicts between operations.
- BlockRefs: encryption keys and quota accounting; a block identifier is never used for two blocks.
- BlockRefs.ReferencesStayLive: only writes that were in no revision are cleaned up after an error, and one reclamation is under way at a time, as the server's lock demands.
- Reclamation.PlanReclamation: what a client remembers of its last reclamation, by which it may skip one altogether, is not modelled.
- MDHistory.RunKeeps: a client gives up its branch only where MDHistory.UnstageStands says it can.
- MDHistory: signatures, permissions, disk usage checks, keys, failures of the local caches, and that updates are put off while writes are dirty.
- NodeSearch.SearchForNodes: no pointer asked for occurs twice, as block pointers are unique in the program; the node cache is modelled by the paths of its nodes.
- Padding: randomness is a parameter, and the codec is a function from contents to encoded lengths.
- The conflict resolver's computation of actions, path resolution, merging of file contents, and local notifications.
- Key management, rekeying, identities, the FUSE and Dokan layers, and the servers' storage formats.
