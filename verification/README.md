# A verified model of the snapshot repository, the sync protocol, the diffs and the merges

`dafny verify dfyconfig.toml` checks the whole project (Dafny 4.11).

The system keeps a user's files in a content-addressed chain of snapshots. Tabs, workers and devices write to the same
store and sync with one remote through compare-and-swap. This project models that protocol, what is built on it, and the
algorithms that decide what a reader sees: the line and word diff, the block merge of editor documents, and the budget
sums.

| files | subject |
|---|---|
| `EditGraph`, `Sequence`, `Scripts` | the linear-space diff: middle snakes, soundness, minimality, termination |
| `WordDiff`, `Align`, `TextDiff` | the word diff, the line diff and its two-column alignment |
| `Snapshots`, `Replay`, `Repo`, `FileHistory`, `Writers`, `CheckpointReplays` | the snapshot store, ancestry, rebase, all interleavings of its writers, and what a rebase makes of a checkpoint |
| `SyncProtocol`, `SyncDescent`, `SyncRuns`, `TwoEngines` | devices syncing with one remote, what holds of any number of engines, and exactly when the rest does |
| `ConflictNames`, `Merge`, `SnapshotBuilder`, `FastForward` | status, the three-way merge of the working tree, the next manifest, a fast-forward round |
| `Checkout`, `CheckoutRaces` | the stat-keyed cache of content hashes, alone and with slow reads |
| `FetchProgress`, `RangeReader` | fetching chunks with progress, reading a slice of a chunked file |
| `Splicing`, `ArxMerge`, `AddedTwice`, `Metadata` | the block-level three-way merge of documents, blocks that both sides added, and the merge of the attributes |
| `Budget`, `BudgetTotals`, `BudgetLaws` | what a budget's validator accepts, the aggregators, how their answers reconcile, and what one more booking changes |

Code that works by changing things step by step is a method with loops, or a class whose methods change its fields, and is
proved against what it promises. Two parts are transition systems, because their properties are about all interleavings:
`Writers` (any number of writers on one store) and `SyncProtocol` (any number of devices and one remote). In both, a step
is one access to a store; `Writers.Act` and `SyncProtocol.Act` list the steps with the branches of the code, and
`Writers.Run` and `SyncRuns.Run` are the runs. Hashing is a parameter `H`, free of collisions, on pairs of parent and files.
That a chain has no cycle is proved from it and from the order of writes.

## Where the code and what is said of it differ

The model follows the code. These are the places where a promise of the comments or the design does not hold as it
stands. Each is proved, with the exact condition where there is one.

- **The remote head can leave its own history.** Two engines on one repository, say two tabs, can publish a snapshot that
  does not descend from the head it replaces (`TwoEngines.TwoEnginesLoseDescent` is such a run, from freshly prepared
  repositories). The rebase retry in `packages/sync/src/repo.ts:336-339` takes over a local head that already holds a newer
  remote chain. A swap of the local head takes the served head from under another engine exactly when the base it rebased
  onto does not have that head in its history and it is not among the replayed snapshots (`SyncDescent.SwapBreaksIff`);
  such an engine, left alone, then publishes a snapshot that does not descend (`TwoEngines.PushDescendsIff`). While no swap
  does so the remote head only moves to descendants, with any number of engines (`SyncRuns.RemoteOnlyMovesForward`), and
  with one engine to a repository none can (`SyncRuns.NoFalseAlarm`). That the remote keeps every parent and chunk, and
  that no push misses a chunk, needs none of this (`SyncRuns.RemoteIsWhole`).
- **An honest remote can be refused as rolled back.** After that run the device that pushed the lost head refuses the new
  one. And without any such run: the anchor is read after the remote head (`packages/sync/src/engine.ts:105-116`), so an
  engine that another one overtakes in between is refused (`TwoEngines.FalseAlarm`), exactly when the anchor written is
  above the head it was served (`SyncDescent.AnchorOvertakesIff`, `SyncDescent.RefusesIff`).
- **A slow read can leave a cache entry that lies.** `Checkout.hashOf` compares the file's modification time with the
  moment the entry was noted, after the read, and not with the moment of the stat, before it. An edit in between can stay
  unseen exactly when the file was not yet quiet at the stat (`CheckoutRaces.SlowReadsLieIff`).
- **Two files can become one.** A round that deletes a file and finds two new ones with its content gives both its file
  id, against `packages/sync/src/repo.ts:263-267`; exactly then ids stop being unique (`SnapshotBuilder.IdsStayDistinctIff`,
  `SnapshotBuilder.RenamedAndCopied`).
- **A path deleted on both sides fails the merge.** `Repo.merge` has no branch for it and reads a property of a missing
  entry (`packages/sync/src/repo.ts:490-491`). `Merge.WorkingTree.Merge` fails on such a path, and otherwise only for want of
  content to read.
- **A changed local file is not kept as it is when the remote left it alone.** There is no short cut for it: it is offered
  to the content merger and, without one, gets a conflict copy of the unchanged remote version
  (`packages/sync/src/repo.ts:484-498`, `Merge.Clash`).
- **A checkpoint survives by its content and identity.** After rebases what the history holds is some snapshot with the
  checkpoint's hash and identity at its path. It need be neither the checkpoint's own nor a replay of it
  (`CheckpointReplays.AnotherSnapshotKeepsIt` is such a run): a replay holds the version exactly when the replayed
  snapshot brought it in or the new parent has it (`CheckpointReplays.ReplayHoldsIff`), so a replay put on a remote that
  already had the version loses it when it is replayed again on one that no longer has.
- **A block both sides added can come before remote's predecessor of it.** Local's additions are placed first, and what is
  there is not moved (`plugins/editor/src/arx-merge.ts:136`); `AddedTwice.AddedApart` is such a document, and
  `AddedTwice.PlacedForRemoteIff` the exact condition.

## Model

| member | source | states |
|---|---|---|
| Sequence.DiffSequence | plugins/diff/src/sequence.ts:9-38 | for any two sequences and any match relation: every index of each side once and in order, only matching elements kept, removals first in each change run, and no edit script makes fewer edits |
| Sequence.Walk | plugins/diff/src/sequence.ts:13-34 | what it appends is a script for its box with as few edits as the shortest walk through it; it terminates on every box |
| Sequence.MiddleSnake | plugins/diff/src/sequence.ts:42-88 | never leaves its arrays, never reaches the throw; the snake is a run of matches inside the box, both sides of it are shortest walks again, and they split the edits evenly |
| Sequence.Extend | plugins/diff/src/sequence.ts:60-68 | one diagonal: the frontier entry becomes the furthest point within `d` edits, reached by a free run from where it stepped |
| Sequence.Round | plugins/diff/src/sequence.ts:59-85 | one round of either search: the frontier is furthest for `d` on all its diagonals, or the two searches overlap and their edits add up to the shortest walk |
| EditGraph.DistCommon | plugins/diff/src/sequence.ts:5-8 | the distance to a point is the sum of its coordinates less twice the longest common subsequence |
| EditGraph.Advance | plugins/diff/src/sequence.ts:60-68 | the better neighbour plus a maximal slide is the furthest point of the next round |
| EditGraph.Overlap | plugins/diff/src/sequence.ts:69-84 | where the searches overlap they meet inside the box, on a shortest walk |
| EditGraph.Meeting | plugins/diff/src/sequence.ts:84-87 | a shortest walk of `d + e` edits forces an overlap on some diagonal, so the loop ends before its bound |
| Sequence.RemovalsFirst | plugins/diff/src/sequence.ts:90-108 | the reordering reads both sides as before, costs the same, uses only given operations, and puts removals first |
| Scripts.CheapestKeepsMost | plugins/diff/src/sequence.ts:9-38 | the edits of a cheapest script are both lengths less twice what it keeps, and no script keeps more |
| Scripts.NoEditIff | plugins/diff/src/sequence.ts:9-38 | a cheapest script makes no edit exactly when the sequences are the same |
| Scripts.NextOp | plugins/diff/src/text-differ.ts:26-41 | reading a script from the front, the next operation takes the next element of the side it is about |
| WordDiff.TokensCover | plugins/diff/src/word-diff.ts:24-26 | the tokens of a text, put together, are the text |
| WordDiff.TokensAreTokens | plugins/diff/src/word-diff.ts:4 | each token is a word, white space or one other character, and no word and no white space goes on in the next token |
| WordDiff.GroupOps | plugins/diff/src/word-diff.ts:27-39 | the groups read as both token lists, their unchanged text is what the script keeps, and unchanged and changed groups take turns |
| WordDiff.AbsorbSpaces | plugins/diff/src/word-diff.ts:43-65 | both readings are kept, no white space is left alone between two edits, and of the unchanged text exactly that white space is absorbed |
| WordDiff.Peel | plugins/diff/src/word-diff.ts:80-89 | both sides are lead, middle and trail; lead and trail are white space, and no shared white space is left at an edge |
| WordDiff.ToSegments | plugins/diff/src/word-diff.ts:67-92 | the segments read as the groups do, and the unmarked text differs from theirs in white space only; none is empty and neighbours differ in kind |
| WordDiff.WordDiff | plugins/diff/src/word-diff.ts:22-41 | unchanged and removed segments read as the old text, unchanged and added as the new, exactly; nothing is marked if and only if the texts are the same; and no more is marked than needed: up to white space the unmarked text is the tokens of a longest common subsequence of the two token lists |
| TextDiff.JoinSplit | plugins/diff/src/text-differ.ts:11-12 | joining a text's lines gives the text back, so different texts have different lines |
| TextDiff.PiecesAreLines | plugins/diff/src/text-differ.ts:11-12 | no line has a line feed in it |
| TextDiff.DrawnWithoutCr | plugins/diff/src/text-differ.ts:78-80 | a line is drawn without the carriage return it ends with, and with everything else |
| TextDiff.PairWords | plugins/diff/src/text-differ.ts:44-47 | the words of each pair read as the removed line and as the added one, and no more of them is marked than needed |
| TextDiff.ShowsRun | plugins/diff/src/text-differ.ts:50-73 | appending a run keeps: ids by place, mutual pairs, both texts read in order, and pairs placed so that no line is drawn out of order |
| TextDiff.CountsAddUp | plugins/diff/src/model.ts:14-20 | the three counts of any list of stops add up to its length |
| TextDiff.TextDiff | plugins/diff/src/text-differ.ts:8-76 | the lines show both texts in order with their numbers; kept lines are the same on both sides and no way of keeping lines in order keeps more; in every stretch of changes between kept lines the removed ones come first and the k-th removed and the k-th added line are a pair, until one side has no more; the lines of a pair have the same unmarked text, and no more is marked than needed; a line without a partner has no marks; the note on line endings stands exactly on the pairs that read the same; stops are one per change numbered from zero; the counts are the pairs, the other removed and the other added lines; and `identical` if and only if the texts are equal, which is when there is no stop |
| Align.AlignLines | plugins/diff/src/align.ts:31-43 | the left cells are the old lines in order; the right cells the new lines in order when pairs are placed as the diff places them; a removed line stands opposite its partner, a kept one opposite itself |
| TextDiff.SideBySide | plugins/diff/src/align.ts:31-43 | for any two texts, the left column reads exactly the old lines and the right column the new ones, and the two lines of a pair share a row |
| Snapshots.AddressCommits | packages/sync/src/snapshot-hash.ts:5-12 | an address commits to the files and the parent |
| Snapshots.ChainIsAcyclic | packages/sync/src/repo.ts:373-388 | on a store that holds every parent, a walk is linked, repeats nothing and ends at a root |
| Snapshots.ChainLinear | packages/sync/src/repo.ts:373-388 | of two snapshots on one chain, one is on the chain of the other |
| Snapshots.ChainsAgree | packages/sync/src/engine.ts:315-323 | two stores of addressed objects cannot disagree about the history of a snapshot they both hold |
| Snapshots.StoreSealed | packages/sync/src/repo.ts:361-362 | writing a sealed snapshot on a stored parent keeps the store well formed and changes nothing in it |
| Replay.RebaseKeepsBothSides | packages/sync/src/repo.ts:324-366 | for every local chain, base and remote, the rebased head is as the local tip at every path a checkpoint since the base touched, and as the remote at every other |
| Replay.ReplayKeepsBothSides | packages/sync/src/repo.ts:346-366 | the same of any stretch of checkpoints replayed on any snapshot |
| Replay.ReplayLinks | packages/sync/src/repo.ts:352-364 | one replayed snapshot per checkpoint, in order, linked on top of the remote, each under its own address |
| Replay.ReplayStored | packages/sync/src/repo.ts:361-363 | the replayed objects keep the store well formed, and the remote's whole chain is under the new top |
| Repo.DescendsIsChain | packages/sync/src/repo.ts:393-399 | the ancestor test holds exactly for the members of the chain |
| Repo.BaseIsNearest | packages/sync/src/repo.ts:401-418 | the base is a common ancestor with every other one on its chain, and there is none only when the chains share nothing |
| Repo.Repo.AdvanceHead | packages/sync/src/repo.ts:631-633 | the head moves exactly when it was the expected one |
| Repo.Repo.Prepare | packages/sync/src/repo.ts:611-624 | the empty snapshot is stored, and is the head where there was none |
| Repo.Repo.IsAncestor | packages/sync/src/repo.ts:393-399 | the walk answers whether `ancestor` is the head or on its chain |
| Repo.Repo.FindBaseSnapshot | packages/sync/src/repo.ts:401-418 | the nearest common ancestor, if any |
| Repo.Repo.Replay | packages/sync/src/repo.ts:346-366 | the loops write the replayed chain and return its top, or stop at a missing snapshot |
| Repo.Repo.Rebase | packages/sync/src/repo.ts:324-341 | nothing when the remote is underneath; the head becomes the rebased top, of the grown chain if it grew; a rewritten chain loses the round |
| FileHistory.CheckpointFiles | packages/sync/src/file-history.ts:209-226 | the manifest holds the checkpoint with its chunks, the file keeps its id or gets a fresh one, its document is at no other path, and every other entry is kept |
| Writers.StepKeeps | packages/sync/src/file-history.ts:208-236 | every step of any writer keeps the invariant, extends the store, and leaves every recorded checkpoint in the head's history |
| Writers.HeadChainIsWhole | packages/sync/src/repo.ts:611-633 | in every state of every run the head names a stored snapshot whose whole chain is stored, addressed, free of repetition and ends at the empty root |
| Writers.NoCheckpointIsLost | packages/sync/src/file-history.ts:196-236 | once a record has returned, some snapshot of every later head's chain has that content and identity at that path, whoever else wrote |
| CheckpointReplays.ReplayHoldsIff | packages/sync/src/repo.ts:354-361 | the replay of a snapshot that holds a version holds it exactly when the snapshot brought it in or the new parent has it |
| CheckpointReplays.ReplayTouchesIff | packages/sync/src/repo.ts:354-361 | and brings it in itself exactly when the snapshot did and the new parent does not have it |
| CheckpointReplays.OwnReplayHolds | packages/sync/src/file-history.ts:209-226 | every replay of a recorded checkpoint's own snapshot holds its version |
| CheckpointReplays.AnotherSnapshotKeepsIt | packages/sync/src/repo.ts:346-366 | a run after which the head's chain has neither the recorded snapshot nor any replay of it, however often replayed, with the version, and another snapshot keeps it |
| SyncProtocol.RemoteKeeps | packages/sync/src/engine.ts:371-397 | any step of any engine leaves every parent and every chunk of the snapshots on the remote there, and loses nothing |
| SyncProtocol.DeviceKeeps | packages/sync/src/engine.ts:100-153 | any step of any engine keeps the repository whole, with its chunks here or on the remote |
| SyncProtocol.TakeKeeps | packages/sync/src/engine.ts:325-368 | a push starts with every chunk it will read in the local store and its snapshots in an order the remote can take, whatever became of the local head |
| SyncProtocol.UnsentIsUploadable | packages/sync/src/engine.ts:331-346 | what the walk leaves to send, reversed, has each parent on the remote or before it |
| SyncRuns.RemoteIsWhole | packages/sync/src/engine.ts:325-397 | in every run of any devices and any number of engines on each, every snapshot on the remote is addressed and has its parent and its chunks there, what was pushed stays, and no push misses a chunk it reads |
| SyncRuns.RemoteOnlyMovesForward | packages/sync/src/engine.ts:325-397 | with any number of engines, while no swap breaks one of them the remote head only moves to descendants, and while no anchor overtakes one either no round is refused |
| SyncRuns.StepKeepsLineIff | packages/sync/src/repo.ts:324-341 | a step taken while every engine stands on what it was served moves the remote head to a descendant, and leaves every engine standing exactly when it is not a breaking swap |
| SyncRuns.StepKeepsCalmIff | packages/sync/src/engine.ts:100-153 | and leaves no engine to be refused exactly when it is not an overtaking anchor |
| SyncDescent.RebasedChain | packages/sync/src/repo.ts:346-366 | the chain of a rebased head is the replayed snapshots on top of the chain it was rebased onto |
| SyncDescent.SwapBreaksIff | packages/sync/src/repo.ts:328-340 | a swap takes the served head from under another engine exactly when it is neither in the history of the new base nor among the replayed snapshots |
| SyncDescent.CommitDescendsIff | packages/sync/src/engine.ts:393-396 | a successful swap of the remote head goes to a descendant exactly when the pushed snapshot has the replaced head underneath on the device |
| SyncDescent.AnchorOvertakesIff | packages/sync/src/engine.ts:105-151 | an anchor gets another engine refused exactly when that one was served an older head and has yet to read its anchor |
| SyncDescent.RefusesIff | packages/sync/src/engine.ts:113-131 | a head honestly served is refused exactly when the anchor read is strictly above it |
| SyncRuns.NoFalseAlarm | packages/sync/src/engine.ts:107-131 | in every run with one engine to a repository the remote head only moves to descendants and no round is refused as a rollback |
| SyncRuns.RollbackIsRefused | packages/sync/src/engine.ts:113-131 | a served head is accepted exactly when it is the anchor or descends from it; a strict ancestor, a fork and a missing head are refused |
| TwoEngines.PushDescendsIff | packages/sync/src/engine.ts:325-397 | an engine that is done rebasing onto the head the remote still has, left alone, publishes the local head, which descends from the one it replaces exactly when that one is still underneath |
| TwoEngines.TwoEnginesLoseDescent | packages/sync/src/repo.ts:336-339 | a run from freshly prepared repositories, two engines on one of them, that moves the remote head off its own history and ends with the device that pushed it refused |
| TwoEngines.FalseAlarm | packages/sync/src/engine.ts:105-120 | a run of two engines on one new repository, without any breaking swap, in which one takes the remote for wiped |
| ConflictNames.CopyNamesDiffer | packages/sync/src/repo.ts:589-609 | the names tried for a conflict copy are all different |
| ConflictNames.NamesAreMany | packages/sync/src/repo.ts:589-609 | so a free one is found after finitely many tries |
| Merge.WorkingTree.Take | packages/sync/src/repo.ts:562-565 | the remote's version is written when its chunks are here and marked pending when not |
| Merge.WorkingTree.WriteConflictFile | packages/sync/src/repo.ts:589-609 | the copy goes to a name that is free or already holds this version; nothing else is overwritten |
| Merge.WorkingTree.TryContentMerge | packages/sync/src/repo.ts:511-528 | the base's, the device's and the remote's version are offered to the merger, in this order, when the remote's is here, and its answer, if any, is what is on disk |
| Merge.WorkingTree.MergeClash | packages/sync/src/repo.ts:484-498 | a path both sides have differently ends at the content merger's answer, or as it was with a copy of the remote's version beside it; either way neither version is lost |
| Merge.WorkingTree.MergeOneSided | packages/sync/src/repo.ts:441-482 | a path on one side only: a new file is taken, an edit wins over a deletion, and an unchanged file follows it |
| Merge.WorkingTree.MergePath | packages/sync/src/repo.ts:432-500 | one path in full, touching no other but a conflict copy |
| Merge.WorkingTree.Merge | packages/sync/src/repo.ts:423-504 | no edit of either side is lost and every path ends where the two sides' changes put it; a clash whose content is here ends at the merger's answer for the base's, the device's and the remote's version, and without an answer at the device's version with a copy beside it; no unlisted file is overwritten or dropped; every file written is journalled; the report is exactly the copies, unresolved merges and decisions; failure only on a path both deleted or for want of content, and exactly on the former where all content is here |
| Merge.AnswerIsTaken | packages/sync/src/repo.ts:511-528 | what a merge asks the content merger about a path, and that the answer is where the path ends and what is reported of it |
| Merge.DeviceEditsStay | packages/sync/src/repo.ts:484-528 | with a merger that answers with the edit where one side still is the base, a path only the device changed keeps its content; where no path was changed otherwise there is no copy and nothing unresolved |
| Merge.QuietReport | packages/sync/src/repo.ts:484-504 | a merge on a device that changed nothing reports no conflict |
| ConflictNames.CopyIsElsewhere | packages/sync/src/repo.ts:589-592 | a conflict copy never lands on the path it is a copy of |
| ConflictNames.CopyIsBeside | packages/sync/src/repo.ts:589-592 | it stands in the same directory, under the same name with the version in front, and keeps the extension |
| Merge.WorkingTree.FileStatus | packages/sync/src/repo.ts:182-201 | how one path differs from a manifest, with the pending and checkout bookkeeping |
| Merge.WorkingTree.Status | packages/sync/src/repo.ts:151-180 | exactly the differences at the listed paths and at the files under journalled ones; each told as created, modified or deleted as it is; only stale pending marks are cleared |
| SnapshotBuilder.BuildManifest | packages/sync/src/repo.ts:230-309 | every path's entry in the next manifest, with the chunks of every file that was put stored |
| SnapshotBuilder.BuiltContinues | packages/sync/src/repo.ts:230-309 | a changed path is listed with the content on disk, cut as the chunker cuts it, the rest as before; a path keeps its document and its file id; a new path has those of a path that is gone and had its content, and else a fresh id |
| SnapshotBuilder.PutFilesReadBack | packages/sync/src/repo.ts:241-252 | where the chunker's cuts put together are the content, so are the chunks listed for a changed path: whoever has them restores what was on disk |
| SnapshotBuilder.NextHoldsTree | packages/sync/src/repo.ts:207-228 | the next manifest lists every file on disk that the last one listed or the journal knows of, at the content it has, and of the rest exactly those left pending |
| SnapshotBuilder.SnapshotIsClean | packages/sync/src/repo.ts:207-228 | against the snapshot just taken the tree has no change, and what it lists is on disk as listed or pending |
| SnapshotBuilder.IdsStayDistinctIff | packages/sync/src/repo.ts:263-275 | file ids stay unique exactly unless two new files have the content of one file that is gone |
| SnapshotBuilder.RenamedAndCopied | packages/sync/src/repo.ts:263-275 | one file renamed and copied in one round: two files with one id |
| SnapshotBuilder.SnapshotChanges | packages/sync/src/repo.ts:207-228 | without a change nothing is written; with one, a snapshot of the tree on the old head becomes the head, holds the tree's content at every path, and the next status is empty |
| FastForward.Round | packages/sync/src/engine.ts:133-147 | on a clean tree behind the remote: every remote path on disk or pending, dropped paths gone, no conflict, and the round ends at the remote head |
| Checkout.Checkout.HashOf | packages/sync/src/checkout.ts:54-72 | the hash of what is at the path now, read or not; it reads exactly when no trusted entry matches |
| Checkout.Checkout.Record | packages/sync/src/checkout.ts:76-81 | notes a true hash with the file's stat and keeps every entry right |
| Checkout.Checkout.MarkPending | packages/sync/src/checkout.ts:102-108 | the mark is set and the entry dropped, unless the same mark is there |
| Checkout.Checkout.ExternalWrite | packages/sync/src/checkout.ts:10-12 | any write stamped by the clock, no coarser than the racy window, leaves every entry right or untrusted |
| CheckoutRaces.QuietFilesAreRight | packages/sync/src/checkout.ts:54-72 | in every interleaving an entry that still matches is right if the file was quiet when its stat was taken |
| CheckoutRaces.SlowReadsLieIff | packages/sync/src/checkout.ts:63-71 | a trusted entry can be wrong exactly when the file was not yet quiet at the stat |
| FetchProgress.MakePlan | packages/sync/src/engine.ts:216-249 | the distinct chunks in order, those missing, who waits for what, and how many each counted file waits for |
| FetchProgress.CountOne | packages/sync/src/engine.ts:261-268 | telling the waiting files of one chunk brings all counters to what they mean with that chunk here |
| FetchProgress.StoreBatch | packages/sync/src/engine.ts:278-295 | a batch is stored up to the first chunk that is absent or not what its address says |
| FetchProgress.FetchChunks | packages/sync/src/engine.ts:216-271 | after each batch the report is that of the chunks then here; it completes exactly when every missing chunk is served and verifies, with all needed chunks stored and nothing else; a fetch that fails keeps every chunk before the one it failed at |
| FetchProgress.ChunkCounts | packages/sync/src/engine.ts:250-264 | bytes start at none, every needed chunk adds its size once, and all together they are the total |
| FetchProgress.FilesCounted | packages/sync/src/engine.ts:230-266 | files are counted by what they need: the total is the wanted files of the vault, and those are done whose every chunk is there |
| FetchProgress.NeededIsListed | packages/sync/src/engine.ts:223-235 | what is needed is what wanted files list, with the sizes they list |
| FetchProgress.ReportsRise | packages/sync/src/engine.ts:22-29 | files and bytes never go back, never exceed their totals, and equal them at the end |
| RangeReader.BuildSpans | packages/sync/src/snapshot-range-reader.ts:76-95 | spans exactly for sizes that make sense, each chunk at the sum of the sizes before it |
| RangeReader.ResolveRange | packages/vfs/src/ops/read-range.ts:10-25 | the range grammar: suffixes, clamping at the end, and what is refused |
| RangeReader.ChunkAt | packages/sync/src/snapshot-range-reader.ts:82-94 | with matching sizes, a chunk is the slice of the whole at its offset |
| RangeReader.MeetsABytes | packages/sync/src/snapshot-range-reader.ts:54-55 | a chunk that has bytes is asked for exactly when one of them is in the range |
| RangeReader.SnapshotRangeReader.EnsureChunks | packages/sync/src/snapshot-range-reader.ts:97-110 | succeeds exactly when every chunk is here or can be fetched, and brings nothing else |
| RangeReader.SnapshotRangeReader.Assemble | packages/sync/src/snapshot-range-reader.ts:57-73 | the slice, if every chunk it meets is as long as declared; the short-read error is never raised |
| RangeReader.SnapshotRangeReader.LoadLegacyContent | packages/sync/src/snapshot-range-reader.ts:112-134 | all chunks, checked against the file's hash, once: a failure is remembered too |
| RangeReader.SnapshotRangeReader.ReadRange | packages/sync/src/snapshot-range-reader.ts:40-74 | exactly the resolved slice of the concatenated chunks, asking only for those it meets |
| Splicing.SpliceOne | plugins/editor/src/arx-merge.ts:134-141 | inserting behind its predecessor, or at the front, keeps every earlier placement |
| Splicing.SplicedIsWhole | plugins/editor/src/arx-merge.ts:129-143 | splicing all of a list into what it shares with an order that agrees with it gives the list |
| ArxMerge.Predecessors | plugins/editor/src/arx-merge.ts:42-50 | with distinct ids each block leads to the one before it |
| ArxMerge.InsertNew | plugins/editor/src/arx-merge.ts:134-141 | the order is kept and every surviving new block stands behind its predecessor, or ahead of all that was there |
| ArxMerge.Resolve | plugins/editor/src/arx-merge.ts:76-127 | a conflict exactly when both sides left the base and disagree, holding both versions; otherwise what they agree on or what the changed side has |
| ArxMerge.ResolveAll | plugins/editor/src/arx-merge.ts:70-127 | every identifier is resolved so, and `conflicts` is the number of conflict nodes |
| ArxMerge.MergeArx | plugins/editor/src/arx-merge.ts:57-151 | all of it: blocks are matched by their own identifier, and by their place where they have none; resolution, count, content in order, every surviving id once, base order, then each side's additions |
| ArxMerge.DocumentsAreMerged | plugins/editor/src/arx-merge.ts:28-40 | for documents in which no two blocks go by one name, every block is merged with those of its name, and the conflicts are the blocks in dispute |
| ArxMerge.IdentifiedMerge | plugins/editor/src/arx-merge.ts:57-143 | with identifiers on all blocks: every changed or added block is shown; where no block was changed by both sides there is no conflict, whatever was inserted or moved; the order lists identifiers of the documents, each once |
| ArxMerge.UnnamedMerge | plugins/editor/src/arx-merge.ts:34-38 | a block without an identifier is merged with the blocks without one at the same place |
| ArxMerge.EditsSurvive | plugins/editor/src/arx-merge.ts:76-143 | every block a side changed or added is in the result, itself or inside a conflict, at one place |
| ArxMerge.Placement | plugins/editor/src/arx-merge.ts:129-143 | base blocks keep base order; a block local added follows its predecessor in local, a block remote alone added stands right behind its predecessor in remote |
| Splicing.OldBeforeNewIff | plugins/editor/src/arx-merge.ts:134-141 | an addition comes after something that was there exactly when its run of additions stands behind that or something later |
| Splicing.NewBeforeNewIff | plugins/editor/src/arx-merge.ts:134-141 | of two additions the one whose run stands further ahead comes first |
| AddedTwice.PlacedForRemoteIff | plugins/editor/src/arx-merge.ts:129-143 | a block both sides added comes after its surviving predecessor in remote exactly when walking back in remote leads to something that local, too, puts ahead of it |
| AddedTwice.BehindBaseBlocks | plugins/editor/src/arx-merge.ts:129-143 | behind two base blocks that is when remote's is local's or comes before it in the base |
| AddedTwice.AddedApart | plugins/editor/src/arx-merge.ts:129-143 | base A B, local A X B, remote A B X: B does not come before X |
| Metadata.MergedAt | plugins/editor/src/arx-merge.ts:160-175 | at every place the merge of the attributes gets to, the value is what the sides agree on, what the side that left the base has, or a record of both |
| Metadata.RefusedIff | plugins/editor/src/arx-merge.ts:160-175 | the attributes are refused exactly when somewhere both sides left the base for different values that are not both records |
| ArxMerge.QuietSide | plugins/editor/src/arx-merge.ts:76-143 | when one side equals the base there is no conflict and the other side comes out, in its own order unless it reordered base blocks |
| Budget.ValidateReferences | plugins/budget/src/model.ts:345-376 | accepts exactly unique ids, references that resolve and agree, and receipts that fit and are used once |
| Budget.ValidateAggregateSafety | plugins/budget/src/model.ts:391-418 | its running checks accept exactly when all final sums are safe integers; the balance check of a month never fails on its own |
| BudgetTotals.ValidateBudget | plugins/budget/src/model.ts:424-447 | accepts exactly the budgets whose fields, references and sums are in order, and says overflow only for sums |
| BudgetTotals.AccountBalance | plugins/budget/src/model.ts:521-531 | the account's balance on every accepted budget: it never overflows, and fails only for an unknown account |
| BudgetTotals.MonthlyTotals | plugins/budget/src/model.ts:533-549 | a row per currency booked in the month, with its exact sums; on an accepted budget and a real month it never overflows |
| BudgetTotals.CategoryTotals | plugins/budget/src/model.ts:551-568 | a row per category and currency with an amount in the month, with its exact sum, without overflow |
| BudgetTotals.KeysAreFaithful | plugins/budget/src/model.ts:408-413 | the composite key strings tell their parts apart |
| BudgetTotals.SameMonth | plugins/budget/src/model.ts:539 | the aggregators' month test is the validator's month |
| BudgetTotals.MonthReconciles | plugins/budget/src/model.ts:533-568 | per month and currency, the totals of the categories of a kind add up to the month's total of that kind |
| BudgetTotals.BalancesReconcile | plugins/budget/src/model.ts:521-549 | per currency, opening balances and all months' balances add up to the account balances |
| BudgetLaws.BalanceMoves | plugins/budget/src/model.ts:521-531 | an account starts at its opening balance; an income raises its balance by its amount, an expense lowers it, other accounts' bookings leave it alone |
| BudgetLaws.MonthMoves | plugins/budget/src/model.ts:538-546 | an income raises the month's income and balance in its currency, an expense raises the expense and lowers the balance, no other booking counts |
| BudgetLaws.CategoryMoves | plugins/budget/src/model.ts:556-564 | a category's total grows by what is booked on it in the month and the currency, and by nothing else |
| BudgetLaws.DateIsReal | plugins/budget/src/model.ts:162-174 | a date is accepted exactly when it is a day of the calendar, written YYYY-MM-DD |
| BudgetLaws.MonthIsReal | plugins/budget/src/model.ts:180-184 | a month is accepted exactly when it is one of the calendar, written YYYY-MM |

## Left out

- Writers: snapshots of the tree carry arbitrary files there; what a manifest holds after a status is `SnapshotBuilder`.
- SnapshotBuilder.SnapshotChanges: one pass without interference; losing the head and starting over is a step of `Writers`.
- SnapshotBuilder.BuildManifest: does not model sizes of chunks and files, nor completing them in old entries; an entry without an id does get one.
- Merge.WorkingTree.Merge: a file's content is represented by its hash, and a failed write leaves no partial file; the content merger is any table of answers.
- Merge.WorkingTree.Status: assumes that the walker visits every file under a prefix once and that no file lies below another.
- Checkout: loading and writing the index file, and modification times set by hand (a moved file keeps its old one).
- FetchProgress.FetchChunks: the variant that fetches regardless of the policy, which reports nothing, and the round trips of the local existence test.
- BudgetTotals.MonthlyTotals: rows are a map by currency; the final sort is not modelled.
- BudgetTotals.CategoryTotals: rows are a map by category and currency; the final sort is not modelled.
- BudgetTotals.ValidateBudget: of the field checks only those the sums and references rely on; names, places, attachments, the list of currencies and the JSON text are not modelled.
- ArxMerge.MergeArx: parsing and serialising, and the form of a conflict node; comparing blocks is equality of a text. The attributes are merged in `Metadata`.
- Metadata.MergedAt: does not model the order of a record's keys; two records that differ only in it count as the same.
- ArxMerge.EditsSurvive: for documents whose block ids are distinct, as the editor assigns them.
- TextDiff.TextDiff: the wording of the note on line endings; a line carries whether it has one.
- WordDiff.WordDiff: which characters are letters, digits and white space is a parameter.
- Sequence.MiddleSnake: the arrays hold unbounded integers; the source's are 32 bits wide, and values stay within the lengths of the inputs plus one.
- Timestamps of snapshots, imported checkpoints (`historySource`), reading and listing versions in `FileHistory`.
- `mergeRecords`, `mergeBudgets` and `BudgetStore.update`: three-way choice per record and a compare-and-swap retry; both would only add easy members.
- `foldRuns`, `alignBlocks`, `replacedModel`: small and local.
- Chunking, SHA-256, encryption, HTTP, streams, the file-system backends, `AsyncLock` and the event loop: a step of a transition system is one access to a store.
