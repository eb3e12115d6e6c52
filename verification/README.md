# holder-core: a verified model

holder-core keeps a tree of cards in three places at once: files in a Git working tree, the
Git index and commits, and a SQLite projection of them. This project models the parts of it
that have to get something difficult right, and proves what they promise. Nothing here was
executed; everything stated is proved for all inputs.

| files | what they model |
|---|---|
| `Common`, `Cards` | optional values, string order; card rows and the orders they are listed in |
| `Ancestry`, `Placement`, `Intents`, `Lifecycle`, `MoveOrder`, `Effects`, `Repair`, `RepairExact`, `CardStore` | the card forest: ancestor walks, sort keys, the eight move intents, every lifecycle operation with what it does to the rows and the order, whole-project repair, and the store that runs them |
| `Journal`, `Recovery`, `Atomicity`, `Mutation`, `Disk` | the journalled mutation over files, index, refs, journal and database, stopped at any step, rolled back or recovered; `Mutation` plans it, `Disk` is its imperative form |
| `CrashSafety` | both together: the card table as the database of the journalled mutation |
| `LineDiff`, `Sessions`, `HistoryPages` | card history: line comparison, editing sessions, pages |
| `PullMerge` | the three-way merge of a diverged pull |
| `TagLine`, `CardPages`, `RepoLocks`, `Publisher` | trailing tag line, keyset pages, lock registry, SDK publisher |

`dafny verify dfyconfig.toml` checks the whole project.

## How to read it

The durable world is a value (`Journal.World`), and a protocol is a sequence of steps on it
(`Journal.Prim`). A run may stop after any number of whole steps or in the middle of one: a
plain file write then leaves a prefix of its bytes, a plain write of the index file a torn
index. Recovery opens the index file before it restores it
(src/card/CardMutation.cpp:48-53, :195, :269), and a torn file does not open, so recovery can
also throw. The in-process rollback works on the repository handle that has read the index
already, and does not. The database is the committed content only; a transaction still open is
lost with the process. The rebuild is an arbitrary function `proj` from files to database, so nothing is
assumed about it. The revision walk is any sequence that lists the reachable commits once.

Sort keys are compared through an arbitrary `Placement.Arithmetic`: rounding may do anything,
and the run-time checks of the source carry the ordering. The same operations in exact reals
(`Placement.Exact`) give the result that placement never fails.

Operations that change state in place are methods of `CardStore.Store`, `Disk.Repository`,
`PullMerge.Clone` and `Publisher.GitHub`; each is proved against a function of the old state,
and the properties are proved about that function. The lock registry is a state machine whose
runs are all interleavings.

## What turned out not to hold as documented

- **A crash inside one file write is never recovered from.** After its commit an operation writes
  the old index file back with a plain write (src/card/CardMutation.cpp:379). If the process dies
  inside it, the index file is torn, every later recovery throws when it opens the file (:195),
  and the journal stays. `Atomicity.CrashAtomicity` gives both outcomes, and
  `Atomicity.TearIsRestore` the exact condition: the stop is inside that write, in a repository
  that has an index file. `Atomicity.TornCrashStays` shows that no number of further recoveries
  settles it. The same holds for a crash inside the index write of a rollback
  (`Atomicity.DoubleFault`) and of recovery itself (`Recovery.StopExact`).
- **Recovery is not always repeatable.** src/card/CardMutation.cpp:278-287 recognises a file to
  put back by the operation's own bytes. If the process dies while one is being rewritten, the
  file holds neither the old nor the new bytes, and the next recovery leaves it so.
  `Recovery.ReentrantExact` gives the exact condition for both reasons: recovery can be stopped
  anywhere and run again, and finishes, if and only if the state is `Sturdy`: its index opens, no
  index file has to be written back, and it is not `Fragile` (foreign commits on the branch, and
  a file with the operation's bytes whose restore can be cut to something else;
  `Recovery.FragileMeans` says which byte strings those are). `Recovery.FragileLoses` gives a
  losing interruption for every fragile state, and `Atomicity.FragileArises` shows how an
  interrupted operation and somebody else's commit lead to one.
- **An exception before the journal exists is rolled back by rewriting files nothing has
  touched.** A crash in that rewrite has no journal to repair it. `Atomicity.UnpublishedExact`:
  this is survived if and only if no file of the operation has bytes and there is no index file.
- **A landed commit is kept only if fewer than 10,000 commits of the walk come before it.**
  Beyond the bound the committed files are put back (`Recovery.BoundDecides`), as
  `Atomicity.BoundLoses` shows for 10,000 commits on top of an operation whose journal was left.
- **Create, move and permanent deletion are not undone by a late failure.** They write their row
  without a journal (src/card/CardStore.cpp:171-187, :437-443, :994-1001), so a Git commit that
  fails afterwards reports an error although the row has changed. `Lifecycle.ErrorLeavesTable`
  says exactly when a reported error leaves the table as it was; the forest is kept all the same
  (`Lifecycle.RunKeepsForest`).
- **A repaired branch does not always return to the place it held**
  (src/card/CardHierarchy.cpp:241-242). Placing one branch between two siblings with the same key
  gives these other keys, by which the next branch is then placed. `RepairExact.DisturbsExactly`
  has the exact condition, to be seen in the table beforehand: a card that stays is rewritten if
  and only if the anchor of some head stands between two staying siblings with the same key.
  Where none does, every branch returns among all its siblings (`RepairExact.AllBranchesReturn`,
  `RepairExact.ReturnsExactly`). `RepairExact.BranchMisplaced` is a table on which every plan the
  planner computes puts a branch on the wrong side of a sibling. All this holds for arithmetic
  that finds a key between any two different ones, exact arithmetic among them.
- **Adding and removing a tag is not always the identity.** `TagLine.RoundTripExact` has the
  exact condition: a blank body must be empty; an existing tag line must be spelled canonically
  and not hold the tag already. A tag written twice survives one removal (`TagLine.RemovedWhenSingle`).
- **A scan budget of zero shows an empty history without a cursor** (`HistoryPages.ListAll`), and
  a card with an empty id ends the listing with an error when it is the last of a page
  (`CardPages.ListAll`).
- **Recovery also restores files that were only half written.** The repository's README.md:30-34
  says only files still holding the operation's bytes are put back; with the branch unmoved the
  code restores every journaled file and the index (src/card/CardMutation.cpp:266-271). The
  model follows the code, and crash atomicity needs it.

## Model

| member | source | states |
|---|---|---|
| `Atomicity.CrashAtomicity` | src/card/CardStore.cpp:739-790 | Stopped at any step or inside any file write, the operation settles to the state before the call if its commit was not yet made and to the finished state otherwise: files, index, refs, database; in both the database is the projection of the files. Stopped inside the write of the index file it does not settle |
| `Atomicity.TearIsRestore` | src/card/CardMutation.cpp:379 | That stop is exactly the one inside the write of the old index file after the commit, in a repository that has one |
| `Atomicity.TornCrashStays` | src/card/CardMutation.cpp:183-217 | From that stop no number of further recoveries, whole or interrupted, removes the journal |
| `Atomicity.CaughtFailureUndone` | src/card/CardStore.cpp:762-790 | An exception at any step of the try block, the SQL commit after the Git commit included, leaves files, index, every ref and the database as they were |
| `Atomicity.RollbackRefs` | src/card/CardMutation.cpp:221-249 | In any repository state rollback loses no commit, touches no other branch, and moves its own only when the tip is recognisably the operation's commit |
| `Atomicity.DoubleFault` | src/card/CardStore.cpp:784-789 | Once the journal is published, an exception followed by a crash anywhere in the rollback settles to before or after, unless the two leave a torn index file, which is spelled out; then nothing settles |
| `Atomicity.UnpublishedExact` | src/card/CardMutation.cpp:344-352 | For an exception before the journal is published, a crash anywhere in the rollback is survived iff no rewrite of the rollback can tear |
| `Atomicity.LandedSettles` | src/card/CardMutation.cpp:183-217 | When HEAD is the landed commit, recovery's separate index code produces the same index as `preserve_unrelated_index` if the index file opens, and is stuck if it does not |
| `Atomicity.LaterCommitsKept` | src/card/CardMutation.cpp:154-170 | Commits made on top of a landed operation are kept, with the operation, every file and the index, torn or not, when it comes within the first 10,000 of the walk: recovery only removes the journal and rebuilds the database, unless HEAD itself looks like the operation's commit. The operation is always somewhere in the walk |
| `Atomicity.WalkIsCommit` | src/card/CardMutation.cpp:156-170 | Straight after the commit the walk with the saved HEAD hidden is exactly that commit |
| `Atomicity.OperationStops` | src/card/CardStore.cpp:762-790 | Every stop finds the operation untouched, underway on journaled paths only, landed, or done |
| `Atomicity.FragileArises` | src/card/CardMutation.cpp:278-287 | An operation that rewrites a file of two bytes or more, stopped before its commit, and a foreign commit make a state recovery can lose a file from |
| `Journal.WorkDone` | src/card/CardStore.cpp:764-780 | Renames, writes and staging together put exactly the intended bytes into files and index, nothing else |
| `Journal.CommitIsolation` | src/card/CardMutation.cpp:344-393 | The commit's tree differs from its parent's only at journaled paths, where it holds the intended bytes |
| `Recovery.SettleIs` | src/card/CardMutation.cpp:254-288 | Closed form of one whole recovery and rebuild in its three cases, and of one that cannot open the index |
| `Recovery.SettleKeepsRefs` | src/card/CardMutation.cpp:251-288 | Recovery never moves a ref or loses a commit; it removes the journal, with the database the projection of the files, unless it has to restore an index file it cannot open |
| `Recovery.IndexLeftAlone` | src/card/CardMutation.cpp:272-277 | With the branch moved on and HEAD no commit that looks like the operation's, the index after recovery is the index before and the journal is gone, even if the index file is torn |
| `Recovery.ForeignFiles` | src/card/CardMutation.cpp:278-287 | With the branch moved on and no commit found, exactly the files that still hold the operation's bytes get their old ones |
| `Recovery.LandedIsFirst` | src/card/CardMutation.cpp:156-170 | The commit found is the first of the walk that looks like the operation's |
| `Recovery.HeadLanded` | src/card/CardMutation.cpp:272-277 | When that is HEAD's commit, the whole result: the saved index with the commit's entries at the journaled paths, every file as it is, no journal, database rebuilt |
| `Recovery.KeptWithinBound` | src/card/CardMutation.cpp:156-170 | With the branch moved on, the operation counts as landed iff one of the first 10,000 commits of the walk is its commit |
| `Recovery.BoundDecides` | src/card/CardMutation.cpp:273-287 | A file holding the operation's bytes keeps them iff the commit is found within the bound, and gets its old bytes otherwise |
| `Atomicity.BoundLoses` | src/card/CardMutation.cpp:156-170 | A landed operation whose journal was left, and 10,000 or more commits on its branch: the walk is right, the commit is on the branch, and recovery puts its files back |
| `Recovery.ReentrantExact` | src/card/CardMutation.cpp:254-288 | Recovery can be stopped at every point, run again, and then finishes as one whole run would, iff the state is sturdy |
| `Recovery.StopExact` | src/card/CardMutation.cpp:254-288 | In a state that is neither stuck nor fragile, one stop can be recovered from iff it is not inside the write of an index file |
| `Recovery.RecoveryReentrant` | src/card/CardMutation.cpp:416-429 | The same for any number of interrupted recoveries in a row |
| `Recovery.StuckForever` | src/card/CardMutation.cpp:48-53 | Once the index file cannot be opened, no number of recoveries changes that or removes the journal |
| `Recovery.FragileMeans` | src/card/CardMutation.cpp:278-287 | Fragility read off the bytes: two bytes to restore, or one unless the operation emptied the file |
| `Recovery.FragileLoses` | src/card/CardMutation.cpp:278-287 | From every fragile state some interruption makes the next recovery end elsewhere |
| `Mutation.PlanChanges` | src/card/CardStore.cpp:687-714 | Planning succeeds iff every change is acceptable; then the plan has the safety conditions the journal relies on, lists exactly the live and trash paths of the changed cards, and carries the renames and writes |
| `Mutation.ChangesMean` | src/card/CardStore.cpp:715-738 | For distinct cards each card ends in exactly one of its two files, with its new bytes |
| `Mutation.PathsDiffer` | src/card/CardPaths.cpp:7-19 | Paths are injective in the card id, and live and trash paths never meet |
| `Disk.Repository.ApplyCardChanges` | src/card/CardStore.cpp:682-791 | The method, with any failure point and any failure point of its rollback, and which outcome occurs when: refused iff a journal is there or a change is not acceptable, and then unchanged; applied iff no step failed; rolled back iff the try block failed and its rollback did not; otherwise left so that recovery gives before or after, unless a torn index file was left with the journal. The state after each outcome is determined |
| `Disk.Repository.TryApply` | src/card/CardStore.cpp:762-783 | The try block carries out exactly the modelled steps, as far as failures let it |
| `Disk.Repository.Begin` | src/card/CardMutation.cpp:344-369 | Journal written, renamed into place, index reset, or a prefix of that |
| `Disk.Repository.RollBack` | src/card/CardMutation.cpp:221-249 | Carries out exactly the rollback steps, as far as failures let it |
| `Disk.Repository.RecoverFiles` | src/card/CardMutation.cpp:254-288 | Carries out exactly the recovery steps of the three cases, and reports an index file that does not open |
| `Disk.Repository.RevertOwnFiles` | src/card/CardMutation.cpp:278-287 | Testing each file as the loop reaches it reverts the same files as testing all of them first |
| `Disk.Repository.RestoreOriginalFiles` | src/card/CardMutation.cpp:172-179 | Restores every journaled path in order, as far as failures let it |
| `Disk.Repository.RestoreUnrelatedIndex` | src/card/CardMutation.cpp:195-217 | Old index file back, then the given entries at the journaled paths |
| `Disk.Repository.RequireProject` | src/card/CardStore.cpp:120-130 | Settles a pending journal completely, stops as a prefix, or fails on a torn index and keeps the journal; without a journal changes nothing |
| `Disk.CheckOperation` | src/card/CardMutation.cpp:125-152 | The loop decides whether a commit is the operation's |
| `Disk.FindLanded` | src/card/CardMutation.cpp:156-170 | The bounded search returns the first operation commit of the walk |
| `Disk.OverlayEntries` | src/card/CardMutation.cpp:200-215 | The entry loop gives the old index with the committed entries at the journaled paths |
| `Disk.StagedIsCommitted` | src/card/CardMutation.cpp:371-393 | The committed index read by `preserve_unrelated_index` is the commit's tree |
| `Lifecycle.RunKeepsForest` | src/card/CardStore.cpp:793-973 | From a forest, every sequence of create, move, move_to, both trash modes, restore, restore_version and hard_delete passes through forests only; a rejected operation changes nothing, a journalled one that fails changes nothing, an unjournalled one that fails late is in effect |
| `Lifecycle.StepKeepsForest` | src/card/CardStore.cpp:132-188 | One operation of any kind keeps every live card on a finite, all-live, same-project chain to a root |
| `Lifecycle.ErrorLeavesTable` | src/card/CardStore.cpp:132-188 | After a reported error the table is unchanged iff the operation was rejected, failed early, is journalled, or changes nothing |
| `CrashSafety.TableOldOrNew` | src/card/CardStore.cpp:739-790 | With the card table as database, a journalled operation stopped anywhere leaves the old table or the table of its step, decided by commit and index file |
| `CrashSafety.ForestSurvives` | src/card/CardStore.cpp:682-791 | From a forest, any sequence of journalled operations, each stopped anywhere and settled, passes through forests only |
| `CrashSafety.RowsFollow` | src/card/CardStore.cpp:715-738 | With one row per card file, writing the planned files is writing the changed rows: reading all files back gives exactly the new table |
| `Lifecycle.JournalledKeepsRows` | src/card/CardStore.cpp:793-973 | A journalled operation adds and removes no rows |
| `CrashSafety.PlanJournalled` | src/card/CardStore.cpp:687-738 | Planning the changed rows of a journalled step succeeds iff every change is acceptable, and then gives an operation the two results above apply to |
| `Lifecycle.MoveKeepsForest` | src/card/CardStore.cpp:367-444 | An accepted move keeps the forest |
| `Lifecycle.MoveToKeepsForest` | src/card/CardStore.cpp:446-488 | move_to keeps the forest even for chains longer than the 1024-step guard |
| `Lifecycle.SubtreeKeepsForest` | src/card/CardStore.cpp:824-848 | Trashing a subtree keeps the forest |
| `Lifecycle.PromoteKeepsForest` | src/card/CardHierarchy.cpp:150-178 | Promoting the children of a trashed card keeps the forest, whether or not the card was reachable |
| `Lifecycle.RestoredKeepsForest` | src/card/CardHierarchy.cpp:293-329 | A restored card comes back on a reachable chain |
| `Lifecycle.HardDeleteKeepsForest` | src/card/CardStore.cpp:975-1002 | Deleting a trashed card for good keeps the forest |
| `Lifecycle.PromotionOrder` | src/card/CardStore.cpp:811-822 | The re-read sibling list is before + children + after; descendants and trashed children keep their parents |
| `Lifecycle.MoveToReadBack` | src/card/CardStore.cpp:457-487 | Read back, the destination's children are the list with the card at the index, and no other card moves |
| `MoveOrder.LeftThenRight` | src/card/CardPlacementResolver.cpp:151-225 | Left (when it moved the card) followed by Right gives back the sibling order |
| `MoveOrder.RestoreOrder` | src/card/CardHierarchy.cpp:293-329 | A restored card stands among the children of its nearest reachable ancestor where its key and stamp put it, taken key or not |
| `Effects.SubtreeTrashed` | src/card/CardStore.cpp:793-848 | Accepted iff the card is stored and live; afterwards a row is live iff it was, is not the card, and its chain does not lead to the card; the others of these are stamped as trashed, every other row is exactly as before |
| `Effects.MoveAccepted` | src/card/CardStore.cpp:446-488 | Where keys can be found, move_to is accepted iff the card is live in the project and the target (for Into, Before, After) or the parent asked for (ToStart, ToEnd) is live, not the card and not below it, however long the chains are; Left and Right need the parent live, UpLevel needs one |
| `Effects.MovedInto` | src/card/CardPlacementResolver.cpp:100-119 | Into: last among the target's children, the others in their order; of other rows only keys and stamps of those children may differ |
| `Effects.MovedBeside` | src/card/CardPlacementResolver.cpp:100-133 | Before and After: immediately before or after the target, below the target's parent |
| `Effects.MovedToEdge` | src/card/CardPlacementResolver.cpp:135-159 | ToStart and ToEnd: first or last below the parent asked for, or its own |
| `Effects.MovedSideways` | src/card/CardPlacementResolver.cpp:160-181 | Left and Right: the card changes places with its neighbour, if there is one and the parent asked for is its own; otherwise nothing changes |
| `Effects.MovedUp` | src/card/CardPlacementResolver.cpp:182-202 | UpLevel: last below the grandparent, or among the roots if the parent is not live |
| `Effects.OpenExact` | src/card/CardHierarchy.cpp:144-148 | In a forest the parents validation accepts are exactly the live cards of the project that are neither the card nor below it |
| `Effects.Created` | src/card/CardStore.cpp:132-188 | Accepted iff the id is unused and the parent reachable; the one new row is the card with its explicit key, or one past the largest sibling key and so last among its siblings |
| `Effects.Moved` | src/card/CardStore.cpp:367-444 | Accepted iff the card is live and the parent reachable without meeting it; the one row written has that parent, and the explicit key, else a key after its new siblings, else its own; nothing is stamped if nothing changes |
| `Effects.TrashReplaces` | src/card/CardStore.cpp:793-822 | Accepted, where keys can be found, iff the card is live and its chain ends; its row is stamped as trashed, its live children stand together in its place below its nearest reachable ancestor, in their order, and nothing else moves |
| `Effects.RestoreReturns` | src/card/CardStore.cpp:879-901 | Accepted, where keys can be found, iff the card is trashed and its chain ends; it comes back live and stamped below its nearest reachable ancestor, with its own key unless a sibling has it; then its row alone is written |
| `Effects.VersionReturns` | src/card/CardStore.cpp:903-973 | The row takes the historical title, parent and key; a version found live comes back as a restored card does, one found in Trash goes to Trash with its present children promoted; when either is accepted |
| `Effects.Deleted` | src/card/CardStore.cpp:975-1002 | Accepted iff the card is trashed; its row goes and every other stays |
| `Effects.ReachableIsNearest` | src/card/CardHierarchy.cpp:126-142 | The parent found is reachable without meeting the card, stands on the card's chain, and no reachable card of the chain is nearer |
| `Effects.PlacementEffect` | src/card/CardHierarchy.cpp:59-98 | After a placement the block's rows differ from before only in parent, key and stamp, other children of the parent at most in key and stamp, and every other row not at all |
| `Placement.ExactPlacementSucceeds` | src/card/CardHierarchy.cpp:59-98 | Without rounding no insertion is refused |
| `Placement.ExactRoomy` | src/card/CardHierarchy.cpp:33-52 | Exact arithmetic finds keys wherever the two neighbours do not have the same one |
| `Ancestry.ComputeReachableParent` | src/card/CardHierarchy.cpp:126-142 | The loop with its visited set computes the recursive walk |
| `Ancestry.ReachableParentSound` | src/card/CardHierarchy.cpp:126-142 | A parent found is on an all-live chain to a root that avoids the card |
| `Ancestry.NearestFirst` | src/card/CardHierarchy.cpp:126-142 | The parent found is the nearest reachable ancestor |
| `Ancestry.ValidateParentExact` | src/card/CardHierarchy.cpp:144-148 | A parent is accepted iff it is on an all-live chain to a root that avoids the card |
| `Ancestry.LoopExact` | src/card/CardHierarchy.cpp:126-142 | A cycle is reported iff the card's chain never ends |
| `Ancestry.RegraftKeepsForest` | src/card/CardHierarchy.cpp:126-178 | Hanging cards below a reachable card outside the moved and trashed ones keeps the forest |
| `Placement.ComputeSpacedKeys` | src/card/CardHierarchy.cpp:33-52 | The loop computes the keys, or none when they do not fit strictly between the bounds |
| `Placement.InsertBlockInto` | src/card/CardHierarchy.cpp:59-98 | The in-place widening loop computes the insertion, and terminates |
| `Placement.Respace` | src/card/CardHierarchy.cpp:86-96 | Rewriting the window in place changes exactly the block and the cards whose key moves |
| `Placement.InsertBlockPlaces` | src/card/CardHierarchy.cpp:59-98 | The result is dest[..at] + block + dest[at..] in strict tree order; the returned cards are exactly the changed ones |
| `Placement.PlacementReadBack` | src/card/CardHierarchy.cpp:100-124 | After writing the changed cards, re-reading and sorting the siblings gives exactly that list |
| `Placement.OutsideWindowUntouched` | src/card/CardHierarchy.cpp:69-97 | The radii 0, 1, 2, 4 and so on are tried until a window has room: that window holds its fresh keys, cards outside it keep their rows, and there is an error only after the window of the whole list |
| `Placement.NeighboursApart` | src/card/CardHierarchy.cpp:69-97 | Where the two neighbours leave room nothing but the block is written |
| `Placement.WidenExact` | src/card/CardHierarchy.cpp:69-97 | Placement fails iff no window it could try has room |
| `Placement.RoomyPlaces` | src/card/CardHierarchy.cpp:59-98 | Arithmetic that finds a key between any two different ones never refuses a placement |
| `Placement.ExactNeverFails` | src/card/CardHierarchy.cpp:33-98 | In exact arithmetic the last window always fits |
| `Placement.SaveAllRows` | src/card/CardStore.cpp:741-745 | Written rows hold the cards, all other rows are as before |
| `Cards.SortedUnique` | src/card/CardHierarchy.cpp:111-124 | The tree order and both page orders leave one possible sorted list |
| `Cards.LessTransitive` | src/card/CardHierarchy.cpp:111-124 | All three orders are transitive |
| `Cards.SortCards` | src/card/CardHierarchy.cpp:14-29 | Sorting yields the one sorted list of the cards |
| `Intents.Resolve` | src/card/CardPlacementResolver.cpp:49-226 | An accepted intent names a live card of the project, a destination that is the new parent's children without it, and an index within that list; which place each intent means is `Effects.MovedInto` to `Effects.MovedUp` |
| `Intents.ComputeIsDescendantOf` | src/card/CardPlacementResolver.cpp:27-45 | The guarded loop computes the descendant test |
| `Intents.DescendantIsReal` | src/card/CardPlacementResolver.cpp:27-45 | A positive answer is a real ancestor, so the guard can only miss |
| `Repair.PlanHierarchyRepair` | src/card/CardHierarchy.cpp:190-291 | The planner's loops produce a repair: exactly the branch heads move, rows change only as re-spacing needs, every card stands where it has to, and at each destination the rows are those of its blocks placed in order. It fails only if some destination's blocks, placed in order, run out of keys, and so never where keys can be found between any two different ones |
| `Repair.CollectHeads` | src/card/CardHierarchy.cpp:211-251 | The first loop finds exactly the heads, with their destinations and anchors, and the cycle cards |
| `Repair.FindAnchor` | src/card/CardHierarchy.cpp:241-249 | The anchor is the first ancestor standing directly below the destination |
| `Repair.PlaceGroup` | src/card/CardHierarchy.cpp:258-286 | One destination's heads are placed, one block for each anchor in the order of their ids and the others last, recording exactly the changed rows, with every card where it has to stand; it fails only where those blocks run out of keys |
| `Repair.RepairRows` | src/card/CardStore.cpp:856-877 | Only hidden branch heads change parent, each to its nearest reachable ancestor |
| `Repair.RepairOrder` | src/card/CardHierarchy.cpp:275-285 | Siblings that stay keep their order, and so do the heads of one anchor and those without one |
| `RepairExact.DisturbsExactly` | src/card/CardHierarchy.cpp:59-98 | Repair rewrites a card that stays below a destination iff the anchor of a head going there stands between two staying cards with the same key |
| `RepairExact.AllBranchesReturn` | src/card/CardHierarchy.cpp:241-285 | Without such an anchor every staying sibling keeps its row, and stands before an anchored head iff it stood before the anchor |
| `RepairExact.ReturnsExactly` | src/card/CardHierarchy.cpp:241-285 | No staying card is rewritten and every branch returns, iff there is no such anchor |
| `RepairExact.BranchMisplaced` | src/card/CardHierarchy.cpp:253-286 | A table with two trashed anchors on which every plan computed in exact arithmetic misplaces a branch |
| `RepairExact.ArrangeExact` | src/card/CardHierarchy.cpp:275-285 | For the blocks of one destination placed one after the other: a card that was there is rewritten iff some anchor stands between two of them with the same key |
| `Repair.UnanchoredLast` | src/card/CardHierarchy.cpp:285 | Heads without an anchor come after everybody else |
| `Repair.RepairComplete` | src/card/CardStore.cpp:856-877 | Afterwards every live card whose chain does not loop is reachable from a root |
| `Repair.CyclesExact` | src/card/CardHierarchy.cpp:190-291 | The reported cards are exactly the live cards whose chain loops |
| `Repair.HeadsExact` | src/card/CardHierarchy.cpp:211-240 | The moved cards are exactly the live ones whose parent is missing or trashed and whose chain ends |
| `Repair.AnchorExact` | src/card/CardHierarchy.cpp:241-249 | The anchor is the nearest card up the chain that stands directly below the destination |
| `Repair.RepairIdempotent` | src/card/CardHierarchy.cpp:190-291 | Planning again moves nothing, writes nothing and reports the same cycles |
| `CardStore.CollectSubtree` | src/card/CardStore.cpp:824-839 | The walk with stack and visited set collects exactly the card and everything below it |
| `CardStore.ComputePromoted` | src/card/CardHierarchy.cpp:150-178 | The loops yield exactly the placements that `Lifecycle.PromotionOrder` and `Lifecycle.PromoteKeepsForest` are about, errors included |
| `CardStore.ComputeRestoredPlacement` | src/card/CardHierarchy.cpp:293-329 | The loops yield exactly the table that `MoveOrder.RestoreOrder` and `Lifecycle.RestoredKeepsForest` are about, errors included |
| `CardStore.ComputeResolve` | src/card/CardPlacementResolver.cpp:49-226 | The branches for the eight intents yield exactly the target that `Effects.MoveAccepted` and `Effects.MovedInto` to `Effects.MovedUp` are about, errors included |
| `CardStore.Store.Create` | src/card/CardStore.cpp:132-188 | However files and Git behave, the table becomes exactly what the create step makes of it: rejection changes nothing, a late failure reports an error and leaves the row; a forest stays one |
| `CardStore.Store.Move` | src/card/CardStore.cpp:367-444 | Likewise for move |
| `CardStore.Store.MoveTo` | src/card/CardStore.cpp:446-488 | Likewise for move_to, where a late failure is rolled back; its effect is `Effects.MovedInto` to `Effects.MovedUp` |
| `CardStore.Store.Trash` | src/card/CardStore.cpp:793-822 | Likewise for trash with promotion |
| `CardStore.Store.TrashSubtree` | src/card/CardStore.cpp:824-848 | Likewise for trash of a subtree, whose effect is `Effects.SubtreeTrashed` |
| `CardStore.Store.Restore` | src/card/CardStore.cpp:879-901 | Likewise for restore |
| `CardStore.Store.RestoreVersion` | src/card/CardStore.cpp:903-973 | Likewise for restoring a historical version |
| `CardStore.Store.HardDelete` | src/card/CardStore.cpp:975-1002 | Likewise for permanent deletion, where a late failure leaves the row deleted |
| `CardStore.Store.RepairHierarchy` | src/card/CardStore.cpp:856-877 | Writes exactly the repair plan of the old table that the planner computes; changes nothing and fails only where some destination runs out of keys |
| `LineDiff.SplitLines` | src/history/CardHistory.cpp:143-154 | The lines contain no newline and joined give back the text; none iff the text is empty |
| `LineDiff.LinesDetermined` | src/history/CardHistory.cpp:143-154 | A text has one such list of lines |
| `LineDiff.Bounded` | src/history/CardHistory.cpp:156-164 | A line is kept iff it is within the limit, and the result always is |
| `LineDiff.BoundedCut` | src/history/CardHistory.cpp:156-164 | A longer line is a prefix and the mark; the prefix ends at the last byte up to the limit that does not continue a character |
| `LineDiff.TooLargeExact` | src/history/CardHistory.cpp:187 | The guard, a division, holds iff the table would have more than 1,000,000 cells |
| `LineDiff.FillTable` | src/history/CardHistory.cpp:208-217 | Every cell holds the longest-common-subsequence length of its two suffixes |
| `LineDiff.LcsBounds` | src/history/CardHistory.cpp:208-217 | No common subsequence is longer than the recurrence says |
| `LineDiff.LcsReached` | src/history/CardHistory.cpp:208-217 | Some common subsequence is as long |
| `LineDiff.WalkTable` | src/history/CardHistory.cpp:219-246 | The walk keeps as many context lines as the longest common subsequence, covers both texts with right line numbers, and takes each line in turn: a common one first, then a new one if that loses nothing, then an old one |
| `LineDiff.ReplaceAll` | src/history/CardHistory.cpp:187-206 | The fallback is truthful: all old lines out, then all new lines in, cut at 5,000 |
| `LineDiff.Diff` | src/history/CardHistory.cpp:177-247 | Not truncated: context and minus lines join to the old text, context and plus to the new; up to 1,000,000 pairs of lines the context is the longest possible and every line is the one whose turn it is, beyond that all old lines come before all new; truncated iff over 5,000 lines or a line too long, and cut at exactly 5,000; truncated or not, every shown line is right |
| `Sessions.FoldSessions` | src/history/CardHistory.cpp:79-88 | Every entry is a session (one author, single-parent chain, gaps within 10 minutes, 30 minutes in all, or one commit), and no two neighbours could have been one |
| `Sessions.SessionsMaximal` | src/history/CardHistory.cpp:79-88 | No commit could be one more save of the session listed before it: not a plain save by the same author, the only parent of its first save, within 600 seconds of that and 1800 of the last |
| `Sessions.MayGroupMeans` | src/history/CardHistory.cpp:79-88 | The grouping test, in terms of the commits of the session |
| `Sessions.FoldKeepsCommits` | src/history/CardHistory.cpp:326-369 | A listing shows every commit in exactly one save, in order |
| `Sessions.FoldSplit` | src/history/CardHistory.cpp:326-369 | A listing can be cut wherever the next commit begins a session |
| `HistoryPages.HistoryForPaths` | src/git/GitRepo.cpp:1336-1434 | A batch holds exactly the touching commits among those scanned and says which of the three reasons ended it |
| `HistoryPages.Consume` | src/history/CardHistory.cpp:326-369 | One batch is folded until a full page meets a commit that begins another session |
| `HistoryPages.List` | src/history/CardHistory.cpp:288-378 | A page lists whole sessions of the commits after its cursor, its cursor names the last of them, and an unknown cursor is refused. It ends where its last batch says: scan-limited iff that scanned the whole budget with commits left and no more of the card's than a batch holds, and every batch before it was full within the budget |
| `HistoryPages.PagesAreTheListing` | src/history/CardHistory.cpp:307-378 | With no scan limit hit, the pages' entries concatenated are one unbounded fold, for every page limit |
| `HistoryPages.ShortHistory` | src/history/CardHistory.cpp:307-378 | A history of at most as many commits as the scan budget never hits it, so following the cursors gives the unbounded fold |
| `HistoryPages.PagesShowEveryCommit` | src/history/CardHistory.cpp:307-378 | With scan limits every touching commit is still in exactly one save, in order |
| `HistoryPages.PagingEnds` | src/history/CardHistory.cpp:343-376 | Cursors strictly advance: at most one page more than there are commits |
| `HistoryPages.ListAll` | src/history/CardHistory.cpp:288-378 | Following the cursors reads such a run of pages to its end, for every history, and gives the unbounded fold whenever the history has at most as many commits as the budget; a scan budget of zero shows one empty page |
| `PullMerge.Clone.MergeTakingTheirs` | src/git/GitRepo.cpp:1120-1260 | The merge commit has both parents and, at each path, the remote entry if the remote changed it and the local one otherwise; the conflicted list is exact; every local change is in the merged tree or listed; clean files end as the merged tree; blocked or without merge base nothing changes |
| `PullMerge.Clone.Checkout` | src/git/GitRepo.cpp:400-412 | A safe checkout refuses iff some file that is there holds neither side of a differing path, and then changes nothing; missing files are recreated |
| `PullMerge.Clone.Overlay` | src/git/GitRepo.cpp:1168-1180 | Exactly the local-only paths take the local entry, in files and index |
| `PullMerge.Clone.PullFastForward` | src/git/GitRepo.cpp:1069-1117 | Up to date, ahead, diverged, blocked or fast-forwarded exactly as the commits are related; only a fast-forward changes anything, and it is the merge with nothing changed here |
| `PullMerge.DescendsExact` | src/git/GitRepo.cpp:1081-1093 | The ancestor test decides reachability in the commit graph |
| `PullMerge.DiffChangedPaths` | src/git/GitRepo.cpp:423-483 | Exactly the differing paths, each once, with the right kind |
| `PullMerge.Classify` | src/git/GitRepo.cpp:1141-1156 | Local changes split exactly into conflicts and local-only changes |
| `PullMerge.OneSided` | src/git/GitRepo.cpp:1141-1180 | Corollary for the merged tree: with one side unchanged the merge is the other side |
| `PullMerge.SidesSwap` | src/git/GitRepo.cpp:1141-1180 | Corollary for the merged tree: swapping the sides changes a path iff both changed it, differently |
| `TagLine.ParseLine` | src/card/TagLineEditor.cpp:45-77 | The index loops compute the recursive reading of a tag line, which `TagLine.ParseExact` spells out |
| `TagLine.ParseExact` | src/card/TagLineEditor.cpp:41-77 | A line is read as tags iff it is nothing but valid tags with a `#` each, apart from each other; the tags are lower-cased, in order, with repetitions |
| `TagLine.JoinTags` | src/card/TagLineEditor.cpp:79-89 | The loop computes the joined line |
| `TagLine.SplitTrailing` | src/card/TagLineEditor.cpp:24-33 | The loop finds the last character that is not whitespace |
| `TagLine.ParseJoin` | src/card/TagLineEditor.cpp:45-89 | Reading a joined line of valid normalized tags returns those tags |
| `TagLine.LowerKeepsValid` | src/card/TagExtractor.cpp:150-163 | Normalizing neither makes nor breaks a valid tag, and once is enough |
| `TagLine.UpsertAppends` | src/card/TagLineEditor.cpp:93-117 | A new tag is appended to the ones there, text above and trailing whitespace kept; without a tag line it gets one of its own after an empty line; a present one changes nothing |
| `TagLine.UpsertIdempotent` | src/card/TagLineEditor.cpp:93-117 | Adding a tag twice is adding it once |
| `TagLine.RemoveErases` | src/card/TagLineEditor.cpp:119-166 | A tag is removed iff it is on the line, one occurrence, all others kept in order; with the last tag the line goes and the newlines above it |
| `TagLine.RemovedWhenSingle` | src/card/TagLineEditor.cpp:139-146 | Among other tags the tag is gone iff it stood there once |
| `TagLine.RemoveUpserted` | src/card/TagLineEditor.cpp:93-166 | What remove after upsert of a new tag gives, in each case |
| `TagLine.RoundTripExact` | src/card/TagLineEditor.cpp:93-166 | Remove after upsert returns the body byte for byte iff the body is restorable; always so with content and no tag line |
| `CardPages.SelectRows` | src/card/CardRepo.cpp:350-420 | Valid queries return the first rows of the one sorted list of matching live cards beyond the cursor; exactly the malformed ones are refused |
| `CardPages.ListPage` | src/card/CardStore.cpp:1048-1081 | The page and, iff there is more, the cursor of its last card |
| `CardPages.BeyondIsSuffix` | src/card/CardRepo.cpp:387-396 | The cursor condition selects exactly the cards after the cursor's card, in both orders |
| `CardPages.ListAll` | src/card/CardStore.cpp:1057-1075 | Following `next_cursor` to the end yields exactly the filtered live cards in order, for every limit, iff no page but the last ends with a card without id |
| `CardPages.NamedCards` | src/card/CardRepo.cpp:366-367 | With every card named no page does |
| `RepoLocks.OneMutexPerKey` | src/git/RepoLocks.cpp:40-52 | In every state of every interleaving two live pointers are the same mutex iff their keys are the same, through expiry and re-creation |
| `RepoLocks.MutualExclusion` | src/git/RepoLocks.cpp:21-28 | No two threads hold operation guards for one key, or constructed guards on one adapter, at once |
| `RepoLocks.NestingNeverBlocks` | src/git/RepoLocks.h:19-25 | A thread alone on a repository, or alone on an adapter, is never blocked by its own guards on either lock |
| `RepoLocks.OnlyLocksBlock` | src/git/RepoLocks.cpp:21-52 | Every other step can be taken in its phase: entering once the registry mutex is free, finding or creating the mutex, and leaving |
| `RepoLocks.StepInv` | src/git/RepoLocks.cpp:21-52 | The registry and lock invariant is kept by every step of every guard |
| `Publisher.GitHub.PublishSnapshot` | scripts/publish-sdk-snapshot.py:250-287 | Stopped at any call: published releases and snapshot tags unchanged, `latest-green` moved to a descendant or not at all, and it names a published, verified release. Refused and unchanged if CI was not green or the tag points elsewhere. Otherwise the exact verdict, by the calls that are left, where the snapshot has one published release, one draft, or none |
| `Publisher.GitHub.Serve` | scripts/publish-sdk-snapshot.py:250-287 | The same between any two moments of any sequence of runs |
| `Publisher.GitHub.PublishDraft` | scripts/publish-sdk-snapshot.py:261-272 | A draft is published only as verified, and a publish call without effect is noticed; for one draft or none, succeeds iff the filled draft verifies, publishing takes effect and there are calls enough to clear, fill and publish; refused and stopped exactly when |
| `Publisher.GitHub.MakePublished` | scripts/publish-sdk-snapshot.py:257-272 | A release published earlier is verified and never touched, in no call; otherwise the draft is made and published |
| `Publisher.GitHub.Upload` | scripts/publish-sdk-snapshot.py:268 | An empty draft that is the only release of its tag gets exactly these files, in order, one call each |
| `Publisher.GitHub.ClearDraft` | scripts/publish-sdk-snapshot.py:264-267 | Clearing a draft by asset ids empties it, takes one call for each, and removes nothing from any other release |
| `Publisher.GitHub.Promote` | scripts/publish-sdk-snapshot.py:274-287 | `latest-green` moves iff it is absent or behind the candidate and a call is left; kept, already green, refused and stopped exactly when |
| `Publisher.VerifyRelease` | scripts/publish-sdk-snapshot.py:216-247 | Succeeds iff tag, names, index, sizes and checksums all match |
| `Publisher.ValidateIndex` | scripts/publish-sdk-snapshot.py:55-79 | Accepts exactly the indexes with valid header and version and six pairwise different configurations, each with valid name, checksum, size and address |
| `Publisher.ValidIsComplete` | scripts/publish-sdk-snapshot.py:55-79 | An accepted index covers every configuration |

## Left out

- Card files in the table model: the operations of `CardStore` act on card rows, and what files and Git do is reduced to whether they fail before or after the row is written; `CrashSafety` joins rows and files for the journalled operations, with reading and writing one card file as parameters. For create, move and hard_delete, which use no journal (src/card/CardStore.cpp:132-188, 367-444, 975-1002), files and commits are not modelled.
- A project without a Git repository (src/card/CardMutation.cpp:262-265): only the branch with a repository is modelled.
- Path checks of journal keys (src/card/CardMutation.cpp:92-100), index conflicts at the start of a mutation, and the journal's own format and version: refusals before anything is written.
- Lock files left by a process killed inside a Git write: a stale `index.lock` makes later index writes fail, recovery's own included, so `Atomicity.TearIsRestore` is exact for index contents only.
- Loss of writes at power failure: a stop is the end of the process, as README.md:36-37 of the repository says.
- Bytes are abstract: encryption, front matter and the Markdown body play no part in the journal.
- Non-finite sort keys, and the rounding of `next_sort_key`: keys are reals, and the new key is one past the largest.
- Whitespace around parent ids, `created_at`, `rel_path` columns, links, milestones, tags and full-text rows written beside a card row.
- Repair.PlanHierarchyRepair: destinations are handled in no particular order, where the source goes by id; they do not affect each other.
- HistoryPages.List: the refusal of card ids shorter than four characters, page-local visible parents and the one-line summaries of entries are not modelled; a save keeps the whole commit.
- Project-wide history (src/history/ProjectHistory.cpp): the same cursor protocol over all commits, with path classification on top.
- PullMerge.Clone.MergeTakingTheirs: paths are independent, so a file where the other side has a directory is not modelled; the merge base is a parameter.
- LineDiff.Diff: a long line is cut by bytes as in the source; that the cut falls between characters of well-formed UTF-8 is stated by `LineDiff.BoundedCut` as a property of bytes.
- CardPages.ListPage: card bodies are not read.
- RepoLocks.MutualExclusion: threads are not restricted to finishing one guard step before starting another, so more interleavings are covered than can happen; canonicalization of paths to keys is not modelled.
- Publisher.ValidateIndex: digits of a version are the ASCII digits.
- Publisher.GitHub.PublishSnapshot: reading an index file, hashing, the CI check and commit comparison are parameters.
- The C API, SQL plumbing, credentials, privacy, resources and sync.
