# Javelin: verified model of the version store

Javelin keeps a repository as a chain of World versions. Each version is a snapshot (a map from path to
file entry) stored as content-addressed directory trees, together with the changeset that led to it.
Layers are private lines of work: a Layer is captured, stacked and discarded over one frozen base
version, and is published onto the World head as a whole, or reported in conflict. This project models
that store in Dafny and proves what its design claims.

How the model stands for the program:

- **Object identities.** A hash is an injective constructor: a tree chunk's identity is the chunk value,
  a checkpoint's identity is the checkpoint value, a version's identity is the chain of its roots and
  changesets. File contents are opaque numbers.
- **Paths** are sequences of names, and `a < b` (proper prefix) is "ancestor". `Paths` proves that the
  slash-joined strings the program stores agree: parsing, ancestors, and the string range
  `[p + "/", p + "0")` that the program searches for descendants.
- **Names** are byte strings in byte order, as Rust's `str` compares.
- **The boundary rule** that cuts directories into chunks is an arbitrary function of level, name and
  running size, so the tree results hold for any hash.
- **Tables** are maps and sequences; one transaction is one atomic step. `Repositories.Repository` is the
  class whose methods write the tables; `Runs` is about every interleaving of transactions, where a
  publish is planned at one state of a run and committed at a later one.
- **Time, clocks and other processes** are inputs: interfering transactions are a parameter of
  `Repository.PublishLayer`, the number of system calls before a refresh is interrupted is the parameter `budget`, and the files a
  scan observes are timelines of edits.

The modules follow the program:

| files | what they model |
|---|---|
| `Names`, `Paths` | byte order, path strings (`src/domain.rs`) |
| `Chunks`, `Levels`, `Seeking`, `Updating`, `Codec` | one directory's prolly tree and its encoding (`src/tree.rs`) |
| `Directories`, `Apply`, `Diff`, `Intersecting`, `Snapshots` | whole snapshots: apply, diff, intersections, composition (`src/tree.rs`, `src/publish.rs`, `src/repository.rs`) |
| `Domain` | changesets, normalization, rebasing, collisions, manifests (`src/domain.rs`) |
| `Records`, `Layers`, `Publishing`, `Commits`, `Runs`, `Transactions`, `Repository` | tables, Layers, publish, radar index, runs, what each transaction does (`src/layer.rs`, `src/stack.rs`, `src/publish.rs`, `src/repository.rs`, `src/radar.rs`) |
| `Myers`, `Blame` | line matching for blame (`src/blame.rs`) |
| `Matching`, `Diff3`, `DisjointEdits`, `Merge` | the three-way merge and Stack (`crates/javelin-merge`, `crates/javelin-stack`) |
| `Journal`, `Outbox` | the client outbox (`src/outbox.rs`) |
| `Refresh`, `Workspace` | planning a refresh, and its writes step by step (`src/workspace/refresh.rs`) |
| `Capture` | the stat cache (`src/capture.rs`) |
| `Wildcards` | check-name patterns (`crates/javelin-node/src/checks.rs`) |

## A property that does not hold as documented

The refresh documentation (`src/workspace/refresh.rs:10-13`) says that running again after an interruption
applies what remains and converges. It does not always, for two reasons.

- *A copy looks like a rename.* Suppose the head renames `x` to `y` and the directory holds `z`, a new local
  copy of `x`. The first plan has no conflict. Interrupted after `x` is removed and before `y` is added, the
  directory shows `x` gone and `z` new with the same entry, so the next plan takes `z` for a local rename of
  `x` and refuses with a rename conflict (`Workspaces.CopyWitness`).
- *An emptied directory is in the way.* Suppose the head turns the directory `x`, which holds only `x/y`, into
  a file. A removal unlinks `x/y` and only then removes `x`. Interrupted in between, `x` is an empty directory
  that no scan shows and no remaining removal empties, so the next plan finds the write of `x` blocked
  (`Workspaces.DirectoryWitness`).

`Workspaces.ResumesExactly` proves for all inputs, for every order of removals and of additions, and for an
interruption after any number of system calls, that resuming always works exactly when the directory holds no
lone new copy of a path whose rename the head has still to make at both ends, and the head writes no file
where it removes something below. Under these two guards `Workspaces.RefreshRepeatedly` ends as one refresh
would, however often it is interrupted. That planning again applies exactly what is left, and that finishing
it gives the same files, holds without either guard (`Refresh.RestWrites`, `Refresh.Converges`).

## Model

| member | source | states |
|---|---|---|
| Names.LessIsByteOrder | src/domain.rs:173-175 | the order used throughout is byte order, as `str` compares |
| Chunks.CutFlat | src/tree.rs:860-897 | cutting a level loses, adds and reorders nothing; every chunk is nonempty, at its level, and all but the last hold at least two items |
| Chunks.CutShrinks | src/tree.rs:874-883 | `n` items give at most half of `n`, rounded up, chunks, so every level shrinks |
| Chunks.CutExactly | src/tree.rs:874-883 | the cut of a level is the only list of chunks that holds its items and ends a chunk at each boundary and nowhere else: a boundary follows an item when the chunk is 64 KiB by then or the boundary rule says so, but never the first item |
| Chunks.CutMiddle | src/tree.rs:481-539 | cutting resumed at an old boundary reproduces the old chunks: the resynchronisation an update relies on |
| Chunks.ChunksFit | src/tree.rs:49-50 | every chunk cut from names within the path limit fits the decoder's bound |
| Seeking.Chunker.Push | src/tree.rs:874-883 | pushing one item ends the chunk exactly when it is not the first and the chunk reaches 64 KiB or the boundary rule fires at its size; otherwise the item joins the open ones |
| Seeking.Chunker.Finish | src/tree.rs:887-896 | finishing emits exactly the open items, if any |
| Seeking.Seek | src/tree.rs:544-573 | descending from the root finds the one chunk of a level in which a name falls, and says whether it is the last |
| Levels.BuildFromAny | src/tree.rs:585-620 | building from any level of a directory gives the same root as building from its leaves: shrinking lands on the same chunk |
| Levels.BuildExactly | src/tree.rs:585-620 | a directory's root is the top of the levels cut at the boundaries, each from the summaries of the one below, up to the first with at most one chunk; the level error comes exactly when the highest level still has several |
| Levels.LargestDirectory | src/tree.rs:41-43 | a directory of up to 2^33 names always builds within the highest level |
| Updating.CutLevel | src/tree.rs:585-602 | the Chunker loop ends a chunk at each boundary of a level and nowhere else, and loses no item |
| Updating.BuildLevel | src/tree.rs:585-620 | building upward and shrinking back gives the root, or the level error, that `Levels.BuildExactly` characterises |
| Updating.Recut | src/tree.rs:501-538 | re-cutting from a touched chunk until a new boundary meets an old one leaves the rest of the level as a fresh cut would |
| Updating.UpdateLevel | src/tree.rs:483-539 | the changes an updated level reports turn its old summaries into those of the edited level cut from scratch |
| Updating.MergeRoot | src/tree.rs:456-470 | merging sorted edits into the root's items gives the edited items |
| Updating.Update | src/tree.rs:446-479 | history independence: updating any canonical directory gives exactly the root that a build of the edited items gives |
| Codec.Decode | src/tree.rs:142-184 | a page is read exactly when the bytes are its encoding and it is valid: decoding inverts encoding and no second spelling is accepted |
| Codec.EmittedDecodes | src/tree.rs:49-50 | every chunk cut from sorted repository names encodes within the bound to bytes that decode to it |
| Directories.BuildReads | src/tree.rs:687-696 | a root built from items reads back as those items |
| Directories.LookupPrefixFree | src/tree.rs:635-646 | a snapshot tree never holds a file and something below it |
| Directories.SameSnapshotSameRoot | src/tree.rs:1-33 | canonical roots that read alike are the same object: a root depends only on its snapshot |
| Directories.BuiltCanonical | src/tree.rs:363-375 | building sorted files and canonical subdirectories gives a canonical directory |
| Apply.Find | src/tree.rs:623-632 | finding a name in a canonical directory gives the entry filed under it |
| Apply.ApplyName | src/tree.rs:404-437 | one name becomes what its changes say; it is refused for the reasons the code checks, or because what lies below it cannot be stored |
| Apply.PlanDir | src/tree.rs:396-439 | every changed name is decided and filed, or the directory is refused for a stated reason |
| Apply.ApplyDir | src/tree.rs:396-442 | the update succeeds exactly when no deletion is ambiguous, no file ends above a file, and some canonical directory reads as changed; it then is that directory |
| Apply.ApplyTree | src/tree.rs:377-394 | a changeset is refused exactly for those reasons; otherwise the root is canonical, reads as the changed snapshot, and is the only canonical root that does |
| Diff.PairsExact | src/tree.rs:770-786 | walking two sorted item lists by name reports exactly the names whose nodes differ |
| Diff.PairItems | src/tree.rs:767-786 | the two-cursor walk computes those pairs |
| Diff.RemainsDrop | src/tree.rs:743-753 | dropping chunks shared by hash leaves every difference to be found |
| Diff.DiffItems | src/tree.rs:733-787 | expanding level by level and dropping shared chunks reports exactly the names that differ |
| Diff.DiffDir | src/tree.rs:706-731 | the changeset between two directories is their pointwise difference, though equal subtrees are skipped |
| Intersecting.IntersectName | src/tree.rs:821-853 | the endpoints at and below one changed name |
| Intersecting.Intersect | src/tree.rs:805-856 | the pruned walk finds every endpoint and no other path |
| Intersecting.Intersections | src/tree.rs:789-803 | exactly the endpoints of all equal, ancestor or descendant pairs of a changed path and a differing file |
| Snapshots.Files | src/tree.rs:649-655 | a canonical root's files, as a map with no file above another |
| Snapshots.TreeDifference | src/tree.rs:698-704 | the difference of two canonical roots is the difference of their snapshots |
| Snapshots.TreeChanged | src/tree.rs:377-385 | a normalized changeset is applied exactly when the child snapshot has a canonical root, which is then the result |
| Snapshots.Reapply | src/tree.rs:377-385 | applying the difference of two roots to the first gives the second, always |
| Snapshots.Rediscover | src/tree.rs:698-704 | diffing what a normalized changeset produced gives the changeset back, exactly when the child snapshot has a root |
| Snapshots.Compose | src/publish.rs:359-388 | composing conflicts exactly when a changed path touches a base-to-head difference; otherwise there is a candidate exactly when the result has a root, and it holds the head with the changes made and differs from it by exactly them |
| Snapshots.AcceptRoot | src/repository.rs:1038-1047 | a received root is accepted exactly when it is canonical |
| Snapshots.SnapshotStores | src/tree.rs:40-43 | every snapshot of up to 2^33 files has a canonical root, so none of these ever fails for its size |
| Snapshots.ChangedStores | src/tree.rs:40-43 | a normalized changeset that leads to at most 2^33 files is always applied |
| Paths.ParseExact | src/domain.rs:156-181 | parsing and joining are inverse: each valid path has one string and a string names at most one path |
| Paths.SplitJoin | src/domain.rs:170-181 | splitting at slashes undoes joining |
| Paths.RangeIsPrefix | src/domain.rs:193-196 | the string range from `p/` to `p0` holds exactly the strings that extend `p/` |
| Paths.RangeIsDescendants | src/domain.rs:193-196 | that range holds exactly the proper descendants of a path |
| Paths.AncestorsArePrefixes | src/domain.rs:186-191 | what precedes each slash is exactly a path's proper ancestors |
| Domain.ApplyTo | src/domain.rs:403-410 | applying a changeset entry by entry gives the child snapshot |
| Domain.DifferenceArrives | src/domain.rs:402-410 | applying the difference of two snapshots to the first gives the second |
| Domain.DifferenceMade | src/domain.rs:469-501 | the difference a changeset makes is the changeset without its no-ops |
| Domain.DropNoOps | src/domain.rs:477-501 | the first pass refuses unsound entries and directory deletions, and otherwise drops exactly the no-ops |
| Domain.StaysPrefixFree | src/domain.rs:502-538 | the second pass passes exactly when no file ends up above another |
| Domain.Normalize | src/domain.rs:469-539 | a changeset is refused exactly for the three reasons; otherwise the result is the difference it makes |
| Domain.RebaseSafe | src/publish.rs:354-388 | a changeset normalized against its base that touches nothing up to the head is normalized against the head, and is the new version's whole difference |
| Domain.UntouchedRelated | src/publish.rs:374-382 | nothing touched means every path related to a changed one reads as in the base |
| Domain.Collisions | src/domain.rs:556-597 | exactly the related pairs on which another live Layer sets an entry that differs from the base |
| Domain.HitsRelated | src/domain.rs:571-576 | exact, ranged and ancestor lookups together find exactly the related live rows |
| Domain.RadarExact | src/radar.rs:1-8 | once another Layer publishes, the next conflicts are exactly the ends of the reported pairs |
| Domain.NewManifest | src/domain.rs:303-320 | a manifest is refused exactly for a repeated path or a file above another, and otherwise holds exactly its entries |
| Domain.RenamesTo | src/domain.rs:276-301 | exactly the renames that are unambiguous on both sides |
| Layers.TrackIn | src/radar.rs:200-238 | upserting and deleting only differences keeps each row naming the first event of the unbroken run of events that set its path to its entry, and leaves every other Layer's rows |
| Layers.AttributedExactly | src/layer.rs:955-984 | the rebuild is the one attribution that names, for each path the last event changes, the checkpoint and provenance of the earliest event of the latest unbroken run of events setting the path to its entry |
| Layers.AttributionIn | src/layer.rs:955-984 | the rebuild loop gives each path the event since which it has been so set |
| Layers.CreatedIndexed | src/layer.rs:635-661 | creating or cloning a Layer keeps the index equal to the rebuild |
| Layers.RecordedIndexed | src/layer.rs:704-720 | every accepted or stale update keeps the index equal to the rebuild |
| Layers.RecordedOutcome | src/layer.rs:663-733 | a recorded update reads back with all its bindings: applied exactly when it expected the latest event |
| Layers.RecordedChecked | src/layer.rs:855-913 | every update keeps every Layer's history contiguous, over one base, with discard last |
| Layers.CreatedChecked | src/layer.rs:635-661 | creating a Layer keeps every Layer checked |
| Layers.OutcomeStays | src/layer.rs:735-834 | a recorded update keeps its outcome as the tables grow |
| Publishing.ReceiptStays | src/publish.rs:513-635 | a receipt that derives once derives forever, unchanged |
| Commits.AdvanceKeeps | src/repository.rs:1015-1077 | advancing the World keeps every table checked |
| Commits.CreateKeeps | src/layer.rs:635-661 | creating or cloning a Layer keeps every table checked |
| Commits.UpdateKeeps | src/layer.rs:663-733 | capture, Stack and discard keep every table checked |
| Commits.CandidateFollows | src/publish.rs:359-388 | a composed candidate follows from the head: its tree is the head changed by the Layer's whole changeset, which is normalized against the head |
| Commits.CommittedReceipt | src/publish.rs:515-635 | every committed row derives exactly the receipt it stores |
| Commits.CommittedIndexed | src/publish.rs:178-180 | a published Layer leaves the path index and every other Layer's rows stay |
| Commits.OneSuccess | src/publish.rs:46-47 | no second success of one Layer is committed |
| Commits.CommitKeeps | src/publish.rs:143-219 | a publish keeps every table checked and changes nothing recorded |
| Commits.PlanHolds | src/publish.rs:135-142 | a plan whose recheck passes is the plan the locked state would make |
| Runs.RunChecked | src/publish.rs:493-511 | in every state of every interleaving all checks pass, and nothing recorded is ever changed |
| Runs.WorldsContiguous | src/repository.rs:1079-1158 | versions stay contiguous, each its parent plus its normalized changeset, chained by identity |
| Runs.SameIdentitySameHistory | src/domain.rs:413-429 | equal version identities mean equal histories |
| Runs.PublishedOnce | src/publish.rs:443-456 | a published Layer stays published by the same operation and gains no event |
| Runs.PublishedRefusesUpdates | src/publish.rs:458-474 | from a publication on, at every later state an update of that Layer changes nothing, and only one recorded before the publication is answered, as it was |
| Runs.ReceiptForever | src/publish.rs:257-277 | a retry returns the original receipt forever, and other input under its operation is refused |
| Runs.UpdateForever | src/layer.rs:676-697 | a recorded Layer update is answered the same forever |
| Runs.AdvanceForever | src/repository.rs:1025-1033 | a recorded World advance is answered the same forever |
| Runs.PublishAtomic | src/publish.rs:113-142 | a publish split into plan and commit does what one atomic publish would, or nothing |
| Runs.PublishedWhole | src/publish.rs:580-607 | a success appended exactly the Layer's changeset to the World its receipt names |
| Runs.ActiveRows | src/radar.rs:198-238 | in every state an active Layer's index rows are exactly its head's changes, each naming the event since which its path has been so set |
| Runs.TerminalRows | src/radar.rs:240-246 | a published or discarded Layer has no index rows |
| Runs.RadarForetells | src/radar.rs:78-113 | after another active Layer publishes, composing a Layer that was clear of the World conflicts on exactly the ends of the pairs reported for the other |
| Transactions.AtomicLaw | src/publish.rs:99-220 | whatever the input, a publish in a checked state is refused, changing nothing, exactly for its five reasons; otherwise it records its receipt: stale with the Layer's actual state, in conflict on exactly the paths where the Layer meets the World's changes since its base, or landed as the next version, the World head with the Layer's whole changeset; a retry gets the recorded receipt, or is refused for another input |
| Transactions.ReceiptCertifies | src/publish.rs:513-635 | a stored row derives a receipt only if it is true of the tables: its head was recorded, its World version is the one named, a landing appended exactly the Layer's changeset where nothing was touched, a conflict names exactly the touched paths, a stale outcome names a recorded state, and no earlier success of the Layer is left out |
| Transactions.UpdateDoes | src/layer.rs:663-733 | whatever the input, an update in a checked state is refused, changing nothing, exactly for its four reasons; otherwise it records a checkpoint over the same base that makes exactly the captured change and is normalized, with the stated sources and provenance (a discard keeps the checkpoint), and is applied exactly when it expected the latest event, with the index rows its history gives; a retry gets the recorded outcome |
| Transactions.CreateDoes | src/layer.rs:635-661 | a new Layer gets its first event and index rows; an existing one answers exactly when it starts at the same checkpoint |
| Transactions.AdvanceDoes | src/repository.rs:1017-1077 | whatever the input, a World advance is refused exactly for its three reasons, and otherwise recorded: as the next version holding the received snapshot with its normalized changeset, or as behind the head; a retry gets the recorded outcome |
| Repositories.Repository.CreateIn | src/layer.rs:635-661 | the whole new state of creating a Layer |
| Repositories.Repository.UpdateIn | src/layer.rs:663-733 | the whole new state of recording an update |
| Repositories.Repository.UpdateLayer | src/layer.rs:286-345 | capture, Stack and discard refuse, record and reply as `Transactions.UpdateDoes` says of the tables before and after |
| Repositories.Repository.AdvanceWorld | src/repository.rs:1017-1077 | advancing the World refuses, records and replies as `Transactions.AdvanceDoes` says of the tables before and after |
| Repositories.Repository.CommitPlan | src/publish.rs:143-213 | the whole new state of committing a rechecked plan |
| Repositories.Repository.PublishLayer | src/publish.rs:99-220 | under any interference a publish does what `Transactions.AtomicLaw` says in one checked state: it takes effect as one atomic publish in the state that the rounds of other transactions run so far lead to, and every earlier attempt had planned something its own round made its recheck refuse |
| Myers.MatchingReached | src/blame.rs:419-450 | every matching is a path: the edits it leaves reach at least as far as the greedy search |
| Myers.FirstArrival | src/blame.rs:440-445 | though points may leave both sequences, the first arrival is exactly at both ends |
| Myers.Step | src/blame.rs:427-446 | one round keeps the furthest point of every diagonal, with every index in range |
| Myers.Backtrack | src/blame.rs:452-475 | reading the recorded rounds back gives a matching of the length the arrival implies |
| Myers.ShortestScript | src/blame.rs:419-450 | a matching as long as any that leaves at most `limit` edits, or nothing |
| Blame.MiddleOf | src/blame.rs:385-402 | cutting the common ends costs any matching at most the ends' length |
| Blame.Matching | src/blame.rs:382-417 | each new line gets the old line it continues, in a matching as long as any that leaves at most 2048 edits; when every matching leaves more, exactly the common ends are matched |
| LongestMatching.LongestLength | crates/javelin-merge/src/matching.rs:5-14 | the table's last cell is the length of every longest matching |
| LongestMatching.MandatorySplit | crates/javelin-merge/src/matching.rs:32-38 | a row is kept by every longest matching exactly when the best split around it falls short of the total |
| LongestMatching.FillPrefix | crates/javelin-merge/src/matching.rs:3-13 | the nested loops fill the table of prefix lengths |
| LongestMatching.Traceback | crates/javelin-merge/src/matching.rs:15-28 | the traceback reads a longest matching |
| LongestMatching.Matches | crates/javelin-merge/src/matching.rs:1-50 | a longest common subsequence, and for each base row whether every longest matching keeps it |
| Diff3.MergeAligned | crates/javelin-merge/src/lib.rs:392-449 | a merged text and its three inputs share aligned regions; in each one side equals the base and the output is the other; each switch of side has an anchor unique in all three and mandatory on both between |
| Diff3.RegionsCover | crates/javelin-merge/src/lib.rs:403-428 | the regions and anchors cut all three texts without loss |
| Diff3.AnchorsExactly | crates/javelin-merge/src/lib.rs:404-416 | the anchors between regions are exactly the base lines matched on both sides |
| Diff3.MergesExactly | crates/javelin-merge/src/lib.rs:392-449 | texts merge exactly when no region is changed by both sides and each change of one side is parted from the next change of the other by a line that all three hold once and every longest matching of either side keeps |
| DisjointEdits.SplitEditsMerge | crates/javelin-merge/src/lib.rs:392-449 | edits on either side of a line that all three texts hold once always merge: ours up to the line and theirs from it on |
| Diff3.MergeSymmetric | crates/javelin-merge/src/lib.rs:392-449 | swapping the sides gives the same answer |
| Diff3.MergeOneSided | crates/javelin-merge/src/lib.rs:392-449 | an unchanged side gives the other side |
| Diff3.CutSteps | crates/javelin-merge/src/lib.rs:404-427 | the first loop yields one step for each region, or stops at a region both sides changed |
| Diff3.JoinSteps | crates/javelin-merge/src/lib.rs:429-449 | the second loop succeeds exactly when every switch of side is separated |
| Diff3.MergeTexts | crates/javelin-merge/src/lib.rs:403-449 | the two loops compute the specified merge |
| Merge.LinesConcat | crates/javelin-merge/src/lib.rs:451-454 | splitting into lines loses nothing |
| Merge.LinesExactly | crates/javelin-merge/src/lib.rs:451-454 | the lines are the only ones that make up the text, each but the last ended by its one newline |
| Merge.MergePath | crates/javelin-merge/src/lib.rs:303-358 | one path resolves by entry equality, then bit and content, then lines |
| Merge.PathMergeLaw | crates/javelin-merge/src/lib.rs:303-358 | with two of a path's three sides equal, the side that changed has its way; with all different, an addition, a deletion and a change of type conflict, and a regular file keeps the changed bit, and the one new content or else the line merge unless a side is binary |
| Merge.PathMergeSymmetric | crates/javelin-merge/src/lib.rs:303-358 | swapping the sides resolves a path the same way |
| Merge.MergedLinesOneSided | crates/javelin-merge/src/lib.rs:360-390 | a line merge with one side unchanged gives the other side's bytes |
| Merge.FindCollisions | crates/javelin-merge/src/lib.rs:223-248 | exactly the present paths with another present path above or below them, each with its shortest ancestor, or else its first descendant in string order |
| Merge.Partners | crates/javelin-merge/src/lib.rs:138-146 | exactly the destinations of one base path that the sides renamed differently |
| Merge.ApplyChoices | crates/javelin-merge/src/lib.rs:158-172 | one round applies the choices of exactly the conflicting paths not yet chosen, and no other path changes |
| Merge.Report | crates/javelin-merge/src/lib.rs:176-216 | every path is merged, in conflict with its sides, reason and second path, or left out as deleted |
| Merge.ChoicesHeld | crates/javelin-merge/src/lib.rs:262-295 | every choice not reported unused is what the merge holds at its path (ours, theirs, or the supplied bytes with the bit chosen, else that of ours, else that of theirs, else none; nothing, for a side without the path) unless another path is in the way |
| Merge.MergeResolved | crates/javelin-merge/src/lib.rs:106-219 | rounds of choices, each applying exactly those of the paths that are unresolved, clash or alias, up to one in which no more apply; then each path is by choice, split rename or its three sides what the rules say, and is shown merged, deleted, or in conflict with its sides, reason and second path; no merged path is above another |
| Merge.MergePlain | crates/javelin-merge/src/lib.rs:82-97 | merging with an unchanged side, or two equal sides, gives the other side cleanly |
| Merge.InitialSymmetric | crates/javelin-merge/src/lib.rs:131-151 | what is decided without choices does not depend on which side is ours |
| Merge.StackChanges | crates/javelin-stack/src/lib.rs:76-125 | a Stack is refused for an unused choice or a conflict of the merge that the rules above give; the changeset of a clean one is normalized over the target's base, and applying it yields exactly the merged manifest |
| Journal.BodyParses | src/outbox.rs:472-490 | parsing a record's body gives the record back |
| Journal.ParsesOnce | src/outbox.rs:461-500 | a body that parses is the one spelling of its record |
| Journal.TornFrame | src/outbox.rs:443-459 | a frame cut anywhere never reads: its length tells |
| Journal.ScanLog | src/outbox.rs:214-229 | scanning a log's frames applies the log and goes on with what follows |
| Journal.ScannedLog | src/outbox.rs:214-229 | whatever bytes are scanned, what was read is the frames of one log |
| Journal.LogExactly | src/outbox.rs:465-500 | a log amounts to entries exactly when each number is queued once and acknowledged at most once after that, and the entries are the queued requests, each with the outcome of its acknowledgement if it has one |
| Outboxes.Outbox.constructor | src/outbox.rs:188-239 | opening any recognised journal reads its longest sound prefix and reports the rest as damage |
| Outboxes.Outbox.Enqueue | src/outbox.rs:263-303 | a queued record extends an undamaged journal by exactly its frame under the next number, or nothing changes |
| Outboxes.Outbox.Acknowledge | src/outbox.rs:329-343 | an acknowledgement extends the journal and sets only that outcome |
| Outboxes.Outbox.MoveDamageAside | src/outbox.rs:360-386 | the damaged tail is kept aside and the journal ends at its last valid record |
| Outboxes.Outbox.Replay | src/outbox.rs:305-327 | replies are recorded for pending records in ascending order until a delivery faults or its reply is over the limit, and nothing else changes |
| Outboxes.RecoversExactly | src/outbox.rs:188-239 | after every run of appends and crashes, opening reads exactly the whole records, and reports a torn tail exactly when there is one |
| Outboxes.SoundReopens | src/outbox.rs:188-239 | a journal without damage, or repaired by an append, reopens undamaged with the same entries |
| Outboxes.Survive | src/outbox.rs:188-300 | an outbox living through any run of appends and crashes, reopened after each crash, has the file of the run and the entries of its whole records |
| Outboxes.ConfirmedKept | src/outbox.rs:263-265 | no record confirmed to its caller is ever lost |
| Outboxes.NumbersRise | src/outbox.rs:230-231 | queued numbers only rise, through every crash and reopening |
| Refresh.PlanRefresh | src/workspace/refresh.rs:438-474 | the plan applies exactly the head changes the directory lacks and reports exactly the two kinds of conflict |
| Refresh.RestWrites | src/workspace/refresh.rs:10-13 | planning again applies exactly what an interruption left |
| Refresh.Converges | src/workspace/refresh.rs:10-13 | finishing the rest ends where an uninterrupted refresh would |
| Refresh.RefreshedHolds | src/workspace/refresh.rs:5-8 | a finished refresh holds the head wherever the head changed something and the local edits everywhere else |
| Refresh.NoNewChanges | src/workspace/refresh.rs:438-474 | a refresh's own writes never raise a content conflict |
| Refresh.CopyConflicts | src/workspace/refresh.rs:237-250 | once its origin is removed and before any addition, a head rename with a lone new copy is a rename conflict |
| Workspaces.EmptiesExactly | src/workspace/refresh.rs:632-652 | walking a directory entry by entry finds it emptied exactly when every file below is removed and every directory below has a removal under it |
| Workspaces.BlockedExactly | src/workspace/refresh.rs:654-705 | an addition is blocked exactly by a file above it that the refresh does not remove, or by a directory at its path in which something stays or no removal is made |
| Workspaces.RunMidway | src/workspace/refresh.rs:808-848 | after any number of system calls the directory is a tree holding exactly the writes made so far, and what the removals emptied is removed |
| Workspaces.NoDirsLeft | src/workspace/refresh.rs:362-375 | once the removals are made, no directory is left where the head writes a file |
| Workspaces.RunFinishes | src/workspace/refresh.rs:362-375 | a refresh ends, and the files are then changed by exactly its writes |
| Workspaces.NoNewBlocks | src/workspace/refresh.rs:654-705 | unless the head writes a file over removals, no moment of a refresh leaves a remaining write blocked |
| Workspaces.ResumesExactly | src/workspace/refresh.rs:10-13 | every interruption can be resumed exactly when there is no lone new copy of a renamed path and no head file is written over removals |
| Workspaces.CopyWitness | src/workspace/refresh.rs:237-250 | an input without such a write whose interrupted refresh is refused when run again |
| Workspaces.DirectoryWitness | src/workspace/refresh.rs:684-697 | an input without such a copy whose interrupted refresh is refused when run again |
| Workspaces.Refusals | src/workspace/refresh.rs:221-361 | the refresh is refused exactly when something conflicts, blocks, aliases or is still changing |
| Workspaces.Workspace.RefreshTo | src/workspace/refresh.rs:221-397 | a refresh is refused with nothing changed, or makes the steps of its writes in order up to an interruption |
| Workspaces.Workspace.RemovePath | src/workspace/refresh.rs:808-828 | a path is unlinked, then its parents are removed as long as they are empty |
| Workspaces.Workspace.PlacePath | src/workspace/refresh.rs:830-848 | the parents of a path are made, then a complete copy replaces it |
| Workspaces.RefreshRepeatedly | src/workspace/refresh.rs:10-13 | under the two guards a refresh run again after any interruptions ends as one refresh would |
| Capture.ReadStable | src/capture.rs:489-530 | the result is that of the first of three attempts that settles between equal fingerprints or finds the path gone, and unstable exactly if none does |
| Capture.ReadsToOne | src/capture.rs:489-530 | the attempts decide the result of a read |
| Capture.OldMeansQuiet | src/capture.rs:11-19 | a fingerprint older than the margin before a moment proves nothing changed since |
| Capture.VouchedContent | src/capture.rs:16-19 | a vouched fingerprint that shows again shows its content |
| Capture.StableVouches | src/capture.rs:239-250 | a stable read with an old fingerprint vouches for its content |
| Capture.SettlesLaw | src/capture.rs:226-262 | a trusted match stays as it is; otherwise the first of three attempts that finds the path gone or its content between equal fingerprints decides: dropped, or that content under the walk's fingerprint, trusted exactly when both fingerprints agree and every time is older than the margin; with no such attempt it is unsettled |
| Capture.SettleFound | src/capture.rs:226-262 | one found path is settled by that rule, and a trusted result is the content at the walk |
| Capture.StatCache.ScanFound | src/capture.rs:200-271 | every found path ends in cache and scan with exactly the content its deciding attempt read, in neither once gone, or uncertain with its prior entry; nothing else is there; trusted results are the contents at the walk; the cache is dirty exactly when something was read or not found |
| Capture.NothingRacyTrusted | src/capture.rs:11-27 | a scan trusts only what was trusted already or is old now |
| Capture.LeftOutVanished | src/capture.rs:226-262 | a path left out vanished while it was read, an uncertain one never settled and keeps its prior entry |
| Capture.ScanAll | src/capture.rs:11-27 | over every run of scans, with edits at any moment, each scan ends every path as its attempts say, from the cache the last scan left, and its trusted results are exact |
| Capture.QuietRead | src/capture.rs:9-11 | with nothing changing during a scan, a fresh read is exact too |
| Wildcards.Glob | crates/javelin-node/src/checks.rs:308-330 | true exactly when the name is in the pattern's language: backtracking only to the last star misses nothing |
| Wildcards.NewStar | crates/javelin-node/src/checks.rs:314-317 | a later star reaches whatever an earlier star's other attempts could |

## Left out

- Hash strength: identities are injective constructors. A truncated journal frame is caught by its length, so the journal results need no property of the checksum.
- The object store itself: missing or corrupt objects, the chunk cache, buffering and reclaim. Trees are read as values, and `Shaped` states what the reader checks of a received one.
- UTF-8 and JSON: names, scopes and lines are byte strings, and canonical JSON bytes stand for the values they encode.
- Path length and depth limits while joining names during a walk: `Paths.ValidPath` states them, but the tree walks do not report them as errors.
- Integer widths: counts, sizes, revisions and version numbers are unbounded; the 16-bit name length and the journal's 32-bit and 64-bit fields are modelled where they are encoded.
- Content validation of entries (`check_entry`): a predicate parameter of `Domain.Normalize`, and always true in the Layer transactions.
- Trees inside the tables: a version row holds its snapshot instead of its root. `Snapshots.SameFilesSameRoot` shows that the two identify each other, and a publish that a directory too large for the highest level would fail is not modelled there.
- Updating.Update: takes the directory's items as a ghost parameter next to the root that stores them, and reads chunks directly instead of through the store.
- LongestMatching.FillPrefix: uses a two-dimensional array where the program indexes a flat one.
- Merge.MergeResolved: resource limits, load failures and the order of the conflict list are not modelled; when a path is a split rename's destination twice, either other destination may be named; aliases are a function of the remaining paths.
- Workspaces.Workspace.RefreshTo: owner choices, ignored files, aliases of names on the volume and the sync record are not modelled; uncertain and aliased paths are inputs, and writes come in any order that puts removals first.
- Outboxes.Outbox.Enqueue: requires the next number to fit its 64-bit field.
- Capture: ignore rules, the thread-pool walk, the cache file's encoding and checksum, and platform differences in fingerprints.
- Layers: `CheckpointReader`'s depth-first walk of Stack ancestry; checkpoints here contain their sources, so ancestry is finite by construction and only direct sources are checked.
- Blame recording (`record_in`), version-to-version blame output, and provenance contents.
- Publish Requests, review, HTTP and CLI plumbing, credentials, backoff jitter, running-time claims and work-unit estimates.
