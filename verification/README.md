# Verified models of the maintenance tools and the locking layer

opencrab keeps one data set in several SQLite files: a graph, documents with a full-text index,
vectors, and a registry. Its maintenance tools change these files one transaction at a time, may
be killed between any two of them, and share the data directory with other writers. This project
models those tools and the locks beneath them in Dafny, and proves what they promise over all
stores, all interleavings and all kills.

How the parts fit together:

- **Four-store cleanup** (`scripts/cleanup_openclaw_heartbeat_493.py`). `CleanupModel` holds the
  rows, the frozen records and the two pure tests of a resume. `EdgeIntent` is the receipt and the
  R/D/S rule. `Protection` is what must not change: nine sections and the support of every Claim.
  `Transactions` gives each delete twice, as a function of the stores and as the method that
  carries it out. `Progress` says exactly what each delete adds to a partly finished cleanup,
  `Backup` what a run leaves outside the stores, and `ApplyRun` is the run itself, with any number
  of kills and restarts. `Witness` is the same tool among foreign commits, `WitnessRuns` what its
  steps come to when nobody interferes, `StaleReads` its checks that do not read the logs,
  `SectionHashing` and `HashedSections` are the hashes behind the sections, `Markers` is the rollback
  protocol of one run directory.
- **Space backfill** (`scripts/backfill_space.py`). `PythonValues` is Python's equality and the two
  encodings of identifiers. `SpaceDecision` is the one decision function, `SpaceResolver` the
  dictionaries and the tables it is fed from, `SpaceBackfill` the batches, `SpaceReconcile` the
  check afterwards.
- **Locks** (`opencrab/locking.py`). `FileLocks` is the state machine of all threads and processes
  on one lock file, `LockDeadline` the two waits, `ChromaRegistry` the Windows registry.
- **Further protocols.** `PackAttribution`, `NodeReconcile`, `TableRebuild`, `Bootstrap` and
  `SqlMigration`, one for each of the tools named in their rows below.

Conventions. A SQLite transaction is one step. A digest is modelled by the value it digests; JSON
text, UTF-8 and `float.hex` are taken to be injective and readable back. `PRAGMA data_version`
counts the commits of other connections. Where a module has other writers, they may write anything;
`ApplyRun` and `Markers` have none. A kill is a step of a state machine, and of a method it is the
number of steps that the process lives: so the state it leaves can be said exactly, and also that a
run with steps enough comes to its end. Some method bodies hide definitions they do not need, so that
each proof rests on the contracts it names.

## What turned out to be false

Where the code does not do what its text promises, the code is modelled and the exact condition is
proved.

- **The lower bound of the R/D/S rule refuses nothing.** Every accepted receipt approves every
  recorded edge, so the rule says exactly that nothing unrecorded touches a candidate
  (`EdgeIntent.IntentIsUpperBound`).
- **The projected check is independent of the plan only thanks to the node compare-and-set**
  (`Protection.ProjectedIgnoresThePlan`, `Protection.ProjectedDependsOnPlanWithoutCas`).
- **An apply run can refuse because of what an earlier one left.** A kill between the creation of the
  backup directory and the receipt makes the same command refuse for good, and a kill behind a commit
  leaves a log that the next run refuses until it is checkpointed. From every reachable state a run
  refuses exactly for the logs, or for the backup directory it names (`ApplyRun.Apply`,
  `ApplyRun.ApplyRepeatedly`, `ApplyRun.KilledBackupBlocks`, `ApplyRun.KilledCommitBlocks`).
- **A remembered verdict can be false although all counters match.** The projected and the registry
  check read files through immutable connections, which do not see commits in the log. After a foreign
  commit was noticed and adopted, such a check can pass on the old file and be remembered, and the
  delete commits; the full digest at the end of the axis comes afterwards
  (`StaleReads.DeletesOnAFalseVerdict`). A pass is sure to be true exactly if no foreign commit is in
  the log of a file that matters to it and that it reads in this way (`StaleReads.PassIsSureExactly`),
  and all other verdicts are true in every interleaving (`Witness.RememberedVerdictsAreTrue`).
- **Equal section hashes do not imply equal sections**, because digests are summed: an injective
  digest does not exclude it (`SectionHashing.SumHashCollides`), and every digest has such a pair
  (`SectionHashing.EveryDigestCollides`). The converse, which the tool relies on to accept its own
  progress, holds.
- **Rollback cannot always be entered again.** A killed restore can be completed by the next rollback
  exactly if it was not killed between the creation and the completion of an artifact and no store
  has a WAL, shared-memory or journal file (`Markers.KilledRestoreCanReenter`,
  `Markers.RestartCompletes`). A temporary marker, an attempt directory without marker and torn
  metadata block the run directory for good (`Markers.StaleTmpBlocksForever`,
  `Markers.DamageStopsRestores`); a sidecar file does so as long as it is there.
- **A sleep can end after the shared deadline of `file_lock`**, for every positive timeout, by at most
  the time between two clock readings, and exactly if time was left and the clock moved between them
  (`LockDeadline.SleepCanOverrun`, `LockDeadline.DriftDecides`).
- **An exclusive block can overlap other blocks** exactly if it was requested inside a shared one and
  the platform has shared locks (`FileLocks.ExclusiveMeansAlone`, `FileLocks.UpgradeLetsOthersIn`).
- **The rebuild of the vector table can report success on a partial table.** A rerun after a kill
  during the copy back finds the bit column and passes; it is right exactly if the temporary table
  is not larger than the original (`TableRebuild.Migrate`, `TableRebuild.PassWithHalfTheRows`). That
  comparison of sizes is exact as long as nobody else inserts rows between the kill and the rerun.
- **Exit 0 of the pack attribution can leave a document without a pack.** A row whose properties are
  valid JSON but no object, and whose graph twin has a pack, counts as written and stays as it was
  (`PackAttribution.Stores.Migrate`, `PackAttribution.ExitZeroCanMissARow`). And the preview of
  step 3.5 is the assignment of step 4 exactly if both see the same twins, which with unique node ids
  means that the graph is backfilled (`PackAttribution.PreviewReadsTheTwins`,
  `PackAttribution.PreviewNeedsTheBackfill`, `PackAttribution.UnattributedGraphMisleads`).
- **A history table half copied by a killed migration stays half copied**, because a target that is
  neither empty nor full is left alone. A run that goes through leaves a history complete exactly if
  it found it empty or complete, which for a history only this tool has filled is a matter of its
  size (`SqlMigration.Migrate`, `SqlMigration.HistoryByCount`, `SqlMigration.HistoryStaysHalf`).

## Model

| member | source | states |
|---|---|---|
| CleanupModel.StoredEdge | scripts/cleanup_openclaw_heartbeat_493.py:367-380 | an edge record is among the stored edges exactly when the row under its key spells it |
| CleanupModel.ResumeTestExactly | scripts/cleanup_openclaw_heartbeat_493.py:1683-1695 | entry by entry, what a resume accepts: source, full text, documents and vector as recorded or gone, the node as recorded or gone with every edge at it, and in the registry nothing but recorded rows |
| CleanupModel.EligibleByRows | scripts/cleanup_openclaw_heartbeat_493.py:848-915 | selection freezes a candidate exactly if it has a source of the pack, one index row with that text, one document, node and vector of the pack, the type and the space "evidence", one registry node of them, and no registry edge names it in another space |
| EdgeIntent.BuildIntent | scripts/cleanup_openclaw_heartbeat_493.py:1495-1515 | the two nested loops file every recorded edge as component or boundary, each boundary edge under a candidate it touches, all approved |
| EdgeIntent.ScopedIsGlobal | scripts/cleanup_openclaw_heartbeat_493.py:1714-1745 | for edges that all touch a candidate, R/D/S holds of the whole sets exactly when it holds of every candidate's share |
| EdgeIntent.ScopedRefinesGlobal | scripts/cleanup_openclaw_heartbeat_493.py:1776-1853 | the whole-graph check passes exactly when the check scoped to each single candidate passes, component and boundary edges alike |
| EdgeIntent.IntentIsUpperBound | scripts/cleanup_openclaw_heartbeat_493.py:1850-1853 | the check passes exactly when no unrecorded edge touches a candidate: its lower bound never refuses |
| EdgeIntent.ScopedIsUpperBound | scripts/cleanup_openclaw_heartbeat_493.py:1776-1847 | scoped to one candidate, the check passes exactly when every stored edge at it is recorded |
| EdgeIntent.BuildKeyIndex | scripts/cleanup_openclaw_heartbeat_493.py:1734-1745 | the one-pass index returns for every id exactly the recorded edges that touch it |
| Protection.SectionsSurvive | scripts/cleanup_openclaw_heartbeat_493.py:918-1017 | removing any candidate rows from any stores leaves all nine protection sections as they were |
| Protection.SectionsSeeEveryChange | scripts/cleanup_openclaw_heartbeat_493.py:918-1017 | the nine sections of two stores are equal exactly if no Document or Claim, no support node with its documents, source and vector, no edge between others and no other registry row was added, changed or removed |
| Protection.ValidSourceExactly | scripts/cleanup_openclaw_heartbeat_493.py:1084-1124 | a source counts exactly if document source, node and the only registry row exist now, in the pack, space and one support type, and are still the frozen ones |
| Protection.GraphCheckExactly | scripts/cleanup_openclaw_heartbeat_493.py:1127-1218 | the graph check passes exactly if every Claim of the manifest that a recorded supports edge of a candidate names, in whatever letter case its type is spelled, is there and has a stored supports edge from a standing non-candidate source; a Claim no recorded edge supports demands nothing |
| Protection.RegistryCheckExactly | scripts/cleanup_openclaw_heartbeat_493.py:1127-1229 | the same of the registry check and the edges the registry holds for a candidate |
| Protection.ClaimSupportSurvives | scripts/cleanup_openclaw_heartbeat_493.py:1127-1230 | if every Claim that a recorded edge of a candidate supports stands on another source, on the graph and on the registry axis, it still does after any candidate rows are removed |
| Protection.VerdictsSurvive | scripts/cleanup_openclaw_heartbeat_493.py:1244-1259 | projected protection, the registry checks and the section comparison stay passed under the tool's own deletes |
| Protection.ProjectedExactly | scripts/cleanup_openclaw_heartbeat_493.py:1856-1888 | against the stores a plan was frozen from: the projected check passes exactly if Documents, Claims, supports, their sources and the edges outside the candidates are as they were and every Claim that loses a support keeps another |
| Protection.RegistryGlobalExactly | scripts/cleanup_openclaw_heartbeat_493.py:2024-2046 | the same of the registry check and the registry rows outside the candidates |
| Protection.ProjectedIgnoresThePlan | scripts/cleanup_openclaw_heartbeat_493.py:1856-1888 | once the planned nodes passed their compare-and-set, the check with a plan passes exactly when the check without one does |
| Protection.ProjectedDependsOnPlanWithoutCas | scripts/cleanup_openclaw_heartbeat_493.py:1856-1888 | with a candidate of a reserved type stored, the check fails for every plan that does not name it |
| Protection.PlannedRowsAreIgnored | scripts/cleanup_openclaw_heartbeat_493.py:1856-1888 | whatever graph nodes stand under the planned ids, the check with that plan gives one verdict |
| Transactions.DeleteRows | scripts/cleanup_openclaw_heartbeat_493.py:2011-2013 | the row-by-row delete removes exactly the given row ids |
| Transactions.DataSet.DeleteVector | scripts/cleanup_openclaw_heartbeat_493.py:1921-1941 | commits exactly the vector transaction, or refuses and leaves the store untouched exactly when the transaction refuses |
| Transactions.DataSet.DeleteGraph | scripts/cleanup_openclaw_heartbeat_493.py:1944-1997 | the same for node and edges, with pre- and post-checks inside the transaction |
| Transactions.DataSet.DeleteDocument | scripts/cleanup_openclaw_heartbeat_493.py:2137-2182 | the same for source, full-text rows, document row and integrity row, whichever document row the fetch returns |
| Transactions.DataSet.DeleteRegistry | scripts/cleanup_openclaw_heartbeat_493.py:2049-2099 | the same for registry nodes and edges |
| Transactions.PostChecksNeverRefuse | scripts/cleanup_openclaw_heartbeat_493.py:1981-1993 | for an intent that files no edge twice, the checks between the deletes and the commit never refuse |
| Transactions.VectorDeletesFrozenRows | scripts/cleanup_openclaw_heartbeat_493.py:1921-1941 | whatever others wrote, a commit removes only the frozen vector row |
| Transactions.GraphDeletesFrozenRows | scripts/cleanup_openclaw_heartbeat_493.py:1944-1997 | a commit removes only the candidate node as frozen, and edges whose stored row is a recorded and approved edge |
| Transactions.DocsDeleteFrozenRows | scripts/cleanup_openclaw_heartbeat_493.py:2137-2182 | a commit removes only the frozen source, full-text rows with the frozen text and the evidence row as frozen, and leaves no source or full-text row of the id |
| Transactions.RegistryDeletesFrozenRows | scripts/cleanup_openclaw_heartbeat_493.py:2049-2126 | a commit removes only registry rows that equal the snapshot's, and leaves no node or edge of the id |
| Transactions.GraphTxShrinks | scripts/cleanup_openclaw_heartbeat_493.py:1944-1997 | the graph delete changes nothing but candidate rows |
| Transactions.DocsTxShrinks | scripts/cleanup_openclaw_heartbeat_493.py:2137-2182 | the document delete changes nothing but candidate rows |
| Transactions.RegistryTxShrinks | scripts/cleanup_openclaw_heartbeat_493.py:2049-2099 | the registry delete changes nothing but candidate rows |
| Transactions.GraphCommitClears | scripts/cleanup_openclaw_heartbeat_493.py:1944-1997 | after a candidate's graph commit no stored edge touches it, even among foreign rows |
| Progress.CandidatesFreeze | scripts/cleanup_openclaw_heartbeat_493.py:1362-1409 | any eligible candidates of any stores can be frozen, exactly if the Claims their edges support stand without them |
| Progress.FrozenPlanIsClean | scripts/cleanup_openclaw_heartbeat_493.py:848-915 | what selection froze satisfies everything the protection proofs need: candidates are neither reserved nodes nor supports |
| Progress.RestartAccepts | scripts/cleanup_openclaw_heartbeat_493.py:1683-1695 | on the frozen stores minus any candidates' rows, an axis counts as done exactly if the tool erased it, and the resume test accepts |
| Progress.RestartIntent | scripts/cleanup_openclaw_heartbeat_493.py:1776-1853 | the whole and the scoped R/D/S checks pass in every such state |
| Progress.VectorDeleteAdvances | scripts/cleanup_openclaw_heartbeat_493.py:1921-1941 | from such a state the vector delete succeeds and adds exactly this candidate to the erased ones |
| Progress.GraphDeleteAdvances | scripts/cleanup_openclaw_heartbeat_493.py:1944-1997 | the same for the graph delete, although shared edges may already be gone |
| Progress.DocumentDeleteAdvances | scripts/cleanup_openclaw_heartbeat_493.py:2137-2182 | the same for the document delete |
| Progress.RegistryDeleteAdvances | scripts/cleanup_openclaw_heartbeat_493.py:2049-2099 | the same for the registry delete |
| Progress.VerdictsHold | scripts/cleanup_openclaw_heartbeat_493.py:1244-1259 | projected protection, registry checks and sections all hold in every such state |
| ApplyRun.CheckExactly | scripts/cleanup_openclaw_heartbeat_493.py:2210-2263 | the check around an axis passes exactly if no registry edge names the candidate in another space, its rows are what a resume accepts, and every edge at it is recorded |
| ApplyRun.MemoIsTransparent | scripts/cleanup_openclaw_heartbeat_493.py:1856-1888 | a remembered pass lets exactly those deletes through that evaluating the check would |
| ApplyRun.ApplyAxis | scripts/cleanup_openclaw_heartbeat_493.py:2210-2263 | one axis of one candidate, killed after any number of steps: removes only candidate rows, and only if every stored row and edge of the candidate is a recorded one; never refuses its own progress, and finishes only with no row of the candidate left on the axis |
| ApplyRun.ApplyRecord | scripts/cleanup_openclaw_heartbeat_493.py:2210-2263 | the four axes in order, each only once those before it are erased: finished means that no row of the candidate is left |
| ApplyRun.ApplyRecords | scripts/cleanup_openclaw_heartbeat_493.py:2210-2263 | the loop over candidates keeps the frozen-minus-erased state and finishes only with no row of any candidate left |
| ApplyRun.IntentIsUnique | scripts/cleanup_openclaw_heartbeat_493.py:1518-1541 | a receipt that validates is determined by the manifest |
| Backup.RunDir.TakeBackup | scripts/cleanup_openclaw_heartbeat_493.py:1544-1571 | directory, four copies, their modes and the receipt come one after another; a kill after any number of steps leaves exactly the set made so far, and the receipt only at the end |
| ApplyRun.Receipts | scripts/cleanup_openclaw_heartbeat_493.py:2297-2326 | from a reachable state the part before the preflight refuses exactly if a log is not empty, or there is no receipt and the named directory exists or is misplaced, or there is a receipt and the named directory does not hold its set |
| ApplyRun.Apply | scripts/cleanup_openclaw_heartbeat_493.py:2286-2348 | from any stores a run only removes candidate rows; if it removes any, the protected rows were the frozen ones, every stored row and edge of every candidate was a recorded one, and every Claim it takes a support from stands on another source, before and after; if it finishes, no row of a candidate is left; a first run makes its backup, a private copy of each store, only of the frozen snapshots; from a reachable state it refuses exactly if logs or backup directory block it, stays reachable, and with steps enough it finishes; finished leaves exactly the frozen stores minus the candidates |
| ApplyRun.ApplyRepeatedly | scripts/cleanup_openclaw_heartbeat_493.py:2266-2348 | any number of runs, each killed after any number of steps, with any operator between them: a run refuses exactly if what it finds outside the stores blocks it, a run that is not blocked and has steps enough finishes, and once one finished the stores are the frozen ones minus the candidates |
| ApplyRun.KilledBackupBlocks | scripts/cleanup_openclaw_heartbeat_493.py:1544-1571 | a first run killed between making the backup directory and publishing the receipt makes every later run of the same command refuse |
| ApplyRun.KilledCommitBlocks | scripts/cleanup_openclaw_heartbeat_493.py:292-297 | a first run killed right after its first commit: the first candidate has lost its vector, and the next run refuses until somebody checkpoints |
| ApplyRun.OwnCommitsDoNotMislead | scripts/cleanup_openclaw_heartbeat_493.py:1856-1888 | for a run left alone, the projected and the registry check pass on every mixture of files from before and after its own commits |
| ApplyRun.AxesAreWholeOrErased | scripts/cleanup_openclaw_heartbeat_493.py:1683-1695 | in every reachable state each axis of each candidate is its frozen rows or empty; edges and registry edges are a subset of the frozen ones |
| ApplyRun.ErasedInOrder | scripts/cleanup_openclaw_heartbeat_493.py:2210-2263 | in every state that any kills can leave, each candidate goes axis by axis: without registry rows it has no documents, without documents no node and edge, without those no vector |
| ApplyRun.FinishedLeavesTheRest | scripts/cleanup_openclaw_heartbeat_493.py:2286-2348 | the finished state has no row of a candidate, all other rows, the frozen sections, and every Claim of the manifest that a candidate supported, standing on another source |
| SectionHashing.SectionHash.Add | scripts/cleanup_openclaw_heartbeat_493.py:608-627 | adding an item appends it to the hashed contents |
| SectionHashing.HashScan | scripts/cleanup_openclaw_heartbeat_493.py:918-952 | the scan loop hashes exactly the kept rows, in scan order |
| SectionHashing.HashIsOrderFree | scripts/cleanup_openclaw_heartbeat_493.py:608-627 | count and sum modulo 2^256 depend only on the multiset of items |
| SectionHashing.SectionIgnoresDeletedRows | scripts/cleanup_openclaw_heartbeat_493.py:608-627 | deleting rows a section does not keep leaves its hash, in whatever order the rest is scanned |
| SectionHashing.SumHashCollides | scripts/cleanup_openclaw_heartbeat_493.py:608-627 | injectivity of the digest does not exclude collisions: two pairs of rows have one sum under an injective digest |
| SectionHashing.EveryDigestCollides | scripts/cleanup_openclaw_heartbeat_493.py:608-627 | whatever the digest, among more than 2^256 different rows there are two whose one-row sections have the same hash |
| HashedSections.HashesSurviveDeletes | scripts/cleanup_openclaw_heartbeat_493.py:996-1021 | scanned before and after any candidate deletes, in any orders, the nine hashes agree |
| Witness.IndexedReadIsDirect | scripts/cleanup_openclaw_heartbeat_493.py:384-450 | reading through a covering position index returns exactly the rows of the candidate |
| Witness.NextKeepsInv | scripts/cleanup_openclaw_heartbeat_493.py:466-605 | every step, of the tool, of another writer or of a checkpoint, keeps the invariant of baseline, memory and index, although reads and rescans take several statements between which others commit, and some see files without their logs |
| Witness.RememberedVerdictsAreTrue | scripts/cleanup_openclaw_heartbeat_493.py:466-535 | in every interleaving: whenever the four counters equal the baseline, every remembered verdict is true of the stores as they are, unless its check read a file without its log while a foreign commit was in the log; digests and snapshots never do |
| Witness.CleanLogsLeaveNoDoubt | scripts/cleanup_openclaw_heartbeat_493.py:273-275 | as long as foreign commits are checkpointed at once, no remembered verdict is excepted |
| StaleReads.PassIsSureExactly | scripts/cleanup_openclaw_heartbeat_493.py:1872-1888 | a pass of a remembered check is sure to be true of the stores exactly if no file that it reads without its log, and in which the plan has something to look for, has a foreign commit in the log, spelled out check by check |
| StaleReads.DeletesOnAFalseVerdict | scripts/cleanup_openclaw_heartbeat_493.py:574-605 | a run that handles a foreign change of a protected source, passes the projected check on the old file, remembers it at matching counters although it is false, and commits the delete |
| Witness.MatchingCompareHadAMoment | scripts/cleanup_openclaw_heartbeat_493.py:488-492 | if each counter matched when its turn came, all matched at the first comparison, and the verdicts that are not excepted were true then |
| Witness.AdoptedHadAMoment | scripts/cleanup_openclaw_heartbeat_493.py:574-597 | the counters a handling adopts were read one by one and again one by one; there was a moment in between when all four had these values and the index found every row of every candidate |
| Witness.LockedVerdictStillTrue | scripts/cleanup_openclaw_heartbeat_493.py:597-605 | from the comparison under the write lock to the commit, the locked file stays as it is and every verdict that is not excepted stays true of it, with the other files as they were at the comparison |
| Witness.IndexIsExact | scripts/cleanup_openclaw_heartbeat_493.py:407-450 | whenever the counters equal the baseline, the index misses no row of a candidate |
| Witness.CountersOnlyGrow | scripts/cleanup_openclaw_heartbeat_493.py:479-492 | counters never fall |
| Witness.CommitIsFramed | scripts/cleanup_openclaw_heartbeat_493.py:599-605 | a commit of the tool changes only the file it locked, there only candidate rows, and no counter |
| WitnessRuns.CheckIsRemembered | scripts/cleanup_openclaw_heartbeat_493.py:1244-1259 | with empty logs and the counters at their baseline, a check can be made and remembered exactly if what it says is true of the stores, the frozen snapshots only before the first delete |
| WitnessRuns.HandlingAdopts | scripts/cleanup_openclaw_heartbeat_493.py:574-597 | handling a change, left alone, ends with the current counters adopted, an index that finds every candidate row and nothing remembered |
| WitnessRuns.TheLockKeepsOthersOut | scripts/cleanup_openclaw_heartbeat_493.py:599-606 | the tool can lock a file exactly if it is idle and holds no lock, and others can commit to exactly the files it does not hold |
| WitnessRuns.ReadsWhatIsThere | scripts/cleanup_openclaw_heartbeat_493.py:1870-1886 | left alone, a check sees a file exactly as it is on disk where it opens it without its log, check by check, and with its log elsewhere |
| WitnessRuns.CheckpointCleans | scripts/cleanup_openclaw_heartbeat_493.py:273-275 | a complete checkpoint can always come and brings a file up to date, and only one leaves no foreign commit in its log |
| WitnessRuns.DeletesCommit | scripts/cleanup_openclaw_heartbeat_493.py:599-605 | on stores that only the tool deleted from, each delete that is left can be locked and committed, and its rows are gone |
| WitnessRuns.ToolCanStop | scripts/cleanup_openclaw_heartbeat_493.py:597-606 | a lock that is held can be given back and a running check given up, and nothing else changes |
| Markers.NextKeepsInv | scripts/cleanup_openclaw_heartbeat_493.py:1628-1680 | every step of apply, prepare and rollback processes, down to the single file operations of a restore, keeps the invariant of markers, attempts, metadata and replacement files |
| Markers.StateByFiles | scripts/cleanup_openclaw_heartbeat_493.py:1628-1648 | the four marker states, each by the files that are there |
| Markers.ValidByFiles | scripts/cleanup_openclaw_heartbeat_493.py:2403-2450 | the artifacts of restores are accepted exactly if every attempt directory has its marker, all metadata is whole, every replacement has metadata and no store has a sidecar file |
| Markers.PrepareCanPublish | scripts/cleanup_openclaw_heartbeat_493.py:2478-2495 | a prepare process left alone can publish the tombstone exactly if there is no marker and no temporary file, and then nothing else of the run directory has changed |
| Markers.ApplyCanDelete | scripts/cleanup_openclaw_heartbeat_493.py:2286-2302 | an apply process left alone can delete exactly if there is no marker and no temporary file |
| Markers.CompletionComesAbout | scripts/cleanup_openclaw_heartbeat_493.py:2478-2536 | from every start there is a run in which an apply process deletes and is killed, a prepare process publishes the tombstone and a rollback completes |
| Markers.PublishedMarkersStay | scripts/cleanup_openclaw_heartbeat_493.py:1651-1680 | a published marker or attempt is never changed or removed |
| Markers.CompletionMeansRestored | scripts/cleanup_openclaw_heartbeat_493.py:2498-2536 | a completion marker exists only beside its tombstone and only while all four files equal the receipt's hashes |
| Markers.NoDeleteAfterTombstone | scripts/cleanup_openclaw_heartbeat_493.py:2286-2302 | no delete of an apply run commits once the tombstone is out |
| Markers.CompletionIsFinal | scripts/cleanup_openclaw_heartbeat_493.py:2498-2536 | after completion the data never changes again, whatever is started |
| Markers.StaleTmpBlocksForever | scripts/cleanup_openclaw_heartbeat_493.py:1628-1648 | a marker file left half published blocks every delete, restore and publication for good |
| Markers.DamageStopsRestores | scripts/cleanup_openclaw_heartbeat_493.py:2403-2465 | an attempt directory without its marker, or a metadata file created and not written, stops every later restore and completion, whatever is started |
| Markers.RestartCompletes | scripts/cleanup_openclaw_heartbeat_493.py:2403-2445 | with a tombstone and no completion, a rollback that is left alone can complete exactly if there is no temporary marker, no attempt directory without marker, no torn metadata and no sidecar file; replacement files left behind never matter |
| Markers.KilledRestoreCanReenter | scripts/cleanup_openclaw_heartbeat_493.py:2448-2536 | the next rollback can complete a restore killed at any point exactly if that point was not between creating and finishing an artifact (attempt directory, temporary marker, metadata file) and no sidecar file is left |
| Markers.CompletedIsConfirmed | scripts/cleanup_openclaw_heartbeat_493.py:2519-2527 | after completion a rollback that is left alone confirms all four files exactly if there is no sidecar file |
| PythonValues.ResolverKeyIsEquality | scripts/backfill_space.py:927-947 | resolver keys are equal exactly when the Python values are (numbers across types, infinities, text, bytes, null), or both are NaN |
| PythonValues.DecimalRoundTrip | scripts/backfill_space.py:972-1004 | int(str(n)) is n |
| PythonValues.DecimalShape | scripts/backfill_space.py:927-988 | a decimal text has a sign exactly if the number is negative, only digits otherwise and no superfluous zero |
| PythonValues.CodesByKind | scripts/backfill_space.py:927-988 | the tag and the text of both encodings for each kind of value; they differ only for floats that are whole and for bools |
| PythonValues.RawRoundTrip | scripts/backfill_space.py:972-1004 | a value is read back from its raw identity, sign of zero and type included, exactly if it is no bool |
| PythonValues.RawIdentityIsExact | scripts/backfill_space.py:972-1004 | raw identities of stored values are equal exactly when the values are the same, and then so are their resolver keys |
| PythonValues.EqualButNotIdentical | scripts/backfill_space.py:927-988 | equal dictionary keys can have two raw identities |
| SpaceDecision.ValueKind | scripts/backfill_space.py:144-154 | a value has a space exactly if it is a non-empty string that is not container-like, and then it is that string |
| SpaceDecision.ContainerLikeWitness | scripts/backfill_space.py:144-154 | the first character that is not blank alone decides whether a string is container-like |
| SpaceDecision.GraphSpaceOf | scripts/backfill_space.py:203-235 | a readable graph row gives its valid property space, else its valid column, and as its pack a string that is not empty |
| SpaceDecision.DecisionTable | scripts/backfill_space.py:243-302 | the circumstances of each of the fourteen classes, each as an if-and-only-if that needs no order of tests, and the space each comes with: its own, the graph's, its document's, the literal evidence, or none |
| SpaceDecision.PackExactly | scripts/backfill_space.py:187-195 | a record's pack is the string under its key, or empty where the key is missing or null, and invalid exactly for another value |
| SpaceDecision.BlankExactly | scripts/backfill_space.py:144-154 | the characters that are skipped before a bracket, one by one |
| SpaceDecision.DecidedSpaceIsValid | scripts/backfill_space.py:260-302 | skipped and applied records carry a valid space, held ones none |
| SpaceDecision.SpacesStayInTheirPack | scripts/backfill_space.py:243-302 | a space taken from the graph or from a document comes from the record's own pack, or from a missing one if that is allowed |
| SpaceDecision.WrittenIsSkipped | scripts/backfill_space.py:1289-1294 | a written record is skipped with its space by every later decision, and its pack is unchanged |
| SpaceResolver.PutThenFind | scripts/backfill_space.py:203-235 | a dictionary with Python equality finds what was put, under every equal key, and nothing else changed |
| SpaceResolver.BuildGraphMap | scripts/backfill_space.py:203-235 | the dictionary built in one pass returns for every identifier the entry of its rows: the first fact, ambiguous exactly if another differs |
| SpaceResolver.EntryByRows | scripts/backfill_space.py:203-235 | an identifier has an entry exactly if it has a row, and one that counts with a fact exactly if all its rows say that fact |
| SpaceResolver.ScanGraph | scripts/backfill_space.py:1098-1128 | the table filled row by row answers the same for every identifier |
| SpaceResolver.DecisionIgnoresGraphOrder | scripts/backfill_space.py:203-302 | a record's decision depends only on the set of graph rows, not on their order or repetition |
| SpaceResolver.Scan | scripts/backfill_space.py:339-415 | the in-memory scan gives every document and vector its decision |
| SpaceResolver.ScanTables | scripts/backfill_space.py:1098-1147 | the disk-backed scan leaves tables that answer for every stored identifier what the rows say |
| SpaceResolver.TablesDecideAlike | scripts/backfill_space.py:489-504 | so deciding through the tables gives every record the class and space of the in-memory scan |
| SpaceResolver.JudgedSpaceIsValid | scripts/backfill_space.py:260-302 | decisions on stored rows give a valid space or none |
| SpaceBackfill.TargetIsSettled | scripts/backfill_space.py:1359-1419 | a written record is skipped by any later run, under any graph and documents, with the space it was given |
| SpaceBackfill.EntrySurvives | scripts/backfill_space.py:1129-1147 | a written document shows vectors the same pack and space as before |
| SpaceBackfill.WritesChangeNoDecision | scripts/backfill_space.py:1297-1356 | writing any planned documents changes no decision on any record, paired vectors included |
| SpaceBackfill.WrittenCompose | scripts/backfill_space.py:1297-1356 | writing some plan rows now and others later is writing all of them |
| SpaceBackfill.UpdateHitsOneRow | scripts/backfill_space.py:1399-1418 | the UPDATE changes exactly the row that was read again, so its row count is one |
| SpaceBackfill.WriteItem | scripts/backfill_space.py:1359-1419 | re-read, decide, update: changes exactly the record that still carries the plan row, and says committed, changed or unserialisable accordingly |
| SpaceBackfill.WriteBatch | scripts/backfill_space.py:1359-1419 | a batch writes exactly its plan rows, and the records without valid space fall by the number committed |
| SpaceBackfill.MakePlan | scripts/backfill_space.py:1129-1235 | the plan holds the planned records in scan order |
| SpaceBackfill.WriteStore | scripts/backfill_space.py:1297-1356 | batches of any size, stopped or killed after any number of steps, leave exactly a prefix of the plan written; it is killed exactly if it has not two steps for each batch it may write, and how many batches were written and are left is exact |
| SpaceBackfill.Run | scripts/backfill_space.py:1847-1919 | one run leaves every record untouched or finished; it stops exactly if --max-batches is less than the batches of both plans, and is not killed if it has two steps for each; finished means all records, and then a document without a row in the graph has the space evidence, one with rows the space they all say if the packs fit, and a vector the graph's, its document's or evidence by the same table; whoever matches no line is unchanged |
| SpaceBackfill.RunRepeatedly | scripts/backfill_space.py:1297-1419 | any number of runs of any sizes, stops and kills: a last run without a limit that has two steps for each record finishes, and whenever one finishes, the stores are those of a single uninterrupted run, and every record has ended as that table says |
| SpaceBackfill.TargetChangesOnlyTheSpace | scripts/backfill_space.py:1289-1294 | a finished record differs only in its space key, never had a valid one before, and is unchanged exactly if it was not planned or cannot be written |
| SpaceBackfill.DocumentSettles | scripts/backfill_space.py:260-302 | the space a document that lacks one ends with, in terms of the stored graph rows |
| SpaceBackfill.VectorSettles | scripts/backfill_space.py:260-302 | the same of a vector, in terms of the stored graph rows and documents |
| SpaceReconcile.Record | scripts/backfill_space.py:1090-1259 | the state holds row count, count without valid space, and every held occurrence with its class |
| SpaceReconcile.CheckStore | scripts/backfill_space.py:1709-1785 | ok exactly if totals are kept, the count is before minus committed, held occurrences keep their class, and committed rows hold their space |
| SpaceReconcile.CheckCommitted | scripts/backfill_space.py:1763-1782 | the early-stopping look-up answers for all committed rows |
| SpaceReconcile.LookUpExactly | scripts/backfill_space.py:1763-1782 | where identifiers are unique, the look-up of a committed row passes exactly if a row of that identifier stores the space |
| SpaceReconcile.OkMeans | scripts/backfill_space.py:1709-1785 | after any foreign writes, ok implies that the counts are right, that every committed row is there with its space, and that no key's sequence of held classes changed |
| SpaceReconcile.RunAndReconcile | scripts/backfill_space.py:1847-1919 | without a foreign writer the check says ok after exactly those runs that were not killed, wherever they stopped |
| FileLocks.NextKeepsInv | opencrab/locking.py:665-726 | every step of every thread, including failures and killed processes, keeps the lock invariant |
| FileLocks.ExclusiveMeansAlone | opencrab/locking.py:665-726 | two threads' blocks overlap with one of them exclusive only if it was requested inside a shared block, across processes and not on Windows |
| FileLocks.ProcessLockSerialises | opencrab/locking.py:665-726 | two threads of one process are never both inside, not even shared |
| FileLocks.UpgradeLetsOthersIn | opencrab/locking.py:665-726 | while such an upgrade is open, any idle process can open a shared block beside it |
| FileLocks.UpgradeIsReachable | opencrab/locking.py:665-726 | such a state is reached from the start |
| FileLocks.TableCountsScopes | opencrab/locking.py:688-705 | the depth table has an entry exactly while a block is open, its depth is the number of open blocks, and the in-process lock is held once per call that passed it |
| FileLocks.NestedExitKeepsTheEntry | opencrab/locking.py:696-702 | the branch of a nested exit that deletes the entry is never taken |
| FileLocks.NothingIsLeftBehind | opencrab/locking.py:705-726 | a thread that left all its calls holds nothing; every file it opened is closed and was unlocked exactly if it was locked, and once |
| FileLocks.ExitNeverWaits | opencrab/locking.py:705-726 | every step of an exit is enabled whatever the others do |
| FileLocks.CallPassesExactly | opencrab/locking.py:685-720 | an idle thread that nobody disturbs gets its block exactly if no thread of its process holds the in-process lock, no file is locked exclusively and, for an exclusive block or on Windows, none is locked at all |
| FileLocks.BlockIsLeft | opencrab/locking.py:705-726 | left in four steps, an outermost block leaves its file closed and unlocked once, and nothing else changed, also if the unlock fails |
| FileLocks.NestedBlockIsLeft | opencrab/locking.py:692-703 | a nested block, entered and left, restores depth, files and locks exactly |
| FileLocks.FailuresLeaveNothing | opencrab/locking.py:685-726 | a timed-out wait for the in-process lock leaves nothing, a file that cannot be opened no file, and one that cannot be locked a file that was closed and never unlocked |
| FileLocks.NestedCallNeverFails | opencrab/locking.py:692-697 | a nested call that has the process lock has one step, into its block: it opens, locks and waits for nothing |
| FileLocks.KillFrees | opencrab/locking.py:666-726 | a killed process has no calls, no locks and no open file left, and the others do not notice |
| LockDeadline.Acquire | opencrab/locking.py:600-653 | the polling loop ends however often the lock is refused and gets it exactly if it slept once for each refusal; each sleep lasts a tenth of a second or exactly to its own deadline, never past it, and it gives up only after it |
| LockDeadline.FileLockWaits | opencrab/locking.py:685-715 | both waits count from one deadline; it gets both locks exactly if the process lock is free and every refusal of the file lock was slept through; its sleeps are those of the specification, and none ends later than the deadline plus the drift between two readings |
| LockDeadline.SleepCanOverrun | opencrab/locking.py:600-715 | over all executions of the two waits, a sleep can end after the shared deadline exactly if the timeout is positive |
| LockDeadline.DriftDecides | opencrab/locking.py:685-715 | given the calls up to the first reading of the second wait, a later sleep can end after the deadline exactly if time was left and the clock moved between the two readings |
| ChromaRegistry.NextKeepsInv | opencrab/locking.py:351-449 | with the guard, every step keeps the registry invariant |
| ChromaRegistry.ClientsAreCovered | opencrab/locking.py:378-449 | an open client means a registered handle that holds the OS lock |
| ChromaRegistry.OneProcessAtATime | opencrab/locking.py:378-411 | two processes never have the store open together |
| ChromaRegistry.OnlyTheFailingOwnerRetracts | opencrab/locking.py:414-449 | a registration ends only with its process or by the failing store that made it, and then no client of the process is left |
| ChromaRegistry.FallbacksAreNotNeeded | opencrab/locking.py:402-449 | nobody registers between look-up and registration, and the handle released is the registered one |
| ChromaRegistry.OpensExactly | opencrab/locking.py:351-411 | a new store, left alone, opens exactly if its process is registered or nobody holds the lock; it then uses the registration or makes one, and leaves the guard |
| ChromaRegistry.FailureLeaves | opencrab/locking.py:414-449 | a store that fails gives up a file it has not registered, takes back registration and lock as their owner, and changes neither otherwise |
| ChromaRegistry.CloseAndKill | opencrab/locking.py:414-449 | closing keeps registration and lock; a kill drops exactly those of its process |
| ChromaRegistry.FallbacksYield | opencrab/locking.py:402-449 | without the guard, a second registration gives its own file up, and nobody retracts another one's |
| ChromaRegistry.GuardIsNeeded | opencrab/locking.py:351-375 | without the guard an interleaving ends with a live client, no registration and no lock |
| PackAttribution.PreviewIsAssignment | scripts/migrate_pack_ownership.py:1490-1590 | once every graph row is dealt with, the preview gives each document row the target that step 4 gives it |
| PackAttribution.PreviewReadsTheTwins | scripts/migrate_pack_ownership.py:937-1053 | for any graph, the preview is the assignment for every document exactly if prediction and reading see the same twin at every key |
| PackAttribution.PreviewNeedsTheBackfill | scripts/migrate_pack_ownership.py:937-1053 | where node ids are unique, as the primary key demands, that is exactly if the graph is backfilled |
| PackAttribution.PredictionMatchesReading | scripts/migrate_pack_ownership.py:1024-1033 | for one graph row, prediction equals reading exactly if it carries a pack or is no object |
| PackAttribution.UnattributedGraphMisleads | scripts/migrate_pack_ownership.py:937-1053 | before the graph backfill, preview and assignment can name two different packs |
| PackAttribution.CollectTwins | scripts/migrate_pack_ownership.py:937-1053 | the two dictionaries hold for every wanted id exactly the packs its rows carry, the fallback only those of blank spaces |
| PackAttribution.NodeTargets | scripts/migrate_pack_ownership.py:753-792 | the dictionaries give every row the target of the specification, which is the documented table (`PackAttribution.TargetTable`) |
| PackAttribution.TargetTable | scripts/migrate_pack_ownership.py:753-792 | the target of every document in terms of the stored graph rows: exact twins that disagree exclude it, one gives its pack, else the same of twins without a space, else the pack its properties name, else the one its id names, else the literal default; a value that is no object is excluded |
| PackAttribution.SourceTable | scripts/migrate_pack_ownership.py:753-792 | the same table without twins for sources |
| PackAttribution.NobodyKnowsIt | scripts/migrate_pack_ownership.py:781-787 | a row without a pack that no graph row knows and nothing names ends in the pack default |
| PackAttribution.BackfilledTable | opencrab/ontology/pack_provenance.py:240-366 | a backfilled graph row is unchanged if it has a pack or is no object, and else gets the pack its properties name, its id names, or default |
| PackAttribution.ExpectedCount | scripts/migrate_pack_ownership.py:800-833 | without a concurrent writer the count before each chunk is the chunk's size |
| PackAttribution.CleanByRows | scripts/migrate_pack_ownership.py:1918-2313 | a run is clean exactly if everything was in scope, every graph row is an object, no document or source has a pack that is no string, and none is excluded |
| PackAttribution.BackfillTable | scripts/migrate_pack_ownership.py:662-842 | group by group and chunk by chunk, every row gets its target and no other row is touched; killed between two chunks, every row is as it was or has its target |
| PackAttribution.Stores.Register | scripts/migrate_pack_ownership.py:271-383 | refuses exactly on a foreign-owned pack that was not accepted; otherwise registers exactly the missing packs and changes no owner, or some of them if killed |
| PackAttribution.Stores.Migrate | scripts/migrate_pack_ownership.py:1918-2313 | the pipeline, killed between any two commits or not: it refuses exactly if the default pack is foreign, or a needed pack is and that was not accepted, and registers exactly the needed packs; every row it changed has its target and carries a pack that is registered at that moment, and sources follow nodes; a run that went through has given every document and source what the table says and has registered "default" and every pack of the graph; exit 0 exactly if all gating stages are clean, and then every row carries a registered pack exactly if its properties were an object |
| PackAttribution.Stores.MigrateRepeatedly | scripts/migrate_pack_ownership.py:1918-2313 | any number of killed runs: a run that nobody kills goes through if foreign packs are accepted and the default pack is not foreign; once a run went through, the documents are those of one uninterrupted run and as the table says, and changed rows always carry a registered pack |
| PackAttribution.ExitZeroCanMissARow | scripts/migrate_pack_ownership.py:757-842 | a row that is no object but has a twin is counted as written, changes nothing, and leaves the run clean |
| PackAttribution.RunCanMissARow | scripts/migrate_pack_ownership.py:1918-2313 | the same as a run of the pipeline, which exits 0 |
| NodeReconcile.StatesPartition | scripts/reconcile_doc_graph_nodes.py:239-283 | every id of either store is graph-only, doc-only, conflicting or matched, and only one of them |
| NodeReconcile.GraphUsableByField | scripts/reconcile_doc_graph_nodes.py:286-317 | a graph row can be written back exactly if it has a space and every reserved property says what the columns say |
| NodeReconcile.DocUsableByField | scripts/reconcile_doc_graph_nodes.py:320-360 | a document can be promoted exactly if type, id and space are not empty and no property contradicts its key or is reserved |
| NodeReconcile.GroupDocs | scripts/reconcile_doc_graph_nodes.py:265-267 | the dictionary groups exactly the documents of each id |
| NodeReconcile.Diagnose | scripts/reconcile_doc_graph_nodes.py:239-373 | the report lists every id once where its state belongs, with the right verdict, and counts exactly the ids with two documents or more |
| NodeReconcile.BackfillOne | scripts/reconcile_doc_graph_nodes.py:411-448 | under any concurrent writers its one write adds at most one document under a free key and changes nothing else; the document carries the type, the string pack and every other property of the graph row it read, and none of the reserved names; rejected exactly if that row is unusable or has changed its space or type, skipped exactly if the key was taken |
| NodeReconcile.PromoteOne | scripts/reconcile_doc_graph_nodes.py:451-513 | likewise its one write adds at most one graph row for a free id; healed means that the row there carries the type and every property of the document it read, under the id and space of its key; rejected exactly without one usable document, in conflict exactly if the row there carries something else |
| NodeReconcile.Heal | scripts/reconcile_doc_graph_nodes.py:382-408 | beside any writers, each write only adds a row of the id it is for and changes none; left alone, healing heals every healable finding with a row that carries what the other store knew, leaves all other ids as they were and nothing healable behind |
| TableRebuild.SelectPage | scripts/migrate_add_binary_quantization.py:98-106 | a page holds the least ids above the bound, and the next bound leaves exactly the rest |
| TableRebuild.CopyRows | scripts/migrate_add_binary_quantization.py:81-118 | the keyset loop ends, copies each row above the empty id exactly once, and a kill after k commits leaves exactly k pages |
| TableRebuild.PagesNeeded | scripts/migrate_add_binary_quantization.py:97-106 | a positive batch takes the least number of pages that holds all rows, a negative one a single page, and a batch of 0 none |
| TableRebuild.Stage | scripts/migrate_add_binary_quantization.py:204-213 | stage 1 leaves the original untouched and goes on exactly if every row was read |
| TableRebuild.Swap | scripts/migrate_add_binary_quantization.py:215-228 | stage 2 passes exactly if it lives long enough, and every state it can be killed in still holds all rows |
| TableRebuild.NothingIsLost | scripts/migrate_add_binary_quantization.py:204-228 | in every state that killed runs can leave, the original or the temporary table holds all rows unchanged |
| TableRebuild.Migrate | scripts/migrate_add_binary_quantization.py:121-249 | raises exactly without the original table; passes from the original table exactly if it lives long enough, no id is empty and the batch is not 0 unless there are no rows; then the table holds every row unchanged with the sign bits of its vector; a pass means a complete table exactly if no copy back was interrupted before |
| TableRebuild.InterruptedIsIncomplete | scripts/migrate_add_binary_quantization.py:161-165 | the rebuilt table is complete exactly if no larger temporary table stands beside it |
| TableRebuild.MigrateRepeatedly | scripts/migrate_add_binary_quantization.py:121-249 | any number of killed runs lose nothing, and a rebuild that passed is complete, bits included |
| TableRebuild.PassWithHalfTheRows | scripts/migrate_add_binary_quantization.py:161-165 | two rows, a kill after the first page of the copy back: the rerun passes with one row |
| Bootstrap.CreateIsWhole | opencrab/auth.py:258-318 | the transaction adds the user with its default pack and the requested token, and keeps at most one local user |
| Bootstrap.NextKeepsInv | opencrab/auth.py:670-871 | every step of every caller and of user administration keeps the invariant |
| Bootstrap.AnswerIsTheEnabledUser | opencrab/auth.py:644-871 | through whichever probe a stdio call is answered: with a user exactly if that is the local user of the database it reads and enabled, with nobody exactly if there is none or it is disabled |
| Bootstrap.ReturnIsTheLocalUser | opencrab/auth.py:670-712 | the idempotent creation returns the local user: one it has just inserted, enabled, where none was, or one that was there |
| Bootstrap.InsertOutcome | opencrab/auth.py:690-712 | the transaction is lost to a local user that is there, fails on a taken id or token, and else inserts |
| Bootstrap.StdioRuns | opencrab/auth.py:804-871 | from every database a stdio call can start and is answered: with the enabled local user if there is a local user, else with a new one, which it created with its pack and no token |
| Bootstrap.TheRace | opencrab/auth.py:670-712 | from every database without a local user two init calls can race; one inserts, the other loses and returns the same user |
| Bootstrap.CallsCanEnd | opencrab/auth.py:670-871 | a call can fail or be killed at any point; the database stays and the lock is not kept |
| Bootstrap.AdministrationIsFree | opencrab/auth.py:258-318 | a user can be created exactly if id and token are free and it would not be a second local one |
| Bootstrap.AllCallsAgree | opencrab/auth.py:670-712 | all calls that return a user, through either path and at any time, return the same one, the local user |
| Bootstrap.OneCreator | opencrab/auth.py:670-712 | at most one call ever says it created the user, and it is the one whose transaction did |
| Bootstrap.ExactlyOneSaysSo | opencrab/auth.py:670-712 | where no local user existed and some call returned one, exactly one transaction made it, and that call says so unless it was killed or failed afterwards |
| Bootstrap.LoserFindsTheWinner | opencrab/auth.py:695-710 | a call that lost the race always finds the winner |
| Bootstrap.AllOrNothing | opencrab/auth.py:258-318 | in every step user row, default pack and token appear together or not at all |
| Bootstrap.NoRaceUnderTheLock | opencrab/auth.py:804-871 | between callers that use the lock nobody ever loses the race |
| SqlMigration.BooleanRoundTrip | scripts/_migration_tables.py:289-317 | exactly null, 0, 1 and the booleans convert, and what SQLite stores comes back unchanged |
| SqlMigration.NoColumnIsDropped | scripts/_migration_tables.py:214-243 | columns resolve exactly if both sides have every required one and the target has every source column; then all are copied |
| SqlMigration.ScannedByColumn | scripts/migrate_sqlite_to_pg.py:562-583 | the rows of a table pass the scan exactly if no boolean column holds something else than null, 0, 1 or a boolean and no timestamp column something that is none |
| SqlMigration.ConvertedByColumn | scripts/migrate_sqlite_to_pg.py:604-615 | the row that is bound has exactly the copied columns: 0 becomes false and 1 true in a boolean column, every other value and column is unchanged |
| SqlMigration.UpsertAllHolds | scripts/migrate_sqlite_to_pg.py:600-631 | row-by-row upserts give every source key its converted row, keep the target's own columns, and change nothing elsewhere |
| SqlMigration.RerunChangesNothing | scripts/migrate_sqlite_to_pg.py:600-631 | upserting the same source again changes nothing |
| SqlMigration.CopyTable | scripts/migrate_sqlite_to_pg.py:585-632 | batch by batch the table becomes the copy of a prefix of the source, whose length the number of transactions decides; a history that is not empty is left alone |
| SqlMigration.ScanAll | scripts/migrate_sqlite_to_pg.py:562-583 | the scan passes exactly if every boolean and timestamp of every table converts |
| SqlMigration.Migrate | scripts/migrate_sqlite_to_pg.py:477-642 | refuses exactly on a bad value and then leaves every table untouched; otherwise each table is copied as far as the process lives; a run that went through has every source row under its key, column by column, the target's own columns and other rows as before, and a history complete exactly if it was empty or whole before |
| SqlMigration.HistoryByCount | scripts/migrate_sqlite_to_pg.py:589-600 | a history that only this tool has filled is whole exactly if it has as many entries as the source, and a run completes it exactly if it has none or all |
| SqlMigration.MigrateRepeatedly | scripts/migrate_sqlite_to_pg.py:477-642 | any number of killed runs: each source key is untouched or finished, a history is unchanged or a prefix without duplicates; once a run went through every keyed table is and stays complete, and an initially empty history exactly if that run found none or all of its entries |
| SqlMigration.HistoryStaysHalf | scripts/migrate_sqlite_to_pg.py:477-600 | two runs of the migration, the first killed after one of two entries: the second goes through and leaves one |

## Left out

- SQLite, PostgreSQL and MongoDB themselves: locking between connections, write-ahead logs beyond whether they are empty and hold foreign commits, `fsync`, full-text and vector index internals, and the checks for other holders of a file.
- The contents of hashes, JSON text, UTF-8 and hexadecimal floats, taken as injective encodings.
- Witness.NextKeepsInv: section hashes are modelled by the rows behind them, because their sum can collide (`SectionHashing.EveryDigestCollides`).
- ApplyRun.Apply: foreign writers between the steps of a run are in `Witness`, not in the condition under which a run refuses, which others could always change; the rollback markers are in `Markers`, and approval, schema, store identity and holders of a file are left out.
- Transactions.DataSet.DeleteGraph: reads the other files with their logs; what a run left alone sees without them makes no difference (`ApplyRun.OwnCommitsDoNotMislead`), and among others `Witness` distinguishes the two.
- Witness.RememberedVerdictsAreTrue: a checkpoint is one step; reads of a file whose checkpoint is under way are not modelled.
- Markers.KilledRestoreCanReenter: the next rollback is left alone and nothing outside refuses it (holders of a file, a damaged backup); files of other tools named like an artifact, and losses of written data in a power failure, are not modelled.
- Markers.CompletionMeansRestored: speaks of the processes of the tool; nobody else writes the four stores, and the same holds of `Markers.CompletionIsFinal`.
- The candidate and evidence files with their byte offsets (`_CandidateStore`, `_EvidenceStore`), approval files, the dry run and the progress file of the cleanup: reading back what was written.
- The dry run, counters, report files and scratch directories of the backfill; `_write_batches`, an earlier form of the same loop over lists.
- FileLocks.NextKeepsInv: an exception that arrives between taking a lock and recording it is not modelled, nor is a generator closed out of order; the source bounds that window and does not close it.
- LockDeadline.Acquire: the unbounded wait for an absent timeout, which `file_lock` no longer passes on.
- FileLocks.ExclusiveMeansAlone: speaks of `file_lock` blocks; handles that `acquire_file_lock` takes on the same path outside any block are not among its files.
- Holder records, busy messages, symbolic-link defences and path resolution of the locks.
- ChromaRegistry.ClientsAreCovered: other users of the lock file in the same process are left out; POSIX needs no registry; a client whose `close` fails counts as closed, as in the source.
- PackAttribution.Stores.Migrate: `resolve_row_pack_id` and the graph backfill enter by their contracts (a killed backfill has dealt with some of the rows), malformed JSON text (an error of the database), PostgreSQL's treatment of properties that are no object (it makes an array of them) and the MongoDB path are left out, and so are dry runs and the vector stage, which promises nothing.
- NodeReconcile.Diagnose: reads of one moment; what concurrent writers may do is covered where healing writes. `prepare_node` is modelled by its checks, without the digest's number limits.
- NodeReconcile.PromoteOne: a stored graph row that cannot be read ends the tool, as in the source, and is not healed.
- TableRebuild.Migrate: the dimension and argument checks, and the spot check of bits, which are derived on every copy.
- Bootstrap.NextKeepsInv: starts from a database in which every user has a default pack, so older ones without are not covered; a store that cannot be opened, for which a probe answers nobody, the environment checks before the first probe, table creation and the messages.
- SqlMigration.Migrate: `--limit`, the credential guards and the graph, document and vector stores; unique indexes other than the natural key can stop a batch, which is a kill before its commit.
- Pack building, import, export, benchmarks, the MCP server, the web interface and the network code.
