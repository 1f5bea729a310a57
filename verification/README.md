# Verification of the AnimeDB catalog model

AnimeDB keeps a logical hierarchy of collections, titles and videos over a physical library. Most
of its code decides who may change that hierarchy and what has to survive each change. This
project models those decisions in Dafny and proves what they promise.

| part | modules | what is modelled |
|---|---|---|
| Writer admission | `LeaseProtocol`, `LeaseInvariant`, `LeaseSteps`, `LeaseRuns`, `LeaseConnections`, `LeaseTerms`, `LeaseObjects` | shared and exclusive advisory locks on open file descriptions, lease and borrow objects, forks, and the engine's admission table, as a step system over any number of processes and threads; the lease, borrow and engine objects are classes proved against its steps |
| Hierarchy rebuild | `HierarchyRebuild`, `HierarchyRebuildPlanning`, `HierarchyRebuildOutcomes`, `HierarchyRebuildBuilders`, `HierarchyRebuildApply` | the planner as functions of the library and the evidence, its loops as methods, and the optimistic apply as a session that edits collections, titles and videos in place |
| Canonical filenames | `Numerals`, `CanonicalFilename`, `CanonicalInverse`, `CanonicalRoundTrip`, `CanonicalTexts`, `RecapPosition` | the formatter, the grammar as a deterministic matcher, and the parser |
| Manual split | `ManualSplit`, `ManualSplitSettles`, `ManualSplitAuthority`, `ManualSplitConfirm`, `ManualSplitOutcomes` | rule evaluation, stored two-sided selector links, applying decisions, what evaluating again finds, and the confirming workflow with its guard |
| Subtitle compatibility | `SubtitleCompatibility`, `SubtitleTable`, `SubtitleConsolidation`, `SubtitleStore`, `SubtitleOutcomes` | scanner and human steps on the relation, the same on the row list, and the merge of legacy duplicate assets |
| Grouping | `GroupingSearch`, `GroupingComponents`, `GroupingGraph`, `SelectorCoherence` | the bucketed pair search, the component search, and moves and replays that must not tear a video's selectors apart |
| Split seasons | `SplitSeason` | structural issues, range proposals and their confirmation |
| Presentation | `VideoRows`, `TitlePresentation`, `CatalogPresentation`, `PresentationOutcomes`, `CollectionPresentation` | folding of duplicate copies, episode and variant lanes, and nesting of supplementary titles |
| Write guard | `WriteGuard` | nested savepoints around hierarchy writes, with and without the begin listener |
| Path inference | `RomanNumerals`, `PathInference`, `PathOutcomes` | roman numerals and the directory scan |

Code that changes objects in place is a class or a method with loops, and each is proved against a
function of the old state; the lemmas are about those functions. What the main
operations do is told a second time in terms of the stored fields and characters, in
`LeaseConnections`, `LeaseTerms`, `CanonicalTexts` and the modules named `...Outcomes`. `Basics`
holds shared vocabulary.

What the proofs brought to light about the code:

- Building a rebuild plan can raise the inconsistent-assignment error. It does so exactly when some
  video is *displaced*: the plan puts it and its stored title into different collections, for
  instance because the title moves to where its locator is inferred while a split rule keeps the
  video in the title's stored collection (`HierarchyRebuildPlanning.AgreesIff`, with a concrete
  library in `StrandedHasNoPlan`). The other defensive raises of planning and both
  "no longer empty" raises of the apply cannot be reached.
- A confirmed manual split settles for every video (`ManualSplitConfirm.CollectionSplit.Confirm`).
  This rests on the guard that refuses definitions leaving out a title with a stored selector:
  without it a unique preview could be stored as a conflict (`ManualSplitConfirm.GuardIsNeeded`).
- A limit of `physical_video_rows`, not a fault: it recognises a folded copy by its id, so a
  transient copy that was never saved would be shown twice (`VideoRows.TransientCopyShownTwice`).
  The catalog passes stored videos only, for which every video is shown once.
- Confirming a proposed season split is refused when the season number is not positive or another
  season of the collection is ambiguous (`SplitSeason.Collection.Confirm`).
- Without the begin listener a guarded write is published when the outermost savepoint is released
  (`WriteGuard.ImplicitDriverPublishes`).
- The write guard restores its entry state for every exception of class `Exception`; an
  interruption leaves the savepoint open until the caller abandons the transaction.

## Model

| member | source | states |
|---|---|---|
| `LeaseRuns.StatementsAreSafe` | app/database.py:36-97 | In every reachable interleaving of acquire, flock, close, scope, fork, kill, begin, execute and checkin: a statement that runs is on a query-only connection, or holds an open shared lock while no maintenance lock exists in any process, or is an open borrow, on its owner's own thread, of the only maintenance lock there is, beside which no shared lock exists |
| `LeaseRuns.MaintenanceIsAlone` | app/maintenance.py:256-284 | An open exclusive lease whose lock was granted is the only lease of any process whose lock was granted |
| `LeaseRuns.AdmittedWritesSafely` | app/database.py:78-97 | In any state that keeps the invariant, an admitted statement that may write has a lease and writes safely in the sense above |
| `LeaseRuns.StepKeepsInv` | app/maintenance.py:40-131 | Every step of every process keeps the protocol invariant: descriptors belong to open leases, borrow counts equal open borrows, admissions own open leases nobody else holds, locks are compatible |
| `LeaseRuns.RunKeepsInv` | app/maintenance.py:40-131 | Every run keeps the invariant |
| `LeaseSteps.ActKept` | app/maintenance.py:66-131 | Every critical section of one process keeps that process's part of the invariant and leaves every other process its own descriptors and locks |
| `LeaseSteps.AfterForkKept` | app/maintenance.py:48-59 | The fork handler of the child closes exactly the inherited descriptors and re-establishes the invariant for the child |
| `LeaseRuns.ForkKeepsInv` | app/maintenance.py:40-63 | A fork at any moment outside an acquisition of the forking thread keeps the invariant for parent, child and bystanders |
| `LeaseRuns.OthersCannotRelease` | app/maintenance.py:48-59 | No step of another process, no fork and no death elsewhere closes this process's descriptor or changes its lock |
| `LeaseRuns.ChildNeverWrites` | app/maintenance.py:205-207 | A forked child that never reconstructs its gate admits no statement, over any run of all processes |
| `LeaseRuns.InheritedLeaseCannotBeClosed` | app/maintenance.py:93-95 | Closing an inherited lease changes nothing |
| `LeaseRuns.LeaseAccounting` | app/maintenance.py:87-131 | In the owning process: the borrow count is the number of open borrows, the descriptor is held exactly while the lease is not closed, a closed lease has no open borrow, and after a refused close the lease is closed exactly when its last borrow has ended |
| `LeaseRuns.ClosedOnce` | app/maintenance.py:87-102 | Over any run a lease is closed at most once, stays closed, and is closed at the end exactly if it was before or one step of the run closed it |
| `LeaseRuns.RefusedCloseDrains` | app/maintenance.py:93-131 | After a refused close no new borrow is ever admitted over any run: the open borrows only shrink, and the lease is closed exactly when none is left |
| `LeaseRuns.NoStatementAfterRefusedClose` | app/database.py:36-50 | Once an owner's close was refused, no statement is admitted under a borrow of it any more, after any further run |
| `LeaseRuns.TransactionKeepsLease` | app/database.py:55-112 | From a begin until the connection's checkin, over any run of all processes, the admission keeps the same open lease, no other admission and no `with` block holds it |
| `LeaseRuns.CheckinEndsLease` | app/database.py:99-112 | Checking in removes the admission and closes its shared lease and descriptor |
| `LeaseRuns.CheckinEndsBorrow` | app/database.py:99-112 | Checking in a borrowed transaction removes the admission, closes the borrow, lowers the owner's count, and closes the owner with its descriptor exactly if its close had been refused and this was the last borrow |
| `LeaseRuns.TransactionBlocksMaintenance` | app/maintenance.py:256-284 | While a transaction holds its shared lease every exclusive request of any process is refused |
| `LeaseRuns.BusyHasReason` | app/maintenance.py:269-272 | A refusal is never spurious: another lease that some process has open holds a lock |
| `LeaseRuns.BegunIsAdmitted` | app/database.py:55-97 | A begin that completes at once leaves a transaction whose statements are admitted |
| `LeaseRuns.GrantedBeginIsAdmitted` | app/database.py:70-97 | A begin whose lock is granted leaves a transaction whose statements are admitted |
| `LeaseConnections.ReadonlyBegin` | app/database.py:59-76 | A completed read-only begin leaves the connection query-only and in a transaction, whether or not it still holds a lease, and adds no lease, borrow, request or lock |
| `LeaseConnections.ReadonlyTransaction` | app/database.py:75-92 | After a completed read-only begin every statement of the connection, of any thread and after any run of all processes, was asked for as read-only and runs on a query-only connection, until the next begin or checkin |
| `LeaseConnections.WritingBegin` | app/database.py:68-76 | A completed begin for writing leaves the connection not query-only, in a transaction and holding an open granted shared lease, or an open borrow from an exclusive one, or leaves its thread waiting for the lock of a new shared lease |
| `LeaseConnections.GrantedBeginWrites` | app/database.py:70-76 | When that lock is granted the connection writes with exactly that lease |
| `LeaseConnections.StatementNeeds` | app/database.py:78-92 | A statement runs only in the gate's own process, in a transaction, on the driver connection that was admitted, and under a read-only admission only as a read-only statement on a query-only connection |
| `LeaseConnections.ReplacedConnectionIsStopped` | app/database.py:64-67 | Once the pool has replaced an admitted driver connection, no transaction begins on it and no statement runs, over any run, until its checkin |
| `LeaseConnections.NothingOutsideTransaction` | app/database.py:84-88 | Once a transaction has ended no statement runs on its connection, over any run, before the next begin |
| `LeaseConnections.EndedTransactionStops` | app/database.py:84-88 | Ending a transaction is what stops its statements: from there on none runs on the connection, over any run, before the next begin |
| `LeaseConnections.StartsAfresh` | app/database.py:52-67 | A new connection has no lease, admission or transaction; a reconstructed gate is a new one of the process itself and starts without connections and admissions |
| `LeaseConnections.CheckinResets` | app/database.py:99-112 | A completed checkin forgets the admission and its lease, leaves the connection out of a transaction and not query-only, and touches no other connection |
| `LeaseTerms.GrantedIff` | app/maintenance.py:269-272 | A request is granted exactly when no other description has an exclusive lock and, for an exclusive request, none has any lock; otherwise it is refused as busy |
| `LeaseTerms.RefusedLeavesNothing` | app/maintenance.py:275-283 | A refused request is closed again and gives its descriptor up, and no other entry of the lock table changes |
| `LeaseTerms.CloseOutcome` | app/maintenance.py:93-102 | Closing an own open lease closes it and its descriptor when no borrow is open; otherwise it is refused, and the lease stays open and is marked as ending |
| `LeaseTerms.ScopeOutcome` | app/maintenance.py:104-113 | A write scope is entered exactly for a held, exclusive, open lease that is not ending and was opened by this thread of this process; it is then innermost, and leaving restores the scopes there were |
| `LeaseTerms.OwnerBegins` | app/maintenance.py:258-264 | Inside its own scope the maintenance owner begins at once, by one new borrow and no lock, and its statement runs |
| `LeaseTerms.ForeignScopeLendsNothing` | app/maintenance.py:259-263 | A scope whose lease is closed, ending, inherited or another thread's stops both a begin and a writer request, and nothing changes |
| `LeaseTerms.CopiedScopeLendsNothing` | app/maintenance.py:258-263 | A context copied to another thread brings the owner's scope along, where it lends nothing: the begin there is stopped |
| `LeaseTerms.WriterRequest` | app/maintenance.py:256-267 | A writer request outside any scope opens exactly one shared lease and waits for its lock; one that is granted at once in the owner's scope is one new borrow that is held, without any lock |
| `LeaseTerms.GrantedIsHeld` | app/maintenance.py:267-288 | A granted `with` request holds its lease, and its description has the lock asked for |
| `LeaseTerms.NewLeaseIsOpened` | app/maintenance.py:265-270 | Outside any scope a begin for writing opens exactly one shared lease of its thread and waits for its lock; a maintenance request opens one exclusive lease, in a scope or not |
| `LeaseTerms.ForkedChildOwnsNothing` | app/maintenance.py:48-59 | After its fork handler a child has every inherited lease closed, holds no descriptor in the lock table and is in no scope |
| `LeaseRuns.StepAges` | app/maintenance.py:87-131 | Lease and borrow objects never disappear, reopen or take back a refused close, whatever step is taken |
| `LeaseRuns.NothingOpenNothingLocked` | app/maintenance.py:87-102 | When every lease of every process is closed the lock table is empty |
| `LeaseRuns.DeathUnblocks` | app/maintenance.py:265-274 | When only a process that dies held the locks in the way, a waiting request of another process is granted |
| `LeaseObjects.LeaseObject.constructor` | app/maintenance.py:66-74 | A new lease object has one new, unlocked file description held by its process |
| `LeaseObjects.LeaseObject.Close` | app/maintenance.py:93-102 | Closing updates the lease fields and the descriptor table as the protocol step does, with the same outcome |
| `LeaseObjects.LeaseObject.TryLock` | app/maintenance.py:269-270 | Granted exactly when the lock table allows it; otherwise nothing changes |
| `LeaseObjects.BorrowObject.constructor` | app/maintenance.py:116-121 | A borrow of a usable owner raises its count by one |
| `LeaseObjects.BorrowObject.Close` | app/maintenance.py:123-131 | Closing a borrow lowers the owner's count once and finishes a deferred close with the last borrow |
| `LeaseObjects.Engine.Begin` | app/database.py:55-76 | The begin listener on the objects does exactly what the protocol step does to memory and lock table |
| `LeaseObjects.Engine.Execute` | app/database.py:78-97 | The statement listener admits exactly the statements the protocol admits |
| `LeaseObjects.Engine.Checkin` | app/database.py:99-112 | The checkin listener does exactly what the protocol step does |
| `LeaseObjects.Engine.AcquireWriter` | app/maintenance.py:256-284 | Acquisition borrows from the current owner or opens and locks a new shared lease, as the protocol steps do in sequence |
| `LeaseObjects.UninterruptedOpen` | app/maintenance.py:265-284 | Opening and locking without interruption is the two protocol steps one after the other |
| `HierarchyRebuildPlanning.RoutingIsNeverAmbiguous` | app/hierarchy_rebuild.py:898-906 | Every video gets an intent: the raise for an ambiguous locator cannot be reached |
| `HierarchyRebuildPlanning.PlannedIsUnclaimed` | app/hierarchy_rebuild.py:877-906 | A title planned for creation has a locator no stored title holds and no other inferred identity shares |
| `HierarchyRebuildPlanning.PlannedLocatorsDiffer` | app/hierarchy_rebuild.py:898-906 | Two titles planned for creation never share a locator |
| `HierarchyRebuildPlanning.RequiredTitlesAreSpecified` | app/hierarchy_rebuild.py:1043-1074 | Every title an intent refers to gets a specification: neither "lacks inference evidence" nor "missing title owner" can be raised |
| `HierarchyRebuildPlanning.PlacesAreKept` | app/hierarchy_rebuild.py:1077-1108 | Every collection a video or a kept title goes to is a collection of the plan |
| `HierarchyRebuildPlanning.RemovedTitleIff` | app/hierarchy_rebuild.py:1043-1074 | A title is marked for removal exactly when nothing protects it and no video is sent to it |
| `HierarchyRebuildPlanning.RemovedCollectionIff` | app/hierarchy_rebuild.py:1077-1108 | A collection is marked for removal exactly when it has no user state, no video is sent to it and no kept title lies in it |
| `HierarchyRebuildPlanning.PlanIsOk` | app/hierarchy_rebuild.py:1380-1560 | Every plan built satisfies what the apply relies on: items cover the rows, removals are unprotected, assignments and kept titles agree on collections the plan keeps |
| `HierarchyRebuildPlanning.BlockedMembershipBlocksApply` | app/hierarchy_rebuild.py:877-925 | A video kept at its current membership because of unresolved evidence prevents the whole apply |
| `HierarchyRebuildPlanning.DisplacedIff` | app/hierarchy_rebuild.py:908-1074 | A video's intent and its title's specification name different collections exactly when the video is displaced, decided per branch from the stored rows, the split decision and the inferred identities |
| `HierarchyRebuildPlanning.AgreesIff` | app/hierarchy_rebuild.py:1289-1308 | The projection finds title and video in one collection for all videos exactly when none is displaced |
| `HierarchyRebuildPlanning.StrandedHasNoPlan` | app/hierarchy_rebuild.py:1299-1305 | A concrete consistent library for which building the plan raises the inconsistent assignment |
| `HierarchyRebuildOutcomes.KeptMembershipStays` | app/hierarchy_assignment.py:11-29 | An unblocked, undecided video whose stored title has a collection and is overridden or verified is sent to exactly that title and collection, whatever its path says |
| `HierarchyRebuildOutcomes.PathTitleIsTaken` | app/hierarchy_assignment.py:32-65 | Otherwise the one stored title at the inferred path takes the video: in its own collection if it is overridden or verified and has one, in the inferred collection if not |
| `HierarchyRebuildOutcomes.FreePathIsPlanned` | app/hierarchy_rebuild.py:898-906 | A path no stored title has gets a planned title that names exactly the video's identity, in the inferred collection |
| `HierarchyRebuildOutcomes.SharedPathIsReported` | app/hierarchy_rebuild.py:877-896 | An undecided path with several stored titles, or with several identities and no title, blocks the video and is reported as a hard blocker |
| `HierarchyRebuildOutcomes.SupplementaryStays` | app/hierarchy_rebuild.py:978-997 | A folded or supplementary video of a split collection without a title of its own keeps its title exactly when that lies in the collection it is grouped with |
| `HierarchyRebuildOutcomes.RootStays` | app/hierarchy_rebuild.py:1006-1023 | An undecided root video stays in its title's collection or else its own, the library root aside, and keeps its title exactly when it lies there |
| `HierarchyRebuildOutcomes.DecisionIsFollowed` | app/hierarchy_rebuild.py:926-949 | A decision overrides every path: a unique match gives the matched title in the evaluated collection, a conflict or no match that collection without a title |
| `HierarchyRebuildOutcomes.RulesDecide` | app/hierarchy_rebuild.py:834-875 | A video is decided exactly by evaluating the group of its place when a stored title there has selectors or a split rule, and by nothing otherwise |
| `HierarchyRebuildOutcomes.SelectedPlace` | app/hierarchy_rebuild.py:818-832 | A video that titles of one collection select is grouped there, whatever its path says |
| `HierarchyRebuildOutcomes.RootVideoPlace` | app/hierarchy_rebuild.py:798-808 | Any other root video is grouped with its title's collection, or else its own, the library root aside |
| `HierarchyRebuildOutcomes.PathVideoPlace` | app/hierarchy_rebuild.py:809-832 | Any other video is grouped with its kept membership's collection, the place of the one title at its path, its collection in conflict, or the inferred collection, in this order |
| `HierarchyRebuildOutcomes.BlockedStays` | app/hierarchy_rebuild.py:909-925 | A blocked video keeps its title and that title's collection, or else its own collection, or else the place it is grouped with |
| `HierarchyRebuildOutcomes.SelectionBlocks` | app/hierarchy_rebuild.py:769-797 | A video is blocked across collections exactly when titles of two collections select it, and as an orphan exactly when a title without a collection does |
| `HierarchyRebuildOutcomes.ContradictionBlocks` | app/hierarchy_rebuild.py:749-797 | A selector of no video, or a video selected in two collections, blocks every video grouped with that collection and is reported |
| `HierarchyRebuildOutcomes.SelectionIsReported` | app/hierarchy_rebuild.py:778-796 | A video selected in two collections, or by a title without one, is blocked and reported as exactly that; every Recap left outside a season is reported |
| `HierarchyRebuildOutcomes.MalformedBlocks` | app/hierarchy_rebuild.py:841-853 | A malformed rule of a stored collection blocks every video grouped there and is reported |
| `HierarchyRebuildOutcomes.HistoricalBlocks` | app/hierarchy_rebuild.py:854-869 | Without a malformed rule, a video that an old conflict left in the group blocks every video of it and is reported |
| `HierarchyRebuildOutcomes.PlanFollowsIntents` | app/hierarchy_rebuild.py:1289-1308 | The plan assigns every video of the library and no other, as its intent says |
| `HierarchyRebuildOutcomes.PlanKeepsMembership` | app/hierarchy_rebuild.py:675-699 | In a plan that may be applied, a video whose stored title is overridden or verified and lies in a collection without rules is assigned exactly that title and collection |
| `HierarchyRebuildOutcomes.PlanFollowsPath` | app/hierarchy_rebuild.py:675-699 | ... and without such a membership and without rules it is assigned the one stored title at its path |
| `HierarchyRebuildOutcomes.TitleStaysIff` | app/hierarchy_rebuild.py:1043-1074 | A stored title is removed exactly when it is not overridden or verified, has no selectors, variant groups or user data, and no video is assigned to it; one that stays is updated exactly when something about it changes |
| `HierarchyRebuildOutcomes.SoleTitleOutcome` | app/hierarchy_rebuild.py:1057-1063 | A staying title whose locator belongs to it and one identity alone takes that identity's facts and collection, unless it is overridden or verified: then only a missing collection is filled in |
| `HierarchyRebuildOutcomes.OtherTitleOutcome` | app/hierarchy_rebuild.py:1057-1063 | Any other staying title keeps its locator, facts and collection |
| `HierarchyRebuildOutcomes.PlannedTitleOutcome` | app/hierarchy_rebuild.py:1064-1071 | A title is created exactly for the planned references some video is assigned to, with the path, facts and collection of the identity its number names |
| `HierarchyRebuildOutcomes.CollectionOutcome` | app/hierarchy_rebuild.py:1077-1108 | A collection remains exactly when somebody decided something about it or the plan puts a video or title in it; it takes inferred facts and the evaluated state where there are any, and is created, updated or preserved accordingly |
| `HierarchyRebuildOutcomes.NumberingOutcome` | app/hierarchy_rebuild.py:1380-1560 | Numbering is planned exactly for the videos whose evaluation differs from what is stored |
| `HierarchyRebuildBuilders.ReadAuthority` | app/hierarchy_rebuild.py:749-767 | The first loop finds every video's explicit targets and every collection with a dangling selector |
| `HierarchyRebuildBuilders.GroupVideos` | app/hierarchy_rebuild.py:769-832 | The second loop computes each video's preliminary collection and candidate, the groups, and the blocked videos and collections |
| `HierarchyRebuildBuilders.DecideGroups` | app/hierarchy_rebuild.py:834-875 | The third loop evaluates exactly the unblocked groups with split titles and blocks exactly the malformed or historically ambiguous ones |
| `HierarchyRebuildBuilders.BlockCollisions` | app/hierarchy_rebuild.py:877-896 | The fourth loop blocks exactly the videos left to automatic routing whose locator has several owners or several identities |
| `HierarchyRebuildBuilders.BuildAssignmentIntents` | app/hierarchy_rebuild.py:724-1040 | The loops together compute, without error, the specified intent of every video and exactly the blockers of selector authority, split rules and locators; an unblocked, undecided video goes to the title of its kept membership, else to the one stored title at its path, each in the collection the rows say |
| `HierarchyRebuildBuilders.BuildTitleSpecs` | app/hierarchy_rebuild.py:1043-1074 | The title specifications are built without error and are exactly the specified ones |
| `HierarchyRebuildBuilders.BuildKeptPlaces` | app/hierarchy_rebuild.py:1077-1108 | The collections kept are those required by an intent, a specification or user state that exist or were inferred |
| `HierarchyRebuildBuilders.Project` | app/hierarchy_rebuild.py:1289-1308 | Projecting the videos raises exactly when some video's title lies in another collection |
| `HierarchyRebuildBuilders.BuildPlan` | app/hierarchy_rebuild.py:1380-1560 | Planning fails only with the inconsistent assignment, exactly when some video is displaced; otherwise it returns the specified plan, with the hard blockers its own loops found, and its assignments put unblocked, undecided videos into the title of their kept membership, else into the one at their path |
| `HierarchyRebuildApply.RemovedAreUnused` | app/hierarchy_rebuild.py:1775-1786 | After the assignments every title marked for removal has no video, selector row or variant group |
| `HierarchyRebuildApply.RemovedCollectionIsUnused` | app/hierarchy_rebuild.py:1794-1801 | After the titles are removed every collection marked for removal has no title and no video |
| `HierarchyRebuildApply.PlacedVideo` | app/hierarchy_rebuild.py:1663-1681 | In a library where the plan was carried out every video lies in its own title's collection |
| `HierarchyRebuildApply.KeptTitleKeepsAuthority` | app/hierarchy_rebuild.py:1735-1753 | In a library where the plan was carried out a title not marked for removal keeps its id, overrides, verification, split rule, selectors, variant groups and other user data |
| `HierarchyRebuildApply.PlacedPasses` | app/hierarchy_rebuild.py:1639-1687 | Verification of a carried-out plan can fail only on what finalizing computed: a collection's hierarchy state or changed numbering |
| `HierarchyRebuildApply.FinalizingKeepsPlaces` | app/hierarchy_rebuild.py:1806-1818 | Finalizing moves no row |
| `HierarchyRebuildApply.UnchangedIsPlaced` | app/hierarchy_rebuild.py:1713-1714 | A plan without changes describes the library as it is, so returning early is the same as carrying it out |
| `HierarchyRebuildApply.Session.ApplyCollections` | app/hierarchy_rebuild.py:1717-1733 | Collections are created and updated as planned, others are untouched |
| `HierarchyRebuildApply.Session.ApplyTitles` | app/hierarchy_rebuild.py:1735-1753 | Titles are created with new ids and updated in place as planned; existing titles keep their id |
| `HierarchyRebuildApply.Session.ApplyAssignments` | app/hierarchy_rebuild.py:1755-1773 | Every video gets its planned collection, title and surviving lane, or the loop stops exactly because some title refuses its video |
| `HierarchyRebuildApply.Session.RemoveTitles` | app/hierarchy_rebuild.py:1775-1792 | The deletion loop never finds a title in use and removes exactly the marked ones |
| `HierarchyRebuildApply.Session.RemoveCollections` | app/hierarchy_rebuild.py:1794-1804 | The deletion loop never finds a collection in use and removes exactly the marked ones |
| `HierarchyRebuildApply.Session.Apply` | app/hierarchy_rebuild.py:1690-1822 | All or nothing: stale exactly for another state, blocked exactly for a hard blocker, refused exactly when a title refuses its video, otherwise only a deviation of the finalized values; any error leaves the state unchanged; success puts every row where the plan says, with every kept title's own authority, every kept collection's user choices, and each video's variant lane exactly where its title has it, and passes verification |
| `CanonicalRoundTrip.StemIff` | app/canonical_filename.py:114-164 | The parser returns exactly the legal interpretations with a sanitized prefix whose formatting is the stem, for every valid stem and nothing for others |
| `CanonicalRoundTrip.FormatThenParse` | app/canonical_filename.py:114-164 | Parsing a formatted identity recovers it |
| `CanonicalRoundTrip.AtMostTwoReadings` | app/canonical_filename.py:138-154 | There are never more than two readings; two are one text with the scope read, and with the scope left in the prefix |
| `CanonicalRoundTrip.PrefixesDiffer` | app/canonical_filename.py:108-111 | Readings are ordered by strictly increasing prefix |
| `CanonicalRoundTrip.AmbiguousIff` | app/canonical_filename.py:140-154 | A text is ambiguous exactly when it carries a supplementary scope that a sanitized prefix could also carry |
| `CanonicalRoundTrip.FilenameIff` | app/canonical_filename.py:167-180 | With an extension given the parser returns exactly the readings whose formatted filename is the text |
| `CanonicalRoundTrip.FormatThenParseFilename` | app/canonical_filename.py:167-180 | Parsing a formatted filename with its extension recovers the identity |
| `CanonicalTexts.TypeIsTheWord` | app/canonical_filename.py:89-91 | The type of every supplementary reading is the word after the last separator, up to a blank, a hyphen or the end, in lower case |
| `CanonicalTexts.EpisodeText` | app/canonical_filename.py:85-88 | S, season, P and part if any, E and episode, -MP and media part if any: read as exactly that episode and nothing else |
| `CanonicalTexts.SupplementaryText` | app/canonical_filename.py:138-154 | One of the seven words, an ordinal and a media part if any, behind season and part: read as that content of that season, also as content of the scoped prefix when that is clean, and as nothing else |
| `CanonicalTexts.RecapText` | app/canonical_filename.py:156-164 | Season and part, then Recap and a positive position: read as exactly that recap and nothing else |
| `CanonicalTexts.IntegersAreDecimal` | app/canonical_filename.py:83-84 | The grammar's integers are decimal, with a zero in front of a single digit |
| `CanonicalTexts.ReadNamesArePortable` | app/canonical_filename.py:167-180 | A filename that is read is its readable stem, a dot and lower-case letters or digits, without reserved characters, device name or leading dot, and has at most 255 bytes |
| `CanonicalInverse.TakeIntegerIff` | app/canonical_filename.py:83-84 | The integer token accepts exactly the padded notation of positive numbers |
| `CanonicalInverse.MatchScopeIff` | app/canonical_filename.py:85-87 | The scope expression matches exactly the formatted season and part |
| `CanonicalInverse.EpisodeIsMatched` | app/canonical_filename.py:88 | Every formatted episode suffix is matched back |
| `CanonicalInverse.MatchedEpisode` | app/canonical_filename.py:88 | Every matched episode suffix is the formatting of what was read |
| `CanonicalInverse.SupplementaryIsMatched` | app/canonical_filename.py:89-91 | Every formatted supplementary suffix is matched back, whichever alternative comes first |
| `CanonicalInverse.MatchedSupplementary` | app/canonical_filename.py:89-91 | Every matched supplementary suffix is the formatting of what was read |
| `CanonicalInverse.RecapIsMatched` | app/canonical_filename.py:92-94 | Every formatted Recap suffix is matched back |
| `CanonicalInverse.MatchedRecap` | app/canonical_filename.py:92-94 | Every matched Recap suffix is the formatting of what was read |
| `CanonicalInverse.RPartitionFinds` | app/canonical_filename.py:125 | Partition at the last separator: the split is there and no separator follows |
| `CanonicalInverse.TailPlain` | app/canonical_filename.py:117-119 | No formatted suffix contains a separator, so the last separator is the one before it |
| `RecapPosition.PositionTextIsFixed` | app/physical_naming_formatters.py:140-144 | The formatter's text of any positive finite decimal, with trailing zeros and dot stripped, is the notation of the same number in lowest terms |
| `RecapPosition.ReducedIsEqual` | app/physical_naming_formatters.py:140-144 | Reducing to lowest terms keeps the number |
| `Numerals.DecimalIsRead` | app/physical_naming_formatters.py:112-115 | Decimal notation is read back |
| `Numerals.IntegerIsPadded` | app/canonical_filename.py:83-84 | Whatever the integer token accepts is the two-digit padding of its value |
| `Numerals.FixedIsRead` | app/canonical_filename.py:92-94 | Fixed notation in lowest terms splits into a whole part and a fraction without trailing zero |
| `ManualSplit.Evaluate` | app/manual_split.py:217-336 | Evaluation raises exactly for repeated titles, unknown videos of a preview, mismatched targets or an invalid pattern, in that order, and otherwise decides every video by the decision rule |
| `ManualSplit.UniqueIff` | app/manual_split.py:281-324 | One match exactly when one rule matches and no other does |
| `ManualSplit.NoneIff` | app/manual_split.py:281-324 | No match exactly when no rule matches |
| `ManualSplit.SeveralIff` | app/manual_split.py:281-324 | A conflict exactly when two different rules match |
| `ManualSplitOutcomes.PreviewMeans` | app/manual_split.py:281-336 | A preview decides a video as the one definition that lists it, has its number in its range or finds its pattern in the filename; as a conflict when two do; and when none does as unmatched exactly for an ordinary episode when some definition has a range or pattern |
| `ManualSplitOutcomes.RangesShareOut` | app/manual_split.py:281-293 | Ranges in a row share out all their numbers, both ends included: a video is decided as the i-th definition alone exactly when its number is in the i-th range, and any other ordinary episode is unmatched |
| `ManualSplitOutcomes.ListsDecideTheirs` | app/manual_split.py:263-293 | Definitions that only list videos decide exactly those, a video on two lists as a conflict, and require nothing of any other video |
| `ManualSplitOutcomes.PatternDecides` | app/manual_split.py:281-336 | A pattern alone decides exactly the files it is found in and leaves every other ordinary episode unmatched |
| `ManualSplitOutcomes.UnexplainedIsKept` | app/manual_split.py:294-316 | A stored membership no rule explains is kept without being a match: the video is in the title of a definition that does not name it, is listed nowhere and is named by at most one other |
| `ManualSplitOutcomes.StoredMeans` | app/manual_split.py:158-193 | Any other video is decided by stored definitions as by a preview, except that one another title of the same collection holds needs no definition |
| `ManualSplitConfirm.ValidateTargets` | app/hierarchy_review.py:2282-2307 | The guard accepts exactly definitions that refer to no foreign title and leave out no title of the collection with a stored selector; a foreign reference is reported first |
| `ManualSplitConfirm.AcceptedSplitSettles` | app/hierarchy_review.py:3113-3231 | Definitions the guard accepts settle for every video: in whatever order the stored titles are read, each video is decided as the preview decided it, and applying that decision again, strictly or for review, changes nothing |
| `ManualSplitConfirm.ReleasedSettles` | app/hierarchy_review.py:3234-3311 | A video the preview leaves alone stays undecided and unmoved wherever it is put |
| `ManualSplitOutcomes.ConfirmedPlace` | app/hierarchy_review.py:3113-3231 | Where a confirmed split leaves a listed video: in the title of the one definition that names it; without a title when two do, or none does although it needs one; otherwise in its title, or, released, where automatic routing puts it |
| `ManualSplitOutcomes.RefusedMatch` | app/manual_split.py:538-564 | A match its target refuses raises when applied strictly; applied for review it leaves the video there if it is there already, and without a title otherwise |
| `ManualSplitConfirm.CollectionSplit.Store` | app/hierarchy_review.py:3172-3215 | Resolving the titles and synchronizing the links cannot fail after the guard and the preview, and stores exactly the definitions' rules |
| `ManualSplitConfirm.CollectionSplit.Release` | app/hierarchy_review.py:3234-3311 | Exactly the released videos that nothing selects and no stored rule decides go where automatic routing puts them |
| `ManualSplitConfirm.CollectionSplit.Reapply` | app/hierarchy_evaluation.py:904-917 | Evaluating and applying the stored selectors again leaves every membership alone whenever each decision leaves its video alone |
| `ManualSplitConfirm.CollectionSplit.Confirm` | app/hierarchy_review.py:3113-3231 | The workflow accepts exactly the definitions that pass the guard, the evaluation, the remaining checks and every assignment; otherwise the state is unchanged; after it exactly the definitions are stored, every listed video is where the preview, or its release, put it and has settled there, and all other videos and titles are as before |
| `ManualSplitConfirm.GuardIsNeeded` | app/hierarchy_review.py:2296-2307 | Why the guard is there: definitions it refuses, which without it would preview as unique and be stored as a conflict |
| `ManualSplitSettles.PreviewSettlesIff` | app/manual_split.py:498-513 | For stored selectors of any origin, with or without the guard: the stored rules decide a video as the preview did, and applying again leaves it where it is, if and only if no selector outside the definitions disturbs it |
| `ManualSplitSettles.StoringMirrors` | app/manual_split.py:360-395 | Storing the definitions writes each rule to its title, and mirrors them exactly when no selector-bearing title is left out of the definitions |
| `ManualSplitSettles.StoredSettles` | app/manual_split.py:538-564 | Reconciliation settles: after one application of stored selectors, in either mode, evaluating again gives the same decision and applying it changes nothing |
| `ManualSplitAuthority.Selectors.Synchronize` | app/manual_split.py:360-395 | Both sides of the links stay mirrored; each definition's title ends with exactly its definition's videos and other titles keep theirs; an error changes nothing |
| `ManualSplitAuthority.Selectors.Replace` | app/manual_split.py:452-473 | Each listed video is selected by the target alone, or by nothing without a target; other links stay |
| `ManualSplitAuthority.Memberships.Apply` | app/manual_split.py:538-564 | Succeeds exactly when there are as many targets as rules and every assignment is accepted; every decided video joins the collection and gets the title its decision says; other videos keep title and collection |
| `ManualSplitAuthority.DesiredAt` | app/manual_split.py:382-394 | For distinct targets each title gets its own definition's videos |
| `SubtitleCompatibility.RunKeepsSound` | app/external_subtitle_compatibility.py:282-483 | Every run keeps: rows are filed under their pair, automatic rows are undated, confirmed rows are manual and dated |
| `SubtitleCompatibility.ScannerKeepsDecisions` | app/external_subtitle_compatibility.py:282-323 | Over any number of scanner and backfill steps every confirmed row stays exactly as it was |
| `SubtitleCompatibility.MatchingMakesNoDecision` | app/external_subtitle_compatibility.py:282-323 | No run of matching creates a confirmed row |
| `SubtitleCompatibility.OneMatchUntilNextStep` | app/external_subtitle_compatibility.py:282-323 | After a match sync, over any run of steps for other assets, the asset keeps its rows and its only automatic row is the matched video's |
| `SubtitleCompatibility.ConfirmThenClear` | app/external_subtitle_compatibility.py:447-564 | A decision is what the relation then holds; clearing it restores the filename evidence or no row, and nothing else changes |
| `SubtitleOutcomes.RowHasOrigin` | app/external_subtitle_compatibility.py:282-565 | Every row after any run is as it was before or as one step wrote it: a decision has the status, note and date of its confirmation or is a person's legacy link carried over as compatible and dated; an automatic row is a current match or another legacy link, undated |
| `SubtitleOutcomes.StepRemoves` | app/external_subtitle_compatibility.py:305-323 | A step removes exactly the rows it names: the asset's matches with other videos, all its matches, or the pair cleared without evidence |
| `SubtitleOutcomes.BackfillCarriesOver` | app/external_subtitle_compatibility.py:342-367 | A legacy link of a known asset and video without a row is carried over: as a dated manual compatible decision when a person had matched the asset, else as an undated match; of several links of a pair the first is |
| `SubtitleOutcomes.ConfirmedAgain` | app/external_subtitle_compatibility.py:447-482 | Confirming the same decision again keeps its date; another status or note is dated anew |
| `SubtitleTable.Table.SyncMatch` | app/external_subtitle_compatibility.py:282-313 | On the row list: the relation after a match sync, with one row per pair kept |
| `SubtitleTable.Table.DropMatches` | app/external_subtitle_compatibility.py:316-323 | On the row list: every automatic row of the asset and no other is removed |
| `SubtitleTable.Table.Confirm` | app/external_subtitle_compatibility.py:447-482 | Raises exactly for a status that is no decision or a note over 1000 characters; otherwise records the decision and keeps an unchanged one with its date |
| `SubtitleTable.Table.Clear` | app/external_subtitle_compatibility.py:546-565 | Restores current filename evidence for the pair, otherwise removes the row |
| `SubtitleTable.Table.Backfill` | app/external_subtitle_compatibility.py:326-368 | Creates exactly the missing valid pairs and returns how many; existing rows win |
| `SubtitleTable.ViewKept` | app/external_subtitle_compatibility.py:305-312 | Removing rows from the list removes exactly those pairs from the relation |
| `SubtitleConsolidation.MergeAllIff` | app/external_subtitle_compatibility.py:396-436 | Merging a path's assets succeeds exactly when they agree pairwise, and then holds every relationship, a confirmed status wherever one had it, and their manual language |
| `SubtitleConsolidation.KeeperIsLeast` | app/external_subtitle_compatibility.py:388-395 | The keeper is the least asset by manual match, manual language and id |
| `SubtitleOutcomes.SurvivorIsFirst` | app/external_subtitle_compatibility.py:388-395 | The asset that survives on a path is one a person matched if there is any, among those one with a chosen language if there is any, and among equals the one with the smallest id |
| `SubtitleOutcomes.OwnRowStays` | app/external_subtitle_compatibility.py:399-422 | The survivor's own row of a video stays, with date and note, unless it is a mere match and another asset of the path has a decision |
| `SubtitleStore.GroupByPath` | app/external_subtitle_compatibility.py:378-382 | The assets are grouped by path in query order |
| `SubtitleStore.MergeRows` | app/external_subtitle_compatibility.py:399-422 | The row loop moves or merges every row and raises exactly for opposite decisions |
| `SubtitleStore.Store.Consolidate` | app/external_subtitle_compatibility.py:371-437 | Consolidation succeeds exactly when no two assets of one path have opposite decisions for a video or different manual languages, and returns assets minus distinct paths |
| `SubtitleStore.OnePerPath` | app/external_subtitle_compatibility.py:371-437 | Afterwards as many assets remain as there are paths |
| `SubtitleStore.RelationshipsKept` | app/external_subtitle_compatibility.py:399-432 | Every relationship of every former asset is held by the asset left on its path, and every confirmed status is kept |
| `SubtitleStore.PathMerges` | app/external_subtitle_compatibility.py:384-436 | Without a conflict every path can be merged |
| `SubtitleStore.MergedPathsAgree` | app/external_subtitle_compatibility.py:384-436 | If every path can be merged there is no conflict |
| `GroupingSearch.RelatedShareToken` | app/hierarchy_review.py:629-632 | Related name bases share their first token |
| `GroupingSearch.RelatedByWords` | app/hierarchy_review.py:629-632 | Two names are related exactly when both have five characters and the words of one begin the words of the other |
| `GroupingSearch.RelatedPairs` | app/hierarchy_review.py:711-725 | The bucketed search finds exactly the related pairs of an all-pairs scan |
| `GroupingComponents.Component` | app/hierarchy_review.py:748-754 | The stack loop terminates and its set is exactly what is connected to the start |
| `GroupingComponents.ComponentsOverlapOnlyWhole` | app/hierarchy_review.py:744-755 | Two components that share a collection are equal |
| `GroupingComponents.Groups` | app/hierarchy_review.py:744-760 | The groups are whole components, disjoint, and contain exactly the linked collections |
| `GroupingGraph.AncestorPairs` | app/hierarchy_review.py:689-705 | The directory walk finds exactly the stored ancestors that a structural or related collection lies under |
| `GroupingGraph.SiblingPairs` | app/hierarchy_review.py:711-736 | Siblings are linked exactly by name, or structural ones to the related ones or to each other |
| `GroupingGraph.BuildGraph` | app/hierarchy_review.py:665-736 | The adjacency sets are symmetric and link exactly the collections the rules link |
| `GroupingGraph.BesideLinkedIff` | app/hierarchy_review.py:707-736 | Collections in one directory, neither the root nor generic, are linked exactly when their names are kin, or one is a bare season folder and the other is named kin there or, if the directory has none, a bare season folder too |
| `GroupingGraph.ApartLinkedIff` | app/hierarchy_review.py:689-705 | Collections in different directories are linked exactly when one lies below the other and is a bare season folder or has a kindred name |
| `GroupingGraph.Suggestions` | app/hierarchy_review.py:655-790 | Exactly the components without an unchanged earlier decision are reported |
| `SelectorCoherence.CoherentMeans` | app/hierarchy_review.py:1035-1048 | Coherence says that all titles selecting a video lie in one collection |
| `SelectorCoherence.AcceptedIff` | app/hierarchy_review.py:1035-1048 | In a coherent catalog a move is accepted exactly when its result is coherent |
| `SelectorCoherence.DecisionMeans` | app/hierarchy_review.py:902-945 | Replaying a decision puts exactly its stored titles into its collection when it is merged, its target exists and no video's selectors would end in several collections or none, and changes nothing otherwise |
| `SelectorCoherence.ReplayKeepsCoherence` | app/hierarchy_review.py:902-945 | Replaying any stored decisions keeps coherence |
| `SelectorCoherence.RunKeepsCoherence` | app/hierarchy_review.py:902-1077 | Every run of moves and replays keeps coherence |
| `SelectorCoherence.SharesConflict` | app/hierarchy_review.py:928-939 | The two loops find a conflict exactly when the result would be incoherent |
| `SelectorCoherence.AuthorityTargets` | app/hierarchy_review.py:902-945 | The batched projection equals replaying the non-conflicting decisions one at a time |
| `SelectorCoherence.Grouping.Move` | app/hierarchy_review.py:1008-1077 | A move is refused exactly for shared selectors, changes nothing when refused, and otherwise puts exactly the selected titles into the target, and with them exactly the videos that a title not there before holds or selects |
| `SelectorCoherence.FollowsAllSelectors` | app/hierarchy_review.py:948-956 | In a coherent catalog a video touched only through its selectors follows all of them at once |
| `SelectorCoherence.Grouping.ApplyAuthority` | app/hierarchy_review.py:948-956 | Applying the projection leaves every title where the one-by-one replay puts it; a video of a placed title, or selected by one, lies with such a title, and any other video stays |
| `SplitSeason.NoIssueIff` | app/hierarchy_authority.py:85-124 | A season has no issue exactly when it has one title or all its titles have explicit, different part numbers |
| `SplitSeason.FindIssues` | app/hierarchy_authority.py:85-124 | The loops report exactly the seasons with an issue |
| `SplitSeason.OnlyAuthorityTellsApart` | app/hierarchy_authority.py:85-124 | As long as one of several titles of a season is not overridden with a part number of its own, the season is reported as incomplete |
| `SplitSeason.ActivationIsEffective` | app/hierarchy_authority.py:198-234 | An accepted snapshot is complete authority and becomes the effective structure; clearing restores the automatic one |
| `SplitSeason.AcceptedSnapshot` | app/hierarchy_authority.py:66-83 | A snapshot is accepted exactly with one of the ten part types, positive numbers, a part number for a Part, and one for nothing but a Season, Part or Cour |
| `SplitSeason.SpanIff` | app/hierarchy_review.py:1698-1703 | Distinct numbers are one each from least to greatest exactly when there are as many as the span |
| `SplitSeason.SafeContiguousRange` | app/hierarchy_review.py:1675-1708 | A range is returned exactly when every video is a countable episode or folds within the title and the numbers are one each |
| `SplitSeason.SafeRangeIff` | app/hierarchy_review.py:1675-1708 | A range is safe exactly when every folded video is a copy of one in the title, every other is a saved standard episode with a number, and the active numbers are exactly those of the range, each once |
| `SplitSeason.ProposeSeason` | app/hierarchy_review.py:1729-1760 | A proposal is returned exactly when the season's two titles without part numbers split E1 to Ek |
| `SplitSeason.ProposalSplitsSeason` | app/hierarchy_review.py:1711-1760 | A proposal's ranges are E1 to Ej and Ej+1 to Ek, and every number is active exactly once in exactly one title |
| `SplitSeason.ConfirmationResolves` | app/hierarchy_review.py:2872-2885 | Confirming removes the season's issue and changes no other season's |
| `SplitSeason.ConfirmationHalves` | app/hierarchy_review.py:1743-1760 | Confirming makes the season's two titles Part 1 and Part 2 by complete manual authority, Part 1 being the one whose every active number is below every active number of the other; each keeps its sort order, videos and season label, and no other title changes |
| `SplitSeason.RequestedIsUnique` | app/hierarchy_review.py:2845-2849 | A season has at most one proposal |
| `SplitSeason.Collection.ActivateItems` | app/hierarchy_review.py:2873-2883 | The loop activates exactly the proposal's two titles as complete snapshots |
| `SplitSeason.Collection.Confirm` | app/hierarchy_review.py:2835-2904 | Confirming succeeds exactly for a current proposal of a positive season in a collection where no other season is ambiguous; success leaves no issue and makes the title with the lower episode numbers Part 1 and the other Part 2; failure changes nothing |
| `SplitSeason.IssuesLeft` | app/hierarchy_review.py:2884 | The final check passes exactly when no other season is ambiguous |
| `VideoRows.PrimaryStays` | app/numbering.py:633-749 | A collapsing duplicate's primary never itself collapses |
| `VideoRows.PhysicalVideoRows` | app/catalog_video_presentation.py:114-159 | The loop returns one row per video kept, with its folded copies and orphan mark |
| `VideoRows.RowsShowEveryVideo` | app/catalog_video_presentation.py:114-159 | Rows and copies show every given video once, and once more each folded video that was never saved |
| `VideoRows.TransientCopyShownTwice` | app/catalog_video_presentation.py:138-158 | A concrete pair of rows: a saved primary and a confirmed copy that was never saved, which is shown as a copy and as a row of its own |
| `VideoRows.ShownOnceIff` | app/catalog_video_presentation.py:138-158 | Every video is shown exactly once exactly when every folded one is saved |
| `PresentationOutcomes.RowMeans` | app/catalog_video_presentation.py:114-159 | A row's copies are exactly the given confirmed duplicates of its video in the same variant, and it is an orphan exactly when its primary is missing or unknown |
| `PresentationOutcomes.RowIff` | app/catalog_video_presentation.py:114-159 | A given video has a row of its own unless it is saved and a valid duplicate of another given video |
| `TitlePresentation.Partition` | app/numbering.py:752-845 | Active standard videos are partitioned by episode and confirmed group, in order |
| `TitlePresentation.LanesDisjoint` | app/catalog_video_presentation.py:224-235 | Lanes, with the duplicates folded into them, share no video |
| `PresentationOutcomes.MembersMean` | app/catalog_video_presentation.py:224-235 | The members of a lane are the saved known videos of its episode in its variant that are no copies, and the copies of those |
| `TitlePresentation.SelectionSplits` | app/catalog_video_presentation.py:233-240 | Taking a lane's members moves exactly the visible ones out of the leftover |
| `CatalogPresentation.BuildLane` | app/catalog_video_presentation.py:225-241 | A lane's rows show exactly the visible videos among its members |
| `CatalogPresentation.BuildEpisodes` | app/catalog_video_presentation.py:191-277 | Episodes and leftover together are the visible videos, and each lane of each episode shows exactly the visible members of that lane |
| `CatalogPresentation.UnitsPermuted` | app/catalog_video_presentation.py:286-298 | Sorting the display units changes nothing that is shown |
| `CatalogPresentation.BuildPresentation` | app/catalog_video_presentation.py:162-330 | Display rows and their copies show every visible video exactly once, plus once more each unsaved video folded in the leftover; each lane of each episode shows exactly the visible members of that lane, and the leftover rows exactly the visible videos of no lane |
| `CollectionPresentation.Build` | app/collection_presentation.py:221-277 | The loops present each primary title with exactly the titles it owns and the rest at the anime level |
| `CollectionPresentation.SupplementaryGroups` | app/collection_presentation.py:199-218 | Grouping by part type keeps every title once, one group per type |
| `CollectionPresentation.NestedIff` | app/collection_presentation.py:239-263 | A title is nested exactly when it is supplementary, has a season and one primary title alone has that season |
| `CollectionPresentation.ShownWhere` | app/collection_presentation.py:221-277 | A main title is shown by itself; a supplementary one below the one main title of its season if there is exactly one; every other title at anime level |
| `CollectionPresentation.PresentationKeepsTitles` | app/collection_presentation.py:221-277 | The presentation contains every title exactly once |
| `CollectionPresentation.SeasonContextIff` | app/collection_presentation.py:121-154 | A title has an authoritative season context exactly when it is a season or nested under one |
| `WriteGuard.FindViolations` | app/hierarchy_evaluation.py:776-815 | The loops find exactly the Recaps of the affected collections outside a season |
| `WriteGuard.GuardIntroducesNothing` | app/hierarchy_evaluation.py:819-853 | A guard that exits normally leaves no violation that was absent at its entry, for any nesting inside it |
| `WriteGuard.RecapWasThere` | app/hierarchy_evaluation.py:776-853 | After a guard that exits normally, a Recap of an affected collection, its own or one of its titles', that lies in no season of it was already such a Recap before |
| `WriteGuard.FailingGuardRestores` | app/hierarchy_evaluation.py:838-851 | A failing guard restores its entry state, with everything inner guards had released, and leaves outer savepoints and the durable state alone |
| `WriteGuard.InterruptionStaysOpen` | app/hierarchy_evaluation.py:834-853 | An interruption is neither validated nor undone: the guard's savepoint stays open above the caller's, with the entry state |
| `WriteGuard.GuardFailsIff` | app/hierarchy_evaluation.py:836-851 | A guard fails exactly when its body raises or ends with a new violation |
| `WriteGuard.NothingDurableBeforeCommit` | app/database.py:113-140 | For any workflow of nested guards nothing is durable before the caller's commit |
| `WriteGuard.FailedWorkflowLeavesNothing` | app/database.py:113-140 | Abandoning a workflow at any point leaves the database as it was |
| `WriteGuard.ImplicitDriverPublishes` | app/database.py:116-123 | Without the begin listener releasing the outermost guard publishes its write |
| `WriteGuard.Session.Guard` | app/hierarchy_evaluation.py:818-853 | The guard on a session does exactly what the workflow semantics says |
| `WriteGuard.CommitPublishes` | app/database.py:113-140 | Until the commit the database is as it was; the commit of a workflow that was not interrupted publishes exactly its result and leaves no savepoint |
| `WriteGuard.Session.Execute` | app/hierarchy_evaluation.py:818-853 | Executing a workflow on a session does exactly what the semantics says, for every nesting |
| `RomanNumerals.GreedyIsRead` | app/hierarchy.py:92-112 | Reading the greedy numeral of any natural number with the right-to-left loop gives the number |
| `RomanNumerals.GreedyIsCustomary` | app/hierarchy.py:106-112 | The greedy numeral is an X for each ten and then the customary numeral of the units |
| `RomanNumerals.GreedyIsInjective` | app/hierarchy.py:106-112 | Different numbers have different greedy numerals |
| `RomanNumerals.IntToRoman` | app/hierarchy.py:106-112 | The token loop writes the greedy numeral; a negative number gives the empty text |
| `RomanNumerals.RomanToInt` | app/hierarchy.py:92-103 | Returns n exactly for the greedy numeral of n with 1 to 50, and nothing otherwise |
| `PathInference.MorePathsMoreRomanParts` | app/hierarchy.py:192-202 | Adding paths only enlarges the set of roman-numeral parts |
| `PathInference.RomanSiblings` | app/hierarchy.py:184-202 | The loops find exactly the children with a sibling of the same base and another number |
| `PathInference.ScanFinds` | app/hierarchy.py:210-239 | The part is the first recognised directory and the title the last one recognised on its own evidence, or the part itself |
| `PathOutcomes.ScopeIsNearest` | app/hierarchy.py:209-231 | The season in scope is that of the nearest season directory above, and none without one |
| `PathOutcomes.IdentityWithPart` | app/hierarchy.py:255-285 | The directory above the first recognised one is the collection; the title is the last named directory, or the folder below it for a named kind of extra content |
| `PathOutcomes.IdentitySaysWhat` | app/hierarchy.py:210-239 | The title's kind, season and part are what its last named directory says, with the season of the nearest season directory where it names none |
| `PathOutcomes.IdentityWithoutPart` | app/hierarchy.py:240-254 | Without a part collection and title are the series root: up to the first technical directory and above it while directories are technical; the library when there is none |
| `PathOutcomes.PartsSortBySeason` | app/hierarchy.py:275-279 | Numbered parts below 1000 sort by season and then by part |
| `PathOutcomes.OtherPartsSort` | app/hierarchy.py:275-279 | With one of season and part the other counts alone, and with neither the title sorts first |
| `PathInference.RootsAreNested` | app/hierarchy.py:240-286 | The collection root is a prefix of the title root, which is a prefix of the directory; strictly exactly when a part was found |
| `PathInference.PartHasCollection` | app/hierarchy.py:256-259 | With a part the collection is a directory below the generic roots |
| `PathInference.Derive` | app/hierarchy.py:183-287 | Every file gets the identity its directories have among all paths, whatever its own name, and its roots are nested in its directory |

## Left out

- Web routes, templates, middleware responses, message texts and the title, filename and subtitle heuristics given as regular expressions.
- Query text, lazy loading and the identity map: rows are values or maps with links kept consistent on both sides; a foreign key points at a row.
- Lock file checks (mounts, permissions, inode identity, binding bytes): one fixed lock file whose checks succeed; closing a descriptor never fails.
- The namespace-creating exclusive lock in the gate's constructor; production bindings.
- Process ids are never reused; one connection is used by one thread at a time, as its pool guarantees.
- Statements sent directly to the database driver, past the engine's listeners.
- A statement is judged at its start; a lease closed while the statement is running is not modelled.
- `app/maintenance.py` artwork and library root validation, and the read-only request context.
- LeaseObjects.Engine.Begin: opening and locking are one step here, because the method is one uninterrupted call; interleavings between the two are in the step system.
- Fingerprints are equality of the state they are computed from; a collision of digests is not modelled.
- HierarchyRebuildApply.Session.Apply: finalizing is an arbitrary function of the library that changes hierarchy states and numbering only, because numbering and structural inference live elsewhere.
- Naming and layout choices that the rebuild compares before and after, and the plan's summary, ordering and wording.
- HierarchyRebuildBuilders.BuildPlan: the manual-split evaluation and the historical ambiguities of a group enter as functions whose unique matches target titles of the evaluated collection; the evaluation itself is in `ManualSplit`.
- CanonicalRoundTrip.StemIff: sanitizing a prefix and the portable-component rules enter as a policy (which prefixes are clean, which characters are invalid, byte lengths and device names); arguments that are no strings are not modelled.
- ManualSplit.Evaluate: a range has both ends; the rebuild blocks one-sided ranges before evaluating them.
- ManualSplit.Evaluate: compiling and searching a pattern enter as an engine; the number, supplementary kind and duplicate folding of a video are held fixed, also across a change of its title.
- ManualSplitAuthority.Memberships.Apply: whether a title accepts a video enters as a function.
- ManualSplitConfirm.CollectionSplit.Confirm: the structural and Recap checks enter as booleans, the ordering of titles and the automatic routing of a released video as functions; names, structure fields and numbering of the written titles, and finalizing the other collections a released video may go to, are not modelled.
- Retiring manual subtitle availability after a confirmation, candidate lists and decision previews.
- Reasons, names, keys and digests of grouping suggestions; creating and deleting collections.
- SelectorCoherence.Grouping.Move: the Recap validation of a move enters as a boolean, and the hierarchy evaluation that follows it is not modelled.
- CatalogPresentation.BuildPresentation: labels and headings, and the order of rows beyond being a permutation; the comparison of numbering identities for duplicates enters as a function.
- VideoRows.PhysicalVideoRows: a duplicate's primary is looked up in the given scope; a primary attached to the object, or loaded through its foreign key, is not modelled.
- WriteGuard.FindViolations: the order of titles and a video's effective content type enter as rules.
- PathInference.Derive: the name patterns enter as functions; the normalized base and detection reason of a title are not modelled.
- RomanNumerals.RomanToInt: works on the upper-cased text; upper-casing is not modelled.
- SplitSeason.SafeContiguousRange: the tuple of video ids a range carries.
- SplitSeason.Collection.Confirm: the checks that membership, numbering and duplicate links are unchanged, which hold here because nothing else is touched.
