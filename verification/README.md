# A model of zmem-cache

zmem-cache keeps, for each repository, a projection of the annotations in its commits. It stores published trails over
shared commits, stages raw commit facts ahead of demand, and runs indexing and prefetch jobs in the background. This
project models that behaviour in Dafny and proves what the design promises. SQLite tables are maps, sets and sequences,
rowid order is insertion order, a foreign-key cascade is an explicit removal, and a transaction works on a copy.

| files | part of the system |
|---|---|
| `Graphs`, `MetaRange`, `DeclaredRanges`, `MetaRefinement` | recursive reachability queries, the reachability memo, META ranges and their declarative definition |
| `Metadata`, `MetadataVerdicts` | metadata assignments, the declarative definition, exactly when their verdicts differ |
| `Effects`, `EffectTargets`, `Projection`, `ProjectionRefinement`, `ProjectionEffects`, `Columns` | DECAY and CANCEL, replay of commit journals, end-to-end correctness of stored metadata columns and entries |
| `Staging`, `Batches`, `BatchRows`, `Quota`, `EvictionOrder`, `StagingStore` | the speculative store: garbage collection, what a batch stores, quota, eviction order, bounds on jobs, the store class |
| `Conservation`, `EdgeSupport` | the usage ledger and the raw edges over runs |
| `Prefix`, `Sessions`, `TurnOutcomes`, `SessionRuns`, `ServiceRuns` | prefix retention over runs, prefetch sessions and their turns, runs of one head's sessions and of the whole service |
| `Overclaims`, `OverclaimRun` | exactly when a live counter claims too much, and a run in which it does |
| `Jobs`, `JobSafety`, `JobOutcomes`, `JobCoordinator` | the job coordinator with crash and restart, its invariant, no implicit rerun, how jobs end |
| `PrefetchQueue` | the prefetch coordinator and its fair, bounded turns |
| `Trails`, `TrailReadback`, `SharedRows`, `Retention`, `Finalization`, `RetentionOutcomes`, `Aliases`, `TrailStore` | publication, read-back, eviction plans, what is evicted, aliases, trail immutability |
| `Text`, `Diffs`, `Identity`, `Attention`, `Demand` | text formats, the batched diff parser, identities, attention selection, demand policy |
| `Results`, `Orders`, `Totals` | shared values, text order, sums over maps |

Code that changes tables step by step is a class with methods: `ReachabilityCache`, `ProjectionStore`, `StagingStore`,
`PrefetchSession`, `JobCoordinator`, `PrefetchCoordinator`, `TrailStore`, `RouteDemand`. Each method is proved equal to a
function on table values, and the laws are proved about those functions over every run. What each of these functions does
to the fields is said again without naming it, and proved: `EffectTargets`, `Columns`, `BatchRows`, `EvictionOrder`,
`TurnOutcomes`, `JobOutcomes`, `SharedRows`, `RetentionOutcomes`, `Aliases`, `DeclaredRanges`. Concurrency is modelled as
interleavings of the steps that are taken under a lock or between two locks.

## Where the code and its intent differ

- Metadata conflicts. A source that descends from some but not all kept assignments removes none of them. The store can
  then report a conflict that the declarative definition resolves. `Metadata.VerdictDiffersExactly` gives the exact
  condition for every state, `Metadata.VerdictDiffersExactlyOnFalseAlarm` the same before each assignment, and
  `MetadataVerdicts.FlagDiffersExactly` the same for the stored flag after a whole replay.
  `MetadataVerdicts.FlaggedThoughResolved` is such a history. Without a reported conflict both always agree.
- Job eviction. `admit` takes the evicted job out of the table before it writes the removal. If that write fails the id
  index keeps a dangling id. `JobSafety.AdmitKeepsExactly` shows that this is the only admission that breaks the table.
  A retry of that id then fails in the source's `expect("indexed job exists")`, which panics; the model answers
  `NotFailed` there. In states that satisfy the invariant no lookup meets this case.
- Prefetch counters. The bound retires a row but keeps its counter, and the next reclaim may collect its commits. The next
  turn of its session then revives the row with commits it no longer has, whether the turn stores its batch, is refused,
  finds too little demand or is told to stop. `Overclaims.StoredTurnClaimsBefore`,
  `Overclaims.RefusedTurnClaimsExactly`, `Overclaims.LiveTurnClaimsExactly` and `Overclaims.StateChangeClaimsExactly` say
  before the call exactly when the claim will be right, and `OverclaimRun.LineOverclaims` is a run of the service from
  empty tables in which it is not. `start_target` checks the facts, so a session resumes no further than the first missing
  one.
- Ledger. A batch that names a new commit twice is charged twice and stages it once. `Conservation.GapGrowsByRepeats` says
  by how much every run leaves the balance.
- Read-back. A trail reads back exactly its entries if and only if each lies on a selected commit and the entries of a
  commit agree on its metadata; otherwise the last metadata written for the commit wins.

## Model

| member | source | states |
|---|---|---|
| `Graphs.Walk` | crates/zmem-store/src/lib.rs:479-486 | The recursive query (take a queued row, add unseen neighbours) terminates and returns exactly the nodes reachable from the start |
| `MetaRange.ReachabilityCache.IsAncestor` | crates/zmem-store/src/lib.rs:464-488 | Whatever the memo holds, the answer is the memoised one, or else reachability over the current edges, true or false; the memo keeps what it held and otherwise only learns answers that are right for the current tables |
| `MetaRange.ReachabilityCache.MetadataTargets` | crates/zmem-store/src/lib.rs:419-462 | The result, list and error alike, is the evaluation in which each question is answered by what the memo held at the call, or else afresh; what the memo learns during the call changes no later answer of it |
| `MetaRange.SoundMemoTells` | crates/zmem-store/src/lib.rs:413-488 | A memo that is sound for the tables tells exactly what a fresh evaluation finds |
| `MetaRange.MemoSurvivesGrowth` | crates/zmem-store/src/lib.rs:413-488 | A memo that is sound stays sound when a commit is added that no stored edge names as a parent: no memoised ancestor answer or range changes |
| `MetaRange.MemoNeedsParentFirst` | crates/zmem-store/src/lib.rs:413-488 | The parent-first condition is needed: a concrete child-first arrival makes a memoised false answer wrong |
| `MetaRange.PrefixResolvesExactly` | crates/zmem-store/src/lib.rs:397-411 | A prefix resolves to a commit exactly when that commit starts with it and no other stored one does, so an ambiguous prefix resolves to none |
| `DeclaredRanges.DeclaredRangeMeans` | crates/zmem-core/src/lib.rs:675-712 | Over distinct members: the declared range fails for an incomplete membership, a missing endpoint, a missing META commit, an endpoint that is not an ancestor of the other or not of the META commit, in this order; otherwise it lists, in membership order, exactly the members at or after the first endpoint and at or before the second |
| `MetaRefinement.TablesShape` | crates/zmem-store/src/lib.rs:635-652 | After a parent-first replay the tables list each commit once in replay order with exactly its parent edges |
| `MetaRefinement.AnswersNeverChange` | crates/zmem-store/src/lib.rs:413-488 | An ancestry or range answer given at any point of a parent-first replay equals the answer at every later point |
| `MetaRefinement.AncestorsComeFirst` | crates/zmem-store/src/lib.rs:464-488 | A strict ancestor inside the history was replayed earlier, so stored ancestry has no cycle |
| `MetaRefinement.AncestryAgrees` | crates/zmem-store/src/lib.rs:464-488 | At any point of the replay stored reachability between replayed commits is membership in the final strict-ancestor sets |
| `MetaRefinement.ResolvedRefinement` | crates/zmem-store/src/lib.rs:419-462 | For endpoint prefixes that resolve, the outcome computed when the META commit is replayed is that of the declarative definition over the whole membership |
| `MetaRefinement.RangeRefinement` | crates/zmem-store/src/lib.rs:419-462 | For any parent-first history with distinct OIDs and full-OID endpoints the range computed during replay is the declarative range of the whole membership: same list, same order, and it fails exactly when the definition fails |
| `Metadata.KeptIncludesMaximal` | crates/zmem-store/src/lib.rs:515-551 | Over every sequence of set and null assignments to one slot, each latest-per-source assignment that no other one descends from is kept with its latest value |
| `Metadata.MaximalAreUndominated` | crates/zmem-store/src/lib.rs:515-551 | Over every sequence of assignments the maximal ones are exactly the stored rows that no other stored row descends from |
| `Metadata.DefinitionByMaximal` | crates/zmem-core/src/lib.rs:727-744 | The declarative definition resolves to a value exactly when the maximal assignments carry only that value |
| `Metadata.NoConflictIsResolved` | crates/zmem-store/src/lib.rs:552-587 | When the store reports no conflict its single value is the one the declarative definition resolves to |
| `Metadata.ExactStep` | crates/zmem-store/src/lib.rs:527-551 | A step keeps the stored rows equal to the maximal assignments if and only if its source descends from every kept source or is comparable to none |
| `Metadata.VerdictDiffersExactly` | crates/zmem-store/src/lib.rs:533-562 | Over every sequence of assignments the store and the definition disagree if and only if the undominated stored rows agree on one value and a dominated one carries another |
| `Metadata.VerdictDiffersExactlyOnFalseAlarm` | crates/zmem-store/src/lib.rs:533-562 | The same before the call, in replay order, after any log: the next assignment makes them disagree if and only if it does not descend from every stored source, some stored row below it or below another stored row differs from its value, and all remaining rows agree with it |
| `MetadataVerdicts.ReplayMeetsNoDescendant` | crates/zmem-store/src/lib.rs:628-818 | In a parent-first replay no stored source of a slot descends from the commit whose turn comes, so the condition before the call applies to every step |
| `MetadataVerdicts.FlagDiffersExactly` | crates/zmem-store/src/lib.rs:515-587 | End to end: after a successful parent-first replay the conflict flag of an assigned slot differs from the verdict of the declarative definition if and only if the stored rows hide a disagreement |
| `MetadataVerdicts.FlaggedThoughResolved` | crates/zmem-store/src/lib.rs:533-587 | A parent-first history of four commits, with its declared listing, that the definition resolves and the replay flags as conflicting |
| `Effects.ApplyAt` | crates/zmem-store/src/lib.rs:676-777 | One action changes an entry it does not add only by the decay or cancellation that resolves to it |
| `Effects.ReplayClosedForm` | crates/zmem-store/src/lib.rs:654-777 | For an entry not added again the final state after any action sequence is zero and invalid if it is a DECISION hit by a resolved CANCEL, else its score times the product of all resolved factors if it was valid, else unchanged |
| `Effects.AddedClosedForm` | crates/zmem-store/src/lib.rs:654-777 | The final state of any added entry is the closed form of its last addition under the actions after it |
| `Effects.ScoresStayInUnitInterval` | crates/zmem-store/src/lib.rs:654-777 | Scores in [0,1] stay there over any validated action sequence |
| `Effects.ScoresNeverRise` | crates/zmem-store/src/lib.rs:676-777 | Over any validated action sequence the score of an entry not added again never rises and an invalid entry never becomes valid |
| `Effects.OutcomeIsTruthful` | crates/zmem-store/src/lib.rs:676-777 | The reported outcome is Applied exactly when the (score, valid) pair of the resolved entry changed, reports the true values before and after, and is Rejected exactly when nothing resolves or a CANCEL meets a non-DECISION |
| `EffectTargets.DecayScalesTheSole` | crates/zmem-store/src/lib.rs:353-377 | A DECAY multiplies the score of exactly the one entry of its index whose commit starts with its prefix and is not the acting commit, if that entry is valid, and is reported Applied exactly when that changes it; with no such entry, or more than one, it is Rejected and nothing changes |
| `EffectTargets.CancelZeroesTheSole` | crates/zmem-store/src/lib.rs:676-777 | A CANCEL makes exactly that entry invalid with score zero if it is a DECISION; otherwise, and with no such entry or more than one, it is Rejected and nothing changes |
| `EffectTargets.FullTargetsHit` | crates/zmem-store/src/lib.rs:628-818 | End to end, for actions that name commits by full OIDs: each stored entry is what its last addition made it, invalid with score zero if it is a DECISION that a later CANCEL of another commit names, else, if added valid, its score times the factors of all later DECAYs of other commits that name it |
| `Projection.ProjectionStore.AssignMetadataValue` | crates/zmem-store/src/lib.rs:515-587 | The loop over previous sources decides whether the source descends from all of them, as far as the memo tells, and the new rows, column and conflict flag are those of the assignment step |
| `Projection.ProjectionStore.EvaluateUpdate` | crates/zmem-store/src/lib.rs:628-818 | Any update with any memo: the state and outcomes are those of the specification in which questions are answered by what the memo held before the update, or else on the tables it leaves; it stops at the first failing action, and a stored commit row is replaced with the cascade of its deletion |
| `Projection.ProjectionStore.ApplyRange` | crates/zmem-store/src/lib.rs:1769-1786 | Any range, replacements included, is applied whole or leaves the projection as it was; each update starts with what the memo has learnt from the ones before; and with the safe arrival order below the result is that of the replay that uses no memo |
| `Projection.MemoSafeReplays` | crates/zmem-store/src/lib.rs:1769-1786 | When every update after the first metadata patch brings a new commit that no earlier one names as a parent, the replay with any memo that the range can build up equals the replay that asks every question afresh |
| `ProjectionRefinement.ReplayHolds` | crates/zmem-store/src/lib.rs:628-818 | A parent-first replay with full-OID endpoints has succeeded after n updates exactly when every declared range so far succeeds and entries name replayed commits, and then each slot keeps what the resolution rule keeps of its declared assignments |
| `ProjectionRefinement.ParentFirstArrives` | crates/zmem-store/src/lib.rs:1769-1786 | A parent-first history arrives in that safe order |
| `ProjectionRefinement.AncestryIsPartialOrder` | crates/zmem-store/src/lib.rs:464-488 | The stored ancestry of a parent-first history is a partial order |
| `Columns.AssignmentMeans` | crates/zmem-store/src/lib.rs:552-587 | An assignment replaces the slot's rows if its source descends from all earlier sources, and else joins them; then the slot is flagged exactly when two of its rows differ; a flagged column is empty, an unflagged one shows its rows' value in its own form (areas, owner or tags); the other columns and flags of the target and the metadata of all other commits stay as they were |
| `Columns.StoredMetadataIsDeclared` | crates/zmem-store/src/lib.rs:515-587 | End to end: after a successful replay the column of a flagged slot is empty, and that of any other assigned slot shows the value that the declarative definition resolves from all assignments declared for it |
| `Columns.UnassignedIsUntouched` | crates/zmem-store/src/lib.rs:628-660 | End to end: after a successful replay a column of a commit to which nothing was assigned shows what the commit arrived with: its own affected areas, no owner, no tags, no conflict |
| `Columns.ArrivalReplaces` | crates/zmem-store/src/lib.rs:635-660 | An arriving commit is listed once and last with exactly its own parent edges; if it was stored before, it loses its entries, its metadata and every assignment to it or by it, while everything of other commits stays |
| `ProjectionEffects.ActionsEntries` | crates/zmem-store/src/lib.rs:628-818 | The entries after the actions of one update are those that its DECAY, CANCEL and annotation effects give, in order, whatever patches lie between them |
| `ProjectionEffects.ReplayEntries` | crates/zmem-store/src/lib.rs:1769-1786 | The entries after a replay of new commits are those that the effects of all updates give, one after the other |
| `ProjectionEffects.StoredEntryClosedForm` | crates/zmem-store/src/lib.rs:628-818 | End to end: after a successful parent-first replay each stored entry is the closed form of its last addition: zero and invalid if a later resolved CANCEL hit it as a DECISION, else scaled by every later resolved DECAY if it was added valid |
| `Staging.PinnedSurvives` | crates/zmem-store/src/demand.rs:28-40 | Deleting facts outside the pinned closure, with the edges that leave them, leaves the pinned closure unchanged |
| `Staging.ReclaimKeeps` | crates/zmem-store/src/demand.rs:26-44 | Reclaim keeps a fact if and only if it is reachable from the head of a job that is neither obsolete nor failed, in a trail, newer than the protection window, or in a repository with an active index job; kept facts and their edges are unchanged, and so is the pinned closure |
| `Staging.ReclaimIsIdempotent` | crates/zmem-store/src/demand.rs:26-44 | A second reclaim at the same time changes nothing, not even the metrics |
| `Staging.FirstIsLeast` | crates/zmem-store/src/demand.rs:16 | The ordered query returns a head exactly when some row is eligible; the head is eligible and no eligible one comes before it |
| `Staging.DropOldestCount` | crates/zmem-store/src/lib.rs:1428-1440 | Dropping n active jobs leaves exactly n fewer active ones when at least n may be dropped |
| `Staging.DropsOldestFirst` | crates/zmem-store/src/lib.rs:1434 | An active job is dropped only after every older one that may be dropped |
| `Staging.BoundHolds` | crates/zmem-store/src/lib.rs:1417-1444 | After the bound at most 32 jobs are active, and exactly 32 if there were more; the calling job is untouched, and other rows only become obsolete |
| `Quota.PlanCost` | crates/zmem-store/src/lib.rs:1475-1507 | The additional bytes of a plan are exactly what its missing facts and edges cost outside trails |
| `BatchRows.PlanAddsTheBatch` | crates/zmem-store/src/lib.rs:1475-1554 | Storing only what the plan found missing leaves the same facts and edges as inserting the whole batch as a publication does |
| `BatchRows.InsertionStoresTheBatch` | crates/zmem-store/src/lib.rs:1531-1554 | A stored batch adds exactly its commits and the edges to their parents; rows that were there stay, a new fact is that of the first commit of its name, a new edge has the bytes of both names and 32 more, and each place of the batch whose commit is in no raw fact and in no trail counts as produced |
| `Quota.EvictionRetiresTheLeast` | crates/zmem-store/src/demand.rs:4-24 | An eviction happens exactly when some job is eligible; it retires the eligible job that comes first in demand order, resets its progress, and touches no other row |
| `Quota.StoredFitsQuota` | crates/zmem-store/src/lib.rs:1508-1562 | A stored batch leaves the bytes of facts and edges outside all trails within the quota |
| `Quota.RefusedAddsNothing` | crates/zmem-store/src/lib.rs:1508-1530 | A refused batch adds no fact and no edge |
| `Quota.CallerSurvives` | crates/zmem-store/src/lib.rs:1522-1562 | Afterwards at most 32 jobs are active and the calling job keeps its row: when stored it is running with the call's counter and the last commit of the batch; when refused it is paused for capacity with the counter and checkpoint it had, or, if new, counting what came before the batch |
| `Quota.RefusedOnlyWhenNothingIsLeft` | crates/zmem-store/src/lib.rs:1464-1521 | Each eviction takes at least one job out of the eligible ones, so after the first reclaim a batch is refused only when it does not fit and no eligible job is left, unless more than 256 were eligible |
| `EvictionOrder.VictimIsLeastRecentlyUsed` | crates/zmem-store/src/demand.rs:4-24 | The victim is a job that is ready or paused, not the caller's and not of a repository being indexed; a never-demanded one goes before any demanded one, then the earlier last demand, the earlier creation, the smaller repository and the smaller OID decide; none is chosen exactly when there is no such job |
| `EvictionOrder.MakingRoomInOrder` | crates/zmem-store/src/lib.rs:1508-1521 | However many jobs making room retires, each goes no later in that order than any job that could still be evicted afterwards |
| `EvictionOrder.RetiresAtMost` | crates/zmem-store/src/lib.rs:1464-1521 | Making room for one batch retires at most 256 jobs |
| `Quota.EvictionSpares` | crates/zmem-store/src/demand.rs:12-16 | Making room for a batch never retires a running job, a job of a repository being indexed, or the calling job |
| `Quota.UseProtectsFromEviction` | crates/zmem-store/src/demand.rs:4-24 | After a recorded use no eviction retires a cohort that the use demanded while an eligible cohort is left that was never demanded |
| `Quota.UseRaisesDemand` | crates/zmem-store/src/demand.rs:221-233 | A recorded use raises the last demand of exactly the cohorts from whose head a speculative commit of the trail can be reached, to the time of use or what it was, whichever is later; creation times and all other cohorts stay |
| `Quota.TrimDeletesTerminalRows` | crates/zmem-store/src/lib.rs:1578-1586 | Trimming deletes exactly as many terminal rows as asked and no other row |
| `EvictionOrder.TrimsInOrder` | crates/zmem-store/src/lib.rs:1578-1586 | A ready, obsolete or demand-paused row that trimming deletes goes no later, in the order of eviction, than one that it leaves |
| `EvictionOrder.TrimsCohorts` | crates/zmem-store/src/lib.rs:1578-1586 | Trimming deletes a cohort exactly with a row of its head and leaves the others as they were |
| `Quota.TerminalRowsAreBounded` | crates/zmem-store/src/lib.rs:1577-1587 | After a job becomes ready, obsolete or demand-paused at most 256 rows are left in those states |
| `StagingStores.StagingStore.Collect` | crates/zmem-store/src/demand.rs:26-44 | The garbage collection on the stored tables gives the specified tables, including the metrics |
| `StagingStores.StagingStore.Evict` | crates/zmem-store/src/demand.rs:4-24 | Evicts the specified job, or reports that none is eligible and changes nothing |
| `StagingStores.StagingStore.BoundPins` | crates/zmem-store/src/lib.rs:1417-1444 | Bounds the active jobs as specified |
| `StagingStores.StagingStore.ReconcileStaging` | crates/zmem-store/src/lib.rs:1446-1452 | Bounds the jobs without a caller, then collects |
| `StagingStores.StagingStore.UsedBytes` | crates/zmem-store/src/lib.rs:1467-1474 | Returns the bytes of facts and edges outside all trails |
| `StagingStores.StagingStore.PlanBatch` | crates/zmem-store/src/lib.rs:1475-1507 | The loops over facts and parents compute the specified plan: additional bytes, missing facts, missing edges |
| `StagingStores.StagingStore.InsertPlan` | crates/zmem-store/src/lib.rs:1531-1554 | The insert loops add the planned facts and edges and charge each fact outside trails with its own bytes and those of its new edges |
| `StagingStores.StagingStore.RecordBatch` | crates/zmem-store/src/lib.rs:1454-1564 | The retry loop terminates and leaves the tables and the result that the staging specification gives |
| `StagingStores.StagingStore.SetPrefetchState` | crates/zmem-store/src/lib.rs:1566-1593 | Sets the state, then trims terminal rows and collects, or bounds the active ones, as specified |
| `StagingStores.StagingStore.RecordTrailUse` | crates/zmem-store/src/demand.rs:221-233 | Counts and marks the unused rows of a trail and raises the last demand of exactly the cohorts whose reachable speculative commits the trail holds |
| `StagingStores.StagingStore.PublishRaw` | crates/zmem-store/src/lib.rs:1211-1216 | Inserts missing raw facts and edges and the membership, then records the use; a repeated trail id or commit, or a failure elsewhere in the transaction, changes nothing |
| `StagingStores.StagingStore.DeleteTrails` | crates/zmem-store/src/lib.rs:1932-1939 | Removes exactly the memberships of the given trails and nothing else |
| `Conservation.LedgerConserved` | crates/zmem-store/src/demand.rs:37-39 | Over every run of staging, state changes, reconciling, publication, use and trail eviction in which staged batches name each commit once, produced bytes equal reused bytes plus unused-evicted bytes plus the bytes still unused |
| `Conservation.GapGrowsByRepeats` | crates/zmem-store/src/lib.rs:1531-1547 | Over every run the ledger leaves its balance by exactly the charges of new commits, outside trails, that a stored batch names again |
| `Conservation.StageBalancesExactly` | crates/zmem-store/src/lib.rs:1531-1547 | A stored batch keeps a balanced ledger balanced if and only if each new commit outside trails that it names again is charged nothing |
| `Conservation.RunBalancesExactly` | crates/zmem-store/src/lib.rs:1531-1547 | A run from balanced tables ends balanced if and only if no repeated commit was charged on the way |
| `Conservation.RepeatedCommitUnbalances` | crates/zmem-store/src/lib.rs:1531-1547 | A concrete batch on empty tables that names one commit twice, is stored, and unbalances the ledger |
| `EdgeSupport.EdgesAlwaysHaveFacts` | crates/zmem-store/src/demand.rs:40-42 | Over every run of staging, reclaims, evictions and publications, every raw edge leaves a commit whose raw fact is stored |
| `Conservation.ReusedOncePerResidency` | crates/zmem-store/src/demand.rs:221-225 | Over every run a commit is counted as reused at most once for each time it was staged outside the trails |
| `Conservation.MetricCountsClaims` | crates/zmem-store/src/demand.rs:222-224 | In every step the reused-facts metric grows by exactly the number of commits that the step claims as reused |
| `Prefix.StoredIsReached` | crates/zmem-store/src/demand.rs:28-31 | Every stored commit of a topological walk prefix is reachable from the head along stored edges |
| `Prefix.StepKeepsClaim` | crates/zmem-store/src/lib.rs:1531-1562 | Each operation of a run keeps the claim that a live row counts stored commits only; an operation on the head itself does so when it follows the walk, that is, stages the next segment and revives no retired row that still counts commits |
| `Prefix.PrefixRetained` | crates/zmem-store/src/lib.rs:1531-1562 | Over every run in which the head's session follows its walk, while the head's row is live every commit of walk[..completed_count] keeps its raw fact through all reclaims and evictions |
| `Overclaims.SettleIsOneReclaim` | crates/zmem-store/src/lib.rs:1508-1521 | However many jobs making room retires, its up to 257 reclaims delete exactly what one reclaim with the remaining rows deletes |
| `Overclaims.StoredTurnClaimsExactly` | crates/zmem-store/src/lib.rs:1531-1562 | After a stored segment the live counter counts stored commits only if and only if the commits before the segment were all stored when it was inserted |
| `Overclaims.FittingTurnClaimsExactly` | crates/zmem-store/src/lib.rs:1531-1562 | For a batch that fits as it is, the same condition on the tables before the call |
| `Overclaims.StoredTurnClaimsBefore` | crates/zmem-store/src/lib.rs:1508-1562 | For every stored segment, judged before the call: the commits before it must be stored, and if the row is not live and room has to be made, each of them must be pinned by a row that is left, in a trail, recent, or in a repository being indexed |
| `Overclaims.RefusedTurnClaimsExactly` | crates/zmem-store/src/lib.rs:1508-1530 | For every refused segment, judged before the call: the commits that the row counts, or those before the segment if there is no row, must be stored, and if the row is not live they must also survive the attempts to make room |
| `Overclaims.LiveTurnClaimsExactly` | crates/zmem-store/src/lib.rs:1508-1562 | With a live row the claim after a turn is right if and only if, before the call, the commits before the segment are stored when it is stored, or the commits the row counts when it is refused |
| `Overclaims.StateChangeClaimsExactly` | crates/zmem-store/src/lib.rs:1566-1593 | A change of the head's state leaves a right claim if and only if the row is absent or trimmed away, the new state pins nothing, or the commits that the row counts are stored |
| `OverclaimRun.NextTurnOverclaims` | crates/zmem-store/src/lib.rs:1454-1593 | After the bound retired a head's row and its facts were collected, the next turn of its session leaves a right claim if and only if it fails or finds no demand at all: a stored, refused, paused or stopped turn overclaims |
| `OverclaimRun.RetiredHeadOverclaims` | crates/zmem-svc/src/main.rs:958-1057 | For every walk of more than 128 commits there is a run of the service from empty tables that ends there, under one quota and with at most 32 known keys: the session and one other take their first turns, the service restarts, the session takes its second turn and 31 others their first |
| `OverclaimRun.LineOverclaims` | crates/zmem-svc/src/main.rs:958-1057 | The run with all inputs given: lines of commits of one byte each under one quota; the last commit is stored when it has one byte and refused when it exceeds the quota, and either turn, or a stop, overclaims |
| `Sessions.PrefetchSession.constructor` | crates/zmem-svc/src/lib.rs:2285-2301 | The session resumes at the recorded counter if the checkpoint matches, cut at the first missing fact: every commit before the position has its fact, and a shorter position is due to a missing fact there |
| `Sessions.StartsExactly` | crates/zmem-svc/src/lib.rs:2285-2301 | A session trusts the row's counter only if it is within the walk and the checkpoint names the commit before it, and then starts at the first missing fact or at the counter; otherwise, and without a row, it starts at 0 |
| `Sessions.PrefetchSession.Advance` | crates/zmem-svc/src/lib.rs:2318-2411 | One turn performs the one store operation its inputs select; on More the position strictly grows by at most 64 and stays inside the walk; a failed collection changes nothing |
| `TurnOutcomes.TurnLeaves` | crates/zmem-svc/src/lib.rs:2318-2411 | The row of the head after a turn: ready at the end of the walk, else paused for shutdown, obsolete without demand, or paused beyond it; a refused batch leaves it paused for capacity, a stored one running with the new counter and checkpoint, or ready when the least of demand, ceiling and walk is reached; a failed collection changes nothing |
| `TurnOutcomes.StateChangeRow` | crates/zmem-store/src/lib.rs:1566-1593 | A change of state moves the row to that state and keeps its ceiling, counter and checkpoint; the row goes only if the state is terminal and more than 256 rows would be in terminal states |
| `Sessions.TurnIsSegment` | crates/zmem-svc/src/lib.rs:2367-2402 | The batch of a turn is the next segment of the walk with all its parents, holds between 1 and 64 commits, and its counter is the position after it |
| `Sessions.TurnFollows` | crates/zmem-svc/src/lib.rs:2367-2402 | While the row of the head is resumable and counts as far as the session, a turn follows the walk as prefix retention requires, and a stored turn makes the counter equal to the position |
| `Sessions.StoredTurnIsResumable` | crates/zmem-svc/src/lib.rs:2285-2292 | A session started after a stored turn trusts the counter and checkpoint of that turn and resumes where it ended |
| `SessionRuns.SessionKeepsPrefix` | crates/zmem-svc/src/lib.rs:2248-2411 | Over every run of the head's session turns, of restarts with other targets and shorter or longer parts of its walk, and of any other operations, in which the row once written is neither retired nor deleted, the session never gets ahead of the row and every commit that the row counts keeps its fact |
| `ServiceRuns.SessionsAreKnown` | crates/zmem-svc/src/main.rs:958-1057 | Over every run of the prefetch service each session in memory belongs to a known key, so there are at most 32 |
| `ServiceRuns.QueueEvents` | crates/zmem-svc/src/main.rs:941-1046 | A new key waits last while fewer than 32 are known; the first waiting key is taken when none is in flight; a session starts for the key in flight; a restart forgets every key and session, and other writers touch neither |
| `ServiceRuns.TurnEvents` | crates/zmem-svc/src/main.rs:950-1057 | At the end of a turn the key in flight waits again behind all others exactly while more of its walk is demanded, and its session is then kept at the position it reached; otherwise key and session are forgotten, and an unwanted session leaves its row paused for demand |
| `ServiceRuns.ServiceKeepsPrefix` | crates/zmem-svc/src/main.rs:958-1057 | Over every run of the prefetch service, with its queue, all sessions, stops, restarts and other writers, a head whose row once written is neither retired nor deleted keeps the fact of every commit that the row counts, and its session is never ahead |
| `JobCoordinators.Recover` | crates/zmem-store/src/lib.rs:1080-1098 | The recovery loop builds the two maps from the persisted rows, in which no job is queued or running any more |
| `JobCoordinators.JobCoordinator.constructor` | crates/zmem-svc/src/main.rs:1060-1084 | A new coordinator holds exactly the recovered rows, nothing ready and nothing pending |
| `JobCoordinators.JobCoordinator.AdmitJob` | crates/zmem-svc/src/main.rs:1127-1195 | Admission gives the specified table and reply for the job that the search meets first, and keeps the table invariant unless the write of its eviction is lost |
| `JobCoordinators.JobCoordinator.RetryJob` | crates/zmem-svc/src/main.rs:1228-1260 | A retry queues exactly a known failed job; its lookups never fail and the invariant is kept |
| `JobCoordinators.JobCoordinator.TakeNext` | crates/zmem-svc/src/main.rs:1264-1279 | A worker takes the first ready job; that job exists, becomes running, and the invariant is kept |
| `JobCoordinators.JobCoordinator.PersistRunning` | crates/zmem-svc/src/main.rs:1280-1291 | A failed write fails the job and releases the worker; the job looked up exists and the invariant is kept |
| `JobCoordinators.JobCoordinator.Synchronized` | crates/zmem-svc/src/main.rs:1098-1125 | On success the job moves to the observed generation unless that key is taken or the write fails; the running job exists and the invariant is kept |
| `JobCoordinators.JobCoordinator.PersistResult` | crates/zmem-svc/src/main.rs:1315-1322 | The final state is written when the write succeeds; the invariant is kept either way |
| `JobCoordinators.JobCoordinator.FinishJob` | crates/zmem-svc/src/main.rs:1323-1340 | The finished job exists, gets its final state, and leaves the demand count; the invariant is kept |
| `JobCoordinators.JobCoordinator.Status` | crates/zmem-svc/src/main.rs:1197-1204 | A status query finds a job exactly when the table holds one with that id, and returns that job |
| `JobSafety.RestartShape` | crates/zmem-store/src/lib.rs:1080-1098 | After a restart the rows of queued and running jobs are failed with the message of the interruption, all other rows are as they were, the table lists every row, and nothing is ready |
| `JobSafety.StartIsSound` | crates/zmem-svc/src/main.rs:1060-1084 | A coordinator started on rows with distinct keys satisfies the invariant and has nothing queued |
| `JobSafety.AdmitKeepsExactly` | crates/zmem-svc/src/main.rs:1127-1195 | An admission keeps the job-table invariant if and only if it does not lose the write of an eviction |
| `JobSafety.LostEvictionLeavesDanglingId` | crates/zmem-svc/src/main.rs:1146-1154 | When the write of an eviction is lost the id index names a job that the table no longer holds |
| `JobSafety.StepKeeps` | crates/zmem-svc/src/main.rs:1098-1341 | Every request, worker step and restart keeps the invariant: inverse maps, ready keys exactly the queued ones once, demand equal to queued plus running, at most 32 ready, at most 256 jobs or as many as were recovered, workers and rows in step |
| `JobSafety.RunKeeps` | crates/zmem-svc/src/main.rs:1098-1341 | The invariant holds after every interleaving of requests, workers and crash-restarts |
| `JobSafety.StartsAreGranted` | crates/zmem-svc/src/main.rs:1228-1260 | Over any interleaving a job id starts at most as often as it was admitted or successfully retried, plus one if it was queued at the start |
| `JobSafety.StartsOncePlusRetries` | crates/zmem-svc/src/main.rs:1228-1260 | With ids drawn once, a job starts at most once plus once per successful retry of it |
| `JobSafety.FailedStaysFailed` | crates/zmem-svc/src/main.rs:1127-1132 | No admission, worker step or restart takes a failed job out of that state; only a successful retry of its id does |
| `JobSafety.AdmissionReturnsExisting` | crates/zmem-svc/src/main.rs:1127-1132 | An admission returns another job exactly when the key has one that is not ready, and then changes nothing |
| `JobOutcomes.AdmissionAnswers` | crates/zmem-svc/src/main.rs:1127-1195 | When no job is returned: refused as busy exactly at 32 waiting jobs, and for capacity exactly when 256 others are listed that are all queued, running or failed; otherwise the job is listed, and only at 256 others is one ready or obsolete job gone for it |
| `JobOutcomes.GrantedWaitsLast` | crates/zmem-svc/src/main.rs:1160-1260 | A job that an admission creates or a retry revives is queued without failure behind all others, and so is its row |
| `JobOutcomes.QueuedMovesUp` | crates/zmem-svc/src/main.rs:1264-1279 | Over every run without a crash a queued job moves one place forward with each job that a worker takes, whatever is admitted or retried meanwhile |
| `JobOutcomes.WorkerOutcome` | crates/zmem-svc/src/main.rs:1264-1341 | From taking to finishing, with any requests and other workers between the worker's steps: a job whose synchronization and key write succeed ends ready with no new failure, any other ends failed with its error, and its row says the same if the last write succeeded, else that it runs |
| `JobOutcomes.UnwrittenStartFails` | crates/zmem-svc/src/main.rs:1280-1291 | A job whose start is not written ends failed at once with that message; its row stays as it was |
| `PrefetchQueue.PrefetchCoordinator.AdmitTarget` | crates/zmem-svc/src/main.rs:941-948 | A key becomes known exactly if it was or fewer than 32 are; waiting keys keep their places |
| `PrefetchQueue.PrefetchCoordinator.TakeTurn` | crates/zmem-svc/src/main.rs:1010-1015 | Takes the first waiting key and keeps the invariant |
| `PrefetchQueue.PrefetchCoordinator.FinishKey` | crates/zmem-svc/src/main.rs:950-957 | A key with more work waits again at the end, any other is forgotten; the invariant is kept |
| `PrefetchQueue.RunKeeps` | crates/zmem-svc/src/main.rs:940-957 | After every run no key waits twice, the known keys are the waiting ones and the one in flight, and at most 32 are known |
| `PrefetchQueue.WaitingIsBounded` | crates/zmem-svc/src/main.rs:940-957 | Waiting keys and the one in flight together are as many as the known keys, at most 32 |
| `PrefetchQueue.WaitingMovesUp` | crates/zmem-svc/src/main.rs:940-957 | With each turn a waiting key moves exactly one place forward, whatever is admitted or put back meanwhile |
| `PrefetchQueue.ServedInOrder` | crates/zmem-svc/src/main.rs:940-957 | The key at place i gets its turn after exactly i turns of others, fewer than 32 |
| `TrailReadback.PublishSucceedsExactly` | crates/zmem-store/src/lib.rs:1184-1343 | Publication succeeds exactly when no trail has the id or the same repository and identity columns, the commits and entries are distinct, and the commit of each entry is known |
| `TrailReadback.PublishKeepsLinked` | crates/zmem-store/src/lib.rs:1184-1343 | Publication keeps every foreign key and the positions of each trail distinct |
| `TrailReadback.PublishFrame` | crates/zmem-store/src/lib.rs:1184-1343 | Publishing one trail leaves the rows that every other trail reads back as they were |
| `SharedRows.PublishShares` | crates/zmem-store/src/lib.rs:1211-1343 | Of the rows that trails share a publication adds exactly its commits with their times, for commits without metadata a row with the areas alone, and its entries; rows that were there stay as they were |
| `TrailReadback.PublishedReadBack` | crates/zmem-store/src/lib.rs:1610-1649 | Right after publication a trail reads back its entries on selected commits, at their positions, with the last metadata given for each commit |
| `TrailReadback.ReadBackIsExact` | crates/zmem-store/src/lib.rs:1292-1305 | What is read back equals the published entries if and only if every entry is on a selected commit and the entries of one commit agree on its metadata |
| `Trails.ListingIsUnique` | crates/zmem-store/src/lib.rs:1627 | The order by position and annotation index leaves one possible answer for a set of rows |
| `Finalization.TrailIsImmutable` | crates/zmem-store/src/lib.rs:1184-1345 | From publication on, through any publications and finalizations that keep it, a trail reads back exactly the rows it was published with |
| `Finalization.PlansAreDetermined` | crates/zmem-svc/src/lib.rs:496-534 | The tables and the request determine what finalizing evicts; no row order enters |
| `Finalization.FinalizeKeeps` | crates/zmem-svc/src/lib.rs:496-534 | Finalizing never evicts the active, an aliased or a recent trail, nor a commit or entry of a retained trail, and every retained trail reads back as before |
| `RetentionOutcomes.TrailsGoOldestFirst` | crates/zmem-svc/src/lib.rs:496-534 | Finalizing evicts only trails without alias that are not active and older than the protection window; each goes no later, by time, repository and id, than any such trail that stays; had one of them stayed the state rows would exceed the cap, and while they exceed it no such trail stays |
| `RetentionOutcomes.CommitsGoOldestFirst` | crates/zmem-svc/src/lib.rs:515-533 | The same for commits with entries that no remaining trail has, and the entries outside all trails |
| `Aliases.AliasIsWritten` | crates/zmem-store/src/lib.rs:1595-1607 | Setting the alias fails exactly when the active trail is not stored; otherwise that alias names the active trail and every other alias and table is as it was |
| `Aliases.FinalizedAliases` | crates/zmem-svc/src/lib.rs:496-534 | After a finalization the requested alias names the active trail, which is stored; every other alias names what it named, and a trail with an alias is still stored |
| `Aliases.AliasedTrailStays` | crates/zmem-svc/src/lib.rs:496-534 | Over every run of publications and finalizations that do not point its alias elsewhere, an aliased trail keeps its alias, stays stored and reads back the same rows |
| `Finalization.StepKeepsWhole` | crates/zmem-svc/src/lib.rs:496-534 | Publications whose entries lie on their commits, and finalizations, keep every state row on a commit of its trail |
| `Finalization.OverCapacityIsExact` | crates/zmem-svc/src/lib.rs:515-533 | Over capacity is reported exactly when the entries of the trails that remain or the unreferenced entries that remain exceed the cap; evicting commits changes the former exactly when a state row lies on an evicted commit, which tables that keep state rows on member commits rule out |
| `Retention.SortedPrefixIsPlan` | crates/zmem-store/src/lib.rs:187-233 | Sorting the rows, in whatever order they come, and stopping at the cap gives the shortest prefix in (time, repository, id) order that meets the cap, or all eligible rows |
| `Retention.PlanIsUnique` | crates/zmem-store/src/lib.rs:205-233 | That plan is determined by the set of eligible rows, the total and the cap |
| `TrailStores.SelectEvictions` | crates/zmem-store/src/lib.rs:205-233 | The selection loop returns the prescribed plan for the aged rows and whether the remaining total exceeds the cap |
| `TrailStores.UnguardedAreExpendable` | crates/zmem-store/src/lib.rs:187-203 | The rows that are neither referenced nor protected, less the active trail, are exactly the expendable trails |
| `TrailStores.TrailStore.PublishTrail` | crates/zmem-store/src/lib.rs:1184-1345 | The insert loops give the specified tables, or leave the store untouched when a key is broken |
| `TrailStores.TrailStore.QueryTrailEntries` | crates/zmem-store/src/lib.rs:1610-1649 | Returns exactly the rows of the trail that are valid, or all when invalid ones are asked for, each once, ordered by membership position and annotation index |
| `TrailStores.TrailStore.TrailCohorts` | crates/zmem-store/src/lib.rs:1903-1930 | Lists every trail once with its size and its referenced and protected flags |
| `TrailStores.TrailStore.LooseCohorts` | crates/zmem-store/src/lib.rs:1889-1901 | Lists exactly the commits outside all trails that have entries, each once with its size |
| `TrailStores.TrailStore.FinalizeStore` | crates/zmem-svc/src/lib.rs:496-534 | Evicts exactly the prescribed trails and commits and reports over capacity as specified; an alias to a missing trail changes nothing |
| `Diffs.CommitsBatch` | crates/zmem-core/src/lib.rs:1219-1271 | The nested token loops compute the specified parse, error for error |
| `Diffs.BatchRoundTrip` | crates/zmem-core/src/lib.rs:1219-1271 | For distinct OIDs, parsing a stream that lists changed commits under their headers and omits the others yields each commit's own changes in caller order |
| `Diffs.OutputRoundTrip` | crates/zmem-core/src/lib.rs:1217-1271 | The same on the characters of the NUL-terminated output |
| `Diffs.StreamMeans` | crates/zmem-core/src/lib.rs:1219-1308 | Parsing a listed stream gives, for each commit in caller order, one change per record, as its status says: a rename or copy moves the first path to the second, a deletion deletes its path, any other status changes it |
| `Diffs.BatchAcceptsExactly` | crates/zmem-core/src/lib.rs:1219-1271 | The batch parser succeeds with given changes if and only if the tokens are a stream of sections, in order, that lists those changes, followed by empty tokens |
| `Diffs.ChangedPaths` | crates/zmem-core/src/lib.rs:1274-1308 | The loop over the non-empty fields of one commit computes the specified parse, error for error |
| `Diffs.FieldsSplit` | crates/zmem-core/src/lib.rs:1274-1308 | Any fields are whole records followed by nothing, by one status, or by a status R or C and one path |
| `Diffs.FieldsParseExactly` | crates/zmem-core/src/lib.rs:1274-1308 | On such fields the single-commit parser gives the changes of the records if nothing follows them, and otherwise fails exactly for the path that is missing: the old one, the new one, or the changed one |
| `Diffs.SingleAgreesWithBatch` | crates/zmem-core/src/lib.rs:1274-1308 | On the records of one commit with non-empty paths the single-commit parser gives what the batch parser gives for that commit |
| `Text.SplitOfJoin` | crates/zmem-core/src/lib.rs:408 | Splitting undoes joining when no part holds the separator |
| `Text.JoinOfSplit` | crates/zmem-core/src/lib.rs:408 | Joining undoes splitting, and no part holds the separator |
| `Text.IntRoundTrip` | crates/zmem-core/src/lib.rs:425-426 | The decimal text of any 64-bit signed number parses back to it |
| `Text.IntParsesExactly` | crates/zmem-core/src/lib.rs:425-426 | Exactly these texts parse to a signed 64-bit number: its digits behind any zeros, after a minus sign if it is not positive, and otherwise also after a plus sign; a number out of range is refused |
| `Identity.ViewRoundTrip` | crates/zmem-core/src/lib.rs:406-455 | A view identity parses back to its usage if and only if the lower boundary holds no colon |
| `Identity.CodesIdentifyLimits` | crates/zmem-core/src/lib.rs:279-285 | Two limits share a code exactly if they are equal or both reach the largest signed value |
| `Identity.ParsedLimitsKeepTheirCode` | crates/zmem-core/src/lib.rs:267-285 | Exactly -1 and positive values are limits; a parsed limit has its value as its code, so parsed limits are told apart |
| `Identity.IdParts` | crates/zmem-core/src/lib.rs:335-346 | The colon-separated parts of a trail id are five fixed ones, those of the extension, two fixed ones, and those of the view |
| `Identity.TrailIdInjective` | crates/zmem-core/src/lib.rs:335-346 | Trail ids over colon-free heads and views of eight parts are equal only if every component is, even when extension identities contain colons |
| `Identity.PrefixSelectsLimits` | crates/zmem-store/src/lib.rs:891-902 | Among rows with the same other columns the id prefix selects exactly those with the requested limits |
| `Identity.FindTrail` | crates/zmem-store/src/lib.rs:891-902 | The lookup finds a trail exactly when one with the requested columns and limits exists, and returns the first by id |
| `Identity.IncrementalMeansCompleteSameLimits` | crates/zmem-core/src/lib.rs:457-464 | A view may be extended exactly when it was not truncated and used the same limits |
| `Identity.IncrementalExactly` | crates/zmem-core/src/lib.rs:457-464 | Of all texts, exactly those of eight colon-separated parts that start v1 and the codes of the two limits and have false as sixth part may be extended |
| `Attention.SelectAttention` | crates/zmem-core/src/lib.rs:487-527 | Fails exactly when the reserved nodes exceed the limit; otherwise takes the longest newest-first prefix that fits, oldest first, and reports exactly the bounds that cut it |
| `Attention.LongestIsUnique` | crates/zmem-core/src/lib.rs:487-527 | There is one longest prefix that fits |
| `Demand.ExpiryHolds` | crates/zmem-core/src/demand.rs:27-42 | After expiry, whatever was stored, samples are sorted, at least 60 s apart and within the last 3600 s, hence at most 60, so the final cut never removes one |
| `Demand.ExpiryKeepsLive` | crates/zmem-core/src/demand.rs:27-42 | On samples that observing produced, expiry keeps exactly the live ones |
| `Demand.AcceptedExactly` | crates/zmem-core/src/demand.rs:44-55 | An observation is accepted exactly when no live sample lies within the last minute |
| `Demand.TargetMeans` | crates/zmem-core/src/demand.rs:57-68 | Without two live samples beyond 500 there is no target; with two, there is one exactly when the ceiling exceeds the deepest, it is min(deepest + 500, ceiling), and it exceeds the deepest |
| `Demand.ObservationAddsOneDepth` | crates/zmem-core/src/demand.rs:44-68 | On samples that observing produced, an observation adds its depth to those the target looks at exactly when it is accepted and beyond 500, and changes nothing else about them |
| `Demand.OnlyDeeperMovesTheTarget` | crates/zmem-core/src/demand.rs:44-68 | Where two live samples already lie beyond 500, an observation moves the target only if it is accepted and deeper than all of them, and the target then leads that depth; observing a depth again leaves the target as it was |
| `Demand.RunHolds` | crates/zmem-core/src/demand.rs:27-55 | After any sequence of observations, with times that may go backwards, samples are spaced, recent and at most 60, and no depth exceeds those observed |
| `Demand.RepeatingADepthNeverRaisesTheTarget` | crates/zmem-core/src/demand.rs:57-68 | However often and with whatever clock depths up to d are observed, a target never exceeds min(d + 500, ceiling) |
| `Demand.RouteDemand.Expire` | crates/zmem-core/src/demand.rs:27-42 | The retain, sort, retain and drain steps give the specified samples, which are spaced, recent and at most 60 |
| `Demand.RouteDemand.Observe` | crates/zmem-core/src/demand.rs:44-55 | Appends the sample exactly when it is accepted, keeping the samples spaced, recent and at most 60 |
| `Demand.RouteDemand.TargetDepth` | crates/zmem-core/src/demand.rs:57-68 | The loop over deep samples computes the specified target |

## Left out

- SQLite itself, SQL text, schema migrations, and errors of reads: tables are values and queries are functions on them.
- Git, extension hosts, processes, deadlines, cancellation, the TCP protocol and the command line: I/O around the modelled logic. What they return enters as parameters.
- JSON encoding, hashing and fingerprints: byte sizes, identities and serialized keys are given values.
- Real clocks: every time is a parameter. Floating point: scores and factors are reals, so rounding is not captured.
- SQL LIKE: prefix matching is exact sequence prefix, without wildcards or case folding.
- Integer widths of byte and entry totals: sums are unbounded, so the saturating additions at the largest 64-bit value and overflow in SQL sums are not captured.
- Projection.ProjectionStore.ApplyRange: promises the result of the replay without a memo only for the safe arrival order; `MetaRange.MemoNeedsParentFirst` shows why. The rebuild flag and the anchor row are not modelled.
- The META `add` operator: it edits a column without recording an assignment, so resolution says nothing about it.
- Relationships and diagnostics: they are appended and read back by row order and do not depend on the modelled state.
- Conservation.LedgerConserved: asks that a staged batch names each commit once; `Conservation.RunBalancesExactly` says what happens otherwise.
- Prefix.PrefixRetained: asks that the head's session never stages onto or revives a retired row whose counter was kept; `Overclaims` says exactly when such a step is harmless.
- SessionRuns.SessionKeepsPrefix: asks that the row, once written, is neither retired nor deleted; `OverclaimRun.RetiredHeadOverclaims` shows why.
- StagingStores.StagingStore.PublishRaw: one publication is one transaction in the source and is modelled twice, on the staging tables here and on the trail tables in `TrailStores.TrailStore.PublishTrail`; a key of the trail tables that breaks, such as an entry on an unknown commit, enters here as an input.
- ServiceRuns.ServiceKeepsPrefix: a last turn's batch and its change to ready are one event, and other writers act between events.
- TrailStores.SelectEvictions: asks that no two rows share repository and id, which the primary keys of the rows give.
- Retention.SortedPrefixIsPlan: asks the same of its rows.
- EffectTargets.FullTargetsHit: asks for full OIDs, because what an abbreviation names may change as commits arrive; `EffectTargets.DecayScalesTheSole` and `EffectTargets.CancelZeroesTheSole` cover every prefix at the time of the action.
- DeclaredRanges.DeclaredRangeMeans: asks that no commit is listed twice, which the membership of a trail gives.
- JobOutcomes.WorkerOutcome: asks that the process does not stop between the worker's steps; `JobSafety.RestartShape` says what a restart makes of the job.
- JobOutcomes.QueuedMovesUp: asks the same, since a restart empties the queue.
- Sessions.PrefetchSession.Advance: takes the collected facts as an input that lists the commits asked for, in order; the wait for foreground work and the resolution of references are inputs too.
- JobCoordinators.JobCoordinator.AdmitJob: takes the drawn id as a parameter and promises the invariant when that id is unused; the 128 random bits behind it are not modelled.
- Identity.TrailIdInjective: asks for colon-free heads and views of eight parts, which Git OIDs and colon-free boundaries give.
- Timing fields of jobs, wake-ups, the route kept beside a job key, and the wait while yielding: they do not affect state.
- The prefetch worker's map of attempted revisions and the choice of demanded targets: only the admissions and turns they lead to are modelled.
- Byte accounting of the demand tracker, lane admission counters and host permits: counters without further structure.
- Preview, replacement and clearing of a projection, anchors, inspections and expansion caching: variants and lookups that would add only easy members.
