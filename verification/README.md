# Verified model of Betterer Ratings

Betterer Ratings collects ratings and id mappings for films and series from several providers,
keeps them in a SQLite queue, and submits them to the PMDB service. This project models its
stateful core in Dafny and proves what that core promises.

* **The MAL mapping repair tool** (`RepairPlan`, `RepairModel`, `RepairPreview`, `RepairApply`,
  `RepairResume`, `RepairRuns`). A reviewed plan says "title X should have MAL id B, not A". The preview shrinks
  the plan to the largest set of corrections that do not clash with anything outside the set, by a
  loop whose order does not matter. The repair deletes, creates and confirms remotely and commits
  locally in one transaction. Requests may fail anywhere, also with their effect but without an
  answer. Chains and swap cycles complete whenever all requests are answered, and a repair that
  stopped anywhere can be previewed again and finished with the same result; `RepairRuns` runs both
  until one run is applied, and one run whose requests are all answered is.
* **The submission queue** (`QueueKeys`, `QueueRows`, `QueueOrder`, `QueueProtocol`, `QueueDrain`,
  `QueueRowLaws`, `Settlement`, `LocalDatabase`, `RetryPolicy`, `Workers`, `MappingHandler`, `RatingHandler`,
  `EpisodeBatchHandler`, `WorkerRound`). `QueueProtocol` is the state machine of one queue table
  shared by all tasks: a step is one synchronous database call. It says exactly which steps keep
  the queue's invariant, and what a waiting task may rely on. The database object of
  `LocalDatabase` holds three such queues and a log of the steps taken on each; every claim, mark,
  upsert, hold and recovery is a step, so is the start of a call that needs a last check, and at
  every `await` other tasks take any steps whatever, recoveries and changing upserts of the claimed
  rows included. The handlers are proved to be runs of that machine: each claimed row is let go in
  exactly one step, with the outcome that the answers call for, and the worker ends with nothing in
  hand; in a calm run, where the others did no harm, each row goes straight out of flight and the
  queue is in order again. `QueueDrain` bounds how many steps the workers can take before no work
  is left.
* **Holds on MAL mappings** (`HarvestSave`, `MalSafety`). Whatever the interleaving on the mappings
  queue, no call for a MAL id is started, and none is declared sent, unless it is the one most
  recently validated for its title and no hold is in force. The group handler lets go of a mapping
  only after such a call or such a check, and starts no call twice. The save of a title is proved
  to be a run of the steps that this allows, in their real order.
* **Anime identity** (`Ids`, `FribbRows`, `FribbIndex`, `FribbLaws`, `MalEligibility`,
  `MalDecision`). The Fribb index decides like a scan of all rows; its decisions are stable under
  added data and injective up to one exception. A title is validated exactly when all sources agree
  on one id and the record of that id is the same work.
* **The IMDb episode archive** (`EpisodeLine`, `EpisodeCursor`, `EpisodeArchive`,
  `EpisodeIdentity`, `EpisodeCycle`). What the index writer writes is what the resumable reader
  delivers, once and in order; the cursor moves on exactly when nothing has to be tried again, and
  over any number of cycles every valid line it moved past was settled once and in order.
* **Two small algorithms**: the sliding-window limiter (`WindowLimiter`) and the selection of due
  titles (`DueTitles`).

Remaining modules are shared: `Wrappers`, `Titles`, `Decimal`, `Ranges`.

Where the code and its documentation disagree, the model follows the code: README.md:96-98 says
that the submitter claims the oldest due work across all queues, while the worker loop tries the
queues in a fixed order per worker. `Workers.OldestIsServedExactlyWhen` says when it does claim
the oldest.

## Properties that hold only under a condition

* The queue invariant (one holder per row, the claimed attempt count is the stored one, attempts
  within the budget, a submitted row shows the value that was sent) survives a step if and only if
  the step is harmless: it neither recovers a row a live worker holds nor changes a value that is
  being sent (`QueueProtocol.KeptExactlyByHarmlessSteps`). `RecoveredLiveRowGetsSecondHolder` and
  `ChangedValueCanStayUnsent` show what happens otherwise, from any state.
* A worker serves the oldest due row of all queues if and only if no queue later in its order has a
  due row that was fetched before the oldest due row of the first queue with work
  (`Workers.OldestIsServedExactlyWhen`); `Workers.YoungerWorkCanGoFirst` is a database where it
  does not.
* A handled episode batch reaches all its rows under all answers if and only if the tickets with a
  cached id carry the label of the first ticket
  (`EpisodeBatchHandler.OnlyAgreeingLabelsAreSafe`); with one label in the table they always do.
* A written index line is read back if and only if its score did not round to 0.0
  (`EpisodeLine.LineRoundTrip`).
* A MAL result blocks its title if and only if the evidence objects to it before any record is
  looked at, or the record of the chosen id speaks against it and the program is not stopped first;
  an outage never does (`MalDecision.FetchCandidateMalScore`).
* The episode cursor moves past its batch if and only if the cycle is not stopped, no series lookup failed, and
  no episode lookup did, that is, neither an answer of TMDB nor a cache row in use was a problem
  (`EpisodeCycle.RunEpisodeCycle`).
* Releasing a hold is safe if and only if the title was validated or has no unsent row
  (`MalSafety.ReleasingNeedsValidation`).
* Two titles share a matched MAL id only through an entry without TMDB id and with the same IMDb
  id (`FribbLaws.MatchesAreInjective`), and then they do (`FribbLaws.SharedImdbIdMatchesBoth`).

## Model

| member | source | states |
|---|---|---|
| RepairPlan.LoadPlan | scripts/repair_anime_mappings.py:77-96 | a plan is accepted exactly when every row is sound and no title occurs twice; then the corrections mirror the rows and are valid for the preview; otherwise the error is that of the first row at fault |
| RepairPlan.CanonicalIdMeans | scripts/repair_anime_mappings.py:87-90 | the loader's test on ids means: ASCII digits without a leading zero |
| RepairModel.CandidatesAre | scripts/repair_anime_mappings.py:134-168 | the first pass keeps exactly the corrections that nothing on their own title speaks against |
| RepairModel.VerdictMeans | scripts/repair_anime_mappings.py:134-168 | said of the rows, the metadata and the lookups themselves: a title has a reason of its own exactly when its metadata is missing or differs, else its local row is missing or has a third value, else it is in flight, else the lookups contradict each other, else somebody else holds the old id; otherwise its row names exactly its entries with the old id |
| RepairModel.ClashShrinks | scripts/repair_anime_mappings.py:174-184 | the conflict relation is monotone: a larger batch clashes with less |
| RepairModel.ReadyIsLargestStable | scripts/repair_anime_mappings.py:169-187 | there is one largest batch in which nothing conflicts with anything outside it |
| RepairModel.StableMeans | scripts/repair_anime_mappings.py:169-187 | a batch is stable exactly when each id will be free: no other candidate wants it, each local holder is in the batch and moves to another id, and each remote owner of an id to be created is in the batch and deletes it |
| RepairPreview.Preview | scripts/repair_anime_mappings.py:131-191 | the loops compute that largest batch; ready and blocked partition the plan; every ready title has reviewed metadata, a local row with the old or the new id that is not in flight, and a row that describes it; a blocked one has the first reason that applies, or is in conflict with titles outside the batch, which the conflict names |
| RepairPreview.Sort | scripts/repair_anime_mappings.py:134-168 | the first pass with cached reverse lookups judges every correction as without the cache |
| RepairPreview.Settle | scripts/repair_anime_mappings.py:169-187 | the removal loop ends with the greatest fixed point, whatever the iteration order |
| RepairPreview.Round | scripts/repair_anime_mappings.py:175-187 | one round only drops rows that belong to no stable batch; a round without a drop leaves a stable batch |
| RepairResume.ClassifyTruthful | scripts/repair_anime_mappings.py:150-168 | with truthful lookups the disagreement check never fires and a correction is judged by its own entries |
| RepairResume.SplitSurvives | scripts/repair_anime_mappings.py:131-252 | wherever a repair stopped, a fresh preview finds the same ready titles, with exactly what is left to delete and create |
| RepairResume.ProgressComposes | scripts/repair_anime_mappings.py:213-235 | interrupted attempts compose: the second one's progress is progress of the first |
| RepairResume.SameEnd | scripts/repair_anime_mappings.py:213-235 | finishing an interrupted repair leads to the remote ownership of an uninterrupted one |
| RepairResume.ResumedIsCompleted | scripts/repair_anime_mappings.py:131-235 | finishing an interrupted repair is finishing the first one: all its deletions, nothing but its creations, every id claimed |
| RepairResume.AttemptsAreProgress | scripts/repair_anime_mappings.py:131-235 | any number of attempts, each cut short anywhere, is progress of the first preview's repair |
| RepairResume.ResumeConfluence | scripts/repair_anime_mappings.py:131-252 | after any attempts the plan splits as at first, and finishing reaches the same remote ownership and the same local rows |
| RepairResume.RepeatingDoesNothing | scripts/repair_anime_mappings.py:131-252 | a preview after a finished repair has the same ready titles and nothing left to delete or create |
| RepairApply.PreviewIsSound | scripts/repair_anime_mappings.py:150-187 | a truthful preview names exactly the contributor's wrong entries, and every owner of an id to be created is in the batch and gives it up |
| RepairApply.OldOwnerGivesUp | scripts/repair_anime_mappings.py:179-184 | whoever owns an id that is still to be created is about to lose it |
| RepairApply.TargetIsFree | scripts/repair_anime_mappings.py:222-231 | for chains and cycles of any length, every create finds its target unowned once the deletions are done |
| RepairApply.RecheckLocal | scripts/repair_anime_mappings.py:207-212 | succeeds exactly when all local rows are as previewed |
| RepairApply.VerifyTargets | scripts/repair_anime_mappings.py:213-218 | all deletion targets are seen live before the first deletion, and a truthful preview always passes |
| RepairApply.DeleteAll | scripts/repair_anime_mappings.py:219-221 | only own entries named in the report leave; stopping anywhere leaves resumable progress |
| RepairApply.CreateOne | scripts/repair_anime_mappings.py:222-235 | whenever PMDB answers, it stops without a request exactly if somebody else owns the id; a creation that is not confirmed, or an old entry still there, stops it; otherwise the title owns its id with at most one new entry |
| RepairApply.CreateAll | scripts/repair_anime_mappings.py:222-235 | only own entries with a planned new id appear; on success the ids noted are exactly those of the new entries; for a trusted report it ends with every id claimed, or by a failing request |
| RepairApply.Commit | scripts/repair_anime_mappings.py:236-251 | all ready titles are committed and their MAL cache cleared, or nothing changes because a row is not what the preview saw |
| RepairApply.Apply | scripts/repair_anime_mappings.py:194-252 | refusals write nothing, and nothing is deleted while a planned target is not visible live; applied means every ready title was confirmed as an owner and the MAL cache of the ready titles is cleared; a trusted report whose requests are all answered ends applied; applied, it is completed and committed with the ids of the new entries, and stopped, which takes a failing request, it is resumable with the local table unchanged |
| RepairApply.RepairAchieves | scripts/repair_anime_mappings.py:194-252 | at the end each ready title owns its new id, each new id has one local title per media type, and exactly the contributor's entries with planned old ids are gone |
| RepairApply.RepairNotesIds | scripts/repair_anime_mappings.py:222-247 | a ready local row remembers the id of the entry created for its title, and none exactly when none was created |
| RepairRuns.RunOnce | scripts/repair_anime_mappings.py:255-285 | a preview and a repair either complete what was previewed and commit it, or leave progress of it and nothing changed locally; if the report is not refused and every request is answered, they complete it |
| RepairRuns.RunUntilApplied | scripts/repair_anime_mappings.py:131-297 | one run with all requests answered is enough for the repair to be applied, however the others were cut short; the end is the completed repair of the first preview: the ownership and the local rows of an uninterrupted run; before that nothing changes locally |
| QueueOrder.Ordered | src/betterer_ratings/infra/db/queue_claims.py:237-262 | ORDER BY with LIMIT: the first keys of the order, each once, and none left out that would come earlier |
| LocalDatabase.NextDue | src/betterer_ratings/infra/db/queue_claims.py:14-45 | the union of an oldest pending and an oldest retry row gives an oldest due row of the whole table, and nothing exactly when none is due |
| LocalDatabase.Db.ClaimRating | src/betterer_ratings/infra/db/queue_claims.py:9-58 | claims an oldest due rating and only that one; none exactly when none is due |
| LocalDatabase.Db.ClaimMapping | src/betterer_ratings/infra/db/queue_claims.py:61-112 | the same among the mappings without a hold and of a submittable type |
| LocalDatabase.Db.ClaimMappingGroup | src/betterer_ratings/infra/db/queue_claims.py:115-190 | claims exactly the due, eligible mappings of the title that owns an oldest one |
| LocalDatabase.Db.ClaimEpisodeBatch | src/betterer_ratings/infra/db/queue_claims.py:193-291 | claims the first due episodes, up to the clamped size, of the title and season that own an oldest due row |
| LocalDatabase.Db.DeferHeld | src/betterer_ratings/infra/db/anime_mapping_holds.py:35-51 | lets a claimed mapping pass exactly when its value is unchanged and nothing holds it; otherwise it goes back unless it is no longer in flight |
| LocalDatabase.Db.UpsertRating | src/betterer_ratings/infra/db/enrichment_upserts.py:89-164 | re-queues exactly when the row is new, changed, failed or waiting for a retry; then it starts over |
| LocalDatabase.Db.UpsertEpisode | src/betterer_ratings/infra/db/enrichment_upserts.py:167-302 | the same for episodes |
| LocalDatabase.Db.UpsertMapping | src/betterer_ratings/infra/db/enrichment_upserts.py:305-381 | the same for mappings; an IMDb id that is none is not stored |
| QueueRowLaws.UpsertedIsNeverStuck | src/betterer_ratings/infra/db/enrichment_upserts.py:125-165 | after an upsert a row is in flight, has got through, or can be claimed at some time, also one that had failed |
| QueueRowLaws.UpsertInFull | src/betterer_ratings/infra/db/enrichment_upserts.py:110-165 | a new, changed, failed or retry row can be claimed at once and starts over, any other only gets the fetch time; no other row changes |
| LocalDatabase.Db.RecoverInFlight | src/betterer_ratings/infra/db/queue_recovery.py:7-38 | exactly the rows in flight go back to retry, so none is left in flight |
| LocalDatabase.Db.RecoverStale | src/betterer_ratings/infra/db/queue_recovery.py:41-117 | exactly the rows in flight for at least the lease go back to retry and are counted, so a second call finds none |
| QueueRowLaws.LeaseRunsFromClaim | src/betterer_ratings/infra/db/queue_recovery.py:41-117 | a claimed row is stale from the moment the lease, and half a minute, have passed since its claim, and not before |
| QueueRowLaws.RetryIsDueFromItsTime | src/betterer_ratings/infra/db/queue_retry.py:6-27 | a retry can be claimed exactly from the booked time on |
| QueueRowLaws.PuttingBackUndoesClaim | src/betterer_ratings/infra/db/anime_mapping_holds.py:35-51 | putting a claimed row back leaves it as it was before its claim |
| LocalDatabase.Db.CountDue | src/betterer_ratings/infra/db/queue_metrics.py:38-57 | zero exactly when no row of the queue can be claimed; otherwise the pending rows and the retries that are due, each counted once |
| LocalDatabase.Db.NextDueQueueKind | src/betterer_ratings/infra/db/local_database_queue_mixin.py:86-119 | names a queue with an oldest due row, ties by priority; none exactly when no queue has due work |
| RetryPolicy.RetryDelayBounds | src/betterer_ratings/services/submit/retry_policy.py:42-47 | 5 seconds to 6 hours, not shorter after more attempts or for a longer hint |
| RetryPolicy.RetryDelayInRange | src/betterer_ratings/services/submit/retry_policy.py:42-47 | the bounds hold for any hint, also a missing or negative one |
| RetryPolicy.DelayDoubles | src/betterer_ratings/services/submit/retry_policy.py:42-47 | the delay starts at the hint and doubles with every attempt, up to 64 times the hint and to 6 hours |
| RetryPolicy.DelayIsBackoff | src/betterer_ratings/services/submit/retry_policy.py:42-47 | the delay for every hint and number of attempts: 30 seconds without a hint, at least 5, times 1 to 64, at most 6 hours |
| Workers.EveryQueueIsServed | src/betterer_ratings/services/submit/worker.py:9-25 | every worker tries every queue, and from three workers on each queue is somebody's first choice |
| Workers.OrderByShare | src/betterer_ratings/services/submit/worker.py:9-25 | the exact order in which each of several workers tries the queues |
| Workers.WorkersAreShared | src/betterer_ratings/services/submit/worker.py:9-25 | half the workers prefer mappings, three eighths ratings, the rest episodes |
| Workers.Turn | src/betterer_ratings/services/submit/worker.py:28-71 | takes one step, the claim, on the first queue in its order that has due work, and none exactly when no queue has any; the oldest row of all queues is there exactly if no later queue overtakes |
| Workers.OldestIsServedExactlyWhen | src/betterer_ratings/services/submit/worker.py:40-65 | for every database, worker and time: the first queue with work has the oldest due row of all queues if and only if no queue later in the order has a due row fetched before its oldest one |
| Workers.YoungerWorkCanGoFirst | src/betterer_ratings/services/submit/worker.py:40-65 | the witness: a first worker serves a mapping although a rating is the oldest due row |
| WorkerRound.Round | src/betterer_ratings/services/submit/worker.py:40-71 | a round idles exactly without due work; otherwise, under any answers and any steps of others, the table went by a run in which each claimed row was let go exactly once and with exactly the outcome its answers call for; unmatched mappings only after a checked call of their own; the worker has nothing in hand, and after a calm run the database is in order |
| Settlement.EachTicketResolvedOnce | src/betterer_ratings/services/submit/handler_mapping.py:8-76 | of a settled batch every row is let go at exactly one step of the run, where the table row turns into its outcome, within the budget; in a calm run straight out of flight, as it was claimed |
| MappingHandler.SubmitMapping | src/betterer_ratings/services/submit/handler_mapping.py:79-254 | the call is started exactly when the last check passes, and otherwise the mapping is put back; the table row gets one outcome, exactly the one the answers call for, and is out of flight; a retry is due after the delay that hint and attempts determine |
| MappingHandler.Preflight | src/betterer_ratings/services/submit/handler_mapping.py:28-56 | what the lookup shows is marked as sent in the table after a check at that very step, or put back under a hold; exactly the others stay open, with no call started |
| MappingHandler.SubmitMappingGroup | src/betterer_ratings/services/submit/handler_mapping.py:8-76 | under any answers and any steps of others, holds and re-validations included, the table goes by a run in which each claimed mapping is let go exactly once and for the right reason: put back without a call, sent because the lookup shows it and the check passes then, or anything else only after its one checked call; the worker ends with nothing in hand |
| RatingHandler.SubmitRating | src/betterer_ratings/services/submit/handler_rating.py:8-194 | the same for a rating, with exactly one outcome, the one the answers call for, at its exact time, a retry after the delay that hint and attempts determine; in a calm run a disowned item id never survives and another known id is never lost |
| EpisodeBatchHandler.OnlyAgreeingLabelsAreSafe | src/betterer_ratings/services/submit/handler_episode_batch.py:28-115 | no answers can make the handler miss a claimed row if and only if tickets with a cached id carry the first ticket's label |
| EpisodeBatchHandler.OneLabelAgrees | src/betterer_ratings/services/harvest/episodes.py:118-125 | with one label in the table every batch satisfies that |
| EpisodeBatchHandler.DeletePhase | src/betterer_ratings/services/submit/handler_episode_batch.py:36-112 | exactly the tickets without a failed delete remain open; with agreeing labels the rows of the others are put off by their own answer |
| EpisodeBatchHandler.SubmitEpisodeBatch | src/betterer_ratings/services/submit/handler_episode_batch.py:25-286 | no row is marked but those the phases are meant to; with agreeing labels the table goes, under any steps of others, by a run in which each claimed row gets exactly the one outcome its own answers call for, a retry after the delay that hint and attempts determine, and the worker ends with nothing in hand |
| QueueProtocol.KeptExactlyByHarmlessSteps | src/betterer_ratings/infra/db/queue_claims.py:9-291 | the queue invariant survives a step if and only if it neither recovers a held row nor changes a value being sent |
| QueueProtocol.HarmlessRunsKeepInv | src/betterer_ratings/services/submit/runner.py:278-325 | over every interleaving of such steps from startup: one holder per row, attempts as claimed and within the budget, submitted rows show the value sent |
| QueueProtocol.OthersDoNotDisturb | src/betterer_ratings/services/submit/handler_mapping.py:27 | while a handler waits, its rows change in nothing but the fetch time |
| QueueProtocol.YoungLeasesAreNotRecovered | src/betterer_ratings/services/submit/lease_recovery.py:17-34 | the lease loop is harmless while no live worker has held a row for a whole lease |
| QueueProtocol.RecoveredLiveRowGetsSecondHolder | src/betterer_ratings/infra/db/queue_recovery.py:76-114 | recovering a held row lets any idle worker claim it too |
| QueueProtocol.ChangedValueCanStayUnsent | src/betterer_ratings/infra/db/enrichment_upserts.py:138-152 | after a changing upsert the holder's mark makes an unsent value submitted |
| QueueDrain.StepUsesPotential | src/betterer_ratings/infra/db/queue_retry.py:6-89 | every claim and every outcome strictly lowers a measure built from the remaining attempts |
| QueueDrain.RunsAreBounded | src/betterer_ratings/services/submit/handler_mapping.py:186-254 | without new upserts, holds and recoveries the number of claims and outcomes is bounded by that measure |
| QueueProtocol.NoOrphansKept | src/betterer_ratings/services/submit/runner.py:289-325 | every row in flight keeps having a holder |
| QueueDrain.IdleMeansDone | src/betterer_ratings/services/submit/worker.py:40-71 | when no claim and no outcome is possible at any time, every row is submitted, failed, or waits under a hold |
| HarvestSave.UpdateMalHold | src/betterer_ratings/infra/db/anime_mapping_holds.py:17-32 | a validation releases, a refusal holds, an outage changes nothing; a release needs the validated id to be stored before |
| HarvestSave.SaveMappings | src/betterer_ratings/infra/db/enrichment_save.py:75-96 | every supported mapping of the title is stored, nothing else changes, and it is a run of allowed steps |
| HarvestSave.SaveCandidate | src/betterer_ratings/services/harvest/enrichment.py:34-86 | AniList and AniDB ids are never queued, a MAL id only when validated, any other supported mapping is stored; the save is a run of steps the safety of MAL ids allows: a refusal is held before any write, a hold released only after the validated id is stored |
| HarvestSave.DecideAndSave | src/betterer_ratings/services/harvest/cycle_mdblist_phase.py:61-90 | a validated title ends with its id stored and no hold, a refuted or disputed one with a hold, and an outage or a stop leaves the holds alone |
| HarvestSave.MigrateHolds | src/betterer_ratings/infra/db/schema_repo.py:322-328 | exactly the unsent MAL mappings are held |
| HarvestSave.OpenMigrated | src/betterer_ratings/infra/db/schema_repo.py:313-328 | the database opened after the migration is a state from which the safety of MAL ids is proved |
| HarvestSave.SecondUpsertQueuesNothing | src/betterer_ratings/infra/db/enrichment_upserts.py:138-164 | repeating an upsert only refreshes the fetch time |
| MalSafety.MigratedIsSafe | src/betterer_ratings/infra/db/schema_repo.py:313-328 | the migrated database satisfies the safety invariant, with any history |
| MalSafety.StepKeepsSafe | src/betterer_ratings/infra/db/anime_mapping_holds.py:7-51 | every allowed step of harvester, workers and recovery keeps it |
| MalSafety.WorkersAreAllowed | src/betterer_ratings/services/submit/handler_mapping.py:8-254 | whatever workers, lease recovery and shutdown do is allowed and validates nothing |
| MalSafety.OnlyValidatedIdsAreSubmitted | src/betterer_ratings/services/submit/handler_mapping.py:18-107 | at every step of every run that starts a call for a mapping, or declares one sent on a check, no hold is in force, a MAL id is the most recently validated one of its title, and it is no AniList or AniDB id |
| MalSafety.HandlerSubmitsOnlyValidated | src/betterer_ratings/services/submit/handler_mapping.py:8-107 | whatever the group handler lets go of other than by putting it back, it had started a call for, or found at PMDB at that very step, while the id was the validated one and under no hold |
| MalSafety.NoCallIsRepeated | src/betterer_ratings/services/submit/handler_mapping.py:28-107 | no mapping of a group is called for twice, none that the lookup shows is called for, and none is put back after its call |
| MalSafety.ReleasingNeedsValidation | src/betterer_ratings/services/harvest/enrichment.py:62-86 | releasing a hold keeps that safe exactly when the title was validated or has no unsent row |
| MalEligibility.NoObjectionMeansSameWork | src/betterer_ratings/services/harvest/mal.py:48-77 | the checks pass exactly when title, format, scope, episode count and dates agree |
| MalEligibility.ObjectionIsFirstMisfit | src/betterer_ratings/services/harvest/mal.py:48-77 | each reason against a record stands for the first of its checks that fails |
| MalDecision.CanonicalEquatesNumbers | src/betterer_ratings/services/harvest/mal.py:106-108 | two spellings of a positive id count as the same exactly when they are the same number |
| MalDecision.Gather | src/betterer_ratings/services/harvest/mal.py:144-199 | goes on exactly when nothing is disputed and all sources name at most one id; then the candidates are what the sources name |
| MalDecision.Choose | src/betterer_ratings/services/harvest/mal.py:139-227 | yields an id only if it is the one agreed on, and none only if there is none; a refusal blocks the title exactly when the evidence objects |
| MalDecision.Validate | src/betterer_ratings/services/harvest/mal.py:231-260 | accepts exactly when the answer that counts is the record of that id and the same work; blocks exactly when that answer speaks against the id, so not for an outage; the outcome is what that answer amounts to, case by case |
| MalDecision.Confirm | src/betterer_ratings/services/harvest/mal.py:262-281 | validates exactly a well-formed id whose record is accepted; proposes a correction exactly when a source named the id, it was definitively rejected and not by Jikan alone, and the search matched another id whose own record is accepted, before any stop; otherwise the outcome is what the record amounts to |
| MalDecision.FetchCandidateMalScore | src/betterer_ratings/services/harvest/mal.py:92-281 | validated if and only if all sources agree on one id that its record confirms; the candidates are exactly the evidence, in order, and then all name that id; another id is proposed if and only if a source named the rejected one and the search offers an accepted other; blocking if and only if the evidence or the record objects; and in every case the outcome is the first thing in the way |
| MalDecision.AgreedIsUnique | src/betterer_ratings/services/harvest/mal.py:202-218 | there is at most one agreed id |
| Ids.NormalizingIsStable | src/betterer_ratings/core/ids.py:15-21 | normalising keeps exactly the title ids as they are, and is idempotent |
| FribbRows.ReadTmdbIds | src/betterer_ratings/services/harvest/fribb_mappings.py:69-78 | the loop collects exactly the usable ids, and notices every unusable one |
| FribbRows.PlainRowReadsBack | src/betterer_ratings/services/harvest/fribb_mappings.py:55-111 | a plain row for a film or a one-season series is read as a whole title with exactly its ids |
| FribbRows.ReadRow | src/betterer_ratings/services/harvest/fribb_mappings.py:55-111 | the loops over a row give its entry, part by part, and the entry is a whole title exactly when the row says so |
| FribbRows.WholeTitleMeans | src/betterer_ratings/services/harvest/fribb_mappings.py:55-111 | said of the fields: at most one id of each kind and every one usable, TMDB ids of the own kind only, a MAL id, and for a series nothing but first seasons, TMDB's among them if it has a TMDB id, and no offset other than zero |
| FribbRows.PositiveIdMeans | src/betterer_ratings/services/harvest/fribb_mappings.py:27-32 | an id is a positive whole number, written as a number or in digits, in its shortest form |
| FribbRows.MediaMeans | src/betterer_ratings/services/harvest/fribb_mappings.py:55-58 | a film or a series by the format alone, whatever the case of its letters |
| FribbIndexes.FribbIndex.constructor | src/betterer_ratings/services/harvest/fribb_mappings.py:51-120 | the index files every entry under all its anchors and identities, and nothing else; it counts exactly the rows with a usable entry |
| FribbIndexes.FribbIndex.IndexDecidesLikeScan | src/betterer_ratings/services/harvest/fribb_mappings.py:128-158 | the indexed decision is the one a scan of all entries prescribes |
| FribbIndexes.RightIsUnique | src/betterer_ratings/services/harvest/fribb_mappings.py:128-158 | the scan prescribes exactly one decision |
| FribbLaws.OrderAndRepetitionDoNotMatter | src/betterer_ratings/services/harvest/fribb_mappings.py:51-158 | reordering or repeating rows never changes a decision |
| FribbLaws.MoreRowsOnlyAddConflict | src/betterer_ratings/services/harvest/fribb_mappings.py:141-158 | added rows turn a match into the same match or a conflict, and a conflict stays one |
| FribbLaws.MatchNamesOneId | src/betterer_ratings/services/harvest/fribb_mappings.py:135-158 | a match names exactly one MAL id |
| FribbLaws.MatchesAreInjective | src/betterer_ratings/services/harvest/fribb_mappings.py:94-158 | two titles share a matched id only through an entry without TMDB id and with the same IMDb id |
| FribbLaws.SharedImdbIdMatchesBoth | src/betterer_ratings/services/harvest/fribb_mappings.py:131-158 | and through such an entry they do share it |
| EpisodeLine.LineRoundTrip | src/betterer_ratings/services/harvest/imdb_index_build_episode.py:276-284 | reading a written line gives back ids, season, episode, votes and score, exactly when the score is at least 0.1 |
| EpisodeLine.ValidMeans | src/betterer_ratings/services/harvest/imdb_index_io.py:170-205 | a line is valid exactly with six fields of which two are title ids, three are whole numbers in range and the last a positive score; the entry is what they say |
| EpisodeLine.SeparatedNumber | src/betterer_ratings/services/harvest/imdb_index_io.py:178-180 | a number may have single underscores between its digits and no double ones |
| EpisodeCursor.LineIsWhole | src/betterer_ratings/services/harvest/imdb_index_io.py:159-166 | a line goes to the first line feed, carriage return, or both, or to the end of the file |
| EpisodeCursor.ReadFrom | src/betterer_ratings/services/harvest/imdb_index_io.py:161-225 | the batch is what lies between the two positions, within the row and title limits, as long as they allow, and at least one line unless at the end |
| EpisodeCursor.ReadBatch | src/betterer_ratings/services/harvest/imdb_index_io.py:114-229 | the same from the stored cursor, with the line count, and exhausted as the code reports it |
| EpisodeArchive.ReadAndCommit | src/betterer_ratings/services/harvest/imdb_index_io.py:20-32 | with a consistent archive, exhausted is reported exactly when all lines are consumed, and the archive stays consistent |
| EpisodeArchive.ReadNext | src/betterer_ratings/services/harvest/imdb_index_io.py:114-229 | the batch is what lies between the stored cursor and the one to be committed, which fits the file and is further on unless the scan is exhausted |
| EpisodeArchive.ReadAll | src/betterer_ratings/services/harvest/imdb_index_io.py:114-229 | repeated reading delivers every valid line exactly once and in order, for any batch sizes |
| EpisodeArchive.WriteIndex | src/betterer_ratings/services/harvest/imdb_index_build_episode.py:257-284 | the file has one line per row, and its entries are the rows |
| EpisodeArchive.WrittenRowsComeBack | src/betterer_ratings/services/harvest/imdb_index_build_episode.py:257-293 | written rows come back from the reader exactly once and in order |
| EpisodeIdentity.Verify | src/betterer_ratings/services/harvest/episode_identity.py:38-87 | in any order of the workers every processed entry has the one verdict its source gives: verified exactly for the season and episode that a single complete row of this very title names, rejected exactly without an id or by a definitive answer that names no episode of the title, failed otherwise; a source is its own answer, asked for only when no cache row holds, or a cache row not yet due that was there or remembers an answer for that id; no cache row is lost and every answer asked for is remembered; without a stop all entries are processed |
| EpisodeIdentity.RememberedMeans | src/betterer_ratings/services/harvest/episode_identity.py:56-76 | the cache row of an answer: retryable exactly for a problem, with the coordinates exactly of a single complete row, due after five minutes, a week or a day |
| EpisodeIdentity.FailedExactlyWhen | src/betterer_ratings/services/harvest/episode_identity.py:54-80 | no lookup failed exactly when no answer was a problem and no cache row in use says so |
| EpisodeIdentity.CoordinatesAreUnambiguous | src/betterer_ratings/services/harvest/episode_identity.py:12-24 | coordinates come from exactly one complete row, with everything counting from one |
| EpisodeIdentity.UniqueSlots | src/betterer_ratings/services/harvest/episode_identity.py:88-92 | one entry per slot, exactly for the slots all of whose entries are one episode |
| EpisodeIdentity.VerifyEpisodeIdentities | src/betterer_ratings/services/harvest/episode_identity.py:27-94 | unique + failures + skipped is the number processed, without a stop that of all entries; failures are exactly the failed lookups; the slots are unique; only entries that TMDB knows as an episode of this very title are in the result, and each is represented or contests its slot; every old cache row stays or is replaced by an answer, and every answer asked for is in the cache |
| EpisodeCycle.SaveEpisodes | src/betterer_ratings/infra/db/enrichment_save.py:100-151 | exactly one upsert for each saveable entry, at its slot with its score in tenths, and no other step; afterwards each row is what that one upsert leaves; the count is of those queued anew; every other row is as it was |
| EpisodeCycle.QueuedAsWritten | src/betterer_ratings/core/scoring.py:38-58 | the score an index row was written with is the value that is queued, cut off at 100.0 |
| EpisodeCycle.MapParents | src/betterer_ratings/services/harvest/imdb_mapping_async.py:10-96 | without a stop exactly the series with a title are mapped, those without one and those whose lookup failed are counted |
| EpisodeCycle.HandleTitle | src/betterer_ratings/services/harvest/episodes.py:102-125 | every entry of the title is rejected, saved with its score, contests its slot, or its own lookup failed, and the last exactly when a failure is counted; only entries that TMDB knows as an episode of this very title are upserted, at the place it names, and no other row changes |
| EpisodeCycle.RunEpisodeCycle | src/betterer_ratings/services/harvest/episodes.py:65-136 | the cursor moves exactly when the cycle is not stopped and no lookup failed for a passing reason, and then to the end of the batch, from a consistent archive with the scan exhausted exactly at the end of the file, and every entry of the batch is settled; otherwise it stays; what is upserted is exactly what was saved of verified entries, it is in the table at the end, and no other row changes |
| EpisodeCycle.RunCycles | src/betterer_ratings/services/harvest/episodes.py:65-136 | over any number of cycles, stopped and failing ones included, the batches the cursor moved past hold every valid line behind it exactly once and in order, each settled in its cycle, the whole rest of the file when exhausted; each move gains at least a line; each cycle begins with the cache of the one before, and exactly what the cycles saved was upserted |
| EpisodeCycle.NoProblemNoFailure | src/betterer_ratings/services/harvest/episodes.py:94-130 | without a problem among the answers, now or remembered, no lookup counts as failed |
| WindowLimiter.Limiter.TryAcquire | src/betterer_ratings/infra/rate_limit/limiter.py:18-30 | a grant comes exactly when fewer than `max` grants are younger than a period; grants stay spaced, and the wait lasts until the oldest young one is not |
| WindowLimiter.Limiter.Acquire | src/betterer_ratings/infra/rate_limit/limiter.py:18-32 | with any other acquirers in between: a free limiter grants at once, and between two refusals of a caller somebody else was granted |
| WindowLimiter.AtMostMaxPerWindow | src/betterer_ratings/infra/rate_limit/limiter.py:18-32 | no half-open window of one period holds more than `max` grants |
| DueTitles.SelectDueTitles | src/betterer_ratings/infra/db/provider_state.py:93-101 | min(limit, rows) distinct titles, a prefix of each class, and at least a quarter of the places for new titles as far as there are any |

## Left out

- RepairApply.Apply: the main clauses assume truthful lookups and no other writer, as the tool demands by `--service-stopped`; without them only the refusals and the limits on what is deleted and created are stated. The backup copy and the journal are not modelled. PMDB is assumed to delete only entries of the own account and to refuse an id that is owned.
- RepairResume.ResumeConfluence: entries that are created again get other ids, so equality is up to the numbering of remote entries, the remembered item id and the time of the commit.
- RepairPreview.Preview: the lists of local and remote owners inside a conflict depend on the iteration order and are not stated.
- QueueProtocol.KeptExactlyByHarmlessSteps: a handler that dies from an exception is covered only by the shutdown that follows; the daily counters kept with each mark are not modelled.
- LocalDatabase.Db.ClaimRating: rows fetched in the same second are taken in insertion order; the SQL of the two single claims leaves their order open.
- LocalDatabase.Db.UpsertRating: scores are whole tenths; a positive score below 0.05 is stored as 0.0 and then always counts as changed, which this model does not show. The IMDb ids and votes stored with an episode are left out.
- WorkerRound.Round: while a handler waits, the other tasks are shown only on the queue it works on; the other two stay as they are.
- RatingHandler.SubmitRating: a rating and an episode are sent without a last check, so the start of their calls is no step of the machine; what their calls carry is the claimed value.
- EpisodeBatchHandler.SubmitEpisodeBatch: stored item ids are taken as already trimmed; the error texts are those of the answers, not the formatted payloads.
- WindowLimiter.Limiter.Acquire: the endless loop is cut after a number of rounds; that a caller is granted at all depends on the others, so what is stated is that every refusal after the first had a grant of somebody else before it. Locks, and pauses of the service gate around the limiter, are not modelled.
- EpisodeLine.LineRoundTrip: other spellings of floating-point numbers than plain decimals (exponents, infinities, underscores) are taken as unreadable by this model.
- EpisodeArchive.ReadAndCommit: the three state writes of a commit count as one step. Positions count characters, as in an ASCII file.
- EpisodeCycle.RunEpisodeCycle: rebuilding the index and restarting an exhausted scan after its time to live are left out; so are logging and statistics, and what the submission workers do to the episode queue in the meantime. When two series have the same title, the value of a slot is that of one of them. In repeated cycles the index file stays the same.
- HarvestSave.DecideAndSave: replaying a cached result instead of asking again is left out.
- MalDecision.FetchCandidateMalScore: titles are comparison keys and dates full ISO dates, so Unicode folding and date parsing are left out; the score arrives in tenths. Resolvers without `resolve_decision` are left out.
- FribbRows.ReadRow: upper-casing and trimming are those of ASCII text; the order of ids in a decision is left out.
- DueTitles.SelectDueTitles: the rows arrive in priority order; the SQL that ranks them by gaps is left out.
- The decoding of HTTP answers, SQL text and indexes, file downloads and caches, configuration, alerts, the dashboard, exports, TMDB scans, the Dins supplements and the title index of the archive: these are mostly one-step conversions, and their results are inputs here.
