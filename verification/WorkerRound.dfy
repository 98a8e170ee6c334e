/** A whole round of a submission worker: claim some work, submit it, and be done with it. */
module WorkerRound {
  import opened Wrappers
  import opened LocalDatabase
  import opened QueueKeys
  import opened QueueProtocol
  import opened QueueRows
  import opened Settlement
  import opened Workers
  import EpisodeBatchHandler
  import MappingHandler
  import RatingHandler

  /** What PMDB answers in this round, whichever queue is served. */
  datatype Answers = Answers(
    mappings: MappingHandler.Answers, rating: MappingHandler.SubmitResult, ratingConfirmed: bool, ratingAt: int,
    episodes: EpisodeBatchHandler.Answers)

  /**
   From `before` to `after` a queue took a run of steps in which the worker let go of every
   ticket at exactly one step.  If the queue was in order and nobody did harm, it is in order
   again, and each row went straight out of flight into its outcome.
   */
  ghost predicate EachResolvedOnce<K(!new), V>(
    before: State<K, V>, after: State<K, V>, steps: seq<Step<K, V>>, worker: nat, batch: seq<Ticket<K, V>>,
    maxAttempts: int)
  {
    var calm := Calm(before, steps, maxAttempts);
    && Went(before, steps, after, maxAttempts) && (calm ==> InOrder(after, maxAttempts))
    && forall t <- batch ::
         exists p :: ResolvesAt(before, steps, p, worker, t, calm, maxAttempts) && OnlyAt(steps, p, worker, t.key)
  }

  ghost predicate MappingsSettled(
    before: MappingHandler.MState, after: MappingHandler.MState, steps: seq<MappingHandler.MStep>, worker: nat,
    group: seq<MappingHandler.MTicket>, a: MappingHandler.Answers, maxAttempts: int)
  {
    && EachResolvedOnce(before, after, steps, worker, group, maxAttempts)
    && MappingHandler.Deserved(MarksBy(before, steps, worker), group, a, maxAttempts)
    && MappingHandler.Job(worker, group, a, maxAttempts, before).Checked(steps)
  }

  ghost predicate RatingSettled(
    before: RatingHandler.RState, after: RatingHandler.RState, steps: seq<Step<RatingKey, int>>, worker: nat,
    t: RatingHandler.RTicket, a: Answers, maxAttempts: int)
  {
    && EachResolvedOnce(before, after, steps, worker, [t], maxAttempts)
    && exists m :: MarksBy(before, steps, worker) == [m]
                   && RatingHandler.Justified(
                        t, m.outcome, a.rating, a.ratingConfirmed, a.mappings.verifyStatuses, maxAttempts, a.ratingAt)
  }

  ghost predicate EpisodesSettled(
    before: EpisodeBatchHandler.EState, after: EpisodeBatchHandler.EState, steps: seq<EpisodeBatchHandler.EStep>,
    worker: nat, batch: seq<EpisodeBatchHandler.ETicket>, a: EpisodeBatchHandler.Answers, maxAttempts: int)
  {
    && EachResolvedOnce(before, after, steps, worker, batch, maxAttempts)
    && EpisodeBatchHandler.Deserved(MarksBy(before, steps, worker), batch, a, maxAttempts)
  }

  /**
   The work a round took on is done: every row let go once, with the outcome the answers call
   for, mappings only after their checks; for episodes as far as the table knows only one label.
   */
  ghost predicate Settled(before: Queues, after: Queues, worker: nat, work: Work, a: Answers, maxAttempts: int) {
    match work
    case Mappings(group) =>
      && before.mappingSteps <= after.mappingSteps
      && MappingsSettled(
           before.mappings, after.mappings, after.mappingSteps[|before.mappingSteps|..], worker, group, a.mappings,
           maxAttempts)
    case Rating(t) =>
      && before.ratingSteps <= after.ratingSteps
      && RatingSettled(
           before.ratings, after.ratings, after.ratingSteps[|before.ratingSteps|..], worker, t, a, maxAttempts)
    case Episodes(batch) =>
      && before.episodeSteps <= after.episodeSteps
      && (OneLabel(before) ==>
            EpisodesSettled(
              before.episodes, after.episodes, after.episodeSteps[|before.episodeSteps|..], worker, batch, a.episodes,
              maxAttempts))
  }

  ghost predicate OneLabel(q: Queues) {
    EpisodeBatchHandler.OneLabel(q.episodes.rows.Keys)
  }

  lemma {:induction false} MarksOfParts<K(!new), V>(
    s: State<K, V>, a: seq<Step<K, V>>, b: seq<Step<K, V>>, worker: nat)
    ensures End(s, a + b) == End(End(s, a), b)
    ensures MarksBy(s, a + b, worker) == MarksBy(s, a, worker) + MarksBy(End(s, a), b, worker)
  {
    hide Next, MarkOf;
    if b == [] {
      assert a + b == a;
    } else {
      var init, last := b[..|b| - 1], b[|b| - 1];
      MarksOfParts(s, a, init, worker);
      assert (a + b)[..|a + b| - 1] == a + init;
    }
  }

  /** What a claim leaves: the one step, and rows that are there. */
  ghost predicate JustClaimed<K(!new), V>(
    before: State<K, V>, now: State<K, V>, claim: Step<K, V>, batch: seq<Ticket<K, V>>, maxAttempts: int)
  {
    && claim.Claim? && Enabled(before, claim, maxAttempts) && now == Next(before, claim) && DistinctKeys(batch)
    && (forall t <- batch :: t.key in before.rows) && now.rows.Keys == before.rows.Keys
  }

  /** A claim followed by a run that settles what was claimed. */
  lemma ClaimedAndSettled<K(!new), V>(
    before: State<K, V>, claimed: State<K, V>, claim: Step<K, V>, steps: seq<Step<K, V>>, after: State<K, V>,
    worker: nat, batch: seq<Ticket<K, V>>, maxAttempts: int)
    requires JustClaimed(before, claimed, claim, batch, maxAttempts)
    requires HandledAll(claimed, after, steps, worker, batch, maxAttempts)
    ensures EachResolvedOnce(before, after, [claim] + steps, worker, batch, maxAttempts)
    ensures MarksBy(before, [claim] + steps, worker) == MarksBy(claimed, steps, worker)
  {
    var all := [claim] + steps;
    OneStep(before, claim, worker);
    StandsStill(before, maxAttempts);
    GoesOn(before, [], before, claim, maxAttempts);
    assert [] + [claim] == [claim] && Harmless(before, claim);
    hide SettlesOnce, InOrder, Next, MarksBy, ResolvesAt, OnlyAt, AllHarmless, Enabled, Harmless, Straight;
    RunsJoin(before, [claim], claimed, steps, after, maxAttempts);
    MarksOfParts(before, [claim], steps, worker);
    assert [] + MarksBy(claimed, steps, worker) == MarksBy(claimed, steps, worker);
    if Calm(before, all, maxAttempts) {
      InOrderKept(before, claim, maxAttempts);
    }
    EachTicketResolvedOnce(before, all, worker, batch, maxAttempts);
    ResolvedIfCalm(before, all, worker, batch, maxAttempts);
  }

  lemma OneStep<K(!new), V>(s: State<K, V>, step: Step<K, V>, worker: nat)
    requires !step.Resolve?
    ensures End(s, [step]) == Next(s, step) && MarksBy(s, [step], worker) == []
  {
    assert [step][..0] == [];
  }

  lemma ResolvedIfCalm<K(!new), V>(
    s: State<K, V>, steps: seq<Step<K, V>>, worker: nat, batch: seq<Ticket<K, V>>, maxAttempts: int)
    requires var straight := Straight(MarksBy(s, steps, worker), batch);
             && (Calm(s, steps, maxAttempts) ==> straight)
             && forall t <- batch ::
                  exists p :: ResolvesAt(s, steps, p, worker, t, straight, maxAttempts)
                    && OnlyAt(steps, p, worker, t.key)
    ensures var calm := Calm(s, steps, maxAttempts);
            forall t <- batch ::
              exists p :: ResolvesAt(s, steps, p, worker, t, calm, maxAttempts) && OnlyAt(steps, p, worker, t.key)
  {
    hide Calm, Straight, OnlyAt, MarksBy;
    var straight := Straight(MarksBy(s, steps, worker), batch);
    forall t | t in batch
      ensures exists p :: ResolvesAt(s, steps, p, worker, t, Calm(s, steps, maxAttempts), maxAttempts)
                          && OnlyAt(steps, p, worker, t.key)
    {
      var p :| ResolvesAt(s, steps, p, worker, t, straight, maxAttempts) && OnlyAt(steps, p, worker, t.key);
      assert ResolvesAt(s, steps, p, worker, t, Calm(s, steps, maxAttempts), maxAttempts);
    }
  }

  /** The checks of a run count as well when the claim before it is looked at too. */
  lemma {:induction false} CheckedWithClaim(
    job: MappingHandler.Job, whole: MappingHandler.Job, claim: MappingHandler.MStep, steps: seq<MappingHandler.MStep>)
    requires claim.Claim? && job.Checked(steps) && job == whole.(start := Next(whole.start, claim))
    ensures whole.Checked([claim] + steps)
  {
    if steps == [] {
      assert [claim] + steps == [claim] && [claim][..0] == [];
    } else {
      var init, last := steps[..|steps| - 1], steps[|steps| - 1];
      CheckedWithClaim(job, whole, claim, init);
      OneStep(whole.start, claim, whole.worker);
      MarksOfParts(whole.start, [claim], init, whole.worker);
      assert job.Legit(init, last);
      hide *;
      LegitWithClaim(job, whole, claim, init, last);
      MappingHandler.OneMoreChecked(whole, [claim] + init, last);
      assert ([claim] + init) + [last] == [claim] + steps;
    }
  }

  lemma LegitWithClaim(
    job: MappingHandler.Job, whole: MappingHandler.Job, claim: MappingHandler.MStep,
    before: seq<MappingHandler.MStep>, step: MappingHandler.MStep)
    requires claim.Claim? && job.Legit(before, step) && job == whole.(start := job.start)
    requires End(whole.start, [claim] + before) == End(job.start, before)
    ensures whole.Legit([claim] + before, step)
  {
    SameMatches(job, whole);
    hide MappingHandler.Job.MatchedKey, Clear, End;
    assert forall other: MappingHandler.MStep :: !other.Claim? ==> (other in [claim] + before <==> other in before);
  }

  lemma SameMatches(job: MappingHandler.Job, whole: MappingHandler.Job)
    requires job.batch == whole.batch && job.a == whole.a
    ensures forall k :: job.MatchedKey(k) <==> whole.MatchedKey(k)
  {}

  /**
   One round under any answers and whatever others do: either no queue had due work, or
   everything that was claimed has been let go exactly once, as the answers call for, and nothing
   stays in the worker's hands; for episodes as long as the table knows only one label.
   */
  method Round(
    db: Db, worker: nat, workerCount: int, now: int, episodeBatchSize: int, a: Answers, maxAttempts: int)
    returns (work: Option<Work>)
    requires db.Valid() && db.Idle(worker)
    modifies db
    ensures db.Valid()
    ensures work.None? <==> old(forall k: QueueKind :: db.DueCount(k, now) == 0)
    ensures work.Some? ==> Takes(old(QueuesOf(db)), old(db.holds.Keys), work.value, now, episodeBatchSize)
    ensures work.Some? ==> Settled(old(QueuesOf(db)), QueuesOf(db), worker, work.value, a, maxAttempts)
    ensures (work.Some? && work.value.Episodes? ==> old(OneLabel(QueuesOf(db)))) ==> db.Idle(worker)
  {
    hide Took, Takes;
    work := Turn(db, worker, workerCount, now, episodeBatchSize, maxAttempts);
    if work.Some? {
      Serve(db, old(QueuesOf(db)), worker, now, work.value, a, maxAttempts);
    }
  }

  /** Work was claimed in one step since the queues were as in `before`, when the worker was idle. */
  ghost predicate Claimed(db: Db, before: Queues, worker: nat, work: Work, now: int, maxAttempts: int)
    reads db
  {
    && db.Valid() && Took(db, worker, work)
    && TookOneStep(before, QueuesOf(db), worker, work, now, maxAttempts)
    && before.ratings.Of(worker).Keys == {} && before.mappings.Of(worker).Keys == {}
    && before.episodes.Of(worker).Keys == {}
  }

  method Serve(
    db: Db, ghost before: Queues, worker: nat, now: int, work: Work, a: Answers, maxAttempts: int)
    requires Claimed(db, before, worker, work, now, maxAttempts)
    modifies db
    ensures db.Valid() && Settled(before, QueuesOf(db), worker, work, a, maxAttempts)
    ensures (work.Episodes? ==> OneLabel(before)) ==> db.Idle(worker)
  {
    hide Claimed, MappingsSettled, RatingSettled, EpisodesSettled, OneLabel;
    match work
    case Mappings(group) => ServeMappings(db, before, worker, now, group, a, maxAttempts);
    case Rating(t) => ServeRating(db, before, worker, now, t, a, maxAttempts);
    case Episodes(batch) => ServeEpisodes(db, before, worker, now, batch, a, maxAttempts);
  }

  lemma ClaimLeaves<K(!new), V>(
    before: State<K, V>, now: State<K, V>, worker: nat, keys: set<K>, at: int, batch: seq<Ticket<K, V>>,
    maxAttempts: int)
    requires Enabled(before, Claim(worker, keys, at), maxAttempts) && now == Next(before, Claim(worker, keys, at))
    requires InHand(now, worker, batch) && forall t <- batch :: t.key in now.rows
    ensures JustClaimed(before, now, Claim(worker, keys, at), batch, maxAttempts)
  {
    hide Enabled;
    ClaimKeepsKeys(before, worker, keys, at);
  }

  lemma LogSinceClaim<T>(before: seq<T>, log: seq<T>, after: seq<T>, claim: T)
    requires log == before + [claim] && log <= after
    ensures before <= after && after[|before|..] == [claim] + after[|log|..]
  {}

  method ServeMappings(
    db: Db, ghost before: Queues, worker: nat, ghost now: int, group: seq<Ticket<MappingKey, string>>, a: Answers,
    maxAttempts: int)
    requires Claimed(db, before, worker, Mappings(group), now, maxAttempts)
    modifies db
    ensures db.Valid() && db.Idle(worker)
    ensures before.mappingSteps <= db.mappingSteps
    ensures MappingsSettled(
              before.mappings, db.mappings, db.mappingSteps[|before.mappingSteps|..], worker, group, a.mappings,
              maxAttempts)
  {
    ghost var claim: Step<MappingKey, string> := Claim(worker, KeysOf(group), now);
    ghost var claimed, log := db.mappings, db.mappingSteps;
    hide Claimed, JustClaimed, InHand, HoldsShown, MappingsSettled, HandledAll, MarksBy, MappingHandler.Deserved;
    hide MappingHandler.Job.Checked;
    GroupClaimed(db, before, worker, group, now, maxAttempts);
    MappingHandler.SubmitMappingGroup(db, worker, group, a.mappings, maxAttempts);
    LogSinceClaim(before.mappingSteps, log, db.mappingSteps, claim);
    MappingsDone(
      before.mappings, claimed, db.mappings, claim, db.mappingSteps[|log|..], worker, group, a.mappings, maxAttempts);
  }

  lemma GroupClaimed(
    db: Db, before: Queues, worker: nat, group: seq<MappingHandler.MTicket>, now: int, maxAttempts: int)
    requires Claimed(db, before, worker, Mappings(group), now, maxAttempts)
    ensures JustClaimed(before.mappings, db.mappings, Claim(worker, KeysOf(group), now), group, maxAttempts)
    ensures db.mappingSteps == before.mappingSteps + [Claim(worker, KeysOf(group), now)]
    ensures db.Valid() && InHand(db.mappings, worker, group)
    ensures forall t <- group :: t.key in db.mappings.rows && !NeverSubmitted(t.key)
    ensures db.ratings.Of(worker).Keys == {} && db.episodes.Of(worker).Keys == {}
  {
    hide HoldsShown, Enabled;
    ClaimLeaves(before.mappings, db.mappings, worker, KeysOf(group), now, group, maxAttempts);
  }

  lemma MappingsDone(
    before: MappingHandler.MState, claimed: MappingHandler.MState, after: MappingHandler.MState,
    claim: MappingHandler.MStep, steps: seq<MappingHandler.MStep>, worker: nat, group: seq<MappingHandler.MTicket>,
    a: MappingHandler.Answers, maxAttempts: int)
    requires JustClaimed(before, claimed, claim, group, maxAttempts)
    requires HandledAll(claimed, after, steps, worker, group, maxAttempts)
    requires MappingHandler.Deserved(MarksBy(claimed, steps, worker), group, a, maxAttempts)
    requires MappingHandler.Job(worker, group, a, maxAttempts, claimed).Checked(steps)
    ensures MappingsSettled(before, after, [claim] + steps, worker, group, a, maxAttempts)
  {
    IsClaim(before, claimed, claim, group, maxAttempts);
    hide EachResolvedOnce, MarksBy, MappingHandler.Deserved, MappingHandler.Job.Checked, JustClaimed, HandledAll;
    ClaimedAndSettled(before, claimed, claim, steps, after, worker, group, maxAttempts);
    CheckedWithClaim(
      MappingHandler.Job(worker, group, a, maxAttempts, claimed),
      MappingHandler.Job(worker, group, a, maxAttempts, before), claim, steps);
  }

  lemma IsClaim<K(!new), V>(
    before: State<K, V>, now: State<K, V>, claim: Step<K, V>, batch: seq<Ticket<K, V>>, maxAttempts: int)
    requires JustClaimed(before, now, claim, batch, maxAttempts)
    ensures claim.Claim? && now == Next(before, claim)
  {}

  method ServeRating(
    db: Db, ghost before: Queues, worker: nat, ghost now: int, t: Ticket<RatingKey, int>, a: Answers, maxAttempts: int)
    requires Claimed(db, before, worker, Rating(t), now, maxAttempts)
    modifies db
    ensures db.Valid() && db.Idle(worker)
    ensures before.ratingSteps <= db.ratingSteps
    ensures RatingSettled(
              before.ratings, db.ratings, db.ratingSteps[|before.ratingSteps|..], worker, t, a, maxAttempts)
  {
    ghost var claim: Step<RatingKey, int> := Claim(worker, {t.key}, now);
    ghost var claimed, log := db.ratings, db.ratingSteps;
    hide Claimed, JustClaimed, InHand, HoldsShown, RatingSettled, HandledAll, MarksBy, RatingHandler.Justified, Calm;
    RatingClaimed(db, before, worker, t, now, maxAttempts);
    ghost var m := RatingHandler.SubmitRating(
      db, worker, t, a.rating, a.ratingConfirmed, a.mappings.verifyStatuses, maxAttempts, a.ratingAt);
    LogSinceClaim(before.ratingSteps, log, db.ratingSteps, claim);
    RatingDone(before.ratings, claimed, db.ratings, claim, db.ratingSteps[|log|..], worker, t, m, a, maxAttempts);
  }

  lemma RatingClaimed(
    db: Db, before: Queues, worker: nat, t: RatingHandler.RTicket, now: int, maxAttempts: int)
    requires Claimed(db, before, worker, Rating(t), now, maxAttempts)
    ensures JustClaimed(before.ratings, db.ratings, Claim(worker, {t.key}, now), [t], maxAttempts)
    ensures db.ratingSteps == before.ratingSteps + [Claim(worker, {t.key}, now)]
    ensures db.Valid() && InHand(db.ratings, worker, [t])
    ensures t.key in db.ratings.rows && db.ratings.rows[t.key].itemId == t.row.itemId
    ensures db.mappings.Of(worker).Keys == {} && db.episodes.Of(worker).Keys == {}
  {
    hide HoldsShown, Enabled;
    ClaimLeaves(before.ratings, db.ratings, worker, {t.key}, now, [t], maxAttempts);
  }

  lemma RatingDone(
    before: RatingHandler.RState, claimed: RatingHandler.RState, after: RatingHandler.RState,
    claim: Step<RatingKey, int>, steps: seq<Step<RatingKey, int>>, worker: nat, t: RatingHandler.RTicket,
    m: RatingHandler.RMark, a: Answers, maxAttempts: int)
    requires JustClaimed(before, claimed, claim, [t], maxAttempts)
    requires HandledAll(claimed, after, steps, worker, [t], maxAttempts)
    requires MarksBy(claimed, steps, worker) == [m]
    requires RatingHandler.Justified(
               t, m.outcome, a.rating, a.ratingConfirmed, a.mappings.verifyStatuses, maxAttempts, a.ratingAt)
    ensures RatingSettled(before, after, [claim] + steps, worker, t, a, maxAttempts)
  {
    hide EachResolvedOnce, MarksBy, RatingHandler.Justified, JustClaimed, HandledAll;
    ClaimedAndSettled(before, claimed, claim, steps, after, worker, [t], maxAttempts);
  }

  method ServeEpisodes(
    db: Db, ghost before: Queues, worker: nat, ghost now: int, batch: seq<Ticket<EpisodeKey, int>>, a: Answers,
    maxAttempts: int)
    requires Claimed(db, before, worker, Episodes(batch), now, maxAttempts)
    modifies db
    ensures db.Valid()
    ensures before.episodeSteps <= db.episodeSteps
    ensures OneLabel(before) ==>
              && db.Idle(worker)
              && EpisodesSettled(
                   before.episodes, db.episodes, db.episodeSteps[|before.episodeSteps|..], worker, batch, a.episodes,
                   maxAttempts)
  {
    ghost var claim: Step<EpisodeKey, int> := Claim(worker, KeysOf(batch), now);
    ghost var claimed, log := db.episodes, db.episodeSteps;
    hide Claimed, JustClaimed, InHand, HoldsShown, EpisodesSettled, HandledAll, MarksBy, OneLabel;
    hide EpisodeBatchHandler.Job.Bounded, EpisodeBatchHandler.Deserved, EpisodeBatchHandler.LabelsAgree;
    BatchClaimed(db, before, worker, batch, now, maxAttempts);
    EpisodeBatchHandler.SubmitEpisodeBatch(db, worker, batch, a.episodes, maxAttempts);
    LogSinceClaim(before.episodeSteps, log, db.episodeSteps, claim);
    if OneLabel(before) {
      EpisodesDone(
        before.episodes, claimed, db.episodes, claim, db.episodeSteps[|log|..], worker, batch, a.episodes, maxAttempts);
    }
  }

  lemma BatchClaimed(
    db: Db, before: Queues, worker: nat, batch: seq<EpisodeBatchHandler.ETicket>, now: int, maxAttempts: int)
    requires Claimed(db, before, worker, Episodes(batch), now, maxAttempts)
    ensures JustClaimed(before.episodes, db.episodes, Claim(worker, KeysOf(batch), now), batch, maxAttempts)
    ensures db.episodeSteps == before.episodeSteps + [Claim(worker, KeysOf(batch), now)]
    ensures db.Valid() && InHand(db.episodes, worker, batch) && forall t <- batch :: t.key in db.episodes.rows
    ensures db.ratings.Of(worker).Keys == {} && db.mappings.Of(worker).Keys == {}
    ensures OneLabel(before) ==> EpisodeBatchHandler.LabelsAgree(batch)
  {
    hide HoldsShown, Enabled;
    ClaimLeaves(before.episodes, db.episodes, worker, KeysOf(batch), now, batch, maxAttempts);
    if OneLabel(before) {
      LabelsOfBatch(before, db.episodes, batch);
    }
  }

  lemma EpisodesDone(
    before: EpisodeBatchHandler.EState, claimed: EpisodeBatchHandler.EState, after: EpisodeBatchHandler.EState,
    claim: EpisodeBatchHandler.EStep, steps: seq<EpisodeBatchHandler.EStep>, worker: nat,
    batch: seq<EpisodeBatchHandler.ETicket>, a: EpisodeBatchHandler.Answers, maxAttempts: int)
    requires JustClaimed(before, claimed, claim, batch, maxAttempts)
    requires HandledAll(claimed, after, steps, worker, batch, maxAttempts)
    requires EpisodeBatchHandler.Deserved(MarksBy(claimed, steps, worker), batch, a, maxAttempts)
    ensures EpisodesSettled(before, after, [claim] + steps, worker, batch, a, maxAttempts)
  {
    hide EachResolvedOnce, MarksBy, EpisodeBatchHandler.Deserved, JustClaimed, HandledAll;
    ClaimedAndSettled(before, claimed, claim, steps, after, worker, batch, maxAttempts);
  }

  lemma LabelsOfBatch(before: Queues, now: State<EpisodeKey, int>, batch: seq<Ticket<EpisodeKey, int>>)
    requires OneLabel(before) && now.rows.Keys == before.episodes.rows.Keys
    requires forall t <- batch :: t.key in now.rows
    ensures EpisodeBatchHandler.LabelsAgree(batch)
  {
    EpisodeBatchHandler.OneLabelAgrees(before.episodes.rows.Keys, batch);
  }
}
