/**
 Submitting a claimed batch of episode ratings of one title and season: delete the entries
 that have a cached id, create all that may be created in one call, confirm what the answer
 does not mention, and put off the rest.
 */
module EpisodeBatchHandler {
  import opened Wrappers
  import opened LocalDatabase
  import opened QueueKeys
  import opened QueueProtocol
  import opened QueueRows
  import opened RetryPolicy
  import opened Settlement

  type ETicket = Ticket<EpisodeKey, int>
  type EMark = Mark<EpisodeKey, int>
  type EState = State<EpisodeKey, int>
  type EStep = Step<EpisodeKey, int>

  datatype DeleteResult = DeleteResult(success: bool, retryable: bool, retryAfter: int, error: string)

  /** The batch answer: the created episodes with their ids, and the response as a whole. */
  datatype BatchResponse = BatchResponse(
    created: map<int, Option<string>>, status: int, cloudflare: bool, retryAfterHeader: int, error: string)

  /** Everything the outside says while one batch is handled; `found` answers the confirmation lookups. */
  datatype Answers = Answers(
    deletes: EpisodeKey -> DeleteResult, response: BatchResponse, found: EpisodeKey -> Option<Option<string>>,
    submittedAt: int, clock: EpisodeKey -> int)

  const TRANSIENT_STATUSES := {0, 500, 502, 503, 504, 522, 524}

  /** An answer of which nothing follows for the rows it does not mention: they are tried again. */
  ghost predicate Passing(r: BatchResponse) {
    r.cloudflare || r.status in {0, 207, 401, 429, 500, 502, 503, 504, 522, 524}
  }

  /** How long to wait for a first retry: what a 429 asks for, five minutes at a challenge, or half a minute. */
  ghost function Hint(r: BatchResponse): int {
    if r.status != 429 && !r.cloudflare then 30 else if r.status != 429 then 5 * 60 else r.retryAfterHeader
  }

  ghost predicate DeleteFails(t: ETicket, deletes: EpisodeKey -> DeleteResult) {
    t.row.itemId.Some? && !deletes(t.key).success
  }

  // ---------- which rows the phases touch ----------

  /** The tickets left for the create call. */
  ghost function ToCreate(batch: seq<ETicket>, deletes: EpisodeKey -> DeleteResult): seq<ETicket> {
    if batch == [] then []
    else
      var last := batch[|batch| - 1];
      ToCreate(batch[..|batch| - 1], deletes) + if DeleteFails(last, deletes) then [] else [last]
  }

  /** The row a failed delete is booked on: the label is the one of the first ticket. */
  ghost function BookedOn(batch: seq<ETicket>, t: ETicket): EpisodeKey
    requires batch != []
  {
    t.key.(tag := batch[0].key.tag)
  }

  /** The rows that get a mark at all. */
  ghost predicate Touches(batch: seq<ETicket>, deletes: EpisodeKey -> DeleteResult, k: EpisodeKey)
    requires batch != []
  {
    || (exists t <- ToCreate(batch, deletes) :: t.key == k)
    || (exists t <- batch :: DeleteFails(t, deletes) && BookedOn(batch, t) == k)
  }

  /** Tickets with a cached id carry the label of the first ticket. */
  ghost predicate LabelsAgree(batch: seq<ETicket>) {
    forall t <- batch :: t.row.itemId.Some? ==> t.key.tag == batch[0].key.tag
  }

  /** The harvester writes one label only. */
  ghost predicate OneLabel(keys: set<EpisodeKey>) {
    forall a <- keys, b <- keys :: a.tag == b.tag
  }

  lemma OneLabelAgrees(keys: set<EpisodeKey>, batch: seq<ETicket>)
    requires OneLabel(keys) && forall t <- batch :: t.key in keys
    ensures LabelsAgree(batch)
  {
    if batch != [] {
      assert batch[0] in batch;
    }
  }

  lemma {:induction false} ToCreateIs(batch: seq<ETicket>, deletes: EpisodeKey -> DeleteResult, t: ETicket)
    ensures t in ToCreate(batch, deletes) <==> t in batch && !DeleteFails(t, deletes)
  {
    if batch != [] {
      var init, last := batch[..|batch| - 1], batch[|batch| - 1];
      ToCreateIs(init, deletes, t);
      assert batch == init + [last];
    }
  }

  /** No answer of PMDB can make the handler miss a claimed row exactly when the labels agree. */
  lemma OnlyAgreeingLabelsAreSafe(batch: seq<ETicket>)
    requires batch != [] && DistinctKeys(batch)
    ensures LabelsAgree(batch) <==> forall deletes, t :: t in batch ==> Touches(batch, deletes, t.key)
  {
    if LabelsAgree(batch) {
      forall deletes: EpisodeKey -> DeleteResult, t | t in batch
        ensures Touches(batch, deletes, t.key)
      {
        ToCreateIs(batch, deletes, t);
        if DeleteFails(t, deletes) {
          assert BookedOn(batch, t) == t.key;
        }
      }
    } else {
      var t :| t in batch && t.row.itemId.Some? && t.key.tag != batch[0].key.tag;
      MissedRow(batch, t);
    }
  }

  /** Only the delete of `t` fails: then no phase marks it, and it stays in flight. */
  lemma MissedRow(batch: seq<ETicket>, t: ETicket)
    requires DistinctKeys(batch) && t in batch && t.row.itemId.Some? && t.key.tag != batch[0].key.tag
    ensures exists deletes :: !Touches(batch, deletes, t.key)
  {
    var deletes := (k: EpisodeKey) => DeleteResult(k != t.key, false, 0, "");
    forall u | u in ToCreate(batch, deletes)
      ensures u.key != t.key
    {
      ToCreateIs(batch, deletes, u);
      assert !DeleteFails(u, deletes);
      if u.key == t.key {
        SameTicket(batch, u, t);
      }
    }
    assert forall u <- batch :: DeleteFails(u, deletes) ==> BookedOn(batch, u).tag != t.key.tag;
    assert !Touches(batch, deletes, t.key);
  }

  // ---------- what each ticket gets ----------

  /** After a failed attempt: another one while that is allowed, after a delay by hint and attempts, or the end. */
  ghost predicate PutOff(
    o: Outcome, retryable: bool, hint: int, attempts: nat, now: int, error: string, maxAttempts: int)
  {
    match o
    case Again(at, why) =>
      retryable && attempts + 1 < maxAttempts && at == now + Backoff(hint, attempts) && why == error
    case GivenUp(why) =>
      && (retryable ==> attempts + 1 >= maxAttempts)
      && why == if retryable then "max_retry_attempts_exceeded" else error
    case _ => false
  }

  /** The outcome a ticket deserves, looking at its own answers only. */
  ghost predicate Deserves(t: ETicket, o: Outcome, a: Answers, maxAttempts: int) {
    if DeleteFails(t, a.deletes) then
      var d := a.deletes(t.key);
      PutOff(o, d.retryable, d.retryAfter, t.row.attempts, a.clock(t.key), d.error, maxAttempts)
    else if t.key.episode in a.response.created then
      o == Sent(a.submittedAt, a.response.created[t.key.episode])
    else if a.found(t.key).Some? then
      o == Sent(a.submittedAt, a.found(t.key).value)
    else
      PutOff(
        o, Passing(a.response), Hint(a.response), t.row.attempts, a.clock(t.key), a.response.error, maxAttempts)
  }

  /** What is booked after a failed attempt. */
  method Postpone(retryable: bool, hint: int, attempts: nat, now: int, error: string, maxAttempts: int)
    returns (o: Outcome)
    ensures PutOff(o, retryable, hint, attempts, now, error, maxAttempts) && FitsBudget(o, attempts, maxAttempts)
  {
    hide RetryDelay, Backoff;
    if !retryable {
      return GivenUp(error);
    }
    if attempts + 1 >= maxAttempts {
      return GivenUp("max_retry_attempts_exceeded");
    }
    DelayIsBackoff(hint, attempts);
    return Again(now + RetryDelay(hint, attempts), error);
  }

  /** Every mark is deserved by its ticket. */
  ghost predicate Deserved(marks: seq<EMark>, batch: seq<ETicket>, a: Answers, maxAttempts: int) {
    forall m <- marks, t <- batch :: m.key == t.key ==> Deserves(t, m.outcome, a, maxAttempts)
  }

  /** What one call is about: the worker, its batch, the answers, and the queue as it was at the start. */
  datatype Job = Job(worker: nat, batch: seq<ETicket>, a: Answers, maxAttempts: int, start: EState)
  {
    /** The run so far: `todo` is open, everything else got what it deserves. */
    ghost predicate Going(steps: seq<EStep>, now: EState, todo: seq<ETicket>) {
      && Handling(start, steps, now, worker, batch, todo, maxAttempts)
      && Deserved(MarksBy(start, steps, worker), batch, a, maxAttempts)
    }

    /** The worker marks no row but those the phases are meant to touch. */
    ghost predicate Bounded(steps: seq<EStep>)
      requires batch != []
    {
      forall i :: 0 <= i < |steps| && steps[i].Resolve? && steps[i].worker == worker ==>
                    Touches(batch, a.deletes, steps[i].key)
    }
  }

  /**
   The same of the database, whose log of steps since `first` is the run: the rows marked are
   bounded in any case, and the run is going as it should whenever the labels agree.
   */
  ghost predicate Going(db: Db, job: Job, first: nat, todo: seq<ETicket>)
    requires job.batch != []
    reads db
  {
    && first <= |db.episodeSteps| && db.episodes.barred == {} && job.Bounded(db.episodeSteps[first..])
    && (LabelsAgree(job.batch) ==> job.Going(db.episodeSteps[first..], db.episodes, todo))
  }

  /** Letting go of one open ticket as it deserves. */
  lemma Closed(
    job: Job, steps: seq<EStep>, now: EState, left: seq<ETicket>, t: ETicket, rest: seq<ETicket>, o: Outcome)
    requires job.Going(steps, now, left + [t] + rest)
    requires FitsBudget(o, t.row.attempts, job.maxAttempts) && !o.Deferred?
    requires Deserves(t, o, job.a, job.maxAttempts)
    ensures job.Going(steps + [Resolve(job.worker, t.key, o)], Next(now, Resolve(job.worker, t.key, o)), left + rest)
  {
    hide Deserves, FitsBudget, Handling, MarksBy, Next;
    assert t in left + [t] + rest;
    TicketIsOpen(job.start, steps, now, job.worker, job.batch, left + [t] + rest, t, job.maxAttempts);
    HandlingResolves(job.start, steps, now, job.worker, job.batch, left, t, rest, o, job.maxAttempts);
    OnlyTicket(job, steps, now, left + [t] + rest, t);
  }

  lemma OnlyTicket(job: Job, steps: seq<EStep>, now: EState, todo: seq<ETicket>, t: ETicket)
    requires Handling(job.start, steps, now, job.worker, job.batch, todo, job.maxAttempts) && t in job.batch
    ensures forall u <- job.batch :: u.key == t.key ==> u == t
  {
    hide Went, InHand, Settling, MarksBy;
    forall u | u in job.batch && u.key == t.key
      ensures u == t
    {
      SameTicket(job.batch, t, u);
    }
  }

  // ---------- steps ----------

  /** Other tasks act, in any way; the handler's state is not disturbed. */
  method Wait(db: Db, job: Job, ghost first: nat, ghost todo: seq<ETicket>)
    requires job.batch != [] && Going(db, job, first, todo)
    modifies db`episodes, db`episodeSteps
    ensures Going(db, job, first, todo) && old(db.episodeSteps) <= db.episodeSteps
  {
    ghost var steps, now := db.episodeSteps, db.episodes;
    ghost var others := db.AwaitEpisodes(job.worker, job.maxAttempts);
    assert db.episodeSteps[first..] == steps[first..] + others;
    StillBounded(job, steps[first..], now, others, db.episodes);
    hide Handling, Passed, Deserves, MarksBy, Touches;
    if LabelsAgree(job.batch) {
      HandlingWaits(job.start, steps[first..], now, others, db.episodes, job.worker, job.batch, todo, job.maxAttempts);
    }
  }

  lemma StillBounded(job: Job, steps: seq<EStep>, now: EState, others: seq<EStep>, later: EState)
    requires job.batch != [] && job.Bounded(steps) && Passed(now, others, later, job.worker, job.maxAttempts)
    ensures job.Bounded(steps + others)
  {
    hide Touches, Went, Calm, Undisturbed;
    forall i | 0 <= i < |others|
      ensures !(others[i].Resolve? && others[i].worker == job.worker)
    {
      assert ByOthers(others[i], job.worker);
    }
  }

  /** Marks the row `k` on behalf of ticket `t`; when that is its own row, the ticket is closed. */
  method Close(
    db: Db, job: Job, ghost first: nat, ghost left: seq<ETicket>, ghost t: ETicket, ghost rest: seq<ETicket>,
    k: EpisodeKey, o: Outcome)
    requires job.batch != [] && Going(db, job, first, left + [t] + rest)
    requires Touches(job.batch, job.a.deletes, k) && (LabelsAgree(job.batch) ==> k == t.key)
    requires Deserves(t, o, job.a, job.maxAttempts) && FitsBudget(o, t.row.attempts, job.maxAttempts) && !o.Deferred?
    modifies db`episodes, db`episodeSteps
    ensures Going(db, job, first, left + rest) && old(db.episodeSteps) <= db.episodeSteps
  {
    hide Handling, Deserves, FitsBudget, MarksBy, Touches, LabelsAgree;
    ghost var steps, now := db.episodeSteps, db.episodes;
    if LabelsAgree(job.batch) {
      Closed(job, steps[first..], now, left, t, rest, o);
    }
    db.MarkEpisode(job.worker, k, o);
    assert db.episodeSteps[first..] == steps[first..] + [Resolve(job.worker, k, o)];
  }

  /** The delete phase: a ticket whose cached entry cannot be deleted is put off, on the first ticket's label. */
  method DeletePhase(db: Db, job: Job, ghost first: nat) returns (rows: seq<ETicket>)
    requires job.batch != [] && Going(db, job, first, job.batch)
    modifies db`episodes, db`episodeSteps
    ensures rows == ToCreate(job.batch, job.a.deletes)
    ensures Going(db, job, first, rows) && old(db.episodeSteps) <= db.episodeSteps
  {
    hide Going, ToCreate, DeleteFails, LabelsAgree;
    var batch := job.batch;
    rows := [];
    ToCreateNone(job.a.deletes, batch[..0]);
    assert rows + batch[0..] == batch;
    for i := 0 to |batch|
      invariant rows == ToCreate(batch[..i], job.a.deletes)
      invariant Going(db, job, first, rows + batch[i..]) && old(db.episodeSteps) <= db.episodeSteps
    {
      ToCreateNext(batch, job.a.deletes, i);
      var kept := DeleteNext(db, job, first, rows, batch[i], batch[i + 1..], i);
      rows := if kept then rows + [batch[i]] else rows;
    }
    assert batch[..|batch|] == batch && rows + batch[|batch|..] == rows;
  }

  lemma ToCreateNone(deletes: EpisodeKey -> DeleteResult, none: seq<ETicket>)
    requires none == []
    ensures ToCreate(none, deletes) == []
  {}

  lemma ToCreateNext(batch: seq<ETicket>, deletes: EpisodeKey -> DeleteResult, i: nat)
    requires i < |batch|
    ensures ToCreate(batch[..i + 1], deletes)
            == ToCreate(batch[..i], deletes) + if DeleteFails(batch[i], deletes) then [] else [batch[i]]
  {
    assert batch[..i + 1][..i] == batch[..i];
  }

  method DeleteNext(
    db: Db, job: Job, ghost first: nat, ghost rows: seq<ETicket>, t: ETicket, ghost rest: seq<ETicket>, ghost i: nat)
    returns (kept: bool)
    requires i < |job.batch| && t == job.batch[i] && rest == job.batch[i + 1..]
    requires Going(db, job, first, rows + job.batch[i..])
    modifies db`episodes, db`episodeSteps
    ensures kept <==> !DeleteFails(t, job.a.deletes)
    ensures Going(db, job, first, (if kept then rows + [t] else rows) + rest) && old(db.episodeSteps) <= db.episodeSteps
  {
    hide Going, ToCreate;
    assert rows + job.batch[i..] == rows + [t] + rest;
    if t.row.itemId.Some? {
      Wait(db, job, first, rows + [t] + rest);
      var d := job.a.deletes(t.key);
      if !d.success {
        var hint := Max(5, if d.retryAfter == 0 then 30 else d.retryAfter);
        var o := Postpone(d.retryable, hint, t.row.attempts, job.a.clock(t.key), d.error, job.maxAttempts);
        assert Backoff(hint, t.row.attempts) == Backoff(d.retryAfter, t.row.attempts) && t in job.batch;
        Close(db, job, first, rows, t, rest, t.key.(tag := job.batch[0].key.tag), o);
        return false;
      }
    }
    return true;
  }

  /** Marks the created episodes and returns the others. */
  method CreatedPhase(db: Db, job: Job, ghost first: nat, rows: seq<ETicket>) returns (unresolved: seq<ETicket>)
    requires job.batch != [] && Going(db, job, first, rows) && rows == ToCreate(job.batch, job.a.deletes)
    modifies db`episodes, db`episodeSteps
    ensures forall t <- unresolved :: t in rows && t.key.episode !in job.a.response.created
    ensures Going(db, job, first, unresolved) && old(db.episodeSteps) <= db.episodeSteps
  {
    hide Going, ToCreate, DeleteFails, LabelsAgree;
    var a := job.a;
    unresolved := [];
    assert unresolved + rows[0..] == rows;
    for i := 0 to |rows|
      invariant forall t <- unresolved :: t in rows && t.key.episode !in a.response.created
      invariant Going(db, job, first, unresolved + rows[i..]) && old(db.episodeSteps) <= db.episodeSteps
    {
      var t := rows[i];
      ToCreateIs(job.batch, a.deletes, t);
      assert unresolved + rows[i..] == unresolved + [t] + rows[i + 1..];
      if t.key.episode in a.response.created {
        var o := Sent(a.submittedAt, a.response.created[t.key.episode]);
        Close(db, job, first, unresolved, t, rows[i + 1..], t.key, o);
      } else {
        unresolved := unresolved + [t];
      }
    }
    assert unresolved + rows[|rows|..] == unresolved;
  }

  /** Looks up every unresolved episode and marks those that exist remotely. */
  method ConfirmPhase(db: Db, job: Job, ghost first: nat, rows: seq<ETicket>) returns (unresolved: seq<ETicket>)
    requires job.batch != [] && Going(db, job, first, rows)
    requires forall t <- rows :: t in ToCreate(job.batch, job.a.deletes) && t.key.episode !in job.a.response.created
    modifies db`episodes, db`episodeSteps
    ensures forall t <- unresolved :: t in rows && job.a.found(t.key).None?
    ensures Going(db, job, first, unresolved) && old(db.episodeSteps) <= db.episodeSteps
  {
    hide Going, ToCreate, DeleteFails, LabelsAgree;
    var a := job.a;
    unresolved := [];
    assert unresolved + rows[0..] == rows;
    for i := 0 to |rows|
      invariant forall t <- unresolved :: t in rows && a.found(t.key).None?
      invariant Going(db, job, first, unresolved + rows[i..]) && old(db.episodeSteps) <= db.episodeSteps
    {
      var t := rows[i];
      ToCreateIs(job.batch, a.deletes, t);
      assert unresolved + rows[i..] == unresolved + [t] + rows[i + 1..];
      Wait(db, job, first, unresolved + rows[i..]);
      var found := a.found(t.key);
      if found.Some? {
        Close(db, job, first, unresolved, t, rows[i + 1..], t.key, Sent(a.submittedAt, found.value));
      } else {
        unresolved := unresolved + [t];
      }
    }
    assert unresolved + rows[|rows|..] == unresolved;
  }

  /** Puts off what is still open, all by the answer to the create call. */
  method UnresolvedPhase(db: Db, job: Job, ghost first: nat, rows: seq<ETicket>)
    requires job.batch != [] && Going(db, job, first, rows)
    requires forall t <- rows ::
               && t in ToCreate(job.batch, job.a.deletes) && t.key.episode !in job.a.response.created
               && job.a.found(t.key).None?
    modifies db`episodes, db`episodeSteps
    ensures Going(db, job, first, []) && old(db.episodeSteps) <= db.episodeSteps
  {
    hide Going, ToCreate, DeleteFails, LabelsAgree;
    var a := job.a;
    var retryable := a.response.status in TRANSIENT_STATUSES + {401, 429, 207} || a.response.cloudflare;
    var hint :=
      if a.response.status == 429 then a.response.retryAfterHeader else if a.response.cloudflare then 300 else 30;
    assert retryable == Passing(a.response) && hint == Hint(a.response);
    hide Passing, Hint, PutOff;
    assert rows[0..] == rows;
    for i := 0 to |rows|
      invariant Going(db, job, first, rows[i..]) && old(db.episodeSteps) <= db.episodeSteps
    {
      var t := rows[i];
      ToCreateIs(job.batch, a.deletes, t);
      assert rows[i..] == [] + [t] + rows[i + 1..] && [] + rows[i + 1..] == rows[i + 1..];
      var o := Postpone(retryable, hint, t.row.attempts, a.clock(t.key), a.response.error, job.maxAttempts);
      Close(db, job, first, [], t, rows[i + 1..], t.key, o);
    }
    assert rows[|rows|..] == [];
  }

  /**
   A claimed batch under any answers and whatever others do.  Only rows the phases are meant to
   touch are marked.  When the labels agree, what the handler and the others did is a run of the
   queue in which every claimed row is let go exactly once, with the outcome that its own answers
   call for, and the worker ends with nothing in hand.  If the others did no harm, the queue is in
   order again and every row was let go straight out of flight.
   */
  method SubmitEpisodeBatch(db: Db, worker: nat, batch: seq<ETicket>, a: Answers, maxAttempts: int)
    requires db.Valid() && InHand(db.episodes, worker, batch) && forall t <- batch :: t.key in db.episodes.rows
    modifies db`episodes, db`episodeSteps
    ensures db.Valid() && old(db.episodeSteps) <= db.episodeSteps
    ensures batch != [] ==>
              Job(worker, batch, a, maxAttempts, old(db.episodes)).Bounded(db.episodeSteps[|old(db.episodeSteps)|..])
    ensures LabelsAgree(batch) ==>
              var steps := db.episodeSteps[|old(db.episodeSteps)|..];
              && db.episodes.Of(worker).Keys == {}
              && HandledAll(old(db.episodes), db.episodes, steps, worker, batch, maxAttempts)
              && Deserved(MarksBy(old(db.episodes), steps, worker), batch, a, maxAttempts)
  {
    ghost var first := |db.episodeSteps|;
    var job := Job(worker, batch, a, maxAttempts, db.episodes);
    HandlingStart(db.episodes, worker, batch, maxAttempts);
    assert db.episodeSteps[first..] == [];
    if batch != [] {
      assert Going(db, job, first, batch);
      HandleBatch(db, job, first);
    }
    hide Handling, InHand, Deserves, MarksBy, HandledAll, Touches, LabelsAgree;
    if LabelsAgree(batch) {
      NothingLeft(job.start, db.episodeSteps[first..], db.episodes, worker, batch, maxAttempts);
    }
  }

  method HandleBatch(db: Db, job: Job, ghost first: nat)
    requires job.batch != [] && Going(db, job, first, job.batch)
    modifies db`episodes, db`episodeSteps
    ensures Going(db, job, first, []) && old(db.episodeSteps) <= db.episodeSteps
  {
    hide Going;
    var rows := DeletePhase(db, job, first);
    if rows == [] {
      return;
    }
    Wait(db, job, first, rows);
    var unresolved := CreatedPhase(db, job, first, rows);
    var open := ConfirmPhase(db, job, first, unresolved);
    if open != [] {
      UnresolvedPhase(db, job, first, open);
    }
  }
}
