/** Submitting one claimed rating to PMDB. */
module RatingHandler {
  import opened Wrappers
  import opened LocalDatabase
  import opened MappingHandler
  import opened QueueKeys
  import opened QueueProtocol
  import opened QueueRows
  import opened RetryPolicy
  import opened Settlement

  type RTicket = Ticket<RatingKey, int>
  type RMark = Mark<RatingKey, int>
  type RState = State<RatingKey, int>

  /** PMDB says that the cached id of the claimed row belongs to another account. */
  ghost predicate Disowned(t: RTicket, result: SubmitResult) {
    result.staleItem && t.row.itemId.Some?
  }

  /** The id PMDB gave for this very submission: not the id of a duplicate next to a disowned one. */
  ghost function Given(result: SubmitResult): Option<string> {
    if result.success && !(result.staleItem && result.duplicate) then result.itemId else None
  }

  /** The known id that is still trusted after the answer. */
  ghost function Trusted(t: RTicket, result: SubmitResult): Option<string> {
    if Disowned(t, result) then None else t.row.itemId
  }

  /**
   Sent exactly when PMDB has it, with the id given for it or, when only confirmed, the one still
   trusted; otherwise tried again exactly while that is allowed, after a delay that PMDB's hint
   and the earlier attempts determine.
   */
  ghost predicate Justified(
    t: RTicket, outcome: Outcome, result: SubmitResult, confirmed: bool, verifyStatuses: set<int>, maxAttempts: int,
    now: int)
  {
    var accepted := Accepted(result, confirmed, verifyStatuses);
    match outcome
    case Sent(_, _) =>
      accepted && outcome == Sent(now, if result.success then Given(result) else Trusted(t, result))
    case Again(at, error) =>
      && !accepted && result.retryable && t.row.attempts + 1 < maxAttempts
      && at == now + Backoff(result.retryAfter, t.row.attempts) && error == result.error
    case GivenUp(error) =>
      && !accepted && (result.retryable ==> t.row.attempts + 1 >= maxAttempts)
      && error == if result.retryable then "max_retry_attempts_exceeded" else result.error
    case Deferred => false
  }

  /**
   The handler still has its one ticket and has marked nothing; while all is calm the row has the
   given item id.
   */
  ghost predicate Busy(
    db: Db, start: RState, first: nat, worker: nat, t: RTicket, itemId: Option<string>, maxAttempts: int)
    reads db
  {
    && first <= |db.ratingSteps| && db.ratings.barred == {}
    && Handling(start, db.ratingSteps[first..], db.ratings, worker, [t], [t], maxAttempts)
    && MarksBy(start, db.ratingSteps[first..], worker) == [] && t.key in db.ratings.rows
    && (Calm(start, db.ratingSteps[first..], maxAttempts) ==> db.ratings.rows[t.key].itemId == itemId)
  }

  /** The ticket is let go: `m` is the one mark, and the row is as that mark leaves it. */
  ghost predicate Done(db: Db, start: RState, first: nat, worker: nat, t: RTicket, m: RMark, maxAttempts: int)
    reads db
  {
    && first <= |db.ratingSteps| && db.ratings.barred == {}
    && Handling(start, db.ratingSteps[first..], db.ratings, worker, [t], [], maxAttempts)
    && MarksBy(start, db.ratingSteps[first..], worker) == [m]
    && t.key in db.ratings.rows && db.ratings.rows[t.key] == After(m.before, m.outcome)
  }

  /** Other tasks act; while all is calm the row changes in nothing but the fetch time. */
  method Wait(
    db: Db, ghost start: RState, ghost first: nat, worker: nat, ghost t: RTicket, ghost itemId: Option<string>,
    maxAttempts: int)
    requires Busy(db, start, first, worker, t, itemId, maxAttempts)
    modifies db`ratings, db`ratingSteps
    ensures Busy(db, start, first, worker, t, itemId, maxAttempts) && old(db.ratingSteps) <= db.ratingSteps
  {
    hide Handling, Passed, MarksBy, Calm, Kept, Db.Valid;
    ghost var steps, now := db.ratingSteps, db.ratings;
    ghost var others := db.AwaitRatings(worker, maxAttempts);
    LogGoesOn(steps, others, first);
    Waited(start, steps[first..], now, others, db.ratings, worker, t, maxAttempts);
  }

  lemma LogGoesOn<T>(log: seq<T>, others: seq<T>, first: nat)
    requires first <= |log|
    ensures (log + others)[first..] == log[first..] + others
  {}

  lemma Waited(
    start: RState, steps: seq<Step<RatingKey, int>>, now: RState, others: seq<Step<RatingKey, int>>, later: RState,
    worker: nat, t: RTicket, maxAttempts: int)
    requires Handling(start, steps, now, worker, [t], [t], maxAttempts) && MarksBy(start, steps, worker) == []
    requires Passed(now, others, later, worker, maxAttempts) && t.key in now.rows
    ensures Handling(start, steps + others, later, worker, [t], [t], maxAttempts)
    ensures MarksBy(start, steps + others, worker) == [] && t.key in later.rows
    ensures Calm(start, steps + others, maxAttempts) ==>
              Calm(start, steps, maxAttempts) && later.rows[t.key].itemId == now.rows[t.key].itemId
  {
    hide Handling, Passed, MarksBy, Calm;
    KeysStayWhile(now, others, later, worker, t.key, maxAttempts);
    HandlingWaits(start, steps, now, others, later, worker, [t], [t], maxAttempts);
    if Calm(start, steps + others, maxAttempts) {
      RowKept(start, steps, now, others, later, worker, t, maxAttempts);
    }
  }

  lemma KeysStayWhile(
    now: RState, others: seq<Step<RatingKey, int>>, later: RState, worker: nat, k: RatingKey, maxAttempts: int)
    requires Passed(now, others, later, worker, maxAttempts) && k in now.rows
    ensures k in later.rows
  {
    hide Went, Calm, Undisturbed;
  }

  lemma RowKept(
    start: RState, steps: seq<Step<RatingKey, int>>, now: RState, others: seq<Step<RatingKey, int>>, later: RState,
    worker: nat, t: RTicket, maxAttempts: int)
    requires Handling(start, steps, now, worker, [t], [t], maxAttempts)
    requires Passed(now, others, later, worker, maxAttempts)
    requires Calm(start, steps, maxAttempts) && AllHarmless(now, others)
    ensures t.key in now.rows && t.key in later.rows && Kept(now.rows[t.key], later.rows[t.key])
  {
    hide Went, Inv, NoOrphans, Settling, MarksBy, AllHarmless, Straight;
    assert [t][0] == t && t in [t];
  }

  method Close(
    db: Db, ghost start: RState, ghost first: nat, worker: nat, t: RTicket, ghost itemId: Option<string>, o: Outcome,
    ghost maxAttempts: int)
    returns (ghost m: RMark)
    requires Busy(db, start, first, worker, t, itemId, maxAttempts)
    requires !o.Deferred? && FitsBudget(o, t.row.attempts, maxAttempts)
    modifies db`ratings, db`ratingSteps
    ensures Done(db, start, first, worker, t, m, maxAttempts) && old(db.ratingSteps) <= db.ratingSteps
    ensures m.outcome == o && Earlier(start, db.ratingSteps[first..], t, m, itemId, maxAttempts)
  {
    hide Handling, MarksBy, FitsBudget, HeldAs, Calm;
    ghost var steps, now := db.ratingSteps, db.ratings;
    m := Mark(t.key, now.rows[t.key], o, false);
    ghost var none: seq<RTicket> := [];
    assert none + [t] + none == [t] && none + none == none;
    CalmBefore(start, steps[first..], now, worker, t, o, maxAttempts);
    HandlingResolves(start, steps[first..], now, worker, [t], none, t, none, o, maxAttempts);
    db.MarkRating(worker, t.key, o);
    assert db.ratingSteps[first..] == steps[first..] + [Resolve(worker, t.key, o)];
  }

  /** While all was calm the row was let go as it had been claimed, with this item id. */
  ghost predicate Earlier(
    start: RState, steps: seq<Step<RatingKey, int>>, t: RTicket, m: RMark, itemId: Option<string>, maxAttempts: int)
  {
    Calm(start, steps, maxAttempts) ==> m.before.itemId == itemId && HeldAs(m.before, t.row)
  }

  lemma CalmBefore(
    start: RState, steps: seq<Step<RatingKey, int>>, now: RState, worker: nat, t: RTicket, o: Outcome, maxAttempts: int)
    requires Handling(start, steps, now, worker, [t], [t], maxAttempts)
    ensures Calm(start, steps + [Resolve(worker, t.key, o)], maxAttempts) ==>
              Calm(start, steps, maxAttempts) && t.key in now.rows && HeldAs(now.rows[t.key], t.row)
  {
    var step: Step<RatingKey, int> := Resolve(worker, t.key, o);
    hide Went, Inv, NoOrphans, Settling, MarksBy, Straight, HeldAs;
    assert (steps + [step])[..|steps|] == steps && t in [t];
    if Calm(start, steps, maxAttempts) {
      TicketIsHeld(now, worker, [t], t, maxAttempts);
    }
  }

  method ClearId(
    db: Db, ghost start: RState, ghost first: nat, worker: nat, t: RTicket, ghost itemId: Option<string>,
    ghost maxAttempts: int)
    requires Busy(db, start, first, worker, t, itemId, maxAttempts)
    modifies db`ratings, db`ratingSteps
    ensures Busy(db, start, first, worker, t, None, maxAttempts) && old(db.ratingSteps) <= db.ratingSteps
  {
    hide Handling, MarksBy, Calm;
    ghost var steps, now := db.ratingSteps, db.ratings;
    assert t in [t];
    HandlingClears(start, steps[first..], now, worker, [t], [t], t, maxAttempts);
    db.ClearRatingItemId(worker, t.key);
    assert db.ratingSteps[first..] == steps[first..] + [ClearItemId(worker, t.key)];
  }

  /**
   One rating under any answers and whatever others do: the run contains exactly one mark of the
   row, the one the answers call for, the row is out of flight, and the worker ends with nothing
   in hand.  If the others did no harm, the row was let go as claimed, a disowned id does not
   survive, and any other known id is not lost.
   */
  method SubmitRating(
    db: Db, worker: nat, t: RTicket, result: SubmitResult, confirmed: bool, verifyStatuses: set<int>, maxAttempts: int,
    now: int)
    returns (ghost m: RMark)
    requires db.Valid() && InHand(db.ratings, worker, [t])
    requires t.key in db.ratings.rows && db.ratings.rows[t.key].itemId == t.row.itemId
    modifies db`ratings, db`ratingSteps
    ensures db.Valid() && db.ratings.Of(worker).Keys == {}
    ensures old(db.ratingSteps) <= db.ratingSteps
    ensures Justified(t, m.outcome, result, confirmed, verifyStatuses, maxAttempts, now)
    ensures t.key in db.ratings.rows && db.ratings.rows[t.key].status != InFlight
    ensures var steps := db.ratingSteps[|old(db.ratingSteps)|..];
            && HandledAll(old(db.ratings), db.ratings, steps, worker, [t], maxAttempts)
            && MarksBy(old(db.ratings), steps, worker) == [m]
            && (Calm(old(db.ratings), steps, maxAttempts) ==>
                  && db.ratings.rows[t.key].value == t.row.value
                  && db.ratings.rows[t.key].itemId == Coalesce(Given(result), Trusted(t, result)))
  {
    ghost var start, first := db.ratings, |db.ratingSteps|;
    assert db.ratingSteps[first..] == [];
    HandlingStart(db.ratings, worker, [t], maxAttempts);
    hide Handling, InHand, Calm, Justified, HandledAll, MarksBy;
    m := HandleRating(db, start, first, worker, t, result, confirmed, verifyStatuses, maxAttempts, now);
    NothingLeft(start, db.ratingSteps[first..], db.ratings, worker, [t], maxAttempts);
  }

  method HandleRating(
    db: Db, ghost start: RState, ghost first: nat, worker: nat, t: RTicket, result: SubmitResult, confirmed: bool,
    verifyStatuses: set<int>, maxAttempts: int, now: int)
    returns (ghost m: RMark)
    requires Busy(db, start, first, worker, t, t.row.itemId, maxAttempts)
    modifies db`ratings, db`ratingSteps
    ensures Done(db, start, first, worker, t, m, maxAttempts) && old(db.ratingSteps) <= db.ratingSteps
    ensures Justified(t, m.outcome, result, confirmed, verifyStatuses, maxAttempts, now)
    ensures db.ratings.rows[t.key].status != InFlight
    ensures Calm(start, db.ratingSteps[first..], maxAttempts) ==>
              && db.ratings.rows[t.key].value == t.row.value
              && db.ratings.rows[t.key].itemId == Coalesce(Given(result), Trusted(t, result))
  {
    hide Busy, Justified, Handling, MarksBy, Calm;
    Wait(db, start, first, worker, t, t.row.itemId, maxAttempts);
    var itemId := t.row.itemId;
    if result.staleItem && itemId.Some? {
      ClearId(db, start, first, worker, t, itemId, maxAttempts);
      itemId := None;
    }
    m := Answer(db, start, first, worker, t, itemId, result, confirmed, verifyStatuses, maxAttempts, now);
    MarkedRow(t, m, result, confirmed, verifyStatuses, maxAttempts, now);
  }

  lemma MarkedRow(
    t: RTicket, m: RMark, result: SubmitResult, confirmed: bool, verifyStatuses: set<int>, maxAttempts: int, now: int)
    requires Justified(t, m.outcome, result, confirmed, verifyStatuses, maxAttempts, now)
    ensures After(m.before, m.outcome).status != InFlight && After(m.before, m.outcome).value == m.before.value
    ensures m.before.itemId == Trusted(t, result) ==>
              After(m.before, m.outcome).itemId == Coalesce(Given(result), Trusted(t, result))
  {}

  /** The outcome tree, after the cached id was checked; `itemId` is the id still trusted. */
  method Answer(
    db: Db, ghost start: RState, ghost first: nat, worker: nat, t: RTicket, itemId: Option<string>,
    result: SubmitResult, confirmed: bool, verifyStatuses: set<int>, maxAttempts: int, now: int)
    returns (ghost m: RMark)
    requires Busy(db, start, first, worker, t, itemId, maxAttempts) && itemId == Trusted(t, result)
    modifies db`ratings, db`ratingSteps
    ensures Done(db, start, first, worker, t, m, maxAttempts) && old(db.ratingSteps) <= db.ratingSteps
    ensures Earlier(start, db.ratingSteps[first..], t, m, itemId, maxAttempts)
    ensures Justified(t, m.outcome, result, confirmed, verifyStatuses, maxAttempts, now)
  {
    hide Handling, MarksBy, Busy, Done, Earlier, RetryDelay, Backoff;
    if result.success {
      m := Close(db, start, first, worker, t, itemId,
                 Sent(now, if result.staleItem && result.duplicate then None else result.itemId), maxAttempts);
      return;
    }
    if result.retryable {
      if result.status in verifyStatuses {
        Wait(db, start, first, worker, t, itemId, maxAttempts);
        if confirmed {
          m := Close(db, start, first, worker, t, itemId, Sent(now, itemId), maxAttempts);
          return;
        }
      }
      if t.row.attempts + 1 >= maxAttempts {
        m := Close(db, start, first, worker, t, itemId, GivenUp("max_retry_attempts_exceeded"), maxAttempts);
        return;
      }
      DelayIsBackoff(result.retryAfter, t.row.attempts);
      var at := now + RetryDelay(result.retryAfter, t.row.attempts);
      m := Close(db, start, first, worker, t, itemId, Again(at, result.error), maxAttempts);
      return;
    }
    m := Close(db, start, first, worker, t, itemId, GivenUp(result.error), maxAttempts);
  }
}
