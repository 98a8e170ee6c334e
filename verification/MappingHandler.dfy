/**
 Submitting a claimed group of mappings to PMDB.

 At every `await` other tasks take any number of steps on the queue, harmful ones included, and
 holds may come and go.  The handler's own steps and theirs form one run of the queue.
 */
module MappingHandler {
  import opened Wrappers
  import opened LocalDatabase
  import opened QueueKeys
  import opened QueueProtocol
  import opened QueueRows
  import opened RetryPolicy
  import opened Settlement

  /** PMDB's answer to one submission, as the client reports it. */
  datatype SubmitResult = SubmitResult(
    success: bool, retryable: bool, retryAfter: int, duplicate: bool, itemId: Option<string>,
    status: int, staleItem: bool, error: string)

  type MTicket = Ticket<MappingKey, string>
  type MMark = Mark<MappingKey, string>
  type MState = State<MappingKey, string>
  type MStep = Step<MappingKey, string>

  /**
   Everything the outside says while one group is handled; `present` is a usable lookup answer,
   `preflightAt` and `clock` are the times at which outcomes are booked.
   */
  datatype Answers = Answers(
    present: Option<set<(string, string)>>, respond: MappingKey -> SubmitResult, confirm: MappingKey -> bool,
    verifyStatuses: set<int>, preflightAt: int, clock: MappingKey -> int)

  /** Whether the remote side is known to have what was submitted after these answers. */
  ghost predicate Accepted(result: SubmitResult, confirmed: bool, verifyStatuses: set<int>) {
    result.success || (result.retryable && result.status in verifyStatuses && confirmed)
  }

  ghost predicate Matches(t: MTicket, present: set<(string, string)>) {
    (t.key.idType, t.row.value) in present
  }

  ghost predicate Matched(t: MTicket, a: Answers) {
    a.present.Some? && Matches(t, a.present.value)
  }

  /**
   Why a claimed mapping was let go as it was: deferred only under a hold or with another value;
   sent only because the lookup showed it (then still with the claimed value and under no hold)
   or because PMDB accepted it; otherwise tried again exactly while that is allowed, after a delay
   that PMDB's hint and the earlier attempts determine.
   */
  ghost predicate Deserves(t: MTicket, m: MMark, a: Answers, maxAttempts: int) {
    var result, now := a.respond(t.key), a.clock(t.key);
    var accepted := Accepted(result, a.confirm(t.key), a.verifyStatuses);
    var checked := !m.barred && m.before.value == t.row.value;
    match m.outcome
    case Deferred => !checked
    case Sent(at, itemId) =>
      if Matched(t, a) then checked && m.outcome == Sent(a.preflightAt, None)
      else accepted && m.outcome == Sent(now, if result.success then result.itemId else t.row.itemId)
    case Again(at, error) =>
      && !Matched(t, a) && !accepted && result.retryable && t.row.attempts + 1 < maxAttempts
      && at == now + Backoff(result.retryAfter, t.row.attempts) && error == result.error
    case GivenUp(error) =>
      && !Matched(t, a) && !accepted && (result.retryable ==> t.row.attempts + 1 >= maxAttempts)
      && error == if result.retryable then "max_retry_attempts_exceeded" else result.error
  }

  ghost predicate Deserved(marks: seq<MMark>, batch: seq<MTicket>, a: Answers, maxAttempts: int) {
    forall m <- marks, t <- batch :: m.key == t.key ==> Deserves(t, m, a, maxAttempts)
  }

  /** What one call is about: the worker, its batch, the answers, and the queue as it was at the start. */
  datatype Job = Job(worker: nat, batch: seq<MTicket>, a: Answers, maxAttempts: int, start: MState)
  {
    ghost predicate Sound() {
      forall t <- batch :: !NeverSubmitted(t.key)
    }

    ghost predicate MatchedKey(k: MappingKey) {
      exists t <- batch :: t.key == k && Matched(t, a)
    }

    /**
     A call is started once, and only for what the lookup does not show.  A mapping is put back
     only without a call and let go in any other way only after one; what the lookup shows needs
     none, but the last check must pass at that very step.
     */
    ghost predicate Legit(before: seq<MStep>, step: MStep) {
      match step
      case Send(w, k) => w == worker ==> !MatchedKey(k) && step !in before
      case Resolve(w, k, o) =>
        w == worker ==>
          if o.Deferred? then Send(worker, k) !in before
          else if MatchedKey(k) then Clear(End(start, before), worker, k)
          else Send(worker, k) in before
      case _ => true
    }

    /** No call has been started for any of these. */
    ghost predicate Uncalled(steps: seq<MStep>, open: seq<MTicket>) {
      forall t <- open :: Send(worker, t.key) !in steps
    }

    ghost predicate Checked(steps: seq<MStep>) {
      steps == [] || (Checked(steps[..|steps| - 1]) && Legit(steps[..|steps| - 1], steps[|steps| - 1]))
    }

    /** The run so far: `todo` is open, everything else was checked and got what it deserves. */
    ghost predicate Going(steps: seq<MStep>, now: MState, todo: seq<MTicket>) {
      && Sound() && Handling(start, steps, now, worker, batch, todo, maxAttempts) && Checked(steps)
      && Deserved(MarksBy(start, steps, worker), batch, a, maxAttempts)
    }
  }

  lemma OneMoreChecked(job: Job, steps: seq<MStep>, step: MStep)
    requires job.Checked(steps) && job.Legit(steps, step)
    ensures job.Checked(steps + [step])
  {
    assert (steps + [step])[..|steps|] == steps;
    hide Job.Legit;
  }

  lemma {:induction false} OthersNeedNoCheck(job: Job, steps: seq<MStep>, others: seq<MStep>)
    requires job.Checked(steps) && forall step <- others :: ByOthers(step, job.worker)
    ensures job.Checked(steps + others)
  {
    hide Job.Checked;
    if others == [] {
      assert steps + others == steps;
    } else {
      var init, last := others[..|others| - 1], others[|others| - 1];
      assert last in others;
      OthersNeedNoCheck(job, steps, init);
      OneMoreChecked(job, steps + init, last);
      assert (steps + init) + [last] == steps + others;
    }
  }

  /** The same of the database, whose log of steps since `first` is the run; no call for `open` was started. */
  ghost predicate Underway(db: Db, job: Job, first: nat, todo: seq<MTicket>, open: seq<MTicket>)
    reads db
  {
    && first <= |db.mappingSteps| && HoldsShown(db.mappings, db.holds)
    && job.Going(db.mappingSteps[first..], db.mappings, todo) && job.Uncalled(db.mappingSteps[first..], open)
  }

  ghost predicate Going(db: Db, job: Job, first: nat, todo: seq<MTicket>)
    reads db
  {
    Underway(db, job, first, todo, todo)
  }

  lemma Narrower(db: Db, job: Job, first: nat, left: seq<MTicket>, t: MTicket, rest: seq<MTicket>)
    requires Going(db, job, first, left + [t] + rest)
    ensures Underway(db, job, first, left + [t] + rest, left + rest)
  {
    hide Job.Going, HoldsShown;
    assert forall u <- left + rest :: u in left + [t] + rest;
  }

  lemma OthersCallNone(job: Job, steps: seq<MStep>, others: seq<MStep>, open: seq<MTicket>)
    requires job.Uncalled(steps, open) && forall step <- others :: ByOthers(step, job.worker)
    ensures job.Uncalled(steps + others, open)
  {}

  lemma CallsThis(job: Job, steps: seq<MStep>, now: MState, t: MTicket, rest: seq<MTicket>)
    requires job.Going(steps, now, [t] + rest) && job.Uncalled(steps, [t] + rest) && !Matched(t, job.a)
    ensures job.Legit(steps, Send(job.worker, t.key))
    ensures job.Uncalled(steps + [Send(job.worker, t.key)], rest)
  {
    hide Settling, MarksBy, Matched, Job.Checked, Deserved;
    assert t in [t] + rest;
    TicketIsOpen(job.start, steps, now, job.worker, job.batch, [t] + rest, t, job.maxAttempts);
    OnlyTicket(job, steps, now, [t] + rest, t);
    forall u | u in rest
      ensures Send(job.worker, u.key) !in steps + [Send(job.worker, t.key)]
    {
      assert u in [t] + rest;
      var i :| 0 <= i < |rest| && rest[i] == u;
      assert ([t] + rest)[i + 1] == u && ([t] + rest)[0] == t;
    }
  }

  /** What the handler has let go so far. */
  ghost function MarksSoFar(db: Db, job: Job, first: nat): seq<MMark>
    reads db
  {
    if first <= |db.mappingSteps| then MarksBy(job.start, db.mappingSteps[first..], job.worker) else []
  }

  /** The call for the ticket has been started. */
  ghost predicate Called(db: Db, job: Job, first: nat, t: MTicket)
    reads db
  {
    first <= |db.mappingSteps| && Send(job.worker, t.key) in db.mappingSteps[first..]
  }

  /** Letting go of one open ticket as it deserves. */
  lemma Closed(
    job: Job, steps: seq<MStep>, now: MState, left: seq<MTicket>, t: MTicket, rest: seq<MTicket>, m: MMark)
    requires job.Going(steps, now, left + [t] + rest)
    requires m == Mark(t.key, RowOf(now, t.key), m.outcome, t.key in now.barred)
    requires FitsBudget(m.outcome, t.row.attempts, job.maxAttempts) && Deserves(t, m, job.a, job.maxAttempts)
    requires m.outcome.Deferred? ==> !Clear(now, job.worker, t.key)
    requires if m.outcome.Deferred? then Send(job.worker, t.key) !in steps
             else Matched(t, job.a) || Send(job.worker, t.key) in steps
    ensures var step: MStep := Resolve(job.worker, t.key, m.outcome);
            && job.Going(steps + [step], Next(now, step), left + rest) && t.key in now.rows
            && MarksBy(job.start, steps + [step], job.worker) == MarksBy(job.start, steps, job.worker) + [m]
  {
    var todo, step: MStep := left + [t] + rest, Resolve(job.worker, t.key, m.outcome);
    assert t in todo;
    StepIsLegit(job, steps, now, todo, t, m);
    hide Deserves, FitsBudget, Handling, MarksBy, Next, Matched, Clear, Job.Legit, Job.Checked;
    TicketIsOpen(job.start, steps, now, job.worker, job.batch, todo, t, job.maxAttempts);
    HandlingResolves(job.start, steps, now, job.worker, job.batch, left, t, rest, m.outcome, job.maxAttempts);
    OneMoreChecked(job, steps, step);
    OnlyTicket(job, steps, now, todo, t);
  }

  lemma OnlyTicket(job: Job, steps: seq<MStep>, now: MState, todo: seq<MTicket>, t: MTicket)
    requires Handling(job.start, steps, now, job.worker, job.batch, todo, job.maxAttempts) && t in job.batch
    ensures forall u <- job.batch :: u.key == t.key ==> u == t
  {
    hide Went, InHand, Settling, MarksBy;
    forall u | u in job.batch && u.key == t.key
      ensures u == t
    {
      SameTicket(job.batch, t, u);
    }
  }

  lemma StepIsLegit(job: Job, steps: seq<MStep>, now: MState, todo: seq<MTicket>, t: MTicket, m: MMark)
    requires job.Going(steps, now, todo) && t in todo
    requires m == Mark(t.key, RowOf(now, t.key), m.outcome, t.key in now.barred)
             && Deserves(t, m, job.a, job.maxAttempts)
    requires if m.outcome.Deferred? then Send(job.worker, t.key) !in steps
             else Matched(t, job.a) || Send(job.worker, t.key) in steps
    ensures job.Legit(steps, Resolve(job.worker, t.key, m.outcome))
  {
    hide MarksBy, Settling, Calm, Straight, Job.Checked, Accepted, Backoff, Matched;
    TicketIsOpen(job.start, steps, now, job.worker, job.batch, todo, t, job.maxAttempts);
    OnlyTicket(job, steps, now, todo, t);
    assert job.MatchedKey(t.key) <==> Matched(t, job.a);
    assert End(job.start, steps) == now;
  }

  /** Of an open ticket, the last check looks at the hold and the value alone. */
  lemma SendableIsClear(
    job: Job, steps: seq<MStep>, now: MState, holds: map<MappingKey, string>, todo: seq<MTicket>, t: MTicket)
    requires job.Going(steps, now, todo) && HoldsShown(now, holds) && t in todo
    ensures t.key in now.rows && (Sendable(t, now.rows, holds.Keys) <==> Clear(now, job.worker, t.key))
    ensures Clear(now, job.worker, t.key) <==> t.key !in now.barred && now.rows[t.key].value == t.row.value
  {
    hide Handling, MarksBy, Job.Checked, Deserved;
    TicketIsOpen(job.start, steps, now, job.worker, job.batch, todo, t, job.maxAttempts);
  }

  ghost function RowOf(s: MState, k: MappingKey): Row<string> {
    if k in s.rows then s.rows[k] else Fresh("", 0, 0)
  }

  // ---------- steps ----------

  /** Other tasks act, in any way; the handler's state is not disturbed. */
  method Wait(db: Db, job: Job, ghost first: nat, ghost todo: seq<MTicket>, ghost open: seq<MTicket>)
    requires Underway(db, job, first, todo, open)
    modifies db`mappings, db`holds, db`mappingSteps
    ensures Underway(db, job, first, todo, open) && old(db.mappingSteps) <= db.mappingSteps
    ensures MarksSoFar(db, job, first) == old(MarksSoFar(db, job, first))
  {
    ghost var steps, now := db.mappingSteps, db.mappings;
    ghost var others := db.AwaitMappings(job.worker, job.maxAttempts);
    assert db.mappingSteps[first..] == steps[first..] + others;
    hide Handling, HoldsShown, Deserves, MarksBy, Went, Calm, Undisturbed, Job.Checked, Job.Uncalled;
    HandlingWaits(job.start, steps[first..], now, others, db.mappings, job.worker, job.batch, todo, job.maxAttempts);
    OthersNeedNoCheck(job, steps[first..], others);
    OthersCallNone(job, steps[first..], others, open);
  }

  /** Marks one open ticket. */
  method Close(
    db: Db, job: Job, ghost first: nat, ghost left: seq<MTicket>, t: MTicket, ghost rest: seq<MTicket>, o: Outcome)
    returns (ghost m: MMark)
    requires Underway(db, job, first, left + [t] + rest, left + rest)
    requires !o.Deferred? && FitsBudget(o, t.row.attempts, job.maxAttempts)
    requires Matched(t, job.a) || Called(db, job, first, t)
    requires Deserves(
               t, Mark(t.key, RowOf(db.mappings, t.key), o, t.key in db.mappings.barred), job.a, job.maxAttempts)
    modifies db`mappings, db`mappingSteps
    ensures Going(db, job, first, left + rest) && old(db.mappingSteps) <= db.mappingSteps
    ensures m == old(Mark(t.key, RowOf(db.mappings, t.key), o, t.key in db.mappings.barred))
    ensures t.key in db.mappings.rows && db.mappings.rows[t.key] == After(m.before, o)
    ensures MarksSoFar(db, job, first) == old(MarksSoFar(db, job, first)) + [m]
  {
    hide Deserves, FitsBudget, MarksBy, Job.Going, Matched, HoldsShown, Job.Uncalled;
    ghost var steps, now := db.mappingSteps, db.mappings;
    m := Mark(t.key, RowOf(now, t.key), o, t.key in now.barred);
    StillShown(now, db.holds, job.worker, t.key, o);
    Closed(job, steps[first..], now, left, t, rest, m);
    LetGoIsNoCall(job, steps[first..], Resolve(job.worker, t.key, o), left + rest);
    db.MarkMapping(job.worker, t.key, o);
    assert db.mappingSteps[first..] == steps[first..] + [Resolve(job.worker, t.key, o)];
  }

  lemma LetGoIsNoCall(job: Job, steps: seq<MStep>, step: MStep, open: seq<MTicket>)
    requires job.Uncalled(steps, open) && step.Resolve?
    ensures job.Uncalled(steps + [step], open)
  {}

  lemma StillShown(s: MState, holds: map<MappingKey, string>, worker: nat, k: MappingKey, o: Outcome)
    requires HoldsShown(s, holds)
    ensures HoldsShown(Next(s, Resolve(worker, k, o)), holds)
  {}

  /** One hold check: defer the ticket, or keep it, and then it is clear to be sent. */
  method DeferIfHeld(db: Db, job: Job, ghost first: nat, ghost left: seq<MTicket>, t: MTicket, ghost rest: seq<MTicket>)
    returns (deferred: bool, ghost m: MMark)
    requires Going(db, job, first, left + [t] + rest)
    modifies db`mappings, db`mappingSteps
    ensures old(db.mappingSteps) <= db.mappingSteps
    ensures deferred <==> !Sendable(t, old(db.mappings.rows), db.holds.Keys)
    ensures m == old(Mark(t.key, RowOf(db.mappings, t.key), Deferred, t.key in db.mappings.barred))
    ensures deferred ==>
              && Going(db, job, first, left + rest) && Deserves(t, m, job.a, job.maxAttempts)
              && t.key in db.mappings.rows && db.mappings.rows[t.key] == After(m.before, Deferred)
              && MarksSoFar(db, job, first) == old(MarksSoFar(db, job, first)) + [m]
    ensures !deferred ==>
              && db.mappings == old(db.mappings) && db.mappingSteps == old(db.mappingSteps)
              && Clear(db.mappings, job.worker, t.key) && !m.barred && m.before.value == t.row.value
  {
    hide MarksBy, Job.Going, HoldsShown, Sendable, Clear;
    ghost var steps, now := db.mappingSteps, db.mappings;
    assert t in left + [t] + rest;
    Narrower(db, job, first, left, t, rest);
    assert Send(job.worker, t.key) !in steps[first..];
    hide Job.Uncalled;
    SendableIsClear(job, steps[first..], now, db.holds, left + [t] + rest, t);
    m := Mark(t.key, RowOf(now, t.key), Deferred, t.key in now.barred);
    deferred := db.DeferHeld(job.worker, t);
    if deferred {
      StillShown(now, db.holds, job.worker, t.key, Deferred);
      LetGoIsNoCall(job, steps[first..], Resolve(job.worker, t.key, Deferred), left + rest);
      Closed(job, steps[first..], now, left, t, rest, m);
      assert db.mappingSteps[first..] == steps[first..] + [Resolve(job.worker, t.key, Deferred)];
    }
  }

  /** The start of the call, right after a check that passed. */
  method StartCall(db: Db, job: Job, ghost first: nat, t: MTicket, ghost rest: seq<MTicket>)
    requires Going(db, job, first, [t] + rest) && Clear(db.mappings, job.worker, t.key) && !Matched(t, job.a)
    modifies db`mappingSteps
    ensures db.mappingSteps == old(db.mappingSteps) + [Send(job.worker, t.key)]
    ensures Underway(db, job, first, [t] + rest, rest) && Called(db, job, first, t)
    ensures MarksSoFar(db, job, first) == old(MarksSoFar(db, job, first))
  {
    ghost var steps := db.mappingSteps;
    CallsThis(job, steps[first..], db.mappings, t, rest);
    hide Handling, HoldsShown, Deserves, MarksBy, Clear, Job.Legit, Job.Uncalled, Matched;
    assert t in [t] + rest;
    HandlingSends(
      job.start, steps[first..], db.mappings, job.worker, job.batch, [t] + rest, t, job.maxAttempts);
    OneMoreChecked(job, steps[first..], Send(job.worker, t.key));
    db.StartCall(job.worker, t.key);
    assert db.mappingSteps[first..] == steps[first..] + [Send(job.worker, t.key)];
    assert db.mappingSteps[first..][|steps[first..]|] == Send(job.worker, t.key);
  }

  /**
   One mapping: a last hold check, the submission, and its outcome, which ends the ticket.  The
   call is started exactly when the check passes; `m` is how the row was let go.
   */
  method SubmitMapping(
    db: Db, job: Job, ghost first: nat, t: MTicket, ghost rest: seq<MTicket>)
    returns (ghost m: MMark)
    requires Going(db, job, first, [t] + rest) && !Matched(t, job.a)
    modifies db`mappings, db`holds, db`mappingSteps
    ensures Going(db, job, first, rest) && old(db.mappingSteps) <= db.mappingSteps
    ensures m.key == t.key && Deserves(t, m, job.a, job.maxAttempts)
    ensures m.outcome.Deferred? <==> old(!Sendable(t, db.mappings.rows, db.holds.Keys))
    ensures !m.outcome.Deferred? ==> old(db.mappingSteps) + [Send(job.worker, t.key)] <= db.mappingSteps
    ensures MarksSoFar(db, job, first) == old(MarksSoFar(db, job, first)) + [m]
    ensures t.key in db.mappings.rows && db.mappings.rows[t.key] == After(m.before, m.outcome)
    ensures db.mappings.rows[t.key].status != InFlight
  {
    hide Underway, MarksBy, Deserves, Sendable, Clear, Matched;
    assert [] + [t] + rest == [t] + rest && [] + rest == rest;
    var deferred;
    deferred, m := DeferIfHeld(db, job, first, [], t, rest);
    if !deferred {
      StartCall(db, job, first, t, rest);
      ghost var steps := db.mappingSteps;
      Wait(db, job, first, [t] + rest, rest);
      StillCalled(db, job, first, t, steps);
      m := Answer(db, job, first, t, rest);
    }
  }

  lemma StillCalled(db: Db, job: Job, first: nat, t: MTicket, steps: seq<MStep>)
    requires first <= |steps| && Send(job.worker, t.key) in steps[first..] && steps <= db.mappingSteps
    ensures Called(db, job, first, t)
  {
    assert db.mappingSteps[first..] == steps[first..] + db.mappingSteps[|steps|..];
  }

  /** What is booked after PMDB's answer: sent, confirmed, given up or tried again. */
  method Decide(t: MTicket, a: Answers, maxAttempts: int) returns (o: Outcome)
    requires !Matched(t, a)
    ensures FitsBudget(o, t.row.attempts, maxAttempts) && !o.Deferred?
    ensures forall before, barred :: Deserves(t, Mark(t.key, before, o, barred), a, maxAttempts)
  {
    hide RetryDelay, Backoff;
    var result, now := a.respond(t.key), a.clock(t.key);
    if result.success {
      return Sent(now, result.itemId);
    }
    if result.retryable {
      if result.status in a.verifyStatuses && a.confirm(t.key) {
        return Sent(now, t.row.itemId);
      }
      if t.row.attempts + 1 >= maxAttempts {
        return GivenUp("max_retry_attempts_exceeded");
      }
      DelayIsBackoff(result.retryAfter, t.row.attempts);
      return Again(now + RetryDelay(result.retryAfter, t.row.attempts), result.error);
    }
    return GivenUp(result.error);
  }

  /** After PMDB's answer, and for some answers a second look at what PMDB has. */
  method Answer(db: Db, job: Job, ghost first: nat, t: MTicket, ghost rest: seq<MTicket>) returns (ghost m: MMark)
    requires Underway(db, job, first, [t] + rest, rest) && !Matched(t, job.a) && Called(db, job, first, t)
    modifies db`mappings, db`holds, db`mappingSteps
    ensures Going(db, job, first, rest) && old(db.mappingSteps) <= db.mappingSteps
    ensures m.key == t.key && Deserves(t, m, job.a, job.maxAttempts) && !m.outcome.Deferred?
    ensures MarksSoFar(db, job, first) == old(MarksSoFar(db, job, first)) + [m]
    ensures t.key in db.mappings.rows && db.mappings.rows[t.key] == After(m.before, m.outcome)
    ensures db.mappings.rows[t.key].status != InFlight
  {
    hide Underway, MarksBy, Deserves, Matched, FitsBudget;
    var result := job.a.respond(t.key);
    ghost var steps := db.mappingSteps;
    if !result.success && result.retryable && result.status in job.a.verifyStatuses {
      Wait(db, job, first, [t] + rest, rest);
      StillCalled(db, job, first, t, steps);
    }
    assert [] + [t] + rest == [t] + rest && [] + rest == rest;
    var o := Decide(t, job.a, job.maxAttempts);
    m := Close(db, job, first, [], t, rest, o);
  }

  /** Drops deferred tickets before the lookup; nothing else runs in between. */
  method DeferFirst(db: Db, job: Job, ghost first: nat) returns (rows: seq<MTicket>)
    requires Going(db, job, first, job.batch)
    modifies db`mappings, db`mappingSteps
    ensures Going(db, job, first, rows) && old(db.mappingSteps) <= db.mappingSteps
  {
    hide Going;
    rows := [];
    assert rows + job.batch[0..] == job.batch;
    for i := 0 to |job.batch|
      invariant Going(db, job, first, rows + job.batch[i..]) && old(db.mappingSteps) <= db.mappingSteps
    {
      assert rows + job.batch[i..] == rows + [job.batch[i]] + job.batch[i + 1..];
      rows := DeferNext(db, job, first, rows, job.batch[i], job.batch[i + 1..]);
    }
    assert rows + job.batch[|job.batch|..] == rows;
  }

  method DeferNext(db: Db, job: Job, ghost first: nat, left: seq<MTicket>, t: MTicket, ghost rest: seq<MTicket>)
    returns (kept: seq<MTicket>)
    requires Going(db, job, first, left + [t] + rest)
    modifies db`mappings, db`mappingSteps
    ensures Going(db, job, first, kept + rest) && old(db.mappingSteps) <= db.mappingSteps
  {
    hide Going, MarksBy, Sendable, Deserves, Clear;
    ghost var m;
    var deferred;
    deferred, m := DeferIfHeld(db, job, first, left, t, rest);
    kept := if deferred then left else left + [t];
  }

  /** The mappings a title already has remotely settle their tickets; again nothing else runs in between. */
  method Preflight(db: Db, job: Job, ghost first: nat, rows: seq<MTicket>) returns (unresolved: seq<MTicket>)
    requires job.a.present.Some? && Going(db, job, first, rows)
    modifies db`mappings, db`mappingSteps
    ensures Going(db, job, first, unresolved) && old(db.mappingSteps) <= db.mappingSteps
    ensures forall t <- unresolved :: !Matched(t, job.a)
  {
    hide Going;
    unresolved := [];
    assert unresolved + rows[0..] == rows;
    for i := 0 to |rows|
      invariant Going(db, job, first, unresolved + rows[i..]) && old(db.mappingSteps) <= db.mappingSteps
      invariant forall t <- unresolved :: !Matched(t, job.a)
    {
      assert unresolved + rows[i..] == unresolved + [rows[i]] + rows[i + 1..];
      unresolved := MatchNext(db, job, first, unresolved, rows[i], rows[i + 1..]);
    }
    assert unresolved + rows[|rows|..] == unresolved;
  }

  /** One ticket of the preflight: deferred, marked as sent when the lookup shows it, or kept. */
  method MatchNext(db: Db, job: Job, ghost first: nat, left: seq<MTicket>, t: MTicket, ghost rest: seq<MTicket>)
    returns (kept: seq<MTicket>)
    requires job.a.present.Some? && Going(db, job, first, left + [t] + rest)
    modifies db`mappings, db`mappingSteps
    ensures Going(db, job, first, kept + rest) && old(db.mappingSteps) <= db.mappingSteps
    ensures kept == left || (kept == left + [t] && !Matched(t, job.a))
  {
    hide Going, MarksBy, Sendable, Clear;
    ghost var m;
    var deferred;
    deferred, m := DeferIfHeld(db, job, first, left, t, rest);
    if deferred {
      return left;
    }
    if (t.key.idType, t.row.value) in job.a.present.value {
      Narrower(db, job, first, left, t, rest);
      m := Close(db, job, first, left, t, rest, Sent(job.a.preflightAt, None));
      return left;
    }
    return left + [t];
  }

  /**
   A claimed group: hold checks, one lookup, the matches, and single submissions for the rest.
   Whatever PMDB answers and whatever the others do in between, what the handler and they did is
   a run of the queue in which each claimed mapping is let go exactly once, for the right reason
   and after its own check, and the worker ends with nothing in hand.  If they did no harm, the
   queue is in order again and every row was let go straight out of flight.
   */
  method SubmitMappingGroup(db: Db, worker: nat, batch: seq<MTicket>, a: Answers, maxAttempts: int)
    requires db.Valid() && InHand(db.mappings, worker, batch)
    requires forall t <- batch :: t.key in db.mappings.rows && !NeverSubmitted(t.key)
    modifies db`mappings, db`holds, db`mappingSteps
    ensures db.Valid() && db.mappings.Of(worker).Keys == {}
    ensures old(db.mappingSteps) <= db.mappingSteps
    ensures var steps := db.mappingSteps[|old(db.mappingSteps)|..];
            && HandledAll(old(db.mappings), db.mappings, steps, worker, batch, maxAttempts)
            && Deserved(MarksBy(old(db.mappings), steps, worker), batch, a, maxAttempts)
            && Job(worker, batch, a, maxAttempts, old(db.mappings)).Checked(steps)
  {
    hide Job.Checked;
    ghost var first := |db.mappingSteps|;
    var job := Job(worker, batch, a, maxAttempts, db.mappings);
    HandlingStart(db.mappings, worker, batch, maxAttempts);
    assert db.mappingSteps[first..] == [];
    NothingToCheck(job);
    HandleGroup(db, job, first);
    hide Handling, InHand, HoldsShown, Deserves, MarksBy, HandledAll;
    NothingLeft(job.start, db.mappingSteps[first..], db.mappings, worker, batch, maxAttempts);
  }

  lemma NothingToCheck(job: Job)
    ensures job.Checked([])
  {}

  method HandleGroup(db: Db, job: Job, ghost first: nat)
    requires Going(db, job, first, job.batch)
    modifies db`mappings, db`holds, db`mappingSteps
    ensures Going(db, job, first, []) && old(db.mappingSteps) <= db.mappingSteps
  {
    hide Underway, Matched;
    var rows := DeferFirst(db, job, first);
    if rows == [] {
      return;
    }
    Wait(db, job, first, rows, rows);
    var unresolved := rows;
    if job.a.present.Some? {
      unresolved := Preflight(db, job, first, rows);
    } else {
      NoneMatched(job.a, rows);
    }
    SubmitAll(db, job, first, unresolved);
  }

  method SubmitAll(db: Db, job: Job, ghost first: nat, unresolved: seq<MTicket>)
    requires Going(db, job, first, unresolved) && forall t <- unresolved :: !Matched(t, job.a)
    modifies db`mappings, db`holds, db`mappingSteps
    ensures Going(db, job, first, []) && old(db.mappingSteps) <= db.mappingSteps
  {
    hide Going, Matched;
    assert unresolved[0..] == unresolved;
    for i := 0 to |unresolved|
      invariant Going(db, job, first, unresolved[i..]) && old(db.mappingSteps) <= db.mappingSteps
    {
      assert unresolved[i..] == [unresolved[i]] + unresolved[i + 1..];
      SubmitNext(db, job, first, unresolved[i], unresolved[i + 1..]);
    }
    assert unresolved[|unresolved|..] == [];
  }

  lemma NoneMatched(a: Answers, rows: seq<MTicket>)
    requires a.present.None?
    ensures forall t <- rows :: !Matched(t, a)
  {}

  /** One more hold check of its own before the submission. */
  method SubmitNext(db: Db, job: Job, ghost first: nat, t: MTicket, ghost rest: seq<MTicket>)
    requires Going(db, job, first, [t] + rest) && !Matched(t, job.a)
    modifies db`mappings, db`holds, db`mappingSteps
    ensures Going(db, job, first, rest) && old(db.mappingSteps) <= db.mappingSteps
  {
    hide Going, MarksBy, Matched, Sendable, Clear, Deserves;
    assert [] + [t] + rest == [t] + rest && [] + rest == rest;
    ghost var m;
    var deferred;
    deferred, m := DeferIfHeld(db, job, first, [], t, rest);
    if !deferred {
      m := SubmitMapping(db, job, first, t, rest);
    }
  }
}
