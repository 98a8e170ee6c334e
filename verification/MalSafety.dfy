/**
 No unvalidated MAL id is ever submitted, whatever the interleaving of harvest saves, holds,
 claims, handlers and recoveries.

 A step is one step of the mappings queue.  The parts of a save are separate steps, so workers
 may act between them.
 */
module MalSafety {
  import opened LocalDatabase
  import MappingHandler
  import opened QueueKeys
  import opened QueueProtocol
  import opened QueueRows
  import opened Titles

  type QState = State<MappingKey, string>
  type QStep = Step<MappingKey, string>

  /**
   The mappings queue, the most recently stored MAL id of each title, which only a validated
   result stores, and the titles whose save has stored it and has still to release the hold.
   */
  datatype Vetting = Vetting(queue: QState, validated: map<Key, string>, releasing: set<Key>)

  /**
   Any step of the queue; but an AniList or AniDB id is barred before it is stored, and a hold,
   always one on a MAL id, is only released by a save that has stored a validated id.
   */
  ghost predicate Allowed(s: Vetting, step: QStep, maxAttempts: int) {
    && Enabled(s.queue, step, maxAttempts)
    && match step
       case Upsert(k, _, _, _) => NeverSubmitted(k) ==> k in s.queue.barred
       case Unbar(k) => k == MalKey(k.title) && k.title in s.releasing
       case _ => true
  }

  ghost function Vet(s: Vetting, step: QStep): Vetting {
    var queue := Next(s.queue, step);
    match step
    case Upsert(k, id, _, _) =>
      if k.idType == "mal" then Vetting(queue, s.validated[k.title := id], s.releasing + {k.title})
      else s.(queue := queue)
    case Unbar(k) => s.(queue := queue, releasing := s.releasing - {k.title})
    case _ => s.(queue := queue)
  }

  /** Done with, one way or the other: no claim and no recovery touches it. */
  ghost predicate IsSettled(r: Row<string>) {
    r.status == Submitted || r.status == Failed
  }

  predicate Unsent<V>(r: Row<V>) {
    Waiting(r) || r.status == InFlight
  }

  /** A MAL row of a title without validation is under a hold or settled, and nobody has a ticket for it. */
  ghost predicate Guarded(s: Vetting) {
    && (forall k <- s.queue.rows :: k.idType == "mal" && k.title !in s.validated ==>
          k in s.queue.barred || IsSettled(s.queue.rows[k]))
    && (forall w <- s.queue.held, k :: k in s.queue.held[w] && k.idType == "mal" ==> k.title in s.validated)
  }

  /** The stored id of a validated title is the validated one. */
  ghost predicate Current(s: Vetting) {
    && s.releasing <= s.validated.Keys
    && forall t <- s.validated :: MalKey(t) in s.queue.rows && s.queue.rows[MalKey(t)].value == s.validated[t]
  }

  /** AniList and AniDB ids are barred and never handed out. */
  ghost predicate Quiet(s: Vetting) {
    NeverOnesBarred(s.queue) && forall w <- s.queue.held, k :: k in s.queue.held[w] ==> !NeverSubmitted(k)
  }

  ghost predicate Safe(s: Vetting) {
    Guarded(s) && Current(s) && Quiet(s)
  }

  /** The queue as the migration leaves it, with any rows and any history: exactly the unsent MAL ids are held. */
  ghost predicate Migrated(s: Vetting, holds: map<MappingKey, string>) {
    && s.queue.held == map[] && s.validated == map[] && s.releasing == {} && HoldsShown(s.queue, holds)
    && forall k :: k in holds <==> k in s.queue.rows && k.idType == "mal" && Unsent(s.queue.rows[k])
  }

  lemma MigratedIsSafe(s: Vetting, holds: map<MappingKey, string>)
    requires Migrated(s, holds)
    ensures Safe(s)
  {
    forall k | k in s.queue.rows && k.idType == "mal" && k !in s.queue.barred
      ensures IsSettled(s.queue.rows[k])
    {
      assert !NeverSubmitted(k) && k !in holds && !Unsent(s.queue.rows[k]);
    }
  }

  lemma StepKeepsSafe(s: Vetting, step: QStep, maxAttempts: int)
    requires Safe(s) && Allowed(s, step, maxAttempts)
    ensures Safe(Vet(s, step))
  {
    match step
    case Claim(w, keys, now) => ClaimKeeps(s, w, keys, now, maxAttempts);
    case Send(_, _) =>
    case Resolve(w, k, o) => ResolveKeeps(s, w, k, o);
    case ClearItemId(w, k) => ClearKeeps(s, w, k);
    case Recover(keys) => RecoverKeeps(s, keys, STALE);
    case Upsert(k, value, now, rowid) => UpsertKeeps(s, k, value, now, rowid);
    case Bar(k) => BarKeeps(s, k);
    case Unbar(k) => UnbarKeeps(s, k);
    case Shutdown => RecoverKeeps(s, InFlightKeys(s.queue.rows), RECOVERED);
  }

  /** What is handed out is neither held back nor settled, so its title is validated. */
  lemma ClaimKeeps(s: Vetting, w: nat, keys: set<MappingKey>, now: int, maxAttempts: int)
    requires Safe(s) && Allowed(s, Claim(w, keys, now), maxAttempts)
    ensures Safe(Vet(s, Claim(w, keys, now)))
  {
    var t := Vet(s, Claim(w, keys, now));
    forall k | k in keys
      ensures !NeverSubmitted(k) && (k.idType == "mal" ==> k.title in s.validated)
    {
      assert Due(s.queue.rows[k], now) && !IsSettled(s.queue.rows[k]);
    }
    forall v, k | v in t.queue.held && k in t.queue.held[v]
      ensures k in keys || (v in s.queue.held && k in s.queue.held[v])
    {}
    hide NeverSubmitted;
  }

  lemma ResolveKeeps(s: Vetting, w: nat, k: MappingKey, o: Outcome)
    requires Safe(s) && k in s.queue.Of(w)
    ensures Safe(Vet(s, Resolve(w, k, o)))
  {
    hide IsSettled, NeverSubmitted;
    var t := Vet(s, Resolve(w, k, o));
    assert k in s.queue.rows ==> QueueRows.After(s.queue.rows[k], o).value == s.queue.rows[k].value;
    hide QueueRows.After;
    forall v, j | v in t.queue.held && j in t.queue.held[v]
      ensures v in s.queue.held && j in s.queue.held[v]
    {}
    assert k.idType == "mal" ==> k.title in s.validated;
  }

  lemma ClearKeeps(s: Vetting, w: nat, k: MappingKey)
    requires Safe(s)
    ensures Safe(Vet(s, ClearItemId(w, k)))
  {
    hide NeverSubmitted;
  }

  lemma RecoverKeeps(s: Vetting, keys: set<MappingKey>, note: string)
    requires Safe(s) && forall k <- keys :: k in s.queue.rows && s.queue.rows[k].status == InFlight
    ensures Safe(s.(queue := s.queue.(rows := RecoverAll(s.queue.rows, keys, note))))
    ensures Safe(s.(queue := s.queue.(rows := RecoverAll(s.queue.rows, keys, note), held := map[])))
  {
    hide NeverSubmitted;
  }

  lemma UpsertKeeps(s: Vetting, k: MappingKey, value: string, now: int, rowid: nat)
    requires Safe(s) && (NeverSubmitted(k) ==> k in s.queue.barred)
    ensures Safe(Vet(s, Upsert(k, value, now, rowid)))
  {
    var t := Vet(s, Upsert(k, value, now, rowid));
    assert k in t.queue.rows && t.queue.rows[k].value == value && t.queue.rows.Keys == s.queue.rows.Keys + {k};
    hide Safe, NeverSubmitted, Upserted;
    OneRowStored(s, t, k, value);
  }

  lemma OneRowStored(s: Vetting, t: Vetting, k: MappingKey, value: string)
    requires Safe(s) && (NeverSubmitted(k) ==> k in s.queue.barred)
    requires t.queue.held == s.queue.held && t.queue.barred == s.queue.barred
    requires t.queue.rows.Keys == s.queue.rows.Keys + {k} && t.queue.rows[k].value == value
    requires forall j <- s.queue.rows :: j != k ==> t.queue.rows[j] == s.queue.rows[j]
    requires if k.idType == "mal"
             then t.validated == s.validated[k.title := value] && t.releasing == s.releasing + {k.title}
             else t.validated == s.validated && t.releasing == s.releasing
    ensures Safe(t)
  {
    hide IsSettled, NeverSubmitted;
    forall title | title in t.validated
      ensures MalKey(title) in t.queue.rows && t.queue.rows[MalKey(title)].value == t.validated[title]
    {
      if MalKey(title) != k {
        assert title in s.validated;
      }
    }
  }

  lemma BarKeeps(s: Vetting, k: MappingKey)
    requires Safe(s)
    ensures Safe(Vet(s, Bar(k)))
  {
    hide NeverSubmitted;
  }

  lemma UnbarKeeps(s: Vetting, k: MappingKey)
    requires Safe(s) && k == MalKey(k.title) && k.title in s.releasing
    ensures Safe(Vet(s, Unbar(k)))
  {}

  // ---------- runs ----------

  ghost function Vetted(s: Vetting, steps: seq<QStep>): Vetting {
    if steps == [] then s else Vet(Vetted(s, steps[..|steps| - 1]), steps[|steps| - 1])
  }

  ghost predicate AllAllowed(s: Vetting, steps: seq<QStep>, maxAttempts: int) {
    steps == [] || (AllAllowed(s, steps[..|steps| - 1], maxAttempts)
                    && Allowed(Vetted(s, steps[..|steps| - 1]), steps[|steps| - 1], maxAttempts))
  }

  lemma {:induction false} RunKeepsSafe(s: Vetting, steps: seq<QStep>, maxAttempts: int)
    requires Safe(s) && AllAllowed(s, steps, maxAttempts)
    ensures Safe(Vetted(s, steps))
    ensures Vetted(s, steps).queue == End(s.queue, steps) && Runs(s.queue, steps, maxAttempts)
  {
    hide Safe, Next, Enabled;
    if steps != [] {
      var init := steps[..|steps| - 1];
      RunKeepsSafe(s, init, maxAttempts);
      StepKeepsSafe(Vetted(s, init), steps[|steps| - 1], maxAttempts);
    }
  }

  lemma OneMoreVetted(s: Vetting, steps: seq<QStep>, step: QStep, maxAttempts: int)
    requires AllAllowed(s, steps, maxAttempts) && Allowed(Vetted(s, steps), step, maxAttempts)
    ensures AllAllowed(s, steps + [step], maxAttempts)
    ensures Vetted(s, steps + [step]) == Vet(Vetted(s, steps), step)
  {
    hide Allowed, Vet;
    assert (steps + [step])[..|steps|] == steps;
  }

  /** Whatever workers, lease recovery and shutdown do is allowed and validates nothing. */
  lemma {:induction false} WorkersAreAllowed(s: Vetting, steps: seq<QStep>, maxAttempts: int)
    requires Runs(s.queue, steps, maxAttempts)
    requires forall step <- steps :: !step.Upsert? && !step.Unbar?
    ensures AllAllowed(s, steps, maxAttempts)
    ensures Vetted(s, steps) == s.(queue := End(s.queue, steps))
  {
    hide Next, Enabled;
    if steps != [] {
      var init, last := steps[..|steps| - 1], steps[|steps| - 1];
      WorkersAreAllowed(s, init, maxAttempts);
      assert last in steps;
    }
  }

  lemma {:induction false} EarlierAllowed(s: Vetting, steps: seq<QStep>, p: nat, maxAttempts: int)
    requires AllAllowed(s, steps, maxAttempts) && p < |steps|
    ensures AllAllowed(s, steps[..p], maxAttempts) && Allowed(Vetted(s, steps[..p]), steps[p], maxAttempts)
  {
    hide Allowed, Vetted;
    var init := steps[..|steps| - 1];
    if p < |init| {
      EarlierAllowed(s, init, p, maxAttempts);
      assert init[..p] == steps[..p];
    }
  }

  /**
   Step `p` is the start of a call to PMDB, or declares a mapping sent on the strength of a check
   at that very step, as the preflight does with what PMDB already has.
   */
  ghost predicate Submits(s: Vetting, steps: seq<QStep>, p: nat)
    requires p < |steps|
  {
    match steps[p]
    case Send(_, _) => true
    case Resolve(w, k, o) => o.Sent? && Clear(End(s.queue, steps[..p]), w, k)
    case _ => false
  }

  /** The value a worker has in hand is the one most recently validated, and nothing holds it back. */
  ghost predicate MayBeSent(s: Vetting, worker: nat, k: MappingKey) {
    && k in s.queue.Of(worker) && !NeverSubmitted(k) && k !in s.queue.barred
    && (k.idType == "mal" ==> k.title in s.validated && s.queue.Of(worker)[k].value == s.validated[k.title])
  }

  /**
   At every step of every run from a migrated database that submits a mapping or declares it
   sent, no hold is in force, a MAL id is the one most recently validated for its title, and it
   is never an AniList or AniDB id.
   */
  lemma OnlyValidatedIdsAreSubmitted(
    s: Vetting, migrated: map<MappingKey, string>, steps: seq<QStep>, p: nat, maxAttempts: int)
    requires Migrated(s, migrated) && AllAllowed(s, steps, maxAttempts)
    requires p < |steps| && Submits(s, steps, p)
    ensures MayBeSent(Vetted(s, steps[..p]), steps[p].worker, steps[p].key)
  {
    MigratedIsSafe(s, migrated);
    SubmissionIsSafe(s, steps, p, maxAttempts);
  }

  lemma SubmissionIsSafe(s: Vetting, steps: seq<QStep>, p: nat, maxAttempts: int)
    requires Safe(s) && AllAllowed(s, steps, maxAttempts) && p < |steps| && Submits(s, steps, p)
    ensures MayBeSent(Vetted(s, steps[..p]), steps[p].worker, steps[p].key)
  {
    EarlierAllowed(s, steps, p, maxAttempts);
    RunKeepsSafe(s, steps[..p], maxAttempts);
    hide AllAllowed, Vetted, End, Runs;
    ClearIsSafe(Vetted(s, steps[..p]), steps[p].worker, steps[p].key);
  }

  lemma ClearIsSafe(s: Vetting, worker: nat, k: MappingKey)
    requires Safe(s) && Clear(s.queue, worker, k)
    ensures MayBeSent(s, worker, k)
  {
    assert k.idType == "mal" ==> k == MalKey(k.title);
  }

  lemma {:induction false} CheckedAt(job: MappingHandler.Job, steps: seq<QStep>, p: nat)
    requires job.Checked(steps) && p < |steps|
    ensures job.Legit(steps[..p], steps[p])
  {
    hide MappingHandler.Job.Legit;
    var init := steps[..|steps| - 1];
    if p < |init| {
      CheckedAt(job, init, p);
      assert init[..p] == steps[..p];
    }
  }

  /**
   The group handler starts at most one call for a mapping, none for what the lookup shows, and
   none for what it puts back later; so a mapping put back and claimed again was not sent twice.
   */
  lemma NoCallIsRepeated(job: MappingHandler.Job, steps: seq<QStep>, p: nat, q: nat, k: MappingKey)
    requires job.Checked(steps) && p < q < |steps| && steps[p] == Send(job.worker, k)
    ensures steps[q] != Send(job.worker, k) && !job.MatchedKey(k)
    ensures steps[q] != Resolve(job.worker, k, Deferred)
  {
    CheckedAt(job, steps, p);
    CheckedAt(job, steps, q);
    hide MappingHandler.Job.MatchedKey, MappingHandler.Job.Checked, Clear, End;
    assert steps[..q][p] == Send(job.worker, k);
  }

  /**
   So the group handler, in a run that starts from a safe state: for whatever it lets go of other
   than by putting it back, it had started a call, or found it at PMDB at that very step, while its
   id was the validated one and under no hold.
   */
  lemma HandlerSubmitsOnlyValidated(s: Vetting, job: MappingHandler.Job, steps: seq<QStep>, p: nat, maxAttempts: int)
    requires Safe(s) && s.queue == job.start && AllAllowed(s, steps, maxAttempts) && job.Checked(steps)
    requires p < |steps| && steps[p].Resolve? && steps[p].worker == job.worker && !steps[p].outcome.Deferred?
    ensures var k := steps[p].key;
            exists q :: 0 <= q <= p && MayBeSent(Vetted(s, steps[..q]), job.worker, k)
                        && if q == p then job.MatchedKey(k) else steps[q] == Send(job.worker, k)
  {
    CheckedAt(job, steps, p);
    var k := steps[p].key;
    hide AllAllowed, Safe, Vetted, MayBeSent, Clear, End, MappingHandler.Job.MatchedKey, MappingHandler.Job.Checked;
    if job.MatchedKey(k) {
      EarlierAllowed(s, steps, p, maxAttempts);
      RunKeepsSafe(s, steps[..p], maxAttempts);
      ClearIsSafe(Vetted(s, steps[..p]), job.worker, k);
    } else {
      var q :| 0 <= q < p && steps[..p][q] == Send(job.worker, k);
      SubmissionIsSafe(s, steps, q, maxAttempts);
    }
  }

  /**
   The order matters: a hold may be released exactly when its title has been validated, or
   when there is no unsent row that the release would let through.
   */
  lemma ReleasingNeedsValidation(s: Vetting, title: Key)
    requires Safe(s)
    ensures Safe(Vet(s, Unbar(MalKey(title))))
            <==> title in s.validated || MalKey(title) !in s.queue.rows || IsSettled(s.queue.rows[MalKey(title)])
  {
    var t := Vet(s, Unbar(MalKey(title)));
    forall k | k in t.queue.rows && k.idType == "mal" && k != MalKey(title)
      ensures k in t.queue.barred <==> k in s.queue.barred
    {}
    assert forall k: MappingKey :: k.idType == "mal" && k.title == title ==> k == MalKey(title);
  }
}
