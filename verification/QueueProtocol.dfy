/**
 One queue table shared by many workers, the harvester and lease recovery.

 A step is one synchronous database call; any interleaving of the tasks is a sequence of steps.
 PMDB's answers and the clock show up as arbitrary outcomes, times and key sets.  The start of
 a call to PMDB that is made only after a last check of the row is a step as well, `Send`.
 */
module QueueProtocol {
  import opened Wrappers
  import opened QueueRows

  /**
   `held` is what each worker has claimed and not let go of, with the rows as they were handed
   out; `barred` are the keys under a hold; `sent` is the value PMDB last got for a key.
   */
  datatype State<K, V> = State(
    rows: Table<K, V>, held: map<nat, map<K, Row<V>>>, barred: set<K>, sent: map<K, V>)
  {
    function Of(worker: nat): map<K, Row<V>> {
      if worker in held then held[worker] else map[]
    }
  }

  datatype Step<K, V> =
    | Claim(worker: nat, keys: set<K>, now: int)
    | Send(worker: nat, key: K)
    | Resolve(worker: nat, key: K, outcome: Outcome)
    | ClearItemId(worker: nat, key: K)
    | Recover(keys: set<K>)
    | Upsert(key: K, value: V, now: int, rowid: nat)
    | Bar(key: K)
    | Unbar(key: K)
    | Shutdown

  predicate IsHeld<K, V>(s: State<K, V>, k: K) {
    exists w <- s.held :: k in s.held[w]
  }

  /** The last check before a claimed row is sent: it still has the claimed value, and no hold. */
  predicate Clear<K, V(==)>(s: State<K, V>, worker: nat, k: K) {
    k in s.Of(worker) && k in s.rows && s.rows[k].value == s.Of(worker)[k].value && k !in s.barred
  }

  /**
   What the code does: idle workers claim due rows without a hold, send only after the last
   check, put back only what fails it, and keep to their budget.
   */
  predicate Enabled<K, V(==)>(s: State<K, V>, step: Step<K, V>, maxAttempts: int) {
    match step
    case Claim(w, keys, now) =>
      && s.Of(w).Keys == {} && keys != {} && keys !! s.barred
      && forall k <- keys :: k in s.rows && Due(s.rows[k], now)
    case Send(w, k) => Clear(s, w, k)
    case Resolve(w, k, o) =>
      k in s.Of(w) && FitsBudget(o, s.Of(w)[k].attempts, maxAttempts) && (o.Deferred? ==> !Clear(s, w, k))
    case ClearItemId(w, k) => k in s.Of(w)
    case Recover(keys) => forall k <- keys :: k in s.rows && s.rows[k].status == InFlight
    case _ => true
  }

  function Taken<K, V>(rows: Table<K, V>, keys: set<K>): map<K, Row<V>> {
    map k | k in rows && k in keys :: rows[k]
  }

  function Next<K(!new), V(==)>(s: State<K, V>, step: Step<K, V>): State<K, V> {
    match step
    case Claim(w, keys, now) => s.(rows := ClaimAll(s.rows, keys, now), held := s.held[w := Taken(s.rows, keys)])
    case Send(_, _) => s
    case Resolve(w, k, o) =>
      s.(rows := Put(s.rows, k, o), held := s.held[w := s.Of(w) - {k}],
         sent := if o.Sent? && k in s.Of(w) then s.sent[k := s.Of(w)[k].value] else s.sent)
    case ClearItemId(_, k) => if k in s.rows then s.(rows := s.rows[k := s.rows[k].(itemId := None)]) else s
    case Recover(keys) => s.(rows := RecoverAll(s.rows, keys, STALE))
    case Upsert(k, value, now, rowid) => s.(rows := Stored(s.rows, k, value, now, rowid))
    case Bar(k) => s.(barred := s.barred + {k})
    case Unbar(k) => s.(barred := s.barred - {k})
    case Shutdown => s.(rows := RecoverAll(s.rows, InFlightKeys(s.rows), RECOVERED), held := map[])
  }

  // ---------- the invariant ----------

  ghost predicate Exclusive<K(!new), V>(s: State<K, V>) {
    forall v <- s.held, w <- s.held, k :: k in s.held[v] && k in s.held[w] ==> v == w
  }

  /** Every holder's row is still in flight with the claimed value and attempt count. */
  ghost predicate Faithful<K(!new), V>(s: State<K, V>) {
    forall w <- s.held, k :: k in s.held[w] ==> k in s.rows && HeldAs(s.rows[k], s.held[w][k])
  }

  ghost predicate WithinBudget<K(!new), V>(s: State<K, V>, maxAttempts: int) {
    forall k <- s.rows :: Waiting(s.rows[k]) || s.rows[k].status == InFlight ==> s.rows[k].attempts < maxAttempts
  }

  /** A submitted row shows the value PMDB got. */
  ghost predicate Truthful<K(!new), V>(s: State<K, V>) {
    forall k <- s.rows :: s.rows[k].status == Submitted ==> k in s.sent && s.sent[k] == s.rows[k].value
  }

  ghost predicate Inv<K(!new), V>(s: State<K, V>, maxAttempts: int) {
    Exclusive(s) && Faithful(s) && WithinBudget(s, maxAttempts) && Truthful(s)
  }

  /** A recovery of rows nobody holds; an upsert that does not change a value somebody is sending. */
  ghost predicate Harmless<K, V>(s: State<K, V>, step: Step<K, V>) {
    match step
    case Recover(keys) => forall k <- keys :: !IsHeld(s, k)
    case Upsert(k, value, _, _) => k in s.rows && s.rows[k].value != value ==> !IsHeld(s, k)
    case _ => true
  }

  /** The invariant survives exactly the harmless steps. */
  lemma KeptExactlyByHarmlessSteps<K(!new), V>(s: State<K, V>, step: Step<K, V>, maxAttempts: int)
    requires Inv(s, maxAttempts) && Enabled(s, step, maxAttempts) && maxAttempts >= 1
    ensures Inv(Next(s, step), maxAttempts) <==> Harmless(s, step)
  {
    match step
    case Claim(w, keys, now) => ClaimKeeps(s, w, keys, now, maxAttempts);
    case Send(_, _) =>
    case Resolve(w, k, o) => ResolveKeeps(s, w, k, o, maxAttempts);
    case ClearItemId(w, k) => assert s.held == Next(s, step).held;
    case Recover(keys) => RecoverKeeps(s, keys, maxAttempts);
    case Upsert(k, value, now, rowid) => UpsertKeeps(s, k, value, now, rowid, maxAttempts);
    case Bar(_) =>
    case Unbar(_) =>
    case Shutdown =>
  }

  lemma ClaimKeeps<K(!new), V>(s: State<K, V>, w: nat, keys: set<K>, now: int, maxAttempts: int)
    requires Inv(s, maxAttempts) && Enabled(s, Claim(w, keys, now), maxAttempts)
    ensures Inv(Next(s, Claim(w, keys, now)), maxAttempts)
  {
    var t := Next(s, Claim(w, keys, now));
    HeldAreNotDue(s, keys, now);
    assert Exclusive(t) && Faithful(t) by {
      hide WithinBudget, Truthful, HeldAs, Due, ClaimAll;
      ClaimKeepsHolders(s, w, keys, now);
    }
    hide Exclusive, Faithful, Taken;
    assert forall k <- t.rows :: k in s.rows && t.rows[k] == if k in keys then Claimed(s.rows[k], now) else s.rows[k];
  }

  lemma HeldAreNotDue<K(!new), V>(s: State<K, V>, keys: set<K>, now: int)
    requires Faithful(s) && forall k <- keys :: k in s.rows && Due(s.rows[k], now)
    ensures forall w <- s.held, k <- keys :: k !in s.held[w]
  {
    forall w, k | w in s.held && k in s.held[w]
      ensures k !in keys
    {
      assert HeldAs(s.rows[k], s.held[w][k]);
    }
  }

  lemma ClaimKeepsHolders<K(!new), V>(s: State<K, V>, w: nat, keys: set<K>, now: int)
    requires Exclusive(s) && Faithful(s) && s.Of(w).Keys == {}
    requires forall v <- s.held, k <- keys :: k !in s.held[v]
    ensures Exclusive(Next(s, Claim(w, keys, now))) && Faithful(Next(s, Claim(w, keys, now)))
  {
    hide Due, Exclusive, HeldAs;
    var t := Next(s, Claim(w, keys, now));
    forall v, k | v in t.held && k in t.held[v]
      ensures k in t.rows && HeldAs(t.rows[k], t.held[v][k])
    {
      if v != w {
        assert k in s.held[v] && HeldAs(s.rows[k], s.held[v][k]);
      } else {
        ClaimedIsHeldAs(s.rows[k], now);
      }
    }
    ClaimKeepsExclusive(s, w, keys, now);
  }

  lemma ClaimedIsHeldAs<V>(row: Row<V>, now: int)
    ensures HeldAs(Claimed(row, now), row)
  {}

  lemma ClaimKeepsExclusive<K(!new), V>(s: State<K, V>, w: nat, keys: set<K>, now: int)
    requires Exclusive(s) && s.Of(w).Keys == {}
    requires forall v <- s.held, k <- keys :: k !in s.held[v]
    ensures Exclusive(Next(s, Claim(w, keys, now)))
  {
    hide Due;
  }

  lemma ResolveKeeps<K(!new), V>(s: State<K, V>, w: nat, k: K, o: Outcome, maxAttempts: int)
    requires Inv(s, maxAttempts) && Enabled(s, Resolve(w, k, o), maxAttempts)
    ensures Inv(Next(s, Resolve(w, k, o)), maxAttempts)
  {
    assert HeldAs(s.rows[k], s.held[w][k]);
    ResolveKeepsHolders(s, w, k, o);
    ResolvedRow(s.rows[k], s.held[w][k], o, maxAttempts);
    hide Exclusive, Faithful, HeldAs, FitsBudget, QueueRows.After;
    var t := Next(s, Resolve(w, k, o));
    assert forall j <- t.rows :: j != k ==> j in s.rows && t.rows[j] == s.rows[j];
  }

  /** No ticket is new, and the rows of the open ones are as before. */
  lemma HoldersKept<K(!new), V>(s: State<K, V>, t: State<K, V>)
    requires Exclusive(s) && Faithful(s)
    requires forall w <- t.held, k :: k in t.held[w] ==> w in s.held && k in s.held[w] && t.held[w][k] == s.held[w][k]
    requires forall w <- t.held, k :: k in t.held[w] ==> k in s.rows ==> k in t.rows && t.rows[k] == s.rows[k]
    ensures Exclusive(t) && Faithful(t)
  {
    hide HeldAs;
    forall w, k | w in t.held && k in t.held[w]
      ensures k in t.rows && HeldAs(t.rows[k], t.held[w][k])
    {
      assert HeldAs(s.rows[k], s.held[w][k]);
    }
  }

  lemma ResolveKeepsHolders<K(!new), V>(s: State<K, V>, w: nat, k: K, o: Outcome)
    requires Exclusive(s) && Faithful(s) && k in s.Of(w)
    ensures Exclusive(Next(s, Resolve(w, k, o))) && Faithful(Next(s, Resolve(w, k, o)))
  {
    var t := Next(s, Resolve(w, k, o));
    assert forall v <- t.held, j :: j in t.held[v] ==>
           j != k && v in s.held && j in s.held[v] && t.held[v][j] == s.held[v][j];
    hide Exclusive, Faithful, QueueRows.After, HeldAs;
    HoldersKept(s, t);
  }

  /** The row of a resolved ticket: out of flight, and back in the queue only within its budget. */
  lemma ResolvedRow<V>(r: Row<V>, claimed: Row<V>, o: Outcome, maxAttempts: int)
    requires HeldAs(r, claimed) && FitsBudget(o, claimed.attempts, maxAttempts) && r.attempts < maxAttempts
    ensures var after := QueueRows.After(r, o);
            && after.status != InFlight && after.value == r.value
            && (after.status == Submitted <==> o.Sent?)
            && (Waiting(after) ==> after.attempts < maxAttempts)
  {}

  lemma RecoverKeeps<K(!new), V>(s: State<K, V>, keys: set<K>, maxAttempts: int)
    requires Inv(s, maxAttempts) && Enabled(s, Recover(keys), maxAttempts)
    ensures Inv(Next(s, Recover(keys)), maxAttempts) <==> Harmless(s, Recover(keys))
  {
    var t := Next(s, Recover(keys));
    if Harmless(s, Recover(keys)) {
      assert forall w <- s.held, k :: k in s.held[w] ==> IsHeld(s, k);
      assert Exclusive(t) && Faithful(t) by {
        hide Exclusive, Faithful, HeldAs, WithinBudget, Truthful;
        HoldersKept(s, t);
      }
      hide Exclusive, Faithful, HeldAs, IsHeld;
      assert forall k <- t.rows ::
          k in s.rows && t.rows[k] == if k in keys then Recovered(s.rows[k], STALE) else s.rows[k];
    } else {
      var k :| k in keys && IsHeld(s, k);
      var w :| w in s.held && k in s.held[w];
      assert !HeldAs(t.rows[k], t.held[w][k]);
    }
  }

  lemma UpsertKeeps<K(!new), V>(s: State<K, V>, k: K, value: V, now: int, rowid: nat, maxAttempts: int)
    requires Inv(s, maxAttempts) && maxAttempts >= 1
    ensures Inv(Next(s, Upsert(k, value, now, rowid)), maxAttempts) <==> Harmless(s, Upsert(k, value, now, rowid))
  {
    var t := Next(s, Upsert(k, value, now, rowid));
    if Harmless(s, Upsert(k, value, now, rowid)) {
      forall w, j | w in t.held && j in t.held[w]
        ensures j in t.rows && HeldAs(t.rows[j], t.held[w][j])
      {
        assert HeldAs(s.rows[j], s.held[w][j]) && IsHeld(s, j);
      }
    } else {
      var w :| w in s.held && k in s.held[w];
      assert !HeldAs(t.rows[k], t.held[w][k]);
    }
  }

  // ---------- runs ----------

  function End<K(!new), V(==)>(s: State<K, V>, steps: seq<Step<K, V>>): State<K, V> {
    if steps == [] then s else Next(End(s, steps[..|steps| - 1]), steps[|steps| - 1])
  }

  ghost predicate Runs<K(!new), V>(s: State<K, V>, steps: seq<Step<K, V>>, maxAttempts: int) {
    steps == [] || (Runs(s, steps[..|steps| - 1], maxAttempts)
                    && Enabled(End(s, steps[..|steps| - 1]), steps[|steps| - 1], maxAttempts))
  }

  ghost predicate AllHarmless<K(!new), V>(s: State<K, V>, steps: seq<Step<K, V>>) {
    steps == [] || (AllHarmless(s, steps[..|steps| - 1]) && Harmless(End(s, steps[..|steps| - 1]), steps[|steps| - 1]))
  }

  /** Startup: nobody holds anything, nothing is in flight, and what is submitted was sent. */
  ghost predicate Started<K(!new), V>(s: State<K, V>, maxAttempts: int) {
    && s.held == map[] && InFlightKeys(s.rows) == {}
    && WithinBudget(s, maxAttempts) && Truthful(s)
  }

  /** Over a whole run of harmless steps, in any interleaving, the invariant holds. */
  lemma {:induction false} HarmlessRunsKeepInv<K(!new), V>(s: State<K, V>, steps: seq<Step<K, V>>, maxAttempts: int)
    requires Inv(s, maxAttempts) || Started(s, maxAttempts)
    requires maxAttempts >= 1 && Runs(s, steps, maxAttempts) && AllHarmless(s, steps)
    ensures Inv(End(s, steps), maxAttempts)
  {
    if steps != [] {
      var init := steps[..|steps| - 1];
      HarmlessRunsKeepInv(s, init, maxAttempts);
      KeptExactlyByHarmlessSteps(End(s, init), steps[|steps| - 1], maxAttempts);
    }
  }

  /** A run from `s` to `t`. */
  ghost predicate Went<K(!new), V>(s: State<K, V>, steps: seq<Step<K, V>>, t: State<K, V>, maxAttempts: int) {
    Runs(s, steps, maxAttempts) && t == End(s, steps)
  }

  lemma StandsStill<K(!new), V>(s: State<K, V>, maxAttempts: int)
    ensures Went(s, [], s, maxAttempts) && AllHarmless(s, [])
  {}

  lemma GoesOn<K(!new), V>(s: State<K, V>, steps: seq<Step<K, V>>, t: State<K, V>, step: Step<K, V>, maxAttempts: int)
    requires Went(s, steps, t, maxAttempts) && Enabled(t, step, maxAttempts)
    ensures Went(s, steps + [step], Next(t, step), maxAttempts)
    ensures AllHarmless(s, steps + [step]) <==> AllHarmless(s, steps) && Harmless(t, step)
  {
    hide Enabled, Harmless, Next;
    assert (steps + [step])[..|steps|] == steps;
  }

  lemma {:induction false} RunsJoin<K(!new), V>(
    s: State<K, V>, a: seq<Step<K, V>>, t: State<K, V>, b: seq<Step<K, V>>, u: State<K, V>, maxAttempts: int)
    requires Went(s, a, t, maxAttempts) && Went(t, b, u, maxAttempts)
    ensures Went(s, a + b, u, maxAttempts)
    ensures AllHarmless(s, a + b) <==> AllHarmless(s, a) && AllHarmless(t, b)
  {
    hide Enabled, Harmless, Next;
    if b == [] {
      assert a + b == a;
    } else {
      var init, last := b[..|b| - 1], b[|b| - 1];
      RunsJoin(s, a, t, init, End(t, init), maxAttempts);
      GoesOn(s, a + init, End(t, init), last, maxAttempts);
      assert (a + init) + [last] == a + b;
    }
  }

  // ---------- what a waiting handler may rely on ----------

  /** A step of somebody else: not a handler call of this worker, and not the shutdown that cancels it. */
  predicate ByOthers<K, V>(step: Step<K, V>, worker: nat) {
    match step
    case Claim(w, _, _) => w != worker
    case Send(w, _) => w != worker
    case Resolve(w, _, _) => w != worker
    case ClearItemId(w, _) => w != worker
    case Shutdown => false
    case _ => true
  }

  /** Whatever others do, the worker's tickets stay its own, and no row goes away. */
  lemma OneStepLeavesTickets<K(!new), V>(s: State<K, V>, step: Step<K, V>, worker: nat)
    requires ByOthers(step, worker)
    ensures Next(s, step).Of(worker) == s.Of(worker)
  {}

  lemma OneStepKeepsKeys<K(!new), V>(s: State<K, V>, step: Step<K, V>)
    ensures s.rows.Keys <= Next(s, step).rows.Keys
  {}

  lemma {:induction false} KeysStay<K(!new), V>(s: State<K, V>, steps: seq<Step<K, V>>)
    ensures s.rows.Keys <= End(s, steps).rows.Keys
  {
    hide Next;
    if steps != [] {
      KeysStay(s, steps[..|steps| - 1]);
      OneStepKeepsKeys(End(s, steps[..|steps| - 1]), steps[|steps| - 1]);
    }
  }

  /** While a worker waits, its tickets stay its own and their rows change in nothing but the fetch time. */
  ghost predicate Undisturbed<K(!new), V>(s: State<K, V>, t: State<K, V>, worker: nat) {
    && t.Of(worker) == s.Of(worker)
    && forall k <- s.Of(worker) :: k in s.rows && k in t.rows && Kept(s.rows[k], t.rows[k])
  }

  lemma OneStepUndisturbed<K(!new), V>(s: State<K, V>, step: Step<K, V>, worker: nat, maxAttempts: int)
    requires Inv(s, maxAttempts) && Enabled(s, step, maxAttempts) && Harmless(s, step) && ByOthers(step, worker)
    ensures Undisturbed(s, Next(s, step), worker)
  {
    OneStepLeavesTickets(s, step, worker);
    forall k | k in s.Of(worker)
      ensures k in s.rows && k in Next(s, step).rows && Kept(s.rows[k], Next(s, step).rows[k])
    {
      OneRowUndisturbed(s, step, worker, k, maxAttempts);
    }
  }

  lemma OneRowUndisturbed<K(!new), V>(s: State<K, V>, step: Step<K, V>, worker: nat, k: K, maxAttempts: int)
    requires Exclusive(s) && Faithful(s) && k in s.Of(worker)
    requires Enabled(s, step, maxAttempts) && Harmless(s, step) && ByOthers(step, worker)
    ensures k in s.rows && k in Next(s, step).rows && Kept(s.rows[k], Next(s, step).rows[k])
  {
    hide FitsBudget, QueueRows.After, Clear;
    assert HeldAs(s.rows[k], s.held[worker][k]);
    assert IsHeld(s, k);
  }

  lemma UndisturbedOn<K(!new), V>(s: State<K, V>, t: State<K, V>, u: State<K, V>, worker: nat)
    requires Undisturbed(s, t, worker) && Undisturbed(t, u, worker)
    ensures Undisturbed(s, u, worker)
  {}

  lemma {:induction false} OthersDoNotDisturb<K(!new), V>(
    s: State<K, V>, steps: seq<Step<K, V>>, worker: nat, maxAttempts: int)
    requires Inv(s, maxAttempts) && maxAttempts >= 1
    requires Runs(s, steps, maxAttempts) && AllHarmless(s, steps) && forall step <- steps :: ByOthers(step, worker)
    ensures Undisturbed(s, End(s, steps), worker)
  {
    hide Inv, Next, Enabled, Harmless, Undisturbed;
    if steps == [] {
      StandingStill(s, worker, maxAttempts);
    } else {
      var init, last := steps[..|steps| - 1], steps[|steps| - 1];
      OthersDoNotDisturb(s, init, worker, maxAttempts);
      HarmlessRunsKeepInv(s, init, maxAttempts);
      OneStepUndisturbed(End(s, init), last, worker, maxAttempts);
      UndisturbedOn(s, End(s, init), Next(End(s, init), last), worker);
    }
  }

  lemma StandingStill<K(!new), V>(s: State<K, V>, worker: nat, maxAttempts: int)
    requires Inv(s, maxAttempts)
    ensures Undisturbed(s, s, worker)
  {
    forall k | k in s.Of(worker)
      ensures k in s.rows && Kept(s.rows[k], s.rows[k])
    {
      assert HeldAs(s.rows[k], s.held[worker][k]);
    }
  }

  // ---------- rows in flight ----------

  /** Every row in flight has a holder: so it is after startup, and nothing but a cancelled task changes it. */
  ghost predicate NoOrphans<K(!new), V>(s: State<K, V>) {
    forall k <- s.rows :: s.rows[k].status == InFlight ==> IsHeld(s, k)
  }

  lemma NoOrphansKept<K(!new), V>(s: State<K, V>, step: Step<K, V>, maxAttempts: int)
    requires Inv(s, maxAttempts) && Enabled(s, step, maxAttempts) && NoOrphans(s)
    ensures NoOrphans(Next(s, step))
  {
    hide WithinBudget, Truthful, FitsBudget, Exclusive;
    var t := Next(s, step);
    forall k | k in t.rows && t.rows[k].status == InFlight
      ensures IsHeld(t, k)
    {
      if step.Claim? && k in step.keys {
        assert k in t.held[step.worker];
      } else {
        var w :| w in s.held && k in s.held[w];
        assert k in t.held[w];
      }
    }
  }

  /** The queue is in order: its invariant holds, and everything in flight is in somebody's hands. */
  ghost predicate InOrder<K(!new), V>(s: State<K, V>, maxAttempts: int) {
    maxAttempts >= 1 && Inv(s, maxAttempts) && NoOrphans(s)
  }

  lemma InOrderKept<K(!new), V>(s: State<K, V>, step: Step<K, V>, maxAttempts: int)
    requires InOrder(s, maxAttempts) && Enabled(s, step, maxAttempts) && Harmless(s, step)
    ensures InOrder(Next(s, step), maxAttempts)
  {
    hide Inv, NoOrphans, Enabled, Harmless, Next;
    KeptExactlyByHarmlessSteps(s, step, maxAttempts);
    NoOrphansKept(s, step, maxAttempts);
  }

  // ---------- leases ----------

  /** The lease loop is harmless as long as no live worker has held a row for a whole lease. */
  lemma YoungLeasesAreNotRecovered<K(!new), V>(s: State<K, V>, leaseSeconds: int, now: int)
    requires forall k <- s.rows :: IsHeld(s, k) ==>
               s.rows[k].claimedAt.Some? && s.rows[k].claimedAt.value > now - 30
                 && s.rows[k].claimedAt.value > now - leaseSeconds
    ensures Harmless(s, Recover(StaleKeys(s.rows, leaseSeconds, now)))
  {}

  // ---------- what harmful steps do ----------

  /** Whenever a row that a live worker holds is recovered, any idle worker can claim it as well. */
  lemma RecoveredLiveRowGetsSecondHolder<K(!new), V>(
    s: State<K, V>, holder: nat, idle: nat, k: K, now: int, maxAttempts: int)
    requires Inv(s, maxAttempts) && k in s.Of(holder) && s.Of(idle).Keys == {} && k !in s.barred && now >= 0
    ensures Enabled(s, Recover({k}), maxAttempts)
    ensures Enabled(Next(s, Recover({k})), Claim(idle, {k}, now), maxAttempts)
    ensures !Exclusive(Next(Next(s, Recover({k})), Claim(idle, {k}, now)))
  {
    hide WithinBudget, Truthful, Exclusive;
    assert HeldAs(s.rows[k], s.held[holder][k]);
    var t := Next(s, Recover({k}));
    assert Due(t.rows[k], now) && t.held == s.held && t.barred == s.barred;
    var u := Next(t, Claim(idle, {k}, now));
    assert holder in u.held && k in u.held[holder] && k in u.held[idle];
    TwoHolders(u, holder, idle, k);
  }

  lemma TwoHolders<K(!new), V>(s: State<K, V>, v: nat, w: nat, k: K)
    requires v in s.held && w in s.held && k in s.held[v] && k in s.held[w] && v != w
    ensures !Exclusive(s)
  {}

  /** Whenever a value changes while a worker sends the old one, the row can end as submitted with the new one. */
  lemma ChangedValueCanStayUnsent<K(!new), V>(
    s: State<K, V>, holder: nat, k: K, value: V, at: int, rowid: nat, maxAttempts: int)
    requires Inv(s, maxAttempts) && k in s.Of(holder) && s.Of(holder)[k].value != value
    ensures Enabled(s, Upsert(k, value, at, rowid), maxAttempts)
    ensures var t := Next(s, Upsert(k, value, at, rowid));
            && Enabled(t, Resolve(holder, k, Sent(at, None)), maxAttempts)
            && var u := Next(t, Resolve(holder, k, Sent(at, None)));
               && k in u.rows && u.rows[k].status == Submitted && u.rows[k].value == value
               && k in u.sent && u.sent[k] != value
  {
    hide WithinBudget, Truthful, Exclusive;
    assert HeldAs(s.rows[k], s.held[holder][k]);
    var t := Next(s, Upsert(k, value, at, rowid));
    assert t.rows[k] == Upserted(s.rows[k], value, at) && t.held == s.held;
  }
}
