/**
 Whole runs of the repair tool: a fresh preview, then the repair, and the same again as often as
 it takes when a run is cut short.
 */
module RepairRuns {
  import opened Titles
  import opened RepairApply
  import opened RepairModel
  import opened RepairPreview
  import opened RepairResume

  /** The ready titles in the order of the plan. */
  method ReportOrder(plan: seq<Correction>, ready: map<Key, ReadyRow>) returns (order: seq<Key>)
    requires UniqueKeys(plan) && ready.Keys <= PlanKeys(plan)
    ensures Enumerates(order, ready)
  {
    order := [];
    for i := 0 to |plan|
      invariant forall k :: k in order <==> k in ready && exists j :: 0 <= j < i && plan[j].key == k
      invariant forall a, b :: 0 <= a < b < |order| ==> order[a] != order[b]
    {
      var k := plan[i].key;
      if k in ready {
        assert k !in order;
        order := order + [k];
      }
    }
  }

  /** Lookups tell the truth and nobody else writes. */
  ghost predicate Alone(remote: Remote, store: Store) {
    remote.faithful && store.quiet
  }

  ghost function FirstReady(
    local: map<Key, LocalRow>, tmdb: map<Key, map<string, string>>, r0: set<Entry>, plan: seq<Correction>,
    contributor: string): map<Key, ReadyRow>
  {
    Ready(Db(local, tmdb), ViewOf(r0), plan, contributor)
  }

  /** The tool does not refuse the report: it may skip blocked titles, or there are none. */
  ghost predicate Accepted(ready: map<Key, ReadyRow>, plan: seq<Correction>, onlyReady: bool) {
    onlyReady || ready.Keys == PlanKeys(plan)
  }

  /**
   One run: it finishes the repair it previewed, or leaves progress of it and everything local as
   it was.  It does finish when it is not refused and every request is answered.
   */
  method RunOnce(
    remote: Remote, store: Store, tmdb: map<Key, map<string, string>>, plan: seq<Correction>, contributor: string,
    serviceStopped: bool, onlyReady: bool, now: int)
    returns (result: Outcome, ghost created: map<Key, nat>)
    requires remote.Valid() && Alone(remote, store) && ValidPlan(plan)
    modifies remote`entries, remote`nextId, remote`patience, store`local, store`malCache
    ensures remote.Valid()
    ensures var ready := FirstReady(old(store.local), tmdb, old(remote.entries), plan, contributor);
            && Progress(ready, old(remote.entries), remote.entries, remote.account)
            && (result.Applied? ==>
                  && Completed(ready, old(remote.entries), remote.entries, remote.account)
                  && Records(created, old(remote.entries), remote.entries)
                  && store.local == Committed(old(store.local), ready, created, now)
                  && store.malCache == Refetched(old(store.malCache), ready))
    ensures result.Stopped? ==> store.local == old(store.local) && store.malCache == old(store.malCache)
    ensures var ready := FirstReady(old(store.local), tmdb, old(remote.entries), plan, contributor);
            remote.reliable && remote.account == contributor && serviceStopped && Accepted(ready, plan, onlyReady) ==>
              result.Applied?
  {
    hide Progress, Completed, Records, Committed, Refetched, Ready, ReasonsFit, ViewOf, UniqueKeys;
    hide DeletesOnlyPlanned, CreatesOnlyPlanned, LocalAsPreviewed;
    ghost var r0 := remote.entries;
    var db := Db(store.local, tmdb);
    var ready, blocked := Preview(db, ViewOf(remote.entries), plan, contributor);
    var order := ReportOrder(plan, ready);
    ReadyKeyed(db, r0, plan, contributor);
    NothingDone(ready, r0, remote.account);
    result, created :=
      Apply(remote, store, ready, order, blocked.Keys != {}, contributor, serviceStopped, onlyReady, now, db, plan);
  }

  lemma ReadyKeyed(db: Db, r0: set<Entry>, plan: seq<Correction>, contributor: string)
    requires ValidPlan(plan)
    ensures var ready := Ready(db, ViewOf(r0), plan, contributor); forall k <- ready :: ready[k].fix.key == k
  {
    hide Classify, Candidates, ReadyKeys;
    ReadyRows(db, r0, plan, contributor);
    forall k | k in Ready(db, ViewOf(r0), plan, contributor)
      ensures Ready(db, ViewOf(r0), plan, contributor)[k].fix.key == k
    {
      CandidateRow(db, r0, plan, contributor, k);
    }
  }

  /** The repair of these titles is complete, just as one straight run would have left it. */
  ghost predicate Straightened(
    first: map<Key, ReadyRow>, r0: set<Entry>, r1: set<Entry>, before: map<Key, LocalRow>, after: map<Key, LocalRow>,
    account: string)
  {
    && Completed(first, r0, r1, account)
    && (forall straight :: Completed(first, r0, straight, account) ==> Ownership(r1) == Ownership(straight))
    && (forall created, now :: Essence(after) == Essence(Committed(before, first, created, now)))
  }

  lemma FirstReadyIs(
    local: map<Key, LocalRow>, tmdb: map<Key, map<string, string>>, r0: set<Entry>, plan: seq<Correction>,
    contributor: string)
    ensures FirstReady(local, tmdb, r0, plan, contributor) == Ready(Db(local, tmdb), ViewOf(r0), plan, contributor)
  {}

  /**
   Runs repeated until one is applied, each free to be cut short anywhere.  The end is the
   completed repair of the very first preview, and so that of a single uninterrupted run: the same
   remote ownership, the same local rows but for the noted ids and the time, the same titles to be
   fetched anew.  Before that nothing changes locally.  `answered(i)` says that all requests of
   round `i` are answered; one such round is enough.
   */
  method RunUntilApplied(
    remote: Remote, store: Store, tmdb: map<Key, map<string, string>>, plan: seq<Correction>, contributor: string,
    onlyReady: bool, rounds: nat, answered: nat -> bool)
    returns (applied: bool)
    requires remote.Valid() && Alone(remote, store) && ValidPlan(plan)
    modifies remote`entries, remote`nextId, remote`patience, remote`reliable, store`local, store`malCache
    ensures remote.Valid()
    ensures var first := FirstReady(old(store.local), tmdb, old(remote.entries), plan, contributor);
            (exists i: nat :: i < rounds && answered(i)) && remote.account == contributor ==>
              Accepted(first, plan, onlyReady) ==> applied
    ensures var first := FirstReady(old(store.local), tmdb, old(remote.entries), plan, contributor);
            && (!applied ==>
                  && Progress(first, old(remote.entries), remote.entries, remote.account)
                  && store.local == old(store.local) && store.malCache == old(store.malCache))
            && (applied ==>
                  && Straightened(
                       first, old(remote.entries), remote.entries, old(store.local), store.local, remote.account)
                  && store.malCache == Refetched(old(store.malCache), first))
  {
    ghost var db, r0 := Db(store.local, tmdb), remote.entries;
    ghost var states, first := [remote.entries], Ready(db, ViewOf(remote.entries), plan, contributor);
    FirstReadyIs(store.local, tmdb, r0, plan, contributor);
    hide *;
    StartOfAttempts(db, r0, plan, contributor, remote.account);
    for i := 0 to rounds
      invariant remote.Valid() && store.local == old(store.local) && store.malCache == old(store.malCache)
      invariant Attempts(db, states, plan, contributor, remote.account)
      invariant states != [] && states[0] == r0 && states[|states| - 1] == remote.entries
      invariant remote.account == contributor && Accepted(first, plan, onlyReady) ==>
                  forall j: nat :: j < i ==> !answered(j)
    {
      var now: int, patience: nat := *, *;
      remote.patience, remote.reliable := patience, answered(i);
      FirstReadyIs(store.local, tmdb, remote.entries, plan, contributor);
      StillAccepted(db, states, plan, contributor, remote.account, onlyReady);
      ghost var before := remote.entries;
      var result;
      ghost var created;
      result, created := RunOnce(remote, store, tmdb, plan, contributor, true, onlyReady, now);
      if result.Applied? {
        SameAsStraight(
          db, states, plan, contributor, remote.account, remote.entries, old(store.malCache), created, now);
        return true;
      }
      OneMoreAttempt(db, states, plan, contributor, remote.account, remote.entries);
      states := states + [remote.entries];
    }
    AttemptsAreProgress(db, states, plan, contributor, remote.account);
    return false;
  }

  lemma StartOfAttempts(db: Db, r0: set<Entry>, plan: seq<Correction>, contributor: string, account: string)
    ensures Attempts(db, [r0], plan, contributor, account)
  {}

  lemma OneMoreAttempt(
    db: Db, states: seq<set<Entry>>, plan: seq<Correction>, contributor: string, account: string, next: set<Entry>)
    requires Attempts(db, states, plan, contributor, account)
    requires var last := states[|states| - 1]; Progress(Ready(db, ViewOf(last), plan, contributor), last, next, account)
    ensures Attempts(db, states + [next], plan, contributor, account)
  {
    hide Ready, Progress;
  }

  lemma StillAccepted(
    db: Db, states: seq<set<Entry>>, plan: seq<Correction>, contributor: string, account: string, onlyReady: bool)
    requires ValidPlan(plan) && Attempts(db, states, plan, contributor, account)
    ensures var first := Ready(db, ViewOf(states[0]), plan, contributor);
            var last := Ready(db, ViewOf(states[|states| - 1]), plan, contributor);
            Accepted(first, plan, onlyReady) ==> Accepted(last, plan, onlyReady)
  {
    hide Ready, Progress;
    AttemptsAreProgress(db, states, plan, contributor, account);
    OutstandingAfter(db, states[0], states[|states| - 1], plan, contributor, account);
  }

  lemma SameAsStraight(
    db: Db, states: seq<set<Entry>>, plan: seq<Correction>, contributor: string, account: string, resumed: set<Entry>,
    malCache: map<Key, MalCache>, created: map<Key, nat>, now: int)
    requires ValidPlan(plan) && Attempts(db, states, plan, contributor, account)
    requires var last := states[|states| - 1];
             Completed(Ready(db, ViewOf(last), plan, contributor), last, resumed, account)
    ensures var first := Ready(db, ViewOf(states[0]), plan, contributor);
            var last := Ready(db, ViewOf(states[|states| - 1]), plan, contributor);
            && Straightened(first, states[0], resumed, db.local, Committed(db.local, last, created, now), account)
            && Refetched(malCache, last) == Refetched(malCache, first)
  {
    hide Ready, Progress, Completed, Ownership;
    var first := Ready(db, ViewOf(states[0]), plan, contributor);
    var last := Ready(db, ViewOf(states[|states| - 1]), plan, contributor);
    forall straight | Completed(first, states[0], straight, account)
      ensures Ownership(resumed) == Ownership(straight)
    {
      ResumeConfluence(db, states, plan, contributor, account, straight, resumed, created, created, now, now);
    }
    AttemptsAreProgress(db, states, plan, contributor, account);
    OutstandingAfter(db, states[0], states[|states| - 1], plan, contributor, account);
    ResumedIsCompleted(first, last, states[0], states[|states| - 1], resumed, account);
    forall ids, t
      ensures Essence(Committed(db.local, last, created, now)) == Essence(Committed(db.local, first, ids, t))
    {
      SameEssence(db.local, first, last, ids, created, t, now);
    }
  }

  lemma SameEssence(
    local: map<Key, LocalRow>, first: map<Key, ReadyRow>, last: map<Key, ReadyRow>, a: map<Key, nat>,
    b: map<Key, nat>, t: int, u: int)
    requires last.Keys == first.Keys && forall k <- first :: last[k].fix == first[k].fix
    ensures Essence(Committed(local, last, b, u)) == Essence(Committed(local, first, a, t))
  {}
}
