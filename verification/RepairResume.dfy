/**
 Interrupting and resuming a repair.

 `Progress` describes every remote state an interrupted repair can leave behind: some planned
 deletions are done, and creations appear only once all of them are.  A fresh preview of
 such a state, before or after the local commit, splits the plan exactly as the first one did.
 */
module RepairResume {
  import opened Wrappers
  import opened Titles
  import opened QueueRows
  import opened RepairModel

  ghost predicate IsPlanned(rows: map<Key, ReadyRow>, e: Entry) {
    e.title in rows && e in rows[e.title].delete
  }

  ghost predicate IsCreation(rows: map<Key, ReadyRow>, e: Entry, account: string) {
    && e.title in rows && rows[e.title].create
    && e.value == rows[e.title].fix.newId && e.contributor == account
  }

  ghost predicate Progress(rows: map<Key, ReadyRow>, before: set<Entry>, after: set<Entry>, account: string) {
    && (forall e <- before - after :: IsPlanned(rows, e))
    && (forall e <- after - before :: IsCreation(rows, e, account))
    && (after - before != {} ==> forall e <- after :: !IsPlanned(rows, e))
  }

  /** Locally either nothing happened yet, or every ready title was committed. */
  ghost predicate LocalProgress(rows: map<Key, ReadyRow>, before: map<Key, LocalRow>, after: map<Key, LocalRow>) {
    && after.Keys == before.Keys
    && (forall k <- before :: k !in rows ==> after[k] == before[k])
    && (after == before || forall k <- rows :: k in after && after[k].value == rows[k].fix.newId
                                               && after[k].status == Submitted)
  }

  /** A first preview at (db0, r0) and a later state (db1, r1) its repair can leave behind. */
  ghost predicate Interrupted(
    db0: Db, r0: set<Entry>, db1: Db, r1: set<Entry>,
    plan: seq<Correction>, contributor: string, account: string)
  {
    var ready := Ready(db0, ViewOf(r0), plan, contributor);
    && ValidPlan(plan)
    && Progress(ready, r0, r1, account)
    && db1.tmdb == db0.tmdb
    && LocalProgress(ready, db0.local, db1.local)
  }

  // ---------- truthful lookups ----------

  /** With truthful lookups a correction is judged by its own entries only. */
  lemma ClassifyTruthful(db: Db, remote: set<Entry>, fix: Correction, contributor: string)
    ensures Classify(db, ViewOf(remote), fix, contributor) == match LocalReason(db, fix)
      case Some(reason) => Err(reason)
      case None =>
        if exists e <- Of(remote, fix.key, fix.oldId) :: e.contributor != contributor then Err(ForeignContributor)
        else Ok(ReadyRow(fix, Of(remote, fix.key, fix.oldId), Of(remote, fix.key, fix.newId) == {},
                         Owners(remote, fix.key.media, fix.newId), db.local[fix.key]))
  {
    var view := ViewOf(remote);
    assert Holding(view.entries(fix.key), fix.oldId) == Of(remote, fix.key, fix.oldId);
    assert Holding(view.entries(fix.key), fix.newId) == Of(remote, fix.key, fix.newId);
    OwnsIffHolds(remote, fix.key, fix.oldId);
    OwnsIffHolds(remote, fix.key, fix.newId);
    assert view.owners(fix.key.media, fix.oldId) == Owners(remote, fix.key.media, fix.oldId);
    assert view.owners(fix.key.media, fix.newId) == Owners(remote, fix.key.media, fix.newId);
  }

  ghost function Of(remote: set<Entry>, k: Key, value: string): set<Entry> {
    set e | e in remote && e.title == k && e.value == value
  }

  lemma OwnsIffHolds(remote: set<Entry>, k: Key, value: string)
    ensures k in Owners(remote, k.media, value) <==> Of(remote, k, value) != {}
  {
    if Of(remote, k, value) != {} {
      var e :| e in Of(remote, k, value);
      assert e in remote && e.title.media == k.media && e.value == value;
    }
    if k in Owners(remote, k.media, value) {
      var e :| e in remote && e.title.media == k.media && e.value == value && e.title == k;
      assert e in Of(remote, k, value);
    }
  }

  /** The row of a candidate, in terms of the remote entries. */
  lemma CandidateRow(db: Db, remote: set<Entry>, plan: seq<Correction>, contributor: string, k: Key)
    requires UniqueKeys(plan) && k in Candidates(db, ViewOf(remote), plan, contributor)
    ensures var row := Candidates(db, ViewOf(remote), plan, contributor)[k];
            && row.fix in plan && row.fix.key == k
            && row.delete == Of(remote, k, row.fix.oldId)
            && row.create == (Of(remote, k, row.fix.newId) == {})
            && row.newOwners == Owners(remote, k.media, row.fix.newId)
            && k in db.local && row.localBefore == db.local[k]
            && db.local[k].value in {row.fix.oldId, row.fix.newId}
            && forall e <- row.delete :: e.contributor == contributor
  {
    CandidatesAre(db, ViewOf(remote), plan, contributor);
    var row := Candidates(db, ViewOf(remote), plan, contributor)[k];
    assert Judged(db, ViewOf(remote), row.fix, contributor, Candidates(db, ViewOf(remote), plan, contributor));
    ClassifyTruthful(db, remote, row.fix, contributor);
  }

  lemma ReadyRows(db: Db, remote: set<Entry>, plan: seq<Correction>, contributor: string)
    requires UniqueKeys(plan)
    ensures var rows := Candidates(db, ViewOf(remote), plan, contributor);
            var ready := Ready(db, ViewOf(remote), plan, contributor);
            && ready.Keys <= rows.Keys && (forall k <- ready :: ready[k] == rows[k])
            && Stable(db, rows, ready.Keys)
  {
    var rows := Candidates(db, ViewOf(remote), plan, contributor);
    ReadyIsLargestStable(db, rows);
    assert Ready(db, ViewOf(remote), plan, contributor).Keys == ReadyKeys(db, rows);
  }

  // ---------- one title after an interruption ----------

  lemma PlanRowsAgree(plan: seq<Correction>, a: Correction, b: Correction)
    requires UniqueKeys(plan) && a in plan && b in plan && a.key == b.key
    ensures a == b
  {
    var i, j :| 0 <= i < |plan| && 0 <= j < |plan| && plan[i] == a && plan[j] == b;
    assert i == j;
  }

  /** The row of a ready title is that of its correction, which nothing local speaks against. */
  lemma ReadyIsPlanned(db: Db, remote: set<Entry>, plan: seq<Correction>, contributor: string, fix: Correction)
    requires ValidPlan(plan) && fix in plan && fix.key in Ready(db, ViewOf(remote), plan, contributor)
    ensures var row := Ready(db, ViewOf(remote), plan, contributor)[fix.key];
            && row.fix == fix && row.delete == Of(remote, fix.key, fix.oldId) && fix.oldId != fix.newId
            && (row.create ==> Of(remote, fix.key, fix.newId) == {})
            && forall e <- row.delete :: e.contributor == contributor
    ensures LocalReason(db, fix) == None
  {
    ReadyRows(db, remote, plan, contributor);
    CandidateRow(db, remote, plan, contributor, fix.key);
    CandidatesAre(db, ViewOf(remote), plan, contributor);
    var rows := Candidates(db, ViewOf(remote), plan, contributor);
    PlanRowsAgree(plan, fix, rows[fix.key].fix);
    assert Judged(db, ViewOf(remote), fix, contributor, rows);
  }

  /** A resumed title can only have lost wrong entries and gained its right one. */
  lemma EntriesAfter(
    db0: Db, r0: set<Entry>, db1: Db, r1: set<Entry>,
    plan: seq<Correction>, contributor: string, account: string, fix: Correction)
    requires Interrupted(db0, r0, db1, r1, plan, contributor, account) && fix in plan
    ensures Of(r1, fix.key, fix.oldId) == Of(r0, fix.key, fix.oldId) * r1
    ensures Of(r0, fix.key, fix.newId) <= Of(r1, fix.key, fix.newId)
    ensures fix.key !in Ready(db0, ViewOf(r0), plan, contributor) ==>
              forall v :: Of(r1, fix.key, v) == Of(r0, fix.key, v)
  {
    var ready := Ready(db0, ViewOf(r0), plan, contributor);
    hide Ready, LocalProgress;
    if fix.key in ready {
      ReadyIsPlanned(db0, r0, plan, contributor, fix);
      forall e | e in r1 && e.title == fix.key && e.value == fix.oldId
        ensures e in r0
      {
        assert !IsCreation(ready, e, account);
      }
      forall e | e in r0 && e.title == fix.key && e.value == fix.newId
        ensures e in r1
      {
        assert !IsPlanned(ready, e);
      }
    } else {
      forall e: Entry | e.title == fix.key
        ensures e in r0 <==> e in r1
      {
        assert !IsPlanned(ready, e) && !IsCreation(ready, e, account);
      }
    }
  }

  lemma ReasonAfter(
    db0: Db, r0: set<Entry>, db1: Db, r1: set<Entry>,
    plan: seq<Correction>, contributor: string, account: string, fix: Correction)
    requires Interrupted(db0, r0, db1, r1, plan, contributor, account) && fix in plan
    ensures LocalReason(db1, fix) == LocalReason(db0, fix)
  {
    var ready := Ready(db0, ViewOf(r0), plan, contributor);
    hide Ready, Progress;
    assert MetadataHolds(db1, fix) == MetadataHolds(db0, fix);
    if fix.key in ready {
      ReadyIsPlanned(db0, r0, plan, contributor, fix);
    }
  }

  /** On its own, each correction is judged after the interruption as it was before. */
  lemma VerdictAfter(
    db0: Db, r0: set<Entry>, db1: Db, r1: set<Entry>,
    plan: seq<Correction>, contributor: string, account: string, fix: Correction)
    requires Interrupted(db0, r0, db1, r1, plan, contributor, account) && fix in plan
    ensures var v0 := Classify(db0, ViewOf(r0), fix, contributor);
            var v1 := Classify(db1, ViewOf(r1), fix, contributor);
            && v1.Ok? == v0.Ok?
            && (v0.Err? ==> v1.error == v0.error)
  {
    hide Ready, Classify, LocalReason, Progress, LocalProgress;
    ReasonAfter(db0, r0, db1, r1, plan, contributor, account, fix);
    EntriesAfter(db0, r0, db1, r1, plan, contributor, account, fix);
    ClassifyTruthful(db0, r0, fix, contributor);
    ClassifyTruthful(db1, r1, fix, contributor);
    var ready := Ready(db0, ViewOf(r0), plan, contributor);
    if fix.key in ready {
      ReadyIsPlanned(db0, r0, plan, contributor, fix);
    }
  }

  /** How a candidate's row after the interruption relates to the one before it. */
  ghost predicate RowAdvanced(
    row0: ReadyRow, row1: ReadyRow, k: Key, ready: map<Key, ReadyRow>, r0: set<Entry>, r1: set<Entry>)
  {
    && row1.fix == row0.fix && row0.fix.key == k && row0.fix.oldId != row0.fix.newId
    && row0.delete == Of(r0, k, row0.fix.oldId) && row1.delete == row0.delete * r1
    && row0.newOwners == Owners(r0, k.media, row0.fix.newId)
    && row1.newOwners == Owners(r1, k.media, row0.fix.newId)
    && (row1.create ==> row0.create)
    && (k !in ready ==> row1.create == row0.create)
  }

  ghost predicate Advanced(
    rows0: map<Key, ReadyRow>, rows1: map<Key, ReadyRow>, ready: map<Key, ReadyRow>,
    r0: set<Entry>, r1: set<Entry>)
  {
    && rows1.Keys == rows0.Keys
    && forall k <- rows0 :: RowAdvanced(rows0[k], rows1[k], k, ready, r0, r1)
  }

  lemma CandidatesAfter(
    db0: Db, r0: set<Entry>, db1: Db, r1: set<Entry>,
    plan: seq<Correction>, contributor: string, account: string)
    requires Interrupted(db0, r0, db1, r1, plan, contributor, account)
    ensures Advanced(Candidates(db0, ViewOf(r0), plan, contributor), Candidates(db1, ViewOf(r1), plan, contributor),
                     Ready(db0, ViewOf(r0), plan, contributor), r0, r1)
  {
    hide Classify;
    var rows0 := Candidates(db0, ViewOf(r0), plan, contributor);
    var rows1 := Candidates(db1, ViewOf(r1), plan, contributor);
    CandidatesAre(db0, ViewOf(r0), plan, contributor);
    CandidatesAre(db1, ViewOf(r1), plan, contributor);
    forall k | k in rows0 || k in rows1
      ensures k in rows0 && k in rows1
    {
      var fix := if k in rows0 then rows0[k].fix else rows1[k].fix;
      VerdictAfter(db0, r0, db1, r1, plan, contributor, account, fix);
      assert Judged(db0, ViewOf(r0), fix, contributor, rows0);
      assert Judged(db1, ViewOf(r1), fix, contributor, rows1);
    }
    forall k | k in rows0
      ensures RowAdvanced(rows0[k], rows1[k], k, Ready(db0, ViewOf(r0), plan, contributor), r0, r1)
    {
      RowAfter(db0, r0, db1, r1, plan, contributor, account, k);
    }
  }

  lemma RowAfter(
    db0: Db, r0: set<Entry>, db1: Db, r1: set<Entry>,
    plan: seq<Correction>, contributor: string, account: string, k: Key)
    requires Interrupted(db0, r0, db1, r1, plan, contributor, account)
    requires k in Candidates(db0, ViewOf(r0), plan, contributor)
    requires k in Candidates(db1, ViewOf(r1), plan, contributor)
    ensures RowAdvanced(
              Candidates(db0, ViewOf(r0), plan, contributor)[k], Candidates(db1, ViewOf(r1), plan, contributor)[k],
              k, Ready(db0, ViewOf(r0), plan, contributor), r0, r1)
  {
    hide Classify, Candidates;
    CandidateRow(db0, r0, plan, contributor, k);
    CandidateRow(db1, r1, plan, contributor, k);
    var fix := Candidates(db0, ViewOf(r0), plan, contributor)[k].fix;
    PlanRowsAgree(plan, fix, Candidates(db1, ViewOf(r1), plan, contributor)[k].fix);
    EntriesAfter(db0, r0, db1, r1, plan, contributor, account, fix);
  }

  // ---------- clashes after an interruption ----------

  lemma OwnerEntry(remote: set<Entry>, media: Media, value: string, o: Key) returns (e: Entry)
    requires o in Owners(remote, media, value)
    ensures e in remote && e.title == o && o.media == media && e.value == value
  {
    e :| e in remote && e.title.media == media && e.value == value && e.title == o;
  }

  /** For the first preview's batch an interruption adds no clash. */
  lemma NoNewClash(
    db0: Db, db1: Db, rows0: map<Key, ReadyRow>, rows1: map<Key, ReadyRow>, ready: map<Key, ReadyRow>,
    r0: set<Entry>, r1: set<Entry>, account: string, k: Key)
    requires Advanced(rows0, rows1, ready, r0, r1) && Progress(ready, r0, r1, account)
    requires LocalProgress(ready, db0.local, db1.local)
    requires ready.Keys <= rows0.Keys && (forall o <- ready :: ready[o] == rows0[o]) && k in ready
    requires Clashes(db1, rows1, ready.Keys, k)
    ensures Clashes(db0, rows0, ready.Keys, k)
  {
    if SharesTarget(rows1, k) {
      var o :| o in rows1 && o != k && o.media == k.media && rows1[o].fix.newId == rows1[k].fix.newId;
      assert rows0[o].fix.newId == rows0[k].fix.newId;
    } else if o :| o in ExternalLocal(db1, rows1, ready.Keys, k) {
      assert o in ExternalLocal(db0, rows0, ready.Keys, k);
    } else {
      var o :| o in ExternalRemote(rows1, ready.Keys, k);
      var e := OwnerEntry(r1, k.media, rows0[k].fix.newId, o);
      if e in r0 {
        assert e in Of(r0, o, e.value);
        assert o in ExternalRemote(rows0, ready.Keys, k);
      } else {
        assert IsCreation(ready, e, account);
      }
    }
  }

  /** For a title outside the first batch, joining that batch lifts no clash that the resumed one sees. */
  lemma NoLostClash(
    db0: Db, db1: Db, rows0: map<Key, ReadyRow>, rows1: map<Key, ReadyRow>, ready: map<Key, ReadyRow>,
    r0: set<Entry>, r1: set<Entry>, account: string, batch: set<Key>, k: Key)
    requires Advanced(rows0, rows1, ready, r0, r1) && Progress(ready, r0, r1, account)
    requires LocalProgress(ready, db0.local, db1.local)
    requires ready.Keys <= rows0.Keys && (forall o <- ready :: ready[o] == rows0[o])
    requires batch <= rows0.Keys && k in batch && k !in ready
    requires Clashes(db0, rows0, ready.Keys + batch, k)
    ensures Clashes(db1, rows1, batch, k)
  {
    var joint := ready.Keys + batch;
    if SharesTarget(rows0, k) {
      var o :| o in rows0 && o != k && o.media == k.media && rows0[o].fix.newId == rows0[k].fix.newId;
      assert rows1[o].fix.newId == rows1[k].fix.newId;
    } else if o :| o in ExternalLocal(db0, rows0, joint, k) {
      assert o in ExternalLocal(db1, rows1, batch, k);
    } else {
      var o :| o in ExternalRemote(rows0, joint, k);
      var e := OwnerEntry(r0, k.media, rows0[k].fix.newId, o);
      assert e in r1 by {
        assert e !in r1 ==> IsPlanned(ready, e);
      }
      assert o in ExternalRemote(rows1, batch, k);
    }
  }

  /**
   Resume confluence, first half: wherever a repair stopped, a fresh preview finds the same
   corrections ready (so also the same blocked), with exactly the outstanding work left in them.
   */
  lemma SplitSurvives(
    db0: Db, r0: set<Entry>, db1: Db, r1: set<Entry>,
    plan: seq<Correction>, contributor: string, account: string)
    requires Interrupted(db0, r0, db1, r1, plan, contributor, account)
    ensures var first := Ready(db0, ViewOf(r0), plan, contributor);
            var second := Ready(db1, ViewOf(r1), plan, contributor);
            && second.Keys == first.Keys
            && forall k <- first ::
                 && second[k].fix == first[k].fix
                 && second[k].delete == first[k].delete * r1
                 && (second[k].create <==> first[k].create && Of(r1, k, first[k].fix.newId) == {})
  {
    hide Classify, LocalReason;
    var rows0 := Candidates(db0, ViewOf(r0), plan, contributor);
    var rows1 := Candidates(db1, ViewOf(r1), plan, contributor);
    var ready := Ready(db0, ViewOf(r0), plan, contributor);
    var later := Ready(db1, ViewOf(r1), plan, contributor);
    ReadyRows(db0, r0, plan, contributor);
    ReadyRows(db1, r1, plan, contributor);
    CandidatesAfter(db0, r0, db1, r1, plan, contributor, account);
    SameBatch(db0, db1, rows0, rows1, ready, r0, r1, account);
    forall k | k in ready
      ensures later[k].create <==> ready[k].create && Of(r1, k, ready[k].fix.newId) == {}
    {
      CandidateRow(db1, r1, plan, contributor, k);
    }
  }

  lemma SameBatch(
    db0: Db, db1: Db, rows0: map<Key, ReadyRow>, rows1: map<Key, ReadyRow>, ready: map<Key, ReadyRow>,
    r0: set<Entry>, r1: set<Entry>, account: string)
    requires Advanced(rows0, rows1, ready, r0, r1) && Progress(ready, r0, r1, account)
    requires LocalProgress(ready, db0.local, db1.local)
    requires ready.Keys == ReadyKeys(db0, rows0) && (forall o <- ready :: ready[o] == rows0[o])
    ensures ReadyKeys(db1, rows1) == ready.Keys
  {
    ReadyIsLargestStable(db0, rows0);
    ReadyIsLargestStable(db1, rows1);
    forall k | k in ready
      ensures !Clashes(db1, rows1, ready.Keys, k)
    {
      if Clashes(db1, rows1, ready.Keys, k) {
        NoNewClash(db0, db1, rows0, rows1, ready, r0, r1, account, k);
      }
    }
    assert Stable(db1, rows1, ready.Keys);
    var batch := ReadyKeys(db1, rows1);
    forall k | k in ready.Keys + batch
      ensures !Clashes(db0, rows0, ready.Keys + batch, k)
    {
      if Clashes(db0, rows0, ready.Keys + batch, k) {
        if k in ready {
          ClashShrinks(db0, rows0, ready.Keys, ready.Keys + batch, k);
        } else {
          NoLostClash(db0, db1, rows0, rows1, ready, r0, r1, account, batch, k);
        }
      }
    }
    assert Stable(db0, rows0, ready.Keys + batch);
  }

  // ---------- the end of a repair ----------

  /** The remote state of a repair that ran to the end: all planned deletions, all missing creations. */
  ghost predicate Completed(rows: map<Key, ReadyRow>, before: set<Entry>, after: set<Entry>, account: string) {
    && (forall e <- before :: e in after <==> !IsPlanned(rows, e))
    && (forall e <- after - before :: IsCreation(rows, e, account))
    && (forall k <- rows :: rows[k].create ==> Claims(after, k, rows[k].fix.newId, account))
  }

  ghost predicate Claims(remote: set<Entry>, k: Key, value: string, account: string) {
    exists e <- remote :: e.title == k && e.value == value && e.contributor == account
  }

  /** Remote ownership: who claims which id for which title, whatever the entries are numbered. */
  ghost function Ownership(remote: set<Entry>): set<(Key, string, string)> {
    set e | e in remote :: (e.title, e.value, e.contributor)
  }

  /** The local rows after the single transaction at the end of a repair. */
  ghost function Committed(
    local: map<Key, LocalRow>, rows: map<Key, ReadyRow>, created: map<Key, nat>, now: int): map<Key, LocalRow>
  {
    map k | k in local :: if k in rows then Repaired(rows[k].fix, created, now) else local[k]
  }

  ghost function Repaired(fix: Correction, created: map<Key, nat>, now: int): LocalRow {
    var itemId := if fix.key in created then Some(created[fix.key]) else None;
    LocalRow(fix.newId, Submitted, itemId, None, Some(now), 0, 0, None)
  }

  /** Local rows up to the remembered remote id and the time of the repair. */
  ghost function Essence(local: map<Key, LocalRow>): map<Key, LocalRow> {
    map k | k in local :: local[k].(itemId := None, submittedAt := None)
  }

  /** What a fresh preview of an interrupted repair offers, compared with the first preview. */
  ghost predicate Outstanding(
    first: map<Key, ReadyRow>, second: map<Key, ReadyRow>, r0: set<Entry>, r1: set<Entry>)
  {
    && second.Keys == first.Keys
    && forall k <- first ::
         && second[k].fix == first[k].fix && first[k].fix.key == k && first[k].fix.oldId != first[k].fix.newId
         && first[k].delete == Of(r0, k, first[k].fix.oldId)
         && second[k].delete == first[k].delete * r1
         && first[k].create == (Of(r0, k, first[k].fix.newId) == {})
         && (second[k].create <==> first[k].create && Of(r1, k, first[k].fix.newId) == {})
  }

  lemma OutstandingAfter(
    db: Db, r0: set<Entry>, r1: set<Entry>, plan: seq<Correction>, contributor: string, account: string)
    requires Interrupted(db, r0, db, r1, plan, contributor, account)
    ensures Outstanding(Ready(db, ViewOf(r0), plan, contributor), Ready(db, ViewOf(r1), plan, contributor), r0, r1)
  {
    hide Classify, Candidates, LocalReason;
    var first := Ready(db, ViewOf(r0), plan, contributor);
    SplitSurvives(db, r0, db, r1, plan, contributor, account);
    ReadyRows(db, r0, plan, contributor);
    forall k | k in first
      ensures first[k].fix.key == k && first[k].fix.oldId != first[k].fix.newId
      ensures first[k].delete == Of(r0, k, first[k].fix.oldId)
      ensures first[k].create == (Of(r0, k, first[k].fix.newId) == {})
    {
      CandidateRow(db, r0, plan, contributor, k);
    }
  }

  lemma ProgressComposes(
    first: map<Key, ReadyRow>, second: map<Key, ReadyRow>,
    r0: set<Entry>, r1: set<Entry>, r2: set<Entry>, account: string)
    requires Outstanding(first, second, r0, r1)
    requires Progress(first, r0, r1, account) && Progress(second, r1, r2, account)
    ensures Progress(first, r0, r2, account)
  {
    forall e | e in r0 - r2
      ensures IsPlanned(first, e)
    {
      assert e !in r1 || IsPlanned(second, e);
    }
    forall e | e in r2 - r0
      ensures IsCreation(first, e, account)
    {
      assert e in r1 || IsCreation(second, e, account);
    }
    if added :| added in r2 - r0 {
      forall e | e in r2
        ensures !IsPlanned(first, e)
      {
        assert added in r1 - r0 || added in r2 - r1;
        assert e in r1 || IsCreation(second, e, account);
      }
    }
  }

  /** Finishing an interrupted repair leads to the same ownership as finishing the original one. */
  lemma SameEnd(
    first: map<Key, ReadyRow>, second: map<Key, ReadyRow>,
    r0: set<Entry>, r1: set<Entry>, straight: set<Entry>, resumed: set<Entry>, account: string)
    requires Outstanding(first, second, r0, r1) && Progress(first, r0, r1, account)
    requires Completed(first, r0, straight, account) && Completed(second, r1, resumed, account)
    ensures Ownership(straight) == Ownership(resumed)
  {
    forall e | e in straight
      ensures (e.title, e.value, e.contributor) in Ownership(resumed)
    {
      var twin := StraightInResumed(first, second, r0, r1, straight, resumed, account, e);
      assert twin in resumed;
    }
    forall e | e in resumed
      ensures (e.title, e.value, e.contributor) in Ownership(straight)
    {
      var twin := ResumedInStraight(first, second, r0, r1, straight, resumed, account, e);
      assert twin in straight;
    }
  }

  lemma StraightInResumed(
    first: map<Key, ReadyRow>, second: map<Key, ReadyRow>,
    r0: set<Entry>, r1: set<Entry>, straight: set<Entry>, resumed: set<Entry>, account: string, e: Entry)
    returns (twin: Entry)
    requires Outstanding(first, second, r0, r1) && Progress(first, r0, r1, account)
    requires Completed(first, r0, straight, account) && Completed(second, r1, resumed, account)
    requires e in straight
    ensures twin in resumed && (twin.title, twin.value, twin.contributor) == (e.title, e.value, e.contributor)
  {
    if e in r0 {
      assert e in r1 && !IsPlanned(second, e);
      twin := e;
      return;
    }
    assert e in straight - r0;
    if second[e.title].create {
      assert Claims(resumed, e.title, e.value, account);
      twin :| twin in resumed && twin.title == e.title && twin.value == e.value && twin.contributor == account;
    } else {
      twin :| twin in Of(r1, e.title, e.value);
      assert twin !in Of(r0, e.title, e.value);
      assert IsCreation(first, twin, account) && !IsPlanned(second, twin);
    }
  }

  lemma ResumedInStraight(
    first: map<Key, ReadyRow>, second: map<Key, ReadyRow>,
    r0: set<Entry>, r1: set<Entry>, straight: set<Entry>, resumed: set<Entry>, account: string, e: Entry)
    returns (twin: Entry)
    requires Outstanding(first, second, r0, r1) && Progress(first, r0, r1, account)
    requires Completed(first, r0, straight, account) && Completed(second, r1, resumed, account)
    requires e in resumed
    ensures twin in straight && (twin.title, twin.value, twin.contributor) == (e.title, e.value, e.contributor)
  {
    if e in r0 && e in r1 {
      assert !IsPlanned(first, e);
      twin := e;
    } else {
      assert e in r1 ==> IsCreation(first, e, account);
      assert e !in r1 ==> IsCreation(second, e, account);
      assert Claims(straight, e.title, e.value, account);
      twin :| twin in straight && twin.title == e.title && twin.value == e.value && twin.contributor == account;
    }
  }

  /** Finishing an interrupted repair is finishing the original one. */
  lemma ResumedIsCompleted(
    first: map<Key, ReadyRow>, second: map<Key, ReadyRow>,
    r0: set<Entry>, r1: set<Entry>, resumed: set<Entry>, account: string)
    requires Outstanding(first, second, r0, r1) && Progress(first, r0, r1, account)
    requires Completed(second, r1, resumed, account)
    ensures Completed(first, r0, resumed, account)
  {
    forall e | e in r0
      ensures e in resumed <==> !IsPlanned(first, e)
    {
      if e !in r1 {
        assert IsPlanned(first, e) && !IsCreation(second, e, account);
      } else {
        assert IsPlanned(second, e) <==> IsPlanned(first, e);
      }
    }
    forall e | e in resumed - r0
      ensures IsCreation(first, e, account)
    {
      assert e in r1 || IsCreation(second, e, account);
    }
    forall k | k in first && first[k].create
      ensures Claims(resumed, k, first[k].fix.newId, account)
    {
      if !second[k].create {
        var e :| e in Of(r1, k, first[k].fix.newId);
        assert e !in Of(r0, k, first[k].fix.newId);
        assert IsCreation(first, e, account) && !IsPlanned(second, e);
      }
    }
  }

  /** A history of repair attempts of one plan, each started from a fresh preview and cut short somewhere. */
  ghost predicate Attempts(
    db: Db, states: seq<set<Entry>>, plan: seq<Correction>, contributor: string, account: string)
  {
    && states != []
    && forall i :: 0 < i < |states| ==>
         Progress(Ready(db, ViewOf(states[i - 1]), plan, contributor), states[i - 1], states[i], account)
  }

  lemma {:induction false} AttemptsAreProgress(
    db: Db, states: seq<set<Entry>>, plan: seq<Correction>, contributor: string, account: string)
    requires ValidPlan(plan) && Attempts(db, states, plan, contributor, account)
    ensures Progress(Ready(db, ViewOf(states[0]), plan, contributor), states[0], states[|states| - 1], account)
  {
    hide Ready, Progress;
    var n := |states|;
    if n == 1 {
      NoProgress(db, states[0], plan, contributor, account);
    } else {
      AttemptsAreProgress(db, states[..n - 1], plan, contributor, account);
      var first := Ready(db, ViewOf(states[0]), plan, contributor);
      OutstandingAfter(db, states[0], states[n - 2], plan, contributor, account);
      ProgressComposes(first, Ready(db, ViewOf(states[n - 2]), plan, contributor),
                       states[0], states[n - 2], states[n - 1], account);
    }
  }

  lemma NoProgress(db: Db, r0: set<Entry>, plan: seq<Correction>, contributor: string, account: string)
    ensures Progress(Ready(db, ViewOf(r0), plan, contributor), r0, r0, account)
  {}

  /**
   Resume confluence: after any number of attempts, each cut short anywhere before its local
   commit, the plan still splits as at first, and finishing reaches the remote ownership and the
   local rows of an uninterrupted run.
   */
  lemma ResumeConfluence(
    db: Db, states: seq<set<Entry>>, plan: seq<Correction>, contributor: string, account: string,
    straight: set<Entry>, resumed: set<Entry>,
    createdStraight: map<Key, nat>, createdResumed: map<Key, nat>, t0: int, t1: int)
    requires ValidPlan(plan) && Attempts(db, states, plan, contributor, account)
    requires Completed(Ready(db, ViewOf(states[0]), plan, contributor), states[0], straight, account)
    requires var last := states[|states| - 1];
             Completed(Ready(db, ViewOf(last), plan, contributor), last, resumed, account)
    ensures var first := Ready(db, ViewOf(states[0]), plan, contributor);
            var last := Ready(db, ViewOf(states[|states| - 1]), plan, contributor);
            && last.Keys == first.Keys
            && Ownership(resumed) == Ownership(straight)
            && Essence(Committed(db.local, last, createdResumed, t1))
               == Essence(Committed(db.local, first, createdStraight, t0))
  {
    hide Ready, Progress, Completed;
    var first := Ready(db, ViewOf(states[0]), plan, contributor);
    var last := Ready(db, ViewOf(states[|states| - 1]), plan, contributor);
    AttemptsAreProgress(db, states, plan, contributor, account);
    OutstandingAfter(db, states[0], states[|states| - 1], plan, contributor, account);
    SameEnd(first, last, states[0], states[|states| - 1], straight, resumed, account);
  }

  /** Repeating a finished repair finds the same corrections ready and nothing left to do for them. */
  lemma RepeatingDoesNothing(
    db: Db, r0: set<Entry>, final: set<Entry>, plan: seq<Correction>, contributor: string, account: string,
    created: map<Key, nat>, now: int)
    requires ValidPlan(plan)
    requires Completed(Ready(db, ViewOf(r0), plan, contributor), r0, final, account)
    ensures var first := Ready(db, ViewOf(r0), plan, contributor);
            var done := db.(local := Committed(db.local, first, created, now));
            var again := Ready(done, ViewOf(final), plan, contributor);
            && again.Keys == first.Keys
            && forall k <- again :: again[k].delete == {} && !again[k].create
  {
    hide Classify, Candidates, ReadyKeys;
    var first := Ready(db, ViewOf(r0), plan, contributor);
    var done := db.(local := Committed(db.local, first, created, now));
    CompletedIsProgress(db, r0, final, plan, contributor, account);
    ReadyRows(db, r0, plan, contributor);
    forall k | k in first
      ensures k in db.local && first[k].fix.key == k
    {
      CandidateRow(db, r0, plan, contributor, k);
    }
    assert Interrupted(db, r0, done, final, plan, contributor, account);
    SplitSurvives(db, r0, done, final, plan, contributor, account);
    forall k | k in first
      ensures first[k].delete * final == {}
      ensures first[k].create ==> Of(final, k, first[k].fix.newId) != {}
    {
      CandidateRow(db, r0, plan, contributor, k);
      if first[k].create {
        var e :| e in final && e.title == k && e.value == first[k].fix.newId && e.contributor == account;
        assert e in Of(final, k, first[k].fix.newId);
      }
      assert forall e <- first[k].delete :: IsPlanned(first, e);
    }
  }

  lemma CompletedIsProgress(
    db: Db, r0: set<Entry>, final: set<Entry>, plan: seq<Correction>, contributor: string, account: string)
    requires ValidPlan(plan)
    requires Completed(Ready(db, ViewOf(r0), plan, contributor), r0, final, account)
    ensures Progress(Ready(db, ViewOf(r0), plan, contributor), r0, final, account)
  {
    hide Classify, Candidates, ReadyKeys;
    var first := Ready(db, ViewOf(r0), plan, contributor);
    ReadyRows(db, r0, plan, contributor);
    forall e | e in final
      ensures !IsPlanned(first, e)
    {
      if e.title in first {
        CandidateRow(db, r0, plan, contributor, e.title);
      }
    }
  }
}
