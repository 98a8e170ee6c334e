/** The preview of a repair plan, as the loops that shrink `ready` and fill `blocked`. */
module RepairPreview {
  import opened Wrappers
  import opened Titles
  import opened QueueRows
  import opened RepairModel

  /** Every planned title is either still ready or blocked, never both. */
  ghost predicate Split(ready: map<Key, ReadyRow>, blocked: map<Key, BlockReason>, plan: seq<Correction>) {
    ready.Keys !! blocked.Keys && ready.Keys + blocked.Keys == PlanKeys(plan)
  }

  /**
   A title is ready or in conflict only when nothing is wrong with it alone, and then its row says
   what is to be done; otherwise it is blocked for its own reason.
   */
  ghost predicate ReasonsFit(
    ready: map<Key, ReadyRow>, blocked: map<Key, BlockReason>, db: Db, view: View, plan: seq<Correction>,
    contributor: string)
  {
    forall r <- plan ::
      if r.key in ready then OwnReason(db, view, r, contributor, None) && Describes(db, view, r, ready[r.key])
      else
        && r.key in blocked
        && OwnReason(db, view, r, contributor, if blocked[r.key].Conflict? then None else Some(blocked[r.key]))
  }

  method Preview(db: Db, view: View, plan: seq<Correction>, contributor: string)
    returns (ready: map<Key, ReadyRow>, blocked: map<Key, BlockReason>)
    requires UniqueKeys(plan)
    ensures ready == Ready(db, view, plan, contributor)
    ensures Split(ready, blocked, plan)
    ensures ReasonsFit(ready, blocked, db, view, plan, contributor)
    ensures ConflictsFit(db, Candidates(db, view, plan, contributor), ready.Keys, blocked)
  {
    hide Classify, Clashes, Stable, OwnReason, Describes, ExternalLocal, ExternalRemote;
    ready, blocked := Sort(db, view, plan, contributor);
    CandidatesAre(db, view, plan, contributor);
    ghost var alone := blocked;
    ready, blocked := Settle(db, ready, blocked);
    forall r | r in plan
      ensures r.key in ready ==> OwnReason(db, view, r, contributor, None) && Describes(db, view, r, ready[r.key])
      ensures r.key !in ready ==>
                && r.key in blocked
                && OwnReason(db, view, r, contributor, if blocked[r.key].Conflict? then None else Some(blocked[r.key]))
    {
      assert Judged(db, view, r, contributor, Candidates(db, view, plan, contributor));
      VerdictMeans(db, view, r, contributor);
      NoConflictAlone(db, view, r, contributor);
    }
  }

  lemma NoConflictAlone(db: Db, view: View, r: Correction, contributor: string)
    ensures Classify(db, view, r, contributor).Err? ==> !Classify(db, view, r, contributor).error.Conflict?
  {}

  /** A conflict names whom it is with: at least all who are no candidates, and nobody who gives way in the end. */
  ghost predicate ConflictsFit(
    db: Db, rows: map<Key, ReadyRow>, batch: set<Key>, blocked: map<Key, BlockReason>)
  {
    batch <= rows.Keys
    && forall k <- blocked :: k in rows ==>
         && blocked[k].Conflict?
         && ExternalLocal(db, rows, rows.Keys, k) <= blocked[k].localOwners <= ExternalLocal(db, rows, batch, k)
         && ExternalRemote(rows, rows.Keys, k) <= blocked[k].remoteOwners <= ExternalRemote(rows, batch, k)
  }

  ghost predicate Remembers(ownerCache: map<(Media, string), set<Key>>, view: View) {
    forall c <- ownerCache :: ownerCache[c] == view.owners(c.0, c.1)
  }

  /** First pass: each correction on its own, with remembered reverse lookups. */
  method Sort(db: Db, view: View, plan: seq<Correction>, contributor: string)
    returns (ready: map<Key, ReadyRow>, blocked: map<Key, BlockReason>)
    requires UniqueKeys(plan)
    ensures Triaged(db, view, plan, contributor, ready, blocked)
  {
    hide Classify, Triaged;
    ready, blocked := map[], map[];
    assert plan[..0] == [];
    TriageStart(db, view, contributor);
    var ownerCache: map<(Media, string), set<Key>> := map[];
    for i := 0 to |plan|
      invariant Remembers(ownerCache, view)
      invariant Triaged(db, view, plan[..i], contributor, ready, blocked)
    {
      var fix := plan[i];
      TriageNext(db, view, plan[..i], fix, contributor, ready, blocked);
      assert plan[..i + 1] == plan[..i] + [fix];
      var verdict;
      verdict, ownerCache := SortOne(db, view, fix, contributor, ownerCache);
      match verdict
      case Err(reason) => blocked := blocked[fix.key := reason];
      case Ok(row) => ready := ready[fix.key := row];
    }
    assert plan[..|plan|] == plan;
  }

  /** The outcome of the first pass over a plan. */
  ghost predicate Triaged(
    db: Db, view: View, plan: seq<Correction>, contributor: string,
    ready: map<Key, ReadyRow>, blocked: map<Key, BlockReason>)
  {
    && ready == Candidates(db, view, plan, contributor)
    && Split(ready, blocked, plan)
    && forall r <- plan :: match Classify(db, view, r, contributor)
                           case Err(reason) => r.key in blocked && blocked[r.key] == reason
                           case Ok(_) => r.key in ready
  }

  lemma TriageStart(db: Db, view: View, contributor: string)
    ensures Triaged(db, view, [], contributor, map[], map[])
  {
    assert Candidates(db, view, [], contributor) == map[];
  }

  lemma TriageNext(
    db: Db, view: View, plan: seq<Correction>, fix: Correction, contributor: string,
    ready: map<Key, ReadyRow>, blocked: map<Key, BlockReason>)
    requires Triaged(db, view, plan, contributor, ready, blocked)
    requires forall r <- plan :: r.key != fix.key
    ensures match Classify(db, view, fix, contributor)
            case Err(reason) => Triaged(db, view, plan + [fix], contributor, ready, blocked[fix.key := reason])
            case Ok(row) => Triaged(db, view, plan + [fix], contributor, ready[fix.key := row], blocked)
  {
    hide Classify, Candidates;
    CandidatesNext(db, view, plan, fix, contributor);
    assert PlanKeys(plan + [fix]) == PlanKeys(plan) + {fix.key};
    assert fix.key !in PlanKeys(plan);
  }

  lemma CandidatesNext(db: Db, view: View, plan: seq<Correction>, fix: Correction, contributor: string)
    ensures Candidates(db, view, plan + [fix], contributor) ==
            var rest := Candidates(db, view, plan, contributor);
            match Classify(db, view, fix, contributor)
            case Ok(row) => rest[fix.key := row]
            case Err(_) => rest
  {
    hide Classify;
    assert (plan + [fix])[..|plan|] == plan;
  }

  method SortOne(
    db: Db, view: View, fix: Correction, contributor: string, known: map<(Media, string), set<Key>>)
    returns (verdict: Result<ReadyRow, BlockReason>, ownerCache: map<(Media, string), set<Key>>)
    requires Remembers(known, view)
    ensures verdict == Classify(db, view, fix, contributor)
    ensures Remembers(ownerCache, view)
  {
    ownerCache := known;
    var reason: Option<BlockReason> := None;
    if fix.key !in db.local || (db.local[fix.key].value != fix.oldId && db.local[fix.key].value != fix.newId) {
      reason := Some(LocalDiffers);
    } else if db.local[fix.key].status == InFlight {
      reason := Some(LocalInFlight);
    }
    if fix.key !in db.tmdb
       || exists f <- fix.details :: f !in db.tmdb[fix.key] || db.tmdb[fix.key][f] != fix.details[f] {
      reason := Some(MetadataChanged);
    }
    if reason.Some? {
      return Err(reason.value), ownerCache;
    }
    var entries := view.entries(fix.key);
    var wrong := set e | e in entries && e.value == fix.oldId;
    var correct := set e | e in entries && e.value == fix.newId;
    var oldScope, newScope := (fix.key.media, fix.oldId), (fix.key.media, fix.newId);
    if oldScope !in ownerCache {
      ownerCache := ownerCache[oldScope := view.owners(fix.key.media, fix.oldId)];
    }
    if newScope !in ownerCache {
      ownerCache := ownerCache[newScope := view.owners(fix.key.media, fix.newId)];
    }
    var oldOwners, newOwners := ownerCache[oldScope], ownerCache[newScope];
    if (wrong != {}) != (fix.key in oldOwners) || (correct != {}) != (fix.key in newOwners) {
      verdict := Err(LookupsDisagree);
    } else if exists e <- wrong :: e.contributor != contributor {
      verdict := Err(ForeignContributor);
    } else {
      verdict := Ok(ReadyRow(fix, wrong, correct == {}, newOwners, db.local[fix.key]));
    }
  }

  ghost predicate Restricts(ready: map<Key, ReadyRow>, rows: map<Key, ReadyRow>) {
    ready.Keys <= rows.Keys && forall k <- ready :: ready[k] == rows[k]
  }

  /** The state of the second pass between two removals. */
  ghost predicate Shrinking(
    db: Db, rows: map<Key, ReadyRow>, alone: map<Key, BlockReason>,
    ready: map<Key, ReadyRow>, blocked: map<Key, BlockReason>)
  {
    && Restricts(ready, rows) && ReadyKeys(db, rows) <= ready.Keys
    && ready.Keys !! blocked.Keys && ready.Keys + blocked.Keys == rows.Keys + alone.Keys
    && (forall k <- alone :: k in blocked && blocked[k] == alone[k])
    && ConflictsFit(db, rows, ready.Keys, blocked)
  }

  function Targets(rows: map<Key, ReadyRow>): set<(Media, string)> {
    set k | k in rows && SharesTarget(rows, k) :: (k.media, rows[k].fix.newId)
  }

  lemma TargetsAre(rows: map<Key, ReadyRow>, k: Key)
    requires k in rows
    ensures (k.media, rows[k].fix.newId) in Targets(rows) <==> SharesTarget(rows, k)
  {
    if (k.media, rows[k].fix.newId) in Targets(rows) {
      var o :| o in rows && SharesTarget(rows, o) && (o.media, rows[o].fix.newId) == (k.media, rows[k].fix.newId);
    }
  }

  lemma NoConflictsYet(db: Db, rows: map<Key, ReadyRow>, alone: map<Key, BlockReason>)
    requires rows.Keys !! alone.Keys
    ensures ConflictsFit(db, rows, rows.Keys, alone)
  {}

  /** Second pass: drop conflicting rows until a whole round drops none. */
  method Settle(db: Db, rows: map<Key, ReadyRow>, alone: map<Key, BlockReason>)
    returns (ready: map<Key, ReadyRow>, blocked: map<Key, BlockReason>)
    requires rows.Keys !! alone.Keys
    ensures ready == map k | k in ReadyKeys(db, rows) :: rows[k]
    ensures Shrinking(db, rows, alone, ready, blocked)
  {
    ready, blocked := rows, alone;
    var duplicateTargets := Targets(ready);
    ReadyIsLargestStable(db, rows);
    var changed := true;
    while changed
      invariant Shrinking(db, rows, alone, ready, blocked)
      invariant !changed ==> Stable(db, rows, ready.Keys)
      decreases ready.Keys, changed
    {
      ready, blocked, changed := Round(db, rows, alone, duplicateTargets, ready, blocked);
    }
  }

  /** One round over a snapshot of the rows, in an arbitrary order: the outcome does not depend on it. */
  method Round(
    db: Db, ghost rows: map<Key, ReadyRow>, ghost alone: map<Key, BlockReason>,
    duplicateTargets: set<(Media, string)>, before: map<Key, ReadyRow>, blockedBefore: map<Key, BlockReason>)
    returns (ready: map<Key, ReadyRow>, blocked: map<Key, BlockReason>, changed: bool)
    requires Shrinking(db, rows, alone, before, blockedBefore)
    requires duplicateTargets == Targets(rows)
    ensures Shrinking(db, rows, alone, ready, blocked)
    ensures changed ==> ready.Keys < before.Keys
    ensures !changed ==> ready == before && Stable(db, rows, ready.Keys)
  {
    ready, blocked, changed := before, blockedBefore, false;
    var pending := ready.Keys;
    while pending != {}
      invariant Shrinking(db, rows, alone, ready, blocked)
      invariant pending <= ready.Keys <= before.Keys
      invariant changed ==> ready.Keys < before.Keys
      invariant !changed ==> ready == before && Clean(db, rows, ready.Keys, ready.Keys - pending)
      decreases pending
    {
      var key :| key in pending;
      pending := pending - {key};
      var conflict, externalLocal, externalRemote := Inspect(db, rows, duplicateTargets, ready, key);
      if conflict {
        Dropped(db, rows, alone, ready, blocked, key, Conflict(externalLocal, externalRemote));
        blocked := blocked[key := Conflict(externalLocal, externalRemote)];
        ready := ready - {key};
        changed := true;
      }
    }
  }

  ghost predicate Clean(db: Db, rows: map<Key, ReadyRow>, batch: set<Key>, checked: set<Key>) {
    && checked <= batch <= rows.Keys
    && forall k <- checked :: !Clashes(db, rows, batch, k)
  }

  method Inspect(
    db: Db, ghost rows: map<Key, ReadyRow>, duplicateTargets: set<(Media, string)>,
    ready: map<Key, ReadyRow>, key: Key)
    returns (conflict: bool, externalLocal: set<Key>, externalRemote: set<Key>)
    requires Restricts(ready, rows) && key in ready && duplicateTargets == Targets(rows)
    ensures conflict == Clashes(db, rows, ready.Keys, key)
    ensures externalLocal == ExternalLocal(db, rows, ready.Keys, key)
    ensures externalRemote == ExternalRemote(rows, ready.Keys, key)
  {
    TargetsAre(rows, key);
    var row := ready[key];
    externalLocal := set o | o in db.local && o.media == key.media && o != key && db.local[o].value == row.fix.newId
                             && (o !in ready || ready[o].fix.newId == row.fix.newId);
    externalRemote := {};
    if row.create {
      externalRemote := set o | o in row.newOwners && o != key
                                && (o !in ready || ready[o].delete == {} || ready[o].fix.oldId != row.fix.newId);
    }
    conflict := externalLocal != {} || externalRemote != {} || (key.media, ready[key].fix.newId) in duplicateTargets;
  }

  /** A clashing row can be dropped: it belongs to no stable batch. */
  lemma Dropped(
    db: Db, rows: map<Key, ReadyRow>, alone: map<Key, BlockReason>,
    ready: map<Key, ReadyRow>, blocked: map<Key, BlockReason>, key: Key, reason: BlockReason)
    requires Shrinking(db, rows, alone, ready, blocked)
    requires key in ready && Clashes(db, rows, ready.Keys, key)
    requires reason == Conflict(ExternalLocal(db, rows, ready.Keys, key), ExternalRemote(rows, ready.Keys, key))
    ensures Shrinking(db, rows, alone, ready - {key}, blocked[key := reason])
  {
    hide Clashes, ReadyKeys, ExternalLocal, ExternalRemote, Stable;
    ReadyIsLargestStable(db, rows);
    if key in ReadyKeys(db, rows) {
      ClashShrinks(db, rows, ReadyKeys(db, rows), ready.Keys, key);
    }
    assert key !in alone;
    MoreIsOutside(db, rows, ready.Keys - {key}, ready.Keys);
  }

  /** The smaller the batch, the more is outside of it. */
  lemma MoreIsOutside(db: Db, rows: map<Key, ReadyRow>, small: set<Key>, large: set<Key>)
    requires small <= large <= rows.Keys
    ensures forall k <- rows ::
              && ExternalLocal(db, rows, rows.Keys, k) <= ExternalLocal(db, rows, large, k)
              && ExternalLocal(db, rows, large, k) <= ExternalLocal(db, rows, small, k)
              && ExternalRemote(rows, rows.Keys, k) <= ExternalRemote(rows, large, k)
              && ExternalRemote(rows, large, k) <= ExternalRemote(rows, small, k)
  {}
}
