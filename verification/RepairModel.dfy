/**
 The two stores of the MAL mapping repair tool and the meaning of its preview.

 A correction says "this title should carry MAL id newId, not oldId".  A correction is a
 candidate when nothing about the title itself speaks against it; the ready corrections
 are the largest set of candidates none of which clashes with anything outside the set.
 */
module RepairModel {
  import opened Wrappers
  import opened Titles
  import opened QueueRows

  /** One MAL entry of the remote service; its id only serves to tell entries apart. */
  datatype Entry = Entry(id: nat, title: Key, value: string, contributor: string)

  /** The local `mappings` row of a title, for id_type 'mal'. */
  datatype LocalRow = LocalRow(
    value: string, status: Status, itemId: Option<nat>, claimedAt: Option<int>,
    submittedAt: Option<int>, attempts: nat, retryAfter: int, lastError: Option<string>)

  datatype Correction = Correction(key: Key, oldId: string, newId: string, details: map<string, string>)

  /** What preview reads locally: the MAL rows and the cached TMDB metadata. */
  datatype Db = Db(local: map<Key, LocalRow>, tmdb: map<Key, map<string, string>>)

  /** The answers of the two remote lookups; nothing says yet that they agree. */
  datatype View = View(entries: Key -> set<Entry>, owners: (Media, string) -> set<Key>)

  datatype ReadyRow = ReadyRow(
    fix: Correction, delete: set<Entry>, create: bool, newOwners: set<Key>, localBefore: LocalRow)

  datatype BlockReason =
    | LocalDiffers
    | LocalInFlight
    | MetadataChanged
    | LookupsDisagree
    | ForeignContributor
    | Conflict(localOwners: set<Key>, remoteOwners: set<Key>)

  /** Both lookups answered truthfully from one set of entries. */
  function ViewOf(remote: set<Entry>): View {
    View(
      k => set e | e in remote && e.title == k,
      (m, v) => set e | e in remote && e.title.media == m && e.value == v :: e.title)
  }

  function Owners(remote: set<Entry>, media: Media, value: string): set<Key> {
    set e | e in remote && e.title.media == media && e.value == value :: e.title
  }

  ghost predicate UniqueKeys(plan: seq<Correction>) {
    forall i, j :: 0 <= i < j < |plan| ==> plan[i].key != plan[j].key
  }

  /** What loading a plan guarantees about it. */
  ghost predicate ValidPlan(plan: seq<Correction>) {
    && UniqueKeys(plan)
    && forall r <- plan :: r.oldId != r.newId
  }

  ghost function PlanKeys(plan: seq<Correction>): set<Key> {
    set r | r in plan :: r.key
  }

  // ---------- one correction on its own ----------

  ghost predicate MetadataHolds(db: Db, fix: Correction) {
    && fix.key in db.tmdb
    && forall f <- fix.details :: f in db.tmdb[fix.key] && db.tmdb[fix.key][f] == fix.details[f]
  }

  ghost function LocalReason(db: Db, fix: Correction): Option<BlockReason> {
    if !MetadataHolds(db, fix) then Some(MetadataChanged)
    else if fix.key !in db.local || db.local[fix.key].value !in {fix.oldId, fix.newId} then Some(LocalDiffers)
    else if db.local[fix.key].status == InFlight then Some(LocalInFlight)
    else None
  }

  ghost function Holding(entries: set<Entry>, value: string): set<Entry> {
    set e | e in entries && e.value == value
  }

  ghost function Classify(db: Db, view: View, fix: Correction, contributor: string): (r: Result<ReadyRow, BlockReason>)
    ensures r.Ok? ==> r.value.fix == fix
  {
    match LocalReason(db, fix)
    case Some(reason) => Err(reason)
    case None =>
      var wrong := Holding(view.entries(fix.key), fix.oldId);
      var correct := Holding(view.entries(fix.key), fix.newId);
      var oldOwners := view.owners(fix.key.media, fix.oldId);
      var newOwners := view.owners(fix.key.media, fix.newId);
      if (wrong != {}) != (fix.key in oldOwners) || (correct != {}) != (fix.key in newOwners) then
        Err(LookupsDisagree)
      else if exists e <- wrong :: e.contributor != contributor then
        Err(ForeignContributor)
      else
        Ok(ReadyRow(fix, wrong, correct == {}, newOwners, db.local[fix.key]))
  }

  /**
   Which reason of its own a title has to be blocked, if any: metadata that is missing or differs
   comes before everything, then a local row that is missing or has a third value, then one in
   flight, then lookups that contradict each other, then somebody else's entry with the old id.
   */
  ghost predicate OwnReason(
    db: Db, view: View, fix: Correction, contributor: string, reason: Option<BlockReason>)
  {
    var k, entries := fix.key, view.entries(fix.key);
    var reviewed := k in db.tmdb && fix.details.Items <= db.tmdb[k].Items;
    var ours := k in db.local && (db.local[k].value == fix.oldId || db.local[k].value == fix.newId);
    var flying := k in db.local && db.local[k].status == InFlight;
    var agree := && ((exists e <- entries :: e.value == fix.oldId) <==> k in view.owners(k.media, fix.oldId))
                 && ((exists e <- entries :: e.value == fix.newId) <==> k in view.owners(k.media, fix.newId));
    var foreign := exists e <- entries :: e.value == fix.oldId && e.contributor != contributor;
    match reason
    case Some(MetadataChanged) => !reviewed
    case Some(LocalDiffers) => reviewed && !ours
    case Some(LocalInFlight) => reviewed && ours && flying
    case Some(LookupsDisagree) => reviewed && ours && !flying && !agree
    case Some(ForeignContributor) => reviewed && ours && !flying && agree && foreign
    case Some(Conflict(_, _)) => false
    case None => reviewed && ours && !flying && agree && !foreign
  }

  /** What the report says about a title that is not blocked: its entries to delete, and whether to create one. */
  ghost predicate Describes(db: Db, view: View, fix: Correction, row: ReadyRow) {
    && row.fix == fix && fix.key in db.local && row.localBefore == db.local[fix.key]
    && (forall e :: e in row.delete <==> e in view.entries(fix.key) && e.value == fix.oldId)
    && (row.create <==> forall e <- view.entries(fix.key) :: e.value != fix.newId)
    && row.newOwners == view.owners(fix.key.media, fix.newId)
  }

  /** A correction is judged by what is on record about its own title. */
  lemma VerdictMeans(db: Db, view: View, fix: Correction, contributor: string)
    ensures match Classify(db, view, fix, contributor)
            case Ok(row) => OwnReason(db, view, fix, contributor, None) && Describes(db, view, fix, row)
            case Err(reason) => OwnReason(db, view, fix, contributor, Some(reason))
  {
    DetailsAre(db, fix);
    var wrong, correct := Holding(view.entries(fix.key), fix.oldId), Holding(view.entries(fix.key), fix.newId);
    assert wrong != {} <==> exists e <- view.entries(fix.key) :: e.value == fix.oldId by {
      if e :| e in view.entries(fix.key) && e.value == fix.oldId {
        assert e in wrong;
      }
    }
    assert correct != {} <==> exists e <- view.entries(fix.key) :: e.value == fix.newId by {
      if e :| e in view.entries(fix.key) && e.value == fix.newId {
        assert e in correct;
      }
    }
    assert forall e :: e in wrong <==> e in view.entries(fix.key) && e.value == fix.oldId;
  }

  lemma DetailsAre(db: Db, fix: Correction)
    ensures MetadataHolds(db, fix) <==> fix.key in db.tmdb && fix.details.Items <= db.tmdb[fix.key].Items
  {
    if fix.key in db.tmdb {
      var tmdb := db.tmdb[fix.key];
      if fix.details.Items <= tmdb.Items {
        forall f | f in fix.details
          ensures f in tmdb && tmdb[f] == fix.details[f]
        {
          assert (f, fix.details[f]) in fix.details.Items;
        }
      }
    }
  }

  /** The corrections of a plan that survive on their own, by title. */
  ghost function Candidates(db: Db, view: View, plan: seq<Correction>, contributor: string): map<Key, ReadyRow> {
    if plan == [] then map[]
    else
      var rest := Candidates(db, view, plan[..|plan| - 1], contributor);
      var fix := plan[|plan| - 1];
      match Classify(db, view, fix, contributor)
      case Ok(row) => rest[fix.key := row]
      case Err(_) => rest
  }

  lemma {:induction false} CandidatesAre(db: Db, view: View, plan: seq<Correction>, contributor: string)
    requires UniqueKeys(plan)
    ensures CandidatesOf(db, view, plan, contributor, Candidates(db, view, plan, contributor))
  {
    hide Classify, CandidatesOf;
    if plan == [] {
      NoCandidates(db, view, contributor);
    } else {
      var init, fix := plan[..|plan| - 1], plan[|plan| - 1];
      CandidatesAre(db, view, init, contributor);
      NextCandidate(db, view, init, fix, contributor, Candidates(db, view, init, contributor));
      assert plan == init + [fix];
    }
  }

  /** The candidates are exactly the corrections that survive on their own. */
  ghost predicate CandidatesOf(
    db: Db, view: View, plan: seq<Correction>, contributor: string, rows: map<Key, ReadyRow>)
  {
    && (forall r <- plan :: Judged(db, view, r, contributor, rows))
    && (forall k <- rows :: rows[k].fix in plan && rows[k].fix.key == k)
  }

  lemma NoCandidates(db: Db, view: View, contributor: string)
    ensures CandidatesOf(db, view, [], contributor, map[])
  {}

  lemma NextCandidate(
    db: Db, view: View, plan: seq<Correction>, fix: Correction, contributor: string, rows: map<Key, ReadyRow>)
    requires CandidatesOf(db, view, plan, contributor, rows) && UniqueKeys(plan + [fix])
    ensures match Classify(db, view, fix, contributor)
            case Ok(row) => CandidatesOf(db, view, plan + [fix], contributor, rows[fix.key := row])
            case Err(_) => CandidatesOf(db, view, plan + [fix], contributor, rows)
  {
    hide Classify;
    forall r | r in plan
      ensures r.key != fix.key
    {
      var i :| 0 <= i < |plan| && plan[i] == r;
      assert (plan + [fix])[i].key != (plan + [fix])[|plan|].key;
    }
  }

  ghost predicate Judged(db: Db, view: View, r: Correction, contributor: string, rows: map<Key, ReadyRow>) {
    match Classify(db, view, r, contributor)
    case Ok(row) => r.key in rows && rows[r.key] == row
    case Err(_) => r.key !in rows
  }

  // ---------- corrections against each other ----------

  /** Other titles that locally hold the new id and will not give it up. */
  ghost function ExternalLocal(db: Db, rows: map<Key, ReadyRow>, batch: set<Key>, k: Key): set<Key>
    requires k in rows && batch <= rows.Keys
  {
    set o | o in db.local && o.media == k.media && o != k && db.local[o].value == rows[k].fix.newId
            && (o !in batch || rows[o].fix.newId == rows[k].fix.newId)
  }

  /** Other titles that remotely own an id still to be created and will not be freed of it. */
  ghost function ExternalRemote(rows: map<Key, ReadyRow>, batch: set<Key>, k: Key): set<Key>
    requires k in rows && batch <= rows.Keys
  {
    if !rows[k].create then {}
    else set o | o in rows[k].newOwners && o != k
                 && (o !in batch || rows[o].delete == {} || rows[o].fix.oldId != rows[k].fix.newId)
  }

  /** Another candidate wants the same id for the same media type. */
  predicate SharesTarget(rows: map<Key, ReadyRow>, k: Key)
    requires k in rows
  {
    exists o <- rows :: o != k && o.media == k.media && rows[o].fix.newId == rows[k].fix.newId
  }

  ghost predicate Clashes(db: Db, rows: map<Key, ReadyRow>, batch: set<Key>, k: Key)
    requires k in rows && batch <= rows.Keys
  {
    ExternalLocal(db, rows, batch, k) != {} || ExternalRemote(rows, batch, k) != {} || SharesTarget(rows, k)
  }

  /** No member of the batch clashes with anything outside it. */
  ghost predicate Stable(db: Db, rows: map<Key, ReadyRow>, batch: set<Key>) {
    && batch <= rows.Keys
    && forall k <- batch :: !Clashes(db, rows, batch, k)
  }

  /** The union of all stable batches. */
  ghost function ReadyKeys(db: Db, rows: map<Key, ReadyRow>): set<Key> {
    set k | k in rows && exists batch :: Stable(db, rows, batch) && k in batch
  }

  ghost function Ready(db: Db, view: View, plan: seq<Correction>, contributor: string): map<Key, ReadyRow> {
    var rows := Candidates(db, view, plan, contributor);
    map k | k in ReadyKeys(db, rows) :: rows[k]
  }

  /**
   A batch is stable when each of its ids will be free for its title: no other candidate of the
   media type wants it, whoever holds it locally is in the batch and moves to another id, and if
   it has to be created, whoever owns it remotely is in the batch and deletes it.
   */
  lemma StableMeans(db: Db, rows: map<Key, ReadyRow>, batch: set<Key>)
    requires batch <= rows.Keys
    ensures Stable(db, rows, batch) <==>
              forall k <- batch, o: Key | o != k ::
                var id := rows[k].fix.newId;
                && (o in rows && o.media == k.media ==> rows[o].fix.newId != id)
                && (o in db.local && o.media == k.media && db.local[o].value == id ==>
                      o in batch && rows[o].fix.newId != id)
                && (rows[k].create && o in rows[k].newOwners ==>
                      o in batch && rows[o].delete != {} && rows[o].fix.oldId == id)
  {
    forall k | k in batch
      ensures !Clashes(db, rows, batch, k) <==>
                forall o: Key | o != k ::
                  var id := rows[k].fix.newId;
                  && (o in rows && o.media == k.media ==> rows[o].fix.newId != id)
                  && (o in db.local && o.media == k.media && db.local[o].value == id ==>
                        o in batch && rows[o].fix.newId != id)
                  && (rows[k].create && o in rows[k].newOwners ==>
                        o in batch && rows[o].delete != {} && rows[o].fix.oldId == id)
    {
      ClashMeans(db, rows, batch, k);
    }
  }

  lemma ClashMeans(db: Db, rows: map<Key, ReadyRow>, batch: set<Key>, k: Key)
    requires k in batch && batch <= rows.Keys
    ensures Clashes(db, rows, batch, k) <==>
              || (exists o <- rows :: o != k && o.media == k.media && rows[o].fix.newId == rows[k].fix.newId)
              || (exists o <- db.local ::
                    && o != k && o.media == k.media && db.local[o].value == rows[k].fix.newId
                    && (o in batch ==> rows[o].fix.newId == rows[k].fix.newId))
              || (rows[k].create && exists o <- rows[k].newOwners ::
                    o != k && (o in batch ==> rows[o].delete == {} || rows[o].fix.oldId != rows[k].fix.newId))
  {
    var locals, remotes := ExternalLocal(db, rows, batch, k), ExternalRemote(rows, batch, k);
    assert forall o :: o in locals <==>
             && o in db.local && o != k && o.media == k.media && db.local[o].value == rows[k].fix.newId
             && (o in batch ==> rows[o].fix.newId == rows[k].fix.newId);
    assert forall o :: o in remotes <==>
             && rows[k].create && o in rows[k].newOwners && o != k
             && (o in batch ==> rows[o].delete == {} || rows[o].fix.oldId != rows[k].fix.newId);
  }

  /** A larger batch clashes with less. */
  lemma ClashShrinks(db: Db, rows: map<Key, ReadyRow>, small: set<Key>, large: set<Key>, k: Key)
    requires small <= large <= rows.Keys && k in rows
    requires Clashes(db, rows, large, k)
    ensures Clashes(db, rows, small, k)
  {
    assert ExternalLocal(db, rows, large, k) <= ExternalLocal(db, rows, small, k);
    assert ExternalRemote(rows, large, k) <= ExternalRemote(rows, small, k);
  }

  /** The union of the stable batches is itself stable: there is one largest batch. */
  lemma ReadyIsLargestStable(db: Db, rows: map<Key, ReadyRow>)
    ensures Stable(db, rows, ReadyKeys(db, rows))
    ensures forall batch :: Stable(db, rows, batch) ==> batch <= ReadyKeys(db, rows)
  {
    var all := ReadyKeys(db, rows);
    forall k | k in all
      ensures !Clashes(db, rows, all, k)
    {
      var batch :| Stable(db, rows, batch) && k in batch;
      assert batch <= all;
      if Clashes(db, rows, all, k) {
        ClashShrinks(db, rows, batch, all, k);
      }
    }
  }
}
