/** Saving what was found out about one title: holds, queue rows, and the order between them. */
module HarvestSave {
  import opened Wrappers
  import opened Decimal
  import opened LocalDatabase
  import opened MalDecision
  import opened MalEligibility
  import opened MalSafety
  import opened QueueKeys
  import opened QueueProtocol
  import opened QueueRows
  import opened Titles

  const MAPPING_TYPES: set<string> := {"imdb", "tvdb", "mal", "anilist", "trakt"}

  function NameOf(reason: Reason): string {
    match reason
    case MappingConflict => "mapping_conflict"
    case AmbiguousIdentity => "ambiguous_identity"
    case CorrectionAvailable => "correction_available"
    case InvalidMapping => "invalid_mapping"
    case InvalidResponse => "invalid_response"
    case NotFound => "not_found"
    case SkippedSeriesScope => "skipped_series_scope"
    case SkippedDatasetScope => "skipped_dataset_scope"
    case Skipped(why) => "skipped_" + Text(why)
    case _ => ""
  }

  function Text(why: Why): string {
    match why
    case TitleMismatch => "title_mismatch"
    case MissingAirDates => "missing_air_dates"
    case FormatMismatch => "format_mismatch"
    case ReleaseYearMismatch => "release_year_mismatch"
    case IncompleteSeries => "incomplete_series"
    case MultipleOrUnknownSeasons => "multiple_or_unknown_seasons"
    case EpisodeCountMismatch => "episode_count_mismatch"
    case AirDatesMismatch => "air_dates_mismatch"
  }

  /** A hold carries the outcome's name as it is reported. */
  lemma HoldsAreNamed(why: Why)
    ensures NameOf(MappingConflict) == "mapping_conflict" && NameOf(AmbiguousIdentity) == "ambiguous_identity"
    ensures NameOf(CorrectionAvailable) == "correction_available" && NameOf(NotFound) == "not_found"
    ensures NameOf(InvalidMapping) == "invalid_mapping" && NameOf(InvalidResponse) == "invalid_response"
    ensures NameOf(SkippedSeriesScope) == "skipped_series_scope"
    ensures NameOf(SkippedDatasetScope) == "skipped_dataset_scope"
    ensures NameOf(Skipped(why)) == "skipped_" + Text(why)
  {
    hide Text;
  }

  lemma SkipsAreNamed()
    ensures Text(TitleMismatch) == "title_mismatch" && Text(MissingAirDates) == "missing_air_dates"
    ensures Text(FormatMismatch) == "format_mismatch" && Text(ReleaseYearMismatch) == "release_year_mismatch"
    ensures Text(IncompleteSeries) == "incomplete_series" && Text(AirDatesMismatch) == "air_dates_mismatch"
    ensures Text(MultipleOrUnknownSeasons) == "multiple_or_unknown_seasons"
    ensures Text(EpisodeCountMismatch) == "episode_count_mismatch"
  {}

  /** The validated MAL id, if the result is one. */
  function ValidatedId(result: Option<MalResult>): Option<int> {
    if result.Some? && result.value.validated then result.value.malId else None
  }

  /** The log since `first` is a run of allowed steps from `s` to the present queue. */
  ghost predicate Follows(s: Vetting, db: Db, first: nat, maxAttempts: int)
    reads db
  {
    && first <= |db.mappingSteps| && AllAllowed(s, db.mappingSteps[first..], maxAttempts)
    && Since(s, db, first).queue == db.mappings
  }

  ghost function Since(s: Vetting, db: Db, first: nat): Vetting
    requires first <= |db.mappingSteps|
    reads db
  {
    Vetted(s, db.mappingSteps[first..])
  }

  /** The holds after a result: a validation releases, a refusal holds, anything else changes nothing. */
  method UpdateMalHold(
    db: Db, title: Key, result: Option<MalResult>, ghost s: Vetting, ghost first: nat, ghost maxAttempts: int)
    requires Follows(s, db, first, maxAttempts)
    requires ValidatedId(result).Some? ==> title in Since(s, db, first).releasing
    modifies db`mappings, db`holds, db`mappingSteps
    ensures ValidatedId(result).Some? ==> db.holds == old(db.holds) - {MalKey(title)}
    ensures ValidatedId(result).None? && result.Some? && Blocks(result.value.outcome) ==>
              db.holds == old(db.holds)[MalKey(title) := NameOf(result.value.outcome)]
    ensures ValidatedId(result).None? && (result.None? || !Blocks(result.value.outcome)) ==> db.holds == old(db.holds)
    ensures old(HoldsShown(db.mappings, db.holds)) ==> HoldsShown(db.mappings, db.holds)
    ensures db.mappings.rows == old(db.mappings.rows)
    ensures db.mappingSteps == old(db.mappingSteps) + HoldSteps(title, result)
    ensures Follows(s, db, first, maxAttempts)
    ensures Since(s, db, first).validated == old(Since(s, db, first).validated)
    ensures Since(s, db, first).releasing
            == old(Since(s, db, first).releasing) - if ValidatedId(result).Some? then {title} else {}
  {
    hide AllAllowed, Vetted, HoldsShown, NameOf, Blocks;
    ghost var steps := db.mappingSteps[first..];
    if result.None? {
      return;
    }
    if result.value.validated && result.value.malId.Some? {
      OneMoreVetted(s, steps, Unbar(MalKey(title)), maxAttempts);
      db.ReleaseHold(MalKey(title));
      assert db.mappingSteps[first..] == steps + [Unbar(MalKey(title))];
    } else if Blocks(result.value.outcome) {
      OneMoreVetted(s, steps, Bar(MalKey(title)), maxAttempts);
      db.Hold(MalKey(title), NameOf(result.value.outcome));
      assert db.mappingSteps[first..] == steps + [Bar(MalKey(title))];
    }
  }

  ghost function HoldSteps(title: Key, result: Option<MalResult>): seq<QStep> {
    if ValidatedId(result).Some? then [Unbar(MalKey(title))]
    else if result.Some? && Blocks(result.value.outcome) then [Bar(MalKey(title))]
    else []
  }

  /** The mappings that are queued: never an AniList or AniDB id, and a MAL id only when validated. */
  function Queueable(
    mappings: map<string, string>, result: Option<MalResult>, supplements: map<string, string>): map<string, string>
  {
    var own := mappings - {"anilist", "anidb", "mal"};
    var withMal := if ValidatedId(result).Some? then own["mal" := TextOf(ValidatedId(result).value)] else own;
    withMal + supplements
  }

  lemma QueueableIs(mappings: map<string, string>, result: Option<MalResult>, supplements: map<string, string>)
    requires supplements.Keys <= {"imdb", "tvdb"}
    ensures var queue := Queueable(mappings, result, supplements);
            && "anilist" !in queue && "anidb" !in queue
            && ("mal" in queue <==> ValidatedId(result).Some?)
            && ("mal" in queue ==> queue["mal"] == TextOf(ValidatedId(result).value))
            && (forall t <- supplements.Keys + mappings.Keys - {"mal", "anilist", "anidb"} ::
                  t in queue && queue[t] == if t in supplements then supplements[t] else mappings[t])
  {}

  /** One upsert of the save. */
  method SaveMapping(
    db: Db, k: MappingKey, value: string, now: int, rowid: nat, ghost s: Vetting, ghost first: nat,
    ghost maxAttempts: int)
    requires Follows(s, db, first, maxAttempts)
    modifies db`mappings, db`mappingSteps
    ensures Storable(k, value).None? ==> db.mappings == old(db.mappings) && db.mappingSteps == old(db.mappingSteps)
    ensures Storable(k, value).Some? ==>
              db.mappings.rows == Stored(old(db.mappings.rows), k, Storable(k, value).value, now, rowid)
    ensures old(HoldsShown(db.mappings, db.holds)) ==> HoldsShown(db.mappings, db.holds)
    ensures old(db.mappingSteps) <= db.mappingSteps && Follows(s, db, first, maxAttempts)
    ensures var before, after := old(Since(s, db, first)), Since(s, db, first);
            if k.idType == "mal"
            then after.validated == before.validated[k.title := value]
              && after.releasing == before.releasing + {k.title}
            else after.validated == before.validated && after.releasing == before.releasing
  {
    hide AllAllowed, Vetted, HoldsShown, Stored;
    ghost var steps := db.mappingSteps[first..];
    var queued := db.UpsertMapping(k, value, now, rowid);
    if Storable(k, value).Some? {
      ghost var upsert: QStep := Upsert(k, Storable(k, value).value, now, rowid);
      if NeverSubmitted(k) {
        OneMoreVetted(s, steps, Bar(k), maxAttempts);
      }
      assert !NeverSubmitted(k) ==> steps + BarSteps(k) == steps;
      OneMoreVetted(s, steps + BarSteps(k), upsert, maxAttempts);
      assert db.mappingSteps[first..] == steps + BarSteps(k) + [upsert];
    }
  }

  /** What a save of these mappings does so far: `left` are the ones to come. */
  ghost predicate SavedBut(
    left: set<string>, before: Table<MappingKey, string>, after: Table<MappingKey, string>, title: Key,
    mappings: map<string, string>)
  {
    && before.Keys <= after.Keys
    && (forall k <- after :: !(k.title == title && Supported(mappings, k.idType) && k.idType !in left) ==>
          k in before && after[k] == before[k])
    && (forall t <- mappings ::
          t !in left && Supported(mappings, t) && Storable(MappingKey(title, t), mappings[t]).Some? ==>
            && MappingKey(title, t) in after
            && after[MappingKey(title, t)].value == Storable(MappingKey(title, t), mappings[t]).value)
  }

  ghost predicate Supported(mappings: map<string, string>, idType: string) {
    idType in mappings && mappings[idType] != "" && idType in {"trakt", "anilist", "mal", "tvdb", "imdb"}
  }

  /** What the save does to the titles' validations: a MAL id among the mappings counts as validated. */
  ghost predicate VettedBut(
    left: set<string>, before: Vetting, after: Vetting, title: Key, mappings: map<string, string>)
  {
    if Supported(mappings, "mal") && "mal" !in left
    then after.validated == before.validated[title := mappings["mal"]] && after.releasing == before.releasing + {title}
    else after.validated == before.validated && after.releasing == before.releasing
  }

  /** One upsert per mapping of the title. */
  method SaveMappings(
    db: Db, title: Key, mappings: map<string, string>, now: int, rowid: nat, ghost s: Vetting, ghost first: nat,
    ghost maxAttempts: int)
    requires Follows(s, db, first, maxAttempts)
    modifies db`mappings, db`mappingSteps
    ensures SavedBut({}, old(db.mappings.rows), db.mappings.rows, title, mappings)
    ensures old(HoldsShown(db.mappings, db.holds)) ==> HoldsShown(db.mappings, db.holds)
    ensures old(db.mappingSteps) <= db.mappingSteps && Follows(s, db, first, maxAttempts)
    ensures VettedBut({}, old(Since(s, db, first)), Since(s, db, first), title, mappings)
  {
    hide AllAllowed, Since, HoldsShown, Storable, Stored, SavedBut;
    SavedNothing(db.mappings.rows, title, mappings);
    var left := mappings.Keys;
    while left != {}
      invariant left <= mappings.Keys
      invariant SavedBut(left, old(db.mappings.rows), db.mappings.rows, title, mappings)
      invariant old(HoldsShown(db.mappings, db.holds)) ==> HoldsShown(db.mappings, db.holds)
      invariant old(db.mappingSteps) <= db.mappingSteps && Follows(s, db, first, maxAttempts)
      invariant VettedBut(left, old(Since(s, db, first)), Since(s, db, first), title, mappings)
      decreases left
    {
      var t :| t in left;
      ghost var rows := db.mappings.rows;
      if mappings[t] != "" && t in MAPPING_TYPES {
        SaveMapping(db, MappingKey(title, t), mappings[t], now, rowid, s, first, maxAttempts);
      }
      SavedNext(left, t, old(db.mappings.rows), rows, db.mappings.rows, title, mappings, now, rowid);
      left := left - {t};
    }
  }

  lemma SavedNothing(rows: Table<MappingKey, string>, title: Key, mappings: map<string, string>)
    ensures SavedBut(mappings.Keys, rows, rows, title, mappings)
  {}

  lemma SavedNext(
    left: set<string>, t: string, before: Table<MappingKey, string>, rows: Table<MappingKey, string>,
    after: Table<MappingKey, string>, title: Key, mappings: map<string, string>, now: int, rowid: nat)
    requires t in left && t in mappings && SavedBut(left, before, rows, title, mappings)
    requires var k := MappingKey(title, t);
             after == if Supported(mappings, t) && Storable(k, mappings[t]).Some?
                      then Stored(rows, k, Storable(k, mappings[t]).value, now, rowid) else rows
    ensures SavedBut(left - {t}, before, after, title, mappings)
  {
    hide Storable;
  }

  /**
   The save of one title: a refusal is held before any queue write, and a hold is released only
   after the validated id is stored.  `s` is the queue with its vetting; the save is a run of
   allowed steps, and the only MAL id it counts as validated is that of a validated result.
   */
  method SaveCandidate(
    db: Db, title: Key, mappings: map<string, string>, result: Option<MalResult>, supplements: map<string, string>,
    now: int, rowid: nat, ghost s: Vetting, ghost maxAttempts: int)
    requires supplements.Keys <= {"imdb", "tvdb"} && s.queue == db.mappings
    requires ValidatedId(result).Some? ==> ValidatedId(result).value > 0
    modifies db`mappings, db`holds, db`mappingSteps
    ensures ValidatedId(result).Some? ==>
              && MalKey(title) !in db.holds && MalKey(title) in db.mappings.rows
              && db.mappings.rows[MalKey(title)].value == Digits(ValidatedId(result).value)
    ensures forall t <- supplements.Keys + mappings.Keys - {"mal", "anilist", "anidb"} ::
              var value := if t in supplements then supplements[t] else mappings[t];
              t in {"imdb", "tvdb", "trakt"} && value != "" && Storable(MappingKey(title, t), value).Some? ==>
                && MappingKey(title, t) in db.mappings.rows
                && db.mappings.rows[MappingKey(title, t)].value == Storable(MappingKey(title, t), value).value
    ensures forall k <- db.mappings.rows ::
              k.title != title || NeverSubmitted(k) || (k.idType == "mal" && ValidatedId(result).None?) ==>
                k in old(db.mappings.rows) && db.mappings.rows[k] == old(db.mappings.rows)[k]
    ensures db.holds == HoldsAfter(old(db.holds), title, result)
    ensures old(HoldsShown(db.mappings, db.holds)) ==> HoldsShown(db.mappings, db.holds)
    ensures old(db.mappingSteps) <= db.mappingSteps && Follows(s, db, |old(db.mappingSteps)|, maxAttempts)
    ensures Since(s, db, |old(db.mappingSteps)|).validated
            == if ValidatedId(result).Some? then s.validated[title := Digits(ValidatedId(result).value)]
               else s.validated
    ensures result.Some? && !result.value.validated ==>
              old(db.mappingSteps) + HoldSteps(title, result) <= db.mappingSteps
  {
    ghost var first := |db.mappingSteps|;
    assert db.mappingSteps[first..] == [];
    hide Queueable, Storable, Blocks, TextOf, Follows, HoldsShown, SavedBut, NameOf;
    var queue := Queueable(mappings, result, supplements);
    QueueableIs(mappings, result, supplements);
    if ValidatedId(result).Some? {
      MalIsStored(title, ValidatedId(result).value);
    }
    if result.Some? && !result.value.validated {
      UpdateMalHold(db, title, result, s, first, maxAttempts);
    }
    ghost var before := db.mappings.rows;
    SaveMappings(db, title, queue, now, rowid, s, first, maxAttempts);
    SavedMeans(before, db.mappings.rows, title, mappings, result, supplements);
    if result.Some? && result.value.validated {
      UpdateMalHold(db, title, result, s, first, maxAttempts);
    }
  }

  ghost function HoldsAfter(
    holds: map<MappingKey, string>, title: Key, result: Option<MalResult>): map<MappingKey, string>
  {
    if ValidatedId(result).Some? then holds - {MalKey(title)}
    else if result.Some? && Blocks(result.value.outcome) then holds[MalKey(title) := NameOf(result.value.outcome)]
    else holds
  }

  lemma SavedMeans(
    before: Table<MappingKey, string>, after: Table<MappingKey, string>, title: Key, mappings: map<string, string>,
    result: Option<MalResult>, supplements: map<string, string>)
    requires supplements.Keys <= {"imdb", "tvdb"}
    requires ValidatedId(result).Some? ==> ValidatedId(result).value > 0
    requires SavedBut({}, before, after, title, Queueable(mappings, result, supplements))
    ensures ValidatedId(result).Some? ==>
              MalKey(title) in after && after[MalKey(title)].value == Digits(ValidatedId(result).value)
    ensures forall t <- supplements.Keys + mappings.Keys - {"mal", "anilist", "anidb"} ::
              var value := if t in supplements then supplements[t] else mappings[t];
              t in {"imdb", "tvdb", "trakt"} && value != "" && Storable(MappingKey(title, t), value).Some? ==>
                && MappingKey(title, t) in after
                && after[MappingKey(title, t)].value == Storable(MappingKey(title, t), value).value
    ensures forall k <- after ::
              k.title != title || NeverSubmitted(k) || (k.idType == "mal" && ValidatedId(result).None?) ==>
                k in before && after[k] == before[k]
  {
    QueueableIs(mappings, result, supplements);
    hide Queueable, Storable, TextOf;
    if ValidatedId(result).Some? {
      MalIsStored(title, ValidatedId(result).value);
    }
  }

  lemma MalIsStored(title: Key, id: int)
    requires id > 0
    ensures TextOf(id) == Digits(id) && TextOf(id) != "" && Storable(MalKey(title), TextOf(id)) == Some(TextOf(id))
  {
    NumberOfDigits(id);
  }

  /**
   From the evidence to the hold: a validated title ends with its id stored and no hold, a
   refuted or disputed one with a hold, and an outage or a stop leaves the holds alone.
   */
  method DecideAndSave(
    db: Db, title: Key, c: Case, mappings: map<string, string>, supplements: map<string, string>, stopped: bool,
    now: int, rowid: nat, ghost s: Vetting, ghost maxAttempts: int)
    returns (r: MalResult)
    requires supplements.Keys <= {"imdb", "tvdb"} && s.queue == db.mappings
    modifies db`mappings, db`holds, db`mappingSteps
    ensures stopped ==> unchanged(db)
    ensures !stopped ==> forall id :: Validates(c, id) ==>
              && MalKey(title) !in db.holds && MalKey(title) in db.mappings.rows
              && db.mappings.rows[MalKey(title)].value == id
    ensures (exists id :: Validates(c, id)) || MalKey(title) !in db.mappings.rows
            || (MalKey(title) in old(db.mappings.rows)
                && db.mappings.rows[MalKey(title)] == old(db.mappings.rows)[MalKey(title)])
    ensures !stopped && (Objected(c) || ((exists id :: Refuted(c, id)) && !c.stops.atEnd)) ==> MalKey(title) in db.holds
    ensures !Objected(c) && (forall id :: !Refuted(c, id) && !Validates(c, id)) ==> db.holds == old(db.holds)
    ensures old(db.mappingSteps) <= db.mappingSteps && Follows(s, db, |old(db.mappingSteps)|, maxAttempts)
  {
    hide Validates, Refuted, Objected, Storable, AllAllowed, Vouched, RecordOf, NameOf;
    NothingFollows(s, maxAttempts);
    r := FetchCandidateMalScore(c);
    if stopped {
      assert db.mappingSteps[|db.mappingSteps|..] == [];
      return;
    }
    SaveCandidate(db, title, mappings, Some(r), supplements, now, rowid, s, maxAttempts);
    forall id | Validates(c, id)
      ensures r.validated && id == Digits(r.malId.value)
    {
      ValidatedIsUnique(c, id, Digits(r.malId.value));
    }
    assert r.validated ==> !Blocks(r.outcome);
  }

  lemma NothingFollows(s: Vetting, maxAttempts: int)
    ensures AllAllowed(s, [], maxAttempts) && Vetted(s, []) == s
  {}

  lemma ValidatedIsUnique(c: Case, a: string, b: string)
    requires Validates(c, a) && Validates(c, b)
    ensures a == b
  {
    AgreedIsUnique(c, a, b);
  }

  /** The migration that introduces holds: every unsent MAL mapping waits for validation. */
  method MigrateHolds(rows: Table<MappingKey, string>) returns (holds: map<MappingKey, string>)
    ensures forall k :: k in holds <==> k in rows && k.idType == "mal" && Unsent(rows[k])
    ensures forall k <- holds :: holds[k] == "validation_required"
  {
    holds := map k | k in rows && k.idType == "mal" && Unsent(rows[k]) :: "validation_required";
  }

  /** The database after the migration is where the safety of MAL ids starts from. */
  method OpenMigrated(
    ratings: Table<RatingKey, int>, mappings: Table<MappingKey, string>, episodes: Table<EpisodeKey, int>)
    returns (db: Db)
    ensures fresh(db) && db.mappings.rows == mappings && Migrated(Vetting(db.mappings, map[], {}), db.holds)
  {
    var holds := MigrateHolds(mappings);
    db := new Db(ratings, mappings, episodes, holds);
  }

  /** A second upsert of the same value never queues the row again while it waits or got through. */
  lemma SecondUpsertQueuesNothing<V>(r: Row<V>, value: V, now: int, later: int)
    ensures !Requeues(Upserted(r, value, now), value)
    ensures Upserted(Upserted(r, value, now), value, later) == Upserted(r, value, now).(fetchedAt := later)
    ensures r.status == Submitted && r.value == value ==> Upserted(r, value, now).status == Submitted
  {}
}
