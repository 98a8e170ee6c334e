/** Loading a reviewed plan: everything the repair relies on is checked before any request. */
module RepairPlan {
  import opened Wrappers
  import opened Decimal
  import opened Titles
  import opened RepairModel

  /** A correction as read from the plan file; `age` is the evidence's age in seconds, if it carries a time zone. */
  datatype RawCorrection = RawCorrection(
    mediaType: string, tmdbId: int, oldId: string, newId: string, decision: string, note: string,
    age: Option<int>, details: map<string, string>)

  datatype PlanError = NotAPlan | BadIdentity | BadMalId | NotReviewed | StaleEvidence

  const REVIEWED: set<string> := {"replacement_identity_verified", "replacement_identity_manually_verified"}
  const MAX_AGE := 7 * 86400
  const CLOCK_SKEW := 300

  /** A canonical positive id, as the loader tests it. */
  predicate CanonicalId(s: string) {
    IsDigits(s) && Number(s) > 0 && Digits(Number(s)) == s
  }

  lemma CanonicalIdMeans(s: string)
    ensures CanonicalId(s) <==> IsDigits(s) && s[0] != '0'
  {
    if IsDigits(s) {
      DigitsOfNumber(s);
      if s[0] != '0' {
        Positive(s);
      }
    }
  }

  function MediaOf(s: string): Option<Media> {
    if s == "movie" then Some(Movie) else if s == "tv" then Some(Tv) else None
  }

  /** What is wrong with a row on its own: identity comes before ids, ids before review, review before its age. */
  ghost predicate Objects(r: RawCorrection, e: PlanError) {
    var identified := (r.mediaType == "movie" || r.mediaType == "tv") && r.tmdbId >= 1;
    var numbered := CanonicalId(r.oldId) && CanonicalId(r.newId);
    var reviewed := && r.oldId != r.newId && |r.note| > 0
                    && (r.decision == "replacement_identity_verified"
                        || r.decision == "replacement_identity_manually_verified");
    match e
    case NotAPlan => false
    case BadIdentity => !identified
    case BadMalId => identified && !numbered
    case NotReviewed => identified && numbered && !reviewed
    case StaleEvidence =>
      identified && numbered && reviewed && (r.age.None? || r.age.value < -5 * 60 || r.age.value > 604800)
  }

  ghost predicate SoundRow(r: RawCorrection) {
    forall e :: !Objects(r, e)
  }

  /** The first thing wrong with a plan. */
  ghost predicate Refused(version: int, raw: seq<RawCorrection>, e: PlanError) {
    if version != 1 || raw == [] then e == NotAPlan
    else
      exists i :: 0 <= i < |raw|
                  && (forall r <- raw[..i] :: SoundRow(r)) && Distinct(raw[..i])
                  && if Identity(raw[i]) in Identities(raw[..i]) then e == BadIdentity else Objects(raw[i], e)
  }

  ghost function Identities(raw: seq<RawCorrection>): set<(string, int)> {
    set r | r in raw :: Identity(r)
  }

  ghost predicate Acceptable(version: int, raw: seq<RawCorrection>) {
    && version == 1 && raw != []
    && (forall r <- raw :: SoundRow(r))
    && Distinct(raw)
  }

  function Identity(r: RawCorrection): (string, int) {
    (r.mediaType, r.tmdbId)
  }

  ghost predicate Distinct(raw: seq<RawCorrection>) {
    forall i, j :: 0 <= i < j < |raw| ==> Identity(raw[i]) != Identity(raw[j])
  }

  ghost predicate Mirrors(raw: RawCorrection, c: Correction) {
    c == Correction(Key(if raw.mediaType == "tv" then Tv else Movie, raw.tmdbId), raw.oldId, raw.newId, raw.details)
  }

  /** A plan is accepted exactly when all of it is sound, and then it is a valid plan; else the first fault is named. */
  method LoadPlan(version: int, raw: seq<RawCorrection>) returns (r: Result<seq<Correction>, PlanError>)
    ensures r.Ok? <==> Acceptable(version, raw)
    ensures r.Ok? ==>
              && ValidPlan(r.value) && |r.value| == |raw|
              && forall i :: 0 <= i < |raw| ==> Mirrors(raw[i], r.value[i])
    ensures r.Err? ==> Refused(version, raw, r.error)
  {
    hide CanonicalId;
    if version != 1 || raw == [] {
      return Err(NotAPlan);
    }
    var keys: set<(string, int)> := {};
    var plan: seq<Correction> := [];
    for i := 0 to |raw|
      invariant |plan| == i
      invariant keys == Identities(raw[..i])
      invariant (forall r <- raw[..i] :: SoundRow(r)) && Distinct(raw[..i])
      invariant forall j :: 0 <= j < i ==> Mirrors(raw[j], plan[j])
    {
      var row := raw[i];
      var key := Identity(row);
      assert row in raw && raw[..i + 1] == raw[..i] + [row];
      Repeated(raw, i);
      if key in keys || MediaOf(row.mediaType).None? || row.tmdbId <= 0 {
        assert Identity(row) in Identities(raw[..i]) || Objects(row, BadIdentity);
        return Err(BadIdentity);
      }
      keys := keys + {key};
      if !CanonicalId(row.oldId) || !CanonicalId(row.newId) {
        assert Objects(row, BadMalId);
        return Err(BadMalId);
      }
      if row.oldId == row.newId || row.decision !in REVIEWED || row.note == "" {
        assert Objects(row, NotReviewed);
        return Err(NotReviewed);
      }
      if row.age.None? || !(-CLOCK_SKEW <= row.age.value <= MAX_AGE) {
        assert Objects(row, StaleEvidence);
        return Err(StaleEvidence);
      }
      SoundIfNothingObjects(row);
      plan := plan + [Correction(Key(MediaOf(row.mediaType).value, row.tmdbId), row.oldId, row.newId, row.details)];
    }
    assert raw[..|raw|] == raw;
    MirroredDistinct(raw, plan);
    return Ok(plan);
  }

  lemma Repeated(raw: seq<RawCorrection>, i: nat)
    requires i < |raw|
    ensures Identity(raw[i]) in Identities(raw[..i]) ==> !Distinct(raw)
    ensures Distinct(raw[..i]) && Identity(raw[i]) !in Identities(raw[..i]) ==> Distinct(raw[..i + 1])
  {
    if Identity(raw[i]) in Identities(raw[..i]) {
      var j :| 0 <= j < i && Identity(raw[j]) == Identity(raw[i]);
    }
    forall j | 0 <= j < i
      ensures Identity(raw[j]) in Identities(raw[..i])
    {
      assert raw[j] == raw[..i][j] && raw[j] in raw[..i];
    }
  }

  lemma SoundIfNothingObjects(r: RawCorrection)
    requires !Objects(r, BadIdentity) && !Objects(r, BadMalId) && !Objects(r, NotReviewed) && !Objects(r, StaleEvidence)
    ensures SoundRow(r)
  {
    hide CanonicalId;
  }

  lemma MirroredDistinct(raw: seq<RawCorrection>, plan: seq<Correction>)
    requires |plan| == |raw| && Distinct(raw) && (forall r <- raw :: SoundRow(r))
    requires forall i :: 0 <= i < |raw| ==> Mirrors(raw[i], plan[i])
    ensures ValidPlan(plan)
  {
    hide CanonicalId;
    forall i, j | 0 <= i < j < |plan|
      ensures plan[i].key != plan[j].key
    {
      assert Identity(raw[i]) != Identity(raw[j]);
      assert raw[i] in raw && raw[j] in raw && !Objects(raw[i], BadIdentity) && !Objects(raw[j], BadIdentity);
    }
    forall c | c in plan
      ensures c.oldId != c.newId
    {
      var i :| 0 <= i < |plan| && plan[i] == c;
      assert SoundRow(raw[i]) && !Objects(raw[i], NotReviewed) && !Objects(raw[i], BadIdentity);
      assert !Objects(raw[i], BadMalId);
    }
  }
}
