/** Which MAL id a title gets: one identity on which every source agrees, or a refusal. */
module MalDecision {
  import opened Wrappers
  import opened Titles
  import opened Decimal
  import opened MalEligibility

  datatype Reason =
    | Success | MissingScore
    | Stopped | MissingTmdbDetails | MissingMapping
    | MappingConflict | AmbiguousIdentity | CorrectionAvailable
    | SkippedSeriesScope | SkippedDatasetScope | Skipped(why: Why)
    | InvalidMapping | InvalidResponse | NotFound
    | Timeout | ProviderFailure | ProviderUnavailable

  /** A dataset's answer: a match names its id first. */
  datatype Verdict = Matched | Conflict | UnsafeScope | NothingFound

  datatype Dataset = Dataset(verdict: Verdict, malIds: seq<string>)

  /** What Jikan's search says; an ineligible title is not searched and gets no id. */
  datatype Discovery = Ineligible | Tried(id: Option<int>, outcome: string)

  /** A record fetched by id; the data may be missing or not a record. */
  datatype Answer = NoAnswer | Answer(status: int, anime: Option<Anime>)

  datatype Jikan = Jikan(fallback: bool, discovery: Discovery, correction: Discovery, fetch: int -> Answer)

  /** Whether the program is being stopped, at each place where that is looked at. */
  datatype Stops = Stops(
    atStart: bool, beforeFribb: bool, afterDiscovery: bool, inValidation: bool, beforeCorrection: bool,
    inCorrection: bool,
    afterCorrection: bool, atEnd: bool)

  /** A title with everything that is known or answered about it; `source` and `stored` map providers to ids. */
  datatype Case = Case(
    media: Media, details: Option<Details>, source: map<string, string>, stored: map<string, string>,
    bridge: Option<map<string, string> -> Dataset>, fribb: Option<map<string, string> -> Dataset>,
    jikan: Option<Jikan>, official: int -> Answer, stops: Stops)

  datatype Candidate = Candidate(malId: string, from: string)

  datatype MalResult = MalResult(
    malId: Option<int>, validated: bool, outcome: Reason, score: Option<int>, candidates: seq<Candidate>,
    proposed: Option<int>)

  const PROVIDERS := ["mal", "anilist", "anidb"]

  function Canonical(text: string): string {
    if IsDigits(text) && Number(text) > 0 then Digits(Number(text)) else text
  }

  ghost predicate IsId(text: string) {
    IsDigits(text) && Number(text) > 0
  }

  function TextOf(id: int): string {
    if id < 0 then "-" + Digits(-id) else Digits(id)
  }

  function Find(ids: map<string, string>, provider: string): Option<string> {
    if provider in ids then Some(ids[provider]) else None
  }

  /** Two spellings of a positive id are the same exactly when they are the same number. */
  lemma CanonicalEquatesNumbers(a: string, b: string)
    requires IsId(a) && IsId(b)
    ensures Canonical(a) == Canonical(b) <==> Number(a) == Number(b)
  {
    NumberOfDigits(Number(a));
    NumberOfDigits(Number(b));
  }

  /** A text that is no id is left as it is, also a zero. */
  lemma OthersAreKept(text: string)
    requires !IsDigits(text) || forall c <- text :: c == '0'
    ensures Canonical(text) == text && !IsId(text)
  {
    if IsDigits(text) {
      ZerosAreZero(text);
    }
  }

  lemma {:induction false} ZerosAreZero(text: string)
    requires IsDigits(text) && forall c <- text :: c == '0'
    ensures Number(text) == 0
  {
    assert text[|text| - 1] in text;
    if |text| > 1 {
      var init := text[..|text| - 1];
      assert forall c <- init :: c in text;
      ZerosAreZero(init);
    }
  }

  /** An id as text is a numeral, with a minus sign exactly when it is negative. */
  lemma TextOfMeans(n: nat)
    ensures TextOf(n) == Digits(n) && (n > 0 ==> TextOf(0 - n) == ['-'] + Digits(n) && IsId(TextOf(n)))
  {
    NumberOfDigits(n);
  }

  // ---------- what the sources say ----------

  /** A stored id overrides a supplied one. */
  ghost function Known(c: Case): map<string, string> {
    map p | p in c.source.Keys + (c.stored.Keys * {"mal", "anilist", "anidb"}) ::
      if p in c.stored && p in {"mal", "anilist", "anidb"} then c.stored[p] else c.source[p]
  }

  /** A stored id counts before a supplied one, of the anime providers; nothing else that is stored counts. */
  lemma KnownMeans(c: Case, p: string)
    ensures Find(Known(c), p)
            == if (p == "mal" || p == "anilist" || p == "anidb") && p in c.stored then Some(c.stored[p])
               else Find(c.source, p)
  {}

  /** The source and the table name different ids at a provider. */
  ghost predicate Disagree(c: Case, p: string) {
    Find(c.source, p).Some? && Find(c.stored, p).Some?
    && Canonical(Find(c.source, p).value) != Canonical(Find(c.stored, p).value)
  }

  /** The bridge is only asked when an id at AniList or AniDB is known. */
  ghost function BridgeSays(c: Case): Option<Dataset> {
    if c.bridge.None? || (Find(Known(c), "anilist").None? && Find(Known(c), "anidb").None?) then None
    else Some(c.bridge.value(Known(c)))
  }

  /** The Fribb list is asked without the MAL id, so that it cannot agree by itself. */
  ghost function FribbSays(c: Case): Option<Dataset> {
    if c.fribb.None? || c.stops.beforeFribb then None else Some(c.fribb.value(Known(c) - {"mal"}))
  }

  /** The ids that the title's own mappings and the datasets name. */
  ghost predicate Named(c: Case, id: string) {
    || ("mal" in c.source && id == Canonical(c.source["mal"]))
    || ("mal" in c.stored && id == Canonical(c.stored["mal"]))
    || (BridgeSays(c).Some? && AmongCanonical(BridgeSays(c).value.malIds, id))
    || (FribbSays(c).Some? && FribbSays(c).value.verdict == Matched && FribbSays(c).value.malIds != []
        && id == Canonical(FribbSays(c).value.malIds[0]))
  }

  /** No mapping is contradicted by its stored form, and no dataset objects. */
  ghost predicate Undisputed(c: Case) {
    && (forall p <- PROVIDERS :: !Disagree(c, p))
    && !(BridgeSays(c).Some? && BridgeSays(c).value.verdict == Conflict)
    && !(FribbSays(c).Some? && FribbSays(c).value.verdict in {Conflict, UnsafeScope})
  }

  /** The title's own mappings disagree, or the bridge objects: that is found before the Fribb list is asked. */
  ghost predicate Contradicted(c: Case) {
    (exists p <- PROVIDERS :: Disagree(c, p)) || (BridgeSays(c).Some? && BridgeSays(c).value.verdict == Conflict)
  }

  ghost predicate OutsideDataset(c: Case) {
    FribbSays(c).Some? && FribbSays(c).value.verdict == UnsafeScope
  }

  ghost predicate InScope(c: Case) {
    c.details.Some? && (c.media == Tv ==> c.details.value.status == "Ended" && c.details.value.seasons == Some(1))
  }

  /** The one id everybody agrees on; only when nobody names any does Jikan's search count. */
  ghost predicate AgreedId(c: Case, id: string) {
    && (forall other :: Named(c, other) ==> other == id)
    && (Named(c, id) || (c.jikan.Some? && c.jikan.value.discovery.Tried? && c.jikan.value.discovery.id.Some?
                         && id == TextOf(c.jikan.value.discovery.id.value)))
  }

  // ---------- the record of an id ----------

  ghost predicate Unusable(a: Answer) {
    a.NoAnswer? || a.status in {0, 404, 429} || a.status >= 500
  }

  /** Jikan is asked for the record when the official answer is unusable, if it may stand in. */
  ghost predicate StandsIn(c: Case, id: int, stopping: bool) {
    c.jikan.Some? && c.jikan.value.fallback && !stopping && Unusable(c.official(id))
  }

  /** The answer that counts. */
  ghost function RecordOf(c: Case, id: int, stopping: bool): Answer {
    if StandsIn(c, id, stopping) then c.jikan.value.fetch(id) else c.official(id)
  }

  /** The record exists, is the one asked for, and is the same work. */
  ghost predicate Vouched(c: Case, id: int, a: Answer) {
    && a.Answer? && a.status == 200 && a.anime.Some? && a.anime.value.malId == Some(id)
    && c.details.Some? && SameWork(c.media, c.details.value, a.anime.value)
  }

  ghost predicate ScoreIs(score: Option<int>, a: Answer) {
    a.Answer? && a.anime.Some? && score == a.anime.value.score
  }

  predicate Valid(reason: Reason) {
    reason == Success || reason == MissingScore
  }

  /** The outcomes that block a title's MAL submissions; outages and missing evidence do not. */
  predicate Blocks(reason: Reason) {
    || reason.MappingConflict? || reason.AmbiguousIdentity? || reason.CorrectionAvailable?
    || reason.InvalidMapping? || reason.InvalidResponse? || reason.NotFound?
    || reason.SkippedSeriesScope? || reason.SkippedDatasetScope? || reason.Skipped?
  }

  /** The answer shows that the id is not this work's: no such record, or one that is not the same work. */
  ghost predicate Refutes(c: Case, id: int, a: Answer) {
    a.Answer? && (a.status == 404 || (a.status == 200 && !Vouched(c, id, a)))
  }

  ghost predicate MissingIn(a: Answer) {
    a.Answer? && a.status == 404
  }

  predicate Rejection(reason: Reason) {
    reason.NotFound? || reason.InvalidMapping? || reason.Skipped?
  }

  /** The answer rejects the id itself: there is no such record, or it is the record of another work. */
  ghost predicate Rejects(c: Case, id: int, a: Answer) {
    && a.Answer? && c.details.Some?
    && (a.status == 404 || (&& a.status == 200 && a.anime.Some? && a.anime.value.malId == Some(id)
                            && !SameWork(c.media, c.details.value, a.anime.value)))
  }

  /** What an answer about this id comes to. */
  ghost predicate Amounts(c: Case, id: int, a: Answer, reason: Reason)
    requires c.details.Some?
  {
    var ours := a.Answer? && a.status == 200 && a.anime.Some? && a.anime.value.malId == Some(id);
    match reason
    case Timeout => a == NoAnswer
    case NotFound => MissingIn(a)
    case ProviderFailure => a.Answer? && a.status != 404 && a.status != 200
    case InvalidResponse => a.Answer? && a.status == 200 && !ours
    case Skipped(why) => ours && FirstMisfit(c.media, c.details.value, a.anime.value, why)
    case Success => Vouched(c, id, a) && a.anime.value.score.Some?
    case MissingScore => Vouched(c, id, a) && a.anime.value.score.None?
    case _ => false
  }

  function Judge(c: Case, id: int, a: Answer): (r: (Reason, Option<int>))
    requires c.details.Some?
    ensures Valid(r.0) <==> Vouched(c, id, a)
    ensures Valid(r.0) ==> r.1 == a.anime.value.score && (r.0 == Success <==> r.1.Some?)
    ensures Blocks(r.0) <==> Refutes(c, id, a)
    ensures Rejection(r.0) <==> Rejects(c, id, a)
    ensures r.0 == NotFound <==> MissingIn(a)
    ensures Amounts(c, id, a, r.0)
  {
    match a
    case NoAnswer => (Timeout, None)
    case Answer(status, anime) =>
      if status != 200 then (if status == 404 then NotFound else ProviderFailure, None)
      else if anime.None? || anime.value.malId != Some(id) then (InvalidResponse, None)
      else
        NoObjectionMeansSameWork(c.media, c.details.value, anime.value);
        match Objection(c.media, c.details.value, anime.value)
        case Some(why) =>
          ObjectionIsFirstMisfit(c.media, c.details.value, anime.value, why);
          (Skipped(why), None)
        case None => (if anime.value.score.Some? then Success else MissingScore, anime.value.score)
  }

  /** Fetches and judges a record; `source` becomes Jikan once its client was asked. */
  method Validate(c: Case, id: int, stopping: bool, viaJikan: bool)
    returns (reason: Reason, score: Option<int>, jikanAsked: bool, officialNotFound: bool)
    requires c.details.Some?
    ensures Valid(reason) <==> Vouched(c, id, RecordOf(c, id, stopping))
    ensures Blocks(reason) <==> Refutes(c, id, RecordOf(c, id, stopping))
    ensures Valid(reason) ==> ScoreIs(score, RecordOf(c, id, stopping)) && (reason == Success <==> score.Some?)
    ensures reason != CorrectionAvailable && (Rejection(reason) <==> Rejects(c, id, RecordOf(c, id, stopping)))
    ensures reason == NotFound <==> MissingIn(RecordOf(c, id, stopping))
    ensures jikanAsked <==> viaJikan || StandsIn(c, id, stopping)
    ensures officialNotFound <==> MissingIn(c.official(id))
    ensures Amounts(c, id, RecordOf(c, id, stopping), reason)
  {
    hide Amounts;
    var response := c.official(id);
    officialNotFound := response.Answer? && response.status == 404;
    jikanAsked := viaJikan;
    if c.jikan.Some? && c.jikan.value.fallback && !stopping
       && (response.NoAnswer? || response.status in {0, 404, 429} || response.status >= 500) {
      jikanAsked := true;
      response := c.jikan.value.fetch(id);
    }
    var judged := Judge(c, id, response);
    reason, score := judged.0, judged.1;
  }

  // ---------- gathering ----------

  ghost predicate Listed(candidates: seq<Candidate>, id: string) {
    exists k <- candidates :: k.malId == id
  }

  /** The id is the canonical form of one of the values. */
  ghost predicate AmongCanonical(values: seq<string>, id: string) {
    exists v <- values :: id == Canonical(v)
  }

  /** What is noted about a named id: its canonical form, and who named it. */
  ghost function Noted(value: Option<string>, from: string): seq<Candidate> {
    match value
    case None => []
    case Some(text) => [Candidate(Canonical(text), from)]
  }

  ghost function NotedAll(values: seq<string>, from: string): seq<Candidate> {
    if values == [] then []
    else NotedAll(values[..|values| - 1], from) + Noted(Some(values[|values| - 1]), from)
  }

  function Remember(candidates: seq<Candidate>, value: Option<string>, from: string): (more: seq<Candidate>)
    ensures forall id :: Listed(more, id) <==> Listed(candidates, id) || (value.Some? && id == Canonical(value.value))
    ensures more == candidates + Noted(value, from)
  {
    if value.None? then candidates
    else
      var more := candidates + [Candidate(Canonical(value.value), from)];
      assert more[|candidates|] in more && forall k <- candidates :: k in more;
      more
  }

  lemma OneMoreCanonical(values: seq<string>, value: string)
    ensures forall id :: AmongCanonical(values + [value], id) <==> AmongCanonical(values, id) || id == Canonical(value)
  {
    hide Canonical;
    var more := values + [value];
    assert more[|values|] in more;
    forall id | AmongCanonical(values, id)
      ensures AmongCanonical(more, id)
    {
      var v :| v in values && id == Canonical(v);
      assert v in more;
    }
  }

  lemma OneMoreNoted(values: seq<string>, value: string, from: string)
    ensures NotedAll(values + [value], from) == NotedAll(values, from) + Noted(Some(value), from)
  {
    assert (values + [value])[..|values|] == values;
  }

  method RememberAll(candidates: seq<Candidate>, values: seq<string>, from: string) returns (more: seq<Candidate>)
    ensures forall id :: Listed(more, id) <==> Listed(candidates, id) || AmongCanonical(values, id)
    ensures more == candidates + NotedAll(values, from)
  {
    more := candidates;
    for i := 0 to |values|
      invariant more == candidates + NotedAll(values[..i], from)
      invariant forall id :: Listed(more, id) <==> Listed(candidates, id) || AmongCanonical(values[..i], id)
    {
      assert values[..i + 1] == values[..i] + [values[i]];
      OneMoreCanonical(values[..i], values[i]);
      OneMoreNoted(values[..i], values[i], from);
      more := Remember(more, Some(values[i]), from);
    }
    assert values[..|values|] == values;
  }

  function IdsOf(candidates: seq<Candidate>): set<string> {
    set k | k in candidates :: k.malId
  }

  lemma OneIdAtMost(candidates: seq<Candidate>)
    ensures |IdsOf(candidates)| <= 1 <==> forall a, b :: Listed(candidates, a) && Listed(candidates, b) ==> a == b
  {
    var ids := IdsOf(candidates);
    assert forall id :: id in ids <==> Listed(candidates, id);
    if |ids| > 1 {
      var a :| a in ids;
      assert |ids - {a}| > 0;
      var b :| b in ids - {a};
      assert Listed(candidates, a) && Listed(candidates, b);
    } else {
      forall a, b | a in ids && b in ids
        ensures a == b
      {
        assert |ids - {a}| == 0;
        assert b in ids - {a} <==> b != a;
      }
    }
  }

  /** The supplied mappings, overridden by what is stored. */
  method Merged(c: Case) returns (known: map<string, string>)
    ensures known == Known(c)
  {
    hide Known;
    known := c.source;
    for i := 0 to |PROVIDERS|
      invariant Overridden(c, PROVIDERS[..i], known)
    {
      var p := PROVIDERS[i];
      assert PROVIDERS[..i + 1] == PROVIDERS[..i] + [p];
      if p in c.stored {
        known := known[p := c.stored[p]];
      }
    }
    assert PROVIDERS[..|PROVIDERS|] == PROVIDERS;
    OverriddenIsKnown(c, known);
  }

  ghost predicate Overridden(c: Case, providers: seq<string>, known: map<string, string>) {
    && (forall p :: p in known <==> p in c.source || (p in providers && p in c.stored))
    && forall p <- known :: known[p] == if p in providers && p in c.stored then c.stored[p] else c.source[p]
  }

  lemma OverriddenIsKnown(c: Case, known: map<string, string>)
    requires Overridden(c, PROVIDERS, known)
    ensures known == Known(c)
  {
    assert forall p :: p in PROVIDERS <==> p in {"mal", "anilist", "anidb"};
  }

  ghost function FromTitle(c: Case): seq<Candidate> {
    Noted(Find(c.source, "mal"), "source_mapping") + Noted(Find(c.stored, "mal"), "stored_mapping")
  }

  ghost function FromBridge(c: Case): seq<Candidate> {
    if BridgeSays(c).None? then [] else NotedAll(BridgeSays(c).value.malIds, "offline_bridge")
  }

  ghost function FromFribb(c: Case): seq<Candidate> {
    if FribbSays(c).None? then []
    else
      var d := FribbSays(c).value;
      match d.verdict
      case Matched => if d.malIds == [] then [] else Noted(Some(d.malIds[0]), "fribb_mapping")
      case Conflict => NotedAll(d.malIds, "fribb_mapping")
      case UnsafeScope => []
      case NothingFound => []
  }

  /** Everything that names an id for the title, in the order in which it is looked at, up to the first dispute. */
  ghost function Gathered(c: Case): seq<Candidate> {
    FromTitle(c)
    + if exists p <- PROVIDERS :: Disagree(c, p) then []
      else FromBridge(c) + if Contradicted(c) then [] else FromFribb(c)
  }

  /** The offline bridge adds its ids, and may object. */
  method AskBridge(c: Case, known: map<string, string>, candidates: seq<Candidate>)
    returns (all: seq<Candidate>, conflict: bool)
    requires known == Known(c)
    ensures forall id :: Listed(all, id) <==>
              Listed(candidates, id) || (BridgeSays(c).Some? && AmongCanonical(BridgeSays(c).value.malIds, id))
    ensures all == candidates + FromBridge(c)
    ensures conflict <==> BridgeSays(c).Some? && BridgeSays(c).value.verdict == Conflict
  {
    hide Known, Listed, AmongCanonical;
    if c.bridge.Some? && ("anilist" in known || "anidb" in known) {
      var bridge := c.bridge.value(known);
      assert BridgeSays(c) == Some(bridge);
      all := RememberAll(candidates, bridge.malIds, "offline_bridge");
      return all, bridge.verdict == Conflict;
    }
    assert BridgeSays(c).None?;
    return candidates, false;
  }

  /** The Fribb list adds the id it matches, if any; it may object, or know that the entry is not the whole title. */
  method AskFribb(c: Case, known: map<string, string>, candidates: seq<Candidate>)
    returns (all: seq<Candidate>, dispute: Option<Reason>)
    requires known == Known(c)
    ensures dispute.None? ==> forall id :: Listed(all, id) <==>
              || Listed(candidates, id)
              || (FribbSays(c).Some? && FribbSays(c).value.verdict == Matched && FribbSays(c).value.malIds != []
                  && id == Canonical(FribbSays(c).value.malIds[0]))
    ensures all == candidates + FromFribb(c)
    ensures dispute == Some(MappingConflict) <==> FribbSays(c).Some? && FribbSays(c).value.verdict == Conflict
    ensures dispute == Some(SkippedDatasetScope) <==> FribbSays(c).Some? && FribbSays(c).value.verdict == UnsafeScope
    ensures dispute.Some? ==> dispute.value in {MappingConflict, SkippedDatasetScope}
  {
    hide Known, Listed, AmongCanonical, Canonical;
    if c.fribb.Some? && !c.stops.beforeFribb {
      var fribb := c.fribb.value(known - {"mal"});
      assert FribbSays(c) == Some(fribb);
      match fribb.verdict {
        case Conflict =>
          all := RememberAll(candidates, fribb.malIds, "fribb_mapping");
          return all, Some(MappingConflict);
        case UnsafeScope =>
          return candidates, Some(SkippedDatasetScope);
        case Matched =>
          all := Remember(candidates, if fribb.malIds == [] then None else Some(fribb.malIds[0]), "fribb_mapping");
          return all, None;
        case NothingFound =>
          return candidates, None;
      }
    }
    assert FribbSays(c).None?;
    return candidates, None;
  }

  /** The title's own ids, and whether the supplied and the stored ones differ anywhere. */
  method Own(c: Case) returns (candidates: seq<Candidate>, disagree: bool)
    ensures candidates == FromTitle(c)
    ensures forall id :: Listed(candidates, id) <==>
              || ("mal" in c.source && id == Canonical(c.source["mal"]))
              || ("mal" in c.stored && id == Canonical(c.stored["mal"]))
    ensures disagree <==> exists p <- PROVIDERS :: Disagree(c, p)
  {
    candidates := [];
    assert forall id :: !Listed(candidates, id);
    hide Canonical, Listed;
    Disagreement(c);
    hide Disagree;
    candidates := Remember(candidates, Find(c.source, "mal"), "source_mapping");
    candidates := Remember(candidates, Find(c.stored, "mal"), "stored_mapping");
    disagree := exists p <- PROVIDERS ::
      p in c.source && p in c.stored && Canonical(c.source[p]) != Canonical(c.stored[p]);
  }

  lemma Disagreement(c: Case)
    ensures (exists p <- PROVIDERS :: Disagree(c, p))
            <==> exists p <- PROVIDERS ::
                   p in c.source && p in c.stored && Canonical(c.source[p]) != Canonical(c.stored[p])
  {
    hide Canonical;
    assert forall p <- PROVIDERS :: Disagree(c, p) <==>
             p in c.source && p in c.stored && Canonical(c.source[p]) != Canonical(c.stored[p]);
  }

  lemma NamesCounted(c: Case, candidates: seq<Candidate>)
    requires forall id :: Named(c, id) <==> Listed(candidates, id)
    ensures |IdsOf(candidates)| <= 1 <==> NamesAgree(c)
  {
    hide Named, Listed;
    OneIdAtMost(candidates);
    if |IdsOf(candidates)| <= 1 {
      forall a, b | Named(c, a) && Named(c, b)
        ensures a == b
      {
        assert Listed(candidates, a) && Listed(candidates, b);
      }
    } else {
      var a, b :| Listed(candidates, a) && Listed(candidates, b) && a != b;
      assert Named(c, a) && Named(c, b);
    }
  }

  /** Collects the candidates in order; stops at the first dispute. */
  method Gather(c: Case) returns (candidates: seq<Candidate>, dispute: Option<Reason>)
    ensures dispute.None? <==> Undisputed(c) && NamesAgree(c)
    ensures candidates == Gathered(c) && (dispute.None? ==> forall id :: Named(c, id) <==> Listed(candidates, id))
    ensures dispute.Some? ==> dispute.value == if Contradicted(c) || !OutsideDataset(c) then MappingConflict
                                               else SkippedDatasetScope
  {
    hide Canonical, Known, Listed, AmongCanonical, Disagree, BridgeSays, FribbSays, FromTitle, FromBridge, FromFribb;
    hide NamesAgree;
    var disagree, conflict;
    candidates, disagree := Own(c);
    if disagree {
      return candidates, Some(MappingConflict);
    }
    var known := Merged(c);
    candidates, conflict := AskBridge(c, known, candidates);
    if conflict {
      return candidates, Some(MappingConflict);
    }
    candidates, dispute := AskFribb(c, known, candidates);
    if dispute.Some? {
      return;
    }
    NamesCounted(c, candidates);
    if |IdsOf(candidates)| > 1 {
      return candidates, Some(MappingConflict);
    }
  }

  // ---------- the decision ----------

  /** The title is validated for this id: agreed on, well-formed, and confirmed by its record. */
  ghost predicate Validates(c: Case, text: string) {
    && Chosen(c, text) && IsId(text) && Vouched(c, Number(text), RecordOf(c, Number(text), c.stops.inValidation))
    && !c.stops.atEnd
  }

  /** The one id that is left to be confirmed by its record. */
  ghost predicate Chosen(c: Case, text: string) {
    !c.stops.atStart && InScope(c) && Undisputed(c) && AgreedId(c, text) && !c.stops.afterDiscovery
  }

  /** The chosen id is no id, or its record speaks against it. */
  ghost predicate Refuted(c: Case, text: string) {
    && Chosen(c, text)
    && (!IsId(text) || Refutes(c, Number(text), RecordOf(c, Number(text), c.stops.inValidation)))
  }

  /**
   Another id is proposed: a source named the agreed one, which is rejected and not by Jikan
   alone, Jikan's search matched the other, and its record vouches for that, with no stop before.
   */
  ghost predicate Corrects(c: Case, text: string, n: int) {
    && Chosen(c, text) && Named(c, text) && Rejected(c, text) && BySources(c, text)
    && !c.stops.beforeCorrection && Offered(c, text, n)
  }

  ghost predicate NamesAgree(c: Case) {
    forall a, b :: Named(c, a) && Named(c, b) ==> a == b
  }

  /** Evidence against the title before any record is looked at: its scope, a dispute, or an ambiguous search. */
  ghost predicate Objected(c: Case) {
    && !c.stops.atStart && c.details.Some?
    && (!InScope(c) || !Undisputed(c) || !NamesAgree(c)
        || ((forall id :: !Named(c, id)) && AmbiguousSearch(c) && !c.stops.afterDiscovery))
  }

  ghost predicate AmbiguousSearch(c: Case) {
    && c.jikan.Some? && c.jikan.value.discovery.Tried?
    && c.jikan.value.discovery.id.None? && c.jikan.value.discovery.outcome == "ambiguous"
  }

  /** Jikan could not be searched. */
  ghost predicate SearchFailed(c: Case) {
    && c.jikan.Some? && c.jikan.value.discovery.Tried? && c.jikan.value.discovery.id.None?
    && var why := c.jikan.value.discovery.outcome;
       || why == "timeout" || why == "provider_failure" || why == "incomplete_search"
       || why == "invalid_response" || why == "invalid_pagination" || why == "repeated_page"
  }

  /** Why a title without an id to confirm is refused: the first thing in the way. */
  ghost predicate RefusedFor(c: Case, reason: Reason) {
    reason == if c.stops.atStart then Stopped
              else if c.details.None? then MissingTmdbDetails
              else if !InScope(c) then SkippedSeriesScope
              else if !Contradicted(c) && OutsideDataset(c) then SkippedDatasetScope
              else if !Undisputed(c) || !NamesAgree(c) then MappingConflict
              else if c.stops.afterDiscovery then Stopped
              else if AmbiguousSearch(c) then AmbiguousIdentity
              else if SearchFailed(c) then ProviderUnavailable
              else MissingMapping
  }

  /** What becomes of a title whose one id is looked up: a correction, a stop, or what the record amounts to. */
  ghost predicate EndsAs(c: Case, text: string, corrected: bool, reason: Reason)
    requires c.details.Some?
  {
    if corrected then reason == CorrectionAvailable
    else if c.stops.atEnd then reason == Stopped
    else if !IsId(text) then reason == InvalidMapping
    else Amounts(c, Number(text), RecordOf(c, Number(text), c.stops.inValidation), reason)
  }

  lemma AgreedIsUnique(c: Case, a: string, b: string)
    requires AgreedId(c, a) && AgreedId(c, b)
    ensures a == b
  {}

  lemma CanonicalIsShortest(v: string)
    requires IsId(Canonical(v))
    ensures Digits(Number(Canonical(v))) == Canonical(v)
  {
    if IsDigits(v) && Number(v) > 0 {
      NumberOfDigits(Number(v));
    }
  }

  lemma NegativeIsNoId(n: int)
    requires n < 0
    ensures !IsId(TextOf(n))
  {
    assert TextOf(n)[0] == '-' && TextOf(n)[0] in TextOf(n);
  }

  /** An agreed id that is a number is written in its shortest form. */
  lemma AgreedIsCanonical(c: Case, id: string)
    requires AgreedId(c, id) && IsId(id)
    ensures Digits(Number(id)) == id
  {
    if Named(c, id) {
      var v :| id == Canonical(v);
      CanonicalIsShortest(v);
    } else {
      var n := c.jikan.value.discovery.id.value;
      if n < 0 {
        NegativeIsNoId(n);
      } else {
        NumberOfDigits(n);
      }
    }
  }

  function Refusal(reason: Reason, candidates: seq<Candidate>): MalResult
    requires !Valid(reason)
  {
    MalResult(None, false, reason, None, candidates, None)
  }

  /** When nobody names an id, Jikan's search may; otherwise why there is none. */
  method Discover(
    c: Case, candidates: seq<Candidate>)
    returns (all: seq<Candidate>, id: Option<string>, missing: Reason)
    requires candidates == []
    ensures id.Some? <==> c.jikan.Some? && c.jikan.value.discovery.Tried? && c.jikan.value.discovery.id.Some?
    ensures id.Some? ==> id.value == TextOf(c.jikan.value.discovery.id.value)
    ensures id.Some? ==> all == [Candidate(Canonical(id.value), "jikan_discovery")]
    ensures id.None? ==> all == []
    ensures !Valid(missing) && missing != CorrectionAvailable && (Blocks(missing) <==> AmbiguousSearch(c))
    ensures id.None? ==> missing == if AmbiguousSearch(c) then AmbiguousIdentity
                                    else if SearchFailed(c) then ProviderUnavailable
                                    else MissingMapping
  {
    all, id, missing := candidates, None, MissingMapping;
    if c.jikan.Some? && c.jikan.value.discovery.Tried? {
      var found := c.jikan.value.discovery;
      if found.id.Some? {
        id := Some(TextOf(found.id.value));
        all := [Candidate(Canonical(id.value), "jikan_discovery")];
      } else if found.outcome == "ambiguous" {
        missing := AmbiguousIdentity;
      } else if found.outcome in {
          "provider_failure", "timeout", "incomplete_search", "invalid_response", "invalid_pagination",
          "repeated_page"} {
        missing := ProviderUnavailable;
      }
    }
  }

  /** Jikan's search for a correction matched this other id, and its own record vouches for it. */
  ghost predicate Offered(c: Case, text: string, n: int) {
    && c.jikan.Some? && c.jikan.value.correction == Tried(Some(n), "matched") && n > 0 && TextOf(n) != text
    && Vouched(c, n, RecordOf(c, n, c.stops.inCorrection)) && !c.stops.afterCorrection
  }

  /** The id is definitively not this work's: it is no id, or its record rejects it. */
  ghost predicate Rejected(c: Case, text: string) {
    !IsId(text) || Rejects(c, Number(text), RecordOf(c, Number(text), c.stops.inValidation))
  }

  /** A record of Jikan's only counts against the id when both say that there is none. */
  ghost predicate BySources(c: Case, text: string) {
    IsId(text) && StandsIn(c, Number(text), c.stops.inValidation) ==>
      MissingIn(c.official(Number(text))) && MissingIn(c.jikan.value.fetch(Number(text)))
  }

  /** Jikan's search for a correction matched another id. */
  ghost predicate Searches(c: Case, text: string) {
    && c.jikan.Some? && c.jikan.value.correction.Tried? && c.jikan.value.correction.outcome == "matched"
    && c.jikan.value.correction.id.Some? && c.jikan.value.correction.id.value > 0
    && TextOf(c.jikan.value.correction.id.value) != text
  }

  /** Whether Jikan proposes another id whose own record is vouched for. */
  method Propose(c: Case, text: string, viaJikan: bool) returns (proposal: Option<int>, searched: Option<int>)
    requires c.details.Some? && c.jikan.Some?
    ensures forall n :: proposal == Some(n) <==> Offered(c, text, n)
    ensures proposal.Some? ==> proposal == searched
    ensures searched.Some? <==> Searches(c, text)
    ensures searched.Some? ==> c.jikan.value.correction == Tried(searched, "matched")
  {
    var found := c.jikan.value.correction;
    if found.Tried? && found.outcome == "matched" && found.id.Some? && found.id.value > 0
      && TextOf(found.id.value) != text {
      var reason, _, _, _ := Validate(c, found.id.value, c.stops.inCorrection, viaJikan);
      if Valid(reason) && !c.stops.afterCorrection {
        return found.id, found.id;
      }
      return None, found.id;
    }
    return None, None;
  }

  /** The evidence for the chosen id: what names it, or Jikan's search alone. */
  ghost function Considered(c: Case, text: string): seq<Candidate> {
    if Gathered(c) == [] then [Candidate(Canonical(text), "jikan_discovery")] else Gathered(c)
  }

  /** Jikan's search for a correction adds the id it matched, whatever its record says. */
  ghost function Suggested(c: Case, text: string): seq<Candidate> {
    if Rejected(c, text) && BySources(c, text) && !c.stops.beforeCorrection && Searches(c, text) then
      Noted(Some(TextOf(c.jikan.value.correction.id.value)), "jikan_correction")
    else []
  }

  /** The agreed id with its candidates, or why there is none to confirm. */
  method Choose(c: Case) returns (text: Option<string>, candidates: seq<Candidate>, discovered: bool, refusal: Reason)
    ensures text.Some? ==> Chosen(c, text.value) && !Objected(c)
    ensures text.Some? ==> candidates != [] && forall k <- candidates :: k.malId == Canonical(text.value)
    ensures text.Some? ==> candidates == Considered(c, text.value)
    ensures text.None? ==> (forall id :: !Chosen(c, id)) && (Blocks(refusal) <==> Objected(c))
    ensures text.Some? ==> (discovered <==> !Named(c, text.value))
    ensures text.None? ==> RefusedFor(c, refusal)
    ensures !Valid(refusal) && refusal != CorrectionAvailable
  {
    hide Vouched, RecordOf, Canonical, BridgeSays, FribbSays, FromTitle, FromBridge, FromFribb, Disagree;
    text, candidates, discovered, refusal := None, [], false, Stopped;
    if c.stops.atStart {
      return;
    }
    if c.details.None? {
      return None, [], false, MissingTmdbDetails;
    }
    if c.media == Tv && (c.details.value.status != "Ended" || c.details.value.seasons != Some(1)) {
      return None, [], false, SkippedSeriesScope;
    }
    var gathered, dispute := Gather(c);
    candidates := gathered;
    if dispute.Some? {
      assert forall id :: AgreedId(c, id) ==> forall a, b :: Named(c, a) && Named(c, b) ==> a == b;
      return None, candidates, false, dispute.value;
    }
    if candidates != [] {
      var first := candidates[0].malId;
      assert candidates[0] in candidates && Listed(candidates, first);
      forall k | k in candidates
        ensures k.malId == first
      {
        assert Listed(candidates, k.malId);
        assert Named(c, k.malId) && Named(c, first);
      }
      NamedIsCanonical(c, first);
      text := Some(first);
    } else {
      assert forall id :: !Named(c, id);
      var all, id, missing := Discover(c, candidates);
      candidates, text, discovered, refusal := all, id, true, missing;
    }
    if c.stops.afterDiscovery {
      return None, candidates, discovered, Stopped;
    }
  }

  lemma NamedIsCanonical(c: Case, id: string)
    requires Named(c, id)
    ensures Canonical(id) == id
  {
    var v :| id == Canonical(v);
    CanonicalTwice(v);
  }

  lemma CanonicalTwice(v: string)
    ensures Canonical(Canonical(v)) == Canonical(v)
  {
    if IsDigits(v) && Number(v) > 0 {
      NumberOfDigits(Number(v));
    }
  }

  /**
   The whole decision.  A title is validated exactly when one id is agreed on, confirmed by its
   record, and nothing objects; a correction is only ever proposed, never validated.
   */
  method FetchCandidateMalScore(c: Case) returns (r: MalResult)
    ensures r.validated <==> exists id :: Validates(c, id)
    ensures r.validated <==> Valid(r.outcome)
    ensures r.validated ==>
              && r.malId.Some? && r.malId.value > 0 && r.proposed.None? && Validates(c, Digits(r.malId.value))
              && r.candidates != [] && forall k <- r.candidates :: k.malId == Digits(r.malId.value)
    ensures r.validated ==> ScoreIs(r.score, RecordOf(c, r.malId.value, c.stops.inValidation))
    ensures !r.validated ==> r.malId.None? && r.score.None?
    ensures r.proposed.Some? <==> r.outcome == CorrectionAvailable
    ensures forall n :: r.proposed == Some(n) <==> exists id :: Corrects(c, id, n)
    ensures Blocks(r.outcome) <==>
              Objected(c) || ((exists id :: Refuted(c, id)) && (!c.stops.atEnd || r.proposed.Some?))
    ensures (forall id :: !Chosen(c, id)) ==> RefusedFor(c, r.outcome)
    ensures forall id :: Chosen(c, id) ==> EndsAs(c, id, r.proposed.Some?, r.outcome)
    ensures forall id :: Chosen(c, id) ==>
              r.candidates == Considered(c, id) + if Named(c, id) then Suggested(c, id) else []
  {
    hide RefusedFor, EndsAs, Considered, Suggested;
    var chosen, candidates, discovered, refusal := Choose(c);
    if chosen.None? {
      return Refusal(refusal, candidates);
    }
    var text := chosen.value;
    r := Confirm(c, text, candidates, discovered);
    forall id | AgreedId(c, id)
      ensures id == text
    {
      AgreedIsUnique(c, id, text);
    }
    if IsId(text) {
      AgreedIsCanonical(c, text);
    }
    hide AgreedId, Undisputed, Vouched, RecordOf, ScoreIs, Refutes, Objected, Blocks, Offered, Rejected, BySources;
    assert r.validated <==> Validates(c, text);
    assert Blocks(r.outcome) <==> Refuted(c, text) && (!c.stops.atEnd || r.proposed.Some?);
    assert forall id :: Refuted(c, id) ==> id == text;
    assert forall n :: r.proposed == Some(n) <==> Corrects(c, text, n);
    assert forall id, n :: Corrects(c, id, n) ==> id == text;
  }

  /** Confirms the agreed id by its record, or looks for a correction of a rejected one. */
  method Confirm(c: Case, text: string, candidates: seq<Candidate>, discovered: bool) returns (r: MalResult)
    requires c.details.Some? && candidates != []
    ensures r.validated
            <==> IsId(text) && Vouched(c, Number(text), RecordOf(c, Number(text), c.stops.inValidation))
                 && !c.stops.atEnd
    ensures r.validated <==> Valid(r.outcome)
    ensures r.validated ==> r.malId == Some(Number(text)) && r.candidates == candidates && r.proposed.None?
    ensures r.validated ==> ScoreIs(r.score, RecordOf(c, Number(text), c.stops.inValidation))
    ensures !r.validated ==> r.malId.None? && r.score.None?
    ensures r.proposed.Some? <==> r.outcome == CorrectionAvailable
    ensures forall n :: r.proposed == Some(n) <==>
              !discovered && Rejected(c, text) && BySources(c, text) && !c.stops.beforeCorrection && Offered(c, text, n)
    ensures Blocks(r.outcome) <==>
              && (!IsId(text) || Refutes(c, Number(text), RecordOf(c, Number(text), c.stops.inValidation)))
              && (!c.stops.atEnd || r.proposed.Some?)
    ensures EndsAs(c, text, r.proposed.Some?, r.outcome)
    ensures r.candidates == candidates + if discovered then [] else Suggested(c, text)
  {
    hide Amounts;
    var reason, score, viaJikan, officialNotFound := InvalidMapping, None, false, false;
    if IsDigits(text) && Number(text) > 0 {
      reason, score, viaJikan, officialNotFound := Validate(c, Number(text), c.stops.inValidation, false);
    }
    var all := candidates;
    if Rejection(reason) && c.jikan.Some? && (!viaJikan || (officialNotFound && reason == NotFound))
       && !discovered && !c.stops.beforeCorrection {
      var proposal, searched := Propose(c, text, viaJikan);
      all := Remember(all, if searched.Some? then Some(TextOf(searched.value)) else None, "jikan_correction");
      if proposal.Some? {
        return MalResult(None, false, CorrectionAvailable, None, all, proposal);
      }
    }
    if c.stops.atEnd {
      return Refusal(Stopped, all);
    }
    if !Valid(reason) {
      return Refusal(reason, all);
    }
    return MalResult(Some(Number(text)), true, reason, score, candidates, None);
  }
}
