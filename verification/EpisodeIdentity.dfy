/** Which TMDB episode an IMDb episode is: only an unambiguous answer of TMDB counts. */
module EpisodeIdentity {
  import opened Wrappers
  import opened Ids
  import opened Ranges
  import opened EpisodeLine

  datatype Coordinates = Coordinates(show: int, season: int, episode: int)

  /** A row of an answer; a field that is not an integer is missing. */
  datatype FindRow = FindRow(show: Option<int>, season: Option<int>, episode: Option<int>)

  /** An answer without a usable result list is a problem that may pass; 404 is definitive. */
  datatype FindAnswer = Problem | NotFound | Results(rows: seq<Option<FindRow>>)

  datatype CacheRow = CacheRow(payload: Option<Coordinates>, retryable: bool, nextDue: int)

  datatype Verdict = LookupFailed | Rejected | Verified(season: int, episode: int)

  type Cache = map<string, CacheRow>

  function EpisodeCoordinates(rows: seq<Option<FindRow>>): Option<Coordinates> {
    if |rows| != 1 || rows[0].None? then None
    else
      var row := rows[0].value;
      if row.show.None? || row.season.None? || row.episode.None? then None
      else if row.show.value <= 0 || row.season.value < 1 || row.episode.value < 1 then None
      else Some(Coordinates(row.show.value, row.season.value, row.episode.value))
  }

  /** Coordinates come from exactly one complete row, with everything counting from one. */
  lemma CoordinatesAreUnambiguous(rows: seq<Option<FindRow>>, c: Coordinates)
    ensures EpisodeCoordinates(rows) == Some(c)
            <==> c.show >= 1 && c.season >= 1 && c.episode >= 1
                 && rows == [Some(FindRow(Some(c.show), Some(c.season), Some(c.episode)))]
  {
    if EpisodeCoordinates(rows) == Some(c) {
      assert rows == [rows[0]];
    }
  }

  function Placed(e: Candidate, v: Verdict): Candidate {
    if v.Verified? then e.(season := v.season, episode := v.episode) else e
  }

  /** The cache row an answer leaves when it was asked for at this time. */
  ghost function Remembered(answer: FindAnswer, at: int): CacheRow {
    match answer
    case Problem => CacheRow(None, true, at + 300)
    case NotFound => CacheRow(None, false, at + 86400)
    case Results(rows) =>
      var payload := EpisodeCoordinates(rows);
      CacheRow(payload, false, at + if payload.Some? then 604800 else 86400)
  }

  /** A problem is asked again after five minutes, an answer naming an episode after a week, any other after a day. */
  lemma RememberedMeans(answer: FindAnswer, at: int)
    ensures var row := Remembered(answer, at);
            && (row.retryable <==> answer.Problem?)
            && (forall c :: row.payload == Some(c) <==>
                  && c.show >= 1 && c.season >= 1 && c.episode >= 1
                  && answer == Results([Some(FindRow(Some(c.show), Some(c.season), Some(c.episode)))]))
            && row.nextDue - at == if row.retryable then 5 * 60 else if row.payload.Some? then 7 * 86400 else 24 * 3600
  {
    hide EpisodeCoordinates;
    forall c
      ensures Remembered(answer, at).payload == Some(c) <==>
                && c.show >= 1 && c.season >= 1 && c.episode >= 1
                && answer == Results([Some(FindRow(Some(c.show), Some(c.season), Some(c.episode)))])
    {
      if answer.Results? {
        CoordinatesAreUnambiguous(answer.rows, c);
      }
    }
  }

  /** Where the verdict on an entry comes from: it has no id, or a cache row that still held, or its own answer. */
  datatype Source = NoId | Cached(row: CacheRow, at: int) | Asked(at: int)

  type Sources = map<int, Source>

  /** What is asked in one call: the entries of one title, and the answers in the order of the queue. */
  datatype Inquiry = Inquiry(entries: seq<Candidate>, tmdb: int, cached: Cache, answer: int -> FindAnswer)
  {
    /** The source names this episode of this very title, and nothing else. */
    ghost predicate Names(i: int, source: Source, season: int, episode: int) {
      match source
      case NoId => false
      case Cached(row, _) => row.payload == Some(Coordinates(tmdb, season, episode))
      case Asked(_) =>
        && tmdb >= 1 && season >= 1 && episode >= 1
        && answer(i) == Results([Some(FindRow(Some(tmdb), Some(season), Some(episode)))])
    }

    /** The verdict follows from the source: verified exactly for an episode of this title. */
    ghost predicate Fits(i: int, source: Source, v: Verdict) {
      match v
      case LookupFailed => Fails(i, source)
      case Verified(season, episode) => !Fails(i, source) && Names(i, source, season, episode)
      case Rejected => !Fails(i, source) && forall season, episode :: !Names(i, source, season, episode)
    }

    /** The lookup failed for a passing reason: now, or lately according to the cache. */
    ghost predicate Fails(i: int, source: Source) {
      match source
      case NoId => false
      case Cached(row, _) => row.retryable
      case Asked(_) => answer(i).Problem?
    }

    ghost predicate HasId(i: int, id: string) {
      0 <= i < |entries| && NormalizedImdb(entries[i].id) == Some(id)
    }

    /** The row was in the cache from the start, or is what an answer for the id left there. */
    ghost predicate Backed(sources: Sources, id: string, row: CacheRow) {
      || (id in cached && row == cached[id])
      || exists j <- sources :: sources[j].Asked? && HasId(j, id) && row == Remembered(answer(j), sources[j].at)
    }

    /** At this time the id had to be asked for: there was no row for it, or the row it had was due. */
    ghost predicate Unknown(sources: Sources, id: string, at: int) {
      || (id in cached ==> cached[id].nextDue <= at)
      || exists j <- sources ::
           sources[j].Asked? && HasId(j, id) && Remembered(answer(j), sources[j].at).nextDue <= at
    }

    /** The source of an entry is what it claims to be; a cache row is used exactly until it is due. */
    ghost predicate Explained(sources: Sources, i: int) {
      && i in sources && 0 <= i < |entries|
      && match sources[i]
         case NoId => NormalizedImdb(entries[i].id).None?
         case Cached(row, at) => at < row.nextDue && exists id :: HasId(i, id) && Backed(sources, id, row)
         case Asked(at) => exists id :: HasId(i, id) && Unknown(sources, id, at)
    }
  }

  type Verdicts = map<int, Verdict>

  ghost function FailedIn(verdicts: Verdicts): set<int> {
    set i | i in verdicts && verdicts[i].LookupFailed?
  }

  /** Everything the workers share: the counters, the verified entries and the cache. */
  datatype Tally = Tally(cache: Cache, verified: seq<Candidate>, failures: nat, skipped: nat)

  function Counted(t: Tally, e: Candidate, v: Verdict): Tally {
    match v
    case LookupFailed => t.(failures := t.failures + 1)
    case Rejected => t.(skipped := t.skipped + 1)
    case Verified(_, _) => t.(verified := t.verified + [Placed(e, v)])
  }

  /** What happened so far: the verdicts with their sources, and the queue positions of the verified entries. */
  datatype Trace = Trace(verdicts: Verdicts, sources: Sources, from: seq<int>)

  ghost function Extended(g: Trace, i: int, source: Source, v: Verdict): Trace {
    Trace(g.verdicts[i := v], g.sources[i := source], if v.Verified? then g.from + [i] else g.from)
  }

  /** Every processed entry is counted once. */
  ghost predicate Counts(t: Tally, verdicts: Verdicts) {
    |t.verified| + t.failures + t.skipped == |verdicts| && t.failures == |FailedIn(verdicts)|
  }

  /** The verified entries carry their verdicts; `from[j]` is the queue position of the j-th. */
  ghost predicate Places(q: Inquiry, t: Tally, verdicts: Verdicts, from: seq<int>) {
    && |from| == |t.verified|
    && (forall i <- verdicts :: 0 <= i < |q.entries|)
    && (forall j :: 0 <= j < |from| ==>
          && from[j] in verdicts && verdicts[from[j]].Verified?
          && t.verified[j] == Placed(q.entries[from[j]], verdicts[from[j]]))
    && (forall i <- verdicts :: verdicts[i].Verified? ==> i in from)
  }

  /** Every verdict follows from its source. */
  ghost predicate AllJustified(q: Inquiry, verdicts: Verdicts, sources: Sources) {
    && verdicts.Keys == sources.Keys
    && forall i <- sources :: q.Explained(sources, i) && q.Fits(i, sources[i], verdicts[i])
  }

  /** Every row of the cache was there from the start or is what an answer left. */
  ghost predicate Trusted(q: Inquiry, sources: Sources, cache: Cache) {
    forall id <- cache :: q.Backed(sources, id, cache[id])
  }

  /** No row of the cache was lost, and every id asked for has a row that is an answer for it. */
  ghost predicate Learned(q: Inquiry, sources: Sources, cache: Cache) {
    && q.cached.Keys <= cache.Keys
    && forall j <- sources, id :: sources[j].Asked? && q.HasId(j, id) ==>
       id in cache && FromAnswer(q, sources, id, cache[id])
  }

  ghost predicate FromAnswer(q: Inquiry, sources: Sources, id: string, row: CacheRow) {
    exists j <- sources :: sources[j].Asked? && q.HasId(j, id) && row == Remembered(q.answer(j), sources[j].at)
  }

  /** A lookup counts as failed exactly when its answer is a problem or its cache row says so. */
  lemma FailedExactlyWhen(q: Inquiry, verdicts: Verdicts, sources: Sources)
    requires AllJustified(q, verdicts, sources)
    ensures FailedIn(verdicts) == {} <==> forall i <- sources :: !q.Fails(i, sources[i])
  {
    hide Inquiry.Explained, EpisodeCoordinates;
    assert forall i <- sources :: verdicts[i].LookupFailed? <==> q.Fails(i, sources[i]);
    if i :| i in sources && q.Fails(i, sources[i]) {
      assert i in FailedIn(verdicts);
    }
  }

  lemma OneMoreCount(t: Tally, verdicts: Verdicts, e: Candidate, i: int, v: Verdict)
    requires Counts(t, verdicts) && i !in verdicts
    ensures Counts(Counted(t, e, v), verdicts[i := v])
  {
    OneMoreKey(verdicts, i, v);
    OneMoreFailure(verdicts, i, v);
    hide FailedIn, Placed;
  }

  lemma OneMoreKey(verdicts: Verdicts, i: int, v: Verdict)
    requires i !in verdicts
    ensures |verdicts[i := v]| == |verdicts| + 1
  {}

  lemma OneMoreFailure(verdicts: Verdicts, i: int, v: Verdict)
    requires i !in verdicts
    ensures |FailedIn(verdicts[i := v])| == |FailedIn(verdicts)| + if v.LookupFailed? then 1 else 0
  {
    var after := FailedIn(verdicts[i := v]);
    if v.LookupFailed? {
      assert after == FailedIn(verdicts) + {i};
    } else {
      assert after == FailedIn(verdicts);
    }
  }

  lemma OneMorePlace(q: Inquiry, t: Tally, verdicts: Verdicts, from: seq<int>, i: int, v: Verdict)
    requires Places(q, t, verdicts, from) && i !in verdicts && 0 <= i < |q.entries|
    ensures Places(q, Counted(t, q.entries[i], v), verdicts[i := v], if v.Verified? then from + [i] else from)
  {
    hide Placed;
    var more := if v.Verified? then from + [i] else from;
    assert v.Verified? ==> more[|from|] == i;
    assert forall k <- from :: k in more;
  }

  lemma BackedStays(q: Inquiry, sources: Sources, i: int, source: Source)
    requires i !in sources
    ensures forall id, row :: q.Backed(sources, id, row) ==> q.Backed(sources[i := source], id, row)
    ensures forall id, row :: FromAnswer(q, sources, id, row) ==> FromAnswer(q, sources[i := source], id, row)
    ensures forall id, at :: q.Unknown(sources, id, at) ==> q.Unknown(sources[i := source], id, at)
  {
    hide Inquiry.HasId, Remembered;
    var more := sources[i := source];
    assert forall j <- sources :: j in more && more[j] == sources[j];
    forall id, row | FromAnswer(q, sources, id, row)
      ensures FromAnswer(q, more, id, row)
    {
      var j :| j in sources && sources[j].Asked? && q.HasId(j, id) && row == Remembered(q.answer(j), sources[j].at);
    }
    forall id, at | q.Unknown(sources, id, at) && id in q.cached && q.cached[id].nextDue > at
      ensures q.Unknown(more, id, at)
    {
      var j :| j in sources && sources[j].Asked? && q.HasId(j, id)
               && Remembered(q.answer(j), sources[j].at).nextDue <= at;
    }
  }

  lemma OneMoreJustified(q: Inquiry, verdicts: Verdicts, sources: Sources, i: int, source: Source, v: Verdict)
    requires AllJustified(q, verdicts, sources) && i !in sources && q.Explained(sources[i := source], i)
    requires q.Fits(i, source, v)
    ensures AllJustified(q, verdicts[i := v], sources[i := source])
  {
    hide Inquiry.Backed, Inquiry.Unknown, Inquiry.Fits, Inquiry.HasId, NormalizedImdb, FromAnswer;
    var more := sources[i := source];
    BackedStays(q, sources, i, source);
    forall j | j in sources
      ensures q.Explained(more, j)
    {
      assert q.Explained(sources, j) && more[j] == sources[j];
    }
  }

  /** Everything that is kept while the workers run. */
  ghost predicate Sound(q: Inquiry, t: Tally, g: Trace) {
    && Counts(t, g.verdicts) && Places(q, t, g.verdicts, g.from)
    && AllJustified(q, g.verdicts, g.sources) && Trusted(q, g.sources, t.cache) && Learned(q, g.sources, t.cache)
  }

  lemma SoundStart(q: Inquiry)
    ensures Sound(q, Tally(q.cached, [], 0, 0), Trace(map[], map[], []))
  {
    assert FailedIn(map[]) == {};
  }

  /** One more entry is finished; what its answer leaves, if it was asked for, is in the new cache. */
  lemma SoundNext(q: Inquiry, t: Tally, g: Trace, i: int, source: Source, v: Verdict, cache: Cache)
    requires q.Fits(i, source, v)
    requires Sound(q, t, g) && i !in g.verdicts && 0 <= i < |q.entries| && q.Explained(g.sources[i := source], i)
    requires Trusted(q, g.sources[i := source], cache) && Learned(q, g.sources[i := source], cache)
    ensures Sound(q, Counted(t.(cache := cache), q.entries[i], v), Extended(g, i, source, v))
  {
    hide Inquiry.Explained, Inquiry.Fits, Counts, Places, Trusted, Learned;
    OneMoreCount(t, g.verdicts, q.entries[i], i, v);
    OneMorePlace(q, t, g.verdicts, g.from, i, v);
    OneMoreJustified(q, g.verdicts, g.sources, i, source, v);
    OtherCache(q, Counted(t, q.entries[i], v), Extended(g, i, source, v), cache);
  }

  lemma OtherCache(q: Inquiry, t: Tally, g: Trace, cache: Cache)
    requires Counts(t, g.verdicts) && Places(q, t, g.verdicts, g.from)
    ensures Counts(t.(cache := cache), g.verdicts) && Places(q, t.(cache := cache), g.verdicts, g.from)
  {
    hide FailedIn, Placed;
  }

  /** A source that is no answer leaves the cache as it is. */
  lemma SoundWithoutAnswer(q: Inquiry, t: Tally, g: Trace, i: int, source: Source, v: Verdict)
    requires q.Fits(i, source, v)
    requires Sound(q, t, g) && i !in g.verdicts && 0 <= i < |q.entries| && !source.Asked?
    requires q.Explained(g.sources[i := source], i)
    ensures Sound(q, Counted(t, q.entries[i], v), Extended(g, i, source, v))
  {
    NotYet(q, t, g, i);
    hide Inquiry.Explained, Inquiry.Fits, Counts, Places, AllJustified;
    SameCache(q, g.sources, t.cache, i, source);
    hide Trusted, Learned;
    SoundNext(q, t, g, i, source, v, t.cache);
    assert t.(cache := t.cache) == t;
  }

  lemma SameCache(q: Inquiry, sources: Sources, cache: Cache, i: int, source: Source)
    requires Trusted(q, sources, cache) && Learned(q, sources, cache) && i !in sources && !source.Asked?
    ensures Trusted(q, sources[i := source], cache) && Learned(q, sources[i := source], cache)
  {
    BackedStays(q, sources, i, source);
    hide Inquiry.Backed, FromAnswer, Inquiry.HasId, Inquiry.Unknown;
  }

  /** An answer replaces the row of its id, and nothing else. */
  lemma NewRow(q: Inquiry, sources: Sources, cache: Cache, i: int, id: string, at: int)
    requires Trusted(q, sources, cache) && Learned(q, sources, cache) && i !in sources && q.HasId(i, id)
    ensures var row := Remembered(q.answer(i), at);
            && Trusted(q, sources[i := Asked(at)], cache[id := row])
            && Learned(q, sources[i := Asked(at)], cache[id := row])
  {
    var more, row := sources[i := Asked(at)], Remembered(q.answer(i), at);
    BackedStays(q, sources, i, Asked(at));
    AnswerBacks(q, sources, i, id, at);
    hide Inquiry.Backed, FromAnswer, Remembered, Inquiry.Unknown, Inquiry.HasId;
    assert Trusted(q, more, cache[id := row]);
    RowsForAll(q, sources, cache, i, id, at);
  }

  lemma AnswerBacks(q: Inquiry, sources: Sources, i: int, id: string, at: int)
    requires q.HasId(i, id)
    ensures q.Backed(sources[i := Asked(at)], id, Remembered(q.answer(i), at))
    ensures FromAnswer(q, sources[i := Asked(at)], id, Remembered(q.answer(i), at))
  {
    hide Remembered, Inquiry.HasId;
    assert sources[i := Asked(at)][i].Asked?;
  }

  lemma RowsForAll(q: Inquiry, sources: Sources, cache: Cache, i: int, id: string, at: int)
    requires Learned(q, sources, cache) && i !in sources && q.HasId(i, id)
    requires forall other, row :: FromAnswer(q, sources, other, row) ==>
               FromAnswer(q, sources[i := Asked(at)], other, row)
    requires FromAnswer(q, sources[i := Asked(at)], id, Remembered(q.answer(i), at))
    ensures Learned(q, sources[i := Asked(at)], cache[id := Remembered(q.answer(i), at)])
  {
    hide FromAnswer, Remembered, NormalizedImdb;
    var more := sources[i := Asked(at)];
    assert forall j <- more :: j != i ==> j in sources && more[j] == sources[j];
  }

  /** A row that still holds explains its verdict. */
  lemma CachedExplains(q: Inquiry, t: Tally, g: Trace, i: int, id: string, at: int)
    requires Sound(q, t, g) && i !in g.verdicts && q.HasId(i, id) && id in t.cache && at < t.cache[id].nextDue
    ensures q.Explained(g.sources[i := Cached(t.cache[id], at)], i)
  {
    hide NormalizedImdb, Inquiry.Backed, Counts, Places, Inquiry.Fits, Learned, Inquiry.Unknown;
    BackedStays(q, g.sources, i, Cached(t.cache[id], at));
  }

  /** Without a row that still holds, the id has to be asked for. */
  lemma MustBeAsked(q: Inquiry, t: Tally, g: Trace, id: string, at: int)
    requires Sound(q, t, g) && (id in t.cache ==> t.cache[id].nextDue <= at)
    ensures q.Unknown(g.sources, id, at)
  {
    hide Counts, Places, AllJustified, Inquiry.HasId, Remembered;
    if id in q.cached && q.cached[id].nextDue > at {
      assert id in t.cache && q.Backed(g.sources, id, t.cache[id]);
    }
  }

  /** An answer to a question that had to be asked explains its verdict, and is remembered. */
  lemma AnswerExplains(q: Inquiry, t: Tally, g: Trace, i: int, id: string, at: int, v: Verdict)
    requires Sound(q, t, g) && i !in g.verdicts && q.HasId(i, id) && q.Unknown(g.sources, id, at)
    requires q.Fits(i, Asked(at), v)
    ensures var learned := t.(cache := t.cache[id := Remembered(q.answer(i), at)]);
            Sound(q, Counted(learned, q.entries[i], v), Extended(g, i, Asked(at), v))
  {
    NotYet(q, t, g, i);
    hide NormalizedImdb, Remembered, Inquiry.Fits, Inquiry.Backed, Inquiry.Unknown, FromAnswer;
    hide Trusted, Learned, AllJustified, Counts, Places;
    BackedStays(q, g.sources, i, Asked(at));
    NewRow(q, g.sources, t.cache, i, id, at);
    SoundNext(q, t, g, i, Asked(at), v, t.cache[id := Remembered(q.answer(i), at)]);
  }

  lemma NotYet(q: Inquiry, t: Tally, g: Trace, i: int)
    requires Sound(q, t, g) && i !in g.verdicts
    ensures i !in g.sources
  {
    hide Counts, Places, Trusted, Learned, Inquiry.Explained;
  }

  // ---------- the workers ----------

  /** Every taken entry is either finished or waited for, and those waited for have an id. */
  ghost predicate InPlay(q: Inquiry, taken: int, waiting: set<int>, finished: set<int>) {
    && 0 <= taken <= |q.entries| && finished !! waiting
    && (forall i :: i in finished + waiting <==> 0 <= i < taken)
    && forall i <- waiting :: 0 <= i < taken && NormalizedImdb(q.entries[i].id).Some?
  }

  /** What is waited for had to be asked for when it was taken. */
  ghost predicate Waits(q: Inquiry, sources: Sources, waiting: map<int, int>) {
    forall i <- waiting, id :: q.HasId(i, id) ==> q.Unknown(sources, id, waiting[i])
  }

  lemma StillWaits(q: Inquiry, g: Trace, g': Trace, i: int, waiting: map<int, int>)
    requires Waits(q, g.sources, waiting)
    requires g' == g || (i !in g.sources && exists source, v :: g' == Extended(g, i, source, v))
    ensures Waits(q, g'.sources, waiting)
  {
    hide Inquiry.Unknown, Inquiry.HasId, Inquiry.Backed, FromAnswer;
    if g' != g {
      var source, v :| g' == Extended(g, i, source, v);
      BackedStays(q, g.sources, i, source);
    }
  }

  lemma NextInPlay(q: Inquiry, taken: int, waiting: set<int>, finished: set<int>)
    requires InPlay(q, taken, waiting, finished) && taken < |q.entries|
    ensures taken !in finished && taken !in waiting
    ensures InPlay(q, taken + 1, waiting, finished + {taken})
    ensures NormalizedImdb(q.entries[taken].id).Some? ==> InPlay(q, taken + 1, waiting + {taken}, finished)
  {
    hide NormalizedImdb;
    assert taken !in finished + waiting;
  }

  lemma AnsweredInPlay(q: Inquiry, taken: int, waiting: set<int>, finished: set<int>, i: int)
    requires InPlay(q, taken, waiting, finished) && i in waiting
    ensures 0 <= i < |q.entries| && i !in finished && NormalizedImdb(q.entries[i].id).Some?
    ensures InPlay(q, taken, waiting - {i}, finished + {i})
  {
    hide NormalizedImdb;
    assert (finished + {i}) + (waiting - {i}) == finished + waiting;
  }

  lemma AllFinished(q: Inquiry, taken: int, waiting: set<int>, finished: set<int>)
    requires InPlay(q, taken, waiting, finished)
    ensures waiting == {} ==> finished == Range(0, taken) && |finished| == taken
    ensures taken <= |q.entries|
  {
    hide NormalizedImdb;
    assert forall i :: i in finished + waiting <==> 0 <= i < taken;
    assert waiting == {} ==> finished + waiting == finished && finished == Range(0, taken);
  }

  /** What the worker knows of an entry: the coordinates, if any, and whether the lookup failed. */
  ghost predicate Says(q: Inquiry, i: int, source: Source, payload: Option<Coordinates>, retryable: bool) {
    && (retryable <==> q.Fails(i, source))
    && (!retryable ==> forall season, episode ::
                         payload == Some(Coordinates(q.tmdb, season, episode)) <==> q.Names(i, source, season, episode))
  }

  lemma SourceSays(q: Inquiry, i: int, at: int, payload: Option<Coordinates>, retryable: bool)
    requires match q.answer(i)
             case Results(rows) => payload == EpisodeCoordinates(rows) && !retryable
             case NotFound => payload.None? && !retryable
             case Problem => retryable
    ensures Says(q, i, Asked(at), payload, retryable)
  {
    hide EpisodeCoordinates;
    if q.answer(i).Results? {
      forall season, episode
        ensures payload == Some(Coordinates(q.tmdb, season, episode)) <==> q.Names(i, Asked(at), season, episode)
      {
        CoordinatesAreUnambiguous(q.answer(i).rows, Coordinates(q.tmdb, season, episode));
      }
    }
  }

  /** The verdict of a worker. */
  method Judge(q: Inquiry, i: int, ghost source: Source, payload: Option<Coordinates>, retryable: bool)
    returns (v: Verdict)
    requires Says(q, i, source, payload, retryable)
    ensures q.Fits(i, source, v)
  {
    hide Inquiry.Names, Inquiry.Fails;
    if retryable {
      return LookupFailed;
    }
    if payload.Some? && payload.value.show == q.tmdb {
      assert payload == Some(Coordinates(q.tmdb, payload.value.season, payload.value.episode));
      return Verified(payload.value.season, payload.value.episode);
    }
    return Rejected;
  }

  /** Takes an entry: settled at once when its id is none or its cache row still holds. */
  method Take(q: Inquiry, t: Tally, i: int, now: int, ghost g: Trace) returns (t': Tally, open: bool, ghost g': Trace)
    requires 0 <= i < |q.entries| && i !in g.verdicts && Sound(q, t, g)
    ensures Sound(q, t', g') && (g' == g || exists source, v :: g' == Extended(g, i, source, v))
    ensures open ==> NormalizedImdb(q.entries[i].id).Some? && g' == g && t' == t
    ensures !open ==> g'.verdicts.Keys == g.verdicts.Keys + {i}
    ensures open <==> (var id := NormalizedImdb(q.entries[i].id);
                       id.Some? && (id.value !in t.cache || t.cache[id.value].nextDue <= now))
  {
    hide NormalizedImdb, Sound, Inquiry.Backed, Counted;
    var id := NormalizedImdb(q.entries[i].id);
    var source, v := NoId, Rejected;
    if id.Some? {
      if id.value !in t.cache || t.cache[id.value].nextDue <= now {
        return t, true, g;
      }
      source := Cached(t.cache[id.value], now);
      v := Judge(q, i, source, t.cache[id.value].payload, t.cache[id.value].retryable);
      CachedExplains(q, t, g, i, id.value, now);
    }
    SoundWithoutAnswer(q, t, g, i, source, v);
    t', open, g' := Counted(t, q.entries[i], v), false, Extended(g, i, source, v);
  }

  /** Receives the answer for a taken entry and remembers it. */
  method Finish(q: Inquiry, t: Tally, i: int, now: int, ghost g: Trace) returns (t': Tally, ghost g': Trace)
    requires 0 <= i < |q.entries| && i !in g.verdicts && NormalizedImdb(q.entries[i].id).Some? && Sound(q, t, g)
    requires forall id :: q.HasId(i, id) ==> q.Unknown(g.sources, id, now)
    ensures Sound(q, t', g') && exists v :: g' == Extended(g, i, Asked(now), v)
    ensures g'.verdicts.Keys == g.verdicts.Keys + {i}
  {
    hide NormalizedImdb, Sound, Counted, Inquiry.Unknown, EpisodeCoordinates;
    var id := NormalizedImdb(q.entries[i].id).value;
    assert q.HasId(i, id);
    var payload: Option<Coordinates>, retryable := None, true;
    match q.answer(i) {
      case Results(rows) => payload, retryable := EpisodeCoordinates(rows), false;
      case NotFound => retryable := false;
      case Problem =>
    }
    SourceSays(q, i, now, payload, retryable);
    var v := Judge(q, i, Asked(now), payload, retryable);
    var lifetime := if retryable then 300 else if payload.Some? then 7 * 86400 else 86400;
    var row := CacheRow(payload, retryable, now + lifetime);
    assert row == Remembered(q.answer(i), now);
    AnswerExplains(q, t, g, i, id, now, v);
    t' := Counted(t.(cache := t.cache[id := row]), q.entries[i], v);
    g' := Extended(g, i, Asked(now), v);
  }

  method TakeNext(q: Inquiry, t: Tally, i: int, now: int, waiting: map<int, int>, ghost g: Trace)
    returns (t': Tally, waiting': map<int, int>, ghost g': Trace)
    requires 0 <= i < |q.entries| && Sound(q, t, g) && InPlay(q, i, waiting.Keys, g.verdicts.Keys)
    requires Waits(q, g.sources, waiting)
    ensures Sound(q, t', g') && InPlay(q, i + 1, waiting'.Keys, g'.verdicts.Keys)
    ensures Waits(q, g'.sources, waiting')
  {
    hide Sound, InPlay, NormalizedImdb, Waits;
    NextInPlay(q, i, waiting.Keys, g.verdicts.Keys);
    NotYet(q, t, g, i);
    var open;
    t', open, g' := Take(q, t, i, now, g);
    StillWaits(q, g, g', i, waiting);
    waiting' := waiting;
    if open {
      waiting' := waiting[i := now];
      MustBeAsked(q, t, g, NormalizedImdb(q.entries[i].id).value, now);
      OneMoreWaits(q, g.sources, waiting, i, now);
      assert waiting'.Keys == waiting.Keys + {i};
    }
  }

  lemma OneMoreWaits(q: Inquiry, sources: Sources, waiting: map<int, int>, i: int, now: int)
    requires Waits(q, sources, waiting) && 0 <= i < |q.entries| && NormalizedImdb(q.entries[i].id).Some?
    requires q.Unknown(sources, NormalizedImdb(q.entries[i].id).value, now)
    ensures Waits(q, sources, waiting[i := now])
  {
    hide Inquiry.Unknown, NormalizedImdb;
  }

  method AnswerOne(q: Inquiry, t: Tally, i: int, ghost taken: int, waiting: map<int, int>, ghost g: Trace)
    returns (t': Tally, waiting': map<int, int>, ghost g': Trace)
    requires i in waiting && Sound(q, t, g) && InPlay(q, taken, waiting.Keys, g.verdicts.Keys)
    requires Waits(q, g.sources, waiting)
    ensures Sound(q, t', g') && InPlay(q, taken, waiting'.Keys, g'.verdicts.Keys)
    ensures waiting'.Keys < waiting.Keys && Waits(q, g'.sources, waiting')
  {
    hide Sound, InPlay, NormalizedImdb, Inquiry.Unknown;
    AnsweredInPlay(q, taken, waiting.Keys, g.verdicts.Keys, i);
    NotYet(q, t, g, i);
    t', g' := Finish(q, t, i, waiting[i], g);
    StillWaits(q, g, g', i, waiting);
    waiting' := waiting - {i};
    assert waiting'.Keys == waiting.Keys - {i};
  }

  /** Which of the open answers comes first is left open. */
  method OneOf(waiting: map<int, int>) returns (i: int)
    requires waiting.Keys != {}
    ensures i in waiting
  {
    assert exists k :: k in waiting by {
      assert (forall k :: k !in waiting) ==> waiting.Keys == {};
    }
    i :| i in waiting;
  }

  /** A look at whether the program is being stopped: once it is, that may be noticed now or later. */
  method Noticed(stopping: bool) returns (stop: bool)
    ensures stop ==> stopping
  {
    stop := *;
    stop := stop && stopping;
  }

  /** One event: a worker notices the stop, takes the next entry, or receives an answer. */
  method Event(q: Inquiry, t: Tally, taken: int, waiting: map<int, int>, ghost g: Trace, mayTake: bool, stopping: bool)
    returns (t': Tally, taken': int, waiting': map<int, int>, stop: bool, ghost g': Trace)
    requires Sound(q, t, g) && InPlay(q, taken, waiting.Keys, g.verdicts.Keys)
    requires 0 <= taken <= |q.entries| && (mayTake ==> taken < |q.entries|) && (mayTake || waiting.Keys != {})
    requires Waits(q, g.sources, waiting)
    ensures Sound(q, t', g') && InPlay(q, taken', waiting'.Keys, g'.verdicts.Keys) && Waits(q, g'.sources, waiting')
    ensures taken <= taken' <= |q.entries|
    ensures taken' > taken || (mayTake && stop) || (!stop && waiting'.Keys < waiting.Keys)
    ensures stop ==> mayTake && stopping
  {
    hide Sound, InPlay, Waits;
    t', taken', waiting', stop, g' := t, taken, waiting, false, g;
    var take: bool := *;
    if mayTake && (take || waiting.Keys == {}) {
      stop := Noticed(stopping);
      if !stop {
        var now: int := *;
        t', waiting', g' := TakeNext(q, t, taken, now, waiting, g);
        taken' := taken + 1;
      }
    } else {
      var i := OneOf(waiting);
      t', waiting', g' := AnswerOne(q, t, i, taken, waiting, g);
    }
  }

  /**
   Several workers take entries from one queue and wait for answers side by side, so entries
   are finished in any order; a stop lets the entries already taken finish.
   */
  method Verify(q: Inquiry, stopping: bool) returns (t: Tally, stopped: bool, ghost g: Trace)
    ensures Sound(q, t, g) && (stopped ==> stopping)
    ensures !stopped ==> forall i :: 0 <= i < |q.entries| ==> i in g.verdicts
    ensures |t.verified| + t.failures + t.skipped <= |q.entries|
    ensures !stopped ==> |t.verified| + t.failures + t.skipped == |q.entries|
  {
    t, stopped, g := Tally(q.cached, [], 0, 0), false, Trace(map[], map[], []);
    SoundStart(q);
    var taken, waiting: map<int, int> := 0, map[];
    assert InPlay(q, taken, waiting.Keys, g.verdicts.Keys) && Waits(q, g.sources, waiting);
    hide Sound, InPlay, Waits;
    while (taken < |q.entries| && !stopped) || waiting.Keys != {}
      invariant 0 <= taken <= |q.entries| && (stopped ==> stopping)
      invariant Sound(q, t, g) && InPlay(q, taken, waiting.Keys, g.verdicts.Keys) && Waits(q, g.sources, waiting)
      decreases |q.entries| - taken, if stopped then 0 else 1, waiting.Keys
    {
      var stop;
      t, taken, waiting, stop, g := Event(q, t, taken, waiting, g, taken < |q.entries| && !stopped, stopping);
      stopped := stopped || stop;
    }
    AllFinished(q, taken, waiting.Keys, g.verdicts.Keys);
    Processed(q, t, g);
  }

  lemma Processed(q: Inquiry, t: Tally, g: Trace)
    requires Sound(q, t, g)
    ensures |t.verified| + t.failures + t.skipped == |g.verdicts.Keys|
  {
    assert |g.verdicts| == |g.verdicts.Keys|;
  }

  // ---------- one entry per slot ----------

  predicate SameSlot(a: Candidate, b: Candidate) {
    a.season == b.season && a.episode == b.episode
  }

  /** All entries of the slot are the same IMDb episode. */
  predicate Undisputed(verified: seq<Candidate>, e: Candidate) {
    forall o <- verified :: SameSlot(o, e) ==> o.id == e.id
  }

  ghost predicate OneBySlot(unique: seq<Candidate>) {
    forall i, j :: 0 <= i < j < |unique| ==> !SameSlot(unique[i], unique[j])
  }

  /** The episode is in the result, at the same slot. */
  ghost predicate Represented(unique: seq<Candidate>, e: Candidate) {
    exists u <- unique :: SameSlot(u, e) && u.id == e.id
  }

  /** The first entry of every slot on which all its entries agree. */
  method UniqueSlots(verified: seq<Candidate>) returns (unique: seq<Candidate>)
    ensures |unique| <= |verified| && OneBySlot(unique)
    ensures forall u <- unique :: u in verified && Undisputed(verified, u)
    ensures forall e <- verified :: Undisputed(verified, e) ==> Represented(unique, e)
  {
    hide Represented, Undisputed, OneBySlot, SameSlot;
    unique := [];
    assert OneBySlot(unique) by {
      NoSlots();
    }
    for i := 0 to |verified|
      invariant |unique| <= i && OneBySlot(unique)
      invariant forall u <- unique :: u in verified[..i] && Undisputed(verified, u)
      invariant forall e <- verified[..i] :: Undisputed(verified, e) ==> Represented(unique, e)
    {
      var e := verified[i];
      assert verified[..i + 1] == verified[..i] + [e];
      if Undisputed(verified, e) {
        if exists u <- unique :: SameSlot(u, e) {
          var u :| u in unique && SameSlot(u, e);
          AlreadyThere(verified, unique, u, e);
        } else {
          OneMoreSlot(unique, e);
          unique := unique + [e];
        }
      }
    }
    assert verified[..|verified|] == verified;
  }

  lemma NoSlots()
    ensures OneBySlot([])
  {}

  lemma AlreadyThere(verified: seq<Candidate>, unique: seq<Candidate>, u: Candidate, e: Candidate)
    requires u in unique && u in verified && SameSlot(u, e) && Undisputed(verified, e)
    ensures Represented(unique, e)
  {
    assert u.id == e.id;
  }

  lemma OneMoreSlot(unique: seq<Candidate>, e: Candidate)
    requires OneBySlot(unique) && !exists u <- unique :: SameSlot(u, e)
    ensures OneBySlot(unique + [e]) && Represented(unique + [e], e)
    ensures forall o :: Represented(unique, o) ==> Represented(unique + [e], o)
  {
    var more := unique + [e];
    assert more[|unique|] in more && forall u <- unique :: u in more;
    assert forall i :: 0 <= i < |unique| ==> unique[i] in unique;
  }

  /** The slot of a verified entry is claimed by another episode as well. */
  ghost predicate Contested(q: Inquiry, verdicts: Verdicts, i: int)
    requires 0 <= i < |q.entries| && i in verdicts
  {
    exists j <- verdicts :: 0 <= j < |q.entries| && verdicts[j] == verdicts[i] && q.entries[j].id != q.entries[i].id
  }

  /**
   The verified entries with TMDB's coordinates, one per season and episode, and the counts.
   Whatever the order of the workers: unique + failures + skipped is the number of entries
   processed; without a stop that is all of them.  Every verified entry is represented in the
   result or contests its slot with another episode.
   */
  method VerifyEpisodeIdentities(q: Inquiry, stopping: bool)
    returns (
      unique: seq<Candidate>, failures: nat, skipped: nat, cache: Cache, stopped: bool, ghost verdicts: Verdicts,
      ghost sources: Sources)
    ensures |unique| + failures + skipped == |verdicts| <= |q.entries|
    ensures !stopped ==> |unique| + failures + skipped == |q.entries|
    ensures failures == |FailedIn(verdicts)| && AllJustified(q, verdicts, sources)
    ensures failures == 0 <==> forall i <- sources :: !q.Fails(i, sources[i])
    ensures !stopped ==> forall i :: 0 <= i < |q.entries| ==> i in verdicts
    ensures OneBySlot(unique)
    ensures forall u <- unique ::
              exists i <- verdicts ::
                0 <= i < |q.entries| && verdicts[i].Verified? && u == Placed(q.entries[i], verdicts[i])
    ensures forall i <- verdicts :: 0 <= i < |q.entries| && verdicts[i].Verified? ==>
              Represented(unique, Placed(q.entries[i], verdicts[i])) || Contested(q, verdicts, i)
    ensures Trusted(q, sources, cache) && Learned(q, sources, cache) && (stopped ==> stopping)
  {
    hide AllJustified, Trusted, Learned, OneBySlot, Represented, Contested, Undisputed, FailedIn, Placed;
    var t;
    ghost var g;
    t, stopped, g := Verify(q, stopping);
    verdicts, sources := g.verdicts, g.sources;
    FailedExactlyWhen(q, verdicts, sources);
    unique := UniqueSlots(t.verified);
    failures, skipped, cache := t.failures, t.skipped + (|t.verified| - |unique|), t.cache;
    forall u | u in unique
      ensures exists i <- verdicts ::
                0 <= i < |q.entries| && verdicts[i].Verified? && u == Placed(q.entries[i], verdicts[i])
    {
      var j :| 0 <= j < |t.verified| && t.verified[j] == u;
      assert g.from[j] in verdicts;
    }
    forall i | i in verdicts && 0 <= i < |q.entries| && verdicts[i].Verified?
      ensures Represented(unique, Placed(q.entries[i], verdicts[i])) || Contested(q, verdicts, i)
    {
      SlotOf(q, t, verdicts, g.from, unique, i);
    }
  }

  lemma SlotOf(q: Inquiry, t: Tally, verdicts: Verdicts, from: seq<int>, unique: seq<Candidate>, i: int)
    requires Places(q, t, verdicts, from) && i in verdicts && verdicts[i].Verified?
    requires forall e <- t.verified :: Undisputed(t.verified, e) ==> Represented(unique, e)
    ensures Represented(unique, Placed(q.entries[i], verdicts[i])) || Contested(q, verdicts, i)
  {
    hide Represented;
    var k :| 0 <= k < |from| && from[k] == i;
    var e := t.verified[k];
    assert e in t.verified && e == Placed(q.entries[i], verdicts[i]);
    if !Undisputed(t.verified, e) {
      var o :| o in t.verified && SameSlot(o, e) && o.id != e.id;
      var m :| 0 <= m < |t.verified| && t.verified[m] == o;
      assert from[m] in verdicts && verdicts[from[m]] == verdicts[i];
    }
  }
}
