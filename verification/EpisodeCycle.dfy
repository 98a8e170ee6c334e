/**
 One cycle of the episode archive: read a batch, find the titles and the episodes of its
 entries, save what is verified, and move the cursor only when nothing has to be tried again.
 */
module EpisodeCycle {
  import opened Wrappers
  import opened EpisodeArchive
  import opened EpisodeCursor
  import opened EpisodeIdentity
  import opened EpisodeLine
  import opened Ids
  import opened LocalDatabase
  import opened QueueKeys
  import opened QueueProtocol
  import opened QueueRows
  import opened Titles

  /** What the lookup of an IMDb series says. */
  datatype ParentAnswer = Title(tmdb: int) | NoTitle | ParentError

  const LABEL := "IM"

  function Tenths(score: real): int {
    ((if score > 100.0 then 100.0 else score) * 10.0 + 0.5).Floor
  }

  /** The score a row was written with is the value that is queued, cut off at 100.0. */
  lemma QueuedAsWritten(r: EpisodeLine.Row)
    ensures Tenths(Parsed(r).score) == if r.tenths > 1000 then 1000 else r.tenths
  {
    if r.tenths <= 1000 {
      assert Parsed(r).score * 10.0 + 0.5 == r.tenths as real + 0.5;
    }
  }

  ghost function SlotKey(tmdb: int, e: Candidate): EpisodeKey {
    EpisodeKey(Key(Tv, tmdb), e.season, e.episode, "IM")
  }

  ghost predicate Saveable(e: Candidate) {
    e.season >= 1 && e.episode >= 1 && e.score > 0.0
  }

  /** The row an upsert of this pair leaves. */
  ghost function RowFor(
    before: Table<EpisodeKey, int>, s: (EpisodeKey, int), now: int, rowid: nat): QueueRows.Row<int>
  {
    Stored(before, s.0, s.1, now, rowid)[s.0]
  }

  /** Every saved pair is in the table, with the row one upsert of it leaves. */
  ghost predicate InTable(
    before: Table<EpisodeKey, int>, after: Table<EpisodeKey, int>, saved: set<(EpisodeKey, int)>, now: int,
    rowid: nat)
  {
    forall s <- saved :: s.0 in after && after[s.0] == RowFor(before, s, now, rowid)
  }

  /** The pairs that are new, or changed, or had not got through. */
  ghost function QueuedIn(before: Table<EpisodeKey, int>, saved: set<(EpisodeKey, int)>): set<(EpisodeKey, int)> {
    set s | s in saved && (s.0 in before ==> Requeues(before[s.0], s.1))
  }

  /** No row is gone, and all rows but those of these keys are as they were. */
  ghost predicate Untouched(before: Table<EpisodeKey, int>, after: Table<EpisodeKey, int>, keys: set<EpisodeKey>) {
    && before.Keys <= after.Keys
    && forall k <- after :: k !in keys ==> k in before && after[k] == before[k]
  }

  ghost function KeysIn(saved: set<(EpisodeKey, int)>): set<EpisodeKey> {
    set s | s in saved :: s.0
  }

  type Steps = seq<Step<EpisodeKey, int>>
  type Upserts = set<Step<EpisodeKey, int>>

  /** The log went on with exactly these upserts, and the queue is where they lead. */
  ghost predicate Wrote(
    before: State<EpisodeKey, int>, log: Steps, after: State<EpisodeKey, int>, log': Steps, upserts: Upserts)
  {
    && log <= log' && Went(before, log'[|log|..], after, 0)
    && forall step :: step in log'[|log|..] <==> step in upserts
  }

  lemma WroteNothing(s: State<EpisodeKey, int>, log: Steps)
    ensures Wrote(s, log, s, log, {})
  {}

  lemma WroteOne(
    s: State<EpisodeKey, int>, log: Steps, t: State<EpisodeKey, int>, log': Steps, upserts: Upserts, k: EpisodeKey,
    tenths: int, now: int, rowid: nat)
    requires Wrote(s, log, t, log', upserts)
    ensures var step: Step<EpisodeKey, int> := Upsert(k, tenths, now, rowid);
            Wrote(s, log, Next(t, step), log' + [step], upserts + {step})
  {
    hide Went, Next;
    var step: Step<EpisodeKey, int> := Upsert(k, tenths, now, rowid);
    GoesOn(s, log'[|log|..], t, step, 0);
    assert (log' + [step])[|log|..] == log'[|log|..] + [step];
  }

  lemma WroteMore(
    s: State<EpisodeKey, int>, log: Steps, t: State<EpisodeKey, int>, log': Steps, a: Upserts,
    u: State<EpisodeKey, int>, log'': Steps, b: Upserts)
    requires Wrote(s, log, t, log', a) && Wrote(t, log', u, log'', b)
    ensures Wrote(s, log, u, log'', a + b)
  {
    hide Went;
    RunsJoin(s, log'[|log|..], t, log''[|log'|..], u, 0);
    assert log''[|log|..] == log'[|log|..] + log''[|log'|..];
  }

  /** One upsert for each saved pair. */
  ghost function UpsertsOf(saved: set<(EpisodeKey, int)>, now: int, rowid: nat): Upserts {
    set s | s in saved :: Upsert(s.0, s.1, now, rowid)
  }

  /** What an entry is saved as: its slot, and its score in tenths. */
  ghost function PairFor(tmdb: int, e: Candidate): (EpisodeKey, int) {
    (SlotKey(tmdb, e), Tenths(e.score))
  }

  /** Upserts every entry at its slot, and nothing else; `saved` collects what was stored. */
  method SaveEpisodes(db: Db, tmdb: int, entries: seq<Candidate>, now: int, rowid: nat)
    returns (queued: nat, ghost saved: set<(EpisodeKey, int)>)
    requires OneBySlot(entries)
    modifies db`episodes, db`episodeSteps
    ensures saved == set e | e in entries && Saveable(e) :: PairFor(tmdb, e)
    ensures InTable(old(db.episodes.rows), db.episodes.rows, saved, now, rowid)
    ensures Untouched(old(db.episodes.rows), db.episodes.rows, KeysIn(saved))
    ensures queued == |QueuedIn(old(db.episodes.rows), saved)|
    ensures Wrote(
              old(db.episodes), old(db.episodeSteps), db.episodes, db.episodeSteps, UpsertsOf(saved, now, rowid))
  {
    hide Tenths, InTable, Untouched, Saveable, QueuedIn, Wrote, Next;
    ghost var first := db.episodes.rows;
    WroteNothing(db.episodes, db.episodeSteps);
    queued, saved := 0, {};
    NothingInTable(first, now, rowid);
    for i := 0 to |entries|
      invariant saved == set e | e in entries[..i] && Saveable(e) :: PairFor(tmdb, e)
      invariant InTable(first, db.episodes.rows, saved, now, rowid)
      invariant Untouched(first, db.episodes.rows, KeysIn(saved)) && queued == |QueuedIn(first, saved)|
      invariant Wrote(
                  old(db.episodes), old(db.episodeSteps), db.episodes, db.episodeSteps, UpsertsOf(saved, now, rowid))
    {
      var e := entries[i];
      assert entries[..i + 1] == entries[..i] + [e];
      SaveableMeans(e);
      if !(e.season < 1 || e.episode < 1 || e.score <= 0.0) {
        NewSlot(tmdb, entries, i);
        ghost var before := db.episodes.rows;
        WroteOne(
          old(db.episodes), old(db.episodeSteps), db.episodes, db.episodeSteps, UpsertsOf(saved, now, rowid),
          SlotKey(tmdb, e), Tenths(e.score), now, rowid);
        OneMoreUpsert(saved, PairFor(tmdb, e), now, rowid);
        var added := SaveEpisode(
          db, EpisodeKey(Key(Tv, tmdb), e.season, e.episode, LABEL), Tenths(e.score), now, rowid, first, saved);
        OneMoreTouched(first, before, db.episodes.rows, saved, PairFor(tmdb, e));
        saved := saved + {PairFor(tmdb, e)};
        queued := queued + if added then 1 else 0;
      }
    }
    assert entries[..|entries|] == entries;
  }

  lemma SaveableMeans(e: Candidate)
    ensures Saveable(e) <==> !(e.season < 1 || e.episode < 1 || e.score <= 0.0)
  {}

  lemma OneMoreUpsert(saved: set<(EpisodeKey, int)>, s: (EpisodeKey, int), now: int, rowid: nat)
    ensures UpsertsOf(saved + {s}, now, rowid) == UpsertsOf(saved, now, rowid) + {Upsert(s.0, s.1, now, rowid)}
  {}

  lemma NewSlot(tmdb: int, entries: seq<Candidate>, i: nat)
    requires OneBySlot(entries) && i < |entries|
    ensures forall e <- entries[..i] :: SlotKey(tmdb, e) != SlotKey(tmdb, entries[i])
  {
    forall e | e in entries[..i]
      ensures SlotKey(tmdb, e) != SlotKey(tmdb, entries[i])
    {
      var j :| 0 <= j < i && entries[j] == e;
      assert !SameSlot(entries[j], entries[i]);
    }
  }

  lemma OneMoreTouched(
    first: Table<EpisodeKey, int>, before: Table<EpisodeKey, int>, after: Table<EpisodeKey, int>,
    saved: set<(EpisodeKey, int)>, pair: (EpisodeKey, int))
    requires Untouched(first, before, KeysIn(saved)) && after.Keys == before.Keys + {pair.0}
    requires forall j <- before :: j != pair.0 ==> after[j] == before[j]
    ensures Untouched(first, after, KeysIn(saved + {pair}))
  {
    assert KeysIn(saved + {pair}) == KeysIn(saved) + {pair.0};
  }

  lemma NothingInTable(rows: Table<EpisodeKey, int>, now: int, rowid: nat)
    ensures InTable(rows, rows, {}, now, rowid) && Untouched(rows, rows, KeysIn({})) && QueuedIn(rows, {}) == {}
    ensures UpsertsOf({}, now, rowid) == {}
  {}

  method SaveEpisode(
    db: Db, k: EpisodeKey, tenths: int, now: int, rowid: nat, ghost first: Table<EpisodeKey, int>,
    ghost saved: set<(EpisodeKey, int)>)
    returns (added: bool)
    requires InTable(first, db.episodes.rows, saved, now, rowid) && forall s <- saved :: s.0 != k
    requires Untouched(first, db.episodes.rows, KeysIn(saved))
    modifies db`episodes, db`episodeSteps
    ensures InTable(first, db.episodes.rows, saved + {(k, tenths)}, now, rowid)
    ensures |QueuedIn(first, saved + {(k, tenths)})| == |QueuedIn(first, saved)| + if added then 1 else 0
    ensures db.episodes.rows.Keys == old(db.episodes.rows).Keys + {k}
    ensures forall j <- old(db.episodes.rows) :: j != k ==> db.episodes.rows[j] == old(db.episodes.rows)[j]
    ensures db.episodes == Next(old(db.episodes), Upsert(k, tenths, now, rowid))
    ensures db.episodeSteps == old(db.episodeSteps) + [Upsert(k, tenths, now, rowid)]
  {
    hide InTable, QueuedIn, Stored, Requeues, Untouched, Next;
    ghost var before := db.episodes.rows;
    OneMoreRow(first, before, saved, k, tenths, now, rowid);
    added := db.UpsertEpisode(k, tenths, now, rowid);
    OneMoreQueued(first, saved, (k, tenths));
  }

  lemma OneMoreRow(
    first: Table<EpisodeKey, int>, before: Table<EpisodeKey, int>, saved: set<(EpisodeKey, int)>, k: EpisodeKey,
    tenths: int, now: int, rowid: nat)
    requires InTable(first, before, saved, now, rowid) && (forall s <- saved :: s.0 != k)
    requires Untouched(first, before, KeysIn(saved))
    ensures k in before <==> k in first
    ensures k in before ==> before[k] == first[k]
    ensures var after := Stored(before, k, tenths, now, rowid);
            && InTable(first, after, saved + {(k, tenths)}, now, rowid) && after.Keys == before.Keys + {k}
            && forall j <- before :: j != k ==> after[j] == before[j]
  {
    hide Requeues, Upserted, Fresh;
    assert k !in KeysIn(saved);
  }

  lemma OneMoreQueued(first: Table<EpisodeKey, int>, saved: set<(EpisodeKey, int)>, s: (EpisodeKey, int))
    requires forall other <- saved :: other.0 != s.0
    ensures |QueuedIn(first, saved + {s})|
            == |QueuedIn(first, saved)| + if s.0 in first ==> Requeues(first[s.0], s.1) then 1 else 0
  {
    hide Requeues;
    if s.0 in first ==> Requeues(first[s.0], s.1) {
      assert QueuedIn(first, saved + {s}) == QueuedIn(first, saved) + {s};
    } else {
      assert QueuedIn(first, saved + {s}) == QueuedIn(first, saved);
    }
  }

  ghost predicate InNormalForm(ids: set<string>) {
    forall id <- ids :: NormalizedImdb(id) == Some(id)
  }

  /** Looks up all parents, in any order; a stop leaves some out. */
  method MapParents(parents: set<string>, answers: string -> ParentAnswer, stopping: bool)
    returns (mapped: map<string, int>, errors: nat, missing: nat, stopped: bool)
    requires InNormalForm(parents)
    ensures (stopped ==> stopping) && forall p <- mapped :: p in parents && answers(p) == Title(mapped[p])
    ensures |mapped| + errors + missing <= |parents|
    ensures !stopped ==> mapped.Keys == Titled(parents, answers)
    ensures !stopped ==> errors == |Failing(parents, answers)|
    ensures !stopped ==> missing == |Untitled(parents, answers)|
  {
    mapped, errors, missing, stopped := map[], 0, 0, false;
    var left := parents;
    ghost var done: set<string> := {};
    NothingTallied(answers);
    hide Tallied, Titled, Untitled, Failing, InNormalForm;
    while left != {}
      invariant done + left == parents && done !! left && Tallied(done, answers, mapped, errors, missing)
      invariant !stopped
      decreases left
    {
      stopped := Noticed(stopping);
      if stopped {
        break;
      }
      var p :| p in left;
      mapped, errors, missing := MapParent(p, answers, mapped, errors, missing, done);
      OneMoreDone(parents, done, left, p);
      left, done := left - {p}, done + {p};
    }
    AnswersOf(done, parents, answers, mapped, errors, missing);
    assert !stopped ==> done == parents;
  }

  lemma OneMoreDone(parents: set<string>, done: set<string>, left: set<string>, p: string)
    requires done + left == parents && done !! left && p in left
    ensures (done + {p}) + (left - {p}) == parents && done + {p} !! left - {p} && left - {p} < left
  {}

  method MapParent(
    p: string, answers: string -> ParentAnswer, mapped: map<string, int>, errors: nat, missing: nat,
    ghost done: set<string>)
    returns (mapped': map<string, int>, errors': nat, missing': nat)
    requires Tallied(done, answers, mapped, errors, missing) && p !in done
    ensures Tallied(done + {p}, answers, mapped', errors', missing')
  {
    OneMoreTallied(done, p, answers, mapped, errors, missing);
    hide Tallied;
    mapped', errors', missing' := mapped, errors, missing;
    match answers(p)
    case Title(tmdb) => mapped' := mapped[p := tmdb];
    case NoTitle => missing' := missing + 1;
    case ParentError => errors' := errors + 1;
  }

  /** The counts after these parents have been looked up. */
  ghost predicate Tallied(
    done: set<string>, answers: string -> ParentAnswer, mapped: map<string, int>, errors: nat, missing: nat)
  {
    && mapped.Keys == Titled(done, answers) && (forall p <- mapped :: answers(p) == Title(mapped[p]))
    && errors == |Failing(done, answers)| && missing == |Untitled(done, answers)|
  }

  lemma NothingTallied(answers: string -> ParentAnswer)
    ensures Tallied({}, answers, map[], 0, 0)
  {}

  lemma OneMoreTallied(
    done: set<string>, p: string, answers: string -> ParentAnswer, mapped: map<string, int>, errors: nat, missing: nat)
    requires Tallied(done, answers, mapped, errors, missing) && p !in done
    ensures answers(p).Title? ==> Tallied(done + {p}, answers, mapped[p := answers(p).tmdb], errors, missing)
    ensures answers(p).NoTitle? ==> Tallied(done + {p}, answers, mapped, errors, missing + 1)
    ensures answers(p).ParentError? ==> Tallied(done + {p}, answers, mapped, errors + 1, missing)
  {
    OneMoreAnswer(done, p, answers);
    hide Titled, Untitled, Failing;
    if answers(p).Title? {
      OneMoreKey(mapped, p, answers(p).tmdb);
    }
  }

  lemma OneMoreKey(mapped: map<string, int>, p: string, tmdb: int)
    ensures mapped[p := tmdb].Keys == mapped.Keys + {p}
  {}

  lemma AnswersOf(
    done: set<string>, parents: set<string>, answers: string -> ParentAnswer, mapped: map<string, int>, errors: nat,
    missing: nat)
    requires Tallied(done, answers, mapped, errors, missing) && done <= parents
    ensures mapped.Keys == Titled(done, answers)
            && (forall p <- mapped :: p in parents && answers(p) == Title(mapped[p]))
    ensures errors == |Failing(done, answers)| && missing == |Untitled(done, answers)|
    ensures |mapped| + errors + missing <= |parents|
  {
    EachAnswersOnce(done, answers);
    assert parents == done + (parents - done);
    hide Failing, Untitled;
    assert |mapped| == |mapped.Keys|;
  }

  lemma EachAnswersOnce(done: set<string>, answers: string -> ParentAnswer)
    ensures |Titled(done, answers)| + |Failing(done, answers)| + |Untitled(done, answers)| == |done|
  {
    var titled, failing, untitled := Titled(done, answers), Failing(done, answers), Untitled(done, answers);
    assert done == titled + (failing + untitled);
  }

  ghost function Titled(parents: set<string>, answers: string -> ParentAnswer): set<string> {
    set p | p in parents && answers(p).Title?
  }

  ghost function Untitled(parents: set<string>, answers: string -> ParentAnswer): set<string> {
    set p | p in parents && answers(p).NoTitle?
  }

  ghost function Failing(parents: set<string>, answers: string -> ParentAnswer): set<string> {
    set p | p in parents && answers(p).ParentError?
  }

  lemma OneMoreAnswer(parents: set<string>, p: string, answers: string -> ParentAnswer)
    requires p !in parents
    ensures Titled(parents + {p}, answers)
            == if answers(p).Title? then Titled(parents, answers) + {p} else Titled(parents, answers)
    ensures |Untitled(parents + {p}, answers)| == |Untitled(parents, answers)| + if answers(p).NoTitle? then 1 else 0
    ensures |Failing(parents + {p}, answers)| == |Failing(parents, answers)| + if answers(p).ParentError? then 1 else 0
  {
    match answers(p)
    case Title(_) =>
      assert Untitled(parents + {p}, answers) == Untitled(parents, answers);
      assert Failing(parents + {p}, answers) == Failing(parents, answers);
    case NoTitle =>
      assert Untitled(parents + {p}, answers) == Untitled(parents, answers) + {p};
      assert Failing(parents + {p}, answers) == Failing(parents, answers);
    case ParentError =>
      assert Untitled(parents + {p}, answers) == Untitled(parents, answers);
      assert Failing(parents + {p}, answers) == Failing(parents, answers) + {p};
  }

  /** The entries of one title, in order. */
  function Group(batch: seq<Candidate>, parent: string): (group: seq<Candidate>)
    ensures forall e :: e in group <==> e in batch && e.parent == parent
  {
    if batch == [] then []
    else
      var last := batch[|batch| - 1];
      Group(batch[..|batch| - 1], parent) + if last.parent == parent then [last] else []
  }

  /** What became of the entries of one title: the inquiry, the verdict on each with its source, and what was saved. */
  datatype Outcome = Outcome(inquiry: Inquiry, verdicts: Verdicts, sources: Sources, saved: set<(EpisodeKey, int)>)

  /** What the entry at position `j` is saved as, once its verdict has placed it. */
  ghost function PairOf(o: Outcome, j: int): (EpisodeKey, int)
    requires 0 <= j < |o.inquiry.entries| && j in o.verdicts
  {
    PairFor(o.inquiry.tmdb, Placed(o.inquiry.entries[j], o.verdicts[j]))
  }

  /** Only entries whose source names an episode of this title are saved, at the place it names. */
  ghost predicate Sourced(o: Outcome) {
    forall s <- o.saved :: exists j <- o.verdicts ::
      && 0 <= j < |o.inquiry.entries| && o.inquiry.Explained(o.sources, j)
      && o.inquiry.Names(j, o.sources[j], s.0.season, s.0.episode)
      && o.verdicts[j] == Verified(s.0.season, s.0.episode) && s == PairOf(o, j)
  }

  /**
   The entry at position `i` is definitively rejected, or it contests its slot with another episode,
   or it is saved: itself, or another row of the archive for the same episode at the same place.
   */
  ghost predicate Handled(o: Outcome, i: int) {
    && 0 <= i < |o.inquiry.entries| && i in o.verdicts && o.inquiry.Explained(o.sources, i)
    && o.inquiry.Fits(i, o.sources[i], o.verdicts[i])
    && match o.verdicts[i]
       case LookupFailed => false
       case Rejected => true
       case Verified(season, episode) =>
         || Contested(o.inquiry, o.verdicts, i)
         || exists j <- o.verdicts ::
              && 0 <= j < |o.inquiry.entries| && o.inquiry.entries[j].id == o.inquiry.entries[i].id
              && o.verdicts[j] == o.verdicts[i] && PairOf(o, j) in o.saved
  }

  /** An entry needs no further try: its series has no title, or it was handled within its title. */
  ghost predicate Settled(
    e: Candidate, batch: seq<Candidate>, answers: string -> ParentAnswer, outcomes: map<string, Outcome>)
  {
    match answers(e.parent)
    case NoTitle => true
    case ParentError => false
    case Title(tmdb) =>
      && e.parent in outcomes
      && outcomes[e.parent].inquiry.entries == Group(batch, e.parent) && outcomes[e.parent].inquiry.tmdb == tmdb
      && exists i :: Handled(outcomes[e.parent], i) && outcomes[e.parent].inquiry.entries[i] == e
  }

  /** The outcome is about these entries and answers, every verdict has its source, and the cache is carried over. */
  ghost predicate Accounts(
    o: Outcome, group: seq<Candidate>, tmdb: int, before: Cache, lookup: int -> FindAnswer, after: Cache)
  {
    && o.inquiry == Inquiry(group, tmdb, before, lookup)
    && AllJustified(o.inquiry, o.verdicts, o.sources)
    && Trusted(o.inquiry, o.sources, after) && Learned(o.inquiry, o.sources, after)
  }

  /** Some lookup of the title failed for a passing reason. */
  ghost predicate Failed(o: Outcome) {
    exists i <- o.sources :: o.inquiry.Fails(i, o.sources[i])
  }

  /** Every entry is handled, unless its own lookup failed for a passing reason. */
  ghost predicate AllTried(o: Outcome) {
    forall i :: 0 <= i < |o.inquiry.entries| ==> i in o.sources && (Handled(o, i) || o.inquiry.Fails(i, o.sources[i]))
  }

  /** Verifies and saves the entries of one title; each of them is handled, unless its own lookup failed. */
  method HandleTitle(
    db: Db, batch: seq<Candidate>, parent: string, tmdb: int, cache: Cache, lookup: int -> FindAnswer, now: int,
    rowid: nat, stopping: bool)
    returns (failures: nat, newCache: Cache, stopped: bool, ghost outcome: Outcome)
    requires Wholesome(cache) && forall e <- batch :: e.score > 0.0
    modifies db`episodes, db`episodeSteps
    ensures Wholesome(newCache) && Accounts(outcome, Group(batch, parent), tmdb, cache, lookup, newCache)
    ensures failures == |FailedIn(outcome.verdicts)| && (failures == 0 <==> !Failed(outcome))
    ensures !stopped ==> AllTried(outcome)
    ensures InTable(old(db.episodes.rows), db.episodes.rows, outcome.saved, now, rowid)
    ensures Sourced(outcome) && forall s <- outcome.saved :: s.0.title == Key(Tv, tmdb)
    ensures Untouched(old(db.episodes.rows), db.episodes.rows, KeysIn(outcome.saved))
    ensures Wrote(
              old(db.episodes), old(db.episodeSteps), db.episodes, db.episodeSteps,
              UpsertsOf(outcome.saved, now, rowid))
    ensures stopped ==> stopping && outcome.saved == {}
  {
    var q := Inquiry(Group(batch, parent), tmdb, cache, lookup);
    hide Inquiry.Explained, Inquiry.Fits, Inquiry.Fails, Trusted, Learned, Inquiry.Backed, Handled, Wholesome;
    hide Contested, Sourced, Untouched, InTable, Wrote, AllTried;
    WroteNothing(db.episodes, db.episodeSteps);
    var unique, skipped;
    ghost var verdicts, sources;
    unique, failures, skipped, newCache, stopped, verdicts, sources := VerifyEpisodeIdentities(q, stopping);
    WholesomeKept(q, sources, newCache);
    outcome := Outcome(q, verdicts, sources, {});
    NothingSaved(db.episodes.rows, outcome, now, rowid);
    var stop := Noticed(stopping);
    stopped := stopped || stop;
    if stopped {
      return;
    }
    var queued;
    ghost var saved;
    queued, saved := SaveEpisodes(db, tmdb, unique, now, rowid);
    outcome := Outcome(q, verdicts, sources, saved);
    SavedIsSourced(outcome, unique);
    assert AllTried(outcome) by {
      EntriesTried(q, verdicts, sources, unique, saved);
    }
  }

  lemma NothingSaved(rows: Table<EpisodeKey, int>, o: Outcome, now: int, rowid: nat)
    requires o.saved == {}
    ensures Sourced(o) && InTable(rows, rows, o.saved, now, rowid) && Untouched(rows, rows, KeysIn(o.saved))
    ensures UpsertsOf(o.saved, now, rowid) == {}
  {}

  lemma SavedIsSourced(o: Outcome, unique: seq<Candidate>)
    requires AllJustified(o.inquiry, o.verdicts, o.sources)
    requires forall u <- unique ::
               exists j <- o.verdicts ::
                 0 <= j < |o.inquiry.entries| && o.verdicts[j].Verified?
                   && u == Placed(o.inquiry.entries[j], o.verdicts[j])
    requires o.saved == set e | e in unique && Saveable(e) :: PairFor(o.inquiry.tmdb, e)
    ensures Sourced(o) && forall s <- o.saved :: s.0.title == Key(Tv, o.inquiry.tmdb)
  {
    hide Tenths, Inquiry.Explained, Inquiry.Names;
    forall s | s in o.saved
      ensures exists j <- o.verdicts ::
                && 0 <= j < |o.inquiry.entries| && o.inquiry.Explained(o.sources, j)
                && o.inquiry.Names(j, o.sources[j], s.0.season, s.0.episode)
                && o.verdicts[j] == Verified(s.0.season, s.0.episode) && s == PairOf(o, j)
    {
      var u :| u in unique && s == PairFor(o.inquiry.tmdb, u);
      var j :| j in o.verdicts && 0 <= j < |o.inquiry.entries| && o.verdicts[j].Verified?
               && u == Placed(o.inquiry.entries[j], o.verdicts[j]);
      assert o.inquiry.Fits(j, o.sources[j], o.verdicts[j]);
    }
  }

  lemma EntriesTried(
    q: Inquiry, verdicts: Verdicts, sources: Sources, unique: seq<Candidate>, saved: set<(EpisodeKey, int)>)
    requires Wholesome(q.cached) && AllJustified(q, verdicts, sources)
    requires forall i :: 0 <= i < |q.entries| ==> i in verdicts
    requires forall u <- unique ::
               exists j <- verdicts ::
                 0 <= j < |q.entries| && verdicts[j].Verified? && u == Placed(q.entries[j], verdicts[j])
    requires forall i :: 0 <= i < |q.entries| && verdicts[i].Verified? ==>
               Represented(unique, Placed(q.entries[i], verdicts[i])) || Contested(q, verdicts, i)
    requires saved == set e | e in unique && Saveable(e) :: PairFor(q.tmdb, e)
    requires forall e <- q.entries :: e.score > 0.0
    ensures AllTried(Outcome(q, verdicts, sources, saved))
  {
    hide AllJustified, Wholesome, Handled, Inquiry.Fails, Represented, Contested, Placed, Saveable, PairFor;
    forall i | 0 <= i < |q.entries|
      ensures i in sources && (Handled(Outcome(q, verdicts, sources, saved), i) || q.Fails(i, sources[i]))
    {
      EntryHandled(q, verdicts, sources, unique, saved, i);
    }
  }

  lemma EntryHandled(
    q: Inquiry, verdicts: Verdicts, sources: Sources, unique: seq<Candidate>, saved: set<(EpisodeKey, int)>, i: int)
    requires Wholesome(q.cached) && 0 <= i < |q.entries| && i in verdicts && AllJustified(q, verdicts, sources)
    requires forall u <- unique ::
               exists j <- verdicts ::
                 0 <= j < |q.entries| && verdicts[j].Verified? && u == Placed(q.entries[j], verdicts[j])
    requires verdicts[i].Verified? ==>
               Represented(unique, Placed(q.entries[i], verdicts[i])) || Contested(q, verdicts, i)
    requires saved == set e | e in unique && Saveable(e) :: PairFor(q.tmdb, e)
    requires forall e <- q.entries :: e.score > 0.0
    ensures i in sources && (Handled(Outcome(q, verdicts, sources, saved), i) || q.Fails(i, sources[i]))
  {
    FailedFails(q, verdicts, sources, i);
    hide Inquiry.Explained, Inquiry.Fits, Inquiry.Fails, Contested, Wholesome, Tenths;
    if verdicts[i].Verified? && !Contested(q, verdicts, i) {
      var u :| u in unique && SameSlot(u, Placed(q.entries[i], verdicts[i]))
          && u.id == Placed(q.entries[i], verdicts[i]).id;
      var j :| j in verdicts && 0 <= j < |q.entries| && verdicts[j].Verified? && u == Placed(q.entries[j], verdicts[j]);
      VerifiedIsPositive(q, verdicts, sources, j);
      assert Saveable(u) && u.id == q.entries[i].id && verdicts[j] == verdicts[i];
      assert PairOf(Outcome(q, verdicts, sources, saved), j) in saved;
    }
  }

  lemma FailedFails(q: Inquiry, verdicts: Verdicts, sources: Sources, i: int)
    requires AllJustified(q, verdicts, sources) && i in verdicts
    ensures i in sources && (verdicts[i].LookupFailed? ==> q.Fails(i, sources[i]))
  {
    hide Inquiry.Backed, Inquiry.HasId, EpisodeCoordinates;
    assert q.Explained(sources, i);
  }

  ghost predicate Positive(c: Coordinates) {
    c.show > 0 && c.season >= 1 && c.episode >= 1
  }

  /** The cache only knows coordinates as TMDB gives them. */
  ghost predicate Wholesome(cache: Cache) {
    forall id <- cache :: cache[id].payload.Some? ==> Positive(cache[id].payload.value)
  }

  lemma BackedIsPositive(q: Inquiry, sources: Sources, id: string, row: CacheRow)
    requires Wholesome(q.cached) && q.Backed(sources, id, row) && row.payload.Some?
    ensures Positive(row.payload.value)
  {}

  lemma WholesomeKept(q: Inquiry, sources: Sources, cache: Cache)
    requires Wholesome(q.cached) && Trusted(q, sources, cache)
    ensures Wholesome(cache)
  {
    forall id | id in cache && cache[id].payload.Some?
      ensures Positive(cache[id].payload.value)
    {
      BackedIsPositive(q, sources, id, cache[id]);
    }
  }

  lemma VerifiedIsPositive(q: Inquiry, verdicts: Verdicts, sources: Sources, j: int)
    requires Wholesome(q.cached) && AllJustified(q, verdicts, sources) && j in verdicts && verdicts[j].Verified?
    ensures verdicts[j].season >= 1 && verdicts[j].episode >= 1
  {
    hide Inquiry.Backed, Wholesome, NormalizedImdb;
    assert q.Explained(sources, j);
    if sources[j].Cached? {
      var id :| q.HasId(j, id) && q.Backed(sources, id, sources[j].row);
      BackedIsPositive(q, sources, id, sources[j].row);
    }
  }

  // ---------- the cycle ----------

  /** What the reader delivers always has series ids in normal form and a positive score. */
  lemma ParsedIsClean(line: string)
    requires ParseLine(line).Some?
    ensures var e := ParseLine(line).value; NormalizedImdb(e.parent) == Some(e.parent) && e.score > 0.0
  {
    hide Split, ParseInt, ParseDecimal, Trim, ImdbTitleId, NormalizedImdb;
    NormalizingIsStable(ParseLine(line).value.parent);
  }

  lemma {:induction false} DeliveredIsClean(content: string, from: nat, to: nat)
    requires Reaches(content, from, to)
    ensures forall e <- EntriesBetween(content, from, to) :: NormalizedImdb(e.parent) == Some(e.parent) && e.score > 0.0
    decreases |content| - from
  {
    hide LineEnd, ParseLine, NormalizedImdb, TextEnd;
    if from != to {
      Unroll(content, from, to);
      DeliveredIsClean(content, LineEnd(content, from), to);
      if EntryAt(content, from).Some? {
        ParsedIsClean(content[from..TextEnd(content, from)]);
      }
    }
  }

  ghost predicate Clean(batch: seq<Candidate>) {
    forall e <- batch :: NormalizedImdb(e.parent) == Some(e.parent) && e.score > 0.0
  }

  /** The row was in the cache at first, or is what an answer for the id left there in one of these lookups. */
  ghost predicate Known(first: Cache, outcomes: map<string, Outcome>, id: string, row: CacheRow) {
    || (id in first && row == first[id])
    || exists p <- outcomes, j <- outcomes[p].sources ::
         && outcomes[p].sources[j].Asked? && outcomes[p].inquiry.HasId(j, id)
         && row == Remembered(outcomes[p].inquiry.answer(j), outcomes[p].sources[j].at)
  }

  ghost predicate AllKnown(first: Cache, outcomes: map<string, Outcome>, cache: Cache) {
    forall id <- cache :: Known(first, outcomes, id, cache[id])
  }

  /**
   The titles handled so far, each with the outcome of its own entries and answers: every
   verdict has its source, and a cache row used was there at first or is an answer of this cycle.
   */
  ghost predicate Recorded(
    batch: seq<Candidate>, mapped: map<string, int>, left: set<string>, first: Cache,
    lookups: string -> int -> FindAnswer, outcomes: map<string, Outcome>)
  {
    && outcomes.Keys == mapped.Keys - left
    && forall p <- outcomes ::
         && p in mapped && outcomes[p].inquiry.entries == Group(batch, p) && outcomes[p].inquiry.tmdb == mapped[p]
         && outcomes[p].inquiry.answer == lookups(p) && AllKnown(first, outcomes, outcomes[p].inquiry.cached)
         && AllJustified(outcomes[p].inquiry, outcomes[p].verdicts, outcomes[p].sources) && AllTried(outcomes[p])
  }

  ghost predicate NoFailure(outcomes: map<string, Outcome>) {
    forall p <- outcomes :: !Failed(outcomes[p])
  }

  /** No other series is mapped to the same title. */
  ghost predicate OnlyOne(outcomes: map<string, Outcome>, p: string)
    requires p in outcomes
  {
    forall r <- outcomes :: outcomes[r].inquiry.tmdb == outcomes[p].inquiry.tmdb ==> r == p
  }

  /**
   Everything saved is in the table, with the row one upsert leaves unless another series has the
   same title, and only verified entries were saved.
   */
  ghost predicate AllInTable(
    before: Table<EpisodeKey, int>, after: Table<EpisodeKey, int>, outcomes: map<string, Outcome>, now: int,
    rowid: nat)
  {
    && (forall p <- outcomes :: Sourced(outcomes[p]))
    && forall p <- outcomes, s <- outcomes[p].saved ::
         && s.0.title == Key(Tv, outcomes[p].inquiry.tmdb) && s.0 in after
         && (OnlyOne(outcomes, p) ==> after[s.0] == RowFor(before, s, now, rowid))
  }

  ghost function AllKeys(outcomes: map<string, Outcome>): set<EpisodeKey> {
    set p, s | p in outcomes && s in outcomes[p].saved :: s.0
  }

  ghost function AllUpserts(outcomes: map<string, Outcome>, now: int, rowid: nat): Upserts {
    set p, s | p in outcomes && s in outcomes[p].saved :: Upsert(s.0, s.1, now, rowid)
  }

  lemma MoreUpserts(outcomes: map<string, Outcome>, p: string, o: Outcome, now: int, rowid: nat)
    requires p !in outcomes
    ensures AllUpserts(outcomes[p := o], now, rowid)
            == AllUpserts(outcomes, now, rowid) + UpsertsOf(o.saved, now, rowid)
  {
    var more := outcomes[p := o];
    assert forall r <- outcomes :: more[r] == outcomes[r];
    forall step | step in AllUpserts(outcomes, now, rowid)
      ensures step in AllUpserts(more, now, rowid)
    {
      var r, s :| r in outcomes && s in outcomes[r].saved && step == Upsert(s.0, s.1, now, rowid);
      assert r in more && s in more[r].saved;
    }
    forall step | step in UpsertsOf(o.saved, now, rowid)
      ensures step in AllUpserts(more, now, rowid)
    {
      var s :| s in o.saved && step == Upsert(s.0, s.1, now, rowid);
      assert p in more && s in more[p].saved;
    }
  }

  /** Handles the mapped titles one after the other; a stop leaves some out. */
  method HandleTitles(
    db: Db, batch: seq<Candidate>, mapped: map<string, int>, cache: Cache, lookups: string -> int -> FindAnswer,
    now: int, rowid: nat, stopping: bool)
    returns (retry: bool, newCache: Cache, stopped: bool, ghost outcomes: map<string, Outcome>)
    requires Wholesome(cache) && Clean(batch)
    modifies db`episodes, db`episodeSteps
    ensures Wholesome(newCache) && AllKnown(cache, outcomes, newCache) && cache.Keys <= newCache.Keys
    ensures stopped ==> stopping
    ensures !stopped ==> Recorded(batch, mapped, {}, cache, lookups, outcomes) && (retry <==> !NoFailure(outcomes))
    ensures AllInTable(old(db.episodes.rows), db.episodes.rows, outcomes, now, rowid)
    ensures Untouched(old(db.episodes.rows), db.episodes.rows, AllKeys(outcomes))
    ensures Wrote(
              old(db.episodes), old(db.episodeSteps), db.episodes, db.episodeSteps, AllUpserts(outcomes, now, rowid))
  {
    hide Handled, Failed, FailedIn, Wholesome, Group, NormalizedImdb, Known, AllJustified, InTable, Trusted, Sourced;
    hide AllInTable, Untouched, AllKnown, AllTried, Recorded, NoFailure, Learned, Wrote, AllUpserts, UpsertsOf;
    WroteNothing(db.episodes, db.episodeSteps);
    ghost var first := db.episodes.rows;
    retry, newCache, stopped, outcomes := false, cache, false, map[];
    KnownAtFirst(cache);
    NoTitlesYet(first, batch, mapped, cache, lookups, now, rowid);
    var left := mapped.Keys;
    while left != {} && !stopped
      invariant left <= mapped.Keys && Wholesome(newCache) && AllKnown(cache, outcomes, newCache)
      invariant cache.Keys <= newCache.Keys && outcomes.Keys !! left && (stopped ==> stopping)
      invariant AllInTable(first, db.episodes.rows, outcomes, now, rowid)
      invariant Untouched(first, db.episodes.rows, AllKeys(outcomes))
      invariant Wrote(
                  old(db.episodes), old(db.episodeSteps), db.episodes, db.episodeSteps,
                  AllUpserts(outcomes, now, rowid))
      invariant !stopped ==>
                  Recorded(batch, mapped, left, cache, lookups, outcomes) && (retry <==> !NoFailure(outcomes))
      decreases left, !stopped
    {
      stopped := Noticed(stopping);
      if stopped {
        break;
      }
      var p :| p in left;
      var failures;
      ghost var outcome, before, rows, s, log := *, newCache, db.episodes.rows, db.episodes, db.episodeSteps;
      failures, newCache, stopped, outcome :=
        HandleTitle(db, batch, p, mapped[p], newCache, lookups(p), now, rowid, stopping);
      retry := retry || failures > 0;
      NoRowIsLost(outcome, newCache);
      OneMoreKnown(cache, outcomes, p, outcome, before, newCache);
      WroteMore(
        old(db.episodes), old(db.episodeSteps), s, log, AllUpserts(outcomes, now, rowid), db.episodes,
        db.episodeSteps, UpsertsOf(outcome.saved, now, rowid));
      MoreUpserts(outcomes, p, outcome, now, rowid);
      OneMoreInTable(first, rows, db.episodes.rows, outcomes, p, outcome, now, rowid);
      OneMoreUntouched(first, rows, db.episodes.rows, outcomes, p, outcome);
      if !stopped {
        OneMoreTitleHandled(batch, mapped, left, cache, lookups, outcomes, p, outcome);
      }
      outcomes := outcomes[p := outcome];
      left := left - {p};
    }
  }

  lemma KnownAtFirst(cache: Cache)
    ensures AllKnown(cache, map[], cache)
  {}

  lemma NoRowIsLost(o: Outcome, cache: Cache)
    requires Learned(o.inquiry, o.sources, cache)
    ensures o.inquiry.cached.Keys <= cache.Keys
  {}

  lemma NoTitlesYet(
    rows: Table<EpisodeKey, int>, batch: seq<Candidate>, mapped: map<string, int>, cache: Cache,
    lookups: string -> int -> FindAnswer, now: int, rowid: nat)
    ensures Recorded(batch, mapped, mapped.Keys, cache, lookups, map[]) && NoFailure(map[])
    ensures AllInTable(rows, rows, map[], now, rowid) && Untouched(rows, rows, AllKeys(map[]))
    ensures AllUpserts(map[], now, rowid) == {}
  {}

  lemma OneMoreUntouched(
    first: Table<EpisodeKey, int>, before: Table<EpisodeKey, int>, after: Table<EpisodeKey, int>,
    outcomes: map<string, Outcome>, p: string, o: Outcome)
    requires p !in outcomes
    requires Untouched(first, before, AllKeys(outcomes)) && Untouched(before, after, KeysIn(o.saved))
    ensures Untouched(first, after, AllKeys(outcomes[p := o]))
  {
    var more := outcomes[p := o];
    assert forall r <- outcomes :: more[r] == outcomes[r];
    forall k | k in AllKeys(outcomes)
      ensures k in AllKeys(more)
    {
      var r, s :| r in outcomes && s in outcomes[r].saved && s.0 == k;
      assert r in more && s in more[r].saved;
    }
    forall k | k in KeysIn(o.saved)
      ensures k in AllKeys(more)
    {
      var s :| s in o.saved && s.0 == k;
      assert p in more && s in more[p].saved;
    }
  }

  lemma KnownStays(first: Cache, outcomes: map<string, Outcome>, p: string, o: Outcome)
    requires p !in outcomes
    ensures forall id, row :: Known(first, outcomes, id, row) ==> Known(first, outcomes[p := o], id, row)
  {
    hide Inquiry.HasId, Remembered;
    var more := outcomes[p := o];
    assert forall r <- outcomes :: r in more && more[r] == outcomes[r];
  }

  lemma OneMoreKnown(
    first: Cache, outcomes: map<string, Outcome>, p: string, o: Outcome, before: Cache, after: Cache)
    requires p !in outcomes && AllKnown(first, outcomes, before)
    requires o.inquiry.cached == before && Trusted(o.inquiry, o.sources, after)
    ensures AllKnown(first, outcomes[p := o], before) && AllKnown(first, outcomes[p := o], after)
  {
    hide Inquiry.HasId, Remembered;
    KnownStays(first, outcomes, p, o);
    forall id | id in after
      ensures Known(first, outcomes[p := o], id, after[id])
    {
      assert o.inquiry.Backed(o.sources, id, after[id]);
      if !(id in before && after[id] == before[id]) {
        assert outcomes[p := o][p] == o;
      }
    }
  }

  lemma OneMoreInTable(
    first: Table<EpisodeKey, int>, before: Table<EpisodeKey, int>, after: Table<EpisodeKey, int>,
    outcomes: map<string, Outcome>, p: string, o: Outcome, now: int, rowid: nat)
    requires p !in outcomes && InTable(before, after, o.saved, now, rowid) && Sourced(o)
    requires forall s <- o.saved :: s.0.title == Key(Tv, o.inquiry.tmdb)
    requires Untouched(before, after, KeysIn(o.saved)) && Untouched(first, before, AllKeys(outcomes))
    requires AllInTable(first, before, outcomes, now, rowid)
    ensures AllInTable(first, after, outcomes[p := o], now, rowid)
  {
    hide Sourced, RowFor, Untouched, KeysIn, AllKeys, OnlyOne;
    var more := outcomes[p := o];
    assert forall r <- outcomes :: more[r] == outcomes[r];
    forall r, s | r in more && s in more[r].saved
      ensures s.0.title == Key(Tv, more[r].inquiry.tmdb) && s.0 in after
      ensures OnlyOne(more, r) ==> after[s.0] == RowFor(first, s, now, rowid)
    {
      if r != p {
        OtherStaysInTable(first, before, after, outcomes, p, o, r, s, now, rowid);
      } else if OnlyOne(more, p) {
        NotYetTouched(outcomes, p, o, s.0);
        SameRow(first, before, AllKeys(outcomes), s, now, rowid);
      }
    }
  }

  lemma SameRow(
    first: Table<EpisodeKey, int>, before: Table<EpisodeKey, int>, keys: set<EpisodeKey>, s: (EpisodeKey, int),
    now: int, rowid: nat)
    requires Untouched(first, before, keys) && s.0 !in keys
    ensures RowFor(before, s, now, rowid) == RowFor(first, s, now, rowid)
  {
    hide Requeues, Upserted, Fresh;
  }

  /** Rows of a title the new one is not mapped to are left alone. */
  lemma OtherStaysInTable(
    first: Table<EpisodeKey, int>, before: Table<EpisodeKey, int>, after: Table<EpisodeKey, int>,
    outcomes: map<string, Outcome>, p: string, o: Outcome, r: string, s: (EpisodeKey, int), now: int, rowid: nat)
    requires p !in outcomes && r in outcomes && s in outcomes[r].saved
    requires forall t <- o.saved :: t.0.title == Key(Tv, o.inquiry.tmdb)
    requires Untouched(before, after, KeysIn(o.saved)) && AllInTable(first, before, outcomes, now, rowid)
    ensures s.0.title == Key(Tv, outcomes[r].inquiry.tmdb) && s.0 in after
    ensures OnlyOne(outcomes[p := o], r) ==> after[s.0] == RowFor(first, s, now, rowid)
  {
    hide Sourced, RowFor;
    var more := outcomes[p := o];
    assert more[p] == o && forall x <- outcomes :: more[x] == outcomes[x];
    if OnlyOne(more, r) {
      assert OnlyOne(outcomes, r);
      assert o.inquiry.tmdb != outcomes[r].inquiry.tmdb;
      assert s.0 !in KeysIn(o.saved);
    }
  }

  lemma NotYetTouched(outcomes: map<string, Outcome>, p: string, o: Outcome, k: EpisodeKey)
    requires p !in outcomes && OnlyOne(outcomes[p := o], p) && k.title == Key(Tv, o.inquiry.tmdb)
    requires forall r <- outcomes, s <- outcomes[r].saved :: s.0.title == Key(Tv, outcomes[r].inquiry.tmdb)
    ensures k !in AllKeys(outcomes)
  {
    var more := outcomes[p := o];
    assert forall r <- outcomes :: more[r] == outcomes[r] && more[r].inquiry.tmdb != more[p].inquiry.tmdb;
  }

  lemma OneMoreTitleHandled(
    batch: seq<Candidate>, mapped: map<string, int>, left: set<string>, first: Cache,
    lookups: string -> int -> FindAnswer, outcomes: map<string, Outcome>, p: string, o: Outcome)
    requires Recorded(batch, mapped, left, first, lookups, outcomes) && p in left && left <= mapped.Keys
    requires o.inquiry.entries == Group(batch, p) && o.inquiry.tmdb == mapped[p] && o.inquiry.answer == lookups(p)
    requires AllJustified(o.inquiry, o.verdicts, o.sources) && AllKnown(first, outcomes[p := o], o.inquiry.cached)
    requires AllTried(o)
    ensures Recorded(batch, mapped, left - {p}, first, lookups, outcomes[p := o])
    ensures NoFailure(outcomes[p := o]) <==> NoFailure(outcomes) && !Failed(o)
  {
    hide AllTried, Failed, Group, Known, AllJustified;
    var after := outcomes[p := o];
    assert after.Keys == outcomes.Keys + {p};
    assert forall r <- outcomes :: after[r] == outcomes[r];
    assert after[p] == o;
    KnownStays(first, outcomes, p, o);
  }

  /** There is a file, and its scan is not complete. */
  predicate Open(a: Archive)
    reads a
  {
    a.content.Some? && !a.cursor.exhausted
  }

  /** The batch of the cycle, with entries as the reader delivers them. */
  method ReadClean(a: Archive, titleBatchSize: int)
    returns (batch: seq<Candidate>, newLine: int, newByte: nat, exhausted: bool)
    requires Open(a) ==> Reaches(a.content.value, 0, a.StartByte())
    ensures newLine >= 0 && Clean(batch)
    ensures Delivers(a, batch, newByte)
    ensures a.Consistent() && a.content.Some? ==> Continues(a, batch, Cursor(newLine, newByte, exhausted))
  {
    hide EntriesBetween, NormalizedImdb, Reaches;
    batch, newLine, newByte, exhausted := ReadNext(a, titleBatchSize);
    if Open(a) {
      DeliveredIsClean(a.content.value, a.StartByte(), newByte);
    }
  }

  /** The batch is what lies between the cursor and this position of an open archive. */
  ghost predicate Delivers(a: Archive, batch: seq<Candidate>, newByte: nat)
    reads a
  {
    if Open(a)
    then Reaches(a.content.value, a.StartByte(), newByte)
         && batch == EntriesBetween(a.content.value, a.StartByte(), newByte)
    else batch == []
  }

  /** Committing this cursor leaves the archive consistent, behind the batch, and further on unless all is read. */
  ghost predicate Continues(a: Archive, batch: seq<Candidate>, next: Cursor)
    requires a.content.Some?
    reads a
  {
    var content, to := a.content.value, StartOf(a.content.value, next);
    && Fits(content, a.total, next) && Reaches(content, a.StartByte(), to)
    && batch == EntriesBetween(content, a.StartByte(), to) && (!next.exhausted ==> to > a.StartByte())
  }

  /** The archive has moved on from `start` by exactly this batch. */
  ghost predicate MovedOn(a: Archive, start: nat, batch: seq<Candidate>)
    reads a
  {
    && a.content.Some? && a.Consistent() && Reaches(a.content.value, start, a.StartByte())
    && batch == EntriesBetween(a.content.value, start, a.StartByte())
    && (a.cursor.exhausted <==> a.StartByte() == |a.content.value|)
    && (!a.cursor.exhausted ==> a.StartByte() > start)
  }

  /**
   The cycle.  The cursor moves past a batch exactly when the cycle is not stopped and no lookup
   failed for a passing reason, and otherwise stays; when it moves, every valid entry of the batch
   is settled.  What was saved is in the table at the end, and no other row is changed.  A lookup
   failed exactly if TMDB's answer was a problem or a cache row said so, and such a row was there
   at first or remembers an answer of this very cycle.
   */
  method RunEpisodeCycle(
    a: Archive, db: Db, titleBatchSize: int, answers: string -> ParentAnswer, cache: Cache,
    lookups: string -> int -> FindAnswer, now: int, rowid: nat, stopping: bool)
    returns (
      advanced: bool, newCache: Cache, stopped: bool, ghost batch: seq<Candidate>, ghost newByte: nat,
      ghost mapped: map<string, int>, ghost outcomes: map<string, Outcome>)
    requires Wholesome(cache) && (Open(a) ==> Reaches(a.content.value, 0, a.StartByte()))
    modifies a`cursor, db`episodes, db`episodeSteps
    ensures Wholesome(newCache) && AllKnown(cache, outcomes, newCache) && cache.Keys <= newCache.Keys
    ensures stopped ==> stopping
    ensures old(Delivers(a, batch, newByte))
    ensures !advanced ==> a.cursor == old(a.cursor)
    ensures advanced ==> a.cursor.byte == newByte && forall e <- batch :: Settled(e, batch, answers, outcomes)
    ensures advanced && old(a.content.Some? && a.Consistent()) ==> MovedOn(a, old(a.StartByte()), batch)
    ensures AllInTable(old(db.episodes.rows), db.episodes.rows, outcomes, now, rowid)
    ensures Untouched(old(db.episodes.rows), db.episodes.rows, AllKeys(outcomes))
    ensures Wrote(
              old(db.episodes), old(db.episodeSteps), db.episodes, db.episodeSteps, AllUpserts(outcomes, now, rowid))
    ensures !stopped ==>
              && Recorded(batch, mapped, {}, cache, lookups, outcomes)
              && mapped.Keys == Titled(Parents(batch), answers)
    ensures !stopped ==> (advanced <==> (forall e <- batch :: !answers(e.parent).ParentError?) && NoFailure(outcomes))
    ensures stopped ==> !advanced
  {
    hide *;
    newCache, advanced, mapped, outcomes := cache, false, map[], map[];
    NothingHandled(db.episodes.rows, cache, lookups, answers, now, rowid);
    WroteNothing(db.episodes, db.episodeSteps);
    var read, newLine, next, exhausted := ReadClean(a, titleBatchSize);
    batch, newByte := read, next;
    stopped := Noticed(stopping);
    if stopped {
      return;
    }
    var retry := false;
    if read != [] {
      retry, newCache, stopped, mapped,
        outcomes := HandleBatch(db, read, answers, cache, lookups, now, rowid, stopping);
    }
    if !stopped {
      stopped := Noticed(stopping);
    }
    if !stopped && !retry {
      CommitCursor(a, read, newLine, next, exhausted);
      advanced := true;
    }
  }

  method CommitCursor(a: Archive, ghost batch: seq<Candidate>, newLine: int, newByte: nat, exhausted: bool)
    requires newLine >= 0
    requires a.Consistent() && a.content.Some? ==> Continues(a, batch, Cursor(newLine, newByte, exhausted))
    modifies a`cursor
    ensures a.cursor.byte == newByte
    ensures old(a.content.Some? && a.Consistent()) ==> MovedOn(a, old(a.StartByte()), batch)
  {
    hide Reaches, EntriesBetween, LinesBetween;
    ghost var sound := a.content.Some? && a.Consistent();
    a.Commit(newLine, newByte, exhausted);
    if sound {
      CommittedFits(a);
    }
  }

  lemma NothingHandled(
    rows: Table<EpisodeKey, int>, cache: Cache, lookups: string -> int -> FindAnswer,
    answers: string -> ParentAnswer, now: int, rowid: nat)
    ensures AllKnown(cache, map[], cache) && NoFailure(map[]) && Recorded([], map[], {}, cache, lookups, map[])
    ensures AllInTable(rows, rows, map[], now, rowid) && Untouched(rows, rows, AllKeys(map[]))
    ensures AllUpserts(map[], now, rowid) == {}
    ensures Titled(Parents([]), answers) == {}
  {}

  /** Looks up the parents of a batch and handles their titles. */
  method HandleBatch(
    db: Db, batch: seq<Candidate>, answers: string -> ParentAnswer, cache: Cache,
    lookups: string -> int -> FindAnswer, now: int, rowid: nat, stopping: bool)
    returns (
      retry: bool, newCache: Cache, stopped: bool, ghost mapped: map<string, int>, ghost outcomes: map<string, Outcome>)
    requires Wholesome(cache) && Clean(batch)
    modifies db`episodes, db`episodeSteps
    ensures Wholesome(newCache) && AllKnown(cache, outcomes, newCache) && cache.Keys <= newCache.Keys
    ensures stopped ==> stopping
    ensures AllInTable(old(db.episodes.rows), db.episodes.rows, outcomes, now, rowid)
    ensures Untouched(old(db.episodes.rows), db.episodes.rows, AllKeys(outcomes))
    ensures Wrote(
              old(db.episodes), old(db.episodeSteps), db.episodes, db.episodeSteps, AllUpserts(outcomes, now, rowid))
    ensures !stopped ==>
              && Recorded(batch, mapped, {}, cache, lookups, outcomes)
              && mapped.Keys == Titled(Parents(batch), answers)
    ensures !stopped ==> (retry <==> !((forall e <- batch :: !answers(e.parent).ParentError?) && NoFailure(outcomes)))
    ensures !stopped && !retry ==> forall e <- batch :: Settled(e, batch, answers, outcomes)
  {
    hide Wholesome, NoFailure, AllKnown, Recorded, Settled, NormalizedImdb, AllInTable, Untouched, AllKeys;
    hide InNormalForm, Clean, Wrote, AllUpserts;
    newCache, mapped, outcomes := cache, map[], map[];
    NothingHandled(db.episodes.rows, cache, lookups, answers, now, rowid);
    WroteNothing(db.episodes, db.episodeSteps);
    var parents := Parents(batch);
    CleanParents(batch);
    var found, errors, missing, stop := MapParents(parents, answers, stopping);
    mapped, stopped, retry := found, stop, errors > 0;
    if stopped {
      return;
    }
    NoErrors(batch, answers);
    var failed;
    failed, newCache, stopped, outcomes := HandleTitles(db, batch, found, cache, lookups, now, rowid, stopping);
    retry := retry || failed;
    if !stopped && !retry {
      AllSettled(batch, answers, mapped, cache, lookups, outcomes);
    }
  }

  lemma NoErrors(batch: seq<Candidate>, answers: string -> ParentAnswer)
    ensures |Failing(Parents(batch), answers)| == 0
            <==> forall e <- batch :: !answers(e.parent).ParentError?
  {
    var failing := Failing(Parents(batch), answers);
    if e :| e in batch && answers(e.parent).ParentError? {
      assert e.parent in failing;
    } else {
      assert failing == {};
    }
  }

  lemma CleanParents(batch: seq<Candidate>)
    requires Clean(batch)
    ensures InNormalForm(Parents(batch))
  {
    hide NormalizedImdb;
  }

  lemma AllSettled(
    batch: seq<Candidate>, answers: string -> ParentAnswer, mapped: map<string, int>, first: Cache,
    lookups: string -> int -> FindAnswer, outcomes: map<string, Outcome>)
    requires Recorded(batch, mapped, {}, first, lookups, outcomes) && NoFailure(outcomes)
    requires forall p <- mapped :: answers(p) == Title(mapped[p])
    requires mapped.Keys == Titled(Parents(batch), answers)
    requires forall e <- batch :: !answers(e.parent).ParentError?
    ensures forall e <- batch :: Settled(e, batch, answers, outcomes)
  {
    hide Handled, AllKnown, AllJustified, Inquiry.Fails;
    forall e | e in batch && answers(e.parent).Title?
      ensures Settled(e, batch, answers, outcomes)
    {
      assert e.parent in Titled(Parents(batch), answers);
      var o := outcomes[e.parent];
      assert e in Group(batch, e.parent);
      var i :| 0 <= i < |o.inquiry.entries| && o.inquiry.entries[i] == e;
      assert Handled(o, i);
    }
  }

  // ---------- the answers decide ----------

  /** No row of the cache was left by a lookup that failed. */
  ghost predicate Steady(cache: Cache) {
    forall id <- cache :: !cache[id].retryable
  }

  /** No entry of these titles has a problem for an answer. */
  ghost predicate NoProblems(
    batch: seq<Candidate>, mapped: map<string, int>, lookups: string -> int -> FindAnswer)
  {
    forall p <- mapped, i :: 0 <= i < |Group(batch, p)| ==> !lookups(p)(i).Problem?
  }

  lemma AskedIsFine(
    batch: seq<Candidate>, mapped: map<string, int>, first: Cache, lookups: string -> int -> FindAnswer,
    outcomes: map<string, Outcome>, p: string, i: int)
    requires Recorded(batch, mapped, {}, first, lookups, outcomes) && NoProblems(batch, mapped, lookups)
    requires p in outcomes && i in outcomes[p].sources
    ensures !outcomes[p].inquiry.answer(i).Problem? && outcomes[p].inquiry.Explained(outcomes[p].sources, i)
  {
    hide AllKnown, Inquiry.Backed, Group;
    assert outcomes[p].inquiry.Explained(outcomes[p].sources, i);
  }

  lemma KnownIsFine(
    batch: seq<Candidate>, mapped: map<string, int>, first: Cache, lookups: string -> int -> FindAnswer,
    outcomes: map<string, Outcome>, id: string, row: CacheRow)
    requires Recorded(batch, mapped, {}, first, lookups, outcomes) && NoProblems(batch, mapped, lookups)
    requires Steady(first) && Known(first, outcomes, id, row)
    ensures !row.retryable
  {
    hide Recorded, NoProblems, EpisodeCoordinates, Inquiry.HasId, Inquiry.Explained;
    if !(id in first && row == first[id]) {
      var p, j :| p in outcomes && j in outcomes[p].sources && outcomes[p].sources[j].Asked?
                  && outcomes[p].inquiry.HasId(j, id)
                  && row == Remembered(outcomes[p].inquiry.answer(j), outcomes[p].sources[j].at);
      AskedIsFine(batch, mapped, first, lookups, outcomes, p, j);
    }
  }

  /** Without a problem among TMDB's answers, now or remembered, no lookup fails and the cycle moves on. */
  lemma NoProblemNoFailure(
    batch: seq<Candidate>, mapped: map<string, int>, first: Cache, lookups: string -> int -> FindAnswer,
    outcomes: map<string, Outcome>)
    requires Recorded(batch, mapped, {}, first, lookups, outcomes) && NoProblems(batch, mapped, lookups)
    requires Steady(first)
    ensures NoFailure(outcomes)
  {
    hide Group, NoProblems, Steady, EpisodeCoordinates, Inquiry.HasId, Known, AllJustified;
    forall p, i | p in outcomes && i in outcomes[p].sources
      ensures !outcomes[p].inquiry.Fails(i, outcomes[p].sources[i])
    {
      var o := outcomes[p];
      AskedIsFine(batch, mapped, first, lookups, outcomes, p, i);
      if o.sources[i].Cached? {
        var row := o.sources[i].row;
        var id :| o.inquiry.HasId(i, id) && o.inquiry.Backed(o.sources, id, row);
        BackedIsKnown(first, outcomes, p, id, row);
        KnownIsFine(batch, mapped, first, lookups, outcomes, id, row);
      }
    }
  }

  lemma BackedIsKnown(first: Cache, outcomes: map<string, Outcome>, p: string, id: string, row: CacheRow)
    requires p in outcomes && AllKnown(first, outcomes, outcomes[p].inquiry.cached)
    requires outcomes[p].inquiry.Backed(outcomes[p].sources, id, row)
    ensures Known(first, outcomes, id, row)
  {
    hide Inquiry.HasId, Remembered;
    var o := outcomes[p];
    if !(id in o.inquiry.cached && row == o.inquiry.cached[id]) {
      var j :| j in o.sources && o.sources[j].Asked? && o.inquiry.HasId(j, id)
               && row == Remembered(o.inquiry.answer(j), o.sources[j].at);
    }
  }

  // ---------- cycle after cycle ----------

  /** A cycle: how it ended, its batch and the titles found, the cache it began with, and what became of the titles. */
  datatype Past = Past(
    stopped: bool, moved: bool, batch: seq<Candidate>, mapped: map<string, int>, cache: Cache,
    outcomes: map<string, Outcome>)

  /**
   A cycle that got these answers: it moved the cursor exactly if it was not stopped and no lookup
   failed for a passing reason, and then each entry of its batch is settled.
   */
  ghost predicate Ran(p: Past, answers: string -> ParentAnswer, lookups: string -> int -> FindAnswer) {
    && (forall r <- p.outcomes :: Sourced(p.outcomes[r]))
    && (p.stopped ==> !p.moved)
    && (!p.stopped ==>
          && Recorded(p.batch, p.mapped, {}, p.cache, lookups, p.outcomes)
          && p.mapped.Keys == Titled(Parents(p.batch), answers)
          && (p.moved <==> (forall e <- p.batch :: !answers(e.parent).ParentError?) && NoFailure(p.outcomes)))
    && (p.moved ==> forall e <- p.batch :: Settled(e, p.batch, answers, p.outcomes))
  }

  /** Each cycle got its answers and began with the cache the one before it left. */
  ghost predicate History(
    past: seq<Past>, first: Cache, last: Cache, answers: nat -> string -> ParentAnswer,
    lookups: nat -> string -> int -> FindAnswer)
  {
    if past == [] then last == first
    else
      var i := |past| - 1;
      && History(past[..i], first, past[i].cache, answers, lookups)
      && Ran(past[i], answers(i), lookups(i)) && AllKnown(past[i].cache, past[i].outcomes, last)
  }

  /** The batches the cursor moved past. */
  ghost function Delivered(past: seq<Past>): seq<Candidate> {
    if past == [] then []
    else
      var p := past[|past| - 1];
      Delivered(past[..|past| - 1]) + if p.moved then p.batch else []
  }

  ghost function Moves(past: seq<Past>): nat {
    if past == [] then 0 else Moves(past[..|past| - 1]) + if past[|past| - 1].moved then 1 else 0
  }

  /** The upserts of all cycles: one for each pair a cycle saved, at its time. */
  ghost function PastUpserts(past: seq<Past>, now: nat -> int, rowid: nat): Upserts {
    if past == [] then {}
    else
      var i := |past| - 1;
      PastUpserts(past[..i], now, rowid) + AllUpserts(past[i].outcomes, now(i), rowid)
  }

  /**
   Any number of cycles, each with answers of its own, any of them stopped or failing.  The batches
   the cursor moved past hold every valid line between the first and the last position exactly
   once and in order, each settled in its cycle; when the scan is exhausted that is the whole rest
   of the file.  Every cycle that moves the cursor gets at least one line on, until it is.  What is
   upserted is exactly what the cycles saved.
   */
  method RunCycles(
    a: Archive, db: Db, titleBatchSize: nat -> int, answers: nat -> string -> ParentAnswer, cache: Cache,
    lookups: nat -> string -> int -> FindAnswer, now: nat -> int, rowid: nat, stopping: nat -> bool, cycles: nat)
    returns (newCache: Cache, ghost past: seq<Past>)
    requires Wholesome(cache) && a.content.Some? && a.Consistent()
    modifies a`cursor, db`episodes, db`episodeSteps
    ensures a.Consistent() && Wholesome(newCache) && cache.Keys <= newCache.Keys
    ensures |past| == cycles && History(past, cache, newCache, answers, lookups)
    ensures forall i :: 0 <= i < cycles && past[i].stopped ==> stopping(i)
    ensures Wrote(
              old(db.episodes), old(db.episodeSteps), db.episodes, db.episodeSteps, PastUpserts(past, now, rowid))
    ensures Reaches(a.content.value, old(a.StartByte()), a.StartByte())
    ensures Delivered(past) == EntriesBetween(a.content.value, old(a.StartByte()), a.StartByte())
    ensures a.cursor.exhausted ==> a.StartByte() == |a.content.value|
    ensures Progressed(a, old(a.StartByte()), Moves(past))
  {
    hide *;
    newCache, past := cache, [];
    StartsConsistent(a);
    WroteNothing(db.episodes, db.episodeSteps);
    NothingPast(a, cache, answers, lookups, now, rowid);
    for i := 0 to cycles
      invariant a.content == old(a.content) && a.Consistent() && Wholesome(newCache) && cache.Keys <= newCache.Keys
      invariant |past| == i && History(past, cache, newCache, answers, lookups)
      invariant forall j :: 0 <= j < i && past[j].stopped ==> stopping(j)
      invariant Wrote(
                  old(db.episodes), old(db.episodeSteps), db.episodes, db.episodeSteps,
                  PastUpserts(past, now, rowid))
      invariant Reaches(a.content.value, old(a.StartByte()), a.StartByte())
      invariant Delivered(past) == EntriesBetween(a.content.value, old(a.StartByte()), a.StartByte())
      invariant Progressed(a, old(a.StartByte()), Moves(past))
    {
      StartsConsistent(a);
      ProgressMeans(a, old(a.StartByte()), Moves(past));
      ghost var start, atEnd, before := a.StartByte(), a.cursor.exhausted, newCache;
      ghost var s, log := db.episodes, db.episodeSteps;
      var advanced, stopped;
      ghost var batch, newByte, mapped, outcomes;
      advanced, newCache, stopped, batch, newByte, mapped, outcomes :=
        RunEpisodeCycle(a, db, titleBatchSize(i), answers(i), newCache, lookups(i), now(i), rowid, stopping(i));
      ghost var p := Past(stopped, advanced, batch, mapped, before, outcomes);
      SourcedInTable(s.rows, db.episodes.rows, outcomes, now(i), rowid);
      CycleRan(p, answers(i), lookups(i));
      OneMorePast(past, p, cache, newCache, answers, lookups, now, rowid);
      WroteMore(
        old(db.episodes), old(db.episodeSteps), s, log, PastUpserts(past, now, rowid), db.episodes,
        db.episodeSteps, AllUpserts(outcomes, now(i), rowid));
      if advanced {
        OneMoreBatch(a, old(a.StartByte()), start, atEnd, Delivered(past), Moves(past), batch);
      } else {
        ProgressStays(a, old(a.StartByte()), Moves(past), start, atEnd);
      }
      past := past + [p];
    }
    StartsConsistent(a);
  }

  lemma NothingPast(
    a: Archive, cache: Cache, answers: nat -> string -> ParentAnswer, lookups: nat -> string -> int -> FindAnswer,
    now: nat -> int, rowid: nat)
    ensures History([], cache, cache, answers, lookups) && PastUpserts([], now, rowid) == {}
    ensures Delivered([]) == [] && Moves([]) == 0 && Progressed(a, a.StartByte(), 0)
  {}

  lemma SourcedInTable(
    before: Table<EpisodeKey, int>, after: Table<EpisodeKey, int>, outcomes: map<string, Outcome>, now: int,
    rowid: nat)
    requires AllInTable(before, after, outcomes, now, rowid)
    ensures forall r <- outcomes :: Sourced(outcomes[r])
  {
    hide Sourced;
  }

  lemma CycleRan(p: Past, answers: string -> ParentAnswer, lookups: string -> int -> FindAnswer)
    requires forall r <- p.outcomes :: Sourced(p.outcomes[r])
    requires p.stopped ==> !p.moved
    requires !p.stopped ==>
               && Recorded(p.batch, p.mapped, {}, p.cache, lookups, p.outcomes)
               && p.mapped.Keys == Titled(Parents(p.batch), answers)
    requires !p.stopped ==>
               (p.moved <==> (forall e <- p.batch :: !answers(e.parent).ParentError?) && NoFailure(p.outcomes))
    requires p.moved ==> forall e <- p.batch :: Settled(e, p.batch, answers, p.outcomes)
    ensures Ran(p, answers, lookups)
  {
    hide Sourced, Recorded, Settled, NoFailure;
  }

  lemma OneMorePast(
    past: seq<Past>, p: Past, first: Cache, last: Cache, answers: nat -> string -> ParentAnswer,
    lookups: nat -> string -> int -> FindAnswer, now: nat -> int, rowid: nat)
    requires History(past, first, p.cache, answers, lookups) && Ran(p, answers(|past|), lookups(|past|))
    requires AllKnown(p.cache, p.outcomes, last)
    ensures History(past + [p], first, last, answers, lookups)
    ensures PastUpserts(past + [p], now, rowid)
            == PastUpserts(past, now, rowid) + AllUpserts(p.outcomes, now(|past|), rowid)
    ensures Delivered(past + [p]) == Delivered(past) + if p.moved then p.batch else []
    ensures Moves(past + [p]) == Moves(past) + if p.moved then 1 else 0
  {
    hide Ran, AllKnown, AllUpserts;
    assert (past + [p])[..|past|] == past;
  }

  /** The scan is exhausted, or at least this many lines on. */
  ghost predicate Progressed(a: Archive, from: nat, cycles: nat)
    reads a
  {
    a.cursor.exhausted || a.StartByte() >= from + cycles
  }

  lemma ProgressMeans(a: Archive, from: nat, cycles: nat)
    requires Progressed(a, from, cycles)
    ensures a.cursor.exhausted || a.StartByte() >= from + cycles
  {}

  /** A cycle that does not move the cursor loses no ground. */
  lemma ProgressStays(a: Archive, from: nat, moves: nat, start: nat, atEnd: bool)
    requires atEnd || start >= from + moves
    requires a.StartByte() == start && a.cursor.exhausted == atEnd
    ensures Progressed(a, from, moves)
  {}

  lemma StartsConsistent(a: Archive)
    requires a.content.Some? && a.Consistent()
    ensures Open(a) ==> Reaches(a.content.value, 0, a.StartByte())
    ensures a.cursor.exhausted ==> a.StartByte() == |a.content.value|
    ensures Reaches(a.content.value, a.StartByte(), a.StartByte())
    ensures EntriesBetween(a.content.value, a.StartByte(), a.StartByte()) == []
  {
    Forward(a.content.value, 0, a.StartByte());
    Standing(a.content.value, a.StartByte());
    hide Reaches, EntriesBetween, LinesBetween;
  }

  lemma OneMoreBatch(
    a: Archive, from: nat, start: nat, atEnd: bool, delivered: seq<Candidate>, moves: nat, batch: seq<Candidate>)
    requires a.content.Some? && Reaches(a.content.value, from, start)
    requires if atEnd then start == |a.content.value| else start >= from + moves
    requires delivered == EntriesBetween(a.content.value, from, start) && MovedOn(a, start, batch)
    ensures a.Consistent() && Reaches(a.content.value, from, a.StartByte())
    ensures delivered + batch == EntriesBetween(a.content.value, from, a.StartByte())
    ensures Progressed(a, from, moves + 1)
  {
    Forward(a.content.value, start, a.StartByte());
    hide Reaches, EntriesBetween, LinesBetween;
    Concatenates(a.content.value, from, start, a.StartByte());
  }
}
