/** Laws of the Fribb decisions over whole datasets. */
module FribbLaws {
  import opened Wrappers
  import opened Decimal
  import opened Titles
  import opened FribbRows
  import opened FribbIndexes

  /** Every row of `rows` is a row of `more`: more data, in any order and with any repetition. */
  ghost predicate Within(rows: seq<Json>, more: seq<Json>) {
    forall r <- rows :: r in more
  }

  lemma WithinEntries(rows: seq<Json>, more: seq<Json>)
    requires Within(rows, more)
    ensures EntriesOf(rows) <= EntriesOf(more)
  {
    hide EntryOf;
    forall i | 0 <= i < |rows| && rows[i].Obj?
      ensures EntryOf(rows[i].fields) in EntriesOf(more)
    {
      assert rows[i] in rows;
      var j :| 0 <= j < |more| && more[j] == rows[i];
      assert EntryOf(more[j].fields) == EntryOf(rows[i].fields);
    }
  }

  /** Reordering or repeating rows never changes a decision. */
  lemma OrderAndRepetitionDoNotMatter(a: FribbIndex, b: FribbIndex, rows: seq<Json>, other: seq<Json>, q: Question)
    requires a.Indexes(EntriesOf(rows)) && b.Indexes(EntriesOf(other))
    requires Within(rows, other) && Within(other, rows)
    ensures a.ResolveDecision(q) == b.ResolveDecision(q)
  {
    hide *;
    var entries := EntriesOf(rows);
    WithinEntries(rows, other);
    WithinEntries(other, rows);
    assert EntriesOf(other) == entries;
    a.IndexDecidesLikeScan(q, entries);
    b.IndexDecidesLikeScan(q, entries);
    RightIsUnique(a.ResolveDecision(q), b.ResolveDecision(q), q, entries);
  }

  /**
   Adding rows turns a match into the same match or a conflict, an unsafe scope into itself or
   a conflict, and a conflict into a conflict.
   */
  lemma MoreRowsOnlyAddConflict(a: FribbIndex, b: FribbIndex, rows: seq<Json>, more: seq<Json>, q: Question)
    requires a.Indexes(EntriesOf(rows)) && b.Indexes(EntriesOf(more)) && Within(rows, more)
    ensures var before, after := a.ResolveDecision(q), b.ResolveDecision(q);
            && (before.verdict == Matched ==>
                  after.verdict == Conflict || (after.verdict == Matched && after.malIds == before.malIds))
            && (before.verdict == UnsafeScope ==> after.verdict == UnsafeScope || after.verdict == Conflict)
            && (before.verdict == Conflict ==> after.verdict == Conflict)
            && before.malIds <= after.malIds
  {
    WithinEntries(rows, more);
    hide *;
    a.IndexDecidesLikeScan(q, EntriesOf(rows));
    b.IndexDecidesLikeScan(q, EntriesOf(more));
    MoreEntries(a.ResolveDecision(q), b.ResolveDecision(q), q, EntriesOf(rows), EntriesOf(more));
  }

  lemma MoreEntries(before: Decision, after: Decision, q: Question, entries: set<Entry>, more: set<Entry>)
    requires Right(before, q, entries) && Right(after, q, more) && entries <= more
    ensures before.verdict == Matched ==>
              after.verdict == Conflict || (after.verdict == Matched && after.malIds == before.malIds)
    ensures before.verdict == UnsafeScope ==> after.verdict == UnsafeScope || after.verdict == Conflict
    ensures before.verdict == Conflict ==> after.verdict == Conflict
    ensures before.malIds <= after.malIds
  {
    hide Found, Covers, IdentitiesOf;
    forall e | e in entries && OnlyFound(e, q, more)
      ensures OnlyFound(e, q, entries) && (Agrees(e, q, more) ==> Agrees(e, q, entries))
    {}
    forall e | e in more && OnlyFound(e, q, more)
      ensures before.verdict != Missing ==> e in entries
    {}
    if before.verdict == Matched && after.verdict == Matched {
      var e :| e in more && OnlyFound(e, q, more);
      SameEvidence(before, after, q, entries, more, e);
    }
  }

  lemma SameEvidence(before: Decision, after: Decision, q: Question, entries: set<Entry>, more: set<Entry>, e: Entry)
    requires Right(before, q, entries) && Right(after, q, more) && e in entries && entries <= more
             && OnlyFound(e, q, more)
    ensures after.malIds == before.malIds
  {
    hide Found, IdentitiesOf;
    assert after.evidence == before.evidence;
  }

  /** A matched entry is the one that carries the MAL id. */
  lemma MatchedEntry(d: Decision, q: Question, entries: set<Entry>, mal: string) returns (e: Entry)
    requires Right(d, q, entries) && d.verdict == Matched && mal in d.malIds
    ensures e in entries && Found(e, q) && Covers(e, q) && Agrees(e, q, entries) && ("mal", mal) in IdentitiesOf(e)
  {
    hide Found, Covers, Agrees, IdentitiesOf;
    e :| e in entries && OnlyFound(e, q, entries) && Covers(e, q) && Agrees(e, q, entries);
    assert ("mal", mal) in d.evidence;
  }

  /** A matched decision names exactly one MAL id. */
  lemma MatchNamesOneId(index: FribbIndex, rows: seq<Json>, q: Question)
    requires index.Indexes(EntriesOf(rows)) && index.ResolveDecision(q).verdict == Matched
    ensures |index.ResolveDecision(q).malIds| == 1
  {
    var d, entries := index.ResolveDecision(q), EntriesOf(rows);
    index.IndexDecidesLikeScan(q, entries);
    var e :| e in entries && OnlyFound(e, q, entries) && Covers(e, q);
    WholeTitle(rows, e);
    hide *;
    OneMalId(d, q, entries, e);
  }

  lemma OneMalId(d: Decision, q: Question, entries: set<Entry>, e: Entry)
    requires Right(d, q, entries) && OnlyFound(e, q, entries) && "mal" in e.animeIds
    ensures |d.malIds| == 1
  {
    hide Found, Covers, Agrees;
    var mal := e.animeIds["mal"];
    assert ("mal", mal) in IdentitiesOf(e);
    forall m | m in d.malIds
      ensures m == mal
    {
      assert ("mal", m) in IdentitiesOf(e);
    }
    assert d.malIds == {mal};
  }

  /** An entry for a whole title has a MAL id and at most one id of either other kind, in its own media type. */
  lemma WholeTitle(rows: seq<Json>, e: Entry)
    requires e in EntriesOf(rows) && e.wholeTitle
    ensures "mal" in e.animeIds && |e.tmdbIds| <= 1 && |e.imdbIds| <= 1
    ensures forall t <- e.tmdbIds :: e.media == Some(t.0)
  {
    var i :| 0 <= i < |rows| && rows[i].Obj? && EntryOf(rows[i].fields) == e;
  }

  lemma AtMostOne<T>(s: set<T>, a: T, b: T)
    requires |s| <= 1 && a in s && b in s
    ensures a == b
  {
    var rest := s - {a};
    assert |rest| == 0;
    assert b in rest <==> b != a;
  }

  /**
   Two different titles are matched to one MAL id only through an entry without a TMDB id,
   and then they carry the same IMDb id.
   */
  lemma MatchesAreInjective(index: FribbIndex, rows: seq<Json>, q: Question, r: Question, mal: string)
    requires index.Indexes(EntriesOf(rows)) && Key(q.media, q.tmdb) != Key(r.media, r.tmdb)
    requires index.ResolveDecision(q).verdict == Matched && mal in index.ResolveDecision(q).malIds
    requires index.ResolveDecision(r).verdict == Matched && mal in index.ResolveDecision(r).malIds
    ensures q.media == r.media && q.Imdb().Some? && q.Imdb() == r.Imdb()
    ensures exists e <- EntriesOf(rows) ::
              e.tmdbIds == {} && ("mal", mal) in IdentitiesOf(e) && q.Imdb().value in e.imdbIds
  {
    var entries := EntriesOf(rows);
    index.IndexDecidesLikeScan(q, entries);
    index.IndexDecidesLikeScan(r, entries);
    var d, d' := index.ResolveDecision(q), index.ResolveDecision(r);
    assert Right(d, q, entries) && Right(d', r, entries);
    hide *;
    var e := MatchedEntry(d, q, entries, mal);
    var f := MatchedEntry(d', r, entries, mal);
    SharedIdentity(e, f, q, entries, ("mal", mal));
    WholeTitle(rows, e);
    OneTmdbIdOneTitle(e, q, r, entries);
    OneImdbId(e, q, r);
  }

  lemma SharedIdentity(e: Entry, f: Entry, q: Question, entries: set<Entry>, id: (string, string))
    requires Agrees(e, q, entries) && f in entries && id in IdentitiesOf(e) && id in IdentitiesOf(f)
    ensures e == f
  {
    assert !(IdentitiesOf(e) !! IdentitiesOf(f));
  }

  lemma OneTmdbIdOneTitle(e: Entry, q: Question, r: Question, entries: set<Entry>)
    requires |e.tmdbIds| <= 1 && Agrees(e, q, entries) && Agrees(e, r, entries)
             && Key(q.media, q.tmdb) != Key(r.media, r.tmdb)
    ensures e.tmdbIds == {}
  {
    if e.tmdbIds != {} {
      AtMostOne(e.tmdbIds, (q.media, Digits(q.tmdb)), (r.media, Digits(r.tmdb)));
      DigitsInjective(q.tmdb, r.tmdb);
      assert false;
    }
  }

  lemma OneImdbId(e: Entry, q: Question, r: Question)
    requires Found(e, q) && Found(e, r) && e.tmdbIds == {} && |e.imdbIds| <= 1 && Covers(e, q) && Covers(e, r)
    ensures q.media == r.media && q.Imdb().Some? && q.Imdb() == r.Imdb() && q.Imdb().value in e.imdbIds
  {
    AtMostOne(e.imdbIds, q.Imdb().value, r.Imdb().value);
  }

  /**
   And that exception is real: when the entry behind a match has no TMDB id, every other title
   of the media type with the same known ids is matched to the same MAL id, unless the dataset
   knows that title by its TMDB id.
   */
  lemma SharedImdbIdMatchesBoth(index: FribbIndex, rows: seq<Json>, q: Question, r: Question)
    requires index.Indexes(EntriesOf(rows)) && r.media == q.media && r.known == q.known
    requires index.ResolveDecision(q).verdict == Matched
    requires forall e <- EntriesOf(rows) :: Found(e, q) ==> e.tmdbIds == {}
    requires forall e <- EntriesOf(rows) :: (r.media, Digits(r.tmdb)) !in e.tmdbIds
    ensures index.ResolveDecision(r) == index.ResolveDecision(q)
  {
    var entries := EntriesOf(rows);
    index.IndexDecidesLikeScan(q, entries);
    index.IndexDecidesLikeScan(r, entries);
    var d, d' := index.ResolveDecision(q), index.ResolveDecision(r);
    assert Right(d, q, entries) && Right(d', r, entries);
    hide *;
    SameScan(d, d', q, r, entries);
  }

  lemma SameScan(d: Decision, d': Decision, q: Question, r: Question, entries: set<Entry>)
    requires Right(d, q, entries) && Right(d', r, entries) && d.verdict == Matched
    requires r.media == q.media && r.known == q.known
    requires forall e <- entries :: Found(e, q) ==> e.tmdbIds == {}
    requires forall e <- entries :: (r.media, Digits(r.tmdb)) !in e.tmdbIds
    ensures d' == d
  {
    var e :| e in entries && OnlyFound(e, q, entries) && Covers(e, q) && Agrees(e, q, entries);
    forall o | o in entries
      ensures Found(o, r) ==> Found(o, q)
    {}
    assert Found(e, r);
    assert Agrees(e, r, entries) && Covers(e, r) && OnlyFound(e, r, entries);
    hide Found, Covers, Agrees, IdentitiesOf, AnchorsOf, Digits;
    assert d'.verdict == Matched;
    assert d'.evidence == d.evidence;
    assert d'.malIds == d.malIds;
  }
}
