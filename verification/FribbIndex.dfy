/** The index over the Fribb anime list, and what its decisions promise. */
module FribbIndexes {
  import opened Wrappers
  import opened Decimal
  import opened Titles
  import opened FribbRows
  import opened Ids

  datatype Anchor = TmdbAnchor(media: Media, id: string) | ImdbAnchor(media: Media, id: string)

  datatype Verdict = Missing | Matched | Conflict | UnsafeScope

  /** `malIds` and `evidence` list what the matching entries carry. */
  datatype Decision = Decision(verdict: Verdict, malIds: set<string>, evidence: set<(string, string)>)

  /** What is asked: a title, and the ids already known for it. */
  datatype Question = Question(media: Media, tmdb: nat, known: map<string, Json>)
  {
    function Imdb(): Option<string> {
      ImdbOf(Get(known, "imdb"))
    }
  }

  /** The known IMDb id is used in its normal form, and not at all when it is none. */
  lemma KnownImdbId(q: Question, id: string)
    ensures q.Imdb() == Some(id) <==>
              "imdb" in q.known && q.known["imdb"].Str? && NormalizedImdb(q.known["imdb"].s) == Some(id)
  {
    hide NormalizedImdb;
  }

  /** Under which title ids an entry can be found; an unknown format is found under both media types. */
  function AnchorsOf(e: Entry): set<Anchor> {
    (set t | t in e.tmdbIds :: TmdbAnchor(t.0, t.1))
    + (set m: Media, id | id in e.imdbIds && m in {Movie, Tv} && (e.media.Some? ==> e.media == Some(m)) ::
      ImdbAnchor(m, id))
  }

  function IdentitiesOf(e: Entry): set<(string, string)> {
    set p | p in e.animeIds :: (p, e.animeIds[p])
  }

  ghost function EntriesOf(rows: seq<Json>): set<Entry> {
    set i | 0 <= i < |rows| && rows[i].Obj? :: EntryOf(rows[i].fields)
  }

  // ---------- the simple reading of a decision ----------

  /** The entry carries the title's TMDB id, or its IMDb id without being of the other media type. */
  ghost predicate Found(e: Entry, q: Question) {
    || (q.media, Digits(q.tmdb)) in e.tmdbIds
    || (q.Imdb().Some? && q.Imdb().value in e.imdbIds && (e.media.None? || e.media == Some(q.media)))
  }

  lemma FoundByAnchors(e: Entry, q: Question)
    ensures Found(e, q) <==>
              || TmdbAnchor(q.media, Digits(q.tmdb)) in AnchorsOf(e)
              || (q.Imdb().Some? && ImdbAnchor(q.media, q.Imdb().value) in AnchorsOf(e))
  {
    hide Digits, Question.Imdb;
    assert q.media in {Movie, Tv} by {
      match q.media
      case Movie =>
      case Tv =>
    }
    if (q.media, Digits(q.tmdb)) in e.tmdbIds {
      var t := (q.media, Digits(q.tmdb));
      assert TmdbAnchor(t.0, t.1) in AnchorsOf(e);
    }
  }

  /** The entry stands for the whole title that is asked for. */
  ghost predicate Covers(e: Entry, q: Question) {
    e.wholeTitle && e.media == Some(q.media)
  }

  /** A covering entry also agrees with every id of the title, and no other entry claims one of its anime ids. */
  ghost predicate Agrees(e: Entry, q: Question, entries: set<Entry>) {
    && (e.tmdbIds != {} ==> (q.media, Digits(q.tmdb)) in e.tmdbIds)
    && (q.Imdb().Some? && e.imdbIds != {} ==> q.Imdb().value in e.imdbIds)
    && (forall other <- entries :: other != e ==> IdentitiesOf(other) !! IdentitiesOf(e))
    && forall p <- e.animeIds :: p in q.known && q.known[p] != Null ==> PositiveId(q.known[p]) == Some(e.animeIds[p])
  }

  ghost predicate OnlyFound(e: Entry, q: Question, entries: set<Entry>) {
    e in entries && Found(e, q) && forall other <- entries :: Found(other, q) ==> other == e
  }

  /** A scan of all entries: what the decision has to be. */
  ghost predicate Right(d: Decision, q: Question, entries: set<Entry>) {
    && (d.verdict == Missing <==> !exists e <- entries :: Found(e, q))
    && (d.verdict == UnsafeScope <==> exists e <- entries :: OnlyFound(e, q, entries) && !Covers(e, q))
    && (d.verdict == Matched
       <==> exists e <- entries :: OnlyFound(e, q, entries) && Covers(e, q) && Agrees(e, q, entries))
    && (forall id :: id in d.evidence <==> exists e <- entries :: Found(e, q) && id in IdentitiesOf(e))
    && (forall m :: m in d.malIds <==> ("mal", m) in d.evidence)
  }

  /** The scan leaves no choice. */
  lemma RightIsUnique(d: Decision, d': Decision, q: Question, entries: set<Entry>)
    requires Right(d, q, entries) && Right(d', q, entries)
    ensures d == d'
  {
    hide Found, OnlyFound, Covers, Agrees, IdentitiesOf;
    assert d.verdict == d'.verdict;
    assert d.evidence == d'.evidence;
    assert d.malIds == d'.malIds;
  }

  /** The rows with an entry that stands for a whole title and can be found by an id of that title. */
  ghost function UsableRows(rows: seq<Json>, n: nat): set<int>
    requires n <= |rows|
  {
    set i | 0 <= i < n && rows[i].Obj? && IsUsable(EntryOf(rows[i].fields))
  }

  ghost predicate IsUsable(e: Entry) {
    e.wholeTitle && !(e.tmdbIds == {} && e.imdbIds == {})
  }

  lemma MoreUsable(rows: seq<Json>, i: nat)
    requires i < |rows|
    ensures |UsableRows(rows, i + 1)|
            == |UsableRows(rows, i)| + if rows[i].Obj? && IsUsable(EntryOf(rows[i].fields)) then 1 else 0
  {
    hide EntryOf, IsUsable;
    if rows[i].Obj? && IsUsable(EntryOf(rows[i].fields)) {
      assert UsableRows(rows, i + 1) == UsableRows(rows, i) + {i};
    } else {
      assert UsableRows(rows, i + 1) == UsableRows(rows, i);
    }
  }

  // ---------- the index ----------

  class FribbIndex {
    var anchors: map<Anchor, set<Entry>>
    var owners: map<(string, string), set<Entry>>
    var usable: nat

    /** The index holds exactly these entries, each under all its anchors and identities. */
    ghost predicate Indexes(entries: set<Entry>)
      reads this
    {
      Files(anchors, entries, AnchorsOf) && Files(owners, entries, IdentitiesOf)
    }

    constructor (rows: seq<Json>)
      ensures Indexes(EntriesOf(rows))
      ensures usable == |UsableRows(rows, |rows|)|
    {
      anchors, owners, usable := map[], map[], 0;
      new;
      hide EntryOf, AnchorsOf, IdentitiesOf;
      for i := 0 to |rows|
        invariant Indexes(EntriesOf(rows[..i]))
        invariant usable == |UsableRows(rows, i)|
      {
        hide *;
        MoreRows(rows, i);
        MoreUsable(rows, i);
        AddRow(rows[i], EntriesOf(rows[..i]));
      }
      assert rows[..|rows|] == rows;
    }

    method AddRow(row: Json, ghost before: set<Entry>)
      requires Indexes(before)
      modifies this
      ensures Indexes(before + if row.Obj? then {EntryOf(row.fields)} else {})
      ensures usable == old(usable) + if row.Obj? && IsUsable(EntryOf(row.fields)) then 1 else 0
    {
      hide *;
      if row.Obj? {
        var entry := ReadRow(row.fields);
        Add(entry, before);
      } else {
        assert before + {} == before;
      }
    }

    method Add(entry: Entry, ghost before: set<Entry>)
      requires Indexes(before)
      modifies this
      ensures Indexes(before + {entry}) && usable == old(usable) + if IsUsable(entry) then 1 else 0
    {
      FiledFiles(anchors, before, AnchorsOf, entry);
      FiledFiles(owners, before, IdentitiesOf, entry);
      hide Filed, Files, AnchorsOf, IdentitiesOf;
      anchors := Filed(anchors, AnchorsOf(entry), entry);
      owners := Filed(owners, IdentitiesOf(entry), entry);
      if entry.wholeTitle && (entry.tmdbIds != {} || entry.imdbIds != {}) {
        usable := usable + 1;
      }
    }

    function ResolveDecision(q: Question): Decision
      reads this
    {
      var matches := MatchesFor(q);
      Decision(VerdictOn(matches, q), MalIds(matches), Evidence(matches))
    }

    function VerdictOn(matches: set<Entry>, q: Question): Verdict
      reads this
    {
      if matches == {} then Missing
      else if |matches| != 1 then Conflict
      else
        var entry := TheOne(matches);
        if !entry.wholeTitle || entry.media != Some(q.media) then UnsafeScope
        else if entry.tmdbIds != {} && (q.media, Digits(q.tmdb)) !in entry.tmdbIds then Conflict
        else if q.Imdb().Some? && entry.imdbIds != {} && q.Imdb().value !in entry.imdbIds then Conflict
        else if exists p <- entry.animeIds :: Under(owners, (p, entry.animeIds[p])) != {entry} then Conflict
        else if exists p <- entry.animeIds ::
               Get(q.known, p) != Null && PositiveId(Get(q.known, p)) != Some(entry.animeIds[p]) then Conflict
        else Matched
    }

    function MatchesFor(q: Question): set<Entry>
      reads this
    {
      Under(anchors, TmdbAnchor(q.media, Digits(q.tmdb)))
      + if q.Imdb().Some? then Under(anchors, ImdbAnchor(q.media, q.Imdb().value)) else {}
    }

    /** The index decides like the scan. */
    lemma IndexDecidesLikeScan(q: Question, entries: set<Entry>)
      requires Indexes(entries)
      ensures Right(ResolveDecision(q), q, entries)
    {
      var matches := MatchesFor(q);
      MatchesAreFound(q, entries);
      VerdictIsRight(matches, q, entries);
      hide Indexes, Found, OnlyFound, Covers, Agrees, MatchesFor, VerdictOn, Digits, IdentitiesOf;
      EvidenceOf(matches);
    }

    lemma MatchesAreFound(q: Question, entries: set<Entry>)
      requires Indexes(entries)
      ensures forall e :: e in MatchesFor(q) <==> e in entries && Found(e, q)
    {
      hide AnchorsOf, IdentitiesOf, Digits, Found;
      forall e | e in entries
        ensures e in MatchesFor(q) <==> Found(e, q)
      {
        FoundByAnchors(e, q);
      }
    }

    lemma VerdictIsRight(matches: set<Entry>, q: Question, entries: set<Entry>)
      requires Indexes(entries) && forall e :: e in matches <==> e in entries && Found(e, q)
      ensures VerdictOn(matches, q) == Missing <==> !exists e <- entries :: Found(e, q)
      ensures VerdictOn(matches, q) == UnsafeScope <==> exists e <- entries :: OnlyFound(e, q, entries) && !Covers(e, q)
      ensures VerdictOn(matches, q) == Matched
              <==> exists e <- entries :: OnlyFound(e, q, entries) && Covers(e, q) && Agrees(e, q, entries)
    {
      hide Found, Digits, PositiveId;
      if |matches| == 1 {
        var e := TheOne(matches);
        assert OnlyFound(e, q, entries);
        SoleOwner(e, entries);
        assert forall other :: OnlyFound(other, q, entries) ==> other == e;
      } else {
        forall e | e in entries && OnlyFound(e, q, entries)
          ensures matches == {e}
        {}
      }
    }

    /** An entry owns all its identities alone exactly when no other entry shares one. */
    lemma SoleOwner(e: Entry, entries: set<Entry>)
      requires Indexes(entries) && e in entries
      ensures (exists p <- e.animeIds :: Under(owners, (p, e.animeIds[p])) != {e})
              <==> exists other <- entries :: other != e && !(IdentitiesOf(other) !! IdentitiesOf(e))
    {
      if other :| other in entries && other != e && !(IdentitiesOf(other) !! IdentitiesOf(e)) {
        var id :| id in IdentitiesOf(other) && id in IdentitiesOf(e);
        assert other in Under(owners, id) && id == (id.0, e.animeIds[id.0]);
      }
      if p :| p in e.animeIds && Under(owners, (p, e.animeIds[p])) != {e} {
        var id := (p, e.animeIds[p]);
        assert id in IdentitiesOf(e) && e in Under(owners, id);
        var other :| other in Under(owners, id) && other != e;
        assert id in IdentitiesOf(other);
      }
    }
  }

  function Evidence(matches: set<Entry>): set<(string, string)> {
    set e, p | e in matches && p in e.animeIds :: (p, e.animeIds[p])
  }

  function MalIds(matches: set<Entry>): set<string> {
    set e | e in matches && "mal" in e.animeIds :: e.animeIds["mal"]
  }

  lemma EvidenceOf(matches: set<Entry>)
    ensures forall id :: id in Evidence(matches) <==> exists e <- matches :: id in IdentitiesOf(e)
    ensures forall m :: m in MalIds(matches) <==> ("mal", m) in Evidence(matches)
  {
    forall id, e | e in matches && id in IdentitiesOf(e)
      ensures id in Evidence(matches)
    {
      assert id.0 in e.animeIds && id == (id.0, e.animeIds[id.0]);
    }
    forall m | ("mal", m) in Evidence(matches)
      ensures m in MalIds(matches)
    {
      var e :| e in matches && "mal" in e.animeIds && e.animeIds["mal"] == m;
    }
  }

  function TheOne(s: set<Entry>): (e: Entry)
    requires |s| == 1
    ensures s == {e}
  {
    Singleton(s);
    var e :| e in s && s == {e};
    e
  }

  lemma Singleton(s: set<Entry>)
    requires |s| == 1
    ensures exists e :: e in s && s == {e}
  {
    var e :| e in s;
    assert |s - {e}| == 0;
    assert s == {e};
  }

  function Under<K, V>(index: map<K, set<V>>, k: K): set<V> {
    if k in index then index[k] else {}
  }

  /** The index with one more entry under each of the keys. */
  function Filed<K(!new), V>(index: map<K, set<V>>, keys: set<K>, e: V): (filed: map<K, set<V>>)
    ensures forall k :: Under(filed, k) == Under(index, k) + if k in keys then {e} else {}
  {
    map k | k in index.Keys + keys :: Under(index, k) + if k in keys then {e} else {}
  }

  /** The index lists every entry under its keys, and nothing else. */
  ghost predicate Files<K(!new)>(index: map<K, set<Entry>>, entries: set<Entry>, keys: Entry -> set<K>) {
    forall k, e :: e in Under(index, k) <==> e in entries && k in keys(e)
  }

  lemma FiledFiles<K(!new)>(index: map<K, set<Entry>>, entries: set<Entry>, keys: Entry -> set<K>, e: Entry)
    requires Files(index, entries, keys)
    ensures Files(Filed(index, keys(e), e), entries + {e}, keys)
  {}

  lemma MoreRows(rows: seq<Json>, i: nat)
    requires i < |rows|
    ensures EntriesOf(rows[..i + 1]) == EntriesOf(rows[..i]) + if rows[i].Obj? then {EntryOf(rows[i].fields)} else {}
  {
    hide EntryOf;
    var all, some := rows[..i + 1], rows[..i];
    assert forall j :: 0 <= j < i ==> all[j] == some[j];
    assert all[i] == rows[i];
  }
}
