/** Rows of the Fribb anime list: which ids an entry carries and whether it stands for one whole title. */
module FribbRows {
  import opened Wrappers
  import opened Decimal
  import opened Titles
  import opened Ids

  datatype Json =
    | Null
    | Bool(b: bool)
    | Int(i: int)
    | Float
    | Str(s: string)
    | Arr(items: seq<Json>)
    | Obj(fields: map<string, Json>)

  /** One dataset entry; `animeIds` pairs each provider with the entry's id there. */
  datatype Entry = Entry(
    media: Option<Media>, tmdbIds: set<(Media, string)>, imdbIds: set<string>, animeIds: map<string, string>,
    wholeTitle: bool)

  const ANIME_PROVIDERS := ["mal", "anilist", "anidb"]

  function Get(row: map<string, Json>, name: string): Json {
    if name in row then row[name] else Null
  }

  function PositiveId(v: Json): Option<string> {
    match v
    case Int(i) => if i > 0 then Some(Digits(i)) else None
    case Str(s) => if IsDigits(s) && Number(s) > 0 then Some(Digits(Number(s))) else None
    case _ => None
  }

  function ImdbOf(v: Json): Option<string> {
    match v
    case Str(s) => NormalizedImdb(s)
    case _ => None
  }

  /** A list as it is, nothing for null, anything else as its only element. */
  function Values(v: Json): seq<Json> {
    match v
    case Arr(items) => items
    case Null => []
    case _ => [v]
  }

  function Upper(s: string): string {
    seq(|s|, i requires 0 <= i < |s| => if 'a' <= s[i] <= 'z' then (s[i] as int - 32) as char else s[i])
  }

  function MediaOfType(row: map<string, Json>): Option<Media> {
    match Get(row, "type")
    case Str(s) =>
      var t := Upper(s);
      if t == "MOVIE" then Some(Movie) else if t == "TV" || t == "ONA" then Some(Tv) else None
    case _ => None
  }

  function Namespace(name: string): Option<Media> {
    if name == "movie" then Some(Movie) else if name == "tv" then Some(Tv) else None
  }

  // ---------- the entry of a row, part by part ----------

  /** The TMDB block; a scalar or a list has lost its namespaces. */
  function TmdbBlock(row: map<string, Json>): (map<string, Json>, bool) {
    match Get(row, "themoviedb_id")
    case Null => (map[], true)
    case Obj(fields) => (fields, true)
    case _ => (map[], false)
  }

  ghost function TmdbIds(block: map<string, Json>): set<(Media, string)> {
    set name, v | name in block && Namespace(name).Some? && v in Values(block[name]) && PositiveId(v).Some? ::
      (Namespace(name).value, PositiveId(v).value)
  }

  ghost predicate TmdbClean(block: map<string, Json>) {
    forall name <- block :: Namespace(name).Some? && forall v <- Values(block[name]) :: PositiveId(v).Some?
  }

  ghost function ImdbIds(values: seq<Json>): set<string> {
    set v | v in values && ImdbOf(v).Some? :: ImdbOf(v).value
  }

  ghost predicate ImdbClean(values: seq<Json>) {
    forall v <- values :: ImdbOf(v).Some?
  }

  ghost function AnimeIds(row: map<string, Json>): map<string, string> {
    map p | p in ANIME_PROVIDERS && PositiveId(Get(row, p + "_id")).Some? :: PositiveId(Get(row, p + "_id")).value
  }

  ghost predicate AnimeClean(row: map<string, Json>) {
    forall p <- ANIME_PROVIDERS :: Get(row, p + "_id") == Null || PositiveId(Get(row, p + "_id")).Some?
  }

  ghost predicate AllInt(fields: map<string, Json>, n: int) {
    forall name <- fields :: fields[name] == Int(n)
  }

  /** A series stands for the whole title only as first season without an episode offset. */
  ghost predicate WholeSeries(row: map<string, Json>, hasTmdb: bool) {
    var seasons := Get(row, "season");
    var offsets := if "episode_offset" in row then row["episode_offset"] else Obj(map[]);
    && seasons.Obj? && seasons.fields != map[] && AllInt(seasons.fields, 1) && (hasTmdb ==> "tmdb" in seasons.fields)
    && offsets.Obj? && AllInt(offsets.fields, 0)
  }

  ghost function EntryOf(row: map<string, Json>): Entry {
    var media := MediaOfType(row);
    var (block, scoped) := TmdbBlock(row);
    var tmdbIds := TmdbIds(block);
    var imdb := Values(Get(row, "imdb_id"));
    var imdbIds := ImdbIds(imdb);
    var animeIds := AnimeIds(row);
    var whole :=
      && media.Some? && scoped && TmdbClean(block) && ImdbClean(imdb) && AnimeClean(row)
      && |tmdbIds| <= 1 && |imdbIds| <= 1
      && (forall t <- tmdbIds :: Some(t.0) == media)
      && (media == Some(Tv) ==> WholeSeries(row, tmdbIds != {}))
      && "mal" in animeIds;
    Entry(media, tmdbIds, imdbIds, animeIds, whole)
  }

  // ---------- when an entry stands for a whole title ----------

  /** An id is a positive whole number, written as a number or in digits. */
  lemma PositiveIdMeans(v: Json, id: string)
    ensures PositiveId(v) == Some(id) <==>
              exists n: nat :: n > 0 && id == Digits(n)
                && (v == Int(n) || (v.Str? && IsDigits(v.s) && Number(v.s) == n))
  {
    hide Digits, IsDigits, Number;
    if PositiveId(v) == Some(id) {
      match v
      case Int(i) => assert i > 0 && id == Digits(i);
      case Str(s) => assert Number(s) > 0 && id == Digits(Number(s));
    }
  }

  /** The format counts whatever the case of its letters. */
  lemma MediaMeans(row: map<string, Json>, media: Media)
    ensures MediaOfType(row) == Some(media) <==>
              && "type" in row && row["type"].Str?
              && var s := row["type"].s;
                 match media
                 case Movie => |s| == 5 && s[0] in "mM" && s[1] in "oO" && s[2] in "vV" && s[3] in "iI" && s[4] in "eE"
                 case Tv => (|s| == 2 && s[0] in "tT" && s[1] in "vV")
                            || (|s| == 3 && s[0] in "oO" && s[1] in "nN" && s[2] in "aA")
  {
    if "type" in row && row["type"].Str? {
      var s := row["type"].s;
      var t := Upper(s);
      assert t == "MOVIE" <==> |t| == 5 && t[0] == 'M' && t[1] == 'O' && t[2] == 'V' && t[3] == 'I' && t[4] == 'E';
      assert t == "TV" <==> |t| == 2 && t[0] == 'T' && t[1] == 'V';
      assert t == "ONA" <==> |t| == 3 && t[0] == 'O' && t[1] == 'N' && t[2] == 'A';
    }
  }

  /** All these values are ids, and the same one. */
  ghost predicate AgreeOn<T(!new)>(values: seq<Json>, id: Json -> Option<T>) {
    forall v <- values, w <- values :: id(v).Some? && id(v) == id(w)
  }

  /** No value at all, as when the field is missing. */
  ghost predicate Missing(row: map<string, Json>, name: string) {
    name !in row || row[name] == Null
  }

  /**
   What a row must say to stand for one whole film or series: one id of each kind at most and every
   one usable, TMDB ids of its own kind only, a MAL id; and for a series nothing but first seasons,
   TMDB's among them if it has a TMDB id, with no episode offset.
   */
  ghost predicate Whole(row: map<string, Json>, media: Media) {
    && MediaOfType(row) == Some(media)
    && (Missing(row, "themoviedb_id")
        || (&& row["themoviedb_id"].Obj?
            && OwnNamespace(row["themoviedb_id"].fields, media)))
    && (Missing(row, "imdb_id") || AgreeOn(Values(row["imdb_id"]), ImdbOf))
    && (forall name <- ["mal_id", "anilist_id", "anidb_id"] :: Missing(row, name) || PositiveId(row[name]).Some?)
    && !Missing(row, "mal_id")
    && (media == Tv ==> FirstSeasons(row) && NoOffsets(row))
  }

  ghost predicate OwnNamespace(block: map<string, Json>, media: Media) {
    forall name <- block ::
      && name in {"movie", "tv"} && AgreeOn(Values(block[name]), PositiveId)
      && (name == (if media == Movie then "tv" else "movie") ==> Values(block[name]) == [])
  }

  ghost predicate FirstSeasons(row: map<string, Json>) {
    && "season" in row && row["season"].Obj? && row["season"].fields.Keys != {}
    && (forall name <- row["season"].fields :: row["season"].fields[name] == Int(1))
    && (HasTmdbId(row) ==> "tmdb" in row["season"].fields)
  }

  ghost predicate NoOffsets(row: map<string, Json>) {
    "episode_offset" in row ==>
      row["episode_offset"].Obj? && forall v <- row["episode_offset"].fields.Values :: v == Int(0)
  }

  ghost predicate HasTmdbId(row: map<string, Json>) {
    && "themoviedb_id" in row && row["themoviedb_id"].Obj?
    && exists name <- row["themoviedb_id"].fields ::
         name in {"movie", "tv"} && exists v <- Values(row["themoviedb_id"].fields[name]) :: PositiveId(v).Some?
  }

  /** An entry is a whole title exactly when its row says all that. */
  lemma WholeTitleMeans(row: map<string, Json>, media: Media)
    ensures EntryOf(row).media == Some(media) && EntryOf(row).wholeTitle <==> Whole(row, media)
  {
    var block := TmdbBlock(row).0;
    var imdb := Values(Get(row, "imdb_id"));
    TmdbMeans(block, media);
    ImdbMeans(imdb);
    AnimeMeans(row);
    IdsOfBlock(row);
    SeasonsMean(row, TmdbIds(block) != {});
    assert Get(row, "imdb_id") == Null ==> imdb == [] && AgreeOn(imdb, ImdbOf);
    hide PositiveId, ImdbOf, TmdbIds, TmdbClean, ImdbIds, ImdbClean, AnimeIds, AnimeClean, Namespace, MediaOfType;
    hide WholeSeries, FirstSeasons, NoOffsets, HasTmdbId, AgreeOn, OwnNamespace;
  }

  lemma AtMostOne<T>(s: set<T>)
    ensures |s| <= 1 <==> forall a <- s, b <- s :: a == b
  {
    if a :| a in s {
      if |s| > 1 {
        var b :| b in s - {a} by {
          assert |s - {a}| > 0;
        }
      } else {
        assert |s - {a}| == 0;
        assert forall b <- s :: b != a ==> b in s - {a};
      }
    }
  }

  /** The ids of the block are all of the media type, and all the same. */
  ghost predicate OneOwnId(block: map<string, Json>, media: Media) {
    TmdbClean(block) && |TmdbIds(block)| <= 1 && forall t <- TmdbIds(block) :: t.0 == media
  }

  lemma TmdbMeans(block: map<string, Json>, media: Media)
    ensures OneOwnId(block, media) <==> OwnNamespace(block, media)
  {
    if OneOwnId(block, media) {
      OneIdIsOwn(block, media);
    }
    if OwnNamespace(block, media) {
      OwnIsOneId(block, media);
    }
  }

  lemma OneIdIsOwn(block: map<string, Json>, media: Media)
    requires OneOwnId(block, media)
    ensures OwnNamespace(block, media)
  {
    hide PositiveId, Values;
    AtMostOne(TmdbIds(block));
    forall name | name in block
      ensures AgreeOn(Values(block[name]), PositiveId) && Namespace(name).Some?
      ensures Namespace(name) != Some(media) ==> Values(block[name]) == []
    {
      forall v | v in Values(block[name])
        ensures PositiveId(v).Some? && (Namespace(name).value, PositiveId(v).value) in TmdbIds(block)
      {}
      if Values(block[name]) != [] {
        assert Values(block[name])[0] in Values(block[name]);
      }
    }
  }

  lemma OwnIsOneId(block: map<string, Json>, media: Media)
    requires OwnNamespace(block, media)
    ensures OneOwnId(block, media)
  {
    hide PositiveId, Values;
    AtMostOne(TmdbIds(block));
    var own := if media == Movie then "movie" else "tv";
    forall t | t in TmdbIds(block)
      ensures t.0 == media && own in block && exists v <- Values(block[own]) :: PositiveId(v) == Some(t.1)
    {
      var name, v :| name in block && Namespace(name).Some? && v in Values(block[name]) && PositiveId(v).Some?
                     && t == (Namespace(name).value, PositiveId(v).value);
    }
  }

  lemma ImdbMeans(values: seq<Json>)
    ensures ImdbClean(values) && |ImdbIds(values)| <= 1 <==> AgreeOn(values, ImdbOf)
  {
    hide ImdbOf;
    AtMostOne(ImdbIds(values));
    if ImdbClean(values) && |ImdbIds(values)| <= 1 {
      assert forall v <- values :: ImdbOf(v).value in ImdbIds(values);
    }
  }

  lemma AnimeMeans(row: map<string, Json>)
    ensures AnimeClean(row) && "mal" in AnimeIds(row)
            <==> && (forall name <- ["mal_id", "anilist_id", "anidb_id"] ::
                       Missing(row, name) || PositiveId(row[name]).Some?)
                 && !Missing(row, "mal_id")
  {
    hide PositiveId;
    var names := ["mal_id", "anilist_id", "anidb_id"];
    assert "mal" + "_id" == names[0] && "anilist" + "_id" == names[1] && "anidb" + "_id" == names[2];
    assert ANIME_PROVIDERS[0] == "mal" && ANIME_PROVIDERS[1] == "anilist" && ANIME_PROVIDERS[2] == "anidb";
    assert forall p <- ANIME_PROVIDERS :: p + "_id" in names;
    assert forall name <- names :: name == "mal" + "_id" || name == "anilist" + "_id" || name == "anidb" + "_id";
    NullIsNoId();
  }

  lemma NullIsNoId()
    ensures PositiveId(Null).None?
  {}

  lemma SeasonsMean(row: map<string, Json>, hasTmdb: bool)
    requires hasTmdb <==> HasTmdbId(row)
    ensures WholeSeries(row, hasTmdb) <==> FirstSeasons(row) && NoOffsets(row)
  {
    hide HasTmdbId;
    if "season" in row && row["season"].Obj? {
      assert row["season"].fields != map[] <==> row["season"].fields.Keys != {};
    }
    if "episode_offset" in row && row["episode_offset"].Obj? {
      var offsets := row["episode_offset"].fields;
      assert forall name <- offsets :: offsets[name] in offsets.Values;
    }
  }

  lemma IdsOfBlock(row: map<string, Json>)
    ensures TmdbIds(TmdbBlock(row).0) != {} <==> HasTmdbId(row)
  {
    hide PositiveId, Values;
    var block := TmdbBlock(row).0;
    assert forall name :: Namespace(name).Some? <==> name in {"movie", "tv"};
    if HasTmdbId(row) {
      var name :| name in block && name in {"movie", "tv"} && exists v <- Values(block[name]) :: PositiveId(v).Some?;
      var v :| v in Values(block[name]) && PositiveId(v).Some?;
      assert (Namespace(name).value, PositiveId(v).value) in TmdbIds(block);
    }
  }

  // ---------- a plain row ----------

  /** A dataset row that names one whole title by all its ids. */
  ghost function PlainRow(media: Media, tmdb: nat, imdb: string, mal: nat): map<string, Json> {
    map[
      "type" := Str(if media == Movie then "Movie" else "Ona"),
      "themoviedb_id" := Obj(map[if media == Movie then "movie" else "tv" := Int(tmdb)]),
      "imdb_id" := Str(imdb),
      "mal_id" := Int(mal),
      "season" := Obj(map["tmdb" := Int(1)])]
  }

  /** Such a row is read as a whole title with exactly these ids. */
  lemma PlainRowReadsBack(media: Media, tmdb: nat, imdb: string, mal: nat)
    requires tmdb > 0 && mal > 0 && ImdbTitleId(imdb)
    ensures EntryOf(PlainRow(media, tmdb, imdb, mal))
            == Entry(Some(media), {(media, Digits(tmdb))}, {imdb}, map["mal" := Digits(mal)], true)
  {
    hide Digits, Trim, ImdbTitleId, NormalizedImdb, Upper;
    var row := PlainRow(media, tmdb, imdb, mal);
    PlainFields(media, tmdb, imdb, mal);
    PlainType(media);
    PlainBlock(media, tmdb, TmdbBlock(row).0);
    NormalizingIsStable(imdb);
    PlainImdb(imdb);
    PlainAnime(row, mal);
    hide PlainRow, TmdbIds, TmdbClean, ImdbIds, ImdbClean, AnimeIds, AnimeClean, Get, Values;
    assert |{(media, Digits(tmdb))}| == 1 && |{imdb}| == 1;
    PlainSeason(row);
  }

  lemma PlainFields(media: Media, tmdb: nat, imdb: string, mal: nat)
    ensures var row := PlainRow(media, tmdb, imdb, mal);
            && Get(row, "type") == Str(if media == Movie then "Movie" else "Ona")
            && Get(row, "themoviedb_id") == Obj(map[if media == Movie then "movie" else "tv" := Int(tmdb)])
            && Get(row, "imdb_id") == Str(imdb) && Get(row, "mal_id") == Int(mal)
            && Get(row, "anilist_id") == Null && Get(row, "anidb_id") == Null
            && Get(row, "season") == Obj(map["tmdb" := Int(1)]) && "episode_offset" !in row
  {}

  lemma PlainSeason(row: map<string, Json>)
    requires Get(row, "season") == Obj(map["tmdb" := Int(1)]) && "episode_offset" !in row
    ensures WholeSeries(row, true)
  {
    assert "tmdb" in map["tmdb" := Int(1)];
  }

  lemma PlainType(media: Media)
    ensures Upper(if media == Movie then "Movie" else "Ona") == if media == Movie then "MOVIE" else "ONA"
  {}

  lemma PlainBlock(media: Media, tmdb: nat, block: map<string, Json>)
    requires tmdb > 0 && block == map[if media == Movie then "movie" else "tv" := Int(tmdb)]
    ensures TmdbIds(block) == {(media, Digits(tmdb))} && TmdbClean(block)
  {
    hide Digits;
    var name := if media == Movie then "movie" else "tv";
    assert Namespace(name) == Some(media) && PositiveId(Int(tmdb)) == Some(Digits(tmdb));
    assert name in block && Int(tmdb) in Values(block[name]);
    assert forall n <- block :: n == name && Values(block[n]) == [Int(tmdb)];
    assert (media, Digits(tmdb)) in TmdbIds(block);
    forall id | id in TmdbIds(block)
      ensures id == (media, Digits(tmdb))
    {
      var n, v :| n in block && Namespace(n).Some? && v in Values(block[n]) && PositiveId(v).Some?
                  && id == (Namespace(n).value, PositiveId(v).value);
    }
  }

  lemma PlainImdb(imdb: string)
    requires NormalizedImdb(imdb) == Some(imdb)
    ensures ImdbIds(Values(Str(imdb))) == {imdb} && ImdbClean(Values(Str(imdb)))
  {
    hide NormalizedImdb;
    assert Str(imdb) in Values(Str(imdb));
  }

  lemma PlainAnime(row: map<string, Json>, mal: nat)
    requires mal > 0 && Get(row, "mal_id") == Int(mal) && Get(row, "anilist_id") == Null && Get(row, "anidb_id") == Null
    ensures AnimeIds(row) == map["mal" := Digits(mal)] && AnimeClean(row)
  {
    hide Digits, Get;
    assert "mal" + "_id" == "mal_id" && "anilist" + "_id" == "anilist_id" && "anidb" + "_id" == "anidb_id";
    assert ANIME_PROVIDERS[0] == "mal" && ANIME_PROVIDERS[1] == "anilist" && ANIME_PROVIDERS[2] == "anidb";
  }

  // ---------- the loops that read a row ----------

  method ReadTmdbIds(block: map<string, Json>) returns (ids: set<(Media, string)>, clean: bool)
    ensures ids == TmdbIds(block) && clean == TmdbClean(block)
  {
    ids, clean := {}, true;
    var names := block.Keys;
    ghost var done: map<string, Json> := map[];
    while names != {}
      invariant names <= block.Keys && done == block - names
      invariant ids == TmdbIds(done) && clean == TmdbClean(done)
      decreases names
    {
      var name :| name in names;
      names := names - {name};
      ghost var before := done;
      done := done[name := block[name]];
      assert done == block - names;
      if Namespace(name).None? {
        clean := false;
        assert TmdbIds(done) == TmdbIds(before);
        continue;
      }
      var more, allGood := ReadIds(Namespace(name).value, Values(block[name]));
      ids, clean := ids + more, clean && allGood;
      NamespaceAdds(before, name, block[name]);
    }
    assert done == block;
  }

  lemma NamespaceAdds(before: map<string, Json>, name: string, v: Json)
    requires name !in before && Namespace(name).Some?
    ensures TmdbIds(before[name := v]) == TmdbIds(before) + IdsIn(Namespace(name).value, Values(v))
    ensures TmdbClean(before[name := v]) <==> TmdbClean(before) && forall x <- Values(v) :: PositiveId(x).Some?
  {
    hide PositiveId, Values, Namespace;
    var after := before[name := v];
    forall id | id in TmdbIds(before) + IdsIn(Namespace(name).value, Values(v))
      ensures id in TmdbIds(after)
    {
      if id in TmdbIds(before) {
        var n, x :| n in before && Namespace(n).Some? && x in Values(before[n]) && PositiveId(x).Some?
                    && id == (Namespace(n).value, PositiveId(x).value);
        assert n in after && after[n] == before[n];
      } else {
        var x :| x in Values(v) && PositiveId(x).Some? && id == (Namespace(name).value, PositiveId(x).value);
        assert after[name] == v;
      }
    }
    if TmdbClean(after) {
      assert forall n <- before :: n in after && after[n] == before[n];
      assert after[name] == v;
    }
  }

  ghost function IdsIn(media: Media, values: seq<Json>): set<(Media, string)> {
    set v | v in values && PositiveId(v).Some? :: (media, PositiveId(v).value)
  }

  method ReadIds(media: Media, values: seq<Json>) returns (ids: set<(Media, string)>, clean: bool)
    ensures ids == IdsIn(media, values)
    ensures clean <==> forall v <- values :: PositiveId(v).Some?
  {
    ids, clean := {}, true;
    for i := 0 to |values|
      invariant ids == IdsIn(media, values[..i])
      invariant clean <==> forall v <- values[..i] :: PositiveId(v).Some?
    {
      var v := values[i];
      assert values[..i + 1] == values[..i] + [v];
      if PositiveId(v).None? {
        clean := false;
      } else {
        ids := ids + {(media, PositiveId(v).value)};
      }
    }
    assert values[..|values|] == values;
  }

  method ReadImdbIds(values: seq<Json>) returns (ids: set<string>, clean: bool)
    ensures ids == ImdbIds(values) && clean == ImdbClean(values)
  {
    ids, clean := {}, true;
    for i := 0 to |values|
      invariant ids == ImdbIds(values[..i]) && clean == ImdbClean(values[..i])
    {
      var v := values[i];
      assert values[..i + 1] == values[..i] + [v];
      if ImdbOf(v).None? {
        clean := false;
      } else {
        ids := ids + {ImdbOf(v).value};
      }
    }
    assert values[..|values|] == values;
  }

  method ReadAnimeIds(row: map<string, Json>) returns (ids: map<string, string>, clean: bool)
    ensures ids == AnimeIds(row) && clean == AnimeClean(row)
  {
    ids, clean := map[], true;
    for i := 0 to |ANIME_PROVIDERS|
      invariant ids == map p | p in ANIME_PROVIDERS[..i] && PositiveId(Get(row, p + "_id")).Some? ::
                  PositiveId(Get(row, p + "_id")).value
      invariant clean <==> forall p <- ANIME_PROVIDERS[..i] ::
                              Get(row, p + "_id") == Null || PositiveId(Get(row, p + "_id")).Some?
    {
      var p := ANIME_PROVIDERS[i];
      assert ANIME_PROVIDERS[..i + 1] == ANIME_PROVIDERS[..i] + [p];
      var raw := Get(row, p + "_id");
      var id := PositiveId(raw);
      if raw != Null && id.None? {
        clean := false;
      }
      if id.Some? {
        ids := ids[p := id.value];
      }
    }
    assert ANIME_PROVIDERS[..|ANIME_PROVIDERS|] == ANIME_PROVIDERS;
  }

  /** Whether a series is nothing but a first season without an episode offset. */
  method ReadSeasons(row: map<string, Json>, hasTmdb: bool) returns (safe: bool)
    ensures safe == WholeSeries(row, hasTmdb)
  {
    var seasons := Get(row, "season");
    var offsets := if "episode_offset" in row then row["episode_offset"] else Obj(map[]);
    safe := seasons.Obj? && seasons.fields != map[];
    if seasons.Obj? {
      safe := safe && forall name <- seasons.fields :: seasons.fields[name] == Int(1);
      if hasTmdb {
        safe := safe && Get(seasons.fields, "tmdb") == Int(1);
      }
    }
    safe := safe && offsets.Obj?;
    if offsets.Obj? {
      safe := safe && forall name <- offsets.fields :: offsets.fields[name] == Int(0);
    }
  }

  /** Reads a row; the entry stands for a whole title exactly when the row says so. */
  method ReadRow(row: map<string, Json>) returns (entry: Entry)
    ensures entry == EntryOf(row)
    ensures forall media :: entry.media == Some(media) && entry.wholeTitle <==> Whole(row, media)
  {
    forall media: Media
      ensures EntryOf(row).media == Some(media) && EntryOf(row).wholeTitle <==> Whole(row, media)
    {
      WholeTitleMeans(row, media);
    }
    hide Whole, WholeSeries, PositiveId, ImdbOf, TmdbIds, TmdbClean, ImdbIds, ImdbClean, AnimeIds, AnimeClean;
    var media := MediaOfType(row);
    var (block, safe) := TmdbBlock(row);
    var tmdbIds, cleanTmdb := ReadTmdbIds(block);
    var imdbIds, cleanImdb := ReadImdbIds(Values(Get(row, "imdb_id")));
    var animeIds, cleanAnime := ReadAnimeIds(row);
    safe := media.Some? && safe && cleanTmdb && cleanImdb && cleanAnime;
    safe := safe && |tmdbIds| <= 1 && |imdbIds| <= 1;
    safe := safe && forall t <- tmdbIds :: Some(t.0) == media;
    if media == Some(Tv) {
      var wholeSeries := ReadSeasons(row, tmdbIds != {});
      safe := safe && wholeSeries;
    }
    safe := safe && "mal" in animeIds;
    entry := Entry(media, tmdbIds, imdbIds, animeIds, safe);
  }
}
