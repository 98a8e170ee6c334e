/** Whether a MAL record describes the same complete work as a TMDB title. */
module MalEligibility {
  import opened Wrappers
  import opened Titles

  /** TMDB details; titles are comparison keys, and a date that is missing or not a full date is empty. */
  datatype Details = Details(
    titles: set<string>, release: string, status: string, seasons: Option<int>, episodes: Option<int>,
    firstAir: string, lastAir: string)

  /** A MAL record; `score` is in tenths of the 0-100 scale, if there is a usable one. */
  datatype Anime = Anime(
    malId: Option<int>, titles: set<string>, aired: Option<(string, string)>, format: string, status: string,
    episodes: Option<int>, score: Option<int>)

  datatype Why =
    | TitleMismatch | MissingAirDates | FormatMismatch | ReleaseYearMismatch | IncompleteSeries
    | MultipleOrUnknownSeasons | EpisodeCountMismatch | AirDatesMismatch

  function Year(date: string): string {
    if |date| < 4 then date else date[..4]
  }

  /** The first reason against the record, in the order in which the reasons are looked at. */
  function Objection(media: Media, details: Details, anime: Anime): Option<Why> {
    if (details.titles * anime.titles) - {""} == {} then Some(TitleMismatch)
    else if anime.aired.None? then Some(MissingAirDates)
    else
      var (start, end) := anime.aired.value;
      if media == Movie then
        if anime.format != "Movie" then Some(FormatMismatch)
        else if start != "" && details.release != "" && Year(start) == Year(details.release) then None
        else Some(ReleaseYearMismatch)
      else if anime.format != "TV" && anime.format != "ONA" then Some(FormatMismatch)
      else if details.status != "Ended" || anime.status != "Finished Airing" then Some(IncompleteSeries)
      else if details.seasons != Some(1) then Some(MultipleOrUnknownSeasons)
      else if anime.episodes.None? || anime.episodes.value <= 0 || anime.episodes != details.episodes then
        Some(EpisodeCountMismatch)
      else if start == "" || end == "" || start != details.firstAir || end != details.lastAir then
        Some(AirDatesMismatch)
      else None
  }

  /** What makes a record acceptable, for films and for series. */
  ghost predicate SameWork(media: Media, details: Details, anime: Anime) {
    && (exists t <- details.titles :: t != "" && t in anime.titles)
    && anime.aired.Some?
    && match media
       case Movie =>
         && anime.format == "Movie" && "" !in {anime.aired.value.0, details.release}
         && Year(anime.aired.value.0) == Year(details.release)
       case Tv =>
         && anime.format in {"TV", "ONA"} && details.status == "Ended" && anime.status == "Finished Airing"
         && details.seasons == Some(1) && anime.episodes.Some? && anime.episodes.value > 0
            && anime.episodes == details.episodes
         && "" !in {details.firstAir, details.lastAir} && anime.aired.value == (details.firstAir, details.lastAir)
  }

  /** Each reason stands for the first thing that does not fit. */
  ghost predicate FirstMisfit(media: Media, details: Details, anime: Anime, why: Why) {
    var titled := exists t <- anime.titles :: t != "" && t in details.titles;
    var dated := titled && anime.aired.Some?;
    var formed := dated && anime.format in match media case Movie => {"Movie"} case Tv => {"ONA", "TV"};
    var (start, end) := if anime.aired.Some? then anime.aired.value else ("", "");
    var ended := formed && media == Tv && details.status == "Ended" && anime.status == "Finished Airing";
    var single := ended && details.seasons == Some(1);
    var counted := single && exists n :: n > 0 && anime.episodes == Some(n) == details.episodes;
    match why
    case TitleMismatch => !titled
    case MissingAirDates => titled && !dated
    case FormatMismatch => dated && !formed
    case ReleaseYearMismatch =>
      formed && media == Movie && (start == "" || details.release == "" || Year(start) != Year(details.release))
    case IncompleteSeries => formed && media == Tv && !ended
    case MultipleOrUnknownSeasons => ended && !single
    case EpisodeCountMismatch => single && !counted
    case AirDatesMismatch =>
      counted && (start == "" || end == "" || (start, end) != (details.firstAir, details.lastAir))
  }

  lemma ObjectionIsFirstMisfit(media: Media, details: Details, anime: Anime, why: Why)
    ensures Objection(media, details, anime) == Some(why) <==> FirstMisfit(media, details, anime, why)
  {
    var shared := (details.titles * anime.titles) - {""};
    assert shared != {} <==> exists t <- anime.titles :: t != "" && t in details.titles by {
      if t :| t in anime.titles && t != "" && t in details.titles {
        assert t in shared;
      }
    }
    assert anime.episodes.Some? && anime.episodes.value > 0 && anime.episodes == details.episodes
           <==> exists n :: n > 0 && anime.episodes == Some(n) == details.episodes;
  }

  /** The year of a full date is its first four characters. */
  lemma YearMeans(date: string)
    ensures |date| >= 4 ==> |Year(date)| == 4 && Year(date) <= date
  {}

  lemma NoObjectionMeansSameWork(media: Media, details: Details, anime: Anime)
    ensures Objection(media, details, anime).None? <==> SameWork(media, details, anime)
  {
    var shared := (details.titles * anime.titles) - {""};
    assert shared != {} <==> exists t <- details.titles :: t != "" && t in anime.titles by {
      if t :| t in shared {
        assert t in details.titles && t in anime.titles;
      }
      if t :| t in details.titles && t != "" && t in anime.titles {
        assert t in shared;
      }
    }
  }
}
