/** Titles as the service knows them: a TMDB id within a media type. */
module Titles {
  datatype Media = Movie | Tv

  datatype Key = Key(media: Media, tmdb: int)
}
