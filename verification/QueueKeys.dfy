/** The keys of the three queue tables, and which mappings may be submitted at all. */
module QueueKeys {
  import opened Titles

  // `tag` is the `label` column of the rating tables.
  datatype RatingKey = RatingKey(title: Key, tag: string)

  datatype MappingKey = MappingKey(title: Key, idType: string)

  datatype EpisodeKey = EpisodeKey(title: Key, season: int, episode: int, tag: string)

  /** Ids of these types are kept for local use only. */
  predicate NeverSubmitted(k: MappingKey) {
    k.idType in {"anilist", "anidb"}
  }

  predicate Eligible(k: MappingKey, held: set<MappingKey>) {
    !NeverSubmitted(k) && k !in held
  }

  function MalKey(title: Key): MappingKey {
    MappingKey(title, "mal")
  }
}
