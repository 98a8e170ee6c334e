/** How submission workers choose their next piece of work. */
module Workers {
  import opened Wrappers
  import opened LocalDatabase
  import opened QueueKeys
  import opened QueueOrder
  import opened QueueProtocol
  import opened QueueRows
  import opened Settlement
  import opened Titles

  datatype Work =
    | Mappings(group: seq<Ticket<MappingKey, string>>)
    | Rating(ticket: Ticket<RatingKey, int>)
    | Episodes(batch: seq<Ticket<EpisodeKey, int>>)
  {
    function Kind(): QueueKind {
      match this
      case Mappings(_) => MappingQueue
      case Rating(_) => RatingQueue
      case Episodes(_) => EpisodeQueue
    }
  }

  /** The fixed order in which a worker tries the queues. */
  function QueueOrderFor(workerId: int, workerCount: int): seq<QueueKind> {
    var count := if workerCount < 1 then 1 else workerCount;
    var id := if workerId < 1 then 1 else if workerId > count then count else workerId;
    if count == 1 then [MappingQueue, RatingQueue, EpisodeQueue]
    else
      var mappingWorkers := if count / 2 < 1 then 1 else count / 2;
      var share := if count * 3 / 8 < 1 then 1 else count * 3 / 8;
      var ratingWorkers := if mappingWorkers + share > count then count - mappingWorkers else share;
      if id <= mappingWorkers then [MappingQueue, RatingQueue, EpisodeQueue]
      else if id <= mappingWorkers + ratingWorkers then [RatingQueue, MappingQueue, EpisodeQueue]
      else [EpisodeQueue, RatingQueue, MappingQueue]
  }

  /** Every worker tries every queue, and from three workers on each queue is somebody's first choice. */
  lemma EveryQueueIsServed(workerCount: int, kind: QueueKind)
    ensures forall id :: kind in QueueOrderFor(id, workerCount) && |QueueOrderFor(id, workerCount)| == 3
    ensures workerCount >= 3 ==> exists id :: 1 <= id <= workerCount && QueueOrderFor(id, workerCount)[0] == kind
  {
    if workerCount >= 3 {
      var id := match kind
        case MappingQueue => 1
        case RatingQueue => workerCount / 2 + 1
        case EpisodeQueue => workerCount;
      assert QueueOrderFor(id, workerCount)[0] == kind;
    }
  }

  /** The first half of several workers prefers mappings, the next three eighths ratings, the others episodes. */
  lemma OrderByShare(id: int, count: int)
    requires 1 <= id <= count && count >= 2
    ensures var m, r := count / 2, if count < 6 then 1 else count * 3 / 8;
            QueueOrderFor(id, count)
            == if id <= m then [MappingQueue, RatingQueue, EpisodeQueue]
               else if id <= m + r then [RatingQueue, MappingQueue, EpisodeQueue]
               else [EpisodeQueue, RatingQueue, MappingQueue]
  {}

  /** A single worker prefers mappings, and a worker outside the range is taken for the nearest one in it. */
  lemma OrderIsClamped(id: int, count: int)
    ensures count <= 1 ==> QueueOrderFor(id, count) == [MappingQueue, RatingQueue, EpisodeQueue]
    ensures id < 1 ==> QueueOrderFor(id, count) == QueueOrderFor(1, count)
    ensures id > count >= 1 ==> QueueOrderFor(id, count) == QueueOrderFor(count, count)
  {}

  /** How many of the first `ids` workers prefer a queue. */
  ghost function Preferring(kind: QueueKind, workerCount: int, ids: nat): nat {
    if ids == 0 then 0
    else Preferring(kind, workerCount, ids - 1) + if QueueOrderFor(ids, workerCount)[0] == kind then 1 else 0
  }

  /**
   Of several workers half prefer mappings, three eighths ratings, and the rest episodes; at
   least one for either of the first two.
   */
  lemma WorkersAreShared(workerCount: int)
    requires workerCount >= 2
    ensures Preferring(MappingQueue, workerCount, workerCount) == workerCount / 2
    ensures Preferring(RatingQueue, workerCount, workerCount) == if workerCount < 6 then 1 else workerCount * 3 / 8
    ensures Preferring(EpisodeQueue, workerCount, workerCount)
            == workerCount - workerCount / 2 - if workerCount < 6 then 1 else workerCount * 3 / 8
  {
    SharedUpTo(workerCount, workerCount);
  }

  lemma {:induction false} SharedUpTo(workerCount: int, ids: nat)
    requires 2 <= workerCount && ids <= workerCount
    ensures var m, r := workerCount / 2, if workerCount < 6 then 1 else workerCount * 3 / 8;
            && Preferring(MappingQueue, workerCount, ids) == (if ids <= m then ids else m)
            && Preferring(RatingQueue, workerCount, ids)
               == (if ids <= m then 0 else if ids <= m + r then ids - m else r)
            && Preferring(EpisodeQueue, workerCount, ids) == (if ids <= m + r then 0 else ids - m - r)
  {
    if ids > 0 {
      SharedUpTo(workerCount, ids - 1);
    }
  }

  // ---------- which queue is served ----------

  /** The first queue of the order that has due work. */
  ghost predicate FirstWithWork(db: Db, order: seq<QueueKind>, i: nat, now: int)
    reads db
  {
    i < |order| && db.DueCount(order[i], now) > 0 && forall j :: 0 <= j < i ==> db.DueCount(order[j], now) == 0
  }

  /** The oldest due row of the queue was fetched at `at`. */
  ghost predicate OldestAt(db: Db, kind: QueueKind, at: int, now: int)
    reads db
  {
    db.DueBefore(kind, at + 1, now) && !db.DueBefore(kind, at, now)
  }

  /** No queue has an older due row than the oldest one of this queue. */
  ghost predicate HasOldest(db: Db, kind: QueueKind, now: int)
    reads db
  {
    exists at :: OldestAt(db, kind, at, now) && forall k: QueueKind :: !db.DueBefore(k, at, now)
  }

  /** A queue later in the order has an older due row than the oldest one of queue `i`. */
  ghost predicate Overtakes(db: Db, order: seq<QueueKind>, i: nat, now: int)
    requires i < |order|
    reads db
  {
    exists at, j :: OldestAt(db, order[i], at, now) && i < j < |order| && db.DueBefore(order[j], at, now)
  }

  /**
   The oldest due row of all queues is served exactly if no queue later in the worker's order
   has a due row that was fetched before the oldest one of the first queue with work.
   */
  lemma OldestIsServedExactlyWhen(db: Db, workerId: int, workerCount: int, i: nat, now: int)
    requires FirstWithWork(db, QueueOrderFor(workerId, workerCount), i, now)
    ensures var order := QueueOrderFor(workerId, workerCount);
            HasOldest(db, order[i], now) <==> !Overtakes(db, order, i, now)
  {
    var order := QueueOrderFor(workerId, workerCount);
    EveryQueueIsInOrder(workerId, workerCount);
    var at := OldestOf(db, order[i], now);
    hide QueueOrderFor;
    forall other | OldestAt(db, order[i], other, now)
      ensures other == at
    {
      SameOldest(db, order[i], at, other, now);
    }
    forall j | 0 <= j < i
      ensures !db.DueBefore(order[j], at, now)
    {
      NothingBefore(db, order[j], at, now);
    }
    hide *;
    if !Overtakes(db, order, i, now) {
      NobodyBefore(db, order, i, at, now);
    } else {
      SomebodyBefore(db, order, i, at, now);
    }
  }

  lemma EveryQueueIsInOrder(workerId: int, workerCount: int)
    ensures forall kind: QueueKind :: kind in QueueOrderFor(workerId, workerCount)
  {
    forall kind: QueueKind
      ensures kind in QueueOrderFor(workerId, workerCount)
    {
      EveryQueueIsServed(workerCount, kind);
    }
  }

  lemma NobodyBefore(db: Db, order: seq<QueueKind>, i: nat, at: int, now: int)
    requires (forall kind: QueueKind :: kind in order) && i < |order|
    requires OldestAt(db, order[i], at, now) && !Overtakes(db, order, i, now)
    requires forall j :: 0 <= j < i ==> !db.DueBefore(order[j], at, now)
    ensures HasOldest(db, order[i], now)
  {
    forall k: QueueKind
      ensures !db.DueBefore(k, at, now)
    {
      assert k in order;
      var j :| 0 <= j < |order| && order[j] == k;
    }
  }

  lemma SomebodyBefore(db: Db, order: seq<QueueKind>, i: nat, at: int, now: int)
    requires i < |order| && Overtakes(db, order, i, now)
    requires forall other :: OldestAt(db, order[i], other, now) ==> other == at
    ensures !HasOldest(db, order[i], now)
  {
    hide OldestAt;
  }

  lemma SameOldest(db: Db, kind: QueueKind, a: int, b: int, now: int)
    requires OldestAt(db, kind, a, now) && OldestAt(db, kind, b, now)
    ensures a == b
  {
    if a < b {
      BeforeIsMonotone(db, kind, a + 1, b, now);
    } else if b < a {
      BeforeIsMonotone(db, kind, b + 1, a, now);
    }
  }

  lemma BeforeIsMonotone(db: Db, kind: QueueKind, a: int, b: int, now: int)
    requires a <= b && db.DueBefore(kind, a, now)
    ensures db.DueBefore(kind, b, now)
  {}

  lemma NothingBefore(db: Db, kind: QueueKind, at: int, now: int)
    requires db.DueCount(kind, now) == 0
    ensures !db.DueBefore(kind, at, now)
  {
    match kind
    case MappingQueue => assert DueMappings(db.mappings.rows, db.holds.Keys, now) == {};
    case RatingQueue => assert DueKeys(db.ratings.rows, now) == {};
    case EpisodeQueue => assert DueKeys(db.episodes.rows, now) == {};
  }

  lemma OldestOf(db: Db, kind: QueueKind, now: int) returns (at: int)
    requires db.DueCount(kind, now) > 0
    ensures OldestAt(db, kind, at, now)
  {
    match kind
    case MappingQueue => at := MinOf(db.mappings.rows, DueMappings(db.mappings.rows, db.holds.Keys, now));
    case RatingQueue => at := MinOf(db.ratings.rows, DueKeys(db.ratings.rows, now));
    case EpisodeQueue => at := MinOf(db.episodes.rows, DueKeys(db.episodes.rows, now));
  }

  lemma MinOf<K(!new), V>(rows: Table<K, V>, keys: set<K>) returns (at: int)
    requires keys <= rows.Keys && keys != {}
    ensures AllFrom(rows, keys, at) && !AllFrom(rows, keys, at + 1)
  {
    ByAgeOrders(rows, keys);
    LeastExists(keys, ByAge(rows));
    var k :| Least(k, keys, ByAge(rows));
    at := rows[k].fetchedAt;
  }

  // ---------- turns ----------

  /** The worker has exactly this work in hand, and all of it may be submitted. */
  ghost predicate Took(db: Db, worker: nat, work: Work)
    reads db
  {
    match work
    case Mappings(group) =>
      && group != [] && InHand(db.mappings, worker, group)
      && forall t <- group :: t.key in db.mappings.rows && !NeverSubmitted(t.key)
    case Rating(t) =>
      InHand(db.ratings, worker, [t]) && t.key in db.ratings.rows && db.ratings.rows[t.key].itemId == t.row.itemId
    case Episodes(batch) =>
      && batch != [] && InHand(db.episodes, worker, batch)
      && (forall t <- batch :: t.key in db.episodes.rows)
      && forall t <- batch :: t.key.title == batch[0].key.title && t.key.season == batch[0].key.season
  }

  /** The queues with the steps taken on them so far. */
  datatype Queues = Queues(
    ratings: State<RatingKey, int>, mappings: State<MappingKey, string>, episodes: State<EpisodeKey, int>,
    ratingSteps: seq<Step<RatingKey, int>>, mappingSteps: seq<Step<MappingKey, string>>,
    episodeSteps: seq<Step<EpisodeKey, int>>)

  ghost function QueuesOf(db: Db): Queues
    reads db
  {
    Queues(db.ratings, db.mappings, db.episodes, db.ratingSteps, db.mappingSteps, db.episodeSteps)
  }

  /** What a turn does to the queues: the one it serves takes a step, the claim; the others stay as they are. */
  ghost predicate TookOneStep(before: Queues, after: Queues, worker: nat, work: Work, now: int, maxAttempts: int) {
    match work
    case Mappings(group) =>
      && Enabled(before.mappings, Claim(worker, KeysOf(group), now), maxAttempts)
      && after == before.(
           mappings := Next(before.mappings, Claim(worker, KeysOf(group), now)),
           mappingSteps := before.mappingSteps + [Claim(worker, KeysOf(group), now)])
    case Rating(t) =>
      && Enabled(before.ratings, Claim(worker, {t.key}, now), maxAttempts)
      && after == before.(
           ratings := Next(before.ratings, Claim(worker, {t.key}, now)),
           ratingSteps := before.ratingSteps + [Claim(worker, {t.key}, now)])
    case Episodes(batch) =>
      && Enabled(before.episodes, Claim(worker, KeysOf(batch), now), maxAttempts)
      && after == before.(
           episodes := Next(before.episodes, Claim(worker, KeysOf(batch), now)),
           episodeSteps := before.episodeSteps + [Claim(worker, KeysOf(batch), now)])
  }

  /**
   Which rows a turn takes: all due, eligible mappings of the title that owns an oldest one, an
   oldest due rating, or the first due episodes of the season that owns an oldest one.
   */
  ghost predicate Takes(q: Queues, held: set<MappingKey>, work: Work, now: int, episodeBatchSize: int) {
    match work
    case Mappings(group) =>
      var due := DueMappings(q.mappings.rows, held, now);
      && group != [] && KeysOf(group) == OfTitle(due, group[0].key.title)
      && exists k :: Least(k, due, ByAge(q.mappings.rows)) && k.title == group[0].key.title
    case Rating(t) => Least(t.key, DueKeys(q.ratings.rows, now), ByAge(q.ratings.rows))
    case Episodes(batch) =>
      var due := DueKeys(q.episodes.rows, now);
      && batch != [] && (exists k :: Least(k, due, ByAge(q.episodes.rows)) && k in OfSeason(due, batch[0].key))
      && Hands(batch, q.episodes.rows, OfSeason(due, batch[0].key), ByEpisode(q.episodes.rows))
      && var all, limit := |OfSeason(due, batch[0].key)|, if episodeBatchSize > 50 then 50 else episodeBatchSize;
         |batch| == if limit < 1 then 1 else if limit < all then limit else all
  }

  /** The queue is the first one with work, and has the oldest row exactly if no later one overtakes. */
  ghost predicate ServedInOrder(db: Db, order: seq<QueueKind>, kind: QueueKind, now: int)
    reads db
  {
    exists i :: 0 <= i < |order| && order[i] == kind && FirstWithWork(db, order, i, now)
                && (HasOldest(db, kind, now) <==> !Overtakes(db, order, i, now))
  }

  lemma FirstIsServed(db: Db, workerId: int, workerCount: int, i: nat, now: int)
    requires i < |QueueOrderFor(workerId, workerCount)| && db.DueCount(QueueOrderFor(workerId, workerCount)[i], now) > 0
    requires forall j :: 0 <= j < i ==> db.DueCount(QueueOrderFor(workerId, workerCount)[j], now) == 0
    ensures ServedInOrder(db, QueueOrderFor(workerId, workerCount), QueueOrderFor(workerId, workerCount)[i], now)
  {
    hide QueueOrderFor, HasOldest, Overtakes;
    OldestIsServedExactlyWhen(db, workerId, workerCount, i, now);
  }

  /** Claims from one queue; nothing changes exactly when it has no due work. */
  method ClaimFrom(
    db: Db, kind: QueueKind, worker: nat, now: int, episodeBatchSize: int, ghost maxAttempts: int)
    returns (work: Option<Work>)
    requires db.Valid() && db.Idle(worker)
    modifies db`ratings, db`mappings, db`episodes, db`ratingSteps, db`mappingSteps, db`episodeSteps
    ensures db.Valid()
    ensures work.None? <==> old(db.DueCount(kind, now)) == 0
    ensures work.None? ==> unchanged(db)
    ensures work.Some? ==>
              && work.value.Kind() == kind && Took(db, worker, work.value)
              && TookOneStep(old(QueuesOf(db)), QueuesOf(db), worker, work.value, now, maxAttempts)
              && Takes(old(QueuesOf(db)), old(db.holds.Keys), work.value, now, episodeBatchSize)
  {
    hide InHand, Enabled, Next, ByAge, ByEpisode, InOrder, KeysOf, Lists;
    match kind
    case MappingQueue =>
      var group := db.ClaimMappingGroup(worker, now, maxAttempts);
      if group == [] {
        return None;
      }
      HandedTickets(
        group, old(db.mappings.rows),
        OfTitle(old(DueMappings(db.mappings.rows, db.holds.Keys, now)), group[0].key.title),
        ByAge(old(db.mappings.rows)));
      ClaimKeepsKeys(old(db.mappings), worker, KeysOf(group), now);
      return Some(Mappings(group));
    case RatingQueue =>
      var ticket := db.ClaimRating(worker, now, maxAttempts);
      if ticket.None? {
        return None;
      }
      return Some(Rating(ticket.value));
    case EpisodeQueue =>
      var batch := db.ClaimEpisodeBatch(worker, now, episodeBatchSize, maxAttempts);
      if batch == [] {
        return None;
      }
      HandedTickets(
        batch, old(db.episodes.rows), OfSeason(DueKeys(old(db.episodes.rows), now), batch[0].key),
        ByEpisode(old(db.episodes.rows)));
      ClaimKeepsKeys(old(db.episodes), worker, KeysOf(batch), now);
      return Some(Episodes(batch));
  }

  lemma ClaimKeepsKeys<K(!new), V>(s: State<K, V>, worker: nat, keys: set<K>, now: int)
    ensures Next(s, Claim(worker, keys, now)).rows.Keys == s.rows.Keys
  {}

  /**
   One turn of the worker loop: the first queue of the worker's order that has due work is
   served, and nothing else changes; the worker idles only when no queue has any.  So the
   oldest row of all queues is served exactly if no later queue overtakes.
   */
  method Turn(
    db: Db, worker: nat, workerCount: int, now: int, episodeBatchSize: int, ghost maxAttempts: int)
    returns (work: Option<Work>)
    requires db.Valid() && db.Idle(worker)
    modifies db`ratings, db`mappings, db`episodes, db`ratingSteps, db`mappingSteps, db`episodeSteps
    ensures db.Valid()
    ensures work.None? <==> old(forall k: QueueKind :: db.DueCount(k, now) == 0)
    ensures work.None? ==> unchanged(db)
    ensures work.Some? ==>
              Took(db, worker, work.value)
                && TookOneStep(old(QueuesOf(db)), QueuesOf(db), worker, work.value, now, maxAttempts)
                && Takes(old(QueuesOf(db)), old(db.holds.Keys), work.value, now, episodeBatchSize)
    ensures work.Some? ==> old(ServedInOrder(db, QueueOrderFor(worker, workerCount), work.value.Kind(), now))
  {
    EveryQueueIsInOrder(worker, workerCount);
    EveryQueueIsServed(workerCount, MappingQueue);
    var order := QueueOrderFor(worker, workerCount);
    hide *;
    for i := 0 to |order|
      invariant unchanged(db)
      invariant forall j :: 0 <= j < i ==> db.DueCount(order[j], now) == 0
    {
      if db.DueCount(order[i], now) > 0 {
        FirstIsServed(db, worker, workerCount, i, now);
      }
      work := ClaimFrom(db, order[i], worker, now, episodeBatchSize, maxAttempts);
      if work.Some? {
        return;
      }
    }
    forall k: QueueKind
      ensures old(db.DueCount(k, now)) == 0
    {
      assert k in order;
      var j :| 0 <= j < |order| && order[j] == k;
      assert db.DueCount(order[j], now) == 0;
    }
    return None;
  }

  /** The first worker can have a mapping to serve although a rating is the oldest due row. */
  method YoungerWorkCanGoFirst() returns (db: Db)
    ensures db.Valid() && db.Idle(1)
    ensures FirstWithWork(db, QueueOrderFor(1, 16), 0, 10) && QueueOrderFor(1, 16)[0] == MappingQueue
    ensures Overtakes(db, QueueOrderFor(1, 16), 0, 10) && !HasOldest(db, MappingQueue, 10)
  {
    var movie := Key(Movie, 1);
    var rating, mapping := RatingKey(movie, "TM"), MappingKey(movie, "imdb");
    db := new Db(map[rating := Fresh(70, 1, 1)], map[mapping := Fresh("tt1", 2, 1)], map[], map[]);
    RatingIsOlder(db, rating, mapping);
    OldestIsServedExactlyWhen(db, 1, 16, 0, 10);
  }

  lemma RatingIsOlder(db: Db, rating: RatingKey, mapping: MappingKey)
    requires db.ratings.rows == map[rating := Fresh(70, 1, 1)] && db.mappings.rows == map[mapping := Fresh("tt1", 2, 1)]
    requires db.holds == map[] && !NeverSubmitted(mapping)
    ensures FirstWithWork(db, QueueOrderFor(1, 16), 0, 10) && Overtakes(db, QueueOrderFor(1, 16), 0, 10)
  {
    var order := QueueOrderFor(1, 16);
    assert order == [MappingQueue, RatingQueue, EpisodeQueue];
    assert DueKeys(db.ratings.rows, 10) == {rating};
    assert DueMappings(db.mappings.rows, db.holds.Keys, 10) == {mapping};
    assert mapping in DueMappings(db.mappings.rows, db.holds.Keys, 10) && rating in DueKeys(db.ratings.rows, 10);
    assert OldestAt(db, order[0], 2, 10) && db.DueBefore(order[1], 2, 10);
  }
}
