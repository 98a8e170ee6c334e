/**
 The local queue tables and the calls that claim work from them.

 Each method is one synchronous database call, so one atomic step of the program.
 */
module LocalDatabase {
  import opened Ids
  import opened Wrappers
  import opened Titles
  import opened QueueKeys
  import opened QueueOrder
  import opened QueueProtocol
  import opened QueueRows
  import opened Settlement

  datatype QueueKind = MappingQueue | RatingQueue | EpisodeQueue

  // ---------- queries ----------

  function DueWith<K(!new), V>(rows: Table<K, V>, now: int, status: Status): set<K> {
    set k | k in rows && rows[k].status == status && rows[k].retryAfter <= now
  }

  function DueKeys<K(!new), V>(rows: Table<K, V>, now: int): set<K> {
    set k | k in rows && Due(rows[k], now)
  }

  /** The last look before a mapping is sent: still the claimed value, and no hold. */
  predicate Sendable(t: Ticket<MappingKey, string>, rows: Table<MappingKey, string>, held: set<MappingKey>) {
    t.key in rows && rows[t.key].value == t.row.value && Eligible(t.key, held)
  }

  function DueMappings(rows: Table<MappingKey, string>, held: set<MappingKey>, now: int): set<MappingKey> {
    set k | k in DueKeys(rows, now) && Eligible(k, held)
  }

  function OfTitle(keys: set<MappingKey>, title: Key): set<MappingKey> {
    set k | k in keys && k.title == title
  }

  function OfSeason(keys: set<EpisodeKey>, of: EpisodeKey): set<EpisodeKey> {
    set k | k in keys && k.title == of.title && k.season == of.season
  }

  function ByAge<K(!new), V>(rows: Table<K, V>): (K, K) -> bool {
    (a, b) => a in rows && b in rows && Older(rows[a], rows[b])
  }

  function ByEpisode(rows: Table<EpisodeKey, int>): (EpisodeKey, EpisodeKey) -> bool {
    (a, b) => a in rows && b in rows && (a.episode < b.episode || (a.episode == b.episode && Older(rows[a], rows[b])))
  }

  lemma ByAgeOrders<K(!new), V>(rows: Table<K, V>, keys: set<K>)
    requires keys <= rows.Keys
    ensures TotalPreorder(keys, ByAge(rows))
  {}

  lemma ByEpisodeOrders(rows: Table<EpisodeKey, int>, keys: set<EpisodeKey>)
    requires keys <= rows.Keys
    ensures TotalPreorder(keys, ByEpisode(rows))
  {
    var le := ByEpisode(rows);
    forall a, b | a in keys && b in keys
      ensures le(a, b) || le(b, a)
    {
      assert Older(rows[a], rows[b]) || Older(rows[b], rows[a]);
    }
    forall a, b, c | a in keys && b in keys && c in keys && le(a, b) && le(b, c)
      ensures le(a, c)
    {
      assert a.episode <= b.episode <= c.episode;
      if a.episode == c.episode {
        assert Older(rows[a], rows[b]) && Older(rows[b], rows[c]);
        assert Older(rows[a], rows[c]);
      }
    }
  }

  /** The oldest pending row and the oldest retry row, and the older of the two. */
  method NextDue<K(!new, ==), V>(rows: Table<K, V>, now: int, allowed: set<K>) returns (next: Option<K>)
    ensures match next
            case None => DueKeys(rows, now) * allowed == {}
            case Some(k) => Least(k, DueKeys(rows, now) * allowed, ByAge(rows))
  {
    ByAgeOrders(rows, rows.Keys);
    var pending := First(DueWith(rows, now, Pending) * allowed, ByAge(rows));
    var retry := First(DueWith(rows, now, Retry) * allowed, ByAge(rows));
    assert DueKeys(rows, now) * allowed == DueWith(rows, now, Pending) * allowed + DueWith(rows, now, Retry) * allowed;
    if pending.None? {
      return retry;
    }
    if retry.None? {
      return pending;
    }
    next := if Older(rows[pending.value], rows[retry.value]) then pending else retry;
  }

  function Tickets<K, V>(rows: Table<K, V>, keys: seq<K>): (tickets: seq<Ticket<K, V>>)
    requires forall k <- keys :: k in rows
    ensures |tickets| == |keys|
    ensures forall i :: 0 <= i < |keys| ==> tickets[i] == Ticket(keys[i], rows[keys[i]])
  {
    seq(|keys|, i requires 0 <= i < |keys| => Ticket(keys[i], rows[keys[i]]))
  }

  /** A batch of tickets lists these keys in this order, each with its row before the claim. */
  ghost predicate Hands<K(!new), V>(
    batch: seq<Ticket<K, V>>, rows: Table<K, V>, keys: set<K>, le: (K, K) -> bool)
  {
    && (forall t <- batch :: t.key in rows && t.row == rows[t.key])
    && Lists(seq(|batch|, i requires 0 <= i < |batch| => batch[i].key), keys, le)
  }

  lemma TicketsHand<K(!new), V>(rows: Table<K, V>, listed: seq<K>, keys: set<K>, le: (K, K) -> bool)
    requires Lists(listed, keys, le) && forall k <- listed :: k in rows
    ensures Hands(Tickets(rows, listed), rows, keys, le)
  {
    var batch := Tickets(rows, listed);
    assert seq(|batch|, i requires 0 <= i < |batch| => batch[i].key) == listed;
  }

  /** The rows of a table that were sent with the value they show: all submitted ones. */
  function SentValues<K(!new), V>(rows: Table<K, V>): map<K, V> {
    map k | k in rows && rows[k].status == Submitted :: rows[k].value
  }

  /** Exactly the held keys and the rows that are never submitted are barred from being claimed. */
  ghost predicate HoldsShown(s: State<MappingKey, string>, holds: map<MappingKey, string>) {
    && (forall k :: !NeverSubmitted(k) ==> (k in s.barred <==> k in holds))
    && NeverOnesBarred(s)
  }

  predicate NeverOnesBarred(s: State<MappingKey, string>) {
    forall k <- s.rows :: NeverSubmitted(k) ==> k in s.barred
  }

  /** What a claim by an idle worker does to a queue. */
  lemma ClaimStep<K(!new), V>(s: State<K, V>, worker: nat, batch: seq<Ticket<K, V>>, now: int, maxAttempts: int)
    requires s.Of(worker).Keys == {} && batch != [] && DistinctKeys(batch)
    requires forall t <- batch :: t.key in s.rows && t.row == s.rows[t.key] && Due(t.row, now) && t.key !in s.barred
    ensures Enabled(s, Claim(worker, KeysOf(batch), now), maxAttempts)
    ensures var after := Next(s, Claim(worker, KeysOf(batch), now));
            && InHand(after, worker, batch) && after.barred == s.barred && after.rows.Keys == s.rows.Keys
            && (InOrder(s, maxAttempts) ==> InOrder(after, maxAttempts))
  {
    var step: Step<K, V> := Claim(worker, KeysOf(batch), now);
    forall k | k in KeysOf(batch)
      ensures k in s.rows && Due(s.rows[k], now) && k !in s.barred
    {
      var i :| 0 <= i < |batch| && batch[i].key == k;
      assert batch[i] in batch;
    }
    assert batch[0].key in KeysOf(batch);
    ClaimedIsInHand(s, worker, batch, now);
    hide InHand, KeysOf, Inv, NoOrphans;
    if InOrder(s, maxAttempts) {
      InOrderKept(s, step, maxAttempts);
    }
  }

  lemma ClaimOfOne<K(!new), V>(s: State<K, V>, worker: nat, k: K, now: int)
    requires k in s.rows
    ensures Next(s, Claim(worker, {k}, now)).rows == s.rows[k := Claimed(s.rows[k], now)]
  {}

  lemma OneKey<K, V>(t: Ticket<K, V>)
    ensures KeysOf([t]) == {t.key}
  {
    assert [t][0] == t;
  }

  /** The tickets of a claim: distinct keys, each with its row as it was. */
  lemma HandedTickets<K(!new), V>(
    batch: seq<Ticket<K, V>>, rows: Table<K, V>, keys: set<K>, le: (K, K) -> bool)
    requires Hands(batch, rows, keys, le)
    ensures DistinctKeys(batch) && forall t <- batch :: t.key in keys && t.key in rows && t.row == rows[t.key]
  {
    var listed := seq(|batch|, i requires 0 <= i < |batch| => batch[i].key);
    assert forall i :: 0 <= i < |batch| ==> listed[i] == batch[i].key;
    forall t | t in batch
      ensures t.key in keys
    {
      var i :| 0 <= i < |batch| && batch[i] == t;
      assert listed[i] in listed;
    }
  }

  /** The database, with what its workers have in hand and what PMDB got. */
  class Db {
    var ratings: State<RatingKey, int>
    var mappings: State<MappingKey, string>
    var episodes: State<EpisodeKey, int>
    var holds: map<MappingKey, string>

    // Every step taken on each queue, in order.
    ghost var ratingSteps: seq<Step<RatingKey, int>>
    ghost var mappingSteps: seq<Step<MappingKey, string>>
    ghost var episodeSteps: seq<Step<EpisodeKey, int>>

    ghost predicate Valid()
      reads this
    {
      ratings.barred == {} && HoldsShown(mappings, holds) && episodes.barred == {}
    }

    /** The worker has nothing in hand. */
    predicate Idle(worker: nat)
      reads this
    {
      ratings.Of(worker).Keys == {} && mappings.Of(worker).Keys == {} && episodes.Of(worker).Keys == {}
    }

    constructor (
      ratings: Table<RatingKey, int>, mappings: Table<MappingKey, string>, episodes: Table<EpisodeKey, int>,
      holds: map<MappingKey, string>)
      ensures this.ratings == State(ratings, map[], {}, SentValues(ratings))
      ensures this.mappings.rows == mappings && this.mappings.held == map[] && HoldsShown(this.mappings, holds)
      ensures this.mappings.sent == SentValues(mappings)
      ensures this.episodes == State(episodes, map[], {}, SentValues(episodes))
      ensures this.holds == holds
    {
      this.ratings := State(ratings, map[], {}, SentValues(ratings));
      var barred := holds.Keys + set k | k in mappings && NeverSubmitted(k);
      this.mappings := State(mappings, map[], barred, SentValues(mappings));
      this.episodes := State(episodes, map[], {}, SentValues(episodes));
      this.holds := holds;
    }

    // ---------- claims ----------

    /** Claims an oldest due rating of the whole table. */
    method ClaimRating(worker: nat, now: int, ghost maxAttempts: int) returns (ticket: Option<Ticket<RatingKey, int>>)
      requires Valid() && ratings.Of(worker).Keys == {}
      modifies this`ratings, this`ratingSteps
      ensures Valid() && (old(InOrder(ratings, maxAttempts)) ==> InOrder(ratings, maxAttempts))
      ensures ticket.None? <==> DueKeys(old(ratings.rows), now) == {}
      ensures ticket.None? ==> ratings == old(ratings) && ratingSteps == old(ratingSteps)
      ensures ticket.Some? ==>
                var k := ticket.value.key;
                && Least(k, DueKeys(old(ratings.rows), now), ByAge(old(ratings.rows)))
                && ticket.value.row == old(ratings.rows)[k]
                && ratings.rows == old(ratings.rows)[k := Claimed(ticket.value.row, now)]
                && ratings == Next(old(ratings), Claim(worker, {k}, now))
                && Enabled(old(ratings), Claim(worker, {k}, now), maxAttempts)
                && ratingSteps == old(ratingSteps) + [Claim(worker, {k}, now)]
                && InHand(ratings, worker, [ticket.value])
    {
      hide InOrder, InHand, Next, Enabled, KeysOf, ByAge;
      var rows := ratings.rows;
      var next := NextDue(rows, now, rows.Keys);
      assert DueKeys(rows, now) * rows.Keys == DueKeys(rows, now);
      if next.None? {
        return None;
      }
      var k := next.value;
      var t := Ticket(k, rows[k]);
      OneKey(t);
      ClaimStep(ratings, worker, [t], now, maxAttempts);
      ClaimOfOne(ratings, worker, k, now);
      ratings := Next(ratings, Claim(worker, {k}, now));
      ratingSteps := ratingSteps + [Claim(worker, {k}, now)];
      return Some(t);
    }

    /** Claims one due, eligible mapping, an oldest one. */
    method ClaimMapping(
      worker: nat, now: int, ghost maxAttempts: int)
      returns (ticket: Option<Ticket<MappingKey, string>>)
      requires Valid() && mappings.Of(worker).Keys == {}
      modifies this`mappings, this`mappingSteps
      ensures Valid() && (old(InOrder(mappings, maxAttempts)) ==> InOrder(mappings, maxAttempts))
      ensures ticket.None? <==> DueMappings(old(mappings.rows), holds.Keys, now) == {}
      ensures ticket.None? ==> mappings == old(mappings) && mappingSteps == old(mappingSteps)
      ensures ticket.Some? ==>
                var k := ticket.value.key;
                && Least(k, DueMappings(old(mappings.rows), holds.Keys, now), ByAge(old(mappings.rows)))
                && ticket.value.row == old(mappings.rows)[k]
                && mappings.rows == old(mappings.rows)[k := Claimed(ticket.value.row, now)]
                && mappings == Next(old(mappings), Claim(worker, {k}, now))
                && Enabled(old(mappings), Claim(worker, {k}, now), maxAttempts)
                && mappingSteps == old(mappingSteps) + [Claim(worker, {k}, now)]
                && InHand(mappings, worker, [ticket.value])
    {
      hide InOrder, InHand, Next, Enabled, KeysOf, ByAge;
      var rows := mappings.rows;
      var allowed := set k | k in rows && Eligible(k, holds.Keys);
      var next := NextDue(rows, now, allowed);
      assert DueKeys(rows, now) * allowed == DueMappings(rows, holds.Keys, now);
      if next.None? {
        return None;
      }
      var k := next.value;
      var t := Ticket(k, rows[k]);
      OneKey(t);
      ClaimStep(mappings, worker, [t], now, maxAttempts);
      ClaimOfOne(mappings, worker, k, now);
      mappings := Next(mappings, Claim(worker, {k}, now));
      mappingSteps := mappingSteps + [Claim(worker, {k}, now)];
      return Some(t);
    }

    /** Claims exactly the due, eligible mappings of the title that owns an oldest one. */
    method ClaimMappingGroup(
      worker: nat, now: int, ghost maxAttempts: int)
      returns (batch: seq<Ticket<MappingKey, string>>)
      requires Valid() && mappings.Of(worker).Keys == {}
      modifies this`mappings, this`mappingSteps
      ensures Valid() && (old(InOrder(mappings, maxAttempts)) ==> InOrder(mappings, maxAttempts))
      ensures batch == [] <==> DueMappings(old(mappings.rows), holds.Keys, now) == {}
      ensures batch == [] ==> mappings == old(mappings) && mappingSteps == old(mappingSteps)
      ensures batch != [] ==>
                var due := DueMappings(old(mappings.rows), holds.Keys, now);
                var group := OfTitle(due, batch[0].key.title);
                && (exists k :: Least(k, due, ByAge(old(mappings.rows))) && k.title == batch[0].key.title)
                && Hands(batch, old(mappings.rows), group, ByAge(old(mappings.rows))) && KeysOf(batch) == group
                && mappings == Next(old(mappings), Claim(worker, group, now))
                && Enabled(old(mappings), Claim(worker, group, now), maxAttempts)
                && mappingSteps == old(mappingSteps) + [Claim(worker, group, now)]
                && InHand(mappings, worker, batch)
    {
      hide InOrder, InHand, Next, Enabled, KeysOf, ByAge, AllFrom;
      var rows := mappings.rows;
      var allowed := set k | k in rows && Eligible(k, holds.Keys);
      var next := NextDue(rows, now, allowed);
      var due := DueMappings(rows, holds.Keys, now);
      assert DueKeys(rows, now) * allowed == due;
      if next.None? {
        return [];
      }
      var group := OfTitle(due, next.value.title);
      batch := ListGroup(rows, group);
      assert next.value in group;
      HandedTickets(batch, rows, group, ByAge(rows));
      assert batch[0] in batch && batch[0].key in group;
      assert group == OfTitle(due, batch[0].key.title);
      ClaimStep(mappings, worker, batch, now, maxAttempts);
      mappings := Next(mappings, Claim(worker, group, now));
      mappingSteps := mappingSteps + [Claim(worker, group, now)];
    }

    /** Claims the first due episodes of the title and season that own an oldest due row. */
    method ClaimEpisodeBatch(worker: nat, now: int, batchSize: int, ghost maxAttempts: int)
      returns (batch: seq<Ticket<EpisodeKey, int>>)
      requires Valid() && episodes.Of(worker).Keys == {}
      modifies this`episodes, this`episodeSteps
      ensures Valid() && (old(InOrder(episodes, maxAttempts)) ==> InOrder(episodes, maxAttempts))
      ensures batch == [] <==> DueKeys(old(episodes.rows), now) == {}
      ensures batch == [] ==> episodes == old(episodes) && episodeSteps == old(episodeSteps)
      ensures batch != [] ==>
                var due := DueKeys(old(episodes.rows), now);
                var group := OfSeason(due, batch[0].key);
                var limit := if batchSize < 1 then 1 else if batchSize > 50 then 50 else batchSize;
                && (exists k :: Least(k, due, ByAge(old(episodes.rows))) && k in group)
                && Hands(batch, old(episodes.rows), group, ByEpisode(old(episodes.rows)))
                && |batch| == (if limit < |group| then limit else |group|)
                && episodes == Next(old(episodes), Claim(worker, KeysOf(batch), now))
                && Enabled(old(episodes), Claim(worker, KeysOf(batch), now), maxAttempts)
                && episodeSteps == old(episodeSteps) + [Claim(worker, KeysOf(batch), now)]
                && InHand(episodes, worker, batch)
    {
      hide InOrder, InHand, Next, Enabled, KeysOf, ByAge, ByEpisode, AllFrom;
      var rows := episodes.rows;
      var limit: nat := if batchSize < 1 then 1 else if batchSize > 50 then 50 else batchSize;
      var next := NextDue(rows, now, rows.Keys);
      var due := DueKeys(rows, now);
      assert due * rows.Keys == due;
      if next.None? {
        return [];
      }
      var group := OfSeason(due, next.value);
      ByEpisodeOrders(rows, group);
      var listed := Ordered(group, ByEpisode(rows), limit);
      TicketsHand(rows, listed, group, ByEpisode(rows));
      assert next.value in group;
      batch := Tickets(rows, listed);
      HandedTickets(batch, rows, group, ByEpisode(rows));
      assert batch[0] in batch && batch[0].key in group;
      assert group == OfSeason(due, batch[0].key);
      ClaimStep(episodes, worker, batch, now, maxAttempts);
      episodes := Next(episodes, Claim(worker, KeysOf(batch), now));
      episodeSteps := episodeSteps + [Claim(worker, KeysOf(batch), now)];
    }

    // ---------- marks, for rows that exist ----------

    method MarkRating(worker: nat, k: RatingKey, o: Outcome)
      requires k in ratings.rows && !o.Deferred?
      modifies this`ratings, this`ratingSteps
      ensures ratings.rows == Put(old(ratings.rows), k, o)
      ensures ratings == Next(old(ratings), Resolve(worker, k, o))
      ensures ratingSteps == old(ratingSteps) + [Resolve(worker, k, o)]
    {
      ratings := Next(ratings, Resolve(worker, k, o));
      ratingSteps := ratingSteps + [Resolve(worker, k, o)];
    }

    method ClearRatingItemId(worker: nat, k: RatingKey)
      requires k in ratings.rows
      modifies this`ratings, this`ratingSteps
      ensures ratings.rows == old(ratings.rows)[k := old(ratings.rows)[k].(itemId := None)]
      ensures ratings == Next(old(ratings), ClearItemId(worker, k))
      ensures ratingSteps == old(ratingSteps) + [ClearItemId(worker, k)]
    {
      ratings := Next(ratings, ClearItemId(worker, k));
      ratingSteps := ratingSteps + [ClearItemId(worker, k)];
    }

    method MarkMapping(worker: nat, k: MappingKey, o: Outcome)
      requires k in mappings.rows && !o.Deferred?
      modifies this`mappings, this`mappingSteps
      ensures mappings.rows == Put(old(mappings.rows), k, o)
      ensures mappings == Next(old(mappings), Resolve(worker, k, o))
      ensures mappingSteps == old(mappingSteps) + [Resolve(worker, k, o)]
    {
      mappings := Next(mappings, Resolve(worker, k, o));
      mappingSteps := mappingSteps + [Resolve(worker, k, o)];
    }

    /** A key without a row changes nothing in the table. */
    method MarkEpisode(worker: nat, k: EpisodeKey, o: Outcome)
      requires !o.Deferred?
      modifies this`episodes, this`episodeSteps
      ensures episodes.rows == Put(old(episodes.rows), k, o)
      ensures episodes == Next(old(episodes), Resolve(worker, k, o))
      ensures episodeSteps == old(episodeSteps) + [Resolve(worker, k, o)]
    {
      episodes := Next(episodes, Resolve(worker, k, o));
      episodeSteps := episodeSteps + [Resolve(worker, k, o)];
    }

    /** Puts a claimed mapping back unless it still has the claimed value and no hold. */
    method DeferHeld(worker: nat, t: Ticket<MappingKey, string>) returns (deferred: bool)
      modifies this`mappings, this`mappingSteps
      ensures deferred <==> !Sendable(t, old(mappings.rows), holds.Keys)
      ensures !deferred ==> mappings == old(mappings) && mappingSteps == old(mappingSteps)
      ensures deferred ==> mappings.rows == Put(old(mappings.rows), t.key, Deferred)
      ensures deferred ==> mappings == Next(old(mappings), Resolve(worker, t.key, Deferred))
      ensures deferred ==> mappingSteps == old(mappingSteps) + [Resolve(worker, t.key, Deferred)]
    {
      if Sendable(t, mappings.rows, holds.Keys) {
        return false;
      }
      mappings := Next(mappings, Resolve(worker, t.key, Deferred));
      mappingSteps := mappingSteps + [Resolve(worker, t.key, Deferred)];
      return true;
    }

    /** The call to PMDB for a claimed mapping starts; nothing changes in the database. */
    ghost method StartCall(worker: nat, k: MappingKey)
      modifies this`mappingSteps
      ensures mappingSteps == old(mappingSteps) + [Send(worker, k)]
    {
      mappingSteps := mappingSteps + [Send(worker, k)];
    }

    // ---------- awaits: other tasks act ----------

    method AwaitRatings(worker: nat, maxAttempts: int) returns (ghost others: seq<Step<RatingKey, int>>)
      modifies this`ratings, this`ratingSteps
      ensures ratingSteps == old(ratingSteps) + others
      ensures Passed(old(ratings), others, ratings, worker, maxAttempts)
      ensures old(ratings.barred == {}) ==> ratings.barred == {}
    {
      var keep := (s: State<RatingKey, int>) => s.barred == {};
      ratings, others := LetOthersAct(ratings, worker, maxAttempts, keep);
      ratingSteps := ratingSteps + others;
    }

    /** Holds may come and go as well. */
    method AwaitMappings(worker: nat, maxAttempts: int) returns (ghost others: seq<Step<MappingKey, string>>)
      modifies this`mappings, this`mappingSteps, this`holds
      ensures mappingSteps == old(mappingSteps) + others
      ensures Passed(old(mappings), others, mappings, worker, maxAttempts)
      ensures old(HoldsShown(mappings, holds)) ==> HoldsShown(mappings, holds)
    {
      mappings, others := LetOthersAct(mappings, worker, maxAttempts, NeverOnesBarred);
      mappingSteps := mappingSteps + others;
      var reasons: map<MappingKey, string> := *;
      holds := map k | k in mappings.barred && !NeverSubmitted(k) ::
        if k in holds then holds[k] else if k in reasons then reasons[k] else "";
    }

    method AwaitEpisodes(worker: nat, maxAttempts: int) returns (ghost others: seq<Step<EpisodeKey, int>>)
      modifies this`episodes, this`episodeSteps
      ensures episodeSteps == old(episodeSteps) + others
      ensures Passed(old(episodes), others, episodes, worker, maxAttempts)
      ensures old(episodes.barred == {}) ==> episodes.barred == {}
    {
      var keep := (s: State<EpisodeKey, int>) => s.barred == {};
      episodes, others := LetOthersAct(episodes, worker, maxAttempts, keep);
      episodeSteps := episodeSteps + others;
    }

    // ---------- upserts and holds of the harvester ----------

    /** Whether the row was (re-)queued; a known value that got through or is on its way only gets a new fetch time. */
    method UpsertRating(k: RatingKey, value: int, now: int, rowid: nat) returns (queued: bool)
      modifies this`ratings, this`ratingSteps
      ensures queued <==> k !in old(ratings.rows) || Requeues(old(ratings.rows)[k], value)
      ensures ratings.rows == Stored(old(ratings.rows), k, value, now, rowid)
      ensures k in ratings.rows && ratings.rows[k].value == value
      ensures queued ==> ratings.rows[k].status == Pending && ratings.rows[k].attempts == 0
      ensures ratings == Next(old(ratings), Upsert(k, value, now, rowid))
      ensures ratingSteps == old(ratingSteps) + [Upsert(k, value, now, rowid)]
    {
      queued := k !in ratings.rows || Requeues(ratings.rows[k], value);
      ratings := Next(ratings, Upsert(k, value, now, rowid));
      ratingSteps := ratingSteps + [Upsert(k, value, now, rowid)];
    }

    method UpsertEpisode(k: EpisodeKey, value: int, now: int, rowid: nat) returns (queued: bool)
      modifies this`episodes, this`episodeSteps
      ensures queued <==> k !in old(episodes.rows) || Requeues(old(episodes.rows)[k], value)
      ensures episodes.rows == Stored(old(episodes.rows), k, value, now, rowid)
      ensures k in episodes.rows && episodes.rows[k].value == value
      ensures queued ==> episodes.rows[k].status == Pending && episodes.rows[k].attempts == 0
      ensures episodes == Next(old(episodes), Upsert(k, value, now, rowid))
      ensures episodeSteps == old(episodeSteps) + [Upsert(k, value, now, rowid)]
    {
      queued := k !in episodes.rows || Requeues(episodes.rows[k], value);
      episodes := Next(episodes, Upsert(k, value, now, rowid));
      episodeSteps := episodeSteps + [Upsert(k, value, now, rowid)];
    }

    /**
     As for ratings; an IMDb id is normalised first, and one that is none is not stored.  A row
     that is never submitted is barred from the start.
     */
    method UpsertMapping(k: MappingKey, value: string, now: int, rowid: nat) returns (queued: bool)
      modifies this`mappings, this`mappingSteps
      ensures Storable(k, value).None? ==> !queued && mappings == old(mappings) && mappingSteps == old(mappingSteps)
      ensures Storable(k, value).Some? ==>
                var stored := Storable(k, value).value;
                && (queued <==> k !in old(mappings.rows) || Requeues(old(mappings.rows)[k], stored))
                && mappings.rows == Stored(old(mappings.rows), k, stored, now, rowid)
                && mappings == Next(BarIfNever(old(mappings), k), Upsert(k, stored, now, rowid))
                && mappingSteps == old(mappingSteps) + BarSteps(k) + [Upsert(k, stored, now, rowid)]
      ensures old(HoldsShown(mappings, holds)) ==> HoldsShown(mappings, holds)
    {
      var stored := value;
      if k.idType == "imdb" {
        var normalized := NormalizedImdb(value);
        if normalized.None? {
          return false;
        }
        stored := normalized.value;
      }
      queued := k !in mappings.rows || Requeues(mappings.rows[k], stored);
      mappings := Next(BarIfNever(mappings, k), Upsert(k, stored, now, rowid));
      mappingSteps := mappingSteps + BarSteps(k) + [Upsert(k, stored, now, rowid)];
    }

    method Hold(k: MappingKey, reason: string)
      requires !NeverSubmitted(k)
      modifies this`mappings, this`mappingSteps, this`holds
      ensures holds == old(holds)[k := reason]
      ensures mappings == Next(old(mappings), Bar(k)) && mappingSteps == old(mappingSteps) + [Bar(k)]
      ensures old(HoldsShown(mappings, holds)) ==> HoldsShown(mappings, holds)
    {
      holds := holds[k := reason];
      mappings := Next(mappings, Bar(k));
      mappingSteps := mappingSteps + [Bar(k)];
    }

    method ReleaseHold(k: MappingKey)
      requires !NeverSubmitted(k)
      modifies this`mappings, this`mappingSteps, this`holds
      ensures holds == old(holds) - {k}
      ensures mappings == Next(old(mappings), Unbar(k)) && mappingSteps == old(mappingSteps) + [Unbar(k)]
      ensures old(HoldsShown(mappings, holds)) ==> HoldsShown(mappings, holds)
    {
      holds := holds - {k};
      mappings := Next(mappings, Unbar(k));
      mappingSteps := mappingSteps + [Unbar(k)];
    }

    // ---------- recovery ----------

    /** Startup and shutdown: every row in flight goes back to retry, and nobody has anything in hand. */
    method RecoverInFlight()
      modifies this`ratings, this`mappings, this`episodes, this`ratingSteps, this`mappingSteps, this`episodeSteps
      ensures ratings.rows == RecoverAll(old(ratings.rows), InFlightKeys(old(ratings.rows)), RECOVERED)
      ensures mappings.rows == RecoverAll(old(mappings.rows), InFlightKeys(old(mappings.rows)), RECOVERED)
      ensures episodes.rows == RecoverAll(old(episodes.rows), InFlightKeys(old(episodes.rows)), RECOVERED)
      ensures InFlightKeys(ratings.rows) == {} && InFlightKeys(mappings.rows) == {} && InFlightKeys(episodes.rows) == {}
      ensures ratings == Next(old(ratings), Shutdown) && mappings == Next(old(mappings), Shutdown)
      ensures episodes == Next(old(episodes), Shutdown)
    {
      NothingInFlight(ratings.rows);
      NothingInFlight(mappings.rows);
      NothingInFlight(episodes.rows);
      hide InFlightKeys, RecoverAll;
      ratings, ratingSteps := Next(ratings, Shutdown), ratingSteps + [Shutdown];
      mappings, mappingSteps := Next(mappings, Shutdown), mappingSteps + [Shutdown];
      episodes, episodeSteps := Next(episodes, Shutdown), episodeSteps + [Shutdown];
    }

    /** The lease loop: rows in flight for longer than the lease go back to retry. */
    method RecoverStale(leaseSeconds: int, now: int) returns (ratingCount: nat, episodeCount: nat, mappingCount: nat)
      modifies this`ratings, this`mappings, this`episodes, this`ratingSteps, this`mappingSteps, this`episodeSteps
      ensures ratings.rows == RecoverAll(old(ratings.rows), StaleKeys(old(ratings.rows), leaseSeconds, now), STALE)
      ensures mappings.rows == RecoverAll(old(mappings.rows), StaleKeys(old(mappings.rows), leaseSeconds, now), STALE)
      ensures episodes.rows == RecoverAll(old(episodes.rows), StaleKeys(old(episodes.rows), leaseSeconds, now), STALE)
      ensures StaleKeys(ratings.rows, leaseSeconds, now) == {} && StaleKeys(mappings.rows, leaseSeconds, now) == {}
      ensures StaleKeys(episodes.rows, leaseSeconds, now) == {}
      ensures ratings == Next(old(ratings), Recover(StaleKeys(old(ratings.rows), leaseSeconds, now)))
      ensures mappings == Next(old(mappings), Recover(StaleKeys(old(mappings.rows), leaseSeconds, now)))
      ensures episodes == Next(old(episodes), Recover(StaleKeys(old(episodes.rows), leaseSeconds, now)))
      ensures ratingCount == |StaleKeys(old(ratings.rows), leaseSeconds, now)|
      ensures mappingCount == |StaleKeys(old(mappings.rows), leaseSeconds, now)|
      ensures episodeCount == |StaleKeys(old(episodes.rows), leaseSeconds, now)|
    {
      var r := StaleKeys(ratings.rows, leaseSeconds, now);
      var e := StaleKeys(episodes.rows, leaseSeconds, now);
      var m := StaleKeys(mappings.rows, leaseSeconds, now);
      ratingCount, episodeCount, mappingCount := |r|, |e|, |m|;
      NothingStale(ratings.rows, leaseSeconds, now);
      NothingStale(mappings.rows, leaseSeconds, now);
      NothingStale(episodes.rows, leaseSeconds, now);
      hide StaleKeys, RecoverAll;
      ratings, ratingSteps := Next(ratings, Recover(r)), ratingSteps + [Recover(r)];
      episodes, episodeSteps := Next(episodes, Recover(e)), episodeSteps + [Recover(e)];
      mappings, mappingSteps := Next(mappings, Recover(m)), mappingSteps + [Recover(m)];
    }

    // ---------- counting ----------

    /** Due rows that a claim could take. */
    ghost predicate Claimable(kind: QueueKind, now: int)
      reads this
    {
      match kind
      case MappingQueue => exists k <- mappings.rows :: Due(mappings.rows[k], now) && Eligible(k, holds.Keys)
      case RatingQueue => exists k <- ratings.rows :: Due(ratings.rows[k], now)
      case EpisodeQueue => exists k <- episodes.rows :: Due(episodes.rows[k], now)
    }

    ghost function DueCount(kind: QueueKind, now: int): nat
      reads this
    {
      match kind
      case MappingQueue => |DueMappings(mappings.rows, holds.Keys, now)|
      case RatingQueue => |DueKeys(ratings.rows, now)|
      case EpisodeQueue => |DueKeys(episodes.rows, now)|
    }

    /**
     How many rows are due, pending ones and retries together: zero exactly when nothing can be
     claimed from the queue.
     */
    method CountDue(kind: QueueKind, now: int) returns (n: nat)
      ensures n == 0 <==> !Claimable(kind, now)
      ensures kind == RatingQueue ==> n == |DueWith(ratings.rows, now, Pending)| + |DueWith(ratings.rows, now, Retry)|
      ensures kind == EpisodeQueue ==>
                n == |DueWith(episodes.rows, now, Pending)| + |DueWith(episodes.rows, now, Retry)|
      ensures kind == MappingQueue ==>
                n == |DueMappingsWith(mappings.rows, holds.Keys, now, Pending)|
                     + |DueMappingsWith(mappings.rows, holds.Keys, now, Retry)|
    {
      match kind
      case MappingQueue =>
        n := |DueMappings(mappings.rows, holds.Keys, now)|;
        assert DueMappings(mappings.rows, holds.Keys, now)
            == DueMappingsWith(mappings.rows, holds.Keys, now, Pending)
               + DueMappingsWith(mappings.rows, holds.Keys, now, Retry);
        NoneDue(mappings.rows, now, DueMappings(mappings.rows, holds.Keys, now));
      case RatingQueue =>
        n := |DueKeys(ratings.rows, now)|;
        assert DueKeys(ratings.rows, now) == DueWith(ratings.rows, now, Pending) + DueWith(ratings.rows, now, Retry);
        NoneDue(ratings.rows, now, DueKeys(ratings.rows, now));
      case EpisodeQueue =>
        n := |DueKeys(episodes.rows, now)|;
        assert DueKeys(episodes.rows, now) == DueWith(episodes.rows, now, Pending) + DueWith(episodes.rows, now, Retry);
        NoneDue(episodes.rows, now, DueKeys(episodes.rows, now));
    }

    /** The queue with the oldest due row; ties go to episodes, then ratings, then mappings. */
    method NextDueQueueKind(now: int) returns (kind: Option<QueueKind>)
      ensures kind.None? <==> forall k: QueueKind :: DueCount(k, now) == 0
      ensures kind.Some? ==> exists at :: OldestIn(kind.value, at, now)
    {
      hide DueBefore, DueCount;
      var e := Earliest(EpisodeQueue, now);
      var r := Earliest(RatingQueue, now);
      var m := Earliest(MappingQueue, now);
      kind := None;
      if e.Some? && !(r.Some? && r.value < e.value) && !(m.Some? && m.value < e.value) {
        NoneOlder(e.value, now);
        assert DueCount(EpisodeQueue, now) != 0;
        assert OldestIn(EpisodeQueue, e.value, now);
        kind := Some(EpisodeQueue);
      } else if r.Some? && !(m.Some? && m.value < r.value) {
        NoneOlder(r.value, now);
        assert DueCount(RatingQueue, now) != 0;
        assert OldestIn(RatingQueue, r.value, now);
        kind := Some(RatingQueue);
      } else if m.Some? {
        NoneOlder(m.value, now);
        assert DueCount(MappingQueue, now) != 0;
        assert OldestIn(MappingQueue, m.value, now);
        kind := Some(MappingQueue);
      } else {
        NothingDue(now);
      }
    }

    lemma NoneOlder(at: int, now: int)
      requires !DueBefore(EpisodeQueue, at, now) && !DueBefore(RatingQueue, at, now)
               && !DueBefore(MappingQueue, at, now)
      ensures forall k: QueueKind :: !DueBefore(k, at, now)
    {
      hide DueBefore;
      forall k: QueueKind
        ensures !DueBefore(k, at, now)
      {
        match k
        case MappingQueue =>
        case RatingQueue =>
        case EpisodeQueue =>
      }
    }

    lemma NothingDue(now: int)
      requires DueCount(EpisodeQueue, now) == DueCount(RatingQueue, now) == DueCount(MappingQueue, now) == 0
      ensures forall k: QueueKind :: DueCount(k, now) == 0
    {
      hide DueCount;
      forall k: QueueKind
        ensures DueCount(k, now) == 0
      {
        match k
        case MappingQueue =>
        case RatingQueue =>
        case EpisodeQueue =>
      }
    }

    method Earliest(kind: QueueKind, now: int) returns (earliest: Option<int>)
      ensures EarliestIs(kind, earliest, now)
      ensures earliest.None? <==> DueCount(kind, now) == 0
    {
      match kind
      case MappingQueue => earliest := MinFetched(mappings.rows, DueMappings(mappings.rows, holds.Keys, now));
      case RatingQueue => earliest := MinFetched(ratings.rows, DueKeys(ratings.rows, now));
      case EpisodeQueue => earliest := MinFetched(episodes.rows, DueKeys(episodes.rows, now));
    }

    /** The oldest due row of the queue was fetched at this time, if it has any. */
    ghost predicate EarliestIs(kind: QueueKind, earliest: Option<int>, now: int)
      reads this
    {
      forall at :: DueBefore(kind, at, now) <==> earliest.Some? && earliest.value < at
    }

    /** The due rows of a queue that were fetched before `at`. */
    ghost predicate DueBefore(kind: QueueKind, at: int, now: int)
      reads this
    {
      match kind
      case MappingQueue => !AllFrom(mappings.rows, DueMappings(mappings.rows, holds.Keys, now), at)
      case RatingQueue => !AllFrom(ratings.rows, DueKeys(ratings.rows, now), at)
      case EpisodeQueue => !AllFrom(episodes.rows, DueKeys(episodes.rows, now), at)
    }

    /** The queue has a due row fetched at `at`, no queue has an older one, and none of higher priority one as old. */
    ghost predicate OldestIn(kind: QueueKind, at: int, now: int)
      reads this
    {
      && (forall k: QueueKind :: !DueBefore(k, at, now)) && DueBefore(kind, at + 1, now)
      && match kind
         case EpisodeQueue => true
         case RatingQueue => !DueBefore(EpisodeQueue, at + 1, now)
         case MappingQueue => !DueBefore(EpisodeQueue, at + 1, now) && !DueBefore(RatingQueue, at + 1, now)
    }
  }

  lemma NothingInFlight<K(!new), V>(rows: Table<K, V>)
    ensures InFlightKeys(RecoverAll(rows, InFlightKeys(rows), RECOVERED)) == {}
  {}

  lemma NothingStale<K(!new), V>(rows: Table<K, V>, leaseSeconds: int, now: int)
    ensures StaleKeys(RecoverAll(rows, StaleKeys(rows, leaseSeconds, now), STALE), leaseSeconds, now) == {}
  {}

  lemma NoneDue<K(!new), V>(rows: Table<K, V>, now: int, keys: set<K>)
    requires keys <= DueKeys(rows, now)
    ensures |keys| == 0 <==> !exists k <- rows :: Due(rows[k], now) && k in keys
  {
    if k :| k in keys {
      assert k in DueKeys(rows, now) && Due(rows[k], now);
    } else {
      assert keys == {};
    }
  }

  ghost function DueMappingsWith(
    rows: Table<MappingKey, string>, held: set<MappingKey>, now: int, status: Status): set<MappingKey>
  {
    set k | k in DueWith(rows, now, status) && Eligible(k, held)
  }

  function BarIfNever(s: State<MappingKey, string>, k: MappingKey): State<MappingKey, string> {
    if NeverSubmitted(k) then Next(s, Bar(k)) else s
  }

  function BarSteps(k: MappingKey): seq<Step<MappingKey, string>> {
    if NeverSubmitted(k) then [Bar(k)] else []
  }

  /** The form in which a mapping value is stored, if it is stored at all. */
  ghost function Storable(k: MappingKey, value: string): Option<string> {
    if k.idType == "imdb" then NormalizedImdb(value) else Some(value)
  }

  /** The mappings of a group as tickets, oldest first. */
  method ListGroup(
    rows: Table<MappingKey, string>, group: set<MappingKey>)
    returns (batch: seq<Ticket<MappingKey, string>>)
    requires group <= rows.Keys
    ensures Hands(batch, rows, group, ByAge(rows)) && KeysOf(batch) == group && |batch| == |group|
  {
    ByAgeOrders(rows, group);
    var listed := Ordered(group, ByAge(rows), |group|);
    TicketsHand(rows, listed, group, ByAge(rows));
    ListsAll(listed, group, ByAge(rows));
    batch := Tickets(rows, listed);
    assert forall i :: 0 <= i < |batch| ==> batch[i].key == listed[i];
    assert forall k <- group :: k in listed;
  }

  ghost predicate AllFrom<K(!new), V>(rows: Table<K, V>, keys: set<K>, at: int) {
    forall k <- keys :: k in rows ==> at <= rows[k].fetchedAt
  }

  /** SQL's MIN(fetched_at): no value for no rows. */
  method MinFetched<K(!new, ==), V>(rows: Table<K, V>, keys: set<K>) returns (min: Option<int>)
    requires keys <= rows.Keys
    ensures min.None? <==> keys == {}
    ensures min.Some? ==> AllFrom(rows, keys, min.value) && !AllFrom(rows, keys, min.value + 1)
  {
    ByAgeOrders(rows, keys);
    var first := First(keys, ByAge(rows));
    match first
    case None => return None;
    case Some(k) => return Some(rows[k].fetchedAt);
  }
}
