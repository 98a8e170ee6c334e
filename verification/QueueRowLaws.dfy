/** What the database calls mean for one row over time: when it can be claimed, and what they leave alone. */
module QueueRowLaws {
  import opened Wrappers
  import opened QueueRows

  /** A retry can be claimed from the booked time on, and not before. */
  lemma RetryIsDueFromItsTime<V>(r: Row<V>, at: int, error: string, now: int)
    ensures Due(After(r, Again(at, error)), now) <==> at <= now
  {}

  /** What got through or was given up is never claimed again as it is. */
  lemma EndedIsNeverDue<V>(r: Row<V>, o: Outcome, now: int)
    requires o.Sent? || o.GivenUp?
    ensures !Due(After(r, o), now)
  {}

  /** A row put back while it is in flight can be claimed exactly when it could be before its claim. */
  lemma PuttingBackUndoesClaim<V>(r: Row<V>, claimedAt: int, now: int)
    requires r.status == Pending && r.claimedAt.None?
    ensures After(Claimed(r, claimedAt), Deferred) == r
    ensures Due(After(Claimed(r, claimedAt), Deferred), now) <==> r.retryAfter <= now
  {}

  /** A mark in full, field by field: no outcome touches the value, the fetch time or the place in the table. */
  lemma OutcomeInFull<V>(r: Row<V>, o: Outcome)
    ensures var a := After(r, o);
            a == match o
                 case Sent(at, id) =>
                   Row(r.value, r.fetchedAt, r.rowid, if id.Some? then id else r.itemId, Submitted, None, Some(at),
                       r.attempts, 0, None)
                 case Again(at, error) =>
                   Row(r.value, r.fetchedAt, r.rowid, r.itemId, Retry, None, r.submittedAt, r.attempts + 1, at,
                       Some(error))
                 case GivenUp(error) =>
                   Row(r.value, r.fetchedAt, r.rowid, r.itemId, Failed, None, r.submittedAt, r.attempts + 1,
                       r.retryAfter, Some(error))
                 case Deferred =>
                   if r.status != InFlight then r
                   else Row(r.value, r.fetchedAt, r.rowid, r.itemId, Pending, None, r.submittedAt, r.attempts,
                            r.retryAfter, r.lastError)
  {}

  /** A lease runs from the claim: it is stale from the moment it has lasted, at least half a minute, and not before. */
  lemma LeaseRunsFromClaim<K(!new), V>(rows: Table<K, V>, k: K, claimedAt: int, leaseSeconds: int, now: int)
    requires k in rows
    ensures k in StaleKeys(ClaimAll(rows, {k}, claimedAt), leaseSeconds, now)
            <==> now - claimedAt >= 30 && now - claimedAt >= leaseSeconds
  {}

  /** A row in flight of which no claim is known is stale as soon as a lease could have lasted since time zero. */
  lemma UnknownClaimIsOld<K(!new), V>(rows: Table<K, V>, k: K, leaseSeconds: int, now: int)
    requires k in rows && rows[k].claimedAt.None?
    ensures k in StaleKeys(rows, leaseSeconds, now)
            <==> rows[k].status == InFlight && now >= 30 && now >= leaseSeconds
  {}

  /** A claim changes nothing but the state and the time of the claim, and only of the rows claimed. */
  lemma ClaimInFull<K(!new), V>(rows: Table<K, V>, keys: set<K>, now: int, k: K)
    requires k in rows
    ensures var a := ClaimAll(rows, keys, now)[k];
            a == if k !in keys then rows[k]
                 else Row(rows[k].value, rows[k].fetchedAt, rows[k].rowid, rows[k].itemId, InFlight, Some(now),
                          rows[k].submittedAt, rows[k].attempts, rows[k].retryAfter, rows[k].lastError)
  {}

  /** A recovered row can be claimed at once; it keeps its attempts and the last error it had. */
  lemma RecoveredInFull<K(!new), V>(rows: Table<K, V>, keys: set<K>, note: string, k: K)
    requires k in rows && k in keys
    ensures var r, a := rows[k], RecoverAll(rows, keys, note)[k];
            && (forall now :: Due(a, now) <==> now >= 0)
            && a == Row(r.value, r.fetchedAt, r.rowid, r.itemId, Retry, None, r.submittedAt, r.attempts, 0,
                        if r.lastError.Some? then r.lastError else Some(note))
  {}

  /** A row recovered from a stale lease says so, unless it already has an error. */
  lemma StaleLeaseIsNoted<K(!new), V>(rows: Table<K, V>, keys: set<K>, k: K)
    requires k in rows && k in keys && rows[k].lastError.None?
    ensures RecoverAll(rows, keys, STALE)[k].lastError == Some("Recovered stale in_flight lease")
  {}

  /**
   An upsert of a new or a changed value, or of a row that has failed or waits for a retry, makes
   a row that can be claimed at once, as if it had never been tried; any other only notes the time.
   */
  lemma UpsertInFull<K(!new), V>(rows: Table<K, V>, k: K, value: V, now: int, rowid: nat)
    ensures var a := Stored(rows, k, value, now, rowid);
            && k in a && (forall j <- rows :: j != k ==> j in a && a[j] == rows[j]) && a.Keys == rows.Keys + {k}
            && if k !in rows then a[k] == Row(value, now, rowid, None, Pending, None, None, 0, 0, None)
               else if rows[k].value != value || rows[k].status in {Failed, Retry} then
                 a[k] == Row(value, now, rows[k].rowid, rows[k].itemId, Pending, None, None, 0, 0, None)
               else
                 var r := rows[k];
                 a[k] == Row(r.value, now, r.rowid, r.itemId, r.status, r.claimedAt, r.submittedAt, r.attempts,
                             r.retryAfter, r.lastError)
  {}

  /** So the row a harvest leaves is never stuck: it is in flight, has got through, or can be claimed in time. */
  lemma UpsertedIsNeverStuck<K(!new), V>(rows: Table<K, V>, k: K, value: V, now: int, rowid: nat)
    ensures var a := Stored(rows, k, value, now, rowid);
            k in a && (a[k].status in {InFlight, Submitted} || exists t :: Due(a[k], t))
  {
    var a := Stored(rows, k, value, now, rowid)[k];
    assert a.status !in {InFlight, Submitted} ==> Due(a, if a.retryAfter > 0 then a.retryAfter else 0);
  }

  /** The claim order is by fetch time, then by insertion. */
  lemma OrderMeans<V>(a: Row<V>, b: Row<V>)
    ensures !Older(a, b) <==> b.fetchedAt < a.fetchedAt || (b.fetchedAt == a.fetchedAt && b.rowid < a.rowid)
  {}
}
