/**
 The submission columns shared by the ratings, episode_ratings and mappings tables, and what
 each database call does to one row.
 */
module QueueRows {
  import opened Wrappers

  datatype Status = Pending | Retry | InFlight | Submitted | Failed

  /** A queue row; `value` is the score in tenths or the mapped id, `rowid` the insertion order. */
  datatype Row<V> = Row(
    value: V, fetchedAt: int, rowid: nat, itemId: Option<string>, status: Status, claimedAt: Option<int>,
    submittedAt: Option<int>, attempts: nat, retryAfter: int, lastError: Option<string>)

  type Table<K, V> = map<K, Row<V>>

  /** How a handler can let go of a claimed row. */
  datatype Outcome =
    | Sent(at: int, itemId: Option<string>)
    | Again(at: int, error: string)
    | GivenUp(error: string)
    | Deferred

  predicate Waiting<V>(r: Row<V>) {
    r.status == Pending || r.status == Retry
  }

  predicate Due<V>(r: Row<V>, now: int) {
    Waiting(r) && r.retryAfter <= now
  }

  function Claimed<V>(r: Row<V>, now: int): Row<V> {
    r.(status := InFlight, claimedAt := Some(now))
  }

  function Coalesce<T>(a: Option<T>, b: Option<T>): Option<T> {
    if a.Some? then a else b
  }

  /** The row after a mark or a deferral; a deferral touches only rows still in flight. */
  function After<V>(r: Row<V>, o: Outcome): Row<V> {
    match o
    case Sent(at, itemId) =>
      r.(status := Submitted, itemId := Coalesce(itemId, r.itemId), claimedAt := None, submittedAt := Some(at),
         lastError := None, retryAfter := 0)
    case Again(at, error) =>
      r.(status := Retry, attempts := r.attempts + 1, lastError := Some(error), claimedAt := None, retryAfter := at)
    case GivenUp(error) =>
      r.(status := Failed, attempts := r.attempts + 1, lastError := Some(error), claimedAt := None)
    case Deferred =>
      if r.status == InFlight then r.(status := Pending, claimedAt := None) else r
  }

  function Recovered<V>(r: Row<V>, note: string): Row<V> {
    r.(status := Retry, retryAfter := 0, claimedAt := None, lastError := Coalesce(r.lastError, Some(note)))
  }

  function Fresh<V>(value: V, now: int, rowid: nat): Row<V> {
    Row(value, now, rowid, None, Pending, None, None, 0, 0, None)
  }

  predicate Requeues<V(==)>(r: Row<V>, value: V) {
    r.value != value || r.status == Failed || r.status == Retry
  }

  /** An upsert over an existing row: re-queued when the value changed or the row had not got through. */
  function Upserted<V(==)>(r: Row<V>, value: V, now: int): Row<V> {
    if Requeues(r, value) then
      r.(value := value, fetchedAt := now, status := Pending, claimedAt := None, submittedAt := None,
         attempts := 0, lastError := None, retryAfter := 0)
    else
      r.(fetchedAt := now)
  }

  function Put<K, V>(rows: Table<K, V>, k: K, o: Outcome): Table<K, V> {
    if k in rows then rows[k := After(rows[k], o)] else rows
  }

  /** The same claimed row, possibly with a newer fetch time: what a harmless upsert leaves. */
  predicate Kept<V(==)>(before: Row<V>, after: Row<V>) {
    after == before.(fetchedAt := after.fetchedAt)
  }

  /** `a` comes before `b` in claim order. */
  predicate Older<V>(a: Row<V>, b: Row<V>) {
    a.fetchedAt < b.fetchedAt || (a.fetchedAt == b.fetchedAt && a.rowid <= b.rowid)
  }

  // ---------- tables ----------

  const RECOVERED := "Recovered from in_flight"
  const STALE := "Recovered stale in_flight lease"

  function ClaimAll<K, V>(rows: Table<K, V>, keys: set<K>, now: int): Table<K, V> {
    map k | k in rows :: if k in keys then Claimed(rows[k], now) else rows[k]
  }

  function Stored<K, V(==)>(rows: Table<K, V>, k: K, value: V, now: int, rowid: nat): Table<K, V> {
    rows[k := if k in rows then Upserted(rows[k], value, now) else Fresh(value, now, rowid)]
  }

  function InFlightKeys<K(!new), V>(rows: Table<K, V>): set<K> {
    set k | k in rows && rows[k].status == InFlight
  }

  function StaleKeys<K(!new), V>(rows: Table<K, V>, leaseSeconds: int, now: int): set<K> {
    var lease := if leaseSeconds < 30 then 30 else leaseSeconds;
    set k | k in rows && rows[k].status == InFlight
            && (if rows[k].claimedAt.Some? then rows[k].claimedAt.value else 0) <= now - lease
  }

  function RecoverAll<K, V>(rows: Table<K, V>, keys: set<K>, note: string): Table<K, V> {
    map k | k in rows :: if k in keys then Recovered(rows[k], note) else rows[k]
  }

  // ---------- tickets ----------

  /** A claimed row as handed to a worker: its key and its content before the claim. */
  datatype Ticket<K, V> = Ticket(key: K, row: Row<V>)

  /** The row is still in flight with the claimed value and attempt count. */
  predicate HeldAs<V(==)>(now: Row<V>, claimed: Row<V>) {
    now.status == InFlight && now.value == claimed.value && now.attempts == claimed.attempts
  }

  /** Another attempt is only scheduled while the budget allows one. */
  predicate FitsBudget(o: Outcome, attempts: nat, maxAttempts: int) {
    o.Again? ==> attempts + 1 < maxAttempts
  }
}
