/** What it means that a handler lets go of every claimed row exactly once. */
module Settlement {
  import opened QueueOrder
  import opened QueueProtocol
  import opened QueueRows

  /**
   A row being let go of: its key, its content just before, the outcome applied to it, and
   whether the row was under a hold at that moment.
   */
  datatype Mark<K, V> = Mark(key: K, before: Row<V>, outcome: Outcome, barred: bool)

  function KeysOf<K, V>(batch: seq<Ticket<K, V>>): set<K> {
    set i | 0 <= i < |batch| :: batch[i].key
  }

  predicate Settles<K(==), V>(m: Mark<K, V>, t: Ticket<K, V>, maxAttempts: int) {
    m.key == t.key && FitsBudget(m.outcome, t.row.attempts, maxAttempts)
  }

  /** Every row was still in flight as claimed when it was let go. */
  ghost predicate Straight<K, V>(marks: seq<Mark<K, V>>, batch: seq<Ticket<K, V>>) {
    forall m <- marks, t <- batch :: m.key == t.key ==> HeldAs(m.before, t.row)
  }

  ghost predicate DistinctKeys<K, V>(batch: seq<Ticket<K, V>>) {
    forall i, j :: 0 <= i < j < |batch| ==> batch[i].key != batch[j].key
  }

  lemma SameTicket<K, V>(batch: seq<Ticket<K, V>>, t: Ticket<K, V>, u: Ticket<K, V>)
    requires DistinctKeys(batch) && t in batch && u in batch && t.key == u.key
    ensures t == u
  {
    var i :| 0 <= i < |batch| && batch[i] == t;
    var j :| 0 <= j < |batch| && batch[j] == u;
    assert i == j;
  }

  ghost predicate DistinctMarks<K, V>(marks: seq<Mark<K, V>>) {
    forall i, j :: 0 <= i < j < |marks| ==> marks[i].key != marks[j].key
  }

  /** Some marks of a batch are made, exactly the tickets in `todo` are still open. */
  ghost predicate Settling<K, V>(
    marks: seq<Mark<K, V>>, batch: seq<Ticket<K, V>>, todo: seq<Ticket<K, V>>, maxAttempts: int)
  {
    && |marks| + |todo| == |batch|
    && DistinctMarks(marks) && DistinctKeys(todo)
    && (forall t <- todo :: t in batch)
    && (forall m <- marks :: exists t <- batch :: Settles(m, t, maxAttempts))
    && (forall m <- marks, t <- todo :: m.key != t.key)
  }

  /** Every ticket of the batch is let go exactly once, each within its budget. */
  ghost predicate SettlesOnce<K, V>(marks: seq<Mark<K, V>>, batch: seq<Ticket<K, V>>, maxAttempts: int) {
    Settling(marks, batch, [], maxAttempts)
  }

  lemma SettlingStart<K, V>(batch: seq<Ticket<K, V>>, maxAttempts: int)
    requires DistinctKeys(batch)
    ensures Settling([], batch, batch, maxAttempts)
  {}

  lemma SettlingNext<K, V>(
    marks: seq<Mark<K, V>>, batch: seq<Ticket<K, V>>, left: seq<Ticket<K, V>>, t: Ticket<K, V>, rest: seq<Ticket<K, V>>,
    m: Mark<K, V>, maxAttempts: int)
    requires Settling(marks, batch, left + [t] + rest, maxAttempts)
    requires Settles(m, t, maxAttempts)
    ensures Settling(marks + [m], batch, left + rest, maxAttempts)
  {
    var todo := left + [t] + rest;
    assert todo[|left|] == t && t in todo;
    forall i | 0 <= i < |left + rest|
      ensures (left + rest)[i] == todo[if i < |left| then i else i + 1]
    {}
    assert forall u <- left + rest :: u in todo && u.key != t.key;
  }

  /** The outcome of every single ticket: it has a mark, and only one. */
  lemma EachSettledOnce<K, V>(marks: seq<Mark<K, V>>, batch: seq<Ticket<K, V>>, maxAttempts: int)
    requires SettlesOnce(marks, batch, maxAttempts) && DistinctKeys(batch)
    ensures forall t <- batch :: exists i ::
              0 <= i < |marks| && Settles(marks[i], t, maxAttempts)
              && forall j :: 0 <= j < |marks| && marks[j].key == t.key ==> j == i
    ensures forall m <- marks :: After(m.before, m.outcome).status != InFlight
  {
    EveryKeyMarked(marks, batch, maxAttempts);
    forall t | t in batch
      ensures exists i :: 0 <= i < |marks| && Settles(marks[i], t, maxAttempts)
                          && forall j :: 0 <= j < |marks| && marks[j].key == t.key ==> j == i
    {
      TicketSettledOnce(marks, batch, t, maxAttempts);
    }
  }

  lemma TicketSettledOnce<K, V>(marks: seq<Mark<K, V>>, batch: seq<Ticket<K, V>>, t: Ticket<K, V>, maxAttempts: int)
    requires SettlesOnce(marks, batch, maxAttempts) && DistinctKeys(batch) && t in batch
    requires forall k <- KeysOf(batch) :: exists i :: 0 <= i < |marks| && marks[i].key == k
    ensures exists i :: 0 <= i < |marks| && Settles(marks[i], t, maxAttempts)
                        && forall j :: 0 <= j < |marks| && marks[j].key == t.key ==> j == i
  {
    assert t.key in KeysOf(batch);
    var i :| 0 <= i < |marks| && marks[i].key == t.key;
    var u := SettledTicket(marks, batch, maxAttempts, i);
    assert u == t;
  }

  lemma EveryKeyMarked<K, V>(marks: seq<Mark<K, V>>, batch: seq<Ticket<K, V>>, maxAttempts: int)
    requires SettlesOnce(marks, batch, maxAttempts) && DistinctKeys(batch)
    ensures forall k <- KeysOf(batch) :: exists i :: 0 <= i < |marks| && marks[i].key == k
  {
    var keys := set i | 0 <= i < |marks| :: marks[i].key;
    Count(marks);
    CountTickets(batch);
    forall i | 0 <= i < |marks|
      ensures marks[i].key in KeysOf(batch)
    {
      var t := SettledTicket(marks, batch, maxAttempts, i);
    }
    assert keys <= KeysOf(batch);
    assert |KeysOf(batch)| == |keys| + |KeysOf(batch) - keys|;
    assert keys == KeysOf(batch);
  }

  lemma SettledTicket<K, V>(
    marks: seq<Mark<K, V>>, batch: seq<Ticket<K, V>>, maxAttempts: int, i: nat)
    returns (t: Ticket<K, V>)
    requires SettlesOnce(marks, batch, maxAttempts) && DistinctKeys(batch) && i < |marks|
    ensures Settles(marks[i], t, maxAttempts) && t in batch && t.key in KeysOf(batch)
    ensures forall u <- batch :: u.key == t.key ==> u == t
  {
    assert marks[i] in marks;
    t :| t in batch && Settles(marks[i], t, maxAttempts);
    var j :| 0 <= j < |batch| && batch[j] == t;
    assert batch[j].key == t.key;
  }

  lemma Count<K, V>(marks: seq<Mark<K, V>>)
    requires DistinctMarks(marks)
    ensures |set i | 0 <= i < |marks| :: marks[i].key| == |marks|
  {
    var keys := seq(|marks|, i requires 0 <= i < |marks| => marks[i].key);
    Cardinality(keys);
    assert forall i :: 0 <= i < |marks| ==> keys[i] == marks[i].key;
    assert (set i | 0 <= i < |marks| :: marks[i].key) == set k | k in keys;
  }

  lemma CountTickets<K, V>(batch: seq<Ticket<K, V>>)
    requires DistinctKeys(batch)
    ensures |KeysOf(batch)| == |batch|
  {
    var keys := seq(|batch|, i requires 0 <= i < |batch| => batch[i].key);
    Cardinality(keys);
    assert forall i :: 0 <= i < |batch| ==> keys[i] == batch[i].key;
    assert KeysOf(batch) == set k | k in keys;
  }

  // ---------- the marks of a run ----------

  /** How a worker lets go of rows in one step. */
  function MarkOf<K, V>(s: State<K, V>, step: Step<K, V>, worker: nat): (marks: seq<Mark<K, V>>)
    ensures |marks| <= 1
  {
    if step.Resolve? && step.worker == worker && step.key in s.rows
    then [Mark(step.key, s.rows[step.key], step.outcome, step.key in s.barred)]
    else []
  }

  /** How a worker lets go of rows in a run, in order. */
  function MarksBy<K(!new), V(==)>(s: State<K, V>, steps: seq<Step<K, V>>, worker: nat): seq<Mark<K, V>> {
    if steps == [] then []
    else
      var init := steps[..|steps| - 1];
      MarksBy(s, init, worker) + MarkOf(End(s, init), steps[|steps| - 1], worker)
  }

  lemma OneMoreMark<K(!new), V>(s: State<K, V>, steps: seq<Step<K, V>>, step: Step<K, V>, worker: nat)
    ensures MarksBy(s, steps + [step], worker) == MarksBy(s, steps, worker) + MarkOf(End(s, steps), step, worker)
  {
    assert (steps + [step])[..|steps|] == steps;
  }

  lemma {:induction false} OthersLeaveNoMarks<K(!new), V>(
    s: State<K, V>, steps: seq<Step<K, V>>, more: seq<Step<K, V>>, worker: nat)
    requires forall step <- more :: ByOthers(step, worker)
    ensures MarksBy(s, steps + more, worker) == MarksBy(s, steps, worker)
  {
    hide End, MarkOf, MarksBy, ByOthers;
    if more == [] {
      assert steps + more == steps;
    } else {
      var init, last := more[..|more| - 1], more[|more| - 1];
      assert last in more;
      OthersLeaveNoMarks(s, steps, init, worker);
      OneMoreMark(s, steps + init, last, worker);
      NoMarkByOthers(End(s, steps + init), last, worker);
      assert (steps + init) + [last] == steps + more;
    }
  }

  lemma NoMarkByOthers<K(!new), V>(s: State<K, V>, step: Step<K, V>, worker: nat)
    requires ByOthers(step, worker)
    ensures MarkOf(s, step, worker) == []
  {}

  lemma {:induction false} EarlierMarks<K(!new), V>(s: State<K, V>, steps: seq<Step<K, V>>, p: nat, worker: nat)
    requires p <= |steps|
    ensures MarksBy(s, steps[..p], worker) <= MarksBy(s, steps, worker)
  {
    hide MarkOf, End;
    if p == |steps| {
      assert steps[..p] == steps;
    } else {
      var init := steps[..|steps| - 1];
      EarlierMarks(s, init, p, worker);
      assert init[..p] == steps[..p];
    }
  }

  /**
   Step `p` lets go of the row of ticket `t`: the table row gets the outcome and is out of flight;
   if `straight`, it was in flight as it had been claimed.
   */
  ghost predicate ResolvesAt<K(!new), V>(
    s: State<K, V>, steps: seq<Step<K, V>>, p: int, worker: nat, t: Ticket<K, V>, straight: bool, maxAttempts: int)
  {
    && 0 <= p < |steps| && steps[p].Resolve? && steps[p].worker == worker && steps[p].key == t.key
    && FitsBudget(steps[p].outcome, t.row.attempts, maxAttempts)
    && var before, after := End(s, steps[..p]).rows, End(s, steps[..p + 1]).rows;
       && t.key in before && (straight ==> HeldAs(before[t.key], t.row))
       && after == before[t.key := After(before[t.key], steps[p].outcome)] && after[t.key].status != InFlight
  }

  /** No other step of the worker lets go of that row. */
  ghost predicate OnlyAt<K, V>(steps: seq<Step<K, V>>, p: int, worker: nat, k: K) {
    forall q :: 0 <= q < |steps| && steps[q].Resolve? && steps[q].worker == worker && steps[q].key == k ==> q == p
  }

  lemma {:induction false} StepOfMark<K(!new), V>(
    s: State<K, V>, steps: seq<Step<K, V>>, worker: nat, i: nat)
    returns (p: nat)
    requires i < |MarksBy(s, steps, worker)|
    ensures p < |steps| && |MarksBy(s, steps[..p], worker)| == i
    ensures MarkOf(End(s, steps[..p]), steps[p], worker) == [MarksBy(s, steps, worker)[i]]
  {
    hide End;
    var init := steps[..|steps| - 1];
    if i < |MarksBy(s, init, worker)| {
      p := StepOfMark(s, init, worker, i);
      assert init[..p] == steps[..p];
    } else {
      p := |steps| - 1;
    }
  }

  lemma MarkOfStep<K(!new), V>(s: State<K, V>, steps: seq<Step<K, V>>, worker: nat, p: nat)
    requires p < |steps| && MarkOf(End(s, steps[..p]), steps[p], worker) != []
    ensures |MarksBy(s, steps[..p], worker)| < |MarksBy(s, steps, worker)|
    ensures [MarksBy(s, steps, worker)[|MarksBy(s, steps[..p], worker)|]]
            == MarkOf(End(s, steps[..p]), steps[p], worker)
  {
    hide MarkOf, End;
    EarlierMarks(s, steps, p + 1, worker);
    OneMoreMark(s, steps[..p], steps[p], worker);
    assert steps[..p + 1] == steps[..p] + [steps[p]];
  }

  /** A settled ticket is let go in exactly one step of the run, and leaves the table's rows in flight with it. */
  lemma EachTicketResolvedOnce<K(!new), V>(
    s: State<K, V>, steps: seq<Step<K, V>>, worker: nat, batch: seq<Ticket<K, V>>, maxAttempts: int)
    requires SettlesOnce(MarksBy(s, steps, worker), batch, maxAttempts) && DistinctKeys(batch)
    requires forall t <- batch :: t.key in s.rows
    ensures var straight := Straight(MarksBy(s, steps, worker), batch);
            forall t <- batch ::
              exists p :: ResolvesAt(s, steps, p, worker, t, straight, maxAttempts) && OnlyAt(steps, p, worker, t.key)
  {
    var marks := MarksBy(s, steps, worker);
    var straight := Straight(marks, batch);
    EachSettledOnce(marks, batch, maxAttempts);
    forall t | t in batch
      ensures exists p :: ResolvesAt(s, steps, p, worker, t, straight, maxAttempts) && OnlyAt(steps, p, worker, t.key)
    {
      var i :| 0 <= i < |marks| && Settles(marks[i], t, maxAttempts)
               && forall j :: 0 <= j < |marks| && marks[j].key == t.key ==> j == i;
      var p := StepOfMark(s, steps, worker, i);
      assert marks[i] in marks;
      MarkIsResolution(s, steps, worker, p, marks[i], t, straight, maxAttempts);
      forall q | 0 <= q < |steps| && steps[q].Resolve? && steps[q].worker == worker && steps[q].key == t.key
        ensures q == p
      {
        KeysStay(s, steps[..q]);
        MarkOfStep(s, steps, worker, q);
        MarkOfStep(s, steps, worker, p);
        SamePosition(s, steps, worker, p, q);
      }
    }
  }

  lemma MarkIsResolution<K(!new), V>(
    s: State<K, V>, steps: seq<Step<K, V>>, worker: nat, p: nat, m: Mark<K, V>, t: Ticket<K, V>, straight: bool,
    maxAttempts: int)
    requires p < |steps| && MarkOf(End(s, steps[..p]), steps[p], worker) == [m] && Settles(m, t, maxAttempts)
    requires straight ==> HeldAs(m.before, t.row)
    ensures ResolvesAt(s, steps, p, worker, t, straight, maxAttempts)
  {
    assert steps[..p + 1][..p] == steps[..p] && steps[..p + 1][p] == steps[p];
    assert [m][0] == m;
  }

  lemma SamePosition<K(!new), V>(s: State<K, V>, steps: seq<Step<K, V>>, worker: nat, p: nat, q: nat)
    requires p < |steps| && q < |steps|
    requires |MarksBy(s, steps[..p], worker)| == |MarksBy(s, steps[..q], worker)|
    requires MarkOf(End(s, steps[..p]), steps[p], worker) != [] && MarkOf(End(s, steps[..q]), steps[q], worker) != []
    ensures p == q
  {
    hide MarkOf, End;
    if p < q {
      StrictlyMore(s, steps, worker, p, q);
    } else if q < p {
      StrictlyMore(s, steps, worker, q, p);
    }
  }

  lemma StrictlyMore<K(!new), V>(s: State<K, V>, steps: seq<Step<K, V>>, worker: nat, p: nat, q: nat)
    requires p < q < |steps| && MarkOf(End(s, steps[..p]), steps[p], worker) != []
    ensures |MarksBy(s, steps[..p], worker)| < |MarksBy(s, steps[..q], worker)|
  {
    hide MarkOf, End;
    var head := steps[..q];
    assert head[..p] == steps[..p] && head[..p + 1] == steps[..p] + [steps[p]];
    OneMoreMark(s, steps[..p], steps[p], worker);
    EarlierMarks(s, head, p + 1, worker);
  }

  // ---------- a handler on its way ----------

  /** The worker has exactly these tickets in hand. */
  ghost predicate InHand<K(!new), V>(s: State<K, V>, worker: nat, todo: seq<Ticket<K, V>>) {
    && DistinctKeys(todo)
    && (forall t <- todo :: t.key in s.Of(worker) && s.Of(worker)[t.key] == t.row)
    && (forall k <- s.Of(worker) :: exists t <- todo :: t.key == k)
  }

  /** Nothing went wrong: the queue was in order at the start, and no step was harmful. */
  ghost predicate Calm<K(!new), V>(start: State<K, V>, steps: seq<Step<K, V>>, maxAttempts: int) {
    InOrder(start, maxAttempts) && AllHarmless(start, steps)
  }

  /**
   Between two steps of a handler: what happened so far is a run in which the worker's own steps
   let go of the batch except for the tickets in `todo`, and those it still has in hand.  While
   all is calm, the queue is in order, and every row was let go straight out of flight.
   */
  ghost predicate Handling<K(!new), V>(
    start: State<K, V>, steps: seq<Step<K, V>>, now: State<K, V>, worker: nat,
    batch: seq<Ticket<K, V>>, todo: seq<Ticket<K, V>>, maxAttempts: int)
  {
    && Went(start, steps, now, maxAttempts) && InHand(now, worker, todo)
    && DistinctKeys(batch) && (forall t <- batch :: t.key in now.rows)
    && Settling(MarksBy(start, steps, worker), batch, todo, maxAttempts)
    && (Calm(start, steps, maxAttempts) ==>
          InOrder(now, maxAttempts) && Straight(MarksBy(start, steps, worker), batch))
  }

  lemma HandlingStart<K(!new), V>(s: State<K, V>, worker: nat, batch: seq<Ticket<K, V>>, maxAttempts: int)
    requires InHand(s, worker, batch) && forall t <- batch :: t.key in s.rows
    ensures Handling(s, [], s, worker, batch, batch, maxAttempts)
  {
    StandsStill(s, maxAttempts);
    SettlingStart(batch, maxAttempts);
  }

  /** An open ticket's row is in flight as it was claimed. */
  lemma TicketIsHeld<K(!new), V>(
    s: State<K, V>, worker: nat, todo: seq<Ticket<K, V>>, t: Ticket<K, V>, maxAttempts: int)
    requires Inv(s, maxAttempts) && InHand(s, worker, todo) && t in todo
    ensures t.key in s.rows && HeldAs(s.rows[t.key], t.row) && t.key in s.Of(worker) && s.Of(worker)[t.key] == t.row
  {
    assert HeldAs(s.rows[t.key], s.held[worker][t.key]);
  }

  /** An open ticket is one of the batch, and its row is in the table. */
  lemma TicketIsOpen<K(!new), V>(
    start: State<K, V>, steps: seq<Step<K, V>>, now: State<K, V>, worker: nat, batch: seq<Ticket<K, V>>,
    todo: seq<Ticket<K, V>>, t: Ticket<K, V>, maxAttempts: int)
    requires Handling(start, steps, now, worker, batch, todo, maxAttempts) && t in todo
    ensures t in batch && t.key in now.rows && t.key in now.Of(worker) && now.Of(worker)[t.key] == t.row
  {
    hide Went, InOrder, Calm, MarksBy, Straight;
  }

  /** Any step of the handler that leaves its tickets alone and marks nothing. */
  lemma HandlingGoesOn<K(!new), V>(
    start: State<K, V>, steps: seq<Step<K, V>>, now: State<K, V>, worker: nat, batch: seq<Ticket<K, V>>,
    todo: seq<Ticket<K, V>>, step: Step<K, V>, maxAttempts: int)
    requires Handling(start, steps, now, worker, batch, todo, maxAttempts)
    requires Enabled(now, step, maxAttempts) && Harmless(now, step) && !step.Resolve?
    requires Next(now, step).Of(worker) == now.Of(worker)
    ensures Handling(start, steps + [step], Next(now, step), worker, batch, todo, maxAttempts)
    ensures MarksBy(start, steps + [step], worker) == MarksBy(start, steps, worker)
  {
    hide Enabled, Harmless, Next, Went, InOrder, MarksBy;
    GoesOn(start, steps, now, step, maxAttempts);
    OneMoreMark(start, steps, step, worker);
    OneStepKeepsKeys(now, step);
    if InOrder(now, maxAttempts) {
      InOrderKept(now, step, maxAttempts);
    }
  }

  /** The handler resolves one of its open tickets. */
  lemma HandlingResolves<K(!new), V>(
    start: State<K, V>, steps: seq<Step<K, V>>, now: State<K, V>, worker: nat, batch: seq<Ticket<K, V>>,
    left: seq<Ticket<K, V>>, t: Ticket<K, V>, rest: seq<Ticket<K, V>>, o: Outcome, maxAttempts: int)
    requires Handling(start, steps, now, worker, batch, left + [t] + rest, maxAttempts)
    requires FitsBudget(o, t.row.attempts, maxAttempts) && (o.Deferred? ==> !Clear(now, worker, t.key))
    ensures t.key in now.rows
    ensures Handling(start, steps + [Resolve(worker, t.key, o)], Next(now, Resolve(worker, t.key, o)), worker, batch,
                     left + rest, maxAttempts)
    ensures MarksBy(start, steps + [Resolve(worker, t.key, o)], worker)
            == MarksBy(start, steps, worker) + [Mark(t.key, now.rows[t.key], o, t.key in now.barred)]
  {
    var step: Step<K, V> := Resolve(worker, t.key, o);
    var todo := left + [t] + rest;
    var m := Mark(t.key, now.rows[t.key], o, t.key in now.barred);
    assert t in todo;
    TicketIsOpen(start, steps, now, worker, batch, todo, t, maxAttempts);
    assert Enabled(now, step, maxAttempts) && Harmless(now, step) && MarkOf(now, step, worker) == [m];
    hide InOrder, Went, InHand, Enabled, Harmless, Next, MarksBy, MarkOf, Clear;
    GoesOn(start, steps, now, step, maxAttempts);
    OneMoreMark(start, steps, step, worker);
    OneStepKeepsKeys(now, step);
    InHandWithout(now, worker, left, t, rest, o);
    SettlingNext(MarksBy(start, steps, worker), batch, left, t, rest, m, maxAttempts);
    if Calm(start, steps, maxAttempts) {
      InOrderKept(now, step, maxAttempts);
      StraightNext(start, steps, now, worker, batch, todo, t, m, maxAttempts);
    }
  }

  lemma StraightNext<K(!new), V>(
    start: State<K, V>, steps: seq<Step<K, V>>, now: State<K, V>, worker: nat, batch: seq<Ticket<K, V>>,
    todo: seq<Ticket<K, V>>, t: Ticket<K, V>, m: Mark<K, V>, maxAttempts: int)
    requires Handling(start, steps, now, worker, batch, todo, maxAttempts) && t in todo
    requires Calm(start, steps, maxAttempts) && m.key == t.key && t.key in now.rows && m.before == now.rows[t.key]
    ensures Straight(MarksBy(start, steps, worker) + [m], batch)
  {
    hide Went, MarksBy, HeldAs;
    TicketIsHeld(now, worker, todo, t, maxAttempts);
    forall u | u in batch && u.key == t.key
      ensures u == t
    {
      SameTicket(batch, t, u);
    }
  }

  lemma InHandWithout<K(!new), V>(
    now: State<K, V>, worker: nat, left: seq<Ticket<K, V>>, t: Ticket<K, V>, rest: seq<Ticket<K, V>>, o: Outcome)
    requires InHand(now, worker, left + [t] + rest)
    ensures InHand(Next(now, Resolve(worker, t.key, o)), worker, left + rest)
  {
    var todo, open := left + [t] + rest, left + rest;
    var after := Next(now, Resolve(worker, t.key, o));
    assert t in todo && after.Of(worker) == now.Of(worker) - {t.key};
    forall i | 0 <= i < |open|
      ensures open[i] == todo[if i < |left| then i else i + 1]
    {}
    forall u | u in open
      ensures u in todo && u.key != t.key
    {
      OthersDiffer(left, t, rest, u);
    }
    forall k | k in after.Of(worker)
      ensures exists u <- open :: u.key == k
    {
      var u :| u in todo && u.key == k;
      assert u in left || u in rest;
      assert u in open;
    }
  }

  /** The handler clears the item id of one of its open tickets. */
  lemma HandlingClears<K(!new), V>(
    start: State<K, V>, steps: seq<Step<K, V>>, now: State<K, V>, worker: nat, batch: seq<Ticket<K, V>>,
    todo: seq<Ticket<K, V>>, t: Ticket<K, V>, maxAttempts: int)
    requires Handling(start, steps, now, worker, batch, todo, maxAttempts) && t in todo
    ensures var step: Step<K, V> := ClearItemId(worker, t.key);
            && Handling(start, steps + [step], Next(now, step), worker, batch, todo, maxAttempts)
            && MarksBy(start, steps + [step], worker) == MarksBy(start, steps, worker)
  {
    var step: Step<K, V> := ClearItemId(worker, t.key);
    assert Next(now, step).held == now.held;
    hide Handling, MarksBy, Next;
    TicketIsOpen(start, steps, now, worker, batch, todo, t, maxAttempts);
    HandlingGoesOn(start, steps, now, worker, batch, todo, step, maxAttempts);
  }

  /** The handler starts the call for one of its open tickets, right after the last check. */
  lemma HandlingSends<K(!new), V>(
    start: State<K, V>, steps: seq<Step<K, V>>, now: State<K, V>, worker: nat, batch: seq<Ticket<K, V>>,
    todo: seq<Ticket<K, V>>, t: Ticket<K, V>, maxAttempts: int)
    requires Handling(start, steps, now, worker, batch, todo, maxAttempts) && t in todo && Clear(now, worker, t.key)
    ensures var step: Step<K, V> := Send(worker, t.key);
            && Handling(start, steps + [step], now, worker, batch, todo, maxAttempts)
            && MarksBy(start, steps + [step], worker) == MarksBy(start, steps, worker)
  {
    var step: Step<K, V> := Send(worker, t.key);
    hide Handling, MarksBy;
    HandlingGoesOn(start, steps, now, worker, batch, todo, step, maxAttempts);
  }

  /** Others act while the handler waits. */
  lemma HandlingWaits<K(!new), V>(
    start: State<K, V>, steps: seq<Step<K, V>>, now: State<K, V>, others: seq<Step<K, V>>, later: State<K, V>,
    worker: nat, batch: seq<Ticket<K, V>>, todo: seq<Ticket<K, V>>, maxAttempts: int)
    requires Handling(start, steps, now, worker, batch, todo, maxAttempts)
    requires Passed(now, others, later, worker, maxAttempts)
    ensures Handling(start, steps + others, later, worker, batch, todo, maxAttempts)
    ensures MarksBy(start, steps + others, worker) == MarksBy(start, steps, worker)
    ensures Calm(start, steps + others, maxAttempts) <==> Calm(start, steps, maxAttempts) && AllHarmless(now, others)
  {
    hide Went, MarksBy, InOrder, Undisturbed, AllHarmless, Settling, Straight;
    RunsJoin(start, steps, now, others, later, maxAttempts);
    OthersLeaveNoMarks(start, steps, others, worker);
  }

  /**
   Time in which only others acted, in any way: the worker's tickets are still its own.  If they
   did no harm to a queue in order, it still is, and the tickets' rows are as they were.
   */
  ghost predicate Passed<K(!new), V>(
    s: State<K, V>, others: seq<Step<K, V>>, t: State<K, V>, worker: nat, maxAttempts: int)
  {
    && Went(s, others, t, maxAttempts) && (forall step <- others :: ByOthers(step, worker))
    && t.Of(worker) == s.Of(worker) && s.rows.Keys <= t.rows.Keys
    && (Calm(s, others, maxAttempts) ==> InOrder(t, maxAttempts) && Undisturbed(s, t, worker))
  }

  lemma PassedStart<K(!new), V>(s: State<K, V>, worker: nat, maxAttempts: int)
    ensures Passed(s, [], s, worker, maxAttempts)
  {
    StandsStill(s, maxAttempts);
    if Inv(s, maxAttempts) {
      StandingStill(s, worker, maxAttempts);
    }
  }

  lemma PassedNext<K(!new), V>(
    s: State<K, V>, others: seq<Step<K, V>>, t: State<K, V>, step: Step<K, V>, worker: nat, maxAttempts: int)
    requires Passed(s, others, t, worker, maxAttempts)
    requires Enabled(t, step, maxAttempts) && ByOthers(step, worker)
    ensures Passed(s, others + [step], Next(t, step), worker, maxAttempts)
  {
    hide Inv, NoOrphans, Went, Undisturbed, Enabled, Harmless, Next, ByOthers, AllHarmless;
    GoesOn(s, others, t, step, maxAttempts);
    OneStepLeavesTickets(t, step, worker);
    OneStepKeepsKeys(t, step);
    if Calm(s, others, maxAttempts) && Harmless(t, step) {
      InOrderKept(t, step, maxAttempts);
      OneStepUndisturbed(t, step, worker, maxAttempts);
      UndisturbedOn(s, t, Next(t, step), worker);
    }
  }

  /** Any steps of other tasks, in any number, as long as they keep what `keep` says. */
  method LetOthersAct<K(!new, ==, 0), V(==, 0)>(
    s: State<K, V>, worker: nat, maxAttempts: int, keep: State<K, V> -> bool)
    returns (t: State<K, V>, ghost others: seq<Step<K, V>>)
    ensures Passed(s, others, t, worker, maxAttempts)
    ensures keep(s) ==> keep(t)
  {
    t, others := s, [];
    PassedStart(s, worker, maxAttempts);
    var rounds: int := *;
    rounds := if rounds < 0 then 0 else rounds;
    for i := 0 to rounds
      invariant Passed(s, others, t, worker, maxAttempts) && (keep(s) ==> keep(t))
    {
      hide Passed, Enabled, Next;
      var step: Step<K, V> := *;
      if ByOthers(step, worker) && Enabled(t, step, maxAttempts) && keep(Next(t, step)) {
        PassedNext(s, others, t, step, worker, maxAttempts);
        t, others := Next(t, step), others + [step];
      }
    }
  }

  /**
   A batch is handled: the queue took a run of steps in which the worker let go of every ticket
   exactly once and within its budget.  If the queue was in order and nobody did harm, it is in
   order again, and every row was let go straight out of flight.
   */
  ghost predicate HandledAll<K(!new), V>(
    start: State<K, V>, now: State<K, V>, steps: seq<Step<K, V>>, worker: nat, batch: seq<Ticket<K, V>>,
    maxAttempts: int)
  {
    && Went(start, steps, now, maxAttempts) && SettlesOnce(MarksBy(start, steps, worker), batch, maxAttempts)
    && (Calm(start, steps, maxAttempts) ==>
          InOrder(now, maxAttempts) && Straight(MarksBy(start, steps, worker), batch))
  }

  /** At the end nothing of the batch is left in the worker's hands. */
  lemma NothingLeft<K(!new), V>(
    start: State<K, V>, steps: seq<Step<K, V>>, now: State<K, V>, worker: nat, batch: seq<Ticket<K, V>>,
    maxAttempts: int)
    requires Handling(start, steps, now, worker, batch, [], maxAttempts)
    ensures now.Of(worker).Keys == {} && HandledAll(start, now, steps, worker, batch, maxAttempts)
    ensures Calm(start, steps, maxAttempts) ==>
              forall k <- now.rows :: now.rows[k].status == InFlight ==>
                exists w <- now.held :: w != worker && k in now.held[w]
  {
    hide Inv, Went, Settling, MarksBy, AllHarmless;
    assert now.Of(worker).Keys == {} by {
      var none: seq<Ticket<K, V>> := [];
      assert InHand(now, worker, none);
    }
    if Calm(start, steps, maxAttempts) {
      OthersHoldTheRest(now, worker);
    }
  }

  lemma OthersHoldTheRest<K(!new), V>(s: State<K, V>, worker: nat)
    requires NoOrphans(s) && s.Of(worker).Keys == {}
    ensures forall k <- s.rows :: s.rows[k].status == InFlight ==> exists w <- s.held :: w != worker && k in s.held[w]
  {
    forall k | k in s.rows && s.rows[k].status == InFlight
      ensures exists w <- s.held :: w != worker && k in s.held[w]
    {
      var w :| w in s.held && k in s.held[w];
      assert w == worker ==> k in s.Of(worker).Keys;
    }
  }

  lemma OthersDiffer<K, V>(left: seq<Ticket<K, V>>, t: Ticket<K, V>, rest: seq<Ticket<K, V>>, u: Ticket<K, V>)
    requires DistinctKeys(left + [t] + rest) && u in left + rest
    ensures u in left + [t] + rest && u.key != t.key
  {
    var todo := left + [t] + rest;
    var i :| 0 <= i < |left + rest| && (left + rest)[i] == u;
    var j := if i < |left| then i else i + 1;
    assert todo[j] == u && todo[|left|] == t;
  }

  /** What was just claimed by an idle worker is in its hands. */
  lemma ClaimedIsInHand<K(!new), V>(s: State<K, V>, worker: nat, batch: seq<Ticket<K, V>>, now: int)
    requires DistinctKeys(batch) && forall t <- batch :: t.key in s.rows && t.row == s.rows[t.key]
    ensures InHand(Next(s, Claim(worker, KeysOf(batch), now)), worker, batch)
  {
    var after := Next(s, Claim(worker, KeysOf(batch), now));
    forall t | t in batch
      ensures t.key in KeysOf(batch)
    {
      var i :| 0 <= i < |batch| && batch[i] == t;
    }
    assert after.Of(worker) == Taken(s.rows, KeysOf(batch));
  }
}
