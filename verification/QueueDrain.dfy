/**
 The queue runs dry: without new upserts, holds or recoveries only boundedly many claims and
 outcomes are possible, and when no more is possible no work is left.
 */
module QueueDrain {
  import opened QueueRows
  import opened QueueProtocol

  /** Steps of the workers alone. */
  ghost predicate WorkerStep<K, V>(step: Step<K, V>) {
    step.Claim? || step.Send? || step.Resolve? || step.ClearItemId?
  }

  /** A claim or an outcome. */
  ghost predicate Works<K, V>(step: Step<K, V>) {
    step.Claim? || step.Resolve?
  }

  ghost function Work<K, V>(steps: seq<Step<K, V>>): nat {
    if steps == [] then 0 else Work(steps[..|steps| - 1]) + if Works(steps[|steps| - 1]) then 1 else 0
  }

  /** How many claims and outcomes a row can still take part in. */
  ghost function Weight<V>(r: Row<V>, barred: bool, maxAttempts: int): nat {
    if maxAttempts <= r.attempts then 0
    else if r.status == InFlight then (if barred then 1 else 2 * (maxAttempts - r.attempts) - 1)
    else if Waiting(r) && !barred then 2 * (maxAttempts - r.attempts)
    else 0
  }

  ghost function Pick<K(!new)>(keys: set<K>): K
    requires keys != {}
  {
    var k :| k in keys; k
  }

  ghost function Total<K(!new), V>(s: State<K, V>, keys: set<K>, maxAttempts: int): nat
    requires keys <= s.rows.Keys
  {
    if keys == {} then 0
    else
      var k := Pick(keys);
      Weight(s.rows[k], k in s.barred, maxAttempts) + Total(s, keys - {k}, maxAttempts)
  }

  ghost function Potential<K(!new), V>(s: State<K, V>, maxAttempts: int): nat {
    Total(s, s.rows.Keys, maxAttempts)
  }

  /** When no row gains weight, the total does not grow; when some row loses weight, it shrinks. */
  lemma {:induction false} TotalShrinks<K(!new), V>(
    s: State<K, V>, t: State<K, V>, keys: set<K>, losers: set<K>, maxAttempts: int)
    requires keys <= s.rows.Keys && keys <= t.rows.Keys && losers <= keys
    requires forall k <- keys ::
               Weight(t.rows[k], k in t.barred, maxAttempts) <= Weight(s.rows[k], k in s.barred, maxAttempts)
    requires forall k <- losers ::
               Weight(t.rows[k], k in t.barred, maxAttempts) < Weight(s.rows[k], k in s.barred, maxAttempts)
    ensures Total(t, keys, maxAttempts) <= Total(s, keys, maxAttempts)
    ensures losers != {} ==> Total(t, keys, maxAttempts) < Total(s, keys, maxAttempts)
    decreases |keys|
  {
    hide Weight;
    if keys != {} {
      TotalShrinks(s, t, keys - {Pick(keys)}, losers - {Pick(keys)}, maxAttempts);
    }
  }

  lemma ClaimLosesWeight<V>(r: Row<V>, now: int, maxAttempts: int)
    requires Due(r, now) && r.attempts < maxAttempts
    ensures Weight(Claimed(r, now), false, maxAttempts) < Weight(r, false, maxAttempts)
  {}

  lemma OutcomeLosesWeight<V>(r: Row<V>, o: Outcome, barred: bool, maxAttempts: int)
    requires r.status == InFlight && r.attempts < maxAttempts && FitsBudget(o, r.attempts, maxAttempts)
    requires o.Deferred? ==> barred
    ensures Weight(QueueRows.After(r, o), barred, maxAttempts) < Weight(r, barred, maxAttempts)
  {}

  /** Every claim and every outcome uses up potential. */
  lemma StepUsesPotential<K(!new), V>(s: State<K, V>, step: Step<K, V>, maxAttempts: int)
    requires Inv(s, maxAttempts) && Enabled(s, step, maxAttempts) && WorkerStep(step)
    ensures Potential(Next(s, step), maxAttempts) + Work([step]) <= Potential(s, maxAttempts)
  {
    var t := Next(s, step);
    var losers := LosersOf(s, step, maxAttempts);
    hide Inv, Enabled, Next, Weight;
    assert [step][..0] == [];
    TotalShrinks(s, t, s.rows.Keys, losers, maxAttempts);
  }

  lemma LosersOf<K(!new), V>(s: State<K, V>, step: Step<K, V>, maxAttempts: int) returns (losers: set<K>)
    requires Inv(s, maxAttempts) && Enabled(s, step, maxAttempts) && WorkerStep(step)
    ensures losers <= s.rows.Keys == Next(s, step).rows.Keys && Next(s, step).barred == s.barred
    ensures losers == {} <==> !Works(step)
    ensures var t := Next(s, step);
            && (forall k <- losers ::
               Weight(t.rows[k], k in s.barred, maxAttempts) < Weight(s.rows[k], k in s.barred, maxAttempts))
            && (forall k <- s.rows :: k !in losers ==>
                  Weight(t.rows[k], k in s.barred, maxAttempts) == Weight(s.rows[k], k in s.barred, maxAttempts))
  {
    hide Exclusive, Truthful;
    match step
    case Claim(w, keys, now) =>
      losers := keys;
      forall k | k in keys
        ensures Weight(Next(s, step).rows[k], k in s.barred, maxAttempts)
                < Weight(s.rows[k], k in s.barred, maxAttempts)
      {
        ClaimLosesWeight(s.rows[k], now, maxAttempts);
      }
    case Resolve(w, k, o) =>
      assert HeldAs(s.rows[k], s.held[w][k]);
      losers := {k};
      OutcomeLosesWeight(s.rows[k], o, k in s.barred, maxAttempts);
    case Send(_, _) =>
      losers := {};
    case ClearItemId(_, _) =>
      losers := {};
  }

  /** The number of claims and outcomes of any run of the workers is bounded by the potential at its start. */
  lemma {:induction false} RunsAreBounded<K(!new), V>(s: State<K, V>, steps: seq<Step<K, V>>, maxAttempts: int)
    requires Inv(s, maxAttempts) && maxAttempts >= 1
    requires Runs(s, steps, maxAttempts) && forall step <- steps :: WorkerStep(step)
    ensures Work(steps) + Potential(End(s, steps), maxAttempts) <= Potential(s, maxAttempts)
    ensures Inv(End(s, steps), maxAttempts)
  {
    hide Inv, Next, Enabled, Potential;
    if steps != [] {
      var init, last := steps[..|steps| - 1], steps[|steps| - 1];
      RunsAreBounded(s, init, maxAttempts);
      KeptExactlyByHarmlessSteps(End(s, init), last, maxAttempts);
      StepUsesPotential(End(s, init), last, maxAttempts);
    }
  }

  // ---------- what is left at the end ----------

  lemma HoldersCanAct<K(!new), V>(s: State<K, V>, w: nat, k: K, maxAttempts: int)
    requires k in s.Of(w)
    ensures exists step :: Works(step) && Enabled(s, step, maxAttempts)
  {
    assert Enabled(s, Resolve(w, k, GivenUp("")), maxAttempts);
  }

  /** When at no time any claim or outcome is possible, all that is left is done, given up, or waiting under a hold. */
  lemma IdleMeansDone<K(!new), V>(s: State<K, V>, idle: nat, maxAttempts: int)
    requires Inv(s, maxAttempts) && NoOrphans(s) && s.Of(idle).Keys == {}
    requires forall step :: Works(step) ==> !Enabled(s, step, maxAttempts)
    ensures forall k <- s.rows ::
              s.rows[k].status == Submitted || s.rows[k].status == Failed || (Waiting(s.rows[k]) && k in s.barred)
  {
    forall k | k in s.rows && s.rows[k].status != Submitted && s.rows[k].status != Failed
      ensures Waiting(s.rows[k]) && k in s.barred
    {
      assert !Enabled(s, Claim(idle, {k}, s.rows[k].retryAfter), maxAttempts);
      if s.rows[k].status == InFlight {
        var w :| w in s.held && k in s.held[w];
        HoldersCanAct(s, w, k, maxAttempts);
      }
    }
  }
}
