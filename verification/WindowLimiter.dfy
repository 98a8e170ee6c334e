/** A sliding-window rate limiter shared by many acquirers. */
module WindowLimiter {
  import opened Ranges
  import opened Wrappers

  ghost predicate Sorted(s: seq<real>) {
    forall i, j :: 0 <= i <= j < |s| ==> s[i] <= s[j]
  }

  /** Every grant comes at least one period after the one `max` places before it. */
  ghost predicate Spaced(history: seq<real>, max: nat, period: real) {
    forall i :: 0 <= i && i + max < |history| ==> history[i + max] - history[i] >= period
  }

  class Limiter {
    const max: nat
    const period: real
    var events: seq<real>

    // All grants ever made, and the latest time at which anybody looked at the clock.
    ghost var history: seq<real>
    ghost var latest: real

    /** The deque is a suffix of the history; what was dropped is a whole period old. */
    ghost predicate Valid()
      reads this
    {
      && max >= 1 && |events| <= max && |events| <= |history|
      && events == history[|history| - |events|..]
      && Sorted(history) && Spaced(history, max, period)
      && (forall i :: 0 <= i < |history| ==> history[i] <= latest)
      && (forall i :: 0 <= i < |history| - |events| ==> latest - history[i] >= period)
    }

    constructor (max: nat, period: real)
      requires max >= 1
      ensures Valid() && history == [] && this.max == max && this.period == period
    {
      this.max, this.period, events, history, latest := max, period, [], [], 0.0;
    }

    /** Fewer than `max` grants are younger than a period. */
    ghost predicate Free(now: real)
      requires max >= 1
      reads this
    {
      |history| < max || now - history[|history| - max] >= period
    }

    /**
     One round under the lock at time `now`: a grant, or how long to wait.  The grant comes exactly
     when fewer than `max` grants are younger than a period, and the wait lasts until the oldest is not.
     */
    method TryAcquire(now: real) returns (wait: Option<real>)
      requires Valid() && latest <= now
      modifies this
      ensures Valid() && latest == now
      ensures wait.None? <==> old(Free(now))
      ensures wait.None? ==> history == old(history) + [now]
      ensures wait.Some? ==> history == old(history) && wait.value > 0.0
      ensures wait.Some? ==>
                && |history| >= max && (forall i :: |history| - max <= i < |history| ==> now - history[i] < period)
                && var left := history[|history| - max] + period - now;
                   wait.value >= left && wait.value >= 0.001 && (wait.value == left || wait.value == 0.001)
    {
      Expire(now);
      if |events| < max {
        FewEvents(now);
        Grant(now);
        return None;
      }
      YoungEvents(now);
      var left := period - (now - events[0]);
      return Some(if left < 0.001 then 0.001 else left);
    }

    /** Drops the events that are a whole period old. */
    method Expire(now: real)
      requires Valid() && latest <= now
      modifies this
      ensures Valid() && latest == now && history == old(history)
      ensures events != [] ==> now - events[0] < period
    {
      hide Sorted, Spaced;
      latest := now;
      while events != [] && now - events[0] >= period
        invariant Valid() && latest == now && history == old(history)
        decreases |events|
      {
        assert events[0] == history[|history| - |events|];
        events := events[1..];
      }
    }

    method Grant(now: real)
      requires Valid() && latest == now && |events| < max
      modifies this
      ensures Valid() && latest == now && history == old(history) + [now]
    {
      OneMoreGrant(history, max, period, now, |events|);
      hide Sorted, Spaced;
      events := events + [now];
      history := history + [now];
    }

    /** What is not in the deque any more is old. */
    lemma FewEvents(now: real)
      requires Valid() && latest == now && |events| < max
      ensures Free(now)
    {
      hide Spaced, Sorted;
    }

    /** A full deque whose head is young holds nothing but the last `max` grants, all of them young. */
    lemma YoungEvents(now: real)
      requires Valid() && |events| == max && now - events[0] < period
      ensures events[0] == history[|history| - max]
      ensures forall i :: |history| - max <= i < |history| ==> now - history[i] < period
    {
      hide Spaced;
    }

    /** Any number of rounds of other acquirers, at any later times. */
    method Others(now: real) returns (later: real)
      requires Valid() && latest <= now
      modifies this
      ensures Valid() && latest <= later && now <= later && old(history) <= history
    {
      later := now;
      var rounds: int := *;
      rounds := if rounds < 0 then 0 else rounds;
      for i := 0 to rounds
        invariant Valid() && latest <= later && now <= later && old(history) <= history
      {
        var step: real := *;
        later := later + if step < 0.0 then 0.0 else step;
        var wait := TryAcquire(later);
      }
    }

    /**
     A caller's rounds, with the others in between; it is granted at most once, at the end.  It
     is not starved: between any two rounds that failed somebody else was granted.
     */
    method Acquire(start: real, rounds: nat) returns (granted: bool, at: real)
      requires Valid() && latest <= start
      modifies this
      ensures Valid() && old(history) <= history && start <= at
      ensures granted ==> history != [] && history[|history| - 1] == at
      ensures !granted && rounds >= 1 ==> |history| >= |old(history)| + rounds - 1
      ensures rounds >= 1 && old(Free(start)) ==> granted && at == start && history == old(history) + [start]
    {
      hide Sorted, Spaced;
      granted, at := false, start;
      ghost var seen := 0;
      for i := 0 to rounds
        invariant Valid() && latest <= at && start <= at && old(history) <= history
        invariant i == 0 ==> history == old(history) && at == start
        invariant i >= 1 ==> !old(Free(start))
        invariant i >= 1 ==> |old(history)| + i - 1 <= seen <= |history| && (|history| == seen ==> Free(at))
      {
        var wait := TryAcquire(at);
        if wait.None? {
          return true, at;
        }
        seen := |history|;
        at := Others(at + wait.value);
      }
    }
  }

  /** A grant right after everything older than a period was dropped keeps the spacing. */
  lemma OneMoreGrant(history: seq<real>, max: nat, period: real, now: real, kept: nat)
    requires Sorted(history) && Spaced(history, max, period) && kept <= |history| && kept < max
    requires forall i :: 0 <= i < |history| ==> history[i] <= now
    requires forall i :: 0 <= i < |history| - kept ==> now - history[i] >= period
    ensures Sorted(history + [now]) && Spaced(history + [now], max, period)
  {}

  // ---------- the bound ----------

  ghost function Within(history: seq<real>, start: real, period: real): set<int> {
    set i | 0 <= i < |history| && start <= history[i] < start + period
  }

  lemma {:induction false} SmallestOf(s: set<int>) returns (m: int)
    requires s != {}
    ensures m in s && forall i <- s :: m <= i
    decreases |s|
  {
    assert exists k :: k in s by {
      assert (forall k :: k !in s) ==> s == {};
    }
    m :| m in s;
    var rest := s - {m};
    if rest != {} {
      var r := SmallestOf(rest);
      assert forall i <- s :: i == m || i in rest;
      m := if r < m then r else m;
    } else {
      assert s == {m};
    }
  }

  lemma FarApart(history: seq<real>, max: nat, period: real, a: int, b: int)
    requires Sorted(history) && Spaced(history, max, period) && 0 <= a && a + max <= b < |history|
    ensures history[b] - history[a] >= period
  {
    assert history[a + max] <= history[b];
  }

  /** No half-open window of one period holds more than `max` grants, wherever it starts. */
  lemma AtMostMaxPerWindow(history: seq<real>, max: nat, period: real, start: real)
    requires Sorted(history) && Spaced(history, max, period)
    ensures |Within(history, start, period)| <= max
  {
    var inside := Within(history, start, period);
    if inside != {} {
      var first := SmallestOf(inside);
      forall i | i in inside
        ensures i in Range(first, max)
      {
        if i >= first + max {
          FarApart(history, max, period, first, i);
          assert false;
        }
      }
      SubsetSize(inside, Range(first, max));
    }
  }
}
