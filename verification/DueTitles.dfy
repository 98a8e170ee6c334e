/** Which of the due titles are harvested next: a quarter of the places is kept for new titles. */
module DueTitles {
  function Filter<T>(rows: seq<T>, keep: T -> bool): seq<T> {
    if rows == [] then []
    else
      var last := rows[|rows| - 1];
      Filter(rows[..|rows| - 1], keep) + if keep(last) then [last] else []
  }

  datatype Title = Title(mediaType: string, tmdb: int, harvested: bool)

  ghost predicate Distinct<T>(s: seq<T>) {
    forall i, j :: 0 <= i < j < |s| ==> s[i] != s[j]
  }

  function Min(a: int, b: int): int {
    if a < b then a else b
  }

  /** A slice as Python takes it: cut off at the ends of the list. */
  function Slice<T>(s: seq<T>, from: int, to: int): seq<T>
    requires 0 <= from
  {
    if from >= |s| || to <= from then [] else s[from..Min(to, |s|)]
  }

  predicate IsNew(t: Title) {
    !t.harvested
  }

  predicate IsKnown(t: Title) {
    t.harvested
  }

  function NewOnes(rows: seq<Title>): seq<Title> {
    Filter(rows, IsNew)
  }

  function Others(rows: seq<Title>): seq<Title> {
    Filter(rows, IsKnown)
  }

  lemma {:induction false} FilterMembers<T(!new)>(rows: seq<T>, keep: T -> bool)
    ensures forall r :: r in Filter(rows, keep) <==> r in rows && keep(r)
  {
    if rows != [] {
      var init, last := rows[..|rows| - 1], rows[|rows| - 1];
      FilterMembers(init, keep);
      assert rows == init + [last];
    }
  }

  lemma {:induction false} FilterKeepsDistinct<T(!new)>(rows: seq<T>, keep: T -> bool)
    requires Distinct(rows)
    ensures Distinct(Filter(rows, keep))
  {
    if rows != [] {
      var init := rows[..|rows| - 1];
      FilterKeepsDistinct(init, keep);
      FilterMembers(init, keep);
      assert forall r <- init :: r != rows[|rows| - 1];
    }
  }

  lemma {:induction false} FilterSplits(rows: seq<Title>)
    ensures |NewOnes(rows)| + |Others(rows)| == |rows|
  {
    if rows != [] {
      FilterSplits(rows[..|rows| - 1]);
    }
  }

  /**
   The selection from the due rows in priority order: `n` new titles and `m` others, in each
   class the first ones; together as many as there are places or rows; and the new titles get
   at least a quarter of the places, rounded up, as far as there are that many.
   */
  method SelectDueTitles(rows: seq<Title>, limit: int) returns (selected: seq<Title>, ghost n: nat, ghost m: nat)
    requires Distinct(rows)
    ensures n <= |NewOnes(rows)| && m <= |Others(rows)|
    ensures NewOnes(selected) == NewOnes(rows)[..n] && Others(selected) == Others(rows)[..m]
    ensures |selected| == n + m == if limit < 0 then 0 else Min(limit, |rows|)
    ensures Distinct(selected) && forall t <- selected :: t in rows
    ensures limit > 0 ==> n >= Min(|NewOnes(rows)|, (limit + 3) / 4)
  {
    var places := if limit < 0 then 0 else limit;
    if places == 0 {
      return [], 0, 0;
    }
    var first, refresh := NewOnes(rows), Others(rows);
    FilterSplits(rows);
    hide NewOnes, Others, Distinct, Slice, Filter;
    var reserved := if first != [] then (if (places + 3) / 4 < 1 then 1 else (places + 3) / 4) else 0;
    var a, b := Slice(first, 0, reserved), Slice(refresh, 0, places - reserved);
    var c, d: seq<Title> := [], [];
    if |a| + |b| < places {
      c := Slice(first, reserved, reserved + places - |a| - |b|);
    }
    if |a| + |b| + |c| < places {
      d := Slice(refresh, places - reserved, places - reserved + places - |a| - |b| - |c|);
    }
    selected := a + b + c + d;
    n, m := |a| + |c|, |b| + |d|;
    Picks(first, refresh, places, reserved, a, b, c, d);
    TwoClasses(rows, a, b, c, d, n, m);
  }

  /** The four slices make up a prefix of either list, and fill the places. */
  lemma Picks<T>(first: seq<T>, refresh: seq<T>, places: int, reserved: int, a: seq<T>, b: seq<T>, c: seq<T>, d: seq<T>)
    requires places > 0 && reserved == if first != [] then (places + 3) / 4 else 0
    requires a == Slice(first, 0, reserved) && b == Slice(refresh, 0, places - reserved)
    requires c == if |a| + |b| < places then Slice(first, reserved, reserved + places - |a| - |b|) else []
    requires d == if |a| + |b| + |c| < places
                  then Slice(refresh, places - reserved, places - reserved + places - |a| - |b| - |c|) else []
    ensures |a| + |c| <= |first| && a + c == first[..|a| + |c|]
    ensures |b| + |d| <= |refresh| && b + d == refresh[..|b| + |d|]
    ensures |a| + |b| + |c| + |d| == Min(places, |first| + |refresh|)
    ensures |a| + |c| >= Min(|first|, (places + 3) / 4)
  {
    hide Slice;
    SliceIs(first, reserved, reserved + places - |a| - |b|, a, c);
    SliceIs(refresh, places - reserved, places - reserved + places - |a| - |b| - |c|, b, d);
  }

  lemma SliceIs<T>(s: seq<T>, x: int, y: int, a: seq<T>, c: seq<T>)
    requires 0 <= x && a == Slice(s, 0, x) && c == if x < y then Slice(s, x, y) else []
    ensures |a| == Min(x, |s|) && |c| == if x >= |s| || y <= x then 0 else Min(y, |s|) - x
    ensures |a| + |c| <= |s| && a + c == s[..|a| + |c|]
  {}

  lemma FilterOneMore<T>(s: seq<T>, x: T, keep: T -> bool)
    ensures Filter(s + [x], keep) == Filter(s, keep) + if keep(x) then [x] else []
  {
    assert (s + [x])[..|s|] == s;
  }

  lemma {:induction false} FilterConcat<T>(a: seq<T>, b: seq<T>, keep: T -> bool)
    ensures Filter(a + b, keep) == Filter(a, keep) + Filter(b, keep)
  {
    if b == [] {
      assert a + b == a;
    } else {
      var init, last := b[..|b| - 1], b[|b| - 1];
      hide Filter;
      FilterConcat(a, init, keep);
      FilterOneMore(a + init, last, keep);
      FilterOneMore(init, last, keep);
      assert b == init + [last];
      assert a + b == (a + init) + [last];
      Associative(Filter(a, keep), Filter(init, keep), if keep(last) then [last] else []);
    }
  }

  lemma Associative<T>(a: seq<T>, b: seq<T>, c: seq<T>)
    ensures (a + b) + c == a + (b + c)
  {}

  lemma {:induction false} FilterAllOrNone<T(!new)>(s: seq<T>, keep: T -> bool)
    ensures (forall t <- s :: keep(t)) ==> Filter(s, keep) == s
    ensures (forall t <- s :: !keep(t)) ==> Filter(s, keep) == []
  {
    if s != [] {
      var init := s[..|s| - 1];
      FilterAllOrNone(init, keep);
      assert s == init + [s[|s| - 1]];
    }
  }

  lemma FourBlocks<T(!new)>(a: seq<T>, b: seq<T>, c: seq<T>, d: seq<T>, keep: T -> bool)
    ensures Filter(a + b + c + d, keep) == Filter(a, keep) + Filter(b, keep) + Filter(c, keep) + Filter(d, keep)
  {
    hide Filter;
    FilterConcat(a + b + c, d, keep);
    FilterConcat(a + b, c, keep);
    FilterConcat(a, b, keep);
  }

  lemma PrefixOfClass(rows: seq<Title>, keep: Title -> bool, n: nat, p: seq<Title>)
    requires Distinct(rows) && n <= |Filter(rows, keep)| && p == Filter(rows, keep)[..n]
    ensures Distinct(p) && forall t <- p :: t in rows && keep(t)
  {
    FilterKeepsDistinct(rows, keep);
    FilterMembers(rows, keep);
    assert forall t <- p :: t in Filter(rows, keep);
  }

  /** Blocks of alternating class keep the order of either class. */
  lemma TwoClasses(rows: seq<Title>, a: seq<Title>, b: seq<Title>, c: seq<Title>, d: seq<Title>, n: nat, m: nat)
    requires Distinct(rows) && n <= |NewOnes(rows)| && m <= |Others(rows)|
    requires a + c == NewOnes(rows)[..n] && b + d == Others(rows)[..m]
    ensures NewOnes(a + b + c + d) == a + c && Others(a + b + c + d) == b + d
    ensures Distinct(a + b + c + d) && forall t <- a + b + c + d :: t in rows
  {
    PrefixOfClass(rows, IsNew, n, a + c);
    PrefixOfClass(rows, IsKnown, m, b + d);
    hide Filter, Distinct;
    assert forall t :: t in a || t in c ==> t in a + c;
    assert forall t :: t in b || t in d ==> t in b + d;
    ClassOf(a, b, c, d, IsNew);
    KnownOf(a, b, c, d);
    DistinctBlocks(a, b, c, d);
  }

  lemma KnownOf(a: seq<Title>, b: seq<Title>, c: seq<Title>, d: seq<Title>)
    requires forall t :: t in a || t in c ==> !t.harvested
    requires forall t :: t in b || t in d ==> t.harvested
    ensures Filter(a + b + c + d, IsKnown) == b + d
  {
    hide Filter;
    var none: seq<Title> := [];
    assert a + b + c + d == (none + a + b + c) + d;
    ClassOf(none, a, b, c, IsKnown);
    FilterConcat(none + a + b + c, d, IsKnown);
    FilterAllOrNone(d, IsKnown);
    assert none + b + d == b + d;
  }

  lemma ClassOf<T(!new)>(a: seq<T>, b: seq<T>, c: seq<T>, d: seq<T>, keep: T -> bool)
    requires forall t :: t in a || t in c ==> keep(t)
    requires forall t :: t in b || t in d ==> !keep(t)
    ensures Filter(a + b + c + d, keep) == a + c
  {
    hide Filter;
    FourBlocks(a, b, c, d, keep);
    FilterAllOrNone(a, keep);
    FilterAllOrNone(b, keep);
    FilterAllOrNone(c, keep);
    FilterAllOrNone(d, keep);
  }

  lemma DistinctBlocks(a: seq<Title>, b: seq<Title>, c: seq<Title>, d: seq<Title>)
    requires Distinct(a + c) && Distinct(b + d)
    requires forall t :: t in a || t in c ==> !t.harvested
    requires forall t :: t in b || t in d ==> t.harvested
    ensures Distinct(a + b + c + d)
  {
    var s, x, y := a + b + c + d, a + c, b + d;
    forall i, j | 0 <= i < j < |s|
      ensures s[i] != s[j]
    {
      PlaceOf(a, b, c, d, i);
      PlaceOf(a, b, c, d, j);
    }
  }

  /** Where an element of the four blocks stands in its own class. */
  lemma PlaceOf(a: seq<Title>, b: seq<Title>, c: seq<Title>, d: seq<Title>, i: int)
    requires 0 <= i < |a + b + c + d|
    requires forall t :: t in a || t in c ==> !t.harvested
    requires forall t :: t in b || t in d ==> t.harvested
    ensures var s, x, y := a + b + c + d, a + c, b + d;
            if i < |a| then s[i] == x[i] && !s[i].harvested
            else if i < |a| + |b| then s[i] == y[i - |a|] && s[i].harvested
            else if i < |a| + |b| + |c| then s[i] == x[i - |b|] && !s[i].harvested
            else s[i] == y[i - |a| - |c|] && s[i].harvested
  {
    var s := a + b + c + d;
    if i < |a| {
      assert s[i] == a[i] && a[i] in a;
    } else if i < |a| + |b| {
      assert s[i] == b[i - |a|] && b[i - |a|] in b;
    } else if i < |a| + |b| + |c| {
      assert s[i] == c[i - |a| - |b|] && c[i - |a| - |b|] in c;
    } else {
      assert s[i] == d[i - |a| - |b| - |c|] && d[i - |a| - |b| - |c|] in d;
    }
  }
}
