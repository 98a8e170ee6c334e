/** `ORDER BY ... LIMIT n` on a finite set of keys. */
module QueueOrder {
  import opened Wrappers

  ghost predicate TotalPreorder<K(!new)>(keys: set<K>, le: (K, K) -> bool) {
    && (forall a <- keys, b <- keys :: le(a, b) || le(b, a))
    && (forall a <- keys, b <- keys, c <- keys :: le(a, b) && le(b, c) ==> le(a, c))
  }

  ghost predicate Least<K(!new)>(k: K, keys: set<K>, le: (K, K) -> bool) {
    k in keys && forall o <- keys :: le(k, o)
  }

  lemma {:induction false} LeastExists<K(!new)>(keys: set<K>, le: (K, K) -> bool)
    requires keys != {} && TotalPreorder(keys, le)
    ensures exists k :: Least(k, keys, le)
    decreases |keys|
  {
    var k :| k in keys;
    var rest := keys - {k};
    if rest == {} {
      assert keys == {k};
      assert Least(k, keys, le);
    } else {
      LeastExists(rest, le);
      var m :| Least(m, rest, le);
      if le(k, m) {
        assert Least(k, keys, le);
      } else {
        assert Least(m, keys, le);
      }
    }
  }

  method First<K(!new, ==)>(keys: set<K>, le: (K, K) -> bool) returns (first: Option<K>)
    requires TotalPreorder(keys, le)
    ensures match first
            case None => keys == {}
            case Some(k) => Least(k, keys, le)
  {
    if keys == {} {
      return None;
    }
    LeastExists(keys, le);
    var k :| k in keys && forall o <- keys :: le(k, o);
    return Some(k);
  }

  /** The first `|listed|` keys of the order, each once and in order. */
  ghost predicate Lists<K(!new)>(listed: seq<K>, keys: set<K>, le: (K, K) -> bool) {
    && (forall k <- listed :: k in keys)
    && (forall i, j :: 0 <= i < j < |listed| ==> listed[i] != listed[j] && le(listed[i], listed[j]))
    && (forall a <- listed, b <- keys :: b !in listed ==> le(a, b))
  }

  method Ordered<K(!new, ==)>(keys: set<K>, le: (K, K) -> bool, limit: nat) returns (listed: seq<K>)
    requires TotalPreorder(keys, le)
    ensures Lists(listed, keys, le)
    ensures |listed| == if limit < |keys| then limit else |keys|
  {
    listed := [];
    var rest := keys;
    while |listed| < limit && rest != {}
      invariant rest <= keys && |listed| <= limit && |listed| + |rest| == |keys|
      invariant forall k :: k in keys <==> k in listed || k in rest
      invariant forall k <- listed :: k !in rest
      invariant Lists(listed, keys, le)
      decreases rest
    {
      var first := First(rest, le);
      var k := first.value;
      assert forall a <- listed :: le(a, k);
      listed := listed + [k];
      rest := rest - {k};
    }
  }

  /** Without a limit everything is listed. */
  lemma ListsAll<K(!new)>(listed: seq<K>, keys: set<K>, le: (K, K) -> bool)
    requires Lists(listed, keys, le) && |listed| == |keys|
    ensures forall k :: k in listed <==> k in keys
  {
    var elements := set k | k in listed;
    Cardinality(listed);
    assert |keys| == |elements| + |keys - elements|;
  }

  lemma {:induction false} Cardinality<K>(s: seq<K>)
    requires forall i, j :: 0 <= i < j < |s| ==> s[i] != s[j]
    ensures |set k | k in s| == |s|
  {
    if s == [] {
      assert (set k | k in s) == {};
    } else {
      var init, last := s[..|s| - 1], s[|s| - 1];
      Cardinality(init);
      assert (set k | k in s) == (set k | k in init) + {last};
    }
  }
}
