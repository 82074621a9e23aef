/** Upserts keyed by an identity: the shape of `dict[key] = merge(dict.get(key), item)` loops in
    Python and of `UNWIND ... MERGE ... ON CREATE ... ON MATCH` statements in Cypher. */
module MapFold {
  import opened Prelude

  datatype Upsert<!K(==), !V, !I> = Upsert(key: I -> K, merge: (Option<V>, I) -> V)

  function Apply<K, V, I>(u: Upsert<K, V, I>, m: map<K, V>, item: I): map<K, V> {
    m[u.key(item) := u.merge(Get(m, u.key(item)), item)]
  }

  /** The items one after the other, each seeing what the earlier ones left. */
  function ApplyAll<K, V, I>(u: Upsert<K, V, I>, m: map<K, V>, items: seq<I>): map<K, V> {
    if items == [] then m
    else Apply(u, ApplyAll(u, m, items[..|items| - 1]), items[|items| - 1])
  }

  ghost predicate UniqueKeys<K, V, I>(u: Upsert<K, V, I>, items: seq<I>) {
    forall i, j :: 0 <= i < j < |items| ==> u.key(items[i]) != u.key(items[j])
  }

  ghost function Keys<K, V, I>(u: Upsert<K, V, I>, items: seq<I>): set<K> {
    set i | 0 <= i < |items| :: u.key(items[i])
  }

  lemma KeysMember<K, V, I>(u: Upsert<K, V, I>, items: seq<I>, x: I)
    requires x in items
    ensures u.key(x) in Keys(u, items)
  {
    var i :| 0 <= i < |items| && items[i] == x;
  }

  lemma KeysAppend<K, V, I>(u: Upsert<K, V, I>, a: seq<I>, b: seq<I>)
    ensures Keys(u, a + b) == Keys(u, a) + Keys(u, b)
  {
    forall k | k in Keys(u, a) + Keys(u, b) ensures k in Keys(u, a + b) {
      if k in Keys(u, a) {
        var i :| 0 <= i < |a| && u.key(a[i]) == k;
        assert (a + b)[i] == a[i];
      } else {
        var i :| 0 <= i < |b| && u.key(b[i]) == k;
        assert (a + b)[|a| + i] == b[i];
      }
    }
  }

  lemma {:induction false} ApplyAppend<K, V, I>(u: Upsert<K, V, I>, m: map<K, V>, a: seq<I>, b: seq<I>)
    ensures ApplyAll(u, m, a + b) == ApplyAll(u, ApplyAll(u, m, a), b)
  {
    if b == [] {
      assert a + b == a;
    } else {
      assert (a + b)[..|a + b| - 1] == a + b[..|b| - 1];
      ApplyAppend(u, m, a, b[..|b| - 1]);
    }
  }

  lemma {:induction false} ApplyKeys<K, V, I>(u: Upsert<K, V, I>, m: map<K, V>, items: seq<I>)
    ensures ApplyAll(u, m, items).Keys == m.Keys + Keys(u, items)
  {
    if items != [] {
      ApplyKeys(u, m, items[..|items| - 1]);
      KeysAppend(u, items[..|items| - 1], [items[|items| - 1]]);
      assert items == items[..|items| - 1] + [items[|items| - 1]];
      assert Keys(u, [items[|items| - 1]]) == {u.key(items[|items| - 1])} by {
        assert [items[|items| - 1]][0] == items[|items| - 1];
      }
    }
  }

  lemma {:induction false} ApplyUntouched<K, V, I>(u: Upsert<K, V, I>, m: map<K, V>, items: seq<I>, k: K)
    requires k !in Keys(u, items)
    ensures Get(ApplyAll(u, m, items), k) == Get(m, k)
  {
    if items != [] {
      var last := |items| - 1;
      assert u.key(items[last]) in Keys(u, items);
      assert forall i :: 0 <= i < last ==> u.key(items[..last][i]) == u.key(items[i]);
      ApplyUntouched(u, m, items[..last], k);
    }
  }

  /** With distinct keys each item meets the value the map had at the start. */
  lemma {:induction false} ApplyAt<K, V, I>(u: Upsert<K, V, I>, m: map<K, V>, items: seq<I>, i: nat)
    requires UniqueKeys(u, items) && i < |items|
    ensures Get(ApplyAll(u, m, items), u.key(items[i])) == Some(u.merge(Get(m, u.key(items[i])), items[i]))
  {
    var last := |items| - 1;
    if i == last {
      assert u.key(items[last]) !in Keys(u, items[..last]);
      ApplyUntouched(u, m, items[..last], u.key(items[last]));
    } else {
      assert u.key(items[last]) != u.key(items[i]);
      ApplyAt(u, m, items[..last], i);
    }
  }

  /** Distinct keys: the order of the items does not matter. */
  lemma ApplyPermuted<K, V, I>(u: Upsert<K, V, I>, m: map<K, V>, a: seq<I>, b: seq<I>)
    requires UniqueKeys(u, a) && UniqueKeys(u, b)
    requires forall x :: x in a <==> x in b
    ensures ApplyAll(u, m, a) == ApplyAll(u, m, b)
  {
    var ma, mb := ApplyAll(u, m, a), ApplyAll(u, m, b);
    SameElementsSameKeys(u, a, b);
    ApplyKeys(u, m, a);
    ApplyKeys(u, m, b);
    forall k | k in ma ensures Get(ma, k) == Get(mb, k) {
      if k in Keys(u, a) {
        var i :| 0 <= i < |a| && u.key(a[i]) == k;
        ApplyAt(u, m, a, i);
        assert a[i] in b;
        var j :| 0 <= j < |b| && b[j] == a[i];
        ApplyAt(u, m, b, j);
      } else {
        ApplyUntouched(u, m, a, k);
        ApplyUntouched(u, m, b, k);
      }
    }
    MapsEqual(ma, mb);
  }

  lemma SameElementsSameKeys<K, V, I>(u: Upsert<K, V, I>, a: seq<I>, b: seq<I>)
    requires forall x :: x in a <==> x in b
    ensures Keys(u, a) == Keys(u, b)
  {
    forall k | k in Keys(u, a) ensures k in Keys(u, b) {
      var i :| 0 <= i < |a| && u.key(a[i]) == k;
      assert a[i] in b;
      KeysMember(u, b, a[i]);
    }
    forall k | k in Keys(u, b) ensures k in Keys(u, a) {
      var i :| 0 <= i < |b| && u.key(b[i]) == k;
      assert b[i] in a;
      KeysMember(u, a, b[i]);
    }
  }

  lemma MapsEqual<K, V>(a: map<K, V>, b: map<K, V>)
    requires a.Keys == b.Keys
    requires forall k :: k in a ==> Get(a, k) == Get(b, k)
    ensures a == b
  {
    forall k | k in a ensures a[k] == b[k] {
      assert Get(a, k) == Get(b, k);
    }
  }

  lemma SameEverywhere<K(!new), V>(a: map<K, V>, b: map<K, V>)
    requires forall k :: Get(a, k) == Get(b, k)
    ensures a == b
  {
    forall k ensures k in a <==> k in b {
      assert Get(a, k) == Get(b, k);
    }
    MapsEqual(a, b);
  }

  lemma UniqueAppend<K, V, I>(u: Upsert<K, V, I>, a: seq<I>, b: seq<I>)
    requires UniqueKeys(u, a + b)
    ensures UniqueKeys(u, a) && UniqueKeys(u, b)
    ensures Keys(u, a) !! Keys(u, b)
  {
    forall i, j | 0 <= i < j < |a| ensures u.key(a[i]) != u.key(a[j]) {
      assert (a + b)[i] == a[i] && (a + b)[j] == a[j];
    }
    forall i, j | 0 <= i < j < |b| ensures u.key(b[i]) != u.key(b[j]) {
      assert (a + b)[|a| + i] == b[i] && (a + b)[|a| + j] == b[j];
    }
    forall i, j | 0 <= i < |a| && 0 <= j < |b| ensures u.key(a[i]) != u.key(b[j]) {
      assert (a + b)[i] == a[i] && (a + b)[|a| + j] == b[j];
    }
  }

  lemma {:induction false} UniqueFilter<K, V, I(!new)>(u: Upsert<K, V, I>, items: seq<I>, p: I -> bool)
    requires UniqueKeys(u, items)
    ensures UniqueKeys(u, Filter(items, p))
  {
    if items != [] {
      var last := |items| - 1;
      UniqueFilter(u, items[..last], p);
      var head := Filter(items[..last], p);
      forall i | 0 <= i < |head| ensures u.key(head[i]) != u.key(items[last]) {
        assert head[i] in items[..last];
        var j :| 0 <= j < last && items[..last][j] == head[i];
      }
    }
  }
}
