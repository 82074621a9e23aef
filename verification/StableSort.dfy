/** `sorted(values, key=...)` with a numeric key: ascending, and stable. */
module StableSort {
  import opened Prelude

  function Insert<T>(x: T, s: seq<T>, key: T -> real): seq<T> {
    if s == [] then [x]
    else if key(x) < key(s[|s| - 1]) then Insert(x, s[..|s| - 1], key) + [s[|s| - 1]]
    else s + [x]
  }

  function Sorted<T>(s: seq<T>, key: T -> real): seq<T> {
    if s == [] then [] else Insert(s[|s| - 1], Sorted(s[..|s| - 1], key), key)
  }

  ghost predicate Ascending<T>(s: seq<T>, key: T -> real) {
    forall i, j :: 0 <= i <= j < |s| ==> key(s[i]) <= key(s[j])
  }

  lemma {:induction false} InsertMembers<T>(x: T, s: seq<T>, key: T -> real)
    ensures multiset(Insert(x, s, key)) == multiset(s) + multiset{x}
    ensures var r := Insert(x, s, key); forall i :: 0 <= i < |r| ==> r[i] == x || r[i] in s
  {
    if s != [] {
      var head, last := s[..|s| - 1], s[|s| - 1];
      assert s == head + [last];
      if key(x) < key(last) {
        InsertMembers(x, head, key);
      }
    }
  }

  lemma {:induction false} InsertSorts<T>(x: T, s: seq<T>, key: T -> real)
    requires Ascending(s, key)
    ensures Ascending(Insert(x, s, key), key)
  {
    if s != [] && key(x) < key(s[|s| - 1]) {
      var head, last := s[..|s| - 1], s[|s| - 1];
      InsertSorts(x, head, key);
      InsertMembers(x, head, key);
      var r := Insert(x, head, key);
      forall i | 0 <= i < |r| ensures key(r[i]) <= key(last) {
        if r[i] != x {
          assert r[i] in head;
          var k :| 0 <= k < |head| && head[k] == r[i];
          assert s[k] == r[i];
        }
      }
    }
  }

  /** Ascending, and a permutation. */
  lemma {:induction false} SortedSorts<T>(s: seq<T>, key: T -> real)
    ensures Ascending(Sorted(s, key), key) && multiset(Sorted(s, key)) == multiset(s) && |Sorted(s, key)| == |s|
  {
    if s != [] {
      SortedSorts(s[..|s| - 1], key);
      InsertSorts(s[|s| - 1], Sorted(s[..|s| - 1], key), key);
      InsertMembers(s[|s| - 1], Sorted(s[..|s| - 1], key), key);
      assert s == s[..|s| - 1] + [s[|s| - 1]];
    }
    assert |Sorted(s, key)| == |multiset(Sorted(s, key))| == |multiset(s)|;
  }

  function Keyed<T>(key: T -> real, v: real): T -> bool {
    y => key(y) == v
  }

  lemma FilterOne<T(!new)>(x: T, p: T -> bool)
    ensures Filter([x], p) == if p(x) then [x] else []
  {
    assert [x][..0] == [];
    assert Filter([x][..0], p) == [];
  }

  lemma {:induction false} InsertStable<T(!new)>(x: T, s: seq<T>, key: T -> real, v: real)
    ensures Filter(Insert(x, s, key), Keyed(key, v)) == Filter(s, Keyed(key, v)) + Filter([x], Keyed(key, v))
  {
    if s != [] && key(x) < key(s[|s| - 1]) {
      var head, last := s[..|s| - 1], s[|s| - 1];
      InsertStable(x, head, key, v);
      PassedOver(x, head, last, Insert(x, head, key), Keyed(key, v));
      assert s == head + [last];
    } else {
      FilterAppend(s, [x], Keyed(key, v));
      assert s == [] ==> s + [x] == [x];
    }
  }

  /** `x` moved in front of `last`, which the filter does not select together with it. */
  lemma PassedOver<T(!new)>(x: T, head: seq<T>, last: T, inserted: seq<T>, p: T -> bool)
    requires Filter(inserted, p) == Filter(head, p) + Filter([x], p) && !(p(x) && p(last))
    ensures Filter(inserted + [last], p) == Filter(head + [last], p) + Filter([x], p)
  {
    FilterAppend(inserted, [last], p);
    FilterAppend(head, [last], p);
    OneOfTwo(x, last, p);
    SwapTails(Filter(head, p), Filter([x], p), Filter([last], p));
  }

  lemma SwapTails<T>(a: seq<T>, x: seq<T>, y: seq<T>)
    requires x + y == y + x
    ensures (a + x) + y == (a + y) + x
  {
    assert (a + x) + y == a + (x + y);
    assert (a + y) + x == a + (y + x);
  }

  lemma OneOfTwo<T(!new)>(x: T, y: T, p: T -> bool)
    requires !(p(x) && p(y))
    ensures Filter([x], p) + Filter([y], p) == Filter([y], p) + Filter([x], p)
  {
    FilterOne(x, p);
    FilterOne(y, p);
  }

  /** Elements with equal keys keep their order. */
  lemma {:induction false} SortedStable<T(!new)>(s: seq<T>, key: T -> real, v: real)
    ensures Filter(Sorted(s, key), Keyed(key, v)) == Filter(s, Keyed(key, v))
  {
    if s != [] {
      var head, last := s[..|s| - 1], s[|s| - 1];
      assert s == head + [last];
      SortedStable(head, key, v);
      InsertStable(last, Sorted(head, key), key, v);
      FilterAppend(head, [last], Keyed(key, v));
    }
  }

  // ----- distinct elements -----

  ghost function Position<T>(s: seq<T>, x: T): nat
    requires x in s
  {
    var i :| 0 <= i < |s| && s[i] == x; i
  }

  /** A smaller key, or an equal key and an earlier place. */
  ghost predicate Precedes<T>(s: seq<T>, key: T -> real, x: T, y: T) {
    && x in s && y in s
    && (key(x) < key(y) || (key(x) == key(y) && Position(s, x) < Position(s, y)))
  }

  ghost predicate InPrecedence<T>(r: seq<T>, s: seq<T>, key: T -> real) {
    forall i, j :: 0 <= i < j < |r| ==> Precedes(s, key, r[i], r[j])
  }

  lemma PrecedesInPrefix<T>(s: seq<T>, key: T -> real, x: T, y: T)
    requires Distinct(s) && s != [] && Precedes(s[..|s| - 1], key, x, y)
    ensures Precedes(s, key, x, y)
  {
    var h := s[..|s| - 1];
    assert s[Position(h, x)] == x && s[Position(h, y)] == y;
    assert s[Position(s, x)] == x && s[Position(s, y)] == y;
  }

  lemma {:induction false} InsertPrecedes<T>(r: seq<T>, s: seq<T>, key: T -> real)
    requires Distinct(s) && s != [] && InPrecedence(r, s, key) && forall i :: 0 <= i < |r| ==> r[i] in s[..|s| - 1]
    ensures InPrecedence(Insert(s[|s| - 1], r, key), s, key)
  {
    var x := s[|s| - 1];
    if r != [] {
      var head, last := r[..|r| - 1], r[|r| - 1];
      if key(x) < key(last) {
        InsertPrecedes(head, s, key);
        InsertMembers(x, head, key);
        var q := Insert(x, head, key);
        assert x in s && last in s[..|s| - 1] && last in s;
        forall i | 0 <= i < |q| ensures Precedes(s, key, q[i], last) {
          if q[i] != x {
            assert q[i] in head;
            var k :| 0 <= k < |head| && head[k] == q[i];
            assert r[k] == q[i];
          }
        }
      } else {
        forall i | 0 <= i < |r| ensures Precedes(s, key, r[i], x) {
          LastComesLast(s, r[i]);
          assert i < |r| - 1 ==> Precedes(s, key, r[i], r[|r| - 1]);
        }
      }
    }
  }

  lemma LastComesLast<T>(s: seq<T>, y: T)
    requires Distinct(s) && s != [] && y in s[..|s| - 1]
    ensures y in s && Position(s, y) < Position(s, s[|s| - 1])
  {
    var i :| 0 <= i < |s| - 1 && s[..|s| - 1][i] == y;
    assert s[i] == y;
    assert s[Position(s, y)] == y && s[Position(s, s[|s| - 1])] == s[|s| - 1];
  }

  /** Distinct elements come out in one order only: by key, ties by place. */
  lemma {:induction false} SortedPrecedence<T>(s: seq<T>, key: T -> real)
    requires Distinct(s)
    ensures InPrecedence(Sorted(s, key), s, key)
  {
    if s != [] {
      var head := s[..|s| - 1];
      var r := Sorted(head, key);
      SortedPrecedence(head, key);
      SortedSorts(head, key);
      forall i | 0 <= i < |r| ensures r[i] in head {
        assert r[i] in multiset(r);
      }
      forall i, j | 0 <= i < j < |r| ensures Precedes(s, key, r[i], r[j]) {
        PrecedesInPrefix(s, key, r[i], r[j]);
      }
      InsertPrecedes(r, s, key);
    }
  }
}
