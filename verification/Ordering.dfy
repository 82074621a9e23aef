/** Python's order on strings and on tuples of strings, and `sorted` with a key. */
module Ordering {
  import opened Prelude

  predicate StringLess(a: string, b: string) {
    b != [] && (a == [] || a[0] < b[0] || (a[0] == b[0] && StringLess(a[1..], b[1..])))
  }

  /** Exactly one of less, equal, greater. */
  lemma {:induction false} StringLessTotal(a: string, b: string)
    ensures a == b || StringLess(a, b) || StringLess(b, a)
    ensures !(StringLess(a, b) && StringLess(b, a))
    ensures a == b ==> !StringLess(a, b)
  {
    if a != [] && b != [] && a[0] == b[0] {
      StringLessTotal(a[1..], b[1..]);
      assert a == [a[0]] + a[1..] && b == [b[0]] + b[1..];
    }
  }

  lemma {:induction false} StringLessTransitive(a: string, b: string, c: string)
    requires StringLess(a, b) && StringLess(b, c)
    ensures StringLess(a, c)
  {
    if a != [] && a[0] == b[0] == c[0] {
      StringLessTransitive(a[1..], b[1..], c[1..]);
    }
  }

  /** Tuples compare component by component. */
  predicate TupleLess(a: seq<string>, b: seq<string>) {
    b != [] && (a == [] || StringLess(a[0], b[0]) || (a[0] == b[0] && TupleLess(a[1..], b[1..])))
  }

  lemma {:induction false} TupleLessTotal(a: seq<string>, b: seq<string>)
    ensures a == b || TupleLess(a, b) || TupleLess(b, a)
    ensures !(TupleLess(a, b) && TupleLess(b, a))
    ensures a == b ==> !TupleLess(a, b)
  {
    if a != [] && b != [] {
      StringLessTotal(a[0], b[0]);
      if a[0] == b[0] {
        TupleLessTotal(a[1..], b[1..]);
        assert a == [a[0]] + a[1..] && b == [b[0]] + b[1..];
      }
    }
  }

  lemma {:induction false} TupleLessTransitive(a: seq<string>, b: seq<string>, c: seq<string>)
    requires TupleLess(a, b) && TupleLess(b, c)
    ensures TupleLess(a, c)
  {
    if a != [] {
      StringLessTotal(a[0], a[0]);
      if a[0] == b[0] && b[0] == c[0] {
        TupleLessTransitive(a[1..], b[1..], c[1..]);
      } else if StringLess(a[0], b[0]) && StringLess(b[0], c[0]) {
        StringLessTransitive(a[0], b[0], c[0]);
      }
    }
  }

  // ----- sorted(values, key=...) -----

  function Insert<V>(x: V, s: seq<V>, key: V -> seq<string>): seq<V> {
    if s == [] then [x]
    else if TupleLess(key(s[|s| - 1]), key(x)) then s + [x]
    else Insert(x, s[..|s| - 1], key) + [s[|s| - 1]]
  }

  function SortBy<V>(s: seq<V>, key: V -> seq<string>): seq<V> {
    if s == [] then [] else Insert(s[|s| - 1], SortBy(s[..|s| - 1], key), key)
  }

  ghost predicate StrictlySorted<V>(s: seq<V>, key: V -> seq<string>) {
    forall i, j :: 0 <= i < j < |s| ==> TupleLess(key(s[i]), key(s[j]))
  }

  lemma {:induction false} InsertMembers<V>(x: V, s: seq<V>, key: V -> seq<string>, y: V)
    ensures y in Insert(x, s, key) <==> y == x || y in s
  {
    if s != [] && !TupleLess(key(s[|s| - 1]), key(x)) {
      InsertMembers(x, s[..|s| - 1], key, y);
      assert s == s[..|s| - 1] + [s[|s| - 1]];
    }
  }

  lemma {:induction false} InsertSorted<V(!new)>(x: V, s: seq<V>, key: V -> seq<string>)
    requires StrictlySorted(s, key)
    requires forall y :: y in s ==> key(y) != key(x)
    ensures StrictlySorted(Insert(x, s, key), key)
  {
    if s != [] {
      var shorter, last := s[..|s| - 1], s[|s| - 1];
      assert last in s;
      TupleLessTotal(key(last), key(x));
      if TupleLess(key(last), key(x)) {
        forall i | 0 <= i < |s| - 1 ensures TupleLess(key(s[i]), key(x)) {
          TupleLessTransitive(key(s[i]), key(last), key(x));
        }
      } else {
        InsertSorted(x, shorter, key);
        var r := Insert(x, shorter, key);
        forall i | 0 <= i < |r| ensures TupleLess(key(r[i]), key(last)) {
          InsertMembers(x, shorter, key, r[i]);
        }
      }
    }
  }

  lemma {:induction false} SortMembers<V>(s: seq<V>, key: V -> seq<string>, y: V)
    ensures y in SortBy(s, key) <==> y in s
  {
    if s != [] {
      SortMembers(s[..|s| - 1], key, y);
      InsertMembers(s[|s| - 1], SortBy(s[..|s| - 1], key), key, y);
      assert s == s[..|s| - 1] + [s[|s| - 1]];
    }
  }

  lemma {:induction false} SortSorted<V(!new)>(s: seq<V>, key: V -> seq<string>)
    requires forall i, j :: 0 <= i < j < |s| ==> key(s[i]) != key(s[j])
    ensures StrictlySorted(SortBy(s, key), key)
  {
    if s != [] {
      var shorter := s[..|s| - 1];
      SortSorted(shorter, key);
      forall y | y in SortBy(shorter, key) ensures key(y) != key(s[|s| - 1]) {
        SortMembers(shorter, key, y);
      }
      InsertSorted(s[|s| - 1], SortBy(shorter, key), key);
    }
  }

  lemma NonEmptyHasElement<V>(s: seq<V>)
    requires s != []
    ensures exists y :: y in s
  {
    assert s[0] in s;
  }

  /** Distinct keys: the sorted list of a set of values is the only one. */
  lemma {:induction false} SortedUnique<V(!new)>(a: seq<V>, b: seq<V>, key: V -> seq<string>)
    requires StrictlySorted(a, key) && StrictlySorted(b, key)
    requires forall y :: y in a <==> y in b
    ensures a == b
  {
    if a == [] {
      if b != [] {
        NonEmptyHasElement(b);
        assert false;
      }
    } else {
      assert a[0] in b;
      var j :| 0 <= j < |b| && b[j] == a[0];
      assert b[0] in a;
      var i :| 0 <= i < |a| && a[i] == b[0];
      TupleLessTotal(key(a[0]), key(b[0]));
      assert a[0] == b[0];
      TupleLessTotal(key(a[0]), key(a[0]));
      forall y ensures y in a[1..] <==> y in b[1..] {
        assert y in a <==> y == a[0] || y in a[1..];
        assert y in b <==> y == b[0] || y in b[1..];
      }
      SortedUnique(a[1..], b[1..], key);
    }
  }
}
