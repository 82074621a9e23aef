/** Values shared by every module: optional values, results, and Python lists seen as sequences. */
module Prelude {

  datatype Option<+T> = None | Some(value: T)

  /** A Python call that returns a value or raises. */
  datatype Result<+T, +E> = Ok(value: T) | Err(error: E)

  function Get<K, V>(m: map<K, V>, k: K): Option<V> {
    if k in m then Some(m[k]) else None
  }

  function Elements<T(==)>(s: seq<T>): set<T> {
    set x | x in s
  }

  ghost predicate Distinct<T>(s: seq<T>) {
    forall i, j :: 0 <= i < j < |s| ==> s[i] != s[j]
  }

  /** `rows` lists the set `s`, each element once, in an order nothing is promised about. */
  ghost predicate Lists<T(!new)>(rows: seq<T>, s: set<T>) {
    && (forall x :: x in rows <==> x in s)
    && Distinct(rows)
  }

  lemma DistinctPush<T>(s: seq<T>, x: T)
    requires Distinct(s) && x !in s
    ensures Distinct(s + [x])
  {
  }

  /** The rows of a query, or the iteration of a Python set: any order may come back. */
  method Rows<T(==, !new)>(s: set<T>) returns (rows: seq<T>)
    ensures Lists(rows, s)
  {
    rows := [];
    var rest := s;
    while rest != {}
      invariant rest <= s
      invariant forall x :: x in rows <==> x in s - rest
      invariant Distinct(rows)
      decreases rest
    {
      var x :| x in rest;
      rest := rest - {x};
      DistinctPush(rows, x);
      rows := rows + [x];
    }
  }

  /** The elements that pass a test, in order: a list comprehension with an `if`. */
  function Filter<T(!new)>(s: seq<T>, p: T -> bool): (r: seq<T>)
    ensures forall x :: x in r <==> x in s && p(x)
    ensures |r| <= |s|
    ensures |r| == |s| ==> r == s
  {
    if s == [] then [] else
      var head := Filter(s[..|s| - 1], p);
      assert s == s[..|s| - 1] + [s[|s| - 1]];
      if p(s[|s| - 1]) then head + [s[|s| - 1]] else head
  }

  lemma {:induction false} FilterAppend<T(!new)>(a: seq<T>, b: seq<T>, p: T -> bool)
    ensures Filter(a + b, p) == Filter(a, p) + Filter(b, p)
  {
    if b == [] {
      assert a + b == a;
    } else {
      assert (a + b)[..|a + b| - 1] == a + b[..|b| - 1];
      FilterAppend(a, b[..|b| - 1], p);
    }
  }

  lemma {:induction false} FilterTwice<T(!new)>(s: seq<T>, p: T -> bool)
    ensures Filter(Filter(s, p), p) == Filter(s, p)
  {
    var r := Filter(s, p);
    FilterAll(r, p);
  }

  lemma {:induction false} FilterAll<T(!new)>(s: seq<T>, p: T -> bool)
    requires forall x :: x in s ==> p(x)
    ensures Filter(s, p) == s
  {
    if s != [] {
      assert forall x :: x in s[..|s| - 1] ==> x in s;
      FilterAll(s[..|s| - 1], p);
      assert s[|s| - 1] in s;
    }
  }

  lemma {:induction false} FilterNone<T(!new)>(s: seq<T>, p: T -> bool)
    requires forall x :: x in s ==> !p(x)
    ensures Filter(s, p) == []
  {
    if s != [] {
      assert forall x :: x in s[..|s| - 1] ==> x in s;
      FilterNone(s[..|s| - 1], p);
      assert s[|s| - 1] in s;
    }
  }

  lemma {:induction false} FilterSame<T(!new)>(s: seq<T>, p: T -> bool, q: T -> bool)
    requires forall x :: x in s ==> p(x) == q(x)
    ensures Filter(s, p) == Filter(s, q)
  {
    if s != [] {
      assert forall x :: x in s[..|s| - 1] ==> x in s;
      FilterSame(s[..|s| - 1], p, q);
      assert s[|s| - 1] in s;
    }
  }

  /** Consecutive slices of at most `n` elements: `s[i : i + n] for i in range(0, len(s), n)`. */
  function Chunks<T(!new)>(s: seq<T>, n: nat): (r: seq<seq<T>>)
    requires n >= 1
    ensures forall c :: c in r ==> 0 < |c| <= n
    decreases |s|
  {
    if s == [] then []
    else if |s| <= n then [s]
    else [s[..n]] + Chunks(s[n..], n)
  }

  function Concat<T>(parts: seq<seq<T>>): seq<T> {
    if parts == [] then [] else Concat(parts[..|parts| - 1]) + parts[|parts| - 1]
  }

  lemma {:induction false} ConcatAppend<T>(a: seq<seq<T>>, b: seq<seq<T>>)
    ensures Concat(a + b) == Concat(a) + Concat(b)
  {
    if b == [] {
      assert a + b == a;
    } else {
      var all, last := a + b, b[|b| - 1];
      assert all[..|all| - 1] == a + b[..|b| - 1] && all[|all| - 1] == last;
      ConcatAppend(a, b[..|b| - 1]);
      assert Concat(all) == Concat(a) + Concat(b[..|b| - 1]) + last;
    }
  }

  lemma {:induction false} ConcatCons<T>(x: seq<T>, rest: seq<seq<T>>)
    ensures Concat([x] + rest) == x + Concat(rest)
  {
    ConcatAppend([x], rest);
    assert [x][..0] == [];
    assert Concat([x]) == x;
  }

  /** Slicing loses nothing and keeps the order. */
  lemma {:induction false} ChunksConcat<T(!new)>(s: seq<T>, n: nat)
    requires n >= 1
    ensures Concat(Chunks(s, n)) == s
    decreases |s|
  {
    if s == [] {
    } else if |s| <= n {
      ConcatCons(s, []);
      assert [s] + [] == [s];
    } else {
      ChunksConcat(s[n..], n);
      ConcatCons(s[..n], Chunks(s[n..], n));
      assert s[..n] + s[n..] == s;
    }
  }

  /** One step of a `range(0, len(s), n)` loop. */
  lemma ChunksStep<T(!new)>(s: seq<T>, start: nat, n: nat)
    requires n >= 1 && start < |s|
    ensures var stop := if start + n < |s| then start + n else |s|;
            Chunks(s[start..], n) == [s[start..stop]] + Chunks(s[stop..], n)
  {
    var stop := if start + n < |s| then start + n else |s|;
    var t := s[start..];
    if |t| <= n {
      assert s[start..stop] == t;
      assert s[stop..] == [];
    } else {
      assert t[..n] == s[start..stop];
      assert t[n..] == s[stop..];
    }
  }

  /** The slices a `range(0, len(s), n)` loop cuts. */
  method Slices<T(!new)>(s: seq<T>, n: nat) returns (r: seq<seq<T>>)
    requires n >= 1
    ensures r == Chunks(s, n)
  {
    r := [];
    var start := 0;
    ghost var rest := Chunks(s, n);
    assert s[0..] == s;
    while start < |s|
      invariant 0 <= start <= |s|
      invariant rest == Chunks(s[start..], n)
      invariant r + rest == Chunks(s, n)
      decreases |s| - start
    {
      var stop := if start + n < |s| then start + n else |s|;
      ChunksStep(s, start, n);
      r := r + [s[start..stop]];
      rest := Chunks(s[stop..], n);
      start := stop;
    }
    assert s[start..] == [];
  }

  /** All chunks but the last are full. */
  lemma {:induction false} ChunksFull<T(!new)>(s: seq<T>, n: nat, c: nat)
    requires n >= 1 && c + 1 < |Chunks(s, n)|
    ensures |Chunks(s, n)[c]| == n
    decreases |s|
  {
    if |s| > n && c > 0 {
      ChunksFull(s[n..], n, c - 1);
    }
  }
}
