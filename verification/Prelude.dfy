// Vocabulary shared by the models: optional values, sums over finite sets,
// Go's integer division, and the order sort.Slice and slices.SortFunc give.
module Prelude {

  datatype Option<+T> = None | Some(value: T) {
    function GetOr(default: T): T { if Some? then value else default }
  }

  datatype Result<+T, +E> = Ok(value: T) | Err(error: E)

  /** Nanoseconds in a second. */
  const SECOND := 1_000_000_000

  /** Go's division of a nanosecond count by a second, which truncates toward zero. */
  function TruncSeconds(ns: int): int {
    if ns >= 0 then ns / SECOND else -((-ns) / SECOND)
  }

  // ----- n times an amount

  /** n times x, by repeated addition. */
  function Times(n: int, x: real): real
    decreases if n < 0 then -n else n
  {
    if n == 0 then 0.0 else if n > 0 then x + Times(n - 1, x) else Times(n + 1, x) - x
  }

  lemma {:induction false} TimesIs(n: int, x: real)
    ensures Times(n, x) == n as real * x
    decreases if n < 0 then -n else n
  {
    if n > 0 {
      TimesIs(n - 1, x);
    } else if n < 0 {
      TimesIs(n + 1, x);
    }
  }

  lemma {:induction false} TimesAdd(m: int, n: int, x: real)
    ensures Times(m + n, x) == Times(m, x) + Times(n, x)
    decreases if n < 0 then -n else n
  {
    if n > 0 {
      TimesAdd(m, n - 1, x);
      TimesStep(m + n, x);
    } else if n < 0 {
      TimesAdd(m, n + 1, x);
      TimesStep(m + n + 1, x);
    }
  }

  lemma TimesStep(n: int, x: real)
    ensures Times(n, x) == Times(n - 1, x) + x
  {
  }

  lemma TimesRise(n: int, x: real, y: real)
    ensures Times(n, y) - Times(n, x) == Times(n, y - x)
  {
    TimesIs(n, x);
    TimesIs(n, y);
    TimesIs(n, y - x);
  }

  lemma TimesMono(m: int, n: int, x: real, y: real)
    requires 0 <= m <= n && 0.0 <= x <= y
    ensures 0.0 <= Times(m, x) <= Times(n, y)
  {
    TimesIs(m, x);
    TimesIs(n, y);
    assert m as real * x <= n as real * x;
    assert n as real * x <= n as real * y;
  }

  // ----- sums over finite sets, in any order of iteration

  ghost function SumI<K(!new)>(keys: set<K>, f: K -> int): int
    decreases |keys|
  {
    if keys == {} then 0 else
    var k :| k in keys;
    f(k) + SumI(keys - {k}, f)
  }

  lemma {:induction false} SumISplit<K(!new)>(keys: set<K>, f: K -> int, x: K)
    requires x in keys
    ensures SumI(keys, f) == f(x) + SumI(keys - {x}, f)
    decreases |keys|
  {
    var k :| k in keys && SumI(keys, f) == f(k) + SumI(keys - {k}, f);
    if k != x {
      SumISplit(keys - {k}, f, x);
      SumISplit(keys - {x}, f, k);
      assert keys - {k} - {x} == keys - {x} - {k};
    }
  }

  lemma {:induction false} SumISame<K(!new)>(keys: set<K>, f: K -> int, g: K -> int)
    requires forall k :: k in keys ==> f(k) == g(k)
    ensures SumI(keys, f) == SumI(keys, g)
    decreases |keys|
  {
    if keys != {} {
      var k :| k in keys;
      SumISplit(keys, f, k);
      SumISplit(keys, g, k);
      SumISame(keys - {k}, f, g);
    }
  }

  ghost function SumR<K(!new)>(keys: set<K>, f: K -> real): real
    decreases |keys|
  {
    if keys == {} then 0.0 else
    var k :| k in keys;
    f(k) + SumR(keys - {k}, f)
  }

  lemma {:induction false} SumRSplit<K(!new)>(keys: set<K>, f: K -> real, x: K)
    requires x in keys
    ensures SumR(keys, f) == f(x) + SumR(keys - {x}, f)
    decreases |keys|
  {
    var k :| k in keys && SumR(keys, f) == f(k) + SumR(keys - {k}, f);
    if k != x {
      SumRSplit(keys - {k}, f, x);
      SumRSplit(keys - {x}, f, k);
      assert keys - {k} - {x} == keys - {x} - {k};
    }
  }

  lemma {:induction false} SumRSame<K(!new)>(keys: set<K>, f: K -> real, g: K -> real)
    requires forall k :: k in keys ==> f(k) == g(k)
    ensures SumR(keys, f) == SumR(keys, g)
    decreases |keys|
  {
    if keys != {} {
      var k :| k in keys;
      SumRSplit(keys, f, k);
      SumRSplit(keys, g, k);
      SumRSame(keys - {k}, f, g);
    }
  }

  // ----- sorting by a key

  ghost predicate Ascending<T>(s: seq<T>, key: T -> int) {
    forall i, j :: 0 <= i < j < |s| ==> key(s[i]) <= key(s[j])
  }

  function Insert<T>(x: T, s: seq<T>, key: T -> int): seq<T> {
    if s == [] then [x]
    else if key(x) <= key(s[0]) then [x] + s
    else [s[0]] + Insert(x, s[1..], key)
  }

  /** The order sort.Slice and slices.SortFunc give: some ascending permutation. */
  function Sort<T>(s: seq<T>, key: T -> int): seq<T> {
    if s == [] then [] else Insert(s[0], Sort(s[1..], key), key)
  }

  lemma {:induction false} InsertKeeps<T>(x: T, s: seq<T>, key: T -> int)
    ensures multiset(Insert(x, s, key)) == multiset(s) + multiset{x}
  {
    if s != [] && key(x) > key(s[0]) {
      InsertKeeps(x, s[1..], key);
      assert s == [s[0]] + s[1..];
    }
  }

  lemma {:induction false} InsertSorts<T>(x: T, s: seq<T>, key: T -> int)
    requires Ascending(s, key)
    ensures Ascending(Insert(x, s, key), key)
  {
    if s != [] && key(x) > key(s[0]) {
      InsertSorts(x, s[1..], key);
      InsertKeeps(x, s[1..], key);
      var r := Insert(x, s[1..], key);
      forall i | 0 <= i < |r|
        ensures key(s[0]) <= key(r[i])
      {
        assert r[i] in multiset(r);
        assert r[i] in s[1..] || r[i] == x;
      }
    }
  }

  lemma {:induction false} SortSorts<T>(s: seq<T>, key: T -> int)
    ensures Ascending(Sort(s, key), key)
    ensures multiset(Sort(s, key)) == multiset(s)
  {
    if s != [] {
      SortSorts(s[1..], key);
      InsertSorts(s[0], Sort(s[1..], key), key);
      InsertKeeps(s[0], Sort(s[1..], key), key);
      assert s == [s[0]] + s[1..];
    }
  }
}
