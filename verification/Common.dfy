/** Shared vocabulary: optional values, operation results, money rounding, sorting. */
module Common {
  datatype Option<+T> = None | Some(value: T) {
    function GetOr(default: T): T {
      if Some? then value else default
    }
  }

  /** Odoo raises and rolls the transaction back; an error therefore carries no state. */
  datatype Outcome = Done | Refused

  function Abs(x: int): nat {
    if x >= 0 then x else -x
  }

  function Min(x: int, y: int): int {
    if x <= y then x else y
  }

  function Max(x: int, y: int): int {
    if x >= y then x else y
  }

  lemma Member<T>(s: set<T>) returns (x: T)
    requires s != {}
    ensures x in s
  {
    x :| x in s;
  }
}

/** `res.currency.round` on whole cents: nearest cent, ties away from zero. */
module Rounding {
  import opened Common

  function RoundDiv(n: int, d: int): int
    requires d > 0
  {
    if n >= 0 then (2 * n + d) / (2 * d) else -((2 * -n + d) / (2 * d))
  }

  /** `r` is nearest to n/d, and of two nearest the one further from zero. */
  ghost predicate IsNearest(r: int, n: int, d: int) {
    && -d <= 2 * (r * d - n) <= d
    && (n >= 0 ==> 2 * (n - r * d) < d)
    && (n <= 0 ==> 2 * (r * d - n) < d)
  }

  lemma RoundDivNearest(n: int, d: int)
    requires d > 0
    ensures IsNearest(RoundDiv(n, d), n, d)
  {
    HalfUp(Abs(n), d);
  }

  lemma HalfUp(m: nat, d: int)
    requires d > 0
    ensures var q := (2 * m + d) / (2 * d); -d <= 2 * (q * d - m) <= d && 2 * (m - q * d) < d
    ensures var q := (2 * m + d) / (2 * d); q >= 0 && -q * d == -(q * d)
  {
    var a, b := 2 * m + d, 2 * d;
    var q := a / b;
    assert b * q <= a < b * q + b;
    assert b * q == 2 * (q * d);
  }

  lemma MultipleAtLeast(k: int, d: int)
    requires k >= 1 && d > 0
    ensures k * d >= d
  {
  }

  /** Nothing else is nearest with ties away from zero. */
  lemma RoundDivUnique(n: int, d: int, r: int)
    requires d > 0 && IsNearest(r, n, d)
    ensures r == RoundDiv(n, d)
  {
    var q := RoundDiv(n, d);
    RoundDivNearest(n, d);
    assert (q - r) * d == q * d - r * d && (r - q) * d == r * d - q * d;
    if r < q {
      MultipleAtLeast(q - r, d);
    } else if q < r {
      MultipleAtLeast(r - q, d);
    }
  }

  /** An amount that is already whole is left alone. */
  lemma RoundDivExact(k: int, d: int)
    requires d > 0
    ensures RoundDiv(k * d, d) == k
  {
    RoundDivUnique(k * d, d, k);
  }
}

/** `sorted(key=...)`: a stable sort on lexicographic integer keys. */
module Sorting {
  type Key = (int, int, int)

  predicate KeyLess(a: Key, b: Key) {
    a.0 < b.0 || (a.0 == b.0 && (a.1 < b.1 || (a.1 == b.1 && a.2 < b.2)))
  }

  ghost predicate SortedBy<T>(s: seq<T>, key: T -> Key) {
    forall i, j | 0 <= i < j < |s| :: !KeyLess(key(s[j]), key(s[i]))
  }

  ghost predicate DistinctKeys<T>(s: seq<T>, key: T -> Key) {
    forall i, j | 0 <= i < j < |s| :: key(s[i]) != key(s[j])
  }

  function Insert<T>(x: T, s: seq<T>, key: T -> Key): (r: seq<T>)
    ensures multiset(r) == multiset{x} + multiset(s)
  {
    if s == [] then [x]
    else if KeyLess(key(s[0]), key(x)) then
      assert s == [s[0]] + s[1..];
      [s[0]] + Insert(x, s[1..], key)
    else [x] + s
  }

  function SortBy<T>(s: seq<T>, key: T -> Key): (r: seq<T>)
    ensures multiset(r) == multiset(s)
    ensures |r| == |s|
  {
    if s == [] then []
    else
      assert s == [s[0]] + s[1..];
      var r := Insert(s[0], SortBy(s[1..], key), key);
      assert |multiset(r)| == |r| && |multiset(s)| == |s|;
      r
  }

  lemma {:induction false} InsertSorted<T>(x: T, s: seq<T>, key: T -> Key)
    requires SortedBy(s, key)
    ensures SortedBy(Insert(x, s, key), key)
  {
    if s != [] && KeyLess(key(s[0]), key(x)) {
      InsertSorted(x, s[1..], key);
      var t := Insert(x, s[1..], key);
      forall j | 0 <= j < |t| ensures !KeyLess(key(t[j]), key(s[0])) {
        assert t[j] in multiset(t);
        assert t[j] == x || t[j] in s[1..];
      }
    }
  }

  lemma {:induction false} SortBySorted<T>(s: seq<T>, key: T -> Key)
    ensures SortedBy(SortBy(s, key), key)
  {
    if s != [] {
      SortBySorted(s[1..], key);
      InsertSorted(s[0], SortBy(s[1..], key), key);
    }
  }

  lemma SortByMembers<T>(s: seq<T>, key: T -> Key)
    ensures forall x :: x in s <==> x in SortBy(s, key)
  {
    forall x ensures x in s <==> x in SortBy(s, key) {
      assert x in multiset(s) <==> x in multiset(SortBy(s, key));
    }
  }

  lemma AppendOne<T>(a: seq<T>, x: T, b: seq<T>)
    ensures a + ([x] + b) == (a + [x]) + b
  {
  }

  function Filter<T>(s: seq<T>, p: T -> bool): (r: seq<T>)
    ensures forall x | x in r :: x in s && p(x)
    ensures forall x | x in s && p(x) :: x in r
  {
    if s == [] then [] else (if p(s[0]) then [s[0]] else []) + Filter(s[1..], p)
  }

  lemma FilterCons<T>(x: T, s: seq<T>, p: T -> bool)
    ensures Filter([x] + s, p) == (if p(x) then [x] else []) + Filter(s, p)
  {
    assert ([x] + s)[1..] == s;
  }

  lemma {:induction false} InsertFilter<T>(x: T, s: seq<T>, p: T -> bool, key: T -> Key)
    requires SortedBy(s, key)
    ensures Filter(Insert(x, s, key), p) == if p(x) then Insert(x, Filter(s, p), key) else Filter(s, p)
  {
    if s != [] && KeyLess(key(s[0]), key(x)) {
      InsertFilter(x, s[1..], p, key);
      FilterCons(s[0], Insert(x, s[1..], key), p);
      if p(s[0]) {
        assert Filter(s, p)[1..] == Filter(s[1..], p);
      } else {
        assert Filter(s, p) == Filter(s[1..], p);
      }
    } else {
      FilterCons(x, s, p);
      var f := Filter(s, p);
      if f != [] {
        assert f[0] in s;
        InsertFront(x, f, key);
      }
    }
  }

  lemma InsertFront<T>(x: T, s: seq<T>, key: T -> Key)
    requires s == [] || !KeyLess(key(s[0]), key(x))
    ensures Insert(x, s, key) == [x] + s
  {
  }

  /** Sorting a selection is selecting from the sorted list. */
  lemma {:induction false} SortFilter<T>(s: seq<T>, p: T -> bool, key: T -> Key)
    ensures SortBy(Filter(s, p), key) == Filter(SortBy(s, key), p)
  {
    if s != [] {
      SortFilter(s[1..], p, key);
      SortBySorted(s[1..], key);
      InsertFilter(s[0], SortBy(s[1..], key), p, key);
      var f := Filter(s[1..], p);
      if p(s[0]) {
        assert ([s[0]] + f)[1..] == f;
      } else {
        assert [] + f == f;
      }
    }
  }

  lemma PrependOne<T>(x: T, a: seq<T>, b: seq<T>)
    ensures [x] + (a + b) == ([x] + a) + b
  {
  }

  lemma WithoutOne<T>(s: seq<T>, i: nat)
    requires i < |s|
    ensures multiset(s[..i] + s[i + 1..]) == multiset(s) - multiset{s[i]}
  {
    assert s == s[..i] + ([s[i]] + s[i + 1..]);
  }

  lemma WithoutFirst<T>(s: seq<T>)
    requires s != []
    ensures multiset(s[1..]) == multiset(s) - multiset{s[0]}
  {
    WithoutOne(s, 0);
    assert s[..0] + s[1..] == s[1..];
  }

  /** The first element of a sorted list has a least key. */
  lemma FirstIsLeast<T>(s: seq<T>, key: T -> Key, x: T)
    requires s != [] && SortedBy(s, key) && x in multiset(s)
    ensures !KeyLess(key(x), key(s[0]))
    ensures DistinctKeys(s, key) && key(x) == key(s[0]) ==> x == s[0]
  {
    var i :| 0 <= i < |s| && s[i] == x;
  }

  /** Distinct keys leave only one sorted order. */
  lemma {:induction false} SortedUnique<T>(a: seq<T>, b: seq<T>, key: T -> Key)
    requires SortedBy(a, key) && SortedBy(b, key) && multiset(a) == multiset(b) && DistinctKeys(a, key)
    ensures a == b
    decreases |a|
  {
    assert |a| == |multiset(a)| == |b|;
    if a != [] {
      hide *;
      assert a[0] in multiset(a) && b[0] in multiset(b);
      FirstIsLeast(a, key, b[0]);
      FirstIsLeast(b, key, a[0]);
      SameKey(key(a[0]), key(b[0]));
      WithoutFirst(a);
      WithoutFirst(b);
      TailFacts(a, key);
      TailFacts(b, key);
      SortedUnique(a[1..], b[1..], key);
      assert a == [a[0]] + a[1..] && b == [b[0]] + b[1..];
    }
  }

  lemma TailFacts<T>(s: seq<T>, key: T -> Key)
    requires s != [] && SortedBy(s, key)
    ensures SortedBy(s[1..], key)
    ensures DistinctKeys(s, key) ==> DistinctKeys(s[1..], key)
  {
  }

  lemma SameKey(a: Key, b: Key)
    requires !KeyLess(a, b) && !KeyLess(b, a)
    ensures a == b
  {
  }
}
