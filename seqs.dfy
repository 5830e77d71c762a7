/** Sequence operations that the SQL the routes run (WHERE, ORDER BY, LIMIT/OFFSET,
    SELECT DISTINCT, SUM) and the JavaScript array methods the pages call (filter,
    reduce, slice) stand for, with the facts about them the route lemmas use. */
module Seqs {
  import opened Text

  /** Array.prototype.filter, and a SQL WHERE over a table kept in rowid order. */
  function Filter<T>(keep: T -> bool, s: seq<T>): (r: seq<T>)
    ensures |r| <= |s|
    ensures forall i :: 0 <= i < |r| ==> r[i] in s && keep(r[i])
    ensures forall i :: 0 <= i < |s| && keep(s[i]) ==> s[i] in r
  {
    if s == [] then [] else (if keep(s[0]) then [s[0]] else []) + Filter(keep, s[1..])
  }

  lemma {:induction false} FilterAppend<T>(keep: T -> bool, s: seq<T>, t: seq<T>)
    ensures Filter(keep, s + t) == Filter(keep, s) + Filter(keep, t)
  {
    if s == [] {
      assert s + t == t;
    } else {
      assert (s + t)[1..] == s[1..] + t;
      FilterAppend(keep, s[1..], t);
    }
  }

  /** Filtering with a predicate that holds of no element leaves nothing. */
  lemma {:induction false} FilterNone<T>(keep: T -> bool, s: seq<T>)
    requires forall x :: x in s ==> !keep(x)
    ensures Filter(keep, s) == []
  {
    if s != [] {
      FilterNone(keep, s[1..]);
    }
  }

  /** Filtering with a predicate that holds of every element keeps the whole sequence. */
  lemma {:induction false} FilterAll<T>(keep: T -> bool, s: seq<T>)
    requires forall x :: x in s ==> keep(x)
    ensures Filter(keep, s) == s
  {
    if s != [] {
      FilterAll(keep, s[1..]);
    }
  }

  /** Two predicates that agree on every element of `s` filter it alike. */
  lemma {:induction false} FilterSame<T>(keep: T -> bool, keep': T -> bool, s: seq<T>)
    requires forall x :: x in s ==> keep(x) == keep'(x)
    ensures Filter(keep, s) == Filter(keep', s)
  {
    if s != [] {
      FilterSame(keep, keep', s[1..]);
    }
  }

  lemma {:induction false} FilterMultiset<T>(keep: T -> bool, s: seq<T>, x: T)
    ensures multiset(Filter(keep, s))[x] == if keep(x) then multiset(s)[x] else 0
  {
    if s != [] {
      FilterMultiset(keep, s[1..], x);
      assert s == [s[0]] + s[1..];
    }
  }

  /** A relation that holds between every earlier and later element still holds after filtering. */
  lemma {:induction false} FilterPairwise<T>(keep: T -> bool, rel: (T, T) -> bool, s: seq<T>)
    requires forall i, j :: 0 <= i < j < |s| ==> rel(s[i], s[j])
    ensures forall i, j :: 0 <= i < j < |Filter(keep, s)| ==> rel(Filter(keep, s)[i], Filter(keep, s)[j])
  {
    if s != [] {
      FilterPairwise(keep, rel, s[1..]);
      var t := Filter(keep, s[1..]);
      if keep(s[0]) {
        var r := [s[0]] + t;
        assert Filter(keep, s) == r;
        forall i, j | 0 <= i < j < |r| ensures rel(r[i], r[j]) {
          if i == 0 {
            var m :| 0 <= m < |s[1..]| && s[1..][m] == t[j - 1];
            assert s[m + 1] == r[j];
          }
        }
      }
    }
  }

  /** `r` is `s` with some elements left out and the rest in their original order. */
  ghost predicate SubsequenceOf<T>(r: seq<T>, s: seq<T>)
    decreases |s|
  {
    r == [] || (s != [] && ((r[0] == s[0] && SubsequenceOf(r[1..], s[1..])) || SubsequenceOf(r, s[1..])))
  }

  lemma {:induction false} FilterSubsequence<T>(keep: T -> bool, s: seq<T>)
    ensures SubsequenceOf(Filter(keep, s), s)
  {
    if s != [] {
      FilterSubsequence(keep, s[1..]);
      var r := Filter(keep, s);
      if keep(s[0]) {
        assert r[0] == s[0] && r[1..] == Filter(keep, s[1..]);
      } else {
        assert r == Filter(keep, s[1..]);
      }
    }
  }

  /** Array.prototype.reduce((sum, x) => sum + f(x), 0), and SQL's SUM. */
  function SumBy<T>(f: T -> int, s: seq<T>): int
  {
    if s == [] then 0 else f(s[0]) + SumBy(f, s[1..])
  }

  lemma {:induction false} SumByAppend<T>(f: T -> int, s: seq<T>, t: seq<T>)
    ensures SumBy(f, s + t) == SumBy(f, s) + SumBy(f, t)
  {
    if s == [] {
      assert s + t == t;
    } else {
      assert (s + t)[1..] == s[1..] + t;
      SumByAppend(f, s[1..], t);
    }
  }

  /** A value an ORDER BY compares: SQLite puts every number before every text value
      and compares text with the BINARY collation. */
  datatype Key = Num(n: int) | Str(s: string)

  predicate KeyLeq(a: Key, b: Key)
  {
    match (a, b)
    case (Num(x), Num(y)) => x <= y
    case (Num(_), Str(_)) => true
    case (Str(_), Num(_)) => false
    case (Str(x), Str(y)) => StrLeq(x, y)
  }

  lemma KeyLeqTotal(a: Key, b: Key)
    ensures KeyLeq(a, b) || KeyLeq(b, a)
  {
    if a.Str? && b.Str? { StrLtTrichotomy(a.s, b.s); }
  }

  lemma KeyLeqTransitive(a: Key, b: Key, c: Key)
    requires KeyLeq(a, b) && KeyLeq(b, c)
    ensures KeyLeq(a, c)
  {
    if a.Str? && b.Str? && c.Str? && a.s != b.s && b.s != c.s {
      StrLtTransitive(a.s, b.s, c.s);
    }
  }

  /** `x` may precede `y` under ORDER BY key ASC (or DESC when `desc`). */
  predicate InOrder<T>(key: T -> Key, desc: bool, x: T, y: T)
  {
    if desc then KeyLeq(key(y), key(x)) else KeyLeq(key(x), key(y))
  }

  lemma InOrderTotal<T>(key: T -> Key, desc: bool, x: T, y: T)
    ensures InOrder(key, desc, x, y) || InOrder(key, desc, y, x)
  {
    KeyLeqTotal(key(x), key(y));
  }

  lemma InOrderTransitive<T>(key: T -> Key, desc: bool, x: T, y: T, z: T)
    requires InOrder(key, desc, x, y) && InOrder(key, desc, y, z)
    ensures InOrder(key, desc, x, z)
  {
    if desc { KeyLeqTransitive(key(z), key(y), key(x)); } else { KeyLeqTransitive(key(x), key(y), key(z)); }
  }

  ghost predicate SortedBy<T>(key: T -> Key, desc: bool, s: seq<T>)
  {
    forall i, j :: 0 <= i < j < |s| ==> InOrder(key, desc, s[i], s[j])
  }

  /** Puts `x` in front of the first element it may precede. */
  function Insert<T>(key: T -> Key, desc: bool, x: T, s: seq<T>): (r: seq<T>)
    ensures |r| == |s| + 1
    ensures multiset(r) == multiset(s) + multiset{x}
  {
    if s == [] then [x]
    else if InOrder(key, desc, x, s[0]) then [x] + s
    else
      assert s == [s[0]] + s[1..];
      [s[0]] + Insert(key, desc, x, s[1..])
  }

  lemma {:induction false} InsertSorted<T>(key: T -> Key, desc: bool, x: T, s: seq<T>)
    requires SortedBy(key, desc, s)
    ensures SortedBy(key, desc, Insert(key, desc, x, s))
  {
    if s == [] {
    } else if InOrder(key, desc, x, s[0]) {
      var r := [x] + s;
      forall i, j | 0 <= i < j < |r| ensures InOrder(key, desc, r[i], r[j]) {
        if i == 0 && j > 1 { InOrderTransitive(key, desc, x, s[0], s[j - 1]); }
      }
    } else {
      InOrderTotal(key, desc, x, s[0]);
      InsertSorted(key, desc, x, s[1..]);
      var t := Insert(key, desc, x, s[1..]);
      var r := [s[0]] + t;
      forall i, j | 0 <= i < j < |r| ensures InOrder(key, desc, r[i], r[j]) {
        if i == 0 {
          assert r[j] in multiset(t);
          assert r[j] == x || r[j] in s[1..];
        }
      }
    }
  }

  lemma {:induction false} InsertSum<T>(key: T -> Key, desc: bool, f: T -> int, x: T, s: seq<T>)
    ensures SumBy(f, Insert(key, desc, x, s)) == f(x) + SumBy(f, s)
  {
    if s != [] && !InOrder(key, desc, x, s[0]) {
      InsertSum(key, desc, f, x, s[1..]);
    }
  }

  /** ORDER BY key ASC/DESC as a stable insertion sort: a permutation of `s` in key order. */
  function SortBy<T>(key: T -> Key, desc: bool, s: seq<T>): (r: seq<T>)
    ensures |r| == |s|
    ensures multiset(r) == multiset(s)
    ensures SortedBy(key, desc, r)
  {
    if s == [] then []
    else
      var t := SortBy(key, desc, s[1..]);
      InsertSorted(key, desc, s[0], t);
      assert s == [s[0]] + s[1..];
      Insert(key, desc, s[0], t)
  }

  /** Sorting does not change a sum over the rows. */
  lemma {:induction false} SortBySum<T>(key: T -> Key, desc: bool, f: T -> int, s: seq<T>)
    ensures SumBy(f, SortBy(key, desc, s)) == SumBy(f, s)
  {
    if s != [] {
      SortBySum(key, desc, f, s[1..]);
      InsertSum(key, desc, f, s[0], SortBy(key, desc, s[1..]));
    }
  }

  lemma SortByMembers<T>(key: T -> Key, desc: bool, s: seq<T>, x: T)
    ensures x in SortBy(key, desc, s) <==> x in s
  {
    var r := SortBy(key, desc, s);
    assert x in r <==> x in multiset(r);
    assert x in s <==> x in multiset(s);
  }

  /** SQL's LIMIT limit OFFSET offset: the rows from position `offset` on, at most `limit` of them. */
  function Window<T>(s: seq<T>, offset: nat, limit: nat): (r: seq<T>)
    ensures |r| == if offset >= |s| then 0 else if |s| - offset < limit then |s| - offset else limit
    ensures forall i :: 0 <= i < |r| ==> r[i] == s[offset + i]
  {
    if offset >= |s| then []
    else if offset + limit <= |s| then s[offset..offset + limit]
    else s[offset..]
  }

  ghost predicate StrictlyIncreasing(s: seq<string>)
  {
    forall i, j :: 0 <= i < j < |s| ==> StrLt(s[i], s[j])
  }

  /** Adds `x` to an increasing list of distinct strings unless it is already there. */
  function InsertDistinct(x: string, s: seq<string>): (r: seq<string>)
    requires StrictlyIncreasing(s)
    ensures StrictlyIncreasing(r)
    ensures forall y :: y in r <==> y == x || y in s
  {
    if s == [] then [x]
    else if x == s[0] then s
    else if StrLt(x, s[0]) then
      assert forall j :: 0 <= j < |s| ==> StrLt(x, s[j]) by {
        forall j | 0 <= j < |s| ensures StrLt(x, s[j]) {
          if j > 0 { StrLtTransitive(x, s[0], s[j]); }
        }
      }
      [x] + s
    else
      StrLtTrichotomy(x, s[0]);
      var t := InsertDistinct(x, s[1..]);
      assert forall y :: y in t ==> StrLt(s[0], y) by {
        forall y | y in t ensures StrLt(s[0], y) {
          if y != x {
            var j :| 0 <= j < |s[1..]| && s[1..][j] == y;
            assert s[j + 1] == y;
          }
        }
      }
      assert s == [s[0]] + s[1..];
      [s[0]] + t
  }

  /** SELECT DISTINCT v ... ORDER BY v: every value once, in increasing order. */
  function Distinct(vals: seq<string>): (r: seq<string>)
    ensures StrictlyIncreasing(r)
    ensures forall y :: y in r <==> y in vals
  {
    if vals == [] then []
    else InsertDistinct(vals[0], Distinct(vals[1..]))
  }
}
