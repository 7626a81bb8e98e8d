/** Generic facts about sequences used as relational tables: counting the rows
    that satisfy a predicate (SQL's COUNT with a WHERE), keeping them (a WHERE
    on a DELETE or a SELECT), keys that identify a row (PRIMARY KEY, UNIQUE),
    and ordering (ORDER BY), where ties are left to the database. */
module Seqs {

  /** The number of elements of `s` that satisfy `p`. */
  function Count<T>(p: T -> bool, s: seq<T>): (n: nat)
    ensures n <= |s|
  {
    if s == [] then 0 else (if p(s[0]) then 1 else 0) + Count(p, s[1..])
  }

  lemma {:induction false} CountAppend<T>(p: T -> bool, a: seq<T>, b: seq<T>)
    ensures Count(p, a + b) == Count(p, a) + Count(p, b)
  {
    if a == [] {
      assert a + b == b;
    } else {
      assert (a + b)[0] == a[0];
      assert (a + b)[1..] == a[1..] + b;
      CountAppend(p, a[1..], b);
    }
  }

  /** Removing one element lowers the count by one exactly when that
      element satisfies `p`. */
  lemma CountRemove<T>(p: T -> bool, front: seq<T>, x: T, back: seq<T>)
    ensures Count(p, front + [x] + back) == Count(p, front + back) + (if p(x) then 1 else 0)
  {
    CountAppend(p, front + [x], back);
    CountAppend(p, front, [x]);
    CountAppend(p, front, back);
    CountSingle(p, x);
  }

  lemma CountSingle<T>(p: T -> bool, x: T)
    ensures Count(p, [x]) == if p(x) then 1 else 0
  {
    assert [x][1..] == [];
  }

  lemma MultisetRemove<T>(b: seq<T>, i: nat)
    requires i < |b|
    ensures multiset(b[..i] + b[i + 1..]) == multiset(b) - multiset{b[i]}
  {
    assert b == b[..i] + [b[i]] + b[i + 1..];
  }

  /** One step of `CountPermutation`: matching the first element of one
      sequence with the element at `i` of the other. */
  lemma CountStep<T>(p: T -> bool, a: seq<T>, b: seq<T>, i: nat)
    requires a != [] && i < |b| && b[i] == a[0]
    requires Count(p, a[1..]) == Count(p, b[..i] + b[i + 1..])
    ensures Count(p, a) == Count(p, b)
  {
    CountRemove(p, b[..i], b[i], b[i + 1..]);
    assert b == b[..i] + [b[i]] + b[i + 1..];
  }

  /** A count depends only on the multiset of rows, not on their order. */
  lemma {:induction false} CountPermutation<T>(p: T -> bool, a: seq<T>, b: seq<T>)
    requires multiset(a) == multiset(b)
    ensures Count(p, a) == Count(p, b)
    decreases |a|
  {
    if a == [] {
      assert |b| == |multiset(b)| == 0;
      assert b == [];
    } else {
      var x := a[0];
      var i :| 0 <= i < |b| && b[i] == x by {
        assert x in multiset(b);
      }
      var rest := b[..i] + b[i + 1..];
      assert multiset(a[1..]) == multiset(rest) by {
        MultisetRemove(b, i);
        assert a == [x] + a[1..];
      }
      CountPermutation(p, a[1..], rest);
      CountStep(p, a, b, i);
    }
  }

  /** Counting a weaker predicate never gives less. */
  lemma {:induction false} CountMonotone<T>(p: T -> bool, q: T -> bool, s: seq<T>)
    requires forall x :: p(x) ==> q(x)
    ensures Count(p, s) <= Count(q, s)
  {
    if s != [] {
      CountMonotone(p, q, s[1..]);
    }
  }

  lemma {:induction false} CountPositive<T>(p: T -> bool, s: seq<T>, x: T)
    requires x in s && p(x)
    ensures Count(p, s) > 0
  {
    if s[0] != x {
      CountPositive(p, s[1..], x);
    }
  }

  /** The elements of `s` that satisfy `p`, in their original order. */
  function Filter<T(!new)>(p: T -> bool, s: seq<T>): (r: seq<T>)
    ensures |r| == Count(p, s)
    ensures forall x :: x in r <==> x in s && p(x)
  {
    if s == [] then []
    else if p(s[0]) then [s[0]] + Filter(p, s[1..])
    else Filter(p, s[1..])
  }

  /** Filtering twice by the same predicate removes nothing more. */
  lemma {:induction false} FilterIdempotent<T(!new)>(p: T -> bool, s: seq<T>)
    ensures Filter(p, Filter(p, s)) == Filter(p, s)
  {
    if s != [] {
      FilterIdempotent(p, s[1..]);
      if p(s[0]) {
        var r := Filter(p, s[1..]);
        assert ([s[0]] + r)[0] == s[0];
        assert ([s[0]] + r)[1..] == r;
      }
    }
  }

  /** Filtering by a predicate every element satisfies removes nothing. */
  lemma {:induction false} FilterKeepsAll<T(!new)>(p: T -> bool, s: seq<T>)
    requires forall k :: 0 <= k < |s| ==> p(s[k])
    ensures Filter(p, s) == s
  {
    if s != [] {
      FilterKeepsAll(p, s[1..]);
      assert s == [s[0]] + s[1..];
    }
  }

  /** No two rows of `s` share a key. */
  ghost predicate Distinct<T, K>(key: T -> K, s: seq<T>) {
    forall i, j :: 0 <= i < j < |s| ==> key(s[i]) != key(s[j])
  }

  lemma {:induction false} FilterKeepsDistinct<T(!new), K>(p: T -> bool, key: T -> K, s: seq<T>)
    requires Distinct(key, s)
    ensures Distinct(key, Filter(p, s))
  {
    if s != [] {
      FilterKeepsDistinct(p, key, s[1..]);
      if p(s[0]) {
        var r := Filter(p, s[1..]);
        forall j | 0 <= j < |r| ensures key(s[0]) != key(r[j]) {
          assert r[j] in s[1..];
          var m :| 0 <= m < |s[1..]| && s[1..][m] == r[j];
          assert s[m + 1] == r[j];
        }
        assert forall j :: 0 < j < |[s[0]] + r| ==> ([s[0]] + r)[j] == r[j - 1];
      }
    }
  }

  /** Dropping the first row keeps the keys distinct, and no remaining row
      shares the first row's key. */
  lemma DistinctTail<T(!new), K>(key: T -> K, s: seq<T>)
    requires Distinct(key, s) && s != []
    ensures Distinct(key, s[1..])
    ensures forall y :: y in s[1..] ==> key(y) != key(s[0])
  {
    var tail := s[1..];
    forall i, j | 0 <= i < j < |tail| ensures key(tail[i]) != key(tail[j]) {
      assert tail[i] == s[i + 1] && tail[j] == s[j + 1];
    }
    forall y | y in tail ensures key(y) != key(s[0]) {
      var m :| 0 <= m < |tail| && tail[m] == y;
      assert s[m + 1] == y;
    }
  }

  /** A row whose key no row of `s` has may be put in front of `s`. */
  lemma DistinctCons<T(!new), K>(key: T -> K, x: T, s: seq<T>)
    requires Distinct(key, s) && forall y :: y in s ==> key(y) != key(x)
    ensures Distinct(key, [x] + s)
  {
    var r := [x] + s;
    forall i, j | 0 <= i < j < |r| ensures key(r[i]) != key(r[j]) {
      assert r[j] == s[j - 1] && r[j] in s;
      if i > 0 {
        assert r[i] == s[i - 1];
      }
    }
  }

  /** `le` orders every pair and is transitive: the order of an ORDER BY
      whose ties the database may break either way. */
  ghost predicate TotalPreorder<T(!new)>(le: (T, T) -> bool) {
    && (forall a, b :: le(a, b) || le(b, a))
    && (forall a, b, c :: le(a, b) && le(b, c) ==> le(a, c))
  }

  ghost predicate Sorted<T>(le: (T, T) -> bool, s: seq<T>) {
    forall i, j :: 0 <= i < j < |s| ==> le(s[i], s[j])
  }

  /** Inserts `x` before the first element it may precede. */
  function Insert<T>(le: (T, T) -> bool, x: T, s: seq<T>): (r: seq<T>) {
    if s == [] || le(x, s[0]) then [x] + s else [s[0]] + Insert(le, x, s[1..])
  }

  /** Insertion sort; one of the orders an ORDER BY by `le` may return. */
  function Sort<T>(le: (T, T) -> bool, s: seq<T>): (r: seq<T>) {
    if s == [] then [] else Insert(le, s[0], Sort(le, s[1..]))
  }

  lemma {:induction false} InsertPermutation<T>(le: (T, T) -> bool, x: T, s: seq<T>)
    ensures multiset(Insert(le, x, s)) == multiset(s) + multiset{x}
  {
    if s != [] && !le(x, s[0]) {
      InsertPermutation(le, x, s[1..]);
      assert s == [s[0]] + s[1..];
    }
  }

  lemma {:induction false} SortPermutation<T>(le: (T, T) -> bool, s: seq<T>)
    ensures multiset(Sort(le, s)) == multiset(s)
  {
    if s != [] {
      SortPermutation(le, s[1..]);
      InsertPermutation(le, s[0], Sort(le, s[1..]));
      assert s == [s[0]] + s[1..];
    }
  }

  /** An element that may precede every element of a sorted sequence may
      be put in front of it. */
  lemma PrependSorted<T>(le: (T, T) -> bool, y: T, t: seq<T>)
    requires Sorted(le, t) && forall j :: 0 <= j < |t| ==> le(y, t[j])
    ensures Sorted(le, [y] + t)
  {
    var r := [y] + t;
    forall i, j | 0 <= i < j < |r| ensures le(r[i], r[j]) {
      if i == 0 {
        assert r[j] == t[j - 1];
      } else {
        assert r[i] == t[i - 1] && r[j] == t[j - 1];
      }
    }
  }

  /** Every element of `Insert(le, x, s)` is `x` or an element of `s`. */
  lemma InsertElements<T>(le: (T, T) -> bool, x: T, s: seq<T>, j: nat)
    requires j < |Insert(le, x, s)|
    ensures Insert(le, x, s)[j] == x || Insert(le, x, s)[j] in s
  {
    var t := Insert(le, x, s);
    InsertPermutation(le, x, s);
    assert t[j] in multiset(t);
  }

  lemma {:induction false} InsertSorted<T(!new)>(le: (T, T) -> bool, x: T, s: seq<T>)
    requires TotalPreorder(le) && Sorted(le, s)
    ensures Sorted(le, Insert(le, x, s))
  {
    if s == [] {
    } else if le(x, s[0]) {
      forall j | 0 <= j < |s| ensures le(x, s[j]) {
        if j > 0 {
          assert le(s[0], s[j]);
        }
      }
      PrependSorted(le, x, s);
    } else {
      var t := Insert(le, x, s[1..]);
      InsertSorted(le, x, s[1..]);
      forall j | 0 <= j < |t| ensures le(s[0], t[j]) {
        InsertElements(le, x, s[1..], j);
        if t[j] != x {
          var m :| 0 <= m < |s[1..]| && s[1..][m] == t[j];
          assert le(s[0], s[m + 1]);
        }
      }
      PrependSorted(le, s[0], t);
    }
  }

  lemma {:induction false} InsertKeepsDistinct<T(!new), K>(le: (T, T) -> bool, key: T -> K, x: T, s: seq<T>)
    requires Distinct(key, s) && forall y :: y in s ==> key(y) != key(x)
    ensures Distinct(key, Insert(le, x, s))
  {
    if s == [] || le(x, s[0]) {
      DistinctCons(key, x, s);
    } else {
      var t := Insert(le, x, s[1..]);
      DistinctTail(key, s);
      InsertKeepsDistinct(le, key, x, s[1..]);
      forall y | y in t ensures key(y) != key(s[0]) {
        var j :| 0 <= j < |t| && t[j] == y;
        InsertElements(le, x, s[1..], j);
      }
      DistinctCons(key, s[0], t);
    }
  }

  /** Sorting keeps the keys of a table distinct. */
  lemma {:induction false} SortKeepsDistinct<T(!new), K>(le: (T, T) -> bool, key: T -> K, s: seq<T>)
    requires Distinct(key, s)
    ensures Distinct(key, Sort(le, s))
  {
    if s != [] {
      var t := Sort(le, s[1..]);
      DistinctTail(key, s);
      SortKeepsDistinct(le, key, s[1..]);
      SortPermutation(le, s[1..]);
      forall y | y in t ensures key(y) != key(s[0]) {
        assert y in multiset(t);
        assert y in s[1..];
      }
      InsertKeepsDistinct(le, key, s[0], t);
    }
  }

  /** Under a total preorder the sort is ordered and loses or adds nothing. */
  lemma {:induction false} SortCorrect<T(!new)>(le: (T, T) -> bool, s: seq<T>)
    requires TotalPreorder(le)
    ensures Sorted(le, Sort(le, s))
    ensures multiset(Sort(le, s)) == multiset(s)
  {
    SortPermutation(le, s);
    if s != [] {
      SortCorrect(le, s[1..]);
      InsertSorted(le, s[0], Sort(le, s[1..]));
    }
  }

  lemma PermutationLength<T>(a: seq<T>, b: seq<T>)
    requires multiset(a) == multiset(b)
    ensures |a| == |b|
  {
    assert |a| == |multiset(a)| && |b| == |multiset(b)|;
  }
}
