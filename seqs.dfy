/**
 * Querysets as finite sequences: an order-preserving filter (`.filter(...)`),
 * a prefix (`qs[:n]`) and a stable sort by a total preorder (`.order_by(...)`).
 */
module Seqs {

  /** The elements of `s` that satisfy `p`, in their original order. */
  function Keep<T(==)>(s: seq<T>, p: T -> bool): (r: seq<T>)
    ensures |r| <= |s|
    ensures forall i :: 0 <= i < |r| ==> r[i] in s && p(r[i])
    ensures forall i :: 0 <= i < |s| && p(s[i]) ==> s[i] in r
  {
    if s == [] then []
    else if p(s[0]) then [s[0]] + Keep(s[1..], p)
    else Keep(s[1..], p)
  }

  /** Some element survives the filter iff some position of `s` satisfies `p`. */
  lemma KeepSome<T>(s: seq<T>, p: T -> bool)
    ensures |Keep(s, p)| >= 1 <==> exists j :: 0 <= j < |s| && p(s[j])
  {
    if |Keep(s, p)| >= 1 {
      var r := Keep(s, p);
      var j :| 0 <= j < |s| && s[j] == r[0];
    }
  }

  /** At least two elements survive the filter iff two positions of `s` satisfy `p`. */
  lemma {:induction false} KeepTwo<T>(s: seq<T>, p: T -> bool)
    ensures |Keep(s, p)| >= 2 <==> exists i, j :: 0 <= i < j < |s| && p(s[i]) && p(s[j])
  {
    if s != [] {
      var t := s[1..];
      if p(s[0]) {
        assert Keep(s, p) == [s[0]] + Keep(t, p);
        KeepSome(t, p);
        if exists j :: 0 <= j < |t| && p(t[j]) {
          var j :| 0 <= j < |t| && p(t[j]);
          assert s[j + 1] == t[j];
        }
        if exists i, j :: 0 <= i < j < |s| && p(s[i]) && p(s[j]) {
          var i, j :| 0 <= i < j < |s| && p(s[i]) && p(s[j]);
          assert t[j - 1] == s[j];
        }
      } else {
        assert Keep(s, p) == Keep(t, p);
        KeepTwo(t, p);
        if exists i, j :: 0 <= i < j < |s| && p(s[i]) && p(s[j]) {
          var i, j :| 0 <= i < j < |s| && p(s[i]) && p(s[j]);
          assert t[i - 1] == s[i] && t[j - 1] == s[j];
        }
        if exists i, j :: 0 <= i < j < |t| && p(t[i]) && p(t[j]) {
          var i, j :| 0 <= i < j < |t| && p(t[i]) && p(t[j]);
          assert s[i + 1] == t[i] && s[j + 1] == t[j];
        }
      }
    }
  }

  /** Filtering keeps every satisfying element with its multiplicity and drops the rest. */
  lemma {:induction false} KeepCount<T>(s: seq<T>, p: T -> bool, x: T)
    ensures multiset(Keep(s, p))[x] == if p(x) then multiset(s)[x] else 0
  {
    if s != [] {
      KeepCount(s[1..], p, x);
      assert s == [s[0]] + s[1..];
    }
  }

  /** Filtering distributes over concatenation, so it never reorders elements. */
  lemma {:induction false} KeepConcat<T>(s: seq<T>, t: seq<T>, p: T -> bool)
    ensures Keep(s + t, p) == Keep(s, p) + Keep(t, p)
  {
    if s == [] {
      assert s + t == t;
    } else {
      assert (s + t)[1..] == s[1..] + t;
      KeepConcat(s[1..], t, p);
    }
  }

  /** Filtering twice by the same predicate is filtering once. */
  lemma {:induction false} KeepIdempotent<T>(s: seq<T>, p: T -> bool)
    ensures Keep(Keep(s, p), p) == Keep(s, p)
  {
    if s != [] {
      KeepIdempotent(s[1..], p);
    }
  }

  /** Filters by predicates that agree on every element are equal. */
  lemma {:induction false} KeepExtensional<T>(s: seq<T>, p: T -> bool, q: T -> bool)
    requires forall i :: 0 <= i < |s| ==> p(s[i]) == q(s[i])
    ensures Keep(s, p) == Keep(s, q)
  {
    if s != [] {
      KeepExtensional(s[1..], p, q);
    }
  }

  /** The first `n` elements of `s` (Python's `s[:n]` for `n >= 0`). */
  function Take<T>(s: seq<T>, n: nat): (r: seq<T>)
    ensures |r| == if |s| < n then |s| else n
    ensures forall i :: 0 <= i < |r| ==> r[i] == s[i]
  {
    if |s| < n then s else s[..n]
  }

  /** `le` is total and transitive: a sort key order with possible ties. */
  ghost predicate TotalPreorder<T(!new)>(le: (T, T) -> bool)
  {
    && (forall a, b :: le(a, b) || le(b, a))
    && (forall a, b, c :: le(a, b) && le(b, c) ==> le(a, c))
  }

  predicate SortedBy<T>(s: seq<T>, le: (T, T) -> bool)
  {
    forall i, j :: 0 <= i < j < |s| ==> le(s[i], s[j])
  }

  /** Inserts `x` before the first element it is not after. */
  function Insert<T>(x: T, s: seq<T>, le: (T, T) -> bool): seq<T>
  {
    if s == [] then [x]
    else if le(x, s[0]) then [x] + s
    else [s[0]] + Insert(x, s[1..], le)
  }

  lemma {:induction false} InsertPerm<T>(x: T, s: seq<T>, le: (T, T) -> bool)
    ensures multiset(Insert(x, s, le)) == multiset(s) + multiset{x}
  {
    if s != [] && !le(x, s[0]) {
      InsertPerm(x, s[1..], le);
      assert s == [s[0]] + s[1..];
    }
  }

  lemma {:induction false} InsertSorted<T(!new)>(x: T, s: seq<T>, le: (T, T) -> bool)
    requires TotalPreorder(le)
    requires SortedBy(s, le)
    ensures SortedBy(Insert(x, s, le), le)
  {
    if s == [] {
    } else if le(x, s[0]) {
      var r := [x] + s;
      forall i, j | 0 <= i < j < |r|
        ensures le(r[i], r[j])
      {
        if i == 0 && j > 1 {
          assert le(s[0], s[j - 1]);
        }
      }
    } else {
      var tail := s[1..];
      assert SortedBy(tail, le) by {
        forall i, j | 0 <= i < j < |tail| ensures le(tail[i], tail[j]) {
          assert tail[i] == s[i + 1] && tail[j] == s[j + 1];
        }
      }
      var t := Insert(x, tail, le);
      InsertSorted(x, tail, le);
      InsertPerm(x, tail, le);
      forall k | 0 <= k < |t|
        ensures le(s[0], t[k])
      {
        assert t[k] in multiset(t);
        if t[k] != x {
          assert t[k] in multiset(tail);
          var m :| 0 <= m < |tail| && tail[m] == t[k];
          assert tail[m] == s[m + 1];
        }
      }
      var r := [s[0]] + t;
      forall i, j | 0 <= i < j < |r|
        ensures le(r[i], r[j])
      {
        assert r[j] == t[j - 1];
        if i > 0 {
          assert r[i] == t[i - 1];
        }
      }
    }
  }

  /** A stable insertion sort by `le`. */
  function SortBy<T(!new)>(s: seq<T>, le: (T, T) -> bool): (r: seq<T>)
    requires TotalPreorder(le)
    ensures multiset(r) == multiset(s)
    ensures SortedBy(r, le)
  {
    if s == [] then []
    else
      var rest := SortBy(s[1..], le);
      InsertPerm(s[0], rest, le);
      ConsMultiset(s);
      InsertSorted(s[0], rest, le);
      Insert(s[0], rest, le)
  }

  lemma ConsMultiset<T>(s: seq<T>)
    requires s != []
    ensures multiset(s) == multiset(s[1..]) + multiset{s[0]}
  {
    assert s == [s[0]] + s[1..];
  }

  /** A prefix of a sorted sequence is sorted. */
  lemma TakeSorted<T>(s: seq<T>, le: (T, T) -> bool, n: nat)
    requires SortedBy(s, le)
    ensures SortedBy(Take(s, n), le)
  {
  }

  /** The first `n` of a sorted sequence are not after any element that was cut off. */
  lemma TakeSortedIsSmallest<T>(s: seq<T>, le: (T, T) -> bool, n: nat, x: T)
    requires SortedBy(s, le)
    requires x in s && x !in Take(s, n)
    ensures forall i :: 0 <= i < |Take(s, n)| ==> le(Take(s, n)[i], x)
  {
    var k :| 0 <= k < |s| && s[k] == x;
  }

  /** Filtering a sorted sequence leaves it sorted. */
  lemma {:induction false} KeepSorted<T>(s: seq<T>, p: T -> bool, le: (T, T) -> bool)
    requires SortedBy(s, le)
    ensures SortedBy(Keep(s, p), le)
  {
    if s != [] {
      var tail := s[1..];
      assert SortedBy(tail, le) by {
        forall i, j | 0 <= i < j < |tail| ensures le(tail[i], tail[j]) {
          assert tail[i] == s[i + 1] && tail[j] == s[j + 1];
        }
      }
      KeepSorted(tail, p, le);
      var kt := Keep(tail, p);
      if p(s[0]) {
        forall k | 0 <= k < |kt| ensures le(s[0], kt[k]) {
          var m :| 0 <= m < |tail| && tail[m] == kt[k];
          assert tail[m] == s[m + 1];
        }
        var r := [s[0]] + kt;
        forall i, j | 0 <= i < j < |r| ensures le(r[i], r[j]) {
          assert r[j] == kt[j - 1];
          if i > 0 {
            assert r[i] == kt[i - 1];
          }
        }
      }
    }
  }

  /** No two elements of `s` share a key. */
  predicate DistinctBy<T, K(==)>(s: seq<T>, key: T -> K)
  {
    forall i, j :: 0 <= i < j < |s| ==> key(s[i]) != key(s[j])
  }

  /** Filtering keeps the keys of a sequence distinct. */
  lemma {:induction false} KeepDistinctBy<T, K>(s: seq<T>, p: T -> bool, key: T -> K)
    requires DistinctBy(s, key)
    ensures DistinctBy(Keep(s, p), key)
  {
    if s != [] {
      var tail := s[1..];
      assert DistinctBy(tail, key) by {
        forall i, j | 0 <= i < j < |tail| ensures key(tail[i]) != key(tail[j]) {
          assert tail[i] == s[i + 1] && tail[j] == s[j + 1];
        }
      }
      KeepDistinctBy(tail, p, key);
      if p(s[0]) {
        var kt := Keep(tail, p);
        var r := [s[0]] + kt;
        forall i, j | 0 <= i < j < |r| ensures key(r[i]) != key(r[j]) {
          assert r[j] == kt[j - 1];
          if i == 0 {
            var m :| 0 <= m < |tail| && tail[m] == kt[j - 1];
            assert tail[m] == s[m + 1];
          } else {
            assert r[i] == kt[i - 1];
          }
        }
      }
    }
  }

  /** An element found at two positions occurs at least twice. */
  lemma TwoPositionsCount<T>(s: seq<T>, i: nat, j: nat)
    requires 0 <= i < j < |s| && s[i] == s[j]
    ensures multiset(s)[s[i]] >= 2
  {
    assert s == s[..j] + s[j..];
    assert s[i] in s[..j];
    assert s[j..] == [s[j]] + s[j + 1..];
  }

  /** Under distinct keys no element occurs twice. */
  lemma {:induction false} DistinctByCount<T, K>(s: seq<T>, key: T -> K, x: T)
    requires DistinctBy(s, key)
    ensures multiset(s)[x] <= 1
  {
    if s != [] {
      var tail := s[1..];
      assert s == [s[0]] + tail;
      assert DistinctBy(tail, key) by {
        forall i, j | 0 <= i < j < |tail| ensures key(tail[i]) != key(tail[j]) {
          assert tail[i] == s[i + 1] && tail[j] == s[j + 1];
        }
      }
      DistinctByCount(tail, key, x);
      if s[0] == x {
        assert x !in tail by {
          forall m | 0 <= m < |tail| ensures tail[m] != x {
            assert tail[m] == s[m + 1];
          }
        }
      }
    }
  }

  /** A permutation of a sequence with distinct keys has distinct keys. */
  lemma PermutationDistinctBy<T, K>(a: seq<T>, b: seq<T>, key: T -> K)
    requires multiset(a) == multiset(b)
    requires DistinctBy(a, key)
    ensures DistinctBy(b, key)
  {
    forall i, j | 0 <= i < j < |b| ensures key(b[i]) != key(b[j]) {
      if b[i] == b[j] {
        TwoPositionsCount(b, i, j);
        DistinctByCount(a, key, b[i]);
        assert false;
      } else {
        assert b[i] in multiset(a) && b[j] in multiset(a);
        var i' :| 0 <= i' < |a| && a[i'] == b[i];
        var j' :| 0 <= j' < |a| && a[j'] == b[j];
        if i' < j' {
          assert key(a[i']) != key(a[j']);
        } else {
          assert key(a[j']) != key(a[i']);
        }
      }
    }
  }

  /** No two elements of `s` that satisfy `has` share a key (a unique constraint over nullable columns). */
  predicate DistinctWhere<T, K(==)>(s: seq<T>, has: T -> bool, key: T -> K)
  {
    forall i, j :: 0 <= i < j < |s| && has(s[i]) && has(s[j]) ==> key(s[i]) != key(s[j])
  }

  /** Filtering keeps such a constraint. */
  lemma {:induction false} KeepDistinctWhere<T, K>(s: seq<T>, p: T -> bool, has: T -> bool, key: T -> K)
    requires DistinctWhere(s, has, key)
    ensures DistinctWhere(Keep(s, p), has, key)
  {
    if s != [] {
      var tail := s[1..];
      assert DistinctWhere(tail, has, key) by {
        forall i, j | 0 <= i < j < |tail| && has(tail[i]) && has(tail[j]) ensures key(tail[i]) != key(tail[j]) {
          assert tail[i] == s[i + 1] && tail[j] == s[j + 1];
        }
      }
      KeepDistinctWhere(tail, p, has, key);
      if p(s[0]) {
        var kt := Keep(tail, p);
        var r := [s[0]] + kt;
        forall i, j | 0 <= i < j < |r| && has(r[i]) && has(r[j]) ensures key(r[i]) != key(r[j]) {
          assert r[j] == kt[j - 1];
          if i == 0 {
            var m :| 0 <= m < |tail| && tail[m] == kt[j - 1];
            assert tail[m] == s[m + 1];
          } else {
            assert r[i] == kt[i - 1];
          }
        }
      }
    }
  }
}
