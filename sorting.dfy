/** `Array.prototype.sort` with a comparator: a stable sort, written as insertion of each
    element, in order, after every element of the sorted prefix that may precede it.
    `le(a, b)` holds when the comparator lets `a` come before `b`. */
module Sorting {

  /** The comparator orders every pair, consistently. */
  ghost predicate TotalPreorder<T(!new)>(le: (T, T) -> bool) {
    && (forall a, b :: le(a, b) || le(b, a))
    && (forall a, b, c :: le(a, b) && le(b, c) ==> le(a, c))
  }

  predicate Sorted<T>(s: seq<T>, le: (T, T) -> bool) {
    forall i, j :: 0 <= i < j < |s| ==> le(s[i], s[j])
  }

  /** Places `x` after the leading elements that may precede it. */
  function InsertBy<T>(x: T, s: seq<T>, le: (T, T) -> bool): (r: seq<T>)
    ensures multiset(r) == multiset(s) + multiset{x}
    ensures |r| == |s| + 1
  {
    if s == [] then [x]
    else if !le(s[0], x) then [x] + s
    else
      assert s == [s[0]] + s[1..];
      [s[0]] + InsertBy(x, s[1..], le)
  }

  /** Insertion keeps a sequence sorted. */
  lemma {:induction false} InsertSorted<T(!new)>(x: T, s: seq<T>, le: (T, T) -> bool)
    requires TotalPreorder(le) && Sorted(s, le)
    ensures Sorted(InsertBy(x, s, le), le)
  {
    if s != [] {
      if !le(s[0], x) {
        assert le(x, s[0]);
        forall j | 0 <= j < |s| ensures le(x, s[j]) {
          if j > 0 {
            assert le(s[0], s[j]);
          }
        }
      } else {
        var rest := InsertBy(x, s[1..], le);
        assert Sorted(s[1..], le);
        InsertSorted(x, s[1..], le);
        forall j | 0 <= j < |rest| ensures le(s[0], rest[j]) {
          assert rest[j] in multiset(rest);
          assert s == [s[0]] + s[1..];
          if rest[j] != x {
            assert rest[j] in multiset(s[1..]);
            var k :| 0 <= k < |s[1..]| && s[1..][k] == rest[j];
            assert s[k + 1] == rest[j];
          }
        }
      }
    }
  }

  /** The sorted arrangement of `s`. */
  function SortBy<T(!new)>(s: seq<T>, le: (T, T) -> bool): (r: seq<T>)
    requires TotalPreorder(le)
    ensures Sorted(r, le)
    ensures multiset(r) == multiset(s)
    ensures |r| == |s|
  {
    if s == [] then []
    else
      var p := SortBy(s[..|s| - 1], le);
      InsertSorted(s[|s| - 1], p, le);
      assert s == s[..|s| - 1] + [s[|s| - 1]];
      InsertBy(s[|s| - 1], p, le)
  }

  /** Sorting a sequence that is already sorted leaves it as it is. */
  lemma {:induction false} SortSorted<T(!new)>(s: seq<T>, le: (T, T) -> bool)
    requires TotalPreorder(le) && Sorted(s, le)
    ensures SortBy(s, le) == s
  {
    if s != [] {
      var p := s[..|s| - 1];
      assert Sorted(p, le);
      SortSorted(p, le);
      InsertLast(p, s[|s| - 1], le);
      assert p + [s[|s| - 1]] == s;
    }
  }

  /** An element every element may precede goes at the end. */
  lemma {:induction false} InsertLast<T>(s: seq<T>, x: T, le: (T, T) -> bool)
    requires forall i :: 0 <= i < |s| ==> le(s[i], x)
    ensures InsertBy(x, s, le) == s + [x]
  {
    if s != [] {
      InsertLast(s[1..], x, le);
      assert [s[0]] + (s[1..] + [x]) == s + [x];
    }
  }

  /** A prefix of a sorted sequence is sorted, and each of its elements may precede each
      element left out of it. */
  lemma SortedPrefixFirst<T>(s: seq<T>, n: nat, le: (T, T) -> bool)
    requires Sorted(s, le) && n <= |s|
    ensures Sorted(s[..n], le)
    ensures multiset(s[..n]) <= multiset(s)
    ensures forall p, q :: p in s[..n] && q in multiset(s) - multiset(s[..n]) ==> le(p, q)
  {
    assert s == s[..n] + s[n..];
    assert multiset(s) - multiset(s[..n]) == multiset(s[n..]);
    forall p, q | p in s[..n] && q in multiset(s[n..]) ensures le(p, q) {
      var i :| 0 <= i < n && s[..n][i] == p;
      var j :| 0 <= j < |s[n..]| && s[n..][j] == q;
      assert s[i] == p && s[n + j] == q;
    }
  }
}
