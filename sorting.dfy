/** Ordering helpers shared by the download and the analytics models:
    a stable insertion sort standing for pandas' `sort_values`, and a sorted
    list without repetitions standing for `sorted(column.unique())`. */
module Sorting {

  /** `lt` is irreflexive, transitive and relates any two distinct values. */
  ghost predicate StrictTotalOrder<T(!new)>(lt: (T, T) -> bool) {
    && (forall a :: !lt(a, a))
    && (forall a, b, c :: lt(a, b) && lt(b, c) ==> lt(a, c))
    && (forall a, b :: a != b ==> lt(a, b) || lt(b, a))
  }

  /** `le` is total and transitive (ties between distinct values are allowed). */
  ghost predicate TotalPreorder<T(!new)>(le: (T, T) -> bool) {
    && (forall a, b :: le(a, b) || le(b, a))
    && (forall a, b, c :: le(a, b) && le(b, c) ==> le(a, c))
  }

  /** Every element of `s` is related by `rel` to every later element. */
  predicate Ordered<T>(s: seq<T>, rel: (T, T) -> bool) {
    forall i, j :: 0 <= i < j < |s| ==> rel(s[i], s[j])
  }

  /** Prefixing an element related to every element of an ordered sequence keeps it ordered. */
  lemma OrderedCons<T>(a: T, s: seq<T>, rel: (T, T) -> bool)
    requires Ordered(s, rel)
    requires forall y :: y in s ==> rel(a, y)
    ensures Ordered([a] + s, rel)
  {
    var r := [a] + s;
    forall i, j | 0 <= i < j < |r| ensures rel(r[i], r[j]) {
      assert r[j] == s[j - 1];
      if i > 0 { assert r[i] == s[i - 1]; }
    }
  }

  /** A prefix of an ordered sequence is ordered. */
  lemma OrderedPrefix<T>(s: seq<T>, n: nat, rel: (T, T) -> bool)
    requires Ordered(s, rel) && n <= |s|
    ensures Ordered(s[..n], rel)
  {
    forall i, j | 0 <= i < j < n ensures rel(s[..n][i], s[..n][j]) {
      assert s[..n][i] == s[i] && s[..n][j] == s[j];
    }
  }

  /** Inserts `x` into the strictly increasing `s`, unless it is already there. */
  function InsertDistinct<T(==, !new)>(x: T, s: seq<T>, lt: (T, T) -> bool): (r: seq<T>)
    requires StrictTotalOrder(lt) && Ordered(s, lt)
    ensures Ordered(r, lt)
    ensures forall y :: y in r <==> y == x || y in s
  {
    if s == [] then [x]
    else if x == s[0] then s
    else if lt(x, s[0]) then
      assert forall y :: y in s ==> lt(x, y) by {
        forall y | y in s ensures lt(x, y) {
          var j :| 0 <= j < |s| && s[j] == y;
          if j > 0 { assert lt(s[0], s[j]); }
        }
      }
      OrderedCons(x, s, lt);
      [x] + s
    else
      assert lt(s[0], x);
      var rest := InsertDistinct(x, s[1..], lt);
      assert forall y :: y in rest ==> lt(s[0], y) by {
        forall y | y in rest ensures lt(s[0], y) {
          if y != x {
            var j :| 0 <= j < |s[1..]| && s[1..][j] == y;
            assert s[j + 1] == y;
          }
        }
      }
      OrderedCons(s[0], rest, lt);
      assert s == [s[0]] + s[1..];
      [s[0]] + rest
  }

  /** The distinct values of `s` in strictly increasing order: `sorted(set(s))`. */
  function SortedDistinct<T(==, !new)>(s: seq<T>, lt: (T, T) -> bool): (r: seq<T>)
    requires StrictTotalOrder(lt)
    ensures Ordered(r, lt)
    ensures forall y :: y in r <==> y in s
  {
    if s == [] then []
    else
      var init := s[..|s| - 1];
      var r := InsertDistinct(s[|s| - 1], SortedDistinct(init, lt), lt);
      assert forall y :: y in s <==> y in init || y == s[|s| - 1] by {
        assert s == init + [s[|s| - 1]];
      }
      r
  }

  /** A value below the head of an ordered sequence is below all of it. */
  lemma BelowHead<T(!new)>(x: T, s: seq<T>, le: (T, T) -> bool)
    requires TotalPreorder(le) && Ordered(s, le) && s != [] && le(x, s[0])
    ensures forall y :: y in s ==> le(x, y)
  {
    forall y | y in s ensures le(x, y) {
      var j :| 0 <= j < |s| && s[j] == y;
      if j > 0 { assert le(s[0], s[j]); }
    }
  }

  /** A bound on every element of `t` and on `x` bounds every element of a
      sequence holding `t`'s elements and `x`. */
  lemma BoundsMultiset<T>(a: T, x: T, t: seq<T>, rest: seq<T>, le: (T, T) -> bool)
    requires forall y :: y in t ==> le(a, y)
    requires le(a, x) && multiset(rest) == multiset(t) + multiset{x}
    ensures forall y :: y in rest ==> le(a, y)
  {
    forall y | y in rest ensures le(a, y) {
      assert y in multiset(rest);
      if y != x { assert y in multiset(t); }
    }
  }

  /** Inserts `x` into the ordered `s` after every element that is not greater than it. */
  function Insert<T(!new)>(x: T, s: seq<T>, le: (T, T) -> bool): (r: seq<T>)
    requires TotalPreorder(le) && Ordered(s, le)
    ensures Ordered(r, le)
    ensures multiset(r) == multiset(s) + multiset{x}
  {
    if s == [] then [x]
    else if le(s[0], x) then
      var rest := Insert(x, s[1..], le);
      assert s == [s[0]] + s[1..];
      assert forall y :: y in s[1..] ==> le(s[0], y) by {
        forall y | y in s[1..] ensures le(s[0], y) {
          var j :| 0 <= j < |s[1..]| && s[1..][j] == y;
          assert s[j + 1] == y;
        }
      }
      BoundsMultiset(s[0], x, s[1..], rest, le);
      OrderedCons(s[0], rest, le);
      [s[0]] + rest
    else
      BelowHead(x, s, le);
      OrderedCons(x, s, le);
      [x] + s
  }

  /** A stable sort of `s` by `le`: ordered, and a permutation of `s`. */
  function InsertionSort<T(!new)>(s: seq<T>, le: (T, T) -> bool): (r: seq<T>)
    requires TotalPreorder(le)
    ensures Ordered(r, le)
    ensures multiset(r) == multiset(s)
    ensures |r| == |s|
  {
    if s == [] then []
    else
      var init := s[..|s| - 1];
      assert s == init + [s[|s| - 1]];
      var r := Insert(s[|s| - 1], InsertionSort(init, le), le);
      assert |r| == |multiset(r)|;
      r
  }
}
