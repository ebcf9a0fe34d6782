/**
 * The ordering a query's `order_by` (or a model's `Meta.ordering`) imposes on
 * the rows it returns, stated once for any total preorder on rows: the result
 * lists every row of the table exactly once, each no greater than the next.
 * Rows that compare equal come out in an order the database chooses; the
 * model fixes one such order without saying which.
 */
module Sorting {

  ghost predicate TotalPreorder<T(!new)>(le: (T, T) -> bool) {
    && (forall a, b :: le(a, b) || le(b, a))
    && (forall a, b, c :: le(a, b) && le(b, c) ==> le(a, c))
  }

  predicate SortedBy<T>(s: seq<T>, le: (T, T) -> bool) {
    forall i, j | 0 <= i < j < |s| :: le(s[i], s[j])
  }

  /** Places `x` in front of the first element it is not above. */
  function Insert<T(!new)>(x: T, s: seq<T>, le: (T, T) -> bool): (r: seq<T>)
    requires TotalPreorder(le)
    requires SortedBy(s, le)
    ensures SortedBy(r, le)
    ensures multiset(r) == multiset(s) + multiset{x}
    decreases |s|
  {
    if s == [] then [x]
    else if le(x, s[0]) then [x] + s
    else
      var tail := Insert(x, s[1..], le);
      assert multiset(tail) == multiset(s[1..]) + multiset{x};
      assert s == [s[0]] + s[1..];
      assert forall k | 0 <= k < |tail| :: le(s[0], tail[k]) by {
        forall k | 0 <= k < |tail|
          ensures le(s[0], tail[k])
        {
          assert tail[k] in multiset(tail);
          assert tail[k] == x || tail[k] in multiset(s[1..]);
          if tail[k] != x {
            var j :| 0 <= j < |s[1..]| && s[1..][j] == tail[k];
            assert s[1 + j] == tail[k];
          }
        }
      }
      [s[0]] + tail
  }

  /** A listing of `s` in the order `le` asks for. */
  function SortBy<T(!new)>(s: seq<T>, le: (T, T) -> bool): (r: seq<T>)
    requires TotalPreorder(le)
    ensures SortedBy(r, le)
    ensures multiset(r) == multiset(s)
    decreases |s|
  {
    if s == [] then []
    else
      assert s == [s[0]] + s[1..];
      Insert(s[0], SortBy(s[1..], le), le)
  }

  /** The elements of a finite set, each once, in an unspecified order. */
  ghost function ListOf<T(!new)>(s: set<T>): (r: seq<T>)
    ensures |r| == |s|
    ensures forall x :: x in r <==> x in s
    ensures multiset(r) == multiset(s)
    decreases |s|
  {
    if s == {} then []
    else
      var x :| x in s;
      var rest := ListOf(s - {x});
      assert multiset(s) == multiset(s - {x}) + multiset{x};
      [x] + rest
  }

  /** A sorted listing of a finite set: every member once, in order. */
  ghost function SortedListOf<T(!new)>(s: set<T>, le: (T, T) -> bool): (r: seq<T>)
    requires TotalPreorder(le)
    ensures SortedBy(r, le)
    ensures |r| == |s|
    ensures forall x :: x in r <==> x in s
    ensures forall i, j | 0 <= i < j < |r| :: r[i] != r[j]
  {
    var r := SortBy(ListOf(s), le);
    NoRepeats(r, s);
    assert forall x :: x in r <==> x in multiset(r);
    r
  }

  /** A sequence with the multiset of a set lists no element twice. */
  lemma NoRepeats<T>(r: seq<T>, s: set<T>)
    requires multiset(r) == multiset(s)
    ensures forall i, j | 0 <= i < j < |r| :: r[i] != r[j]
  {
    forall i, j | 0 <= i < j < |r| ensures r[i] != r[j] {
      assert r == r[..j] + r[j..];
      assert r[j] in multiset(r[j..]);
      assert multiset(s)[r[j]] <= 1;
      assert multiset(r[..j])[r[j]] == 0;
      assert r[i] == r[..j][i];
    }
  }
}
