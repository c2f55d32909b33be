/** Listing a set in a given strict total order. */
module Sorting {

  ghost predicate StrictTotal<T(!new)>(lt: (T, T) -> bool) {
    && (forall x :: !lt(x, x))
    && (forall x, y, z :: lt(x, y) && lt(y, z) ==> lt(x, z))
    && (forall x, y :: x == y || lt(x, y) || lt(y, x))
  }

  ghost predicate Ascending<T>(s: seq<T>, lt: (T, T) -> bool) {
    forall i, j :: 0 <= i < j < |s| ==> lt(s[i], s[j])
  }

  lemma {:induction false} LeastExists<T(!new)>(s: set<T>, lt: (T, T) -> bool) returns (m: T)
    requires StrictTotal(lt) && s != {}
    ensures m in s && forall x :: x in s ==> x == m || lt(m, x)
    decreases |s|
  {
    m :| m in s;
    var rest := s - {m};
    if rest != {} {
      var n := LeastExists(rest, lt);
      if lt(n, m) {
        m := n;
      }
    }
  }

  /** The members, each once, in ascending order. */
  method Sorted<T(==, !new)>(s: set<T>, lt: (T, T) -> bool) returns (list: seq<T>)
    requires StrictTotal(lt)
    ensures Ascending(list, lt) && (forall x :: x in list <==> x in s) && |list| == |s|
  {
    list := [];
    var left := s;
    while left != {}
      invariant left <= s && |list| + |left| == |s|
      invariant forall x :: x in s <==> x in left || x in list
      invariant Ascending(list, lt)
      invariant forall x, i :: x in left && 0 <= i < |list| ==> lt(list[i], x)
      decreases |left|
    {
      ghost var least := LeastExists(left, lt);
      var m :| m in left && forall x :: x in left ==> x == m || lt(m, x);
      forall x | x in left - {m} ensures lt(m, x) {
        assert x in left;
      }
      left := left - {m};
      list := list + [m];
    }
  }

  /** There is only one such list. */
  lemma {:induction false} AscendingIsUnique<T(!new)>(a: seq<T>, b: seq<T>, lt: (T, T) -> bool)
    requires StrictTotal(lt) && Ascending(a, lt) && Ascending(b, lt)
    requires forall x :: x in a <==> x in b
    ensures a == b
    decreases |a|
  {
    assert (|a| > 0 ==> a[0] in a) && (|b| > 0 ==> b[0] in b);
    if a != [] {
      FirstIsLeast(a, lt, b[0]);
      FirstIsLeast(b, lt, a[0]);
      TailMembers(a, lt);
      TailMembers(b, lt);
      AscendingIsUnique(a[1..], b[1..], lt);
      assert a == [a[0]] + a[1..] && b == [b[0]] + b[1..];
    }
  }

  lemma FirstIsLeast<T(!new)>(a: seq<T>, lt: (T, T) -> bool, x: T)
    requires Ascending(a, lt) && x in a
    ensures a[0] == x || lt(a[0], x)
  {
    var i :| 0 <= i < |a| && a[i] == x;
    if i > 0 {
      assert lt(a[0], a[i]);
    }
  }

  lemma TailMembers<T(!new)>(a: seq<T>, lt: (T, T) -> bool)
    requires StrictTotal(lt) && Ascending(a, lt) && a != []
    ensures forall x :: x in a[1..] <==> x in a && x != a[0]
  {
    assert a == [a[0]] + a[1..];
    forall x | x in a[1..] ensures x != a[0] {
      var i :| 1 <= i < |a| && a[i] == x;
      assert lt(a[0], a[i]);
    }
  }
}
