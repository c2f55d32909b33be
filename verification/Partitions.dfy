/** Sums split by a key. */
module Partitions {
  import opened Prelude

  function Total<U(!new)>(items: seq<U>, w: U -> real): real {
    if items == [] then 0.0 else Total(items[..|items| - 1], w) + w(items[|items| - 1])
  }

  /** The part of the sum that falls under key k. */
  function TotalFor<U(!new), K(==, !new)>(items: seq<U>, key: U -> K, k: K, w: U -> real): real {
    if items == [] then 0.0
    else
      var last := items[|items| - 1];
      TotalFor(items[..|items| - 1], key, k, w) + if key(last) == k then w(last) else 0.0
  }

  function SumOver<U(!new), K(==, !new)>(keys: seq<K>, items: seq<U>, key: U -> K, w: U -> real): real
    decreases |keys|
  {
    if keys == [] then 0.0
    else SumOver(keys[..|keys| - 1], items, key, w) + TotalFor(items, key, keys[|keys| - 1], w)
  }

  lemma {:induction false} SumOverNothing<U(!new), K(!new)>(keys: seq<K>, key: U -> K, w: U -> real)
    ensures SumOver(keys, [], key, w) == 0.0
    decreases |keys|
  {
    if keys != [] {
      SumOverNothing(keys[..|keys| - 1], key, w);
    }
  }

  /** One more item adds its weight once, under its own key. */
  lemma {:induction false} SumOverSnoc<U(!new), K(!new)>(keys: seq<K>, items: seq<U>, item: U, key: U -> K,
                                                         w: U -> real)
    requires Distinct(keys)
    ensures SumOver(keys, items + [item], key, w) ==
            SumOver(keys, items, key, w) + if key(item) in keys then w(item) else 0.0
    decreases |keys|
  {
    assert (items + [item])[..|items|] == items;
    if keys != [] {
      var n := |keys| - 1;
      SumOverSnoc(keys[..n], items, item, key, w);
      assert keys == keys[..n] + [keys[n]];
      assert keys[n] !in keys[..n];
    }
  }

  /** Over any list of distinct keys that covers the items, the parts add up to the whole. */
  lemma {:induction false} PartsAddUp<U(!new), K(!new)>(keys: seq<K>, items: seq<U>, key: U -> K, w: U -> real)
    requires Distinct(keys) && forall x :: x in items ==> key(x) in keys
    ensures SumOver(keys, items, key, w) == Total(items, w)
    decreases |items|
  {
    if items == [] {
      SumOverNothing(keys, key, w);
    } else {
      var n := |items| - 1;
      assert items == items[..n] + [items[n]];
      PartsAddUp(keys, items[..n], key, w);
      SumOverSnoc(keys, items[..n], items[n], key, w);
    }
  }

  lemma {:induction false} TotalForConcat<U(!new), K(!new)>(a: seq<U>, b: seq<U>, key: U -> K, k: K, w: U -> real)
    ensures TotalFor(a + b, key, k, w) == TotalFor(a, key, k, w) + TotalFor(b, key, k, w)
    decreases |b|
  {
    if b == [] {
      assert a + b == a;
    } else {
      assert (a + b)[..|a + b| - 1] == a + b[..|b| - 1];
      TotalForConcat(a, b[..|b| - 1], key, k, w);
    }
  }

  /** The order of the items does not matter. */
  lemma {:induction false} TotalForPermutes<U(!new), K(!new)>(a: seq<U>, b: seq<U>, key: U -> K, k: K, w: U -> real)
    requires multiset(a) == multiset(b)
    ensures TotalFor(a, key, k, w) == TotalFor(b, key, k, w)
    decreases |a|
  {
    if a == [] {
      assert |multiset(b)| == 0;
    } else {
      var n := |a| - 1;
      var x := a[n];
      assert x in multiset(b);
      var j :| 0 <= j < |b| && b[j] == x;
      var rest := b[..j] + b[j + 1..];
      assert b == b[..j] + [x] + b[j + 1..];
      assert a == a[..n] + [x];
      assert multiset(a[..n]) == multiset(a) - multiset{x};
      assert multiset(rest) == multiset(b) - multiset{x};
      TotalForPermutes(a[..n], rest, key, k, w);
      TotalForConcat(b[..j] + [x], b[j + 1..], key, k, w);
      TotalForConcat(b[..j], [x], key, k, w);
      TotalForConcat(b[..j], b[j + 1..], key, k, w);
      assert TotalFor([x], key, k, w) == if key(x) == k then w(x) else 0.0;
    }
  }
}
