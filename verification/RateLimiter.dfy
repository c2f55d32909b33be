/** The LRU-bounded collection of buckets, one per caller key
    (libs/common/sovereign/ratelimit.py). */
module RateLimiter {
  import opened Prelude
  import opened TokenBuckets

  const MAX_BUCKETS: nat := 10_000

  datatype Use = Use(key: string, now: real)

  /** Keys from least to most recently used, and the bucket of each. */
  datatype Lru = Lru(order: seq<string>, buckets: map<string, Bucket>)

  function Without(s: seq<string>, k: string): seq<string> {
    if s == [] then []
    else
      var n := |s| - 1;
      Without(s[..n], k) + if s[n] == k then [] else [s[n]]
  }

  function Touched(order: seq<string>, k: string): seq<string> {
    Without(order, k) + [k]
  }

  function Answered(rps: real, burst: real, st: Lru, u: Use): (Lru, bool) {
    if rps <= 0.0 then (st, true)
    else
      var bucket := if u.key in st.buckets then st.buckets[u.key] else Bucket(burst, u.now);
      var (bucket', ok) := Allowed(burst, rps, bucket, Call(u.now, 1.0));
      var order := Touched(st.order, u.key);
      var buckets := st.buckets[u.key := bucket'];
      if |order| > MAX_BUCKETS then (Lru(order[1..], buckets - {order[0]}), ok) else (Lru(order, buckets), ok)
  }

  function Served(rps: real, burst: real, history: seq<Use>): Lru {
    if history == [] then Lru([], map[])
    else Answered(rps, burst, Served(rps, burst, history[..|history| - 1]), history[|history| - 1]).0
  }

  lemma DistinctTail(s: seq<string>)
    requires Distinct(s) && s != []
    ensures Distinct(s[1..]) && forall k :: k in s[1..] <==> k in s && k != s[0]
  {
    assert s == [s[0]] + s[1..];
  }

  lemma {:induction false} WithoutKeepsOthers(s: seq<string>, k: string)
    ensures forall x :: x in Without(s, k) <==> x in s && x != k
    ensures k !in s ==> Without(s, k) == s
    ensures |Without(s, k)| <= |s|
  {
    if s != [] {
      var n := |s| - 1;
      WithoutKeepsOthers(s[..n], k);
      assert s == s[..n] + [s[n]];
    }
  }

  lemma {:induction false} WithoutDistinct(s: seq<string>, k: string)
    requires Distinct(s)
    ensures Distinct(Without(s, k)) && |Without(s, k)| == if k in s then |s| - 1 else |s|
  {
    if s != [] {
      var n := |s| - 1;
      var front := s[..n];
      assert s == front + [s[n]];
      WithoutKeepsOthers(front, k);
      if s[n] == k {
        assert k !in front;
        assert Without(s, k) == front;
      } else {
        WithoutDistinct(front, k);
        assert s[n] !in front;
        assert k in s <==> k in front;
        assert s[n] !in Without(front, k);
      }
    }
  }

  lemma {:induction false} WithoutConcat(a: seq<string>, b: seq<string>, k: string)
    ensures Without(a + b, k) == Without(a, k) + Without(b, k)
    decreases |b|
  {
    if b == [] {
      assert a + b == a;
    } else {
      var n := |b| - 1;
      assert (a + b)[..|a + b| - 1] == a + b[..n];
      WithoutConcat(a, b[..n], k);
    }
  }

  lemma TouchedKeeps(order: seq<string>, k: string)
    requires Distinct(order)
    ensures Distinct(Touched(order, k))
    ensures forall x :: x in Touched(order, k) <==> x in order || x == k
    ensures |Touched(order, k)| == if k in order then |order| else |order| + 1
  {
    WithoutDistinct(order, k);
    WithoutKeepsOthers(order, k);
  }

  // ---------------------------------------------------------------- the class

  class Limiter {
    const rps: real
    const burst: real
    var order: seq<string>
    var buckets: map<string, TokenBucket>

    ghost predicate Valid()
      reads this, buckets.Values
    {
      && Distinct(order)
      && (forall k :: k in order <==> k in buckets)
      && |order| <= MAX_BUCKETS
      && (forall k :: k in buckets ==> buckets[k].capacity == burst && buckets[k].rate == rps)
      && (forall k, l :: k in buckets && l in buckets && k != l ==> buckets[k] != buckets[l])
    }

    ghost function View(): Lru
      reads this, buckets.Values
    {
      Lru(order, map k | k in buckets :: buckets[k].View())
    }

    constructor (rps: real, burst: real)
      ensures Valid() && View() == Lru([], map[]) && this.rps == rps && this.burst == burst
    {
      this.rps, this.burst := rps, burst;
      order, buckets := [], map[];
    }

    /** Valid but for the bound on the number of buckets. */
    ghost predicate Linked()
      reads this, buckets.Values
    {
      && Distinct(order)
      && (forall k :: k in order <==> k in buckets)
      && (forall k :: k in buckets ==> buckets[k].capacity == burst && buckets[k].rate == rps)
      && (forall k, l :: k in buckets && l in buckets && k != l ==> buckets[k] != buckets[l])
    }

    /** The bucket of a key, created if absent, now the most recently used. */
    method Fetch(key: string, now: real) returns (bucket: TokenBucket)
      requires Linked()
      modifies this
      ensures Linked() && key in buckets && buckets[key] == bucket
      ensures order == Touched(old(order), key)
      ensures buckets.Values <= old(buckets.Values) + {bucket}
      ensures bucket in old(buckets.Values) || fresh(bucket)
      ensures View().buckets == if key in old(buckets) then old(View()).buckets
              else old(View()).buckets[key := Bucket(burst, now)]
    {
      TouchedKeeps(order, key);
      if key !in buckets {
        bucket := new TokenBucket(burst, rps, now);
        buckets := buckets[key := bucket];
      } else {
        bucket := buckets[key];
      }
      order := Touched(order, key);
    }

    method Spend(key: string, now: real) returns (ok: bool)
      requires Linked() && key in buckets
      modifies buckets[key]
      ensures Linked()
      ensures var (after, answer) := Allowed(burst, rps, old(View()).buckets[key], Call(now, 1.0));
              View().buckets == old(View()).buckets[key := after] && ok == answer
    {
      ok := buckets[key].Allow(now, 1.0);
    }

    method Draw(key: string, now: real) returns (ok: bool)
      requires Linked()
      modifies this, buckets.Values
      ensures Linked()
      ensures var was := old(View());
              var start := if key in was.buckets then was.buckets[key] else Bucket(burst, now);
              var (after, answer) := Allowed(burst, rps, start, Call(now, 1.0));
              View() == Lru(Touched(was.order, key), was.buckets[key := after]) && ok == answer
    {
      ghost var was := View();
      var bucket := Fetch(key, now);
      ghost var fetched := View().buckets;
      ok := Spend(key, now);
      ghost var after := View().buckets[key];
      assert fetched[key := after] == was.buckets[key := after];
    }

    method Evict()
      requires Linked() && |order| <= MAX_BUCKETS + 1
      modifies this
      ensures Valid()
      ensures View() == if |old(order)| > MAX_BUCKETS then Lru(old(order)[1..], old(View()).buckets - {old(order)[0]})
              else old(View())
    {
      if |order| > MAX_BUCKETS {
        DistinctTail(order);
        buckets := buckets - {order[0]};
        order := order[1..];
      }
    }

    method Allow(key: string, now: real) returns (ok: bool)
      requires Valid()
      modifies this, buckets.Values
      ensures Valid() && (View(), ok) == Answered(rps, burst, old(View()), Use(key, now))
    {
      if rps <= 0.0 {
        return true;
      }
      TouchedKeeps(order, key);
      ok := Draw(key, now);
      Evict();
    }
  }

  // ---------------------------------------------------------------- which keys are resident

  predicate Used(history: seq<Use>, k: string) {
    exists i :: 0 <= i < |history| && history[i].key == k
  }

  lemma UsedSnoc(history: seq<Use>, k: string)
    requires history != []
    ensures Used(history, k) <==> Used(history[..|history| - 1], k) || history[|history| - 1].key == k
  {
    var n := |history| - 1;
    assert forall i :: 0 <= i < n ==> history[..n][i] == history[i];
  }

  /** The other keys used since the last use of k. */
  function OthersSince(history: seq<Use>, k: string): set<string> {
    if history == [] then {}
    else
      var n := |history| - 1;
      if history[n].key == k then {} else OthersSince(history[..n], k) + {history[n].key}
  }

  /** Every key ever used, by last use. */
  function Recency(history: seq<Use>): seq<string> {
    if history == [] then [] else Touched(Recency(history[..|history| - 1]), history[|history| - 1].key)
  }

  function Newest(s: seq<string>): seq<string> {
    if |s| <= MAX_BUCKETS then s else s[|s| - MAX_BUCKETS..]
  }

  lemma {:induction false} RecencyKeys(history: seq<Use>)
    ensures Distinct(Recency(history))
    ensures forall k :: k in Recency(history) <==> Used(history, k)
  {
    if history != [] {
      var n := |history| - 1;
      RecencyKeys(history[..n]);
      TouchedKeeps(Recency(history[..n]), history[n].key);
      forall k ensures Used(history, k) <==> Used(history[..n], k) || history[n].key == k {
        UsedSnoc(history, k);
      }
    }
  }

  /** Touching and evicting the newest part of an order is the newest part of the
      whole order touched. */
  lemma EvictionKeepsNewest(all: seq<string>, k: string)
    requires Distinct(all)
    ensures var t := Touched(Newest(all), k);
            Newest(Touched(all, k)) == if |t| > MAX_BUCKETS then t[1..] else t
  {
    var kept := Newest(all);
    var older := all[..|all| - |kept|];
    assert all == older + kept;
    TouchedConcat(older, kept, k);
    TouchedKeeps(kept, k);
    NewestOfConcat(Without(older, k), Touched(kept, k));
    if older == [] {
      assert Without(older, k) == [];
      assert Touched(all, k) == Touched(kept, k);
    }
  }

  lemma TouchedConcat(a: seq<string>, b: seq<string>, k: string)
    ensures Touched(a + b, k) == Without(a, k) + Touched(b, k)
  {
    WithoutConcat(a, b, k);
  }

  lemma NewestOfConcat(a: seq<string>, b: seq<string>)
    ensures |b| == MAX_BUCKETS ==> Newest(a + b) == b
    ensures |b| == MAX_BUCKETS + 1 ==> Newest(a + b) == b[1..]
  {
  }

  /** The limiter holds exactly the newest MAX_BUCKETS keys, in order of last use. */
  lemma {:induction false} OrderIsRecency(rps: real, burst: real, history: seq<Use>)
    requires rps > 0.0
    ensures var st := Served(rps, burst, history);
            && st.order == Newest(Recency(history))
            && (forall k :: k in st.buckets <==> k in st.order)
  {
    if history != [] {
      var n := |history| - 1;
      var before := Served(rps, burst, history[..n]);
      OrderIsRecency(rps, burst, history[..n]);
      RecencyKeys(history[..n]);
      EvictionKeepsNewest(Recency(history[..n]), history[n].key);
      AnsweredKeys(rps, burst, before, history[n]);
    }
  }

  lemma AnsweredKeys(rps: real, burst: real, st: Lru, u: Use)
    requires rps > 0.0 && Distinct(st.order) && forall k :: k in st.buckets <==> k in st.order
    ensures var st' := Answered(rps, burst, st, u).0;
            var t := Touched(st.order, u.key);
            && st'.order == (if |t| > MAX_BUCKETS then t[1..] else t)
            && (forall k :: k in st'.buckets <==> k in st'.order)
  {
    TouchedKeeps(st.order, u.key);
    var t := Touched(st.order, u.key);
    if |t| > MAX_BUCKETS {
      DistinctTail(t);
    }
  }

  lemma TouchedSplit(front: seq<string>, k: string, back: seq<string>, x: string)
    requires x != k
    ensures Touched(front + [k] + back, x) == Without(front, x) + [k] + (Without(back, x) + [x])
    ensures SetOf(Without(back, x) + [x]) == SetOf(back) + {x}
  {
    WithoutConcat(front + [k], back, x);
    WithoutConcat(front, [k], x);
    WithoutKeepsOthers([k], x);
    WithoutKeepsOthers(back, x);
  }

  /** Where a key stands: the keys behind it are those used since. */
  lemma {:induction false} RecencyPosition(history: seq<Use>, k: string) returns (front: seq<string>, back: seq<string>)
    requires Used(history, k)
    ensures Recency(history) == front + [k] + back && SetOf(back) == OthersSince(history, k)
    decreases |history|
  {
    var n := |history| - 1;
    var x := history[n].key;
    if x == k {
      front, back := Without(Recency(history[..n]), k), [];
      assert front + [k] + back == front + [k];
    } else {
      UsedSnoc(history, k);
      front, back := RecencyPosition(history[..n], k);
      TouchedSplit(front, k, back, x);
      front, back := Without(front, x), Without(back, x) + [x];
    }
  }

  /** A key has a bucket exactly when it was used and fewer than MAX_BUCKETS other
      distinct keys have been used since. */
  lemma ResidentExactly(rps: real, burst: real, history: seq<Use>, k: string)
    requires rps > 0.0
    ensures k in Served(rps, burst, history).buckets <==> Used(history, k) && |OthersSince(history, k)| < 10_000
    ensures |Served(rps, burst, history).order| <= 10_000
  {
    OrderIsRecency(rps, burst, history);
    RecencyKeys(history);
    var all := Recency(history);
    var kept := Newest(all);
    assert kept == all[|all| - |kept|..];
    if Used(history, k) {
      var front, back := RecencyPosition(history, k);
      assert all[|front|] == k;
      assert back == all[|front| + 1..];
      DistinctSize(back);
      assert |all| == |front| + 1 + |back|;
      if |back| < MAX_BUCKETS {
        assert kept[|front| - (|all| - |kept|)] == k;
      }
    }
  }

  // ---------------------------------------------------------------- agreement with private buckets

  /** The bucket k would have if it were never evicted. */
  function Private(rps: real, burst: real, history: seq<Use>, k: string): Option<Bucket> {
    if history == [] then None
    else
      var n := |history| - 1;
      var before := Private(rps, burst, history[..n], k);
      if history[n].key == k then Some(PrivateAllowed(rps, burst, before, history[n].now).0) else before
  }

  function PrivateAllowed(rps: real, burst: real, bucket: Option<Bucket>, now: real): (Bucket, bool) {
    Allowed(burst, rps, if bucket.Some? then bucket.value else Bucket(burst, now), Call(now, 1.0))
  }

  /** The calls made under key k, each of cost one. */
  function OwnCalls(history: seq<Use>, k: string): seq<Call> {
    if history == [] then []
    else
      var n := |history| - 1;
      OwnCalls(history[..n], k) + if history[n].key == k then [Call(history[n].now, 1.0)] else []
  }

  lemma {:induction false} AfterSnoc(capacity: real, rate: real, b: Bucket, calls: seq<Call>, c: Call)
    ensures After(capacity, rate, b, calls + [c]) == Allowed(capacity, rate, After(capacity, rate, b, calls), c).0
    decreases |calls|
  {
    if calls == [] {
      assert calls + [c] == [c] && [c][1..] == [];
    } else {
      assert (calls + [c])[1..] == calls[1..] + [c];
      AfterSnoc(capacity, rate, Allowed(capacity, rate, b, calls[0]).0, calls[1..], c);
    }
  }

  /** The private bucket starts full at the key's first call and sees exactly its calls. */
  lemma {:induction false} PrivateIsOwnCalls(rps: real, burst: real, history: seq<Use>, k: string)
    ensures var calls := OwnCalls(history, k);
            Private(rps, burst, history, k)
            == if calls == [] then None else Some(After(burst, rps, Bucket(burst, calls[0].now), calls))
    decreases |history|
  {
    if history != [] {
      var n := |history| - 1;
      PrivateIsOwnCalls(rps, burst, history[..n], k);
      var before := OwnCalls(history[..n], k);
      if history[n].key == k {
        var c := Call(history[n].now, 1.0);
        AfterSnoc(burst, rps, Bucket(burst, (before + [c])[0].now), before, c);
      } else {
        assert OwnCalls(history, k) == before;
      }
    }
  }

  /** A limiter without a positive rate admits every call and keeps no bucket. */
  lemma {:induction false} DisabledAdmitsAll(rps: real, burst: real, history: seq<Use>, u: Use)
    requires rps <= 0.0
    ensures Served(rps, burst, history) == Lru([], map[]) && Answered(rps, burst, Served(rps, burst, history), u).1
    decreases |history|
  {
    if history != [] {
      DisabledAdmitsAll(rps, burst, history[..|history| - 1], history[|history| - 1]);
    }
  }

  /** Between consecutive uses of k, fewer than MAX_BUCKETS other keys were used. */
  ghost predicate KeptBusy(history: seq<Use>, k: string) {
    forall i :: 0 <= i < |history| && history[i].key == k && Used(history[..i], k) ==>
      |OthersSince(history[..i], k)| < MAX_BUCKETS
  }

  lemma KeptBusyPrefix(history: seq<Use>, k: string)
    requires KeptBusy(history, k) && history != []
    ensures KeptBusy(history[..|history| - 1], k)
  {
    var n := |history| - 1;
    forall i | 0 <= i < n && history[..n][i].key == k && Used(history[..n][..i], k)
      ensures |OthersSince(history[..n][..i], k)| < MAX_BUCKETS
    {
      assert history[..n][..i] == history[..i];
      assert history[i].key == k;
    }
  }

  lemma {:induction false} PrivateIfUsed(rps: real, burst: real, history: seq<Use>, k: string)
    ensures Private(rps, burst, history, k).Some? <==> Used(history, k)
  {
    if history != [] {
      var n := |history| - 1;
      PrivateIfUsed(rps, burst, history[..n], k);
      UsedSnoc(history, k);
    }
  }

  /** While k is kept busy its bucket, when present, is its private one. */
  lemma {:induction false} BucketIsPrivate(rps: real, burst: real, history: seq<Use>, k: string)
    requires rps > 0.0 && KeptBusy(history, k) && k in Served(rps, burst, history).buckets
    ensures Private(rps, burst, history, k) == Some(Served(rps, burst, history).buckets[k])
    decreases |history|
  {
    var n := |history| - 1;
    var before := Served(rps, burst, history[..n]);
    KeptBusyPrefix(history, k);
    if history[n].key == k {
      ResidentExactly(rps, burst, history[..n], k);
      PrivateIfUsed(rps, burst, history[..n], k);
      assert k in before.buckets <==> Used(history[..n], k);
    }
    if k in before.buckets {
      BucketIsPrivate(rps, burst, history[..n], k);
    }
  }

  /** The bounded limiter answers a busy key exactly as a private, never-evicted
      bucket would. */
  lemma AgreesWithPrivateBucket(rps: real, burst: real, history: seq<Use>, u: Use)
    requires rps > 0.0 && KeptBusy(history + [u], u.key)
    ensures var calls := OwnCalls(history, u.key);
            var start := if calls == [] then u.now else calls[0].now;
            Answered(rps, burst, Served(rps, burst, history), u).1
            == Allowed(burst, rps, After(burst, rps, Bucket(burst, start), calls), Call(u.now, 1.0)).1
  {
    PrivateIsOwnCalls(rps, burst, history, u.key);
    var all := history + [u];
    var n := |history|;
    assert all[..n] == history && all[n] == u;
    KeptBusyPrefix(all, u.key);
    ResidentExactly(rps, burst, history, u.key);
    PrivateIfUsed(rps, burst, history, u.key);
    assert Used(history, u.key) ==> |OthersSince(all[..n], u.key)| < MAX_BUCKETS;
    if u.key in Served(rps, burst, history).buckets {
      BucketIsPrivate(rps, burst, history, u.key);
    }
  }

  /** After every call: at most MAX_BUCKETS buckets, and the caller's is one of them. */
  lemma JustUsedIsResident(rps: real, burst: real, history: seq<Use>, u: Use)
    requires rps > 0.0
    ensures var st := Served(rps, burst, history + [u]);
            |st.order| <= MAX_BUCKETS && u.key in st.buckets
  {
    var all := history + [u];
    assert all[|history|].key == u.key;
    ResidentExactly(rps, burst, all, u.key);
  }
}
