/** Token buckets in exact arithmetic (libs/common/sovereign/ratelimit.py). */
module TokenBuckets {

  datatype Bucket = Bucket(tokens: real, updated: real)

  /** One call: its timestamp and its cost. */
  datatype Call = Call(now: real, cost: real)

  function Max(a: real, b: real): real { if a < b then b else a }

  function Min(a: real, b: real): real { if a < b then a else b }

  /** Tokens earned between two timestamps; a step back in time earns nothing. */
  function Earned(rate: real, from: real, to: real): real {
    Max(0.0, to - from) * rate
  }

  /** Refill by what was earned, up to the capacity, then try to take the cost. */
  function Take(capacity: real, b: Bucket, earned: real, c: Call): (Bucket, bool) {
    var tokens := Min(capacity, b.tokens + earned);
    if tokens >= c.cost then (Bucket(tokens - c.cost, c.now), true) else (Bucket(tokens, c.now), false)
  }

  function Allowed(capacity: real, rate: real, b: Bucket, c: Call): (Bucket, bool) {
    Take(capacity, b, Earned(rate, b.updated, c.now), c)
  }

  class TokenBucket {
    const capacity: real
    const rate: real
    var tokens: real
    var updated: real

    ghost function View(): Bucket
      reads this
    {
      Bucket(tokens, updated)
    }

    constructor (capacity: real, rate: real, now: real)
      ensures this.capacity == capacity && this.rate == rate && View() == Bucket(capacity, now)
    {
      this.capacity, this.rate := capacity, rate;
      tokens, updated := capacity, now;
    }

    method Allow(now: real, cost: real) returns (ok: bool)
      modifies this
      ensures (View(), ok) == Allowed(capacity, rate, old(View()), Call(now, cost))
    {
      var elapsed := Max(0.0, now - updated);
      assert elapsed * rate == Earned(rate, updated, now);
      tokens := Min(capacity, tokens + elapsed * rate);
      updated := now;
      if tokens >= cost {
        tokens := tokens - cost;
        return true;
      }
      return false;
    }
  }

  // ---------------------------------------------------------------- admission over a window

  function After(capacity: real, rate: real, b: Bucket, calls: seq<Call>): Bucket
    decreases |calls|
  {
    if calls == [] then b else After(capacity, rate, Allowed(capacity, rate, b, calls[0]).0, calls[1..])
  }

  /** Total cost admitted. */
  function Spent(capacity: real, rate: real, b: Bucket, calls: seq<Call>): real
    decreases |calls|
  {
    if calls == [] then 0.0
    else
      var (b', ok) := Allowed(capacity, rate, b, calls[0]);
      (if ok then calls[0].cost else 0.0) + Spent(capacity, rate, b', calls[1..])
  }

  /** Time gone forward since t, step by step; steps back count for nothing. */
  function Forward(t: real, calls: seq<Call>): real
    decreases |calls|
  {
    if calls == [] then 0.0 else Max(0.0, calls[0].now - t) + Forward(calls[0].now, calls[1..])
  }

  ghost predicate CostsOk(calls: seq<Call>) {
    forall i :: 0 <= i < |calls| ==> calls[i].cost >= 0.0
  }

  lemma MulAdds(rate: real, a: real, b: real)
    ensures (a + b) * rate == a * rate + b * rate
  {
  }

  lemma MulNonNegative(rate: real, a: real)
    requires rate >= 0.0 && a >= 0.0
    ensures a * rate >= 0.0
  {
  }

  /** What each call has earned since the one before. */
  function Earnings(rate: real, t: real, calls: seq<Call>): (es: seq<real>)
    ensures |es| == |calls|
    decreases |calls|
  {
    if calls == [] then [] else [Earned(rate, t, calls[0].now)] + Earnings(rate, calls[0].now, calls[1..])
  }

  function Sum(xs: seq<real>): real {
    if xs == [] then 0.0 else xs[0] + Sum(xs[1..])
  }

  function SpentWith(capacity: real, b: Bucket, calls: seq<Call>, earnings: seq<real>): real
    requires |earnings| == |calls|
    decreases |calls|
  {
    if calls == [] then 0.0
    else
      var (b', ok) := Take(capacity, b, earnings[0], calls[0]);
      (if ok then calls[0].cost else 0.0) + SpentWith(capacity, b', calls[1..], earnings[1..])
  }

  lemma {:induction false} SpentIsSpentWith(capacity: real, rate: real, b: Bucket, calls: seq<Call>)
    ensures Spent(capacity, rate, b, calls) == SpentWith(capacity, b, calls, Earnings(rate, b.updated, calls))
    decreases |calls|
  {
    if calls != [] {
      var (b', _) := Take(capacity, b, Earned(rate, b.updated, calls[0].now), calls[0]);
      SpentIsSpentWith(capacity, rate, b', calls[1..]);
      assert Earnings(rate, b.updated, calls)[1..] == Earnings(rate, calls[0].now, calls[1..]);
    }
  }

  lemma {:induction false} EarningsAddUp(rate: real, t: real, calls: seq<Call>)
    ensures Sum(Earnings(rate, t, calls)) == Forward(t, calls) * rate
    decreases |calls|
  {
    if calls != [] {
      EarningsAddUp(rate, calls[0].now, calls[1..]);
      assert Earnings(rate, t, calls)[1..] == Earnings(rate, calls[0].now, calls[1..]);
      MulAdds(rate, Max(0.0, calls[0].now - t), Forward(calls[0].now, calls[1..]));
    }
  }

  lemma {:induction false} EarningsNonNegative(rate: real, t: real, calls: seq<Call>)
    requires rate >= 0.0
    ensures forall i :: 0 <= i < |calls| ==> Earnings(rate, t, calls)[i] >= 0.0
    decreases |calls|
  {
    if calls != [] {
      EarningsNonNegative(rate, calls[0].now, calls[1..]);
      MulNonNegative(rate, Max(0.0, calls[0].now - t));
    }
  }

  lemma {:induction false} SpentIsCovered(capacity: real, b: Bucket, calls: seq<Call>, earnings: seq<real>)
    requires |earnings| == |calls| && CostsOk(calls)
    requires forall i :: 0 <= i < |earnings| ==> earnings[i] >= 0.0
    ensures SpentWith(capacity, b, calls, earnings) <= Max(0.0, b.tokens) + Sum(earnings)
    decreases |calls|
  {
    if calls != [] {
      var (b', _) := Take(capacity, b, earnings[0], calls[0]);
      SpentIsCovered(capacity, b', calls[1..], earnings[1..]);
    }
  }

  /** The first call of a window leaves at most the capacity, whatever came before. */
  lemma WindowIsCovered(capacity: real, b: Bucket, calls: seq<Call>, earnings: seq<real>)
    requires |earnings| == |calls| && CostsOk(calls) && calls != []
    requires forall i :: 0 <= i < |earnings| ==> earnings[i] >= 0.0
    ensures SpentWith(capacity, b, calls, earnings) <= Max(0.0, capacity) + Sum(earnings[1..])
  {
    var (b', _) := Take(capacity, b, earnings[0], calls[0]);
    SpentIsCovered(capacity, b', calls[1..], earnings[1..]);
  }

  lemma WindowSpent(capacity: real, rate: real, b: Bucket, window: seq<Call>)
    requires rate >= 0.0 && CostsOk(window) && window != []
    ensures Spent(capacity, rate, b, window) <= Max(0.0, capacity) + Sum(Earnings(rate, window[0].now, window[1..]))
  {
    var earnings := Earnings(rate, b.updated, window);
    SpentIsSpentWith(capacity, rate, b, window);
    EarningsNonNegative(rate, b.updated, window);
    assert earnings[1..] == Earnings(rate, window[0].now, window[1..]);
    WindowIsCovered(capacity, b, window, earnings);
  }

  /** Whatever came before, a window of calls is admitted for at most the capacity
      plus the rate times the forward time between its first and last call. */
  lemma WindowBound(capacity: real, rate: real, b: Bucket, window: seq<Call>)
    requires rate >= 0.0 && CostsOk(window) && window != []
    ensures Spent(capacity, rate, b, window) <= Max(0.0, capacity) + Forward(window[0].now, window[1..]) * rate
  {
    WindowSpent(capacity, rate, b, window);
    EarningsAddUp(rate, window[0].now, window[1..]);
  }

  ghost predicate Nondecreasing(calls: seq<Call>) {
    forall i, j :: 0 <= i < j < |calls| ==> calls[i].now <= calls[j].now
  }

  lemma {:induction false} ForwardTelescopes(t: real, calls: seq<Call>)
    requires Nondecreasing(calls) && (calls != [] ==> t <= calls[0].now)
    ensures Forward(t, calls) == if calls == [] then 0.0 else calls[|calls| - 1].now - t
    decreases |calls|
  {
    if calls != [] {
      ForwardTelescopes(calls[0].now, calls[1..]);
    }
  }

  /** Time between the first and the last call. */
  function Elapsed(window: seq<Call>): real
    requires window != []
  {
    window[|window| - 1].now - window[0].now
  }

  /** On a clock that does not run backwards: capacity + rate * (last - first). */
  lemma MonotoneWindowBound(capacity: real, rate: real, b: Bucket, window: seq<Call>)
    requires rate >= 0.0 && CostsOk(window) && window != [] && Nondecreasing(window)
    ensures Spent(capacity, rate, b, window) <= Max(0.0, capacity) + Elapsed(window) * rate
  {
    WindowBound(capacity, rate, b, window);
    ForwardTelescopes(window[0].now, window[1..]);
    SameProduct(Forward(window[0].now, window[1..]), Elapsed(window), rate);
  }

  lemma SameProduct(a: real, b: real, rate: real)
    requires a == b
    ensures a * rate == b * rate
  {
  }

  /** The bound is met: capacity calls at one instant are all admitted. */
  lemma {:induction false} BurstIsAdmitted(capacity: real, rate: real, now: real, n: nat, tokens: real)
    requires n as real <= tokens <= capacity
    ensures Spent(capacity, rate, Bucket(tokens, now), seq(n, i => Call(now, 1.0))) == n as real
    decreases n
  {
    var calls := seq(n, i => Call(now, 1.0));
    if n > 0 {
      assert calls[1..] == seq(n - 1, i => Call(now, 1.0));
      assert Earned(rate, now, now) == 0.0;
      BurstIsAdmitted(capacity, rate, now, n - 1, tokens - 1.0);
    }
  }

  // ---------------------------------------------------------------- a paced caller

  // ---------------------------------------------------------------- exactly which calls are admitted

  /** The cost admitted from call j on. */
  function SpentSince(capacity: real, rate: real, b: Bucket, calls: seq<Call>, j: nat): real
    requires j <= |calls|
  {
    Spent(capacity, rate, After(capacity, rate, b, calls[..j]), calls[j..])
  }

  /** What the calls and one more have earned since t. */
  function Gained(rate: real, t: real, calls: seq<Call>, c: Call): real {
    Sum(Earnings(rate, t, calls + [c]))
  }

  /** Since call j, the cost admitted and the cost asked fit into a full bucket and what
      has been earned since then. */
  predicate CoveredSince(capacity: real, rate: real, b: Bucket, calls: seq<Call>, c: Call, j: nat)
    requires j < |calls|
  {
    SpentSince(capacity, rate, b, calls, j) + c.cost <= capacity + Gained(rate, calls[j].now, calls[j + 1..], c)
  }

  /** Since the beginning they fit into what the bucket held and has earned. */
  predicate CoveredSinceStart(capacity: real, rate: real, b: Bucket, calls: seq<Call>, c: Call) {
    Spent(capacity, rate, b, calls) + c.cost <= b.tokens + Gained(rate, b.updated, calls, c)
  }

  lemma CoveredShift(capacity: real, rate: real, b: Bucket, calls: seq<Call>, c: Call, j: nat)
    requires 1 <= j < |calls|
    ensures CoveredSince(capacity, rate, b, calls, c, j)
            <==> CoveredSince(capacity, rate, Allowed(capacity, rate, b, calls[0]).0, calls[1..], c, j - 1)
  {
    var b' := Allowed(capacity, rate, b, calls[0]).0;
    assert calls[..j][1..] == calls[1..][..j - 1];
    assert calls[j..] == calls[1..][j - 1..];
    assert calls[j + 1..] == calls[1..][j..];
    assert After(capacity, rate, b, calls[..j]) == After(capacity, rate, b', calls[1..][..j - 1]);
  }

  lemma GainedFirst(rate: real, t: real, calls: seq<Call>, c: Call)
    requires calls != []
    ensures Gained(rate, t, calls, c) == Earned(rate, t, calls[0].now) + Gained(rate, calls[0].now, calls[1..], c)
  {
    assert (calls + [c])[1..] == calls[1..] + [c];
    var es := Earnings(rate, t, calls + [c]);
    assert es[0] == Earned(rate, t, calls[0].now) && es[1..] == Earnings(rate, calls[0].now, calls[1..] + [c]);
  }

  /** In a single step: what the bucket holds afterwards, against what it held. */
  lemma CoveredBoth(capacity: real, b: Bucket, earned: real, first: Call, asked: real, gained: real)
    ensures var (b', ok) := Take(capacity, b, earned, first);
            var paid := if ok then first.cost else 0.0;
            asked <= b'.tokens + gained <==>
            paid + asked <= b.tokens + (earned + gained) && paid + asked <= capacity + gained
  {
  }

  /** The two conditions that the first call brings in, as one on the bucket it leaves. */
  lemma FirstCallCovered(capacity: real, rate: real, b: Bucket, calls: seq<Call>, c: Call)
    requires calls != []
    ensures CoveredSinceStart(capacity, rate, Allowed(capacity, rate, b, calls[0]).0, calls[1..], c) <==>
            CoveredSinceStart(capacity, rate, b, calls, c) && CoveredSince(capacity, rate, b, calls, c, 0)
  {
    var earned := Earned(rate, b.updated, calls[0].now);
    var b' := Allowed(capacity, rate, b, calls[0]).0;
    var gained := Gained(rate, calls[0].now, calls[1..], c);
    assert calls[..0] == [] && calls[0..] == calls && calls[0 + 1..] == calls[1..];
    GainedFirst(rate, b.updated, calls, c);
    CoveredBoth(capacity, b, earned, calls[0], Spent(capacity, rate, b', calls[1..]) + c.cost, gained);
  }

  /** A call is admitted exactly when it is covered: its cost and all cost admitted since
      any earlier call stay within the capacity and the earnings since that call, and
      since the beginning within what the bucket held. Timestamps are arbitrary. */
  lemma {:induction false} AdmittedExactly(capacity: real, rate: real, b: Bucket, calls: seq<Call>, c: Call)
    ensures Allowed(capacity, rate, After(capacity, rate, b, calls), c).1 <==>
            && c.cost <= capacity
            && CoveredSinceStart(capacity, rate, b, calls, c)
            && forall j :: 0 <= j < |calls| ==> CoveredSince(capacity, rate, b, calls, c, j)
    decreases |calls|
  {
    if calls == [] {
      assert calls + [c] == [c] && [c][1..] == [];
      var es := Earnings(rate, b.updated, [c]);
      assert es == [Earned(rate, b.updated, c.now)] && Sum(es) == es[0] + Sum([]);
    } else {
      var b' := Allowed(capacity, rate, b, calls[0]).0;
      AdmittedExactly(capacity, rate, b', calls[1..], c);
      FirstCallCovered(capacity, rate, b, calls, c);
      var rest := calls[1..];
      forall j | 1 <= j < |calls|
        ensures CoveredSince(capacity, rate, b, calls, c, j) <==> CoveredSince(capacity, rate, b', rest, c, j - 1)
      {
        CoveredShift(capacity, rate, b, calls, c, j);
      }
      assert forall j :: 0 <= j < |rest| ==>
               (CoveredSince(capacity, rate, b', rest, c, j) <==> CoveredSince(capacity, rate, b, calls, c, j + 1));
    }
  }

  /** The earnings are the rate times the forward time, whatever the timestamps. */
  lemma GainedIsForwardTime(rate: real, t: real, calls: seq<Call>, c: Call)
    ensures Gained(rate, t, calls, c) == Forward(t, calls + [c]) * rate
  {
    EarningsAddUp(rate, t, calls + [c]);
  }

  /** On a clock that does not run backwards they are the rate times the time gone by. */
  lemma GainedOnMonotoneClock(rate: real, t: real, calls: seq<Call>, c: Call)
    requires Nondecreasing(calls + [c]) && t <= (calls + [c])[0].now
    ensures Gained(rate, t, calls, c) == (c.now - t) * rate
  {
    GainedIsForwardTime(rate, t, calls, c);
    ForwardTelescopes(t, calls + [c]);
    SameProduct(Forward(t, calls + [c]), c.now - t, rate);
  }

  /** A refused call costs nothing: on a clock that does not run backwards the next call
      finds what it would have found without it. */
  lemma RefusalsCostNothing(capacity: real, rate: real, b: Bucket, refused: Call, next: Call)
    requires rate >= 0.0 && b.updated <= refused.now <= next.now
    requires !Allowed(capacity, rate, b, refused).1
    ensures Allowed(capacity, rate, Allowed(capacity, rate, b, refused).0, next) == Allowed(capacity, rate, b, next)
  {
    MulAdds(rate, refused.now - b.updated, next.now - refused.now);
    MulNonNegative(rate, next.now - refused.now);
    assert next.now - b.updated == (refused.now - b.updated) + (next.now - refused.now);
  }

  ghost predicate PacedFrom(rate: real, t: real, calls: seq<Call>)
    requires rate > 0.0
    decreases |calls|
  {
    calls != [] ==> calls[0].cost == 1.0 && calls[0].now - t >= 1.0 / rate && PacedFrom(rate, calls[0].now, calls[1..])
  }

  lemma OneTokenPerGap(rate: real, gap: real)
    requires rate > 0.0 && gap >= 1.0 / rate
    ensures gap * rate >= 1.0
  {
    assert (1.0 / rate) * rate == 1.0;
    MulNonNegative(rate, gap - 1.0 / rate);
    MulAdds(rate, gap - 1.0 / rate, 1.0 / rate);
  }

  lemma {:induction false} PacedIsNeverRefused(capacity: real, rate: real, b: Bucket, calls: seq<Call>, k: nat)
    requires capacity >= 1.0 && rate > 0.0 && b.tokens >= 0.0 && PacedFrom(rate, b.updated, calls) && k < |calls|
    ensures Allowed(capacity, rate, After(capacity, rate, b, calls[..k]), calls[k]).1
    decreases k
  {
    OneTokenPerGap(rate, calls[0].now - b.updated);
    var (b', ok) := Allowed(capacity, rate, b, calls[0]);
    assert ok;
    if k > 0 {
      PacedIsNeverRefused(capacity, rate, b', calls[1..], k - 1);
      assert calls[..k][1..] == calls[1..][..k - 1];
    }
  }

  /** A caller spaced at least 1/rate apart, with room for one token, is never
      refused, from its very first call on. */
  lemma PacedCallerIsNeverRefused(capacity: real, rate: real, start: real, first: Call, calls: seq<Call>, k: nat)
    requires capacity >= 1.0 && rate > 0.0 && first.cost == 1.0 && PacedFrom(rate, first.now, calls) && k <= |calls|
    ensures var all := [first] + calls;
            Allowed(capacity, rate, After(capacity, rate, Bucket(capacity, start), all[..k]), all[k]).1
  {
    var all := [first] + calls;
    MulNonNegative(rate, Max(0.0, first.now - start));
    var (b', ok) := Allowed(capacity, rate, Bucket(capacity, start), first);
    assert ok && b'.tokens >= 0.0;
    if k > 0 {
      PacedIsNeverRefused(capacity, rate, b', calls, k - 1);
      assert all[..k][1..] == calls[..k - 1];
    }
  }
}
