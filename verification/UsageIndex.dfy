/** The metering table: records under sortable keys, queried by key range
    (libs/common/sovereign/usage_store.py). */
module UsageIndex {
  import opened Prelude
  import opened Lex

  /** A calendar timestamp; all timestamps of a table share one UTC offset. */
  datatype Timestamp = Timestamp(year: nat, month: nat, day: nat, hour: nat, minute: nat, second: nat, micro: nat)

  predicate ValidTime(t: Timestamp) {
    t.year < 10000 && t.month < 100 && t.day < 100 && t.hour < 100 && t.minute < 100 && t.second < 100 &&
      t.micro < 1_000_000
  }

  // ---------------------------------------------------------------- isoformat

  /** One fixed-width number and the text behind it. */
  datatype Field = Field(value: nat, width: nat, after: string)

  function Fields(t: Timestamp): seq<Field> {
    [Field(t.year, 4, "-"), Field(t.month, 2, "-"), Field(t.day, 2, "T"),
     Field(t.hour, 2, ":"), Field(t.minute, 2, ":"), Field(t.second, 2, "")]
  }

  /** The fields one after the other, then the tail. */
  function PrintFields(fs: seq<Field>, tail: string): string
    decreases |fs|
  {
    if fs == [] then tail else Digits(fs[0].value, fs[0].width) + (fs[0].after + PrintFields(fs[1..], tail))
  }

  /** Zero or six fractional digits. */
  function Fraction(micro: nat): string {
    if micro == 0 then [] else "." + Digits(micro, 6)
  }

  function IsoFormat(t: Timestamp, offset: string): string {
    PrintFields(Fields(t), Fraction(t.micro) + offset)
  }

  predicate ValidOffset(offset: string) {
    offset != [] && (offset[0] == '+' || offset[0] == '-')
  }

  // ---------------------------------------------------------------- order

  predicate FieldsLt(a: seq<Field>, b: seq<Field>)
    requires |a| == |b|
    decreases |a|
  {
    a != [] && (a[0].value < b[0].value || (a[0].value == b[0].value && FieldsLt(a[1..], b[1..])))
  }

  /** a is earlier than b: the first component in which they differ decides. */
  predicate Before(a: Timestamp, b: Timestamp) {
    if a.year != b.year then a.year < b.year
    else if a.month != b.month then a.month < b.month
    else if a.day != b.day then a.day < b.day
    else if a.hour != b.hour then a.hour < b.hour
    else if a.minute != b.minute then a.minute < b.minute
    else if a.second != b.second then a.second < b.second
    else a.micro < b.micro
  }

  /** The order of the printed fields, unfolded. */
  lemma FieldsLtUnfolds(a: Timestamp, b: Timestamp)
    ensures Before(a, b) <==> FieldsLt(Fields(a), Fields(b)) || (Fields(a) == Fields(b) && a.micro < b.micro)
  {
    var f, g := Fields(a), Fields(b);
    SameFields(a, b);
    ClockLtUnfolds(a, b);
    assert f[1..][1..] == f[2..] && f[2..][1..] == f[3..];
    assert g[1..][1..] == g[2..] && g[2..][1..] == g[3..];
    assert FieldsLt(f[2..], g[2..]) <==> a.day < b.day || (a.day == b.day && FieldsLt(f[3..], g[3..]));
    assert FieldsLt(f[1..], g[1..]) <==> a.month < b.month || (a.month == b.month && FieldsLt(f[2..], g[2..]));
  }

  lemma ClockLtUnfolds(a: Timestamp, b: Timestamp)
    ensures FieldsLt(Fields(a)[3..], Fields(b)[3..]) <==>
            || a.hour < b.hour
            || (a.hour == b.hour && (a.minute < b.minute || (a.minute == b.minute && a.second < b.second)))
  {
    var f, g := Fields(a)[3..], Fields(b)[3..];
    assert f[1..][1..] == f[2..] && g[1..][1..] == g[2..];
    assert f[2..][1..] == [] && g[2..][1..] == [];
    assert FieldsLt(f[2..], g[2..]) <==> a.second < b.second;
  }

  ghost predicate SameShape(a: seq<Field>, b: seq<Field>) {
    |a| == |b| && forall i :: 0 <= i < |a| ==>
      a[i].width == b[i].width && a[i].after == b[i].after && a[i].value < Pow10(a[i].width) &&
        b[i].value < Pow10(b[i].width)
  }

  lemma OneField(p: string, q: string, sep: string, x: string, y: string)
    requires |p| == |q|
    ensures LexLt(p + (sep + x), q + (sep + y)) <==> LexLt(p, q) || (p == q && LexLt(x, y))
  {
    LexConcat(sep, sep, x, y);
    LexIrreflexive(sep);
    LexConcat(p, q, sep + x, sep + y);
  }

  lemma {:induction false} PrintFieldsAppend(fs: seq<Field>, tail: string, p: string)
    ensures PrintFields(fs, tail) + p == PrintFields(fs, tail + p)
    decreases |fs|
  {
    if fs != [] {
      PrintFieldsAppend(fs[1..], tail, p);
      Reassociate(Digits(fs[0].value, fs[0].width), fs[0].after, PrintFields(fs[1..], tail), p);
    }
  }

  lemma Reassociate(a: string, b: string, c: string, d: string)
    ensures a + (b + c) + d == a + (b + (c + d))
  {
  }

  lemma {:induction false} FieldsOrder(a: seq<Field>, b: seq<Field>, x: string, y: string)
    requires SameShape(a, b)
    ensures LexLt(PrintFields(a, x), PrintFields(b, y)) <==> FieldsLt(a, b) || (a == b && LexLt(x, y))
    decreases |a|
  {
    if a != [] {
      DigitsOrder(a[0].value, b[0].value, a[0].width);
      OneField(Digits(a[0].value, a[0].width), Digits(b[0].value, b[0].width), a[0].after,
               PrintFields(a[1..], x), PrintFields(b[1..], y));
      FieldsOrder(a[1..], b[1..], x, y);
      assert a == b <==> a[0] == b[0] && a[1..] == b[1..] by {
        assert a == [a[0]] + a[1..] && b == [b[0]] + b[1..];
      }
    }
  }

  lemma Widths()
    ensures Pow10(4) == 10000 && Pow10(2) == 100 && Pow10(6) == 1_000_000
  {
    assert Pow10(1) == 10;
    assert Pow10(3) == 1000;
    assert Pow10(5) == 100000;
  }

  lemma BothFractions(m: nat, n: nat, x: string, y: string)
    requires 0 < m < 1_000_000 && 0 < n < 1_000_000
    ensures LexLt(Fraction(m) + x, Fraction(n) + y) <==> m < n || (m == n && LexLt(x, y))
  {
    Widths();
    DigitsOrder(m, n, 6);
    LexConcat(".", ".", Digits(m, 6), Digits(n, 6));
    LexConcat(Fraction(m), Fraction(n), x, y);
    assert Fraction(m)[1..] == Digits(m, 6) && Fraction(n)[1..] == Digits(n, 6);
  }

  /** The varying fraction does no harm: the offset's sign sorts before the point. */
  lemma FractionOrder(m: nat, n: nat, offset: string, p: string, q: string)
    requires m < 1_000_000 && n < 1_000_000 && ValidOffset(offset)
    ensures LexLt(Fraction(m) + (offset + p), Fraction(n) + (offset + q)) <==> m < n || (m == n && LexLt(p, q))
  {
    if m > 0 && n > 0 {
      BothFractions(m, n, offset + p, offset + q);
      LexConcat(offset, offset, p, q);
      LexIrreflexive(offset);
    } else if m == n {
      assert Fraction(m) + (offset + p) == offset + p && Fraction(n) + (offset + q) == offset + q;
      LexConcat(offset, offset, p, q);
      LexIrreflexive(offset);
    } else {
      assert m == 0 ==> Fraction(m) + (offset + p) == offset + p;
      assert n == 0 ==> Fraction(n) + (offset + q) == offset + q;
    }
  }

  lemma ShapesMatch(a: Timestamp, b: Timestamp)
    requires ValidTime(a) && ValidTime(b)
    ensures SameShape(Fields(a), Fields(b))
  {
    Widths();
  }

  lemma SameFields(a: Timestamp, b: Timestamp)
    ensures Fields(a) == Fields(b) <==>
            && a.year == b.year && a.month == b.month && a.day == b.day
            && a.hour == b.hour && a.minute == b.minute && a.second == b.second
  {
    if Fields(a) == Fields(b) {
      assert Fields(a)[0] == Fields(b)[0] && Fields(a)[1] == Fields(b)[1] && Fields(a)[2] == Fields(b)[2];
      assert Fields(a)[3] == Fields(b)[3] && Fields(a)[4] == Fields(b)[4] && Fields(a)[5] == Fields(b)[5];
    }
  }

  /** Printed timestamps, whatever follows them, sort by time and then by what follows. */
  lemma KeyOrder(a: Timestamp, b: Timestamp, offset: string, p: string, q: string)
    requires ValidTime(a) && ValidTime(b) && ValidOffset(offset)
    ensures LexLt(IsoFormat(a, offset) + p, IsoFormat(b, offset) + q) <==> Before(a, b) || (a == b && LexLt(p, q))
  {
    ShapesMatch(a, b);
    SameFields(a, b);
    FieldsLtUnfolds(a, b);
    FractionOrder(a.micro, b.micro, offset, p, q);
    FieldsOrder(Fields(a), Fields(b), Fraction(a.micro) + (offset + p), Fraction(b.micro) + (offset + q));
    IsoAppend(a, offset, p);
    IsoAppend(b, offset, q);
  }

  lemma IsoAppend(t: Timestamp, offset: string, p: string)
    ensures IsoFormat(t, offset) + p == PrintFields(Fields(t), Fraction(t.micro) + (offset + p))
  {
    PrintFieldsAppend(Fields(t), Fraction(t.micro) + offset, p);
    assert Fraction(t.micro) + offset + p == Fraction(t.micro) + (offset + p);
  }

  /** The text of isoformat, piece by piece. */
  lemma IsoText(t: Timestamp, offset: string)
    ensures IsoFormat(t, offset)
            == Digits(t.year, 4) + ("-" + (Digits(t.month, 2) +
                                           ("-" + (Digits(t.day, 2) + ("T" + ClockText(t, offset))))))
  {
    var fs, tail := Fields(t), Fraction(t.micro) + offset;
    ClockPrinted(t, offset);
    assert fs[2..][1..] == fs[3..] && fs[1..][1..] == fs[2..];
    var day := Digits(t.day, 2) + ("T" + ClockText(t, offset));
    assert PrintFields(fs[2..], tail) == day;
    assert PrintFields(fs[1..], tail) == Digits(t.month, 2) + ("-" + day);
  }

  /** The part behind the T: HH:MM:SS, six digits if there are microseconds, the offset. */
  function ClockText(t: Timestamp, offset: string): string {
    Digits(t.hour, 2) +
    (":" + (Digits(t.minute, 2) +
            (":" + (Digits(t.second, 2) + ((if t.micro == 0 then "" else "." + Digits(t.micro, 6)) + offset)))))
  }

  lemma ClockPrinted(t: Timestamp, offset: string)
    ensures PrintFields(Fields(t)[3..], Fraction(t.micro) + offset) == ClockText(t, offset)
  {
    var fs, tail := Fields(t), Fraction(t.micro) + offset;
    assert fs[3..][1..] == fs[4..] && fs[4..][1..] == fs[5..] && fs[5..][1..] == [];
    assert PrintFields(fs[5..], tail) == Digits(t.second, 2) + tail by {
      assert "" + tail == tail;
    }
  }

  lemma Peel(piece: string, sep: string, rest: string)
    requires |sep| == 1
    ensures var s := piece + (sep + rest);
            s[..|piece|] == piece && s[|piece|] == sep[0] && s[|piece| + 1..] == rest
  {
  }

  /** Year, month and day stand at positions 0-3, 5-6 and 8-9, the clock behind the T. */
  lemma IsoLayout(t: Timestamp, offset: string)
    ensures var s := IsoFormat(t, offset);
            && |s| >= 11
            && s[..4] == Digits(t.year, 4) && s[4] == '-'
            && s[5..][..2] == Digits(t.month, 2) && s[7] == '-'
            && s[8..][..2] == Digits(t.day, 2) && s[10] == 'T'
            && s[11..] == ClockText(t, offset)
  {
    IsoText(t, offset);
    var s := IsoFormat(t, offset);
    var day := Digits(t.day, 2) + ("T" + ClockText(t, offset));
    var month := Digits(t.month, 2) + ("-" + day);
    Peel(Digits(t.year, 4), "-", month);
    Peel(Digits(t.month, 2), "-", day);
    Peel(Digits(t.day, 2), "T", ClockText(t, offset));
    assert s[5..] == month;
    assert s[8..] == month[3..] == day && s[7] == month[2];
    assert s[11..] == day[3..] && s[10] == day[2];
  }

  // ---------------------------------------------------------------- the table

  datatype Usage = Usage(ts: Timestamp, tenantId: string, resourceId: string, resourceType: string, quantity: real,
                         unit: string, metadata: map<string, string>)

  /** Records by tenant and sort key. */
  type Table = map<(string, string), Usage>

  function EventId(u: Usage, offset: string, suffix: string): string {
    IsoFormat(u.ts, offset) + ("#" + u.resourceId + "#" + suffix)
  }

  /** Two records share a key only if they agree on time, resource and suffix: with
      suffixes of one length a new record overwrites no other. */
  lemma KeysCollideOnlyIfSame(u: Usage, p: string, v: Usage, q: string, offset: string)
    requires ValidTime(u.ts) && ValidTime(v.ts) && ValidOffset(offset) && |p| == |q|
    ensures EventId(u, offset, p) == EventId(v, offset, q) <==> u.ts == v.ts && u.resourceId == v.resourceId && p == q
  {
    var x, y := "#" + u.resourceId + "#" + p, "#" + v.resourceId + "#" + q;
    if EventId(u, offset, p) == EventId(v, offset, q) {
      KeyOrder(u.ts, v.ts, offset, x, y);
      KeyOrder(v.ts, u.ts, offset, y, x);
      LexIrreflexive(EventId(u, offset, p));
      BeforeTotal(u.ts, v.ts);
      SameTail(IsoFormat(u.ts, offset), x, y);
      assert x[1..|u.resourceId| + 1] == u.resourceId && y[1..|v.resourceId| + 1] == v.resourceId;
      assert x[|u.resourceId| + 2..] == p && y[|v.resourceId| + 2..] == q;
    }
  }

  lemma SameTail(a: string, x: string, y: string)
    requires a + x == a + y
    ensures x == y
  {
    assert (a + x)[|a|..] == x && (a + y)[|a|..] == y;
  }

  /** Every record sits under a key made from it. */
  ghost predicate TableOk(table: Table, offset: string) {
    forall k :: k in table ==>
      && ValidTime(table[k].ts) && table[k].tenantId == k.0
      && exists suffix :: k.1 == EventId(table[k], offset, suffix)
  }

  /** The four key conditions, one per combination of bounds. The closed upper end
      of BETWEEN and the open one of the last form make no difference. */
  predicate KeyInRange(key: string, since: Option<Timestamp>, until: Option<Timestamp>, offset: string) {
    if since.Some? && until.Some? then
      LexLe(IsoFormat(since.value, offset), key) && LexLe(key, IsoFormat(until.value, offset))
    else if since.Some? then LexLe(IsoFormat(since.value, offset), key)
    else if until.Some? then LexLt(key, IsoFormat(until.value, offset))
    else true
  }

  /** The plain time filter: since inclusive, until exclusive. */
  predicate InWindow(ts: Timestamp, since: Option<Timestamp>, until: Option<Timestamp>) {
    && (since.Some? ==> since.value == ts || Before(since.value, ts))
    && (until.Some? ==> Before(ts, until.value))
  }

  predicate BoundsOk(since: Option<Timestamp>, until: Option<Timestamp>) {
    (since.Some? ==> ValidTime(since.value)) && (until.Some? ==> ValidTime(until.value))
  }

  lemma LowerBound(t: Timestamp, since: Timestamp, offset: string, tail: string)
    requires ValidTime(t) && ValidTime(since) && ValidOffset(offset) && tail != []
    ensures LexLe(IsoFormat(since, offset), IsoFormat(t, offset) + tail) <==> since == t || Before(since, t)
  {
    KeyOrder(since, t, offset, [], tail);
    assert IsoFormat(since, offset) + [] == IsoFormat(since, offset);
    KeyOrder(t, since, offset, tail, []);
    LexTotal(IsoFormat(since, offset), IsoFormat(t, offset) + tail);
    if IsoFormat(since, offset) == IsoFormat(t, offset) + tail {
      BeforeTotal(t, since);
    }
  }

  lemma UpperBound(t: Timestamp, until: Timestamp, offset: string, tail: string)
    requires ValidTime(t) && ValidTime(until) && ValidOffset(offset) && tail != []
    ensures LexLe(IsoFormat(t, offset) + tail, IsoFormat(until, offset)) <==> Before(t, until)
    ensures LexLt(IsoFormat(t, offset) + tail, IsoFormat(until, offset)) <==> Before(t, until)
  {
    KeyOrder(t, until, offset, tail, []);
    assert IsoFormat(until, offset) + [] == IsoFormat(until, offset);
    KeyOrder(until, t, offset, [], tail);
    LexTotal(IsoFormat(t, offset) + tail, IsoFormat(until, offset));
    if IsoFormat(until, offset) == IsoFormat(t, offset) + tail {
      BeforeTotal(t, until);
    }
  }

  lemma {:induction false} FieldsTotal(a: seq<Field>, b: seq<Field>)
    requires SameShape(a, b)
    ensures FieldsLt(a, b) || a == b || FieldsLt(b, a)
    ensures !(FieldsLt(a, b) && FieldsLt(b, a)) && !(a == b && FieldsLt(a, b))
    decreases |a|
  {
    if a != [] {
      FieldsTotal(a[1..], b[1..]);
      assert a == [a[0]] + a[1..] && b == [b[0]] + b[1..];
    }
  }

  lemma BeforeTotal(a: Timestamp, b: Timestamp)
    requires ValidTime(a) && ValidTime(b)
    ensures Before(a, b) || a == b || Before(b, a)
    ensures !(Before(a, b) && Before(b, a)) && !(a == b && Before(a, b))
  {
  }

  /** The key range selects exactly the records with since <= ts < until, although
      the fraction is printed with zero or six digits and the range is closed. */
  lemma RangeIsWindow(u: Usage, offset: string, suffix: string, since: Option<Timestamp>, until: Option<Timestamp>)
    requires ValidTime(u.ts) && ValidOffset(offset) && BoundsOk(since, until)
    ensures KeyInRange(EventId(u, offset, suffix), since, until, offset) <==> InWindow(u.ts, since, until)
  {
    var tail := "#" + u.resourceId + "#" + suffix;
    if since.Some? {
      LowerBound(u.ts, since.value, offset, tail);
    }
    if until.Some? {
      UpperBound(u.ts, until.value, offset, tail);
    }
  }

  // ---------------------------------------------------------------- the store

  /** The first limit keys in descending order. */
  ghost predicate IsPage(keys: set<string>, limit: nat, page: seq<string>) {
    && |page| == (if |keys| <= limit then |keys| else limit)
    && (forall i :: 0 <= i < |page| ==> page[i] in keys)
    && (forall i, j :: 0 <= i < j < |page| ==> LexLt(page[j], page[i]))
    && (forall k, i :: k in keys && k !in page && 0 <= i < |page| ==> LexLt(k, page[i]))
  }

  lemma PageHoldsAll(keys: set<string>, limit: nat, page: seq<string>)
    requires IsPage(keys, limit, page) && |keys| <= limit
    ensures forall k :: k in keys <==> k in page
  {
    PageDistinct(page);
    assert SetOf(page) <= keys;
    SubsetOfSameSize(SetOf(page), keys);
  }

  lemma SubsetOfSameSize(a: set<string>, b: set<string>)
    requires a <= b && |a| == |b|
    ensures a == b
  {
    assert |b - a| == |b| - |a|;
  }

  lemma PageDistinct(page: seq<string>)
    requires forall i, j :: 0 <= i < j < |page| ==> LexLt(page[j], page[i])
    ensures Distinct(page) && |SetOf(page)| == |page|
  {
    forall i, j | 0 <= i < j < |page| ensures page[i] != page[j] {
      LexIrreflexive(page[i]);
    }
    DistinctSize(page);
  }

  /** A descending, limited scan. */
  method Scan(keys: set<string>, limit: nat) returns (page: seq<string>)
    ensures IsPage(keys, limit, page)
  {
    page := [];
    var left := keys;
    while left != {} && |page| < limit
      invariant left <= keys && |page| + |left| == |keys| && |page| <= limit
      invariant forall k :: k in keys <==> k in left || k in page
      invariant forall i :: 0 <= i < |page| ==> page[i] in keys
      invariant forall i, j :: 0 <= i < j < |page| ==> LexLt(page[j], page[i])
      invariant forall k, i :: k in left && 0 <= i < |page| ==> LexLt(k, page[i])
      decreases |left|
    {
      ghost var greatest := MaxExists(left);
      var m :| m in left && forall k :: k in left ==> LexLe(k, m);
      forall k | k in left - {m} ensures LexLt(k, m) {
        assert LexLe(k, m);
      }
      left := left - {m};
      page := page + [m];
    }
  }

  /** At least one and at most a thousand records. */
  function Clamp(limit: int): (n: nat)
    ensures 1 <= n <= 1000 && (1 <= limit <= 1000 ==> n == limit)
    ensures (limit < 1 ==> n == 1) && (limit > 1000 ==> n == 1000)
  {
    var atLeastOne := if limit < 1 then 1 else limit;
    if atLeastOne < 1000 then atLeastOne else 1000
  }

  predicate Selected(u: Usage, resourceId: Option<string>, resourceType: Option<string>) {
    (resourceId.Some? ==> u.resourceId == resourceId.value) &&
      (resourceType.Some? ==> u.resourceType == resourceType.value)
  }

  /** The client-side resource filters, applied to the page in order. */
  method FilterPage(table: Table, tenantId: string, page: seq<string>, resourceId: Option<string>,
                    resourceType: Option<string>)
    returns (records: seq<Usage>, ghost keys: seq<string>)
    requires forall k :: k in page ==> (tenantId, k) in table
    requires forall i, j :: 0 <= i < j < |page| ==> LexLt(page[j], page[i])
    ensures |records| == |keys|
    ensures forall i :: 0 <= i < |keys| ==> keys[i] in page && records[i] == table[(tenantId, keys[i])]
    ensures forall k :: k in keys <==> k in page && Selected(table[(tenantId, k)], resourceId, resourceType)
    ensures forall i, j :: 0 <= i < j < |keys| ==> LexLt(keys[j], keys[i])
    ensures resourceId.None? && resourceType.None? ==> keys == page
  {
    records, keys := [], [];
    for n := 0 to |page|
      invariant |records| == |keys|
      invariant forall i :: 0 <= i < |keys| ==> keys[i] in page[..n] && records[i] == table[(tenantId, keys[i])]
      invariant forall k :: k in keys <==> k in page[..n] && Selected(table[(tenantId, k)], resourceId, resourceType)
      invariant forall i, j :: 0 <= i < j < |keys| ==> LexLt(keys[j], keys[i])
      invariant resourceId.None? && resourceType.None? ==> keys == page[..n]
    {
      assert page[n] in page;
      var usage := table[(tenantId, page[n])];
      assert page[..n + 1] == page[..n] + [page[n]];
      if resourceId.Some? && usage.resourceId != resourceId.value {
        continue;
      }
      if resourceType.Some? && usage.resourceType != resourceType.value {
        continue;
      }
      records := records + [usage];
      keys := keys + [page[n]];
    }
    assert page[..|page|] == page;
  }

  function KeysInRange(table: Table, offset: string, tenantId: string, since: Option<Timestamp>,
                       until: Option<Timestamp>): set<string> {
    set k | k in table && k.0 == tenantId && KeyInRange(k.1, since, until, offset) :: k.1
  }

  lemma RangeFacts(table: Table, offset: string, tenantId: string, since: Option<Timestamp>, until: Option<Timestamp>,
                   key: string)
    requires ValidOffset(offset) && TableOk(table, offset) && BoundsOk(since, until)
    ensures key in KeysInRange(table, offset, tenantId, since, until) <==>
            (tenantId, key) in table && InWindow(table[(tenantId, key)].ts, since, until)
  {
    if (tenantId, key) in table {
      var u := table[(tenantId, key)];
      var suffix :| key == EventId(u, offset, suffix);
      RangeIsWindow(u, offset, suffix, since, until);
    }
  }

  /** Of two records of a tenant, the one under the smaller key is not the newer one. */
  lemma SmallerKeyIsNotNewer(table: Table, offset: string, tenantId: string, k: string, l: string)
    requires ValidOffset(offset) && TableOk(table, offset)
    requires (tenantId, k) in table && (tenantId, l) in table && LexLt(l, k)
    ensures !Before(table[(tenantId, k)].ts, table[(tenantId, l)].ts)
  {
    var u, v := table[(tenantId, k)], table[(tenantId, l)];
    var p :| k == EventId(u, offset, p);
    var q :| l == EventId(v, offset, q);
    KeyOrder(u.ts, v.ts, offset, "#" + u.resourceId + "#" + p, "#" + v.resourceId + "#" + q);
    LexTotal(k, l);
  }

  lemma AllRangeFacts(table: Table, offset: string, tenantId: string, since: Option<Timestamp>,
                      until: Option<Timestamp>)
    requires ValidOffset(offset) && TableOk(table, offset) && BoundsOk(since, until)
    ensures forall k :: k in KeysInRange(table, offset, tenantId, since, until) <==>
              (tenantId, k) in table && InWindow(table[(tenantId, k)].ts, since, until)
  {
    forall k ensures k in KeysInRange(table, offset, tenantId, since, until) <==>
                     (tenantId, k) in table && InWindow(table[(tenantId, k)].ts, since, until)
    {
      RangeFacts(table, offset, tenantId, since, until, k);
    }
  }

  lemma FullPageHoldsAll(table: Table, offset: string, tenantId: string, since: Option<Timestamp>,
                         until: Option<Timestamp>, limit: nat, page: seq<string>)
    requires ValidOffset(offset) && TableOk(table, offset) && BoundsOk(since, until)
    requires IsPage(KeysInRange(table, offset, tenantId, since, until), limit, page)
    ensures |KeysInRange(table, offset, tenantId, since, until)| <= limit ==>
              forall k :: (tenantId, k) in table && InWindow(table[(tenantId, k)].ts, since, until) ==> k in page
  {
    AllRangeFacts(table, offset, tenantId, since, until);
    if |KeysInRange(table, offset, tenantId, since, until)| <= limit {
      PageHoldsAll(KeysInRange(table, offset, tenantId, since, until), limit, page);
    }
  }

  /** Descending keys are distinct and list the newest records first. */
  lemma NewestFirst(table: Table, offset: string, tenantId: string, keys: seq<string>)
    requires ValidOffset(offset) && TableOk(table, offset)
    requires forall i :: 0 <= i < |keys| ==> (tenantId, keys[i]) in table
    requires forall i, j :: 0 <= i < j < |keys| ==> LexLt(keys[j], keys[i])
    ensures forall i, j :: 0 <= i < j < |keys| ==>
              keys[i] != keys[j] && !Before(table[(tenantId, keys[i])].ts, table[(tenantId, keys[j])].ts)
  {
    forall i, j | 0 <= i < j < |keys|
      ensures keys[i] != keys[j] && !Before(table[(tenantId, keys[i])].ts, table[(tenantId, keys[j])].ts)
    {
      SmallerKeyIsNotNewer(table, offset, tenantId, keys[i], keys[j]);
      LexIrreflexive(keys[i]);
    }
  }

  class UsageStore {
    const offset: string
    var table: Table

    ghost predicate Valid()
      reads this
    {
      ValidOffset(offset) && TableOk(table, offset)
    }

    constructor (offset: string)
      requires ValidOffset(offset)
      ensures Valid() && table == map[] && this.offset == offset
    {
      this.offset, table := offset, map[];
    }

    method Record(u: Usage, suffix: string) returns (eventId: string)
      requires Valid() && ValidTime(u.ts)
      modifies this
      ensures Valid() && eventId == EventId(u, offset, suffix) && table == old(table)[(u.tenantId, eventId) := u]
    {
      eventId := EventId(u, offset, suffix);
      table := table[(u.tenantId, eventId) := u];
    }

    /** Most recent first; page is the page the table returns, keys the keys of the
        records kept. If the window holds no more than the limit, the result is the
        plain filter: every record of the tenant in the window that passes the
        resource filters, and nothing else. */
    method Query(tenantId: string, since: Option<Timestamp>, until: Option<Timestamp>,
                 resourceId: Option<string>, resourceType: Option<string>, limit: int)
      returns (records: seq<Usage>, ghost page: seq<string>, ghost keys: seq<string>)
      requires Valid() && BoundsOk(since, until)
      ensures |records| == |keys| && forall i :: 0 <= i < |keys| ==>
              (tenantId, keys[i]) in table && records[i] == table[(tenantId, keys[i])]
      ensures forall i :: 0 <= i < |records| ==>
                && records[i].tenantId == tenantId && InWindow(records[i].ts, since, until)
                && (resourceId.Some? ==> records[i].resourceId == resourceId.value)
                && (resourceType.Some? ==> records[i].resourceType == resourceType.value)
      ensures forall i, j :: 0 <= i < j < |records| ==> keys[i] != keys[j] && !Before(records[i].ts, records[j].ts)
      ensures IsPage(KeysInRange(table, offset, tenantId, since, until), Clamp(limit), page)
      ensures forall k :: k in page ==> (tenantId, k) in table
      ensures forall k :: k in page && (resourceId.Some? ==> table[(tenantId, k)].resourceId == resourceId.value)
                          && (resourceType.Some? ==> table[(tenantId, k)].resourceType == resourceType.value)
                          ==> k in keys
      ensures resourceId.None? && resourceType.None? ==> keys == page
      ensures |KeysInRange(table, offset, tenantId, since, until)| <= Clamp(limit) ==>
                forall k :: (tenantId, k) in table && InWindow(table[(tenantId, k)].ts, since, until)
                            && (resourceId.Some? ==> table[(tenantId, k)].resourceId == resourceId.value)
                            && (resourceType.Some? ==> table[(tenantId, k)].resourceType == resourceType.value)
                            ==> k in keys
    {
      var range := KeysInRange(table, offset, tenantId, since, until);
      AllRangeFacts(table, offset, tenantId, since, until);
      var scanned := Scan(range, Clamp(limit));
      page := scanned;
      records, keys := FilterPage(table, tenantId, scanned, resourceId, resourceType);
      NewestFirst(table, offset, tenantId, keys);
      FullPageHoldsAll(table, offset, tenantId, since, until, Clamp(limit), page);
    }
  }
}
