/** Chargeback reports and budgets in exact arithmetic
    (packs/finops/sovereign_finops/models.py). */
module Chargeback {
  import opened Prelude
  import opened Lex
  import opened Sorting
  import opened Partitions

  datatype Usage = Usage(serviceType: Option<string>, resourceType: string, unit: string, quantity: real)

  datatype CostRate = CostRate(serviceType: string, unit: string, price: real)

  type Key = (string, string)

  datatype LineItem = LineItem(serviceType: string, unit: string, quantity: real, unitPrice: real, cost: real)

  datatype Report = Report(tenantId: string, total: real, lines: seq<LineItem>)

  function ServiceOf(u: Usage): string {
    if Truthy(u.serviceType) then u.serviceType.value else u.resourceType
  }

  function KeyOf(u: Usage): Key {
    (ServiceOf(u), u.unit)
  }

  function QuantityOf(u: Usage): real {
    u.quantity
  }

  // ---------------------------------------------------------------- prices

  /** The first rate for a service and unit. */
  function FirstRate(rates: seq<CostRate>, service: string, unit: string): Option<real>
    decreases |rates|
  {
    if rates == [] then None
    else if rates[0].serviceType == service && rates[0].unit == unit then Some(rates[0].price)
    else FirstRate(rates[1..], service, unit)
  }

  /** An exact match, else the catch-all for the unit, else nothing. */
  function Price(rates: seq<CostRate>, service: string, unit: string): real {
    match FirstRate(rates, service, unit)
    case Some(p) => p
    case None =>
      match FirstRate(rates, "*", unit)
      case Some(p) => p
      case None => 0.0
  }

  predicate RateAt(rates: seq<CostRate>, i: nat, service: string, unit: string) {
    i < |rates| && rates[i].serviceType == service && rates[i].unit == unit
  }

  /** Rate i is the first one for the service and unit. */
  predicate FirstAt(rates: seq<CostRate>, i: nat, service: string, unit: string) {
    RateAt(rates, i, service, unit) && forall j :: 0 <= j < i ==> !RateAt(rates, j, service, unit)
  }

  lemma {:induction false} FirstRateIsFirst(rates: seq<CostRate>, service: string, unit: string)
    ensures FirstRate(rates, service, unit).None? <==> forall i :: 0 <= i < |rates| ==> !RateAt(rates, i, service, unit)
    ensures forall i: nat :: FirstAt(rates, i, service, unit) ==>
            FirstRate(rates, service, unit) == Some(rates[i].price)
    decreases |rates|
  {
    if rates != [] {
      FirstRateIsFirst(rates[1..], service, unit);
      assert forall i: nat :: 0 < i < |rates| ==>
             (RateAt(rates, i, service, unit) <==> RateAt(rates[1..], i - 1, service, unit));
      forall i: nat | FirstAt(rates, i, service, unit) ensures FirstRate(rates, service, unit) == Some(rates[i].price) {
        if i > 0 {
          assert !RateAt(rates, 0, service, unit);
          assert forall j :: 0 <= j < i - 1 ==>
                 (RateAt(rates[1..], j, service, unit) <==> RateAt(rates, j + 1, service, unit));
          assert FirstAt(rates[1..], i - 1, service, unit);
        }
      }
      assert RateAt(rates, 0, service, unit) <==> rates[0].serviceType == service && rates[0].unit == unit;
      if forall i :: 0 <= i < |rates| ==> !RateAt(rates, i, service, unit) {
        forall j | 0 <= j < |rates[1..]| ensures !RateAt(rates[1..], j, service, unit) {
          assert !RateAt(rates, j + 1, service, unit);
        }
      }
    }
  }

  /** An exact rate wins over any catch-all, a catch-all over nothing, and among
      equals the first one counts. */
  lemma PricePrefersExact(rates: seq<CostRate>, service: string, unit: string, i: nat)
    ensures FirstAt(rates, i, service, unit) ==> Price(rates, service, unit) == rates[i].price
    ensures (forall j :: 0 <= j < |rates| ==> !RateAt(rates, j, service, unit)) && FirstAt(rates, i, "*", unit) ==>
              Price(rates, service, unit) == rates[i].price
    ensures (forall j :: 0 <= j < |rates| ==> !RateAt(rates, j, service, unit) && !RateAt(rates, j, "*", unit)) ==>
              Price(rates, service, unit) == 0.0
  {
    FirstRateIsFirst(rates, service, unit);
    FirstRateIsFirst(rates, "*", unit);
  }

  // ---------------------------------------------------------------- rounding

  /** To the nearest integer, ties to even. */
  function RoundInt(y: real): int {
    var f := y.Floor;
    var d := y - f as real;
    if d < 0.5 then f else if d > 0.5 then f + 1 else if f % 2 == 0 then f else f + 1
  }

  const MICRO := 1000000.0

  function Round6(x: real): real {
    RoundInt(x * MICRO) as real / MICRO
  }

  lemma RoundIntIsClose(y: real)
    ensures -0.5 <= RoundInt(y) as real - y <= 0.5
  {
  }

  /** Halfway, the even neighbour is taken. */
  lemma TiesGoToEven(n: int)
    ensures RoundInt(n as real + 0.5) % 2 == 0 && n <= RoundInt(n as real + 0.5) <= n + 1
  {
    assert (n as real + 0.5).Floor == n;
  }

  lemma RoundIntOfInt(n: int)
    ensures RoundInt(n as real) == n
  {
  }

  lemma Round6IsClose(x: real)
    ensures -0.0000005 <= Round6(x) - x <= 0.0000005
  {
    RoundIntIsClose(x * MICRO);
  }

  predicate MicrosOf(x: real, n: int) {
    x == n as real / MICRO
  }

  /** A whole number of millionths. */
  ghost predicate WholeMicros(x: real) {
    exists n: int :: MicrosOf(x, n)
  }

  lemma Round6IsWhole(x: real)
    ensures WholeMicros(Round6(x))
    ensures WholeMicros(x) ==> Round6(x) == x
  {
    assert MicrosOf(Round6(x), RoundInt(x * MICRO));
    if WholeMicros(x) {
      var n :| MicrosOf(x, n);
      assert x * MICRO == n as real;
      RoundIntOfInt(n);
    }
  }

  lemma WholeAdds(x: real, y: real)
    requires WholeMicros(x) && WholeMicros(y)
    ensures WholeMicros(x + y)
  {
    var m :| MicrosOf(x, m);
    var n :| MicrosOf(y, n);
    assert MicrosOf(x + y, m + n);
  }

  // ---------------------------------------------------------------- grouping

  /** Quantity per key, for exactly the keys that occur. */
  ghost predicate Groups(usage: seq<Usage>, grouped: map<Key, real>) {
    && (forall k :: k in grouped <==> exists i :: 0 <= i < |usage| && KeyOf(usage[i]) == k)
    && (forall k :: k in grouped ==> grouped[k] == TotalFor(usage, KeyOf, k, QuantityOf))
  }

  lemma {:induction false} NoKeyNoQuantity(usage: seq<Usage>, k: Key)
    requires forall i :: 0 <= i < |usage| ==> KeyOf(usage[i]) != k
    ensures TotalFor(usage, KeyOf, k, QuantityOf) == 0.0
    decreases |usage|
  {
    if usage != [] {
      NoKeyNoQuantity(usage[..|usage| - 1], k);
    }
  }

  lemma GroupStep(usage: seq<Usage>, n: nat, grouped: map<Key, real>)
    requires n < |usage| && Groups(usage[..n], grouped)
    ensures var k := KeyOf(usage[n]);
            Groups(usage[..n + 1], grouped[k := (if k in grouped then grouped[k] else 0.0) + usage[n].quantity])
  {
    var k := KeyOf(usage[n]);
    var prefix, longer := usage[..n], usage[..n + 1];
    assert longer[..n] == prefix && longer[n] == usage[n];
    assert forall i :: 0 <= i < n ==> longer[i] == prefix[i];
    if k !in grouped {
      NoKeyNoQuantity(prefix, k);
    }
  }

  method Group(usage: seq<Usage>) returns (grouped: map<Key, real>)
    ensures Groups(usage, grouped)
  {
    grouped := map[];
    for n := 0 to |usage|
      invariant Groups(usage[..n], grouped)
    {
      GroupStep(usage, n, grouped);
      var k := KeyOf(usage[n]);
      grouped := grouped[k := (if k in grouped then grouped[k] else 0.0) + usage[n].quantity];
    }
    assert usage[..|usage|] == usage;
  }

  // ---------------------------------------------------------------- the report

  predicate KeyLt(a: Key, b: Key) {
    LexLt(a.0, b.0) || (a.0 == b.0 && LexLt(a.1, b.1))
  }

  lemma KeyLtIsStrictTotal()
    ensures StrictTotal(KeyLt)
  {
    forall x: Key ensures !KeyLt(x, x) {
      LexIrreflexive(x.0);
      LexIrreflexive(x.1);
    }
    forall x: Key, y: Key, z: Key | KeyLt(x, y) && KeyLt(y, z) ensures KeyLt(x, z) {
      if LexLt(x.0, y.0) && LexLt(y.0, z.0) {
        LexTransitive(x.0, y.0, z.0);
      }
      if LexLt(x.1, y.1) && LexLt(y.1, z.1) {
        LexTransitive(x.1, y.1, z.1);
      }
    }
    forall x: Key, y: Key ensures x == y || KeyLt(x, y) || KeyLt(y, x) {
      LexTotal(x.0, y.0);
      LexTotal(x.1, y.1);
    }
  }

  function MakeLine(k: Key, quantity: real, price: real): LineItem {
    LineItem(k.0, k.1, quantity, price, Round6(price * quantity))
  }

  function LineFor(usage: seq<Usage>, rates: seq<CostRate>, k: Key): LineItem {
    MakeLine(k, TotalFor(usage, KeyOf, k, QuantityOf), Price(rates, k.0, k.1))
  }

  lemma LineIsWhole(k: Key, quantity: real, price: real)
    ensures WholeMicros(MakeLine(k, quantity, price).cost) && LineKey(MakeLine(k, quantity, price)) == k
  {
    Round6IsWhole(price * quantity);
  }

  function LineKey(l: LineItem): Key {
    (l.serviceType, l.unit)
  }

  function CostOf(l: LineItem): real {
    l.cost
  }

  function LineQuantity(l: LineItem): real {
    l.quantity
  }

  function LineKeys(lines: seq<LineItem>): (keys: seq<Key>)
    ensures |keys| == |lines|
  {
    seq(|lines|, i requires 0 <= i < |lines| => LineKey(lines[i]))
  }

  /** One line per key that occurs, in key order, each priced and rounded; the total
      is exactly the sum of the lines. */
  ghost predicate IsReport(usage: seq<Usage>, rates: seq<CostRate>, r: Report) {
    && Ascending(LineKeys(r.lines), KeyLt)
    && (forall k :: k in LineKeys(r.lines) <==> exists i :: 0 <= i < |usage| && KeyOf(usage[i]) == k)
    && (forall i :: 0 <= i < |r.lines| ==> r.lines[i] == LineFor(usage, rates, LineKey(r.lines[i])))
    && r.total == Total(r.lines, CostOf)
  }

  lemma {:induction false} TotalIsWhole(lines: seq<LineItem>)
    requires forall i :: 0 <= i < |lines| ==> WholeMicros(lines[i].cost)
    ensures WholeMicros(Total(lines, CostOf))
    decreases |lines|
  {
    if lines == [] {
      assert MicrosOf(0.0, 0);
    } else {
      var n := |lines| - 1;
      TotalIsWhole(lines[..n]);
      WholeAdds(Total(lines[..n], CostOf), lines[n].cost);
    }
  }

  method SortKeys(keys: set<Key>) returns (list: seq<Key>)
    ensures Ascending(list, KeyLt) && forall k :: k in list <==> k in keys
  {
    KeyLtIsStrictTotal();
    list := Sorted(keys, KeyLt);
  }

  function LinesFor(usage: seq<Usage>, rates: seq<CostRate>, keys: seq<Key>): (lines: seq<LineItem>)
    ensures |lines| == |keys|
  {
    if keys == [] then []
    else LinesFor(usage, rates, keys[..|keys| - 1]) + [LineFor(usage, rates, keys[|keys| - 1])]
  }

  lemma {:induction false} LinesForShape(usage: seq<Usage>, rates: seq<CostRate>, keys: seq<Key>)
    ensures var lines := LinesFor(usage, rates, keys);
            forall i :: 0 <= i < |keys| ==>
              && LineKey(lines[i]) == keys[i] && lines[i] == LineFor(usage, rates, keys[i])
              && WholeMicros(lines[i].cost)
    decreases |keys|
  {
    if keys != [] {
      var n := |keys| - 1;
      LinesForShape(usage, rates, keys[..n]);
      LineIsWhole(keys[n], TotalFor(usage, KeyOf, keys[n], QuantityOf), Price(rates, keys[n].0, keys[n].1));
      var lines, front := LinesFor(usage, rates, keys), LinesFor(usage, rates, keys[..n]);
      forall i | 0 <= i < |keys|
        ensures LineKey(lines[i]) == keys[i] && lines[i] == LineFor(usage, rates, keys[i]) && WholeMicros(lines[i].cost)
      {
        if i < n {
          assert lines[i] == front[i] && keys[..n][i] == keys[i];
        }
      }
    }
  }

  method Lines(usage: seq<Usage>, rates: seq<CostRate>, grouped: map<Key, real>, keys: seq<Key>)
    returns (lines: seq<LineItem>, total: real)
    requires Groups(usage, grouped) && forall k :: k in keys ==> k in grouped
    ensures lines == LinesFor(usage, rates, keys) && total == Total(lines, CostOf)
  {
    lines, total := [], 0.0;
    for i := 0 to |keys|
      invariant lines == LinesFor(usage, rates, keys[..i])
      invariant total == Total(lines, CostOf)
    {
      assert keys[i] in keys && keys[..i + 1][..i] == keys[..i];
      var line := PriceLine(usage, rates, grouped, keys[i]);
      total := total + line.cost;
      assert (lines + [line])[..|lines|] == lines;
      lines := lines + [line];
    }
    assert keys[..|keys|] == keys;
  }

  method PriceLine(usage: seq<Usage>, rates: seq<CostRate>, grouped: map<Key, real>, k: Key) returns (line: LineItem)
    requires Groups(usage, grouped) && k in grouped
    ensures line == LineFor(usage, rates, k)
  {
    var qty := grouped[k];
    var price := Price(rates, k.0, k.1);
    line := MakeLine(k, qty, price);
  }

  /** Groups the usage by service and unit, prices each group, and totals the lines;
      rounding the total changes nothing. */
  method ChargebackReport(tenantId: string, usage: seq<Usage>, rates: seq<CostRate>) returns (report: Report)
    ensures report.tenantId == tenantId && IsReport(usage, rates, report)
  {
    var grouped := Group(usage);
    var keys := SortKeys(grouped.Keys);
    var lines, total := Lines(usage, rates, grouped, keys);
    ReportIsExact(usage, rates, grouped, keys);
    report := Report(tenantId, Round6(total), lines);
  }

  lemma ReportIsExact(usage: seq<Usage>, rates: seq<CostRate>, grouped: map<Key, real>, keys: seq<Key>)
    requires Groups(usage, grouped) && Ascending(keys, KeyLt) && forall k :: k in keys <==> k in grouped
    ensures var lines := LinesFor(usage, rates, keys);
            var total := Total(lines, CostOf);
            Round6(total) == total && forall id :: IsReport(usage, rates, Report(id, total, lines))
  {
    var lines := LinesFor(usage, rates, keys);
    LinesForShape(usage, rates, keys);
    TotalIsWhole(lines);
    Round6IsWhole(Total(lines, CostOf));
    assert LineKeys(lines) == keys;
  }

  // ---------------------------------------------------------------- what a report promises

  lemma AscendingIsDistinct(keys: seq<Key>)
    requires Ascending(keys, KeyLt)
    ensures Distinct(keys)
  {
    forall i, j | 0 <= i < j < |keys| ensures keys[i] != keys[j] {
      assert KeyLt(keys[i], keys[j]);
      LexIrreflexive(keys[i].0);
      LexIrreflexive(keys[i].1);
    }
  }

  lemma OccursInPermutation(a: seq<Usage>, b: seq<Usage>, k: Key)
    requires multiset(a) == multiset(b) && exists i :: 0 <= i < |a| && KeyOf(a[i]) == k
    ensures exists i :: 0 <= i < |b| && KeyOf(b[i]) == k
  {
    var i :| 0 <= i < |a| && KeyOf(a[i]) == k;
    assert a[i] in multiset(b);
    var j :| 0 <= j < |b| && b[j] == a[i];
    assert KeyOf(b[j]) == k;
  }

  lemma PermutedKeys(a: seq<Usage>, b: seq<Usage>, rates: seq<CostRate>, r: Report, r': Report)
    requires multiset(a) == multiset(b) && IsReport(a, rates, r) && IsReport(b, rates, r')
    ensures LineKeys(r.lines) == LineKeys(r'.lines)
  {
    forall k ensures k in LineKeys(r.lines) <==> k in LineKeys(r'.lines) {
      if k in LineKeys(r.lines) {
        OccursInPermutation(a, b, k);
      }
      if k in LineKeys(r'.lines) {
        OccursInPermutation(b, a, k);
      }
    }
    KeyLtIsStrictTotal();
    AscendingIsUnique(LineKeys(r.lines), LineKeys(r'.lines), KeyLt);
  }

  lemma LineForPermutes(a: seq<Usage>, b: seq<Usage>, rates: seq<CostRate>, k: Key)
    requires multiset(a) == multiset(b)
    ensures LineFor(a, rates, k) == LineFor(b, rates, k)
  {
    TotalForPermutes(a, b, KeyOf, k, QuantityOf);
  }

  /** The record is usage of that service, in that unit. The service is the one the
      metadata names, or the resource type where it names none. */
  predicate IsUsageOf(u: Usage, service: string, unit: string) {
    && u.unit == unit
    && service == match u.serviceType
                  case None => u.resourceType
                  case Some(s) => if s == "" then u.resourceType else s
  }

  function QuantityUsed(usage: seq<Usage>, service: string, unit: string): real {
    if usage == [] then 0.0
    else QuantityUsed(usage[1..], service, unit) + if IsUsageOf(usage[0], service, unit) then usage[0].quantity else 0.0
  }

  lemma {:induction false} QuantityUsedSnoc(usage: seq<Usage>, u: Usage, service: string, unit: string)
    ensures QuantityUsed(usage + [u], service, unit)
            == QuantityUsed(usage, service, unit) + if IsUsageOf(u, service, unit) then u.quantity else 0.0
    decreases |usage|
  {
    if usage == [] {
      assert usage + [u] == [u] && [u][1..] == [];
    } else {
      assert (usage + [u])[1..] == usage[1..] + [u];
      QuantityUsedSnoc(usage[1..], u, service, unit);
    }
  }

  lemma {:induction false} TotalIsQuantityUsed(usage: seq<Usage>, service: string, unit: string)
    ensures TotalFor(usage, KeyOf, (service, unit), QuantityOf) == QuantityUsed(usage, service, unit)
    decreases |usage|
  {
    if usage != [] {
      var n := |usage| - 1;
      TotalIsQuantityUsed(usage[..n], service, unit);
      assert usage == usage[..n] + [usage[n]];
      QuantityUsedSnoc(usage[..n], usage[n], service, unit);
    }
  }

  lemma MakeLineKeeps(k: Key, quantity: real, price: real)
    ensures var l := MakeLine(k, quantity, price);
            l.serviceType == k.0 && l.unit == k.1 && l.quantity == quantity && l.unitPrice == price
  {
  }

  /** A report line by line: the quantity is that of exactly the records of its service
      and unit, and the price is that of its service and unit. */
  lemma LineIsExact(usage: seq<Usage>, rates: seq<CostRate>, r: Report, i: nat)
    requires IsReport(usage, rates, r) && i < |r.lines|
    ensures r.lines[i].quantity == QuantityUsed(usage, r.lines[i].serviceType, r.lines[i].unit)
    ensures r.lines[i].unitPrice == Price(rates, r.lines[i].serviceType, r.lines[i].unit)
  {
    var k := LineKey(r.lines[i]);
    assert r.lines[i] == LineFor(usage, rates, k);
    MakeLineKeeps(k, TotalFor(usage, KeyOf, k, QuantityOf), Price(rates, k.0, k.1));
    TotalIsQuantityUsed(usage, k.0, k.1);
  }

  /** Lines are sorted by service and then by unit, so none is there twice. */
  lemma LinesAreSorted(usage: seq<Usage>, rates: seq<CostRate>, r: Report, i: nat, j: nat)
    requires IsReport(usage, rates, r) && i < j < |r.lines|
    ensures || LexLt(r.lines[i].serviceType, r.lines[j].serviceType)
            || (r.lines[i].serviceType == r.lines[j].serviceType && LexLt(r.lines[i].unit, r.lines[j].unit))
  {
    assert LineKeys(r.lines)[i] == LineKey(r.lines[i]) && LineKeys(r.lines)[j] == LineKey(r.lines[j]);
  }

  /** Every record has its line. */
  lemma EveryRecordHasALine(usage: seq<Usage>, rates: seq<CostRate>, r: Report, k: nat) returns (i: nat)
    requires IsReport(usage, rates, r) && k < |usage|
    ensures i < |r.lines| && IsUsageOf(usage[k], r.lines[i].serviceType, r.lines[i].unit)
  {
    assert KeyOf(usage[k]) in LineKeys(r.lines);
    i :| 0 <= i < |r.lines| && LineKeys(r.lines)[i] == KeyOf(usage[k]);
  }

  /** The order in which usage arrives does not matter: the reports are equal. */
  lemma ReportIgnoresUsageOrder(a: seq<Usage>, b: seq<Usage>, rates: seq<CostRate>, r: Report, r': Report)
    requires multiset(a) == multiset(b) && r.tenantId == r'.tenantId
    requires IsReport(a, rates, r) && IsReport(b, rates, r')
    ensures r == r'
  {
    PermutedKeys(a, b, rates, r, r');
    forall i | 0 <= i < |r.lines| ensures r.lines[i] == r'.lines[i] {
      assert LineKeys(r.lines)[i] == LineKeys(r'.lines)[i];
      LineForPermutes(a, b, rates, LineKey(r.lines[i]));
    }
    assert r.lines == r'.lines;
  }

  lemma UsageIsCovered(usage: seq<Usage>, keys: seq<Key>)
    requires forall k :: k in keys <==> exists i :: 0 <= i < |usage| && KeyOf(usage[i]) == k
    ensures forall u :: u in usage ==> KeyOf(u) in keys
  {
  }

  lemma {:induction false} QuantitiesByLine(usage: seq<Usage>, lines: seq<LineItem>)
    requires forall i :: 0 <= i < |lines| ==> lines[i].quantity == TotalFor(usage, KeyOf, LineKey(lines[i]), QuantityOf)
    ensures Total(lines, LineQuantity) == SumOver(LineKeys(lines), usage, KeyOf, QuantityOf)
    decreases |lines|
  {
    if lines != [] {
      var n := |lines| - 1;
      QuantitiesByLine(usage, lines[..n]);
      assert LineKeys(lines)[..n] == LineKeys(lines[..n]);
    }
  }

  /** No quantity is lost or counted twice. */
  lemma QuantityIsConserved(usage: seq<Usage>, rates: seq<CostRate>, r: Report)
    requires IsReport(usage, rates, r)
    ensures Total(r.lines, LineQuantity) == Total(usage, QuantityOf)
  {
    QuantitiesByLine(usage, r.lines);
    AscendingIsDistinct(LineKeys(r.lines));
    UsageIsCovered(usage, LineKeys(r.lines));
    PartsAddUp(LineKeys(r.lines), usage, KeyOf, QuantityOf);
  }

  /** The cost of one record before grouping and rounding. */
  function RawCost(rates: seq<CostRate>): Usage -> real {
    u => Price(rates, ServiceOf(u), u.unit) * u.quantity
  }

  lemma {:induction false} RawCostOfKey(usage: seq<Usage>, rates: seq<CostRate>, k: Key)
    ensures TotalFor(usage, KeyOf, k, RawCost(rates)) == Price(rates, k.0, k.1) * TotalFor(usage, KeyOf, k, QuantityOf)
    decreases |usage|
  {
    if usage != [] {
      var n := |usage| - 1;
      RawCostOfKey(usage[..n], rates, k);
      Distribute(Price(rates, k.0, k.1), TotalFor(usage[..n], KeyOf, k, QuantityOf), usage[n].quantity);
    }
  }

  lemma Distribute(p: real, a: real, b: real)
    ensures p * (a + b) == p * a + p * b
  {
  }

  /** The cost of a line before rounding. */
  function LineRaw(l: LineItem): real {
    l.unitPrice * l.quantity
  }

  lemma MakeLineIsClose(k: Key, quantity: real, price: real)
    ensures -0.0000005 <= MakeLine(k, quantity, price).cost - LineRaw(MakeLine(k, quantity, price)) <= 0.0000005
  {
    Round6IsClose(price * quantity);
  }

  lemma LineRawOfKey(usage: seq<Usage>, rates: seq<CostRate>, k: Key)
    ensures LineRaw(LineFor(usage, rates, k)) == TotalFor(usage, KeyOf, k, RawCost(rates))
  {
    RawCostOfKey(usage, rates, k);
  }

  lemma {:induction false} RawCostByLine(usage: seq<Usage>, rates: seq<CostRate>, lines: seq<LineItem>)
    requires forall i :: 0 <= i < |lines| ==>
             LineRaw(lines[i]) == TotalFor(usage, KeyOf, LineKey(lines[i]), RawCost(rates))
    ensures Total(lines, LineRaw) == SumOver(LineKeys(lines), usage, KeyOf, RawCost(rates))
    decreases |lines|
  {
    if lines != [] {
      var n := |lines| - 1;
      RawCostByLine(usage, rates, lines[..n]);
      assert LineKeys(lines)[..n] == LineKeys(lines[..n]);
    }
  }

  /** Grouping leaves the unrounded cost of all records unchanged. */
  lemma RawCostIsConserved(usage: seq<Usage>, rates: seq<CostRate>, r: Report)
    requires IsReport(usage, rates, r)
    ensures Total(r.lines, LineRaw) == Total(usage, RawCost(rates))
  {
    forall i | 0 <= i < |r.lines|
      ensures LineRaw(r.lines[i]) == TotalFor(usage, KeyOf, LineKey(r.lines[i]), RawCost(rates))
    {
      LineRawOfKey(usage, rates, LineKey(r.lines[i]));
    }
    RawCostByLine(usage, rates, r.lines);
    AscendingIsDistinct(LineKeys(r.lines));
    UsageIsCovered(usage, LineKeys(r.lines));
    PartsAddUp(LineKeys(r.lines), usage, KeyOf, RawCost(rates));
  }

  ghost predicate Close(l: LineItem) {
    -0.0000005 <= l.cost - LineRaw(l) <= 0.0000005
  }

  lemma {:induction false} ErrorsAddUp(lines: seq<LineItem>)
    requires forall i :: 0 <= i < |lines| ==> Close(lines[i])
    ensures -(|lines| as real * 0.0000005) <= Total(lines, CostOf) - Total(lines, LineRaw)
            <= |lines| as real * 0.0000005
    decreases |lines|
  {
    if lines != [] {
      ErrorsAddUp(lines[..|lines| - 1]);
      assert Close(lines[|lines| - 1]);
    }
  }

  /** The total differs from the unrounded cost of all records by at most half a
      millionth per line. */
  lemma RoundingErrorIsBounded(usage: seq<Usage>, rates: seq<CostRate>, r: Report)
    requires IsReport(usage, rates, r)
    ensures -(|r.lines| as real * 0.0000005) <= r.total - Total(usage, RawCost(rates)) <= |r.lines| as real * 0.0000005
  {
    LinesAreClose(usage, rates, r);
    ErrorsAddUp(r.lines);
    RawCostIsConserved(usage, rates, r);
  }

  lemma LinesAreClose(usage: seq<Usage>, rates: seq<CostRate>, r: Report)
    requires IsReport(usage, rates, r)
    ensures forall i :: 0 <= i < |r.lines| ==> Close(r.lines[i])
  {
    forall i | 0 <= i < |r.lines| ensures Close(r.lines[i]) {
      var k := LineKey(r.lines[i]);
      MakeLineIsClose(k, TotalFor(usage, KeyOf, k, QuantityOf), Price(rates, k.0, k.1));
    }
  }

  // ---------------------------------------------------------------- budgets

  datatype Budget = Budget(tenantId: string, scope: string, limit: real)

  datatype Status = Status(scope: string, used: real, limit: real, breached: bool)

  const SERVICE := "service_type:"

  function LineService(l: LineItem): string {
    l.serviceType
  }

  /** What a budget is charged with; None when the report or the scope is not its own. */
  function UsedFor(r: Report, b: Budget): Option<real> {
    if b.tenantId != r.tenantId then None
    else if b.scope == "tenant" then Some(r.total)
    else if SERVICE <= b.scope then Some(TotalFor(r.lines, LineService, b.scope[|SERVICE|..], CostOf))
    else None
  }

  function StatusFor(r: Report, b: Budget): seq<Status> {
    match UsedFor(r, b)
    case None => []
    case Some(used) => [Status(b.scope, Round6(used), b.limit, used > b.limit)]
  }

  function StatusesFor(r: Report, budgets: seq<Budget>): seq<Status> {
    if budgets == [] then [] else StatusesFor(r, budgets[..|budgets| - 1]) + StatusFor(r, budgets[|budgets| - 1])
  }

  method SumService(lines: seq<LineItem>, service: string) returns (used: real)
    ensures used == TotalFor(lines, LineService, service, CostOf)
  {
    used := 0.0;
    for i := 0 to |lines|
      invariant used == TotalFor(lines[..i], LineService, service, CostOf)
    {
      assert lines[..i + 1][..i] == lines[..i];
      if lines[i].serviceType == service {
        used := used + lines[i].cost;
      }
    }
    assert lines[..|lines|] == lines;
  }

  method BudgetStatus(r: Report, budgets: seq<Budget>) returns (out: seq<Status>)
    ensures out == StatusesFor(r, budgets)
  {
    out := [];
    for i := 0 to |budgets|
      invariant out == StatusesFor(r, budgets[..i])
    {
      assert budgets[..i + 1][..i] == budgets[..i];
      var b := budgets[i];
      if b.tenantId != r.tenantId {
        continue;
      }
      var used;
      if b.scope == "tenant" {
        used := r.total;
      } else if SERVICE <= b.scope {
        used := SumService(r.lines, b.scope[|SERVICE|..]);
      } else {
        continue;
      }
      out := out + [Status(b.scope, Round6(used), b.limit, used > b.limit)];
    }
    assert budgets[..|budgets|] == budgets;
  }

  lemma {:induction false} PartIsWhole(lines: seq<LineItem>, service: string)
    requires forall i :: 0 <= i < |lines| ==> WholeMicros(lines[i].cost)
    ensures WholeMicros(TotalFor(lines, LineService, service, CostOf))
    decreases |lines|
  {
    assert MicrosOf(0.0, 0);
    if lines != [] {
      var n := |lines| - 1;
      PartIsWhole(lines[..n], service);
      WholeAdds(TotalFor(lines[..n], LineService, service, CostOf),
                if lines[n].serviceType == service then lines[n].cost else 0.0);
    }
  }

  lemma ReportLinesAreWhole(usage: seq<Usage>, rates: seq<CostRate>, r: Report)
    requires IsReport(usage, rates, r)
    ensures forall i :: 0 <= i < |r.lines| ==> WholeMicros(r.lines[i].cost)
  {
    forall i | 0 <= i < |r.lines| ensures WholeMicros(r.lines[i].cost) {
      var k := LineKey(r.lines[i]);
      LineIsWhole(k, TotalFor(usage, KeyOf, k, QuantityOf), Price(rates, k.0, k.1));
    }
  }

  /** A status reports the exact amount: rounding a budget's use changes nothing. */
  lemma BudgetAmountsAreExact(usage: seq<Usage>, rates: seq<CostRate>, r: Report, b: Budget)
    requires IsReport(usage, rates, r)
    ensures UsedFor(r, b).Some? ==>
              StatusFor(r, b) == [Status(b.scope, UsedFor(r, b).value, b.limit, UsedFor(r, b).value > b.limit)]
  {
    ReportLinesAreWhole(usage, rates, r);
    TotalIsWhole(r.lines);
    if UsedFor(r, b).Some? {
      if b.scope != "tenant" {
        PartIsWhole(r.lines, b.scope[|SERVICE|..]);
      }
      Round6IsWhole(UsedFor(r, b).value);
    }
  }

  function CostOfService(lines: seq<LineItem>, service: string): real {
    if lines == [] then 0.0
    else CostOfService(lines[..|lines| - 1], service)
         + if lines[|lines| - 1].serviceType == service then lines[|lines| - 1].cost else 0.0
  }

  lemma {:induction false} PartIsCostOfService(lines: seq<LineItem>, service: string)
    ensures TotalFor(lines, LineService, service, CostOf) == CostOfService(lines, service)
    decreases |lines|
  {
    if lines != [] {
      PartIsCostOfService(lines[..|lines| - 1], service);
    }
  }

  /** What each kind of budget is charged with. */
  lemma BudgetsChargeTheirScope(r: Report, tenantId: string, service: string, scope: string, limit: real)
    ensures UsedFor(r, Budget(r.tenantId, "tenant", limit)) == Some(r.total)
    ensures UsedFor(r, Budget(r.tenantId, "service_type:" + service, limit)) == Some(CostOfService(r.lines, service))
    ensures tenantId != r.tenantId ==> UsedFor(r, Budget(tenantId, scope, limit)) == None
    ensures scope != "tenant" && !("service_type:" <= scope) ==> UsedFor(r, Budget(tenantId, scope, limit)) == None
  {
    var named := "service_type:" + service;
    assert named[0] == 's' && named[|SERVICE|..] == service;
    PartIsCostOfService(r.lines, service);
  }

  /** Statuses come one by one, in the order of the budgets. */
  lemma {:induction false} StatusesInOrder(r: Report, a: seq<Budget>, b: seq<Budget>)
    ensures StatusesFor(r, a + b) == StatusesFor(r, a) + StatusesFor(r, b)
    ensures |b| == 1 ==> StatusesFor(r, b) == StatusFor(r, b[0])
    decreases |b|
  {
    if b == [] {
      assert a + b == a;
    } else {
      var n := |b| - 1;
      assert (a + b)[..|a + b| - 1] == a + b[..n];
      StatusesInOrder(r, a, b[..n]);
    }
  }

  function ServiceBudget(tenantId: string, service: string): Budget {
    Budget(tenantId, SERVICE + service, 0.0)
  }

  /** The amounts charged to the service scopes of distinct services. */
  function ServiceAmounts(r: Report, services: seq<string>): real {
    if services == [] then 0.0
    else
      var n := |services| - 1;
      ServiceAmounts(r, services[..n]) +
      match UsedFor(r, ServiceBudget(r.tenantId, services[n]))
      case None => 0.0
      case Some(x) => x
  }

  lemma {:induction false} ServiceAmountsAreParts(r: Report, services: seq<string>)
    ensures ServiceAmounts(r, services) == SumOver(services, r.lines, LineService, CostOf)
    decreases |services|
  {
    if services != [] {
      var n := |services| - 1;
      ServiceAmountsAreParts(r, services[..n]);
      var scope := SERVICE + services[n];
      assert scope[0] == 's' && scope[|SERVICE|..] == services[n];
    }
  }

  /** Over all distinct services of a report, the service-scoped amounts add up to
      the tenant-scoped one. */
  lemma ServiceBudgetsAddUp(usage: seq<Usage>, rates: seq<CostRate>, r: Report, services: seq<string>)
    requires IsReport(usage, rates, r) && Distinct(services)
    requires forall l :: l in r.lines ==> l.serviceType in services
    ensures Some(ServiceAmounts(r, services)) == UsedFor(r, Budget(r.tenantId, "tenant", 0.0))
  {
    ServiceAmountsAreParts(r, services);
    PartsAddUp(services, r.lines, LineService, CostOf);
  }
}
