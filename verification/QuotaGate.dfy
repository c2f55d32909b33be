/** The quota gate: counting metering records against configured caps
    (libs/common/sovereign/quotas/enforcer.py, apps/broker/app/main.py). */
module QuotaGate {
  import opened Prelude
  import opened Lex
  import opened Sorting

  /** A metering record, as far as quotas read it. */
  datatype Record = Record(resourceType: string, serviceType: Option<string>, pack: Option<string>, quantity: real)

  datatype Quota = Quota(maxInstances: Option<int>, maxCompute: Option<real>, period: string)

  /** The quotas of one tenant, by scope. */
  type Quotas = map<string, Quota>

  datatype Entry = Entry(scope: string, used: nat, max: Option<int>, usedCompute: real, maxCompute: Option<real>,
                         period: string) {
    predicate AtLimit() {
      max.Some? && used >= max.value
    }
  }

  datatype CheckResult = CheckResult(allow: bool, breakdown: seq<Entry>)

  const PAGE: nat := 1000

  /** Records are kept oldest first; a query returns the newest page. */
  function NewestPage(records: seq<Record>): seq<Record> {
    if |records| <= PAGE then records else records[|records| - PAGE..]
  }

  // ---------------------------------------------------------------- scopes

  const SERVICE := "service_type:"
  const PACK := "pack:"

  function ServiceScope(service: string): string { SERVICE + service }

  function PackScope(pack: string): string { PACK + pack }

  function ServiceFromScope(scope: string): Option<string> {
    if SERVICE <= scope then Some(scope[|SERVICE|..]) else None
  }

  function PackFromScope(scope: string): Option<string> {
    if PACK <= scope then Some(scope[|PACK|..]) else None
  }

  // ---------------------------------------------------------------- counting

  predicate Counts(r: Record, service: Option<string>, pack: Option<string>) {
    && r.resourceType == "instance"
    && (service.Some? ==> r.serviceType == service)
    && (pack.Some? ==> r.pack == pack)
  }

  function Count(records: seq<Record>, service: Option<string>, pack: Option<string>): nat {
    if records == [] then 0
    else
      var n := |records| - 1;
      Count(records[..n], service, pack) + if Counts(records[n], service, pack) then 1 else 0
  }

  function Compute(records: seq<Record>, service: Option<string>, pack: Option<string>): real {
    if records == [] then 0.0
    else
      var n := |records| - 1;
      Compute(records[..n], service, pack) + if Counts(records[n], service, pack) then records[n].quantity else 0.0
  }

  function UsageEntry(quotas: Quotas, records: seq<Record>, scope: string, service: Option<string>,
                      pack: Option<string>): Entry {
    var page := NewestPage(records);
    var used := if service.None? && pack.None? && SERVICE <= scope then Count(page, ServiceFromScope(scope), None)
                else Count(page, service, pack);
    if scope in quotas then
      Entry(scope, used, quotas[scope].maxInstances, Compute(page, service, pack), quotas[scope].maxCompute,
            quotas[scope].period)
    else Entry(scope, used, None, Compute(page, service, pack), None, "lifetime")
  }

  method ComputeUsage(quotas: Quotas, records: seq<Record>, scope: string, service: Option<string>,
                      pack: Option<string>) returns (entry: Entry)
    ensures entry == UsageEntry(quotas, records, scope, service, pack)
  {
    var page := NewestPage(records);
    var used := 0;
    var compute := 0.0;
    for i := 0 to |page|
      invariant used == Count(page[..i], service, pack) && compute == Compute(page[..i], service, pack)
    {
      assert page[..i + 1][..i] == page[..i];
      var r := page[i];
      if r.resourceType != "instance" {
        continue;
      }
      if service.Some? && r.serviceType != service {
        continue;
      }
      if pack.Some? && r.pack != pack {
        continue;
      }
      used := used + 1;
      compute := compute + r.quantity;
    }
    assert page[..|page|] == page;
    if service.None? && pack.None? && SERVICE <= scope {
      used := CountService(page, scope[|SERVICE|..]);
    }
    if scope in quotas {
      var q := quotas[scope];
      return Entry(scope, used, q.maxInstances, compute, q.maxCompute, q.period);
    }
    return Entry(scope, used, None, compute, None, "lifetime");
  }

  method CountService(page: seq<Record>, service: string) returns (used: nat)
    ensures used == Count(page, Some(service), None)
  {
    used := 0;
    for i := 0 to |page|
      invariant used == Count(page[..i], Some(service), None)
    {
      assert page[..i + 1][..i] == page[..i];
      if page[i].resourceType == "instance" && page[i].serviceType == Some(service) {
        used := used + 1;
      }
    }
    assert page[..|page|] == page;
  }

  /** The positions of the instance records with that service type and that pack. */
  function Matching(records: seq<Record>, service: Option<string>, pack: Option<string>, n: nat): set<nat>
    requires n <= |records|
  {
    set i: nat | i < n && records[i].resourceType == "instance" && service in {None, records[i].serviceType}
                 && pack in {None, records[i].pack}
  }

  lemma MatchingNext(records: seq<Record>, service: Option<string>, pack: Option<string>, n: nat)
    requires n < |records|
    ensures |Matching(records, service, pack, n + 1)|
            == |Matching(records, service, pack, n)| + if Counts(records[n], service, pack) then 1 else 0
  {
    var before := Matching(records, service, pack, n);
    assert n !in before;
    assert Matching(records, service, pack, n + 1) == before + if Counts(records[n], service, pack) then {n} else {};
  }

  /** What is counted: exactly these. */
  lemma {:induction false} CountIsExact(records: seq<Record>, service: Option<string>, pack: Option<string>, n: nat)
    requires n <= |records|
    ensures Count(records[..n], service, pack) == |Matching(records, service, pack, n)|
    decreases n
  {
    if n == 0 {
      assert Matching(records, service, pack, 0) == {};
    } else {
      CountIsExact(records, service, pack, n - 1);
      MatchingNext(records, service, pack, n - 1);
      assert records[..n][..n - 1] == records[..n - 1];
    }
  }

  /** Compute units add up over the records. */
  lemma {:induction false} ComputeAdds(a: seq<Record>, b: seq<Record>, service: Option<string>, pack: Option<string>)
    ensures Compute(a + b, service, pack) == Compute(a, service, pack) + Compute(b, service, pack)
    decreases |b|
  {
    if b == [] {
      assert a + b == a;
    } else {
      assert (a + b)[..|a + b| - 1] == a + b[..|b| - 1];
      ComputeAdds(a, b[..|b| - 1], service, pack);
    }
  }

  /** Each counted record brings its quantity, any other nothing. */
  lemma ComputeOfOne(r: Record, service: Option<string>, pack: Option<string>)
    ensures Compute([r], service, pack)
            == if Matching([r], service, pack, 1) == {0} then r.quantity else 0.0
  {
    assert [r][..0] == [];
    assert Counts(r, service, pack) <==> 0 in Matching([r], service, pack, 1);
    assert forall i :: i in Matching([r], service, pack, 1) ==> i == 0;
  }

  /** An entry carries its scope's quota, or none and the default period. */
  lemma EntryCarriesQuota(quotas: Quotas, records: seq<Record>, scope: string, service: Option<string>,
                          pack: Option<string>)
    ensures var entry := UsageEntry(quotas, records, scope, service, pack);
            && entry.scope == scope && entry.usedCompute == Compute(NewestPage(records), service, pack)
            && entry.used
               == (if service.None? && pack.None? && "service_type:" <= scope
                   then Count(NewestPage(records), Some(scope[13..]), None)
                   else Count(NewestPage(records), service, pack))
            && (if scope in quotas
                then entry.max == quotas[scope].maxInstances && entry.maxCompute == quotas[scope].maxCompute
                     && entry.period == quotas[scope].period
                else entry.max == None && entry.maxCompute == None && entry.period == "lifetime")
  {
  }

  // ---------------------------------------------------------------- the gate

  function ServiceEntry(quotas: Quotas, records: seq<Record>, service: string): Entry {
    UsageEntry(quotas, records, ServiceScope(service), Some(service), None)
  }

  function PackEntry(quotas: Quotas, records: seq<Record>, pack: string): Entry {
    UsageEntry(quotas, records, PackScope(pack), None, Some(pack))
  }

  function Checked(quotas: Quotas, records: seq<Record>, service: string, pack: Option<string>): CheckResult {
    var perService := ServiceEntry(quotas, records, service);
    if !Truthy(pack) then CheckResult(!perService.AtLimit(), [perService])
    else
      var perPack := PackEntry(quotas, records, pack.value);
      CheckResult(!perService.AtLimit() && !perPack.AtLimit(), [perService, perPack])
  }

  method CheckProvision(quotas: Quotas, records: seq<Record>, service: string, pack: Option<string>)
    returns (result: CheckResult)
    ensures result == Checked(quotas, records, service, pack)
  {
    var perService := ComputeUsage(quotas, records, ServiceScope(service), Some(service), None);
    var entries := [perService];
    var reasons := 0;
    if perService.AtLimit() {
      reasons := reasons + 1;
    }
    if Truthy(pack) {
      var perPack := ComputeUsage(quotas, records, PackScope(pack.value), None, pack);
      entries := entries + [perPack];
      if perPack.AtLimit() {
        reasons := reasons + 1;
      }
    }
    result := CheckResult(reasons == 0, entries);
  }

  predicate UnderCap(quotas: Quotas, scope: string, used: nat) {
    scope in quotas && quotas[scope].maxInstances.Some? ==> used < quotas[scope].maxInstances.value
  }

  /** The gate lets a provision through exactly when the service, and the pack if
      the catalog names one, are under their caps or uncapped. */
  lemma GateAllowsExactly(quotas: Quotas, records: seq<Record>, service: string, pack: Option<string>)
    ensures Checked(quotas, records, service, pack).allow <==>
            && UnderCap(quotas, ServiceScope(service), Count(NewestPage(records), Some(service), None))
            && (pack.Some? && pack.value != "" ==>
                  UnderCap(quotas, PackScope(pack.value), Count(NewestPage(records), None, pack)))
  {
    if Truthy(pack) {
      assert PackScope(pack.value)[0] == 'p' && SERVICE[0] == 's';
    }
  }

  /** The breakdown explains the verdict: it has the service's entry, and the pack's if
      the catalog names one, and the gate allows exactly when none of them has a cap
      that its use has reached. */
  lemma BreakdownExplainsVerdict(quotas: Quotas, records: seq<Record>, service: string, pack: Option<string>)
    ensures var result := Checked(quotas, records, service, pack);
            && |result.breakdown| == (if pack.Some? && pack.value != "" then 2 else 1)
            && result.breakdown[0].scope == "service_type:" + service
            && (Truthy(pack) ==> result.breakdown[1].scope == "pack:" + pack.value)
            && (result.allow <==> forall i :: 0 <= i < |result.breakdown| ==>
                  result.breakdown[i].max.None? || result.breakdown[i].used < result.breakdown[i].max.value)
  {
  }

  // ---------------------------------------------------------------- the summary

  predicate Observed(records: seq<Record>, scope: string) {
    exists i :: 0 <= i < |records| &&
      ((Truthy(records[i].serviceType) && scope == ServiceScope(records[i].serviceType.value)) ||
       (Truthy(records[i].pack) && scope == PackScope(records[i].pack.value)))
  }

  method ObservedScopes(records: seq<Record>) returns (scopes: set<string>)
    ensures forall s :: s in scopes <==> Observed(NewestPage(records), s)
  {
    var page := NewestPage(records);
    scopes := {};
    for i := 0 to |page|
      invariant forall s :: s in scopes <==> Observed(page[..i], s)
    {
      ghost var before := scopes;
      if Truthy(page[i].serviceType) {
        scopes := scopes + {ServiceScope(page[i].serviceType.value)};
      }
      if Truthy(page[i].pack) {
        scopes := scopes + {PackScope(page[i].pack.value)};
      }
      ObservedSnoc(page, i, before, scopes);
    }
    assert page[..|page|] == page;
  }

  lemma ObservedSnoc(page: seq<Record>, i: nat, before: set<string>, after: set<string>)
    requires i < |page| && forall s :: s in before <==> Observed(page[..i], s)
    requires after == before + (if Truthy(page[i].serviceType) then {ServiceScope(page[i].serviceType.value)} else {})
                      + (if Truthy(page[i].pack) then {PackScope(page[i].pack.value)} else {})
    ensures forall s :: s in after <==> Observed(page[..i + 1], s)
  {
    forall s ensures s in after <==> Observed(page[..i + 1], s) {
      assert forall j :: 0 <= j < i ==> page[..i + 1][j] == page[..i][j];
      assert page[..i + 1][i] == page[i];
    }
  }

  lemma LexIsStrictTotal()
    ensures StrictTotal(LexLt)
  {
    forall x ensures !LexLt(x, x) { LexIrreflexive(x); }
    forall x, y, z | LexLt(x, y) && LexLt(y, z) ensures LexLt(x, z) { LexTransitive(x, y, z); }
    forall x, y ensures x == y || LexLt(x, y) || LexLt(y, x) { LexTotal(x, y); }
  }

  method SortScopes(scopes: set<string>) returns (list: seq<string>)
    ensures forall i, j :: 0 <= i < j < |list| ==> LexLt(list[i], list[j])
    ensures forall s :: s in list <==> s in scopes
  {
    LexIsStrictTotal();
    list := Sorted(scopes, LexLt);
  }

  function SummaryEntry(quotas: Quotas, records: seq<Record>, scope: string): Entry {
    UsageEntry(quotas, records, scope, ServiceFromScope(scope), PackFromScope(scope))
  }

  /** What a summary lists: one entry per scope that is configured or observed,
      sorted by scope, each with the numbers of its scope. */
  ghost predicate IsSummary(quotas: Quotas, records: seq<Record>, summary: seq<Entry>) {
    && (forall i :: 0 <= i < |summary| ==> summary[i] == SummaryEntry(quotas, records, summary[i].scope))
    && (forall i, j :: 0 <= i < j < |summary| ==> LexLt(summary[i].scope, summary[j].scope))
    && (forall s :: Lists(summary, s) <==> s in quotas || Observed(NewestPage(records), s))
  }

  method UsageSummary(quotas: Quotas, records: seq<Record>) returns (summary: seq<Entry>)
    ensures IsSummary(quotas, records, summary)
  {
    var observed := ObservedScopes(records);
    var scopes := SortScopes(quotas.Keys + observed);
    summary := EntriesFor(quotas, records, scopes);
    SummaryIsComplete(quotas, records, observed, scopes, summary);
  }

  lemma SummaryIsComplete(quotas: Quotas, records: seq<Record>, observed: set<string>, scopes: seq<string>,
                          summary: seq<Entry>)
    requires forall s :: s in observed <==> Observed(NewestPage(records), s)
    requires forall i, j :: 0 <= i < j < |scopes| ==> LexLt(scopes[i], scopes[j])
    requires forall s :: s in scopes <==> s in quotas.Keys + observed
    requires |summary| == |scopes|
    requires forall i :: 0 <= i < |scopes| ==>
             summary[i].scope == scopes[i] && summary[i] == SummaryEntry(quotas, records, scopes[i])
    ensures IsSummary(quotas, records, summary)
  {
    ListedScopes(summary, scopes);
    forall s ensures Lists(summary, s) <==> s in quotas || Observed(NewestPage(records), s) {
      assert s in scopes <==> Lists(summary, s);
    }
  }

  method EntriesFor(quotas: Quotas, records: seq<Record>, scopes: seq<string>) returns (summary: seq<Entry>)
    ensures |summary| == |scopes|
    ensures forall i :: 0 <= i < |scopes| ==>
            summary[i].scope == scopes[i] && summary[i] == SummaryEntry(quotas, records, scopes[i])
  {
    summary := [];
    for i := 0 to |scopes|
      invariant |summary| == i
      invariant forall j :: 0 <= j < i ==>
                summary[j].scope == scopes[j] && summary[j] == SummaryEntry(quotas, records, scopes[j])
    {
      var entry := ComputeUsage(quotas, records, scopes[i], ServiceFromScope(scopes[i]), PackFromScope(scopes[i]));
      summary := summary + [entry];
    }
  }

  lemma ListedScopes(summary: seq<Entry>, scopes: seq<string>)
    requires |summary| == |scopes| && forall i :: 0 <= i < |scopes| ==> summary[i].scope == scopes[i]
    ensures forall s :: s in scopes <==> Lists(summary, s)
  {
    forall s | s in scopes ensures Lists(summary, s) {
      var i :| 0 <= i < |scopes| && scopes[i] == s;
      assert summary[i].scope == s;
    }
  }

  predicate Lists(summary: seq<Entry>, scope: string) {
    exists i :: 0 <= i < |summary| && summary[i].scope == scope
  }

  /** A summary leaves out no scope that the gate would count anything in, and none
      that has a quota. */
  lemma SummaryListsWhatCounts(quotas: Quotas, records: seq<Record>, summary: seq<Entry>, name: string)
    requires IsSummary(quotas, records, summary) && name != ""
    ensures Count(NewestPage(records), Some(name), None) > 0 ==> Lists(summary, "service_type:" + name)
    ensures Count(NewestPage(records), None, Some(name)) > 0 ==> Lists(summary, "pack:" + name)
    ensures forall scope :: scope in quotas ==> Lists(summary, scope)
  {
    var page := NewestPage(records);
    CountZero(page, Some(name), None);
    CountZero(page, None, Some(name));
    if Count(page, Some(name), None) > 0 {
      var i :| 0 <= i < |page| && Counts(page[i], Some(name), None);
      assert Observed(page, ServiceScope(name));
    }
    if Count(page, None, Some(name)) > 0 {
      var i :| 0 <= i < |page| && Counts(page[i], None, Some(name));
      assert Observed(page, PackScope(name));
    }
  }

  /** The summary reports the gate's own numbers for every scope the gate checks. */
  lemma SummaryAgreesWithGate(quotas: Quotas, records: seq<Record>, service: string, pack: string)
    ensures SummaryEntry(quotas, records, ServiceScope(service)) == ServiceEntry(quotas, records, service)
    ensures SummaryEntry(quotas, records, PackScope(pack)) == PackEntry(quotas, records, pack)
  {
    assert ServiceScope(service)[0] == 's' && PACK[0] == 'p';
    assert PackScope(pack)[0] == 'p' && SERVICE[0] == 's';
    assert ServiceScope(service)[|SERVICE|..] == service;
    assert PackScope(pack)[|PACK|..] == pack;
  }

  // ---------------------------------------------------------------- provisions, one at a time

  /** A synchronous provision: the pack the catalog gave the gate, the pack it gave
      the meter, whether policy, render and the final put went through, and whether
      the record reached the metering service. */
  datatype Attempt = Attempt(service: string, gatePack: Option<string>, meterPack: Option<string>, proceeds: bool,
                             metered: bool)

  /** The metering record an attempt leaves. */
  function Metered(a: Attempt): Record {
    Record("instance", Some(a.service), a.meterPack, 1.0)
  }

  /** Gate, policy, render and meter all let the attempt through. */
  predicate GoesThrough(quotas: Quotas, records: seq<Record>, a: Attempt) {
    Checked(quotas, records, a.service, a.gatePack).allow && a.proceeds && a.metered
  }

  function Provisioned(quotas: Quotas, records: seq<Record>, a: Attempt): seq<Record> {
    if GoesThrough(quotas, records, a) then records + [Metered(a)] else records
  }

  function Run(quotas: Quotas, records: seq<Record>, attempts: seq<Attempt>): seq<Record>
    decreases |attempts|
  {
    if attempts == [] then records else Run(quotas, Provisioned(quotas, records, attempts[0]), attempts[1..])
  }

  /** Every check saw all records: the tenant never had more than one page. */
  ghost predicate OnePage(quotas: Quotas, records: seq<Record>, attempts: seq<Attempt>)
    decreases |attempts|
  {
    attempts != [] ==> |records| <= PAGE && OnePage(quotas, Provisioned(quotas, records, attempts[0]), attempts[1..])
  }

  /** Whenever the meter is told this pack, the gate was asked about it. */
  ghost predicate GateKnowsPack(attempts: seq<Attempt>, pack: string) {
    forall i :: 0 <= i < |attempts| && attempts[i].meterPack == Some(pack) ==> attempts[i].gatePack == Some(pack)
  }

  function Max(a: int, b: int): int { if a < b then b else a }

  lemma CountSnoc(records: seq<Record>, r: Record, service: Option<string>, pack: Option<string>)
    ensures Count(records + [r], service, pack) ==
            Count(records, service, pack) + if Counts(r, service, pack) then 1 else 0
  {
    assert (records + [r])[..|records|] == records;
  }

  lemma {:induction false} CountGrows(quotas: Quotas, records: seq<Record>, attempts: seq<Attempt>,
                                      service: Option<string>, pack: Option<string>)
    ensures Count(records, service, pack) <= Count(Run(quotas, records, attempts), service, pack)
    decreases |attempts|
  {
    if attempts != [] {
      CountSnoc(records, Metered(attempts[0]), service, pack);
      CountGrows(quotas, Provisioned(quotas, records, attempts[0]), attempts[1..], service, pack);
    }
  }

  predicate PackUnderCap(quotas: Quotas, records: seq<Record>, pack: string) {
    UnderCap(quotas, PackScope(pack), Count(NewestPage(records), None, Some(pack)))
  }

  /** The service has reached its bound, but so much of it lies beyond the newest page
      that the gate still sees less than the cap. */
  predicate ServiceSlips(quotas: Quotas, records: seq<Record>, a: Attempt, service: string, cap: int, bound: int) {
    && a.service == service && a.proceeds && a.metered
    && (Truthy(a.gatePack) ==> PackUnderCap(quotas, records, a.gatePack.value))
    && Count(NewestPage(records), Some(service), None) < cap
    && Count(records, Some(service), None) >= bound
  }

  ghost predicate NoServiceSlips(quotas: Quotas, records: seq<Record>, attempts: seq<Attempt>,
                                 service: string, cap: int, bound: int)
    decreases |attempts|
  {
    attempts != [] ==>
      && !ServiceSlips(quotas, records, attempts[0], service, cap, bound)
      && NoServiceSlips(quotas, Provisioned(quotas, records, attempts[0]), attempts[1..], service, cap, bound)
  }

  predicate Caps(quotas: Quotas, scope: string, cap: int) {
    scope in quotas && quotas[scope].maxInstances == Some(cap)
  }

  lemma {:induction false} ServiceStaysUnder(quotas: Quotas, records: seq<Record>, attempts: seq<Attempt>,
                                             service: string, cap: int, bound: int)
    requires Caps(quotas, ServiceScope(service), cap) && Count(records, Some(service), None) <= bound
    ensures Count(Run(quotas, records, attempts), Some(service), None) <= bound
            <==> NoServiceSlips(quotas, records, attempts, service, cap, bound)
    decreases |attempts|
  {
    if attempts != [] {
      var a := attempts[0];
      var records' := Provisioned(quotas, records, a);
      CountSnoc(records, Metered(a), Some(service), None);
      GateAllowsExactly(quotas, records, a.service, a.gatePack);
      if ServiceSlips(quotas, records, a, service, cap, bound) {
        CountGrows(quotas, records', attempts[1..], Some(service), None);
      } else {
        ServiceStaysUnder(quotas, records', attempts[1..], service, cap, bound);
      }
    }
  }

  /** Over a whole run a capped service stays at most the larger of its start and its
      cap, exactly when no attempt goes through at that bound because the gate's one
      page no longer shows the cap's worth of records. */
  lemma ServiceCapHoldsExactly(quotas: Quotas, records: seq<Record>, attempts: seq<Attempt>, service: string, cap: int)
    requires Caps(quotas, ServiceScope(service), cap)
    ensures var bound := Max(Count(records, Some(service), None), cap);
            Count(Run(quotas, records, attempts), Some(service), None) <= bound
            <==> NoServiceSlips(quotas, records, attempts, service, cap, bound)
  {
    ServiceStaysUnder(quotas, records, attempts, service, cap, Max(Count(records, Some(service), None), cap));
  }

  lemma {:induction false} OnePageNoServiceSlips(quotas: Quotas, records: seq<Record>, attempts: seq<Attempt>,
                                                 service: string, cap: int, bound: int)
    requires OnePage(quotas, records, attempts) && cap <= bound
    ensures NoServiceSlips(quotas, records, attempts, service, cap, bound)
    decreases |attempts|
  {
    if attempts != [] {
      OnePageNoServiceSlips(quotas, Provisioned(quotas, records, attempts[0]), attempts[1..], service, cap, bound);
    }
  }

  /** In particular while the tenant has at most one page of records. */
  lemma ServiceCapHolds(quotas: Quotas, records: seq<Record>, attempts: seq<Attempt>, service: string, cap: int)
    requires OnePage(quotas, records, attempts) && Caps(quotas, ServiceScope(service), cap)
    ensures Count(Run(quotas, records, attempts), Some(service), None) <= Max(Count(records, Some(service), None), cap)
  {
    OnePageNoServiceSlips(quotas, records, attempts, service, cap, Max(Count(records, Some(service), None), cap));
    ServiceCapHoldsExactly(quotas, records, attempts, service, cap);
  }

  function Repeat(r: Record, n: nat): (records: seq<Record>)
    ensures |records| == n
  {
    seq(n, i => r)
  }

  lemma {:induction false} CountRepeat(r: Record, n: nat, service: Option<string>, pack: Option<string>)
    ensures Count(Repeat(r, n), service, pack) == if Counts(r, service, pack) then n else 0
  {
    if n > 0 {
      CountRepeat(r, n - 1, service, pack);
      assert Repeat(r, n)[..n - 1] == Repeat(r, n - 1);
    }
  }

  /** The witness: a cap's worth of one service behind a page of another. */
  lemma HiddenRecordsBreakTheCap(service: string, other: string, cap: nat) returns (records: seq<Record>)
    requires service != other && cap >= 1
    ensures var quotas := map[ServiceScope(service) := Quota(Some(cap), None, "lifetime")];
            var a := Attempt(service, None, None, true, true);
            && Count(records, Some(service), None) == cap
            && Count(Provisioned(quotas, records, a), Some(service), None) == cap + 1
  {
    var mine := Repeat(Record("instance", Some(service), None, 1.0), cap);
    var theirs := Repeat(Record("instance", Some(other), None, 1.0), PAGE);
    records := mine + theirs;
    CountRepeat(mine[0], cap, Some(service), None);
    CountRepeat(theirs[0], PAGE, Some(service), None);
    CountConcat(mine, theirs, Some(service), None);
    assert NewestPage(records) == theirs;
    var quotas := map[ServiceScope(service) := Quota(Some(cap), None, "lifetime")];
    GateAllowsExactly(quotas, records, service, None);
    CountSnoc(records, Metered(Attempt(service, None, None, true, true)), Some(service), None);
  }

  /** The pack has reached its bound, and the gate was not asked about it, or sees
      less than the cap on its page. */
  predicate PackSlips(quotas: Quotas, records: seq<Record>, a: Attempt, pack: string, cap: int, bound: int) {
    && a.meterPack == Some(pack) && a.proceeds && a.metered
    && UnderCap(quotas, ServiceScope(a.service), Count(NewestPage(records), Some(a.service), None))
    && (Truthy(a.gatePack) && a.gatePack != Some(pack) ==> PackUnderCap(quotas, records, a.gatePack.value))
    && (a.gatePack == Some(pack) ==> Count(NewestPage(records), None, Some(pack)) < cap)
    && Count(records, None, Some(pack)) >= bound
  }

  ghost predicate NoPackSlips(quotas: Quotas, records: seq<Record>, attempts: seq<Attempt>,
                              pack: string, cap: int, bound: int)
    decreases |attempts|
  {
    attempts != [] ==>
      && !PackSlips(quotas, records, attempts[0], pack, cap, bound)
      && NoPackSlips(quotas, Provisioned(quotas, records, attempts[0]), attempts[1..], pack, cap, bound)
  }

  lemma {:induction false} PackStaysUnder(quotas: Quotas, records: seq<Record>, attempts: seq<Attempt>,
                                          pack: string, cap: int, bound: int)
    requires Caps(quotas, PackScope(pack), cap) && pack != "" && Count(records, None, Some(pack)) <= bound
    ensures Count(Run(quotas, records, attempts), None, Some(pack)) <= bound
            <==> NoPackSlips(quotas, records, attempts, pack, cap, bound)
    decreases |attempts|
  {
    if attempts != [] {
      var a := attempts[0];
      var records' := Provisioned(quotas, records, a);
      CountSnoc(records, Metered(a), None, Some(pack));
      GateAllowsExactly(quotas, records, a.service, a.gatePack);
      if PackSlips(quotas, records, a, pack, cap, bound) {
        CountGrows(quotas, records', attempts[1..], None, Some(pack));
      } else {
        PackStaysUnder(quotas, records', attempts[1..], pack, cap, bound);
      }
    }
  }

  /** Over a whole run a capped pack stays at most the larger of its start and its
      cap, exactly when no attempt goes through at that bound unasked or unseen. */
  lemma PackCapHoldsExactly(quotas: Quotas, records: seq<Record>, attempts: seq<Attempt>, pack: string, cap: int)
    requires Caps(quotas, PackScope(pack), cap) && pack != ""
    ensures var bound := Max(Count(records, None, Some(pack)), cap);
            Count(Run(quotas, records, attempts), None, Some(pack)) <= bound
            <==> NoPackSlips(quotas, records, attempts, pack, cap, bound)
  {
    PackStaysUnder(quotas, records, attempts, pack, cap, Max(Count(records, None, Some(pack)), cap));
  }

  lemma {:induction false} OnePageNoPackSlips(quotas: Quotas, records: seq<Record>, attempts: seq<Attempt>,
                                              pack: string, cap: int, bound: int)
    requires OnePage(quotas, records, attempts) && GateKnowsPack(attempts, pack) && cap <= bound
    ensures NoPackSlips(quotas, records, attempts, pack, cap, bound)
    decreases |attempts|
  {
    if attempts != [] {
      OnePageNoPackSlips(quotas, Provisioned(quotas, records, attempts[0]), attempts[1..], pack, cap, bound);
    }
  }

  /** In particular while there is one page of records and the gate is asked about
      the pack whenever the meter is told it. */
  lemma PackCapHolds(quotas: Quotas, records: seq<Record>, attempts: seq<Attempt>, pack: string, cap: int)
    requires OnePage(quotas, records, attempts) && GateKnowsPack(attempts, pack)
    requires Caps(quotas, PackScope(pack), cap) && pack != ""
    ensures Count(Run(quotas, records, attempts), None, Some(pack)) <= Max(Count(records, None, Some(pack)), cap)
  {
    OnePageNoPackSlips(quotas, records, attempts, pack, cap, Max(Count(records, None, Some(pack)), cap));
    PackCapHoldsExactly(quotas, records, attempts, pack, cap);
  }

  /** The witness: the catalog is down for the gate and back for the meter. */
  lemma UnaskedPackBreaksTheCap(service: string, pack: string, cap: nat) returns (records: seq<Record>)
    ensures var quotas := map[PackScope(pack) := Quota(Some(cap), None, "lifetime")];
            var a := Attempt(service, None, Some(pack), true, true);
            && Count(records, None, Some(pack)) == cap
            && Count(Provisioned(quotas, records, a), None, Some(pack)) == cap + 1
  {
    var r := Record("instance", Some(service), Some(pack), 1.0);
    records := Repeat(r, cap);
    CountRepeat(r, cap, None, Some(pack));
    var quotas := map[PackScope(pack) := Quota(Some(cap), None, "lifetime")];
    assert ServiceScope(service)[0] == 's' && PackScope(pack)[0] == 'p';
    GateAllowsExactly(quotas, records, service, None);
    CountSnoc(records, Metered(Attempt(service, None, Some(pack), true, true)), None, Some(pack));
  }

  lemma {:induction false} CountConcat(a: seq<Record>, b: seq<Record>, service: Option<string>, pack: Option<string>)
    ensures Count(a + b, service, pack) == Count(a, service, pack) + Count(b, service, pack)
    decreases |b|
  {
    if b == [] {
      assert a + b == a;
    } else {
      assert (a + b)[..|a + b| - 1] == a + b[..|b| - 1];
      CountConcat(a, b[..|b| - 1], service, pack);
    }
  }

  /** The gate sees the true count exactly when no counted record is older than the
      newest page; beyond that it undercounts by the records it cannot see. */
  lemma GateCountsExactly(records: seq<Record>, service: Option<string>, pack: Option<string>)
    ensures var hidden := records[..|records| - |NewestPage(records)|];
            && Count(records, service, pack) == Count(NewestPage(records), service, pack) + Count(hidden, service, pack)
            && (Count(NewestPage(records), service, pack) == Count(records, service, pack) <==>
                  forall i :: 0 <= i < |hidden| ==> !Counts(hidden[i], service, pack))
  {
    var page := NewestPage(records);
    var hidden := records[..|records| - |page|];
    assert records == hidden + page;
    CountConcat(hidden, page, service, pack);
    CountZero(hidden, service, pack);
  }

  lemma {:induction false} CountZero(records: seq<Record>, service: Option<string>, pack: Option<string>)
    ensures Count(records, service, pack) == 0 <==>
            forall i :: 0 <= i < |records| ==> !Counts(records[i], service, pack)
    decreases |records|
  {
    if records != [] {
      CountZero(records[..|records| - 1], service, pack);
    }
  }
}
