/** What the gate reads: the usage store's newest page of a tenant, which is the page
    the gate's counts are about (libs/common/sovereign/quotas/enforcer.py,
    libs/common/sovereign/usage_store.py). */
module QuotaUsage {
  import opened Prelude
  import opened Lex
  import opened UsageIndex
  import opened QuotaGate

  function Meta(u: Usage, key: string): Option<string> {
    if key in u.metadata then Some(u.metadata[key]) else None
  }

  function RecordOf(u: Usage): Record {
    Record(u.resourceType, Meta(u, "service_type"), Meta(u, "pack"), u.quantity)
  }

  function RecordsOf(us: seq<Usage>): (records: seq<Record>)
    ensures |records| == |us|
  {
    seq(|us|, i requires 0 <= i < |us| => RecordOf(us[i]))
  }

  /** The usage a provision records. */
  function EmittedUsage(ts: Timestamp, tenantId: string, instanceId: string, service: string, planId: string,
                        pack: Option<string>): Usage {
    Usage(ts, tenantId, instanceId, "instance", 1.0, "instance",
          map["service_type" := service, "plan_id" := planId]
          + if pack.Some? then map["pack" := pack.value] else map[])
  }

  /** The gate reads the emitted usage as the record the runs of the gate add. */
  lemma EmittedIsMetered(ts: Timestamp, tenantId: string, instanceId: string, planId: string, a: Attempt)
    ensures RecordOf(EmittedUsage(ts, tenantId, instanceId, a.service, planId, a.meterPack)) == Metered(a)
    ensures Metered(a).resourceType == "instance" && Metered(a).serviceType == Some(a.service)
    ensures Metered(a).pack == a.meterPack && Metered(a).quantity == 1.0
  {
  }

  /** The tenant's records in the table are exactly these, in time order, under these keys. */
  ghost predicate Arrived(table: Table, tenantId: string, us: seq<Usage>, ids: seq<string>) {
    && |ids| == |us|
    && (forall i :: 0 <= i < |us| ==> (tenantId, ids[i]) in table && table[(tenantId, ids[i])] == us[i])
    && (forall k :: (tenantId, k) in table ==> k in ids)
    && (forall i, j :: 0 <= i < j < |us| ==> Before(us[i].ts, us[j].ts))
  }

  /** Recording one more usage, later than all before it. */
  lemma ArrivesNext(table: Table, offset: string, tenantId: string, us: seq<Usage>, ids: seq<string>,
                    u: Usage, suffix: string)
    requires ValidOffset(offset) && TableOk(table, offset) && Arrived(table, tenantId, us, ids)
    requires ValidTime(u.ts) && forall i :: 0 <= i < |us| ==> Before(us[i].ts, u.ts)
    ensures var id := EventId(u, offset, suffix);
            Arrived(table[(tenantId, id) := u], tenantId, us + [u], ids + [id])
  {
    var id := EventId(u, offset, suffix);
    forall i | 0 <= i < |us| ensures ids[i] != id {
      LaterHasGreaterKey(us[i], KeySuffix(table, offset, tenantId, ids[i]), u, suffix, offset);
      LexIrreflexive(id);
    }
    ArrivedSnoc(table, tenantId, us, ids, u, id);
  }

  lemma ArrivedSnoc(table: Table, tenantId: string, us: seq<Usage>, ids: seq<string>, u: Usage, id: string)
    requires Arrived(table, tenantId, us, ids) && id !in ids
    requires forall i :: 0 <= i < |us| ==> Before(us[i].ts, u.ts)
    ensures Arrived(table[(tenantId, id) := u], tenantId, us + [u], ids + [id])
  {
    var table', us', ids' := table[(tenantId, id) := u], us + [u], ids + [id];
    forall i | 0 <= i < |us'| ensures (tenantId, ids'[i]) in table' && table'[(tenantId, ids'[i])] == us'[i] {
      assert i < |us| ==> ids[i] in ids;
    }
    forall k | (tenantId, k) in table' ensures k in ids' {
      assert k == id || (tenantId, k) in table;
    }
  }

  ghost function KeySuffix(table: Table, offset: string, tenantId: string, id: string): string
    requires TableOk(table, offset) && (tenantId, id) in table
  {
    var suffix :| id == EventId(table[(tenantId, id)], offset, suffix);
    suffix
  }

  lemma LaterHasGreaterKey(u: Usage, p: string, v: Usage, q: string, offset: string)
    requires ValidOffset(offset) && ValidTime(u.ts) && ValidTime(v.ts) && Before(u.ts, v.ts)
    ensures LexLt(EventId(u, offset, p), EventId(v, offset, q))
  {
    KeyOrder(u.ts, v.ts, offset, "#" + u.resourceId + "#" + p, "#" + v.resourceId + "#" + q);
  }

  lemma KeysAscend(table: Table, offset: string, tenantId: string, us: seq<Usage>, ids: seq<string>)
    requires ValidOffset(offset) && TableOk(table, offset) && Arrived(table, tenantId, us, ids)
    ensures forall i, j :: 0 <= i < j < |ids| ==> LexLt(ids[i], ids[j])
  {
    forall i, j | 0 <= i < j < |ids| ensures LexLt(ids[i], ids[j]) {
      LaterHasGreaterKey(us[i], KeySuffix(table, offset, tenantId, ids[i]),
                         us[j], KeySuffix(table, offset, tenantId, ids[j]), offset);
    }
  }

  /** A page of ascending keys holds the last ones, backwards. */
  lemma {:induction false} PageFromTheEnd(ids: seq<string>, limit: nat, page: seq<string>, i: nat)
    requires forall a, b :: 0 <= a < b < |ids| ==> LexLt(ids[a], ids[b])
    requires IsPage(SetOf(ids), limit, page) && i < |page| && |page| <= |ids|
    ensures page[i] == ids[|ids| - 1 - i]
    decreases i
  {
    forall k | 0 <= k < i ensures page[k] == ids[|ids| - 1 - k] {
      PageFromTheEnd(ids, limit, page, k);
    }
    assert page[i] in SetOf(ids);
    var x :| 0 <= x < |ids| && ids[x] == page[i];
    NotLater(ids, limit, page, i, x);
    NotEarlier(ids, limit, page, i, x);
  }

  lemma NotLater(ids: seq<string>, limit: nat, page: seq<string>, i: nat, x: nat)
    requires IsPage(SetOf(ids), limit, page) && i < |page| <= |ids|
    requires forall k :: 0 <= k < i ==> page[k] == ids[|ids| - 1 - k]
    requires x < |ids| && ids[x] == page[i]
    ensures x <= |ids| - 1 - i
  {
    if x > |ids| - 1 - i {
      var k := |ids| - 1 - x;
      assert LexLt(page[i], page[k]) && page[k] == ids[x];
      LexIrreflexive(page[i]);
    }
  }

  lemma NotEarlier(ids: seq<string>, limit: nat, page: seq<string>, i: nat, x: nat)
    requires forall a, b :: 0 <= a < b < |ids| ==> LexLt(ids[a], ids[b])
    requires IsPage(SetOf(ids), limit, page) && i < |page| <= |ids|
    requires forall k :: 0 <= k < i ==> page[k] == ids[|ids| - 1 - k]
    requires x < |ids| && ids[x] == page[i]
    ensures x >= |ids| - 1 - i
  {
    if x < |ids| - 1 - i {
      var next := ids[|ids| - 1 - i];
      assert LexLt(page[i], next) && next in SetOf(ids);
      LexTotal(page[i], next);
      assert next in page;
      var y :| 0 <= y < |page| && page[y] == next;
      LexIrreflexive(next);
    }
  }

  lemma AscendingSize(ids: seq<string>)
    requires forall a, b :: 0 <= a < b < |ids| ==> LexLt(ids[a], ids[b])
    ensures |SetOf(ids)| == |ids|
  {
    forall a, b | 0 <= a < b < |ids| ensures ids[a] != ids[b] {
      LexIrreflexive(ids[a]);
    }
    DistinctSize(ids);
  }

  lemma AllKeysInRange(table: Table, offset: string, tenantId: string, us: seq<Usage>, ids: seq<string>)
    requires Arrived(table, tenantId, us, ids)
    ensures KeysInRange(table, offset, tenantId, None, None) == SetOf(ids)
  {
  }

  /** The unbounded page of at most a thousand is the newest thousand, newest first. */
  lemma QueryIsNewestPage(table: Table, offset: string, tenantId: string, us: seq<Usage>, ids: seq<string>,
                          page: seq<string>)
    requires ValidOffset(offset) && TableOk(table, offset) && Arrived(table, tenantId, us, ids)
    requires IsPage(KeysInRange(table, offset, tenantId, None, None), PAGE, page)
    ensures |page| == |NewestPage(RecordsOf(us))|
    ensures forall i :: 0 <= i < |page| ==> page[i] == ids[|ids| - 1 - i]
  {
    KeysAscend(table, offset, tenantId, us, ids);
    AscendingSize(ids);
    AllKeysInRange(table, offset, tenantId, us, ids);
    forall i | 0 <= i < |page| ensures page[i] == ids[|ids| - 1 - i] {
      PageFromTheEnd(ids, PAGE, page, i);
    }
  }

  lemma {:induction false} CountReversed(a: seq<Record>, b: seq<Record>, service: Option<string>, pack: Option<string>)
    requires |a| == |b| && forall i :: 0 <= i < |a| ==> a[i] == b[|a| - 1 - i]
    ensures Count(a, service, pack) == Count(b, service, pack)
    decreases |a|
  {
    if a != [] {
      var n := |a| - 1;
      CountReversed(a[..n], b[1..], service, pack);
      assert b == [b[0]] + b[1..];
      CountConcat([b[0]], b[1..], service, pack);
      assert [b[0]][..0] == [];
    }
  }

  /** The same records backwards: for every scope the numbers are the same. */
  lemma SameCounts(us: seq<Usage>, records: seq<Record>, service: Option<string>, pack: Option<string>)
    requires |records| == |NewestPage(RecordsOf(us))|
    requires forall i :: 0 <= i < |records| ==> records[i] == RecordOf(us[|us| - 1 - i])
    ensures Count(records, service, pack) == Count(NewestPage(RecordsOf(us)), service, pack)
  {
    CountReversed(records, NewestPage(RecordsOf(us)), service, pack);
  }

  /** The gate's query: no bounds, no filters, a thousand records. */
  method NewestThousand(store: UsageStore, tenantId: string) returns (found: seq<Usage>, ghost page: seq<string>)
    requires store.Valid()
    ensures IsPage(KeysInRange(store.table, store.offset, tenantId, None, None), PAGE, page) && |found| == |page|
    ensures forall i :: 0 <= i < |page| ==>
              (tenantId, page[i]) in store.table && found[i] == store.table[(tenantId, page[i])]
  {
    ghost var keys;
    found, page, keys := store.Query(tenantId, None, None, None, None, 1000);
  }

  lemma FoundFromTheEnd(table: Table, tenantId: string, us: seq<Usage>, ids: seq<string>, page: seq<string>,
                        found: seq<Usage>)
    requires Arrived(table, tenantId, us, ids) && |found| == |page| <= |us|
    requires forall i :: 0 <= i < |page| ==> page[i] == ids[|ids| - 1 - i]
    requires forall i :: 0 <= i < |page| ==> (tenantId, page[i]) in table && found[i] == table[(tenantId, page[i])]
    ensures forall i :: 0 <= i < |found| ==> RecordsOf(found)[i] == RecordOf(us[|us| - 1 - i])
  {
    forall i | 0 <= i < |found| ensures RecordsOf(found)[i] == RecordOf(us[|us| - 1 - i]) {
      assert page[i] == ids[|us| - 1 - i];
    }
  }

  lemma GateRecordsExact(store: UsageStore, tenantId: string, us: seq<Usage>, ids: seq<string>, page: seq<string>,
                         found: seq<Usage>)
    requires store.Valid() && Arrived(store.table, tenantId, us, ids)
    requires IsPage(KeysInRange(store.table, store.offset, tenantId, None, None), PAGE, page) && |found| == |page|
    requires forall i :: 0 <= i < |page| ==>
               (tenantId, page[i]) in store.table && found[i] == store.table[(tenantId, page[i])]
    ensures |found| == |NewestPage(RecordsOf(us))|
    ensures forall i :: 0 <= i < |found| ==> RecordsOf(found)[i] == RecordOf(us[|us| - 1 - i])
  {
    QueryIsNewestPage(store.table, store.offset, tenantId, us, ids, page);
    FoundFromTheEnd(store.table, tenantId, us, ids, page, found);
  }

  /** The records the gate counts are the tenant's newest page, newest first. */
  method GateRecords(store: UsageStore, tenantId: string, ghost us: seq<Usage>, ghost ids: seq<string>)
    returns (records: seq<Record>)
    requires store.Valid() && Arrived(store.table, tenantId, us, ids)
    ensures |records| == |NewestPage(RecordsOf(us))|
    ensures forall i :: 0 <= i < |records| ==> records[i] == RecordOf(us[|us| - 1 - i])
  {
    var found, page := NewestThousand(store, tenantId);
    GateRecordsExact(store, tenantId, us, ids, page, found);
    records := RecordsOf(found);
  }
}
