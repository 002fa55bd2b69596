/** Totals of one admitted day: the loop over its records, and conservation of money
    across the alternative views of the same rows. */
module LedgerTotals {
  import opened Common
  import opened LedgerTypes
  import opened Decimals
  import opened LedgerAdmission

  // ---------- views ----------

  type ProviderName = (string, Option<string>)

  function ProviderKey(r: Record): Option<string> { Some(r.provider) }
  function NameKey(r: Record): Option<Option<string>> { Some(r.serviceName) }
  function CombinedKey(r: Record): Option<ProviderName> { Some((r.provider, r.serviceName)) }
  function ServiceKey(r: Record): Option<ServiceId> { r.serviceId }
  function UnallocatedKey(r: Record): Option<ProviderName> {
    if r.serviceId.None? then Some((r.provider, r.serviceName)) else None
  }

  function Added<K>(m: map<K, int>, key: Option<K>, amount: int): map<K, int> {
    if key.None? then m else m[key.value := (if key.value in m then m[key.value] else 0) + amount]
  }

  /** The charges of a day's records, collected under a key; records without one are left out. */
  function View<K>(records: seq<Record>, key: Record -> Option<K>): map<K, int> {
    if records == [] then map[]
    else
      var r := records[|records| - 1];
      Added(View(records[..|records| - 1], key), key(r), r.charge)
  }

  function RowsView<K>(records: seq<Record>, key: Record -> Option<K>): map<K, int> {
    if records == [] then map[]
    else Added(RowsView(records[..|records| - 1], key), key(records[|records| - 1]), 1)
  }

  /** All charges of the records that a key covers. */
  function Charged<K(!new)>(records: seq<Record>, key: Record -> Option<K>): int {
    if records == [] then 0
    else
      var r := records[|records| - 1];
      Charged(records[..|records| - 1], key) + if key(r).Some? then r.charge else 0
  }

  datatype Views = Views(
    provider: map<string, int>, names: map<Option<string>, int>, combined: map<ProviderName, int>,
    unallocated: map<ProviderName, int>, unallocatedRows: map<ProviderName, int>)

  const NO_VIEWS := Views(map[], map[], map[], map[], map[])

  function ViewsOf(records: seq<Record>): Views {
    Views(View(records, ProviderKey), View(records, NameKey), View(records, CombinedKey),
          View(records, UnallocatedKey), RowsView(records, UnallocatedKey))
  }

  // ---------- ids ----------

  ghost function Ids(records: seq<Record>): set<string> {
    set r | r in records :: r.sourceRecordId
  }

  ghost predicate FreshIds(records: seq<Record>, seen: set<string>) {
    && (forall i, j :: 0 <= i < j < |records| ==> records[i].sourceRecordId != records[j].sourceRecordId)
    && (forall r :: r in records ==> r.sourceRecordId !in seen)
  }

  // ---------- the loop over a day's records ----------

  predicate AmountsFit(records: seq<Record>) {
    forall r :: r in records ==> InMoneyRange(r.charge)
  }

  lemma {:induction false} ViewBounded<K(!new)>(records: seq<Record>, key: Record -> Option<K>)
    requires AmountsFit(records)
    ensures forall k :: k in View(records, key) ==> Abs(View(records, key)[k]) <= |records| * MONEY_LIMIT
  {
    if records != [] {
      ViewBounded(records[..|records| - 1], key);
      assert records[|records| - 1] in records;
    }
  }

  lemma {:induction false} TotalBounded(records: seq<Record>, s: ServiceId)
    requires AmountsFit(records)
    ensures Abs(TotalOf(records, s).total) <= |records| * MONEY_LIMIT
  {
    if records != [] {
      TotalBounded(records[..|records| - 1], s);
      assert records[|records| - 1] in records;
    }
  }

  /** One more charge under a view's key, rounded to the context's precision, is exact. */
  method AddTo<K(==, !new)>(view: map<K, int>, ghost records: seq<Record>, key: Record -> Option<K>, r: Record)
    returns (n: map<K, int>)
    requires view == View(records, key) && AmountsFit(records + [r]) && |records| < MAX_RECORDS
    ensures n == View(records + [r], key)
  {
    assert (records + [r])[..|records|] == records;
    assert forall q :: q in records ==> q in records + [r];
    assert r in records + [r];
    if key(r).None? { return view; }
    var k := key(r).value;
    var current := if k in view then view[k] else 0;
    ViewBounded(records, key);
    AddIsExact(current, r.charge, |records|);
    n := view[k := ContextAdd(current, r.charge)];
  }

  method AddToViews(views: Views, ghost records: seq<Record>, r: Record) returns (next: Views)
    requires views == ViewsOf(records) && AmountsFit(records + [r]) && |records| < MAX_RECORDS
    ensures next == ViewsOf(records + [r])
  {
    var provider := AddTo(views.provider, records, ProviderKey, r);
    var names := AddTo(views.names, records, NameKey, r);
    var combined := AddTo(views.combined, records, CombinedKey, r);
    var unallocated := AddTo(views.unallocated, records, UnallocatedKey, r);
    var rows := Added(views.unallocatedRows, UnallocatedKey(r), 1);
    assert (records + [r])[..|records|] == records;
    next := Views(provider, names, combined, unallocated, rows);
  }

  method AddToTotals(totals: map<ServiceId, ServiceTotal>, services: set<ServiceId>, ghost records: seq<Record>,
                     r: Record)
    returns (next: map<ServiceId, ServiceTotal>)
    requires totals == TotalsOf(records, services) && AmountsFit(records + [r]) && |records| < MAX_RECORDS
    requires RecordFits(r, services)
    ensures next == TotalsOf(records + [r], services)
  {
    assert (records + [r])[..|records|] == records;
    assert forall q :: q in records ==> q in records + [r];
    next := totals;
    if r.serviceId.Some? {
      var total := totals[r.serviceId.value];
      TotalBounded(records, r.serviceId.value);
      AddIsExact(total.total, r.charge, |records|);
      next := totals[r.serviceId.value :=
        ServiceTotal(ContextAdd(total.total, r.charge), total.rows + 1, total.nonzero || r.charge != 0)];
    }
  }

  lemma FreshIdsExtend(records: seq<Record>, r: Record, seen: set<string>)
    requires FreshIds(records, seen) && r.sourceRecordId !in seen + Ids(records)
    ensures FreshIds(records + [r], seen)
    ensures Ids(records + [r]) == Ids(records) + {r.sourceRecordId}
  {
    var more := records + [r];
    forall i, j | 0 <= i < j < |more| ensures more[i].sourceRecordId != more[j].sourceRecordId {
      assert more[i] in records;
    }
  }

  lemma NoRecordsYet(services: set<ServiceId>, seen: set<string>)
    ensures FreshIds([], seen) && Ids([]) == {}
    ensures TotalsOf([], services) == map s | s in services :: NO_ROWS
    ensures ViewsOf([]) == NO_VIEWS
  {
  }

  lemma AmountsFitSoFar(records: seq<Record>, r: Record, services: set<ServiceId>)
    requires RecordFits(r, services) && forall q :: q in records ==> RecordFits(q, services)
    ensures AmountsFit(records + [r])
  {
  }

  /** One day's records: rejects a repeated id, an unknown service or an oversized amount,
      and otherwise returns exact totals and views although every sum is rounded to 80 digits. */
  method TotalRecords(records: seq<Record>, services: set<ServiceId>, seenBefore: set<string>)
    returns (ok: bool, seen: set<string>, totals: map<ServiceId, ServiceTotal>, views: Views)
    requires |records| <= MAX_RECORDS
    ensures ok <==> FreshIds(records, seenBefore) && forall r :: r in records ==> RecordFits(r, services)
    ensures ok ==> seen == seenBefore + Ids(records)
    ensures ok ==> totals == TotalsOf(records, services)
    ensures ok ==> views == ViewsOf(records)
  {
    hide ViewsOf, TotalsOf, RecordFits, FreshIds, Ids, AmountsFit;
    seen, views := seenBefore, NO_VIEWS;
    totals := map s | s in services :: NO_ROWS;
    NoRecordsYet(services, seenBefore);
    assert records[..0] == [];
    ok := false;
    var i := 0;
    while i < |records|
      invariant 0 <= i <= |records|
      invariant FreshIds(records[..i], seenBefore)
      invariant forall r :: r in records[..i] ==> RecordFits(r, services)
      invariant seen == seenBefore + Ids(records[..i])
      invariant totals == TotalsOf(records[..i], services)
      invariant views == ViewsOf(records[..i])
    {
      var r := records[i];
      ghost var done := records[..i];
      if r.sourceRecordId in seen {
        RepeatedId(records, i, seenBefore);
        return;
      }
      FreshIdsExtend(done, r, seenBefore);
      seen := seen + {r.sourceRecordId};
      if !RecordFits(r, services) {
        assert r in records;
        return;
      }
      AmountsFitSoFar(done, r, services);
      totals := AddToTotals(totals, services, done, r);
      views := AddToViews(views, done, r);
      assert records[..i + 1] == done + [r];
      i := i + 1;
    }
    assert records[..i] == records;
    ok := true;
  }

  lemma RepeatedId(records: seq<Record>, i: nat, seen: set<string>)
    requires i < |records| && records[i].sourceRecordId in seen + Ids(records[..i])
    ensures !FreshIds(records, seen)
  {
    if records[i].sourceRecordId in seen {
      assert records[i] in records;
    } else {
      var r :| r in records[..i] && r.sourceRecordId == records[i].sourceRecordId;
      var j :| 0 <= j < i && records[..i][j] == r;
      assert records[j].sourceRecordId == records[i].sourceRecordId;
    }
  }

  // ---------- conservation ----------

  lemma {:induction false} ViewConserves<K(!new)>(records: seq<Record>, key: Record -> Option<K>)
    ensures SumValues(View(records, key)) == Charged(records, key)
  {
    if records == [] {
    } else {
      var r := records[|records| - 1];
      var init := records[..|records| - 1];
      ViewConserves(init, key);
      if key(r).Some? {
        SumValuesAdd(View(init, key), key(r).value, r.charge);
      }
    }
  }

  lemma {:induction false} ZeroSum<K>(m: map<K, int>)
    requires forall k :: k in m ==> m[k] == 0
    ensures SumValues(m) == 0
    decreases |m|
  {
    if m.Keys != {} {
      var k :| k in m.Keys;
      SumValuesWithout(m, k);
      ZeroSum(m - {k});
    }
  }

  function NetTotals(records: seq<Record>, services: set<ServiceId>): map<ServiceId, int> {
    map s | s in services :: TotalOf(records, s).total
  }

  /** Service totals, one for every configured service, add up to the mapped charges. */
  lemma {:induction false} ServiceTotalsConserve(records: seq<Record>, services: set<ServiceId>)
    requires forall r :: r in records ==> RecordFits(r, services)
    ensures SumValues(NetTotals(records, services)) == Charged(records, ServiceKey)
  {
    var totals := NetTotals(records, services);
    if records == [] {
      ZeroSum(totals);
    } else {
      var r := records[|records| - 1];
      var init := records[..|records| - 1];
      ServiceTotalsConserve(init, services);
      var before := NetTotals(init, services);
      assert r in records;
      if r.serviceId.Some? {
        SumValuesAdd(before, r.serviceId.value, r.charge);
        assert totals == before[r.serviceId.value := before[r.serviceId.value] + r.charge];
      } else {
        assert totals == before;
      }
    }
  }

  lemma {:induction false} KeysPartition(records: seq<Record>)
    ensures Charged(records, ProviderKey) == Charged(records, NameKey)
    ensures Charged(records, NameKey) == Charged(records, CombinedKey)
    ensures Charged(records, CombinedKey) == Charged(records, ServiceKey) + Charged(records, UnallocatedKey)
  {
    if records != [] {
      KeysPartition(records[..|records| - 1]);
    }
  }

  /** Money is conserved on every date: the provider, service-name and combined views each add
      up to the mapped service totals plus the unallocated view. */
  lemma MoneyConserved(records: seq<Record>, services: set<ServiceId>)
    requires forall r :: r in records ==> RecordFits(r, services)
    ensures var v := ViewsOf(records);
      && SumValues(v.provider) == SumValues(v.names) == SumValues(v.combined)
      && SumValues(v.combined)
         == SumValues(NetTotals(records, services)) + SumValues(v.unallocated)
  {
    ViewConserves(records, ProviderKey);
    ViewConserves(records, NameKey);
    ViewConserves(records, CombinedKey);
    ViewConserves(records, UnallocatedKey);
    ServiceTotalsConserve(records, services);
    KeysPartition(records);
  }
}
