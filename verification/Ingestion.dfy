/** Ingesting a billing export: listing its parts page by page, and turning their rows into a daily
    manifest whose money reconciles exactly. */
module Ingestion {
  import opened Common
  import opened Calendar
  import opened LedgerTypes
  import opened Decimals
  import opened LedgerTotals

  // ---------- the listing ----------

  const MAX_PARTS := 64
  const MAX_PAGES := 64
  const MAX_TOKEN := 1024

  datatype Item = Item(name: string, sha256: string)
  datatype Page = Page(items: seq<Item>, next: Option<string>)

  /** The page a listing returns for a token is fixed for the run. */
  type Listing = Option<string> -> Page

  function TokenAt(list: Listing, n: nat): Option<string> {
    if n == 0 then None else list(TokenAt(list, n - 1)).next
  }

  function PageAt(list: Listing, n: nat): Page {
    list(TokenAt(list, n))
  }

  predicate Scoped(name: string, prefix: string) {
    prefix + "/" <= name
  }

  function WithItems(parts: map<string, string>, items: seq<Item>, n: nat): map<string, string>
    requires n <= |items|
  {
    if n == 0 then parts else WithItems(parts, items, n - 1)[items[n - 1].name := items[n - 1].sha256]
  }

  /** What the first n pages list. */
  function Listed(list: Listing, n: nat): map<string, string> {
    if n == 0 then map[] else WithItems(Listed(list, n - 1), PageAt(list, n - 1).items, |PageAt(list, n - 1).items|)
  }

  ghost predicate ItemFits(parts: map<string, string>, items: seq<Item>, i: nat, prefix: string)
    requires i < |items|
  {
    Scoped(items[i].name, prefix) && items[i].name !in WithItems(parts, items, i) && |WithItems(parts, items, i + 1)| <= MAX_PARTS
  }

  ghost predicate ItemsFit(parts: map<string, string>, items: seq<Item>, prefix: string) {
    |items| <= MAX_PARTS && forall i :: 0 <= i < |items| ==> ItemFits(parts, items, i, prefix)
  }

  ghost predicate TokenFits(list: Listing, n: nat) {
    var next := PageAt(list, n).next;
    next.Some? ==> 0 < |next.value| <= MAX_TOKEN && forall k :: 0 < k <= n ==> TokenAt(list, k) != next
  }

  ghost predicate PagesFit(list: Listing, prefix: string, n: nat) {
    forall k: nat :: k < n ==> ItemsFit(Listed(list, k), PageAt(list, k).items, prefix) && TokenFits(list, k)
  }

  /** Page n is the first without a continuation. */
  ghost predicate EndsAt(list: Listing, n: nat) {
    PageAt(list, n).next.None? && forall k: nat :: k < n ==> PageAt(list, k).next.Some?
  }

  /** The listing ends with page n, in time and with every page in order. */
  ghost predicate Lists(list: Listing, prefix: string, n: nat) {
    n < MAX_PAGES && EndsAt(list, n) && PagesFit(list, prefix, n + 1)
  }

  method AddItems(start: map<string, string>, items: seq<Item>,
                  prefix: string) returns (parts: Option<map<string, string>>)
    ensures parts.Some? <==> ItemsFit(start, items, prefix)
    ensures parts.Some? ==> parts.value == WithItems(start, items, |items|)
  {
    hide Scoped;
    if |items| > MAX_PARTS {
      return None;
    }
    var added := start;
    for i := 0 to |items|
      invariant added == WithItems(start, items, i)
      invariant forall j :: 0 <= j < i ==> ItemFits(start, items, j, prefix)
    {
      if !Scoped(items[i].name, prefix) || items[i].name in added {
        assert !ItemFits(start, items, i, prefix);
        return None;
      }
      added := added[items[i].name := items[i].sha256];
      if |added| > MAX_PARTS {
        assert !ItemFits(start, items, i, prefix);
        return None;
      }
    }
    return Some(added);
  }

  /** Follows continuation tokens for at most MAX_PAGES pages. Accepted exactly when the listing ends in
      time with every page in order, and then nothing listed is missing. */
  method Inventory(list: Listing, prefix: string) returns (parts: Option<map<string, string>>, ghost last: nat)
    ensures parts.Some? <==> exists n: nat :: Lists(list, prefix, n)
    ensures parts.Some? ==> EndsAt(list, last) && parts.value == Listed(list, last + 1)
  {
    hide ItemsFit, TokenFits, Listed;
    var found: map<string, string>, tokens: set<string>, token: Option<string> := map[], {}, None;
    last := 0;
    assert Listed(list, 0) == map[] by { NothingListed(list); }
    for k := 0 to MAX_PAGES
      invariant token == TokenAt(list, k) && found == Listed(list, k) && PagesFit(list, prefix, k)
      invariant forall j: nat :: j < k ==> PageAt(list, j).next.Some?
      invariant forall t :: t in tokens <==> SeenToken(list, k, t)
    {
      var page := list(token);
      assert page == PageAt(list, k);
      var more := AddItems(found, page.items, prefix);
      if more.None? {
        NoEnd(list, prefix, k);
        return None, 0;
      }
      ListedNext(list, k);
      found := more.value;
      token := page.next;
      if token.None? {
        TokenFitsAtEnd(list, k);
        assert Lists(list, prefix, k);
        return Some(found), k;
      }
      TokenCheck(list, k, tokens);
      if !(0 < |token.value| <= MAX_TOKEN && token.value !in tokens) {
        NoEnd(list, prefix, k);
        return None, 0;
      }
      SeenNext(list, k, token.value);
      tokens := tokens + {token.value};
    }
    NoEndInTime(list, prefix);
    return None, 0;
  }

  lemma NoEndInTime(list: Listing, prefix: string)
    requires forall j: nat :: j < MAX_PAGES ==> PageAt(list, j).next.Some?
    ensures forall n: nat :: !Lists(list, prefix, n)
  {
  }

  ghost predicate SeenToken(list: Listing, n: nat, t: string) {
    exists k: nat :: 0 < k <= n && TokenAt(list, k) == Some(t)
  }

  lemma NothingListed(list: Listing)
    ensures Listed(list, 0) == map[]
  {
  }

  lemma ListedNext(list: Listing, k: nat)
    ensures Listed(list, k + 1) == WithItems(Listed(list, k), PageAt(list, k).items, |PageAt(list, k).items|)
  {
  }

  lemma TokenFitsAtEnd(list: Listing, k: nat)
    requires PageAt(list, k).next.None?
    ensures TokenFits(list, k)
  {
  }

  lemma TokenCheck(list: Listing, k: nat, tokens: set<string>)
    requires PageAt(list, k).next.Some? && forall t :: t in tokens <==> SeenToken(list, k, t)
    ensures TokenFits(list, k) <==> 0 < |PageAt(list, k).next.value| <= MAX_TOKEN && PageAt(list, k).next.value !in tokens
  {
    var t := PageAt(list, k).next.value;
    if t in tokens {
      var j: nat :| 0 < j <= k && TokenAt(list, j) == Some(t);
    }
  }

  lemma SeenNext(list: Listing, k: nat, token: string)
    requires PageAt(list, k).next == Some(token)
    ensures forall t :: SeenToken(list, k + 1, t) <==> SeenToken(list, k, t) || t == token
  {
    assert TokenAt(list, k + 1) == Some(token);
    forall t ensures SeenToken(list, k + 1, t) <==> SeenToken(list, k, t) || t == token {
      if SeenToken(list, k, t) {
        var j: nat :| 0 < j <= k && TokenAt(list, j) == Some(t);
        assert 0 < j <= k + 1;
      }
    }
  }

  /** A bad page is reached by every longer listing. */
  lemma NoEnd(list: Listing, prefix: string, k: nat)
    requires forall j: nat :: j < k ==> PageAt(list, j).next.Some?
    requires !ItemsFit(Listed(list, k), PageAt(list, k).items, prefix) || !TokenFits(list, k)
    ensures forall n: nat :: !Lists(list, prefix, n)
  {
    hide ItemsFit, TokenFits, Listed;
    forall n: nat ensures !Lists(list, prefix, n) {
      if EndsAt(list, n) {
        assert n >= k;
      }
    }
  }

  // ---------- the rows ----------

  datatype CsvRow = CsvRow(subscription: string, currency: string, date: Day, amount: Amount, provider: string,
                           serviceName: Option<string>, mappingKey: string)
  datatype Part = Part(name: string, declaredRows: nat, rows: seq<CsvRow>)

  /** A normalized record with its date. */
  datatype Dated = Dated(date: Day, record: Record)

  /** What the run says about its rows. */
  datatype Run = Run(subscription: string, first: Day, last: Day, expectedRows: nat, mapping: map<string, ServiceId>)

  /** The digest of export, run, part and ordinal. */
  type SourceIds = (string, nat) -> string

  ghost predicate Injective(ids: SourceIds) {
    forall a, i, b, j :: ids(a, i) == ids(b, j) ==> a == b && i == j
  }

  predicate RowFits(row: CsvRow, run: Run) {
    row.subscription == run.subscription && row.currency == "USD" && run.first <= row.date <= run.last && InMoneyRange(row.amount)
  }

  function ServiceOf(row: CsvRow, run: Run): Option<ServiceId> {
    if row.mappingKey in run.mapping then Some(run.mapping[row.mappingKey]) else None
  }

  function Normalized(row: CsvRow, run: Run, id: string): Dated {
    Dated(row.date, Record(id, ServiceOf(row, run), row.provider, row.serviceName, row.amount, PlainForm(row.amount)))
  }

  /** The first n rows of a part; ordinals start at one. */
  function PartRecords(part: Part, run: Run, ids: SourceIds, n: nat): (dated: seq<Dated>)
    requires n <= |part.rows|
    ensures |dated| == n && forall i :: 0 <= i < n ==> dated[i] == Normalized(part.rows[i], run, ids(part.name, i + 1))
  {
    seq(n, i requires 0 <= i < n => Normalized(part.rows[i], run, ids(part.name, i + 1)))
  }

  /** The rows of the first n parts, in order. */
  function AllRecords(parts: seq<Part>, run: Run, ids: SourceIds, n: nat): seq<Dated>
    requires n <= |parts|
  {
    if n == 0 then [] else AllRecords(parts, run, ids, n - 1) + PartRecords(parts[n - 1], run, ids, |parts[n - 1].rows|)
  }

  // ---------- sums and days ----------

  function RawSum(dated: seq<Dated>): int {
    if dated == [] then 0 else RawSum(dated[..|dated| - 1]) + dated[|dated| - 1].record.charge
  }

  function MappedSum(dated: seq<Dated>): int {
    if dated == [] then 0
    else MappedSum(dated[..|dated| - 1]) + if dated[|dated| - 1].record.serviceId.Some? then dated[|dated| - 1].record.charge else 0
  }

  function UnallocatedSum(dated: seq<Dated>): int {
    if dated == [] then 0
    else UnallocatedSum(dated[..|dated| - 1]) + if dated[|dated| - 1].record.serviceId.None? then dated[|dated| - 1].record.charge else 0
  }

  /** setdefault(date, []).append(record), row by row. */
  function DaysOf(dated: seq<Dated>): map<Day, seq<Record>> {
    if dated == [] then map[]
    else
      var last := dated[|dated| - 1];
      var before := DaysOf(dated[..|dated| - 1]);
      before[last.date := (if last.date in before then before[last.date] else []) + [last.record]]
  }

  datatype Totals = Totals(rows: nat, raw: int, mapped: int, unallocated: int)

  /** The running state after some rows. */
  ghost predicate Reconciled(t: Totals, days: map<Day, seq<Record>>, dated: seq<Dated>) {
    && days == DaysOf(dated)
    && t == Totals(|dated|, RawSum(dated), MappedSum(dated), UnallocatedSum(dated))
    && Abs(t.raw) <= |dated| * MONEY_LIMIT && Abs(t.mapped) <= |dated| * MONEY_LIMIT && Abs(t.unallocated) <= |dated| * MONEY_LIMIT
  }

  /** Adding one row keeps every total exact, although sums are rounded to 80 digits. */
  method AddRow(t: Totals, days: map<Day, seq<Record>>, ghost dated: seq<Dated>, d: Dated) returns (next: Totals,
                more: map<Day, seq<Record>>)
    requires Reconciled(t, days, dated) && |dated| < MAX_RECORDS && InMoneyRange(d.record.charge)
    ensures Reconciled(next, more, dated + [d])
  {
    assert (dated + [d])[..|dated|] == dated;
    var amount := d.record.charge;
    AddIsExact(t.raw, amount, |dated|);
    AddIsExact(t.mapped, amount, |dated|);
    AddIsExact(t.unallocated, amount, |dated|);
    next := t.(rows := t.rows + 1, raw := ContextAdd(t.raw, amount));
    if d.record.serviceId.None? {
      next := next.(unallocated := ContextAdd(t.unallocated, amount));
    } else {
      next := next.(mapped := ContextAdd(t.mapped, amount));
    }
    more := days[d.date := (if d.date in days then days[d.date] else []) + [d.record]];
  }

  // ---------- the run ----------

  predicate PartFits(part: Part, run: Run) {
    |part.rows| == part.declaredRows && forall row :: row in part.rows ==> RowFits(row, run)
  }

  predicate NamesDiffer(parts: seq<Part>) {
    forall i, j :: 0 <= i < j < |parts| ==> parts[i].name != parts[j].name
  }

  function RowCount(parts: seq<Part>, n: nat): nat
    requires n <= |parts|
  {
    if n == 0 then 0 else RowCount(parts, n - 1) + |parts[n - 1].rows|
  }

  ghost predicate Ingestible(parts: seq<Part>, run: Run) {
    && NamesDiffer(parts)
    && (forall i :: 0 <= i < |parts| ==> PartFits(parts[i], run))
    && RowCount(parts, |parts|) == run.expectedRows <= MAX_RECORDS
  }

  datatype Ingested = Ingested(days: map<Day, seq<Record>>, totals: Totals)

  lemma {:induction false} AllRecordsCount(parts: seq<Part>, run: Run, ids: SourceIds, n: nat)
    requires n <= |parts|
    ensures |AllRecords(parts, run, ids, n)| == RowCount(parts, n)
  {
    if n > 0 {
      AllRecordsCount(parts, run, ids, n - 1);
    }
  }

  lemma {:induction false} RowCountGrows(parts: seq<Part>, n: nat, m: nat)
    requires n <= m <= |parts|
    ensures RowCount(parts, n) <= RowCount(parts, m)
  {
    if n < m {
      RowCountGrows(parts, n, m - 1);
    }
  }

  lemma PartRecordsNext(part: Part, run: Run, ids: SourceIds, n: nat)
    requires n < |part.rows|
    ensures PartRecords(part, run, ids, n + 1) == PartRecords(part, run, ids, n) + [Normalized(part.rows[n], run, ids(part.name, n + 1))]
  {
    hide Normalized;
  }

  /** The rows of one part, on top of what came before. */
  method IngestPart(part: Part, run: Run, ids: SourceIds, start: Ingested,
                    ghost dated: seq<Dated>) returns (result: Option<Ingested>)
    requires Reconciled(start.totals, start.days, dated) && |dated| <= MAX_RECORDS
    ensures result.Some? <==> PartFits(part, run) && |dated| + |part.rows| <= MAX_RECORDS
    ensures result.Some? ==> Reconciled(result.value.totals, result.value.days, dated + PartRecords(part, run, ids, |part.rows|))
  {
    hide Reconciled, RowFits, Normalized;
    var totals, days := start.totals, start.days;
    ghost var taken := dated;
    assert dated + PartRecords(part, run, ids, 0) == dated;
    assert totals.rows == |dated| by { RowsCounted(totals, days, dated); }
    var rows := 0;
    for i := 0 to |part.rows|
      invariant taken == dated + PartRecords(part, run, ids, i) && Reconciled(totals, days, taken)
      invariant rows == i <= part.declaredRows && totals.rows == |taken| <= MAX_RECORDS
      invariant forall j :: 0 <= j < i ==> RowFits(part.rows[j], run)
    {
      var row := part.rows[i];
      rows := rows + 1;
      if rows > part.declaredRows || totals.rows + 1 > MAX_RECORDS {
        return None;
      }
      if !RowFits(row, run) {
        assert row in part.rows;
        return None;
      }
      var d := Normalized(row, run, ids(part.name, i + 1));
      assert InMoneyRange(d.record.charge) by { FitsMoney(row, run, ids(part.name, i + 1)); }
      PartRecordsNext(part, run, ids, i);
      totals, days := AddRow(totals, days, taken, d);
      taken := taken + [d];
      RowsCounted(totals, days, taken);
      assert taken == dated + PartRecords(part, run, ids, i + 1);
    }
    if rows != part.declaredRows {
      return None;
    }
    return Some(Ingested(days, totals));
  }

  lemma RowsCounted(t: Totals, days: map<Day, seq<Record>>, dated: seq<Dated>)
    requires Reconciled(t, days, dated)
    ensures t.rows == |dated|
  {
  }

  lemma FitsMoney(row: CsvRow, run: Run, id: string)
    requires RowFits(row, run)
    ensures InMoneyRange(Normalized(row, run, id).record.charge)
  {
  }

  /** Ingests all parts: accepted exactly when names, counts and rows fit, and then the totals are the
      exact sums over the rows. The final comparison of money cannot fail. */
  method Ingest(parts: seq<Part>, run: Run, ids: SourceIds) returns (result: Option<Ingested>)
    ensures result.Some? <==> Ingestible(parts, run)
    ensures result.Some? ==> Reconciled(result.value.totals, result.value.days, AllRecords(parts, run, ids, |parts|))
    ensures result.Some? ==> result.value.totals.raw == result.value.totals.mapped + result.value.totals.unallocated
  {
    hide Reconciled, PartFits, PartRecords;
    if !NamesDiffer(parts) || run.expectedRows > MAX_RECORDS {
      return None;
    }
    var state := Ingested(map[], Totals(0, 0, 0, 0));
    assert Reconciled(state.totals, state.days, []) by { NothingIngested(); }
    for i := 0 to |parts|
      invariant Reconciled(state.totals, state.days, AllRecords(parts, run, ids, i))
      invariant |AllRecords(parts, run, ids, i)| <= MAX_RECORDS
      invariant forall j :: 0 <= j < i ==> PartFits(parts[j], run)
    {
      var next := IngestPart(parts[i], run, ids, state, AllRecords(parts, run, ids, i));
      AllRecordsCount(parts, run, ids, i);
      AllRecordsCount(parts, run, ids, i + 1);
      RowCountGrows(parts, i + 1, |parts|);
      if next.None? {
        return None;
      }
      state := next.value;
    }
    AllRecordsCount(parts, run, ids, |parts|);
    RowsCounted(state.totals, state.days, AllRecords(parts, run, ids, |parts|));
    if state.totals.rows != run.expectedRows {
      return None;
    }
    MoneyReconciles(state.totals, state.days, AllRecords(parts, run, ids, |parts|));
    if state.totals.raw != state.totals.mapped + state.totals.unallocated {
      assert false;
    }
    return Some(state);
  }

  lemma NothingIngested()
    ensures Reconciled(Totals(0, 0, 0, 0), map[], [])
  {
  }

  // ---------- conservation ----------

  lemma {:induction false} RawIsMappedPlusUnallocated(dated: seq<Dated>)
    ensures RawSum(dated) == MappedSum(dated) + UnallocatedSum(dated)
  {
    if dated != [] {
      RawIsMappedPlusUnallocated(dated[..|dated| - 1]);
    }
  }

  lemma MoneyReconciles(t: Totals, days: map<Day, seq<Record>>, dated: seq<Dated>)
    requires Reconciled(t, days, dated)
    ensures t.raw == t.mapped + t.unallocated
  {
    RawIsMappedPlusUnallocated(dated);
  }

  /** What the normalized manifest charges on each date. */
  function DayCharges(days: map<Day, seq<Record>>): map<Day, int> {
    map d | d in days :: Charged(days[d], ProviderKey)
  }

  lemma ChargedMore(records: seq<Record>, r: Record)
    ensures Charged(records + [r], ProviderKey) == Charged(records, ProviderKey) + r.charge
  {
    assert (records + [r])[..|records|] == records;
  }

  function RecordsOf(days: map<Day, seq<Record>>, date: Day): seq<Record> {
    if date in days then days[date] else []
  }

  lemma DayChargesMore(days: map<Day, seq<Record>>, date: Day, r: Record)
    ensures var charges := DayCharges(days);
      DayCharges(days[date := RecordsOf(days, date) + [r]]) == charges[date := (if date in charges then charges[date] else 0) + r.charge]
  {
    hide Charged;
    ChargedMore(RecordsOf(days, date), r);
    ChargedNothing();
  }

  lemma ChargedNothing()
    ensures Charged([], ProviderKey) == 0
  {
  }

  /** No money is lost between the raw rows and the normalized days. */
  lemma {:induction false} DaysConserve(dated: seq<Dated>)
    ensures SumValues(DayCharges(DaysOf(dated))) == RawSum(dated)
  {
    hide DayCharges, SumValues;
    if dated == [] {
      assert SumValues(DayCharges(map[])) == 0 by { NothingCharged(); }
    } else {
      var init, last := dated[..|dated| - 1], dated[|dated| - 1];
      DaysConserve(init);
      DayChargesMore(DaysOf(init), last.date, last.record);
      SumValuesAdd(DayCharges(DaysOf(init)), last.date, last.record.charge);
    }
  }

  lemma NothingCharged()
    ensures SumValues(DayCharges(map[])) == 0
  {
    assert DayCharges(map[]) == map[];
  }

  /** The records of one date, in the order of the rows. */
  function OfDate(dated: seq<Dated>, d: Day): seq<Record> {
    if dated == [] then []
    else OfDate(dated[..|dated| - 1], d) + if dated[|dated| - 1].date == d then [dated[|dated| - 1].record] else []
  }

  /** A day of the manifest lists exactly the records of its date, each as often and in the order in
      which the rows came; a date without rows is not in it. */
  lemma {:induction false} DaysHold(dated: seq<Dated>, d: Day)
    ensures RecordsOf(DaysOf(dated), d) == OfDate(dated, d)
    ensures d in DaysOf(dated) <==> OfDate(dated, d) != []
  {
    if dated != [] {
      DaysHold(dated[..|dated| - 1], d);
    }
  }

  // ---------- record ids ----------

  lemma {:induction false} RecordOrigin(parts: seq<Part>, run: Run, ids: SourceIds, n: nat, i: nat) returns (p: nat,
                                        k: nat)
    requires n <= |parts| && i < |AllRecords(parts, run, ids, n)|
    ensures p < n && k < |parts[p].rows| && i == |AllRecords(parts, run, ids, p)| + k
    ensures AllRecords(parts, run, ids, n)[i].record.sourceRecordId == ids(parts[p].name, k + 1)
  {
    var before := AllRecords(parts, run, ids, n - 1);
    if i < |before| {
      p, k := RecordOrigin(parts, run, ids, n - 1, i);
    } else {
      p, k := n - 1, i - |before|;
    }
  }

  /** No two rows of a run get the same record id, so the ledger never sees a repeated one. */
  lemma RecordIdsAreDistinct(parts: seq<Part>, run: Run, ids: SourceIds, i: nat, j: nat)
    requires NamesDiffer(parts) && Injective(ids) && i < j < |AllRecords(parts, run, ids, |parts|)|
    ensures AllRecords(parts, run, ids, |parts|)[i].record.sourceRecordId != AllRecords(parts, run, ids, |parts|)[j].record.sourceRecordId
  {
    hide AllRecords;
    var p, k := RecordOrigin(parts, run, ids, |parts|, i);
    var q, m := RecordOrigin(parts, run, ids, |parts|, j);
    assert p != q ==> parts[p].name != parts[q].name;
  }
}
