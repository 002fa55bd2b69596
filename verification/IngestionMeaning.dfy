/** What an accepted export run says, in terms of its rows: which rows and parts it may have, and what
    becomes of each row. */
module IngestionMeaning {
  import opened Common
  import opened Calendar
  import opened LedgerTypes
  import opened Decimals
  import I = Ingestion
  import R = IngestionRun

  // ---------- rows ----------

  /** The rows of the first n parts, one after the other. */
  function RowsIn(parts: seq<I.Part>, n: nat): seq<I.CsvRow>
    requires n <= |parts|
  {
    if n == 0 then [] else RowsIn(parts, n - 1) + parts[n - 1].rows
  }

  /** The amounts of the rows whose mapping key is in a set, or is not, added up. */
  function SumOf(rows: seq<I.CsvRow>, keys: set<string>, inside: bool): int {
    if rows == [] then 0
    else (if (rows[0].mappingKey in keys) == inside then rows[0].amount else 0) + SumOf(rows[1..], keys, inside)
  }

  function SumOfAll(rows: seq<I.CsvRow>): int {
    if rows == [] then 0 else rows[0].amount + SumOfAll(rows[1..])
  }

  /** The record is the row's: its own amount, provider and name, and the service its key is mapped to. */
  predicate IsRecordOf(d: I.Dated, row: I.CsvRow, run: I.Run) {
    && d.date == row.date && d.record.charge == row.amount && d.record.provider == row.provider
    && d.record.serviceName == row.serviceName && d.record.form == PlainForm(row.amount)
    && d.record.serviceId == if row.mappingKey in run.mapping then Some(run.mapping[row.mappingKey]) else None
  }

  /** Every row becomes one record, in order. */
  lemma {:induction false} RecordsAreRows(parts: seq<I.Part>, run: I.Run, ids: I.SourceIds, n: nat)
    requires n <= |parts|
    ensures var records, rows := I.AllRecords(parts, run, ids, n), RowsIn(parts, n);
      |records| == |rows| && forall i :: 0 <= i < |rows| ==> IsRecordOf(records[i], rows[i], run)
  {
    hide PlainForm;
    if n > 0 {
      RecordsAreRows(parts, run, ids, n - 1);
    }
  }

  lemma {:induction false} SumOfLast(rows: seq<I.CsvRow>, row: I.CsvRow, keys: set<string>, inside: bool)
    ensures SumOf(rows + [row], keys, inside) == SumOf(rows, keys, inside) + if (row.mappingKey in keys) == inside then row.amount else 0
    ensures SumOfAll(rows + [row]) == SumOfAll(rows) + row.amount
  {
    if rows == [] {
      assert [] + [row] == [row];
    } else {
      SumOfLast(rows[1..], row, keys, inside);
      assert (rows + [row])[1..] == rows[1..] + [row];
    }
  }

  lemma {:induction false} SumsAreOfRows(records: seq<I.Dated>, rows: seq<I.CsvRow>, run: I.Run)
    requires |records| == |rows| && forall i :: 0 <= i < |rows| ==> IsRecordOf(records[i], rows[i], run)
    ensures I.RawSum(records) == SumOfAll(rows)
    ensures I.MappedSum(records) == SumOf(rows, run.mapping.Keys, true)
    ensures I.UnallocatedSum(records) == SumOf(rows, run.mapping.Keys, false)
  {
    hide SumOf, SumOfAll, PlainForm;
    if rows == [] {
      NoRows(run.mapping.Keys);
    } else {
      var n := |rows| - 1;
      SumsAreOfRows(records[..n], rows[..n], run);
      SumOfLast(rows[..n], rows[n], run.mapping.Keys, true);
      SumOfLast(rows[..n], rows[n], run.mapping.Keys, false);
      assert rows == rows[..n] + [rows[n]];
    }
  }

  lemma NoRows(keys: set<string>)
    ensures SumOf([], keys, true) == 0 && SumOf([], keys, false) == 0 && SumOfAll([]) == 0
  {
  }

  /** What a run may hold of a row: its own subscription, US dollars, a date of the run, and an amount
      below 10^18 US dollars. */
  predicate RowBelongs(row: I.CsvRow, run: I.Run) {
    && row.subscription == run.subscription && row.currency == "USD" && run.first <= row.date && row.date <= run.last
    && -1_000_000_000_000_000_000_000_000_000_000_000_000 < row.amount < 1_000_000_000_000_000_000_000_000_000_000_000_000
  }

  /** Parts are accepted exactly when their names differ, each has as many rows as declared, all rows belong
      to the run, and there are as many as expected. */
  lemma IngestibleExactly(parts: seq<I.Part>, run: I.Run)
    ensures I.Ingestible(parts, run) <==>
      && (forall i, j :: 0 <= i < j < |parts| ==> parts[i].name != parts[j].name)
      && (forall i :: 0 <= i < |parts| ==> |parts[i].rows| == parts[i].declaredRows)
      && (forall row :: row in RowsIn(parts, |parts|) ==> RowBelongs(row, run))
      && |RowsIn(parts, |parts|)| == run.expectedRows <= 25_000
  {
    hide I.RowCount, RowsIn, I.RowFits, RowBelongs;
    RowsAreCounted(parts, run, |parts|);
    if forall i :: 0 <= i < |parts| ==> |parts[i].rows| == parts[i].declaredRows {
      assert (forall i :: 0 <= i < |parts| ==> I.PartFits(parts[i], run)) <==> (forall row :: row in RowsIn(parts, |parts|) ==> RowBelongs(row, run));
    }
  }

  lemma {:induction false} RowsAreCounted(parts: seq<I.Part>, run: I.Run, n: nat)
    requires n <= |parts|
    ensures |RowsIn(parts, n)| == I.RowCount(parts, n)
    ensures forall row :: row in RowsIn(parts, n) <==> exists i :: 0 <= i < n && row in parts[i].rows
    ensures forall row :: I.RowFits(row, run) <==> RowBelongs(row, run)
  {
    if n > 0 {
      RowsAreCounted(parts, run, n - 1);
    }
  }

  /** The totals of an accepted run are the sums of its rows' own amounts, split by whether their key is
      mapped; and its days hold one record for each row, under its date. */
  lemma IngestedMeans(parts: seq<I.Part>, run: I.Run, ids: I.SourceIds, result: I.Ingested)
    requires I.Reconciled(result.totals, result.days, I.AllRecords(parts, run, ids, |parts|))
    ensures var rows := RowsIn(parts, |parts|);
      && result.totals.rows == |rows| && result.totals.raw == SumOfAll(rows)
      && result.totals.mapped == SumOf(rows, run.mapping.Keys, true) && result.totals.unallocated == SumOf(rows, run.mapping.Keys, false)
    ensures var rows := RowsIn(parts, |parts|);
      exists records: seq<I.Dated> ::
        && |records| == |rows| && (forall i :: 0 <= i < |rows| ==> IsRecordOf(records[i], rows[i], run))
        && forall d :: I.RecordsOf(result.days, d) == I.OfDate(records, d)
  {
    hide I.AllRecords, RowsIn, SumOf, SumOfAll, I.RawSum, I.MappedSum, I.UnallocatedSum, I.OfDate, I.RecordsOf, IsRecordOf;
    var records := I.AllRecords(parts, run, ids, |parts|);
    RecordsAreRows(parts, run, ids, |parts|);
    SumsAreOfRows(records, RowsIn(parts, |parts|), run);
    forall d ensures I.RecordsOf(result.days, d) == I.OfDate(records, d) {
      I.DaysHold(records, d);
    }
  }

  // ---------- parts ----------

  /** A described part lies under the run's prefix and is a CSV file of at most 25,000 rows. */
  ghost predicate PartBelongs(d: R.Described, prefix: string) {
    && (exists rest :: d.name == prefix + "/" + rest) && (exists stem: string :: d.name == stem + ".csv") && d.rows <= 25_000
  }

  lemma DescribedBelongs(d: R.Described, prefix: string)
    ensures R.DescribedFits(d, prefix) <==> PartBelongs(d, prefix)
  {
    if I.Scoped(d.name, prefix) {
      assert d.name == prefix + "/" + d.name[|prefix + "/"|..];
    }
    if R.EndsWith(d.name, ".csv") {
      assert d.name == d.name[..|d.name| - 4] + ".csv";
    }
    if stem: string :| d.name == stem + ".csv" {
      assert d.name[|d.name| - 4..] == ".csv";
    }
  }

  lemma ManifestBelongsExactly(m: R.ExportManifest, run: I.Run, prefix: string)
    ensures R.ManifestFits(m, run, prefix) <==>
      && 1 <= m.blobs <= 64 && m.blobs == |m.parts| && (forall d :: d in m.parts ==> PartBelongs(d, prefix))
      && (forall i, j :: 0 <= i < j < |m.parts| ==> m.parts[i].name != m.parts[j].name)
      && R.SumBytes(m.parts) == m.bytes && R.SumRows(m.parts) == run.expectedRows
  {
    hide R.DescribedFits, PartBelongs, R.SumBytes, R.SumRows;
    forall d ensures R.DescribedFits(d, prefix) <==> PartBelongs(d, prefix) {
      DescribedBelongs(d, prefix);
    }
    assert forall i :: 0 <= i < |m.parts| ==> R.Names(m.parts)[i] == m.parts[i].name;
  }

  /** An accepted run's parts are the described ones, in the order of their names: each lies under the
      prefix, was listed there under the hash its bytes have, and has the described size and rows. */
  lemma RunMeans(m: R.ExportManifest, run: I.Run, prefix: string, list: I.Listing, fetch: R.Fetch, n: nat)
    requires R.RunFits(m, run, prefix, list, fetch, n)
    ensures var listed := I.Listed(list, n + 1);
      && (forall d :: d in m.parts ==>
            && PartBelongs(d, prefix) && d.name in listed
            && fetch(d.name, listed[d.name]).sha256 == listed[d.name] && fetch(d.name, listed[d.name]).bytes == d.bytes)
      && forall name :: name in listed ==> exists d :: d in m.parts && d.name == name
  {
    hide R.ManifestFits, I.Lists, I.Listed, I.Ingestible, R.PartsInOrder, PartBelongs, R.DescribedFits;
    var listed := I.Listed(list, n + 1);
    ManifestBelongsExactly(m, run, prefix);
    forall name | name in listed ensures exists d :: d in m.parts && d.name == name {
      assert R.ByName(m.parts)[name] in m.parts;
    }
    forall d | d in m.parts ensures d.name in listed {
      var i :| 0 <= i < |m.parts| && m.parts[i] == d;
      assert R.Names(m.parts)[i] in R.Names(m.parts);
    }
  }
}
