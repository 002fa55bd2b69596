/** Admission of a manifest: which one is accepted, and the per-day totals it contributes. */
module LedgerAdmission {
  import opened Common
  import opened Calendar
  import opened LedgerTypes
  import opened Decimals

  // ---------- the replay window ----------

  /** Days before the third month of year 1 have no full window; the clock arithmetic overflows. */
  predicate ClockAccepted(now: Time) {
    DayOf(now) >= 1 && MonthOf(DayOf(now)) >= 2
  }

  function CurrentMonth(now: Time): (m: Month)
    requires ClockAccepted(now)
    ensures m >= 2
  {
    MonthOf(DayOf(now))
  }

  /** First day of the previous month. */
  function WindowStart(now: Time): Day
    requires ClockAccepted(now)
  {
    MonthStart(CurrentMonth(now) - 1)
  }

  function Periods(now: Time): set<Month>
    requires ClockAccepted(now)
  {
    {CurrentMonth(now) - 1, CurrentMonth(now)}
  }

  predicate InWindow(now: Time, d: Day)
    requires ClockAccepted(now)
  {
    WindowStart(now) <= d <= DayOf(now)
  }

  /** The replay-window guard never rejects: two months always fit in 62 days. */
  lemma ReplayWindowFits(now: Time)
    requires ClockAccepted(now)
    ensures WindowStart(now) <= DayOf(now)
    ensures DayOf(now) - WindowStart(now) + 1 <= MAX_REPLAY_DAYS
    ensures WindowStart(now) >= 2
  {
    TwoMonthsFitReplay(CurrentMonth(now), DayOf(now));
    MonthStartIncreases(CurrentMonth(now) - 1, CurrentMonth(now));
  }

  // ---------- per-service totals of one day ----------

  datatype ServiceTotal = ServiceTotal(total: Amount, rows: nat, nonzero: bool)

  const NO_ROWS := ServiceTotal(0, 0, false)

  function AddRow(t: ServiceTotal, r: Record, s: ServiceId): ServiceTotal {
    if r.serviceId == Some(s) then ServiceTotal(t.total + r.charge, t.rows + 1, t.nonzero || r.charge != 0) else t
  }

  /** Everything the records of a day contribute to one service. */
  function TotalOf(records: seq<Record>, s: ServiceId): ServiceTotal {
    if records == [] then NO_ROWS
    else AddRow(TotalOf(records[..|records| - 1], s), records[|records| - 1], s)
  }

  function Without<T>(xs: seq<T>, j: nat): seq<T>
    requires j < |xs|
  {
    xs[..j] + xs[j + 1..]
  }

  lemma {:induction false} TotalWithout(records: seq<Record>, j: nat, s: ServiceId)
    requires j < |records|
    ensures TotalOf(records, s) == AddRow(TotalOf(Without(records, j), s), records[j], s)
  {
    var n := |records| - 1;
    var init, last := records[..n], records[n];
    if j == n {
      assert Without(records, j) == init;
    } else {
      TotalWithout(init, j, s);
      var rest := Without(records, j);
      assert rest[..|rest| - 1] == Without(init, j) && rest[|rest| - 1] == last;
    }
  }

  lemma SamePlace<T>(a: seq<T>, b: seq<T>) returns (j: nat)
    requires a != [] && multiset(a) == multiset(b)
    ensures j < |b| && b[j] == a[|a| - 1]
    ensures multiset(a[..|a| - 1]) == multiset(Without(b, j))
    ensures |Without(b, j)| == |a| - 1
  {
    var last := a[|a| - 1];
    assert a == a[..|a| - 1] + [last];
    assert last in multiset(a);
    j :| 0 <= j < |b| && b[j] == last;
    assert b == b[..j] + [last] + b[j + 1..];
    assert multiset(b) == multiset(Without(b, j)) + multiset{last};
    assert multiset(a) == multiset(a[..|a| - 1]) + multiset{last};
    assert multiset(a[..|a| - 1]) == multiset(a) - multiset{last};
    assert multiset(Without(b, j)) == multiset(b) - multiset{last};
    assert |multiset(a)| == |a| && |multiset(b)| == |b|;
  }

  /** The order of a day's rows has no effect on a service's total. */
  lemma {:induction false} TotalPermutes(a: seq<Record>, b: seq<Record>, s: ServiceId)
    requires multiset(a) == multiset(b)
    ensures TotalOf(a, s) == TotalOf(b, s)
    decreases |a|
  {
    if a == [] {
      assert |multiset(b)| == 0;
    } else {
      var j := SamePlace(a, b);
      TotalPermutes(a[..|a| - 1], Without(b, j), s);
      TotalWithout(b, j, s);
    }
  }

  // ---------- hashes of a snapshot ----------

  function Raw(r: Record): RawRow {
    RawRow(r.sourceRecordId, r.provider, r.serviceName, r.charge, r.form)
  }

  function RawRows(records: seq<Record>): (rows: multiset<RawRow>)
  {
    if records == [] then multiset{}
    else RawRows(records[..|records| - 1]) + multiset{Raw(records[|records| - 1])}
  }

  lemma {:induction false} RawRowsWithout(records: seq<Record>, j: nat)
    requires j < |records|
    ensures RawRows(records) == RawRows(Without(records, j)) + multiset{Raw(records[j])}
  {
    hide Raw;
    var n := |records| - 1;
    var init, last := records[..n], records[n];
    assert RawRows(records) == RawRows(init) + multiset{Raw(last)};
    if j == n {
      assert Without(records, j) == init;
    } else {
      RawRowsWithout(init, j);
      var rest := Without(records, j);
      assert rest[..|rest| - 1] == Without(init, j) && rest[|rest| - 1] == last;
      var less := RawRows(Without(init, j));
      assert RawRows(rest) == less + multiset{Raw(last)};
      assert less + multiset{Raw(records[j])} + multiset{Raw(last)} == less + multiset{Raw(last)} + multiset{Raw(records[j])};
    }
  }

  lemma {:induction false} RawRowsPermute(a: seq<Record>, b: seq<Record>)
    requires multiset(a) == multiset(b)
    ensures RawRows(a) == RawRows(b)
    decreases |a|
  {
    if a == [] {
      assert |multiset(b)| == 0;
    } else {
      var j := SamePlace(a, b);
      RawRowsPermute(a[..|a| - 1], Without(b, j));
      RawRowsWithout(b, j);
    }
  }

  function RawDays(days: seq<DayRecords>, n: nat): map<Day, DayDigest<RawRow>>
    requires n <= |days|
  {
    if n == 0 then map[]
    else
      var d := days[n - 1];
      RawDays(days, n - 1)[d.date := DayDigest(d.finalized, d.finalizationEvidence, RawRows(d.records))]
  }

  function MappedDays(days: seq<DayRecords>, n: nat): map<Day, DayDigest<Record>>
    requires n <= |days|
  {
    if n == 0 then map[]
    else
      var d := days[n - 1];
      MappedDays(days, n - 1)[d.date := DayDigest(d.finalized, d.finalizationEvidence, multiset(d.records))]
  }

  function ContentHash(s: Snapshot): SnapshotDigest<RawRow> {
    SnapshotDigest(s.period, s.snapshotId, s.revision, s.exportedAt, s.ingestionComplete, s.completenessEvidence,
                   RawDays(s.days, |s.days|))
  }

  function MappingHash(s: Snapshot): SnapshotDigest<Record> {
    SnapshotDigest(s.period, s.snapshotId, s.revision, s.exportedAt, s.ingestionComplete, s.completenessEvidence,
                   MappedDays(s.days, |s.days|))
  }

  function MarkOf(s: Snapshot, mappingVersion: string): SnapshotMark {
    SnapshotMark(s.snapshotId, s.revision, s.exportedAt, ContentHash(s), MappingHash(s), mappingVersion)
  }

  // ---------- what is admitted ----------

  predicate EvidenceFits(claimed: bool, evidence: Option<string>) {
    claimed == evidence.Some?
  }

  predicate RecordFits(r: Record, services: set<ServiceId>) {
    (r.serviceId.Some? ==> r.serviceId.value in services) && InMoneyRange(r.charge) && Written(r.charge, r.form)
  }

  predicate DayFits(d: DayRecords, period: Month, today: Day, services: set<ServiceId>) {
    && 1 <= d.date <= today
    && MonthOf(d.date) == period
    && EvidenceFits(d.finalized, d.finalizationEvidence)
    && forall r :: r in d.records ==> RecordFits(r, services)
  }

  /** A re-delivered period keeps or raises its revision, and keeps its content under the same one. */
  predicate RevisionFits(s: Snapshot, marks: map<Month, SnapshotMark>, mappingVersion: string) {
    s.period in marks ==>
      var mark := marks[s.period];
      && s.revision >= mark.revision
      && (s.revision == mark.revision ==>
            && s.snapshotId == mark.snapshotId && ContentHash(s) == mark.contentHash
            && (mark.mappingVersion == mappingVersion ==> MappingHash(s) == mark.mappingHash))
      && (s.revision > mark.revision ==> s.snapshotId != mark.snapshotId && s.exportedAt >= mark.exportedAt)
  }

  ghost predicate DistinctDates(days: seq<DayRecords>) {
    forall i, j :: 0 <= i < j < |days| ==> days[i].date != days[j].date
  }

  ghost predicate SnapshotFits(s: Snapshot, policy: Policy, now: Time, marks: map<Month, SnapshotMark>)
    requires ClockAccepted(now)
  {
    && s.period in Periods(now)
    && 1 <= s.revision <= 1_000_000
    && s.exportedAt <= now
    && EvidenceFits(s.ingestionComplete, s.completenessEvidence)
    && |s.days| <= 31
    && RevisionFits(s, marks, policy.mappingVersion)
    && DistinctDates(s.days)
    && forall d :: d in s.days ==> DayFits(d, s.period, DayOf(now), Services(policy))
  }

  /** All rows of the first n days, on top of the rows already there. */
  function RowsWith(rows: multiset<Record>, days: seq<DayRecords>, n: nat): multiset<Record>
    requires n <= |days|
  {
    if n == 0 then rows else RowsWith(rows, days, n - 1) + multiset(days[n - 1].records)
  }

  /** All rows of the first n snapshots. */
  function RowsOf(snapshots: seq<Snapshot>, n: nat): multiset<Record>
    requires n <= |snapshots|
  {
    if n == 0 then multiset{}
    else RowsWith(RowsOf(snapshots, n - 1), snapshots[n - 1].days, |snapshots[n - 1].days|)
  }

  /** No source record id occurs twice among the rows. */
  ghost predicate DistinctIds(rows: multiset<Record>) {
    && (forall r :: r in rows ==> rows[r] == 1)
    && (forall r, q :: r in rows && q in rows && r.sourceRecordId == q.sourceRecordId ==> r == q)
  }

  ghost predicate RowsAdmissible(rows: multiset<Record>) {
    |rows| <= MAX_RECORDS && DistinctIds(rows)
  }

  ghost predicate Admissible(manifest: Manifest, policy: Policy, now: Time, marks: map<Month, SnapshotMark>)
    requires ClockAccepted(now)
  {
    && |manifest.snapshots| <= 2
    && (forall i, j :: 0 <= i < j < |manifest.snapshots| ==>
          && manifest.snapshots[i].period != manifest.snapshots[j].period
          && manifest.snapshots[i].snapshotId != manifest.snapshots[j].snapshotId)
    && (forall s :: s in manifest.snapshots ==> SnapshotFits(s, policy, now, marks))
    && RowsAdmissible(RowsOf(manifest.snapshots, |manifest.snapshots|))
  }

  // ---------- what an admitted manifest contributes ----------

  datatype AdmittedDay = AdmittedDay(totals: map<ServiceId, ServiceTotal>, ingestionComplete: bool,
                                     finalized: bool, recent: bool)

  predicate Recent(exportedAt: Time, policy: Policy, now: Time) {
    now - exportedAt <= policy.freshnessHours * SECONDS_PER_HOUR
  }

  function TotalsOf(records: seq<Record>, services: set<ServiceId>): map<ServiceId, ServiceTotal> {
    map s | s in services :: TotalOf(records, s)
  }

  function AdmitDay(d: DayRecords, s: Snapshot, policy: Policy, now: Time): AdmittedDay {
    AdmittedDay(TotalsOf(d.records, Services(policy)), s.ingestionComplete, d.finalized, Recent(s.exportedAt, policy, now))
  }

  function DaysOfSnapshot(s: Snapshot, n: nat, policy: Policy, now: Time): map<Day, AdmittedDay>
    requires n <= |s.days|
  {
    if n == 0 then map[]
    else DaysOfSnapshot(s, n - 1, policy, now)[s.days[n - 1].date := AdmitDay(s.days[n - 1], s, policy, now)]
  }

  function DaysOf(snapshots: seq<Snapshot>, n: nat, policy: Policy, now: Time): map<Day, AdmittedDay>
    requires n <= |snapshots|
  {
    if n == 0 then map[]
    else
      var s := snapshots[n - 1];
      DaysOf(snapshots, n - 1, policy, now) + DaysOfSnapshot(s, |s.days|, policy, now)
  }

  /** Marks still in the window, replaced by those of the first n periods just delivered. */
  function MarksAfter(marks: map<Month, SnapshotMark>, snapshots: seq<Snapshot>, n: nat, mappingVersion: string,
                      now: Time): map<Month, SnapshotMark>
    requires n <= |snapshots| && ClockAccepted(now)
  {
    if n == 0 then map p | p in marks && p in Periods(now) :: marks[p]
    else
      var s := snapshots[n - 1];
      MarksAfter(marks, snapshots, n - 1, mappingVersion, now)[s.period := MarkOf(s, mappingVersion)]
  }
}
