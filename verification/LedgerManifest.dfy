/** The admission loops over snapshots and days, and the proof that the order in which days
    and rows are listed changes neither the decision nor what is admitted. */
module LedgerManifest {
  import opened Common
  import opened Calendar
  import opened LedgerTypes
  import opened LedgerAdmission
  import opened LedgerTotals

  // ---------- row ids as multisets ----------

  ghost function IdsOf(rows: multiset<Record>): set<string> {
    set r | r in rows :: r.sourceRecordId
  }

  lemma DistinctExtends(rows: multiset<Record>, records: seq<Record>)
    requires DistinctIds(rows)
    ensures DistinctIds(rows + multiset(records)) <==> FreshIds(records, IdsOf(rows))
  {
    var all := rows + multiset(records);
    if FreshIds(records, IdsOf(rows)) {
      forall r | r in all ensures all[r] == 1 {
        if r in records {
          OnceCountsOne(records, r);
          assert r !in rows;
        }
      }
      forall r, q | r in all && q in all && r.sourceRecordId == q.sourceRecordId ensures r == q {
        assert r in rows || r in records;
        assert q in rows || q in records;
      }
    }
    if DistinctIds(all) {
      forall i, j | 0 <= i < j < |records| ensures records[i].sourceRecordId != records[j].sourceRecordId {
        if records[i].sourceRecordId == records[j].sourceRecordId {
          assert records[i] in all && records[j] in all;
          RepeatedCounts(records, i, j);
        }
      }
      forall r, q | r in records && q in rows ensures r.sourceRecordId != q.sourceRecordId {
        assert r in all && q in all;
        assert all[r] == rows[r] + multiset(records)[r];
      }
    }
  }

  lemma DistinctShrinks(small: multiset<Record>, large: multiset<Record>)
    requires small <= large && DistinctIds(large)
    ensures DistinctIds(small) && |small| <= |large|
  {
    assert forall r :: r in small ==> r in large && small[r] <= large[r];
    assert large == small + (large - small);
  }

  lemma {:induction false} RowsWithGrow(rows: multiset<Record>, days: seq<DayRecords>, i: nat, n: nat)
    requires i <= n <= |days|
    ensures RowsWith(rows, days, i) <= RowsWith(rows, days, n)
  {
    if i < n {
      RowsWithGrow(rows, days, i, n - 1);
    }
  }

  lemma {:induction false} RowsOfGrow(snapshots: seq<Snapshot>, i: nat, n: nat)
    requires i <= n <= |snapshots|
    ensures RowsOf(snapshots, i) <= RowsOf(snapshots, n)
  {
    if i < n {
      RowsOfGrow(snapshots, i, n - 1);
      RowsWithGrow(RowsOf(snapshots, n - 1), snapshots[n - 1].days, 0, |snapshots[n - 1].days|);
    }
  }

  // ---------- the loop over a snapshot's days ----------

  lemma IdsOfMore(rows: multiset<Record>, records: seq<Record>)
    ensures IdsOf(rows + multiset(records)) == IdsOf(rows) + Ids(records)
    ensures |rows + multiset(records)| == |rows| + |records|
  {
    forall id | id in IdsOf(rows) + Ids(records) ensures id in IdsOf(rows + multiset(records)) {
      if id in IdsOf(rows) {
        var r :| r in rows && r.sourceRecordId == id;
        assert r in rows + multiset(records);
      } else {
        var r :| r in records && r.sourceRecordId == id;
        assert r in rows + multiset(records);
      }
    }
  }

  ghost predicate DaysAdmissible(s: Snapshot, today: Day, services: set<ServiceId>, rows: multiset<Record>) {
    && DistinctDates(s.days)
    && (forall d :: d in s.days ==> DayFits(d, s.period, today, services))
    && RowsAdmissible(RowsWith(rows, s.days, |s.days|))
  }

  /** What the loop checks of day i, given the rows of the days before it. */
  ghost predicate DayAdmissible(s: Snapshot, i: nat, today: Day, services: set<ServiceId>, rows: multiset<Record>)
    requires i < |s.days|
  {
    && DayFits(s.days[i], s.period, today, services)
    && (forall j :: 0 <= j < i ==> s.days[j].date != s.days[i].date)
    && |RowsWith(rows, s.days, i)| + |s.days[i].records| <= MAX_RECORDS
    && FreshIds(s.days[i].records, IdsOf(RowsWith(rows, s.days, i)))
  }

  lemma DayKeepsRowsAdmissible(rows: multiset<Record>, records: seq<Record>)
    requires RowsAdmissible(rows)
    ensures RowsAdmissible(rows + multiset(records)) <==>
              |rows| + |records| <= MAX_RECORDS && FreshIds(records, IdsOf(rows))
  {
    IdsOfMore(rows, records);
    DistinctExtends(rows, records);
  }

  ghost predicate DaysChecked(s: Snapshot, n: nat, today: Day, services: set<ServiceId>, rows: multiset<Record>)
    requires n <= |s.days|
  {
    n > 0 ==> DaysChecked(s, n - 1, today, services, rows) && DayAdmissible(s, n - 1, today, services, rows)
  }

  lemma {:induction false} DaysCheckedEach(s: Snapshot, n: nat, today: Day, services: set<ServiceId>,
                                           rows: multiset<Record>)
    requires n <= |s.days|
    ensures DaysChecked(s, n, today, services, rows) <==>
              forall i :: 0 <= i < n ==> DayAdmissible(s, i, today, services, rows)
  {
    hide DayAdmissible;
    if n > 0 {
      DaysCheckedEach(s, n - 1, today, services, rows);
    }
  }

  lemma {:induction false} RowsCheckedOneByOne(s: Snapshot, n: nat, today: Day, services: set<ServiceId>,
                                               rows: multiset<Record>)
    requires n <= |s.days| && RowsAdmissible(rows)
    requires DaysChecked(s, n, today, services, rows)
    ensures RowsAdmissible(RowsWith(rows, s.days, n))
  {
    if n > 0 {
      RowsCheckedOneByOne(s, n - 1, today, services, rows);
      DayKeepsRowsAdmissible(RowsWith(rows, s.days, n - 1), s.days[n - 1].records);
    }
  }

  lemma DaysAdmissibleEach(s: Snapshot, i: nat, today: Day, services: set<ServiceId>, rows: multiset<Record>)
    requires i < |s.days| && DaysAdmissible(s, today, services, rows)
    ensures DayAdmissible(s, i, today, services, rows)
  {
    RowsWithGrow(rows, s.days, i + 1, |s.days|);
    RowsWithGrow(rows, s.days, i, |s.days|);
    DistinctShrinks(RowsWith(rows, s.days, i + 1), RowsWith(rows, s.days, |s.days|));
    DistinctShrinks(RowsWith(rows, s.days, i), RowsWith(rows, s.days, |s.days|));
    DayKeepsRowsAdmissible(RowsWith(rows, s.days, i), s.days[i].records);
    assert s.days[i] in s.days;
  }

  /** Checking day after day admits exactly the snapshots that are admissible as a whole. */
  lemma DaysCheckedOneByOne(s: Snapshot, today: Day, services: set<ServiceId>, rows: multiset<Record>)
    requires RowsAdmissible(rows)
    ensures DaysAdmissible(s, today, services, rows) <==> DaysChecked(s, |s.days|, today, services, rows)
  {
    DaysCheckedEach(s, |s.days|, today, services, rows);
    if DaysAdmissible(s, today, services, rows) {
      forall i | 0 <= i < |s.days| ensures DayAdmissible(s, i, today, services, rows) {
        DaysAdmissibleEach(s, i, today, services, rows);
      }
    } else if DaysChecked(s, |s.days|, today, services, rows) {
      RowsCheckedOneByOne(s, |s.days|, today, services, rows);
      forall d | d in s.days ensures DayFits(d, s.period, today, services) {
        var i :| 0 <= i < |s.days| && s.days[i] == d;
        assert DayAdmissible(s, i, today, services, rows);
      }
      assert DistinctDates(s.days) by {
        forall i, j | 0 <= i < j < |s.days| ensures s.days[i].date != s.days[j].date {
          assert DayAdmissible(s, j, today, services, rows);
        }
      }
    }
  }

  lemma {:induction false} UncheckedDay(s: Snapshot, i: nat, today: Day, services: set<ServiceId>,
                                        rows: multiset<Record>)
    requires i < |s.days| && !DayAdmissible(s, i, today, services, rows) && RowsAdmissible(rows)
    ensures !DaysAdmissible(s, today, services, rows)
  {
    if DaysAdmissible(s, today, services, rows) {
      DaysAdmissibleEach(s, i, today, services, rows);
    }
  }

  lemma {:induction false} DaysOfSnapshotKeys(s: Snapshot, n: nat, policy: Policy, now: Time)
    requires n <= |s.days|
    ensures DaysOfSnapshot(s, n, policy, now).Keys == set j | 0 <= j < n :: s.days[j].date
  {
    if n > 0 {
      DaysOfSnapshotKeys(s, n - 1, policy, now);
    }
  }

  method AdmitOneDay(s: Snapshot, i: nat, policy: Policy, now: Time, days: map<Day, AdmittedDay>,
                     seenBefore: set<string>, countBefore: nat, ghost rows: multiset<Record>)
    returns (ok: bool, day: AdmittedDay, seen: set<string>, count: nat)
    requires i < |s.days|
    requires seenBefore == IdsOf(RowsWith(rows, s.days, i)) && countBefore == |RowsWith(rows, s.days, i)|
    requires 1 <= s.days[i].date && MonthOf(s.days[i].date) == s.period ==>
               (s.days[i].date in days <==> exists j :: 0 <= j < i && s.days[j].date == s.days[i].date)
    ensures ok <==> DayAdmissible(s, i, DayOf(now), Services(policy), rows)
    ensures ok ==> day == AdmitDay(s.days[i], s, policy, now)
    ensures ok ==> seen == seenBefore + Ids(s.days[i].records) && count == countBefore + |s.days[i].records|
  {
    var d := s.days[i];
    seen, count, ok := seenBefore, countBefore, false;
    day := AdmittedDay(map[], s.ingestionComplete, d.finalized, Recent(s.exportedAt, policy, now));
    if !(1 <= d.date <= DayOf(now) && MonthOf(d.date) == s.period && d.date !in days) { return; }
    if !EvidenceFits(d.finalized, d.finalizationEvidence) { return; }
    count := count + |d.records|;
    if count > MAX_RECORDS { return; }
    var totals;
    var views;
    ok, seen, totals, views := TotalRecords(d.records, Services(policy), seenBefore);
    day := day.(totals := totals);
  }

  lemma DateListed(s: Snapshot, i: nat, policy: Policy, now: Time, before: map<Day, AdmittedDay>, date: Day)
    requires i <= |s.days| && date !in before
    ensures date in before + DaysOfSnapshot(s, i, policy, now) <==> exists j :: 0 <= j < i && s.days[j].date == date
  {
    DaysOfSnapshotKeys(s, i, policy, now);
  }

  lemma DaysOfSnapshotNext(s: Snapshot, i: nat, policy: Policy, now: Time, before: map<Day, AdmittedDay>,
                           day: AdmittedDay)
    requires i < |s.days| && day == AdmitDay(s.days[i], s, policy, now)
    ensures (before + DaysOfSnapshot(s, i, policy, now))[s.days[i].date := day]
            == before + DaysOfSnapshot(s, i + 1, policy, now)
  {
  }

  method AdmitDays(s: Snapshot, policy: Policy, now: Time, daysBefore: map<Day, AdmittedDay>,
                   seenBefore: set<string>, countBefore: nat, ghost rows: multiset<Record>)
    returns (ok: bool, days: map<Day, AdmittedDay>, seen: set<string>, count: nat)
    requires RowsAdmissible(rows) && seenBefore == IdsOf(rows) && countBefore == |rows|
    requires forall d :: d in daysBefore ==> d >= 1 && MonthOf(d) != s.period
    ensures ok <==> DaysAdmissible(s, DayOf(now), Services(policy), rows)
    ensures ok ==> days == daysBefore + DaysOfSnapshot(s, |s.days|, policy, now)
    ensures ok ==> seen == IdsOf(RowsWith(rows, s.days, |s.days|)) && count == |RowsWith(rows, s.days, |s.days|)|
  {
    hide DayAdmissible, DaysAdmissible, AdmitDay, IdsOf, RowsAdmissible, MonthOf;
    days, seen, count, ok := daysBefore, seenBefore, countBefore, true;
    var i := 0;
    while i < |s.days|
      invariant 0 <= i <= |s.days|
      invariant DaysChecked(s, i, DayOf(now), Services(policy), rows)
      invariant seen == IdsOf(RowsWith(rows, s.days, i)) && count == |RowsWith(rows, s.days, i)|
      invariant days == daysBefore + DaysOfSnapshot(s, i, policy, now)
    {
      DateListedIfInPeriod(s, i, policy, now, daysBefore);
      IdsOfMore(RowsWith(rows, s.days, i), s.days[i].records);
      var day;
      ok, day, seen, count := AdmitOneDay(s, i, policy, now, days, seen, count, rows);
      if !ok {
        UncheckedDay(s, i, DayOf(now), Services(policy), rows);
        return;
      }
      DaysOfSnapshotNext(s, i, policy, now, daysBefore, day);
      days := days[s.days[i].date := day];
      i := i + 1;
    }
    DaysCheckedOneByOne(s, DayOf(now), Services(policy), rows);
  }

  lemma DateListedIfInPeriod(s: Snapshot, i: nat, policy: Policy, now: Time, before: map<Day, AdmittedDay>)
    requires i < |s.days| && forall d :: d in before ==> d >= 1 && MonthOf(d) != s.period
    ensures 1 <= s.days[i].date && MonthOf(s.days[i].date) == s.period ==>
              (s.days[i].date in before + DaysOfSnapshot(s, i, policy, now) <==>
                 exists j :: 0 <= j < i && s.days[j].date == s.days[i].date)
  {
    if 1 <= s.days[i].date && MonthOf(s.days[i].date) == s.period {
      DateListed(s, i, policy, now, before, s.days[i].date);
    }
  }

  // ---------- the loop over snapshots ----------

  /** What the loop checks of snapshot i, given the snapshots before it. */
  ghost predicate SnapshotAdmissible(snapshots: seq<Snapshot>, i: nat, policy: Policy, now: Time,
                                     marks: map<Month, SnapshotMark>)
    requires i < |snapshots| && ClockAccepted(now)
  {
    var s := snapshots[i];
    && (forall j :: 0 <= j < i ==> snapshots[j].period != s.period && snapshots[j].snapshotId != s.snapshotId)
    && HeaderFits(s, policy, now, marks)
    && DaysAdmissible(s, DayOf(now), Services(policy), RowsOf(snapshots, i))
  }

  predicate HeaderFits(s: Snapshot, policy: Policy, now: Time, marks: map<Month, SnapshotMark>)
    requires ClockAccepted(now)
  {
    && s.period in Periods(now)
    && 1 <= s.revision <= 1_000_000
    && s.exportedAt <= now
    && EvidenceFits(s.ingestionComplete, s.completenessEvidence)
    && |s.days| <= 31
    && RevisionFits(s, marks, policy.mappingVersion)
  }

  ghost predicate SnapshotsChecked(snapshots: seq<Snapshot>, n: nat, policy: Policy, now: Time,
                                   marks: map<Month, SnapshotMark>)
    requires n <= |snapshots| && ClockAccepted(now)
  {
    n > 0 ==> SnapshotsChecked(snapshots, n - 1, policy, now, marks) && SnapshotAdmissible(snapshots, n - 1, policy, now, marks)
  }

  lemma {:induction false} SnapshotsCheckedEach(snapshots: seq<Snapshot>, n: nat, policy: Policy, now: Time,
                                                marks: map<Month, SnapshotMark>)
    requires n <= |snapshots| && ClockAccepted(now)
    ensures SnapshotsChecked(snapshots, n, policy, now, marks) <==>
              forall i :: 0 <= i < n ==> SnapshotAdmissible(snapshots, i, policy, now, marks)
  {
    hide SnapshotAdmissible;
    if n > 0 {
      SnapshotsCheckedEach(snapshots, n - 1, policy, now, marks);
    }
  }

  lemma SnapshotRowsChecked(snapshots: seq<Snapshot>, n: nat, policy: Policy, now: Time,
                            marks: map<Month, SnapshotMark>)
    requires n <= |snapshots| && ClockAccepted(now) && SnapshotsChecked(snapshots, n, policy, now, marks)
    ensures RowsAdmissible(RowsOf(snapshots, n))
  {
  }

  lemma AdmissibleEach(manifest: Manifest, i: nat, policy: Policy, now: Time, marks: map<Month, SnapshotMark>)
    requires ClockAccepted(now) && i < |manifest.snapshots| && Admissible(manifest, policy, now, marks)
    ensures SnapshotAdmissible(manifest.snapshots, i, policy, now, marks)
  {
    var snapshots := manifest.snapshots;
    assert snapshots[i] in snapshots;
    RowsOfGrow(snapshots, i + 1, |snapshots|);
    DistinctShrinks(RowsOf(snapshots, i + 1), RowsOf(snapshots, |snapshots|));
  }

  lemma SnapshotsCheckedOneByOne(manifest: Manifest, policy: Policy, now: Time, marks: map<Month, SnapshotMark>)
    requires ClockAccepted(now) && |manifest.snapshots| <= 2
    ensures Admissible(manifest, policy, now, marks) <==>
              SnapshotsChecked(manifest.snapshots, |manifest.snapshots|, policy, now, marks)
  {
    var snapshots := manifest.snapshots;
    SnapshotsCheckedEach(snapshots, |snapshots|, policy, now, marks);
    if Admissible(manifest, policy, now, marks) {
      forall i | 0 <= i < |snapshots| ensures SnapshotAdmissible(snapshots, i, policy, now, marks) {
        AdmissibleEach(manifest, i, policy, now, marks);
      }
    } else if SnapshotsChecked(snapshots, |snapshots|, policy, now, marks) {
      SnapshotRowsChecked(snapshots, |snapshots|, policy, now, marks);
      forall s | s in snapshots ensures SnapshotFits(s, policy, now, marks) {
        var i :| 0 <= i < |snapshots| && snapshots[i] == s;
        assert SnapshotAdmissible(snapshots, i, policy, now, marks);
      }
      forall i, j | 0 <= i < j < |snapshots|
        ensures snapshots[i].period != snapshots[j].period && snapshots[i].snapshotId != snapshots[j].snapshotId
      {
        assert SnapshotAdmissible(snapshots, j, policy, now, marks);
      }
    }
  }

  lemma UncheckedSnapshot(manifest: Manifest, i: nat, policy: Policy, now: Time, marks: map<Month, SnapshotMark>)
    requires ClockAccepted(now) && i < |manifest.snapshots|
    requires !SnapshotAdmissible(manifest.snapshots, i, policy, now, marks)
    ensures !Admissible(manifest, policy, now, marks)
  {
    if Admissible(manifest, policy, now, marks) {
      AdmissibleEach(manifest, i, policy, now, marks);
    }
  }

  function PeriodsOf(snapshots: seq<Snapshot>, n: nat): (periods: set<Month>)
    requires n <= |snapshots|
    ensures forall p :: p in periods <==> exists j :: 0 <= j < n && snapshots[j].period == p
  {
    if n == 0 then {} else PeriodsOf(snapshots, n - 1) + {snapshots[n - 1].period}
  }

  function SnapshotIds(snapshots: seq<Snapshot>, n: nat): (ids: set<string>)
    requires n <= |snapshots|
    ensures forall id :: id in ids <==> exists j :: 0 <= j < n && snapshots[j].snapshotId == id
  {
    if n == 0 then {} else SnapshotIds(snapshots, n - 1) + {snapshots[n - 1].snapshotId}
  }

  lemma {:induction false} DaysOfPeriods(snapshots: seq<Snapshot>, n: nat, policy: Policy, now: Time,
                                         marks: map<Month, SnapshotMark>)
    requires n <= |snapshots| && ClockAccepted(now)
    requires SnapshotsChecked(snapshots, n, policy, now, marks)
    ensures forall d :: d in DaysOf(snapshots, n, policy, now) ==>
              d >= 1 && exists i :: 0 <= i < n && MonthOf(d) == snapshots[i].period
  {
    hide AdmitDay, HeaderFits, RowsAdmissible, RecordFits, MonthOf, DayAdmissible;
    if n > 0 {
      var s := snapshots[n - 1];
      DaysOfPeriods(snapshots, n - 1, policy, now, marks);
      DaysOfSnapshotKeys(s, |s.days|, policy, now);
      forall d | d in DaysOfSnapshot(s, |s.days|, policy, now) ensures d >= 1 && MonthOf(d) == s.period {
        var j :| 0 <= j < |s.days| && s.days[j].date == d;
        assert DayFits(s.days[j], s.period, DayOf(now), Services(policy));
      }
    }
  }

  method AdmitSnapshot(snapshots: seq<Snapshot>, i: nat, policy: Policy, now: Time,
                       ghost marks: map<Month, SnapshotMark>,
                       days: map<Day, AdmittedDay>, seen: set<string>, count: nat)
    returns (ok: bool, daysNext: map<Day, AdmittedDay>, seenNext: set<string>, countNext: nat)
    requires i < |snapshots| && ClockAccepted(now) && SnapshotsChecked(snapshots, i, policy, now, marks)
    requires forall j :: 0 <= j < i ==> snapshots[j].period != snapshots[i].period
    requires seen == IdsOf(RowsOf(snapshots, i)) && count == |RowsOf(snapshots, i)|
    requires days == DaysOf(snapshots, i, policy, now)
    ensures ok <==> DaysAdmissible(snapshots[i], DayOf(now), Services(policy), RowsOf(snapshots, i))
    ensures ok ==> seenNext == IdsOf(RowsOf(snapshots, i + 1)) && countNext == |RowsOf(snapshots, i + 1)|
    ensures ok ==> daysNext == DaysOf(snapshots, i + 1, policy, now)
  {
    SnapshotRowsChecked(snapshots, i, policy, now, marks);
    DaysOfPeriods(snapshots, i, policy, now, marks);
    ok, daysNext, seenNext, countNext := AdmitDays(snapshots[i], policy, now, days, seen, count, RowsOf(snapshots, i));
  }

  lemma TooManySnapshots(manifest: Manifest, policy: Policy, now: Time, marks: map<Month, SnapshotMark>)
    requires ClockAccepted(now) && |manifest.snapshots| > 2
    ensures !Admissible(manifest, policy, now, marks)
  {
  }

  lemma NothingAdmittedYet(snapshots: seq<Snapshot>, policy: Policy, now: Time)
    ensures DaysOf(snapshots, 0, policy, now) == map[] && RowsOf(snapshots, 0) == multiset{}
  {
  }

  /** The admission loops accept exactly the admissible manifests, and return the days and
      snapshot marks that the evaluation uses. */
  method AdmitManifest(manifest: Manifest, policy: Policy, now: Time, marks: map<Month, SnapshotMark>)
    returns (ok: bool, days: map<Day, AdmittedDay>, marksAfter: map<Month, SnapshotMark>)
    requires ClockAccepted(now)
    ensures ok <==> Admissible(manifest, policy, now, marks)
    ensures ok ==> days == DaysOf(manifest.snapshots, |manifest.snapshots|, policy, now)
    ensures ok ==> marksAfter == MarksAfter(marks, manifest.snapshots, |manifest.snapshots|, policy.mappingVersion, now)
  {
    hide HeaderFits, DaysAdmissible, DaysOf, MarkOf, RowsOf, Admissible;
    var snapshots := manifest.snapshots;
    days, ok := map[], false;
    NothingAdmittedYet(snapshots, policy, now);
    marksAfter := map p | p in marks && p in Periods(now) :: marks[p];
    if |snapshots| > 2 {
      TooManySnapshots(manifest, policy, now, marks);
      return;
    }
    var periods: set<Month>, ids: set<string>, seen: set<string>, count := {}, {}, {}, 0;
    var i := 0;
    while i < |snapshots|
      invariant 0 <= i <= |snapshots|
      invariant SnapshotsChecked(snapshots, i, policy, now, marks)
      invariant periods == PeriodsOf(snapshots, i) && ids == SnapshotIds(snapshots, i)
      invariant seen == IdsOf(RowsOf(snapshots, i)) && count == |RowsOf(snapshots, i)|
      invariant days == DaysOf(snapshots, i, policy, now)
      invariant marksAfter == MarksAfter(marks, snapshots, i, policy.mappingVersion, now)
    {
      var s := snapshots[i];
      if s.period in periods || s.snapshotId in ids || !HeaderFits(s, policy, now, marks) {
        UncheckedSnapshot(manifest, i, policy, now, marks);
        return;
      }
      periods, ids := periods + {s.period}, ids + {s.snapshotId};
      marksAfter := marksAfter[s.period := MarkOf(s, policy.mappingVersion)];
      var accepted;
      accepted, days, seen, count := AdmitSnapshot(snapshots, i, policy, now, marks, days, seen, count);
      if !accepted {
        UncheckedSnapshot(manifest, i, policy, now, marks);
        return;
      }
      i := i + 1;
    }
    SnapshotsCheckedOneByOne(manifest, policy, now, marks);
    ok := true;
  }
}
