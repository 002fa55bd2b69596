/** Listing order has no financial meaning: permuting the days of a snapshot, or the rows of a
    day, changes neither the decision nor anything the ledger keeps; and mapping rows to other
    services leaves the content hash alone. */
module LedgerOrdering {
  import opened Common
  import opened Calendar
  import opened LedgerTypes
  import opened LedgerAdmission

  /** A day with its row order forgotten. */
  datatype UnorderedDay = UnorderedDay(date: Day, finalized: bool, finalizationEvidence: Option<string>,
                                       rows: multiset<Record>)

  function Unordered(d: DayRecords): UnorderedDay {
    UnorderedDay(d.date, d.finalized, d.finalizationEvidence, multiset(d.records))
  }

  function UnorderedDays(days: seq<DayRecords>): (u: seq<UnorderedDay>)
    ensures |u| == |days| && forall i :: 0 <= i < |days| ==> u[i] == Unordered(days[i])
  {
    seq(|days|, i requires 0 <= i < |days| => Unordered(days[i]))
  }

  /** t lists the same days with the same rows, in any order. */
  ghost predicate SameUpToOrder(s: Snapshot, t: Snapshot) {
    && t == s.(days := t.days)
    && multiset(UnorderedDays(s.days)) == multiset(UnorderedDays(t.days))
  }

  ghost predicate ManifestsSameUpToOrder(m: Manifest, n: Manifest) {
    && n == m.(snapshots := n.snapshots)
    && |m.snapshots| == |n.snapshots|
    && forall i :: 0 <= i < |m.snapshots| ==> SameUpToOrder(m.snapshots[i], n.snapshots[i])
  }

  lemma Counterpart(s: Snapshot, t: Snapshot, i: nat) returns (j: nat)
    requires SameUpToOrder(s, t) && i < |s.days|
    ensures j < |t.days| && Unordered(t.days[j]) == Unordered(s.days[i])
  {
    var a, b := UnorderedDays(s.days), UnorderedDays(t.days);
    assert a[i] in multiset(a);
    assert a[i] in multiset(b);
    j :| 0 <= j < |b| && b[j] == a[i];
  }

  lemma SameNumberOfDays(s: Snapshot, t: Snapshot)
    requires SameUpToOrder(s, t)
    ensures |s.days| == |t.days|
  {
    assert |multiset(UnorderedDays(s.days))| == |s.days|;
    assert |multiset(UnorderedDays(t.days))| == |t.days|;
  }

  // ---------- rows ----------

  function RowsOfUnordered(days: seq<UnorderedDay>): multiset<Record> {
    if days == [] then multiset{} else RowsOfUnordered(days[..|days| - 1]) + days[|days| - 1].rows
  }

  lemma {:induction false} RowsOfUnorderedWithout(days: seq<UnorderedDay>, j: nat)
    requires j < |days|
    ensures RowsOfUnordered(days) == RowsOfUnordered(Without(days, j)) + days[j].rows
  {
    var n := |days| - 1;
    var init, last := days[..n], days[n];
    if j == n {
      assert Without(days, j) == init;
    } else {
      RowsOfUnorderedWithout(init, j);
      var rest := Without(days, j);
      assert rest[..|rest| - 1] == Without(init, j) && rest[|rest| - 1] == last;
      var less := RowsOfUnordered(Without(init, j));
      assert RowsOfUnordered(days) == RowsOfUnordered(init) + last.rows;
      assert RowsOfUnordered(rest) == less + last.rows;
      assert less + days[j].rows + last.rows == less + last.rows + days[j].rows;
    }
  }

  lemma {:induction false} RowsOfUnorderedPermute(a: seq<UnorderedDay>, b: seq<UnorderedDay>)
    requires multiset(a) == multiset(b)
    ensures RowsOfUnordered(a) == RowsOfUnordered(b)
    decreases |a|
  {
    if a == [] {
      assert |multiset(b)| == 0;
    } else {
      var j := SamePlace(a, b);
      RowsOfUnorderedPermute(a[..|a| - 1], Without(b, j));
      RowsOfUnorderedWithout(b, j);
    }
  }

  lemma {:induction false} RowsWithUnordered(rows: multiset<Record>, days: seq<DayRecords>, n: nat)
    requires n <= |days|
    ensures RowsWith(rows, days, n) == rows + RowsOfUnordered(UnorderedDays(days)[..n])
  {
    if n > 0 {
      RowsWithUnordered(rows, days, n - 1);
      assert UnorderedDays(days)[..n][..n - 1] == UnorderedDays(days)[..n - 1];
    }
  }

  lemma RowsPermute(rows: multiset<Record>, s: Snapshot, t: Snapshot)
    requires SameUpToOrder(s, t)
    ensures RowsWith(rows, s.days, |s.days|) == RowsWith(rows, t.days, |t.days|)
  {
    RowsWithUnordered(rows, s.days, |s.days|);
    RowsWithUnordered(rows, t.days, |t.days|);
    assert UnorderedDays(s.days)[..|s.days|] == UnorderedDays(s.days);
    assert UnorderedDays(t.days)[..|t.days|] == UnorderedDays(t.days);
    RowsOfUnorderedPermute(UnorderedDays(s.days), UnorderedDays(t.days));
  }

  // ---------- days ----------

  lemma {:induction false} CountTwo<T>(xs: seq<T>, x: T) returns (i: nat, j: nat)
    requires multiset(xs)[x] >= 2
    ensures i < j < |xs| && xs[i] == x && xs[j] == x
  {
    var n := |xs| - 1;
    assert xs == xs[..n] + [xs[n]];
    assert multiset(xs) == multiset(xs[..n]) + multiset{xs[n]};
    if xs[n] == x {
      assert x in multiset(xs[..n]);
      i :| 0 <= i < n && xs[..n][i] == x;
      j := n;
    } else {
      i, j := CountTwo(xs[..n], x);
    }
  }

  lemma DistinctDatesPermute(s: Snapshot, t: Snapshot)
    requires SameUpToOrder(s, t) && DistinctDates(s.days)
    ensures DistinctDates(t.days)
  {
    forall i, j | 0 <= i < j < |t.days| ensures t.days[i].date != t.days[j].date {
      if t.days[i].date == t.days[j].date {
        var k := Counterpart(t, s, i);
        var l := Counterpart(t, s, j);
        assert k == l;
        RepeatedCounts(UnorderedDays(t.days), i, j);
        var _, _ := CountTwo(UnorderedDays(s.days), Unordered(t.days[i]));
      }
    }
  }

  lemma DayFitsPermutes(d: DayRecords, e: DayRecords, period: Month, today: Day, services: set<ServiceId>)
    requires Unordered(d) == Unordered(e) && DayFits(d, period, today, services)
    ensures DayFits(e, period, today, services)
  {
    forall r | r in e.records ensures RecordFits(r, services) {
      assert r in multiset(e.records);
      assert r in multiset(d.records);
    }
  }

  lemma DaysFitPermute(s: Snapshot, t: Snapshot, today: Day, services: set<ServiceId>)
    requires SameUpToOrder(s, t)
    requires forall d :: d in s.days ==> DayFits(d, s.period, today, services)
    ensures forall d :: d in t.days ==> DayFits(d, t.period, today, services)
  {
    forall d | d in t.days ensures DayFits(d, t.period, today, services) {
      var j :| 0 <= j < |t.days| && t.days[j] == d;
      var i := Counterpart(t, s, j);
      DayFitsPermutes(s.days[i], d, s.period, today, services);
    }
  }

  // ---------- the admitted days and the hashes, looked up by date ----------

  /** What every per-day map of a snapshot holds under the date of its day j. */
  lemma {:induction false} KeptAt(s: Snapshot, n: nat, j: nat, policy: Policy, now: Time)
    requires j < n <= |s.days| && DistinctDates(s.days)
    ensures var d, days := s.days[j], DaysOfSnapshot(s, n, policy, now);
      d.date in days && days[d.date] == AdmitDay(d, s, policy, now)
    ensures var d, days := s.days[j], RawDays(s.days, n);
      d.date in days && days[d.date] == DayDigest(d.finalized, d.finalizationEvidence, RawRows(d.records))
    ensures var d, days := s.days[j], MappedDays(s.days, n);
      d.date in days && days[d.date] == DayDigest(d.finalized, d.finalizationEvidence, multiset(d.records))
  {
    if j < n - 1 {
      KeptAt(s, n - 1, j, policy, now);
    }
  }

  lemma {:induction false} KeptFrom(s: Snapshot, n: nat, policy: Policy, now: Time, date: Day) returns (j: nat)
    requires n <= |s.days|
    requires date in DaysOfSnapshot(s, n, policy, now) || date in RawDays(s.days, n) || date in MappedDays(s.days, n)
    ensures j < n && s.days[j].date == date
  {
    if s.days[n - 1].date == date {
      j := n - 1;
    } else {
      j := KeptFrom(s, n - 1, policy, now, date);
    }
  }

  lemma TotalsPermute(d: DayRecords, e: DayRecords, services: set<ServiceId>)
    requires Unordered(d) == Unordered(e)
    ensures TotalsOf(d.records, services) == TotalsOf(e.records, services)
    ensures RawRows(d.records) == RawRows(e.records)
  {
    forall s | s in services { TotalPermutes(d.records, e.records, s); }
    RawRowsPermute(d.records, e.records);
  }

  ghost predicate Kept(s: Snapshot, policy: Policy, now: Time, date: Day) {
    || date in DaysOfSnapshot(s, |s.days|, policy, now)
    || date in RawDays(s.days, |s.days|)
    || date in MappedDays(s.days, |s.days|)
  }

  /** Each day of one snapshot is kept identically by the other. */
  lemma KeptAlike(s: Snapshot, t: Snapshot, policy: Policy, now: Time, date: Day)
    requires SameUpToOrder(s, t) && DistinctDates(s.days) && DistinctDates(t.days)
    requires Kept(s, policy, now, date)
    ensures var a, b := DaysOfSnapshot(s, |s.days|, policy, now), DaysOfSnapshot(t, |t.days|, policy, now);
      date in a && date in b && a[date] == b[date]
    ensures var a, b := RawDays(s.days, |s.days|), RawDays(t.days, |t.days|);
      date in a && date in b && a[date] == b[date]
    ensures var a, b := MappedDays(s.days, |s.days|), MappedDays(t.days, |t.days|);
      date in a && date in b && a[date] == b[date]
  {
    var i := KeptFrom(s, |s.days|, policy, now, date);
    var j := Counterpart(s, t, i);
    KeptAt(s, |s.days|, i, policy, now);
    KeptAt(t, |t.days|, j, policy, now);
    TotalsPermute(s.days[i], t.days[j], Services(policy));
  }

  lemma SameMap<K, V>(a: map<K, V>, b: map<K, V>)
    requires forall k :: k in a || k in b ==> k in a && k in b && a[k] == b[k]
    ensures a == b
  {
  }

  lemma SnapshotsKeptAlike(s: Snapshot, t: Snapshot, policy: Policy, now: Time)
    requires SameUpToOrder(s, t) && DistinctDates(s.days) && DistinctDates(t.days)
    ensures DaysOfSnapshot(s, |s.days|, policy, now) == DaysOfSnapshot(t, |t.days|, policy, now)
    ensures ContentHash(s) == ContentHash(t) && MappingHash(s) == MappingHash(t)
  {
    forall d | Kept(s, policy, now, d) || Kept(t, policy, now, d)
      ensures Kept(s, policy, now, d) && Kept(t, policy, now, d)
    {
      if Kept(s, policy, now, d) { KeptAlike(s, t, policy, now, d); } else { KeptAlike(t, s, policy, now, d); }
    }
    var a, b := DaysOfSnapshot(s, |s.days|, policy, now), DaysOfSnapshot(t, |t.days|, policy, now);
    forall d | d in a || d in b ensures d in a && d in b && a[d] == b[d] {
      assert Kept(s, policy, now, d);
      KeptAlike(s, t, policy, now, d);
    }
    SameMap(a, b);
    var ra, rb := RawDays(s.days, |s.days|), RawDays(t.days, |t.days|);
    forall d | d in ra || d in rb ensures d in ra && d in rb && ra[d] == rb[d] {
      assert Kept(s, policy, now, d);
      KeptAlike(s, t, policy, now, d);
    }
    SameMap(ra, rb);
    var ma, mb := MappedDays(s.days, |s.days|), MappedDays(t.days, |t.days|);
    forall d | d in ma || d in mb ensures d in ma && d in mb && ma[d] == mb[d] {
      assert Kept(s, policy, now, d);
      KeptAlike(s, t, policy, now, d);
    }
    SameMap(ma, mb);
  }

  // ---------- whole manifests ----------

  lemma SnapshotFitsPermutes(s: Snapshot, t: Snapshot, policy: Policy, now: Time, marks: map<Month, SnapshotMark>)
    requires ClockAccepted(now) && SameUpToOrder(s, t) && SnapshotFits(s, policy, now, marks)
    ensures SnapshotFits(t, policy, now, marks)
  {
    DistinctDatesPermute(s, t);
    SameNumberOfDays(s, t);
    SnapshotsKeptAlike(s, t, policy, now);
    DaysFitPermute(s, t, DayOf(now), Services(policy));
  }

  lemma {:induction false} RowsOfPermute(m: Manifest, n: Manifest, k: nat)
    requires ManifestsSameUpToOrder(m, n) && k <= |m.snapshots|
    ensures RowsOf(m.snapshots, k) == RowsOf(n.snapshots, k)
  {
    if k > 0 {
      RowsOfPermute(m, n, k - 1);
      RowsPermute(RowsOf(m.snapshots, k - 1), m.snapshots[k - 1], n.snapshots[k - 1]);
    }
  }

  ghost predicate KeptTheSame(s: Snapshot, t: Snapshot, policy: Policy, now: Time) {
    && s.period == t.period
    && DaysOfSnapshot(s, |s.days|, policy, now) == DaysOfSnapshot(t, |t.days|, policy, now)
    && MarkOf(s, policy.mappingVersion) == MarkOf(t, policy.mappingVersion)
  }

  lemma {:induction false} KeptByManifest(a: seq<Snapshot>, b: seq<Snapshot>, k: nat, policy: Policy, now: Time,
                                          marks: map<Month, SnapshotMark>)
    requires ClockAccepted(now) && k <= |a| == |b|
    requires forall i :: 0 <= i < k ==> KeptTheSame(a[i], b[i], policy, now)
    ensures DaysOf(a, k, policy, now) == DaysOf(b, k, policy, now)
    ensures MarksAfter(marks, a, k, policy.mappingVersion, now) == MarksAfter(marks, b, k, policy.mappingVersion, now)
  {
    if k > 0 {
      KeptByManifest(a, b, k - 1, policy, now, marks);
      assert KeptTheSame(a[k - 1], b[k - 1], policy, now);
    }
  }

  lemma AdmissiblePermutes(m: Manifest, n: Manifest, policy: Policy, now: Time, marks: map<Month, SnapshotMark>)
    requires ClockAccepted(now) && ManifestsSameUpToOrder(m, n) && Admissible(m, policy, now, marks)
    ensures Admissible(n, policy, now, marks)
  {
    forall s | s in n.snapshots ensures SnapshotFits(s, policy, now, marks) {
      var i :| 0 <= i < |n.snapshots| && n.snapshots[i] == s;
      assert SameUpToOrder(m.snapshots[i], n.snapshots[i]);
      assert m.snapshots[i] in m.snapshots;
      SnapshotFitsPermutes(m.snapshots[i], s, policy, now, marks);
    }
    forall i, j | 0 <= i < j < |n.snapshots|
      ensures n.snapshots[i].period != n.snapshots[j].period && n.snapshots[i].snapshotId != n.snapshots[j].snapshotId
    {
      assert SameUpToOrder(m.snapshots[i], n.snapshots[i]) && SameUpToOrder(m.snapshots[j], n.snapshots[j]);
    }
    RowsOfPermute(m, n, |m.snapshots|);
  }

  /** The same days and rows in another order: same decision, same days, same marks. */
  lemma OrderHasNoEffect(m: Manifest, n: Manifest, policy: Policy, now: Time, marks: map<Month, SnapshotMark>)
    requires ClockAccepted(now) && ManifestsSameUpToOrder(m, n)
    ensures Admissible(m, policy, now, marks) <==> Admissible(n, policy, now, marks)
    ensures Admissible(m, policy, now, marks) ==>
      && DaysOf(m.snapshots, |m.snapshots|, policy, now) == DaysOf(n.snapshots, |n.snapshots|, policy, now)
      && MarksAfter(marks, m.snapshots, |m.snapshots|, policy.mappingVersion, now)
         == MarksAfter(marks, n.snapshots, |n.snapshots|, policy.mappingVersion, now)
  {
    assert ManifestsSameUpToOrder(n, m);
    if Admissible(m, policy, now, marks) {
      AdmissiblePermutes(m, n, policy, now, marks);
      forall i | 0 <= i < |m.snapshots| ensures KeptTheSame(m.snapshots[i], n.snapshots[i], policy, now) {
        assert m.snapshots[i] in m.snapshots && n.snapshots[i] in n.snapshots;
        SnapshotsKeptAlike(m.snapshots[i], n.snapshots[i], policy, now);
      }
      KeptByManifest(m.snapshots, n.snapshots, |m.snapshots|, policy, now, marks);
    } else if Admissible(n, policy, now, marks) {
      AdmissiblePermutes(n, m, policy, now, marks);
    }
  }

  // ---------- remapping ----------

  /** The same rows in the same places, possibly mapped to other services. */
  ghost predicate Remapped(a: seq<DayRecords>, b: seq<DayRecords>) {
    && |a| == |b|
    && forall i :: 0 <= i < |a| ==>
         && b[i] == a[i].(records := b[i].records)
         && |a[i].records| == |b[i].records|
         && forall k :: 0 <= k < |a[i].records| ==> Raw(a[i].records[k]) == Raw(b[i].records[k])
  }

  lemma {:induction false} RawRowsRemapped(a: seq<Record>, b: seq<Record>)
    requires |a| == |b| && forall k :: 0 <= k < |a| ==> Raw(a[k]) == Raw(b[k])
    ensures RawRows(a) == RawRows(b)
  {
    if a != [] {
      RawRowsRemapped(a[..|a| - 1], b[..|b| - 1]);
    }
  }

  lemma RecordsRemapped(a: seq<DayRecords>, b: seq<DayRecords>, i: nat)
    requires Remapped(a, b) && i < |a|
    ensures RawRows(a[i].records) == RawRows(b[i].records)
  {
    RawRowsRemapped(a[i].records, b[i].records);
  }

  lemma {:induction false} RawDaysRemapped(a: seq<DayRecords>, b: seq<DayRecords>, n: nat)
    requires Remapped(a, b) && n <= |a|
    ensures RawDays(a, n) == RawDays(b, n)
  {
    hide RawRows, Raw;
    if n > 0 {
      RawDaysRemapped(a, b, n - 1);
      RecordsRemapped(a, b, n - 1);
    }
  }

  /** Mapping rows to other services never changes the content hash of a snapshot. */
  lemma RemappingKeepsContentHash(s: Snapshot, days: seq<DayRecords>)
    requires Remapped(s.days, days)
    ensures ContentHash(s) == ContentHash(s.(days := days))
  {
    RawDaysRemapped(s.days, days, |days|);
  }

  function WithRecord(s: Snapshot, i: nat, j: nat, r: Record): Snapshot
    requires i < |s.days| && j < |s.days[i].records|
  {
    s.(days := s.days[i := s.days[i].(records := s.days[i].records[j := r])])
  }

  lemma RawRowsTell(records: seq<Record>, j: nat, r: Record)
    requires j < |records| && Raw(r) != Raw(records[j])
    ensures RawRows(records[j := r]) != RawRows(records)
  {
    hide Raw;
    var other := records[j := r];
    assert Without(other, j) == Without(records, j);
    RawRowsWithout(records, j);
    RawRowsWithout(other, j);
    var rest := RawRows(Without(records, j));
    assert (rest + multiset{Raw(r)})[Raw(r)] == rest[Raw(r)] + 1;
    assert (rest + multiset{Raw(records[j])})[Raw(r)] == rest[Raw(r)];
  }

  /** Any other change to one row - an amount written with another number of decimals included - changes
      the content hash, so the revision already seen does not admit it. */
  lemma ChangedRowConflicts(s: Snapshot, i: nat, j: nat, r: Record, marks: map<Month, SnapshotMark>,
                            mappingVersion: string)
    requires i < |s.days| && j < |s.days[i].records| && DistinctDates(s.days)
    requires Raw(r) != Raw(s.days[i].records[j])
    requires s.period in marks && marks[s.period].revision == s.revision
    requires marks[s.period].contentHash == ContentHash(s)
    ensures !RevisionFits(WithRecord(s, i, j, r), marks, mappingVersion)
  {
    hide Raw, RawRows;
    var t := WithRecord(s, i, j, r);
    var day, other := s.days[i], t.days[i];
    RawRowsTell(day.records, j, r);
    RawDaysHold(s.days, |s.days|, i);
    RawDaysHold(t.days, |t.days|, i);
    assert RawDays(s.days, |s.days|)[day.date].rows != RawDays(t.days, |t.days|)[day.date].rows;
  }

  lemma {:induction false} RawDaysHold(days: seq<DayRecords>, n: nat, i: nat)
    requires i < n <= |days| && DistinctDates(days)
    ensures var d, raw := days[i], RawDays(days, n);
      d.date in raw && raw[d.date] == DayDigest(d.finalized, d.finalizationEvidence, RawRows(d.records))
  {
    hide RawRows;
    if i < n - 1 {
      RawDaysHold(days, n - 1, i);
    }
  }
}
