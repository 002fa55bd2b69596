/** Which evaluations are accepted, in terms of what is delivered, what was stored before and the clock;
    and what two equal digests of a snapshot say about its rows. */
module LedgerAcceptance {
  import opened Common
  import opened Calendar
  import opened Decimals
  import opened LedgerTypes
  import opened LedgerAdmission
  import opened LedgerTotals
  import opened LedgerManifest
  import opened LedgerOrdering
  import opened LedgerReplay
  import opened LedgerOutbox
  import opened Ledger

  // ---------- the clock and the policy ----------

  /** The window needs a whole month before the present one. */
  lemma ClockIsLateEnough(now: Time)
    ensures ClockAccepted(now) <==> now >= 60 * 86_400
  {
    hide MonthStart, MonthOf;
    MonthsAreGregorian(0, 2);
    var today := DayOf(now);
    if today >= 60 {
      if MonthOf(today) < 2 {
        if MonthOf(today) + 1 < 2 { MonthStartIncreases(MonthOf(today) + 1, 2); }
        assert false;
      }
    } else if today >= 1 && MonthOf(today) >= 2 {
      if MonthOf(today) > 2 { MonthStartIncreases(2, MonthOf(today)); }
      assert false;
    }
  }

  /** At least 6 and at most 64 services, each named once, at least 6 of which must qualify together. */
  ghost predicate PolicySound(policy: Policy) {
    && 6 <= policy.minimumQualifyingServices <= |policy.services| <= 64 && 6 <= |policy.services|
    && (forall i, j :: 0 <= i < |policy.services| && 0 <= j < |policy.services| && policy.services[i] == policy.services[j] ==> i == j)
    && policy.threshold > 0 && policy.maturityHours == 72 && 1 <= policy.freshnessHours <= 36
  }

  // ---------- the stored state ----------

  ghost predicate EntrySound(entry: EvaluationEntry) {
    1 <= entry.sequence <= 1_000_000 && entry.fingerprint.value == entry.value
  }

  ghost predicate StateSound(state: State) {
    && (state.subscription == None ==> state == EMPTY_STATE)
    && |state.snapshots| <= 2
    && (forall p :: p in state.snapshots ==> 1 <= state.snapshots[p].revision <= 1_000_000)
    && (forall x :: x in state.evaluations ==> EntrySound(state.evaluations[x]))
    && (forall carry :: state.carry == Some(carry) ==>
          |carry.evaluations| <= 65 && forall x :: x in carry.evaluations ==> EntrySound(carry.evaluations[x]))
    && forall id :: id in state.outbox ==> state.outbox[id].id == id && 1 <= state.outbox[id].sequence <= 1_000_000
  }

  lemma StateAcceptedExactly(state: State)
    ensures StateAccepted(state) <==> StateSound(state)
  {
  }

  /** The evaluation of a configured service or of the combined minimum that the state hands over for the
      eve of the window. */
  ghost predicate Carried(previous: State, policy: Policy, eve: Day, x: Subject, value: Evaluation) {
    && x.date == eve && (x.ServiceDay? ==> x.service in policy.services)
    && previous.policy == Some(Fingerprint(policy))
    && if previous.carry.Some? && previous.carry.value.through == eve && previous.carry.value.policy == Fingerprint(policy)
       then x in previous.carry.value.evaluations && previous.carry.value.evaluations[x].value == value
       else x in previous.evaluations && previous.evaluations[x].value == value && value.date == eve
  }

  /** What is handed over is of that day, and its counts are 0 exactly where it did not qualify and never
      longer than history. */
  ghost predicate EveSound(previous: State, policy: Policy, eve: Day) {
    forall x, value, b :: Carried(previous, policy, eve, x, value) ==> CountSound(value, eve, b)
  }

  ghost predicate CountSound(value: Evaluation, eve: Day, b: Basis) {
    value.date == eve && 0 <= value.consecutiveDays.At(b) <= eve && (value.basisQualifies.At(b) <==> value.consecutiveDays.At(b) != 0)
  }

  lemma CarriedIsCheckpoint(policy: Policy, now: Time, previous: State, track: Track, value: Evaluation)
    requires ClockAccepted(now) && Tracked(policy.services, track)
    ensures var eve, entries := WindowStart(now) - 1, CheckpointOf(policy, now, previous).evaluations;
      var x := SubjectOf(track, eve);
      Carried(previous, policy, eve, x, value) <==> x in entries && entries[x].value == value
  {
    hide ClockAccepted, Fingerprint, WindowStart;
  }

  lemma SeedSoundExactly(policy: Policy, now: Time, previous: State, track: Track, b: Basis)
    requires ClockAccepted(now) && Tracked(policy.services, track)
    ensures var eve := WindowStart(now) - 1;
      SeedAccepted(CheckpointOf(policy, now, previous), track, b) <==>
        forall value :: Carried(previous, policy, eve, SubjectOf(track, eve), value) ==> CountSound(value, eve, b)
  {
    hide ClockAccepted, Fingerprint, WindowStart, Carried, CheckpointOf;
    var eve, carry := WindowStart(now) - 1, CheckpointOf(policy, now, previous);
    var x := SubjectOf(track, eve);
    CheckpointIs(policy, now, previous);
    forall value ensures Carried(previous, policy, eve, x, value) <==> x in carry.evaluations && carry.evaluations[x].value == value {
      CarriedIsCheckpoint(policy, now, previous, track, value);
    }
    if x in carry.evaluations {
      assert Carried(previous, policy, eve, x, carry.evaluations[x].value);
    }
  }

  lemma EveSoundExactly(policy: Policy, now: Time, previous: State)
    requires ClockAccepted(now)
    ensures SeedsAccepted(CheckpointOf(policy, now, previous), Services(policy)) <==> EveSound(previous, policy, WindowStart(now) - 1)
  {
    hide ClockAccepted, Fingerprint, WindowStart, CheckpointOf, SeedAccepted, CountSound;
    var eve, carry := WindowStart(now) - 1, CheckpointOf(policy, now, previous);
    forall track, b | Tracked(policy.services, track)
      ensures SeedAccepted(carry, track, b) <==>
        forall value :: Carried(previous, policy, eve, SubjectOf(track, eve), value) ==> CountSound(value, eve, b)
    {
      SeedSoundExactly(policy, now, previous, track, b);
    }
    forall x, value | Carried(previous, policy, eve, x, value) ensures x == SubjectOf(TrackOf(x), eve) && Tracked(policy.services, TrackOf(x)) {
    }
    if SeedsAccepted(carry, Services(policy)) {
      forall x, value, b | Carried(previous, policy, eve, x, value) ensures CountSound(value, eve, b) {
        assert SeedAccepted(carry, TrackOf(x), b);
      }
    }
    if EveSound(previous, policy, eve) {
      forall s, b | s in Services(policy) ensures SeedAccepted(carry, ServiceTrack(s), b) {
        assert Tracked(policy.services, ServiceTrack(s));
      }
      assert Tracked(policy.services, MinimumTrack);
    }
  }

  // ---------- what is delivered ----------

  /** The records of all days of all snapshots, as listed. */
  function AllRecords(snapshots: seq<Snapshot>): seq<Record> {
    if snapshots == [] then [] else RecordsOfDays(snapshots[0].days) + AllRecords(snapshots[1..])
  }

  function RecordsOfDays(days: seq<DayRecords>): seq<Record> {
    if days == [] then [] else days[0].records + RecordsOfDays(days[1..])
  }

  /** An amount of at most 18 digits before and 18 after the point, written with so many decimal places and
      a sign; its service, if it has one, is configured. */
  ghost predicate RecordSound(r: Record, services: seq<ServiceId>) {
    && (forall s :: r.serviceId == Some(s) ==> s in services)
    && -1_000_000_000_000_000_000_000_000_000_000_000_000 < r.charge < 1_000_000_000_000_000_000_000_000_000_000_000_000
    && r.form.places <= 18
    && exists digits :: Spells(digits, r.form, r.charge)
  }

  /** The digits, a point before the last so many of them, and the sign spell the amount. */
  ghost predicate Spells(digits: nat, form: Form, charge: Amount)
    requires form.places <= 18
  {
    charge == if form.minus then -(digits * TenTo(18 - form.places)) else digits * TenTo(18 - form.places)
  }

  ghost predicate DaySound(d: DayRecords, period: Month, today: Day, services: seq<ServiceId>) {
    && MonthStart(period) <= d.date < MonthStart(period + 1) && d.date <= today
    && (d.finalized <==> d.finalizationEvidence != None)
    && forall r :: r in d.records ==> RecordSound(r, services)
  }

  /** A period delivered before comes with a higher revision, another id and an export no older; or it is
      the delivery already known. */
  ghost predicate RevisionSound(s: Snapshot, mark: SnapshotMark, mappingVersion: string) {
    || (s.revision > mark.revision && s.snapshotId != mark.snapshotId && s.exportedAt >= mark.exportedAt)
    || (s.revision == mark.revision && s.snapshotId == mark.snapshotId && ContentHash(s) == mark.contentHash
        && (mark.mappingVersion != mappingVersion || MappingHash(s) == mark.mappingHash))
  }

  /** Today lies in the snapshot's month or in the next. */
  ghost predicate SnapshotSound(s: Snapshot, policy: Policy, now: Time, marks: map<Month, SnapshotMark>) {
    && MonthStart(s.period) <= now / 86_400 < MonthStart(s.period + 2)
    && 1 <= s.revision <= 1_000_000 && s.exportedAt <= now
    && (s.ingestionComplete <==> s.completenessEvidence != None)
    && |s.days| <= 31
    && (forall i, j :: 0 <= i < |s.days| && 0 <= j < |s.days| && s.days[i].date == s.days[j].date ==> i == j)
    && (forall d :: d in s.days ==> DaySound(d, s.period, now / 86_400, policy.services))
    && (s.period in marks ==> RevisionSound(s, marks[s.period], policy.mappingVersion))
  }

  ghost predicate DeliverySound(snapshots: seq<Snapshot>, policy: Policy, now: Time, marks: map<Month, SnapshotMark>) {
    && |snapshots| <= 2
    && (|snapshots| == 2 ==> snapshots[0].period != snapshots[1].period && snapshots[0].snapshotId != snapshots[1].snapshotId)
    && (forall s :: s in snapshots ==> SnapshotSound(s, policy, now, marks))
    && var records := AllRecords(snapshots);
       && |records| <= 25_000
       && forall i, j :: 0 <= i < j < |records| ==> records[i].sourceRecordId != records[j].sourceRecordId
  }

  lemma DigitsOf(charge: Amount, form: Form) returns (digits: nat)
    requires Written(charge, form)
    ensures Spells(digits, form, charge)
  {
    hide TenTo;
    var unit := TenTo(18 - form.places);
    var q := charge / unit;
    assert charge == q * unit;
    ProductGrows(q, unit);
    digits := if q < 0 then -q else q;
    assert q < 0 ==> digits * unit == -charge;
  }

  lemma SpelledIsWritten(digits: nat, charge: Amount, form: Form)
    requires form.places <= 18 && Spells(digits, form, charge)
    ensures Written(charge, form)
  {
    hide TenTo;
    var unit := TenTo(18 - form.places);
    assert digits * unit >= 0;
    var q := if form.minus then -(digits as int) else digits;
    assert charge == q * unit;
    QuotientIs(charge, unit, q, 0);
  }

  lemma WrittenExactly(charge: Amount, form: Form)
    ensures Written(charge, form) <==> form.places <= 18 && exists digits :: Spells(digits, form, charge)
  {
    hide Spells, TenTo;
    if Written(charge, form) {
      var digits := DigitsOf(charge, form);
    } else if form.places <= 18 && exists digits :: Spells(digits, form, charge) {
      var digits: nat :| Spells(digits, form, charge);
      SpelledIsWritten(digits, charge, form);
    }
  }

  lemma RecordSoundExactly(r: Record, policy: Policy)
    ensures RecordFits(r, Services(policy)) <==> RecordSound(r, policy.services)
  {
    hide TenTo, Written;
    WrittenExactly(r.charge, r.form);
  }

  lemma DaySoundExactly(d: DayRecords, period: Month, today: Day, policy: Policy)
    ensures DayFits(d, period, today, Services(policy)) <==> DaySound(d, period, today, policy.services)
  {
    hide RecordFits, RecordSound, MonthStart, MonthOf;
    forall r ensures RecordFits(r, Services(policy)) <==> RecordSound(r, policy.services) {
      RecordSoundExactly(r, policy);
    }
    FirstDay(period);
    if d.date >= 1 && MonthStart(period) <= d.date < MonthStart(period + 1) {
      MonthOfUnique(d.date, period);
    }
  }

  lemma FirstDay(m: Month)
    ensures MonthStart(m) >= 1
  {
  }

  lemma PeriodIsOfTwo(period: Month, now: Time)
    requires ClockAccepted(now)
    ensures period in Periods(now) <==> MonthStart(period) <= now / 86_400 < MonthStart(period + 2)
  {
    hide MonthStart, MonthOf;
    var today := DayOf(now);
    var m := MonthOf(today);
    if period < m - 1 {
      if period + 2 < m { MonthStartIncreases(period + 2, m); }
    } else if period > m {
      if period > m + 1 { MonthStartIncreases(m + 1, period); }
    } else {
      MonthStartIncreases(m + 1, m + 2);
      MonthStartIncreases(m - 1, m);
    }
  }

  lemma SnapshotSoundExactly(s: Snapshot, policy: Policy, now: Time, marks: map<Month, SnapshotMark>)
    requires ClockAccepted(now)
    ensures SnapshotFits(s, policy, now, marks) <==> SnapshotSound(s, policy, now, marks)
  {
    hide DayFits, DaySound, ClockAccepted, Periods, MonthStart, ContentHash, MappingHash;
    PeriodIsOfTwo(s.period, now);
    forall d ensures DayFits(d, s.period, DayOf(now), Services(policy)) <==> DaySound(d, s.period, now / 86_400, policy.services) {
      DaySoundExactly(d, s.period, DayOf(now), policy);
    }
  }

  // ---------- rows and ids ----------

  lemma RowsWithNext(rows: multiset<Record>, days: seq<DayRecords>, n: nat)
    requires n < |days|
    ensures RowsWith(rows, days, n + 1) == RowsWith(rows, days, n) + multiset(days[n].records)
  {
  }

  lemma Reassociate(a: multiset<Record>, b: multiset<Record>, c: multiset<Record>)
    ensures a + (b + c) == (a + b) + c
  {
  }

  lemma {:induction false} RowsOfDays(rows: multiset<Record>, days: seq<DayRecords>, n: nat)
    requires n <= |days|
    ensures RowsWith(rows, days, n) + multiset(RecordsOfDays(days[n..])) == RowsWith(rows, days, |days|)
    decreases |days| - n
  {
    hide RowsWith;
    if n < |days| {
      RowsOfDays(rows, days, n + 1);
      assert days[n..][1..] == days[n + 1..];
      RowsWithNext(rows, days, n);
      Reassociate(RowsWith(rows, days, n), multiset(days[n].records), multiset(RecordsOfDays(days[n + 1..])));
    }
  }

  lemma {:induction false} RowsOfSnapshots(snapshots: seq<Snapshot>, n: nat)
    requires n <= |snapshots|
    ensures RowsOf(snapshots, n) + multiset(AllRecords(snapshots[n..])) == RowsOf(snapshots, |snapshots|)
    decreases |snapshots| - n
  {
    hide RecordsOfDays, RowsWith;
    if n < |snapshots| {
      var days := snapshots[n].days;
      RowsOfSnapshots(snapshots, n + 1);
      RowsOfDays(RowsOf(snapshots, n), days, 0);
      assert days[0..] == days;
      NoRowsYet(RowsOf(snapshots, n), days);
      assert snapshots[n..][1..] == snapshots[n + 1..];
    }
  }

  lemma NoRowsYet(rows: multiset<Record>, days: seq<DayRecords>)
    ensures RowsWith(rows, days, 0) == rows
  {
  }

  lemma RowsSoundExactly(snapshots: seq<Snapshot>)
    ensures var records := AllRecords(snapshots);
      RowsAdmissible(RowsOf(snapshots, |snapshots|)) <==>
        |records| <= 25_000 && forall i, j :: 0 <= i < j < |records| ==> records[i].sourceRecordId != records[j].sourceRecordId
  {
    hide AllRecords, DistinctIds;
    var records := AllRecords(snapshots);
    RowsOfSnapshots(snapshots, 0);
    assert snapshots[0..] == snapshots;
    assert multiset{} + multiset(records) == multiset(records);
    NoneRepeated();
    DistinctExtends(multiset{}, records);
    assert |multiset(records)| == |records|;
  }

  lemma NoneRepeated()
    ensures DistinctIds(multiset{}) && IdsOf(multiset{}) == {}
  {
  }

  // ---------- the decision ----------

  lemma DeliverySoundExactly(manifest: Manifest, policy: Policy, now: Time, marks: map<Month, SnapshotMark>)
    requires ClockAccepted(now)
    ensures Admissible(manifest, policy, now, marks) <==> DeliverySound(manifest.snapshots, policy, now, marks)
  {
    hide SnapshotFits, SnapshotSound, ClockAccepted, RowsAdmissible, AllRecords, RowsOf;
    forall s ensures SnapshotFits(s, policy, now, marks) <==> SnapshotSound(s, policy, now, marks) {
      SnapshotSoundExactly(s, policy, now, marks);
    }
    RowsSoundExactly(manifest.snapshots);
  }

  /** The eve of the window: the day before the month before today's. */
  ghost predicate IsEve(eve: Day, now: Time) {
    exists m: Month :: m >= 1 && MonthStart(m) <= now / 86_400 < MonthStart(m + 1) && eve == MonthStart(m - 1) - 1
  }

  lemma EveIs(now: Time, eve: Day)
    requires ClockAccepted(now)
    ensures IsEve(eve, now) <==> eve == WindowStart(now) - 1
  {
    hide MonthStart, MonthOf;
    forall m: Month ensures MonthStart(m) <= DayOf(now) < MonthStart(m + 1) ==> m == MonthOf(DayOf(now)) {
      if MonthStart(m) <= DayOf(now) < MonthStart(m + 1) {
        MonthOfUnique(DayOf(now), m);
      }
    }
  }

  /** An evaluation is accepted exactly when the policy and the stored state are sound, the names agree, the
      clock leaves room for a window, the delivery is sound, and what the state hands over is. */
  lemma AcceptedExactly(manifest: Manifest, policy: Policy, now: Time, previous: State)
    ensures Evaluate(manifest, policy, now, previous).Some? <==>
      && PolicySound(policy) && StateSound(previous)
      && manifest.subscription == policy.expectedSubscription && manifest.mappingVersion == policy.mappingVersion
      && (previous.subscription == None || previous.subscription == Some(manifest.subscription))
      && now >= 60 * 86_400
      && DeliverySound(manifest.snapshots, policy, now, previous.snapshots)
      && forall eve :: IsEve(eve, now) ==> EveSound(previous, policy, eve)
  {
    hide Admissible, DeliverySound, StateAfter, SeedsAccepted, EveSound, StateAccepted, StateSound, IsEve, ClockAccepted, CheckpointOf,
      WindowStart, Services;
    ClockIsLateEnough(now);
    StateAcceptedExactly(previous);
    if ClockAccepted(now) {
      DeliverySoundExactly(manifest, policy, now, previous.snapshots);
      EveSoundExactly(policy, now, previous);
      forall eve ensures IsEve(eve, now) <==> eve == WindowStart(now) - 1 {
        EveIs(now, eve);
      }
    }
  }

  // ---------- what is stored ----------

  /** What is remembered of a delivery. */
  ghost predicate Remembers(mark: SnapshotMark, s: Snapshot, mappingVersion: string) {
    && mark.snapshotId == s.snapshotId && mark.revision == s.revision && mark.exportedAt == s.exportedAt
    && mark.contentHash == ContentHash(s) && mark.mappingHash == MappingHash(s) && mark.mappingVersion == mappingVersion
  }

  ghost predicate IsDelivered(snapshots: seq<Snapshot>, n: nat, p: Month) {
    exists i :: 0 <= i < n <= |snapshots| && snapshots[i].period == p
  }

  lemma {:induction false} MarksAre(marks: map<Month, SnapshotMark>, snapshots: seq<Snapshot>, n: nat,
                                    mappingVersion: string, now: Time, p: Month)
    requires ClockAccepted(now) && n <= |snapshots|
    requires forall i, j :: 0 <= i < j < |snapshots| ==> snapshots[i].period != snapshots[j].period
    ensures var after := MarksAfter(marks, snapshots, n, mappingVersion, now);
      && (forall i :: 0 <= i < n && snapshots[i].period == p ==> p in after && Remembers(after[p], snapshots[i], mappingVersion))
      && (!IsDelivered(snapshots, n, p) ==>
            && (p in after <==> p in marks && p in Periods(now))
            && (p in after ==> after[p] == marks[p]))
  {
    hide Periods, ClockAccepted, ContentHash, MappingHash;
    if n > 0 {
      MarksAre(marks, snapshots, n - 1, mappingVersion, now, p);
      assert !IsDelivered(snapshots, n, p) ==> !IsDelivered(snapshots, n - 1, p);
      assert !IsDelivered(snapshots, n, p) ==> snapshots[n - 1].period != p;
    }
  }

  /** An accepted evaluation remembers each delivery, and of the others those whose month is today's or the
      one before; and it hands the eve's evaluations on. */
  lemma StateKeeps(manifest: Manifest, policy: Policy, now: Time, previous: State)
    requires Evaluate(manifest, policy, now, previous).Some?
    ensures var after := Evaluate(manifest, policy, now, previous).value;
      && after.subscription == Some(manifest.subscription) && after.policy == Some(Fingerprint(policy))
      && (forall s :: s in manifest.snapshots ==>
            s.period in after.snapshots && Remembers(after.snapshots[s.period], s, policy.mappingVersion))
      && (forall p :: p in after.snapshots && !IsDelivered(manifest.snapshots, |manifest.snapshots|, p) ==>
            p in previous.snapshots && after.snapshots[p] == previous.snapshots[p])
      && (forall p :: p in previous.snapshots && !IsDelivered(manifest.snapshots, |manifest.snapshots|, p) ==>
            (p in after.snapshots <==> MonthStart(p) <= now / 86_400 < MonthStart(p + 2)))
      && after.carry.Some? && IsEve(after.carry.value.through, now) && after.carry.value.policy == Fingerprint(policy)
      && forall track, value :: Tracked(policy.services, track) ==>
           var x := SubjectOf(track, after.carry.value.through);
           Carried(previous, policy, after.carry.value.through, x, value)
           <==> x in after.carry.value.evaluations && after.carry.value.evaluations[x].value == value
  {
    hide Fingerprint, MonthStart, MarksAfter, ClockAccepted, Periods, IsEve, Carried, Remembers, IsDelivered, CarryCheckpoint,
      SeedsAccepted, StateAccepted, PolicyAccepted, SnapshotFits, RowsAdmissible, WindowStart, Evaluations, EntriesAfter, OutboxAfter;
    forall p: Month
      ensures p in Periods(now) <==> MonthStart(p) <= now / 86_400 < MonthStart(p + 2)
      ensures var after := MarksAfter(previous.snapshots, manifest.snapshots, |manifest.snapshots|, policy.mappingVersion, now);
        && (forall i :: 0 <= i < |manifest.snapshots| && manifest.snapshots[i].period == p ==>
              p in after && Remembers(after[p], manifest.snapshots[i], policy.mappingVersion))
        && (!IsDelivered(manifest.snapshots, |manifest.snapshots|, p) ==>
              && (p in after <==> p in previous.snapshots && p in Periods(now))
              && (p in after ==> after[p] == previous.snapshots[p]))
    {
      PeriodIsOfTwo(p, now);
      MarksAre(previous.snapshots, manifest.snapshots, |manifest.snapshots|, policy.mappingVersion, now, p);
    }
    CheckpointIs(policy, now, previous);
    EveIs(now, WindowStart(now) - 1);
    var eve, entries := WindowStart(now) - 1, CheckpointOf(policy, now, previous).evaluations;
    forall track, value | Tracked(policy.services, track)
      ensures Carried(previous, policy, eve, SubjectOf(track, eve), value)
         <==> SubjectOf(track, eve) in entries && entries[SubjectOf(track, eve)].value == value
    {
      CarriedIsCheckpoint(policy, now, previous, track, value);
    }
  }

  lemma CheckpointIs(policy: Policy, now: Time, previous: State)
    requires ClockAccepted(now)
    ensures CheckpointOf(policy, now, previous).through == WindowStart(now) - 1
    ensures CheckpointOf(policy, now, previous).policy == Fingerprint(policy)
  {
    hide ClockAccepted, Fingerprint, WindowStart;
  }

  // ---------- digests ----------

  /** The rows without their services, as listed. */
  function Unmapped(records: seq<Record>): (rows: seq<RawRow>) {
    seq(|records|, i requires 0 <= i < |records| =>
      RawRow(records[i].sourceRecordId, records[i].provider, records[i].serviceName, records[i].charge, records[i].form))
  }

  lemma {:induction false} RawRowsAre(records: seq<Record>)
    ensures RawRows(records) == multiset(Unmapped(records))
  {
    if records != [] {
      var init := records[..|records| - 1];
      RawRowsAre(init);
      assert Unmapped(records) == Unmapped(init) + [Raw(records[|records| - 1])];
    }
  }

  /** Two deliveries of a period that agree but for the listing of days, and of rows in a day as compared. */
  ghost predicate SameHeader(s: Snapshot, t: Snapshot) {
    s.(days := []) == t.(days := [])
  }

  ghost predicate SameDay(d: DayRecords, e: DayRecords) {
    d.date == e.date && d.finalized == e.finalized && d.finalizationEvidence == e.finalizationEvidence
  }

  ghost predicate HasDay(days: seq<DayRecords>, d: DayRecords, mapped: bool) {
    exists e :: e in days && SameDay(d, e)
      && if mapped then multiset(d.records) == multiset(e.records) else multiset(Unmapped(d.records)) == multiset(Unmapped(e.records))
  }

  ghost predicate SameDays(s: Snapshot, t: Snapshot, mapped: bool) {
    (forall d :: d in s.days ==> HasDay(t.days, d, mapped)) && (forall d :: d in t.days ==> HasDay(s.days, d, mapped))
  }

  lemma {:induction false} RawDaysFrom(days: seq<DayRecords>, n: nat, date: Day)
    requires n <= |days|
    ensures date in RawDays(days, n) <==> exists i :: 0 <= i < n && days[i].date == date
    ensures date in MappedDays(days, n) <==> exists i :: 0 <= i < n && days[i].date == date
  {
    hide RawRows;
    if n > 0 {
      RawDaysFrom(days, n - 1, date);
    }
  }

  lemma {:induction false} MappedDaysHold(days: seq<DayRecords>, n: nat, i: nat)
    requires i < n <= |days| && DistinctDates(days)
    ensures var d, mapped := days[i], MappedDays(days, n);
      d.date in mapped && mapped[d.date] == DayDigest(d.finalized, d.finalizationEvidence, multiset(d.records))
  {
    if i < n - 1 {
      MappedDaysHold(days, n - 1, i);
    }
  }

  /** The digests of one day. */
  lemma DayDigests(days: seq<DayRecords>, d: DayRecords)
    requires DistinctDates(days) && d in days
    ensures var raw, mapped := RawDays(days, |days|), MappedDays(days, |days|);
      && d.date in raw && raw[d.date] == DayDigest(d.finalized, d.finalizationEvidence, multiset(Unmapped(d.records)))
      && d.date in mapped && mapped[d.date] == DayDigest(d.finalized, d.finalizationEvidence, multiset(d.records))
  {
    hide RawRows, RawDays, MappedDays, Unmapped;
    var i :| 0 <= i < |days| && days[i] == d;
    RawDaysHold(days, |days|, i);
    MappedDaysHold(days, |days|, i);
    RawRowsAre(d.records);
  }

  lemma DaysDigested(s: Snapshot, t: Snapshot, date: Day)
    requires DistinctDates(s.days) && DistinctDates(t.days) && SameDays(s, t, false)
    ensures var a, b := RawDays(s.days, |s.days|), RawDays(t.days, |t.days|); date in a ==> date in b && a[date] == b[date]
  {
    hide RawDays, MappedDays, Unmapped;
    RawDaysFrom(s.days, |s.days|, date);
    if i :| 0 <= i < |s.days| && s.days[i].date == date {
      assert HasDay(t.days, s.days[i], false);
      var e :| e in t.days && SameDay(s.days[i], e) && multiset(Unmapped(s.days[i].records)) == multiset(Unmapped(e.records));
      DayDigests(s.days, s.days[i]);
      DayDigests(t.days, e);
    }
  }

  lemma DaysMapped(s: Snapshot, t: Snapshot, date: Day)
    requires DistinctDates(s.days) && DistinctDates(t.days) && SameDays(s, t, true)
    ensures var a, b := MappedDays(s.days, |s.days|), MappedDays(t.days, |t.days|); date in a ==> date in b && a[date] == b[date]
  {
    hide RawDays, MappedDays, Unmapped;
    RawDaysFrom(s.days, |s.days|, date);
    if i :| 0 <= i < |s.days| && s.days[i].date == date {
      assert HasDay(t.days, s.days[i], true);
      var e :| e in t.days && SameDay(s.days[i], e) && multiset(s.days[i].records) == multiset(e.records);
      DayDigests(s.days, s.days[i]);
      DayDigests(t.days, e);
    }
  }

  lemma DayIsFound(s: Snapshot, t: Snapshot, d: DayRecords)
    requires DistinctDates(s.days) && DistinctDates(t.days) && d in s.days
    ensures RawDays(s.days, |s.days|) == RawDays(t.days, |t.days|) ==> HasDay(t.days, d, false)
    ensures MappedDays(s.days, |s.days|) == MappedDays(t.days, |t.days|) ==> HasDay(t.days, d, true)
  {
    hide RawDays, MappedDays, Unmapped;
    DayDigests(s.days, d);
    RawDaysFrom(t.days, |t.days|, d.date);
    if i :| 0 <= i < |t.days| && t.days[i].date == d.date {
      DayDigests(t.days, t.days[i]);
      assert t.days[i] in t.days;
    }
  }

  /** Equal content digests mean the same rows on the same days, whatever the order they are listed in and
      the services they are mapped to; equal mapping digests mean the same services as well. */
  lemma DigestsTell(s: Snapshot, t: Snapshot)
    requires DistinctDates(s.days) && DistinctDates(t.days)
    ensures ContentHash(s) == ContentHash(t) <==> SameHeader(s, t) && SameDays(s, t, false)
    ensures MappingHash(s) == MappingHash(t) <==> SameHeader(s, t) && SameDays(s, t, true)
  {
    hide RawDays, MappedDays, HasDay;
    forall d | d in s.days
      ensures RawDays(s.days, |s.days|) == RawDays(t.days, |t.days|) ==> HasDay(t.days, d, false)
      ensures MappedDays(s.days, |s.days|) == MappedDays(t.days, |t.days|) ==> HasDay(t.days, d, true)
    {
      DayIsFound(s, t, d);
    }
    forall d | d in t.days
      ensures RawDays(s.days, |s.days|) == RawDays(t.days, |t.days|) ==> HasDay(s.days, d, false)
      ensures MappedDays(s.days, |s.days|) == MappedDays(t.days, |t.days|) ==> HasDay(s.days, d, true)
    {
      DayIsFound(t, s, d);
    }
    var a, b := RawDays(s.days, |s.days|), RawDays(t.days, |t.days|);
    if SameDays(s, t, false) {
      forall date ensures (date in a ==> date in b && a[date] == b[date]) && (date in b ==> date in a) {
        DaysDigested(s, t, date);
        DaysDigested(t, s, date);
      }
      assert a == b;
    }
    var p, q := MappedDays(s.days, |s.days|), MappedDays(t.days, |t.days|);
    if SameDays(s, t, true) {
      forall date ensures (date in p ==> date in q && p[date] == q[date]) && (date in q ==> date in p) {
        DaysMapped(s, t, date);
        DaysMapped(t, s, date);
      }
      assert p == q;
    }
  }
}
