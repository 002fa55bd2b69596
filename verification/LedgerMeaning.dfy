/** What an accepted evaluation says about a service and a day, in terms of the delivered rows, the
    evidence of their export and the clock; and what it announces, in terms of what was known before. */
module LedgerMeaning {
  import opened Common
  import opened Calendar
  import opened LedgerTypes
  import opened LedgerAdmission
  import opened LedgerManifest
  import opened LedgerOrdering
  import opened LedgerReplay
  import opened LedgerOutbox
  import opened Ledger

  // ---------- the rows of a service ----------

  function RowsOfService(records: seq<Record>, s: ServiceId): seq<Record> {
    if records == [] then []
    else (if records[0].serviceId == Some(s) then [records[0]] else []) + RowsOfService(records[1..], s)
  }

  function SumOfCharges(rows: seq<Record>): Amount {
    if rows == [] then 0 else rows[0].charge + SumOfCharges(rows[1..])
  }

  ghost predicate AllZero(rows: seq<Record>) {
    forall r :: r in rows ==> r.charge == 0
  }

  lemma {:induction false} RowsOfServiceLast(records: seq<Record>, r: Record, s: ServiceId)
    ensures RowsOfService(records + [r], s) == RowsOfService(records, s) + if r.serviceId == Some(s) then [r] else []
  {
    if records == [] {
      assert [] + [r] == [r];
    } else {
      RowsOfServiceLast(records[1..], r, s);
      assert (records + [r])[1..] == records[1..] + [r];
    }
  }

  lemma {:induction false} SumOfChargesLast(rows: seq<Record>, r: Record)
    ensures SumOfCharges(rows + [r]) == SumOfCharges(rows) + r.charge
  {
    if rows == [] {
      assert [] + [r] == [r];
    } else {
      SumOfChargesLast(rows[1..], r);
      assert (rows + [r])[1..] == rows[1..] + [r];
    }
  }

  /** A day's running total of a service is the sum over its rows. */
  lemma {:induction false} TotalIsSum(records: seq<Record>, s: ServiceId)
    ensures var rows := RowsOfService(records, s);
      && TotalOf(records, s).total == SumOfCharges(rows) && TotalOf(records, s).rows == |rows|
      && (TotalOf(records, s).nonzero <==> !AllZero(rows))
  {
    hide SumOfCharges, RowsOfService;
    if records == [] {
      NoRows(s);
    } else {
      var init, last := records[..|records| - 1], records[|records| - 1];
      TotalIsSum(init, s);
      assert records == init + [last];
      RowsOfServiceLast(init, last, s);
      SumOfChargesLast(RowsOfService(init, s), last);
      assert RowsOfService(init, s) + [] == RowsOfService(init, s);
    }
  }

  lemma NoRows(s: ServiceId)
    ensures RowsOfService([], s) == [] && SumOfCharges([]) == 0
  {
  }

  // ---------- the admitted days ----------

  lemma DayLiesInPeriod(s: Snapshot, policy: Policy, now: Time, marks: map<Month, SnapshotMark>, j: nat)
    requires ClockAccepted(now) && SnapshotFits(s, policy, now, marks) && j < |s.days|
    ensures DistinctDates(s.days) && s.period in Periods(now)
    ensures var d := s.days[j].date; 1 <= d <= DayOf(now) && MonthOf(d) == s.period
  {
    hide Periods, RevisionFits, MonthOf, RecordFits;
    assert DayFits(s.days[j], s.period, DayOf(now), Services(policy));
  }

  lemma DaysLieInPeriod(s: Snapshot, policy: Policy, now: Time, marks: map<Month, SnapshotMark>)
    requires ClockAccepted(now) && SnapshotFits(s, policy, now, marks)
    ensures forall d :: d in DaysOfSnapshot(s, |s.days|, policy, now) ==> d >= 1 && MonthOf(d) == s.period
  {
    hide DaysOfSnapshot, SnapshotFits, Periods, MonthOf;
    forall d | d in DaysOfSnapshot(s, |s.days|, policy, now) ensures d >= 1 && MonthOf(d) == s.period {
      var k := KeptFrom(s, |s.days|, policy, now, d);
      DayLiesInPeriod(s, policy, now, marks, k);
    }
  }

  lemma AdmissibleParts(manifest: Manifest, policy: Policy, now: Time, marks: map<Month, SnapshotMark>, i: nat)
    requires ClockAccepted(now) && Admissible(manifest, policy, now, marks) && i < |manifest.snapshots|
    ensures SnapshotFits(manifest.snapshots[i], policy, now, marks)
    ensures forall k :: 0 <= k < |manifest.snapshots| && k != i ==> manifest.snapshots[k].period != manifest.snapshots[i].period
  {
    hide SnapshotFits, RowsAdmissible, ClockAccepted;
    assert manifest.snapshots[i] in manifest.snapshots;
  }

  lemma DaysOfNext(snapshots: seq<Snapshot>, policy: Policy, now: Time, n: nat)
    requires 0 < n <= |snapshots|
    ensures DaysOf(snapshots, n, policy, now)
      == DaysOf(snapshots, n - 1, policy, now) + DaysOfSnapshot(snapshots[n - 1], |snapshots[n - 1].days|, policy, now)
  {
    hide DaysOfSnapshot;
  }

  /** A delivered day is what the replay sees under its date. */
  lemma {:induction false} DeliveredDayIsKept(manifest: Manifest, policy: Policy, now: Time, marks: map<Month, SnapshotMark>,
                                              i: nat, j: nat, n: nat)
    requires ClockAccepted(now) && Admissible(manifest, policy, now, marks)
    requires i < n <= |manifest.snapshots| && j < |manifest.snapshots[i].days|
    ensures var s := manifest.snapshots[i];
      var days := DaysOf(manifest.snapshots, n, policy, now);
      s.days[j].date in days && days[s.days[j].date] == AdmitDay(s.days[j], s, policy, now)
  {
    hide AdmitDay, Admissible, Periods, MonthOf, SnapshotFits, DaysOf, DaysOfSnapshot, ClockAccepted;
    var s := manifest.snapshots[i];
    AdmissibleParts(manifest, policy, now, marks, i);
    DayLiesInPeriod(s, policy, now, marks, j);
    DaysOfNext(manifest.snapshots, policy, now, n);
    if i == n - 1 {
      KeptAt(s, |s.days|, j, policy, now);
    } else {
      DeliveredDayIsKept(manifest, policy, now, marks, i, j, n - 1);
      AdmissibleParts(manifest, policy, now, marks, n - 1);
      DaysLieInPeriod(manifest.snapshots[n - 1], policy, now, marks);
    }
  }

  /** Only delivered days are. */
  lemma {:induction false} KeptDayIsDelivered(snapshots: seq<Snapshot>, policy: Policy, now: Time, n: nat, d: Day)
    returns (i: nat, j: nat)
    requires n <= |snapshots| && d in DaysOf(snapshots, n, policy, now)
    ensures i < n && j < |snapshots[i].days| && snapshots[i].days[j].date == d
  {
    hide AdmitDay;
    var last := snapshots[n - 1];
    if d in DaysOfSnapshot(last, |last.days|, policy, now) {
      j := KeptFrom(last, |last.days|, policy, now, d);
      i := n - 1;
    } else {
      i, j := KeptDayIsDelivered(snapshots, policy, now, n - 1, d);
    }
  }

  lemma DeliveredDayIsInWindow(manifest: Manifest, policy: Policy, now: Time, marks: map<Month, SnapshotMark>, i: nat, j: nat)
    requires ClockAccepted(now) && Admissible(manifest, policy, now, marks)
    requires i < |manifest.snapshots| && j < |manifest.snapshots[i].days|
    ensures WindowStart(now) <= manifest.snapshots[i].days[j].date <= DayOf(now)
  {
    hide RowsAdmissible, SnapshotFits, MonthStart;
    var s := manifest.snapshots[i];
    assert s in manifest.snapshots;
    DayLiesInPeriod(s, policy, now, marks, j);
    if s.period == CurrentMonth(now) {
      MonthStartIncreases(CurrentMonth(now) - 1, CurrentMonth(now));
    }
  }

  // ---------- one service on one delivered day ----------

  lemma ObservationBlockersAre(blockers: seq<Blocker>)
    ensures forall b :: b in ObservationBlockers(blockers) <==> b in blockers && b != ImmatureDay && b != UnfinalizedDay
  {
  }

  /** The value an accepted evaluation stores for a subject. */
  lemma StoredValue(manifest: Manifest, policy: Policy, now: Time, previous: State, x: Subject)
    requires Accepts(manifest, policy, now, previous)
    ensures var after := Evaluate(manifest, policy, now, previous).value.evaluations;
      var rp := ReplayOf(manifest, policy, now, previous);
      && (x in after <==> Tracked(policy.services, TrackOf(x)) && WindowStart(now) <= x.date <= DayOf(now))
      && (x in after ==> after[x].value == EvaluationOf(rp, TrackOf(x), x.date) && after[x].fingerprint == EvaluationDigest(after[x].value))
  {
    hide Evaluations, EvaluationOf, OutboxAfter, Admissible, SeedsAccepted, StateAccepted, PolicyAccepted, DaysOf;
    EvaluationsAt(ReplayOf(manifest, policy, now, previous), x);
  }

  lemma ClassMeans(total: ServiceTotal, threshold: Amount)
    requires threshold > 0 && (total.rows == 0 ==> total.total == 0) && (total.rows == 0 ==> !total.nonzero)
    requires !total.nonzero ==> total.total == 0
    ensures var c := ClassOf(Some(total), threshold);
      && (c == Unmatched <==> total.rows == 0) && (c == ExplicitZero <==> total.rows > 0 && !total.nonzero)
      && (c == NetZero <==> total.total == 0 && total.nonzero)
      && (c == BelowThreshold <==> total.total != 0 && total.total < threshold)
      && (c == Qualifying <==> total.total >= threshold) && c != AmountMissing
  {
  }

  lemma BlockersMean(rp: Replay, s: ServiceId, d: Day)
    requires d in rp.days && s in rp.days[d].totals
    ensures forall b :: b in BlockersOn(rp, s, d) <==>
      match b
      case MissingDay => false
      case IncompleteExport => !rp.days[d].ingestionComplete
      case StaleExport => !rp.days[d].recent
      case UnfinalizedDay => !rp.days[d].finalized
      case ImmatureDay => rp.now < (d + 1) * 86400 + rp.policy.maturityHours * 3600
      case NoMatchingRecords => rp.days[d].totals[s].rows == 0
  {
  }

  lemma NoneIn(blockers: seq<Blocker>)
    ensures blockers == [] <==>
      && MissingDay !in blockers && IncompleteExport !in blockers && StaleExport !in blockers && UnfinalizedDay !in blockers
      && ImmatureDay !in blockers && NoMatchingRecords !in blockers
  {
    if blockers != [] {
      match blockers[0] case MissingDay => case IncompleteExport => case StaleExport => case UnfinalizedDay =>
        case ImmatureDay => case NoMatchingRecords =>
    }
  }

  lemma EvaluationMeans(rp: Replay, s: ServiceId, d: Day)
    requires d in rp.days && s in rp.days[d].totals && rp.policy.threshold > 0
    requires var t := rp.days[d].totals[s];
      (t.rows == 0 ==> t.total == 0 && !t.nonzero) && (!t.nonzero ==> t.total == 0)
    ensures var value, day, total := EvaluationOf(rp, ServiceTrack(s), d), rp.days[d], rp.days[d].totals[s];
      var sound, mature := day.ingestionComplete && day.recent, rp.now >= (d + 1) * 86400 + rp.policy.maturityHours * 3600;
      && value.ServiceEvaluation? && value.date == d && value.service == s
      && value.mappingVersion == rp.policy.mappingVersion && value.policyVersion == rp.policy.version
      && value.matchingRecords == Some(total.rows) && value.netUsd == (if total.rows == 0 then None else Some(total.total))
      && value.amountClass == ClassOf(Some(total), rp.policy.threshold)
      && value.blockers == BlockersOn(rp, s, d) && value.observationBlockers == ObservationBlockers(BlockersOn(rp, s, d))
      && (value.mature <==> mature)
      && (value.confirmed <==> sound && mature && day.finalized && total.rows > 0)
      && (value.basisQualifies.observed <==> sound && total.total >= rp.policy.threshold)
      && (value.basisQualifies.mature <==> sound && mature && total.total >= rp.policy.threshold)
      && (value.basisQualifies.confirmed <==> sound && mature && day.finalized && total.total >= rp.policy.threshold)
      && (value.qualifies <==> sound && mature && total.total >= rp.policy.threshold)
      && (value.belowThreshold <==> sound && mature && total.rows > 0 && total.total < rp.policy.threshold)
  {
    hide ClassOf, BlockersOn, ObservationBlockers, StreakFrom;
    var blockers := BlockersOn(rp, s, d);
    ClassMeans(rp.days[d].totals[s], rp.policy.threshold);
    BlockersMean(rp, s, d);
    ObservationBlockersAre(blockers);
    NoneIn(blockers);
    NoneIn(ObservationBlockers(blockers));
  }

  /** A service on a delivered day is evaluated by that day's own rows, the evidence of their export and the
      clock. */
  lemma DeliveredDayIsEvaluated(manifest: Manifest, policy: Policy, now: Time, previous: State, i: nat, j: nat, s: ServiceId)
    returns (value: Evaluation, rows: seq<Record>, sum: Amount)
    requires Accepts(manifest, policy, now, previous) && s in policy.services
    requires i < |manifest.snapshots| && j < |manifest.snapshots[i].days|
    ensures var day, after := manifest.snapshots[i].days[j], Evaluate(manifest, policy, now, previous).value.evaluations;
      && ServiceDay(s, day.date) in after && after[ServiceDay(s, day.date)].value == value && value.ServiceEvaluation?
      && rows == RowsOfService(day.records, s) && sum == SumOfCharges(rows)
      && value.date == day.date && value.service == s
      && value.mappingVersion == policy.mappingVersion && value.policyVersion == policy.version
    ensures value.matchingRecords == Some(|rows|) && value.netUsd == if rows == [] then None else Some(sum)
    ensures value.amountClass == Unmatched <==> rows == []
    ensures value.amountClass == ExplicitZero <==> rows != [] && AllZero(rows)
    ensures value.amountClass == NetZero <==> sum == 0 && !AllZero(rows)
    ensures value.amountClass == BelowThreshold <==> sum != 0 && sum < policy.threshold
    ensures value.amountClass == Qualifying <==> sum >= policy.threshold
    ensures var snapshot, day := manifest.snapshots[i], manifest.snapshots[i].days[j];
      var sound := snapshot.ingestionComplete && now - snapshot.exportedAt <= policy.freshnessHours * 3600;
      var mature := now >= (day.date + 1) * 86400 + 72 * 3600;
      && (value.mature <==> mature)
      && (value.confirmed <==> sound && mature && day.finalized && rows != [])
      && (value.basisQualifies.observed <==> sound && sum >= policy.threshold)
      && (value.basisQualifies.mature <==> sound && mature && sum >= policy.threshold)
      && (value.basisQualifies.confirmed <==> sound && mature && day.finalized && sum >= policy.threshold)
      && (value.qualifies <==> sound && mature && sum >= policy.threshold)
      && (value.belowThreshold <==> sound && mature && rows != [] && sum < policy.threshold)
    ensures var snapshot, day := manifest.snapshots[i], manifest.snapshots[i].days[j];
      && MissingDay !in value.blockers
      && (IncompleteExport in value.blockers <==> !snapshot.ingestionComplete)
      && (StaleExport in value.blockers <==> now - snapshot.exportedAt > policy.freshnessHours * 3600)
      && (UnfinalizedDay in value.blockers <==> !day.finalized)
      && (ImmatureDay in value.blockers <==> now < (day.date + 1) * 86400 + 72 * 3600)
      && (NoMatchingRecords in value.blockers <==> rows == [])
    ensures forall b :: b in value.observationBlockers <==> b in value.blockers && b != ImmatureDay && b != UnfinalizedDay
  {
    hide Evaluate, Admissible, SeedsAccepted, StateAccepted, DaysOf, CheckpointOf, RowsOfService, SumOfCharges, EvaluationOf,
      ClassOf, BlockersOn, ObservationBlockers, AdmitDay;
    var snapshot, day := manifest.snapshots[i], manifest.snapshots[i].days[j];
    rows := RowsOfService(day.records, s);
    sum := SumOfCharges(rows);
    StoredValue(manifest, policy, now, previous, ServiceDay(s, day.date));
    DeliveredDayIsKept(manifest, policy, now, previous.snapshots, i, j, |manifest.snapshots|);
    DeliveredDayIsInWindow(manifest, policy, now, previous.snapshots, i, j);
    DayHolds(day, snapshot, policy, now, s);
    var rp := ReplayOf(manifest, policy, now, previous);
    value := EvaluationOf(rp, ServiceTrack(s), day.date);
    EvaluationMeans(rp, s, day.date);
    BlockersMean(rp, s, day.date);
    ClassMeans(rp.days[day.date].totals[s], policy.threshold);
    ObservationBlockersAre(BlockersOn(rp, s, day.date));
  }

  lemma DayHolds(day: DayRecords, snapshot: Snapshot, policy: Policy, now: Time, s: ServiceId)
    requires s in policy.services
    ensures var admitted, rows := AdmitDay(day, snapshot, policy, now), RowsOfService(day.records, s);
      && s in admitted.totals && admitted.ingestionComplete == snapshot.ingestionComplete && admitted.finalized == day.finalized
      && (admitted.recent <==> now - snapshot.exportedAt <= policy.freshnessHours * 3600)
      && var total := admitted.totals[s];
         && total.rows == |rows| && total.total == SumOfCharges(rows) && (total.nonzero <==> !AllZero(rows))
         && (total.rows == 0 ==> total.total == 0 && !total.nonzero) && (!total.nonzero ==> total.total == 0)
  {
    hide RowsOfService, SumOfCharges, TotalOf;
    TotalIsSum(day.records, s);
    if AllZero(RowsOfService(day.records, s)) {
      NoSumOfZeros(RowsOfService(day.records, s));
    }
    NoRows(s);
  }

  lemma {:induction false} NoSumOfZeros(rows: seq<Record>)
    requires AllZero(rows)
    ensures SumOfCharges(rows) == 0
  {
    if rows != [] {
      NoSumOfZeros(rows[1..]);
    }
  }

  // ---------- days without a delivery, and all services together ----------

  /** On a day of the window that nothing was delivered for, nothing is known of any service. */
  lemma MissingDayIsUnknown(manifest: Manifest, policy: Policy, now: Time, previous: State, d: Day, s: ServiceId)
    returns (value: Evaluation)
    requires Accepts(manifest, policy, now, previous) && s in policy.services && WindowStart(now) <= d <= DayOf(now)
    requires forall i, j :: 0 <= i < |manifest.snapshots| && 0 <= j < |manifest.snapshots[i].days| ==>
      manifest.snapshots[i].days[j].date != d
    ensures var after := Evaluate(manifest, policy, now, previous).value.evaluations;
      ServiceDay(s, d) in after && after[ServiceDay(s, d)].value == value && value.ServiceEvaluation?
    ensures value.amountClass == AmountMissing && value.netUsd.None? && value.matchingRecords.None?
    ensures MissingDay in value.observationBlockers && !value.confirmed && !value.qualifies && !value.belowThreshold
    ensures value.basisQualifies == PerBasis(false, false, false)
    ensures value.mature <==> now >= (d + 1) * 86400 + 72 * 3600
  {
    hide Evaluate, Admissible, SeedsAccepted, StateAccepted, DaysOf, CheckpointOf, StreakFrom;
    StoredValue(manifest, policy, now, previous, ServiceDay(s, d));
    var rp := ReplayOf(manifest, policy, now, previous);
    if d in rp.days {
      var i, j := KeptDayIsDelivered(manifest.snapshots, policy, now, |manifest.snapshots|, d);
    }
    value := EvaluationOf(rp, ServiceTrack(s), d);
    ObservationBlockersAre(BlockersOn(rp, s, d));
  }

  /** The configured services that the stored evaluations say qualify on a day. */
  function QualifyingOn(after: Entries, services: seq<ServiceId>, d: Day, b: Basis): set<ServiceId> {
    set s | s in services && ServiceDay(s, d) in after && after[ServiceDay(s, d)].value.basisQualifies.At(b)
  }

  /** The combined evaluation counts the services' own, and qualifies from the policy's minimum on. */
  lemma MinimumCountsServices(manifest: Manifest, policy: Policy, now: Time, previous: State, d: Day)
    returns (value: Evaluation)
    requires Accepts(manifest, policy, now, previous) && WindowStart(now) <= d <= DayOf(now)
    ensures var after := Evaluate(manifest, policy, now, previous).value.evaluations;
      && MinimumServices(d) in after && after[MinimumServices(d)].value == value && value.MinimumEvaluation?
      && value.date == d && value.minimumQualifyingServices == policy.minimumQualifyingServices
      && value.mappingVersion == policy.mappingVersion && value.policyVersion == policy.version
      && (forall b :: value.qualifyingServices.At(b) == |QualifyingOn(after, policy.services, d, b)|)
      && (forall b :: value.basisQualifies.At(b) <==> value.qualifyingServices.At(b) >= policy.minimumQualifyingServices)
      && (value.qualifies <==> value.basisQualifies.mature)
  {
    hide StateAfter, Admissible, SeedsAccepted, StateAccepted, DaysOf, CheckpointOf, StreakFrom, ServiceQualifies, PolicyAccepted;
    var after := Evaluate(manifest, policy, now, previous).value.evaluations;
    var rp := ReplayOf(manifest, policy, now, previous);
    StoredValue(manifest, policy, now, previous, MinimumServices(d));
    value := EvaluationOf(rp, MinimumTrack, d);
    forall b: Basis ensures value.qualifyingServices.At(b) == |QualifyingOn(after, policy.services, d, b)|
      ensures value.basisQualifies.At(b) <==> value.qualifyingServices.At(b) >= policy.minimumQualifyingServices
    {
      forall s | s in policy.services ensures ServiceDay(s, d) in after
        ensures after[ServiceDay(s, d)].value.basisQualifies.At(b) <==> ServiceQualifies(rp, s, d).At(b)
      {
        StoredValue(manifest, policy, now, previous, ServiceDay(s, d));
        match b case Observed => case Mature => case Confirmed =>
      }
      assert QualifyingOn(after, policy.services, d, b) == set s | s in Services(policy) && ServiceQualifies(rp, s, d).At(b);
      match b case Observed => case Mature => case Confirmed =>
    }
  }

  // ---------- streaks ----------

  /** The count a state hands over on the eve of a window: its own, of the carried eve or of that day's
      evaluation, and only under the same policy. */
  function HandedOver(previous: State, policy: Policy, eve: Day, x: Subject, b: Basis): int {
    if previous.policy != Some(Fingerprint(policy)) then 0
    else
      var entries := if previous.carry.Some? && previous.carry.value.through == eve
                        && previous.carry.value.policy == Fingerprint(policy)
                     then previous.carry.value.evaluations else previous.evaluations;
      if x in entries && entries[x].value.date == eve && entries[x].value.basisQualifies.At(b)
      then entries[x].value.consecutiveDays.At(b) else 0
  }

  lemma SeedIsHandedOver(policy: Policy, now: Time, previous: State, track: Track, b: Basis)
    requires ClockAccepted(now) && SeedsAccepted(CheckpointOf(policy, now, previous), Services(policy))
    requires Tracked(policy.services, track)
    ensures var eve := WindowStart(now) - 1;
      SeedOf(CheckpointOf(policy, now, previous), track, b) == HandedOver(previous, policy, eve, SubjectOf(track, eve), b)
  {
    hide ClockAccepted, Fingerprint, WindowStart;
    assert SeedAccepted(CheckpointOf(policy, now, previous), track, b);
  }

  /** Counts run on from the day before, on the first day of the window from what the previous state hands
      over, and start again at 0 on a day that does not qualify. */
  lemma CountsRunOn(manifest: Manifest, policy: Policy, now: Time, previous: State, track: Track, d: Day, b: Basis)
    requires Accepts(manifest, policy, now, previous) && Tracked(policy.services, track)
    requires WindowStart(now) <= d <= DayOf(now)
    ensures var after := Evaluate(manifest, policy, now, previous).value.evaluations;
      var x, eve := SubjectOf(track, d), SubjectOf(track, d - 1);
      && x in after && (d > WindowStart(now) ==> eve in after)
      && after[x].value.consecutiveDays.At(b) ==
           if !after[x].value.basisQualifies.At(b) then 0
           else 1 + if d > WindowStart(now) then after[eve].value.consecutiveDays.At(b)
                    else HandedOver(previous, policy, d - 1, eve, b)
  {
    hide StateAfter, Admissible, StateAccepted, DaysOf, CheckpointOf, Qualifies, PolicyAccepted, SeedsAccepted, HandedOver, SeedOf,
      EvaluationOf, Fingerprint;
    var rp := ReplayOf(manifest, policy, now, previous);
    StoredValue(manifest, policy, now, previous, SubjectOf(track, d));
    if d > WindowStart(now) {
      StoredValue(manifest, policy, now, previous, SubjectOf(track, d - 1));
    } else {
      SeedIsHandedOver(policy, now, previous, track, b);
    }
    EvaluationCounts(rp, track, d, b);
    EvaluationCounts(rp, track, d - 1, b);
  }

  lemma EvaluationCounts(rp: Replay, track: Track, d: Day, b: Basis)
    ensures EvaluationOf(rp, track, d).consecutiveDays.At(b) == Streak(rp, track, b, d)
    ensures EvaluationOf(rp, track, d).basisQualifies.At(b) <==> Qualifies(rp, track, b, d)
  {
    hide Qualifies, StreakFrom, SeedOf;
    match b case Observed => case Mature => case Confirmed =>
  }

  // ---------- sequences and announcements ----------

  /** The state had this very value for the subject, under the same policy. */
  predicate KnewAlready(before: State, policy: Policy, x: Subject, value: Evaluation) {
    before.policy == Some(Fingerprint(policy)) && x in before.evaluations && before.evaluations[x].value == value
  }

  ghost predicate WasPending(before: State, x: Subject) {
    exists id :: id in before.outbox && before.outbox[id].subject == x && before.outbox[id].status == PendingNoTransport
  }

  predicate HadQualified(before: State, x: Subject) {
    x in before.evaluations && before.evaluations[x].value.qualifies
  }

  /** What is worth an announcement: a new value that qualifies or is known to be below the threshold, or
      one that corrects what was announced or known. */
  ghost predicate Announces(before: State, policy: Policy, x: Subject, value: Evaluation) {
    && !KnewAlready(before, policy, x, value)
    && (value.qualifies || (value.ServiceEvaluation? && value.belowThreshold) || WasPending(before, x) || HadQualified(before, x))
  }

  /** A subject's sequence starts at 1, stays while policy and value stay, and moves by one otherwise. */
  lemma SequencesMove(manifest: Manifest, policy: Policy, now: Time, before: State, x: Subject)
    requires Accepts(manifest, policy, now, before)
    requires x in Evaluate(manifest, policy, now, before).value.evaluations
    ensures var entry := Evaluate(manifest, policy, now, before).value.evaluations[x];
      && entry.sequence == (if x !in before.evaluations then 1
           else before.evaluations[x].sequence + if KnewAlready(before, policy, x, entry.value) then 0 else 1)
      && entry.fingerprint == EvaluationDigest(entry.value)
  {
    hide Evaluations, OutboxAfter, Admissible, SeedsAccepted, PolicyAccepted, DaysOf, CheckpointOf, Fingerprint;
  }

  lemma TransitionsAnnounce(before: State, policy: Policy, values: Values, x: Subject)
    requires StateAccepted(before)
    ensures IsTransition(ChangeOf(policy, before, values), x) <==> x in values && Announces(before, policy, x, values[x])
    ensures x in values ==> (PendingFor(ChangeOf(policy, before, values), x) <==> WasPending(before, x))
  {
    hide Fingerprint;
    var c := ChangeOf(policy, before, values);
    if x in values && WasPending(before, x) {
      var id :| id in before.outbox && before.outbox[id].subject == x && before.outbox[id].status == PendingNoTransport;
      assert IsPending(c.outbox[id]);
    }
    if PendingFor(c, x) {
      var id :| id in c.outbox && IsPending(c.outbox[id]) && c.outbox[id].subject == x;
      assert before.outbox[id].status == PendingNoTransport;
    }
  }

  /** An event that was there before stays as it was, unless it was pending and its subject is announced
      anew or no longer evaluated: then it is superseded. */
  lemma OldEventsStay(manifest: Manifest, policy: Policy, now: Time, before: State, id: EventId)
    requires Accepts(manifest, policy, now, before) && id in before.outbox
    ensures var after, event := Evaluate(manifest, policy, now, before).value, before.outbox[id];
      var moved := event.subject !in after.evaluations
                   || Announces(before, policy, event.subject, after.evaluations[event.subject].value);
      && id in after.outbox
      && after.outbox[id] == if event.status == PendingNoTransport && moved then event.(status := Superseded) else event
  {
    hide Evaluations, OutboxAfter, Admissible, SeedsAccepted, StateAccepted, PolicyAccepted, DaysOf, CheckpointOf, IsTransition,
      Announces, Fingerprint;
    var values := ValuesOf(manifest, policy, now, before);
    var c := ChangeOf(policy, before, values);
    OutboxAfterAt(c, values.Keys, id);
    TransitionsAnnounce(before, policy, values, before.outbox[id].subject);
  }

  /** The new events are exactly those of announced subjects under ids not used before; each is pending,
      shows the value before and after, and says whether it corrects, warns or reports a qualification. */
  lemma NewEventsAre(manifest: Manifest, policy: Policy, now: Time, before: State, id: EventId)
    requires Accepts(manifest, policy, now, before) && id !in before.outbox
    ensures var after, x := Evaluate(manifest, policy, now, before).value, id.subject;
      && (id in after.outbox <==>
            && x in after.evaluations && Announces(before, policy, x, after.evaluations[x].value)
            && id == EventId(x, after.evaluations[x].sequence, Fingerprint(policy), EvaluationDigest(after.evaluations[x].value)))
      && (id in after.outbox ==>
            var value, event := after.evaluations[x].value, after.outbox[id];
            && event.id == id && event.subject == x && event.sequence == after.evaluations[x].sequence
            && event.status == PendingNoTransport && event.current == value
            && event.previous == (if x in before.evaluations then Some(before.evaluations[x].value) else None)
            && event.kind == (if WasPending(before, x) || HadQualified(before, x) then CorrectionPending
                              else if value.ServiceEvaluation? && value.belowThreshold then BelowThresholdPending
                              else QualificationPending))
  {
    hide Evaluations, OutboxAfter, Admissible, SeedsAccepted, StateAccepted, PolicyAccepted, DaysOf, CheckpointOf, IsTransition,
      Announces, Fingerprint, SequenceOf, PendingFor, WasPending;
    var values := ValuesOf(manifest, policy, now, before);
    var c := ChangeOf(policy, before, values);
    OutboxAfterAt(c, values.Keys, id);
    TransitionsAnnounce(before, policy, values, id.subject);
  }

  // ---------- policies ----------

  /** Two policies have one fingerprint exactly when they differ in the order of their services at most. */
  lemma FingerprintTells(a: Policy, b: Policy)
    ensures Fingerprint(a) == Fingerprint(b) <==>
      (forall s :: s in a.services <==> s in b.services) && a == b.(services := a.services)
  {
    if forall s :: s in a.services <==> s in b.services {
      assert Services(a) == Services(b);
    } else {
      var s :| (s in a.services) != (s in b.services);
      assert (s in Services(a)) != (s in Services(b));
    }
  }
}
