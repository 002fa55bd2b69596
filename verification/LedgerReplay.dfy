/** The day-by-day replay of the window: per-service and simultaneous streaks on three bases,
    seeded by the carried checkpoint. */
module LedgerReplay {
  import opened Common
  import opened Calendar
  import opened LedgerTypes
  import opened LedgerAdmission

  /** What is counted: one service, or the minimum number of simultaneous services. */
  datatype Track = ServiceTrack(service: ServiceId) | MinimumTrack

  function SubjectOf(track: Track, d: Day): Subject {
    match track
    case ServiceTrack(s) => ServiceDay(s, d)
    case MinimumTrack => MinimumServices(d)
  }

  function TrackOf(subject: Subject): Track {
    match subject
    case ServiceDay(s, _) => ServiceTrack(s)
    case MinimumServices(_) => MinimumTrack
  }

  /** The inputs of one replay, from the first day of its window. */
  datatype Replay = Replay(policy: Policy, now: Time, start: Day, days: map<Day, AdmittedDay>, checkpoint: Carry)

  // ---------- one day ----------

  predicate IsMature(rp: Replay, d: Day) {
    rp.now >= (d + 1) * SECONDS_PER_DAY + rp.policy.maturityHours * SECONDS_PER_HOUR
  }

  function TotalOn(rp: Replay, s: ServiceId, d: Day): Option<ServiceTotal> {
    if d in rp.days && s in rp.days[d].totals then Some(rp.days[d].totals[s]) else None
  }

  function ClassOf(total: Option<ServiceTotal>, threshold: Amount): AmountClass {
    if total.None? then AmountMissing
    else if total.value.rows == 0 then Unmatched
    else if total.value.total == 0 then (if total.value.nonzero then NetZero else ExplicitZero)
    else if total.value.total >= threshold then Qualifying
    else BelowThreshold
  }

  function BlockersOn(rp: Replay, s: ServiceId, d: Day): seq<Blocker> {
    var source :=
      if d !in rp.days then [MissingDay]
      else
        (if rp.days[d].ingestionComplete then [] else [IncompleteExport])
        + (if rp.days[d].recent then [] else [StaleExport])
        + (if rp.days[d].finalized then [] else [UnfinalizedDay]);
    source
    + (if IsMature(rp, d) then [] else [ImmatureDay])
    + (if TotalOn(rp, s, d).Some? && TotalOn(rp, s, d).value.rows == 0 then [NoMatchingRecords] else [])
  }

  function ObservationBlockers(blockers: seq<Blocker>): seq<Blocker> {
    if blockers == [] then []
    else
      (if blockers[0] in {ImmatureDay, UnfinalizedDay} then [] else [blockers[0]]) + ObservationBlockers(blockers[1..])
  }

  function ServiceQualifies(rp: Replay, s: ServiceId, d: Day): PerBasis<bool> {
    var blockers := BlockersOn(rp, s, d);
    var observed := ObservationBlockers(blockers) == [] && ClassOf(TotalOn(rp, s, d), rp.policy.threshold) == Qualifying;
    PerBasis(observed, observed && IsMature(rp, d),
             blockers == [] && ClassOf(TotalOn(rp, s, d), rp.policy.threshold) == Qualifying)
  }

  /** How many configured services qualify on a day. */
  function Count(rp: Replay, b: Basis, d: Day): nat {
    |set s | s in Services(rp.policy) && ServiceQualifies(rp, s, d).At(b)|
  }

  predicate Qualifies(rp: Replay, track: Track, b: Basis, d: Day) {
    match track
    case ServiceTrack(s) => ServiceQualifies(rp, s, d).At(b)
    case MinimumTrack => Count(rp, b, d) >= rp.policy.minimumQualifyingServices
  }

  // ---------- streaks ----------

  function SeedOf(checkpoint: Carry, track: Track, b: Basis): int {
    var subject := SubjectOf(track, checkpoint.through);
    if subject !in checkpoint.evaluations then 0
    else
      var value := checkpoint.evaluations[subject].value;
      if value.basisQualifies.At(b) then value.consecutiveDays.At(b) else 0
  }

  /** seed_streak: a carried count is positive exactly when its day qualified, and no longer
      than history itself. */
  predicate SeedAccepted(checkpoint: Carry, track: Track, b: Basis) {
    var subject := SubjectOf(track, checkpoint.through);
    subject in checkpoint.evaluations ==>
      var value := checkpoint.evaluations[subject].value;
      && value.date == checkpoint.through
      && 0 <= value.consecutiveDays.At(b) <= checkpoint.through
      && (value.basisQualifies.At(b) <==> value.consecutiveDays.At(b) > 0)
  }

  ghost predicate SeedsAccepted(checkpoint: Carry, services: set<ServiceId>) {
    && (forall s, b :: s in services ==> SeedAccepted(checkpoint, ServiceTrack(s), b))
    && (forall b :: SeedAccepted(checkpoint, MinimumTrack, b))
  }

  /** The running count after day d of a replay that starts on `start`. */
  function StreakFrom(rp: Replay, track: Track, b: Basis, start: Day, seed: int, d: Day): int
    decreases d - start
  {
    if d < start then seed
    else if Qualifies(rp, track, b, d) then StreakFrom(rp, track, b, start, seed, d - 1) + 1
    else 0
  }

  function Streak(rp: Replay, track: Track, b: Basis, d: Day): int
  {
    StreakFrom(rp, track, b, rp.start, SeedOf(rp.checkpoint, track, b), d)
  }

  // ---------- evaluations ----------

  function AllBases<T>(f: Basis -> T): PerBasis<T> {
    PerBasis(f(Observed), f(Mature), f(Confirmed))
  }

  function EvaluationOf(rp: Replay, track: Track, d: Day): Evaluation
  {
    var qualifies := AllBases(b => Qualifies(rp, track, b, d));
    var consecutive := PerBasis(Streak(rp, track, Observed, d), Streak(rp, track, Mature, d), Streak(rp, track, Confirmed, d));
    match track
    case ServiceTrack(s) =>
      var total := TotalOn(rp, s, d);
      var blockers := BlockersOn(rp, s, d);
      var class_ := ClassOf(total, rp.policy.threshold);
      ServiceEvaluation(
        d, s, rp.policy.mappingVersion, rp.policy.version,
        if total.Some? && total.value.rows > 0 then Some(total.value.total) else None,
        if total.Some? then Some(total.value.rows) else None,
        class_, IsMature(rp, d), blockers == [], blockers, ObservationBlockers(blockers),
        qualifies.mature,
        ObservationBlockers(blockers) == [] && IsMature(rp, d) && class_ in {ExplicitZero, NetZero, BelowThreshold},
        qualifies, consecutive)
    case MinimumTrack =>
      MinimumEvaluation(
        d, rp.policy.mappingVersion, rp.policy.version, qualifies.mature, rp.policy.minimumQualifyingServices,
        AllBases(b => Count(rp, b, d)), qualifies, consecutive)
  }

  type Evaluator = (Track, Day) -> Evaluation

  function EvaluatorOf(rp: Replay): Evaluator {
    (track, d) => EvaluationOf(rp, track, d)
  }

  /** The entries of one day for the first n services. */
  function ServiceEntries(f: Evaluator, services: seq<ServiceId>, d: Day, n: nat): map<Subject, Evaluation>
    requires n <= |services|
  {
    if n == 0 then map[]
    else ServiceEntries(f, services, d, n - 1)[ServiceDay(services[n - 1], d) := f(ServiceTrack(services[n - 1]), d)]
  }

  function DayEntries(f: Evaluator, services: seq<ServiceId>, d: Day): map<Subject, Evaluation> {
    ServiceEntries(f, services, d, |services|)[MinimumServices(d) := f(MinimumTrack, d)]
  }

  /** The entries of the n days from `start` on. */
  function WindowEntries(f: Evaluator, services: seq<ServiceId>, start: Day, n: nat): map<Subject, Evaluation> {
    if n == 0 then map[]
    else WindowEntries(f, services, start, n - 1) + DayEntries(f, services, start + n - 1)
  }

  function WindowDays(rp: Replay): nat {
    if rp.start <= DayOf(rp.now) then DayOf(rp.now) - rp.start + 1 else 0
  }

  function Evaluations(rp: Replay): map<Subject, Evaluation> {
    WindowEntries(EvaluatorOf(rp), rp.policy.services, rp.start, WindowDays(rp))
  }

  predicate Tracked(services: seq<ServiceId>, track: Track) {
    track.ServiceTrack? ==> track.service in services
  }

  lemma {:induction false} ServiceEntriesAt(f: Evaluator, services: seq<ServiceId>, d: Day, n: nat, x: Subject)
    requires n <= |services|
    ensures x in ServiceEntries(f, services, d, n) <==> x.ServiceDay? && x.date == d && x.service in services[..n]
    ensures x in ServiceEntries(f, services, d, n) ==> ServiceEntries(f, services, d, n)[x] == f(TrackOf(x), x.date)
  {
    if n > 0 {
      ServiceEntriesAt(f, services, d, n - 1, x);
      assert services[..n] == services[..n - 1] + [services[n - 1]];
    }
  }

  lemma DayEntriesAt(f: Evaluator, services: seq<ServiceId>, d: Day, x: Subject)
    ensures x in DayEntries(f, services, d) <==> Tracked(services, TrackOf(x)) && x.date == d
    ensures x in DayEntries(f, services, d) ==> DayEntries(f, services, d)[x] == f(TrackOf(x), x.date)
  {
    ServiceEntriesAt(f, services, d, |services|, x);
    assert services[..|services|] == services;
  }

  lemma {:induction false} WindowEntriesAt(f: Evaluator, services: seq<ServiceId>, start: Day, n: nat, x: Subject)
    ensures x in WindowEntries(f, services, start, n) <==> Tracked(services, TrackOf(x)) && start <= x.date < start + n
    ensures x in WindowEntries(f, services, start, n) ==> WindowEntries(f, services, start, n)[x] == f(TrackOf(x), x.date)
  {
    if n > 0 {
      WindowEntriesAt(f, services, start, n - 1, x);
      DayEntriesAt(f, services, start + n - 1, x);
    }
  }

  /** The replay evaluates exactly the configured tracks on exactly the days of the window. */
  lemma EvaluationsAt(rp: Replay, x: Subject)
    ensures x in Evaluations(rp) <==> Tracked(rp.policy.services, TrackOf(x)) && rp.start <= x.date <= DayOf(rp.now)
    ensures x in Evaluations(rp) ==> Evaluations(rp)[x] == EvaluationOf(rp, TrackOf(x), x.date)
  {
    WindowEntriesAt(EvaluatorOf(rp), rp.policy.services, rp.start, WindowDays(rp), x);
  }

  // ---------- what a count means ----------

  /** A count is the length of the maximal qualifying run that ends on the day: `last` is the
      latest day that does not qualify, or the eve of the replay, from where the carried seed
      extends the run. */
  lemma {:induction false} StreakIsMaximalRun(rp: Replay, track: Track, b: Basis, start: Day, seed: int, last: Day,
                                              d: Day)
    requires start - 1 <= last <= d
    requires last == start - 1 || !Qualifies(rp, track, b, last)
    requires forall e :: last < e <= d ==> Qualifies(rp, track, b, e)
    ensures StreakFrom(rp, track, b, start, seed, d) == d - last + if last == start - 1 then seed else 0
    decreases d - last
  {
    hide Qualifies;
    if last < d {
      StreakIsMaximalRun(rp, track, b, start, seed, last, d - 1);
    }
  }

  lemma {:induction false} StreakBounds(rp: Replay, track: Track, b: Basis, start: Day, seed: int, d: Day)
    requires start - 1 <= d && 0 <= seed
    ensures 0 <= StreakFrom(rp, track, b, start, seed, d) <= seed + d - start + 1
    ensures start <= d ==> (StreakFrom(rp, track, b, start, seed, d) > 0 <==> Qualifies(rp, track, b, d))
    decreases d - start
  {
    hide Qualifies;
    if start <= d {
      StreakBounds(rp, track, b, start, seed, d - 1);
    }
  }

  /** Starting later, seeded with the longer replay's count on the eve of the new start, gives
      the longer replay's counts, as far as the days since then qualify alike. */
  lemma {:induction false} StreakContinues(long: Replay, short: Replay, track: Track, b: Basis,
                                           start: Day, seed: int, later: Day, d: Day)
    requires start <= later && later - 1 <= d
    requires forall e :: later <= e <= d ==> (Qualifies(long, track, b, e) <==> Qualifies(short, track, b, e))
    ensures StreakFrom(short, track, b, later, StreakFrom(long, track, b, start, seed, later - 1), d)
            == StreakFrom(long, track, b, start, seed, d)
    decreases d - later
  {
    hide Qualifies;
    if later <= d {
      StreakContinues(long, short, track, b, start, seed, later, d - 1);
    }
  }

  // ---------- the loops ----------

  type Streaks = PerBasis<map<ServiceId, int>>

  function FirstServices(rp: Replay, n: nat): set<ServiceId>
    requires n <= |rp.policy.services|
  {
    if n == 0 then {} else FirstServices(rp, n - 1) + {rp.policy.services[n - 1]}
  }

  lemma {:induction false} FirstServicesAre(rp: Replay, n: nat)
    requires n <= |rp.policy.services|
    ensures forall s :: s in FirstServices(rp, n) <==> s in rp.policy.services[..n]
  {
    if n > 0 {
      FirstServicesAre(rp, n - 1);
      assert rp.policy.services[..n] == rp.policy.services[..n - 1] + [rp.policy.services[n - 1]];
    }
  }

  /** Per-service counts when the first n services have been advanced to day d. */
  function StreaksAt(rp: Replay, d: Day, n: nat): Streaks
    requires n <= |rp.policy.services|
  {
    PerBasis(StreakMap(rp, Observed, d, n), StreakMap(rp, Mature, d, n), StreakMap(rp, Confirmed, d, n))
  }

  function StreakMap(rp: Replay, b: Basis, d: Day, n: nat): map<ServiceId, int>
    requires n <= |rp.policy.services|
  {
    map s | s in Services(rp.policy) ::
      Streak(rp, ServiceTrack(s), b, if s in FirstServices(rp, n) then d else d - 1)
  }

  function Advanced(streaks: map<ServiceId, int>, s: ServiceId, qualifies: bool): map<ServiceId, int> {
    streaks[s := if qualifies && s in streaks then streaks[s] + 1 else 0]
  }

  lemma ServiceStreakStep(rp: Replay, s: ServiceId, b: Basis, d: Day)
    requires rp.start <= d
    ensures Streak(rp, ServiceTrack(s), b, d)
         == if ServiceQualifies(rp, s, d).At(b) then Streak(rp, ServiceTrack(s), b, d - 1) + 1 else 0
  {
    hide ServiceQualifies, SeedOf;
  }

  lemma NotYetFirst(rp: Replay, i: nat)
    requires PolicyAccepted(rp.policy) && i < |rp.policy.services|
    ensures rp.policy.services[i] in Services(rp.policy)
    ensures rp.policy.services[i] !in FirstServices(rp, i)
  {
    FirstServicesAre(rp, i);
  }

  lemma StreakMapNext(rp: Replay, b: Basis, d: Day, i: nat)
    requires PolicyAccepted(rp.policy) && i < |rp.policy.services| && rp.start <= d
    ensures var s := rp.policy.services[i];
      && s in StreakMap(rp, b, d, i)
      && StreakMap(rp, b, d, i + 1) == Advanced(StreakMap(rp, b, d, i), s, ServiceQualifies(rp, s, d).At(b))
      && StreakMap(rp, b, d, i + 1)[s] == Streak(rp, ServiceTrack(s), b, d)
  {
    hide ServiceQualifies, Streak, PolicyAccepted;
    var s := rp.policy.services[i];
    NotYetFirst(rp, i);
    ServiceStreakStep(rp, s, b, d);
    var before, after := StreakMap(rp, b, d, i), StreakMap(rp, b, d, i + 1);
    assert after.Keys == before.Keys;
    assert forall t :: t in after && t != s ==> after[t] == before[t];
  }

  lemma StreakMapNextDay(rp: Replay, b: Basis, d: Day)
    ensures StreakMap(rp, b, d, |rp.policy.services|) == StreakMap(rp, b, d + 1, 0)
  {
    hide ServiceQualifies, Streak;
    AllFirst(rp);
  }

  lemma AllFirst(rp: Replay)
    ensures FirstServices(rp, |rp.policy.services|) == Services(rp.policy)
  {
    FirstServicesAre(rp, |rp.policy.services|);
    assert rp.policy.services[..|rp.policy.services|] == rp.policy.services;
  }

  /** The inner loop: one day's services. */
  method ReplayServices(rp: Replay, d: Day, streaksBefore: Streaks)
    returns (values: map<Subject, Evaluation>, streaks: Streaks, counts: PerBasis<int>)
    requires PolicyAccepted(rp.policy) && rp.start <= d
    requires streaksBefore == StreaksAt(rp, d, 0)
    ensures values == ServiceEntries(EvaluatorOf(rp), rp.policy.services, d, |rp.policy.services|)
    ensures streaks == StreaksAt(rp, d, |rp.policy.services|)
    ensures counts == CountsOn(rp, d)
  {
    var services := rp.policy.services;
    hide EvaluatorOf, StreakMap, ServiceQualifies;
    streaks, values, counts := streaksBefore, map[], PerBasis(0, 0, 0);
    ghost var f := EvaluatorOf(rp);
    var i := 0;
    while i < |services|
      invariant 0 <= i <= |services|
      invariant streaks == StreaksAt(rp, d, i)
      invariant values == ServiceEntries(f, services, d, i)
      invariant counts == CountsUpTo(rp, d, i)
    {
      var entry;
      entry, streaks, counts := ReplayService(rp, d, i, streaks, counts);
      values := values[ServiceDay(services[i], d) := entry];
      i := i + 1;
    }
    CountUpToAll(rp, d);
  }

  function CountsOn(rp: Replay, d: Day): PerBasis<int> {
    PerBasis(Count(rp, Observed, d), Count(rp, Mature, d), Count(rp, Confirmed, d))
  }

  function CountsUpTo(rp: Replay, d: Day, n: nat): PerBasis<int>
    requires n <= |rp.policy.services|
  {
    PerBasis(CountUpTo(rp, Observed, d, n), CountUpTo(rp, Mature, d, n), CountUpTo(rp, Confirmed, d, n))
  }

  function CountUpTo(rp: Replay, b: Basis, d: Day, n: nat): nat
    requires n <= |rp.policy.services|
  {
    if n == 0 then 0
    else CountUpTo(rp, b, d, n - 1) + if ServiceQualifies(rp, rp.policy.services[n - 1], d).At(b) then 1 else 0
  }

  function QualifyingAmong(rp: Replay, b: Basis, d: Day, services: set<ServiceId>): set<ServiceId> {
    set s | s in services && ServiceQualifies(rp, s, d).At(b)
  }

  lemma QualifyingAmongMore(rp: Replay, b: Basis, d: Day, services: set<ServiceId>, s: ServiceId)
    requires s !in services
    ensures |QualifyingAmong(rp, b, d, services + {s})|
         == |QualifyingAmong(rp, b, d, services)| + if ServiceQualifies(rp, s, d).At(b) then 1 else 0
  {
    hide ServiceQualifies;
    var among := QualifyingAmong(rp, b, d, services);
    var more := QualifyingAmong(rp, b, d, services + {s});
    if ServiceQualifies(rp, s, d).At(b) {
      assert more == among + {s};
    } else {
      assert more == among;
    }
  }

  lemma {:induction false} CountUpToIsCardinality(rp: Replay, b: Basis, d: Day, n: nat)
    requires PolicyAccepted(rp.policy) && n <= |rp.policy.services|
    ensures CountUpTo(rp, b, d, n) == |QualifyingAmong(rp, b, d, FirstServices(rp, n))|
  {
    hide ServiceQualifies;
    if n == 0 {
      assert QualifyingAmong(rp, b, d, {}) == {};
    } else {
      CountUpToIsCardinality(rp, b, d, n - 1);
      NotYetFirst(rp, n - 1);
      QualifyingAmongMore(rp, b, d, FirstServices(rp, n - 1), rp.policy.services[n - 1]);
    }
  }

  lemma CountUpToAll(rp: Replay, d: Day)
    requires PolicyAccepted(rp.policy)
    ensures CountsUpTo(rp, d, |rp.policy.services|) == CountsOn(rp, d)
  {
    hide ServiceQualifies;
    var n := |rp.policy.services|;
    AllFirst(rp);
    CountUpToIsCardinality(rp, Observed, d, n);
    CountUpToIsCardinality(rp, Mature, d, n);
    CountUpToIsCardinality(rp, Confirmed, d, n);
  }

  lemma StreaksNext(rp: Replay, d: Day, i: nat)
    requires PolicyAccepted(rp.policy) && i < |rp.policy.services| && rp.start <= d
    ensures var s, q := rp.policy.services[i], ServiceQualifies(rp, rp.policy.services[i], d);
      var before, after := StreaksAt(rp, d, i), StreaksAt(rp, d, i + 1);
      && s in before.observed && s in before.mature && s in before.confirmed
      && after.observed == Advanced(before.observed, s, q.observed)
      && after.mature == Advanced(before.mature, s, q.mature)
      && after.confirmed == Advanced(before.confirmed, s, q.confirmed)
      && after.observed[s] == Streak(rp, ServiceTrack(s), Observed, d)
      && after.mature[s] == Streak(rp, ServiceTrack(s), Mature, d)
      && after.confirmed[s] == Streak(rp, ServiceTrack(s), Confirmed, d)
  {
    hide ServiceQualifies, StreakMap;
    StreakMapNext(rp, Observed, d, i);
    StreakMapNext(rp, Mature, d, i);
    StreakMapNext(rp, Confirmed, d, i);
  }

  /** One service on one day: advance its three counts and build its ledger entry. */
  method ReplayService(rp: Replay, d: Day, i: nat, before: Streaks, countsBefore: PerBasis<int>)
    returns (entry: Evaluation, streaks: Streaks, counts: PerBasis<int>)
    requires PolicyAccepted(rp.policy) && rp.start <= d
    requires i < |rp.policy.services| && before == StreaksAt(rp, d, i) && countsBefore == CountsUpTo(rp, d, i)
    ensures entry == EvaluatorOf(rp)(ServiceTrack(rp.policy.services[i]), d)
    ensures streaks == StreaksAt(rp, d, i + 1)
    ensures counts == CountsUpTo(rp, d, i + 1)
  {
    hide StreakMap, Streak, BlockersOn, ObservationBlockers, ClassOf, TotalOn;
    var s := rp.policy.services[i];
    var total := TotalOn(rp, s, d);
    var blockers := BlockersOn(rp, s, d);
    var observation := ObservationBlockers(blockers);
    var class_ := ClassOf(total, rp.policy.threshold);
    var observed := observation == [] && class_ == Qualifying;
    var qualifies := PerBasis(observed, observed && IsMature(rp, d), blockers == [] && class_ == Qualifying);
    StreaksNext(rp, d, i);
    streaks := PerBasis(Advanced(before.observed, s, qualifies.observed),
                        Advanced(before.mature, s, qualifies.mature),
                        Advanced(before.confirmed, s, qualifies.confirmed));
    counts := PerBasis(countsBefore.observed + (if qualifies.observed then 1 else 0),
                       countsBefore.mature + (if qualifies.mature then 1 else 0),
                       countsBefore.confirmed + (if qualifies.confirmed then 1 else 0));
    entry := ServiceEvaluation(
      d, s, rp.policy.mappingVersion, rp.policy.version,
      if total.Some? && total.value.rows > 0 then Some(total.value.total) else None,
      if total.Some? then Some(total.value.rows) else None,
      class_, IsMature(rp, d), blockers == [], blockers, observation, qualifies.mature,
      observation == [] && IsMature(rp, d) && class_ in {ExplicitZero, NetZero, BelowThreshold},
      qualifies, PerBasis(streaks.observed[s], streaks.mature[s], streaks.confirmed[s]));
  }

  function SimultaneousAt(rp: Replay, d: Day): PerBasis<int>
  {
    PerBasis(Streak(rp, MinimumTrack, Observed, d), Streak(rp, MinimumTrack, Mature, d), Streak(rp, MinimumTrack, Confirmed, d))
  }

  function SeedMap(rp: Replay, b: Basis): map<ServiceId, int> {
    map s | s in Services(rp.policy) :: SeedOf(rp.checkpoint, ServiceTrack(s), b)
  }

  lemma SeedsAreStreaks(rp: Replay, b: Basis)
    ensures SeedMap(rp, b) == StreakMap(rp, b, rp.start, 0)
  {
  }

  lemma SimultaneousSeeds(rp: Replay)
    ensures SimultaneousAt(rp, rp.start - 1)
         == PerBasis(SeedOf(rp.checkpoint, MinimumTrack, Observed), SeedOf(rp.checkpoint, MinimumTrack, Mature),
                     SeedOf(rp.checkpoint, MinimumTrack, Confirmed))
  {
  }

  lemma StreaksNextDay(rp: Replay, d: Day)
    ensures StreaksAt(rp, d, |rp.policy.services|) == StreaksAt(rp, d + 1, 0)
  {
    StreakMapNextDay(rp, Observed, d);
    StreakMapNextDay(rp, Mature, d);
    StreakMapNextDay(rp, Confirmed, d);
  }

  /** The replay loop: seeds every streak from the checkpoint and walks the window once. */
  method ReplayWindow(rp: Replay) returns (evaluations: map<Subject, Evaluation>)
    requires PolicyAccepted(rp.policy)
    ensures evaluations == Evaluations(rp)
  {
    hide EvaluatorOf, StreakMap, SeedMap, Streak, StreakFrom, SeedOf, PolicyAccepted;
    ghost var f, services := EvaluatorOf(rp), rp.policy.services;
    var streaks := PerBasis(SeedMap(rp, Observed), SeedMap(rp, Mature), SeedMap(rp, Confirmed));
    SeedsAreStreaks(rp, Observed);
    SeedsAreStreaks(rp, Mature);
    SeedsAreStreaks(rp, Confirmed);
    SimultaneousSeeds(rp);
    var simultaneous := PerBasis(SeedOf(rp.checkpoint, MinimumTrack, Observed), SeedOf(rp.checkpoint, MinimumTrack, Mature),
                                 SeedOf(rp.checkpoint, MinimumTrack, Confirmed));
    evaluations := map[];
    var cursor := rp.start;
    while cursor <= DayOf(rp.now)
      invariant rp.start <= cursor && (cursor <= DayOf(rp.now) + 1 || cursor == rp.start)
      invariant streaks == StreaksAt(rp, cursor, 0)
      invariant simultaneous == SimultaneousAt(rp, cursor - 1)
      invariant evaluations == WindowEntries(f, services, rp.start, cursor - rp.start)
    {
      var values, counts, combined;
      values, streaks, counts := ReplayServices(rp, cursor, streaks);
      combined, simultaneous := ReplaySimultaneous(rp, cursor, counts, simultaneous);
      evaluations := evaluations + values[MinimumServices(cursor) := combined];
      StreaksNextDay(rp, cursor);
      WindowEntriesNext(f, services, rp.start, cursor);
      cursor := cursor + 1;
    }
  }

  lemma WindowEntriesNext(f: Evaluator, services: seq<ServiceId>, start: Day, d: Day)
    requires start <= d
    ensures WindowEntries(f, services, start, d + 1 - start)
         == WindowEntries(f, services, start, d - start) + DayEntries(f, services, d)
  {
  }

  method ReplaySimultaneous(rp: Replay, d: Day, counts: PerBasis<int>, before: PerBasis<int>)
    returns (combined: Evaluation, simultaneous: PerBasis<int>)
    requires rp.start <= d && counts == CountsOn(rp, d)
    requires before == SimultaneousAt(rp, d - 1)
    ensures combined == EvaluatorOf(rp)(MinimumTrack, d)
    ensures simultaneous == SimultaneousAt(rp, d)
  {
    var minimum := rp.policy.minimumQualifyingServices;
    var qualifies := PerBasis(counts.observed >= minimum, counts.mature >= minimum, counts.confirmed >= minimum);
    simultaneous := PerBasis(if qualifies.observed then before.observed + 1 else 0,
                             if qualifies.mature then before.mature + 1 else 0,
                             if qualifies.confirmed then before.confirmed + 1 else 0);
    combined := MinimumEvaluation(
      d, rp.policy.mappingVersion, rp.policy.version, qualifies.mature, minimum, counts, qualifies, simultaneous);
  }
}
