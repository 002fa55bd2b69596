/** What holds over every chain of evaluations, starting from the empty state. */
module LedgerHistory {
  import opened Common
  import opened Calendar
  import opened LedgerTypes
  import opened LedgerAdmission
  import opened LedgerReplay
  import opened LedgerOutbox
  import opened LedgerOrdering
  import opened Ledger

  // ---------- invariants of one state ----------

  predicate CountsFit(value: Evaluation, b: Basis) {
    && 0 <= value.consecutiveDays.At(b) <= value.date
    && (value.basisQualifies.At(b) <==> value.consecutiveDays.At(b) > 0)
  }

  /** Entries carry their own digest, are filed under their own date, and count consistently. */
  ghost predicate EntriesFit(entries: Entries) {
    forall x :: x in entries ==>
      && entries[x].fingerprint == EvaluationDigest(entries[x].value)
      && entries[x].value.date == x.date
      && forall b :: CountsFit(entries[x].value, b)
  }

  /** An event is what its id says it is. */
  predicate EventFits(id: EventId, e: Event) {
    e.id == id && e.subject == id.subject && e.sequence == id.sequence && id.evaluation == EvaluationDigest(e.current)
  }

  ghost predicate CarryFits(s: State) {
    s.carry.Some? ==>
      EntriesFit(s.carry.value.evaluations)
      && forall x :: x in s.carry.value.evaluations ==> x.date == s.carry.value.through
  }

  ghost predicate Healthy(s: State) {
    && EntriesFit(s.evaluations)
    && CarryFits(s)
    && (forall id :: id in s.outbox ==> EventFits(id, s.outbox[id]))
    && PendingEligible(s)
  }

  /** Every pending event may be delivered: it agrees with the current evaluation. */
  ghost predicate PendingEligible(s: State) {
    forall id :: id in s.outbox && IsPending(s.outbox[id]) ==> Eligible(s, id) == Some(s.outbox[id])
  }

  lemma EmptyIsHealthy()
    ensures Healthy(EMPTY_STATE) && StateAccepted(EMPTY_STATE)
  {
  }

  /** Eligible events of one subject are one event: at most one can be pending. */
  lemma OnePendingPerSubject(s: State, a: EventId, b: EventId)
    requires Healthy(s)
    requires a in s.outbox && b in s.outbox && IsPending(s.outbox[a]) && IsPending(s.outbox[b])
    requires s.outbox[a].subject == s.outbox[b].subject
    ensures a == b
  {
    assert Eligible(s, a) == Some(s.outbox[a]) && Eligible(s, b) == Some(s.outbox[b]);
  }

  // ---------- the carried checkpoint ----------

  lemma CarriedEntriesFit(s: State, policy: PolicyDigest, through: Day, services: seq<ServiceId>)
    requires Healthy(s)
    ensures var carry := CarryCheckpoint(s, policy, through, services);
      && EntriesFit(carry.evaluations) && carry.through == through
      && forall x :: x in carry.evaluations ==> x.date == through
  {
  }

  /** seed_streak never rejects a checkpoint taken from a state that evaluate built. */
  lemma SeedsNeverRejected(s: State, policy: PolicyDigest, through: Day, services: seq<ServiceId>,
                           tracked: set<ServiceId>)
    requires Healthy(s)
    ensures SeedsAccepted(CarryCheckpoint(s, policy, through, services), tracked)
  {
    CarriedEntriesFit(s, policy, through, services);
    var carry := CarryCheckpoint(s, policy, through, services);
    forall track, b ensures SeedAccepted(carry, track, b) {
      var x := SubjectOf(track, through);
      if x in carry.evaluations {
        assert CountsFit(carry.evaluations[x].value, b);
      }
    }
  }

  lemma SeedBounds(carry: Carry, track: Track, b: Basis)
    requires SeedAccepted(carry, track, b) && carry.through >= 0
    ensures 0 <= SeedOf(carry, track, b) <= carry.through
  {
  }

  // ---------- one evaluation keeps the invariants ----------

  lemma EvaluationFits(rp: Replay, track: Track, d: Day, b: Basis)
    requires rp.checkpoint.through == rp.start - 1 && rp.start >= 1 && rp.start <= d
    requires SeedAccepted(rp.checkpoint, track, b)
    ensures EvaluationOf(rp, track, d).date == d && CountsFit(EvaluationOf(rp, track, d), b)
  {
    SeedBounds(rp.checkpoint, track, b);
    StreakBounds(rp, track, b, rp.start, SeedOf(rp.checkpoint, track, b), d);
    EvaluationShows(rp, track, d, b);
  }

  lemma EvaluationShows(rp: Replay, track: Track, d: Day, b: Basis)
    ensures EvaluationOf(rp, track, d).date == d
    ensures EvaluationOf(rp, track, d).basisQualifies.At(b) == Qualifies(rp, track, b, d)
    ensures EvaluationOf(rp, track, d).consecutiveDays.At(b) == Streak(rp, track, b, d)
  {
    hide BlockersOn, ObservationBlockers, ClassOf, TotalOn, Streak, Count;
  }

  lemma NewEntriesFit(manifest: Manifest, policy: Policy, now: Time, previous: State)
    requires Accepts(manifest, policy, now, previous) && Healthy(previous)
    ensures EntriesFit(StateAfter(manifest, policy, now, previous, ValuesOf(manifest, policy, now, previous)).evaluations)
  {
    hide EvaluationOf, CountsFit, Evaluations, OutboxAfter, CarryCheckpoint, DaysOf, MarksAfter;
    var rp := ReplayOf(manifest, policy, now, previous);
    var values := Evaluations(rp);
    CarriedEntriesFit(previous, Fingerprint(policy), WindowStart(now) - 1, policy.services);
    ReplayWindowFits(now);
    forall x | x in values
      ensures values[x].date == x.date && forall b :: CountsFit(values[x], b)
    {
      EvaluationsAt(rp, x);
      forall b: Basis ensures values[x].date == x.date && CountsFit(values[x], b) {
        EvaluationFits(rp, TrackOf(x), x.date, b);
      }
      assert CountsFit(values[x], Observed);
    }
  }

  /** The outbox step: whatever was pending before, everything pending afterwards is eligible. */
  lemma OutboxKeepsEligible(c: Change, previous: State, after: State)
    requires c.before == previous.evaluations && c.outbox == previous.outbox
    requires c.samePolicy <==> previous.policy == Some(c.policy)
    requires EntriesFit(previous.evaluations) && PendingEligible(previous)
    requires forall id :: id in previous.outbox ==> EventFits(id, previous.outbox[id])
    requires after.policy == Some(c.policy) && after.evaluations == EntriesAfter(c)
    requires after.outbox == OutboxAfter(c, c.values.Keys)
    ensures PendingEligible(after)
    ensures forall id :: id in after.outbox ==> EventFits(id, after.outbox[id])
  {
    hide OutboxAfter;
    forall id | id in after.outbox
      ensures EventFits(id, after.outbox[id])
      ensures IsPending(after.outbox[id]) ==> Eligible(after, id) == Some(after.outbox[id])
    {
      OutboxAfterAt(c, c.values.Keys, id);
      if id in c.outbox && IsPending(after.outbox[id]) {
        KeptPendingEligible(c, previous, after, id);
      }
    }
  }

  lemma KeptPendingEligible(c: Change, previous: State, after: State, id: EventId)
    requires c.before == previous.evaluations && c.outbox == previous.outbox
    requires c.samePolicy <==> previous.policy == Some(c.policy)
    requires EntriesFit(previous.evaluations)
    requires id in previous.outbox && Eligible(previous, id) == Some(previous.outbox[id])
    requires after.policy == Some(c.policy) && after.evaluations == EntriesAfter(c)
    requires id in after.outbox && after.outbox[id] == KeptEvent(c, c.values.Keys, c.outbox[id])
    requires IsPending(after.outbox[id])
    ensures Eligible(after, id) == Some(after.outbox[id])
  {
    var x := c.outbox[id].subject;
    assert x in c.values && !IsTransition(c, x);
    assert PendingFor(c, x);
    assert Unchanged(c, x);
  }

  /** Any manifest, policy and clock: evaluate keeps a healthy state healthy. */
  lemma EvaluateKeepsHealthy(manifest: Manifest, policy: Policy, now: Time, previous: State)
    requires Healthy(previous) && Accepts(manifest, policy, now, previous)
    ensures Healthy(Evaluate(manifest, policy, now, previous).value)
  {
    hide Evaluations, OutboxAfter, EntriesAfter, CarryCheckpoint, DaysOf, MarksAfter, EntriesFit, PendingEligible;
    var values := ValuesOf(manifest, policy, now, previous);
    var after := StateAfter(manifest, policy, now, previous, values);
    NewEntriesFit(manifest, policy, now, previous);
    CarriedEntriesFit(previous, Fingerprint(policy), WindowStart(now) - 1, policy.services);
    OutboxKeepsEligible(ChangeOf(policy, previous, values), previous, after);
  }

  // ---------- chains of evaluations ----------

  datatype Delivery = Delivery(manifest: Manifest, policy: Policy, now: Time)

  /** The stored state after a chain of evaluations; a rejected one changes nothing. */
  ghost function After(runs: seq<Delivery>): State {
    if runs == [] then EMPTY_STATE
    else
      var r, before := runs[|runs| - 1], After(runs[..|runs| - 1]);
      var next := Evaluate(r.manifest, r.policy, r.now, before);
      if next.Some? then next.value else before
  }

  /** In every state a chain can reach, with any manifests, policies and clocks, every pending
      event is eligible and no checkpoint that could be carried from it is rejected. */
  lemma {:induction false} ReachableIsHealthy(runs: seq<Delivery>)
    ensures Healthy(After(runs))
  {
    if runs == [] {
      EmptyIsHealthy();
    } else {
      var r, before := runs[|runs| - 1], After(runs[..|runs| - 1]);
      ReachableIsHealthy(runs[..|runs| - 1]);
      if Accepts(r.manifest, r.policy, r.now, before) {
        EvaluateKeepsHealthy(r.manifest, r.policy, r.now, before);
      }
    }
  }

  lemma AtMostOnePendingEver(runs: seq<Delivery>, a: EventId, b: EventId)
    requires var s := After(runs);
      && a in s.outbox && b in s.outbox && IsPending(s.outbox[a]) && IsPending(s.outbox[b])
      && s.outbox[a].subject == s.outbox[b].subject
    ensures a == b
    ensures Eligible(After(runs), a) == Some(After(runs).outbox[a])
  {
    ReachableIsHealthy(runs);
    OnePendingPerSubject(After(runs), a, b);
  }

  lemma CheckpointNeverRejected(runs: seq<Delivery>, policy: Policy, now: Time)
    requires ClockAccepted(now)
    ensures SeedsAccepted(CheckpointOf(policy, now, After(runs)), Services(policy))
  {
    ReachableIsHealthy(runs);
    SeedsNeverRejected(After(runs), Fingerprint(policy), WindowStart(now) - 1, policy.services, Services(policy));
  }

  // ---------- listing order ----------

  /** Permuting days or rows of the delivered snapshots gives the same decision and state. */
  lemma EvaluateIgnoresOrder(m: Manifest, n: Manifest, policy: Policy, now: Time, previous: State)
    requires ManifestsSameUpToOrder(m, n)
    ensures Evaluate(m, policy, now, previous) == Evaluate(n, policy, now, previous)
  {
    hide Evaluations, OutboxAfter, EntriesAfter, CarryCheckpoint, DaysOf, MarksAfter, Admissible,
      SeedsAccepted, SameUpToOrder;
    if ClockAccepted(now) {
      OrderHasNoEffect(m, n, policy, now, previous.snapshots);
    }
  }

  // ---------- re-running ----------

  lemma {:induction false} MarksAreDelivered(marks: map<Month, SnapshotMark>, snapshots: seq<Snapshot>, n: nat,
                                             mappingVersion: string, now: Time, i: nat)
    requires ClockAccepted(now) && i < n <= |snapshots|
    requires forall j, k :: 0 <= j < k < |snapshots| ==> snapshots[j].period != snapshots[k].period
    ensures var after := MarksAfter(marks, snapshots, n, mappingVersion, now);
      snapshots[i].period in after && after[snapshots[i].period] == MarkOf(snapshots[i], mappingVersion)
  {
    hide MarkOf;
    if i < n - 1 {
      MarksAreDelivered(marks, snapshots, n - 1, mappingVersion, now, i);
    }
  }

  lemma {:induction false} MarksStayInWindow(marks: map<Month, SnapshotMark>, snapshots: seq<Snapshot>, n: nat,
                                             mappingVersion: string, now: Time)
    requires ClockAccepted(now) && n <= |snapshots|
    requires forall j :: 0 <= j < |snapshots| ==> snapshots[j].period in Periods(now)
    ensures MarksAfter(marks, snapshots, n, mappingVersion, now).Keys <= Periods(now)
  {
    hide MarkOf, Periods;
    if n > 0 {
      MarksStayInWindow(marks, snapshots, n - 1, mappingVersion, now);
    }
  }

  lemma {:induction false} MarksUnchanged(marks: map<Month, SnapshotMark>, snapshots: seq<Snapshot>, n: nat,
                                          mappingVersion: string, now: Time)
    requires ClockAccepted(now) && n <= |snapshots|
    requires marks.Keys <= Periods(now)
    requires forall i :: 0 <= i < n ==>
      snapshots[i].period in marks && marks[snapshots[i].period] == MarkOf(snapshots[i], mappingVersion)
    ensures MarksAfter(marks, snapshots, n, mappingVersion, now) == marks
  {
    hide MarkOf, Periods;
    if n > 0 {
      MarksUnchanged(marks, snapshots, n - 1, mappingVersion, now);
    }
  }

  /** The delivered marks admit the same delivery again and stay as they are. */
  lemma DeliveryRepeats(manifest: Manifest, policy: Policy, now: Time, marks: map<Month, SnapshotMark>)
    requires ClockAccepted(now) && Admissible(manifest, policy, now, marks)
    ensures var after := MarksAfter(marks, manifest.snapshots, |manifest.snapshots|, policy.mappingVersion, now);
      && Admissible(manifest, policy, now, after)
      && MarksAfter(after, manifest.snapshots, |manifest.snapshots|, policy.mappingVersion, now) == after
  {
    hide Periods, DayFits, DistinctDates, RowsAdmissible, ContentHash, MappingHash, MarksAfter;
    var snapshots, n := manifest.snapshots, |manifest.snapshots|;
    var after := MarksAfter(marks, snapshots, n, policy.mappingVersion, now);
    forall i | 0 <= i < n
      ensures snapshots[i].period in Periods(now)
      ensures snapshots[i].period in after && after[snapshots[i].period] == MarkOf(snapshots[i], policy.mappingVersion)
    {
      assert snapshots[i] in snapshots;
      MarksAreDelivered(marks, snapshots, n, policy.mappingVersion, now, i);
    }
    MarksStayInWindow(marks, snapshots, n, policy.mappingVersion, now);
    MarksUnchanged(after, snapshots, n, policy.mappingVersion, now);
    forall s | s in snapshots ensures SnapshotFits(s, policy, now, after) {
      var i :| 0 <= i < n && snapshots[i] == s;
    }
  }

  /** Nothing is left to announce when the entries already carry these values. */
  lemma OutboxSettled(c: Change, again: Change)
    requires again == Change(EntriesAfter(c), OutboxAfter(c, c.values.Keys), c.policy, true, c.values)
    ensures EntriesAfter(again) == EntriesAfter(c)
    ensures OutboxAfter(again, c.values.Keys) == again.outbox
    ensures forall x :: x in c.values ==> !IsTransition(again, x)
  {
    hide OutboxAfter, SequenceOf;
    forall x | x in c.values ensures Unchanged(again, x) && EntryOf(again, x) == EntryOf(c, x) {
      SettledEntry(c, again, x);
    }
    forall id | id in again.outbox || id in OutboxAfter(again, c.values.Keys)
      ensures id in again.outbox && id in OutboxAfter(again, c.values.Keys)
           && OutboxAfter(again, c.values.Keys)[id] == again.outbox[id]
    {
      OutboxAfterAt(c, c.values.Keys, id);
      OutboxAfterAt(again, c.values.Keys, id);
    }
    SameOutbox(OutboxAfter(again, c.values.Keys), again.outbox);
  }

  lemma SettledEntry(c: Change, again: Change, x: Subject)
    requires again == Change(EntriesAfter(c), OutboxAfter(c, c.values.Keys), c.policy, true, c.values)
    requires x in c.values
    ensures Unchanged(again, x) && EntryOf(again, x) == EntryOf(c, x)
  {
    hide OutboxAfter;
  }

  /** Re-running evaluate on its own accepted output with the same inputs is accepted, returns
      the identical state, and announces nothing. */
  lemma EvaluateIsIdempotent(manifest: Manifest, policy: Policy, now: Time, previous: State, after: State)
    requires Evaluate(manifest, policy, now, previous) == Some(after) && StateAccepted(after)
    ensures Evaluate(manifest, policy, now, after) == Some(after)
    ensures var again := ChangeOf(policy, after, ValuesOf(manifest, policy, now, after));
      forall x :: x in again.values ==> !IsTransition(again, x)
  {
    hide Evaluations, OutboxAfter, EntriesAfter, DaysOf, MarksAfter, Admissible, SeedsAccepted, IsTransition,
      StateAccepted;
    var values := ValuesOf(manifest, policy, now, previous);
    DeliveryRepeats(manifest, policy, now, previous.snapshots);
    assert CheckpointOf(policy, now, after) == CheckpointOf(policy, now, previous);
    OutboxSettled(ChangeOf(policy, previous, values), ChangeOf(policy, after, values));
  }

  // ---------- rollover ----------

  /** After a rollover into the next month under the same policy, the counts are those of any
      longer replay that starts where the earlier one did, from the same checkpoint, and judges
      the earlier days as the earlier run did and the later days as the later run does. */
  lemma RolloverKeepsCounts(m1: Manifest, p1: Policy, t1: Time, s0: State, s1: State,
                            m2: Manifest, p2: Policy, t2: Time, long: Replay, track: Track, b: Basis, d: Day)
    requires Healthy(s0) && Evaluate(m1, p1, t1, s0) == Some(s1) && Accepts(m2, p2, t2, s1)
    requires Fingerprint(p1) == Fingerprint(p2) && CurrentMonth(t2) == CurrentMonth(t1) + 1
    requires Tracked(p2.services, track) && InWindow(t2, d)
    requires long.start == WindowStart(t1) && long.checkpoint == CheckpointOf(p1, t1, s0)
    requires forall e :: WindowStart(t1) <= e < WindowStart(t2) ==>
      (Qualifies(long, track, b, e) <==> Qualifies(ReplayOf(m1, p1, t1, s0), track, b, e))
    requires forall e :: WindowStart(t2) <= e <= d ==>
      (Qualifies(long, track, b, e) <==> Qualifies(ReplayOf(m2, p2, t2, s1), track, b, e))
    ensures SubjectOf(track, d) in ValuesOf(m2, p2, t2, s1)
    ensures ValuesOf(m2, p2, t2, s1)[SubjectOf(track, d)].consecutiveDays.At(b) == Streak(long, track, b, d)
  {
    hide Evaluations, OutboxAfter, DaysOf, MarksAfter, Admissible, SeedsAccepted, Qualifies, StateAccepted,
      EvaluationOf, EntriesFit, PendingEligible;
    var rp1, rp2 := ReplayOf(m1, p1, t1, s0), ReplayOf(m2, p2, t2, s1);
    var seed := SeedOf(long.checkpoint, track, b);
    EveInWindow(t1, t2);
    EvaluationsAt(rp2, SubjectOf(track, d));
    EvaluationShows(rp2, track, d, b);
    RolloverSeed(m1, p1, t1, s0, s1, p2, t2, track, b);
    StreakContinues(long, rp1, track, b, long.start, seed, long.start, rp2.start - 1);
    StreakContinues(long, rp2, track, b, long.start, seed, rp2.start, d);
  }

  /** The seed of the later run is the earlier run's count on the eve of the new window. */
  lemma RolloverSeed(m1: Manifest, p1: Policy, t1: Time, s0: State, s1: State, p2: Policy, t2: Time, track: Track,
                     b: Basis)
    requires Healthy(s0) && Evaluate(m1, p1, t1, s0) == Some(s1) && ClockAccepted(t2)
    requires Fingerprint(p1) == Fingerprint(p2) && CurrentMonth(t2) == CurrentMonth(t1) + 1
    requires Tracked(p2.services, track)
    ensures SeedOf(CheckpointOf(p2, t2, s1), track, b)
         == Streak(ReplayOf(m1, p1, t1, s0), track, b, WindowStart(t2) - 1)
  {
    hide EvaluationOf, Streak, CarryCheckpoint, ReplayOf, StateAfter, Accepts, Healthy;
    var rp1 := ReplayOf(m1, p1, t1, s0);
    var through := WindowStart(t2) - 1;
    EveInWindow(t1, t2);
    SameServices(p1, p2, track);
    CarriedAtRollover(m1, p1, t1, s0, s1, p2, t2, track);
    EvaluationShows(rp1, track, through, b);
    EvaluationFitsHere(m1, p1, t1, s0, track, through, b);
  }

  lemma EveInWindow(t1: Time, t2: Time)
    requires ClockAccepted(t1) && ClockAccepted(t2) && CurrentMonth(t2) == CurrentMonth(t1) + 1
    ensures InWindow(t1, WindowStart(t2) - 1)
  {
    hide DaysInMonth, SearchMonth, MonthStart;
    var m := CurrentMonth(t1);
    assert WindowStart(t2) == MonthStart(m);
    MonthStartIncreases(m - 1, m);
  }

  /** The checkpoint taken at a rollover holds the earlier run's entry of the eve. */
  lemma CarriedAtRollover(m1: Manifest, p1: Policy, t1: Time, s0: State, s1: State, p2: Policy, t2: Time, track: Track)
    requires Healthy(s0) && Evaluate(m1, p1, t1, s0) == Some(s1) && ClockAccepted(t2)
    requires Fingerprint(p1) == Fingerprint(p2) && CurrentMonth(t2) == CurrentMonth(t1) + 1
    requires Tracked(p1.services, track) && Tracked(p2.services, track)
    ensures CheckpointOf(p2, t2, s1).through == WindowStart(t2) - 1
    ensures var x := SubjectOf(track, WindowStart(t2) - 1);
      && x in CheckpointOf(p2, t2, s1).evaluations
      && CheckpointOf(p2, t2, s1).evaluations[x].value == EvaluationOf(ReplayOf(m1, p1, t1, s0), track, x.date)
  {
    hide EvaluationOf, Evaluations, OutboxAfter, MarksAfter, DaysOf, Accepts, EntriesFit, PendingEligible, SequenceOf;
    var x := SubjectOf(track, WindowStart(t2) - 1);
    EveInWindow(t1, t2);
    CarriedEntriesFit(s0, Fingerprint(p1), WindowStart(t1) - 1, p1.services);
    EvaluationsAt(ReplayOf(m1, p1, t1, s0), x);
    EvaluationShows(ReplayOf(m1, p1, t1, s0), track, x.date, Observed);
    assert x in s1.evaluations;
  }

  lemma SameServices(p1: Policy, p2: Policy, track: Track)
    requires Fingerprint(p1) == Fingerprint(p2) && Tracked(p2.services, track)
    ensures Tracked(p1.services, track)
  {
    if track.ServiceTrack? {
      assert track.service in Services(p2);
    }
  }

  lemma EvaluationFitsHere(m: Manifest, p: Policy, t: Time, s: State, track: Track, d: Day, b: Basis)
    requires Healthy(s) && Accepts(m, p, t, s) && Tracked(p.services, track) && WindowStart(t) <= d
    ensures CountsFit(EvaluationOf(ReplayOf(m, p, t, s), track, d), b)
  {
    hide EvaluationOf, CountsFit, DaysOf;
    CarriedEntriesFit(s, Fingerprint(p), WindowStart(t) - 1, p.services);
    ReplayWindowFits(t);
    EvaluationFits(ReplayOf(m, p, t, s), track, d, b);
  }

  // ---------- the duplicate-id guard ----------

  /** Every id ever issued lies behind the current sequence of its subject, as long as that
      subject is still in the window. */
  ghost predicate IdsBehind(s: State, last: Time, services: set<ServiceId>)
    requires ClockAccepted(last)
  {
    forall id :: id in s.outbox ==>
      && id.subject.date <= DayOf(last)
      && (IsTracked(services, id.subject) && WindowStart(last) <= id.subject.date ==>
            id.subject in s.evaluations && id.sequence <= s.evaluations[id.subject].sequence)
  }

  predicate IsTracked(services: set<ServiceId>, x: Subject) {
    x.ServiceDay? ==> x.service in services
  }

  lemma {:induction false} WindowMovesForward(t1: Time, t2: Time)
    requires ClockAccepted(t1) && ClockAccepted(t2) && t1 <= t2
    ensures WindowStart(t1) <= WindowStart(t2) && DayOf(t1) <= DayOf(t2)
  {
    hide DaysInMonth, SearchMonth, MonthStart;
    var m, n := CurrentMonth(t1), CurrentMonth(t2);
    if n < m {
      if n + 1 < m { MonthStartIncreases(n + 1, m); }
      assert false;
    }
    if m < n { MonthStartIncreases(m - 1, n - 1); }
  }

  /** The sequence the subject's next change gets. */
  function NextSequence(s: State, x: Subject): int {
    if x in s.evaluations then s.evaluations[x].sequence + 1 else 1
  }

  /** The outbox holds an event that announced this very value of the subject under this policy and
      the sequence that comes next. */
  ghost predicate AlreadyIssued(s: State, policy: PolicyDigest, x: Subject, value: Evaluation) {
    exists id :: id in s.outbox && id.subject == x && id.sequence == NextSequence(s, x) && id.policy == policy
                 && id.evaluation == EvaluationDigest(value)
  }

  ghost predicate HasPending(s: State, x: Subject) {
    exists id :: id in s.outbox && IsPending(s.outbox[id]) && s.outbox[id].subject == x
  }

  /** Exactly when the guard against a repeated id swallows a transition: the subject is left without
      a pending event if and only if its next sequence was used before, under this policy, for the
      same value. */
  lemma SwallowedExactly(manifest: Manifest, policy: Policy, now: Time, previous: State, x: Subject)
    requires Healthy(previous) && Accepts(manifest, policy, now, previous)
    requires IsTransition(ChangeOf(policy, previous, ValuesOf(manifest, policy, now, previous)), x)
    ensures var values := ValuesOf(manifest, policy, now, previous);
      !HasPending(Evaluate(manifest, policy, now, previous).value, x)
      <==> AlreadyIssued(previous, Fingerprint(policy), x, values[x])
  {
    hide EvaluationOf, Evaluations, DaysOf, CarryCheckpoint, Admissible, SeedsAccepted, StateAccepted,
      PolicyAccepted, OutboxAfter, PendingEligible, EntriesFit, MarksAfter, WasQualified, PendingFor;
    var values := ValuesOf(manifest, policy, now, previous);
    var c := ChangeOf(policy, previous, values);
    var after := Evaluate(manifest, policy, now, previous).value;
    assert SequenceOf(c, x) == NextSequence(previous, x);
    OutboxAfterAt(c, values.Keys, NewId(c, x));
    if AlreadyIssued(previous, Fingerprint(policy), x, values[x]) {
      forall id | id in after.outbox && after.outbox[id].subject == x ensures !IsPending(after.outbox[id]) {
        OutboxAfterAt(c, values.Keys, id);
      }
    } else {
      assert NewId(c, x) !in previous.outbox;
      assert IsPending(after.outbox[NewId(c, x)]);
    }
  }

  predicate WillBeEvaluated(policy: Policy, now: Time, x: Subject)
    requires ClockAccepted(now)
  {
    IsTracked(Services(policy), x) && InWindow(now, x.date)
  }

  /** No event of the outbox, issued under this policy for a subject that will be evaluated, has the
      sequence its subject gets next. */
  ghost predicate NextSequencesUnused(s: State, policy: Policy, now: Time)
    requires ClockAccepted(now)
  {
    forall id :: id in s.outbox && id.policy == Fingerprint(policy) && WillBeEvaluated(policy, now, id.subject) ==>
      id.sequence != NextSequence(s, id.subject)
  }

  /** Where next sequences are unused, every transition is announced, whatever the manifest. */
  lemma UnusedSequencesAnnounceEverything(manifest: Manifest, policy: Policy, now: Time, previous: State, x: Subject)
    requires Healthy(previous) && Accepts(manifest, policy, now, previous)
    requires NextSequencesUnused(previous, policy, now)
    requires IsTransition(ChangeOf(policy, previous, ValuesOf(manifest, policy, now, previous)), x)
    ensures HasPending(Evaluate(manifest, policy, now, previous).value, x)
  {
    hide EvaluationOf, Evaluations, Evaluate, DaysOf, CarryCheckpoint, Admissible, SeedsAccepted,
      StateAccepted, PolicyAccepted, WasQualified, PendingFor, Healthy;
    SwallowedExactly(manifest, policy, now, previous, x);
    EvaluationsAt(ReplayOf(manifest, policy, now, previous), x);
  }

  /** With the clock not running backwards and all issued ids behind, next sequences are unused. */
  lemma GuardNeverSuppresses(policy: Policy, now: Time, previous: State, last: Time)
    requires ClockAccepted(last) && ClockAccepted(now) && last <= now && IdsBehind(previous, last, Services(policy))
    ensures NextSequencesUnused(previous, policy, now)
  {
    WindowMovesForward(last, now);
  }

  // ---------- chains on which nothing is swallowed ----------

  /** Whatever service of the set an id was issued for is still listed. */
  ghost predicate StillListed(s: State, services: set<ServiceId>, policy: Policy) {
    forall id :: id in s.outbox && id.subject.ServiceDay? && id.subject.service in services ==>
      id.subject.service in Services(policy)
  }

  lemma IdsStayBehind(manifest: Manifest, policy: Policy, now: Time, previous: State, last: Time,
                      services: set<ServiceId>)
    requires ClockAccepted(last) && last <= now && Accepts(manifest, policy, now, previous)
    requires IdsBehind(previous, last, services) && StillListed(previous, services, policy)
    ensures IdsBehind(Evaluate(manifest, policy, now, previous).value, now, services)
  {
    hide EvaluationOf, Evaluations, DaysOf, CarryCheckpoint, Admissible, SeedsAccepted, StateAccepted,
      PolicyAccepted, OutboxAfter, IsTransition, MarksAfter;
    var values := ValuesOf(manifest, policy, now, previous);
    var after := StateAfter(manifest, policy, now, previous, values);
    WindowMovesForward(last, now);
    forall id | id in after.outbox
      ensures id.subject.date <= DayOf(now)
      ensures IsTracked(services, id.subject) && WindowStart(now) <= id.subject.date ==>
        id.subject in after.evaluations && id.sequence <= after.evaluations[id.subject].sequence
    {
      IdStaysBehind(manifest, policy, now, previous, last, services, id);
    }
  }

  lemma IdStaysBehind(manifest: Manifest, policy: Policy, now: Time, previous: State, last: Time,
                      services: set<ServiceId>, id: EventId)
    requires ClockAccepted(last) && last <= now && Accepts(manifest, policy, now, previous)
    requires IdsBehind(previous, last, services) && StillListed(previous, services, policy)
    requires WindowStart(last) <= WindowStart(now) && DayOf(last) <= DayOf(now)
    requires id in StateAfter(manifest, policy, now, previous, ValuesOf(manifest, policy, now, previous)).outbox
    ensures id.subject.date <= DayOf(now)
    ensures var entries := EntriesAfter(ChangeOf(policy, previous, ValuesOf(manifest, policy, now, previous)));
      IsTracked(services, id.subject) && WindowStart(now) <= id.subject.date ==>
        id.subject in entries && id.sequence <= entries[id.subject].sequence
  {
    hide EvaluationOf, Evaluations, DaysOf, CarryCheckpoint, Admissible, SeedsAccepted, StateAccepted,
      PolicyAccepted, OutboxAfter, MarksAfter;
    var values := ValuesOf(manifest, policy, now, previous);
    var c := ChangeOf(policy, previous, values);
    OutboxAfterAt(c, values.Keys, id);
    EvaluationsAt(ReplayOf(manifest, policy, now, previous), id.subject);
  }

  predicate Lists(r: Delivery, s: ServiceId) {
    s in r.policy.services
  }

  /** A chain whose clock never runs backwards, and on which no service that was listed once is left out
      and then listed again. Services may be added, and dropped for good. */
  ghost predicate Steady(runs: seq<Delivery>) {
    && (forall i :: 0 <= i < |runs| ==> ClockAccepted(runs[i].now))
    && (forall i, j :: 0 <= i < j < |runs| ==> runs[i].now <= runs[j].now)
    && forall i, j, k, s :: 0 <= i < j < k < |runs| && Lists(runs[i], s) && Lists(runs[k], s) ==> Lists(runs[j], s)
  }

  /** Every service of the set, once listed, stays listed up to the end of the chain. */
  ghost predicate Continuous(runs: seq<Delivery>, services: set<ServiceId>) {
    forall i, j, s :: 0 <= i < j < |runs| && s in services && Lists(runs[i], s) ==> Lists(runs[j], s)
  }

  ghost predicate ListedOnce(runs: seq<Delivery>, s: ServiceId) {
    exists i :: 0 <= i < |runs| && Lists(runs[i], s)
  }

  /** Events are only ever issued for services that some policy of the chain listed. */
  lemma {:induction false} IssuedWasListed(runs: seq<Delivery>, id: EventId)
    requires id in After(runs).outbox && id.subject.ServiceDay?
    ensures ListedOnce(runs, id.subject.service)
  {
    hide Accepts, StateAfter, ValuesOf, ClockAccepted;
    var r, init := runs[|runs| - 1], runs[..|runs| - 1];
    if id in After(init).outbox {
      IssuedWasListed(init, id);
      var i :| 0 <= i < |init| && Lists(init[i], id.subject.service);
      assert Lists(runs[i], id.subject.service);
    } else {
      NewlyIssuedIsListed(r, After(init), id);
      assert Lists(runs[|runs| - 1], id.subject.service);
    }
  }

  lemma NewlyIssuedIsListed(r: Delivery, before: State, id: EventId)
    requires Accepts(r.manifest, r.policy, r.now, before) && id !in before.outbox
    requires id in Evaluate(r.manifest, r.policy, r.now, before).value.outbox && id.subject.ServiceDay?
    ensures Lists(r, id.subject.service)
  {
    hide EvaluationOf, Evaluations, DaysOf, CarryCheckpoint, Admissible, SeedsAccepted, StateAccepted,
      PolicyAccepted, OutboxAfter, MarksAfter, IsTransition;
    var values := ValuesOf(r.manifest, r.policy, r.now, before);
    OutboxAfterAt(ChangeOf(r.policy, before, values), values.Keys, id);
    TransitionsAreEvaluated(ChangeOf(r.policy, before, values), id.subject);
    EvaluationsAt(ReplayOf(r.manifest, r.policy, r.now, before), id.subject);
  }

  lemma TransitionsAreEvaluated(c: Change, x: Subject)
    ensures IsTransition(c, x) ==> x in c.values
  {
  }

  lemma {:induction false} SteadyIdsBehind(runs: seq<Delivery>, services: set<ServiceId>, last: Time)
    requires Steady(runs) && Continuous(runs, services) && ClockAccepted(last)
    requires forall i :: 0 <= i < |runs| ==> runs[i].now <= last
    ensures IdsBehind(After(runs), last, services)
  {
    hide ClockAccepted, IdsBehind, Accepts, StateAfter;
    if runs == [] {
      NoIdsBehind(last, services);
    } else {
      var r, init := runs[|runs| - 1], runs[..|runs| - 1];
      assert forall i :: 0 <= i < |init| ==> init[i] == runs[i];
      SteadyIdsBehind(init, services, r.now);
      if Accepts(r.manifest, r.policy, r.now, After(init)) {
        ContinuousStillListed(runs, services);
        IdsStayBehind(r.manifest, r.policy, r.now, After(init), r.now, services);
      }
      IdsBehindLater(After(runs), r.now, last, services);
    }
  }

  lemma ContinuousStillListed(runs: seq<Delivery>, services: set<ServiceId>)
    requires runs != [] && Continuous(runs, services)
    ensures StillListed(After(runs[..|runs| - 1]), services, runs[|runs| - 1].policy)
  {
    hide After;
    var r, init := runs[|runs| - 1], runs[..|runs| - 1];
    forall id | id in After(init).outbox && id.subject.ServiceDay? && id.subject.service in services
      ensures id.subject.service in Services(r.policy)
    {
      IssuedWasListed(init, id);
      var i :| 0 <= i < |init| && Lists(init[i], id.subject.service);
      assert Lists(runs[i], id.subject.service);
      assert Lists(runs[|runs| - 1], id.subject.service);
    }
  }

  lemma NoIdsBehind(last: Time, services: set<ServiceId>)
    requires ClockAccepted(last)
    ensures IdsBehind(EMPTY_STATE, last, services)
  {
  }

  lemma IdsBehindLater(s: State, t1: Time, t2: Time, services: set<ServiceId>)
    requires ClockAccepted(t1) && ClockAccepted(t2) && t1 <= t2 && IdsBehind(s, t1, services)
    ensures IdsBehind(s, t2, services)
  {
    hide ClockAccepted, WindowStart;
    WindowMovesForward(t1, t2);
  }

  /** On every steady chain, each transition of the next evaluation ends with a pending event. */
  lemma SteadyChainsAnnounceEverything(runs: seq<Delivery>, r: Delivery, x: Subject)
    requires Steady(runs + [r]) && Accepts(r.manifest, r.policy, r.now, After(runs))
    requires IsTransition(ChangeOf(r.policy, After(runs), ValuesOf(r.manifest, r.policy, r.now, After(runs))), x)
    ensures HasPending(After(runs + [r]), x)
  {
    hide IdsBehind, ValuesOf, ClockAccepted, Accepts, IsTransition, Healthy, HasPending, NextSequencesUnused,
      StateAfter;
    var all := runs + [r];
    assert all[|runs|] == r && all[..|runs|] == runs && forall i :: 0 <= i < |runs| ==> all[i] == runs[i];
    assert Steady(runs);
    forall i, j, s | 0 <= i < j < |runs| && s in Services(r.policy) && Lists(runs[i], s) ensures Lists(runs[j], s) {
      assert Lists(all[i], s) && Lists(all[|runs|], s);
      assert Lists(all[j], s);
    }
    SteadyIdsBehind(runs, Services(r.policy), r.now);
    ReachableIsHealthy(runs);
    GuardNeverSuppresses(r.policy, r.now, After(runs), r.now);
    UnusedSequencesAnnounceEverything(r.manifest, r.policy, r.now, After(runs), x);
  }

  /** The runs of a chain that took effect. */
  ghost function Effective(runs: seq<Delivery>): seq<Delivery> {
    if runs == [] then []
    else
      var r, init := runs[|runs| - 1], runs[..|runs| - 1];
      if Evaluate(r.manifest, r.policy, r.now, After(init)).Some? then Effective(init) + [r] else Effective(init)
  }

  /** Rejected runs leave no trace, so a chain may be judged without them. */
  lemma {:induction false} RejectedRunsLeaveNoTrace(runs: seq<Delivery>)
    ensures After(Effective(runs)) == After(runs)
  {
    hide Evaluate;
    if runs != [] {
      var r, init := runs[|runs| - 1], runs[..|runs| - 1];
      RejectedRunsLeaveNoTrace(init);
      var kept := Effective(init);
      assert (kept + [r])[..|kept|] == kept;
    }
  }
}
