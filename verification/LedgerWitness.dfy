/** A small concrete ledger: what its first evaluation announces, and two chains - a clock set
    back, a service left out for one evaluation - at whose end that announcement is gone although its
    subject qualifies again. */
module LedgerWitness {
  import opened Common
  import opened Calendar
  import opened Decimals
  import opened LedgerTypes
  import opened LedgerAdmission
  import opened LedgerReplay
  import opened LedgerOutbox
  import opened LedgerHistory
  import opened LedgerStored
  import opened Ledger

  const ONE_USD: Amount := 1_000_000_000_000_000_000

  const POLICY := Policy("v1", "m1", "production", ["a", "b", "c", "d", "e", "f"], 6, ONE_USD, 72, 36)

  /** The policy without service a. */
  const OTHER_POLICY := Policy("v1", "m1", "production", ["b", "c", "d", "e", "f", "g"], 6, ONE_USD, 72, 36)

  // 11 March and 1 March of year 1.
  const NOW: Time := 70 * SECONDS_PER_DAY
  const EARLIER: Time := 60 * SECONDS_PER_DAY

  const ROW := Record("row", Some("a"), "provider", None, ONE_USD, Form(false, 18))
  const DAY := DayRecords(61, false, None, [ROW])
  const MARCH := Snapshot(2, "march", 1, NOW, true, Some("evidence"), [DAY])
  const FULL := Manifest("production", "m1", [MARCH])
  const NOTHING := Manifest("production", "m1", [])

  /** Service a on 2 March: it charged one dollar, which is the threshold. */
  const X := ServiceDay("a", 61)

  const FIRST := Delivery(FULL, POLICY, NOW)
  const SET_BACK := Delivery(NOTHING, POLICY, EARLIER)
  const LEFT_OUT := Delivery(NOTHING, OTHER_POLICY, NOW)

  // ---------- dates ----------

  lemma Months()
    ensures MonthStart(1) == 32 && MonthStart(2) == 60 && MonthStart(3) == 91
    ensures MonthOf(60) == 2 && MonthOf(61) == 2 && MonthOf(70) == 2
  {
    assert MonthStart(0) == 1;
    assert MonthStart(1) == 32;
    assert MonthStart(2) == 60;
    assert MonthStart(3) == 91;
    MonthOfUnique(60, 2);
    MonthOfUnique(61, 2);
    MonthOfUnique(70, 2);
  }

  lemma Clocks()
    ensures ClockAccepted(NOW) && CurrentMonth(NOW) == 2 && WindowStart(NOW) == 32 && DayOf(NOW) == 70
    ensures ClockAccepted(EARLIER) && CurrentMonth(EARLIER) == 2 && WindowStart(EARLIER) == 32 && DayOf(EARLIER) == 60
    ensures Periods(NOW) == {1, 2} && Periods(EARLIER) == {1, 2} && MonthOf(61) == 2
  {
    hide MonthStart, SearchMonth;
    Months();
  }

  // ---------- the first evaluation is accepted ----------

  lemma MarchFits()
    ensures ClockAccepted(NOW) && SnapshotFits(MARCH, POLICY, NOW, map[])
  {
    hide MonthStart, SearchMonth, TenTo;
    Clocks();
    AllPlacesDo(ONE_USD);
    assert "a" in POLICY.services;
    assert RecordFits(ROW, Services(POLICY));
    assert DayFits(DAY, 2, 70, Services(POLICY));
  }

  lemma OneRow()
    ensures RowsAdmissible(RowsOf([MARCH], 1))
  {
    assert RowsWith(multiset{}, [DAY], 0) == multiset{};
    assert RowsWith(multiset{}, [DAY], 1) == multiset{ROW};
    assert RowsOf([MARCH], 0) == multiset{};
    assert RowsOf([MARCH], 1) == multiset{ROW};
  }

  lemma PoliciesAccepted()
    ensures PolicyAccepted(POLICY) && PolicyAccepted(OTHER_POLICY) && Fingerprint(POLICY) != Fingerprint(OTHER_POLICY)
  {
    assert "a" in Services(POLICY) && "a" !in Services(OTHER_POLICY);
  }

  lemma FirstAccepted()
    ensures Accepts(FULL, POLICY, NOW, EMPTY_STATE)
  {
    hide SnapshotFits, RowsAdmissible, ClockAccepted, SeedsAccepted, PolicyAccepted, Healthy, CarryCheckpoint, MonthOf;
    Clocks();
    MarchFits();
    OneRow();
    PoliciesAccepted();
    EmptyIsHealthy();
    SeedsNeverRejected(EMPTY_STATE, Fingerprint(POLICY), WindowStart(NOW) - 1, POLICY.services, Services(POLICY));
  }

  // ---------- its result ----------

  lemma MarchDays()
    ensures ClockAccepted(NOW)
    ensures DaysOf(FULL.snapshots, 1, POLICY, NOW) == map[61 := AdmitDay(DAY, MARCH, POLICY, NOW)]
    ensures AdmitDay(DAY, MARCH, POLICY, NOW).totals["a"] == ServiceTotal(ONE_USD, 1, true)
    ensures AdmitDay(DAY, MARCH, POLICY, NOW).ingestionComplete && AdmitDay(DAY, MARCH, POLICY, NOW).recent
  {
    hide ClockAccepted;
    Clocks();
    assert DaysOfSnapshot(MARCH, 0, POLICY, NOW) == map[];
    assert DaysOfSnapshot(MARCH, 1, POLICY, NOW) == map[61 := AdmitDay(DAY, MARCH, POLICY, NOW)];
    assert DaysOf(FULL.snapshots, 0, POLICY, NOW) == map[];
    assert "a" in POLICY.services;
    assert [ROW][..0] == [];
    assert TotalOf([], "a") == NO_ROWS;
    assert TotalOf([ROW], "a") == AddRow(NO_ROWS, ROW, "a");
  }

  lemma Qualified(rp: Replay)
    requires rp.policy == POLICY && rp.now == NOW && rp.days == map[61 := AdmitDay(DAY, MARCH, POLICY, NOW)]
    ensures EvaluationOf(rp, ServiceTrack("a"), 61).qualifies
  {
    MarchDays();
    assert "a" in Services(POLICY) by { assert "a" in POLICY.services; }
    var blockers := BlockersOn(rp, "a", 61);
    assert IsMature(rp, 61);
    assert TotalOn(rp, "a", 61) == Some(ServiceTotal(ONE_USD, 1, true));
    assert blockers == [UnfinalizedDay];
    assert ObservationBlockers([]) == [];
    assert ObservationBlockers(blockers) == [];
  }

  lemma FirstQualifies()
    ensures ClockAccepted(NOW)
    ensures var values := ValuesOf(FULL, POLICY, NOW, EMPTY_STATE);
      X in values && values[X].qualifies
  {
    hide ClockAccepted, EvaluationOf, Evaluations, DaysOf, AdmitDay, CarryCheckpoint;
    Clocks();
    MarchDays();
    var rp := ReplayOf(FULL, POLICY, NOW, EMPTY_STATE);
    assert "a" in POLICY.services;
    EvaluationsAt(rp, X);
    Qualified(rp);
  }

  // ---------- a subject that returns ----------

  lemma OldIdsStay(r: Delivery, before: State, id: EventId)
    requires Accepts(r.manifest, r.policy, r.now, before) && id in before.outbox
    ensures id in Evaluate(r.manifest, r.policy, r.now, before).value.outbox
  {
    hide Evaluations, OutboxAfter, DaysOf, CarryCheckpoint, Admissible, SeedsAccepted, StateAccepted, PolicyAccepted;
    var values := ValuesOf(r.manifest, r.policy, r.now, before);
    OutboxAfterAt(ChangeOf(r.policy, before, values), values.Keys, id);
  }

  /** A first evaluation announces a qualifying subject under sequence 1. */
  lemma FirstIsAnnounced(r: Delivery, x: Subject)
    requires Accepts(r.manifest, r.policy, r.now, EMPTY_STATE)
    requires x in ValuesOf(r.manifest, r.policy, r.now, EMPTY_STATE)
    requires ValuesOf(r.manifest, r.policy, r.now, EMPTY_STATE)[x].qualifies
    ensures var s := Evaluate(r.manifest, r.policy, r.now, EMPTY_STATE).value;
      var id := EventId(x, 1, Fingerprint(r.policy), EvaluationDigest(ValuesOf(r.manifest, r.policy, r.now, EMPTY_STATE)[x]));
      id in s.outbox && IsPending(s.outbox[id]) && s.outbox[id].subject == x && s.outbox[id].current.qualifies
      && s.outbox[id].current == ValuesOf(r.manifest, r.policy, r.now, EMPTY_STATE)[x]
  {
    hide Evaluations, OutboxAfter, DaysOf, CarryCheckpoint, Admissible, SeedsAccepted, StateAccepted, PolicyAccepted;
    var values := ValuesOf(r.manifest, r.policy, r.now, EMPTY_STATE);
    var c := ChangeOf(r.policy, EMPTY_STATE, values);
    OutboxAfterAt(c, values.Keys, NewId(c, x));
  }

  /** A subject that a first evaluation announces, a second drops and the first delivery brings back
      under the same checkpoint qualifies again, is a transition, and is swallowed. */
  lemma ReturnsSilently(r: Delivery, middle: Delivery, s1: State, s2: State, x: Subject)
    requires Evaluate(r.manifest, r.policy, r.now, EMPTY_STATE) == Some(s1)
    requires Evaluate(middle.manifest, middle.policy, middle.now, s1) == Some(s2) && StateAccepted(s2)
    requires x in ValuesOf(r.manifest, r.policy, r.now, EMPTY_STATE)
    requires ValuesOf(r.manifest, r.policy, r.now, EMPTY_STATE)[x].qualifies
    requires x !in s2.evaluations && s2.snapshots == s1.snapshots
    requires CheckpointOf(r.policy, r.now, s2) == CheckpointOf(r.policy, r.now, EMPTY_STATE)
    ensures Accepts(r.manifest, r.policy, r.now, s2)
    ensures ValuesOf(r.manifest, r.policy, r.now, s2) == ValuesOf(r.manifest, r.policy, r.now, EMPTY_STATE)
    ensures IsTransition(ChangeOf(r.policy, s2, ValuesOf(r.manifest, r.policy, r.now, s2)), x)
    ensures Evaluate(r.manifest, r.policy, r.now, s2).Some?
    ensures !HasPending(Evaluate(r.manifest, r.policy, r.now, s2).value, x)
  {
    hide Evaluations, OutboxAfter, DaysOf, CheckpointOf, Admissible, SeedsAccepted, StateAccepted,
      PolicyAccepted, Healthy, HasPending, MarksAfter, PendingFor;
    var values := ValuesOf(r.manifest, r.policy, r.now, EMPTY_STATE);
    DeliveryRepeats(r.manifest, r.policy, r.now, EMPTY_STATE.snapshots);
    FirstIsAnnounced(r, x);
    var id := EventId(x, 1, Fingerprint(r.policy), EvaluationDigest(values[x]));
    OldIdsStay(middle, s1, id);
    EmptyIsHealthy();
    EvaluateKeepsHealthy(r.manifest, r.policy, r.now, EMPTY_STATE);
    EvaluateKeepsHealthy(middle.manifest, middle.policy, middle.now, s1);
    assert AlreadyIssued(s2, Fingerprint(r.policy), x, values[x]);
    SwallowedExactly(r.manifest, r.policy, r.now, s2, x);
  }

  // ---------- the two chains ----------

  /** The state after the first evaluation. */
  lemma AfterFirst() returns (s: State)
    ensures After([FIRST]) == s && Evaluate(FULL, POLICY, NOW, EMPTY_STATE) == Some(s)
    ensures Healthy(s) && StateAccepted(s) && SequencesBelow(s, 2)
    ensures s.subscription == Some("production") && s.policy == Some(Fingerprint(POLICY))
    ensures s.carry == Some(Carry(31, Fingerprint(POLICY), map[]))
    ensures s.snapshots == map[2 := MarkOf(MARCH, "m1")]
    ensures ClockAccepted(NOW) && HasPending(s, X)
  {
    hide Evaluations, OutboxAfter, Admissible, SeedsAccepted, PolicyAccepted, DaysOf, Healthy, StateAccepted,
      MarkOf, SequencesBelow;
    Clocks();
    FirstAccepted();
    s := Evaluate(FULL, POLICY, NOW, EMPTY_STATE).value;
    assert [FIRST][..0] == [];
    assert After([]) == EMPTY_STATE;
    assert [FIRST][|[FIRST]| - 1] == FIRST;
    EmptyIsHealthy();
    EvaluateKeepsHealthy(FULL, POLICY, NOW, EMPTY_STATE);
    NoSequences();
    ResultAccepted(FULL, POLICY, NOW, EMPTY_STATE, 1);
    FirstMarks();
    FirstQualifies();
    FirstIsAnnounced(FIRST, X);
  }

  lemma NoSequences()
    ensures SequencesBelow(EMPTY_STATE, 1)
  {
  }

  lemma FirstMarks()
    ensures ClockAccepted(NOW) && MarksAfter(map[], [MARCH], 1, "m1", NOW) == map[2 := MarkOf(MARCH, "m1")]
  {
    hide MarkOf, ClockAccepted;
    Clocks();
    assert MarksAfter(map[], [MARCH], 0, "m1", NOW) == map[];
  }

  /** A healthy state never stands in the way of an admissible delivery. */
  lemma DeliveryAccepted(manifest: Manifest, policy: Policy, now: Time, s: State)
    requires Healthy(s) && StateAccepted(s) && PolicyAccepted(policy) && ClockAccepted(now)
    requires manifest.subscription == policy.expectedSubscription && manifest.mappingVersion == policy.mappingVersion
    requires s.subscription == Some(manifest.subscription) && Admissible(manifest, policy, now, s.snapshots)
    ensures Accepts(manifest, policy, now, s)
  {
    hide SeedsAccepted, PolicyAccepted, StateAccepted, CarryCheckpoint, Healthy, Admissible, ClockAccepted;
    SeedsNeverRejected(s, Fingerprint(policy), WindowStart(now) - 1, policy.services, Services(policy));
  }

  /** A delivery without snapshots, under an accepted policy, is always admissible. */
  lemma EmptyDeliveryAccepted(policy: Policy, now: Time, s: State)
    requires Healthy(s) && StateAccepted(s) && PolicyAccepted(policy) && ClockAccepted(now)
    requires policy.expectedSubscription == "production" && policy.mappingVersion == "m1"
    requires s.subscription == Some("production")
    ensures Accepts(NOTHING, policy, now, s)
  {
    hide PolicyAccepted, StateAccepted, Healthy, Accepts;
    assert RowsOf([], 0) == multiset{};
    DeliveryAccepted(NOTHING, policy, now, s);
  }

  /** The empty delivery in the middle of a chain. */
  lemma AfterEmptyDelivery(middle: Delivery, s1: State) returns (s2: State)
    requires middle == SET_BACK || middle == LEFT_OUT
    requires Evaluate(FULL, POLICY, NOW, EMPTY_STATE) == Some(s1)
    requires Healthy(s1) && StateAccepted(s1) && SequencesBelow(s1, 2)
    requires s1.subscription == Some("production") && s1.policy == Some(Fingerprint(POLICY))
    requires s1.carry == Some(Carry(31, Fingerprint(POLICY), map[])) && s1.snapshots == map[2 := MarkOf(MARCH, "m1")]
    ensures Evaluate(middle.manifest, middle.policy, middle.now, s1) == Some(s2) && StateAccepted(s2)
    ensures X !in s2.evaluations && s2.snapshots == s1.snapshots
    ensures ClockAccepted(NOW) && CheckpointOf(POLICY, NOW, s2) == CheckpointOf(POLICY, NOW, EMPTY_STATE)
  {
    hide Evaluations, EvaluationOf, OutboxAfter, Admissible, SeedsAccepted, PolicyAccepted, DaysOf, Healthy,
      StateAccepted, MarkOf, SequencesBelow;
    Clocks();
    PoliciesAccepted();
    EmptyDeliveryAccepted(middle.policy, middle.now, s1);
    s2 := Evaluate(middle.manifest, middle.policy, middle.now, s1).value;
    ResultAccepted(middle.manifest, middle.policy, middle.now, s1, 2);
    EvaluationsAt(ReplayOf(middle.manifest, middle.policy, middle.now, s1), X);
    assert "a" !in OTHER_POLICY.services;
  }

  /** What both chains show: announced at first, a transition at last, and nothing pending for it. */
  ghost predicate Swallowed(middle: Delivery) {
    && HasPending(After([FIRST]), X)
    && QualifiesAgain(After([FIRST, middle]))
    && !HasPending(After([FIRST, middle, FIRST]), X)
  }

  /** The first delivery is accepted once more, and its subject is a qualifying transition. */
  ghost predicate QualifiesAgain(s: State) {
    && Accepts(FULL, POLICY, NOW, s)
    && X in ValuesOf(FULL, POLICY, NOW, s) && ValuesOf(FULL, POLICY, NOW, s)[X].qualifies
    && IsTransition(ChangeOf(POLICY, s, ValuesOf(FULL, POLICY, NOW, s)), X)
  }

  lemma ChainSwallows(middle: Delivery)
    requires middle == SET_BACK || middle == LEFT_OUT
    ensures Swallowed(middle)
  {
    hide Evaluate, Healthy, StateAccepted, HasPending, Accepts, IsTransition, ValuesOf, CheckpointOf, MarkOf,
      SequencesBelow;
    var s1 := AfterFirst();
    var s2 := AfterEmptyDelivery(middle, s1);
    var two, three := [FIRST, middle], [FIRST, middle, FIRST];
    assert two[..1] == [FIRST] && two[1] == middle;
    assert After(two) == s2;
    assert three[..2] == two && three[2] == FIRST;
    FirstQualifies();
    ReturnsSilently(FIRST, middle, s1, s2, X);
  }

  /** A clock set back to a day before the subject's, and set forward again: the subject is announced,
      dropped, and on its return its announcement is swallowed. */
  lemma ClockSetBackSwallows()
    ensures Swallowed(SET_BACK)
  {
    ChainSwallows(SET_BACK);
  }

  /** A service left out of the policy for one evaluation: the same happens. */
  lemma ServiceLeftOutSwallows()
    ensures Swallowed(LEFT_OUT)
  {
    ChainSwallows(LEFT_OUT);
  }
}
