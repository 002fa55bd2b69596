/** Two runs of the pipeline, the second while a month ends between its two readings of the clock: what it
    evaluates keeps a period its ledger has dropped, and nothing is written. With one reading it is written. */
module PublicationWitness {
  import opened Common
  import opened Calendar
  import opened LedgerTypes
  import opened LedgerAdmission
  import opened LedgerHistory
  import opened LedgerStored
  import opened LedgerWitness
  import opened Ledger
  import D = Dispatch
  import W = DispatchWorker
  import opened BlobStore
  import opened PublicationRun

  const GENERATION := "generation"
  const AUTHORITY := "authority"

  // The last second of April and the first of May of year 1.
  const BEFORE: Time := 121 * SECONDS_PER_DAY - 1
  const AFTER: Time := 121 * SECONDS_PER_DAY

  const MARCH_CAPTURE := Capture(2, "source", "digest", 1, "proof", "march", NOW, [DAY], Some("evidence"))
  const APRIL_CAPTURE := Capture(3, "source", "digest", 1, "proof", "april", BEFORE, [], Some("evidence"))
  const APRIL := SnapshotOf(APRIL_CAPTURE, 1)

  const FIRST_RUN := Inputs([MARCH_CAPTURE], POLICY, AUTHORITY, NOW, NOW)
  const IN_TIME := Inputs([APRIL_CAPTURE], POLICY, AUTHORITY, BEFORE, BEFORE)
  const OVER_MONTH_END := Inputs([APRIL_CAPTURE], POLICY, AUTHORITY, BEFORE, AFTER)

  lemma SpringMonths()
    ensures ClockAccepted(BEFORE) && Periods(BEFORE) == {2, 3} && DayOf(BEFORE) == 120
    ensures ClockAccepted(AFTER) && Periods(AFTER) == {3, 4} && DayOf(AFTER) == 121
  {
    hide MonthStart, SearchMonth;
    Months();
    assert MonthStart(4) == 121 && MonthStart(5) == 152 by { MayStarts(); }
    MonthOfUnique(120, 3);
    MonthOfUnique(121, 4);
  }

  lemma MayStarts()
    ensures MonthStart(4) == 121 && MonthStart(5) == 152
  {
    Months();
    assert MonthStart(4) == MonthStart(3) + DaysInMonth(3);
  }

  // ---------- the first run ----------

  /** What the first run writes. */
  ghost predicate FirstWritten(base: Outer) {
    && MayWrite(base, None, FIRST_RUN, GENERATION, 1) && OuterValid(base, GENERATION, 1)
    && base.envelope.commit.sequence == 1 && !D.HasOpenEntry(base.envelope)
    && base.envelope.journal == map[]
    && Healthy(base.envelope.commit.state) && StateAccepted(base.envelope.commit.state) && SequencesBelow(base.envelope.commit.state, 2)
    && base.envelope.commit.state.subscription == Some("production")
    && base.envelope.commit.state.snapshots == map[2 := MarkOf(MARCH, "m1")]
    && base.admissions == map[2 := AdmissionOf(MARCH_CAPTURE, AUTHORITY, 1)]
  }

  lemma FirstAdmits()
    ensures ClockAccepted(NOW)
    ensures AdmittedUpTo(map[2 := AdmissionOf(MARCH_CAPTURE, AUTHORITY, 1)], [MARCH_CAPTURE], 1, map[], [MARCH], AUTHORITY)
  {
    hide MonthOf;
    Clocks();
    AdmitsOne(MARCH_CAPTURE, map[]);
  }

  /** The first capture of a period. */
  lemma AdmitsOne(capture: Capture, start: Admissions)
    requires capture.period !in start && capture.authoritySequence == 1
    ensures AdmittedUpTo(start[capture.period := AdmissionOf(capture, AUTHORITY, 1)], [capture], 1, start, [SnapshotOf(capture, 1)], AUTHORITY)
  {
    NothingAdmitted([capture], start, AUTHORITY);
    AdmittedNext(start, [capture], 0, start, [], AUTHORITY, AdmissionOf(capture, AUTHORITY, 1));
    assert [] + [SnapshotOf(capture, 1)] == [SnapshotOf(capture, 1)];
  }

  lemma FirstIsWritten() returns (base: Outer)
    ensures FirstWritten(base)
  {
    hide Evaluate, Healthy, StateAccepted, MarkOf, SequencesBelow, HasPending, AdmittedUpTo, ClockAccepted, Periods;
    var s := AfterFirst();
    Clocks();
    FirstAdmits();
    var document := W.NextDocument(None, s, POLICY, NOW);
    base := Outer(GENERATION, map[2 := AdmissionOf(MARCH_CAPTURE, AUTHORITY, 1)], document);
    assert MarkOf(MARCH, "m1").revision == 1 && MarkOf(MARCH, "m1").snapshotId == "march" by { MarchMark(); }
    assert ManifestFor(POLICY, [MARCH]) == FULL;
    assert InPeriods(AdmissionsIn(None), Periods(NOW)) == map[];
    assert D.Valid(document) by { FirstDocumentValid(s); }
    assert OuterValid(base, GENERATION, 1);
    assert Follows(base, None, FIRST_RUN, [MARCH], GENERATION);
  }

  lemma MarchMark()
    ensures MarkOf(MARCH, "m1").revision == 1 && MarkOf(MARCH, "m1").snapshotId == "march"
  {
  }

  lemma FirstDocumentValid(s: State)
    requires StateAccepted(s)
    ensures D.Valid(W.NextDocument(None, s, POLICY, NOW))
  {
    hide StateAccepted;
  }

  // ---------- the second run ----------

  lemma AprilAdmits(base: Outer)
    requires FirstWritten(base)
    ensures ClockAccepted(BEFORE) && InPeriods(base.admissions, Periods(BEFORE)) == base.admissions
    ensures AdmittedUpTo(base.admissions[3 := AdmissionOf(APRIL_CAPTURE, AUTHORITY, 1)], [APRIL_CAPTURE], 1, base.admissions, [APRIL], AUTHORITY)
  {
    hide MayWrite, OuterValid, Healthy, StateAccepted, SequencesBelow, MarkOf, ClockAccepted, Periods, D.HasOpenEntry,
      AdmittedUpTo;
    SpringMonths();
    AdmitsOne(APRIL_CAPTURE, base.admissions);
  }

  lemma AprilFits(now: Time, s: State)
    requires now == BEFORE || now == AFTER
    requires s.snapshots == map[2 := MarkOf(MARCH, "m1")]
    ensures ClockAccepted(now) && SnapshotFits(APRIL, POLICY, now, s.snapshots)
  {
    hide Periods, ClockAccepted, MarkOf;
    SpringMonths();
  }

  lemma AprilIsAdmissible(now: Time, s: State)
    requires now == BEFORE || now == AFTER
    requires s.snapshots == map[2 := MarkOf(MARCH, "m1")]
    ensures ClockAccepted(now) && Admissible(ManifestFor(POLICY, [APRIL]), POLICY, now, s.snapshots)
  {
    hide SnapshotFits, ClockAccepted, MarkOf;
    AprilFits(now, s);
    assert RowsOf([APRIL], 0) == multiset{};
    assert RowsOf([APRIL], 1) == multiset{};
  }

  lemma AprilAccepted(now: Time, s: State)
    requires now == BEFORE || now == AFTER
    requires Healthy(s) && StateAccepted(s) && s.subscription == Some("production") && s.snapshots == map[2 := MarkOf(MARCH, "m1")]
    ensures Accepts(ManifestFor(POLICY, [APRIL]), POLICY, now, s)
  {
    hide Admissible, ClockAccepted, PolicyAccepted, Healthy, StateAccepted, MarkOf, Accepts;
    AprilIsAdmissible(now, s);
    PoliciesAccepted();
    DeliveryAccepted(ManifestFor(POLICY, [APRIL]), POLICY, now, s);
  }

  /** The object a second run comes up with at this second reading of the clock. */
  lemma AprilFollows(base: Outer, inputs: Inputs) returns (next: Outer)
    requires FirstWritten(base) && (inputs == IN_TIME || inputs == OVER_MONTH_END)
    ensures ClockAccepted(inputs.admitted) && Follows(next, Some(base), inputs, [APRIL], GENERATION)
    ensures D.Valid(next.envelope) && next.envelope.commit.state.subscription == Some("production")
    ensures next.envelope.commit.sequence == 2 && next.admissions == base.admissions[3 := AdmissionOf(APRIL_CAPTURE, AUTHORITY, 1)]
  {
    hide MayWrite, OuterValid, Healthy, StateAccepted, SequencesBelow, MarkOf, ClockAccepted, Periods, D.HasOpenEntry,
      AdmittedUpTo, Accepts, MarksAfter, CheckpointOf, ValuesOf;
    var s := base.envelope.commit.state;
    SpringMonths();
    AprilAdmits(base);
    AprilAccepted(inputs.evaluated, s);
    ResultAccepted(ManifestFor(POLICY, [APRIL]), POLICY, inputs.evaluated, s, 2);
    var after := Evaluate(ManifestFor(POLICY, [APRIL]), POLICY, inputs.evaluated, s).value;
    var document := W.NextDocument(CellOf(Some(base)), after, POLICY, inputs.evaluated);
    next := Outer(GENERATION, base.admissions[3 := AdmissionOf(APRIL_CAPTURE, AUTHORITY, 1)], document);
    assert [APRIL_CAPTURE][0].period in Periods(BEFORE);
    assert D.Valid(document);
  }

  lemma AprilExactly(base: Outer, inputs: Inputs, next: Outer)
    requires FirstWritten(base) && (inputs == IN_TIME || inputs == OVER_MONTH_END)
    requires ClockAccepted(inputs.admitted) && Follows(next, Some(base), inputs, [APRIL], GENERATION)
    ensures CanWrite(Some(base), inputs, GENERATION, 1) <==> OuterValid(next, GENERATION, 1)
  {
    hide EvaluatesTo, AdmittedUpTo, OuterValid, Healthy, StateAccepted, SequencesBelow, MarkOf, ClockAccepted, Periods,
      D.HasOpenEntry, MayWrite;
    MayWriteExactly(next, Some(base), inputs, [APRIL], GENERATION, 1);
  }

  lemma BaseMatches(base: Outer)
    requires FirstWritten(base)
    ensures AdmissionsMatch(AdmissionsIn(Some(base)), StateIn(Some(base)).snapshots)
  {
    hide MayWrite, Healthy, StateAccepted, SequencesBelow, MarkOf, D.Valid;
  }

  lemma AprilIsValid(base: Outer, next: Outer)
    requires FirstWritten(base) && D.Valid(next.envelope) && next.generation == GENERATION
    requires next.envelope.commit.state.subscription == Some("production") && next.envelope.commit.sequence == 2
    requires next.admissions == base.admissions[3 := AdmissionOf(APRIL_CAPTURE, AUTHORITY, 1)]
    ensures OuterValid(next, GENERATION, 1) <==> AdmissionsMatch(next.admissions, next.envelope.commit.state.snapshots)
  {
    hide MayWrite, Healthy, StateAccepted, SequencesBelow, MarkOf, D.Valid, D.HasOpenEntry, AdmissionsMatch;
    assert base.admissions.Keys == {2};
    assert next.admissions.Keys == {2, 3};
    assert |next.admissions| == |next.admissions.Keys|;
  }

  lemma MarchIsDropped(base: Outer, next: Outer)
    requires FirstWritten(base) && ClockAccepted(BEFORE) && Follows(next, Some(base), OVER_MONTH_END, [APRIL], GENERATION)
    ensures 2 !in next.envelope.commit.state.snapshots
  {
    hide MayWrite, OuterValid, Healthy, StateAccepted, SequencesBelow, MarkOf, D.HasOpenEntry, AdmittedUpTo, Evaluate,
      ClockAccepted, Periods;
    SpringMonths();
    var marks := base.envelope.commit.state.snapshots;
    MarksOfResult(ManifestFor(POLICY, [APRIL]), POLICY, AFTER, base.envelope.commit.state);
    assert 2 !in MarksAfter(marks, [APRIL], 0, "m1", AFTER);
  }

  /** On the same object and with the same capture, a run may write if both readings of the clock lie in
      April. If a month ends between them it comes up with a valid ledger, but March is still admitted and
      no longer in that ledger: there is nothing to write. */
  lemma MonthEndRefuses(base: Outer) returns (next: Outer)
    requires FirstWritten(base)
    ensures CanWrite(Some(base), IN_TIME, GENERATION, 1)
    ensures ClockAccepted(BEFORE) && Follows(next, Some(base), OVER_MONTH_END, [APRIL], GENERATION) && D.Valid(next.envelope)
    ensures 2 in next.admissions && 2 !in next.envelope.commit.state.snapshots
    ensures !CanWrite(Some(base), OVER_MONTH_END, GENERATION, 1)
  {
    hide Follows, Evaluate, Healthy, StateAccepted, SequencesBelow, MarkOf, ClockAccepted, Periods, D.HasOpenEntry,
      D.Valid, OuterValid, CanWrite, MayWrite;
    SpringMonths();
    BaseMatches(base);
    var written := AprilFollows(base, IN_TIME);
    AdmissionsStayInStep(written, Some(base), IN_TIME, [APRIL], GENERATION);
    GenerationOf(written, base, IN_TIME);
    AprilIsValid(base, written);
    AprilExactly(base, IN_TIME, written);
    next := AprilFollows(base, OVER_MONTH_END);
    MarchIsDropped(base, next);
    GenerationOf(next, base, OVER_MONTH_END);
    AprilIsValid(base, next);
    AprilExactly(base, OVER_MONTH_END, next);
  }

  lemma GenerationOf(next: Outer, base: Outer, inputs: Inputs)
    requires ClockAccepted(inputs.admitted) && Follows(next, Some(base), inputs, [APRIL], GENERATION)
    ensures next.generation == GENERATION
  {
  }

  // ---------- the runs ----------

  const CALM := Network(Answered, Answered, [], Answered)

  lemma FirstIsTheOnlyOne(a: Outer, b: Outer)
    requires FirstWritten(a) && MayWrite(b, None, FIRST_RUN, GENERATION, 1)
    ensures a == b
  {
    hide Evaluate, OuterValid, Healthy, StateAccepted, SequencesBelow, MarkOf, D.HasOpenEntry, AdmittedUpTo, EvaluatesTo,
      ClockAccepted, Periods;
    FirstAdmits();
    assert InPeriods(AdmissionsIn(None), Periods(NOW)) == map[];
    MayWriteOnly(a, None, FIRST_RUN, map[2 := AdmissionOf(MARCH_CAPTURE, AUTHORITY, 1)], [MARCH], GENERATION, 1);
    MayWriteOnly(b, None, FIRST_RUN, map[2 := AdmissionOf(MARCH_CAPTURE, AUTHORITY, 1)], [MARCH], GENERATION, 1);
    EvaluatesOnce(ManifestFor(POLICY, [MARCH]), FIRST_RUN, None, a.envelope, b.envelope);
  }

  method RunFirst() returns (wrote: bool, store: BlobCASStore, ghost base: Outer)
    ensures fresh(store) && fresh(store.blob) && wrote && FirstWritten(base)
    ensures store.blob.history == [base] && store.generation == GENERATION && store.minimumSequence == 1 && store.CacheFaithful()
  {
    hide CanWrite, MayWrite, OuterValid, FirstWritten, OutcomeOf, ClockAccepted;
    var blob := new Blob();
    store := new BlobCASStore(blob, GENERATION, 1, true);
    base := FirstIsWritten();
    CanWriteIt(base);
    ghost var next, applied;
    wrote, next, applied := RunOnce(store, FIRST_RUN, Retention(true, true), CALM);
    FirstIsTheOnlyOne(base, next);
    BaseIsReadable(store, base);
  }

  /** Two undisturbed runs on a new store. The second writes exactly if no month ends between its two
      readings of the clock; otherwise the store is left as the first run wrote it. */
  method RunTwice(second: Inputs) returns (wroteFirst: bool, wroteSecond: bool, store: BlobCASStore)
    ensures fresh(store) && wroteFirst
    ensures second == IN_TIME ==> wroteSecond && |store.blob.history| == 2
    ensures second == OVER_MONTH_END ==> !wroteSecond && |store.blob.history| == 1
  {
    hide CanWrite, MayWrite, OuterValid, FirstWritten, OutcomeOf, Follows, D.Valid;
    ghost var base, next, applied;
    wroteFirst, store, base := RunFirst();
    next := MonthEndRefuses(base);
    BaseIsReadable(store, base);
    wroteSecond, next, applied := RunOnce(store, second, Retention(true, true), CALM);
  }

  lemma CanWriteIt(base: Outer)
    requires FirstWritten(base)
    ensures CanWrite(None, FIRST_RUN, GENERATION, 1)
  {
    hide MayWrite, OuterValid, Healthy, StateAccepted, SequencesBelow, MarkOf;
  }

  lemma BaseIsReadable(store: BlobCASStore, base: Outer)
    requires FirstWritten(base)
    ensures base.envelope.commit.sequence == 1 && FloorOf(Some(base), store.minimumSequence) == 1
    ensures store.generation == GENERATION && store.minimumSequence == 1 ==> Readable(store, Some(base))
  {
    hide MayWrite, OuterValid, Healthy, StateAccepted, SequencesBelow, MarkOf;
  }
}
