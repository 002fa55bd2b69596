/** A run over the real store on the small published ledger: two dispatch calls with the same event,
    owner and time both send on one attempt. */
module ReconcileWitness {
  import opened Common
  import opened LedgerTypes
  import opened LedgerAdmission
  import opened LedgerWitness
  import opened Ledger
  import opened Dispatch
  import opened DispatchSafety
  import opened DispatchOwners
  import opened DispatchWorker
  import opened DispatchWitness
  import R = DispatchReconcile

  lemma HappensLast(p: R.Physical, events: seq<R.Happening>, e: R.Happening)
    ensures R.Happens(p, events + [e]) == R.Happen(R.Happens(p, events), e)
  {
    hide R.Happen;
    assert (events + [e])[..|events|] == events;
  }

  lemma HappensTwo(p: R.Physical, a: R.Happening, b: R.Happening)
    ensures R.Happens(p, [a, b]) == R.Happen(R.Happen(p, a), b)
  {
    hide R.Happen;
    assert R.Happens(p, []) == p;
    HappensLast(p, [], a);
    HappensLast(p, [a], b);
    assert [] + [a] == [a] && [a] + [b] == [a, b];
  }

  /** Nothing is under way, and two workers are about to make the same write. */
  ghost predicate BothWrite(p: R.Physical, worker: Worker) {
    && p.flights == map[] && p.strays == [] && GoesOn(worker) && WellFormed(worker)
    && IsAt(p.world, 1, worker) && IsAt(p.world, 2, worker)
    && TagMatches(p.world, ExpectedOf(worker)) && p.world.store.Some? && p.world.store.value.tag != p.world.nextTag
  }

  /** Both requests travel, the first is applied and heard of, the second is refused and its answer lost. */
  function BothRequests(): seq<R.Happening> {
    [R.Submit(1), R.Submit(2)] + [R.Land(1), R.Land(2)] + [R.Hear(1), R.ReadBack(2)]
  }

  /** Both believe that the write was theirs. */
  ghost function BothBelieve(p: R.Physical, worker: Worker): R.Physical
    requires BothWrite(p, worker)
  {
    var document, next := DocumentOf(worker), AfterSuccess(worker, p.world.nextTag);
    R.Physical(Put(Put(Installed(p.world, document), 1, next), 2, next), map[], [])
  }

  lemma BothSubmit(p: R.Physical, worker: Worker)
    requires BothWrite(p, worker)
    ensures R.Happens(p, [R.Submit(1), R.Submit(2)]) == R.Physical(
        p.world, map[1 := R.Flight(worker, R.Flying, true), 2 := R.Flight(worker, R.Flying, true)], [])
  {
    hide DocumentOf, WellFormed, R.Happens, Apply, R.GivenUp, R.ReadBackStep, R.Landed;
    HappensTwo(p, R.Submit(1), R.Submit(2));
  }

  lemma OneLands(p: R.Physical, worker: Worker, f: R.Flight, g: R.Flight)
    requires IsWrite(worker) && WellFormed(worker) && p.flights == map[1 := f, 2 := g]
    requires f == g == R.Flight(worker, R.Flying, true)
    requires TagMatches(p.world, ExpectedOf(worker)) && p.world.store.Some?
    requires p.world.store.value.tag != p.world.nextTag
    ensures R.Happens(p, [R.Land(1), R.Land(2)]) == p.(
      world := Installed(p.world, DocumentOf(worker)),
      flights := map[1 := f.(fate := R.Applied(p.world.nextTag)), 2 := g.(fate := R.Turned)])
  {
    hide DocumentOf, WellFormed, R.Happens, R.Happen, IsWrite;
    HappensTwo(p, R.Land(1), R.Land(2));
    LandOf(p, 1);
    var q := R.Happen(p, R.Land(1));
    LandOf(q, 2);
  }

  lemma LandOf(p: R.Physical, id: nat)
    requires id in p.flights && R.FlightFits(p.flights[id]) && p.flights[id].fate.Flying?
    ensures R.Happen(p, R.Land(id)) == R.Landed(p, p.flights[id]).0.(flights := p.flights[id := R.Landed(p, p.flights[id]).1])
  {
    hide DocumentOf, IsWrite, WellFormed, Apply;
  }

  lemma OneHears(p: R.Physical, worker: Worker, f: R.Flight, g: R.Flight)
    requires IsWrite(worker) && WellFormed(worker) && p.flights == map[1 := f, 2 := g]
    requires GoesOn(worker) && p.world.store.Some? && p.world.store.value.doc == DocumentOf(worker)
    requires f == R.Flight(worker, R.Applied(p.world.store.value.tag), true)
    requires g == R.Flight(worker, R.Turned, true)
    ensures var next := AfterSuccess(worker, p.world.store.value.tag);
      R.Happens(p, [R.Hear(1), R.ReadBack(2)]) == p.(world := Put(Put(p.world, 1, next), 2, next), flights := map[])
  {
    hide DocumentOf, AfterSuccess, WellFormed, R.Happens, Apply, R.GivenUp, R.Landed, IsWrite;
    HappensTwo(p, R.Hear(1), R.ReadBack(2));
    assert map[1 := f, 2 := g] - {1} == map[2 := g];
    assert map[2 := g] - {2} == map[];
  }

  lemma BothSucceed(p: R.Physical, worker: Worker)
    requires BothWrite(p, worker)
    ensures R.Happens(p, BothRequests()) == BothBelieve(p, worker)
  {
    hide DocumentOf, AfterSuccess, WellFormed, R.Happens, R.Happen, ExpectedOf;
    BothSubmit(p, worker);
    var p2 := R.Happens(p, [R.Submit(1), R.Submit(2)]);
    OneLands(p2, worker, p2.flights[1], p2.flights[2]);
    var p4 := R.Happens(p2, [R.Land(1), R.Land(2)]);
    OneHears(p4, worker, p4.flights[1], p4.flights[2]);
    R.HappensFurther(p, [R.Submit(1), R.Submit(2)], [R.Land(1), R.Land(2)]);
    R.HappensFurther(p, [R.Submit(1), R.Submit(2)] + [R.Land(1), R.Land(2)], [R.Hear(1), R.ReadBack(2)]);
  }

  // ---------- the run ----------

  /** A publish over the real store. */
  function PublishEvents(): seq<R.Happening> {
    [R.Local(BeginPublish(0, FULL, POLICY, NOW)), R.Local(Step(0, Proceed))] + [R.Submit(0), R.Land(0)] + [R.Hear(0)]
  }

  lemma PublishHappens(doc: Document, e: EventId)
    requires Published(doc, e)
    ensures var q := R.Happens(R.IDLE, PublishEvents());
      && q.world.store == Some(Cell(doc, 0)) && q.world.nextTag == 1 && q.world.sends == [] && q.world.workers.Keys == {0}
      && q.flights == map[] && q.strays == []
  {
    hide Apply, Evaluate, Dispatch.Valid, PublishRead, NextDocument, Sendable, FreshForSend, Eligible, R.Happens;
    var begin := BeginPublish(0, FULL, POLICY, NOW);
    var w1 := Apply(START, begin);
    BeginPublishApplies(START, 0, FULL, POLICY, NOW);
    var w2 := Apply(w1, Step(0, Proceed));
    PublishReadApplies(w1, 0, FULL, POLICY, NOW);
    PublishReadIs(w1, FULL, POLICY, NOW);
    KeysAfter(START, begin);
    KeysAfter(w1, Step(0, Proceed));
    HappensTwo(R.IDLE, R.Local(begin), R.Local(Step(0, Proceed)));
    var p2 := R.Happens(R.IDLE, [R.Local(begin), R.Local(Step(0, Proceed))]);
    assert p2 == R.Physical(w2, map[], []);
    HappensTwo(p2, R.Submit(0), R.Land(0));
    var p4 := R.Happens(p2, [R.Submit(0), R.Land(0)]);
    R.HappensFurther(R.IDLE, [R.Local(begin), R.Local(Step(0, Proceed))], [R.Submit(0), R.Land(0)]);
    HappensLast(R.IDLE, [R.Local(begin), R.Local(Step(0, Proceed))] + [R.Submit(0), R.Land(0)], R.Hear(0));
  }

  /** Two dispatches with the same job, up to their claims. */
  function BothBegin(job: Job): seq<R.Happening> {
    [R.Local(BeginDispatch(1, job)), R.Local(Step(1, Proceed))] + [R.Local(BeginDispatch(2, job)), R.Local(Step(2, Proceed))]
  }

  lemma OneBegins(p: R.Physical, id: nat, job: Job, read: Cell)
    requires p.flights == map[] && id !in p.world.workers && p.world.store == Some(read) && Dispatch.Valid(read.doc)
    requires JobAccepted(job) && MayClaim(read.doc, job) && Dispatch.Valid(ClaimedDocument(read.doc, job))
    ensures R.Happens(p, [R.Local(BeginDispatch(id, job)), R.Local(Step(id, Proceed))])
         == p.(world := Put(p.world, id, ClaimWrite(job, read)))
  {
    hide Dispatch.Valid, ClockAccepted, MayClaim, ClaimedDocument, DispatchRead, R.Happens;
    HappensTwo(p, R.Local(BeginDispatch(id, job)), R.Local(Step(id, Proceed)));
    MayClaimDecides(Put(p.world, id, Dispatching(job)), job, read);
  }

  lemma BothDecide(p: R.Physical, job: Job, read: Cell)
    requires p.flights == map[] && p.world.workers.Keys == {0} && p.world.store == Some(read)
    requires Dispatch.Valid(read.doc)
    requires JobAccepted(job) && MayClaim(read.doc, job) && Dispatch.Valid(ClaimedDocument(read.doc, job))
    ensures R.Happens(p, BothBegin(job)) == p.(world := Put(Put(p.world, 1, ClaimWrite(job, read)), 2, ClaimWrite(job, read)))
  {
    hide Dispatch.Valid, ClockAccepted, MayClaim, ClaimedDocument, R.Happens;
    OneBegins(p, 1, job, read);
    OneBegins(p.(world := Put(p.world, 1, ClaimWrite(job, read))), 2, job, read);
    R.HappensFurther(p, [R.Local(BeginDispatch(1, job)), R.Local(Step(1, Proceed))], [R.Local(BeginDispatch(2, job)), R.Local(Step(2, Proceed))]);
  }

  /** Both look up the event and find it absent; later, both send. */
  function BothStep(answer: Answer): seq<R.Happening> {
    [R.Local(Step(1, answer)), R.Local(Step(2, answer))]
  }

  lemma BothLook(p: R.Physical, job: Job, claimed: Cell)
    requires p.flights == map[] && IsAt(p.world, 1, Looking(job, claimed)) && IsAt(p.world, 2, Looking(job, claimed))
    requires JobAccepted(job) && job.event in claimed.doc.journal && Sendable(claimed.doc, job)
    requires Entry(claimed.doc, job).attempts < MAX_ATTEMPTS && Dispatch.Valid(ReservedDocument(claimed.doc, job))
    ensures var q := R.Happens(p, BothStep(Found(Absent)));
      && q == p.(world := q.world) && q.world.store == p.world.store && q.world.nextTag == p.world.nextTag && q.world.sends == p.world.sends
      && IsAt(q.world, 1, ReserveWrite(job, claimed)) && IsAt(q.world, 2, ReserveWrite(job, claimed))
  {
    hide Apply, Dispatch.Valid, ClockAccepted, FreshForSend, Eligible, ReservedDocument, AfterLookup, R.Happens;
    HappensTwo(p, R.Local(Step(1, Found(Absent))), R.Local(Step(2, Found(Absent))));
    AfterLookupIs(job, claimed, Absent);
    LookupApplies(p.world, 1, job, claimed, Absent);
    var w := Apply(p.world, Step(1, Found(Absent)));
    ApplyLeavesOthers(p.world, Step(1, Found(Absent)), 2);
    LookupApplies(w, 2, job, claimed, Absent);
    ApplyLeavesOthers(w, Step(2, Found(Absent)), 1);
  }

  lemma BothSend(p: R.Physical, job: Job, reserved: Document, claim: nat)
    requires p.flights == map[] && IsAt(p.world, 1, Sending(job, reserved, claim))
    requires IsAt(p.world, 2, Sending(job, reserved, claim))
    requires JobAccepted(job) && job.event in reserved.journal
    ensures var q := R.Happens(p, BothStep(Proceed));
      && q.world.store == p.world.store && |q.world.sends| == |p.world.sends| + 2 && q.world.sends[..|p.world.sends|] == p.world.sends
      && forall i :: |p.world.sends| <= i < |q.world.sends| ==> q.world.sends[i].event == job.event
  {
    hide Apply, ClockAccepted, FreshForSend, Eligible, R.Happens;
    HappensTwo(p, R.Local(Step(1, Proceed)), R.Local(Step(2, Proceed)));
    SendApplies(p.world, 1, job, reserved, claim);
    var w := Apply(p.world, Step(1, Proceed));
    ApplyLeavesOthers(p.world, Step(1, Proceed), 2);
    SendApplies(w, 2, job, reserved, claim);
  }

  // ---------- which calls were begun ----------

  predicate NoCalls(events: seq<R.Happening>) {
    forall k :: 0 <= k < |events| ==> !(events[k].Local? && events[k].action.BeginDispatch?)
  }

  lemma DispatchedLast(events: seq<R.Happening>, e: R.Happening)
    ensures R.Dispatched(events + [e]) == R.CallsOf(R.Happens(R.IDLE, events), R.Dispatched(events), e)
  {
    hide R.CallsOf, R.Happens;
    assert (events + [e])[..|events|] == events;
  }

  lemma {:induction false} NoCallsAdded(first: seq<R.Happening>, then_: seq<R.Happening>)
    requires NoCalls(then_)
    ensures R.Dispatched(first + then_) == R.Dispatched(first)
    decreases |then_|
  {
    hide R.Happens;
    var n := |then_| - 1;
    if then_ == [] {
      assert first + then_ == first;
    } else {
      NoCallsAdded(first, then_[..n]);
      DispatchedLast(first + then_[..n], then_[n]);
      assert first + then_ == first + then_[..n] + [then_[n]];
    }
  }

  lemma OneCallAdded(events: seq<R.Happening>, id: nat, job: Job)
    requires var p := R.Happens(R.IDLE, events); id !in p.world.workers && id !in p.flights
    requires JobAccepted(job)
    ensures R.Dispatched(events + [R.Local(BeginDispatch(id, job)), R.Local(Step(id, Proceed))]) == R.Dispatched(events)[id := job]
  {
    hide R.Happens;
    DispatchedLast(events, R.Local(BeginDispatch(id, job)));
    NoCallsAdded(events + [R.Local(BeginDispatch(id, job))], [R.Local(Step(id, Proceed))]);
    assert events + [R.Local(BeginDispatch(id, job)), R.Local(Step(id, Proceed))]
        == events + [R.Local(BeginDispatch(id, job))] + [R.Local(Step(id, Proceed))];
  }

  lemma BothAreCalls(job: Job, read: Cell)
    requires var p := R.Happens(R.IDLE, PublishEvents());
      p.flights == map[] && p.world.workers.Keys == {0} && p.world.store == Some(read)
    requires Dispatch.Valid(read.doc)
    requires JobAccepted(job) && MayClaim(read.doc, job) && Dispatch.Valid(ClaimedDocument(read.doc, job))
    ensures R.Dispatched(PublishEvents() + BothBegin(job)) == map[1 := job, 2 := job]
  {
    hide R.Happens, R.Dispatched, Dispatch.Valid, MayClaim, ClaimedDocument, ClockAccepted;
    var p := R.Happens(R.IDLE, PublishEvents());
    var one, two := [R.Local(BeginDispatch(1, job)), R.Local(Step(1, Proceed))], [R.Local(BeginDispatch(2, job)), R.Local(Step(2, Proceed))];
    assert R.Dispatched([]) == map[] by { NothingDispatched(); }
    assert [] + PublishEvents() == PublishEvents();
    NoCallsAdded([], PublishEvents());
    OneCallAdded(PublishEvents(), 1, job);
    OneBegins(p, 1, job, read);
    R.HappensFurther(R.IDLE, PublishEvents(), one);
    OneCallAdded(PublishEvents() + one, 2, job);
    assert PublishEvents() + BothBegin(job) == PublishEvents() + one + two;
  }

  lemma NothingDispatched()
    ensures R.Dispatched([]) == map[]
  {
  }

  lemma NoMoreCalls(first: seq<R.Happening>)
    ensures R.Dispatched(first + BothRequests() + BothStep(Found(Absent)) + BothRequests() + BothStep(Proceed)) == R.Dispatched(first)
  {
    hide R.Dispatched;
    NoCallsAdded(first, BothRequests());
    NoCallsAdded(first + BothRequests(), BothStep(Found(Absent)));
    NoCallsAdded(first + BothRequests() + BothStep(Found(Absent)), BothRequests());
    NoCallsAdded(first + BothRequests() + BothStep(Found(Absent)) + BothRequests(), BothStep(Proceed));
  }

  lemma TwoSendsCount(sends: seq<Send>, e: EventId)
    requires |sends| == 2 && sends[0].event == e && sends[1].event == e
    ensures SendCount(sends, e) == 2
  {
    var one := sends[..1];
    assert one[..0] == [];
    assert SendCount(one, e) == 1;
  }

  /** Equal content is not proof of an own write: two calls for one event with the same owner and clock
      intend the same documents, both take them for theirs, and both send although one attempt was
      written. */
  lemma SameCallTwiceSendsTwice() returns (events: seq<R.Happening>, job: Job)
    ensures R.Dispatched(events) == map[1 := job, 2 := job]
    ensures var w := R.Happens(R.IDLE, events).world;
      SendCount(w.sends, job.event) == 2 && Attempts(w, job.event) == 1
  {
    hide Evaluate, Dispatch.Valid, FreshForSend, Eligible, ClockAccepted, Sendable, MayClaim, R.Happens,
      BothRequests, PublishEvents, BothBegin, BothStep, NextDocument, ClaimedDocument, ReservedDocument,
      SendCount, R.Dispatched;
    var doc, e := SmallLedger();
    job := Job(e, "worker", NOW);
    SendableByAll(doc, e, "worker");
    ClaimIsSendable(doc, job);
    PublishHappens(doc, e);
    var p0 := R.Happens(R.IDLE, PublishEvents());
    BothDecide(p0, job, Cell(doc, 0));
    BothAreCalls(job, Cell(doc, 0));
    var p1 := R.Happens(p0, BothBegin(job));
    var claim := ClaimWrite(job, Cell(doc, 0));
    BothSucceed(p1, claim);
    var p2 := R.Happens(p1, BothRequests());
    var claimed := Cell(ClaimedDocument(doc, job), 1);
    BothLook(p2, job, claimed);
    var p3 := R.Happens(p2, BothStep(Found(Absent)));
    BothSucceed(p3, ReserveWrite(job, claimed));
    var p4 := R.Happens(p3, BothRequests());
    BothSend(p4, job, ReservedDocument(claimed.doc, job), 1);
    var p5 := R.Happens(p4, BothStep(Proceed));
    TwoSendsCount(p5.world.sends, e);
    R.HappensFurther(R.IDLE, PublishEvents(), BothBegin(job));
    R.HappensFurther(R.IDLE, PublishEvents() + BothBegin(job), BothRequests());
    R.HappensFurther(R.IDLE, PublishEvents() + BothBegin(job) + BothRequests(), BothStep(Found(Absent)));
    R.HappensFurther(R.IDLE, PublishEvents() + BothBegin(job) + BothRequests() + BothStep(Found(Absent)), BothRequests());
    R.HappensFurther(R.IDLE, PublishEvents() + BothBegin(job) + BothRequests() + BothStep(Found(Absent)) + BothRequests(), BothStep(Proceed));
    NoMoreCalls(PublishEvents() + BothBegin(job));
    events := PublishEvents() + BothBegin(job) + BothRequests() + BothStep(Found(Absent)) + BothRequests() + BothStep(Proceed);
  }
}
