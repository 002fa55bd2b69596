/** The protocol over the real store, which takes a write whose answer was lost for its own when it
    reads back the document it meant to write. Requests travel on their own: one may land long after
    its worker gave up. As long as no two dispatch calls share event, owner and time, every run over this
    store is a run of the protocol. */
module DispatchReconcile {
  import opened LedgerTypes
  import opened LedgerAdmission
  import opened Dispatch
  import opened DispatchSafety
  import opened DispatchOwners
  import opened DispatchWorker

  /** What has become of a request: under way, applied under a tag, or refused for its expected tag. */
  datatype Fate = Flying | Applied(tag: nat) | Turned

  /** A worker's latest request: the state it was made in, its fate, and whether the worker still waits
      for its answer. */
  datatype Flight = Flight(worker: Worker, fate: Fate, waiting: bool)

  /** A world whose workers wait for requests; and requests their workers no longer know of. */
  datatype Physical = Physical(world: World, flights: map<nat, Flight>, strays: seq<Flight>)

  const IDLE := Physical(START, map[], [])

  datatype Happening =
    | Local(action: Action)
    | Submit(id: nat)
    | Land(id: nat)
    | LandStray(n: nat)
    | Hear(id: nat)
    | ReadBack(id: nat)

  predicate FlightFits(f: Flight) {
    IsWrite(f.worker) && WellFormed(f.worker)
  }

  // ---------- steps ----------

  function Moved(p: Physical, id: nat, worker: Worker): Physical {
    p.(world := Put(p.world, id, worker))
  }

  /** The world after a request arrived, and the request's fate. */
  type Arrival = (Physical, Flight)

  /** The request reaches the store, which applies it only under the expected tag. */
  function Landed(p: Physical, f: Flight): Arrival
    requires FlightFits(f)
  {
    if TagMatches(p.world, ExpectedOf(f.worker))
    then (p.(world := Installed(p.world, DocumentOf(f.worker))), f.(fate := Applied(p.world.nextTag)))
    else (p, f.(fate := Turned))
  }

  /** The worker stops waiting; its request is not affected. */
  function GivenUp(p: Physical, id: nat): Physical
    requires id in p.flights
  {
    Moved(p, id, Done).(flights := p.flights[id := p.flights[id].(waiting := false)])
  }

  predicate Matching(p: Physical, f: Flight)
    requires FlightFits(f)
  {
    p.world.store.Some? && p.world.store.value.doc == DocumentOf(f.worker)
  }

  /** The answer was lost: a worker with more to do goes on if the store now holds the document it meant
      to write. */
  function ReadBackStep(p: Physical, id: nat): Physical
    requires id in p.flights && FlightFits(p.flights[id])
  {
    var f := p.flights[id];
    if Matching(p, f) && GoesOn(f.worker) then
      Moved(p, id, AfterSuccess(f.worker, p.world.store.value.tag)).(
        flights := p.flights - {id}, strays := if f.fate.Flying? then p.strays + [f] else p.strays)
    else GivenUp(p, id)
  }

  ghost function Happen(p: Physical, e: Happening): Physical {
    match e
    case Local(a) =>
      var id := ActorOf(a);
      if id in p.flights then (if a.Crash? && p.flights[id].waiting then GivenUp(p, id) else p)
      else if a.Step? && id in p.world.workers && IsWrite(p.world.workers[id]) then p
      else p.(world := Apply(p.world, a))
    case Submit(id) =>
      if id in p.world.workers && id !in p.flights && IsWrite(p.world.workers[id]) && WellFormed(p.world.workers[id])
      then p.(flights := p.flights[id := Flight(p.world.workers[id], Flying, true)])
      else p
    case Land(id) =>
      if id in p.flights && FlightFits(p.flights[id]) && p.flights[id].fate.Flying? then
        var (q, f) := Landed(p, p.flights[id]);
        q.(flights := q.flights[id := f])
      else p
    case LandStray(n) =>
      if n < |p.strays| && FlightFits(p.strays[n]) && p.strays[n].fate.Flying? then
        var (q, f) := Landed(p, p.strays[n]);
        q.(strays := q.strays[n := f])
      else p
    case Hear(id) =>
      if id in p.flights && FlightFits(p.flights[id]) && p.flights[id].waiting && !p.flights[id].fate.Flying? then
        var f := p.flights[id];
        Moved(p, id, if f.fate.Applied? then AfterSuccess(f.worker, f.fate.tag) else AfterConflict(f.worker)).(
          flights := p.flights - {id})
      else p
    case ReadBack(id) =>
      if id in p.flights && FlightFits(p.flights[id]) && p.flights[id].waiting then ReadBackStep(p, id) else p
  }

  /** Any list of events over the real store. */
  ghost function Happens(p: Physical, events: seq<Happening>): Physical
    decreases |events|
  {
    if events == [] then p else Happen(Happens(p, events[..|events| - 1]), events[|events| - 1])
  }

  lemma HappensOne(p: Physical, e: Happening)
    ensures Happens(p, [e]) == Happen(p, e)
  {
    hide Happen;
    assert [e][..0] == [];
    assert Happens(p, []) == p;
  }

  lemma {:induction false} HappensFurther(p: Physical, first: seq<Happening>, then_: seq<Happening>)
    ensures Happens(p, first + then_) == Happens(Happens(p, first), then_)
    decreases |then_|
  {
    hide Happen;
    if then_ == [] {
      assert first + then_ == first;
    } else {
      HappensFurther(p, first, then_[..|then_| - 1]);
      assert (first + then_)[..|first + then_| - 1] == first + then_[..|then_| - 1];
    }
  }

  // ---------- the protocol's view ----------

  /** What the protocol takes a worker for: one whose request is under way has not written yet; one whose
      request was applied has, whether it knows or not. */
  function Seen(p: Physical, id: nat): Worker
    requires id in p.world.workers && (id in p.flights ==> FlightFits(p.flights[id]))
  {
    if id !in p.flights then p.world.workers[id]
    else
      var f := p.flights[id];
      match f.fate
      case Flying => f.worker
      case Applied(tag) => if f.waiting then AfterSuccess(f.worker, tag) else Done
      case Turned => if f.waiting then f.worker else Done
  }

  predicate FlightsFit(p: Physical) {
    forall id :: id in p.flights ==> id in p.world.workers && FlightFits(p.flights[id])
  }

  function View(p: Physical): World
    requires FlightsFit(p)
  {
    p.world.(workers := map id | id in p.world.workers :: Seen(p, id))
  }

  // ---------- each event is a step, or none ----------

  ghost predicate SameElsewhere(w: World, v: World, id: nat) {
    v == w.(workers := v.workers) && (id in w.workers <==> id in v.workers) && (id in w.workers ==> w.workers[id] == v.workers[id])
  }

  /** A step that does not write looks at nothing but its own worker and the store. */
  lemma WorkerStepIsLocal(w: World, v: World, id: nat, worker: Worker, answer: Answer)
    requires SameElsewhere(w, v, id) && IsAt(w, id, worker) && !IsWrite(worker) && WellFormed(worker)
    ensures var w1, v1 := Stepped(w, id, worker, answer), Stepped(v, id, worker, answer);
      && w1 == w.(workers := w1.workers, sends := w1.sends, evidence := w1.evidence, absences := w1.absences)
      && v1 == w1.(workers := v1.workers)
      && id in w1.workers && w1.workers == w.workers[id := w1.workers[id]] && v1.workers == v.workers[id := w1.workers[id]]
  {
    hide Valid, ClockAccepted, FreshForSend, Eligible, AfterLookup, PublishedDocument, Decide, ReservedDocument,
      RecordedDocument, HasOpenEntry;
  }

  lemma StepIsLocal(w: World, v: World, a: Action)
    requires SameElsewhere(w, v, ActorOf(a))
    requires a.Step? && a.id in w.workers ==> !IsWrite(w.workers[a.id])
    ensures var id, w1, v1 := ActorOf(a), Apply(w, a), Apply(v, a);
      && SameElsewhere(w1, v1, id)
      && (forall k :: k != id ==> (k in w1.workers <==> k in w.workers) && (k in v1.workers <==> k in v.workers))
      && (forall k :: k != id && k in w.workers ==> w1.workers[k] == w.workers[k])
      && (forall k :: k != id && k in v.workers ==> v1.workers[k] == v.workers[k])
      && (id in w.workers ==> id in w1.workers)
      && w1.store == w.store && w1.nextTag == w.nextTag
  {
    hide Stepped, WellFormed, IsWrite, ClockAccepted;
    if a.Step? && a.id in w.workers && WellFormed(w.workers[a.id]) {
      WorkerStepIsLocal(w, v, a.id, w.workers[a.id], a.answer);
    }
  }

  lemma LocalIsStep(p: Physical, a: Action)
    requires FlightsFit(p) && ActorOf(a) !in p.flights
    requires a.Step? && a.id in p.world.workers ==> !IsWrite(p.world.workers[a.id])
    ensures var q := p.(world := Apply(p.world, a));
      FlightsFit(q) && q.strays == p.strays && View(q) == Apply(View(p), a)
  {
    hide Apply, FlightFits, IsWrite;
    var q := p.(world := Apply(p.world, a));
    StepIsLocal(p.world, View(p), a);
    assert FlightsFit(q);
    var v := Apply(View(p), a);
    forall k ensures k in View(q).workers <==> k in v.workers
      ensures k in v.workers ==> View(q).workers[k] == v.workers[k]
    {
      if k != ActorOf(a) && k in p.world.workers {
        assert Seen(q, k) == Seen(p, k);
      }
    }
    assert View(q).workers == v.workers;
  }

  /** A request that lands is the protocol's write, heard of or not. */
  lemma LandIsStep(p: Physical, id: nat)
    requires FlightsFit(p) && id in p.flights && p.flights[id].fate.Flying?
    requires TagMatches(p.world, ExpectedOf(p.flights[id].worker))
    ensures var q := Happen(p, Land(id));
      FlightsFit(q) && q.strays == p.strays && View(q) == Apply(View(p), Step(id, if p.flights[id].waiting then Wrote else WroteUnanswered))
  {
    hide Apply, DocumentOf, AfterSuccess, WellFormed, GivenUp, ReadBackStep;
    var f := p.flights[id];
    WriteSteps(View(p), id, f.worker);
    var q := Happen(p, Land(id));
    assert View(q).workers == Apply(View(p), Step(id, if f.waiting then Wrote else WroteUnanswered)).workers;
  }

  lemma TurnedIsStepOrNone(p: Physical, id: nat)
    requires FlightsFit(p) && id in p.flights && p.flights[id].fate.Flying?
    requires !TagMatches(p.world, ExpectedOf(p.flights[id].worker))
    ensures var q := Happen(p, Land(id));
      FlightsFit(q) && q.strays == p.strays && View(q) == if p.flights[id].waiting then View(p) else Apply(View(p), Crash(id))
  {
    hide DocumentOf, AfterSuccess, WellFormed, GivenUp, ReadBackStep, Stepped;
    var q := Happen(p, Land(id));
    if p.flights[id].waiting {
      assert View(q).workers == View(p).workers;
    } else {
      assert View(q).workers == Apply(View(p), Crash(id)).workers;
    }
  }

  lemma SubmitIsNoStep(p: Physical, id: nat)
    requires FlightsFit(p)
    ensures var q := Happen(p, Submit(id));
      FlightsFit(q) && q.strays == p.strays && View(q) == View(p)
  {
    hide DocumentOf, AfterSuccess, WellFormed, GivenUp, ReadBackStep, Apply, Landed;
    assert View(Happen(p, Submit(id))).workers == View(p).workers;
  }

  lemma HearIsStepOrNone(p: Physical, id: nat)
    requires FlightsFit(p) && id in p.flights && p.flights[id].waiting && !p.flights[id].fate.Flying?
    ensures var q := Happen(p, Hear(id));
      FlightsFit(q) && q.strays == p.strays && View(q) == if p.flights[id].fate.Applied? then View(p) else Apply(View(p), Step(id, Refused))
  {
    hide Apply, DocumentOf, AfterSuccess, AfterConflict, WellFormed, GivenUp, ReadBackStep, Landed;
    var f := p.flights[id];
    var q := Happen(p, Hear(id));
    if f.fate.Applied? {
      assert View(q).workers == View(p).workers;
    } else {
      WriteSteps(View(p), id, f.worker);
      assert View(q).workers == Apply(View(p), Step(id, Refused)).workers;
    }
  }

  /** Giving up while the request is under way changes nothing yet; afterwards it is a crash. */
  lemma GivingUpIsCrashOrNone(p: Physical, id: nat)
    requires FlightsFit(p) && id in p.flights && p.flights[id].waiting
    ensures var q := GivenUp(p, id);
      FlightsFit(q) && q.strays == p.strays && View(q) == if p.flights[id].fate.Flying? then View(p) else Apply(View(p), Crash(id))
  {
    hide DocumentOf, AfterSuccess, WellFormed, Stepped;
    var q := GivenUp(p, id);
    if p.flights[id].fate.Flying? {
      assert View(q).workers == View(p).workers;
    } else {
      assert View(q).workers == Apply(View(p), Crash(id)).workers;
    }
  }

  /** A worker that goes on after reading its applied document back holds it under the tag it read. */
  lemma ReadBackIsRereadOrNone(p: Physical, id: nat)
    requires FlightsFit(p) && id in p.flights && p.flights[id].waiting && Matching(p, p.flights[id])
    requires p.flights[id].fate.Applied? && GoesOn(p.flights[id].worker)
    ensures var q := ReadBackStep(p, id);
      FlightsFit(q) && q.strays == p.strays
      && View(q) == if p.flights[id].worker.ClaimWrite? then Apply(View(p), Reread(id)) else View(p)
  {
    hide DocumentOf, WellFormed, IsWrite, Stepped;
    var f, q := p.flights[id], ReadBackStep(p, id);
    if f.worker.ClaimWrite? {
      assert View(q).workers == Apply(View(p), Reread(id)).workers;
    } else {
      assert View(q).workers == View(p).workers;
    }
  }

  lemma FailedReadBack(p: Physical, id: nat)
    requires id in p.flights && FlightFits(p.flights[id]) && !(Matching(p, p.flights[id]) && GoesOn(p.flights[id].worker))
    ensures ReadBackStep(p, id) == GivenUp(p, id)
  {
    hide DocumentOf, AfterSuccess, GivenUp;
  }

  // ---------- every run is a run of the protocol ----------

  /** The protocol's invariants, of what the protocol sees; and no request is astray. */
  ghost predicate Sound(p: Physical, calls: Calls) {
    FlightsFit(p) && p.strays == [] && Inv(View(p)) && Own(View(p), calls)
  }

  function CallsOf(p: Physical, calls: Calls, e: Happening): Calls {
    if e.Local? && ActorOf(e.action) !in p.flights then CallsAfter(p.world, calls, e.action) else calls
  }

  /** The dispatch calls that a list of events begins, by worker. */
  ghost function Dispatched(events: seq<Happening>): Calls
    decreases |events|
  {
    if events == [] then map[]
    else CallsOf(Happens(IDLE, events[..|events| - 1]), Dispatched(events[..|events| - 1]), events[|events| - 1])
  }

  /** A worker with more to do takes for its own only a document it wrote. */
  lemma SuccessMeansApplied(p: Physical, calls: Calls, id: nat)
    requires Sound(p, calls) && id in p.flights && p.flights[id].waiting && GoesOn(p.flights[id].worker)
    requires Matching(p, p.flights[id])
    ensures p.flights[id].fate.Applied?
  {
    hide Inv, Own, DocumentOf, AfterSuccess, WellFormed;
    if !p.flights[id].fate.Applied? {
      UnappliedIsNotThere(View(p), calls, id);
      assert false;
    }
  }

  lemma SoundIsFit(p: Physical, calls: Calls)
    requires Sound(p, calls)
    ensures FlightsFit(p) && p.strays == []
  {
  }

  /** A step of what the protocol sees. */
  lemma SoundAfter(p: Physical, q: Physical, calls: Calls, a: Action)
    requires Sound(p, calls) && FlightsFit(q) && q.strays == p.strays && View(q) == Apply(View(p), a)
    requires NoneTwice(CallsAfter(View(p), calls, a))
    ensures Sound(q, CallsAfter(View(p), calls, a))
  {
    hide Inv, Own, View, FlightsFit, Apply, Later, FrozenIfOpen;
    ApplyIsSound(View(p), a);
    ApplyKeepsOwn(View(p), calls, a);
  }

  lemma SoundSame(p: Physical, q: Physical, calls: Calls)
    requires Sound(p, calls) && FlightsFit(q) && q.strays == p.strays && View(q) == View(p)
    ensures Sound(q, calls)
  {
    hide Inv, Own, View, FlightsFit;
  }

  lemma SameCalls(p: Physical, calls: Calls, a: Action)
    requires FlightsFit(p)
    ensures CallsAfter(View(p), calls, a) == CallsAfter(p.world, calls, a)
  {
  }

  lemma StepOfEvent(p: Physical, calls: Calls, e: Happening) returns (steps: seq<Action>)
    requires Sound(p, calls)
    ensures var q := Happen(p, e);
      FlightsFit(q) && q.strays == p.strays && |steps| <= 1
      && View(q) == (if steps == [] then View(p) else Apply(View(p), steps[0]))
      && CallsOf(p, calls, e) == if steps == [] then calls else CallsAfter(View(p), calls, steps[0])
  {
    hide Apply, View, Seen, Landed, GivenUp, ReadBackStep, IsWrite, WellFormed, Inv, Own, FlightsFit, Matching, Sound;
    SoundIsFit(p, calls);
    FlightsAt(p);
    steps := [];
    match e
    case Local(a) =>
      var id := ActorOf(a);
      if id in p.flights {
        if a.Crash? && p.flights[id].waiting {
          GivingUpIsCrashOrNone(p, id);
          steps := if p.flights[id].fate.Flying? then [] else [Crash(id)];
        }
      } else if !(a.Step? && a.id in p.world.workers && IsWrite(p.world.workers[a.id])) {
        LocalIsStep(p, a);
        SameCalls(p, calls, a);
        steps := [a];
      }
    case Submit(id) => SubmitIsNoStep(p, id);
    case Land(id) =>
      if id in p.flights && p.flights[id].fate.Flying? {
        if TagMatches(p.world, ExpectedOf(p.flights[id].worker)) {
          LandIsStep(p, id);
          steps := [Step(id, if p.flights[id].waiting then Wrote else WroteUnanswered)];
        } else {
          TurnedIsStepOrNone(p, id);
          steps := if p.flights[id].waiting then [] else [Crash(id)];
        }
      }
    case LandStray(n) =>
    case Hear(id) =>
      if id in p.flights && p.flights[id].waiting && !p.flights[id].fate.Flying? {
        HearIsStepOrNone(p, id);
        steps := if p.flights[id].fate.Applied? then [] else [Step(id, Refused)];
      }
    case ReadBack(id) =>
      if id in p.flights && p.flights[id].waiting {
        var f := p.flights[id];
        if Matching(p, f) && GoesOn(f.worker) {
          SuccessMeansApplied(p, calls, id);
          ReadBackIsRereadOrNone(p, id);
          steps := if f.worker.ClaimWrite? then [Reread(id)] else [];
        } else {
          FailedReadBack(p, id);
          GivingUpIsCrashOrNone(p, id);
          steps := if f.fate.Flying? then [] else [Crash(id)];
        }
      }
  }

  /** One event over the real store is one step of the protocol, or none. */
  lemma EventIsStepOrNone(p: Physical, calls: Calls, e: Happening) returns (steps: seq<Action>)
    requires Sound(p, calls) && NoneTwice(CallsOf(p, calls, e))
    ensures Sound(Happen(p, e), CallsOf(p, calls, e)) && |steps| <= 1
    ensures View(Happen(p, e)) == if steps == [] then View(p) else Apply(View(p), steps[0])
  {
    hide Happen, Sound, View, Apply, CallsOf, CallsAfter, NoneTwice, FlightsFit;
    SoundIsFit(p, calls);
    steps := StepOfEvent(p, calls, e);
    if steps == [] {
      SoundSame(p, Happen(p, e), calls);
    } else {
      SoundAfter(p, Happen(p, e), calls, steps[0]);
    }
  }

  lemma FlightsAt(p: Physical)
    requires FlightsFit(p)
    ensures forall id :: id in p.flights ==> id in p.world.workers && FlightFits(p.flights[id])
  {
  }

  lemma IdleIsSound()
    ensures Sound(IDLE, map[]) && View(IDLE) == START
  {
    hide Inv;
    assert View(IDLE).workers == START.workers;
    StartIsOk();
    StartIsOwn();
  }

  lemma FewerCalls(p: Physical, calls: Calls, e: Happening)
    requires calls.Keys <= p.world.workers.Keys && NoneTwice(CallsOf(p, calls, e))
    ensures NoneTwice(calls)
  {
    assert forall k :: k in calls ==> k in CallsOf(p, calls, e) && CallsOf(p, calls, e)[k] == calls[k];
  }

  lemma {:induction false} CallsHaveWorkers(events: seq<Happening>)
    ensures Dispatched(events).Keys <= Happens(IDLE, events).world.workers.Keys
    decreases |events|
  {
    hide Happen;
    if events != [] {
      CallsHaveWorkers(events[..|events| - 1]);
      CallHasWorker(Happens(IDLE, events[..|events| - 1]), Dispatched(events[..|events| - 1]), events[|events| - 1]);
    }
  }

  lemma CallHasWorker(p: Physical, calls: Calls, e: Happening)
    requires calls.Keys <= p.world.workers.Keys
    ensures CallsOf(p, calls, e).Keys <= Happen(p, e).world.workers.Keys
  {
    hide DocumentOf, ExpectedOf, AfterSuccess, AfterConflict, WellFormed, IsWrite, ClockAccepted, Stepped, FlightFits;
    if e.Local? && !(e.action.Step? && e.action.id in p.world.workers && IsWrite(p.world.workers[e.action.id])) {
      StepIsLocal(p.world, p.world, e.action);
    }
  }

  /** If no two dispatch calls of a run share event, owner and time - publishes are free - the run is, as
      the protocol sees it, one of the protocol's own. */
  lemma {:induction false} ReconciledRunsAreRuns(events: seq<Happening>) returns (actions: seq<Action>)
    requires NoneTwice(Dispatched(events))
    ensures Sound(Happens(IDLE, events), Dispatched(events)) && View(Happens(IDLE, events)) == Run(START, actions)
    decreases |events|
  {
    hide Apply, View, Happen, Sound, NoneTwice, CallsOf;
    if events == [] {
      IdleIsSound();
      actions := [];
    } else {
      var before, e := Happens(IDLE, events[..|events| - 1]), events[|events| - 1];
      CallsHaveWorkers(events[..|events| - 1]);
      FewerCalls(before, Dispatched(events[..|events| - 1]), e);
      actions := ReconciledRunsAreRuns(events[..|events| - 1]);
      var steps := EventIsStepOrNone(before, Dispatched(events[..|events| - 1]), e);
      if steps != [] {
        assert (actions + [steps[0]])[..|actions|] == actions;
        actions := actions + [steps[0]];
      }
    }
  }

  /** So everything proved of the protocol holds over the real store: among it that sends never exceed
      the durable attempts. */
  lemma ReconciledSendsNeverExceedAttempts(events: seq<Happening>, event: EventId)
    requires NoneTwice(Dispatched(events))
    ensures var w := Happens(IDLE, events).world;
      SendCount(w.sends, event) <= Attempts(w, event) <= MAX_ATTEMPTS
  {
    hide Apply, Happen, Happens, Run, SendCount, NoneTwice, Dispatched;
    var actions := ReconciledRunsAreRuns(events);
    SendsNeverExceedAttempts(actions, event);
  }
}
