/** The calls of the blob store are events of the protocol over the real store: whatever becomes of a
    write, its result is what that protocol makes of it, and the blob holds what its world holds. */
module ReconcileStore {
  import opened Common
  import opened Dispatch
  import opened DispatchOwners
  import opened DispatchWorker
  import B = BlobStore
  import R = DispatchReconcile

  /** The world's document is the envelope of the blob's current object; tags are positions. */
  ghost predicate Mirrors(p: R.Physical, history: seq<B.Outer>) {
    && p.world.nextTag == |history|
    && p.world.store == if history == [] then None else Some(Cell(history[|history| - 1].envelope, |history| - 1))
  }

  /** The worker is about to make this write, and waits for nothing else. */
  ghost predicate AboutToWrite(p: R.Physical, id: nat, worker: Worker) {
    IsAt(p.world, id, worker) && id !in p.flights && IsWrite(worker) && WellFormed(worker)
  }

  /** The request is made, and arrives unless it is lost. */
  function Begun(id: nat, wire: B.Wire): seq<R.Happening> {
    if wire.RequestLost? then [R.Submit(id)] else [R.Submit(id)] + [R.Land(id)]
  }

  /** What the write does to the blob before anyone else acts. */
  function Put(history: seq<B.Outer>, expected: Option<nat>, content: B.Outer, wire: B.Wire): seq<B.Outer> {
    if !wire.RequestLost? && expected == (if history == [] then None else Some(|history| - 1)) then history + [content] else history
  }

  /** How the worker goes on. */
  function Ended(id: nat, wire: B.Wire, r: B.WriteResult): R.Happening {
    if r.WriteUnknown? || r.Rejected? then R.Local(Crash(id)) else if wire.Answered? then R.Hear(id) else R.ReadBack(id)
  }

  function WorkerAfter(worker: Worker, r: B.WriteResult): Worker
    requires IsWrite(worker) && WellFormed(worker)
  {
    match r
    case Written(tag) => AfterSuccess(worker, tag)
    case Conflict => AfterConflict(worker)
    case _ => Done
  }

  /** None of the events is this worker's. */
  predicate Others(events: seq<R.Happening>, id: nat) {
    forall k :: 0 <= k < |events| ==>
      match events[k]
      case Local(a) => ActorOf(a) != id
      case Submit(i) => i != id
      case Land(i) => i != id
      case LandStray(_) => true
      case Hear(i) => i != id
      case ReadBack(i) => i != id
  }

  lemma {:induction false} OthersLeaveFlight(p: R.Physical, events: seq<R.Happening>, id: nat)
    requires Others(events, id) && id in p.flights
    ensures id in R.Happens(p, events).flights && R.Happens(p, events).flights[id] == p.flights[id]
    decreases |events|
  {
    hide R.Happen;
    if events != [] {
      var n := |events| - 1;
      OthersLeaveFlight(p, events[..n], id);
      OtherLeavesFlight(R.Happens(p, events[..n]), events[n], id);
    }
  }

  lemma OtherLeavesFlight(p: R.Physical, e: R.Happening, id: nat)
    requires Others([e], id) && id in p.flights
    ensures id in R.Happen(p, e).flights && R.Happen(p, e).flights[id] == p.flights[id]
  {
    hide Apply, DocumentOf, ExpectedOf, IsWrite, WellFormed, AfterSuccess, AfterConflict, TagMatches;
    assert [e][0] == e;
  }

  /** Where the request is once it was made. */
  function FateOf(history: seq<B.Outer>, expected: Option<nat>, wire: B.Wire): R.Fate {
    if wire.RequestLost? then R.Flying
    else if expected == (if history == [] then None else Some(|history| - 1)) then R.Applied(|history|) else R.Turned
  }

  lemma BeginsAsPut(p: R.Physical, history: seq<B.Outer>, id: nat, worker: Worker, content: B.Outer, wire: B.Wire)
    requires AboutToWrite(p, id, worker) && Mirrors(p, history) && content.envelope == DocumentOf(worker)
    ensures var q := R.Happens(p, Begun(id, wire));
      && Mirrors(q, Put(history, ExpectedOf(worker), content, wire))
      && id in q.flights && q.flights[id] == R.Flight(worker, FateOf(history, ExpectedOf(worker), wire), true)
  {
    hide Apply, DocumentOf, ExpectedOf, WellFormed, R.Happens, R.GivenUp, R.ReadBackStep, IsWrite;
    R.HappensOne(p, R.Submit(id));
    var p1 := R.Happen(p, R.Submit(id));
    if !wire.RequestLost? {
      R.HappensFurther(p, [R.Submit(id)], [R.Land(id)]);
      R.HappensOne(p1, R.Land(id));
    }
  }

  lemma EndsAsReported(p: R.Physical, history: seq<B.Outer>, id: nat, f: R.Flight, content: B.Outer, wire: B.Wire,
                       r: B.WriteResult)
    requires id in p.flights && p.flights[id] == f && f.waiting && R.FlightFits(f) && content.envelope == DocumentOf(f.worker)
    requires Mirrors(p, history) && !r.Rejected?
    requires wire.Answered? ==> (r.Written? && f.fate == R.Applied(r.tag)) || (r.Conflict? && f.fate.Turned?)
    requires !wire.Answered? ==> r.WriteUnknown? || (r.Written? && history != [] && r.tag == |history| - 1 && history[r.tag] == content)
    ensures var q := R.Happens(p, [Ended(id, wire, r)]);
      Mirrors(q, history) && IsAt(q.world, id, WorkerAfter(f.worker, r))
  {
    hide Apply, DocumentOf, ExpectedOf, WellFormed, R.Happens, AfterSuccess, AfterConflict, IsWrite;
    R.HappensOne(p, Ended(id, wire, r));
    if r.Written? && !GoesOn(f.worker) {
      EndsIfNotGoingOn(f.worker, r.tag);
    }
  }

  lemma RejectedIsCrash(p: R.Physical, history: seq<B.Outer>, id: nat, worker: Worker)
    requires AboutToWrite(p, id, worker) && Mirrors(p, history)
    ensures var q := R.Happens(p, [R.Local(Crash(id))]);
      Mirrors(q, history) && IsAt(q.world, id, Done)
  {
    hide R.Happens, Stepped, IsWrite, WellFormed;
    R.HappensOne(p, R.Local(Crash(id)));
  }

  /** One write through the store, as events: the request, its arrival, whatever others do meanwhile -
      their writes to the blob are given as the events that make them - and how the worker goes on. */
  method WriteAsEvents(store: B.BlobCASStore, outer: B.Outer, wire: B.Wire, others: seq<B.Outer>, readBack: B.Wire,
                       ghost p: R.Physical, ghost id: nat, worker: Worker, ghost between: seq<R.Happening>)
    returns (r: B.WriteResult, ghost events: seq<R.Happening>)
    requires store.CacheFaithful() && store.minimumSequence >= 1
    requires AboutToWrite(p, id, worker) && Mirrors(p, store.blob.history) && outer.envelope == DocumentOf(worker)
    requires Others(between, id) && (wire.Answered? ==> between == [])
    requires !wire.Answered? ==>
      Mirrors(R.Happens(R.Happens(p, Begun(id, wire)), between), Put(store.blob.history, ExpectedOf(worker), outer, wire) + others)
    modifies store, store.blob
    ensures events == if r.Rejected? then [R.Local(Crash(id))] else Begun(id, wire) + between + [Ended(id, wire, r)]
    ensures Mirrors(R.Happens(p, events), store.blob.history)
    ensures IsAt(R.Happens(p, events).world, id, WorkerAfter(worker, r))
  {
    hide R.Happens, DocumentOf, ExpectedOf, WellFormed, IsWrite, Mirrors, WorkerAfter, R.FlightFits, Others, Begun,
      B.OuterValid, store.Saw, store.Seen, store.ReadFinds, store.AllValid;
    ghost var history := store.blob.history;
    ghost var applied;
    ghost var expected := ExpectedOf(worker);
    ghost var matches := store.blob.Matches(expected);
    assert matches <==> expected == if history == [] then None else Some(|history| - 1);
    r, applied := store.WriteOuter(ExpectedOf(worker), outer, wire, others, readBack);
    if r.Rejected? {
      RejectedIsCrash(p, history, id, worker);
      events := [R.Local(Crash(id))];
      RejectedEndsDone(worker, r);
      assert store.blob.history == history;
      return;
    }
    events := Begun(id, wire) + between + [Ended(id, wire, r)];
    BeginsAsPut(p, history, id, worker, outer, wire);
    ghost var p1 := R.Happens(p, Begun(id, wire));
    OthersLeaveFlight(p1, between, id);
    ghost var p2 := R.Happens(p1, between);
    R.HappensFurther(p, Begun(id, wire), between);
    R.HappensFurther(p, Begun(id, wire) + between, [Ended(id, wire, r)]);
    NothingBetween(p1, between);
    FitsIfAbout(p, id, worker, p2.flights[id]);
    assert applied <==> !wire.RequestLost? && matches;
    ghost var put := Put(history, expected, outer, wire);
    assert put + [] == put;
    assert store.blob.history == put + if wire.Answered? then [] else others;
    EndsAsReported(p2, store.blob.history, id, p2.flights[id], outer, wire, r);
  }

  lemma RejectedEndsDone(worker: Worker, r: B.WriteResult)
    requires IsWrite(worker) && WellFormed(worker) && r.Rejected?
    ensures WorkerAfter(worker, r) == Done
  {
  }

  lemma NothingBetween(p: R.Physical, between: seq<R.Happening>)
    ensures between == [] ==> R.Happens(p, between) == p
  {
  }

  lemma FitsIfAbout(p: R.Physical, id: nat, worker: Worker, f: R.Flight)
    requires AboutToWrite(p, id, worker) && f.worker == worker
    ensures R.FlightFits(f)
  {
  }
}
