/** evaluate: the whole state transformer, as a function of its inputs and as the code's loops. */
module Ledger {
  import opened Common
  import opened Calendar
  import opened LedgerTypes
  import opened LedgerAdmission
  import opened LedgerManifest
  import opened LedgerReplay
  import opened LedgerOutbox
  import opened Strings

  /** Only the eve of the new window is carried, and only under the same policy. */
  function CarryCheckpoint(previous: State, policy: PolicyDigest, through: Day, services: seq<ServiceId>): Carry {
    if previous.policy != Some(policy) then Carry(through, policy, map[])
    else if previous.carry.Some? && previous.carry.value.through == through && previous.carry.value.policy == policy
    then previous.carry.value
    else Carry(through, policy,
               map x | x in previous.evaluations && x.date == through && Tracked(services, TrackOf(x))
                       && previous.evaluations[x].value.date == through :: previous.evaluations[x])
  }

  predicate HeadersAccepted(manifest: Manifest, policy: Policy, now: Time, previous: State) {
    && PolicyAccepted(policy)
    && StateAccepted(previous)
    && manifest.subscription == policy.expectedSubscription
    && (previous.subscription.Some? ==> previous.subscription == Some(manifest.subscription))
    && manifest.mappingVersion == policy.mappingVersion
    && ClockAccepted(now)
  }

  function CheckpointOf(policy: Policy, now: Time, previous: State): Carry
    requires ClockAccepted(now)
  {
    CarryCheckpoint(previous, Fingerprint(policy), WindowStart(now) - 1, policy.services)
  }

  function ReplayOf(manifest: Manifest, policy: Policy, now: Time, previous: State): Replay
    requires ClockAccepted(now)
  {
    Replay(policy, now, WindowStart(now), DaysOf(manifest.snapshots, |manifest.snapshots|, policy, now),
           CheckpointOf(policy, now, previous))
  }

  function ChangeOf(policy: Policy, previous: State, values: Values): Change {
    Change(previous.evaluations, previous.outbox, Fingerprint(policy), previous.policy == Some(Fingerprint(policy)), values)
  }

  function StateAfter(manifest: Manifest, policy: Policy, now: Time, previous: State, values: Values): State
    requires ClockAccepted(now)
  {
    var c := ChangeOf(policy, previous, values);
    State(Some(manifest.subscription), Some(Fingerprint(policy)),
          MarksAfter(previous.snapshots, manifest.snapshots, |manifest.snapshots|, policy.mappingVersion, now),
          EntriesAfter(c), OutboxAfter(c, values.Keys), Some(CheckpointOf(policy, now, previous)))
  }

  ghost predicate Accepts(manifest: Manifest, policy: Policy, now: Time, previous: State) {
    && HeadersAccepted(manifest, policy, now, previous)
    && Admissible(manifest, policy, now, previous.snapshots)
    && SeedsAccepted(CheckpointOf(policy, now, previous), Services(policy))
  }

  function ValuesOf(manifest: Manifest, policy: Policy, now: Time, previous: State): Values
    requires ClockAccepted(now)
  {
    Evaluations(ReplayOf(manifest, policy, now, previous))
  }

  /** The next state, or None where the code raises and nothing changes. */
  ghost function Evaluate(manifest: Manifest, policy: Policy, now: Time, previous: State): Option<State> {
    if Accepts(manifest, policy, now, previous)
    then Some(StateAfter(manifest, policy, now, previous, ValuesOf(manifest, policy, now, previous)))
    else None
  }

  // ---------- the order in which subjects are evaluated ----------

  function ServiceOrder(services: seq<ServiceId>, d: Day, n: nat): seq<Subject>
    requires n <= |services|
  {
    if n == 0 then [] else ServiceOrder(services, d, n - 1) + [ServiceDay(services[n - 1], d)]
  }

  function DayOrder(services: seq<ServiceId>, d: Day): seq<Subject> {
    ServiceOrder(services, d, |services|) + [MinimumServices(d)]
  }

  function WindowOrder(services: seq<ServiceId>, start: Day, n: nat): seq<Subject> {
    if n == 0 then [] else WindowOrder(services, start, n - 1) + DayOrder(services, start + n - 1)
  }

  lemma NoRepeatsConcat<T>(a: seq<T>, b: seq<T>)
    requires NoRepeats(a) && NoRepeats(b) && forall x :: x in a ==> x !in b
    ensures NoRepeats(a + b)
  {
    forall i, j | 0 <= i < j < |a + b| ensures (a + b)[i] != (a + b)[j] {
      if i < |a| <= j {
        assert a[i] in a && b[j - |a|] in b;
      }
    }
  }

  lemma {:induction false} ServiceOrderIs(services: seq<ServiceId>, d: Day, n: nat)
    requires n <= |services|
    ensures forall x :: x in ServiceOrder(services, d, n) <==> x.ServiceDay? && x.date == d && x.service in services[..n]
    ensures NoRepeats(services) ==> NoRepeats(ServiceOrder(services, d, n))
  {
    if n > 0 {
      ServiceOrderIs(services, d, n - 1);
      assert services[..n] == services[..n - 1] + [services[n - 1]];
      if NoRepeats(services) {
        NoRepeatsConcat(ServiceOrder(services, d, n - 1), [ServiceDay(services[n - 1], d)]);
      }
    }
  }

  lemma DayOrderIs(services: seq<ServiceId>, d: Day)
    ensures forall x :: x in DayOrder(services, d) <==> Tracked(services, TrackOf(x)) && x.date == d
    ensures NoRepeats(services) ==> NoRepeats(DayOrder(services, d))
  {
    ServiceOrderIs(services, d, |services|);
    assert services[..|services|] == services;
    if NoRepeats(services) {
      NoRepeatsConcat(ServiceOrder(services, d, |services|), [MinimumServices(d)]);
    }
  }

  lemma {:induction false} WindowOrderCovers(services: seq<ServiceId>, start: Day, n: nat, x: Subject)
    ensures x in WindowOrder(services, start, n) <==> Tracked(services, TrackOf(x)) && start <= x.date < start + n
  {
    hide DayOrder, Tracked;
    if n > 0 {
      WindowOrderCovers(services, start, n - 1, x);
      DayOrderIs(services, start + n - 1);
    }
  }

  lemma {:induction false} WindowOrderNoRepeats(services: seq<ServiceId>, start: Day, n: nat)
    requires NoRepeats(services)
    ensures NoRepeats(WindowOrder(services, start, n))
  {
    hide DayOrder, Tracked, NoRepeats;
    if n == 0 {
      NoneRepeat(WindowOrder(services, start, 0));
    } else {
      WindowOrderNoRepeats(services, start, n - 1);
      DayOrderIs(services, start + n - 1);
      var before, today := WindowOrder(services, start, n - 1), DayOrder(services, start + n - 1);
      forall x | x in before ensures x !in today {
        WindowOrderCovers(services, start, n - 1, x);
      }
      NoRepeatsConcat(before, today);
    }
  }

  lemma NoneRepeat<T>(xs: seq<T>)
    requires xs == []
    ensures NoRepeats(xs)
  {
  }

  /** Day by day; within a day the services in order, then the combined minimum. */
  function EvaluationOrder(rp: Replay): seq<Subject> {
    WindowOrder(Sorted(rp.policy.services), rp.start, WindowDays(rp))
  }

  /** The order in which a policy lists its services has no effect on the order of evaluation. */
  lemma EvaluationOrderIgnoresListing(rp: Replay, services: seq<ServiceId>)
    requires multiset(services) == multiset(rp.policy.services)
    ensures EvaluationOrder(rp.(policy := rp.policy.(services := services))) == EvaluationOrder(rp)
  {
    SortedForgetsOrder(services, rp.policy.services);
  }

  lemma EvaluationOrderIs(rp: Replay)
    requires PolicyAccepted(rp.policy)
    ensures forall x :: x in Evaluations(rp) <==> x in EvaluationOrder(rp)
    ensures NoRepeats(EvaluationOrder(rp))
  {
    hide EvaluationOf, Evaluations, WindowOrder, Sorted;
    var services := Sorted(rp.policy.services);
    SortedIs(rp.policy.services);
    SortedKeepsDistinct(rp.policy.services);
    WindowOrderNoRepeats(services, rp.start, WindowDays(rp));
    forall x ensures x in Evaluations(rp) <==> x in EvaluationOrder(rp) {
      EvaluationsAt(rp, x);
      WindowOrderCovers(services, rp.start, WindowDays(rp), x);
    }
  }

  // ---------- the method ----------

  ghost predicate TrackSeedsAccepted(checkpoint: Carry, track: Track) {
    forall b :: SeedAccepted(checkpoint, track, b)
  }

  method CheckTrackSeeds(checkpoint: Carry, track: Track) returns (ok: bool)
    ensures ok <==> TrackSeedsAccepted(checkpoint, track)
  {
    hide SeedAccepted;
    ok := SeedAccepted(checkpoint, track, Observed) && SeedAccepted(checkpoint, track, Mature)
       && SeedAccepted(checkpoint, track, Confirmed);
    if ok {
      forall b: Basis ensures SeedAccepted(checkpoint, track, b) {
        match b case Observed => case Mature => case Confirmed =>
      }
    }
  }

  method CheckSeeds(checkpoint: Carry, services: seq<ServiceId>) returns (ok: bool)
    ensures ok <==> SeedsAccepted(checkpoint, set s | s in services)
  {
    hide SeedAccepted;
    ok := CheckTrackSeeds(checkpoint, MinimumTrack);
    var i := 0;
    while ok && i < |services|
      invariant 0 <= i <= |services|
      invariant ok ==> TrackSeedsAccepted(checkpoint, MinimumTrack)
      invariant ok ==> forall j :: 0 <= j < i ==> TrackSeedsAccepted(checkpoint, ServiceTrack(services[j]))
      invariant !ok ==> !SeedsAccepted(checkpoint, set s | s in services)
    {
      assert services[i] in services;
      ok := CheckTrackSeeds(checkpoint, ServiceTrack(services[i]));
      i := i + 1;
    }
    if ok {
      forall s, b | s in services ensures SeedAccepted(checkpoint, ServiceTrack(s), b) {
        var j :| 0 <= j < |services| && services[j] == s;
        assert TrackSeedsAccepted(checkpoint, ServiceTrack(services[j]));
      }
    }
  }

  /** evaluate: admission, replay and outbox loops, in the code's order of checks. */
  method EvaluateLedger(manifest: Manifest, policy: Policy, now: Time, previous: State)
    returns (result: Option<State>, intents: seq<Event>)
    ensures result == Evaluate(manifest, policy, now, previous)
    ensures result.Some? ==>
      var c := ChangeOf(policy, previous, ValuesOf(manifest, policy, now, previous));
      var order := EvaluationOrder(ReplayOf(manifest, policy, now, previous));
      intents == Intents(c, order, |order|)
  {
    hide Evaluations, SeedsAccepted, Admissible, StateAccepted, PolicyAccepted, OutboxAfter, EntriesAfter,
      Intents, CarryCheckpoint;
    result, intents := None, [];
    if !HeadersAccepted(manifest, policy, now, previous) { return; }
    var ok, days, marks := AdmitManifest(manifest, policy, now, previous.snapshots);
    if !ok { return; }
    var checkpoint := CarryCheckpoint(previous, Fingerprint(policy), WindowStart(now) - 1, policy.services);
    ok := CheckSeeds(checkpoint, policy.services);
    if !ok { return; }
    var rp := Replay(policy, now, WindowStart(now), days, checkpoint);
    var values := ReplayWindow(rp);
    EvaluationOrderIs(rp);
    var c := ChangeOf(policy, previous, values);
    var entries, outbox;
    entries, outbox, intents := AdvanceOutbox(c, EvaluationOrder(rp));
    result := Some(State(Some(manifest.subscription), Some(Fingerprint(policy)), marks, entries, outbox, Some(checkpoint)));
  }
}
