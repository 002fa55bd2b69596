/** What evaluate returns is accepted when it is read back. */
module LedgerStored {
  import opened Common
  import opened Calendar
  import opened LedgerTypes
  import opened LedgerAdmission
  import opened LedgerReplay
  import opened LedgerOutbox
  import opened LedgerHistory
  import opened Ledger

  /** A state is stored with sequences that may still be counted on. */
  ghost predicate SequencesBelow(s: State, n: int) {
    forall x :: x in s.evaluations ==> 1 <= s.evaluations[x].sequence < n
  }

  lemma MarksFit(manifest: Manifest, policy: Policy, now: Time, previous: State)
    requires Accepts(manifest, policy, now, previous)
    ensures var marks := MarksAfter(previous.snapshots, manifest.snapshots, |manifest.snapshots|, policy.mappingVersion, now);
      |marks| <= 2 && RevisionsInRange(marks)
  {
    hide Periods, DayFits, DistinctDates, RowsAdmissible, RevisionFits, ContentHash, MappingHash, MarksAfter,
      SeedsAccepted, PolicyAccepted;
    var snapshots := manifest.snapshots;
    var marks := MarksAfter(previous.snapshots, snapshots, |snapshots|, policy.mappingVersion, now);
    forall i | 0 <= i < |snapshots| ensures snapshots[i].period in Periods(now) && 1 <= snapshots[i].revision <= 1_000_000 {
      assert snapshots[i] in snapshots;
    }
    MarksStayInWindow(previous.snapshots, snapshots, |snapshots|, policy.mappingVersion, now);
    AtMostTwo(marks, now);
    RevisionsFit(previous.snapshots, snapshots, |snapshots|, policy.mappingVersion, now);
  }

  lemma AtMostTwo(marks: map<Month, SnapshotMark>, now: Time)
    requires ClockAccepted(now) && marks.Keys <= Periods(now)
    ensures |marks| <= 2
  {
    hide ClockAccepted, CurrentMonth;
    var m := CurrentMonth(now);
    assert Periods(now) == {m - 1, m};
    assert |marks.Keys| <= |{m - 1, m}| by { SubsetIsSmaller(marks.Keys, {m - 1, m}); }
  }

  lemma {:induction false} SubsetIsSmaller<T>(a: set<T>, b: set<T>)
    requires a <= b
    ensures |a| <= |b|
  {
    if a != {} {
      var x :| x in a;
      SubsetIsSmaller(a - {x}, b - {x});
    }
  }

  ghost predicate RevisionsInRange(marks: map<Month, SnapshotMark>) {
    forall p :: p in marks ==> 1 <= marks[p].revision <= 1_000_000
  }

  lemma {:induction false} RevisionsFit(marks: map<Month, SnapshotMark>, snapshots: seq<Snapshot>, n: nat,
                                        mappingVersion: string, now: Time)
    requires ClockAccepted(now) && n <= |snapshots| && RevisionsInRange(marks)
    requires forall i :: 0 <= i < |snapshots| ==> 1 <= snapshots[i].revision <= 1_000_000
    ensures RevisionsInRange(MarksAfter(marks, snapshots, n, mappingVersion, now))
  {
    hide Periods, ContentHash, MappingHash, ClockAccepted;
    if n > 0 {
      RevisionsFit(marks, snapshots, n - 1, mappingVersion, now);
    }
  }

  // ---------- the checkpoint ----------

  /** The subjects of one day. */
  function SubjectsOf(services: seq<ServiceId>, d: Day): set<Subject> {
    if services == [] then {MinimumServices(d)}
    else SubjectsOf(services[..|services| - 1], d) + {ServiceDay(services[|services| - 1], d)}
  }

  lemma {:induction false} SubjectsCounted(services: seq<ServiceId>, d: Day)
    ensures |SubjectsOf(services, d)| <= |services| + 1
    ensures forall x :: x in SubjectsOf(services, d) <==> Tracked(services, TrackOf(x)) && x.date == d
  {
    if services != [] {
      var n := |services| - 1;
      SubjectsCounted(services[..n], d);
      assert services == services[..n] + [services[n]];
    }
  }

  lemma CheckpointFits(policy: Policy, now: Time, previous: State)
    requires PolicyAccepted(policy) && StateAccepted(previous) && ClockAccepted(now)
    ensures var carry := CheckpointOf(policy, now, previous);
      EntriesAccepted(carry.evaluations) && |carry.evaluations| <= 65
  {
    hide ClockAccepted, WindowStart, Fingerprint, Tracked, SubjectsOf;
    var through := WindowStart(now) - 1;
    var carry := CheckpointOf(policy, now, previous);
    SubjectsCounted(policy.services, through);
    if carry.evaluations.Keys <= SubjectsOf(policy.services, through) {
      SubsetIsSmaller(carry.evaluations.Keys, SubjectsOf(policy.services, through));
    }
  }

  // ---------- the state ----------

  lemma OutboxFits(manifest: Manifest, policy: Policy, now: Time, previous: State, n: int)
    requires Accepts(manifest, policy, now, previous) && SequencesBelow(previous, n) && n <= 1_000_000
    ensures var outbox := Evaluate(manifest, policy, now, previous).value.outbox;
      forall id :: id in outbox ==> outbox[id].id == id && 1 <= outbox[id].sequence <= 1_000_000
  {
    hide Evaluations, OutboxAfter, EntriesAfter, Admissible, SeedsAccepted, PolicyAccepted, MarksAfter, CheckpointOf, DaysOf,
      IsTransition, EntriesAccepted;
    var values := ValuesOf(manifest, policy, now, previous);
    var c := ChangeOf(policy, previous, values);
    var outbox := OutboxAfter(c, values.Keys);
    forall id | id in outbox ensures outbox[id].id == id && 1 <= outbox[id].sequence <= 1_000_000 {
      OutboxAfterAt(c, values.Keys, id);
      TransitionsAreEvaluated(c, id.subject);
    }
  }

  /** As long as no sequence reaches a million, what evaluate returns can be read back. */
  lemma ResultAccepted(manifest: Manifest, policy: Policy, now: Time, previous: State, n: int)
    requires Accepts(manifest, policy, now, previous) && SequencesBelow(previous, n) && n <= 1_000_000
    ensures var after := Evaluate(manifest, policy, now, previous).value;
      StateAccepted(after) && SequencesBelow(after, if n < 2 then 2 else n + 1)
  {
    hide Evaluations, OutboxAfter, Admissible, SeedsAccepted, PolicyAccepted, MarksAfter, CarryCheckpoint,
      DaysOf, IsTransition, Fingerprint, WindowStart;
    MarksFit(manifest, policy, now, previous);
    CheckpointFits(policy, now, previous);
    OutboxFits(manifest, policy, now, previous, n);
  }

  /** The state after any chain of fewer than a million evaluations can be read back. */
  lemma {:induction false} ReachableIsAccepted(runs: seq<Delivery>)
    requires |runs| < 1_000_000
    ensures StateAccepted(After(runs)) && SequencesBelow(After(runs), |runs| + 1)
  {
    hide Accepts, StateAfter, StateAccepted, ClockAccepted;
    if runs == [] {
      EmptyIsHealthy();
    } else {
      var r, init := runs[|runs| - 1], runs[..|runs| - 1];
      ReachableIsAccepted(init);
      if Accepts(r.manifest, r.policy, r.now, After(init)) {
        ResultAccepted(r.manifest, r.policy, r.now, After(init), |runs|);
      }
    }
  }
}
