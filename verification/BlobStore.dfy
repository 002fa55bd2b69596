/** The store the protocol runs on: one blob, conditional PUTs, and read-back when the outcome
    of a PUT is not known; and the admission records written with every ledger. */
module BlobStore {
  import opened Common
  import opened Calendar
  import opened LedgerTypes
  import opened LedgerAdmission
  import opened Dispatch

  const SUBSCRIPTION := "production"

  datatype Admission = Admission(sourceIdentity: string, captureDigest: string, authorityId: string,
                                 authoritySequence: int, proofId: string, revision: int, snapshotId: string)

  type Admissions = map<Month, Admission>

  datatype Outer = Outer(generation: string, admissions: Admissions, envelope: Document)

  /** Each admission is the one the ledger's snapshot of that period came from. */
  predicate AdmissionsMatch(admissions: Admissions, snapshots: map<Month, SnapshotMark>) {
    && admissions.Keys == snapshots.Keys
    && forall p :: p in admissions ==>
         admissions[p].revision == snapshots[p].revision && admissions[p].snapshotId == snapshots[p].snapshotId
  }

  /** validate_outer. */
  predicate OuterValid(outer: Outer, generation: string, minimumSequence: int) {
    && outer.generation == generation
    && Valid(outer.envelope)
    && outer.envelope.commit.sequence >= minimumSequence
    && outer.envelope.commit.state.subscription == Some(SUBSCRIPTION)
    && AdmissionsMatch(outer.admissions, outer.envelope.commit.state.snapshots)
    && |outer.admissions| <= 2
    && forall p :: p in outer.admissions ==> 1 <= outer.admissions[p].authoritySequence <= 1_000_000
  }

  lemma ValidUnderLowerFloor(outer: Outer, generation: string, floor: int, lower: int)
    requires OuterValid(outer, generation, floor) && lower <= floor
    ensures OuterValid(outer, generation, lower) && outer.envelope.commit.sequence >= floor
  {
    hide Valid, AdmissionsMatch;
  }

  // ---------- the server ----------

  /** A conditional PUT that has not arrived. */
  datatype Request = Request(expected: Option<nat>, content: Outer)

  predicate MatchesIn(history: seq<Outer>, expected: Option<nat>) {
    match expected
    case None => history == []
    case Some(tag) => history != [] && tag == |history| - 1
  }

  /** The blob: everything it ever held, in order. An ETag is a position, so it is never reused. Requests
      lost on the way may still arrive. */
  class Blob {
    var history: seq<Outer>
    var inFlight: seq<Request>

    constructor ()
      ensures history == [] && inFlight == []
    {
      history, inFlight := [], [];
    }

    predicate Matches(expected: Option<nat>)
      reads this
    {
      MatchesIn(history, expected)
    }

    /** A conditional PUT as the server sees it. */
    method Put(expected: Option<nat>, content: Outer) returns (applied: bool)
      modifies this`history
      ensures applied <==> old(Matches(expected))
      ensures history == if applied then old(history) + [content] else old(history)
    {
      applied := Matches(expected);
      if applied { history := history + [content]; }
    }

    /** A PUT that is under way when its sender stops waiting. */
    method Lose(expected: Option<nat>, content: Outer)
      modifies this`inFlight
      ensures inFlight == old(inFlight) + [Request(expected, content)]
    {
      inFlight := inFlight + [Request(expected, content)];
    }

    /** A lost PUT arrives after all, however late: like any other, it takes effect only if what it
        expects is still there. */
    method Arrive(n: nat) returns (applied: bool)
      requires n < |inFlight|
      modifies this
      ensures inFlight == old(inFlight)[..n] + old(inFlight)[n + 1..]
      ensures applied <==> old(Matches(inFlight[n].expected))
      ensures history == if applied then old(history) + [old(inFlight)[n].content] else old(history)
    {
      var request := inFlight[n];
      inFlight := inFlight[..n] + inFlight[n + 1..];
      applied := Put(request.expected, request.content);
    }

    /** Other writers' successful PUTs. */
    method PutByOthers(contents: seq<Outer>)
      modifies this`history
      ensures history == old(history) + contents
    {
      history := history + contents;
    }

    /** A PUT and what its sender hears of it. Other writers act while it waits in vain. */
    method Exchange(expected: Option<nat>, content: Outer, wire: Wire, others: seq<Outer>)
      returns (answer: PutAnswer, ghost applied: bool)
      modifies this
      ensures applied <==> !wire.RequestLost? && old(Matches(expected))
      ensures answer == if !wire.Answered? then NoAnswer else if applied then Created else PreconditionFailed
      ensures history == old(history) + (if applied then [content] else []) + (if answer.NoAnswer? then others else [])
      ensures inFlight == old(inFlight) + if wire.RequestLost? then [Request(expected, content)] else []
    {
      applied := false;
      if wire.RequestLost? {
        Lose(expected, content);
      } else {
        var done := Put(expected, content);
        applied := done;
        if wire.Answered? {
          return if done then Created else PreconditionFailed, applied;
        }
      }
      PutByOthers(others);
      answer := NoAnswer;
    }
  }

  datatype PutAnswer = Created | PreconditionFailed | NoAnswer

  /** What the wire does to a request or its answer. A lost request has not arrived when the store is read
      back. (One that arrives just before that finds either the expected object, as if only its answer
      had been lost, or another one, and has no effect.) */
  datatype Wire = Answered | RequestLost | AnswerLost

  datatype ReadResult = Empty | Current(outer: Outer, tag: nat) | ReadFailed

  datatype WriteResult = Written(tag: nat) | Conflict | WriteUnknown | Rejected

  /** A write's result, whether it took effect, and what the blob then holds. */
  datatype Outcome = Outcome(result: WriteResult, applied: bool, history: seq<Outer>)

  /** What becomes of a write that is allowed or not, the blob holding `before`: an answer tells the
      truth; without one, success is what reading back finds. */
  function OutcomeOf(before: seq<Outer>, expected: Option<nat>, outer: Outer, allowed: bool, wire: Wire, others: seq<Outer>,
                     readBack: Wire): Outcome
  {
    var applied := allowed && !wire.RequestLost? && MatchesIn(before, expected);
    var put := before + if applied then [outer] else [];
    if !allowed then Outcome(Rejected, false, before)
    else if wire.Answered? then Outcome(if applied then Written(|before|) else Conflict, applied, put)
    else
      var after := put + others;
      Outcome(if readBack.Answered? && after != [] && after[|after| - 1] == outer then Written(|after| - 1) else WriteUnknown,
              applied, after)
  }

  lemma RejectedOutcome(before: seq<Outer>, expected: Option<nat>, outer: Outer, wire: Wire, others: seq<Outer>, readBack: Wire)
    ensures OutcomeOf(before, expected, outer, false, wire, others, readBack) == Outcome(Rejected, false, before)
  {
  }

  lemma SentOutcome(before: seq<Outer>, expected: Option<nat>, outer: Outer, wire: Wire, others: seq<Outer>, readBack: Wire)
    ensures var applied := !wire.RequestLost? && MatchesIn(before, expected);
      var after := before + (if applied then [outer] else []) + if wire.Answered? then [] else others;
      OutcomeOf(before, expected, outer, true, wire, others, readBack) == Outcome(
        if wire.Answered? then (if applied then Written(|after| - 1) else Conflict)
        else if readBack.Answered? && after != [] && after[|after| - 1] == outer then Written(|after| - 1) else WriteUnknown,
        applied, after)
  {
    hide MatchesIn;
    var put := before + if !wire.RequestLost? && MatchesIn(before, expected) then [outer] else [];
    assert put + [] == put;
  }

  /** Success is reported with the tag that now holds exactly the intended object, conflict only for a write
      that was not applied; and a write of new content that is reported as successful was applied. */
  lemma OutcomeTellsTheTruth(before: seq<Outer>, expected: Option<nat>, outer: Outer, allowed: bool, wire: Wire,
                             others: seq<Outer>, readBack: Wire)
    ensures var o := OutcomeOf(before, expected, outer, allowed, wire, others, readBack);
      && (o.applied ==> allowed && MatchesIn(before, expected) && before + [outer] <= o.history)
      && (o.result.Written? ==> allowed && o.result.tag == |o.history| - 1 && o.history[o.result.tag] == outer)
      && (o.result.Conflict? ==> !o.applied && !MatchesIn(before, expected) && o.history == before)
      && (o.result.Written? && outer !in before && outer !in others ==>
            o.applied && o.result.tag == |before| && (wire.AnswerLost? ==> others == []))
  {
  }

  // ---------- the store ----------

  class BlobCASStore {
    const blob: Blob
    const generation: string
    const hasPermit: bool
    var minimumSequence: int
    var initialized: bool
    var permitUsed: bool
    var cache: map<nat, Outer>

    constructor (blob: Blob, generation: string, minimumSequence: int, hasPermit: bool)
      requires minimumSequence >= 1
      ensures this.blob == blob && this.generation == generation && this.minimumSequence == minimumSequence
      ensures !initialized && !permitUsed && cache == map[] && this.hasPermit == hasPermit
      ensures CacheFaithful()
    {
      this.blob, this.generation, this.minimumSequence, this.hasPermit := blob, generation, minimumSequence, hasPermit;
      initialized, permitUsed, cache := false, false, map[];
    }

    /** A cached object is what the blob held under that tag, and valid. */
    ghost predicate CacheFaithful()
      reads this, blob
    {
      forall tag :: tag in cache ==>
        tag < |blob.history| && blob.history[tag] == cache[tag] && OuterValid(cache[tag], generation, 1)
    }

    /** Every object the blob ever held passed validation: admissions match snapshots in all of them. */
    ghost predicate AllValid(contents: seq<Outer>) {
      forall o :: o in contents ==> OuterValid(o, generation, 1)
    }

    lemma ValidTogether(before: seq<Outer>, own: seq<Outer>, others: seq<Outer>)
      ensures AllValid(before) && AllValid(own) && AllValid(others) ==> AllValid(before + own + others)
    {
      hide OuterValid;
    }

    lemma ValidAlone(outer: Outer)
      requires OuterValid(outer, generation, 1)
      ensures AllValid([outer]) && AllValid([])
    {
      hide OuterValid;
    }

    /** The first write of all needs a permit not used before. */
    predicate MayStart(expected: Option<nat>)
      reads this
    {
      expected.None? ==> !initialized && hasPermit && !permitUsed
    }

    /** The last object seen is this one, under this tag. */
    ghost predicate Saw(tag: nat, outer: Outer)
      reads this
    {
      initialized && minimumSequence == outer.envelope.commit.sequence && cache == map[tag := outer]
    }

    /** What the store has seen of its blob. */
    ghost function Seen(): (bool, int, map<nat, Outer>)
      reads this`initialized, this`minimumSequence, this`cache
    {
      (initialized, minimumSequence, cache)
    }

    /** A read whose answer arrives finds a valid object. */
    ghost predicate ReadFinds(wire: Wire, floor: int)
      reads this, blob
    {
      wire.Answered? && blob.history != [] && OuterValid(blob.history[|blob.history| - 1], generation, floor)
    }

    method Remember(tag: nat, outer: Outer)
      modifies this`initialized, this`minimumSequence, this`cache
      ensures Saw(tag, outer)
    {
      initialized, minimumSequence, cache := true, outer.envelope.commit.sequence, map[tag := outer];
    }

    method ReadOuter(wire: Wire) returns (r: ReadResult)
      requires CacheFaithful() && minimumSequence >= 1
      modifies this`initialized, this`minimumSequence, this`cache
      ensures CacheFaithful() && minimumSequence >= old(minimumSequence)
      ensures permitUsed == old(permitUsed) && (old(initialized) ==> initialized)
      ensures r.Current? ==>
        && blob.history != [] && r.tag == |blob.history| - 1 && r.outer == blob.history[r.tag]
        && OuterValid(r.outer, generation, old(minimumSequence))
        && minimumSequence == r.outer.envelope.commit.sequence && initialized && cache == map[r.tag := r.outer]
      ensures !r.Current? ==> minimumSequence == old(minimumSequence) && cache == old(cache) && initialized == old(initialized)
      ensures r.Current? <==>
        wire.Answered? && blob.history != [] && OuterValid(blob.history[|blob.history| - 1], generation, old(minimumSequence))
      ensures r.Empty? <==> wire.Answered? && blob.history == [] && !old(initialized) && hasPermit && !old(permitUsed)
    {
      hide OuterValid;
      if !wire.Answered? { return ReadFailed; }
      if blob.history == [] {
        return if !initialized && hasPermit && !permitUsed then Empty else ReadFailed;
      }
      var tag := |blob.history| - 1;
      var value := blob.history[tag];
      if !OuterValid(value, generation, minimumSequence) { return ReadFailed; }
      ValidUnderLowerFloor(value, generation, minimumSequence, 1);
      Remember(tag, value);
      return Current(value, tag);
    }

    /** One write. `others` are the writes that land between this PUT and its read-back, late ones of this
        worker included. Whatever is applied is valid; the sequence floor never falls; a first write uses
        its permit up even when nobody knows what became of it. */
    method WriteOuter(expected: Option<nat>, outer: Outer, wire: Wire, others: seq<Outer>, readBack: Wire)
      returns (r: WriteResult, ghost applied: bool)
      requires CacheFaithful() && minimumSequence >= 1
      modifies this, blob
      ensures CacheFaithful() && minimumSequence >= old(minimumSequence)
      ensures Outcome(r, applied, blob.history) == OutcomeOf(
        old(blob.history), expected, outer, OuterValid(outer, generation, old(minimumSequence)) && old(MayStart(expected)),
        wire, others, readBack)
      ensures blob.inFlight == old(blob.inFlight) + if wire.RequestLost? && !r.Rejected? then [Request(expected, outer)] else []
      ensures r.Written? ==> Saw(r.tag, outer)
      ensures r.WriteUnknown? && ReadFinds(readBack, old(minimumSequence)) ==> Saw(|blob.history| - 1, blob.history[|blob.history| - 1])
      ensures !r.Written? && !(r.WriteUnknown? && ReadFinds(readBack, old(minimumSequence))) ==>
        Seen() == old(Seen())
      ensures AllValid(old(blob.history)) && AllValid(others) ==> AllValid(blob.history)
      ensures permitUsed == (old(permitUsed) || (expected.None? && !r.Rejected?))
    {
      hide OuterValid, AllValid, OutcomeOf, MatchesIn, ReadFinds, Saw, Seen;
      applied := false;
      RejectedOutcome(blob.history, expected, outer, wire, others, readBack);
      if !OuterValid(outer, generation, minimumSequence) {
        return Rejected, applied;
      }
      if expected.None? {
        if initialized || !hasPermit || permitUsed {
          return Rejected, applied;
        }
        permitUsed := true;
      }
      r, applied := SendOuter(expected, outer, wire, others, readBack);
    }

    /** The request of a write that may be made, and what its answer, or a read-back, says. */
    method SendOuter(expected: Option<nat>, outer: Outer, wire: Wire, others: seq<Outer>, readBack: Wire)
      returns (r: WriteResult, ghost applied: bool)
      requires CacheFaithful() && minimumSequence >= 1 && OuterValid(outer, generation, minimumSequence)
      modifies this`initialized, this`minimumSequence, this`cache, blob
      ensures CacheFaithful() && minimumSequence >= old(minimumSequence) && !r.Rejected?
      ensures Outcome(r, applied, blob.history) == OutcomeOf(old(blob.history), expected, outer, true, wire, others, readBack)
      ensures blob.inFlight == old(blob.inFlight) + if wire.RequestLost? then [Request(expected, outer)] else []
      ensures r.Written? ==> Saw(r.tag, outer)
      ensures r.WriteUnknown? && ReadFinds(readBack, old(minimumSequence)) ==> Saw(|blob.history| - 1, blob.history[|blob.history| - 1])
      ensures !r.Written? && !(r.WriteUnknown? && ReadFinds(readBack, old(minimumSequence))) ==> Seen() == old(Seen())
      ensures AllValid(old(blob.history)) && AllValid(others) ==> AllValid(blob.history)
    {
      hide OuterValid, AllValid, OutcomeOf, MatchesIn, ReadFinds;
      ghost var before := blob.history;
      ValidUnderLowerFloor(outer, generation, minimumSequence, 1);
      ValidAlone(outer);
      var answer;
      answer, applied := blob.Exchange(expected, outer, wire, others);
      SentOutcome(before, expected, outer, wire, others, readBack);
      ValidTogether(before, if applied then [outer] else [], if answer.NoAnswer? then others else []);
      if answer.NoAnswer? {
        r := Reconcile(outer, readBack);
        return r, applied;
      }
      if answer.PreconditionFailed? { return Conflict, applied; }
      var tag := |blob.history| - 1;
      Remember(tag, outer);
      return Written(tag), applied;
    }

    /** Success only if the object now in the blob is the intended one, read back whole. */
    method Reconcile(intended: Outer, readBack: Wire) returns (r: WriteResult)
      requires CacheFaithful() && minimumSequence >= 1
      modifies this`initialized, this`minimumSequence, this`cache
      ensures CacheFaithful() && minimumSequence >= old(minimumSequence)
      ensures permitUsed == old(permitUsed)
      ensures r.Written? || r.WriteUnknown?
      ensures r.Written? ==>
        && blob.history != [] && r.tag == |blob.history| - 1 && blob.history[r.tag] == intended
        && minimumSequence == intended.envelope.commit.sequence && cache == map[r.tag := intended]
      ensures if ReadFinds(readBack, old(minimumSequence)) then Saw(|blob.history| - 1, blob.history[|blob.history| - 1])
              else Seen() == old(Seen())
      ensures r.Written? ==> Saw(r.tag, intended)
      ensures OuterValid(intended, generation, old(minimumSequence)) ==>
        (r.Written? <==> readBack.Answered? && blob.history != [] && blob.history[|blob.history| - 1] == intended)
    {
      hide OuterValid;
      var actual := ReadOuter(readBack);
      if actual.Current? && actual.outer == intended { return Written(actual.tag); }
      return WriteUnknown;
    }

    /** Journal writes of the protocol: admissions and generation are carried over unchanged. */
    method CompareAndSwap(expected: nat, document: Document, wire: Wire, others: seq<Outer>, readBack: Wire)
      returns (r: WriteResult, ghost applied: bool)
      requires CacheFaithful() && minimumSequence >= 1
      modifies this, blob
      ensures CacheFaithful() && minimumSequence >= old(minimumSequence)
      ensures expected !in old(cache) ==> r.Rejected? && blob.history == old(blob.history)
      ensures r.Written? ==> Saw(r.tag, old(cache)[expected].(envelope := document))
      ensures expected in old(cache) ==>
        var outer := old(cache)[expected].(envelope := document);
        Outcome(r, applied, blob.history) == OutcomeOf(old(blob.history), Some(expected), outer,
          OuterValid(outer, generation, old(minimumSequence)), wire, others, readBack)
    {
      hide OuterValid;
      applied := false;
      if expected !in cache { return Rejected, applied; }
      r, applied := WriteOuter(Some(expected), cache[expected].(envelope := document), wire, others, readBack);
    }
  }

  // ---------- admission lineage ----------

  /** What a verified capture of one period brings along. */
  datatype Capture = Capture(period: Month, sourceIdentity: string, captureDigest: string,
                             authoritySequence: int, proofId: string, snapshotId: string, exportedAt: Time,
                             days: seq<DayRecords>, completenessEvidence: Option<string>)

  /** admit_capture: the record for a capture, given the period's previous record. */
  function AdmitCapture(capture: Capture, previous: Option<Admission>, authorityId: string): Option<Admission> {
    if !(1 <= capture.authoritySequence <= 1_000_000) then None
    else if previous.None? then Some(AdmissionOf(capture, authorityId, 1))
    else
      var before := previous.value;
      if before.authorityId != authorityId then None
      else if before.sourceIdentity == capture.sourceIdentity then
        if before.captureDigest == capture.captureDigest && before.authoritySequence == capture.authoritySequence
        then Some(AdmissionOf(capture, authorityId, before.revision)) else None
      else if capture.authoritySequence > before.authoritySequence
      then Some(AdmissionOf(capture, authorityId, before.revision + 1)) else None
  }

  function AdmissionOf(capture: Capture, authorityId: string, revision: int): Admission {
    Admission(capture.sourceIdentity, capture.captureDigest, authorityId, capture.authoritySequence,
              capture.proofId, revision, capture.snapshotId)
  }

  function SnapshotOf(capture: Capture, revision: int): Snapshot {
    Snapshot(capture.period, capture.snapshotId, revision, capture.exportedAt, true, capture.completenessEvidence, capture.days)
  }

  /** Revision and authority sequence rise together, exactly when the source identity changes. */
  ghost predicate LineageKept(before: Admission, after: Admission) {
    && after.authorityId == before.authorityId
    && (after.sourceIdentity == before.sourceIdentity ==>
          && after.revision == before.revision && after.authoritySequence == before.authoritySequence
          && after.captureDigest == before.captureDigest)
    && (after.sourceIdentity != before.sourceIdentity ==>
          && after.revision == before.revision + 1 && after.authoritySequence > before.authoritySequence)
  }

  /** The lineage of every period that stays in the window. */
  ghost predicate LineagesKept(before: Admissions, after: Admissions, window: set<Month>) {
    forall p :: p in before && p in window ==> p in after && LineageKept(before[p], after[p])
  }

  predicate CapturesDistinct(captures: seq<Capture>) {
    forall i, j :: 0 <= i < j < |captures| ==> captures[i].period != captures[j].period
  }

  function InPeriods(admissions: Admissions, window: set<Month>): Admissions {
    map p | p in admissions && p in window :: admissions[p]
  }

  predicate CaptureFits(capture: Capture, start: Admissions, window: set<Month>, authorityId: string) {
    capture.period in window && AdmitCapture(capture, PreviousOf(start, capture), authorityId).Some?
  }

  /** Admissions after the first n captures, each judged against the record it replaces. */
  ghost predicate AdmittedUpTo(admissions: Admissions, captures: seq<Capture>, n: nat, start: Admissions,
                               snapshots: seq<Snapshot>, authorityId: string)
    requires n <= |captures|
  {
    && |snapshots| == n
    && (forall p :: p in admissions <==> p in start || exists i :: 0 <= i < n && captures[i].period == p)
    && (forall p :: p in start && (forall i :: 0 <= i < n ==> captures[i].period != p) ==> admissions[p] == start[p])
    && (forall i :: 0 <= i < n ==>
          && captures[i].period in admissions
          && AdmitCapture(captures[i], PreviousOf(start, captures[i]), authorityId) == Some(admissions[captures[i].period])
          && snapshots[i] == SnapshotOf(captures[i], admissions[captures[i].period].revision))
  }

  function PreviousOf(admissions: Admissions, capture: Capture): Option<Admission> {
    if capture.period in admissions then Some(admissions[capture.period]) else None
  }

  lemma NothingAdmitted(captures: seq<Capture>, start: Admissions, authorityId: string)
    ensures AdmittedUpTo(start, captures, 0, start, [], authorityId)
  {
  }

  lemma NotAdmittedYet(admissions: Admissions, captures: seq<Capture>, n: nat, start: Admissions,
                       snapshots: seq<Snapshot>, authorityId: string)
    requires n < |captures| && AdmittedUpTo(admissions, captures, n, start, snapshots, authorityId)
    requires forall j :: 0 <= j < n ==> captures[j].period != captures[n].period
    ensures PreviousOf(admissions, captures[n]) == PreviousOf(start, captures[n])
  {
  }

  lemma AdmittedNext(admissions: Admissions, captures: seq<Capture>, n: nat, start: Admissions,
                     snapshots: seq<Snapshot>, authorityId: string, record: Admission)
    requires n < |captures| && AdmittedUpTo(admissions, captures, n, start, snapshots, authorityId)
    requires forall j :: 0 <= j < n ==> captures[j].period != captures[n].period
    requires AdmitCapture(captures[n], PreviousOf(start, captures[n]), authorityId) == Some(record)
    ensures AdmittedUpTo(admissions[captures[n].period := record], captures, n + 1, start,
                         snapshots + [SnapshotOf(captures[n], record.revision)], authorityId)
  {
    hide AdmitCapture, SnapshotOf;
  }

  /** A capture may be admitted: it is the first of its period, or repeats the admitted one, or comes from a
      new source under a higher sequence of the same authority. */
  predicate MayBeAdmitted(capture: Capture, kept: Admissions, authorityId: string) {
    && 1 <= capture.authoritySequence <= 1_000_000
    && (capture.period in kept ==>
          var record := kept[capture.period];
          && record.authorityId == authorityId
          && (capture.sourceIdentity == record.sourceIdentity ==>
                capture.captureDigest == record.captureDigest && capture.authoritySequence == record.authoritySequence)
          && (capture.sourceIdentity != record.sourceIdentity ==> capture.authoritySequence > record.authoritySequence))
  }

  /** The revision of an admitted capture: 1 at first, one more for each new source. */
  function RevisionFor(capture: Capture, kept: Admissions): int {
    if capture.period !in kept then 1
    else kept[capture.period].revision + if capture.sourceIdentity != kept[capture.period].sourceIdentity then 1 else 0
  }

  lemma AdmitsExactly(capture: Capture, kept: Admissions, authorityId: string)
    ensures AdmitCapture(capture, PreviousOf(kept, capture), authorityId) ==
      if MayBeAdmitted(capture, kept, authorityId) then
        Some(Admission(capture.sourceIdentity, capture.captureDigest, authorityId, capture.authoritySequence, capture.proofId,
                       RevisionFor(capture, kept), capture.snapshotId))
      else None
  {
  }

  /** What is retained of a period: its record, if the period is in the window. */
  ghost predicate Retained(kept: Admissions, previous: Admissions, window: set<Month>) {
    forall p :: (p in kept <==> p in previous && p in window) && (p in kept ==> kept[p] == previous[p])
  }

  /** Everything the loop makes of its captures, record by record and snapshot by snapshot. */
  ghost predicate AllAdmitted(admissions: Admissions, captures: seq<Capture>, kept: Admissions, snapshots: seq<Snapshot>,
                              authorityId: string)
  {
    && |snapshots| == |captures|
    && (forall p :: p in admissions <==> p in kept || exists i :: 0 <= i < |captures| && captures[i].period == p)
    && (forall p :: p in kept && (forall i :: 0 <= i < |captures| ==> captures[i].period != p) ==> admissions[p] == kept[p])
    && forall i :: 0 <= i < |captures| ==>
         var capture, revision := captures[i], RevisionFor(captures[i], kept);
         && capture.period in admissions
         && admissions[capture.period] == Admission(capture.sourceIdentity, capture.captureDigest, authorityId,
                                                    capture.authoritySequence, capture.proofId, revision, capture.snapshotId)
         && snapshots[i] == Snapshot(capture.period, capture.snapshotId, revision, capture.exportedAt, true,
                                     capture.completenessEvidence, capture.days)
  }

  lemma AdmittedMeans(admissions: Admissions, captures: seq<Capture>, kept: Admissions, snapshots: seq<Snapshot>, authorityId: string)
    requires forall c :: c in captures ==> MayBeAdmitted(c, kept, authorityId)
    ensures AdmittedUpTo(admissions, captures, |captures|, kept, snapshots, authorityId)
      <==> AllAdmitted(admissions, captures, kept, snapshots, authorityId)
  {
    hide AdmitCapture, MayBeAdmitted, RevisionFor;
    forall i | 0 <= i < |captures|
      ensures AdmitCapture(captures[i], PreviousOf(kept, captures[i]), authorityId)
        == Some(Admission(captures[i].sourceIdentity, captures[i].captureDigest, authorityId, captures[i].authoritySequence,
                          captures[i].proofId, RevisionFor(captures[i], kept), captures[i].snapshotId))
    {
      assert captures[i] in captures;
      AdmitsExactly(captures[i], kept, authorityId);
    }
  }

  /** run_once's loop over captures: rejects a period outside the window or named twice, a stale
      or conflicting source, and otherwise keeps every lineage. */
  method AdmitCaptures(captures: seq<Capture>, previous: Admissions, window: set<Month>, authorityId: string)
    returns (ok: bool, admissions: Admissions, snapshots: seq<Snapshot>)
    ensures ok <==> CapturesDistinct(captures) && forall c :: c in captures ==>
                      CaptureFits(c, InPeriods(previous, window), window, authorityId)
    ensures ok ==> AdmittedUpTo(admissions, captures, |captures|, InPeriods(previous, window), snapshots, authorityId)
    ensures ok ==> LineagesKept(previous, admissions, window)
    ensures forall kept :: Retained(kept, previous, window) ==>
      && (ok <==> CapturesDistinct(captures) && forall c :: c in captures ==> c.period in window && MayBeAdmitted(c, kept, authorityId))
      && (ok ==> AllAdmitted(admissions, captures, kept, snapshots, authorityId))
  {
    hide AdmitCapture, SnapshotOf, AdmittedUpTo, LineagesKept, MayBeAdmitted, AllAdmitted;
    var start := InPeriods(previous, window);
    AcceptanceMeans(captures, previous, window, authorityId);
    admissions, snapshots, ok := start, [], false;
    NothingAdmitted(captures, start, authorityId);
    var seen: set<Month> := {};
    var i := 0;
    while i < |captures|
      invariant 0 <= i <= |captures|
      invariant forall p :: p in seen <==> exists j :: 0 <= j < i && captures[j].period == p
      invariant forall j, k :: 0 <= j < k < i ==> captures[j].period != captures[k].period
      invariant forall j :: 0 <= j < i ==> CaptureFits(captures[j], start, window, authorityId)
      invariant AdmittedUpTo(admissions, captures, i, start, snapshots, authorityId)
    {
      var capture := captures[i];
      assert capture in captures;
      if capture.period !in window || capture.period in seen { return; }
      seen := seen + {capture.period};
      NotAdmittedYet(admissions, captures, i, start, snapshots, authorityId);
      var record := AdmitCapture(capture, PreviousOf(admissions, capture), authorityId);
      if record.None? { return; }
      AdmittedNext(admissions, captures, i, start, snapshots, authorityId, record.value);
      snapshots := snapshots + [SnapshotOf(capture, record.value.revision)];
      admissions := admissions[capture.period := record.value];
      i := i + 1;
    }
    ok := true;
    AdmittedMeans(admissions, captures, start, snapshots, authorityId);
    LineagesFollow(admissions, captures, previous, window, snapshots, authorityId);
  }

  lemma AcceptanceMeans(captures: seq<Capture>, previous: Admissions, window: set<Month>, authorityId: string)
    ensures Retained(InPeriods(previous, window), previous, window)
    ensures forall kept :: Retained(kept, previous, window) ==> kept == InPeriods(previous, window)
    ensures forall c :: c in captures ==>
      (CaptureFits(c, InPeriods(previous, window), window, authorityId)
       <==> c.period in window && MayBeAdmitted(c, InPeriods(previous, window), authorityId))
  {
    hide AdmitCapture, MayBeAdmitted;
    forall c | c in captures
      ensures CaptureFits(c, InPeriods(previous, window), window, authorityId)
        <==> c.period in window && MayBeAdmitted(c, InPeriods(previous, window), authorityId)
    {
      AdmitsExactly(c, InPeriods(previous, window), authorityId);
    }
  }

  lemma LineagesFollow(admissions: Admissions, captures: seq<Capture>, previous: Admissions, window: set<Month>,
                       snapshots: seq<Snapshot>, authorityId: string)
    requires AdmittedUpTo(admissions, captures, |captures|, InPeriods(previous, window), snapshots, authorityId)
    ensures LineagesKept(previous, admissions, window)
  {
    var start := InPeriods(previous, window);
    forall p | p in previous && p in window ensures p in admissions && LineageKept(previous[p], admissions[p]) {
      assert p in start;
      if exists i :: 0 <= i < |captures| && captures[i].period == p {
        var i :| 0 <= i < |captures| && captures[i].period == p;
        assert AdmitCapture(captures[i], PreviousOf(start, captures[i]), authorityId) == Some(admissions[p]);
      }
    }
  }

  predicate Delivers(captures: seq<Capture>, p: Month) {
    exists i :: 0 <= i < |captures| && captures[i].period == p
  }

  /** Admissions and snapshot marks of one run stay in step exactly when every period that is kept, not
      delivered, lies in the windows of both clock readings - the one admissions are selected by and the
      one evaluate gets - or in neither. */
  lemma AdmissionsFollowMarks(marks: map<Month, SnapshotMark>, previous: Admissions, admissions: Admissions,
                              captures: seq<Capture>, snapshots: seq<Snapshot>, mappingVersion: string,
                              admitted: Time, evaluated: Time, authorityId: string)
    requires ClockAccepted(admitted) && ClockAccepted(evaluated) && AdmissionsMatch(previous, marks)
    requires AdmittedUpTo(admissions, captures, |captures|, InPeriods(previous, Periods(admitted)), snapshots, authorityId)
    requires CapturesDistinct(captures)
    ensures AdmissionsMatch(admissions, MarksAfter(marks, snapshots, |snapshots|, mappingVersion, evaluated))
      <==> forall p :: p in marks && !Delivers(captures, p) ==> (p in Periods(admitted) <==> p in Periods(evaluated))
  {
    hide AdmitCapture, Periods, MarkOf, MarksAfter, Delivers;
    var after := MarksAfter(marks, snapshots, |snapshots|, mappingVersion, evaluated);
    forall p
      ensures Delivers(captures, p) ==> p in admissions && p in after
      ensures !Delivers(captures, p) ==> (p in admissions <==> p in marks && p in Periods(admitted))
      ensures !Delivers(captures, p) ==> (p in after <==> p in marks && p in Periods(evaluated))
      ensures p in admissions && p in after ==>
        admissions[p].revision == after[p].revision && admissions[p].snapshotId == after[p].snapshotId
    {
      if Delivers(captures, p) {
        var i := DeliveredAt(captures, p);
        DeliveredMark(marks, captures, snapshots, |snapshots|, mappingVersion, evaluated, i);
        AdmittedRecord(captures[i], PreviousOf(InPeriods(previous, Periods(admitted)), captures[i]), authorityId, admissions[p]);
      } else {
        NotDelivered(captures, p);
        RetainedMark(marks, snapshots, |snapshots|, mappingVersion, evaluated, p);
      }
    }
    assert admissions.Keys == after.Keys <==> forall p :: p in admissions <==> p in after;
  }

  lemma DeliveredAt(captures: seq<Capture>, p: Month) returns (i: nat)
    requires Delivers(captures, p)
    ensures i < |captures| && captures[i].period == p
  {
    i :| 0 <= i < |captures| && captures[i].period == p;
  }

  lemma NotDelivered(captures: seq<Capture>, p: Month)
    requires !Delivers(captures, p)
    ensures forall i :: 0 <= i < |captures| ==> captures[i].period != p
  {
  }

  lemma AdmittedRecord(capture: Capture, previous: Option<Admission>, authorityId: string, record: Admission)
    requires AdmitCapture(capture, previous, authorityId) == Some(record)
    ensures record.snapshotId == capture.snapshotId
  {
  }

  lemma {:induction false} DeliveredMark(marks: map<Month, SnapshotMark>, captures: seq<Capture>,
                                         snapshots: seq<Snapshot>, n: nat,
                                         mappingVersion: string, now: Time, i: nat)
    requires ClockAccepted(now) && i < n <= |snapshots| == |captures| && CapturesDistinct(captures)
    requires forall j :: 0 <= j < |captures| ==> snapshots[j] == SnapshotOf(captures[j], snapshots[j].revision)
    ensures var after := MarksAfter(marks, snapshots, n, mappingVersion, now);
      && captures[i].period in after && after[captures[i].period] == MarkOf(snapshots[i], mappingVersion)
    ensures MarkOf(snapshots[i], mappingVersion).revision == snapshots[i].revision
    ensures MarkOf(snapshots[i], mappingVersion).snapshotId == captures[i].snapshotId
  {
    hide Periods, ContentHash, MappingHash;
    if i < n - 1 {
      DeliveredMark(marks, captures, snapshots, n - 1, mappingVersion, now, i);
    }
  }

  lemma {:induction false} RetainedMark(marks: map<Month, SnapshotMark>, snapshots: seq<Snapshot>, n: nat,
                                        mappingVersion: string,
                                        now: Time, p: Month)
    requires ClockAccepted(now) && n <= |snapshots| && forall j :: 0 <= j < n ==> snapshots[j].period != p
    ensures var after := MarksAfter(marks, snapshots, n, mappingVersion, now);
      && (p in after <==> p in marks && p in Periods(now))
      && (p in after ==> after[p] == marks[p])
  {
    hide Periods, MarkOf;
    if n > 0 {
      RetainedMark(marks, snapshots, n - 1, mappingVersion, now, p);
    }
  }
}
