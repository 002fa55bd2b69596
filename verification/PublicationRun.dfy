/** One whole run of the pipeline: read the ledger object, admit the captures, evaluate, and write ledger
    and admissions back as one object on top of the one that was read. */
module PublicationRun {
  import opened Common
  import opened Calendar
  import opened LedgerTypes
  import opened LedgerAdmission
  import opened Ledger
  import D = Dispatch
  import W = DispatchWorker
  import opened BlobStore

  // ---------- what a run writes ----------

  function CellOf(base: Option<Outer>): Option<D.Cell> {
    if base.Some? then Some(D.Cell(base.value.envelope, 0)) else None
  }

  function StateIn(base: Option<Outer>): State {
    W.StateOf(CellOf(base))
  }

  function AdmissionsIn(base: Option<Outer>): Admissions {
    if base.Some? then base.value.admissions else map[]
  }

  function ManifestFor(policy: Policy, snapshots: seq<Snapshot>): Manifest {
    Manifest(SUBSCRIPTION, policy.mappingVersion, snapshots)
  }

  /** The inputs of a run: its captures, its policy and authority, and two readings of the clock, before
      the captures are admitted and before the ledger is evaluated. */
  datatype Inputs = Inputs(captures: seq<Capture>, policy: Policy, authorityId: string, admitted: Time, evaluated: Time)

  /** What a run writes on top of a base: the admitted captures and the ledger evaluated from them. */
  ghost predicate Follows(next: Outer, base: Option<Outer>, inputs: Inputs, snapshots: seq<Snapshot>, generation: string)
    requires ClockAccepted(inputs.admitted)
  {
    && CapturesDistinct(inputs.captures)
    && (forall c :: c in inputs.captures ==> c.period in Periods(inputs.admitted))
    && AdmittedUpTo(next.admissions, inputs.captures, |inputs.captures|, InPeriods(AdmissionsIn(base), Periods(inputs.admitted)),
                    snapshots, inputs.authorityId)
    && next.generation == generation
    && EvaluatesTo(ManifestFor(inputs.policy, snapshots), inputs, base, next.envelope)
  }

  ghost predicate EvaluatesTo(manifest: Manifest, inputs: Inputs, base: Option<Outer>, document: D.Document) {
    && Evaluate(manifest, inputs.policy, inputs.evaluated, StateIn(base)) == Some(document.commit.state)
    && document == W.NextDocument(CellOf(base), document.commit.state, inputs.policy, inputs.evaluated)
  }

  /** A run may write this object: it follows from the base, on which no delivery is open, and it passes
      validation. */
  ghost predicate MayWrite(next: Outer, base: Option<Outer>, inputs: Inputs, generation: string, floor: int) {
    && 1 <= |inputs.captures| <= 2 && ClockAccepted(inputs.admitted)
    && (base.Some? ==> !D.HasOpenEntry(base.value.envelope))
    && (exists snapshots :: Follows(next, base, inputs, snapshots, generation))
    && OuterValid(next, generation, floor)
  }

  // ---------- the publication store ----------

  /** Binds one set of admissions to one ledger object and its tag. */
  class PublicationStore {
    const store: BlobCASStore
    const outer: Option<Outer>
    const etag: Option<nat>
    const admissions: Admissions

    constructor (store: BlobCASStore, outer: Option<Outer>, etag: Option<nat>, admissions: Admissions)
      ensures this.store == store && this.outer == outer && this.etag == etag && this.admissions == admissions
    {
      this.store, this.outer, this.etag, this.admissions := store, outer, etag, admissions;
    }

    method Read() returns (document: Option<D.Document>)
      ensures document == if outer.Some? then Some(outer.value.envelope) else None
    {
      document := if outer.Some? then Some(outer.value.envelope) else None;
    }

    /** Writes ledger and admissions as one object, on the very object they were evaluated from and only
        while the retention proof stands. */
    method CompareAndSwap(expected: Option<nat>, document: D.Document, retained: bool, wire: Wire, others: seq<Outer>,
                          readBack: Wire)
      returns (r: WriteResult, ghost applied: bool)
      requires store.CacheFaithful() && store.minimumSequence >= 1
      modifies store, store.blob
      ensures store.CacheFaithful() && store.minimumSequence >= old(store.minimumSequence)
      ensures r.Written? ==> store.minimumSequence == document.commit.sequence
      ensures var next := Outer(store.generation, admissions, document);
        Outcome(r, applied, store.blob.history) == OutcomeOf(old(store.blob.history), expected, next,
          expected == etag && retained && OuterValid(next, store.generation, old(store.minimumSequence)) && old(store.MayStart(expected)),
          wire, others, readBack)
    {
      hide OuterValid;
      if expected != etag || !retained {
        return Rejected, false;
      }
      r, applied := store.WriteOuter(expected, Outer(store.generation, admissions, document), wire, others, readBack);
    }
  }

  /** publish, on a bound store: what it writes, if anything. */
  method PrepareDocument(publication: PublicationStore, manifest: Manifest, inputs: Inputs) returns (document: Option<D.Document>)
    ensures document.Some? <==>
      && (publication.outer.Some? ==> D.Valid(publication.outer.value.envelope) && !D.HasOpenEntry(publication.outer.value.envelope))
      && exists next :: EvaluatesTo(manifest, inputs, publication.outer, next) && D.Valid(next)
    ensures document.Some? ==> EvaluatesTo(manifest, inputs, publication.outer, document.value) && D.Valid(document.value)
  {
    hide Evaluate, D.Valid, D.HasOpenEntry, W.NextDocument;
    var read := publication.Read();
    if read.Some? && (!D.Valid(read.value) || D.HasOpenEntry(read.value)) {
      return None;
    }
    var result, intents := EvaluateLedger(manifest, inputs.policy, inputs.evaluated, StateIn(publication.outer));
    if result.None? {
      return None;
    }
    var next := W.NextDocument(CellOf(publication.outer), result.value, inputs.policy, inputs.evaluated);
    NextHolds(publication.outer, result.value, inputs);
    if !D.Valid(next) {
      return None;
    }
    assert EvaluatesTo(manifest, inputs, publication.outer, next);
    return Some(next);
  }

  lemma NextHolds(base: Option<Outer>, state: State, inputs: Inputs)
    ensures W.NextDocument(CellOf(base), state, inputs.policy, inputs.evaluated).commit.state == state
  {
  }

  // ---------- the admissions are determined ----------

  lemma AdmittedAreUnique(a: Admissions, b: Admissions, captures: seq<Capture>, start: Admissions, s: seq<Snapshot>,
                          t: seq<Snapshot>, authorityId: string)
    requires AdmittedUpTo(a, captures, |captures|, start, s, authorityId)
    requires AdmittedUpTo(b, captures, |captures|, start, t, authorityId)
    ensures a == b && s == t
  {
    hide AdmitCapture, SnapshotOf;
    forall p | p in a || p in b ensures p in a && p in b && a[p] == b[p] {
      if i :| 0 <= i < |captures| && captures[i].period == p {
        assert Some(a[captures[i].period]) == Some(b[captures[i].period]);
      }
    }
    assert a == b;
  }

  /** Whatever may be written is what these admissions and their evaluation give. */
  lemma MayWriteOnly(next: Outer, base: Option<Outer>, inputs: Inputs, admissions: Admissions, snapshots: seq<Snapshot>,
                     generation: string, floor: int)
    requires MayWrite(next, base, inputs, generation, floor)
    requires AdmittedUpTo(admissions, inputs.captures, |inputs.captures|, InPeriods(AdmissionsIn(base), Periods(inputs.admitted)),
                          snapshots, inputs.authorityId)
    ensures next == Outer(generation, admissions, next.envelope)
    ensures EvaluatesTo(ManifestFor(inputs.policy, snapshots), inputs, base, next.envelope)
    ensures D.Valid(next.envelope) && OuterValid(next, generation, floor)
  {
    hide D.HasOpenEntry, EvaluatesTo, AdmittedUpTo, ClockAccepted, Periods, D.Valid, AdmissionsMatch;
    var s :| Follows(next, base, inputs, s, generation);
    AdmittedAreUnique(admissions, next.admissions, inputs.captures, InPeriods(AdmissionsIn(base), Periods(inputs.admitted)),
                      snapshots, s, inputs.authorityId);
  }

  lemma EvaluatesOnce(manifest: Manifest, inputs: Inputs, base: Option<Outer>, a: D.Document, b: D.Document)
    requires EvaluatesTo(manifest, inputs, base, a) && EvaluatesTo(manifest, inputs, base, b)
    ensures a == b
  {
    hide Evaluate, W.NextDocument;
  }

  /** No document, nothing to write. */
  lemma NoDocument(base: Option<Outer>, inputs: Inputs, admissions: Admissions, snapshots: seq<Snapshot>, generation: string,
                   floor: int)
    requires ClockAccepted(inputs.admitted)
    requires AdmittedUpTo(admissions, inputs.captures, |inputs.captures|, InPeriods(AdmissionsIn(base), Periods(inputs.admitted)),
                          snapshots, inputs.authorityId)
    requires !((base.Some? ==> D.Valid(base.value.envelope) && !D.HasOpenEntry(base.value.envelope))
               && exists next :: EvaluatesTo(ManifestFor(inputs.policy, snapshots), inputs, base, next) && D.Valid(next))
    requires base.Some? ==> D.Valid(base.value.envelope)
    ensures !CanWrite(base, inputs, generation, floor)
  {
    hide D.HasOpenEntry, EvaluatesTo, AdmittedUpTo, ClockAccepted, Periods, D.Valid, OuterValid, Follows;
    if next :| MayWrite(next, base, inputs, generation, floor) {
      MayWriteOnly(next, base, inputs, admissions, snapshots, generation, floor);
      assert false;
    }
  }

  /** The document made from these admissions is the one to write, if it validates. */
  lemma MayWriteExactly(next: Outer, base: Option<Outer>, inputs: Inputs, snapshots: seq<Snapshot>, generation: string, floor: int)
    requires ClockAccepted(inputs.admitted) && 1 <= |inputs.captures| <= 2 && CapturesDistinct(inputs.captures)
    requires forall c :: c in inputs.captures ==> c.period in Periods(inputs.admitted)
    requires AdmittedUpTo(next.admissions, inputs.captures, |inputs.captures|, InPeriods(AdmissionsIn(base), Periods(inputs.admitted)),
                          snapshots, inputs.authorityId)
    requires EvaluatesTo(ManifestFor(inputs.policy, snapshots), inputs, base, next.envelope)
    requires next.generation == generation
    requires base.Some? ==> !D.HasOpenEntry(base.value.envelope)
    ensures MayWrite(next, base, inputs, generation, floor) <==> OuterValid(next, generation, floor)
    ensures CanWrite(base, inputs, generation, floor) <==> OuterValid(next, generation, floor)
  {
    hide D.HasOpenEntry, EvaluatesTo, AdmittedUpTo, ClockAccepted, Periods, OuterValid;
    assert Follows(next, base, inputs, snapshots, generation);
    forall other | MayWrite(other, base, inputs, generation, floor) ensures other == next {
      MayWriteOnly(other, base, inputs, next.admissions, snapshots, generation, floor);
      EvaluatesOnce(ManifestFor(inputs.policy, snapshots), inputs, base, other.envelope, next.envelope);
    }
  }

  lemma FollowingFits(next: Outer, base: Option<Outer>, inputs: Inputs, snapshots: seq<Snapshot>, generation: string)
    requires ClockAccepted(inputs.admitted) && Follows(next, base, inputs, snapshots, generation)
    ensures forall c :: c in inputs.captures ==>
      CaptureFits(c, InPeriods(AdmissionsIn(base), Periods(inputs.admitted)), Periods(inputs.admitted), inputs.authorityId)
  {
    hide EvaluatesTo, AdmitCapture, SnapshotOf;
    forall c | c in inputs.captures
      ensures CaptureFits(c, InPeriods(AdmissionsIn(base), Periods(inputs.admitted)), Periods(inputs.admitted), inputs.authorityId)
    {
      var i :| 0 <= i < |inputs.captures| && inputs.captures[i] == c;
    }
  }

  // ---------- the run ----------

  function BaseOf(history: seq<Outer>): Option<Outer> {
    if history == [] then None else Some(history[|history| - 1])
  }

  function FloorOf(base: Option<Outer>, floor: int): int {
    if base.Some? then base.value.envelope.commit.sequence else floor
  }

  /** Whether retention is proven, at the start and just before the write. */
  datatype Retention = Retention(first: bool, last: bool)

  /** What the network does to the read, the write and the read-back, and what others write meanwhile. */
  datatype Network = Network(read: Wire, write: Wire, others: seq<Outer>, readBack: Wire)

  predicate Calm(network: Network, retention: Retention) {
    network.read.Answered? && network.write.Answered? && retention.first && retention.last
  }

  /** The store may start from this base. */
  predicate Readable(store: BlobCASStore, base: Option<Outer>)
    reads store
  {
    match base
    case Some(outer) => OuterValid(outer, store.generation, store.minimumSequence)
    case None => !store.initialized && store.hasPermit && !store.permitUsed
  }

  /** Some object may be written. */
  ghost predicate CanWrite(base: Option<Outer>, inputs: Inputs, generation: string, floor: int) {
    exists next :: MayWrite(next, base, inputs, generation, floor)
  }

  /** Captures that do not fit leave nothing to write. */
  lemma NothingFollows(base: Option<Outer>, inputs: Inputs, generation: string, floor: int)
    requires ClockAccepted(inputs.admitted)
    requires !(CapturesDistinct(inputs.captures) && forall c :: c in inputs.captures ==>
      CaptureFits(c, InPeriods(AdmissionsIn(base), Periods(inputs.admitted)), Periods(inputs.admitted), inputs.authorityId))
    ensures !CanWrite(base, inputs, generation, floor)
  {
    hide OuterValid, EvaluatesTo, AdmittedUpTo, CaptureFits, D.HasOpenEntry, ClockAccepted, Periods;
    forall next | MayWrite(next, base, inputs, generation, floor) ensures CapturesDistinct(inputs.captures) && forall c :: c in inputs.captures ==>
      CaptureFits(c, InPeriods(AdmissionsIn(base), Periods(inputs.admitted)), Periods(inputs.admitted), inputs.authorityId)
    {
      var snapshots :| Follows(next, base, inputs, snapshots, generation);
      FollowingFits(next, base, inputs, snapshots, generation);
    }
  }

  lemma FittingIsInWindow(inputs: Inputs, base: Option<Outer>)
    requires ClockAccepted(inputs.admitted)
    requires forall c :: c in inputs.captures ==>
      CaptureFits(c, InPeriods(AdmissionsIn(base), Periods(inputs.admitted)), Periods(inputs.admitted), inputs.authorityId)
    ensures forall c :: c in inputs.captures ==> c.period in Periods(inputs.admitted)
  {
    hide Periods, AdmitCapture;
  }

  lemma ValidInside(outer: Outer, generation: string, floor: int)
    requires OuterValid(outer, generation, floor)
    ensures D.Valid(outer.envelope)
  {
  }

  lemma NeedsCaptures(base: Option<Outer>, inputs: Inputs, generation: string, floor: int)
    ensures CanWrite(base, inputs, generation, floor) ==> 1 <= |inputs.captures| <= 2 && ClockAccepted(inputs.admitted)
  {
    hide OuterValid, Follows, ClockAccepted;
  }

  /** The middle of a run: admits the captures against what was read and evaluates the ledger. What it makes
      is the one object that may be written, if it passes validation. */
  method Compose(store: BlobCASStore, base: Option<Outer>, etag: Option<nat>, inputs: Inputs, ghost floor: int)
    returns (next: Option<Outer>, publication: PublicationStore?)
    requires 1 <= |inputs.captures| <= 2 && ClockAccepted(inputs.admitted) && (base.Some? ==> D.Valid(base.value.envelope))
    ensures next.None? ==> !CanWrite(base, inputs, store.generation, floor)
    ensures next.Some? ==> next.value.generation == store.generation && publication != null
    ensures next.Some? ==>
      && publication.store == store && publication.outer == base && publication.etag == etag
      && publication.admissions == next.value.admissions
    ensures next.Some? ==> (MayWrite(next.value, base, inputs, store.generation, floor) <==> OuterValid(next.value, store.generation, floor))
    ensures next.Some? ==> (CanWrite(base, inputs, store.generation, floor) <==> OuterValid(next.value, store.generation, floor))
  {
    hide OuterValid, Follows, EvaluatesTo, AdmittedUpTo, CaptureFits, D.HasOpenEntry, D.Valid, MayWrite, CanWrite,
      ClockAccepted, Periods, CapturesDistinct, InPeriods, MayBeAdmitted, AllAdmitted, Retained, LineagesKept;
    var ok, admissions, snapshots := AdmitCaptures(inputs.captures, AdmissionsIn(base), Periods(inputs.admitted), inputs.authorityId);
    if !ok {
      NothingFollows(base, inputs, store.generation, floor);
      return None, null;
    }
    publication := new PublicationStore(store, base, etag, admissions);
    var document := PrepareDocument(publication, ManifestFor(inputs.policy, snapshots), inputs);
    if document.None? {
      NoDocument(base, inputs, admissions, snapshots, store.generation, floor);
      return None, null;
    }
    assert forall c :: c in inputs.captures ==> c.period in Periods(inputs.admitted) by {
      FittingIsInWindow(inputs, base);
    }
    MayWriteExactly(Outer(store.generation, admissions, document.value), base, inputs, snapshots, store.generation, floor);
    next := Some(Outer(store.generation, admissions, document.value));
  }

  /** run_once: whatever it writes lies directly on the object it read, carries admissions and the ledger
      evaluated from them, and passed validation; undisturbed, it writes exactly when there is such an
      object. */
  method RunOnce(store: BlobCASStore, inputs: Inputs, retention: Retention, network: Network)
    returns (ran: bool, ghost next: Outer, ghost applied: bool)
    requires store.CacheFaithful() && store.minimumSequence >= 1
    modifies store, store.blob
    ensures store.CacheFaithful() && store.minimumSequence >= old(store.minimumSequence)
    ensures ran ==> store.minimumSequence == next.envelope.commit.sequence
    ensures var base := BaseOf(old(store.blob.history));
      && (ran || applied ==> MayWrite(next, base, inputs, store.generation, FloorOf(base, old(store.minimumSequence))))
      && (applied ==> old(store.blob.history) + [next] <= store.blob.history)
      && (ran ==> next in store.blob.history && retention.first && retention.last)
      && (ran && next !in old(store.blob.history) && next !in network.others ==> applied)
      && (Calm(network, retention) ==>
            && (ran <==> old(Readable(store, base)) && CanWrite(base, inputs, store.generation, FloorOf(base, old(store.minimumSequence))))
            && store.blob.history == old(store.blob.history) + if ran then [next] else [])
  {
    hide OuterValid, MayWrite, CanWrite, ClockAccepted, D.Valid;
    ran, applied := false, false;
    next :| true;
    ghost var base := BaseOf(store.blob.history);
    ghost var floor := FloorOf(base, store.minimumSequence);
    if !(1 <= |inputs.captures| <= 2) || !retention.first {
      NeedsCaptures(base, inputs, store.generation, floor);
      return;
    }
    var read := store.ReadOuter(network.read);
    if read.ReadFailed? {
      return;
    }
    var outer := if read.Current? then Some(read.outer) else None;
    var etag := if read.Current? then Some(read.tag) else None;
    assert outer == base;
    if read.Current? {
      ValidInside(read.outer, store.generation, old(store.minimumSequence));
    }
    if !ClockAccepted(inputs.admitted) {
      NeedsCaptures(base, inputs, store.generation, floor);
      return;
    }
    var composed, publication := Compose(store, outer, etag, inputs, floor);
    if composed.None? {
      return;
    }
    next := composed.value;
    var r;
    r, applied := publication.CompareAndSwap(etag, composed.value.envelope, retention.last, network.write, network.others, network.readBack);
    ran := r.Written?;
  }

  // ---------- what may be written, in full ----------

  /** The written ledger: evaluated from the state that was read, or from none, one commit later, with every
      journal entry as it was. */
  lemma DocumentIs(manifest: Manifest, inputs: Inputs, base: Option<Outer>, document: D.Document)
    ensures EvaluatesTo(manifest, inputs, base, document) <==>
      && document.commit.at == inputs.evaluated && document.commit.freshnessHours == inputs.policy.freshnessHours
      && (base == None ==>
            && document.commit.sequence == 1 && document.journal == map[]
            && Evaluate(manifest, inputs.policy, inputs.evaluated, EMPTY_STATE) == Some(document.commit.state))
      && forall read :: base == Some(read) ==>
           && document.commit.sequence == read.envelope.commit.sequence + 1 && document.journal == read.envelope.journal
           && Evaluate(manifest, inputs.policy, inputs.evaluated, read.envelope.commit.state) == Some(document.commit.state)
  {
    hide Evaluate;
  }

  /** A run may write an object exactly when its one or two captures are of different periods of the window,
      each may be admitted against the record retained of its period, the object holds their records and
      the retained ones, its ledger is what evaluating their snapshots on an undisturbed base gives, and it
      passes validation. */
  lemma WritableExactly(next: Outer, base: Option<Outer>, inputs: Inputs, generation: string, floor: int, kept: Admissions)
    requires ClockAccepted(inputs.admitted) && Retained(kept, AdmissionsIn(base), Periods(inputs.admitted))
    ensures MayWrite(next, base, inputs, generation, floor) <==>
      && 1 <= |inputs.captures| <= 2 && CapturesDistinct(inputs.captures)
      && (forall c :: c in inputs.captures ==> c.period in Periods(inputs.admitted) && MayBeAdmitted(c, kept, inputs.authorityId))
      && (base.Some? ==> forall e :: e in base.value.envelope.journal ==>
            base.value.envelope.journal[e].status == D.Acknowledged || base.value.envelope.journal[e].status == D.RetiredNoSend)
      && next.generation == generation && OuterValid(next, generation, floor)
      && exists snapshots :: AllAdmitted(next.admissions, inputs.captures, kept, snapshots, inputs.authorityId)
           && EvaluatesTo(Manifest("production", inputs.policy.mappingVersion, snapshots), inputs, base, next.envelope)
  {
    hide OuterValid, EvaluatesTo, AdmittedUpTo, AllAdmitted, MayBeAdmitted, CaptureFits, ClockAccepted, Periods, InPeriods;
    AcceptanceMeans(inputs.captures, AdmissionsIn(base), Periods(inputs.admitted), inputs.authorityId);
    NoneOpen(base);
    if MayWrite(next, base, inputs, generation, floor) {
      var snapshots :| Follows(next, base, inputs, snapshots, generation);
      FollowingFits(next, base, inputs, snapshots, generation);
      AdmittedMeans(next.admissions, inputs.captures, kept, snapshots, inputs.authorityId);
      assert ManifestFor(inputs.policy, snapshots) == Manifest("production", inputs.policy.mappingVersion, snapshots);
    }
    if forall c :: c in inputs.captures ==> MayBeAdmitted(c, kept, inputs.authorityId) {
      forall snapshots | AllAdmitted(next.admissions, inputs.captures, kept, snapshots, inputs.authorityId)
        ensures AdmittedUpTo(next.admissions, inputs.captures, |inputs.captures|, kept, snapshots, inputs.authorityId)
      {
        AdmittedMeans(next.admissions, inputs.captures, kept, snapshots, inputs.authorityId);
      }
      if CapturesDistinct(inputs.captures) && (forall c :: c in inputs.captures ==> c.period in Periods(inputs.admitted))
         && next.generation == generation
      {
        forall snapshots | AllAdmitted(next.admissions, inputs.captures, kept, snapshots, inputs.authorityId)
             && EvaluatesTo(Manifest("production", inputs.policy.mappingVersion, snapshots), inputs, base, next.envelope)
          ensures Follows(next, base, inputs, snapshots, generation)
        {
          assert ManifestFor(inputs.policy, snapshots) == Manifest("production", inputs.policy.mappingVersion, snapshots);
        }
      }
    }
  }

  lemma NoneOpen(base: Option<Outer>)
    ensures (base.Some? ==> !D.HasOpenEntry(base.value.envelope)) <==>
      (base.Some? ==> forall e :: e in base.value.envelope.journal ==>
         base.value.envelope.journal[e].status == D.Acknowledged || base.value.envelope.journal[e].status == D.RetiredNoSend)
  {
    if base.Some? && !D.HasOpenEntry(base.value.envelope) {
      forall e | e in base.value.envelope.journal
        ensures base.value.envelope.journal[e].status == D.Acknowledged || base.value.envelope.journal[e].status == D.RetiredNoSend
      {
        assert !D.IsOpen(base.value.envelope.journal[e]);
      }
    }
  }

  // ---------- two readings of the clock ----------

  /** Periods of the base that no capture replaces. */
  predicate Retains(base: Option<Outer>, inputs: Inputs, p: Month) {
    p in StateIn(base).snapshots && !Delivers(inputs.captures, p)
  }

  /** What a run would write passes the admission check exactly when every period it retains lies in the
      windows of both clock readings or in neither: only a month's end between the two can fail it. */
  lemma AdmissionsStayInStep(next: Outer, base: Option<Outer>, inputs: Inputs, snapshots: seq<Snapshot>, generation: string)
    requires ClockAccepted(inputs.admitted) && Follows(next, base, inputs, snapshots, generation)
    requires AdmissionsMatch(AdmissionsIn(base), StateIn(base).snapshots)
    ensures ClockAccepted(inputs.evaluated)
    ensures AdmissionsMatch(next.admissions, next.envelope.commit.state.snapshots) <==>
      forall p :: Retains(base, inputs, p) ==> (p in Periods(inputs.admitted) <==> p in Periods(inputs.evaluated))
  {
    hide AdmittedUpTo, AdmissionsMatch, Delivers, Accepts, Periods, MarksAfter, W.NextDocument;
    MarksOfResult(ManifestFor(inputs.policy, snapshots), inputs.policy, inputs.evaluated, StateIn(base));
    AdmissionsFollowMarks(StateIn(base).snapshots, AdmissionsIn(base), next.admissions, inputs.captures, snapshots,
                          inputs.policy.mappingVersion, inputs.admitted, inputs.evaluated, inputs.authorityId);
  }

  lemma MarksOfResult(manifest: Manifest, policy: Policy, now: Time, previous: State)
    requires Evaluate(manifest, policy, now, previous).Some?
    ensures ClockAccepted(now)
    ensures Evaluate(manifest, policy, now, previous).value.snapshots
         == MarksAfter(previous.snapshots, manifest.snapshots, |manifest.snapshots|, policy.mappingVersion, now)
  {
    hide ClockAccepted, Admissible, MarksAfter;
  }
}
