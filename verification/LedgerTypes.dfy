/** The billing ledger's data: policy, manifest, evaluations, outbox and durable state.

    A SHA-256 digest is modelled as the value it was taken of, wrapped in a constructor, so
    two digests are equal exactly when the digested contents are. Amounts are integers in
    units of 10^-18 USD. */
module LedgerTypes {
  import opened Common
  import opened Calendar
  import opened Decimals

  type ServiceId = string
  type Amount = int

  const MAX_RECORDS := 25_000
  const MAX_REPLAY_DAYS := 62
  const MATURITY_HOURS := 72

  // ---------- policy ----------

  datatype Policy = Policy(
    version: string, mappingVersion: string, expectedSubscription: string,
    services: seq<ServiceId>, minimumQualifyingServices: int, threshold: Amount,
    maturityHours: int, freshnessHours: int)

  /** The digest of a policy; its services are sorted before digesting. */
  datatype PolicyDigest = PolicyDigest(
    version: string, mappingVersion: string, subscription: string,
    services: set<ServiceId>, minimumQualifyingServices: int, threshold: Amount,
    maturityHours: int, freshnessHours: int)

  function Services(policy: Policy): set<ServiceId> {
    set s | s in policy.services
  }

  function Fingerprint(policy: Policy): PolicyDigest {
    PolicyDigest(policy.version, policy.mappingVersion, policy.expectedSubscription, Services(policy),
                 policy.minimumQualifyingServices, policy.threshold, policy.maturityHours, policy.freshnessHours)
  }

  predicate PolicyAccepted(policy: Policy) {
    && 6 <= |policy.services| <= 64
    && (forall i, j :: 0 <= i < j < |policy.services| ==> policy.services[i] != policy.services[j])
    && 6 <= policy.minimumQualifyingServices <= |policy.services|
    && 0 < policy.threshold
    && policy.maturityHours == MATURITY_HOURS
    && 1 <= policy.freshnessHours <= 36
  }

  // ---------- manifest ----------

  datatype Record = Record(sourceRecordId: string, serviceId: Option<ServiceId>, provider: string,
                           serviceName: Option<string>, charge: Amount, form: Form)

  datatype DayRecords = DayRecords(date: Day, finalized: bool, finalizationEvidence: Option<string>,
                                   records: seq<Record>)

  datatype Snapshot = Snapshot(period: Month, snapshotId: string, revision: int, exportedAt: Time,
                               ingestionComplete: bool, completenessEvidence: Option<string>,
                               days: seq<DayRecords>)

  datatype Manifest = Manifest(subscription: string, mappingVersion: string, snapshots: seq<Snapshot>)

  // ---------- evaluations ----------

  datatype Basis = Observed | Mature | Confirmed

  datatype PerBasis<T> = PerBasis(observed: T, mature: T, confirmed: T) {
    function At(b: Basis): T {
      match b
      case Observed => observed
      case Mature => mature
      case Confirmed => confirmed
    }
  }

  datatype Subject = ServiceDay(service: ServiceId, date: Day) | MinimumServices(date: Day)

  datatype Blocker = MissingDay | IncompleteExport | StaleExport | UnfinalizedDay | ImmatureDay | NoMatchingRecords

  datatype AmountClass = AmountMissing | Unmatched | NetZero | ExplicitZero | Qualifying | BelowThreshold

  datatype Evaluation =
    | ServiceEvaluation(
        date: Day, service: ServiceId, mappingVersion: string, policyVersion: string,
        netUsd: Option<Amount>, matchingRecords: Option<nat>, amountClass: AmountClass,
        mature: bool, confirmed: bool, blockers: seq<Blocker>, observationBlockers: seq<Blocker>,
        qualifies: bool, belowThreshold: bool,
        basisQualifies: PerBasis<bool>, consecutiveDays: PerBasis<int>)
    | MinimumEvaluation(
        date: Day, mappingVersion: string, policyVersion: string, qualifies: bool,
        minimumQualifyingServices: int, qualifyingServices: PerBasis<int>,
        basisQualifies: PerBasis<bool>, consecutiveDays: PerBasis<int>)

  /** `value.get("belowThreshold") is True`: the combined evaluation has no such field. */
  predicate IsBelowThreshold(value: Evaluation) {
    value.ServiceEvaluation? && value.belowThreshold
  }

  datatype EvaluationDigest = EvaluationDigest(value: Evaluation)

  datatype EvaluationEntry = EvaluationEntry(fingerprint: EvaluationDigest, sequence: int, value: Evaluation)

  // ---------- outbox ----------

  datatype EventId = EventId(subject: Subject, sequence: int, policy: PolicyDigest, evaluation: EvaluationDigest)

  datatype EventKind = QualificationPending | BelowThresholdPending | CorrectionPending

  datatype EventStatus = PendingNoTransport | Superseded

  datatype Event = Event(id: EventId, subject: Subject, sequence: int, kind: EventKind, status: EventStatus,
                         current: Evaluation, previous: Option<Evaluation>)

  /** The outbox is a list kept sorted by unique ids: a map from id to event. */
  type Outbox = map<EventId, Event>

  // ---------- snapshot marks ----------

  datatype RawRow = RawRow(sourceRecordId: string, provider: string, serviceName: Option<string>, charge: Amount,
                           form: Form)

  datatype DayDigest<Row> = DayDigest(finalized: bool, finalizationEvidence: Option<string>, rows: multiset<Row>)

  /** Digest of a snapshot with its days and rows sorted: what is left of a list once its
      order is normalised away is its multiset, and of days with distinct dates their map. */
  datatype SnapshotDigest<Row> = SnapshotDigest(
    period: Month, snapshotId: string, revision: int, exportedAt: Time, ingestionComplete: bool,
    completenessEvidence: Option<string>, days: map<Day, DayDigest<Row>>)

  datatype SnapshotMark = SnapshotMark(
    snapshotId: string, revision: int, exportedAt: Time,
    contentHash: SnapshotDigest<RawRow>, mappingHash: SnapshotDigest<Record>, mappingVersion: string)

  // ---------- durable state ----------

  datatype Carry = Carry(through: Day, policy: PolicyDigest, evaluations: map<Subject, EvaluationEntry>)

  datatype State = State(
    subscription: Option<string>, policy: Option<PolicyDigest>, snapshots: map<Month, SnapshotMark>,
    evaluations: map<Subject, EvaluationEntry>, outbox: Outbox, carry: Option<Carry>)

  const EMPTY_STATE := State(None, None, map[], map[], map[], None)

  predicate EntriesAccepted(entries: map<Subject, EvaluationEntry>) {
    forall s :: s in entries ==>
      && 1 <= entries[s].sequence <= 1_000_000
      && entries[s].fingerprint == EvaluationDigest(entries[s].value)
  }

  /** previous_contract: what a stored state must satisfy to be read back. */
  predicate StateAccepted(state: State) {
    && (state.subscription.None? ==>
          state.snapshots == map[] && state.evaluations == map[] && state.outbox == map[]
          && state.carry.None? && state.policy.None?)
    && |state.snapshots| <= 2
    && (forall p :: p in state.snapshots ==> 1 <= state.snapshots[p].revision <= 1_000_000)
    && EntriesAccepted(state.evaluations)
    && (state.carry.Some? ==>
          EntriesAccepted(state.carry.value.evaluations) && |state.carry.value.evaluations| <= 65)
    && (forall id :: id in state.outbox ==>
          state.outbox[id].id == id && 1 <= state.outbox[id].sequence <= 1_000_000)
  }

  /** The event of the outbox that may be delivered under this id now, if any. */
  function Eligible(state: State, id: EventId): Option<Event> {
    if id in state.outbox then
      var event := state.outbox[id];
      if event.status == PendingNoTransport && event.subject in state.evaluations then
        var current := state.evaluations[event.subject];
        if && current.sequence == event.sequence
           && current.value == event.current
           && state.policy.Some?
           && id == EventId(event.subject, event.sequence, state.policy.value, current.fingerprint)
        then Some(event) else None
      else None
    else None
  }
}
