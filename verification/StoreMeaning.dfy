/** Which stored objects a reader accepts, field by field. */
module StoreMeaning {
  import opened Common
  import opened LedgerTypes
  import opened LedgerAcceptance
  import opened Dispatch
  import opened BlobStore

  /** A receipt exactly with an acknowledgement; a retirement only of what was never attempted, at a commit
      there was. */
  ghost predicate EntrySoundAt(entry: JournalEntry, sequence: int) {
    && 0 <= entry.attempts <= 100
    && (entry.receipt != None <==> entry.status.Acknowledged?)
    && (entry.retiredAt == None <==> !entry.status.RetiredNoSend?)
    && forall n :: entry.retiredAt == Some(n) ==> entry.attempts == 0 && 0 < n <= sequence
  }

  ghost predicate DocumentSound(doc: Document) {
    && 0 < doc.commit.sequence <= 9_000_000_000_000_000 && 0 < doc.commit.freshnessHours <= 36
    && StateSound(doc.commit.state)
    && |doc.journal| <= 4_096
    && forall e :: e in doc.journal ==> EntrySoundAt(doc.journal[e], doc.commit.sequence)
  }

  lemma DocumentSoundExactly(doc: Document)
    ensures Valid(doc) <==> DocumentSound(doc)
  {
    hide StateAccepted, StateSound;
    StateAcceptedExactly(doc.commit.state);
    forall e | e in doc.journal ensures EntryValid(doc.journal[e], doc.commit.sequence) <==> EntrySoundAt(doc.journal[e], doc.commit.sequence) {
      EntrySoundExactly(doc.journal[e], doc.commit.sequence);
    }
  }

  lemma EntrySoundExactly(entry: JournalEntry, sequence: int)
    ensures EntryValid(entry, sequence) <==> EntrySoundAt(entry, sequence)
  {
  }

  /** A reader takes an object of its generation and of the production subscription, with a sound document not
      older than one it has seen, and for each of at most two snapshots the admission it came from. */
  lemma ReadableExactly(outer: Outer, generation: string, floor: int)
    ensures OuterValid(outer, generation, floor) <==>
      && outer.generation == generation && DocumentSound(outer.envelope)
      && floor <= outer.envelope.commit.sequence && outer.envelope.commit.state.subscription == Some("production")
      && |outer.admissions| <= 2
      && (forall p :: p in outer.admissions <==> p in outer.envelope.commit.state.snapshots)
      && forall p :: p in outer.admissions ==>
           var admission, mark := outer.admissions[p], outer.envelope.commit.state.snapshots[p];
           && admission.revision == mark.revision && admission.snapshotId == mark.snapshotId
           && 0 < admission.authoritySequence <= 1_000_000
  {
    hide Valid, DocumentSound;
    DocumentSoundExactly(outer.envelope);
  }
}
