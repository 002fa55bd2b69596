/** What a copy leaves in the target and what the removal takes away, object by object. */
module ObjectMeaning {
  import opened Common
  import opened FrameEncoding
  import opened ObjectCopy

  /** The body is the referenced content: its size, its digest and, if the reference says, its content type. */
  predicate IsReferenced(body: Body, r: Reference) {
    && |body.content| == r.size && r.digest == Sha256(body.content)
    && (r.contentType.None? || body.contentType == r.contentType)
  }

  /** The content type a reference asks for, or else the one of its source. */
  function TypeOf(r: Reference, original: Body): Option<string> {
    match r.contentType
    case Some(_) => r.contentType
    case None => original.contentType
  }

  /** What a finished copy says of one reference: the target holds the very bytes of the source, under the
      right content type; the entry names both, and says whether this transfer owns the object. */
  ghost predicate IsCopied(entry: Entry, target: Bodies, source: Bodies, m: Manifest, r: Reference) {
    && r.sourceKey in source && IsReferenced(source[r.sourceKey], r) && r.targetKey in target
    && target[r.targetKey].content == source[r.sourceKey].content
    && (TypeOf(r, source[r.sourceKey]).Some? ==> target[r.targetKey].contentType == TypeOf(r, source[r.sourceKey]))
    && entry.reference == Reference(r.sourceKey, r.targetKey, r.digest, r.size, TypeOf(r, source[r.sourceKey]))
    && (entry.created <==> target[r.targetKey].owner == Some(Owner(m.transferId, m.snapshot, r.digest)))
  }

  lemma ReceiptMeans(receipt: seq<Entry>, target: Bodies, source: Bodies, before: Bodies, objects: Objects, m: Manifest, crashAfter: nat)
    requires CopyHolds(Copied(receipt), |m.objects|, target, source, before, objects, m, crashAfter)
    ensures |receipt| == |m.objects|
    ensures forall i :: 0 <= i < |receipt| ==> IsCopied(receipt[i], target, source, m, m.objects[i])
  {
    hide CopyBodies, DistinctTargets;
    forall i | 0 <= i < |receipt| ensures IsCopied(receipt[i], target, source, m, m.objects[i]) {
      assert EntryFits(receipt[i], target, source, m, m.objects[i]);
      assert TypeOf(m.objects[i], source[m.objects[i].sourceKey]) == Resolved(m.objects[i], source[m.objects[i].sourceKey]).contentType;
    }
  }

  /** The same of a copy amid other writers, for what was there when each object was read back. */
  lemma DescribedIsCopied(entry: Entry, now: State, source: Bodies, m: Manifest, r: Reference)
    requires SourceFits(source, r) && Describes(entry, now, source, m, r)
    ensures IsCopied(entry, BodiesOf(now.objects), source, m, r) && entry.etag == now.objects[r.targetKey].etag
  {
    assert TypeOf(r, source[r.sourceKey]) == Resolved(r, source[r.sourceKey]).contentType;
  }

  /** An object that was missing holds after the copy what the source holds, and belongs to this transfer. */
  lemma {:induction false} MissingIsCreated(before: Bodies, source: Bodies, m: Manifest, i: nat)
    requires i < |m.objects| && DistinctTargets(m.objects) && m.objects[i].sourceKey in source && m.objects[i].targetKey !in before
    ensures var r, after := m.objects[i], CopyBodies(before, source, m, |m.objects|);
      && r.targetKey in after
      && after[r.targetKey] == Body(source[r.sourceKey].content, TypeOf(r, source[r.sourceKey]),
                                    Some(Owner(m.transferId, m.snapshot, r.digest)))
  {
    NotCreatedEarlier(before, source, m, m.objects[i].targetKey, i);
    CopyKeeps(before, source, m, |m.objects|, i + 1);
  }

  /** An object that was there stays, and no key is added but those of the references. */
  lemma {:induction false} OthersStay(before: Bodies, source: Bodies, m: Manifest, n: nat, key: string)
    requires n <= |m.objects|
    ensures key in before ==> key in CopyBodies(before, source, m, n) && CopyBodies(before, source, m, n)[key] == before[key]
    ensures key in CopyBodies(before, source, m, n) && key !in before ==>
      exists i :: 0 <= i < n && m.objects[i].targetKey == key && m.objects[i].sourceKey in source
  {
    hide NewBody;
    if n > 0 {
      OthersStay(before, source, m, n - 1, key);
    }
  }

  /** An undisturbed copy gets to its end exactly when target keys are distinct, every source is what its
      reference says, and every object already in the target has the bytes and the content type. */
  lemma FinishesExactly(before: Bodies, source: Bodies, m: Manifest)
    ensures Finishes(before, source, m) <==>
      && (forall i, j :: 0 <= i < j < |m.objects| ==> m.objects[i].targetKey != m.objects[j].targetKey)
      && (forall r :: r in m.objects ==> r.sourceKey in source && IsReferenced(source[r.sourceKey], r))
      && (forall r :: r in m.objects && r.targetKey in before ==>
            && before[r.targetKey].content == source[r.sourceKey].content
            && (TypeOf(r, source[r.sourceKey]).Some? ==> before[r.targetKey].contentType == TypeOf(r, source[r.sourceKey])))
  {
    hide CopyBodies;
    var after := CopyBodies(before, source, m, |m.objects|);
    if (forall i :: 0 <= i < |m.objects| ==> SourceFits(source, m.objects[i])) && DistinctTargets(m.objects) {
      forall i | 0 <= i < |m.objects|
        ensures TargetFits(after, source, m.objects[i]) <==> (m.objects[i].targetKey in before ==>
          && before[m.objects[i].targetKey].content == source[m.objects[i].sourceKey].content
          && (TypeOf(m.objects[i], source[m.objects[i].sourceKey]).Some? ==>
                before[m.objects[i].targetKey].contentType == TypeOf(m.objects[i], source[m.objects[i].sourceKey])))
      {
        var r := m.objects[i];
        OthersStay(before, source, m, |m.objects|, r.targetKey);
        if r.targetKey !in before {
          MissingIsCreated(before, source, m, i);
        }
      }
    }
  }

  // ---------- the removal ----------

  /** What is removed was created by this transfer according to its receipt, is not referenced any more, and
      is when it is removed the object the receipt names: its ETag, its size and its owner. */
  lemma RemovedIsOwn(s: State, m: Manifest, receipt: seq<Entry>, referenced: set<string>, others: nat -> seq<Change>, i: nat)
    requires Numbered(s) && i < |Stale(receipt, referenced, |receipt|)|
    requires RemovalAt(s, m, Stale(receipt, referenced, |receipt|), others, i) == Taken
    ensures var stale := Stale(receipt, referenced, |receipt|);
      var e, start := stale[i], AfterAttempts(s, m, stale, others, i);
      var seen := Amid(start, others(2 * i), |others(2 * i)|);
      var now := Amid(seen, others(2 * i + 1), |others(2 * i + 1)|);
      && e in receipt && e.created && e.reference.targetKey !in referenced && e.reference.targetKey in now.objects
      && var found := now.objects[e.reference.targetKey];
         && found.etag == e.etag && |found.body.content| == e.reference.size
         && found.body.owner == Some(Owner(m.transferId, m.snapshot, e.reference.digest))
  {
    hide Amid, Stale;
    var stale := Stale(receipt, referenced, |receipt|);
    AttemptsKeepNumbers(s, m, stale, others, i);
    TakenIsRecorded(AfterAttempts(s, m, stale, others, i), m, stale[i], others(2 * i), others(2 * i + 1));
    assert stale[i] in stale;
    assert receipt[..|receipt|] == receipt;
  }

  lemma {:induction false} AttemptsKeepNumbers(s: State, m: Manifest, stale: seq<Entry>, others: nat -> seq<Change>, n: nat)
    requires Numbered(s) && n <= |stale|
    ensures Numbered(AfterAttempts(s, m, stale, others, n))
  {
    hide Attempted, Numbered;
    if n > 0 {
      AttemptsKeepNumbers(s, m, stale, others, n - 1);
      TakenIsRecorded(AfterAttempts(s, m, stale, others, n - 1), m, stale[n - 1], others(2 * n - 2), others(2 * n - 1));
    }
  }

  /** Left alone, an entry of the receipt leads to a removal exactly when it says created, its key is not
      referenced, and the object is still the one it names; it stops the removal if another is there. */
  lemma LeftAloneExactly(s: State, m: Manifest, e: Entry)
    ensures var (after, removal) := Attempted(s, m, e, [], []);
      var key := e.reference.targetKey;
      && (removal == Absent <==> key !in s.objects)
      && (removal == Taken <==> key in s.objects && s.objects[key].etag == e.etag && |s.objects[key].body.content| == e.reference.size
                                && s.objects[key].body.owner == Some(Owner(m.transferId, m.snapshot, e.reference.digest)))
      && after.objects == if removal == Taken then s.objects - {key} else s.objects
  {
  }

  /** The stale entries are those of created objects that are no longer referenced, each once, in order. */
  lemma {:induction false} StaleAre(receipt: seq<Entry>, referenced: set<string>, n: nat)
    requires n <= |receipt|
    ensures forall e :: e in Stale(receipt, referenced, n) <==> e in receipt[..n] && e.created && e.reference.targetKey !in referenced
    ensures n > 0 ==>
      Stale(receipt, referenced, n) == (Stale(receipt, referenced, n - 1)
        + if receipt[n - 1].created && receipt[n - 1].reference.targetKey !in referenced then [receipt[n - 1]] else [])
  {
    if n > 0 {
      StaleAre(receipt, referenced, n - 1);
      assert receipt[..n] == receipt[..n - 1] + [receipt[n - 1]];
    }
  }
}
