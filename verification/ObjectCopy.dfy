/** Copying the objects a snapshot refers to, create-only, and removing the ones a later snapshot no
    longer needs. */
module ObjectCopy {
  import opened Common
  import opened FrameEncoding

  datatype Owner = Owner(transferId: string, snapshot: string, digest: Digest)
  datatype Body = Body(content: Bytes, contentType: Option<string>, owner: Option<Owner>)
  datatype Object = Object(body: Body, etag: nat)
  datatype Reference = Reference(sourceKey: string, targetKey: string, digest: Digest, size: nat, contentType: Option<string>)
  datatype Manifest = Manifest(transferId: string, snapshot: string, objects: seq<Reference>)
  datatype Entry = Entry(reference: Reference, created: bool, etag: nat)

  type Bodies = map<string, Body>
  type Objects = map<string, Object>

  // ---------- one object ----------

  predicate BodyFits(body: Body, r: Reference) {
    && |body.content| == r.size && Sha256(body.content) == r.digest
    && (r.contentType.Some? ==> body.contentType == r.contentType)
  }

  function OwnerFor(m: Manifest, r: Reference): Owner {
    Owner(m.transferId, m.snapshot, r.digest)
  }

  /** The reference as copied: a missing content type is taken from the source. */
  function Resolved(r: Reference, original: Body): Reference {
    r.(contentType := if r.contentType.Some? then r.contentType else original.contentType)
  }

  function NewBody(m: Manifest, r: Reference, original: Body): Body {
    Body(original.content, Resolved(r, original).contentType, Some(OwnerFor(m, r)))
  }

  /** Reads a body chunk by chunk and never takes more than the declared size. However the body is cut
      into chunks, it is accepted exactly when it is the referenced content. */
  method VerifiedBytes(chunks: seq<Bytes>, body: Body, r: Reference) returns (content: Option<Bytes>)
    requires body.content == Flatten(chunks, |chunks|)
    ensures content.Some? <==> BodyFits(body, r)
    ensures content.Some? ==> content.value == body.content
  {
    if |body.content| != r.size || (r.contentType.Some? && body.contentType != r.contentType) {
      return None;
    }
    var taken: Bytes := [];
    for i := 0 to |chunks|
      invariant taken == Flatten(chunks, i) && |taken| <= r.size
    {
      FlattenGrows(chunks, i + 1, |chunks|);
      if |chunks[i]| > r.size - |taken| {
        return None;
      }
      taken := taken + chunks[i];
    }
    if |taken| == r.size && Sha256(taken) == r.digest {
      return Some(taken);
    }
    return None;
  }

  // ---------- the copy, by its effect ----------

  /** One reference: an object is created if there is none. */
  function CreatedIn(target: Bodies, source: Bodies, m: Manifest, r: Reference): Bodies {
    if r.targetKey in target || r.sourceKey !in source then target
    else target[r.targetKey := NewBody(m, r, source[r.sourceKey])]
  }

  /** The target after the first n references. */
  function CopyBodies(target: Bodies, source: Bodies, m: Manifest, n: nat): Bodies
    requires n <= |m.objects|
  {
    if n == 0 then target
    else CreatedIn(CopyBodies(target, source, m, n - 1), source, m, m.objects[n - 1])
  }

  predicate SourceFits(source: Bodies, r: Reference) {
    r.sourceKey in source && BodyFits(source[r.sourceKey], r)
  }

  predicate TargetFits(target: Bodies, source: Bodies, r: Reference) {
    && r.sourceKey in source && r.targetKey in target
    && BodyFits(target[r.targetKey], Resolved(r, source[r.sourceKey]))
  }

  /** What the receipt says of one reference, apart from the ETag. */
  predicate EntryFits(entry: Entry, target: Bodies, source: Bodies, m: Manifest, r: Reference) {
    && TargetFits(target, source, r)
    && entry.reference == Resolved(r, source[r.sourceKey])
    && (entry.created <==> target[r.targetKey].owner == Some(OwnerFor(m, r)))
  }

  predicate DistinctTargets(objects: seq<Reference>) {
    forall i, j :: 0 <= i < j < |objects| ==> objects[i].targetKey != objects[j].targetKey
  }

  lemma {:induction false} CopyKeeps(target: Bodies, source: Bodies, m: Manifest, n: nat, k: nat)
    requires k <= n <= |m.objects|
    ensures forall key :: key in CopyBodies(target, source, m, k) ==>
      key in CopyBodies(target, source, m, n) && CopyBodies(target, source, m, n)[key] == CopyBodies(target, source, m, k)[key]
  {
    hide NewBody;
    if k < n {
      CopyKeeps(target, source, m, n - 1, k);
    }
  }

  function BodiesOf(objects: Objects): Bodies {
    map key | key in objects :: objects[key].body
  }

  // ---------- stores ----------

  class ObjectStore {
    var objects: Objects
    var nextEtag: nat

    ghost predicate Valid()
      reads this
    {
      forall key :: key in objects ==> objects[key].etag < nextEtag
    }

    ghost function Held(): Bodies
      reads this
    {
      BodiesOf(objects)
    }

    constructor ()
      ensures Valid() && objects == map[]
    {
      objects, nextEtag := map[], 0;
    }

    method Read(key: string) returns (found: Option<Object>, chunks: seq<Bytes>)
      ensures found == if key in objects then Some(objects[key]) else None
      ensures found.Some? ==> found.value.body.content == Flatten(chunks, |chunks|)
    {
      if key !in objects {
        return None, [];
      }
      found, chunks := Some(objects[key]), [objects[key].body.content];
      assert Flatten(chunks, 1) == Flatten(chunks, 0) + chunks[0];
    }

    /** Creates an object unless the key is taken; a new object gets a new ETag. */
    method CreateOnly(key: string, body: Body) returns (created: bool)
      requires Valid()
      modifies this
      ensures Valid() && created == (key !in old(objects))
      ensures objects == if created then old(objects)[key := Object(body, old(nextEtag))] else old(objects)
      ensures nextEtag == if created then old(nextEtag) + 1 else old(nextEtag)
    {
      created := key !in objects;
      if created {
        objects := objects[key := Object(body, nextEtag)];
        nextEtag := nextEtag + 1;
      }
    }

    /** Removes an object only while it still has the given ETag. */
    method RemoveIfMatch(key: string, etag: nat) returns (removal: Removal)
      requires Valid()
      modifies this
      ensures Valid() && nextEtag == old(nextEtag)
      ensures removal == RemovalOf(old(objects), key, etag)
      ensures objects == if removal == Taken then old(objects) - {key} else old(objects)
    {
      removal := RemovalOf(objects, key, etag);
      if removal == Taken {
        objects := objects - {key};
      }
    }

    /** Other writers use the store. */
    method Disturb(changes: seq<Change>)
      requires Valid()
      modifies this
      ensures Valid() && State(objects, nextEtag) == Amid(old(State(objects, nextEtag)), changes, |changes|)
    {
      for i := 0 to |changes|
        invariant Valid() && State(objects, nextEtag) == Amid(old(State(objects, nextEtag)), changes, i)
      {
        match changes[i] {
          case Put(key, body) => objects := objects[key := Object(body, nextEtag)];
          case Drop(key) => objects := objects - {key};
        }
        nextEtag := nextEtag + 1;
      }
    }
  }

  /** What a conditional removal did: removed the object, found none, or found another version, which
      the store reports as an error. */
  datatype Removal = Taken | Absent | Changed

  function RemovalOf(objects: Objects, key: string, etag: nat): Removal {
    if key !in objects then Absent else if objects[key].etag == etag then Taken else Changed
  }

  /** What another writer does to the store: it puts an object, under a new ETag, or removes one. */
  datatype Change = Put(key: string, body: Body) | Drop(key: string)

  datatype State = State(objects: Objects, nextEtag: nat)

  function AfterChange(s: State, change: Change): State {
    match change
    case Put(key, body) => State(s.objects[key := Object(body, s.nextEtag)], s.nextEtag + 1)
    case Drop(key) => State(s.objects - {key}, s.nextEtag + 1)
  }

  /** The store after the first n changes of other writers. */
  function Amid(s: State, changes: seq<Change>, n: nat): State
    requires n <= |changes|
  {
    if n == 0 then s else AfterChange(Amid(s, changes, n - 1), changes[n - 1])
  }

  ghost predicate Numbered(s: State) {
    forall key :: key in s.objects ==> s.objects[key].etag < s.nextEtag
  }

  /** An object of the later store that has an ETag issued before is an object of the earlier one. */
  ghost predicate SameUnderOldEtags(s: State, now: State) {
    && s.nextEtag <= now.nextEtag
    && forall key :: key in now.objects && now.objects[key].etag < s.nextEtag ==> key in s.objects && s.objects[key] == now.objects[key]
  }

  /** Whatever others do in between, an object that still has an ETag issued before is still that object. */
  lemma {:induction false} SameEtagSameObject(s: State, changes: seq<Change>, n: nat)
    requires Numbered(s) && n <= |changes|
    ensures Numbered(Amid(s, changes, n)) && SameUnderOldEtags(s, Amid(s, changes, n))
  {
    if n > 0 {
      SameEtagSameObject(s, changes, n - 1);
    }
  }

  // ---------- the copy, step by step ----------

  datatype CopyResult = Copied(receipt: seq<Entry>) | DuplicateTarget | Failed(at: nat) | Crashed

  /** Where the copy got to. */
  ghost predicate CopyHolds(result: CopyResult, done: nat, target: Bodies, source: Bodies, before: Bodies,
                            objects: Objects, m: Manifest, crashAfter: nat) {
    && done <= |m.objects| && target == CopyBodies(before, source, m, done)
    && (result.DuplicateTarget? <==> !DistinctTargets(m.objects))
    && match result
       case Copied(receipt) =>
         && done == |receipt| == |m.objects| <= crashAfter
         && forall i :: 0 <= i < done ==>
              && SourceFits(source, m.objects[i]) && EntryFits(receipt[i], target, source, m, m.objects[i])
              && m.objects[i].targetKey in objects && receipt[i].etag == objects[m.objects[i].targetKey].etag
       case DuplicateTarget => done == 0
       case Failed(i) =>
         && i < |m.objects|
         && (!SourceFits(source, m.objects[i]) ==> done == i)
         && (SourceFits(source, m.objects[i]) ==> done == i + 1 && !TargetFits(target, source, m.objects[i]))
       case Crashed => done == crashAfter + 1
  }

  /** An undisturbed copy would get to its end: target keys are distinct, every source is what the manifest
      says, and so is every object that then stands in the target. */
  ghost predicate Finishes(before: Bodies, source: Bodies, m: Manifest) {
    && DistinctTargets(m.objects)
    && forall i :: 0 <= i < |m.objects| ==>
         SourceFits(source, m.objects[i]) && TargetFits(CopyBodies(before, source, m, |m.objects|), source, m.objects[i])
  }

  /** Objects that were there before are untouched. */
  ghost predicate Untouched(before: Objects, now: Objects) {
    forall key :: key in before ==> key in now && now[key] == before[key]
  }

  // ---------- the copy amid other writers ----------

  /** One reference: an object is created, under a new ETag, if there is none. */
  function Made(s: State, source: Bodies, m: Manifest, r: Reference): State {
    if r.targetKey in s.objects || r.sourceKey !in source then s
    else State(s.objects[r.targetKey := Object(NewBody(m, r, source[r.sourceKey]), s.nextEtag)], s.nextEtag + 1)
  }

  /** The target when the n-th object was read back; others(k) is what other writers do before the k-th
      request to the target, of which each reference has two. */
  function AmidCopy(s: State, source: Bodies, m: Manifest, others: nat -> seq<Change>, n: nat): State
    requires n <= |m.objects|
    decreases n, 0
  {
    if n == 0 then s
    else
      var made := Made(SeenBy(s, source, m, others, n - 1), source, m, m.objects[n - 1]);
      Amid(made, others(2 * n - 1), |others(2 * n - 1)|)
  }

  /** The target when the object of the i-th reference is to be created. */
  function SeenBy(s: State, source: Bodies, m: Manifest, others: nat -> seq<Change>, i: nat): State
    requires i < |m.objects|
    decreases i, 1
  {
    Amid(AmidCopy(s, source, m, others, i), others(2 * i), |others(2 * i)|)
  }

  /** What is read back is what was asked for, and still this transfer's if it has just created it. */
  predicate ReadsBack(seen: State, now: State, source: Bodies, m: Manifest, r: Reference) {
    && TargetFits(BodiesOf(now.objects), source, r)
    && (r.targetKey !in seen.objects ==> now.objects[r.targetKey].body.owner == Some(OwnerFor(m, r)))
  }

  /** The entry describes the object that is there. */
  predicate Describes(entry: Entry, now: State, source: Bodies, m: Manifest, r: Reference) {
    && EntryFits(entry, BodiesOf(now.objects), source, m, r)
    && entry.etag == now.objects[r.targetKey].etag
  }

  predicate Passes(s: State, source: Bodies, m: Manifest, others: nat -> seq<Change>, i: nat)
    requires i < |m.objects|
  {
    && SourceFits(source, m.objects[i])
    && ReadsBack(SeenBy(s, source, m, others, i), AmidCopy(s, source, m, others, i + 1), source, m, m.objects[i])
  }

  /** Where a copy amid other writers got to. */
  ghost predicate AmidHolds(result: CopyResult, done: nat, start: State, now: State, source: Bodies, m: Manifest,
                            others: nat -> seq<Change>, crashAfter: nat) {
    && done <= |m.objects|
    && (result.DuplicateTarget? <==> !DistinctTargets(m.objects))
    && match result
       case Copied(receipt) =>
         && done == |receipt| == |m.objects| <= crashAfter && now == AmidCopy(start, source, m, others, done)
         && forall i :: 0 <= i < done ==>
              && Passes(start, source, m, others, i)
              && Describes(receipt[i], AmidCopy(start, source, m, others, i + 1), source, m, m.objects[i])
       case DuplicateTarget => done == 0 && now == start
       case Failed(at) =>
         && at < |m.objects| && at <= crashAfter && !(SourceFits(source, m.objects[at]) && crashAfter == at)
         && (forall i :: 0 <= i < at ==> Passes(start, source, m, others, i)) && !Passes(start, source, m, others, at)
         && done == (if SourceFits(source, m.objects[at]) then at + 1 else at) && now == AmidCopy(start, source, m, others, done)
       case Crashed =>
         && crashAfter < |m.objects| && done == crashAfter + 1 && SourceFits(source, m.objects[crashAfter])
         && (forall i :: 0 <= i < crashAfter ==> Passes(start, source, m, others, i))
         && now == Made(SeenBy(start, source, m, others, crashAfter), source, m, m.objects[crashAfter])
  }

  /** One reference: verify the source, create unless taken, read back. The flag says that the process dies
      after the create. */
  method CopyOne(source: ObjectStore, target: ObjectStore, m: Manifest, i: nat, crashes: bool, before: seq<Change>,
                 between: seq<Change>)
    returns (entry: Option<Entry>, sourceOk: bool)
    requires i < |m.objects| && target.Valid() && source != target
    modifies target
    ensures target.Valid()
    ensures sourceOk == SourceFits(source.Held(), m.objects[i])
    ensures var start, r := old(State(target.objects, target.nextEtag)), m.objects[i];
      var seen := Amid(start, before, |before|);
      var made := Made(seen, source.Held(), m, r);
      var now := Amid(made, between, |between|);
      && State(target.objects, target.nextEtag) == (if !sourceOk then start else if crashes then made else now)
      && (entry.Some? <==> sourceOk && !crashes && ReadsBack(seen, now, source.Held(), m, r))
      && (entry.Some? ==> Describes(entry.value, now, source.Held(), m, r))
  {
    hide Amid, BodyFits;
    var r := m.objects[i];
    var found, chunks := source.Read(r.sourceKey);
    if found.None? {
      return None, false;
    }
    var content := VerifiedBytes(chunks, found.value.body, r);
    if content.None? {
      return None, false;
    }
    var original := found.value.body;
    var reference := Resolved(r, original);
    var body := Body(content.value, reference.contentType, Some(OwnerFor(m, r)));
    target.Disturb(before);
    var created := target.CreateOnly(r.targetKey, body);
    if crashes {
      return None, true;
    }
    target.Disturb(between);
    var copied, copiedChunks := target.Read(r.targetKey);
    if copied.None? {
      return None, true;
    }
    var same := VerifiedBytes(copiedChunks, copied.value.body, reference);
    if same.None? {
      return None, true;
    }
    var owns := copied.value.body.owner == Some(OwnerFor(m, r));
    if created && !owns {
      return None, true;
    }
    return Some(Entry(reference, owns, copied.value.etag)), true;
  }

  /** The whole copy, amid other writers. With crashAfter set the process dies right after creating that
      reference's object, before reading it back. */
  method CopyReferenced(source: ObjectStore, target: ObjectStore, m: Manifest, others: nat -> seq<Change>, crashAfter: nat)
    returns (result: CopyResult, ghost done: nat)
    requires target.Valid() && source != target
    modifies target
    ensures target.Valid()
    ensures AmidHolds(result, done, old(State(target.objects, target.nextEtag)), State(target.objects, target.nextEtag),
                      source.Held(), m, others, crashAfter)
  {
    hide SourceFits, Describes, ReadsBack, Amid, Made;
    done := 0;
    if !DistinctTargets(m.objects) {
      return DuplicateTarget, 0;
    }
    ghost var start := State(target.objects, target.nextEtag);
    var receipt: seq<Entry> := [];
    for i := 0 to |m.objects|
      invariant target.Valid() && State(target.objects, target.nextEtag) == AmidCopy(start, source.Held(), m, others, i)
      invariant done == i == |receipt| <= crashAfter
      invariant forall j :: 0 <= j < i ==>
        && Passes(start, source.Held(), m, others, j)
        && Describes(receipt[j], AmidCopy(start, source.Held(), m, others, j + 1), source.Held(), m, m.objects[j])
    {
      var entry, sourceOk := CopyOne(source, target, m, i, i == crashAfter, others(2 * i), others(2 * i + 1));
      if !sourceOk {
        return Failed(i), i;
      }
      done := i + 1;
      if i == crashAfter {
        return Crashed, i + 1;
      }
      assert State(target.objects, target.nextEtag) == AmidCopy(start, source.Held(), m, others, i + 1);
      if entry.None? {
        assert !Passes(start, source.Held(), m, others, i);
        return Failed(i), i + 1;
      }
      receipt := receipt + [entry.value];
    }
    result := Copied(receipt);
  }

  // ---------- left alone, the copy is the plain one ----------

  lemma UntouchedFurther(a: Objects, b: Objects, c: Objects)
    requires Untouched(a, b) && Untouched(b, c)
    ensures Untouched(a, c)
  {
  }

  lemma MadeIsCreated(s: State, source: Bodies, m: Manifest, r: Reference)
    ensures BodiesOf(Made(s, source, m, r).objects) == CreatedIn(BodiesOf(s.objects), source, m, r)
    ensures Untouched(s.objects, Made(s, source, m, r).objects)
  {
    hide NewBody;
  }

  lemma {:induction false} UndisturbedIsPlain(s: State, source: Bodies, m: Manifest, others: nat -> seq<Change>, k: nat, n: nat)
    requires k <= n <= |m.objects| && forall q :: others(q) == []
    ensures BodiesOf(AmidCopy(s, source, m, others, n).objects) == CopyBodies(BodiesOf(s.objects), source, m, n)
    ensures Untouched(AmidCopy(s, source, m, others, k).objects, AmidCopy(s, source, m, others, n).objects)
    ensures n < |m.objects| ==> SeenBy(s, source, m, others, n) == AmidCopy(s, source, m, others, n)
  {
    hide CreatedIn, Made, Untouched;
    if n == 0 {
      assert Untouched(s.objects, s.objects) by { UntouchedSelf(s.objects); }
    } else {
      UndisturbedIsPlain(s, source, m, others, if k < n then k else n - 1, n - 1);
      var before := AmidCopy(s, source, m, others, n - 1);
      MadeIsCreated(before, source, m, m.objects[n - 1]);
      var now := AmidCopy(s, source, m, others, n);
      assert now == Made(before, source, m, m.objects[n - 1]);
      UntouchedSelf(now.objects);
      if k < n {
        UntouchedFurther(AmidCopy(s, source, m, others, k).objects, before.objects, now.objects);
      }
    }
  }

  lemma UntouchedSelf(objects: Objects)
    ensures Untouched(objects, objects)
  {
  }

  ghost predicate Receipted(entry: Entry, target: Bodies, source: Bodies, objects: Objects, m: Manifest, r: Reference) {
    && SourceFits(source, r) && EntryFits(entry, target, source, m, r)
    && r.targetKey in objects && entry.etag == objects[r.targetKey].etag
  }

  lemma DescribesLater(entry: Entry, then_: State, now: State, source: Bodies, m: Manifest, r: Reference)
    requires SourceFits(source, r) && Describes(entry, then_, source, m, r) && Untouched(then_.objects, now.objects)
    ensures Receipted(entry, BodiesOf(now.objects), source, now.objects, m, r)
  {
    hide BodyFits, Resolved;
  }

  /** Undisturbed, reading back what was just created always shows this transfer's ownership. */
  lemma OwnCreateIsOwned(s: State, source: Bodies, m: Manifest, r: Reference)
    requires r.sourceKey in source
    ensures var made := Made(s, source, m, r);
      ReadsBack(s, made, source, m, r) <==> TargetFits(BodiesOf(made.objects), source, r)
  {
    hide BodyFits;
  }

  /** With no other writers, a copy leaves existing objects as they are and creates exactly the missing ones
      up to where it got; its receipt describes the target. */
  lemma UndisturbedCopyHolds(result: CopyResult, done: nat, start: State, now: State, source: Bodies, m: Manifest,
                             others: nat -> seq<Change>, crashAfter: nat)
    requires AmidHolds(result, done, start, now, source, m, others, crashAfter) && forall k :: others(k) == []
    ensures CopyHolds(result, done, BodiesOf(now.objects), source, BodiesOf(start.objects), now.objects, m, crashAfter)
    ensures Untouched(start.objects, now.objects)
  {
    hide CopyBodies, CreatedIn, Made, Untouched, Describes, BodyFits, ReadsBack, TargetFits, Receipted, DistinctTargets;
    UndisturbedIsPlain(start, source, m, others, 0, 0);
    UndisturbedIsPlain(start, source, m, others, 0, if result.Crashed? then crashAfter else done);
    match result
    case Copied(receipt) =>
      forall i | 0 <= i < done
        ensures Receipted(receipt[i], BodiesOf(now.objects), source, now.objects, m, m.objects[i])
      {
        UndisturbedIsPlain(start, source, m, others, i + 1, done);
        DescribesLater(receipt[i], AmidCopy(start, source, m, others, i + 1), now, source, m, m.objects[i]);
      }
      ReceiptedIsHeld(receipt, now, source, m);
    case DuplicateTarget =>
    case Failed(i) =>
      if SourceFits(source, m.objects[i]) {
        UndisturbedIsPlain(start, source, m, others, i, i);
        var before := AmidCopy(start, source, m, others, i);
        assert now == Made(before, source, m, m.objects[i]);
        OwnCreateIsOwned(before, source, m, m.objects[i]);
      }
    case Crashed =>
      var before := AmidCopy(start, source, m, others, crashAfter);
      MadeIsCreated(before, source, m, m.objects[crashAfter]);
      UntouchedFurther(start.objects, before.objects, now.objects);
      PlainNext(start, source, m, crashAfter);
  }

  lemma PlainNext(start: State, source: Bodies, m: Manifest, n: nat)
    requires n < |m.objects|
    ensures CopyBodies(BodiesOf(start.objects), source, m, n + 1)
         == CreatedIn(CopyBodies(BodiesOf(start.objects), source, m, n), source, m, m.objects[n])
  {
    hide CreatedIn;
  }

  lemma ReceiptedIsHeld(receipt: seq<Entry>, now: State, source: Bodies, m: Manifest)
    requires |receipt| == |m.objects|
    requires forall i :: 0 <= i < |receipt| ==> Receipted(receipt[i], BodiesOf(now.objects), source, now.objects, m, m.objects[i])
    ensures forall i :: 0 <= i < |receipt| ==>
      && SourceFits(source, m.objects[i]) && EntryFits(receipt[i], BodiesOf(now.objects), source, m, m.objects[i])
      && m.objects[i].targetKey in now.objects && receipt[i].etag == now.objects[m.objects[i].targetKey].etag
  {
    hide SourceFits, EntryFits;
  }

  // ---------- what others wrote stays theirs ----------

  /** The target if only the others had acted, up to when the n-th object was read back. */
  function AloneAfter(s: State, others: nat -> seq<Change>, n: nat): State {
    if n == 0 then s
    else
      var before := Amid(AloneAfter(s, others, n - 1), others(2 * n - 2), |others(2 * n - 2)|);
      Amid(before, others(2 * n - 1), |others(2 * n - 1)|)
  }

  /** b holds all that a holds, and besides it only objects this copy created for one of the first n
      references. */
  ghost predicate AddsOwn(a: Bodies, b: Bodies, source: Bodies, m: Manifest, n: nat)
    requires n <= |m.objects|
  {
    && (forall key :: key in a ==> key in b && b[key] == a[key])
    && forall key :: key in b && key !in a ==> IsOwn(b[key], key, source, m, n)
  }

  ghost predicate IsOwn(body: Body, key: string, source: Bodies, m: Manifest, n: nat)
    requires n <= |m.objects|
  {
    exists i :: 0 <= i < n && IsCopyOf(body, key, source, m, m.objects[i])
  }

  ghost predicate IsCopyOf(body: Body, key: string, source: Bodies, m: Manifest, r: Reference) {
    r.targetKey == key && r.sourceKey in source && body == NewBody(m, r, source[r.sourceKey])
  }

  lemma ChangedBodies(s: State, change: Change)
    ensures BodiesOf(AfterChange(s, change).objects) ==
      match change case Put(key, body) => BodiesOf(s.objects)[key := body] case Drop(key) => BodiesOf(s.objects) - {key}
  {
  }

  lemma ChangeHitsBoth(a: State, b: State, change: Change, source: Bodies, m: Manifest, n: nat)
    requires n <= |m.objects| && AddsOwn(BodiesOf(a.objects), BodiesOf(b.objects), source, m, n)
    ensures AddsOwn(BodiesOf(AfterChange(a, change).objects), BodiesOf(AfterChange(b, change).objects), source, m, n)
  {
    hide IsOwn, BodiesOf, AfterChange;
    ChangedBodies(a, change);
    ChangedBodies(b, change);
  }

  lemma {:induction false} ChangesHitBoth(a: State, b: State, changes: seq<Change>, k: nat, source: Bodies, m: Manifest, n: nat)
    requires k <= |changes| && n <= |m.objects| && AddsOwn(BodiesOf(a.objects), BodiesOf(b.objects), source, m, n)
    ensures AddsOwn(BodiesOf(Amid(a, changes, k).objects), BodiesOf(Amid(b, changes, k).objects), source, m, n)
  {
    hide AddsOwn, BodiesOf, AfterChange;
    if k > 0 {
      ChangesHitBoth(a, b, changes, k - 1, source, m, n);
      ChangeHitsBoth(Amid(a, changes, k - 1), Amid(b, changes, k - 1), changes[k - 1], source, m, n);
    }
  }

  lemma MadeAddsOwn(a: State, b: State, source: Bodies, m: Manifest, n: nat)
    requires n < |m.objects| && AddsOwn(BodiesOf(a.objects), BodiesOf(b.objects), source, m, n)
    ensures AddsOwn(BodiesOf(a.objects), BodiesOf(Made(b, source, m, m.objects[n]).objects), source, m, n + 1)
  {
    hide NewBody;
    var c := Made(b, source, m, m.objects[n]);
    forall key | key in BodiesOf(c.objects) && key !in BodiesOf(a.objects) ensures IsOwn(BodiesOf(c.objects)[key], key, source, m, n + 1) {
      if key in b.objects {
        assert IsOwn(BodiesOf(b.objects)[key], key, source, m, n);
      } else {
        assert IsCopyOf(BodiesOf(c.objects)[key], key, source, m, m.objects[n]);
      }
    }
  }

  lemma {:induction false} CopyAddsOwn(s: State, source: Bodies, m: Manifest, others: nat -> seq<Change>, n: nat)
    requires n <= |m.objects|
    ensures AddsOwn(BodiesOf(AloneAfter(s, others, n).objects), BodiesOf(AmidCopy(s, source, m, others, n).objects), source, m, n)
    ensures n < |m.objects| ==>
      AddsOwn(BodiesOf(Amid(AloneAfter(s, others, n), others(2 * n), |others(2 * n)|).objects),
              BodiesOf(SeenBy(s, source, m, others, n).objects), source, m, n)
  {
    hide AddsOwn, Made, BodiesOf, Amid;
    if n == 0 {
      AddsNothing(s, source, m);
    } else {
      CopyAddsOwn(s, source, m, others, n - 1);
      var a := Amid(AloneAfter(s, others, n - 1), others(2 * n - 2), |others(2 * n - 2)|);
      var b := SeenBy(s, source, m, others, n - 1);
      MadeAddsOwn(a, b, source, m, n - 1);
      ChangesHitBoth(a, Made(b, source, m, m.objects[n - 1]), others(2 * n - 1), |others(2 * n - 1)|, source, m, n);
    }
    if n < |m.objects| {
      ChangesHitBoth(AloneAfter(s, others, n), AmidCopy(s, source, m, others, n), others(2 * n), |others(2 * n)|, source, m, n);
    }
  }

  lemma AddsNothing(s: State, source: Bodies, m: Manifest)
    ensures AddsOwn(BodiesOf(s.objects), BodiesOf(s.objects), source, m, 0)
  {
  }

  /** The target as the others alone would have left it, up to where a copy got. */
  function AloneUpTo(result: CopyResult, done: nat, s: State, others: nat -> seq<Change>): State {
    if result.Crashed? && done > 0
    then Amid(AloneAfter(s, others, done - 1), others(2 * done - 2), |others(2 * done - 2)|)
    else AloneAfter(s, others, done)
  }

  /** However a copy ends, and whatever others do to the target while it runs, it alters nothing of theirs:
      the target holds all that they alone would have left, and besides it only objects of this copy. */
  lemma OthersKeepTheirs(result: CopyResult, done: nat, start: State, now: State, source: Bodies, m: Manifest,
                         others: nat -> seq<Change>, crashAfter: nat)
    requires AmidHolds(result, done, start, now, source, m, others, crashAfter)
    ensures AddsOwn(BodiesOf(AloneUpTo(result, done, start, others).objects), BodiesOf(now.objects), source, m, done)
  {
    hide AddsOwn, Made, BodiesOf, Amid, Passes, Describes, SourceFits;
    if result.Crashed? {
      CopyAddsOwn(start, source, m, others, crashAfter);
      MadeAddsOwn(Amid(AloneAfter(start, others, crashAfter), others(2 * crashAfter), |others(2 * crashAfter)|),
                  SeenBy(start, source, m, others, crashAfter), source, m, crashAfter);
    } else {
      CopyAddsOwn(start, source, m, others, done);
    }
  }

  // ---------- a recorded ETag names the object that was read back ----------

  lemma MadeKeepsEtags(s: State, source: Bodies, m: Manifest, r: Reference)
    requires Numbered(s)
    ensures var now := Made(s, source, m, r);
      && Numbered(now) && SameUnderOldEtags(s, now)
  {
    hide NewBody;
  }

  lemma {:induction false} EtagsStay(s: State, source: Bodies, m: Manifest, others: nat -> seq<Change>, k: nat, n: nat)
    requires Numbered(s) && k <= n <= |m.objects|
    ensures Numbered(AmidCopy(s, source, m, others, n))
    ensures SameUnderOldEtags(AmidCopy(s, source, m, others, k), AmidCopy(s, source, m, others, n))
  {
    hide Amid, Made, Numbered, SameUnderOldEtags;
    if n == 0 {
      SameAsItself(s);
    } else {
      EtagsStay(s, source, m, others, if k < n then k else n - 1, n - 1);
      var before, seen := AmidCopy(s, source, m, others, n - 1), SeenBy(s, source, m, others, n - 1);
      var made := Made(seen, source, m, m.objects[n - 1]);
      var now := AmidCopy(s, source, m, others, n);
      SameEtagSameObject(before, others(2 * n - 2), |others(2 * n - 2)|);
      MadeKeepsEtags(seen, source, m, m.objects[n - 1]);
      SameEtagSameObject(made, others(2 * n - 1), |others(2 * n - 1)|);
      SameAsItself(now);
      if k < n {
        SameFurther(AmidCopy(s, source, m, others, k), before, seen);
        SameFurther(AmidCopy(s, source, m, others, k), seen, made);
        SameFurther(AmidCopy(s, source, m, others, k), made, now);
      }
    }
  }

  lemma SameAsItself(s: State)
    ensures SameUnderOldEtags(s, s)
  {
  }

  lemma SameFurther(a: State, b: State, c: State)
    requires SameUnderOldEtags(a, b) && SameUnderOldEtags(b, c)
    ensures SameUnderOldEtags(a, c)
  {
  }

  /** Whatever others did since, an object that at the end of the copy still has the ETag its entry
      records is the object the entry describes. */
  lemma ReceiptDescribesWhatItNames(result: CopyResult, done: nat, start: State, now: State, source: Bodies, m: Manifest,
                                    others: nat -> seq<Change>, crashAfter: nat, i: nat)
    requires Numbered(start) && AmidHolds(result, done, start, now, source, m, others, crashAfter)
    requires result.Copied? && i < |result.receipt|
    requires m.objects[i].targetKey in now.objects && now.objects[m.objects[i].targetKey].etag == result.receipt[i].etag
    ensures Describes(result.receipt[i], now, source, m, m.objects[i])
  {
    hide Amid, Made, BodyFits, Resolved, SourceFits, ReadsBack;
    var then_ := AmidCopy(start, source, m, others, i + 1);
    EtagsStay(start, source, m, others, i + 1, i + 1);
    EtagsStay(start, source, m, others, i + 1, done);
    assert Describes(result.receipt[i], then_, source, m, m.objects[i]);
  }

  // ---------- what copying again does ----------

  /** Copying again after any part of a copy gives what an undisturbed copy gives. */
  lemma {:induction false} CopyAgainConverges(target: Bodies, source: Bodies, m: Manifest, stop: nat, n: nat)
    requires stop <= |m.objects| && n <= |m.objects|
    ensures CopyBodies(CopyBodies(target, source, m, stop), source, m, n) == CopyBodies(target, source, m, if n < stop then stop else n)
  {
    hide NewBody;
    if n > 0 {
      CopyAgainConverges(target, source, m, stop, n - 1);
      if n <= stop {
        AlreadyThere(target, source, m, n, stop);
      }
    }
  }

  lemma AlreadyThere(target: Bodies, source: Bodies, m: Manifest, n: nat, stop: nat)
    requires 0 < n <= stop <= |m.objects|
    ensures var now := CopyBodies(target, source, m, stop);
      CreatedIn(now, source, m, m.objects[n - 1]) == now
  {
    hide NewBody;
    CopyKeeps(target, source, m, stop, n);
    var r := m.objects[n - 1];
    if r.sourceKey in source {
      assert r.targetKey in CopyBodies(target, source, m, n);
    }
  }

  /** A run that was cut off after each of the given numbers of references, again and again. */
  function AfterCrashes(target: Bodies, source: Bodies, m: Manifest, stops: seq<nat>, n: nat): Bodies
    requires n <= |stops| && forall i :: 0 <= i < |stops| ==> stops[i] <= |m.objects|
  {
    if n == 0 then target else CopyBodies(AfterCrashes(target, source, m, stops, n - 1), source, m, stops[n - 1])
  }

  /** However often and wherever the copy was cut off, a finished copy leaves the same contents. */
  lemma {:induction false} CrashesDoNotMatter(target: Bodies, source: Bodies, m: Manifest, stops: seq<nat>, n: nat)
    requires n <= |stops| && forall i :: 0 <= i < |stops| ==> stops[i] <= |m.objects|
    ensures CopyBodies(AfterCrashes(target, source, m, stops, n), source, m, |m.objects|) == CopyBodies(target, source, m, |m.objects|)
  {
    if n > 0 {
      CopyAgainConverges(AfterCrashes(target, source, m, stops, n - 1), source, m, stops[n - 1], |m.objects|);
      CrashesDoNotMatter(target, source, m, stops, n - 1);
    }
  }

  /** A copy that is not cut off gets to its end exactly when it can. */
  lemma CopiedExactlyWhenItFinishes(result: CopyResult, done: nat, target: Bodies, source: Bodies, before: Bodies,
                                    objects: Objects, m: Manifest, crashAfter: nat)
    requires CopyHolds(result, done, target, source, before, objects, m, crashAfter)
    ensures result.Copied? <==> Finishes(before, source, m) && crashAfter >= |m.objects|
  {
    hide CopyBodies, BodyFits, Resolved, DistinctTargets;
    var final := CopyBodies(before, source, m, |m.objects|);
    match result
    case Copied(receipt) =>
      forall i | 0 <= i < |m.objects| ensures SourceFits(source, m.objects[i]) && TargetFits(final, source, m.objects[i]) {
        assert EntryFits(receipt[i], target, source, m, m.objects[i]);
      }
    case DuplicateTarget =>
    case Failed(i) =>
      if SourceFits(source, m.objects[i]) && m.objects[i].targetKey in target {
        CopyKeeps(before, source, m, |m.objects|, i + 1);
        assert !TargetFits(final, source, m.objects[i]);
      } else if SourceFits(source, m.objects[i]) {
        CreatedIsThere(before, source, m, i);
      }
    case Crashed =>
  }

  lemma CreatedIsThere(before: Bodies, source: Bodies, m: Manifest, i: nat)
    requires i < |m.objects| && m.objects[i].sourceKey in source
    ensures m.objects[i].targetKey in CopyBodies(before, source, m, i + 1)
  {
  }

  /** If an undisturbed copy gets to its end, so does every copy begun again after crashes, and their
      receipts are equal, ETags aside. */
  lemma CrashesDoNotChangeTheReceipt(first: seq<Entry>, before: Bodies, source: Bodies, m: Manifest,
                                     target: Bodies, objects: Objects,
                                     stops: seq<nat>, result: CopyResult, done: nat, again: Bodies, laterObjects: Objects,
                                     crashAfter: nat)
    requires forall j :: 0 <= j < |stops| ==> stops[j] <= |m.objects|
    requires CopyHolds(Copied(first), |m.objects|, target, source, before, objects, m, |m.objects|)
    requires CopyHolds(result, done, again, source, AfterCrashes(before, source, m, stops, |stops|), laterObjects, m, crashAfter)
    requires crashAfter >= |m.objects|
    ensures result.Copied? && again == target
    ensures forall i :: 0 <= i < |m.objects| ==>
      first[i].reference == result.receipt[i].reference && first[i].created == result.receipt[i].created
  {
    hide SourceFits, TargetFits, CopyBodies, AfterCrashes, DistinctTargets;
    CrashesDoNotMatter(before, source, m, stops, |stops|);
    CopiedExactlyWhenItFinishes(Copied(first), |m.objects|, target, source, before, objects, m, |m.objects|);
    CopiedExactlyWhenItFinishes(result, done, again, source, AfterCrashes(before, source, m, stops, |stops|), laterObjects, m, crashAfter);
    forall i | 0 <= i < |m.objects|
      ensures first[i].reference == result.receipt[i].reference && first[i].created == result.receipt[i].created
    {
      assert EntryFits(first[i], target, source, m, m.objects[i]) && EntryFits(result.receipt[i], again, source, m, m.objects[i]);
    }
  }

  /** An entry is reported as created exactly when the object carries this transfer's ownership, which
      every object created by this copy does. */
  lemma {:induction false} CreatedIsOwned(before: Bodies, source: Bodies, m: Manifest, i: nat, n: nat)
    requires i < n <= |m.objects| && DistinctTargets(m.objects) && m.objects[i].sourceKey in source
    requires m.objects[i].targetKey !in before
    ensures m.objects[i].targetKey in CopyBodies(before, source, m, n)
    ensures CopyBodies(before, source, m, n)[m.objects[i].targetKey].owner == Some(OwnerFor(m, m.objects[i]))
  {
    NotCreatedEarlier(before, source, m, m.objects[i].targetKey, i);
    CopyKeeps(before, source, m, n, i + 1);
  }

  lemma {:induction false} NotCreatedEarlier(before: Bodies, source: Bodies, m: Manifest, key: string, n: nat)
    requires n <= |m.objects| && key !in before && forall j :: 0 <= j < n ==> m.objects[j].targetKey != key
    ensures key !in CopyBodies(before, source, m, n)
  {
    hide NewBody;
    if n > 0 {
      NotCreatedEarlier(before, source, m, key, n - 1);
    }
  }

  // ---------- removing what is no longer referenced ----------

  predicate IsStale(entry: Entry, referenced: set<string>) {
    entry.created && entry.reference.targetKey !in referenced
  }

  /** The created entries among the first n that no final reference uses. */
  function Stale(receipt: seq<Entry>, referenced: set<string>, n: nat): (stale: seq<Entry>)
    requires n <= |receipt|
    ensures forall e :: e in stale ==> e in receipt[..n] && IsStale(e, referenced)
  {
    if n == 0 then []
    else
      assert receipt[..n] == receipt[..n - 1] + [receipt[n - 1]];
      var before := Stale(receipt, referenced, n - 1);
      if IsStale(receipt[n - 1], referenced) then before + [receipt[n - 1]] else before
  }

  /** The object is still the one the receipt recorded, and still this transfer's. */
  predicate Removable(objects: Objects, m: Manifest, e: Entry) {
    && e.reference.targetKey in objects
    && objects[e.reference.targetKey].etag == e.etag
    && |objects[e.reference.targetKey].body.content| == e.reference.size
    && objects[e.reference.targetKey].body.owner == Some(OwnerFor(m, e.reference))
  }

  function RemoveUpTo(objects: Objects, m: Manifest, stale: seq<Entry>, n: nat): Objects
    requires n <= |stale|
  {
    if n == 0 then objects
    else
      var before := RemoveUpTo(objects, m, stale, n - 1);
      if Removable(before, m, stale[n - 1]) then before - {stale[n - 1].reference.targetKey} else before
  }

  /** The store after an attempt, and what the removal did. */
  type Attempt = (State, Removal)

  /** One stale entry, with what other writers do before the object is looked at and between that and
      its removal: the object is removed if it was the recorded one and has not changed since. */
  function Attempted(s: State, m: Manifest, e: Entry, before: seq<Change>, between: seq<Change>): Attempt {
    var key, seen := e.reference.targetKey, Amid(s, before, |before|);
    if key !in seen.objects then (seen, Absent)
    else if !Removable(seen.objects, m, e) then (seen, Changed)
    else
      var now := Amid(seen, between, |between|);
      var removal := RemovalOf(now.objects, key, e.etag);
      (if removal == Taken then now.(objects := now.objects - {key}) else now, removal)
  }

  /** The store after the first n stale entries; others(k) is what other writers do before the k-th of
      the requests, of which each entry has two. */
  function AfterAttempts(s: State, m: Manifest, stale: seq<Entry>, others: nat -> seq<Change>, n: nat): State
    requires n <= |stale|
  {
    if n == 0 then s
    else Attempted(AfterAttempts(s, m, stale, others, n - 1), m, stale[n - 1], others(2 * n - 2), others(2 * n - 1)).0
  }

  function RemovalAt(s: State, m: Manifest, stale: seq<Entry>, others: nat -> seq<Change>, i: nat): Removal
    requires i < |stale|
  {
    Attempted(AfterAttempts(s, m, stale, others, i), m, stale[i], others(2 * i), others(2 * i + 1)).1
  }

  /** The keys of the first n stale entries whose removal had the given outcome, in order. */
  function KeysWith(s: State, m: Manifest, stale: seq<Entry>, others: nat -> seq<Change>, outcome: Removal,
                    n: nat): seq<string>
    requires n <= |stale|
  {
    if n == 0 then []
    else
      KeysWith(s, m, stale, others, outcome, n - 1)
      + if RemovalAt(s, m, stale, others, n - 1) == outcome then [stale[n - 1].reference.targetKey] else []
  }

  datatype RemoveResult = Removed(keys: seq<string>, absent: seq<string>) | Refused(at: nat)

  method RemoveOne(target: ObjectStore, m: Manifest, e: Entry, before: seq<Change>, between: seq<Change>)
    returns (removal: Removal)
    requires target.Valid()
    modifies target
    ensures target.Valid()
    ensures (State(target.objects, target.nextEtag), removal) == Attempted(old(State(target.objects, target.nextEtag)), m, e, before, between)
  {
    hide Amid;
    target.Disturb(before);
    var found, _ := target.Read(e.reference.targetKey);
    if found.None? {
      return Absent;
    }
    if found.value.etag != e.etag {
      return Changed;
    }
    if |found.value.body.content| != e.reference.size || found.value.body.owner != Some(OwnerFor(m, e.reference)) {
      return Changed;
    }
    target.Disturb(between);
    removal := target.RemoveIfMatch(e.reference.targetKey, e.etag);
  }

  /** Removes the stale objects one by one, amid other writers, and stops at the first that is not the
      recorded one or no longer is when it is to be removed. */
  method RemoveStale(target: ObjectStore, m: Manifest, receipt: seq<Entry>, referenced: set<string>,
                     others: nat -> seq<Change>)
    returns (result: RemoveResult)
    requires target.Valid()
    modifies target
    ensures var start, stale := old(State(target.objects, target.nextEtag)), Stale(receipt, referenced, |receipt|);
      && target.Valid()
      && match result
         case Removed(keys, absent) =>
           && (forall i :: 0 <= i < |stale| ==> RemovalAt(start, m, stale, others, i) != Changed)
           && State(target.objects, target.nextEtag) == AfterAttempts(start, m, stale, others, |stale|)
           && keys == KeysWith(start, m, stale, others, Taken, |stale|)
           && absent == KeysWith(start, m, stale, others, Absent, |stale|)
         case Refused(at) =>
           && at < |stale| && RemovalAt(start, m, stale, others, at) == Changed
           && (forall i :: 0 <= i < at ==> RemovalAt(start, m, stale, others, i) != Changed)
           && State(target.objects, target.nextEtag) == AfterAttempts(start, m, stale, others, at + 1)
  {
    hide Stale, Attempted, Amid, Removable, RemovalOf, IsStale, Flatten;
    var stale := Stale(receipt, referenced, |receipt|);
    ghost var start := State(target.objects, target.nextEtag);
    var keys: seq<string>, absent: seq<string> := [], [];
    for i := 0 to |stale|
      invariant target.Valid() && State(target.objects, target.nextEtag) == AfterAttempts(start, m, stale, others, i)
      invariant forall j :: 0 <= j < i ==> RemovalAt(start, m, stale, others, j) != Changed
      invariant keys == KeysWith(start, m, stale, others, Taken, i)
      invariant absent == KeysWith(start, m, stale, others, Absent, i)
    {
      var e := stale[i];
      var removal := RemoveOne(target, m, e, others(2 * i), others(2 * i + 1));
      if removal == Changed {
        return Refused(i);
      }
      if removal == Taken {
        keys := keys + [e.reference.targetKey];
      } else {
        absent := absent + [e.reference.targetKey];
      }
    }
    result := Removed(keys, absent);
  }

  /** Whatever others do in between, what is removed is at that moment the very object that was looked at:
      it has the recorded ETag and size and this transfer's ownership. Nothing else of the store is
      touched. */
  lemma TakenIsRecorded(s: State, m: Manifest, e: Entry, before: seq<Change>, between: seq<Change>)
    requires Numbered(s)
    ensures var (after, removal) := Attempted(s, m, e, before, between);
      var seen := Amid(s, before, |before|);
      var now := Amid(seen, between, |between|);
      && Numbered(after)
      && (removal == Taken ==> Removable(now.objects, m, e) && after.objects == now.objects - {e.reference.targetKey})
      && (removal != Taken ==> after == seen || after == now)
  {
    hide Amid;
    var seen := Amid(s, before, |before|);
    SameEtagSameObject(s, before, |before|);
    SameEtagSameObject(seen, between, |between|);
  }

  /** Left alone, the loop removes exactly the removable stale objects. */
  lemma {:induction false} UndisturbedAttempts(s: State, m: Manifest, stale: seq<Entry>, others: nat -> seq<Change>,
                                               n: nat)
    requires n <= |stale| && forall k :: others(k) == []
    ensures AfterAttempts(s, m, stale, others, n) == State(RemoveUpTo(s.objects, m, stale, n), s.nextEtag)
    ensures n < |stale| ==> (RemovalAt(s, m, stale, others, n) == Changed <==>
      stale[n].reference.targetKey in RemoveUpTo(s.objects, m, stale, n) && !Removable(RemoveUpTo(s.objects, m, stale, n), m, stale[n]))
  {
    if n > 0 {
      UndisturbedAttempts(s, m, stale, others, n - 1);
    }
  }

  /** Only objects this transfer created, no longer referenced, and unchanged since the receipt, are
      removed; every other object stays as it is. */
  lemma {:induction false} RemovesOnlyRecorded(objects: Objects, m: Manifest, receipt: seq<Entry>,
                                               referenced: set<string>, n: nat, key: string)
    requires n <= |Stale(receipt, referenced, |receipt|)| && key in objects
    ensures var now := RemoveUpTo(objects, m, Stale(receipt, referenced, |receipt|), n);
      || (key in now && now[key] == objects[key])
      || (key !in now && key !in referenced && exists e :: e in receipt && e.reference.targetKey == key && e.created && Removable(objects, m, e))
  {
    hide Stale;
    var stale := Stale(receipt, referenced, |receipt|);
    if n > 0 {
      RemovesOnlyRecorded(objects, m, receipt, referenced, n - 1, key);
      var before, e := RemoveUpTo(objects, m, stale, n - 1), stale[n - 1];
      if Removable(before, m, e) && e.reference.targetKey == key && key in before {
        assert e in stale;
        assert e in receipt;
        assert Removable(objects, m, e);
      }
    }
  }

  // ---------- removing everything undoes the copy ----------

  /** No object in the target is already marked as this transfer's. */
  ghost predicate NothingOwned(before: Objects, m: Manifest) {
    forall key, r :: key in before && r in m.objects && r.targetKey == key ==> before[key].body.owner != Some(OwnerFor(m, r))
  }

  /** A finished copy and its receipt. */
  ghost predicate FinishedCopy(before: Objects, now: Objects, source: Bodies, m: Manifest, receipt: seq<Entry>) {
    && Untouched(before, now) && DistinctTargets(m.objects)
    && BodiesOf(now) == CopyBodies(BodiesOf(before), source, m, |m.objects|)
    && |receipt| == |m.objects|
    && forall i :: 0 <= i < |receipt| ==> Receipted(receipt[i], BodiesOf(now), source, now, m, m.objects[i])
  }

  lemma EntryIsStale(before: Objects, now: Objects, source: Bodies, m: Manifest, receipt: seq<Entry>, i: nat)
    requires FinishedCopy(before, now, source, m, receipt) && NothingOwned(before, m) && i < |receipt|
    ensures receipt[i].reference.targetKey == m.objects[i].targetKey
    ensures IsStale(receipt[i], {}) <==> m.objects[i].targetKey !in before
    ensures IsStale(receipt[i], {}) ==> Removable(now, m, receipt[i])
  {
    hide BodyFits;
    var r := m.objects[i];
    assert Receipted(receipt[i], BodiesOf(now), source, now, m, r);
    if r.targetKey !in before {
      CreatedIsOwned(BodiesOf(before), source, m, i, |m.objects|);
    }
    SizeIfFits(BodiesOf(now)[r.targetKey], Resolved(r, source[r.sourceKey]));
  }

  lemma SizeIfFits(body: Body, r: Reference)
    requires BodyFits(body, r)
    ensures |body.content| == r.size && Sha256(body.content) == r.digest
  {
  }

  lemma {:induction false} RemovePrefix(objects: Objects, m: Manifest, stale: seq<Entry>, e: Entry, n: nat)
    requires n <= |stale|
    ensures RemoveUpTo(objects, m, stale + [e], n) == RemoveUpTo(objects, m, stale, n)
  {
    hide Removable;
    if n > 0 {
      RemovePrefix(objects, m, stale, e, n - 1);
    }
  }

  /** After the first n receipt entries were considered, what is left is what was there before the copy
      and what later entries created. */
  ghost predicate LeftAfter(left: Objects, before: Objects, now: Objects, m: Manifest, n: nat) {
    && (forall key :: key in left ==> key in now && left[key] == now[key])
    && forall key :: key in now ==> (key in left <==> key in before || forall i :: 0 <= i < n && i < |m.objects| ==> m.objects[i].targetKey != key)
  }

  lemma LeftNext(left: Objects, next: Objects, before: Objects, now: Objects, m: Manifest, n: nat)
    requires n < |m.objects| && LeftAfter(left, before, now, m, n) && m.objects[n].targetKey in now
    requires next == if m.objects[n].targetKey in before then left else left - {m.objects[n].targetKey}
    ensures LeftAfter(next, before, now, m, n + 1)
  {
    forall key | key in now
      ensures key in next <==> key in before || forall i :: 0 <= i < n + 1 && i < |m.objects| ==> m.objects[i].targetKey != key
    {
      if key == m.objects[n].targetKey {
      } else if forall i :: 0 <= i < n && i < |m.objects| ==> m.objects[i].targetKey != key {
        assert key in left;
      }
    }
  }

  lemma {:induction false} RemovalLeaves(before: Objects, now: Objects, source: Bodies, m: Manifest,
                                         receipt: seq<Entry>, n: nat)
    requires FinishedCopy(before, now, source, m, receipt) && NothingOwned(before, m) && n <= |receipt|
    ensures LeftAfter(RemoveUpTo(now, m, Stale(receipt, {}, n), |Stale(receipt, {}, n)|), before, now, m, n)
  {
    hide FinishedCopy, Removable, IsStale, NothingOwned, LeftAfter, BodiesOf, Receipted;
    if n == 0 {
      assert LeftAfter(now, before, now, m, 0) by { LeftNone(before, now, m); }
    } else {
      RemovalLeaves(before, now, source, m, receipt, n - 1);
      var earlier, e := Stale(receipt, {}, n - 1), receipt[n - 1];
      var left := RemoveUpTo(now, m, earlier, |earlier|);
      KeysOfFinished(before, now, source, m, receipt, n - 1);
      var r := m.objects[n - 1];
      EntryIsStale(before, now, source, m, receipt, n - 1);
      if IsStale(e, {}) {
        RemovePrefix(now, m, earlier, e, |earlier|);
        StillRemovable(left, before, now, m, e, n - 1);
        assert RemoveUpTo(now, m, earlier + [e], |earlier| + 1) == left - {r.targetKey};
        LeftNext(left, left - {r.targetKey}, before, now, m, n - 1);
      } else {
        LeftNext(left, left, before, now, m, n - 1);
      }
    }
  }

  lemma LeftNone(before: Objects, now: Objects, m: Manifest)
    ensures LeftAfter(now, before, now, m, 0)
  {
  }

  lemma KeysOfFinished(before: Objects, now: Objects, source: Bodies, m: Manifest, receipt: seq<Entry>, i: nat)
    requires FinishedCopy(before, now, source, m, receipt) && i < |receipt|
    ensures |receipt| == |m.objects| && DistinctTargets(m.objects) && m.objects[i].targetKey in now
  {
    assert Receipted(receipt[i], BodiesOf(now), source, now, m, m.objects[i]);
  }

  lemma StillRemovable(left: Objects, before: Objects, now: Objects, m: Manifest, e: Entry, i: nat)
    requires i < |m.objects| && DistinctTargets(m.objects) && LeftAfter(left, before, now, m, i)
    requires e.reference.targetKey == m.objects[i].targetKey && Removable(now, m, e)
    ensures Removable(left, m, e)
  {
    forall j | 0 <= j < i && j < |m.objects| ensures m.objects[j].targetKey != m.objects[i].targetKey {
    }
    assert e.reference.targetKey in left;
  }

  lemma {:induction false} CreatedByOne(before: Bodies, source: Bodies, m: Manifest, key: string,
                                        n: nat) returns (i: nat)
    requires n <= |m.objects| && key !in before && key in CopyBodies(before, source, m, n)
    ensures i < n && m.objects[i].targetKey == key
  {
    hide NewBody;
    if key in CopyBodies(before, source, m, n - 1) {
      i := CreatedByOne(before, source, m, key, n - 1);
    } else {
      i := n - 1;
    }
  }

  /** Removing everything a copy created, with nothing referenced any more, restores the target. */
  lemma RemovalUndoesCopy(before: Objects, now: Objects, source: Bodies, m: Manifest, receipt: seq<Entry>)
    requires FinishedCopy(before, now, source, m, receipt) && NothingOwned(before, m)
    ensures var stale := Stale(receipt, {}, |receipt|);
      RemoveUpTo(now, m, stale, |stale|) == before
  {
    hide RemoveUpTo, Stale, CopyBodies, Receipted, NothingOwned;
    var stale := Stale(receipt, {}, |receipt|);
    var left := RemoveUpTo(now, m, stale, |stale|);
    RemovalLeaves(before, now, source, m, receipt, |receipt|);
    forall key | key in left || key in before ensures key in left && key in before && left[key] == before[key] {
      if key !in before {
        assert key in BodiesOf(now);
        var i := CreatedByOne(BodiesOf(before), source, m, key, |m.objects|);
        assert false;
      }
    }
  }
}
