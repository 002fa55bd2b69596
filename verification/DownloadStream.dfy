/** An authorized download: chunks of a source are handed out under an authorization that is renewed
    after so many bytes or so much time, or, in strict mode, before every delivery. */
module DownloadStream {
  import opened Common
  import opened FrameEncoding

  const AUTH_BYTES: nat := 4 * 1024 * 1024
  const AUTH_INTERVAL: nat := 1000
  const CHUNK_BYTES: nat := 64 * 1024

  datatype Event = Authorized(at: nat) | Delivered(content: Bytes, at: nat)

  // ---------- what a log promises ----------

  /** Bytes delivered since the last authorization. */
  function SinceAuthorized(log: seq<Event>): nat {
    if log == [] then 0
    else
      match log[|log| - 1]
      case Authorized(_) => 0
      case Delivered(content, _) => SinceAuthorized(log[..|log| - 1]) + |content|
  }

  /** Time of the last authorization. */
  function LastAuthorized(log: seq<Event>): Option<nat> {
    if log == [] then None
    else
      match log[|log| - 1]
      case Authorized(at) => Some(at)
      case Delivered(_, _) => LastAuthorized(log[..|log| - 1])
  }

  /** An authorization directly before the delivery. */
  predicate JustAuthorized(log: seq<Event>) {
    log != [] && log[|log| - 1].Authorized?
  }

  /** At every point: an authorization exists, the byte budget holds, and it is recent or immediate. */
  ghost predicate CadenceHolds(log: seq<Event>) {
    log != [] ==>
      var before, last := log[..|log| - 1], log[|log| - 1];
      && CadenceHolds(before)
      && SinceAuthorized(log) <= AUTH_BYTES
      && (last.Delivered? ==>
            LastAuthorized(before).Some?
            && (JustAuthorized(before) || last.at < LastAuthorized(before).value + AUTH_INTERVAL))
  }

  /** Every delivery directly follows an authorization. */
  ghost predicate StrictHolds(log: seq<Event>) {
    forall i :: 0 <= i < |log| && log[i].Delivered? ==> i > 0 && log[i - 1].Authorized?
  }

  /** The contents delivered, in order. */
  function Deliveries(log: seq<Event>): seq<Bytes> {
    if log == [] then []
    else
      var before := Deliveries(log[..|log| - 1]);
      match log[|log| - 1]
      case Authorized(_) => before
      case Delivered(content, _) => before + [content]
  }

  lemma LogMore(log: seq<Event>, e: Event)
    ensures SinceAuthorized(log + [e]) == if e.Delivered? then SinceAuthorized(log) + |e.content| else 0
    ensures LastAuthorized(log + [e]) == if e.Delivered? then LastAuthorized(log) else Some(e.at)
    ensures Deliveries(log + [e]) == if e.Delivered? then Deliveries(log) + [e.content] else Deliveries(log)
    ensures CadenceHolds(log) && e.Authorized? ==> CadenceHolds(log + [e])
  {
    assert (log + [e])[..|log|] == log;
  }

  lemma DeliveredInTime(log: seq<Event>, content: Bytes, at: nat)
    requires CadenceHolds(log) && SinceAuthorized(log) + |content| <= AUTH_BYTES && LastAuthorized(log).Some?
    requires JustAuthorized(log) || at < LastAuthorized(log).value + AUTH_INTERVAL
    ensures CadenceHolds(log + [Delivered(content, at)])
  {
    LogMore(log, Delivered(content, at));
    assert (log + [Delivered(content, at)])[..|log|] == log;
  }

  // ---------- the delivery stream ----------

  /** What happens around one pull: clock readings before and after the authorization, whether the read
      and the authorization succeed, and whether the consumer cancels while either is awaited. */
  datatype Pull = Pull(now: nat, later: nat, readOk: bool, cancelledInRead: bool, authorizeOk: bool, cancelledInAuthorize: bool)

  ghost predicate Undisturbed(p: Pull) {
    p.readOk && !p.cancelledInRead && p.authorizeOk && !p.cancelledInAuthorize
  }

  /** Room for every byte from chunk n on, and one more per chunk. */
  function Unread(chunks: seq<Bytes>, n: nat): nat
    requires n <= |chunks|
    decreases |chunks| - n
  {
    if n == |chunks| then 0 else |chunks[n]| + 1 + Unread(chunks, n + 1)
  }

  function Min(a: nat, b: nat): nat {
    if a < b then a else b
  }

  class DeliveryStream {
    const strict: bool
    const bound: bool
    const chunks: seq<Bytes>
    var next: nat
    var stopped: bool
    var closed: bool
    var checkedAt: nat
    var delivered: nat
    var pending: Option<Bytes>
    var offset: nat
    var queue: seq<Bytes>
    ghost var log: seq<Event>

    /** Delivered bytes, the rest of the current chunk and the unread chunks are the source. */
    ghost predicate BytesKept()
      reads this
    {
      && next <= |chunks| && (pending.Some? ==> offset <= |pending.value|)
      && (!stopped ==> Flatten(queue, |queue|) + Rest() == Flatten(chunks, next))
      && Flatten(queue, |queue|) <= Flatten(chunks, |chunks|)
      && (closed ==> stopped)
      && (closed ==> Flatten(queue, |queue|) == Flatten(chunks, |chunks|))
    }

    ghost function Rest(): Bytes
      requires pending.Some? ==> offset <= |pending.value|
      reads this
    {
      if pending.Some? then pending.value[offset..] else []
    }

    ghost predicate Valid()
      reads this
    {
      && BytesKept()
      && CadenceHolds(log) && delivered == SinceAuthorized(log) <= AUTH_BYTES && LastAuthorized(log) == Some(checkedAt)
      && (strict ==> StrictHolds(log))
      && Deliveries(log) == queue
    }

    /** Created right after a successful authorization. */
    constructor (chunks: seq<Bytes>, strict: bool, bound: bool, now: nat)
      ensures Valid() && Resting() && !stopped && !closed && queue == [] && Left() == Unread(chunks, 0)
      ensures this.chunks == chunks && this.strict == strict && this.bound == bound
    {
      this.chunks, this.strict, this.bound := chunks, strict, bound;
      next, stopped, closed, checkedAt, delivered, pending, offset, queue := 0, false, false, now, 0, None, 0, [];
      log := [Authorized(now)];
      new;
      LogMore([], Authorized(now));
      assert [] + [Authorized(now)] == log;
    }

    method Cancel()
      requires Valid()
      modifies this
      ensures Valid() && stopped && pending.None? && queue == old(queue) && closed == old(closed) && log == old(log)
      ensures checkedAt == old(checkedAt) && delivered == old(delivered)
    {
      stopped, pending := true, None;
    }

    /** Between pulls no chunk is kept that has nothing left. */
    ghost predicate Resting()
      reads this
    {
      pending.Some? ==> offset < |pending.value|
    }

    /** How many more pieces there can be. */
    ghost function Left(): nat
      requires BytesKept()
      reads this
    {
      Unread(chunks, next) + if pending.Some? then |pending.value| - offset else 0
    }

    ghost predicate AtEnd()
      reads this
    {
      pending.None? && next == |chunks|
    }

    /** What the next piece is taken from. */
    ghost function Unsent(): Bytes
      requires BytesKept()
      reads this
    {
      if pending.Some? then Rest() else if next < |chunks| then chunks[next] else []
    }

    /** A stream that is not strict renews its authorization after 4 MiB and after a second. */
    ghost predicate RenewalDue(p: Pull)
      reads this
    {
      !strict && (delivered >= 4_194_304 || p.now - checkedAt >= 1000)
    }

    /** Strict streams of a verified snapshot hand out 4 MiB at a time, others 64 KiB; a stream that is not
        strict no more than its authorization still allows. */
    ghost predicate PieceFits(piece: Bytes, unsent: Bytes, unproven: nat) {
      && piece <= unsent
      && |piece| <= (if strict && bound then 4_194_304 else 65_536) && (!strict ==> unproven + |piece| <= 4_194_304)
      && (|piece| == |unsent| || |piece| == (if strict && bound then 4_194_304 else 65_536)
          || (!strict && unproven + |piece| == 4_194_304))
    }

    /** Takes the next chunk, or closes at the end, or stops. */
    method ReadChunk(p: Pull) returns (ready: bool)
      requires Valid() && !stopped && !closed && pending.None?
      modifies this
      ensures Valid() && queue == old(queue) && log == old(log) && checkedAt == old(checkedAt)
      ensures delivered == old(delivered)
      ensures ready ==> !stopped && !closed && pending.Some? && offset == 0 && Left() + 1 == old(Left())
      ensures ready ==> pending == Some(old(Unsent()))
      ensures !ready ==> stopped && pending.None? && (closed <==> p.readOk && !p.cancelledInRead)
      ensures ready <==> p.readOk && !p.cancelledInRead && !old(AtEnd())
      ensures closed ==> old(AtEnd())
    {
      hide CadenceHolds, StrictHolds, SinceAuthorized, LastAuthorized, Deliveries, Flatten;
      if p.cancelledInRead || !p.readOk {
        Cancel();
        return false;
      }
      if next == |chunks| {
        stopped, closed := true, true;
        assert Flatten(queue, |queue|) + [] == Flatten(queue, |queue|);
        return false;
      }
      FlattenStep(chunks, next);
      assert Flatten(queue, |queue|) + [] == Flatten(queue, |queue|);
      pending, offset, next := Some(chunks[next]), 0, next + 1;
      assert Rest() == chunks[next - 1];
      return true;
    }

    /** Renews the authorization, or stops. */
    method Renew(p: Pull) returns (renewed: bool)
      requires Valid() && !stopped && !closed
      modifies this
      ensures Valid() && queue == old(queue) && closed == old(closed)
      ensures renewed <==> p.authorizeOk && !p.cancelledInAuthorize
      ensures renewed ==> !stopped && JustAuthorized(log) && delivered == 0 && log == old(log) + [Authorized(p.later)]
      ensures renewed ==> pending == old(pending) && offset == old(offset) && next == old(next)
      ensures !renewed ==> stopped && pending.None? && log == old(log)
    {
      hide CadenceHolds, StrictHolds, SinceAuthorized, LastAuthorized, Deliveries, Flatten;
      if !p.authorizeOk || p.cancelledInAuthorize {
        Cancel();
        return false;
      }
      Authorize(p.later);
      return true;
    }

    /** Hands out one more piece, after a renewal if one is due, or closes at the end of the source, or stops
        when the read or the renewal fails. */
    method PullOnce(p: Pull)
      requires Valid() && Resting() && !stopped && !closed
      modifies this
      ensures Valid() && Resting()
      ensures var renewing := strict || old(RenewalDue(p));
        || (queue == old(queue) && log == old(log) && stopped)
        || exists piece :: queue == old(queue) + [piece] && PieceFits(piece, old(Unsent()), if renewing then 0 else old(delivered))
             && log == old(log) + (if renewing then [Authorized(p.later)] else []) + [Delivered(piece, p.now)]
      ensures |queue| > |old(queue)| <==>
        && (old(pending.Some?) || (p.readOk && !p.cancelledInRead && !old(AtEnd())))
        && (strict || old(RenewalDue(p)) ==> p.authorizeOk && !p.cancelledInAuthorize)
      ensures closed <==> old(AtEnd()) && p.readOk && !p.cancelledInRead
      ensures |queue| > |old(queue)| ==> !stopped && !closed && Left() < old(Left())
    {
      hide CadenceHolds, StrictHolds, SinceAuthorized, LastAuthorized, Deliveries, Flatten, JustAuthorized, BytesKept, PieceFits;
      InBounds();
      if pending.None? {
        var ready := ReadChunk(p);
        InBounds();
        if !ready { return; }
      }
      DeliverPiece(p);
    }

    /** The rest of a pull, once there is a chunk. */
    method DeliverPiece(p: Pull)
      requires Valid() && !stopped && !closed && pending.Some?
      modifies this
      ensures Valid() && Resting() && !closed
      ensures var renewing := strict || old(RenewalDue(p));
        if renewing && !(p.authorizeOk && !p.cancelledInAuthorize) then queue == old(queue) && log == old(log) && stopped
        else
          && !stopped && |queue| == |old(queue)| + 1 && queue == old(queue) + [queue[|old(queue)|]]
          && PieceFits(queue[|old(queue)|], old(Unsent()), if renewing then 0 else old(delivered))
          && log == old(log) + (if renewing then [Authorized(p.later)] else []) + [Delivered(queue[|old(queue)|], p.now)]
          && Left() <= old(Left()) && (old(Resting()) ==> Left() < old(Left()))
    {
      hide CadenceHolds, StrictHolds, SinceAuthorized, LastAuthorized, Deliveries, Flatten, JustAuthorized, BytesKept;
      InBounds();
      if !strict && (delivered >= AUTH_BYTES || p.now >= checkedAt + AUTH_INTERVAL) {
        var renewed := Renew(p);
        if !renewed { return; }
      }
      var length := if strict then Min(if bound then AUTH_BYTES else CHUNK_BYTES, |pending.value| - offset)
                    else Min(Min(CHUNK_BYTES, |pending.value| - offset), AUTH_BYTES - delivered);
      if strict {
        var renewed := Renew(p);
        if !renewed { return; }
      }
      Enqueue(length, p.now);
    }

    lemma InBounds()
      requires BytesKept()
      ensures pending.Some? ==> offset <= |pending.value|
    {
    }

    method Authorize(now: nat)
      requires Valid() && !stopped
      modifies this`log, this`checkedAt, this`delivered
      ensures Valid() && JustAuthorized(log) && delivered == 0 && log == old(log) + [Authorized(now)]
    {
      hide CadenceHolds, SinceAuthorized, LastAuthorized, Deliveries, Flatten;
      LogMore(log, Authorized(now));
      log := log + [Authorized(now)];
      checkedAt, delivered := now, 0;
    }

    method Enqueue(length: nat, now: nat)
      requires Valid() && !stopped && !closed && pending.Some? && length <= |pending.value| - offset
      requires delivered + length <= AUTH_BYTES
      requires JustAuthorized(log) || (!strict && now < checkedAt + AUTH_INTERVAL)
      modifies this
      ensures Valid() && Resting() && !closed && !stopped && |queue| == |old(queue)| + 1
      ensures Left() + length == old(Left())
      ensures queue == old(queue) + [old(Rest())[..length]] && log == old(log) + [Delivered(old(Rest())[..length], now)]
    {
      hide CadenceHolds, StrictHolds, SinceAuthorized, LastAuthorized, Deliveries, Flatten, JustAuthorized;
      var chunk := pending.value[offset..offset + length];
      ghost var rest := Rest();
      Slices(pending.value, offset, length);
      DeliveredInTime(log, chunk, now);
      LogMore(log, Delivered(chunk, now));
      StrictMore(log, chunk, now);
      PieceKept(queue, rest, chunk, length, Flatten(chunks, next));
      FlattenGrows(chunks, next, |chunks|);
      PrefixOfPrefix(Flatten(queue + [chunk], |queue + [chunk]|), Flatten(chunks, next), Flatten(chunks, |chunks|));
      log := log + [Delivered(chunk, now)];
      queue := queue + [chunk];
      offset, delivered := offset + length, delivered + length;
      if offset == |pending.value| {
        assert rest[length..] == [];
        pending := None;
      }
    }
  }

  lemma Slices(value: Bytes, offset: nat, length: nat)
    requires offset + length <= |value|
    ensures value[offset..offset + length] == value[offset..][..length]
    ensures value[offset + length..] == value[offset..][length..]
  {
  }

  lemma FlattenStep(chunks: seq<Bytes>, n: nat)
    requires n < |chunks|
    ensures Flatten(chunks, n + 1) == Flatten(chunks, n) + chunks[n]
  {
  }

  /** Moving a piece from the rest to the queue keeps the bytes. */
  lemma PieceKept(queue: seq<Bytes>, rest: Bytes, piece: Bytes, length: nat, source: Bytes)
    requires length <= |rest| && piece == rest[..length] && Flatten(queue, |queue|) + rest == source
    ensures var more := queue + [piece];
      && Flatten(more, |more|) + rest[length..] == source && Flatten(more, |more|) <= source
  {
    var more := queue + [piece];
    FlattenPrefix(queue, more, |queue|);
    var before := Flatten(queue, |queue|);
    assert Flatten(more, |more|) == before + rest[..length];
    assert rest == rest[..length] + rest[length..];
    assert before + rest == (before + rest[..length]) + rest[length..];
  }

  lemma PrefixOfPrefix(a: Bytes, b: Bytes, c: Bytes)
    requires a <= b && b <= c
    ensures a <= c
  {
  }

  lemma StrictMore(log: seq<Event>, content: Bytes, at: nat)
    ensures StrictHolds(log) && JustAuthorized(log) ==> StrictHolds(log + [Delivered(content, at)])
  {
  }

  /** Any run of the stream: whatever the chunks of the source and whatever happens at each pull, what
      was delivered is a prefix of the source, all of it once closed, and the authorizations kept up. */
  method Download(chunks: seq<Bytes>, strict: bool, bound: bool, start: nat, pulls: seq<Pull>)
    returns (delivered: seq<Bytes>, closed: bool, ghost log: seq<Event>)
    ensures Flatten(delivered, |delivered|) <= Flatten(chunks, |chunks|)
    ensures closed ==> Flatten(delivered, |delivered|) == Flatten(chunks, |chunks|)
    ensures Deliveries(log) == delivered && CadenceHolds(log)
    ensures strict ==> StrictHolds(log)
    ensures |pulls| > Unread(chunks, 0) && (forall p :: p in pulls ==> Undisturbed(p)) ==> closed
    ensures forall piece :: piece in delivered ==> |piece| <= if strict && bound then 4_194_304 else 65_536
  {
    hide CadenceHolds, StrictHolds, SinceAuthorized, LastAuthorized, Deliveries, Flatten;
    var stream := new DeliveryStream(chunks, strict, bound, start);
    var i := 0;
    while i < |pulls| && !stream.stopped && !stream.closed
      invariant 0 <= i <= |pulls| && fresh(stream) && stream.Valid() && stream.Resting()
      invariant stream.chunks == chunks && stream.strict == strict && stream.bound == bound
      invariant forall piece :: piece in stream.queue ==> |piece| <= if strict && bound then 4_194_304 else 65_536
      invariant (forall p :: p in pulls ==> Undisturbed(p)) ==> stream.closed || (!stream.stopped && stream.Left() + i <= Unread(chunks, 0))
    {
      assert pulls[i] in pulls;
      stream.PullOnce(pulls[i]);
      i := i + 1;
    }
    delivered, closed, log := stream.queue, stream.closed, stream.log;
  }

  // ---------- the verified snapshot ----------

  /** What happens while a snapshot is buffered: the outcome of the n-th authorization, the n-th clock
      reading, and what the n-th look at the abort signal finds. */
  datatype Surroundings = Surroundings(authorizeOk: nat -> bool, clock: nat -> nat, aborted: nat -> bool)

  const MAX_EMPTY_READS: nat := 128
  const MAX_BOUND_DOWNLOAD_BYTES: nat := 100 * 1024 * 1024

  /** How many of the last chunks before position n were empty. */
  function EmptyRun(chunks: seq<Bytes>, n: nat): nat
    requires n <= |chunks|
  {
    if n == 0 || chunks[n - 1] != [] then 0 else EmptyRun(chunks, n - 1) + 1
  }

  /** How often authorization, clock and abort signal were asked, and what was buffered since the last
      proof. */
  datatype Buffered = Buffered(calls: nat, ticks: nat, looks: nat, sinceCheck: nat, checkedAt: nat)

  ghost predicate Calm(s: Surroundings) {
    (forall n :: s.authorizeOk(n)) && (forall n :: !s.aborted(n))
  }

  /** What the buffering did: it obtained a proof of the right to download, took bytes in, or read the
      clock. */
  datatype Step = Proven | Taken(content: Bytes) | Looked(at: nat)

  /** Bytes taken in since the last proof. */
  function SinceProven(log: seq<Step>): nat {
    if log == [] then 0
    else
      match log[|log| - 1]
      case Proven => 0
      case Taken(content) => SinceProven(log[..|log| - 1]) + |content|
      case Looked(_) => SinceProven(log[..|log| - 1])
  }

  /** The first reading of the clock after the last proof. */
  function ProvenAt(log: seq<Step>): Option<nat> {
    if log == [] then None
    else
      var before := ProvenAt(log[..|log| - 1]);
      match log[|log| - 1]
      case Proven => None
      case Taken(_) => before
      case Looked(at) => if before.Some? then before else Some(at)
  }

  function Proofs(log: seq<Step>): nat {
    if log == [] then 0 else Proofs(log[..|log| - 1]) + if log[|log| - 1].Proven? then 1 else 0
  }

  function Readings(log: seq<Step>): nat {
    if log == [] then 0 else Readings(log[..|log| - 1]) + if log[|log| - 1].Looked? then 1 else 0
  }

  /** The bytes buffered so far. */
  function Joined(log: seq<Step>): Bytes {
    if log == [] then []
    else
      match log[|log| - 1]
      case Proven => Joined(log[..|log| - 1])
      case Taken(content) => Joined(log[..|log| - 1]) + content
      case Looked(_) => Joined(log[..|log| - 1])
  }

  ghost predicate TookLast(log: seq<Step>) {
    log != [] && log[|log| - 1].Taken?
  }

  ghost predicate LookedLast(log: seq<Step>) {
    log != [] && log[|log| - 1].Looked?
  }

  /** Nothing goes on without a proof: at the start, once 4 MiB have come in since the last one, once the
      clock shows that a second has passed, and right after the last declared byte. */
  ghost predicate ProofDue(log: seq<Step>, sizeBytes: nat) {
    || log == []
    || (TookLast(log) && SinceProven(log) >= 4_194_304)
    || (LookedLast(log)
        && var before := log[..|log| - 1];
           || (ProvenAt(before).Some? && log[|log| - 1].at - ProvenAt(before).value >= 1000)
           || (TookLast(before) && |Joined(before)| == sizeBytes))
  }

  /** Bytes come in at the start of a chunk, after a reading of the clock at the end of the one before, or
      right after a proof. */
  ghost predicate MayTake(log: seq<Step>) {
    LookedLast(log) && !TookLast(log[..|log| - 1])
  }

  /** One more step of the buffering, against what surrounds it. */
  ghost predicate StepFits(s: Surroundings, log: seq<Step>, step: Step, sizeBytes: nat) {
    match step
    case Proven => ProofDue(log, sizeBytes) && s.authorizeOk(Proofs(log))
    case Looked(at) => !ProofDue(log, sizeBytes) && at == s.clock(Readings(log))
    case Taken(content) =>
      !ProofDue(log, sizeBytes) && MayTake(log) && content != [] && SinceProven(log) + |content| <= 4_194_304
  }

  /** At every point of the log. */
  ghost predicate Proper(s: Surroundings, log: seq<Step>, sizeBytes: nat) {
    log != [] ==>
      var before := log[..|log| - 1];
      Proper(s, before, sizeBytes) && StepFits(s, before, log[|log| - 1], sizeBytes)
  }

  lemma ProperMore(s: Surroundings, log: seq<Step>, step: Step, sizeBytes: nat)
    requires Proper(s, log, sizeBytes) && StepFits(s, log, step, sizeBytes)
    ensures Proper(s, log + [step], sizeBytes)
    ensures SinceProven(log + [step]) == if step.Taken? then SinceProven(log) + |step.content| else if step.Proven? then 0 else SinceProven(log)
    ensures Joined(log + [step]) == if step.Taken? then Joined(log) + step.content else Joined(log)
    ensures Proofs(log + [step]) == Proofs(log) + if step.Proven? then 1 else 0
    ensures Readings(log + [step]) == Readings(log) + if step.Looked? then 1 else 0
    ensures ProvenAt(log + [step]) ==
      if step.Proven? then None else if step.Looked? && ProvenAt(log).None? then Some(step.at) else ProvenAt(log)
    ensures (log + [step])[..|log|] == log
  {
    assert (log + [step])[..|log|] == log;
  }

  /** What the log says about the state of the loops. */
  ghost predicate Logged(s: Surroundings, log: seq<Step>, b: Buffered, taken: Bytes, sizeBytes: nat) {
    && Proper(s, log, sizeBytes) && !ProofDue(log, sizeBytes) && LookedLast(log)
    && SinceProven(log) == b.sinceCheck < AUTH_BYTES && Joined(log) == taken
    && ProvenAt(log) == Some(b.checkedAt) && Proofs(log) == b.calls && Readings(log) == b.ticks
  }

  /** The abort signal was looked at this often and never found. */
  ghost predicate NotAborted(s: Surroundings, looks: nat) {
    forall n :: 0 <= n < looks ==> !s.aborted(n)
  }

  /** A fresh proof of the right to download, or None; then the clock is read. */
  method Prove(s: Surroundings, b: Buffered) returns (proved: Option<Buffered>)
    ensures proved.Some? <==> s.authorizeOk(b.calls) && !s.aborted(b.looks)
    ensures proved.Some? ==> proved.value == Buffered(b.calls + 1, b.ticks + 1, b.looks + 1, 0, s.clock(b.ticks))
  {
    if !s.authorizeOk(b.calls) || s.aborted(b.looks) {
      return None;
    }
    return Some(Buffered(b.calls + 1, b.ticks + 1, b.looks + 1, 0, s.clock(b.ticks)));
  }

  /** A proof that is due, logged with the reading that follows it. */
  lemma ProofLogged(s: Surroundings, log: seq<Step>, b: Buffered, sizeBytes: nat)
    requires Proper(s, log, sizeBytes) && ProofDue(log, sizeBytes) && s.authorizeOk(b.calls)
    requires Proofs(log) == b.calls && Readings(log) == b.ticks
    ensures var more := log + [Proven] + [Looked(s.clock(b.ticks))];
      && Logged(s, more, Buffered(b.calls + 1, b.ticks + 1, b.looks + 1, 0, s.clock(b.ticks)), Joined(log), sizeBytes)
      && MayTake(more)
  {
    hide Proper, SinceProven, Joined, Proofs, Readings, ProvenAt;
    ProperMore(s, log, Proven, sizeBytes);
    var proven := log + [Proven];
    assert proven[|proven| - 1].Proven?;
    ProperMore(s, proven, Looked(s.clock(b.ticks)), sizeBytes);
  }

  /** One part of a chunk, logged with the reading that follows it unless the budget is used up. */
  lemma PartLogged(s: Surroundings, log: seq<Step>, b: Buffered, taken: Bytes, part: Bytes, sizeBytes: nat)
    requires Logged(s, log, b, taken, sizeBytes) && MayTake(log) && part != [] && b.sinceCheck + |part| <= AUTH_BYTES
    ensures var more := log + [Taken(part)];
      && Proper(s, more, sizeBytes) && Joined(more) == taken + part && Proofs(more) == b.calls && Readings(more) == b.ticks
      && (ProofDue(more, sizeBytes) <==> b.sinceCheck + |part| >= AUTH_BYTES)
    ensures b.sinceCheck + |part| < AUTH_BYTES ==>
      var at := s.clock(b.ticks);
      var more := log + [Taken(part)] + [Looked(at)];
      && Proper(s, more, sizeBytes) && Joined(more) == taken + part && Proofs(more) == b.calls && Readings(more) == b.ticks + 1
      && (ProofDue(more, sizeBytes) <==> at >= b.checkedAt + AUTH_INTERVAL || |taken + part| == sizeBytes)
      && (!ProofDue(more, sizeBytes) ==> Logged(s, more, b.(sinceCheck := b.sinceCheck + |part|, ticks := b.ticks + 1), taken + part, sizeBytes))
  {
    hide Proper, SinceProven, Joined, Proofs, Readings, ProvenAt;
    ProperMore(s, log, Taken(part), sizeBytes);
    var took := log + [Taken(part)];
    assert TookLast(took);
    if b.sinceCheck + |part| < AUTH_BYTES {
      ProperMore(s, took, Looked(s.clock(b.ticks)), sizeBytes);
    }
  }

  /** The reading of the clock at the end of a chunk. */
  lemma ReadingLogged(s: Surroundings, log: seq<Step>, b: Buffered, taken: Bytes, sizeBytes: nat)
    requires Logged(s, log, b, taken, sizeBytes)
    ensures var at := s.clock(b.ticks);
      var more := log + [Looked(at)];
      && Proper(s, more, sizeBytes) && Joined(more) == taken && Proofs(more) == b.calls && Readings(more) == b.ticks + 1
      && (ProofDue(more, sizeBytes) <==> at >= b.checkedAt + AUTH_INTERVAL)
      && MayTake(more)
      && (!ProofDue(more, sizeBytes) ==> Logged(s, more, b.(ticks := b.ticks + 1), taken, sizeBytes))
  {
    hide Proper, SinceProven, Joined, Proofs, Readings, ProvenAt;
    ProperMore(s, log, Looked(s.clock(b.ticks)), sizeBytes);
  }

  /** One chunk, part by part. A part is never more than the budget leaves room for and never empty, so
      the loop moves on. The moment the declared size is reached, a wrong digest ends it; otherwise only a
      refused proof or an abort does. */
  method BufferChunk(s: Surroundings, taken: Bytes, chunk: Bytes, sizeBytes: nat, digest: Digest, start: Buffered,
                     ghost begun: seq<Step>)
    returns (more: Bytes, result: Option<Buffered>, ghost log: seq<Step>)
    requires |taken| + |chunk| <= sizeBytes && Logged(s, begun, start, taken, sizeBytes) && MayTake(begun)
    requires start.looks >= start.calls && NotAborted(s, start.looks)
    ensures Proper(s, log, sizeBytes) && Joined(log) == more && taken <= more <= taken + chunk
    ensures result.Some? ==> more == taken + chunk && Logged(s, log, result.value, more, sizeBytes)
    ensures result.Some? ==>
      NotAborted(s, result.value.looks) && result.value.looks - result.value.calls == start.looks - start.calls
    ensures result.Some? && chunk != [] && |more| == sizeBytes ==> Sha256(more) == digest
    ensures result.None? ==>
      || (|taken| + |chunk| == sizeBytes && Sha256(taken + chunk) != digest)
      || (ProofDue(log, sizeBytes) && (!s.authorizeOk(Proofs(log)) || s.aborted(Proofs(log) + start.looks - start.calls)))
  {
    hide Proper, SinceProven, Joined, Proofs, Readings, ProvenAt, ProofDue, MayTake;
    more, log := taken, begun;
    var b := start;
    var offset := 0;
    while offset < |chunk|
      invariant 0 <= offset <= |chunk| && Logged(s, log, b, more, sizeBytes)
      invariant offset < |chunk| ==> MayTake(log)
      invariant more == taken + chunk[..offset]
      invariant NotAborted(s, b.looks) && b.looks - b.calls == start.looks - start.calls
      invariant offset > 0 && |more| == sizeBytes ==> Sha256(more) == digest
    {
      var end := Min(|chunk|, offset + (AUTH_BYTES - b.sinceCheck));
      var part := chunk[offset..end];
      assert chunk[..end] == chunk[..offset] + part;
      PartLogged(s, log, b, more, part, sizeBytes);
      log := log + [Taken(part)];
      more := more + part;
      b := b.(sinceCheck := b.sinceCheck + |part|);
      offset := end;
      if |more| == sizeBytes && Sha256(more) != digest {
        assert chunk[..offset] == chunk;
        return more, None, log;
      }
      var due := b.sinceCheck >= AUTH_BYTES;
      if !due {
        log := log + [Looked(s.clock(b.ticks))];
        due := s.clock(b.ticks) >= b.checkedAt + AUTH_INTERVAL || |more| == sizeBytes;
        b := b.(ticks := b.ticks + 1);
      }
      if due {
        var proved := Prove(s, b);
        if proved.None? {
          return more, None, log;
        }
        ProofLogged(s, log, b, sizeBytes);
        b := proved.value;
        log := log + [Proven] + [Looked(b.checkedAt)];
      }
    }
    assert chunk[..offset] == chunk;
    result := Some(b);
  }

  /** The end of a chunk: the clock is read once more, and a proof obtained if it is due. */
  method EndChunk(s: Surroundings, ghost taken: Bytes, ghost sizeBytes: nat, start: Buffered, ghost begun: seq<Step>)
    returns (result: Option<Buffered>, ghost log: seq<Step>)
    requires Logged(s, begun, start, taken, sizeBytes) && start.looks >= start.calls && NotAborted(s, start.looks)
    ensures result.None? <==>
      s.clock(start.ticks) - start.checkedAt >= 1000 && (!s.authorizeOk(start.calls) || s.aborted(start.looks))
    ensures Proper(s, log, sizeBytes) && Joined(log) == taken
    ensures result.Some? ==>
      && Logged(s, log, result.value, taken, sizeBytes) && MayTake(log)
      && NotAborted(s, result.value.looks) && result.value.looks - result.value.calls == start.looks - start.calls
    ensures result.None? ==>
      ProofDue(log, sizeBytes) && (!s.authorizeOk(Proofs(log)) || s.aborted(Proofs(log) + start.looks - start.calls))
  {
    hide Proper, SinceProven, Joined, Proofs, Readings, ProvenAt, ProofDue, MayTake;
    ReadingLogged(s, begun, start, taken, sizeBytes);
    log := begun + [Looked(s.clock(start.ticks))];
    var b := start.(ticks := start.ticks + 1);
    if s.clock(start.ticks) < b.checkedAt + AUTH_INTERVAL {
      return Some(b), log;
    }
    result := Prove(s, b);
    if result.Some? {
      ProofLogged(s, log, b, sizeBytes);
      log := log + [Proven] + [Looked(result.value.checkedAt)];
    }
  }

  /** A long run of empty reads. */
  ghost predicate Endless(chunks: seq<Bytes>) {
    exists n :: 0 <= n <= |chunks| && EmptyRun(chunks, n) > 128
  }

  /** The source is what was declared, not too large, and keeps yielding bytes. */
  ghost predicate AsDeclared(chunks: seq<Bytes>, sizeBytes: nat, digest: Digest) {
    && |Flatten(chunks, |chunks|)| == sizeBytes <= 104_857_600
    && Sha256(Flatten(chunks, |chunks|)) == digest
    && !Endless(chunks)
  }

  /** Buffers a whole source before any byte is handed out. Proofs are obtained where they are due and
      nowhere else, however the run ends. A snapshot is the whole source, proven once more at the end, with
      the abort signal looked at around every read and after every proof; and a source that is as declared
      is refused only for a refused proof or an abort. */
  method BufferSnapshot(s: Surroundings, chunks: seq<Bytes>, sizeBytes: nat,
                        digest: Digest) returns (snapshot: Option<Bytes>, ghost log: seq<Step>)
    ensures Proper(s, log, sizeBytes) && Joined(log) <= Flatten(chunks, |chunks|)
    ensures snapshot.Some? ==> snapshot.value == Joined(log) == Flatten(chunks, |chunks|) && s.authorizeOk(Proofs(log))
    ensures snapshot.Some? ==> AsDeclared(chunks, sizeBytes, digest) && NotAborted(s, Proofs(log) + 2 * |chunks| + 4)
    ensures snapshot.None? && AsDeclared(chunks, sizeBytes, digest) ==>
      !s.authorizeOk(Proofs(log)) || !NotAborted(s, Proofs(log) + 2 * |chunks| + 4)
    ensures Calm(s) && AsDeclared(chunks, sizeBytes, digest) ==> snapshot.Some?
  {
    hide Proper, SinceProven, Joined, Proofs, Readings, ProvenAt, ProofDue, MayTake, AsDeclared, Flatten, Endless;
    NothingLogged(s, sizeBytes);
    log := [];
    if sizeBytes > MAX_BOUND_DOWNLOAD_BYTES || s.aborted(0) {
      DeclaredFits(chunks, sizeBytes, digest);
      return None, log;
    }
    var first := Buffered(0, 0, 1, 0, 0);
    var proved := Prove(s, first);
    if proved.None? {
      return None, log;
    }
    ProofLogged(s, log, first, sizeBytes);
    var b := proved.value;
    log := log + [Proven] + [Looked(b.checkedAt)];
    FlattenNone(chunks);
    var taken: Bytes, emptyReads := [], 0;
    for i := 0 to |chunks|
      invariant Logged(s, log, b, taken, sizeBytes) && MayTake(log) && taken == Flatten(chunks, i) && |taken| <= sizeBytes
      invariant NotAborted(s, b.looks) && b.looks == b.calls + 1 + 2 * i
      invariant emptyReads == EmptyRun(chunks, i)
      invariant forall n :: 0 <= n <= i ==> EmptyRun(chunks, n) <= MAX_EMPTY_READS
    {
      FlattenStep(chunks, i);
      FlattenGrows(chunks, i + 1, |chunks|);
      if AsDeclared(chunks, sizeBytes, digest) {
        DeclaredPrefix(chunks, i, sizeBytes, digest);
      }
      if s.aborted(b.looks) || s.aborted(b.looks + 1) || |chunks[i]| > sizeBytes - |taken| {
        return None, log;
      }
      b := b.(looks := b.looks + 2);
      if chunks[i] == [] {
        emptyReads := emptyReads + 1;
        if emptyReads > MAX_EMPTY_READS {
          assert EmptyRun(chunks, i + 1) > MAX_EMPTY_READS;
          return None, log;
        }
      } else {
        emptyReads := 0;
      }
      var more, result;
      more, result, log := BufferChunk(s, taken, chunks[i], sizeBytes, digest, b, log);
      if result.None? {
        return None, log;
      }
      taken, b := more, result.value;
      result, log := EndChunk(s, taken, sizeBytes, b, log);
      if result.None? {
        return None, log;
      }
      b := result.value;
    }
    DeclaredExactly(chunks, sizeBytes, digest);
    if s.aborted(b.looks) || s.aborted(b.looks + 1) || |taken| != sizeBytes || Sha256(taken) != digest {
      return None, log;
    }
    proved := Prove(s, b.(looks := b.looks + 2));
    if proved.None? {
      return None, log;
    }
    return Some(taken), log;
  }

  lemma NothingLogged(s: Surroundings, sizeBytes: nat)
    ensures Proper(s, [], sizeBytes) && ProofDue([], sizeBytes) && Joined([]) == [] && Proofs([]) == 0 && Readings([]) == 0
  {
  }

  lemma FlattenNone(chunks: seq<Bytes>)
    ensures Flatten(chunks, 0) == []
  {
  }

  lemma DeclaredFits(chunks: seq<Bytes>, sizeBytes: nat, digest: Digest)
    ensures AsDeclared(chunks, sizeBytes, digest) ==> sizeBytes <= MAX_BOUND_DOWNLOAD_BYTES
  {
  }

  /** A source as declared never exceeds the declared size, has its digest once it has its size, and never
      has too long a run of empty chunks. */
  lemma DeclaredPrefix(chunks: seq<Bytes>, i: nat, sizeBytes: nat, digest: Digest)
    requires i < |chunks| && AsDeclared(chunks, sizeBytes, digest)
    ensures |Flatten(chunks, i)| + |chunks[i]| <= sizeBytes && EmptyRun(chunks, i + 1) <= MAX_EMPTY_READS
    ensures |Flatten(chunks, i)| + |chunks[i]| == sizeBytes ==> Sha256(Flatten(chunks, i) + chunks[i]) == digest
  {
    FlattenGrows(chunks, i + 1, |chunks|);
    LongPrefixIsAll(Flatten(chunks, i + 1), Flatten(chunks, |chunks|), sizeBytes);
  }

  lemma DeclaredExactly(chunks: seq<Bytes>, sizeBytes: nat, digest: Digest)
    requires sizeBytes <= MAX_BOUND_DOWNLOAD_BYTES && forall n :: 0 <= n <= |chunks| ==> EmptyRun(chunks, n) <= MAX_EMPTY_READS
    ensures AsDeclared(chunks, sizeBytes, digest)
       <==> |Flatten(chunks, |chunks|)| == sizeBytes && Sha256(Flatten(chunks, |chunks|)) == digest
  {
  }

  lemma LongPrefixIsAll(a: Bytes, b: Bytes, n: nat)
    requires a <= b
    ensures |a| == n && |b| == n ==> a == b
  {
  }
}
