/** The room actor's state and, as relations, what each of its commands may do (src/actor.rs). */
module Protocol {
  import opened Wrappers
  import opened Bytes
  import opened Frame
  import opened FrameTheorems
  import opened Loro
  import opened Store
  import opened Gateway
  import opened ExactAppend
  import opened Rotation
  import opened Recovery

  datatype Lifecycle = Recovering | Ready | AppendAmbiguous | Corrupt | Unavailable

  datatype Status = AckOk | DeniedStatus | RateLimitedStatus | InvalidUpdate | PayloadTooLargeStatus | AppError | Unknown

  /** An append whose outcome is not settled; it keeps its target, tuple and bytes for every retry. */
  datatype PendingAppend = PendingAppend(target: StreamKey, producer: ProducerTuple, frame: DeltaFrame, bytes: seq<byte>)

  datatype DurableAppend = DurablyCommitted(nextOffset: U64) | DurablyVerified(nextOffset: U64)

  datatype AppendFailure = DefinitelyRejected(kind: RejectionKind, message: string) | OutcomeUnknown(error: StoreError)

  /** The actor's fields as one value. */
  datatype Actor = Actor(
    boot: nat,
    stream: StreamKey,
    generation: U64,
    endOffset: U64,
    producerId: seq<byte>,
    sequence: U64,
    doc: Doc,
    history: seq<seq<byte>>,
    blocked: Option<PendingAppend>,
    lifecycle: Lifecycle
  )

  function NewActor(g: Gateway, boot: nat): Actor {
    Actor(boot, DeltaStream(0), 0, 0, g.names.delta(boot, 0), 0, EMPTY, [], None, Recovering)
  }

  // ---------------------------------------------------------------- validation

  function BlobAllowed(lib: Library, update: seq<byte>, soleSnapshot: bool): Result<(), string> {
    if update == [] then Failure("DocUpdate contains an empty update")
    else
      match lib.mode(update)
      case None => Failure("update metadata does not decode")
      case Some(Snapshot) =>
        if soleSnapshot then Success(()) else Failure("full snapshots are accepted only as the sole blob in an empty room")
      case Some(Updates) => Success(())
      case Some(ShallowSnapshot) => Failure("shallow snapshots are not supported")
      case Some(_) => Failure("outdated Loro encodings are not supported")
  }

  function EachAllowed(lib: Library, updates: seq<seq<byte>>, soleSnapshot: bool): Result<(), string> {
    if updates == [] then Success(())
    else
      var _ :- BlobAllowed(lib, updates[0], soleSnapshot);
      EachAllowed(lib, updates[1..], soleSnapshot)
  }

  function BlobsAllowed(lib: Library, updates: seq<seq<byte>>, allowSnapshot: bool): Result<(), string> {
    if updates == [] then Failure("DocUpdate contains no updates")
    else EachAllowed(lib, updates, allowSnapshot && |updates| == 1)
  }

  /** The reload check: each frame is validated against whether anything precedes it. */
  function FramesAllowed(lib: Library, frames: seq<DeltaFrame>, empty: bool): Result<(), string> {
    if frames == [] then Success(())
    else
      var _ :- BlobsAllowed(lib, frames[0].updates, empty);
      FramesAllowed(lib, frames[1..], empty && frames[0].updates == [])
  }

  /** What replaying a whole delta stream from nothing gives. */
  function Loaded(g: Gateway, bytes: seq<byte>): Result<(seq<seq<byte>>, Doc), string> {
    match DecodedStream(g.h, bytes, g.frameLimits)
    case Failure(e) => Failure("delta stream does not decode")
    case Success(frames) =>
      var _ :- FramesAllowed(g.lib, frames, true);
      var doc :- Replayed(g.lib, AllUpdates(frames));
      Success((AllUpdates(frames), doc))
  }

  /** The document a restart comes up with: through the manifest if there is one, else by full replay. */
  function Restarted(g: Gateway, d: Durable): Result<Doc, string> {
    match Recovered(g, d)
    case Failure(_) => Failure("recovery failed")
    case Success(Some(r)) => Success(r.doc)
    case Success(None) =>
      var loaded :- Loaded(g, Content(d, DeltaStream(0)));
      Success(loaded.1)
  }

  // ---------------------------------------------------------------- appending

  function DuplicateVerified(g: Gateway, p: PendingAppend, stored: seq<byte>): Result<(), StoreError> {
    if |stored| != |p.bytes| then Failure(Integrity("duplicate range length mismatch")) else
    if stored != p.bytes then Failure(Integrity("deduplicated tuple is bound to different frame bytes")) else
    match DecodedExact(g.h, stored, g.frameLimits)
    case Failure(_) => Failure(Integrity("deduplicated frame does not decode"))
    case Success(frame) =>
      if frame.producer != p.producer then Failure(Integrity("deduplicated committed range has wrong producer tuple")) else
      if frame != p.frame then Failure(Integrity("deduplicated committed range has different frame fields")) else
      Success(())
  }

  /** The frame, its tuple and its encoding belong together. */
  predicate Prepared(g: Gateway, p: PendingAppend) {
    && p.frame == NewFrame(g.h, p.producer, p.frame.batchId, p.frame.updates)
    && g.h.utf8(p.producer.id)
    && Encoded(g.h, p.frame, g.frameLimits) == Success(p.bytes)
  }

  lemma PreparedNonempty(g: Gateway, p: PendingAppend)
    requires Prepared(g, p)
    ensures p.bytes != []
  {
    hide Encoded, UpdateDigest, Wire;
    EncodedIffFits(g.h, p.frame, g.frameLimits);
    WireLength(g.h, p.frame);
  }

  /** The duplicate proof accepts a stored range exactly when it is the pending frame's bytes. */
  lemma DuplicateProofExact(g: Gateway, p: PendingAppend, stored: seq<byte>)
    requires Prepared(g, p)
    ensures DuplicateVerified(g, p, stored).Success? <==> stored == p.bytes
  {
    hide Decoded, Encoded, UpdateDigest;
    FrameRoundTrip(g.h, p.frame, g.frameLimits, []);
    assert p.bytes + [] == p.bytes;
  }

  /** The append can go through: it is next, or stored already. */
  ghost predicate Appendable(d: Durable, p: PendingAppend) {
    CanHold(d, p.target, p.producer, p.bytes)
  }

  /** What is stored after an append that goes through if it can. */
  function AfterDelivery(d: Durable, p: PendingAppend): Durable {
    Kept(d, p.target, p.producer, p.bytes)
  }

  /** The duplicate proof of an append that the store has on record, with the range read under one fault. */
  function ProvedDuplicate(g: Gateway, d: Durable, fault: Fault, p: PendingAppend, nextOffset: nat): Result<(), StoreError> {
    if nextOffset < |p.bytes| then Failure(Integrity("duplicate next offset is smaller than retry frame"))
    else
      var stored :- RangeRead(d, fault, p.target, nextOffset - |p.bytes|, |p.bytes|);
      DuplicateVerified(g, p, stored)
  }

  /** Resolving one append against a script of faults, with `left` retries left after this attempt. */
  function Attempted(g: Gateway, orderly: bool, d: Durable, faults: seq<Fault>, p: PendingAppend, left: nat):
      (Durable, seq<Fault>, Result<DurableAppend, AppendFailure>)
    decreases left
  {
    var (d', r) := Answered(orderly, d, NextOf(faults), p.target, p.producer, p.bytes);
    var rest := RestOf(faults);
    match r
    case Success(Committed(n)) => (d', rest, Success(DurablyCommitted(n)))
    case Success(Duplicate(n)) =>
      (d', if n < |p.bytes| then rest else RestOf(rest),
       match ProvedDuplicate(g, d', NextOf(rest), p, n)
       case Success(_) => Success(DurablyVerified(n))
       case Failure(e) => Failure(OutcomeUnknown(e)))
    case Failure(Ambiguous(m)) =>
      if left == 0 then (d', rest, Failure(OutcomeUnknown(Ambiguous(m)))) else Attempted(g, orderly, d', rest, p, left - 1)
    case Failure(Rejected(kind, m)) => (d', rest, Failure(DefinitelyRejected(kind, m)))
    case Failure(Integrity(m)) => (d', rest, Failure(OutcomeUnknown(Integrity(m))))
  }

  /** Resolving one pending append, retries included, can end like this: some script of faults leads there. */
  ghost predicate Resolved(g: Gateway, orderly: bool, d: Durable, p: PendingAppend, d': Durable, r: Result<DurableAppend, AppendFailure>) {
    exists faults: seq<Fault> :: ResolvedBy(g, orderly, d, faults, p, d', r)
  }

  predicate ResolvedBy(g: Gateway, orderly: bool, d: Durable, faults: seq<Fault>, p: PendingAppend, d': Durable,
                       r: Result<DurableAppend, AppendFailure>) {
    var (after, _, result) := Attempted(g, orderly, d, faults, p, g.ambiguousRetries);
    after == d' && result == r
  }

  /** A refusal is final: the store answers a committed tuple first, or there is no second attempt to be refused. */
  predicate Steady(g: Gateway, orderly: bool) {
    orderly || g.ambiguousRetries == 0
  }

  /** What any such end means for the store. */
  ghost predicate Settlement(orderly: bool, retries: nat, d: Durable, p: PendingAppend, d': Durable, r: Result<DurableAppend, AppendFailure>) {
    && (d' == d || Landed(d, p.target, p.producer, p.bytes, d'))
    && match r
       case Success(proof) =>
         && Holds(d', p.target, p.producer, p.bytes, proof.nextOffset)
         && (proof.DurablyCommitted? ==>
               Landed(d, p.target, p.producer, p.bytes, d') && proof.nextOffset == |Content(d', p.target)|)
       case Failure(DefinitelyRejected(_, _)) =>
         (orderly || retries == 0 ==> d' == d) && (orderly ==> !Recorded(d, p.target, p.producer))
       case Failure(OutcomeUnknown(_)) => true
  }

  lemma ProvedHolds(g: Gateway, d: Durable, fault: Fault, p: PendingAppend, nextOffset: nat)
    requires ProvedDuplicate(g, d, fault, p, nextOffset).Success?
    ensures SliceIs(Content(d, p.target), nextOffset, p.bytes)
  {
    hide DecodedExact;
  }

  /** By the outcome of the first answer: settled at once, or settled by the later attempts. */
  lemma {:induction false} AttemptedSettles(g: Gateway, orderly: bool, d: Durable, faults: seq<Fault>, p: PendingAppend, left: nat)
    ensures var (d', _, r) := Attempted(g, orderly, d, faults, p, left);
            Settlement(orderly, left, d, p, d', r)
    decreases left
  {
    hide ProvedDuplicate, Answered, CanCommit, SliceIs, Recorded;
    var (d', r) := Answered(orderly, d, NextOf(faults), p.target, p.producer, p.bytes);
    AnswerMeans(orderly, d, NextOf(faults), p.target, p.producer, p.bytes);
    match r
    case Success(Committed(n)) =>
    case Success(Duplicate(n)) =>
      if ProvedDuplicate(g, d', NextOf(RestOf(faults)), p, n).Success? {
        ProvedHolds(g, d', NextOf(RestOf(faults)), p, n);
      }
    case Failure(Rejected(_, _)) =>
    case Failure(Integrity(_)) =>
    case Failure(Ambiguous(_)) =>
      if left > 0 {
        AttemptedSettles(g, orderly, d', RestOf(faults), p, left - 1);
        RecordedStays(d, p, d');
      }
  }

  /** A landed append is on record, and what is on record stays so. */
  lemma RecordedStays(d: Durable, p: PendingAppend, d': Durable)
    requires d' == d || Landed(d, p.target, p.producer, p.bytes, d')
    ensures Recorded(d, p.target, p.producer) || d' != d ==> Recorded(d', p.target, p.producer)
  {
  }

  lemma ResolvedSettles(g: Gateway, orderly: bool, d: Durable, p: PendingAppend, d': Durable, r: Result<DurableAppend, AppendFailure>)
    requires Resolved(g, orderly, d, p, d', r)
    ensures Settlement(orderly, g.ambiguousRetries, d, p, d', r)
  {
    hide Attempted, Settlement;
    var faults: seq<Fault> :| ResolvedBy(g, orderly, d, faults, p, d', r);
    AttemptedSettles(g, orderly, d, faults, p, g.ambiguousRetries);
  }

  /** With every call delivered, an encoded append succeeds exactly if it is next or there already. */
  lemma DeliveredSucceeds(g: Gateway, orderly: bool, d: Durable, p: PendingAppend, left: nat)
    requires Prepared(g, p)
    ensures var (d', rest, r) := Attempted(g, orderly, d, [], p, left);
            d' == AfterDelivery(d, p) && rest == [] && (r.Success? <==> Appendable(d, p))
  {
    hide DuplicateVerified, Prepared;
    PreparedNonempty(g, p);
    if CanCommit(d, p.target, p.producer, p.bytes) {
      CommitHolds(d, p.target, p.producer, p.bytes);
    }
    if Recorded(d, p.target, p.producer) {
      var n := d.producers[(p.target, p.producer.id)].nextOffset;
      var stored := if n < |p.bytes| then Failure(Integrity("")) else RangeRead(d, Deliver, p.target, n - |p.bytes|, |p.bytes|);
      if stored.Success? {
        DuplicateProofExact(g, p, stored.value);
      }
    }
  }

  /** Lost calls are retried one for one. */
  lemma {:induction false} LossesRetried(g: Gateway, orderly: bool, d: Durable, lost: seq<Fault>, rest: seq<Fault>, p: PendingAppend, left: nat)
    requires Losses(lost) && |lost| <= left
    ensures Attempted(g, orderly, d, lost + rest, p, left)
         == Attempted(g, orderly, AfterLosses(d, lost, p.target, p.producer, p.bytes), rest, p, left - |lost|)
    decreases |lost|
  {
    hide Answered, ProvedDuplicate, CanCommit;
    if lost == [] {
      assert lost + rest == rest;
    } else {
      var faults := lost + rest;
      assert NextOf(faults) == lost[0] && RestOf(faults) == lost[1..] + rest;
      assert Losses(lost[1..]);
      LostOnce(orderly, d, lost[0], p.target, p.producer, p.bytes);
      var d' := if lost[0].LoseReply? then AfterDelivery(d, p) else d;
      LossesRetried(g, orderly, d', lost[1..], rest, p, left - 1);
      AfterFirstLoss(d, lost, p.target, p.producer, p.bytes);
    }
  }

  /** Up to `left` lost calls, then nothing: an encoded append succeeds exactly if it is next or there already. */
  lemma SurvivesLostCalls(g: Gateway, orderly: bool, d: Durable, lost: seq<Fault>, p: PendingAppend, left: nat)
    requires Prepared(g, p) && Losses(lost) && |lost| <= left
    ensures var (d', rest, r) := Attempted(g, orderly, d, lost, p, left);
            d' == AfterDelivery(d, p) && rest == [] && (r.Success? <==> Appendable(d, p))
  {
    hide Attempted, CanHold, Kept, Prepared;
    LossesRetried(g, orderly, d, lost, [], p, left);
    assert lost + [] == lost;
    DeliveredSucceeds(g, orderly, AfterLosses(d, lost, p.target, p.producer, p.bytes), p, left - |lost|);
    KeptTwice(d, p.target, p.producer, p.bytes);
  }

  /** One lost call too many leaves the outcome unknown. */
  lemma OneTooMany(g: Gateway, orderly: bool, d: Durable, lost: seq<Fault>, p: PendingAppend, left: nat)
    requires Losses(lost) && |lost| > left
    ensures Attempted(g, orderly, d, lost, p, left).2 == Failure(OutcomeUnknown(lost[left].error))
    ensures Attempted(g, orderly, d, lost, p, left).1 == lost[left + 1..]
  {
    hide Answered, Kept, SomeReplyLost;
    var spent := lost[..left];
    assert lost == spent + lost[left..] && lost[left..][1..] == lost[left + 1..];
    LossesRetried(g, orderly, d, spent, lost[left..], p, left);
    LostOnce(orderly, AfterLosses(d, spent, p.target, p.producer, p.bytes), lost[left], p.target, p.producer, p.bytes);
  }

  /** Everything decided before the store is asked: the candidate document and the append, or the refusal. */
  function Prepare(g: Gateway, a: Actor, batchId: BatchId, updates: seq<seq<byte>>): (r: Result<(Doc, PendingAppend), Status>)
    ensures r.Failure? ==> !r.error.AckOk?
    ensures r.Success? ==> a.sequence + 1 < TWO_64
  {
    if BlobsAllowed(g.lib, updates, a.history == []).Failure? then Failure(InvalidUpdate) else
    match Candidate(g.lib, a.doc, a.history, updates)
    case Failure(_) => Failure(InvalidUpdate)
    case Success(candidate) =>
      if a.sequence + 1 >= TWO_64 then Failure(AppError) else
      var producer := ProducerTuple(a.producerId, 0, a.sequence);
      var frame := NewFrame(g.h, producer, batchId, updates);
      match Encoded(g.h, frame, g.frameLimits)
      case Failure(_) => Failure(PayloadTooLargeStatus)
      case Success(bytes) => Success((candidate, PendingAppend(a.stream, producer, frame, bytes)))
  }

  function RejectionStatus(kind: RejectionKind): Status {
    match kind
    case PermissionDenied => DeniedStatus
    case PayloadTooLarge => PayloadTooLargeStatus
    case RateLimited => RateLimitedStatus
    case Invalid => InvalidUpdate
    case _ => AppError
  }

  function AfterAppend(a: Actor, candidate: Doc, p: PendingAppend, r: Result<DurableAppend, AppendFailure>): (Actor, Status)
    requires a.sequence + 1 < TWO_64
  {
    match r
    case Success(proof) =>
      (a.(sequence := a.sequence + 1, endOffset := proof.nextOffset, history := a.history + p.frame.updates,
          doc := candidate, lifecycle := Ready), AckOk)
    case Failure(DefinitelyRejected(kind, _)) => (a, RejectionStatus(kind))
    case Failure(OutcomeUnknown(_)) => (a.(blocked := Some(p), lifecycle := AppendAmbiguous), Unknown)
  }

  // ---------------------------------------------------------------- commands

  ghost predicate UpdateStep(g: Gateway, orderly: bool, d: Durable, a: Actor, joined: bool, batchId: BatchId,
                             updates: seq<seq<byte>>, d': Durable, a': Actor, status: Status) {
    if a.lifecycle.Recovering? || a.lifecycle.Corrupt? || a.lifecycle.Unavailable? then d' == d && a' == a && status == Unknown
    else if !joined then d' == d && a' == a && status == DeniedStatus
    else if !a.lifecycle.Ready? || a.blocked.Some? then d' == d && a' == a && status == RateLimitedStatus
    else
      match Prepare(g, a, batchId, updates)
      case Failure(refusal) => d' == d && a' == a && status == refusal
      case Success((candidate, p)) =>
        exists r: Result<DurableAppend, AppendFailure> :: Resolved(g, orderly, d, p, d', r) && (a', status) == AfterAppend(a, candidate, p, r)
  }

  function AfterRotation(g: Gateway, a: Actor, r: RotationResult): Actor {
    a.(stream := DeltaStream(r.nextGeneration), generation := r.nextGeneration, endOffset := 0,
       producerId := g.names.delta(a.boot, r.nextGeneration), sequence := 0, history := r.retainedHistory, lifecycle := Ready)
  }

  ghost predicate RotateStep(g: Gateway, d: Durable, a: Actor, d': Durable, a': Actor, rotated: bool) {
    if !a.lifecycle.Ready? || a.blocked.Some? then d' == d && a' == a && !rotated
    else
      exists r: Result<RotationResult, RotationError> :: Rotates(g, d, a.generation, a.endOffset, a.doc, a.history, d', r)
        && rotated == r.Success?
        && a' == if r.Success? then AfterRotation(g, a, r.value) else a.(lifecycle := Unavailable)
  }

  function Reconciled(a: Actor, p: PendingAppend, bytes: Stored, history: seq<seq<byte>>, doc: Doc): Actor
    requires p.producer.sequence + 1 < TWO_64
  {
    a.(endOffset := |bytes|, sequence := p.producer.sequence + 1, history := history, doc := doc, blocked := None, lifecycle := Ready)
  }

  /** The retried append is on record and the room reloaded from the active stream. */
  ghost predicate ReloadedFrom(g: Gateway, a: Actor, p: PendingAppend, d': Durable, a': Actor) {
    && a.stream in d'.streams && p.producer.sequence + 1 < TWO_64
    && Loaded(g, d'.streams[a.stream]).Success?
    && var (history, doc) := Loaded(g, d'.streams[a.stream]).value;
    a' == Reconciled(a, p, d'.streams[a.stream], history, doc)
  }

  ghost predicate Settles(g: Gateway, a: Actor, p: PendingAppend, r: Result<DurableAppend, AppendFailure>,
                          d': Durable, a': Actor, resolved: bool) {
    if resolved then r.Success? && ReloadedFrom(g, a, p, d', a')
    else
      && !a'.lifecycle.Ready?
      && a' == a.(endOffset := a'.endOffset, lifecycle := a'.lifecycle)
      && match r
         case Success(_) => a'.lifecycle.Corrupt? || a'.lifecycle.Unavailable?
         case Failure(DefinitelyRejected(_, _)) => a'.lifecycle.Unavailable?
         case Failure(OutcomeUnknown(_)) => a'.lifecycle.AppendAmbiguous?
  }

  /** A retry settles the append and reloads the active stream, or leaves the append blocked. */
  ghost predicate RetryStep(g: Gateway, orderly: bool, d: Durable, a: Actor, d': Durable, a': Actor, resolved: bool) {
    if a.blocked.None? then d' == d && a' == a && !resolved
    else
      var p := a.blocked.value;
      exists r: Result<DurableAppend, AppendFailure> :: Resolved(g, orderly, d, p, d', r) && Settles(g, a, p, r, d', a', resolved)
  }

  function FromRecovery(g: Gateway, boot: nat, r: ManifestRecovery): Actor {
    Actor(boot, DeltaStream(r.activeDeltaGeneration), r.activeDeltaGeneration, r.activeDeltaEndOffset,
          g.names.delta(boot, r.activeDeltaGeneration), 0, r.doc, r.history, None, Ready)
  }

  function FromReplay(g: Gateway, boot: nat, bytes: Stored, history: seq<seq<byte>>, doc: Doc): Actor {
    NewActor(g, boot).(endOffset := |bytes|, history := history, doc := doc, lifecycle := Ready)
  }

  /** A new actor is ready only with what the store's manifest path, or else full replay, says. */
  ghost predicate StartStep(g: Gateway, d: Durable, boot: nat, d': Durable, a': Actor) {
    && (d' == d || d' == Ensured(d, ManifestStream) || d' == Ensured(Ensured(d, ManifestStream), DeltaStream(0)))
    && a'.blocked.None?
    && if a'.lifecycle.Ready? then
         match Recovered(g, d)
         case Failure(_) => false
         case Success(Some(recovery)) => a' == FromRecovery(g, boot, recovery)
         case Success(None) =>
           && DeltaStream(0) in d'.streams
           && Loaded(g, d'.streams[DeltaStream(0)]).Success?
           && var (history, doc) := Loaded(g, d'.streams[DeltaStream(0)]).value;
           a' == FromReplay(g, boot, d'.streams[DeltaStream(0)], history, doc)
       else a'.lifecycle.Corrupt? || a'.lifecycle.Unavailable?
  }
}
