/** What a client's batch leads to, said by the room's state, the stored bytes and the first fault it meets. */
module Updates {
  import opened Wrappers
  import opened Bytes
  import opened Frame
  import opened FrameLayout
  import opened Loro
  import opened Store
  import opened Gateway
  import opened ExactAppend
  import opened Protocol

  /** The frame that carries this batch: the client's batch id and updates under the room's next tuple. */
  function FrameOf(g: Gateway, a: Actor, batchId: BatchId, updates: seq<seq<byte>>): DeltaFrame {
    DeltaFrame(ProducerTuple(a.producerId, 0, a.sequence), batchId, updates, UpdateDigest(g.h, updates))
  }

  /** A batch of updates, none of them empty; or one full snapshot as the first thing a room sees. */
  predicate Importable(lib: Library, updates: seq<seq<byte>>, blank: bool) {
    && updates != []
    && forall i :: 0 <= i < |updates| ==>
         && updates[i] != []
         && (lib.mode(updates[i]) == Some(Updates)
             || (lib.mode(updates[i]) == Some(Snapshot) && blank && |updates| == 1))
  }

  lemma {:induction false} EachAllowedIff(lib: Library, updates: seq<seq<byte>>, sole: bool)
    ensures EachAllowed(lib, updates, sole).Success? <==>
            forall i :: 0 <= i < |updates| ==>
              updates[i] != [] && (lib.mode(updates[i]) == Some(Updates) || (lib.mode(updates[i]) == Some(Snapshot) && sole))
  {
    if updates != [] {
      EachAllowedIff(lib, updates[1..], sole);
      assert updates == [updates[0]] + updates[1..];
    }
  }

  /** The blob check accepts exactly the importable batches. */
  lemma BlobsAllowedIff(lib: Library, updates: seq<seq<byte>>, blank: bool)
    ensures BlobsAllowed(lib, updates, blank).Success? <==> Importable(lib, updates, blank)
  {
    hide EachAllowed;
    EachAllowedIff(lib, updates, blank && |updates| == 1);
  }

  /** Everything about the actor but what an acknowledged batch adds. */
  predicate Advanced(g: Gateway, a: Actor, updates: seq<seq<byte>>, a': Actor) {
    && a' == a.(sequence := a'.sequence, endOffset := a'.endOffset, history := a'.history, doc := a'.doc)
    && a'.sequence == a.sequence + 1 && a'.history == a.history + updates
    && Candidate(g.lib, a.doc, a.history, updates) == Success(a'.doc)
  }

  /**
   The outcome of a batch. A room that cannot serve, a connection that has not joined, a room that is
   busy, a batch that is not importable, a sequence that is exhausted and a frame that does not fit
   are answered in this order and change nothing. Otherwise at most the frame of this batch is
   appended: acknowledged, it ends at the new end offset; unknown, it is kept for the retry; refused
   by the store, the kind of refusal decides the status.
   */
  ghost predicate UpdateOutcome(g: Gateway, orderly: bool, d: Durable, faults: seq<Fault>, a: Actor, joined: bool, batchId: BatchId,
                                updates: seq<seq<byte>>, d': Durable, a': Actor, status: Status) {
    var f := FrameOf(g, a, batchId, updates);
    if a.lifecycle.Recovering? || a.lifecycle.Corrupt? || a.lifecycle.Unavailable? then d' == d && a' == a && status == Unknown
    else if !joined then d' == d && a' == a && status == DeniedStatus
    else if a.lifecycle.AppendAmbiguous? || a.blocked.Some? then d' == d && a' == a && status == RateLimitedStatus
    else if !Importable(g.lib, updates, a.history == []) || Candidate(g.lib, a.doc, a.history, updates).Failure? then
      d' == d && a' == a && status == InvalidUpdate
    else if a.sequence + 1 == TWO_64 then d' == d && a' == a && status == AppError
    else if !Fits(f, g.frameLimits) then d' == d && a' == a && status == PayloadTooLargeStatus
    else Stored(g, d, a, updates, f, d', a', status) && FirstRefusal(orderly, d, faults, a, f, d', status)
  }

  ghost predicate Stored(g: Gateway, d: Durable, a: Actor, updates: seq<seq<byte>>, f: DeltaFrame, d': Durable, a': Actor, status: Status) {
    && (d' == d || FrameEndsAt(g.h, Content(d', a.stream), |Content(d', a.stream)|, f))
    && (status.AckOk? ==> Advanced(g, a, updates, a') && FrameEndsAt(g.h, Content(d', a.stream), a'.endOffset, f))
    && (status.Unknown? ==>
          && a'.blocked.Some? && a' == a.(blocked := a'.blocked, lifecycle := AppendAmbiguous)
          && a'.blocked.value.target == a.stream && a'.blocked.value.producer == f.producer && a'.blocked.value.frame == f
          && FrameAt(g.h, a'.blocked.value.bytes, f))
    && (!status.AckOk? && !status.Unknown? ==> a' == a)
  }

  /** A refusal of the first attempt, unless the store answers the tuple from its record, reaches the client by its kind. */
  predicate FirstRefusal(orderly: bool, d: Durable, faults: seq<Fault>, a: Actor, f: DeltaFrame, d': Durable, status: Status) {
    NextOf(faults).Refuse? && (!orderly || !Recorded(d, a.stream, f.producer)) ==>
      && d' == d
      && (status.DeniedStatus? <==> NextOf(faults).kind.PermissionDenied?)
      && (status.PayloadTooLargeStatus? <==> NextOf(faults).kind.PayloadTooLarge?)
      && (status.RateLimitedStatus? <==> NextOf(faults).kind.RateLimited?)
      && (status.InvalidUpdate? <==> NextOf(faults).kind.Invalid?)
      && (status.AppError? <==> NextOf(faults).kind.NotFound? || NextOf(faults).kind.Conflict?
                                || NextOf(faults).kind.Unsupported? || NextOf(faults).kind.Other?)
  }

  /** A room that cannot serve the batch answers at once. */
  lemma NotServed(g: Gateway, orderly: bool, d: Durable, faults: seq<Fault>, a: Actor, joined: bool, batchId: BatchId, updates: seq<seq<byte>>)
    ensures var stopped := a.lifecycle.Recovering? || a.lifecycle.Corrupt? || a.lifecycle.Unavailable?;
            && (stopped ==> UpdateOutcome(g, orderly, d, faults, a, joined, batchId, updates, d, a, Unknown))
            && (!stopped && !joined ==> UpdateOutcome(g, orderly, d, faults, a, joined, batchId, updates, d, a, DeniedStatus))
            && (!stopped && joined && (!a.lifecycle.Ready? || a.blocked.Some?) ==>
                  UpdateOutcome(g, orderly, d, faults, a, joined, batchId, updates, d, a, RateLimitedStatus))
  {
  }

  /** A batch that is not prepared for the store is refused as the outcome says. */
  lemma NotPrepared(g: Gateway, orderly: bool, d: Durable, faults: seq<Fault>, a: Actor, batchId: BatchId, updates: seq<seq<byte>>)
    requires a.lifecycle.Ready? && a.blocked.None? && Prepare(g, a, batchId, updates).Failure?
    ensures UpdateOutcome(g, orderly, d, faults, a, true, batchId, updates, d, a, Prepare(g, a, batchId, updates).error)
  {
    hide BlobsAllowed, Importable, Candidate, Encoded, Fits, UpdateDigest;
    BlobsAllowedIff(g.lib, updates, a.history == []);
    EncodedIffFits(g.h, FrameOf(g, a, batchId, updates), g.frameLimits);
  }

  /** What is prepared for the store is the batch's own frame. */
  lemma PreparedFrame(g: Gateway, a: Actor, batchId: BatchId, updates: seq<seq<byte>>)
    requires Prepare(g, a, batchId, updates).Success?
    ensures var (candidate, p) := Prepare(g, a, batchId, updates).value;
            var f := FrameOf(g, a, batchId, updates);
            && Importable(g.lib, updates, a.history == []) && Candidate(g.lib, a.doc, a.history, updates) == Success(candidate)
            && Fits(f, g.frameLimits) && FrameAt(g.h, p.bytes, f)
            && p == PendingAppend(a.stream, f.producer, f, p.bytes)
  {
    hide BlobsAllowed, Importable, Candidate, Encoded, Fits, FrameAt, UpdateDigest;
    BlobsAllowedIff(g.lib, updates, a.history == []);
    EncodedLaidOut(g.h, FrameOf(g, a, batchId, updates), g.frameLimits);
  }

  lemma EndsWithFrame(h: Platform, s: seq<byte>, end: nat, bytes: seq<byte>, f: DeltaFrame)
    requires SliceIs(s, end, bytes) && FrameAt(h, bytes, f)
    ensures FrameEndsAt(h, s, end, f)
  {
  }

  /** A batch that reaches the store ends as the outcome says, whatever the script. */
  lemma PreparedOutcome(g: Gateway, orderly: bool, d: Durable, faults: seq<Fault>, a: Actor, batchId: BatchId, updates: seq<seq<byte>>)
    requires a.lifecycle.Ready? && a.blocked.None? && Prepare(g, a, batchId, updates).Success?
    ensures var (candidate, p) := Prepare(g, a, batchId, updates).value;
            var (d', _, r) := Attempted(g, orderly, d, faults, p, g.ambiguousRetries);
            var (a', status) := AfterAppend(a, candidate, p, r);
            UpdateOutcome(g, orderly, d, faults, a, true, batchId, updates, d', a', status)
  {
    hide Prepare, Importable, Candidate, Fits, FrameAt, Attempted, Recorded, AfterAppend, Stored, FirstRefusal, UpdateDigest;
    var (candidate, p) := Prepare(g, a, batchId, updates).value;
    var (d', _, r) := Attempted(g, orderly, d, faults, p, g.ambiguousRetries);
    PreparedFrame(g, a, batchId, updates);
    AttemptedSettles(g, orderly, d, faults, p, g.ambiguousRetries);
    SettledStored(g, orderly, d, a, candidate, updates, p, d', r);
    RefusedFirst(g, orderly, d, faults, a, candidate, p);
  }

  lemma SettledStored(g: Gateway, orderly: bool, d: Durable, a: Actor, candidate: Doc, updates: seq<seq<byte>>, p: PendingAppend,
                      d': Durable, r: Result<DurableAppend, AppendFailure>)
    requires a.lifecycle.Ready? && a.blocked.None? && a.sequence + 1 < TWO_64
    requires Candidate(g.lib, a.doc, a.history, updates) == Success(candidate)
    requires p == PendingAppend(a.stream, p.frame.producer, p.frame, p.bytes) && p.frame.updates == updates && FrameAt(g.h, p.bytes, p.frame)
    requires Settlement(orderly, g.ambiguousRetries, d, p, d', r)
    ensures var (a', status) := AfterAppend(a, candidate, p, r); Stored(g, d, a, updates, p.frame, d', a', status)
  {
    hide Candidate, FrameAt, FrameEndsAt, Recorded, CanCommit, SliceIs;
    if d' != d {
      LandedAtEnd(d, p, d');
      EndsWithFrame(g.h, Content(d', a.stream), |Content(d', a.stream)|, p.bytes, p.frame);
    }
    if r.Success? {
      EndsWithFrame(g.h, Content(d', a.stream), r.value.nextOffset, p.bytes, p.frame);
    }
  }

  lemma RefusedFirst(g: Gateway, orderly: bool, d: Durable, faults: seq<Fault>, a: Actor, candidate: Doc, p: PendingAppend)
    requires a.sequence + 1 < TWO_64 && p.target == a.stream && p.producer == p.frame.producer
    ensures var (d', _, r) := Attempted(g, orderly, d, faults, p, g.ambiguousRetries);
            FirstRefusal(orderly, d, faults, a, p.frame, d', AfterAppend(a, candidate, p, r).1)
  {
    hide Attempted, Recorded;
    if NextOf(faults).Refuse? && (!orderly || !Recorded(d, a.stream, p.frame.producer)) {
      RefusedAtOnce(g, orderly, d, faults, p, g.ambiguousRetries);
    }
  }

  lemma LandedAtEnd(d: Durable, p: PendingAppend, d': Durable)
    requires Landed(d, p.target, p.producer, p.bytes, d')
    ensures SliceIs(Content(d', p.target), |Content(d', p.target)|, p.bytes)
  {
  }

  lemma RefusedAtOnce(g: Gateway, orderly: bool, d: Durable, faults: seq<Fault>, p: PendingAppend, left: nat)
    requires NextOf(faults).Refuse? && (!orderly || !Recorded(d, p.target, p.producer))
    ensures Attempted(g, orderly, d, faults, p, left)
         == (d, RestOf(faults), Failure(DefinitelyRejected(NextOf(faults).kind, "refused")))
  {
  }
}
