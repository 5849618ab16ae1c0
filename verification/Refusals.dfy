/**
 What a refusal tells the client. An update that is refused was not stored exactly if refusals are
 final: the store answers a committed tuple before it refuses, or the room makes no second attempt.
 */
module Refusals {
  import opened Wrappers
  import opened Bytes
  import opened Frame
  import opened Loro
  import opened Store
  import opened Gateway
  import opened ExactAppend
  import opened Protocol
  import opened ActorInvariant
  import opened RoomActors
  import Updates

  predicate Refused(status: Status) {
    !status.AckOk? && !status.Unknown?
  }

  /** If refusals are final, a negative acknowledgement leaves store and actor as they were. */
  lemma NackMeansNotStored(g: Gateway, orderly: bool, d: Durable, a: Actor, joined: bool, batchId: BatchId, updates: seq<seq<byte>>,
                           d': Durable, a': Actor, status: Status)
    requires Steady(g, orderly)
    requires UpdateStep(g, orderly, d, a, joined, batchId, updates, d', a', status)
    requires Refused(status)
    ensures d' == d && a' == a
  {
    hide Prepare, Resolved;
    if a.lifecycle.Ready? && a.blocked.None? && joined && Prepare(g, a, batchId, updates).Success? {
      var (candidate, p) := Prepare(g, a, batchId, updates).value;
      var r :| Resolved(g, orderly, d, p, d', r) && (a', status) == AfterAppend(a, candidate, p, r);
      ResolvedSettles(g, orderly, d, p, d', r);
    }
  }

  /** The reply to the first attempt is lost, the second attempt refused. */
  const LOST_THEN_REFUSED: seq<Fault> := [LoseReply(Ambiguous("reply lost")), Refuse(RateLimited)]

  lemma StoredThenRefused(g: Gateway, d: Durable, p: PendingAppend)
    requires g.ambiguousRetries > 0 && CanCommit(d, p.target, p.producer, p.bytes)
    ensures Attempted(g, false, d, LOST_THEN_REFUSED, p, g.ambiguousRetries)
         == (Commit(d, p.target, p.producer, p.bytes), [], Failure(DefinitelyRejected(RateLimited, "refused")))
  {
    var faults := LOST_THEN_REFUSED;
    assert RestOf(faults) == [Refuse(RateLimited)] && RestOf(RestOf(faults)) == [];
  }

  /** Otherwise whatever the store could commit next can be stored and yet be reported as refused. */
  lemma RefusedYetStored(g: Gateway, d: Durable, a: Actor, batchId: BatchId, updates: seq<seq<byte>>)
    requires g.ambiguousRetries > 0
    requires a.lifecycle.Ready? && a.blocked.None? && Prepare(g, a, batchId, updates).Success?
    requires var p := Prepare(g, a, batchId, updates).value.1; CanCommit(d, p.target, p.producer, p.bytes)
    ensures var p := Prepare(g, a, batchId, updates).value.1;
            && UpdateStep(g, false, d, a, true, batchId, updates, Commit(d, p.target, p.producer, p.bytes), a, RateLimitedStatus)
            && Orphaned(Commit(d, p.target, p.producer, p.bytes), a)
  {
    hide BlobsAllowed, Candidate, Encoded, NewFrame, Attempted;
    var (candidate, p) := Prepare(g, a, batchId, updates).value;
    var refused: Result<DurableAppend, AppendFailure> := Failure(DefinitelyRejected(RateLimited, "refused"));
    StoredThenRefused(g, d, p);
    assert ResolvedBy(g, false, d, LOST_THEN_REFUSED, p, Commit(d, p.target, p.producer, p.bytes), refused);
    assert Resolved(g, false, d, p, Commit(d, p.target, p.producer, p.bytes), refused);
    assert (a, RateLimitedStatus) == AfterAppend(a, candidate, p, refused);
  }

  /** Some outcome of this update is a refusal although the store changed. */
  ghost predicate CanBeRefusedYetStored(g: Gateway, orderly: bool, d: Durable, a: Actor, batchId: BatchId, updates: seq<seq<byte>>) {
    exists d': Durable, a': Actor, status: Status ::
      UpdateStep(g, orderly, d, a, true, batchId, updates, d', a', status) && Refused(status) && d' != d
  }

  /** For every update the store could commit: it can be stored and reported as refused exactly if refusals are not final. */
  lemma RefusalFinalExactly(g: Gateway, orderly: bool, d: Durable, a: Actor, batchId: BatchId, updates: seq<seq<byte>>)
    requires a.lifecycle.Ready? && a.blocked.None? && Prepare(g, a, batchId, updates).Success?
    requires var p := Prepare(g, a, batchId, updates).value.1; CanCommit(d, p.target, p.producer, p.bytes)
    ensures CanBeRefusedYetStored(g, orderly, d, a, batchId, updates) <==> !Steady(g, orderly)
  {
    hide Prepare, UpdateStep;
    var p := Prepare(g, a, batchId, updates).value.1;
    if Steady(g, orderly) {
      forall d', a', status: Status |
        UpdateStep(g, orderly, d, a, true, batchId, updates, d', a', status) && Refused(status)
        ensures d' == d
      {
        NackMeansNotStored(g, orderly, d, a, true, batchId, updates, d', a', status);
      }
    } else {
      RefusedYetStored(g, d, a, batchId, updates);
      CommitHolds(d, p.target, p.producer, p.bytes);
    }
  }

  /** The running code takes that step: reply lost, retry refused, the client is told "rate limited", and the frame is stored. */
  method UpdateStoredThenRefused(actor: RoomActor, batchId: BatchId, updates: seq<seq<byte>>) returns (status: Status)
    requires actor.lifecycle.Ready? && actor.blocked.None? && actor.g.ambiguousRetries > 0
    requires !actor.store.orderly && actor.store.faults == LOST_THEN_REFUSED
    requires Prepare(actor.g, actor.View(), batchId, updates).Success?
    requires var p := Prepare(actor.g, actor.View(), batchId, updates).value.1;
             CanCommit(actor.store.durable, p.target, p.producer, p.bytes)
    modifies actor, actor.store
    ensures status == RateLimitedStatus && actor.View() == old(actor.View())
    ensures var p := Prepare(actor.g, old(actor.View()), batchId, updates).value.1;
            actor.store.durable == Commit(old(actor.store.durable), p.target, p.producer, p.bytes)
  {
    hide Prepare, UpdateStep, Attempted, Updates.UpdateOutcome;
    StoredThenRefused(actor.g, actor.store.durable, Prepare(actor.g, actor.View(), batchId, updates).value.1);
    status := actor.Update(true, batchId, updates);
  }
}
