/**
 Appending does not check the limit that reading enforces: an update can be acknowledged that makes
 the room's stream too long to be read back.
 */
module Outgrown {
  import opened Wrappers
  import opened Bytes
  import opened Loro
  import opened Store
  import opened Gateway
  import opened Protocol
  import opened RoomState
  import opened ActorInvariant
  import opened ActorSteps
  import opened RecoveryTheorems
  import opened Runs
  import opened Progress
  import opened Example
  import opened SmallRoom

  /** For every update the store can take: after it is acknowledged a restart succeeds exactly if stream and manifest stayed within the limits. */
  lemma AcknowledgedThenRestarted(g: Gateway, orderly: bool, d: Durable, a: Actor, batchId: BatchId, updates: seq<seq<byte>>)
      returns (d': Durable, a': Actor)
    requires WellConfigured(g) && Sound(g, d) && Anchored(g, d, a) && a.lifecycle.Ready? && !Orphaned(d, a)
    requires Committable(g, d, a, batchId, updates)
    ensures UpdateStep(g, orderly, d, a, true, batchId, updates, d', a', AckOk)
    ensures Restarted(g, d').Success? <==>
              && ManifestWithinLimits(g, d)
              && |Content(d, a.stream)| + |Prepare(g, a, batchId, updates).value.1.bytes| <= g.frameLimits.maxStreamBytes
  {
    hide Sound, Anchored, UpdateStep, Restarted, Chain, Held, KnownOps, RecoveredOps, Exact, TrueEnds, Tracked, Prepare;
    AnchoredParts(g, d, a);
    d', a' := UpdateCommits(g, orderly, d, a, batchId, updates);
    UpdateKeeps(g, orderly, d, a, true, batchId, updates, d', a', AckOk);
    PreparedPlace(g, a, batchId, updates);
    RestartedExact(g, d');
  }

  /** A run of a start and one acknowledged update after which no restart succeeds. */
  lemma AcknowledgedThenUnreadable(orderly: bool) returns (g: Gateway, run: seq<System>, events: seq<Event>)
    ensures WellConfigured(g) && Run(g, orderly, run, events)
    ensures |events| == 2 && |run| == 3 && run[2].acked == {FIRST}
    ensures Restarted(g, run[2].durable).Failure?
  {
    hide Sound, Anchored, StartStep, UpdateStep, Spelled, Chain, Ops, Held, Restarted, RecoveredOps, Orphaned;
    g := RoomWith(0);
    SmallIsWellConfigured(g);
    var d1, a1, d2, a2 := OneAcknowledged(g, orderly);
    RestartedExact(g, d2);
    var first := Update(true, BATCH, [Spelled({FIRST})]);
    run := [BLANK, System(d1, Some(a1), {}), System(d2, Some(a2), {FIRST})];
    events := [Start(0), Perform(first)];
    assert Next(g, orderly, run[0], events[0], run[1]);
    Happens(g, orderly, run[1], first, run[2], {FIRST});
  }
}
