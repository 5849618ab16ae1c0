/**
 A concrete run in which an acknowledged update is lost: a room rotates once, an update's reply is
 lost, the operator retries, and the room rotates again. Every step is one the gateway takes over
 an orderly store; only the care asked of reconciliation is missing.
 */
module LossExample {
  import opened Wrappers
  import opened Loro
  import opened Store
  import opened Gateway
  import opened Protocol
  import opened RoomState
  import opened Landing
  import opened ActorInvariant
  import opened ActorSteps
  import opened ReconcileSteps
  import opened RotationSteps
  import opened RecoveryTheorems
  import opened Runs
  import opened Progress
  import opened Example
  import opened SmallRoom
  import Recovery
  import Rotation

  ghost const GATEWAY: Gateway := RoomWith(WIDE)

  /** A room with one acknowledged operation, freshly rotated into generation 1. */
  lemma RotatedOnce(d2: Durable, a2: Actor) returns (d3: Durable, a3: Actor)
    requires Sound(GATEWAY, d2) && Anchored(GATEWAY, d2, a2) && a2.lifecycle.Ready? && !Orphaned(d2, a2)
    requires Active(GATEWAY, d2) == 0 && Held(a2.doc) == {FIRST}
    requires forall s :: s != DeltaStream(0) ==> Content(d2, s) == []
    ensures RotateStep(GATEWAY, d2, a2, d3, a3, true)
    ensures Sound(GATEWAY, d3) && Anchored(GATEWAY, d3, a3) && Tracked(GATEWAY, d3, a3) && a3.lifecycle.Ready? && !Orphaned(d3, a3)
    ensures Active(GATEWAY, d3) == 1 && a3.sequence == 0 && a3.boot == a2.boot
    ensures Content(d3, CheckpointStream(1)) == [] && Content(d3, DeltaStream(1)) == []
  {
    hide Sound, Anchored, RotateStep, KnownOps, RecoveredOps, Exact, TrueEnds, Spelled, Represents, Chain, Read, Orphaned, Frames, Held, StoredCheckpoint;
    SmallIsWellConfigured(GATEWAY);
    ReadyParts(GATEWAY, d2, a2);
    d3, a3 := RotatesWith(GATEWAY, d2, a2, FIRST);
    RotateKeeps(GATEWAY, d2, a2, d3, a3, true);
    Switched(GATEWAY, d2, a2, d3, a3);
    StillTracked(GATEWAY, d2, a2);
  }

  lemma StillTracked(g: Gateway, d: Durable, a: Actor)
    requires a.lifecycle.Ready? && Anchored(g, d, a) && !Orphaned(d, a)
    ensures Tracked(g, d, a)
  {
    hide Positioned, Noticed, Represents, Frames, Orphaned;
  }

  /** What a successful rotation resets. */
  lemma Switched(g: Gateway, d: Durable, a: Actor, d': Durable, a': Actor)
    requires RotateStep(g, d, a, d', a', true)
    ensures a'.sequence == 0 && a'.lifecycle.Ready? && a'.boot == a.boot
  {
    hide Rotation.Published, Rotation.SameElsewhere;
  }

  /** A reply lost in generation 1, then reconciled: the reloaded room knows only the second operation. */
  lemma Reconciled(d3: Durable, a3: Actor) returns (d4: Durable, a4: Actor, a5: Actor)
    requires Sound(GATEWAY, d3) && Anchored(GATEWAY, d3, a3) && Tracked(GATEWAY, d3, a3) && a3.lifecycle.Ready? && !Orphaned(d3, a3)
    requires Active(GATEWAY, d3) == 1 && a3.sequence == 0 && a3.boot == 0 && Content(d3, DeltaStream(1)) == []
    ensures UpdateStep(GATEWAY, true, d3, a3, true, BATCH, [Spelled({SECOND})], d4, a4, Unknown)
    ensures RetryStep(GATEWAY, true, d4, a4, d4, a5, true)
    ensures Sound(GATEWAY, d4) && Anchored(GATEWAY, d4, a4) && a5.lifecycle.Ready? && a5.blocked.None?
    ensures Active(GATEWAY, d4) == 1 && DeltaOps(GATEWAY, d4, 1) == {SECOND}
    ensures forall s :: s != DeltaStream(1) ==> Content(d4, s) == Content(d3, s)
  {
    hide Sound, Anchored, UpdateStep, RetryStep, KnownOps, RecoveredOps, Exact, TrueEnds, Spelled, Represents, Chain, Ops, Read, Orphaned, Frames,
         Committable, Tracked, Landed, Issued, Held, Prepare;
    SmallIsWellConfigured(GATEWAY);
    ReadyParts(GATEWAY, d3, a3);
    SmallUpdate(GATEWAY, d3, a3, SECOND);
    d4, a4 := UpdateLosesReply(GATEWAY, true, d3, a3, BATCH, [Spelled({SECOND})]);
    UpdateKeeps(GATEWAY, true, d3, a3, true, BATCH, [Spelled({SECOND})], d4, a4, Unknown);
    AnchoredParts(GATEWAY, d4, a4);
    OneLanded(d3, a3, a4.blocked.value, d4);
    a5 := RetryResolves(GATEWAY, true, d4, a4);
  }

  lemma OneLanded(d: Durable, a: Actor, p: PendingAppend, d': Durable)
    requires Sound(GATEWAY, d) && Anchored(GATEWAY, d, a) && !Orphaned(d, a) && Issued(GATEWAY, a, p)
    requires Landed(d, p.target, p.producer, p.bytes, d')
    requires Active(GATEWAY, d) == 1 && Content(d, DeltaStream(1)) == []
    ensures DeltaOps(GATEWAY, d', 1) == Ops(GATEWAY.lib, p.frame.updates)
  {
    hide Sound, Anchored, Issued, Landed, Ops, Orphaned, Chain, Noticed, Represents, Positioned, BaseOps;
    AnchoredParts(GATEWAY, d, a);
    IssuedIsAdmissible(GATEWAY, d, a, p);
    LandedSound(GATEWAY, d, p, d');
    DeltasSound(GATEWAY, d, 1);
    NothingStored(GATEWAY, d, 1);
    assert Ops(GATEWAY.lib, []) == {} by { NoOps(GATEWAY.lib); }
    assert {} + Ops(GATEWAY.lib, p.frame.updates) == Ops(GATEWAY.lib, p.frame.updates);
  }

  lemma NoOps(lib: Library)
    ensures Ops(lib, []) == {}
  {
  }

  /** The second rotation publishes a checkpoint without the first operation. */
  lemma SecondRotation(d4: Durable, a4: Actor, a5: Actor) returns (d6: Durable, a6: Actor)
    requires Sound(GATEWAY, d4) && Anchored(GATEWAY, d4, a4) && RetryStep(GATEWAY, true, d4, a4, d4, a5, true)
    requires a5.lifecycle.Ready? && a5.blocked.None?
    requires Active(GATEWAY, d4) == 1 && DeltaOps(GATEWAY, d4, 1) == {SECOND}
    requires Content(d4, CheckpointStream(1)) == []
    ensures RotateStep(GATEWAY, d4, a5, d6, a6, true)
    ensures RecoveredOps(GATEWAY, d6) == {SECOND}
  {
    hide Sound, Anchored, RetryStep, RotateStep, KnownOps, RecoveredOps, Represents, Chain, DeltaOps, BaseOps, Tracked, Held, TrueEnds, Exact,
         StoredCheckpoint, Orphaned, DocOf;
    SmallIsWellConfigured(GATEWAY);
    RetryKeeps(GATEWAY, true, d4, a4, d4, a5, true);
    ReadyParts(GATEWAY, d4, a5);
    d6, a6 := RotatesWith(GATEWAY, d4, a5, SECOND);
    RotateKeeps(GATEWAY, d4, a5, d6, a6, true);
  }

  /** A run over an orderly store after which a restart misses an acknowledged operation. */
  lemma AcknowledgedCanBeLost() returns (run: seq<System>, events: seq<Event>)
    ensures WellConfigured(GATEWAY) && Run(GATEWAY, true, run, events)
    ensures FIRST in run[|events|].acked && FIRST !in RecoveredOps(GATEWAY, run[|events|].durable)
  {
    hide Sound, Anchored, StartStep, UpdateStep, RetryStep, RotateStep, KnownOps, RecoveredOps, Spelled, Chain, DeltaOps, Orphaned, Ops, Tracked, Held;
    SmallIsWellConfigured(GATEWAY);
    var d1, a1, d2, a2 := OneAcknowledged(GATEWAY, true);
    UpdateKeepsBoot(GATEWAY, d1, a1, d2, a2);
    var d3, a3 := RotatedOnce(d2, a2);
    var d4, a4, a5 := Reconciled(d3, a3);
    var d6, a6 := SecondRotation(d4, a4, a5);
    var first, second := Update(true, BATCH, [Spelled({FIRST})]), Update(true, BATCH, [Spelled({SECOND})]);
    run := [BLANK, System(d1, Some(a1), {}), System(d2, Some(a2), {FIRST}), System(d3, Some(a3), {FIRST}),
            System(d4, Some(a4), {FIRST}), System(d4, Some(a5), {FIRST}), System(d6, Some(a6), {FIRST})];
    events := [Start(0), Perform(first), Perform(Rotate), Perform(second), Perform(Retry), Perform(Rotate)];
    assert Next(GATEWAY, true, run[0], events[0], run[1]);
    Happens(GATEWAY, true, run[1], first, run[2], {FIRST});
    Happens(GATEWAY, true, run[2], Rotate, run[3], {});
    Happens(GATEWAY, true, run[3], second, run[4], {});
    Happens(GATEWAY, true, run[4], Retry, run[5], {});
    Happens(GATEWAY, true, run[5], Rotate, run[6], {});
  }

  lemma UpdateKeepsBoot(g: Gateway, d1: Durable, a1: Actor, d2: Durable, a2: Actor)
    requires StartStep(g, NOTHING, 0, d1, a1)
    requires a2.lifecycle.Ready? && UpdateStep(g, true, d1, a1, true, BATCH, [Spelled({FIRST})], d2, a2, AckOk)
    ensures a2.boot == 0
  {
    hide Prepare, Resolved, Loaded, Recovery.Recovered, Spelled;
  }
}
