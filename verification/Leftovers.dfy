/**
 A checkpoint left behind by a rotation that stopped before the manifest. It can be reused only as
 long as it is the checkpoint the room would write (docs/BOUNDED_RECOVERY.md:261 promises more):
 once the delta stream has grown past it, the generation can never advance again.
 */
module Leftovers {
  import opened Wrappers
  import opened Bytes
  import opened Loro
  import opened Store
  import opened Gateway
  import opened Protocol
  import opened RoomState
  import opened ActorInvariant
  import opened ActorSteps
  import opened RotationSteps
  import opened Runs
  import opened RunTheorems
  import opened Progress
  import opened CheckpointStore
  import opened Example
  import opened SmallRoom
  import Checkpoint
  import CheckpointBuilder
  import Rotation

  /** The active generation has a checkpoint already, and its stream is longer than that checkpoint says. */
  ghost predicate Stuck(g: Gateway, d: Durable) {
    var n := Active(g, d);
    && Content(d, CheckpointStream(n)) != []
    && StoredCheckpoint(g, d, n).Success?
    && StoredCheckpoint(g, d, n).value.sourceDeltaEndOffset < |Content(d, DeltaStream(n))|
  }

  /** No event publishes from a stuck room, and the room stays stuck. */
  lemma StuckStays(g: Gateway, orderly: bool, s: System, e: Event, s': System)
    requires WellConfigured(g) && Steady(g, orderly) && Invariant(g, orderly, s) && Next(g, orderly, s, e, s')
    requires Stuck(g, s.durable)
    ensures Chain(g, s'.durable) == Chain(g, s.durable) && Stuck(g, s'.durable)
  {
    hide Sound, Exact, TrueEnds, Anchored, RecoveredOps, Next, Chain, Orphaned, Held, SealedSame, Frames, Checkpoint.Decoded;
    EventKeeps(g, orderly, s, e, s');
    if Publishes(g, s, s') {
      EndOffsetTrue(g, s.durable, s.actor.value);
      ReadyHasNoOrphan(g, orderly, s);
    }
  }

  /** Once stuck, a room never leaves its generation, whatever rotations, retries and restarts follow. */
  lemma {:induction false} StuckForever(g: Gateway, orderly: bool, run: seq<System>, events: seq<Event>, i: nat, j: nat)
    requires WellConfigured(g) && Steady(g, orderly) && Run(g, orderly, run, events) && i <= j < |run|
    requires Stuck(g, run[i].durable)
    ensures Chain(g, run[j].durable) == Chain(g, run[i].durable) && Stuck(g, run[j].durable)
    decreases j
  {
    hide Next, Stuck, Invariant, Chain;
    if i < j {
      StuckForever(g, orderly, run, events, i, j - 1);
      RunKeeps(g, orderly, run, events, j - 1);
      StuckStays(g, orderly, run[j - 1], events[j - 1], run[j]);
    }
  }

  // ---------------------------------------------------------------- such a room is reachable

  /** A rotation that dies right after the checkpoint is written. */
  lemma DiesAfterPersist(g: Gateway, d: Durable, a: Actor) returns (d': Durable)
    requires Small(g) && Sound(g, d) && Anchored(g, d, a) && a.lifecycle.Ready? && !Orphaned(d, a)
    requires Active(g, d) == 0 && Held(a.doc) == {FIRST} && Content(d, CheckpointStream(0)) == []
    ensures RotateStep(g, d, a, d', a.(lifecycle := Unavailable), false)
    ensures Sound(g, d') && Active(g, d') == 0 && Content(d', CheckpointStream(0)) != []
    ensures StoredCheckpoint(g, d', 0).Success? && StoredCheckpoint(g, d', 0).value.sourceDeltaEndOffset == |Content(d, DeltaStream(0))|
    ensures forall j: nat :: Content(d', DeltaStream(j)) == Content(d, DeltaStream(j))
    ensures forall s, id :: (s, id) in d'.producers ==> (s, id) in d.producers || s == CheckpointStream(0)
  {
    hide Sound, Anchored, RotateStep, Chain, Held, Orphaned, Represents, CheckpointBuilder.Built, CheckpointBytes, RecoveredOps, Exact, TrueEnds, Tracked, KnownOps,
         StoredCheckpoint, PersistedStore, Rotation.SameElsewhere, Advanced, SealedSame;
    SmallIsWellConfigured(g);
    ReadyParts(g, d, a);
    SmallCheckpoint(g, a, FIRST);
    var record := CheckpointBuilder.Built(g.h, g.lib, g.room, 0, 0, a.endOffset, a.doc, a.history).value;
    var bytes := CheckpointBytes(g, record).value;
    BytesInRange(g, record);
    d' := PersistedStore(g, d, bytes);
    PersistedChanges(g, d, bytes);
    Stopped(g, d, a, d');
    RotateKeeps(g, d, a, d', a.(lifecycle := Unavailable), false);
    EndOffsetTrue(g, d, a);
    StoredAsBuilt(g, a, record, d', bytes);
    SameChain(g, d, d');
  }

  lemma SameChain(g: Gateway, d: Durable, d': Durable)
    requires Content(d', ManifestStream) == Content(d, ManifestStream)
    ensures Chain(g, d') == Chain(g, d)
  {
  }

  function PersistedStore(g: Gateway, d: Durable, bytes: seq<byte>): Durable
    requires |bytes| < TWO_64 && Content(d, CheckpointStream(0)) == []
  {
    Commit(Ensured(d, CheckpointStream(0)), CheckpointStream(0), CheckpointProducer(g, 0), bytes)
  }

  lemma PersistedChanges(g: Gateway, d: Durable, bytes: seq<byte>)
    requires |bytes| < TWO_64 && Content(d, CheckpointStream(0)) == []
    ensures var d' := PersistedStore(g, d, bytes);
            && Content(d', CheckpointStream(0)) == bytes
            && Rotation.SameElsewhere(d, d', 0) && Content(d', ManifestStream) == Content(d, ManifestStream)
            && forall s, id :: (s, id) in d'.producers ==> (s, id) in d.producers || s == CheckpointStream(0)
  {
    assert [] + bytes == bytes;
  }

  lemma Stopped(g: Gateway, d: Durable, a: Actor, d': Durable)
    requires a.lifecycle.Ready? && a.blocked.None? && a.generation == 0
    requires Rotation.SameElsewhere(d, d', 0) && Content(d', ManifestStream) == Content(d, ManifestStream)
    ensures RotateStep(g, d, a, d', a.(lifecycle := Unavailable), false)
  {
    hide Rotation.Published, Rotation.SameElsewhere;
    var r: Result<Rotation.RotationResult, Rotation.RotationError> := Failure(Rotation.RotationStore(Ambiguous("gateway stopped")));
    assert Rotation.Rotates(g, d, a.generation, a.endOffset, a.doc, a.history, d', r);
  }

  lemma StoredAsBuilt(g: Gateway, a: Actor, record: Checkpoint.CheckpointRecord, d': Durable, bytes: seq<byte>)
    requires CheckpointBuilder.Built(g.h, g.lib, g.room, 0, 0, a.endOffset, a.doc, a.history) == Success(record)
    requires CheckpointBytes(g, record) == Success(bytes) && Content(d', CheckpointStream(0)) == bytes
    ensures StoredCheckpoint(g, d', 0) == Success(record) && record.sourceDeltaEndOffset == a.endOffset
  {
    hide Checkpoint.Encoded, Checkpoint.Decoded, Checkpoint.CheckpointDigest, CheckpointBuilder.Retained, CheckpointBuilder.Restored;
    Checkpoint.CheckpointRoundTrip(g.h, record, Checkpoint.DEFAULT_LIMITS);
  }

  /** After the crash the room restarts, takes one more update, and is stuck. */
  lemma GrowsPastLeftover(g: Gateway, orderly: bool, d3: Durable) returns (d4: Durable, a4: Actor, d5: Durable, a5: Actor)
    requires Small(g) && g.frameLimits.maxStreamBytes == WIDE && Sound(g, d3) && Active(g, d3) == 0
    requires Fresh(g, d3, 1) && 0 < |Content(d3, DeltaStream(0))| < 1000
    requires Content(d3, CheckpointStream(0)) != [] && StoredCheckpoint(g, d3, 0).Success?
    requires StoredCheckpoint(g, d3, 0).value.sourceDeltaEndOffset == |Content(d3, DeltaStream(0))|
    ensures StartStep(g, d3, 1, d4, a4)
    ensures UpdateStep(g, orderly, d4, a4, true, BATCH, [Spelled({SECOND})], d5, a5, AckOk)
    ensures a5.lifecycle.Ready? && Active(g, d5) == 0 && Stuck(g, d5)
    ensures Ops(g.lib, [Spelled({SECOND})]) == {SECOND}
  {
    hide Sound, Anchored, StartStep, UpdateStep, KnownOps, RecoveredOps, Exact, TrueEnds, Spelled, Orphaned, Chain, Ops, Tracked, Read, Held, Prepare,
         Fresh, Checkpoint.Decoded;
    SmallIsWellConfigured(g);
    d4, a4 := StartsUp(g, d3, 1);
    StartKeeps(g, d3, 1, d4, a4);
    ReadyParts(g, d4, a4);
    AnchoredParts(g, d4, a4);
    SmallUpdate(g, d4, a4, SECOND);
    d5, a5 := UpdateCommits(g, orderly, d4, a4, BATCH, [Spelled({SECOND})]);
    UpdateKeeps(g, orderly, d4, a4, true, BATCH, [Spelled({SECOND})], d5, a5, AckOk);
    PreparedPlace(g, a4, BATCH, [Spelled({SECOND})]);
  }

  lemma SecondBootIsFresh(g: Gateway, d: Durable)
    requires Small(g)
    requires forall s, id :: (s, id) in d.producers ==> (s == DeltaStream(0) && id == g.names.delta(0, 0)) || s == CheckpointStream(0)
    ensures Fresh(g, d, 1)
  {
    UnaryLength(0);
    UnaryLength(1);
    assert |g.names.delta(0, 0)| == 2;
    assert forall j: nat :: |g.names.delta(1, j)| == 3;
  }

  /** Every rotation of a stuck room fails before the manifest, whatever the store does. */
  lemma StuckRefusesRotation(g: Gateway, orderly: bool, s: System, d': Durable, a': Actor, rotated: bool)
    requires WellConfigured(g) && Steady(g, orderly) && Invariant(g, orderly, s) && Stuck(g, s.durable) && s.actor.Some?
    requires RotateStep(g, s.durable, s.actor.value, d', a', rotated)
    ensures !rotated && Chain(g, d') == Chain(g, s.durable)
  {
    hide Sound, Exact, TrueEnds, Anchored, RecoveredOps, Chain, Orphaned, Held, SealedSame, Frames, Checkpoint.Decoded, RotateStep, KnownOps, Tracked;
    RotateKeeps(g, s.durable, s.actor.value, d', a', rotated);
    if Active(g, d') != Active(g, s.durable) {
      EndOffsetTrue(g, s.durable, s.actor.value);
      ReadyHasNoOrphan(g, orderly, s);
    }
  }

  /** A run with one crash inside a rotation that ends ready and stuck: an update, a crash after the persist, a restart, an update. */
  lemma LeftoverBlocks(orderly: bool) returns (g: Gateway, run: seq<System>, events: seq<Event>)
    ensures WellConfigured(g) && Run(g, orderly, run, events)
    ensures |events| == 5 && |run| == 6 && events[2] == CrashDuring(Rotate)
    ensures var last := run[5];
            && last.actor.Some? && last.actor.value.lifecycle.Ready? && last.acked == {FIRST, SECOND}
            && Active(g, last.durable) == 0 && Stuck(g, last.durable)
  {
    hide Sound, Anchored, StartStep, UpdateStep, RotateStep, KnownOps, RecoveredOps, Spelled, Chain, Orphaned, Ops, Tracked, Held, Stuck, Fresh,
         Checkpoint.Decoded;
    g := RoomWith(WIDE);
    SmallIsWellConfigured(g);
    var d1, a1, d2, a2 := OneAcknowledged(g, orderly);
    var d3 := DiesAfterPersist(g, d2, a2);
    SecondBootIsFresh(g, d3);
    var d4, a4, d5, a5 := GrowsPastLeftover(g, orderly, d3);
    var first, second := Update(true, BATCH, [Spelled({FIRST})]), Update(true, BATCH, [Spelled({SECOND})]);
    run := [BLANK, System(d1, Some(a1), {}), System(d2, Some(a2), {FIRST}), System(d3, None, {FIRST}),
            System(d4, Some(a4), {FIRST}), System(d5, Some(a5), {FIRST} + {SECOND})];
    events := [Start(0), Perform(first), CrashDuring(Rotate), Start(1), Perform(second)];
    BlankIsFresh(g, 0);
    assert Next(g, orderly, run[0], events[0], run[1]);
    Happens(g, orderly, run[1], first, run[2], {FIRST});
    Dies(g, orderly, run[2], Rotate, run[3], a2.(lifecycle := Unavailable), {});
    assert Next(g, orderly, run[3], events[3], run[4]);
    Happens(g, orderly, run[4], second, run[5], {SECOND});
  }

  lemma BlankIsFresh(g: Gateway, boot: nat)
    ensures Fresh(g, NOTHING, boot)
  {
  }

  lemma Dies(g: Gateway, orderly: bool, s: System, c: Command, s': System, a': Actor, acks: set<OpId>)
    requires s.actor.Some? && s'.actor.None? && s'.acked == s.acked
    requires Acts(g, orderly, s.durable, s.actor.value, c, s'.durable, a', acks)
    ensures Next(g, orderly, s, CrashDuring(c), s')
  {
    hide Acts;
  }
}
