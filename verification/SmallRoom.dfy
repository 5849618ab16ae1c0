/** What the concrete gateways of Example can always do: start, take one operation, and rotate with it. */
module SmallRoom {
  import opened Bytes
  import opened Frame
  import opened FrameTheorems
  import opened Loro
  import opened Store
  import opened Gateway
  import opened Manifest
  import opened ManifestTheorems
  import opened CheckpointStore
  import opened Protocol
  import opened RoomState
  import opened ActorInvariant
  import opened ActorSteps
  import opened RecoveryTheorems
  import opened Runs
  import opened Progress
  import opened Example
  import Checkpoint
  import CheckpointBuilder
  import Recovery

  const BATCH: BatchId := [0, 0, 0, 0, 0, 0, 0, 0]

  predicate Sample(o: OpId) {
    o == FIRST || o == SECOND
  }

  lemma UnaryLength(n: nat)
    ensures |Unary(n)| == n + 1
  {
  }

  /** One operation always fits a frame. */
  lemma SmallFrame(g: Gateway, id: seq<byte>, o: OpId, sequence: U64)
    requires Small(g) && Sample(o) && 0 < |id| <= 10
    ensures var frame := NewFrame(PLATFORM, ProducerTuple(id, 0, sequence), BATCH, [Spelled({o})]);
            && Encoded(PLATFORM, frame, g.frameLimits).Success?
            && 0 < |Encoded(PLATFORM, frame, g.frameLimits).value| < 1000
  {
    hide Encoded, Wire, Spelled;
    OneOperation(o);
    var updates := [Spelled({o})];
    var frame := NewFrame(PLATFORM, ProducerTuple(id, 0, sequence), BATCH, updates);
    assert updates[1..] == [];
    assert TotalLength(updates) == |Spelled({o})|;
    EncodedIffFits(PLATFORM, frame, g.frameLimits);
    WireLength(PLATFORM, frame);
  }

  /** One operation can always be the next update of an anchored actor whose stream is short. */
  lemma SmallUpdate(g: Gateway, d: Durable, a: Actor, o: OpId)
    requires Small(g) && Sample(o)
    requires Anchored(g, d, a) && a.lifecycle.Ready? && a.boot <= 1 && a.sequence < 10 && |Content(d, a.stream)| < 1000
    ensures Committable(g, d, a, BATCH, [Spelled({o})])
    ensures 0 < |Prepare(g, a, BATCH, [Spelled({o})]).value.1.bytes| < 1000
    ensures Ops(g.lib, [Spelled({o})]) == {o}
  {
    hide Encoded, Spelled, Read, NewFrame, Candidate, Represents, DocOf, TotalLength, Wire, Held, Noticed;
    var updates := [Spelled({o})];
    OneOperation(o);
    UnaryLength(a.boot);
    SmallFrame(g, a.producerId, o, a.sequence);
    SmallIsWellConfigured(g);
    assert updates[1..] == [];
    assert EachAllowed(g.lib, updates, a.history == []).Success?;
    CandidateIsFullReplay(g.lib, a.doc, a.history, updates, Held(a.doc));
  }

  /** The checkpoint of a room with one operation always fits. */
  lemma SmallCheckpoint(g: Gateway, a: Actor, o: OpId)
    requires Small(g) && Sample(o)
    requires Represents(g.lib, a.doc, a.history, {o})
    ensures var built := CheckpointBuilder.Built(PLATFORM, g.lib, g.room, a.generation, a.generation, a.endOffset, a.doc, a.history);
            built.Success? && CheckpointBytes(g, built.value).Success?
  {
    hide Spelled, Read, Settle, DocOf, CheckpointBuilder.Built, CheckpointBuilder.Outstanding, Checkpoint.Encoded, Checkpoint.CheckpointDigest, Ops,
         CheckpointBuilder.Restored;
    SmallIsWellConfigured(g);
    OneOperation(o);
    AllApplied({o});
    CheckpointBuilder.RetentionExact(PLATFORM, g.lib, g.room, a.generation, a.generation, a.endOffset, a.doc, a.history, {o});
    var kept := CheckpointBuilder.Outstanding(g.lib, {o}, a.history);
    assert kept == [] by { NothingOutstanding(g.lib, {o}, a.history); }
    var record := CheckpointBuilder.Built(PLATFORM, g.lib, g.room, a.generation, a.generation, a.endOffset, a.doc, a.history).value;
    assert record.snapshot == Spelled({o}) && record.pendingUpdates == [];
    Checkpoint.EncodedIffFits(PLATFORM, record, Checkpoint.DEFAULT_LIMITS);
  }

  lemma NothingOutstanding(lib: Library, applied: set<OpId>, history: seq<seq<byte>>)
    requires Ops(lib, history) <= applied
    ensures CheckpointBuilder.Outstanding(lib, applied, history) == []
  {
    var kept := CheckpointBuilder.Outstanding(lib, applied, history);
    if kept != [] {
      var i :| 0 <= i < |history| && history[i] == kept[0];
      forall o | o in BlobOps(lib, kept[0]) ensures o in applied {
        OpsMembers(lib, history, o);
      }
      assert false;
    }
  }

  /** With constant, non-zero hashes the manifest's head never has the genesis digest. */
  lemma HeadDigest(g: Gateway, d: Durable)
    requires Small(g) && Sound(g, d) && Active(g, d) <= 1
    ensures Active(g, d) > 0 ==> Chain(g, d)[Active(g, d) - 1].digest != GENESIS_DIGEST
    ensures |Content(d, ManifestStream)| + FIXED_RECORD_BYTES < TWO_64
  {
    hide DecodedManifest, ManifestPreimage, DeltaSound, CheckpointSound, ValidatedChain;
    RecordsChecked(PLATFORM, Content(d, ManifestStream));
    BoundedRecords(PLATFORM, Content(d, ManifestStream), 0);
    assert ONES[0] != GENESIS_DIGEST[0];
  }

  /** A room in generation 0 whose stream can be read starts up. */
  lemma StartsUp(g: Gateway, d: Durable, boot: nat) returns (d': Durable, a': Actor)
    requires Small(g) && Sound(g, d) && Active(g, d) == 0 && DeltaWithinLimits(g, d, 0)
    ensures StartStep(g, d, boot, d', a') && a'.lifecycle.Ready? && a'.sequence == 0 && a'.boot == boot
    ensures (forall s :: Content(d', s) == Content(d, s)) && d'.producers == d.producers
  {
    hide Sound, Recovery.Recovered, Loaded, DocOf, DecodedFrames, Represents, Ops;
    RecoveryExact(g, d);
    DeltasSound(g, d, 0);
    LoadExact(g, d, 0);
    d' := Ensured(Ensured(d, ManifestStream), DeltaStream(0));
    var (history, doc) := Loaded(g, Content(d, DeltaStream(0))).value;
    a' := FromReplay(g, boot, Content(d, DeltaStream(0)), history, doc);
  }

  /** What being anchored and ready means for a rotation. */
  lemma ReadyParts(g: Gateway, d: Durable, a: Actor)
    requires Anchored(g, d, a) && a.lifecycle.Ready?
    ensures a.blocked.None? && a.generation == Active(g, d) && a.stream == DeltaStream(Active(g, d))
    ensures Represents(g.lib, a.doc, a.history, Held(a.doc))
  {
    hide Represents, Held, Issued, Noticed;
  }

  /** A started room with one acknowledged operation. */
  lemma OneAcknowledged(g: Gateway, orderly: bool) returns (d1: Durable, a1: Actor, d2: Durable, a2: Actor)
    requires Small(g)
    ensures StartStep(g, NOTHING, 0, d1, a1)
    ensures UpdateStep(g, orderly, d1, a1, true, BATCH, [Spelled({FIRST})], d2, a2, AckOk)
    ensures Ops(g.lib, [Spelled({FIRST})]) == {FIRST}
    ensures Sound(g, d2) && Anchored(g, d2, a2) && a2.lifecycle.Ready? && !Orphaned(d2, a2)
    ensures Active(g, d2) == 0 && Held(a2.doc) == {FIRST} && RecoveredOps(g, d2) == {FIRST}
    ensures forall s :: s != DeltaStream(0) ==> Content(d2, s) == []
    ensures 0 < |Content(d2, DeltaStream(0))| < 1000
    ensures forall s, id :: (s, id) in d2.producers ==> s == DeltaStream(0) && id == g.names.delta(0, 0)
  {
    hide Sound, Anchored, StartStep, UpdateStep, KnownOps, RecoveredOps, Exact, TrueEnds, Spelled, Orphaned, Chain, Ops, Tracked, Read, Held, Prepare;
    SmallIsWellConfigured(g);
    EmptyIsSound(g);
    d1, a1 := StartsUp(g, NOTHING, 0);
    StartKeeps(g, NOTHING, 0, d1, a1);
    NothingRecovered(g);
    ReadyParts(g, d1, a1);
    AnchoredParts(g, d1, a1);
    SmallUpdate(g, d1, a1, FIRST);
    d2, a2 := UpdateCommits(g, orderly, d1, a1, BATCH, [Spelled({FIRST})]);
    UpdateKeeps(g, orderly, d1, a1, true, BATCH, [Spelled({FIRST})], d2, a2, AckOk);
    ReadyParts(g, d2, a2);
    KnownIsRecovered(g, d2, a2);
    assert {} + {FIRST} == {FIRST};
    PreparedPlace(g, a1, BATCH, [Spelled({FIRST})]);
  }

  lemma NothingRecovered(g: Gateway)
    ensures RecoveredOps(g, NOTHING) == {}
  {
    assert Frames(g, NOTHING, 0) == [];
  }

  lemma PreparedPlace(g: Gateway, a: Actor, batchId: BatchId, updates: seq<seq<byte>>)
    requires Prepare(g, a, batchId, updates).Success?
    ensures var p := Prepare(g, a, batchId, updates).value.1; p.target == a.stream && p.producer.id == a.producerId
  {
    hide BlobsAllowed, Candidate, Encoded, NewFrame;
  }

  /** A ready room with one operation, in generation 0 or 1, can rotate. */
  lemma RotatesWith(g: Gateway, d: Durable, a: Actor, o: OpId) returns (d': Durable, a': Actor)
    requires Small(g) && Sample(o)
    requires Sound(g, d) && a.lifecycle.Ready? && a.blocked.None? && a.generation == Active(g, d) <= 1
    requires Represents(g.lib, a.doc, a.history, {o}) && Content(d, CheckpointStream(a.generation)) == []
    ensures RotateStep(g, d, a, d', a', true)
  {
    hide Sound, Represents, Chain, RotateStep, CheckpointBuilder.Built, CheckpointBytes;
    SmallCheckpoint(g, a, o);
    HeadDigest(g, d);
    d', a' := RotationSucceeds(g, d, a);
  }

  lemma Happens(g: Gateway, orderly: bool, s: System, c: Command, s': System, acks: set<OpId>)
    requires s.actor.Some? && s'.actor.Some? && s'.acked == s.acked + acks
    requires Acts(g, orderly, s.durable, s.actor.value, c, s'.durable, s'.actor.value, acks)
    ensures Next(g, orderly, s, Perform(c), s')
  {
    hide Acts;
  }
}
