/** Steps that can happen: from a sound state the store may let each command succeed. */
module Progress {
  import opened Wrappers
  import opened Bytes
  import opened Frame
  import opened Loro
  import opened Store
  import opened Gateway
  import opened ExactAppend
  import opened Manifest
  import opened ManifestTheorems
  import opened CheckpointStore
  import opened ManifestStore
  import opened Rotation
  import opened Protocol
  import opened RoomState
  import opened ActorInvariant
  import opened ActorSteps
  import opened RecoveryTheorems
  import Checkpoint
  import CheckpointBuilder
  import RunTheorems

  /** A prepared update the store has room for. */
  ghost predicate Committable(g: Gateway, d: Durable, a: Actor, batchId: BatchId, updates: seq<seq<byte>>) {
    && Prepare(g, a, batchId, updates).Success?
    && var p := Prepare(g, a, batchId, updates).value.1;
    && |Content(d, p.target)| + |p.bytes| < TWO_64
  }

  /** Everything a prepared update needs to land, and what the store holds then. */
  lemma PreparedLands(g: Gateway, d: Durable, a: Actor, batchId: BatchId, updates: seq<seq<byte>>)
    requires WellConfigured(g) && Anchored(g, d, a) && a.lifecycle.Ready? && !Orphaned(d, a) && Committable(g, d, a, batchId, updates)
    ensures a.blocked.None?
    ensures var p := Prepare(g, a, batchId, updates).value.1;
            && Issued(g, a, p) && p.frame.updates == updates
            && CanCommit(d, p.target, p.producer, p.bytes)
            && NextSequence(Commit(d, p.target, p.producer, p.bytes), a.stream, a.producerId) == a.sequence + 1
  {
    hide Prepare, Noticed, Represents, Held;
    AnchoredParts(g, d, a);
    PreparedUpdate(g, a, batchId, updates);
  }

  lemma DeliveredCommits(g: Gateway, orderly: bool, d: Durable, p: PendingAppend)
    requires CanCommit(d, p.target, p.producer, p.bytes)
    ensures var d' := Commit(d, p.target, p.producer, p.bytes);
            Resolved(g, orderly, d, p, d', Success(DurablyCommitted(|Content(d', p.target)|)))
  {
    var d' := Commit(d, p.target, p.producer, p.bytes);
    assert ResolvedBy(g, orderly, d, [], p, d', Success(DurablyCommitted(|Content(d', p.target)|)));
  }

  /** The update commits and is acknowledged. */
  lemma UpdateCommits(g: Gateway, orderly: bool, d: Durable, a: Actor, batchId: BatchId, updates: seq<seq<byte>>) returns (d': Durable, a': Actor)
    requires WellConfigured(g) && Anchored(g, d, a) && a.lifecycle.Ready? && !Orphaned(d, a) && Committable(g, d, a, batchId, updates)
    ensures UpdateStep(g, orderly, d, a, true, batchId, updates, d', a', AckOk)
    ensures a'.lifecycle.Ready? && !Orphaned(d', a') && a'.sequence == a.sequence + 1
    ensures a'.stream == a.stream && a'.generation == a.generation && a'.boot == a.boot
    ensures var p := Prepare(g, a, batchId, updates).value.1; Landed(d, p.target, p.producer, p.bytes, d')
  {
    hide Prepare, Anchored, Commit, Prepared, BlobsAllowed, Decodable, Resolved;
    PreparedLands(g, d, a, batchId, updates);
    var (candidate, p) := Prepare(g, a, batchId, updates).value;
    d' := Commit(d, p.target, p.producer, p.bytes);
    var r: Result<DurableAppend, AppendFailure> := Success(DurablyCommitted(|Content(d', p.target)|));
    DeliveredCommits(g, orderly, d, p);
    a' := AfterAppend(a, candidate, p, r).0;
    assert (a', AckOk) == AfterAppend(a, candidate, p, r);
  }

  /** Every one of the next n replies is lost. */
  function LostReplies(n: nat): seq<Fault> {
    if n == 0 then [] else [LoseReply(Ambiguous("reply lost"))] + LostReplies(n - 1)
  }

  lemma {:induction false} RepliesLost(g: Gateway, orderly: bool, d: Durable, p: PendingAppend, left: nat)
    requires CanCommit(d, p.target, p.producer, p.bytes) || Recorded(d, p.target, p.producer)
    ensures Attempted(g, orderly, d, LostReplies(left + 1), p, left)
         == (if CanCommit(d, p.target, p.producer, p.bytes) then Commit(d, p.target, p.producer, p.bytes) else d,
             [], Failure(OutcomeUnknown(Ambiguous("reply lost"))))
    decreases left
  {
    var faults := LostReplies(left + 1);
    assert faults[0] == LoseReply(Ambiguous("reply lost")) && faults[1..] == LostReplies(left);
    if CanCommit(d, p.target, p.producer, p.bytes) {
      CommitHolds(d, p.target, p.producer, p.bytes);
    }
    if left > 0 {
      RepliesLost(g, orderly, Answered(orderly, d, NextOf(faults), p.target, p.producer, p.bytes).0, p, left - 1);
    }
  }

  /** The update commits, every reply is lost, and the room is left blocked. */
  lemma UpdateLosesReply(g: Gateway, orderly: bool, d: Durable, a: Actor, batchId: BatchId, updates: seq<seq<byte>>) returns (d': Durable, a': Actor)
    requires WellConfigured(g) && Anchored(g, d, a) && a.lifecycle.Ready? && !Orphaned(d, a) && Committable(g, d, a, batchId, updates)
    ensures UpdateStep(g, orderly, d, a, true, batchId, updates, d', a', Unknown)
    ensures a'.blocked.Some? && a'.blocked.value.frame.updates == updates && Orphaned(d', a')
    ensures a'.stream == a.stream && a'.generation == a.generation
    ensures var p := a'.blocked.value; Issued(g, a, p) && Landed(d, p.target, p.producer, p.bytes, d')
  {
    hide Prepare, Anchored, Commit, Prepared, BlobsAllowed, Decodable, Attempted;
    PreparedLands(g, d, a, batchId, updates);
    var (candidate, p) := Prepare(g, a, batchId, updates).value;
    d' := Commit(d, p.target, p.producer, p.bytes);
    var r: Result<DurableAppend, AppendFailure> := Failure(OutcomeUnknown(Ambiguous("reply lost")));
    RepliesLost(g, orderly, d, p, g.ambiguousRetries);
    assert ResolvedBy(g, orderly, d, LostReplies(g.ambiguousRetries + 1), p, d', r);
    assert Resolved(g, orderly, d, p, d', r);
    a' := AfterAppend(a, candidate, p, r).0;
    assert (a', Status.Unknown) == AfterAppend(a, candidate, p, r);
  }

  /** A blocked append that landed is proved a duplicate and reconciled. */
  lemma RetryResolves(g: Gateway, orderly: bool, d: Durable, a: Actor) returns (a': Actor)
    requires Sound(g, d) && Anchored(g, d, a) && Tracked(g, d, a) && a.blocked.Some? && Orphaned(d, a)
    requires DeltaWithinLimits(g, d, a.generation)
    ensures RetryStep(g, orderly, d, a, d, a', true)
    ensures a'.lifecycle.Ready? && a'.blocked.None?
  {
    hide Sound, Represents, Loaded, Prepared, BlobsAllowed, Frames, Stream, Chain, Attempted, Noticed, Held, Settles;
    var p := a.blocked.value;
    AnchoredParts(g, d, a);
    DeltasSound(g, d, a.generation);
    LoadExact(g, d, a.generation);
    ContentIsStream(g, d, a.generation);
    RunTheorems.EndsWithLast(g, Frames(g, d, a.generation), p);
    var r: Result<DurableAppend, AppendFailure> := Success(DurablyVerified(|Content(d, a.stream)|));
    DuplicateResolves(g, orderly, d, p);
    a' := ReloadedActor(g, d, a, p);
    assert Settles(g, a, p, r, d, a', true) by { ResolvedReload(g, a, p, r, d, a'); }
  }

  lemma DuplicateResolves(g: Gateway, orderly: bool, d: Durable, p: PendingAppend)
    requires Prepared(g, p) && Recorded(d, p.target, p.producer) && p.target in d.streams
    requires d.producers[(p.target, p.producer.id)].nextOffset == |Content(d, p.target)|
    requires |p.bytes| <= |Content(d, p.target)| && Content(d, p.target)[|Content(d, p.target)| - |p.bytes|..] == p.bytes
    ensures Resolved(g, orderly, d, p, d, Success(DurablyVerified(|Content(d, p.target)|)))
  {
    hide Prepared, DuplicateVerified;
    DuplicateProofExact(g, p, p.bytes);
    var content := Content(d, p.target);
    assert content[|content| - |p.bytes|..|content|] == content[|content| - |p.bytes|..];
    assert RangeRead(d, Deliver, p.target, |content| - |p.bytes|, |p.bytes|) == Success(p.bytes);
    assert ResolvedBy(g, orderly, d, [], p, d, Success(DurablyVerified(|Content(d, p.target)|)));
  }

  function ReloadedActor(g: Gateway, d: Durable, a: Actor, p: PendingAppend): Actor
    requires a.stream in d.streams && Loaded(g, d.streams[a.stream]).Success? && p.producer.sequence + 1 < TWO_64
  {
    var (history, doc) := Loaded(g, d.streams[a.stream]).value;
    Reconciled(a, p, d.streams[a.stream], history, doc)
  }

  lemma ResolvedReload(g: Gateway, a: Actor, p: PendingAppend, r: Result<DurableAppend, AppendFailure>, d: Durable, a': Actor)
    requires a.stream in d.streams && Loaded(g, d.streams[a.stream]).Success? && p.producer.sequence + 1 < TWO_64
    requires r.Success? && a' == ReloadedActor(g, d, a, p)
    ensures Settles(g, a, p, r, d, a', true)
  {
    hide Loaded;
  }

  // ---------------------------------------------------------------- rotation

  /** The store after a rotation in which every call is delivered. */
  function RotatedStore(g: Gateway, d: Durable, generation: U64, bytes: seq<byte>, record: ManifestRecord): Durable
    requires |bytes| < TWO_64 && Content(d, CheckpointStream(generation)) == []
    requires RecordBytes(g, record).Success? && |Content(d, ManifestStream)| + |RecordBytes(g, record).value| < TWO_64
  {
    var d1 := Commit(Ensured(d, CheckpointStream(generation)), CheckpointStream(generation), CheckpointProducer(g, generation), bytes);
    var d2 := Ensured(Ensured(d1, DeltaStream(generation + 1)), ManifestStream);
    Commit(d2, ManifestStream, ManifestProducer(g, record.revision), RecordBytes(g, record).value)
  }

  /** The record a rotation publishes next. */
  function NextRecord(g: Gateway, d: Durable, bytes: seq<byte>): Result<ManifestRecord, ManifestError>
    requires Active(g, d) + 1 < TWO_64
  {
    var n := Active(g, d);
    NewManifestRecord(g.h, g.room, n, if n == 0 then GENESIS_DIGEST else Chain(g, d)[n - 1].digest, n, bytes, n + 1)
  }

  lemma NextRecordPublishable(g: Gateway, d: Durable, bytes: seq<byte>)
    requires Sound(g, d) && Active(g, d) + 1 < TWO_64 && 0 < |bytes| < TWO_64
    requires Active(g, d) > 0 ==> Chain(g, d)[Active(g, d) - 1].digest != GENESIS_DIGEST
    ensures NextRecord(g, d, bytes).Success? && Publishable(g, d, NextRecord(g, d, bytes).value)
  {
    hide DeltaSound, CheckpointSound, Records, CheckpointBytesDigest, ManifestDigest;
    var n := Active(g, d);
    var record := NextRecord(g, d, bytes).value;
    assert record.digest == ManifestDigest(g.h, record) by { DigestIgnoresItself(g, record); }
    if n > 0 {
      hide ValidatedChain, LinksChecked;
      assert Numbered(Chain(g, d)[n - 1], n - 1);
      HeadIsLast(g, Chain(g, d));
      ExtendChain(g.h, Chain(g, d), record, g.room);
    }
  }

  lemma HeadIsLast(g: Gateway, records: seq<ManifestRecord>)
    requires ValidatedChain(g.h, records, g.room).Success?
    ensures records != [] && ValidatedChain(g.h, records, g.room).value == records[|records| - 1]
  {
  }

  lemma RotatedStreams(g: Gateway, d: Durable, generation: U64, bytes: seq<byte>, record: ManifestRecord)
    requires |bytes| < TWO_64 && Content(d, CheckpointStream(generation)) == [] && Content(d, DeltaStream(generation + 1)) == []
    requires RecordBytes(g, record).Success? && |Content(d, ManifestStream)| + |RecordBytes(g, record).value| < TWO_64
    ensures var d' := RotatedStore(g, d, generation, bytes, record);
            && SameElsewhere(d, d', generation)
            && CheckpointStream(generation) in d'.streams && d'.streams[CheckpointStream(generation)] == bytes
            && DeltaStream(generation + 1) in d'.streams && d'.streams[DeltaStream(generation + 1)] == []
            && Content(d', ManifestStream) == Content(d, ManifestStream) + RecordBytes(g, record).value
  {
    hide EncodedManifest;
    var d1 := Commit(Ensured(d, CheckpointStream(generation)), CheckpointStream(generation), CheckpointProducer(g, generation), bytes);
    assert [] + bytes == bytes;
    assert SameElsewhere(d, d1, generation) && Content(d1, ManifestStream) == Content(d, ManifestStream);
    var d2 := Ensured(Ensured(d1, DeltaStream(generation + 1)), ManifestStream);
    EnsureKeeps(d, d1, generation, DeltaStream(generation + 1));
    EnsureKeeps(d, Ensured(d1, DeltaStream(generation + 1)), generation, ManifestStream);
    assert SameElsewhere(d, d2, generation);
  }

  /** The rotation of a room whose checkpoint fits its limits can succeed. */
  lemma RotationSucceeds(g: Gateway, d: Durable, a: Actor) returns (d': Durable, a': Actor)
    requires Sound(g, d) && a.lifecycle.Ready? && a.blocked.None? && a.generation == Active(g, d) && Active(g, d) + 1 < TWO_64
    requires Content(d, CheckpointStream(a.generation)) == []
    requires var built := CheckpointBuilder.Built(g.h, g.lib, g.room, a.generation, a.generation, a.endOffset, a.doc, a.history);
             built.Success? && CheckpointBytes(g, built.value).Success?
    requires Active(g, d) > 0 ==> Chain(g, d)[Active(g, d) - 1].digest != GENESIS_DIGEST
    requires |Content(d, ManifestStream)| + FIXED_RECORD_BYTES < TWO_64
    ensures RotateStep(g, d, a, d', a', true)
    ensures a'.lifecycle.Ready?
  {
    hide CheckpointBuilder.Built, CheckpointBytes, Published, SameElsewhere, Represents, Chain;
    var checkpoint := CheckpointBuilder.Built(g.h, g.lib, g.room, a.generation, a.generation, a.endOffset, a.doc, a.history).value;
    var record: ManifestRecord;
    d', record := RotationPublishes(g, d, a);
    var r: Result<RotationResult, RotationError> := Success(RotationResult(checkpoint, record, a.generation + 1, checkpoint.pendingUpdates));
    assert Rotates(g, d, a.generation, a.endOffset, a.doc, a.history, d', r);
    a' := AfterRotation(g, a, r.value);
  }

  lemma RotationPublishes(g: Gateway, d: Durable, a: Actor) returns (d': Durable, record: ManifestRecord)
    requires Sound(g, d) && a.generation == Active(g, d) && Active(g, d) + 1 < TWO_64
    requires Content(d, CheckpointStream(a.generation)) == []
    requires var built := CheckpointBuilder.Built(g.h, g.lib, g.room, a.generation, a.generation, a.endOffset, a.doc, a.history);
             built.Success? && CheckpointBytes(g, built.value).Success?
    requires Active(g, d) > 0 ==> Chain(g, d)[Active(g, d) - 1].digest != GENESIS_DIGEST
    requires |Content(d, ManifestStream)| + FIXED_RECORD_BYTES < TWO_64
    ensures SameElsewhere(d, d', a.generation)
    ensures Published(g, d, a.generation, a.endOffset, a.doc, a.history, record, d')
  {
    hide CheckpointBuilder.Built, CheckpointBytes, RecordBytes, Publishable, NextRecord, RotatedStore, SameElsewhere, Chain, Sound;
    var G := a.generation;
    var checkpoint := CheckpointBuilder.Built(g.h, g.lib, g.room, G, G, a.endOffset, a.doc, a.history).value;
    var bytes := CheckpointBytes(g, checkpoint).value;
    BytesInRange(g, checkpoint);
    NextRecordPublishable(g, d, bytes);
    record := NextRecord(g, d, bytes).value;
    RecordSize(g, d, record);
    EmptyBeyond(g, d, G + 1);
    RotatedStreams(g, d, G, bytes, record);
    d' := RotatedStore(g, d, G, bytes, record);
    NextIsNew(g, d, bytes);
    HeadOpens(g, d);
  }

  lemma BytesInRange(g: Gateway, c: Checkpoint.CheckpointRecord)
    requires CheckpointBytes(g, c).Success?
    ensures 0 < |CheckpointBytes(g, c).value| < TWO_64
  {
    hide Checkpoint.Encoded;
    Checkpoint.EncodedIffFits(g.h, c, Checkpoint.DEFAULT_LIMITS);
    Checkpoint.WireLength(g.h, c);
  }

  lemma RecordSize(g: Gateway, d: Durable, record: ManifestRecord)
    requires Publishable(g, d, record)
    ensures RecordBytes(g, record).Success? && |RecordBytes(g, record).value| == FIXED_RECORD_BYTES
  {
    hide ValidatedChain, Records;
    WireSize(g.h, record);
  }

  lemma EmptyBeyond(g: Gateway, d: Durable, j: nat)
    requires Sound(g, d) && j > Active(g, d)
    ensures Content(d, DeltaStream(j)) == []
  {
    hide DeltaSound, ManifestSound, CheckpointSound;
  }

  lemma NextIsNew(g: Gateway, d: Durable, bytes: seq<byte>)
    requires Active(g, d) + 1 < TWO_64 && NextRecord(g, d, bytes).Success?
    ensures var r := NextRecord(g, d, bytes).value;
            NewManifestRecord(g.h, g.room, r.revision, r.previousRecordDigest, Active(g, d), bytes, Active(g, d) + 1) == Success(r)
  {
    hide Records;
  }

  lemma HeadOpens(g: Gateway, d: Durable)
    requires Sound(g, d)
    ensures Records(g.h, Content(d, ManifestStream)) == Success(Chain(g, d))
    ensures Active(g, d) > 0 ==> Chain(g, d)[Active(g, d) - 1].activeDeltaGeneration == Active(g, d)
  {
    hide DeltaSound, CheckpointSound, ValidatedChain, Records;
    if Active(g, d) > 0 {
      assert Numbered(Chain(g, d)[Active(g, d) - 1], Active(g, d) - 1);
    }
  }
}
