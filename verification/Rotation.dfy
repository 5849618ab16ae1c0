/** Rotating a room to its next generation: checkpoint, next delta stream, manifest, in that order (src/rotation.rs). */
module Rotation {
  import opened Wrappers
  import opened Bytes
  import opened Frame
  import opened Loro
  import opened Store
  import opened Gateway
  import opened Manifest
  import opened ManifestTheorems
  import opened CheckpointStore
  import opened ManifestStore
  import Checkpoint
  import CheckpointBuilder
  import CheckpointCodec
  import ManifestCodec
  import ManifestLayout

  datatype RotationResult = RotationResult(
    checkpoint: Checkpoint.CheckpointRecord,
    manifest: ManifestRecord,
    nextGeneration: U64,
    retainedHistory: seq<seq<byte>>
  )

  datatype RotationError =
    | CheckpointBuild(build: CheckpointBuilder.BuildError)
    | CheckpointEncode(encode: Checkpoint.CheckpointError)
    | CheckpointWrite(checkpointWrite: CheckpointWriteError)
    | ManifestInvalid(invalid: ManifestError)
    | ManifestWrite(manifestWrite: ManifestWriteError)
    | RotationStore(store: StoreError)
    | GenerationOverflow
    | RotationRevisionOverflow
    | NextDeltaNotEmpty(generation: nat)
    | ManifestActiveGenerationMismatch(manifest: Option<nat>, actor: nat)

  /** The revision and predecessor of the next record, if the manifest agrees that `generation` is active. */
  function NextPosition(g: Gateway, manifest: seq<byte>, generation: nat): Result<(U64, Digest), RotationError> {
    if manifest == [] then
      if generation != 0 then Failure(ManifestActiveGenerationMismatch(None, generation))
      else Success((0, GENESIS_DIGEST))
    else
      match DecodedManifestStream(g.h, manifest, DEFAULT_MANIFEST_LIMITS)
      case Failure(e) => Failure(ManifestInvalid(e))
      case Success(records) =>
        match ValidatedChain(g.h, records, g.room)
        case Failure(e) => Failure(ManifestInvalid(e))
        case Success(latest) =>
          if latest.activeDeltaGeneration != generation then
            Failure(ManifestActiveGenerationMismatch(Some(latest.activeDeltaGeneration), generation))
          else if latest.revision + 1 >= TWO_64 then Failure(RotationRevisionOverflow)
          else Success((latest.revision + 1, latest.digest))
  }

  /** Streams the rotation of this generation must not change. */
  ghost predicate SameElsewhere(d: Durable, d': Durable, generation: nat) {
    && d.streams.Keys <= d'.streams.Keys
    && (forall j: nat :: Content(d', DeltaStream(j)) == Content(d, DeltaStream(j)))
    && (forall j: nat :: j != generation ==> Content(d', CheckpointStream(j)) == Content(d, CheckpointStream(j)))
    && (Content(d, CheckpointStream(generation)) != [] ==>
          Content(d', CheckpointStream(generation)) == Content(d, CheckpointStream(generation)))
    && (forall j: nat, id :: (DeltaStream(j), id) in d.producers <==> (DeltaStream(j), id) in d'.producers)
    && (forall j: nat, id :: (DeltaStream(j), id) in d.producers ==>
          d'.producers[(DeltaStream(j), id)] == d.producers[(DeltaStream(j), id)])
  }

  /** The manifest grew by a record that names a fully stored checkpoint and an existing, empty delta stream. */
  ghost predicate Published(g: Gateway, d: Durable, generation: U64, endOffset: U64, doc: Doc, history: seq<seq<byte>>,
                            record: ManifestRecord, d': Durable) {
    var checkpoint := CheckpointBuilder.Built(g.h, g.lib, g.room, generation, generation, endOffset, doc, history);
    && generation + 1 < TWO_64
    && checkpoint.Success?
    && CheckpointBytes(g, checkpoint.value).Success?
    && CheckpointStream(generation) in d'.streams
    && d'.streams[CheckpointStream(generation)] == CheckpointBytes(g, checkpoint.value).value
    && DeltaStream(generation + 1) in d'.streams && d'.streams[DeltaStream(generation + 1)] == []
    && NewManifestRecord(g.h, g.room, record.revision, record.previousRecordDigest, generation,
                         d'.streams[CheckpointStream(generation)], generation + 1) == Success(record)
    && Publishable(g, d, record)
    && var records := Records(g.h, Content(d, ManifestStream)).value;
    && (records == [] ==> generation == 0)
    && (records != [] ==> records[|records| - 1].activeDeltaGeneration == generation)
    && Content(d', ManifestStream) == Content(d, ManifestStream) + RecordBytes(g, record).value
  }

  /** Wherever a rotation stops, it left the old manifest or published one complete record. */
  ghost predicate Rotates(g: Gateway, d: Durable, generation: U64, endOffset: U64, doc: Doc, history: seq<seq<byte>>,
                          d': Durable, r: Result<RotationResult, RotationError>) {
    && SameElsewhere(d, d', generation)
    && (|| Content(d', ManifestStream) == Content(d, ManifestStream)
        || exists record :: Published(g, d, generation, endOffset, doc, history, record, d'))
    && (r.Success? ==>
          && Published(g, d, generation, endOffset, doc, history, r.value.manifest, d')
          && r.value.nextGeneration == generation + 1
          && CheckpointBuilder.Built(g.h, g.lib, g.room, generation, generation, endOffset, doc, history)
             == Success(r.value.checkpoint)
          && r.value.retainedHistory == r.value.checkpoint.pendingUpdates)
  }

  lemma SameAsItself(d: Durable, generation: nat)
    ensures SameElsewhere(d, d, generation)
  {
  }

  lemma EnsureKeeps(d: Durable, d1: Durable, generation: nat, s: StreamKey)
    requires SameElsewhere(d, d1, generation)
    ensures SameElsewhere(d, Ensured(d1, s), generation)
    ensures forall t :: Content(Ensured(d1, s), t) == Content(d1, t)
  {
  }

  lemma PersistKeeps(g: Gateway, d: Durable, generation: nat, record: Checkpoint.CheckpointRecord, d1: Durable,
                     r: Result<CheckpointWriteOutcome, CheckpointWriteError>)
    requires Persists(g, d, generation, record, d1, r)
    ensures SameElsewhere(d, d1, generation)
    ensures Content(d1, ManifestStream) == Content(d, ManifestStream)
  {
    hide Checkpoint.Encoded;
  }

  lemma PublishKeeps(g: Gateway, d: Durable, d3: Durable, generation: nat, record: ManifestRecord, d4: Durable,
                     r: Result<ManifestWriteOutcome, ManifestWriteError>)
    requires SameElsewhere(d, d3, generation)
    requires ManifestStream in d3.streams
    requires Publishes(g, d3, record, d4, r)
    ensures SameElsewhere(d, d4, generation)
    ensures forall t :: t != ManifestStream ==> (t in d4.streams <==> t in d3.streams) && Content(d4, t) == Content(d3, t)
    ensures Content(d4, ManifestStream) == Content(d3, ManifestStream)
         || (Publishable(g, d3, record) && Content(d4, ManifestStream) == Content(d3, ManifestStream) + RecordBytes(g, record).value)
  {
    hide EncodedManifest, Records, ValidatedChain;
  }

  /** Once checkpoint and next delta are in place, whatever publishing did left a complete record or none. */
  lemma PublishCompletes(g: Gateway, d: Durable, d3: Durable, generation: U64, endOffset: U64, doc: Doc, history: seq<seq<byte>>,
                         bytes: seq<byte>, record: ManifestRecord, d4: Durable, r: Result<ManifestWriteOutcome, ManifestWriteError>)
    requires generation + 1 < TWO_64
    requires CheckpointBuilder.Built(g.h, g.lib, g.room, generation, generation, endOffset, doc, history).Success?
    requires CheckpointBytes(g, CheckpointBuilder.Built(g.h, g.lib, g.room, generation, generation, endOffset, doc, history).value)
          == Success(bytes)
    requires SameElsewhere(d, d3, generation)
    requires ManifestStream in d3.streams && Content(d3, ManifestStream) == Content(d, ManifestStream)
    requires CheckpointStream(generation) in d3.streams && d3.streams[CheckpointStream(generation)] == bytes
    requires DeltaStream(generation + 1) in d3.streams && d3.streams[DeltaStream(generation + 1)] == []
    requires NextPosition(g, Content(d, ManifestStream), generation).Success?
    requires var position := NextPosition(g, Content(d, ManifestStream), generation).value;
             NewManifestRecord(g.h, g.room, position.0, position.1, generation, bytes, generation + 1) == Success(record)
    requires Publishes(g, d3, record, d4, r)
    ensures SameElsewhere(d, d4, generation)
    ensures r.Success? || Content(d4, ManifestStream) != Content(d, ManifestStream) ==>
              Published(g, d, generation, endOffset, doc, history, record, d4)
  {
    hide EncodedManifest, Records, ValidatedChain, NewManifestRecord, NextPosition, CheckpointBytes, CheckpointBuilder.Built;
    var position := NextPosition(g, Content(d, ManifestStream), generation).value;
    NewRecordFields(g, position.0, position.1, generation, bytes, generation + 1);
    FreshRecord(g, Content(d, ManifestStream), generation, record);
    PublishKeeps(g, d, d3, generation, record, d4, r);
  }

  /** A record that continues the chain is not its head already. */
  lemma FreshRecord(g: Gateway, manifest: seq<byte>, generation: nat, record: ManifestRecord)
    requires NextPosition(g, manifest, generation).Success?
    requires record.revision == NextPosition(g, manifest, generation).value.0
    ensures Records(g.h, manifest).Success?
    ensures var records := Records(g.h, manifest).value;
            && (records == [] ==> manifest == [] && generation == 0)
            && (records != [] ==> records[|records| - 1] != record
                                  && records[|records| - 1].activeDeltaGeneration == generation)
  {
    hide LinksChecked, DecodedManifest;
    if manifest != [] {
      RecordsFromBounded(g.h, manifest, 0);
    }
  }

  method NextManifestPosition(g: Gateway, store: Store, generation: nat) returns (r: Result<(U64, Digest), RotationError>)
    modifies store
    ensures store.durable == old(store.durable) || store.durable == Ensured(old(store.durable), ManifestStream)
    ensures r.Success? ==> store.durable == Ensured(old(store.durable), ManifestStream)
    ensures r.Success? || !r.error.RotationStore? ==> r == NextPosition(g, Content(old(store.durable), ManifestStream), generation)
    ensures Clear(old(store.faults), 2) ==>
              store.faults == RestOf(RestOf(old(store.faults))) && store.durable == Ensured(old(store.durable), ManifestStream)
              && r == NextPosition(g, Content(old(store.durable), ManifestStream), generation)
  {
    hide LinksChecked, DecodedRecords, Clear, ManifestLayout.ReadsRecords;
    TwoDelivered(store.faults, g.ambiguousRetries);
    var ensured := store.EnsureStream(ManifestStream);
    if ensured.Failure? { return Failure(RotationStore(ensured.error)); }
    var read := store.ReadAll(ManifestStream);
    if read.Failure? { return Failure(RotationStore(read.error)); }
    if read.value == [] {
      if generation != 0 { return Failure(ManifestActiveGenerationMismatch(None, generation)); }
      return Success((0, GENESIS_DIGEST));
    }
    var records := ManifestCodec.DecodeManifestStream(g.h, read.value, DEFAULT_MANIFEST_LIMITS);
    if records.Failure? { return Failure(ManifestInvalid(records.error)); }
    var latest := ValidatedChain(g.h, records.value, g.room);
    if latest.Failure? { return Failure(ManifestInvalid(latest.error)); }
    if latest.value.activeDeltaGeneration != generation {
      return Failure(ManifestActiveGenerationMismatch(Some(latest.value.activeDeltaGeneration), generation));
    }
    if latest.value.revision + 1 >= TWO_64 { return Failure(RotationRevisionOverflow); }
    r := Success((latest.value.revision + 1, latest.value.digest));
  }

  lemma DigestIgnoresItself(g: Gateway, r: ManifestRecord)
    ensures ManifestDigest(g.h, r) == ManifestDigest(g.h, r.(digest := GENESIS_DIGEST))
  {
  }

  lemma FreshRecordEncodes(g: Gateway, revision: U64, previous: Digest, generation: U64, bytes: seq<byte>, record: ManifestRecord)
    requires generation + 1 < TWO_64
    requires NewManifestRecord(g.h, g.room, revision, previous, generation, bytes, generation + 1) == Success(record)
    ensures record.roomHash == Checkpoint.RoomHash(g.h, g.room) && RecordBytes(g, record).Success?
    ensures FieldsChecked(record).Success?
  {
    hide ManifestDigest, CheckpointBytesDigest, ManifestWire;
    DigestIgnoresItself(g, record);
  }

  /** A fresh record in the next position extends the stored chain. */
  lemma ContinuesChain(g: Gateway, manifest: seq<byte>, generation: U64, bytes: seq<byte>, record: ManifestRecord)
    requires generation + 1 < TWO_64 && NextPosition(g, manifest, generation).Success?
    requires var position := NextPosition(g, manifest, generation).value;
             NewManifestRecord(g.h, g.room, position.0, position.1, generation, bytes, generation + 1) == Success(record)
    ensures Continues(g, manifest, record) && !HeadIs(g, manifest, record)
  {
    hide LinksChecked, DecodedRecords, Records, ManifestDigest, CheckpointBytesDigest, NewManifestRecord;
    var position := NextPosition(g, manifest, generation).value;
    NewRecordFields(g, position.0, position.1, generation, bytes, generation + 1);
    if manifest == [] {
      NoRecords(g.h);
      assert [] + [record] == [record];
      OneLink(g, record);
    } else {
      RecordsFromBounded(g.h, manifest, 0);
      RecordsChecked(g.h, manifest);
      ExtendChain(g.h, Records(g.h, manifest).value, record, g.room);
    }
  }

  lemma OneLink(g: Gateway, record: ManifestRecord)
    ensures LinksChecked(g.h, [record], g.room).Success?
  {
  }

  /** The manifest stream can take the next record for this generation and checkpoint. */
  ghost predicate Continuable(g: Gateway, d: Durable, generation: U64, bytes: seq<byte>)
    requires generation + 1 < TWO_64
  {
    var position := NextPosition(g, Content(d, ManifestStream), generation);
    && position.Success?
    && var record := NewManifestRecord(g.h, g.room, position.value.0, position.value.1, generation, bytes, generation + 1);
    && record.Success? && RecordBytes(g, record.value).Success?
    && CanCommit(Ensured(d, ManifestStream), ManifestStream, ManifestProducer(g, record.value.revision), RecordBytes(g, record.value).value)
  }

  /** Everything a rotation needs to go through when no store call fails. */
  ghost predicate Rotatable(g: Gateway, d: Durable, generation: U64, endOffset: U64, doc: Doc, history: seq<seq<byte>>) {
    var checkpoint := CheckpointBuilder.Built(g.h, g.lib, g.room, generation, generation, endOffset, doc, history);
    && generation + 1 < TWO_64
    && checkpoint.Success?
    && CheckpointBytes(g, checkpoint.value).Success?
    && Persistable(g, d, generation, checkpoint.value)
    && Content(d, DeltaStream(generation + 1)) == []
    && Continuable(g, d, generation, CheckpointBytes(g, checkpoint.value).value)
  }

  /** The same manifest stream and the same producers on it. */
  ghost predicate SameManifest(d: Durable, d': Durable) {
    && Content(d', ManifestStream) == Content(d, ManifestStream)
    && (forall id :: (ManifestStream, id) in d'.producers <==> (ManifestStream, id) in d.producers)
    && (forall id :: (ManifestStream, id) in d.producers ==> d'.producers[(ManifestStream, id)] == d.producers[(ManifestStream, id)])
  }

  lemma SameContinuable(g: Gateway, d: Durable, d': Durable, generation: U64, bytes: seq<byte>)
    requires generation + 1 < TWO_64 && SameManifest(d, d')
    ensures Continuable(g, d', generation, bytes) == Continuable(g, d, generation, bytes)
  {
    hide NextPosition, NewManifestRecord, RecordBytes;
  }

  /** Writing the checkpoint and the next delta stream does not touch the manifest. */
  lemma PersistSameManifest(g: Gateway, d: Durable, generation: nat, checkpoint: Checkpoint.CheckpointRecord, d1: Durable,
                            r: Result<CheckpointWriteOutcome, CheckpointWriteError>)
    requires Persists(g, d, generation, checkpoint, d1, r)
    ensures SameManifest(d, d1) && SameManifest(d, Ensured(d1, DeltaStream(generation + 1)))
  {
    hide CheckpointBytes, SameManifest;
    var key := CheckpointStream(generation);
    EnsureSameManifest(d, key);
    if d1 != d && d1 != Ensured(d, key) {
      LandSameManifest(Ensured(d, key), key, CheckpointProducer(g, generation), CheckpointBytes(g, checkpoint).value, d1);
      SameManifestThen(d, Ensured(d, key), d1);
    }
    EnsureSameManifest(d, DeltaStream(generation + 1));
    EnsureSameManifest(d1, DeltaStream(generation + 1));
    SameManifestThen(d, d1, Ensured(d1, DeltaStream(generation + 1)));
  }

  lemma EnsureSameManifest(d: Durable, s: StreamKey)
    requires s != ManifestStream
    ensures SameManifest(d, d) && SameManifest(d, Ensured(d, s))
  {
  }

  lemma LandSameManifest(d: Durable, s: StreamKey, p: ProducerTuple, body: seq<byte>, d': Durable)
    requires s != ManifestStream && Landed(d, s, p, body, d')
    ensures SameManifest(d, d')
  {
  }

  lemma SameManifestThen(d: Durable, d1: Durable, d2: Durable)
    requires SameManifest(d, d1) && SameManifest(d1, d2)
    ensures SameManifest(d, d2)
  {
  }

  method EncodeCheckpoint(g: Gateway, record: Checkpoint.CheckpointRecord) returns (r: Result<seq<byte>, Checkpoint.CheckpointError>)
    ensures r == CheckpointBytes(g, record)
  {
    r := CheckpointCodec.EncodeWithLimits(g.h, record, Checkpoint.DEFAULT_LIMITS);
  }

  /** Publishes the record for a checkpoint and a next delta stream that are in place. */
  method PublishNext(g: Gateway, store: Store, generation: U64, endOffset: U64, doc: Doc, history: seq<seq<byte>>,
                     bytes: seq<byte>, ghost d: Durable) returns (r: Result<ManifestRecord, RotationError>)
    requires generation + 1 < TWO_64
    requires CheckpointBuilder.Built(g.h, g.lib, g.room, generation, generation, endOffset, doc, history).Success?
    requires CheckpointBytes(g, CheckpointBuilder.Built(g.h, g.lib, g.room, generation, generation, endOffset, doc, history).value)
          == Success(bytes)
    requires SameElsewhere(d, store.durable, generation) && Content(store.durable, ManifestStream) == Content(d, ManifestStream)
    requires CheckpointStream(generation) in store.durable.streams && store.durable.streams[CheckpointStream(generation)] == bytes
    requires DeltaStream(generation + 1) in store.durable.streams && store.durable.streams[DeltaStream(generation + 1)] == []
    modifies store
    ensures SameElsewhere(d, store.durable, generation)
    ensures Content(store.durable, ManifestStream) == Content(d, ManifestStream)
         || exists record :: Published(g, d, generation, endOffset, doc, history, record, store.durable)
    ensures r.Success? ==> Published(g, d, generation, endOffset, doc, history, r.value, store.durable)
    ensures Slips(old(store.faults), 4, g.ambiguousRetries) || Clear(old(store.faults), 5) ==>
              (r.Success? <==> Continuable(g, old(store.durable), generation, bytes))
  {
    hide CheckpointBytes, NewManifestRecord, NextPosition, CheckpointBuilder.Built, Publishes, Published, SameElsewhere,
         RecordBytes, Readable, HeadIs, Continues, Publishable, CanCommit, Slips, Clear;
    ghost var d2 := store.durable;
    AfterTwo(store.faults, 2, g.ambiguousRetries);
    AfterTwo(store.faults, 3, g.ambiguousRetries);
    EnsureKeeps(d, d2, generation, ManifestStream);
    var position := NextManifestPosition(g, store, generation);
    ghost var d3 := store.durable;
    if position.Failure? { return Failure(position.error); }
    var record := NewManifestRecord(g.h, g.room, position.value.0, position.value.1, generation, bytes, generation + 1);
    if record.Failure? { return Failure(ManifestInvalid(record.error)); }
    FreshRecordEncodes(g, position.value.0, position.value.1, generation, bytes, record.value);
    ContinuesChain(g, Content(d, ManifestStream), generation, bytes, record.value);
    ChainPublishable(g, d3, record.value);
    var published := PublishManifestRecord(g, store, record.value);
    PublishCompletes(g, d, d3, generation, endOffset, doc, history, bytes, record.value, store.durable, published);
    if published.Failure? { return Failure(ManifestWrite(published.error)); }
    r := Success(record.value);
  }

  lemma ChainPublishable(g: Gateway, d: Durable, record: ManifestRecord)
    requires RecordBytes(g, record).Success? && Continues(g, Content(d, ManifestStream), record)
    ensures Publishable(g, d, record)
  {
    hide ValidatedChain, Records, RecordBytes;
  }

  /**
   What a rotation gets over: lost calls while a fresh checkpoint is written, or while the manifest
   record is, up to the retries; every other call is delivered.
   */
  predicate Tolerable(faults: seq<Fault>, blank: bool, retries: nat) {
    (blank && Slips(faults, 2, retries)) || Slips(faults, 9, retries)
  }

  lemma ScriptOfRotation(faults: seq<Fault>, blank: bool, retries: nat)
    ensures Tolerable(faults, blank, retries) ==> Slips(faults, 2, retries) || Clear(faults, 3)
  {
  }

  /** Once the checkpoint is written, what is left of such a script lets the rest of the rotation through. */
  lemma AfterCheckpoint(faults: seq<Fault>, left: seq<Fault>, blank: bool, retries: nat)
    requires Tolerable(faults, blank, retries)
    requires blank && Slips(faults, 2, retries) ==> left == []
    requires Clear(faults, 3) ==> Consumed(faults, left, 2) || Consumed(faults, left, 3)
    ensures Clear(left, 2)
    ensures Slips(RestOf(RestOf(left)), 4, retries) || Clear(RestOf(RestOf(left)), 5)
  {
    if left != [] {
      assert Clear(faults, 3);
      AfterSome(faults, if Consumed(faults, left, 2) then 2 else 3, 9, retries);
      AfterTwo(left, 4, retries);
      AfterTwo(left, 5, retries);
    }
  }

  lemma AfterSome(faults: seq<Fault>, m: nat, n: nat, k: nat)
    requires m <= n && m <= |faults|
    ensures Slips(faults, n, k) ==> Slips(faults[m..], n - m, k)
    ensures Clear(faults, n) ==> Clear(faults[m..], n - m)
  {
    if Slips(faults, n, k) && |faults| > n {
      assert faults[m..][n - m..] == faults[n..];
    }
  }

  lemma AfterTwo(faults: seq<Fault>, n: nat, k: nat)
    ensures Slips(faults, n + 2, k) ==> Clear(faults, 2) && Slips(RestOf(RestOf(faults)), n, k)
    ensures Clear(faults, n + 2) ==> Clear(faults, 2) && Clear(RestOf(RestOf(faults)), n)
  {
    hide Slips, Clear;
    OneDelivered(faults, n + 1, k);
    OneDelivered(RestOf(faults), n, k);
    TwoClear(faults, n, k);
  }

  lemma TwoClear(faults: seq<Fault>, n: nat, k: nat)
    ensures Slips(faults, n + 2, k) || Clear(faults, n + 2) ==> Clear(faults, 2)
  {
  }

  method RotateRoom(g: Gateway, store: Store, generation: U64, endOffset: U64, doc: Doc, history: seq<seq<byte>>)
    returns (r: Result<RotationResult, RotationError>)
    modifies store
    ensures Rotates(g, old(store.durable), generation, endOffset, doc, history, store.durable, r)
    ensures Tolerable(old(store.faults), Content(old(store.durable), CheckpointStream(generation)) == [], g.ambiguousRetries) ==>
              (r.Success? <==> Rotatable(g, old(store.durable), generation, endOffset, doc, history))
  {
    hide Slips, Clear, Consumed, Tolerable, CheckpointBytes, CheckpointBuilder.Built, Published, SameElsewhere, Persistable, Persists, Continuable;
    ghost var d := store.durable;
    SameAsItself(d, generation);
    if generation + 1 >= TWO_64 { return Failure(GenerationOverflow); }
    var built := CheckpointBuilder.BuildCheckpointRecord(g.h, g.lib, g.room, generation, generation, endOffset, doc, history);
    if built.Failure? { return Failure(CheckpointBuild(built.error)); }
    var checkpoint := built.value;
    var encoded := EncodeCheckpoint(g, checkpoint);
    if encoded.Failure? { return Failure(CheckpointEncode(encoded.error)); }

    ghost var blank, script := Content(d, CheckpointStream(generation)) == [], store.faults;
    ScriptOfRotation(script, blank, g.ambiguousRetries);
    var persisted := PersistCheckpoint(g, store, generation, checkpoint);
    ghost var d1 := store.durable;
    PersistKeeps(g, d, generation, checkpoint, d1, persisted);
    PersistSameManifest(g, d, generation, checkpoint, d1, persisted);
    if persisted.Failure? { return Failure(CheckpointWrite(persisted.error)); }
    Persisted(g, d, generation, checkpoint, d1, persisted);
    ghost var left := store.faults;
    TwoDelivered(left, g.ambiguousRetries);
    if Tolerable(script, blank, g.ambiguousRetries) {
      AfterCheckpoint(script, left, blank, g.ambiguousRetries);
    }

    var next := DeltaStream(generation + 1);
    EnsureKeeps(d, d1, generation, next);
    NextDeltaSame(d, d1, generation);
    var ensured := store.EnsureStream(next);
    ghost var d2 := store.durable;
    if ensured.Failure? { return Failure(RotationStore(ensured.error)); }
    var nextBytes := store.ReadAll(next);
    if nextBytes.Failure? { return Failure(RotationStore(nextBytes.error)); }
    if nextBytes.value != [] { return Failure(NextDeltaNotEmpty(generation + 1)); }

    SameContinuable(g, d, d2, generation, encoded.value);
    var published := PublishNext(g, store, generation, endOffset, doc, history, encoded.value, d);
    if published.Failure? { return Failure(published.error); }
    r := Success(RotationResult(checkpoint, published.value, generation + 1, checkpoint.pendingUpdates));
  }

  lemma Persisted(g: Gateway, d: Durable, generation: nat, record: Checkpoint.CheckpointRecord, d1: Durable,
                  r: Result<CheckpointWriteOutcome, CheckpointWriteError>)
    requires Persists(g, d, generation, record, d1, r) && r.Success?
    ensures CheckpointBytes(g, record).Success?
    ensures CheckpointStream(generation) in d1.streams && d1.streams[CheckpointStream(generation)] == CheckpointBytes(g, record).value
  {
    hide CheckpointBytes;
  }

  lemma NextDeltaSame(d: Durable, d1: Durable, generation: nat)
    requires SameElsewhere(d, d1, generation)
    ensures Content(d1, DeltaStream(generation + 1)) == Content(d, DeltaStream(generation + 1))
  {
  }

  lemma NewRecordFields(g: Gateway, revision: U64, previous: Digest, generation: U64, bytes: seq<byte>, active: U64)
    requires NewManifestRecord(g.h, g.room, revision, previous, generation, bytes, active).Success?
    ensures var r := NewManifestRecord(g.h, g.room, revision, previous, generation, bytes, active).value;
            && r.revision == revision && r.previousRecordDigest == previous && r.checkpointGeneration == generation
            && r.activeDeltaGeneration == active && VerifiesCheckpoint(g.h, r, bytes) && bytes != []
            && r.roomHash == Checkpoint.RoomHash(g.h, g.room)
  {
  }
}
