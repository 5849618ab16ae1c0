/** Writing a checkpoint once (src/checkpoint_store.rs). */
module CheckpointStore {
  import opened Wrappers
  import opened Bytes
  import opened Frame
  import opened Store
  import opened ExactAppend
  import opened Gateway
  import Checkpoint
  import CheckpointCodec
  import CheckpointLayout

  datatype CheckpointWriteOutcome = CheckpointCommitted(nextOffset: nat) | CheckpointDuplicate(nextOffset: nat) | CheckpointExisting(nextOffset: nat)

  datatype CheckpointWriteError =
    | WrongRoom
    | GenerationMismatch(expected: nat, actual: nat)
    | Encode(cause: Checkpoint.CheckpointError)
    | StoreFailure(error: StoreError)
    | ExistingBytesMismatch
    | UnexpectedEndOffset(expected: nat, actual: nat)

  function CheckpointBytes(g: Gateway, record: Checkpoint.CheckpointRecord): Result<seq<byte>, Checkpoint.CheckpointError> {
    Checkpoint.Encoded(g.h, record, Checkpoint.DEFAULT_LIMITS)
  }

  function CheckpointProducer(g: Gateway, generation: nat): ProducerTuple {
    ProducerTuple(g.names.checkpoint(generation), 0, 0)
  }

  /** An empty checkpoint stream may receive the record; a written one never changes. */
  ghost predicate Persists(g: Gateway, d: Durable, generation: nat, record: Checkpoint.CheckpointRecord, d': Durable,
                           r: Result<CheckpointWriteOutcome, CheckpointWriteError>) {
    var key := CheckpointStream(generation);
    var bytes := CheckpointBytes(g, record);
    && (d' == d || d' == Ensured(d, key)
        || (bytes.Success? && Content(d, key) == [] && Landed(Ensured(d, key), key, CheckpointProducer(g, generation), bytes.value, d')))
    && (r.Success? ==>
          && record.roomHash == Checkpoint.RoomHash(g.h, g.room) && record.checkpointGeneration == generation
          && bytes.Success? && key in d'.streams && d'.streams[key] == bytes.value != []
          && r.value.nextOffset == |bytes.value|
          && (r.value.CheckpointExisting? <==> Content(d, key) != []))
    && (r == Failure(ExistingBytesMismatch) ==> bytes.Success? && Content(d, key) != [] && Content(d, key) != bytes.value)
    && (Content(d, key) != [] ==> d' == d)
  }

  /** The checkpoint can be stored, or is stored already, byte for byte. */
  ghost predicate Persistable(g: Gateway, d: Durable, generation: nat, record: Checkpoint.CheckpointRecord) {
    var key := CheckpointStream(generation);
    var bytes := CheckpointBytes(g, record);
    && record.roomHash == Checkpoint.RoomHash(g.h, g.room) && record.checkpointGeneration == generation && bytes.Success?
    && (Content(d, key) == bytes.value
        || (Content(d, key) == [] && CanCommit(Ensured(d, key), key, CheckpointProducer(g, generation), bytes.value)))
  }

  /** Another room's record, another generation's, one that does not encode, and one over other bytes are each refused as such. */
  ghost predicate Refuses(g: Gateway, d: Durable, faults: seq<Fault>, generation: nat, record: Checkpoint.CheckpointRecord,
                          r: Result<CheckpointWriteOutcome, CheckpointWriteError>) {
    var bytes, stored := CheckpointBytes(g, record), Content(d, CheckpointStream(generation));
    if record.roomHash != g.h.sha256(g.room) then r == Failure(WrongRoom)
    else if record.checkpointGeneration != generation then r == Failure(GenerationMismatch(generation, record.checkpointGeneration))
    else if bytes.Failure? then r == Failure(Encode(bytes.error))
    else Clear(faults, 2) && stored != [] && stored != bytes.value ==> r == Failure(ExistingBytesMismatch)
  }

  method PersistCheckpoint(g: Gateway, store: Store, generation: nat, record: Checkpoint.CheckpointRecord)
    returns (r: Result<CheckpointWriteOutcome, CheckpointWriteError>)
    modifies store
    ensures Persists(g, old(store.durable), generation, record, store.durable, r)
    ensures Refuses(g, old(store.durable), old(store.faults), generation, record, r)
    ensures Slips(old(store.faults), 2, g.ambiguousRetries) || Clear(old(store.faults), 3) ==>
              (r.Success? <==> Persistable(g, old(store.durable), generation, record))
    ensures Slips(old(store.faults), 2, g.ambiguousRetries) && Content(old(store.durable), CheckpointStream(generation)) == [] && r.Success? ==>
              store.faults == []
    ensures Clear(old(store.faults), 3) && r.Success? ==> Consumed(old(store.faults), store.faults, 2) || Consumed(old(store.faults), store.faults, 3)
    ensures Clear(old(store.faults), 2) && r.Failure? && r.error.StoreFailure? ==> Content(old(store.durable), CheckpointStream(generation)) == []
  {
    hide Checkpoint.Encoded, CheckpointLayout.RecordAt, Slips, Clear, Losses, Consumed, ExactAttempted, LossTolerant, Appends, Settled, Light;
    ghost var script := store.faults;
    TwoDelivered(script, g.ambiguousRetries);
    LightAfterTwo(script, g.ambiguousRetries);
    if record.roomHash != Checkpoint.RoomHash(g.h, g.room) { return Failure(WrongRoom); }
    if record.checkpointGeneration != generation {
      return Failure(GenerationMismatch(generation, record.checkpointGeneration));
    }
    var encoded := CheckpointCodec.EncodeWithLimits(g.h, record, Checkpoint.DEFAULT_LIMITS);
    if encoded.Failure? { return Failure(Encode(encoded.error)); }
    var bytes := encoded.value;
    assert bytes != [] by {
      Checkpoint.EncodedIffFits(g.h, record, Checkpoint.DEFAULT_LIMITS);
      Checkpoint.WireLength(g.h, record);
    }
    var key := CheckpointStream(generation);
    var ensured := store.EnsureStream(key);
    if ensured.Failure? { return Failure(StoreFailure(ensured.error)); }
    var existing := store.ReadAll(key);
    if existing.Failure? { return Failure(StoreFailure(existing.error)); }
    if existing.value != [] {
      if existing.value != bytes { return Failure(ExistingBytesMismatch); }
      return Success(CheckpointExisting(|existing.value|));
    }
    IntoEmpty(store.orderly, store.durable, store.faults, key, CheckpointProducer(g, generation), bytes, g.ambiguousRetries);
    var appended := AppendExactWithRetry(store, key, CheckpointProducer(g, generation), bytes, g.ambiguousRetries);
    if appended.Failure? { return Failure(StoreFailure(appended.error)); }
    var nextOffset: nat, expectedOffset: nat := appended.value.nextOffset, |bytes|;
    if nextOffset != expectedOffset { return Failure(UnexpectedEndOffset(expectedOffset, nextOffset)); }
    r := Success(match appended.value
                 case ExactlyCommitted(n) => CheckpointCommitted(n)
                 case VerifiedDuplicate(n) => CheckpointDuplicate(n));
  }
}
