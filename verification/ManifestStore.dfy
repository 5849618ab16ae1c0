/** Publishing the next manifest record (src/manifest_store.rs). */
module ManifestStore {
  import opened Wrappers
  import opened Bytes
  import opened Frame
  import opened Store
  import opened ExactAppend
  import opened Gateway
  import opened Manifest
  import opened ManifestTheorems
  import Checkpoint
  import ManifestCodec
  import ManifestLayout

  datatype ManifestWriteOutcome = ManifestCommitted(nextOffset: nat) | ManifestDuplicate(nextOffset: nat) | ManifestExisting(nextOffset: nat)

  datatype ManifestWriteError =
    | BadManifest(cause: ManifestError)
    | ManifestStoreFailure(error: StoreError)
    | WrongManifestRoom
    | UnexpectedRevision(expected: nat, actual: nat)
    | PreviousDigestMismatch
    | RevisionOverflow
    | UnexpectedManifestEnd(expected: nat, actual: nat)

  function ManifestProducer(g: Gateway, revision: U64): ProducerTuple {
    ProducerTuple(g.names.manifest, 0, revision)
  }

  function RecordBytes(g: Gateway, record: ManifestRecord): Result<seq<byte>, ManifestError> {
    EncodedManifest(g.h, record, DEFAULT_MANIFEST_LIMITS)
  }

  /** The stored records followed by this one form a valid chain for the room. */
  ghost predicate Publishable(g: Gateway, d: Durable, record: ManifestRecord) {
    var records := Records(g.h, Content(d, ManifestStream));
    && RecordBytes(g, record).Success?
    && records.Success?
    && ValidatedChain(g.h, records.value + [record], g.room).Success?
  }

  /** The stream grows by exactly this record or not at all; a head that is this record already is left alone. */
  ghost predicate Publishes(g: Gateway, d: Durable, record: ManifestRecord, d': Durable,
                            r: Result<ManifestWriteOutcome, ManifestWriteError>) {
    && (d' == d || d' == Ensured(d, ManifestStream)
        || (Publishable(g, d, record)
            && Landed(Ensured(d, ManifestStream), ManifestStream, ManifestProducer(g, record.revision), RecordBytes(g, record).value, d')))
    && (r.Success? ==>
          && RecordBytes(g, record).Success?
          && r.value.nextOffset == |Content(d', ManifestStream)|
          && if r.value.ManifestExisting? then
               && d' == Ensured(d, ManifestStream)
               && Records(g.h, Content(d, ManifestStream)).Success?
               && Records(g.h, Content(d, ManifestStream)).value != []
               && var records := Records(g.h, Content(d, ManifestStream)).value; records[|records| - 1] == record
             else
               && Publishable(g, d, record)
               && Landed(Ensured(d, ManifestStream), ManifestStream, ManifestProducer(g, record.revision), RecordBytes(g, record).value, d'))
  }

  /** What is stored can be read back within the limits: nothing yet, or a valid chain. */
  predicate Readable(g: Gateway, manifest: seq<byte>) {
    manifest == []
    || (DecodedManifestStream(g.h, manifest, DEFAULT_MANIFEST_LIMITS).Success?
        && ValidatedChain(g.h, DecodedManifestStream(g.h, manifest, DEFAULT_MANIFEST_LIMITS).value, g.room).Success?)
  }

  /** The record is the head already, or continues the chain and can be appended. */
  ghost predicate Acceptable(g: Gateway, d: Durable, record: ManifestRecord) {
    var manifest := Content(d, ManifestStream);
    && record.roomHash == Checkpoint.RoomHash(g.h, g.room)
    && RecordBytes(g, record).Success?
    && (HeadIs(g, manifest, record)
        || (Continues(g, manifest, record)
            && CanCommit(Ensured(d, ManifestStream), ManifestStream, ManifestProducer(g, record.revision), RecordBytes(g, record).value)))
  }

  /** The head of a readable, non-empty chain. */
  function HeadOf(g: Gateway, manifest: seq<byte>): ManifestRecord
    requires manifest != [] && Readable(g, manifest)
  {
    ValidatedChain(g.h, DecodedManifestStream(g.h, manifest, DEFAULT_MANIFEST_LIMITS).value, g.room).value
  }

  /** What is wrong with a record that does not come next: its revision, or the predecessor it names. */
  predicate Misplaced(g: Gateway, manifest: seq<byte>, record: ManifestRecord, r: Result<bool, ManifestWriteError>) {
    if manifest == [] then record.revision != 0 ==> r == Failure(UnexpectedRevision(0, record.revision))
    else if !Readable(g, manifest) then r.Failure? && r.error.BadManifest?
    else
      var head := HeadOf(g, manifest);
      if head == record then r == Success(true)
      else if head.revision + 1 == TWO_64 then r == Failure(RevisionOverflow)
      else if record.revision != head.revision + 1 then r == Failure(UnexpectedRevision(head.revision + 1, record.revision))
      else record.previousRecordDigest != head.digest ==> r == Failure(PreviousDigestMismatch)
  }

  /** The stored bytes are a readable chain with this record at its head. */
  predicate HeadIs(g: Gateway, manifest: seq<byte>, record: ManifestRecord) {
    manifest != [] && Readable(g, manifest) && HeadOf(g, manifest) == record
  }

  /** The stored bytes are a readable chain, or nothing yet, that this record continues. */
  predicate Continues(g: Gateway, manifest: seq<byte>, record: ManifestRecord) {
    && Readable(g, manifest)
    && Records(g.h, manifest).Success?
    && ValidatedChain(g.h, Records(g.h, manifest).value + [record], g.room).Success?
  }

  lemma HeadStored(g: Gateway, manifest: seq<byte>, record: ManifestRecord)
    requires HeadIs(g, manifest, record)
    ensures Records(g.h, manifest).Success? && Records(g.h, manifest).value != []
    ensures var records := Records(g.h, manifest).value; records[|records| - 1] == record
  {
    hide LinksChecked, DecodedRecords, Records;
    RecordsFromBounded(g.h, manifest, 0);
  }

  /** Where the record stands towards what is stored: at the head already, next after it, or refused. */
  method Position(g: Gateway, existing: seq<byte>, record: ManifestRecord, bytes: seq<byte>) returns (r: Result<bool, ManifestWriteError>)
    requires RecordBytes(g, record) == Success(bytes)
    ensures r == Success(true) <==> HeadIs(g, existing, record)
    ensures r == Success(false) <==> !HeadIs(g, existing, record) && Continues(g, existing, record)
    ensures r.Failure? ==> !r.error.WrongManifestRoom?
    ensures Misplaced(g, existing, record, r)
  {
    hide EncodedManifest, LinksChecked, DecodedRecords, Records, ManifestLayout.ReadsRecords;
    WireSize(g.h, record);
    var records: seq<ManifestRecord> := [];
    if existing == [] {
      NoRecords(g.h);
      assert [] + [record] == [record];
      if record.revision != 0 { return Failure(UnexpectedRevision(0, record.revision)); }
      if record.previousRecordDigest != GENESIS_DIGEST { return Failure(PreviousDigestMismatch); }
    } else {
      var decoded := ManifestCodec.DecodeManifestStream(g.h, existing, DEFAULT_MANIFEST_LIMITS);
      if decoded.Failure? { return Failure(BadManifest(decoded.error)); }
      records := decoded.value;
      RecordsFromBounded(g.h, existing, 0);
      var latest := ValidatedChain(g.h, records, g.room);
      if latest.Failure? { return Failure(BadManifest(latest.error)); }
      ExtendChain(g.h, records, record, g.room);
      EndsWithHead(g.h, existing);
      if latest.value == record && |existing| >= |bytes| && existing[|existing| - |bytes|..] == bytes {
        return Success(true);
      }
      if latest.value.revision + 1 >= TWO_64 { return Failure(RevisionOverflow); }
      if record.revision != latest.value.revision + 1 {
        return Failure(UnexpectedRevision(latest.value.revision + 1, record.revision));
      }
      if record.previousRecordDigest != latest.value.digest { return Failure(PreviousDigestMismatch); }
    }
    var chain := ValidatedChain(g.h, records + [record], g.room);
    if chain.Failure? { return Failure(BadManifest(chain.error)); }
    r := Success(false);
  }

  method PublishManifestRecord(g: Gateway, store: Store, record: ManifestRecord)
    returns (r: Result<ManifestWriteOutcome, ManifestWriteError>)
    modifies store
    ensures Publishes(g, old(store.durable), record, store.durable, r)
    ensures r == Failure(WrongManifestRoom) <==> record.roomHash != Checkpoint.RoomHash(g.h, g.room)
    ensures Slips(old(store.faults), 2, g.ambiguousRetries) || Clear(old(store.faults), 3) ==>
              (r.Success? <==> Acceptable(g, old(store.durable), record))
  {
    hide EncodedManifest, ValidatedChain, DecodedManifestStream, Records, Readable, HeadIs, HeadOf, Misplaced, ManifestLayout.ManifestAt, ManifestLayout.Sensible,
         Slips, Clear, Losses, Light, ExactAttempted, LossTolerant, Appends, Settled, Ensures, CanCommit;
    TwoDelivered(store.faults, g.ambiguousRetries);
    LightAfterTwo(store.faults, g.ambiguousRetries);
    if record.roomHash != Checkpoint.RoomHash(g.h, g.room) { return Failure(WrongManifestRoom); }
    var encoded := ManifestCodec.EncodeWithLimits(g.h, record, DEFAULT_MANIFEST_LIMITS);
    if encoded.Failure? { return Failure(BadManifest(encoded.error)); }
    var bytes := encoded.value;
    WireSize(g.h, record);
    var ensured := store.EnsureStream(ManifestStream);
    if ensured.Failure? { return Failure(ManifestStoreFailure(ensured.error)); }
    var read := store.ReadAll(ManifestStream);
    if read.Failure? { return Failure(ManifestStoreFailure(read.error)); }
    var existing := read.value;
    var there :- Position(g, existing, record, bytes);
    if there {
      HeadStored(g, existing, record);
      return Success(ManifestExisting(|existing|));
    }
    AtTheEnd(store.orderly, store.durable, store.faults, ManifestStream, ManifestProducer(g, record.revision), bytes, g.ambiguousRetries);
    var appended := AppendExactWithRetry(store, ManifestStream, ManifestProducer(g, record.revision), bytes, g.ambiguousRetries);
    if appended.Failure? { return Failure(ManifestStoreFailure(appended.error)); }
    var nextOffset: nat, expectedEnd: nat := appended.value.nextOffset, |existing| + |bytes|;
    if nextOffset != expectedEnd { return Failure(UnexpectedManifestEnd(expectedEnd, nextOffset)); }
    r := Success(match appended.value
                 case ExactlyCommitted(n) => ManifestCommitted(n)
                 case VerifiedDuplicate(n) => ManifestDuplicate(n));
  }

  lemma NoRecords(h: Platform)
    ensures Records(h, []) == Success([])
  {
  }
}
