/** Manifest records and the chain they form (src/manifest.rs). */
module Manifest {
  import opened Wrappers
  import opened Bytes
  import opened Envelope
  import opened Checkpoint

  const MANIFEST_MAGIC: Magic := [0x51, 0x4C, 0x47, 0x4D]  // "QLGM"
  const GENESIS_DIGEST: Digest :=
    [0, 0, 0, 0, 0, 0, 0, 0, 0, 0, 0, 0, 0, 0, 0, 0, 0, 0, 0, 0, 0, 0, 0, 0, 0, 0, 0, 0, 0, 0, 0, 0]
  const FIXED_RECORD_BYTES: nat := 4 + 2 + 2 + 8 + 32 + 8 + 32 + 8 + 8 + 32 + 8 + 32 + 4 + 8

  datatype ManifestLimits = ManifestLimits(maxRecordBytes: U64, maxRecords: U64, maxStreamBytes: U64)

  const DEFAULT_MANIFEST_LIMITS: ManifestLimits := ManifestLimits(4096, 65_536, 16 * 0x10_0000)

  datatype ManifestRecord = ManifestRecord(
    roomHash: Digest,
    revision: U64,
    previousRecordDigest: Digest,
    checkpointGeneration: U64,
    checkpointStreamEndOffset: U64,
    checkpointRecordDigest: Digest,
    activeDeltaGeneration: U64,
    digest: Digest
  )

  datatype ManifestError =
    | ManifestTruncated
    | EmptyStream
    | WrongRoom
    | UnsupportedManifestVersion(version: nat)
    | InvalidManifest(message: string)
    | ManifestChecksumMismatch
    | ManifestDigestMismatch
    | ManifestLengthOverflow
    | ManifestLimitExceeded(resource: string, actual: nat, limit: nat)

  function EnforceManifest(resource: string, actual: nat, limit: nat): Result<(), ManifestError> {
    if actual > limit then Failure(ManifestLimitExceeded(resource, actual, limit)) else Success(())
  }

  const CHECKPOINT_DOMAIN: seq<byte> :=
    // "quorum-loro-checkpoint-record-v1\0"
    [113, 117, 111, 114, 117, 109, 45, 108, 111, 114, 111, 45, 99, 104, 101, 99, 107, 112, 111, 105, 110, 116, 45,
     114, 101, 99, 111, 114, 100, 45, 118, 49, 0]

  const MANIFEST_DOMAIN: seq<byte> :=
    // "quorum-loro-manifest-v1\0"
    [113, 117, 111, 114, 117, 109, 45, 108, 111, 114, 111, 45, 109, 97, 110, 105, 102, 101, 115, 116, 45, 118, 49, 0]

  function CheckpointBytesPreimage(bytes: seq<byte>): seq<byte> {
    CHECKPOINT_DOMAIN + (BigEndian(|bytes|, 8) + bytes)
  }

  function CheckpointBytesDigest(h: Platform, bytes: seq<byte>): Digest {
    h.sha256(CheckpointBytesPreimage(bytes))
  }

  /** Every field the record digest covers. */
  function ManifestFields(r: ManifestRecord): seq<byte> {
    r.roomHash + (BigEndian(r.revision, 8) + (r.previousRecordDigest + (BigEndian(r.checkpointGeneration, 8)
    + (BigEndian(r.checkpointStreamEndOffset, 8) + (r.checkpointRecordDigest + BigEndian(r.activeDeltaGeneration, 8))))))
  }

  function ManifestPreimage(r: ManifestRecord): seq<byte> {
    MANIFEST_DOMAIN + ManifestFields(r)
  }

  function ManifestDigest(h: Platform, r: ManifestRecord): Digest {
    h.sha256(ManifestPreimage(r))
  }

  // ---------------------------------------------------------------- field checks

  function PreviousDigestChecked(revision: nat, previous: Digest): Result<(), ManifestError> {
    if revision == 0 && previous != GENESIS_DIGEST then Failure(InvalidManifest("first manifest record has a predecessor"))
    else if revision > 0 && previous == GENESIS_DIGEST then Failure(InvalidManifest("manifest predecessor digest is absent"))
    else Success(())
  }

  function GenerationPairChecked(checkpointGeneration: nat, activeDeltaGeneration: nat): Result<(), ManifestError> {
    if checkpointGeneration + 1 >= TWO_64 then Failure(InvalidManifest("checkpoint generation cannot advance"))
    else if activeDeltaGeneration != checkpointGeneration + 1 then
      Failure(InvalidManifest("active delta is not checkpoint generation plus one"))
    else Success(())
  }

  function FieldsChecked(r: ManifestRecord): Result<(), ManifestError> {
    var _ :- PreviousDigestChecked(r.revision, r.previousRecordDigest);
    var _ :- GenerationPairChecked(r.checkpointGeneration, r.activeDeltaGeneration);
    if r.checkpointStreamEndOffset == 0 then Failure(InvalidManifest("checkpoint stream end offset is zero"))
    else Success(())
  }

  function NewManifestRecord(h: Platform, room: seq<byte>, revision: U64, previous: Digest, checkpointGeneration: U64,
                             checkpointBytes: seq<byte>, activeDeltaGeneration: U64): Result<ManifestRecord, ManifestError> {
    if checkpointBytes == [] then Failure(InvalidManifest("checkpoint record is empty")) else
    var _ :- GenerationPairChecked(checkpointGeneration, activeDeltaGeneration);
    var _ :- PreviousDigestChecked(revision, previous);
    if |checkpointBytes| >= TWO_64 then Failure(ManifestLengthOverflow) else
    var r := ManifestRecord(RoomHash(h, room), revision, previous, checkpointGeneration, |checkpointBytes|,
                            CheckpointBytesDigest(h, checkpointBytes), activeDeltaGeneration, GENESIS_DIGEST);
    Success(r.(digest := ManifestDigest(h, r)))
  }

  predicate VerifiesCheckpoint(h: Platform, r: ManifestRecord, bytes: seq<byte>) {
    r.checkpointStreamEndOffset == |bytes| && r.checkpointRecordDigest == CheckpointBytesDigest(h, bytes)
  }

  // ---------------------------------------------------------------- codec

  function ManifestPayload(r: ManifestRecord): (s: seq<byte>)
    ensures |s| == 160
  {
    r.roomHash + (BigEndian(r.revision, 8) + (r.previousRecordDigest + (BigEndian(r.checkpointGeneration, 8)
    + (BigEndian(r.checkpointStreamEndOffset, 8) + (r.checkpointRecordDigest
    + (BigEndian(r.activeDeltaGeneration, 8) + r.digest))))))
  }

  function ManifestWire(h: Platform, r: ManifestRecord): (s: seq<byte>)
    ensures |s| == FIXED_RECORD_BYTES
  {
    Sealed(h, MANIFEST_MAGIC, ManifestPayload(r))
  }

  function EncodedManifest(h: Platform, r: ManifestRecord, l: ManifestLimits): Result<seq<byte>, ManifestError> {
    var _ :- EnforceManifest("manifest record bytes", FIXED_RECORD_BYTES, l.maxRecordBytes);
    var _ :- FieldsChecked(r);
    if r.digest != ManifestDigest(h, r) then Failure(ManifestDigestMismatch) else
    Success(ManifestWire(h, r))
  }

  function ParsedManifest(rest: seq<byte>): Result<ManifestRecord, ManifestError> {
    var (roomHash, rest) :- Take(rest, 32, ManifestTruncated);
    var (revision, rest) :- TakeInt(rest, 8, ManifestTruncated);
    var (previous, rest) :- Take(rest, 32, ManifestTruncated);
    var (checkpointGeneration, rest) :- TakeInt(rest, 8, ManifestTruncated);
    var (endOffset, rest) :- TakeInt(rest, 8, ManifestTruncated);
    var (checkpointDigest, rest) :- Take(rest, 32, ManifestTruncated);
    var (active, rest) :- TakeInt(rest, 8, ManifestTruncated);
    var (digest, rest) :- Take(rest, 32, ManifestTruncated);
    SpanValues();
    Success(ManifestRecord(roomHash, revision, previous, checkpointGeneration, endOffset, checkpointDigest, active, digest))
  }

  function DecodedManifest(h: Platform, input: seq<byte>, l: ManifestLimits): Result<ManifestRecord, ManifestError> {
    var _ :- EnforceManifest("manifest record bytes", FIXED_RECORD_BYTES, l.maxRecordBytes);
    if |input| < FIXED_RECORD_BYTES then Failure(ManifestTruncated) else
    if input[..4] != MANIFEST_MAGIC then Failure(InvalidManifest("bad manifest magic")) else
    if Value(input[4..6]) != VERSION then Failure(UnsupportedManifestVersion(Value(input[4..6]))) else
    if Value(input[6..8]) != 0 then Failure(InvalidManifest("unsupported manifest flags")) else
    if Value(input[8..16]) != FIXED_RECORD_BYTES then Failure(InvalidManifest("manifest record length mismatch")) else
    var total := FIXED_RECORD_BYTES;
    if Value(input[total - 8..total]) != total then Failure(InvalidManifest("manifest length trailer mismatch")) else
    if h.crc32(input[..total - 12]) != Value(input[total - 12..total - 8]) then Failure(ManifestChecksumMismatch) else
    var r :- ParsedManifest(input[PREFIX..total - SUFFIX]);
    var _ :- FieldsChecked(r);
    if r.digest != ManifestDigest(h, r) then Failure(ManifestDigestMismatch) else Success(r)
  }

  function DecodedRecords(h: Platform, input: seq<byte>, count: nat, l: ManifestLimits): Result<seq<ManifestRecord>, ManifestError>
    decreases |input|
  {
    if input == [] then Success([])
    else
      var _ :- EnforceManifest("manifest record count", count + 1, l.maxRecords);
      var r :- DecodedManifest(h, input, l);
      var records :- DecodedRecords(h, input[FIXED_RECORD_BYTES..], count + 1, l);
      Success([r] + records)
  }

  function DecodedManifestStream(h: Platform, input: seq<byte>, l: ManifestLimits): Result<seq<ManifestRecord>, ManifestError> {
    var _ :- EnforceManifest("manifest stream bytes", |input|, l.maxStreamBytes);
    DecodedRecords(h, input, 0, l)
  }

  // ---------------------------------------------------------------- chain

  function LinkChecked(h: Platform, previous: ManifestRecord, current: ManifestRecord, room: seq<byte>): Result<(), ManifestError> {
    if current.roomHash != RoomHash(h, room) then Failure(WrongRoom) else
    if previous.revision + 1 >= TWO_64 then Failure(ManifestLengthOverflow) else
    if current.revision != previous.revision + 1 then Failure(InvalidManifest("manifest revision gap")) else
    if current.previousRecordDigest != previous.digest then Failure(InvalidManifest("manifest predecessor digest mismatch")) else
    if current.checkpointGeneration <= previous.checkpointGeneration then
      Failure(InvalidManifest("checkpoint generation did not advance")) else
    if current.activeDeltaGeneration <= previous.activeDeltaGeneration then
      Failure(InvalidManifest("active delta generation did not advance")) else
    Success(())
  }

  function LinksChecked(h: Platform, records: seq<ManifestRecord>, room: seq<byte>): Result<(), ManifestError> {
    if |records| < 2 then Success(())
    else
      var _ :- LinkChecked(h, records[0], records[1], room);
      LinksChecked(h, records[1..], room)
  }

  /** The head of a valid chain. */
  function ValidatedChain(h: Platform, records: seq<ManifestRecord>, room: seq<byte>): Result<ManifestRecord, ManifestError> {
    if records == [] then Failure(EmptyStream) else
    if records[0].roomHash != RoomHash(h, room) then Failure(WrongRoom) else
    if records[0].revision != 0 then Failure(InvalidManifest("first manifest revision is not zero")) else
    if records[0].previousRecordDigest != GENESIS_DIGEST then Failure(InvalidManifest("first manifest record has a predecessor")) else
    var _ :- LinksChecked(h, records, room);
    Success(records[|records| - 1])
  }
}
