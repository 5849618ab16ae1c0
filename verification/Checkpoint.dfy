/** Checkpoint records: a snapshot plus the raw updates still pending against it (src/checkpoint.rs). */
module Checkpoint {
  import opened Wrappers
  import opened Bytes
  import opened Envelope

  const MAGIC: Magic := [0x51, 0x4C, 0x47, 0x43]  // "QLGC"
  const FIXED_HEADER: nat := 4 + 2 + 2 + 8 + 32 + 8 + 8 + 8 + 8 + 4
  const FIXED_SUFFIX: nat := 32 + SUFFIX

  datatype CheckpointLimits = CheckpointLimits(
    maxRecordBytes: U64,
    maxSnapshotBytes: U64,
    maxPendingUpdates: U64,
    maxPendingUpdateBytes: U64,
    maxPendingUpdatesBytes: U64
  )

  const DEFAULT_LIMITS: CheckpointLimits :=
    CheckpointLimits(128 * 0x10_0000, 64 * 0x10_0000, 4096, 32 * 0x10_0000, 64 * 0x10_0000)

  datatype CheckpointRecord = CheckpointRecord(
    roomHash: Digest,
    checkpointGeneration: U64,
    sourceDeltaGeneration: U64,
    sourceDeltaEndOffset: U64,
    snapshot: seq<byte>,
    pendingUpdates: seq<seq<byte>>,
    digest: Digest
  )

  datatype CheckpointError =
    | Truncated
    | UnsupportedVersion(version: nat)
    | Invalid(message: string)
    | ChecksumMismatch
    | DigestMismatch
    | LengthOverflow
    | LimitExceeded(resource: string, actual: nat, limit: nat)

  function Enforce(resource: string, actual: nat, limit: nat): Result<(), CheckpointError> {
    if actual > limit then Failure(LimitExceeded(resource, actual, limit)) else Success(())
  }

  function RoomHash(h: Platform, room: seq<byte>): Digest {
    h.sha256(room)
  }

  const DIGEST_DOMAIN: seq<byte> :=
    // "quorum-loro-checkpoint-v1\0"
    [113, 117, 111, 114, 117, 109, 45, 108, 111, 114, 111, 45, 99, 104, 101, 99, 107, 112, 111, 105, 110, 116, 45, 118, 49, 0]

  function CheckpointPreimage(snapshot: seq<byte>, pending: seq<seq<byte>>): seq<byte> {
    DIGEST_DOMAIN + (BigEndian(|snapshot|, 8) + (snapshot + (BigEndian(|pending|, 8) + Listed(pending))))
  }

  function CheckpointDigest(h: Platform, snapshot: seq<byte>, pending: seq<seq<byte>>): Digest {
    h.sha256(CheckpointPreimage(snapshot, pending))
  }

  function NewRecord(h: Platform, room: seq<byte>, checkpointGeneration: U64, sourceDeltaGeneration: U64,
                     sourceDeltaEndOffset: U64, snapshot: seq<byte>, pending: seq<seq<byte>>): CheckpointRecord {
    CheckpointRecord(RoomHash(h, room), checkpointGeneration, sourceDeltaGeneration, sourceDeltaEndOffset,
                     snapshot, pending, CheckpointDigest(h, snapshot, pending))
  }

  // ---------------------------------------------------------------- encoding

  function RecordLength(r: CheckpointRecord): nat {
    FIXED_HEADER + 4 * |r.pendingUpdates| + |r.snapshot| + TotalLength(r.pendingUpdates) + FIXED_SUFFIX
  }

  function Payload(r: CheckpointRecord): seq<byte> {
    r.roomHash + (BigEndian(r.checkpointGeneration, 8) + (BigEndian(r.sourceDeltaGeneration, 8)
    + (BigEndian(r.sourceDeltaEndOffset, 8) + (BigEndian(|r.snapshot|, 8) + (BigEndian(|r.pendingUpdates|, 4)
    + (Table(Lengths(r.pendingUpdates)) + (r.snapshot + (Flatten(r.pendingUpdates) + r.digest))))))))
  }

  function Wire(h: Platform, r: CheckpointRecord): seq<byte> {
    Sealed(h, MAGIC, Payload(r))
  }

  function PendingChecked(updates: seq<seq<byte>>, l: CheckpointLimits): Result<(), CheckpointError> {
    if updates == [] then Success(())
    else if updates[0] == [] then Failure(Invalid("pending update is empty"))
    else
      var _ :- Enforce("individual pending update bytes", |updates[0]|, l.maxPendingUpdateBytes);
      if |updates[0]| >= TWO_32 then Failure(Invalid("pending update is too large"))
      else PendingChecked(updates[1..], l)
  }

  function PendingTotal(updates: seq<seq<byte>>, sum: nat, l: CheckpointLimits): Result<nat, CheckpointError> {
    if updates == [] then Success(sum)
    else
      var next := sum + |updates[0]|;
      if next >= TWO_64 then Failure(LengthOverflow) else
      var _ :- Enforce("aggregate pending update bytes", next, l.maxPendingUpdatesBytes);
      PendingTotal(updates[1..], next, l)
  }

  function Encoded(h: Platform, r: CheckpointRecord, l: CheckpointLimits): Result<seq<byte>, CheckpointError> {
    if r.snapshot == [] then Failure(Invalid("checkpoint snapshot is empty")) else
    var _ :- Enforce("checkpoint snapshot bytes", |r.snapshot|, l.maxSnapshotBytes);
    var _ :- Enforce("pending update count", |r.pendingUpdates|, l.maxPendingUpdates);
    if |r.pendingUpdates| >= TWO_32 then Failure(Invalid("too many pending updates")) else
    var _ :- PendingChecked(r.pendingUpdates, l);
    var _ :- PendingTotal(r.pendingUpdates, 0, l);
    if RecordLength(r) >= TWO_64 then Failure(LengthOverflow) else
    var _ :- Enforce("checkpoint record bytes", RecordLength(r), l.maxRecordBytes);
    if r.digest != CheckpointDigest(h, r.snapshot, r.pendingUpdates) then Failure(DigestMismatch) else
    Success(Wire(h, r))
  }

  /** The records whose sizes are within the limits, said without the order in which the encoder looks. */
  predicate Sized(r: CheckpointRecord, l: CheckpointLimits) {
    && 0 < |r.snapshot| <= l.maxSnapshotBytes
    && |r.pendingUpdates| <= l.maxPendingUpdates && |r.pendingUpdates| < TWO_32
    && (forall i :: 0 <= i < |r.pendingUpdates| ==>
          0 < |r.pendingUpdates[i]| <= l.maxPendingUpdateBytes && |r.pendingUpdates[i]| < TWO_32)
    && TotalLength(r.pendingUpdates) <= l.maxPendingUpdatesBytes
    && RecordLength(r) <= l.maxRecordBytes
  }

  /** The records the encoder accepts. */
  predicate Fits(h: Platform, r: CheckpointRecord, l: CheckpointLimits) {
    Sized(r, l) && r.digest == CheckpointDigest(h, r.snapshot, r.pendingUpdates)
  }

  lemma {:induction false} PendingCheckedIff(updates: seq<seq<byte>>, l: CheckpointLimits)
    ensures PendingChecked(updates, l).Success? <==>
            forall i :: 0 <= i < |updates| ==> 0 < |updates[i]| <= l.maxPendingUpdateBytes && |updates[i]| < TWO_32
  {
    if updates != [] {
      PendingCheckedIff(updates[1..], l);
      assert updates == [updates[0]] + updates[1..];
    }
  }

  lemma {:induction false} PendingTotalIff(updates: seq<seq<byte>>, sum: nat, l: CheckpointLimits)
    requires sum <= l.maxPendingUpdatesBytes
    ensures PendingTotal(updates, sum, l).Success? <==> sum + TotalLength(updates) <= l.maxPendingUpdatesBytes
  {
    if updates != [] && sum + |updates[0]| <= l.maxPendingUpdatesBytes {
      PendingTotalIff(updates[1..], sum + |updates[0]|, l);
    }
  }

  lemma EncodedIffFits(h: Platform, r: CheckpointRecord, l: CheckpointLimits)
    ensures Encoded(h, r, l).Success? <==> Fits(h, r, l)
    ensures Encoded(h, r, l).Success? ==> Encoded(h, r, l).value == Wire(h, r)
  {
    hide Wire, CheckpointDigest;
    PendingCheckedIff(r.pendingUpdates, l);
    PendingTotalIff(r.pendingUpdates, 0, l);
  }

  // ---------------------------------------------------------------- decoding

  function LengthCheck(l: CheckpointLimits): (nat, nat) -> Option<CheckpointError> {
    (length: nat, sum: nat) =>
      if length == 0 then Some(Invalid("pending update is empty"))
      else if length > l.maxPendingUpdateBytes then
        Some(LimitExceeded("individual pending update bytes", length, l.maxPendingUpdateBytes))
      else if sum > l.maxPendingUpdatesBytes then
        Some(LimitExceeded("aggregate pending update bytes", sum, l.maxPendingUpdatesBytes))
      else None
  }

  /** Reads the fields after the fixed prefix; `rest` runs to the end of the record. */
  function ParsedPayload(h: Platform, rest: seq<byte>, l: CheckpointLimits): Result<CheckpointRecord, CheckpointError> {
    var (roomHash, rest) :- Take(rest, 32, Truncated);
    var (checkpointGeneration, rest) :- TakeInt(rest, 8, Truncated);
    var (sourceDeltaGeneration, rest) :- TakeInt(rest, 8, Truncated);
    var (sourceDeltaEndOffset, rest) :- TakeInt(rest, 8, Truncated);
    var (snapshotLength, rest) :- TakeInt(rest, 8, Truncated);
    var _ :- Enforce("checkpoint snapshot bytes", snapshotLength, l.maxSnapshotBytes);
    if snapshotLength == 0 then Failure(Invalid("checkpoint snapshot is empty")) else
    var (count, rest) :- TakeInt(rest, 4, Truncated);
    var _ :- Enforce("pending update count", count, l.maxPendingUpdates);
    SpanValues();
    ParsedBlobs(h, CheckpointRecord(roomHash, checkpointGeneration, sourceDeltaGeneration, sourceDeltaEndOffset, [], [], roomHash),
                snapshotLength, count, rest, l)
  }

  /** Reads the length table, the snapshot, the pending updates and the digest into `head`. */
  function ParsedBlobs(h: Platform, head: CheckpointRecord, snapshotLength: nat, count: nat, rest: seq<byte>, l: CheckpointLimits):
      Result<CheckpointRecord, CheckpointError> {
    var lengths :- ReadTable(rest, count, 0, LengthCheck(l), Truncated);
    if |rest| < 4 * count + FIXED_SUFFIX then Failure(Truncated) else
    var payload := rest[4 * count..|rest| - FIXED_SUFFIX];
    if |payload| != snapshotLength + Sum(lengths) then Failure(Invalid("checkpoint lengths do not consume payload")) else
    var snapshot, pending := payload[..snapshotLength], Split(payload[snapshotLength..], lengths);
    var digest := rest[|rest| - FIXED_SUFFIX..|rest| - 12];
    if digest != CheckpointDigest(h, snapshot, pending) then Failure(DigestMismatch) else
    Success(head.(snapshot := snapshot, pendingUpdates := pending, digest := digest))
  }

  function Decoded(h: Platform, input: seq<byte>, l: CheckpointLimits): Result<CheckpointRecord, CheckpointError> {
    if |input| < FIXED_HEADER + FIXED_SUFFIX then Failure(Truncated) else
    if input[..4] != MAGIC then Failure(Invalid("bad checkpoint magic")) else
    if Value(input[4..6]) != VERSION then Failure(UnsupportedVersion(Value(input[4..6]))) else
    if Value(input[6..8]) != 0 then Failure(Invalid("unsupported checkpoint flags")) else
    var total := Value(input[8..16]);
    if total < FIXED_HEADER + FIXED_SUFFIX then Failure(Truncated) else
    var _ :- Enforce("checkpoint record bytes", total, l.maxRecordBytes);
    if |input| < total then Failure(Truncated) else
    if |input| != total then Failure(Invalid("trailing bytes after checkpoint record")) else
    if Value(input[total - 8..]) != total then Failure(Invalid("checkpoint length trailer mismatch")) else
    if h.crc32(input[..total - 12]) != Value(input[total - 12..total - 8]) then Failure(ChecksumMismatch) else
    ParsedPayload(h, input[PREFIX..], l)
  }

  // ---------------------------------------------------------------- bijection

  lemma WireLength(h: Platform, r: CheckpointRecord)
    ensures PREFIX + |Payload(r)| + SUFFIX == RecordLength(r) == |Wire(h, r)|
  {
    FlattenFacts(r.pendingUpdates);
  }

  lemma {:induction false} LimitsAccept(updates: seq<seq<byte>>, sum: nat, l: CheckpointLimits)
    requires forall i :: 0 <= i < |updates| ==> 0 < |updates[i]| <= l.maxPendingUpdateBytes
    requires sum + TotalLength(updates) <= l.maxPendingUpdatesBytes
    ensures Accepted(Lengths(updates), sum, LengthCheck(l))
  {
    if updates != [] {
      assert Lengths(updates)[1..] == Lengths(updates[1..]);
      LimitsAccept(updates[1..], sum + |updates[0]|, l);
    }
  }

  lemma {:induction false} AcceptedLimits(lengths: seq<nat>, sum: nat, l: CheckpointLimits)
    requires Accepted(lengths, sum, LengthCheck(l))
    requires sum <= l.maxPendingUpdatesBytes
    ensures forall i :: 0 <= i < |lengths| ==> 0 < lengths[i] <= l.maxPendingUpdateBytes
    ensures sum + Sum(lengths) <= l.maxPendingUpdatesBytes
  {
    if lengths != [] {
      AcceptedLimits(lengths[1..], sum + lengths[0], l);
      assert lengths == [lengths[0]] + lengths[1..];
    }
  }

  lemma BlobsRoundTrip(h: Platform, r: CheckpointRecord, head: CheckpointRecord, l: CheckpointLimits, trailer: seq<byte>)
    requires Sized(r, l) && |trailer| == 12
    ensures ParsedBlobs(h, head, |r.snapshot|, |r.pendingUpdates|,
              Table(Lengths(r.pendingUpdates)) + (r.snapshot + (Flatten(r.pendingUpdates) + r.digest)) + trailer, l)
         == if r.digest == CheckpointDigest(h, r.snapshot, r.pendingUpdates)
            then Success(head.(snapshot := r.snapshot, pendingUpdates := r.pendingUpdates, digest := r.digest))
            else Failure(DigestMismatch)
  {
    hide BigEndian, Table, Flatten, Sum, TotalLength, Accepted, CheckpointDigest, ReadTable, Split;
    var table, flat := Table(Lengths(r.pendingUpdates)), Flatten(r.pendingUpdates);
    var rest := table + (r.snapshot + (flat + r.digest)) + trailer;
    var count := |r.pendingUpdates|;
    FlattenFacts(r.pendingUpdates);
    LimitsAccept(r.pendingUpdates, 0, l);
    var tail := r.snapshot + (flat + r.digest) + trailer;
    assert rest == table + tail;
    ReadTableOfTable(Lengths(r.pendingUpdates), tail, 0, LengthCheck(l), Truncated);
    var payload := rest[4 * count..|rest| - FIXED_SUFFIX];
    assert payload == r.snapshot + flat;
    assert payload[..|r.snapshot|] == r.snapshot && payload[|r.snapshot|..] == flat;
    assert rest[|rest| - FIXED_SUFFIX..|rest| - 12] == r.digest;
    SplitOfFlatten(r.pendingUpdates);
  }

  lemma Regroup(a: seq<byte>, b: seq<byte>, c: seq<byte>)
    ensures a + b + c == a + (b + c)
  {
  }

  lemma PayloadRoundTrip(h: Platform, r: CheckpointRecord, l: CheckpointLimits, trailer: seq<byte>)
    requires Sized(r, l) && |trailer| == 12
    ensures ParsedPayload(h, Payload(r) + trailer, l)
         == if r.digest == CheckpointDigest(h, r.snapshot, r.pendingUpdates) then Success(r) else Failure(DigestMismatch)
  {
    hide BigEndian, Table, Flatten, TotalLength, CheckpointDigest, ParsedBlobs;
    SpanValues();
    var r6 := Table(Lengths(r.pendingUpdates)) + (r.snapshot + (Flatten(r.pendingUpdates) + r.digest));
    var r5 := BigEndian(|r.pendingUpdates|, 4) + r6;
    var r4 := BigEndian(|r.snapshot|, 8) + r5;
    var r3 := BigEndian(r.sourceDeltaEndOffset, 8) + r4;
    var r2 := BigEndian(r.sourceDeltaGeneration, 8) + r3;
    var r1 := BigEndian(r.checkpointGeneration, 8) + r2;
    Regroup(r.roomHash, r1, trailer);
    TakePrefix(r.roomHash, r1 + trailer, Truncated);
    Regroup(BigEndian(r.checkpointGeneration, 8), r2, trailer);
    TakeIntPrefix(r.checkpointGeneration, 8, r2 + trailer, Truncated);
    Regroup(BigEndian(r.sourceDeltaGeneration, 8), r3, trailer);
    TakeIntPrefix(r.sourceDeltaGeneration, 8, r3 + trailer, Truncated);
    Regroup(BigEndian(r.sourceDeltaEndOffset, 8), r4, trailer);
    TakeIntPrefix(r.sourceDeltaEndOffset, 8, r4 + trailer, Truncated);
    Regroup(BigEndian(|r.snapshot|, 8), r5, trailer);
    TakeIntPrefix(|r.snapshot|, 8, r5 + trailer, Truncated);
    Regroup(BigEndian(|r.pendingUpdates|, 4), r6, trailer);
    TakeIntPrefix(|r.pendingUpdates|, 4, r6 + trailer, Truncated);
    var head := r.(snapshot := [], pendingUpdates := [], digest := r.roomHash);
    BlobsRoundTrip(h, r, head, l, trailer);
  }

  /** Reading a well-formed record gives it back, or objects to its digest. */
  lemma WireThenJudged(h: Platform, r: CheckpointRecord, l: CheckpointLimits)
    requires Sized(r, l)
    ensures Decoded(h, Wire(h, r), l)
         == if r.digest == CheckpointDigest(h, r.snapshot, r.pendingUpdates) then Success(r) else Failure(DigestMismatch)
  {
    hide ParsedPayload, Payload, Sealed, Checksummed, Value, BigEndian, CheckpointDigest;
    WireLength(h, r);
    SealedFields(h, MAGIC, Payload(r), []);
    var input, total := Wire(h, r), RecordLength(r);
    assert input + [] == input;
    assert input[total - 8..] == input[total - 8..total];
    var trailer := input[total - SUFFIX..];
    assert input[PREFIX..] == Payload(r) + trailer;
    PayloadRoundTrip(h, r, l, trailer);
  }

  /** Decoding inverts encoding. */
  lemma CheckpointRoundTrip(h: Platform, r: CheckpointRecord, l: CheckpointLimits)
    requires Encoded(h, r, l).Success?
    ensures Decoded(h, Encoded(h, r, l).value, l) == Success(r)
  {
    hide Encoded, Decoded, Wire, CheckpointDigest, Sized;
    EncodedIffFits(h, r, l);
    WireThenJudged(h, r, l);
  }

  lemma BlobsCanonical(h: Platform, head: CheckpointRecord, snapshotLength: nat, count: nat, rest: seq<byte>, l: CheckpointLimits)
    requires ParsedBlobs(h, head, snapshotLength, count, rest, l).Success?
    ensures |rest| >= FIXED_SUFFIX
    ensures var r := ParsedBlobs(h, head, snapshotLength, count, rest, l).value;
            && r == head.(snapshot := r.snapshot, pendingUpdates := r.pendingUpdates, digest := r.digest)
            && |r.snapshot| == snapshotLength && |r.pendingUpdates| == count
            && rest[..|rest| - 12] == Table(Lengths(r.pendingUpdates)) + (r.snapshot + (Flatten(r.pendingUpdates) + r.digest))
            && r.digest == CheckpointDigest(h, r.snapshot, r.pendingUpdates)
            && (forall i :: 0 <= i < count ==>
                  0 < |r.pendingUpdates[i]| <= l.maxPendingUpdateBytes && |r.pendingUpdates[i]| < TWO_32)
            && TotalLength(r.pendingUpdates) <= l.maxPendingUpdatesBytes
  {
    hide BigEndian, Table, Flatten, Sum, TotalLength, Accepted, CheckpointDigest, ReadTable, Split;
    TableOfReadTable(rest, count, 0, LengthCheck(l), Truncated);
    var lengths := ReadTable(rest, count, 0, LengthCheck(l), Truncated).value;
    var payload := rest[4 * count..|rest| - FIXED_SUFFIX];
    FlattenOfSplit(payload[snapshotLength..], lengths);
    AcceptedLimits(lengths, 0, l);
    var r := ParsedBlobs(h, head, snapshotLength, count, rest, l).value;
    FlattenFacts(r.pendingUpdates);
    forall i | 0 <= i < count ensures |r.pendingUpdates[i]| == lengths[i] {
      assert Lengths(r.pendingUpdates)[i] == lengths[i];
    }
    assert payload == r.snapshot + Flatten(r.pendingUpdates);
    assert rest[..|rest| - 12] == rest[..4 * count] + (payload + r.digest);
    Regroup(r.snapshot, Flatten(r.pendingUpdates), r.digest);
  }

  lemma Chop(a: seq<byte>, b: seq<byte>)
    requires |b| >= 12
    ensures (a + b)[..|a + b| - 12] == a + b[..|b| - 12]
  {
  }

  lemma PayloadCanonical(h: Platform, rest: seq<byte>, l: CheckpointLimits)
    requires ParsedPayload(h, rest, l).Success?
    ensures |rest| >= 12
    ensures var r := ParsedPayload(h, rest, l).value;
            && rest[..|rest| - 12] == Payload(r)
            && (RecordLength(r) <= l.maxRecordBytes ==> Fits(h, r, l))
  {
    hide BigEndian, Value, Table, Flatten, TotalLength, CheckpointDigest, ParsedBlobs, Take, TakeInt, Span;
    SpanValues();
    var (roomHash, r1) := Take(rest, 32, Truncated).value;
    var (cg, r2) := TakeInt(r1, 8, Truncated).value;
    var (sg, r3) := TakeInt(r2, 8, Truncated).value;
    var (end, r4) := TakeInt(r3, 8, Truncated).value;
    var (snapshotLength, r5) := TakeInt(r4, 8, Truncated).value;
    var (count, r6) := TakeInt(r5, 4, Truncated).value;
    var head := CheckpointRecord(roomHash, cg, sg, end, [], [], roomHash);
    BlobsCanonical(h, head, snapshotLength, count, r6, l);
    Chop(BigEndian(count, 4), r6);
    Chop(BigEndian(snapshotLength, 8), r5);
    Chop(BigEndian(end, 8), r4);
    Chop(BigEndian(sg, 8), r3);
    Chop(BigEndian(cg, 8), r2);
    Chop(roomHash, r1);
  }

  /** An accepted checkpoint stream is the encoding of the record it decodes to. */
  lemma CheckpointCanonical(h: Platform, input: seq<byte>, l: CheckpointLimits)
    requires Decoded(h, input, l).Success?
    ensures Encoded(h, Decoded(h, input, l).value, l) == Success(input)
  {
    hide ParsedPayload, Encoded, Payload, Sealed, Checksummed, Value, BigEndian;
    var r := Decoded(h, input, l).value;
    Unsealed(h, MAGIC, input);
    var rest := input[PREFIX..];
    PayloadCanonical(h, rest, l);
    assert input[PREFIX..|input| - SUFFIX] == rest[..|rest| - 12];
    WireLength(h, r);
    EncodedIffFits(h, r, l);
  }
}
