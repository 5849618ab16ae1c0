/** Delta frames: the record that carries one committed update batch (src/frame.rs). */
module Frame {
  import opened Wrappers
  import opened Bytes
  import opened Envelope

  const MAGIC: Magic := [0x51, 0x4C, 0x47, 0x44]  // "QLGD"
  const FIXED_SUFFIX: nat := 32 + SUFFIX

  datatype FrameLimits = FrameLimits(
    maxFrameBytes: U64,
    maxProducerIdBytes: U64,
    maxUpdates: U64,
    maxUpdateBytes: U64,
    maxUpdatesBytes: U64,
    maxStreamBytes: U64
  )

  datatype ProducerTuple = ProducerTuple(id: seq<byte>, epoch: U64, sequence: U64)

  datatype DeltaFrame = DeltaFrame(
    producer: ProducerTuple,
    batchId: BatchId,
    updates: seq<seq<byte>>,
    digest: Digest
  )

  datatype FrameError =
    | Truncated
    | LengthOverflow
    | UnsupportedVersion(version: nat)
    | ChecksumMismatch
    | DigestMismatch
    | LimitExceeded(resource: string, actual: nat, limit: nat)
    | AtOffset(offset: nat, source: FrameError)
    | Invalid(message: string)

  function Enforce(resource: string, actual: nat, limit: nat): Result<(), FrameError> {
    if actual > limit then Failure(LimitExceeded(resource, actual, limit)) else Success(())
  }

  const DIGEST_DOMAIN: seq<byte> :=
    // "quorum-loro-updates-v1\0"
    [113, 117, 111, 114, 117, 109, 45, 108, 111, 114, 111, 45, 117, 112, 100, 97, 116, 101, 115, 45, 118, 49, 0]

  /** The byte string hashed for the update digest: count, then each update with its length. */
  function UpdatePreimage(updates: seq<seq<byte>>): seq<byte> {
    DIGEST_DOMAIN + (BigEndian(|updates|, 8) + Listed(updates))
  }

  function UpdateDigest(h: Platform, updates: seq<seq<byte>>): Digest {
    h.sha256(UpdatePreimage(updates))
  }

  function NewFrame(h: Platform, producer: ProducerTuple, batchId: BatchId, updates: seq<seq<byte>>): DeltaFrame {
    DeltaFrame(producer, batchId, updates, UpdateDigest(h, updates))
  }

  /** What NewFrame establishes: a UTF-8 producer id and the digest of the updates. */
  predicate Built(h: Platform, f: DeltaFrame) {
    h.utf8(f.producer.id) && f.digest == UpdateDigest(h, f.updates)
  }

  // ---------------------------------------------------------------- encoding

  function FrameLength(f: DeltaFrame): nat {
    PREFIX + 2 + |f.producer.id| + 8 + 8 + 8 + 4 + 4 * |f.updates| + TotalLength(f.updates) + FIXED_SUFFIX
  }

  /** Everything between the fixed prefix and the checksum. */
  function Payload(f: DeltaFrame): seq<byte> {
    BigEndian(|f.producer.id|, 2) + (f.producer.id
    + (BigEndian(f.producer.epoch, 8) + (BigEndian(f.producer.sequence, 8)
    + (f.batchId + (BigEndian(|f.updates|, 4)
    + (Table(Lengths(f.updates)) + (Flatten(f.updates) + f.digest)))))))
  }

  function Wire(h: Platform, f: DeltaFrame): seq<byte> {
    Sealed(h, MAGIC, Payload(f))
  }

  /** The first update over the per-update limit. */
  function FirstOversized(updates: seq<seq<byte>>, limit: nat): Result<(), FrameError> {
    if updates == [] then Success(())
    else
      var _ :- Enforce("individual update bytes", |updates[0]|, limit);
      FirstOversized(updates[1..], limit)
  }

  predicate Narrow(updates: seq<seq<byte>>) {
    forall i :: 0 <= i < |updates| ==> |updates[i]| < TWO_32
  }

  function Encoded(h: Platform, f: DeltaFrame, l: FrameLimits): Result<seq<byte>, FrameError> {
    if f.producer.id == [] then Failure(Invalid("producer ID is empty")) else
    var _ :- Enforce("producer ID bytes", |f.producer.id|, l.maxProducerIdBytes);
    if f.updates == [] then Failure(Invalid("frame contains no updates")) else
    var _ :- Enforce("update count", |f.updates|, l.maxUpdates);
    if |f.producer.id| >= TWO_16 then Failure(Invalid("producer ID is too long")) else
    if |f.updates| >= TWO_32 then Failure(Invalid("too many updates")) else
    if !Narrow(f.updates) then Failure(Invalid("update is too large")) else
    var _ :- FirstOversized(f.updates, l.maxUpdateBytes);
    var _ :- Enforce("aggregate update bytes", TotalLength(f.updates), l.maxUpdatesBytes);
    if FrameLength(f) >= TWO_64 then Failure(LengthOverflow) else
    var _ :- Enforce("frame bytes", FrameLength(f), l.maxFrameBytes);
    Success(Wire(h, f))
  }

  /** The frames that fit the limits, said without the order in which the encoder looks. */
  predicate Fits(f: DeltaFrame, l: FrameLimits) {
    && 0 < |f.producer.id| <= l.maxProducerIdBytes && |f.producer.id| < TWO_16
    && 0 < |f.updates| <= l.maxUpdates && |f.updates| < TWO_32
    && (forall i :: 0 <= i < |f.updates| ==> |f.updates[i]| <= l.maxUpdateBytes && |f.updates[i]| < TWO_32)
    && TotalLength(f.updates) <= l.maxUpdatesBytes
    && FrameLength(f) <= l.maxFrameBytes
  }

  lemma {:induction false} NoneOversized(updates: seq<seq<byte>>, limit: nat)
    ensures FirstOversized(updates, limit).Success? <==> forall i :: 0 <= i < |updates| ==> |updates[i]| <= limit
  {
    if updates != [] {
      NoneOversized(updates[1..], limit);
      if FirstOversized(updates, limit).Success? {
        forall i | 0 <= i < |updates| ensures |updates[i]| <= limit {
          if i > 0 { assert updates[i] == updates[1..][i - 1]; }
        }
      } else if |updates[0]| <= limit {
        var i :| 0 <= i < |updates[1..]| && |updates[1..][i]| > limit;
        assert |updates[i + 1]| > limit;
      }
    }
  }

  lemma EncodedIffFits(h: Platform, f: DeltaFrame, l: FrameLimits)
    ensures Encoded(h, f, l).Success? <==> Fits(f, l)
    ensures Encoded(h, f, l).Success? ==> Encoded(h, f, l).value == Wire(h, f)
  {
    hide Wire;
    NoneOversized(f.updates, l.maxUpdateBytes);
  }

  // ---------------------------------------------------------------- decoding

  function LengthCheck(l: FrameLimits): (nat, nat) -> Option<FrameError> {
    (length: nat, sum: nat) =>
      if length > l.maxUpdateBytes then Some(LimitExceeded("individual update bytes", length, l.maxUpdateBytes))
      else if sum > l.maxUpdatesBytes then Some(LimitExceeded("aggregate update bytes", sum, l.maxUpdatesBytes))
      else None
  }

  /** Reads the fields that follow the fixed prefix; `rest` runs to the end of the frame, trailer included. */
  function ParsedPayload(h: Platform, rest: seq<byte>, l: FrameLimits): Result<DeltaFrame, FrameError> {
    var (idLength, rest) :- TakeInt(rest, 2, Truncated);
    var _ :- Enforce("producer ID bytes", idLength, l.maxProducerIdBytes);
    var (id, rest) :- Take(rest, idLength, Truncated);
    if !h.utf8(id) then Failure(Invalid("producer ID is not UTF-8")) else
    if id == [] then Failure(Invalid("producer ID is empty")) else
    var (epoch, rest) :- TakeInt(rest, 8, Truncated);
    var (sequence, rest) :- TakeInt(rest, 8, Truncated);
    var (batchId, rest) :- Take(rest, 8, Truncated);
    var (count, rest) :- TakeInt(rest, 4, Truncated);
    if count == 0 then Failure(Invalid("frame contains no updates")) else
    var _ :- Enforce("update count", count, l.maxUpdates);
    SpanValues();
    ParsedUpdates(h, ProducerTuple(id, epoch, sequence), batchId, count, rest, l)
  }

  function ParsedUpdates(h: Platform, producer: ProducerTuple, batchId: BatchId, count: nat, rest: seq<byte>, l: FrameLimits):
      Result<DeltaFrame, FrameError> {
    if |rest| < 4 * count + FIXED_SUFFIX then Failure(Truncated) else
    var lengths :- ReadTable(rest, count, 0, LengthCheck(l), Truncated);
    var payload := rest[4 * count..|rest| - FIXED_SUFFIX];
    if Sum(lengths) != |payload| then Failure(Invalid("update lengths do not consume payload")) else
    var updates := Split(payload, lengths);
    var digest := rest[|rest| - FIXED_SUFFIX..|rest| - 12];
    if digest != UpdateDigest(h, updates) then Failure(DigestMismatch) else
    Success(DeltaFrame(producer, batchId, updates, digest))
  }

  /** The frame at the start of the input and its length. */
  function Decoded(h: Platform, input: seq<byte>, l: FrameLimits): (r: Result<(DeltaFrame, nat), FrameError>)
    ensures r.Success? ==> PREFIX + FIXED_SUFFIX <= r.value.1 <= |input|
  {
    if |input| < PREFIX + FIXED_SUFFIX then Failure(Truncated) else
    if input[..4] != MAGIC then Failure(Invalid("bad frame magic")) else
    if Value(input[4..6]) != VERSION then Failure(UnsupportedVersion(Value(input[4..6]))) else
    if Value(input[6..8]) != 0 then Failure(Invalid("unsupported frame flags")) else
    var total := Value(input[8..16]);
    if total < PREFIX + FIXED_SUFFIX then Failure(Truncated) else
    var _ :- Enforce("frame bytes", total, l.maxFrameBytes);
    if |input| < total then Failure(Truncated) else
    if Value(input[total - 8..total]) != total then Failure(Invalid("frame length trailer mismatch")) else
    if h.crc32(input[..total - 12]) != Value(input[total - 12..total - 8]) then Failure(ChecksumMismatch) else
    var f :- ParsedPayload(h, input[PREFIX..total], l);
    Success((f, total))
  }

  function DecodedExact(h: Platform, input: seq<byte>, l: FrameLimits): Result<DeltaFrame, FrameError> {
    var (frame, consumed) :- Decoded(h, input, l);
    if consumed != |input| then Failure(Invalid("trailing bytes after frame")) else Success(frame)
  }

  // ---------------------------------------------------------------- streams

  /** Frames laid end to end. */
  function Stream(h: Platform, frames: seq<DeltaFrame>): seq<byte> {
    if frames == [] then [] else Wire(h, frames[0]) + Stream(h, frames[1..])
  }

  function DecodedFrames(h: Platform, input: seq<byte>, offset: nat, l: FrameLimits): Result<seq<DeltaFrame>, FrameError>
    decreases |input|
  {
    if input == [] then Success([])
    else
      match Decoded(h, input, l)
      case Failure(e) => Failure(AtOffset(offset, e))
      case Success((frame, consumed)) =>
        var frames :- DecodedFrames(h, input[consumed..], offset + consumed, l);
        Success([frame] + frames)
  }

  function DecodedStream(h: Platform, input: seq<byte>, l: FrameLimits): Result<seq<DeltaFrame>, FrameError> {
    var _ :- Enforce("stream bytes", |input|, l.maxStreamBytes);
    DecodedFrames(h, input, 0, l)
  }

  /** Every update of every frame, in order. */
  function AllUpdates(frames: seq<DeltaFrame>): seq<seq<byte>> {
    if frames == [] then [] else frames[0].updates + AllUpdates(frames[1..])
  }

  lemma {:induction false} AllUpdatesAppend(a: seq<DeltaFrame>, b: seq<DeltaFrame>)
    ensures AllUpdates(a + b) == AllUpdates(a) + AllUpdates(b)
  {
    if a == [] {
      assert a + b == b;
    } else {
      assert (a + b)[1..] == a[1..] + b;
      AllUpdatesAppend(a[1..], b);
    }
  }
}
