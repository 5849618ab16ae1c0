/** The bytes of a checkpoint record, offset by offset. */
module CheckpointLayout {
  import opened Wrappers
  import opened Bytes
  import opened Envelope
  import opened Layout
  import opened Checkpoint

  predicate RecordAt(h: Platform, s: seq<byte>, r: CheckpointRecord) {
    var c := |r.pendingUpdates|;
    && |s| == 128 + 4 * c + |r.snapshot| + Before(r.pendingUpdates, c)
    && Enveloped(h, s, [0x51, 0x4C, 0x47, 0x43])
    && PayloadAt(s, r)
  }

  /** Room, generations, end offset, snapshot length, count, lengths, snapshot, pending updates, digest. */
  predicate PayloadAt(s: seq<byte>, r: CheckpointRecord) {
    var c, m := |r.pendingUpdates|, |r.snapshot|;
    && BytesAt(s, 16, r.roomHash)
    && U64At(s, 48, r.checkpointGeneration)
    && U64At(s, 56, r.sourceDeltaGeneration)
    && U64At(s, 64, r.sourceDeltaEndOffset)
    && U64At(s, 72, m)
    && U32At(s, 80, c)
    && LengthsAt(s, 84, r.pendingUpdates)
    && BytesAt(s, 84 + 4 * c, r.snapshot)
    && ChunksAt(s, 84 + 4 * c + m, r.pendingUpdates)
    && BytesAt(s, 84 + 4 * c + m + Before(r.pendingUpdates, c), r.digest)
  }

  /** The widths of the length fields hold the lengths. */
  predicate Narrowed(r: CheckpointRecord) {
    && |r.snapshot| < TWO_64 && |r.pendingUpdates| < TWO_32 && RecordLength(r) < TWO_64
    && forall i :: 0 <= i < |r.pendingUpdates| ==> |r.pendingUpdates[i]| < TWO_32
  }

  lemma PayloadLaid(s: seq<byte>, r: CheckpointRecord)
    requires Narrowed(r) && |s| == RecordLength(r)
    ensures BytesAt(s, 16, Payload(r)) <==> PayloadAt(s, r)
  {
    hide BigEndian, U32At, U64At, BytesAt, LengthsAt, ChunksAt, Table, Flatten, TotalLength, Lengths;
    var r6 := Table(Lengths(r.pendingUpdates)) + (r.snapshot + (Flatten(r.pendingUpdates) + r.digest));
    var r5 := BigEndian(|r.pendingUpdates|, 4) + r6;
    var r4 := BigEndian(|r.snapshot|, 8) + r5;
    var r3 := BigEndian(r.sourceDeltaEndOffset, 8) + r4;
    var r2 := BigEndian(r.sourceDeltaGeneration, 8) + r3;
    var r1 := BigEndian(r.checkpointGeneration, 8) + r2;
    Joined(s, 16, r.roomHash, r1);
    Joined(s, 48, BigEndian(r.checkpointGeneration, 8), r2);
    Joined(s, 56, BigEndian(r.sourceDeltaGeneration, 8), r3);
    Joined(s, 64, BigEndian(r.sourceDeltaEndOffset, 8), r4);
    Joined(s, 72, BigEndian(|r.snapshot|, 8), r5);
    Joined(s, 80, BigEndian(|r.pendingUpdates|, 4), r6);
    Laid8(s, 48, r.checkpointGeneration);
    Laid8(s, 56, r.sourceDeltaGeneration);
    Laid8(s, 64, r.sourceDeltaEndOffset);
    Laid8(s, 72, |r.snapshot|);
    Laid4(s, 80, |r.pendingUpdates|);
    BlobsLaid(s, 84, r.snapshot, r.pendingUpdates, r.digest);
  }

  /** The encoder writes exactly the bytes laid out above. */
  lemma WireIff(h: Platform, s: seq<byte>, r: CheckpointRecord)
    requires Narrowed(r)
    ensures s == Wire(h, r) <==> RecordAt(h, s, r)
  {
    hide Enveloped, PayloadAt, Sealed, Payload, BytesAt;
    WireLength(h, r);
    BeforeAll(r.pendingUpdates);
    if |s| == RecordLength(r) {
      SealedIff(h, MAGIC, Payload(r), s);
      PayloadLaid(s, r);
    }
  }

  lemma SizedNarrowed(r: CheckpointRecord, l: CheckpointLimits)
    requires Sized(r, l)
    ensures Narrowed(r)
  {
  }

  /** What the encoder returns is the layout of the record. */
  lemma EncodedLaidOut(h: Platform, r: CheckpointRecord, l: CheckpointLimits)
    ensures Encoded(h, r, l).Success? <==> Fits(h, r, l)
    ensures Encoded(h, r, l).Success? ==> RecordAt(h, Encoded(h, r, l).value, r)
  {
    hide Encoded, Wire, RecordAt, Sized, Narrowed, CheckpointDigest;
    EncodedIffFits(h, r, l);
    if Fits(h, r, l) {
      SizedNarrowed(r, l);
      WireIff(h, Wire(h, r), r);
    }
  }

  /** Decoding gives a record exactly if the whole input is that record's layout and the record fits. */
  lemma DecodedIff(h: Platform, input: seq<byte>, r: CheckpointRecord, l: CheckpointLimits)
    ensures Decoded(h, input, l) == Success(r) <==> RecordAt(h, input, r) && Fits(h, r, l)
  {
    hide Decoded, Encoded, Wire, RecordAt, Sized, Narrowed, CheckpointDigest;
    if Decoded(h, input, l) == Success(r) {
      CheckpointCanonical(h, input, l);
      EncodedIffFits(h, r, l);
      SizedNarrowed(r, l);
      WireIff(h, input, r);
    }
    if RecordAt(h, input, r) && Fits(h, r, l) {
      SizedNarrowed(r, l);
      WireIff(h, input, r);
      EncodedIffFits(h, r, l);
      CheckpointRoundTrip(h, r, l);
    }
  }

  /** The answer is a record exactly if the whole input is its layout and the record fits; then it is that record. */
  ghost predicate ReadsRecord(h: Platform, input: seq<byte>, l: CheckpointLimits, r: Result<CheckpointRecord, CheckpointError>) {
    forall c :: r == Success(c) <==> RecordAt(h, input, c) && Fits(h, c, l)
  }

  lemma DecodedReads(h: Platform, input: seq<byte>, l: CheckpointLimits)
    ensures ReadsRecord(h, input, l, Decoded(h, input, l))
  {
    hide Decoded, RecordAt, Fits;
    forall c ensures Decoded(h, input, l) == Success(c) <==> RecordAt(h, input, c) && Fits(h, c, l) {
      DecodedIff(h, input, c, l);
    }
  }

  /** What is refused, in the order of the checks, told from the bytes at fixed offsets alone. */
  lemma RefusedByEnvelope(h: Platform, input: seq<byte>, version: nat, flags: nat, total: nat, l: CheckpointLimits)
    requires |input| >= 128 ==> U16At(input, 4, version) && U16At(input, 6, flags) && U64At(input, 8, total)
    ensures var r := Decoded(h, input, l);
            if |input| < 128 then r == Failure(Truncated)
            else if input[..4] != [0x51, 0x4C, 0x47, 0x43] then r == Failure(Invalid("bad checkpoint magic"))
            else if version != 1 then r == Failure(UnsupportedVersion(version))
            else if flags != 0 then r == Failure(Invalid("unsupported checkpoint flags"))
            else if total < 128 then r == Failure(Truncated)
            else if total > l.maxRecordBytes then r == Failure(LimitExceeded("checkpoint record bytes", total, l.maxRecordBytes))
            else if |input| < total then r == Failure(Truncated)
            else if |input| > total then r == Failure(Invalid("trailing bytes after checkpoint record"))
            else if !U64At(input, total - 8, total) then r == Failure(Invalid("checkpoint length trailer mismatch"))
            else !U32At(input, total - 12, h.crc32(input[..total - 12])) ==> r == Failure(ChecksumMismatch)
  {
    hide BigEndian, Value, U16At, U32At, U64At, ParsedPayload;
    if |input| >= 128 {
      At2(input, 4, version);
      At2(input, 6, flags);
      At8(input, 8, total);
      if 128 <= total == |input| {
        At8(input, total - 8, total);
        At4(input, total - 12, h.crc32(input[..total - 12]));
        assert input[total - 8..total] == input[total - 8..];
      }
    }
  }

  /** A record laid out well within the limits is refused exactly for a false digest. */
  lemma RefusedByDigest(h: Platform, input: seq<byte>, r: CheckpointRecord, l: CheckpointLimits)
    requires RecordAt(h, input, r) && Sized(r, l)
    ensures r.digest != CheckpointDigest(h, r.snapshot, r.pendingUpdates) ==> Decoded(h, input, l) == Failure(DigestMismatch)
  {
    hide Decoded, Wire, RecordAt, Sized, Narrowed, CheckpointDigest;
    SizedNarrowed(r, l);
    WireIff(h, input, r);
    WireThenJudged(h, r, l);
  }
}
