/** The checkpoint codec as the gateway runs it. */
module CheckpointCodec {
  import opened Wrappers
  import opened Bytes
  import opened Envelope
  import opened Checkpoint
  import opened Buffers
  import opened CheckpointLayout

  method EncodeWithLimits(h: Platform, c: CheckpointRecord, l: CheckpointLimits) returns (r: Result<seq<byte>, CheckpointError>)
    ensures r == Encoded(h, c, l)
    ensures r.Success? <==> Fits(h, c, l)
    ensures r.Success? ==> RecordAt(h, r.value, c)
  {
    hide Wire, BigEndian, Table, Flatten, Lengths, CheckpointDigest, RecordAt, Fits;
    EncodedLaidOut(h, c, l);
    if c.snapshot == [] { return Failure(Invalid("checkpoint snapshot is empty")); }
    var _ :- Enforce("checkpoint snapshot bytes", |c.snapshot|, l.maxSnapshotBytes);
    var _ :- Enforce("pending update count", |c.pendingUpdates|, l.maxPendingUpdates);
    if |c.pendingUpdates| >= TWO_32 { return Failure(Invalid("too many pending updates")); }
    var lengths: seq<nat> := [];
    for i := 0 to |c.pendingUpdates|
      invariant |lengths| == i && forall j :: 0 <= j < i ==> lengths[j] == |c.pendingUpdates[j]|
      invariant PendingChecked(c.pendingUpdates, l) == PendingChecked(c.pendingUpdates[i..], l)
    {
      assert c.pendingUpdates[i..][1..] == c.pendingUpdates[i + 1..];
      var length := |c.pendingUpdates[i]|;
      if length == 0 { return Failure(Invalid("pending update is empty")); }
      var _ :- Enforce("individual pending update bytes", length, l.maxPendingUpdateBytes);
      if length >= TWO_32 { return Failure(Invalid("pending update is too large")); }
      lengths := lengths + [length];
    }
    assert lengths == Lengths(c.pendingUpdates);
    var pendingLength: nat := 0;
    for i := 0 to |c.pendingUpdates|
      invariant pendingLength + TotalLength(c.pendingUpdates[i..]) == TotalLength(c.pendingUpdates)
      invariant PendingTotal(c.pendingUpdates, 0, l) == PendingTotal(c.pendingUpdates[i..], pendingLength, l)
    {
      assert c.pendingUpdates[i..][1..] == c.pendingUpdates[i + 1..];
      if pendingLength + |c.pendingUpdates[i]| >= TWO_64 { return Failure(LengthOverflow); }
      pendingLength := pendingLength + |c.pendingUpdates[i]|;
      var _ :- Enforce("aggregate pending update bytes", pendingLength, l.maxPendingUpdatesBytes);
    }
    var total := FIXED_HEADER + 4 * |lengths| + |c.snapshot| + pendingLength + FIXED_SUFFIX;
    if total >= TWO_64 { return Failure(LengthOverflow); }
    var _ :- Enforce("checkpoint record bytes", total, l.maxRecordBytes);
    if c.digest != CheckpointDigest(h, c.snapshot, c.pendingUpdates) { return Failure(DigestMismatch); }
    var output := WriteRecord(h, c, lengths, total);
    r := Success(output);
  }

  method WriteRecord(h: Platform, c: CheckpointRecord, lengths: seq<nat>, total: nat) returns (output: seq<byte>)
    requires lengths == Lengths(c.pendingUpdates) && total == RecordLength(c)
    ensures output == Wire(h, c)
  {
    hide BigEndian, Table, Flatten;
    output := MAGIC;
    output := output + BigEndian(VERSION, 2);
    output := output + BigEndian(0, 2);
    output := output + BigEndian(total, 8);
    var payload := WritePayload(c, lengths);
    output := output + payload;
    FlattenFacts(c.pendingUpdates);
    assert PREFIX + |payload| + SUFFIX == total;
    assert output == Checksummed(MAGIC, payload);
    var crc := h.crc32(output);
    output := output + BigEndian(crc, 4);
    output := output + BigEndian(total, 8);
  }

  method WritePayload(c: CheckpointRecord, lengths: seq<nat>) returns (output: seq<byte>)
    requires lengths == Lengths(c.pendingUpdates)
    ensures output == Payload(c)
  {
    hide BigEndian, Table, Flatten;
    output := c.roomHash;
    output := output + BigEndian(c.checkpointGeneration, 8);
    output := output + BigEndian(c.sourceDeltaGeneration, 8);
    output := output + BigEndian(c.sourceDeltaEndOffset, 8);
    output := output + BigEndian(|c.snapshot|, 8);
    output := output + BigEndian(|c.pendingUpdates|, 4);
    output := AppendTable(output, lengths);
    output := output + c.snapshot;
    output := AppendChunks(output, c.pendingUpdates);
    output := output + c.digest;
  }

  method DecodeExact(h: Platform, input: seq<byte>, l: CheckpointLimits) returns (r: Result<CheckpointRecord, CheckpointError>)
    ensures r == Decoded(h, input, l)
    ensures ReadsRecord(h, input, l, r)
  {
    hide ParsedPayload, Value, ReadsRecord;
    DecodedReads(h, input, l);
    if |input| < FIXED_HEADER + FIXED_SUFFIX { return Failure(Truncated); }
    if input[..4] != MAGIC { return Failure(Invalid("bad checkpoint magic")); }
    var cursor := 4;
    var version := Value(input[cursor..cursor + 2]);
    cursor := cursor + 2;
    if version != VERSION { return Failure(UnsupportedVersion(version)); }
    var flags := Value(input[cursor..cursor + 2]);
    cursor := cursor + 2;
    if flags != 0 { return Failure(Invalid("unsupported checkpoint flags")); }
    var total := Value(input[cursor..cursor + 8]);
    cursor := cursor + 8;
    if total < FIXED_HEADER + FIXED_SUFFIX { return Failure(Truncated); }
    var _ :- Enforce("checkpoint record bytes", total, l.maxRecordBytes);
    if |input| < total { return Failure(Truncated); }
    if |input| != total { return Failure(Invalid("trailing bytes after checkpoint record")); }
    if Value(input[total - 8..]) != total { return Failure(Invalid("checkpoint length trailer mismatch")); }
    var crcStart := total - 12;
    var expected := Value(input[crcStart..crcStart + 4]);
    if h.crc32(input[..crcStart]) != expected { return Failure(ChecksumMismatch); }
    r := DecodePayload(h, input, cursor, l);
  }

  method DecodePayload(h: Platform, input: seq<byte>, start: nat, l: CheckpointLimits)
    returns (r: Result<CheckpointRecord, CheckpointError>)
    requires start + 68 + FIXED_SUFFIX <= |input|
    ensures r == ParsedPayload(h, input[start..], l)
  {
    hide Value, BigEndian, ParsedBlobs, CheckpointDigest, Span;
    SpanValues();
    var cursor := start;
    var roomHash := input[cursor..cursor + 32];
    Advance(input, cursor, 32);
    cursor := cursor + 32;
    var checkpointGeneration := Value(input[cursor..cursor + 8]);
    Advance(input, cursor, 8);
    cursor := cursor + 8;
    var sourceDeltaGeneration := Value(input[cursor..cursor + 8]);
    Advance(input, cursor, 8);
    cursor := cursor + 8;
    var sourceDeltaEndOffset := Value(input[cursor..cursor + 8]);
    Advance(input, cursor, 8);
    cursor := cursor + 8;
    var snapshotLength := Value(input[cursor..cursor + 8]);
    Advance(input, cursor, 8);
    cursor := cursor + 8;
    var _ :- Enforce("checkpoint snapshot bytes", snapshotLength, l.maxSnapshotBytes);
    if snapshotLength == 0 { return Failure(Invalid("checkpoint snapshot is empty")); }
    var count := Value(input[cursor..cursor + 4]);
    Advance(input, cursor, 4);
    cursor := cursor + 4;
    var _ :- Enforce("pending update count", count, l.maxPendingUpdates);
    var head := CheckpointRecord(roomHash, checkpointGeneration, sourceDeltaGeneration, sourceDeltaEndOffset, [], [], roomHash);
    r := DecodeBlobs(h, head, snapshotLength, count, input, cursor, l);
  }

  /** One field read at the cursor is one field taken off the unread rest. */
  lemma Advance(input: seq<byte>, cursor: nat, width: nat)
    requires cursor + width <= |input|
    ensures input[cursor..][..width] == input[cursor..cursor + width]
    ensures input[cursor..][width..] == input[cursor + width..]
    ensures Value(input[cursor..cursor + width]) < Span(width)
  {
    BigEndianOfValue(input[cursor..cursor + width]);
  }

  method DecodeBlobs(h: Platform, head: CheckpointRecord, snapshotLength: nat, count: nat, input: seq<byte>, start: nat, l: CheckpointLimits)
    returns (r: Result<CheckpointRecord, CheckpointError>)
    requires start + FIXED_SUFFIX <= |input|
    ensures r == ParsedBlobs(h, head, snapshotLength, count, input[start..], l)
  {
    hide Value, BigEndian, CheckpointDigest, ReadTable, Split, Sum;
    ghost var rest := input[start..];
    var cursor := start;
    var crcStart := |input| - 12;
    var digestStart := crcStart - 32;
    var read, pendingLength := ReadLengths(input, cursor, count, LengthCheck(l), Truncated);
    var lengths :- read;
    cursor := cursor + 4 * count;
    if digestStart < cursor { return Failure(Truncated); }
    ghost var payload := rest[4 * count..|rest| - FIXED_SUFFIX];
    assert payload == input[cursor..digestStart];
    if digestStart - cursor != snapshotLength + pendingLength {
      return Failure(Invalid("checkpoint lengths do not consume payload"));
    }
    var snapshot := input[cursor..cursor + snapshotLength];
    cursor := cursor + snapshotLength;
    assert payload[..snapshotLength] == snapshot && payload[snapshotLength..] == input[cursor..digestStart];
    var pending := CutChunks(input, cursor, digestStart, lengths);
    var digest := input[digestStart..crcStart];
    assert digest == rest[|rest| - FIXED_SUFFIX..|rest| - 12];
    if digest != CheckpointDigest(h, snapshot, pending) { return Failure(DigestMismatch); }
    r := Success(head.(snapshot := snapshot, pendingUpdates := pending, digest := digest));
  }
}
