/** The manifest codec as the gateway runs it. */
module ManifestCodec {
  import opened Wrappers
  import opened Bytes
  import opened Envelope
  import opened Manifest
  import opened ManifestLayout

  method EncodeWithLimits(h: Platform, m: ManifestRecord, l: ManifestLimits) returns (r: Result<seq<byte>, ManifestError>)
    ensures r == EncodedManifest(h, m, l)
    ensures r.Success? <==> 188 <= l.maxRecordBytes && Sensible(m) && m.digest == ManifestDigest(h, m)
    ensures r.Success? ==> ManifestAt(h, r.value, m)
  {
    hide BigEndian, ManifestDigest, ManifestPayload, ManifestAt, Sensible;
    ManifestEncodedIff(h, m, l);
    var _ :- EnforceManifest("manifest record bytes", FIXED_RECORD_BYTES, l.maxRecordBytes);
    var _ :- FieldsChecked(m);
    if m.digest != ManifestDigest(h, m) { return Failure(ManifestDigestMismatch); }
    var output: seq<byte> := MANIFEST_MAGIC;
    output := output + BigEndian(VERSION, 2);
    output := output + BigEndian(0, 2);
    output := output + BigEndian(FIXED_RECORD_BYTES, 8);
    var payload := WriteFields(m);
    output := output + payload;
    assert PREFIX + |payload| + SUFFIX == FIXED_RECORD_BYTES;
    assert output == Checksummed(MANIFEST_MAGIC, payload);
    var crc := h.crc32(output);
    ghost var body := output;
    output := output + BigEndian(crc, 4);
    output := output + BigEndian(FIXED_RECORD_BYTES, 8);
    assert output == body + (BigEndian(crc, 4) + BigEndian(FIXED_RECORD_BYTES, 8));
    r := Success(output);
  }

  method WriteFields(m: ManifestRecord) returns (output: seq<byte>)
    ensures output == ManifestPayload(m)
  {
    hide BigEndian;
    output := m.roomHash;
    output := output + BigEndian(m.revision, 8);
    output := output + m.previousRecordDigest;
    output := output + BigEndian(m.checkpointGeneration, 8);
    output := output + BigEndian(m.checkpointStreamEndOffset, 8);
    output := output + m.checkpointRecordDigest;
    output := output + BigEndian(m.activeDeltaGeneration, 8);
    output := output + m.digest;
  }

  method DecodeOne(h: Platform, input: seq<byte>, l: ManifestLimits) returns (r: Result<(ManifestRecord, nat), ManifestError>)
    ensures r == match DecodedManifest(h, input, l)
                 case Success(m) => Success((m, FIXED_RECORD_BYTES))
                 case Failure(e) => Failure(e)
    ensures r.Success? ==> r.value.1 <= |input|
    ensures r.Success? ==> r.value.1 == 188
    ensures ReadsManifest(h, input, l, r)
  {
    hide Value, BigEndian, ManifestDigest, ParsedManifest, ManifestAt, Sensible, ReadsManifest;
    DecodedReads(h, input, l);
    var _ :- EnforceManifest("manifest record bytes", FIXED_RECORD_BYTES, l.maxRecordBytes);
    if |input| < FIXED_RECORD_BYTES { return Failure(ManifestTruncated); }
    if input[..4] != MANIFEST_MAGIC { return Failure(InvalidManifest("bad manifest magic")); }
    var cursor := 4;
    var version := Value(input[cursor..cursor + 2]);
    cursor := cursor + 2;
    if version != VERSION { return Failure(UnsupportedManifestVersion(version)); }
    var flags := Value(input[cursor..cursor + 2]);
    cursor := cursor + 2;
    if flags != 0 { return Failure(InvalidManifest("unsupported manifest flags")); }
    var total := Value(input[cursor..cursor + 8]);
    cursor := cursor + 8;
    if total != FIXED_RECORD_BYTES { return Failure(InvalidManifest("manifest record length mismatch")); }
    var frame := input[..total];
    assert frame[total - 8..] == input[total - 8..total];
    if Value(frame[total - 8..]) != total { return Failure(InvalidManifest("manifest length trailer mismatch")); }
    var crcStart := total - 12;
    assert frame[crcStart..crcStart + 4] == input[total - 12..total - 8] && frame[..crcStart] == input[..total - 12];
    if h.crc32(frame[..crcStart]) != Value(frame[crcStart..crcStart + 4]) { return Failure(ManifestChecksumMismatch); }
    var m := ReadFields(frame, cursor);
    assert frame[cursor..cursor + 160] == input[PREFIX..total - SUFFIX];
    var _ :- FieldsChecked(m);
    if m.digest != ManifestDigest(h, m) { return Failure(ManifestDigestMismatch); }
    r := Success((m, total));
  }

  /** Reads the fixed fields by moving the cursor over them. */
  method ReadFields(frame: seq<byte>, start: nat) returns (m: ManifestRecord)
    requires start + 160 <= |frame|
    ensures ParsedManifest(frame[start..start + 160]) == Success(m)
  {
    hide Value, BigEndian, Span;
    SpanValues();
    ghost var end := start + 160;
    var cursor := start;
    var roomHash := frame[cursor..cursor + 32];
    Advance(frame, cursor, 32, end);
    cursor := cursor + 32;
    var revision := Value(frame[cursor..cursor + 8]);
    Advance(frame, cursor, 8, end);
    cursor := cursor + 8;
    var previous := frame[cursor..cursor + 32];
    Advance(frame, cursor, 32, end);
    cursor := cursor + 32;
    var checkpointGeneration := Value(frame[cursor..cursor + 8]);
    Advance(frame, cursor, 8, end);
    cursor := cursor + 8;
    var endOffset := Value(frame[cursor..cursor + 8]);
    Advance(frame, cursor, 8, end);
    cursor := cursor + 8;
    var checkpointDigest := frame[cursor..cursor + 32];
    Advance(frame, cursor, 32, end);
    cursor := cursor + 32;
    var active := Value(frame[cursor..cursor + 8]);
    Advance(frame, cursor, 8, end);
    cursor := cursor + 8;
    var digest := frame[cursor..cursor + 32];
    Advance(frame, cursor, 32, end);
    m := ManifestRecord(roomHash, revision, previous, checkpointGeneration, endOffset, checkpointDigest, active, digest);
  }

  lemma Advance(frame: seq<byte>, cursor: nat, width: nat, end: nat)
    requires cursor + width <= end <= |frame|
    ensures frame[cursor..end][..width] == frame[cursor..cursor + width]
    ensures frame[cursor..end][width..] == frame[cursor + width..end]
    ensures Value(frame[cursor..cursor + width]) < Span(width)
  {
    BigEndianOfValue(frame[cursor..cursor + width]);
  }

  method DecodeManifestStream(h: Platform, stream: seq<byte>, l: ManifestLimits)
    returns (r: Result<seq<ManifestRecord>, ManifestError>)
    ensures r == DecodedManifestStream(h, stream, l)
    ensures ReadsRecords(h, stream, l, r)
  {
    hide DecodedManifest, ReadsManifest, ReadsRecords;
    StreamReads(h, stream, l);
    var _ :- EnforceManifest("manifest stream bytes", |stream|, l.maxStreamBytes);
    var input := stream;
    var records: seq<ManifestRecord> := [];
    assert forall more: seq<ManifestRecord> :: [] + more == more;
    while input != []
      invariant DecodedRecords(h, stream, 0, l)
             == match DecodedRecords(h, input, |records|, l)
                case Failure(e) => Failure(e)
                case Success(more) => Success(records + more)
      decreases |input|
    {
      var _ :- EnforceManifest("manifest record count", |records| + 1, l.maxRecords);
      var one := DecodeOne(h, input, l);
      if one.Failure? { return Failure(one.error); }
      ghost var before := records;
      records := records + [one.value.0];
      assert forall more: seq<ManifestRecord> :: before + ([one.value.0] + more) == records + more;
      assert |input| >= one.value.1;
      input := input[one.value.1..];
    }
    assert records + [] == records;
    r := Success(records);
  }
}
