/** The bytes of a manifest record, offset by offset. */
module ManifestLayout {
  import opened Wrappers
  import opened Bytes
  import opened Envelope
  import opened Layout
  import opened Manifest
  import opened ManifestTheorems

  /** Room, revision, predecessor, checkpoint generation, end offset and digest, active generation, digest. */
  predicate ManifestAt(h: Platform, s: seq<byte>, r: ManifestRecord) {
    && |s| == 188
    && Enveloped(h, s, [0x51, 0x4C, 0x47, 0x4D])
    && BytesAt(s, 16, r.roomHash)
    && U64At(s, 48, r.revision)
    && BytesAt(s, 56, r.previousRecordDigest)
    && U64At(s, 88, r.checkpointGeneration)
    && U64At(s, 96, r.checkpointStreamEndOffset)
    && BytesAt(s, 104, r.checkpointRecordDigest)
    && U64At(s, 136, r.activeDeltaGeneration)
    && BytesAt(s, 144, r.digest)
  }

  lemma WireIff(h: Platform, s: seq<byte>, r: ManifestRecord)
    ensures s == ManifestWire(h, r) <==> ManifestAt(h, s, r)
  {
    hide BigEndian, U64At, BytesAt, Enveloped, Sealed;
    if |s| == 188 {
      SealedIff(h, MANIFEST_MAGIC, ManifestPayload(r), s);
      var r6 := BigEndian(r.activeDeltaGeneration, 8) + r.digest;
      var r5 := r.checkpointRecordDigest + r6;
      var r4 := BigEndian(r.checkpointStreamEndOffset, 8) + r5;
      var r3 := BigEndian(r.checkpointGeneration, 8) + r4;
      var r2 := r.previousRecordDigest + r3;
      var r1 := BigEndian(r.revision, 8) + r2;
      Joined(s, 16, r.roomHash, r1);
      Joined(s, 48, BigEndian(r.revision, 8), r2);
      Joined(s, 56, r.previousRecordDigest, r3);
      Joined(s, 88, BigEndian(r.checkpointGeneration, 8), r4);
      Joined(s, 96, BigEndian(r.checkpointStreamEndOffset, 8), r5);
      Joined(s, 104, r.checkpointRecordDigest, r6);
      Joined(s, 136, BigEndian(r.activeDeltaGeneration, 8), r.digest);
      Laid8(s, 48, r.revision);
      Laid8(s, 88, r.checkpointGeneration);
      Laid8(s, 96, r.checkpointStreamEndOffset);
      Laid8(s, 136, r.activeDeltaGeneration);
    }
  }

  /** Thirty-two zero bytes stand for "no predecessor". */
  function Zeros(): seq<byte> {
    seq(32, _ => 0)
  }

  lemma ZerosIsGenesis()
    ensures Zeros() == GENESIS_DIGEST
  {
  }

  /** What a record must say to be written or read: consecutive generations, a predecessor unless it is the first. */
  predicate Sensible(r: ManifestRecord) {
    && (r.revision == 0 <==> r.previousRecordDigest == Zeros())
    && r.activeDeltaGeneration == r.checkpointGeneration + 1 < TWO_64
    && r.checkpointStreamEndOffset > 0
  }

  lemma SensibleIff(r: ManifestRecord)
    ensures FieldsChecked(r).Success? <==> Sensible(r)
  {
    ZerosIsGenesis();
  }

  /** The encoder accepts exactly the sensible records with the right digest. */
  lemma ManifestEncodedIff(h: Platform, r: ManifestRecord, l: ManifestLimits)
    ensures EncodedManifest(h, r, l).Success? <==>
            188 <= l.maxRecordBytes && Sensible(r) && r.digest == ManifestDigest(h, r)
    ensures EncodedManifest(h, r, l).Success? ==> ManifestAt(h, EncodedManifest(h, r, l).value, r)
  {
    hide ManifestWire, ManifestDigest, FieldsChecked, Sensible, ManifestAt;
    SensibleIff(r);
    WireIff(h, ManifestWire(h, r), r);
  }

  /** Decoding gives a record exactly if its layout comes first, the record is sensible and its digest is right. */
  lemma ManifestDecodedIff(h: Platform, input: seq<byte>, r: ManifestRecord, l: ManifestLimits)
    ensures DecodedManifest(h, input, l) == Success(r) <==>
            && 188 <= |input| && ManifestAt(h, input[..188], r)
            && 188 <= l.maxRecordBytes && Sensible(r) && r.digest == ManifestDigest(h, r)
  {
    hide DecodedManifest, EncodedManifest, ManifestAt, ManifestDigest, Sensible;
    ManifestEncodedIff(h, r, l);
    if DecodedManifest(h, input, l) == Success(r) {
      ManifestCanonical(h, input, l);
    }
    if 188 <= |input| && ManifestAt(h, input[..188], r) && EncodedManifest(h, r, l).Success? {
      WireIff(h, input[..188], r);
      WireIff(h, EncodedManifest(h, r, l).value, r);
      ManifestRoundTrip(h, r, l, input[188..]);
      assert input == input[..188] + input[188..];
    }
  }

  /** The answer is a record exactly if its layout comes first, it is sensible and its digest is right. */
  ghost predicate ReadsManifest(h: Platform, input: seq<byte>, l: ManifestLimits, r: Result<(ManifestRecord, nat), ManifestError>) {
    forall m :: r == Success((m, 188)) <==>
      && 188 <= |input| && ManifestAt(h, input[..188], m)
      && 188 <= l.maxRecordBytes && Sensible(m) && m.digest == ManifestDigest(h, m)
  }

  lemma DecodedReads(h: Platform, input: seq<byte>, l: ManifestLimits)
    ensures ReadsManifest(h, input, l,
              match DecodedManifest(h, input, l) case Success(m) => Success((m, 188)) case Failure(e) => Failure(e))
  {
    hide DecodedManifest, ManifestAt, Sensible, ManifestDigest;
    forall m
      ensures DecodedManifest(h, input, l) == Success(m) <==>
              && 188 <= |input| && ManifestAt(h, input[..188], m)
              && 188 <= l.maxRecordBytes && Sensible(m) && m.digest == ManifestDigest(h, m)
    {
      ManifestDecodedIff(h, input, m, l);
    }
  }

  /** What is refused, in the order of the checks, told from the bytes at fixed offsets alone. */
  lemma RefusedByEnvelope(h: Platform, input: seq<byte>, version: nat, flags: nat, total: nat, l: ManifestLimits)
    requires 188 <= |input| ==> U16At(input, 4, version) && U16At(input, 6, flags) && U64At(input, 8, total)
    ensures var r := DecodedManifest(h, input, l);
            if 188 > l.maxRecordBytes then r == Failure(ManifestLimitExceeded("manifest record bytes", 188, l.maxRecordBytes))
            else if |input| < 188 then r == Failure(ManifestTruncated)
            else if input[..4] != [0x51, 0x4C, 0x47, 0x4D] then r == Failure(InvalidManifest("bad manifest magic"))
            else if version != 1 then r == Failure(UnsupportedManifestVersion(version))
            else if flags != 0 then r == Failure(InvalidManifest("unsupported manifest flags"))
            else if total != 188 then r == Failure(InvalidManifest("manifest record length mismatch"))
            else if !U64At(input, 180, 188) then r == Failure(InvalidManifest("manifest length trailer mismatch"))
            else !U32At(input, 176, h.crc32(input[..176])) ==> r == Failure(ManifestChecksumMismatch)
  {
    hide BigEndian, Value, U16At, U32At, U64At, ParsedManifest, FieldsChecked, ManifestDigest;
    if |input| >= 188 {
      At2(input, 4, version);
      At2(input, 6, flags);
      At8(input, 8, total);
      At8(input, 180, 188);
      At4(input, 176, h.crc32(input[..176]));
    }
  }

  /** A well laid out record is refused exactly for fields that make no sense or a false digest. */
  lemma RefusedByContent(h: Platform, input: seq<byte>, r: ManifestRecord, l: ManifestLimits)
    requires 188 <= |input| && 188 <= l.maxRecordBytes && ManifestAt(h, input[..188], r)
    ensures !Sensible(r) ==> DecodedManifest(h, input, l).Failure? && DecodedManifest(h, input, l).error.InvalidManifest?
    ensures Sensible(r) && r.digest != ManifestDigest(h, r) ==> DecodedManifest(h, input, l) == Failure(ManifestDigestMismatch)
  {
    hide BigEndian, Value, ParsedManifest, ManifestPayload, Sealed, Checksummed, ManifestDigest, ManifestAt;
    WireIff(h, input[..188], r);
    SealedFields(h, MANIFEST_MAGIC, ManifestPayload(r), input[188..]);
    assert input == input[..188] + input[188..];
    PayloadRoundTrip(r);
    SensibleIff(r);
  }

  // ---------------------------------------------------------------- streams and chains

  /** Sensible records with the right digests, one every 188 bytes. */
  predicate RecordsAt(h: Platform, s: seq<byte>, records: seq<ManifestRecord>) {
    && |s| == 188 * |records|
    && forall i :: 0 <= i < |records| ==>
         ManifestAt(h, s[188 * i..188 * i + 188], records[i]) && Sensible(records[i]) && records[i].digest == ManifestDigest(h, records[i])
  }

  lemma RecordsRest(h: Platform, s: seq<byte>, records: seq<ManifestRecord>)
    requires records != [] && |s| >= 188
    ensures RecordsAt(h, s, records) <==>
            && ManifestAt(h, s[..188], records[0]) && Sensible(records[0]) && records[0].digest == ManifestDigest(h, records[0])
            && RecordsAt(h, s[188..], records[1..])
  {
    hide ManifestAt, Sensible, ManifestDigest;
    var t, rest := s[188..], records[1..];
    forall i | 0 <= i < |rest| && 188 * i + 188 <= |t| ensures t[188 * i..188 * i + 188] == s[188 * (i + 1)..188 * (i + 1) + 188] {
    }
    if RecordsAt(h, s, records) {
      assert s[188 * 0..188 * 0 + 188] == s[..188];
      forall i | 0 <= i < |rest|
        ensures ManifestAt(h, t[188 * i..188 * i + 188], rest[i]) && Sensible(rest[i]) && rest[i].digest == ManifestDigest(h, rest[i])
      {
        assert rest[i] == records[i + 1];
      }
    }
    if RecordsAt(h, t, rest) && ManifestAt(h, s[..188], records[0]) && Sensible(records[0]) && records[0].digest == ManifestDigest(h, records[0]) {
      forall i | 0 <= i < |records|
        ensures ManifestAt(h, s[188 * i..188 * i + 188], records[i]) && Sensible(records[i]) && records[i].digest == ManifestDigest(h, records[i])
      {
        if i > 0 {
          assert rest[i - 1] == records[i] && t[188 * (i - 1)..188 * (i - 1) + 188] == s[188 * i..188 * i + 188];
        } else {
          assert s[188 * 0..188 * 0 + 188] == s[..188];
        }
      }
    }
  }

  lemma {:induction false} DecodedRecordsIff(h: Platform, input: seq<byte>, count: nat, records: seq<ManifestRecord>, l: ManifestLimits)
    requires 188 <= l.maxRecordBytes
    ensures DecodedRecords(h, input, count, l) == Success(records) <==>
            RecordsAt(h, input, records) && (records != [] ==> count + |records| <= l.maxRecords)
    decreases |input|
  {
    hide DecodedManifest, ManifestAt, Sensible, ManifestDigest, RecordsAt;
    NoRecordsAt(h, input, records);
    if |input| >= 188 && records != [] {
      RecordsRest(h, input, records);
      ManifestDecodedIff(h, input, records[0], l);
      DecodedRecordsIff(h, input[188..], count + 1, records[1..], l);
      assert [records[0]] + records[1..] == records;
      if DecodedManifest(h, input, l).Success? && DecodedRecords(h, input[188..], count + 1, l).Success? {
        var more := DecodedRecords(h, input[188..], count + 1, l).value;
        assert ([DecodedManifest(h, input, l).value] + more)[1..] == more;
      }
    } else if records != [] {
      TooShort(h, input, l);
    }
  }

  lemma NoRecordsAt(h: Platform, input: seq<byte>, records: seq<ManifestRecord>)
    ensures records == [] ==> (RecordsAt(h, input, records) <==> input == [])
    ensures RecordsAt(h, input, records) && records != [] ==> |input| >= 188
  {
  }

  lemma TooShort(h: Platform, input: seq<byte>, l: ManifestLimits)
    ensures |input| < 188 ==> DecodedManifest(h, input, l).Failure?
  {
  }

  /** A stream decodes to exactly the sensible records that lie in it, one every 188 bytes, within the limits. */
  lemma ManifestStreamIff(h: Platform, input: seq<byte>, records: seq<ManifestRecord>, l: ManifestLimits)
    requires 188 <= l.maxRecordBytes
    ensures DecodedManifestStream(h, input, l) == Success(records) <==>
            |input| <= l.maxStreamBytes && |records| <= l.maxRecords && RecordsAt(h, input, records)
  {
    hide DecodedRecords, RecordsAt;
    DecodedRecordsIff(h, input, 0, records, l);
  }

  /** The answer is a sequence of records exactly if the stream is within the limits and consists of them; then it is that one. */
  ghost predicate ReadsRecords(h: Platform, stream: seq<byte>, l: ManifestLimits, r: Result<seq<ManifestRecord>, ManifestError>) {
    188 <= l.maxRecordBytes ==>
      forall records :: r == Success(records) <==>
        |stream| <= l.maxStreamBytes && |records| <= l.maxRecords && RecordsAt(h, stream, records)
  }

  lemma StreamReads(h: Platform, stream: seq<byte>, l: ManifestLimits)
    ensures ReadsRecords(h, stream, l, DecodedManifestStream(h, stream, l))
  {
    hide DecodedManifestStream, RecordsAt;
    if 188 <= l.maxRecordBytes {
      forall records ensures DecodedManifestStream(h, stream, l) == Success(records) <==>
                             |stream| <= l.maxStreamBytes && |records| <= l.maxRecords && RecordsAt(h, stream, records) {
        ManifestStreamIff(h, stream, records, l);
      }
    }
  }

  /** The room's own records, numbered from zero, each naming its predecessor's digest, generations rising. */
  predicate Linked(h: Platform, records: seq<ManifestRecord>, room: seq<byte>) {
    forall i :: 0 <= i < |records| ==> LinkedAt(h, records, room, i)
  }

  predicate LinkedAt(h: Platform, records: seq<ManifestRecord>, room: seq<byte>, i: nat)
    requires i < |records|
  {
    && records[i].roomHash == h.sha256(room)
    && records[i].revision == i
    && records[i].previousRecordDigest == (if i == 0 then Zeros() else records[i - 1].digest)
    && (i > 0 ==> records[i].checkpointGeneration > records[i - 1].checkpointGeneration
                  && records[i].activeDeltaGeneration > records[i - 1].activeDeltaGeneration)
  }

  /** The chain check accepts exactly these, and returns the last. */
  lemma ChainIff(h: Platform, records: seq<ManifestRecord>, room: seq<byte>)
    ensures ValidatedChain(h, records, room).Success? <==> records != [] && Linked(h, records, room)
    ensures ValidatedChain(h, records, room).Success? ==> ValidatedChain(h, records, room).value == records[|records| - 1]
  {
    hide LinksChecked, Zeros;
    LinksIff(h, records, room);
    ZerosIsGenesis();
    if ValidatedChain(h, records, room).Success? {
      forall i: nat | i < |records| ensures LinkedAt(h, records, room, i) {
        ChainRevisions(h, records, room, i);
        if i > 0 { assert LinkChecked(h, records[i - 1], records[i], room).Success?; }
      }
    }
    if records != [] && Linked(h, records, room) {
      assert LinkedAt(h, records, room, 0);
      forall i | 0 < i < |records| ensures LinkChecked(h, records[i - 1], records[i], room).Success? {
        assert LinkedAt(h, records, room, i - 1) && LinkedAt(h, records, room, i);
      }
    }
  }
}
