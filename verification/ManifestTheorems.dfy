/** The manifest codec is a bijection, streams extend record by record, and the head digest fixes the chain. */
module ManifestTheorems {
  import opened Wrappers
  import opened Bytes
  import opened Envelope
  import opened Manifest

  lemma PayloadRoundTrip(r: ManifestRecord)
    ensures ParsedManifest(ManifestPayload(r)) == Success(r)
  {
    hide BigEndian, Value, Span;
    SpanValues();
    var r7 := r.digest + [];
    var r6 := BigEndian(r.activeDeltaGeneration, 8) + r7;
    var r5 := r.checkpointRecordDigest + r6;
    var r4 := BigEndian(r.checkpointStreamEndOffset, 8) + r5;
    var r3 := BigEndian(r.checkpointGeneration, 8) + r4;
    var r2 := r.previousRecordDigest + r3;
    var r1 := BigEndian(r.revision, 8) + r2;
    assert r7 == r.digest;
    TakePrefix(r.roomHash, r1, ManifestTruncated);
    TakeIntPrefix(r.revision, 8, r2, ManifestTruncated);
    TakePrefix(r.previousRecordDigest, r3, ManifestTruncated);
    TakeIntPrefix(r.checkpointGeneration, 8, r4, ManifestTruncated);
    TakeIntPrefix(r.checkpointStreamEndOffset, 8, r5, ManifestTruncated);
    TakePrefix(r.checkpointRecordDigest, r6, ManifestTruncated);
    TakeIntPrefix(r.activeDeltaGeneration, 8, r7, ManifestTruncated);
    TakePrefix(r.digest, [], ManifestTruncated);
  }

  lemma PayloadCanonical(s: seq<byte>)
    requires |s| == 160
    ensures ParsedManifest(s).Success? && ManifestPayload(ParsedManifest(s).value) == s
  {
    hide BigEndian, Value, Span, Take, TakeInt;
    var (f0, r1) := Take(s, 32, ManifestTruncated).value;
    var (f1, r2) := TakeInt(r1, 8, ManifestTruncated).value;
    var (f2, r3) := Take(r2, 32, ManifestTruncated).value;
    var (f3, r4) := TakeInt(r3, 8, ManifestTruncated).value;
    var (f4, r5) := TakeInt(r4, 8, ManifestTruncated).value;
    var (f5, r6) := Take(r5, 32, ManifestTruncated).value;
    var (f6, r7) := TakeInt(r6, 8, ManifestTruncated).value;
    var (f7, r8) := Take(r7, 32, ManifestTruncated).value;
    assert r8 == [] && r7 == f7;
  }

  /** Decoding inverts encoding, whatever bytes follow. */
  lemma ManifestRoundTrip(h: Platform, r: ManifestRecord, l: ManifestLimits, suffix: seq<byte>)
    requires EncodedManifest(h, r, l).Success?
    ensures DecodedManifest(h, EncodedManifest(h, r, l).value + suffix, l) == Success(r)
  {
    hide BigEndian, Value, ParsedManifest, ManifestPayload, Sealed, Checksummed, ManifestDigest;
    SealedFields(h, MANIFEST_MAGIC, ManifestPayload(r), suffix);
    PayloadRoundTrip(r);
  }

  /** Every accepted input starts with the encoding of the record it decodes to. */
  lemma ManifestCanonical(h: Platform, input: seq<byte>, l: ManifestLimits)
    requires DecodedManifest(h, input, l).Success?
    ensures |input| >= FIXED_RECORD_BYTES
    ensures EncodedManifest(h, DecodedManifest(h, input, l).value, l) == Success(input[..FIXED_RECORD_BYTES])
  {
    hide BigEndian, Value, ParsedManifest, ManifestPayload, Sealed, Checksummed, ManifestDigest;
    var n := FIXED_RECORD_BYTES;
    var record := input[..n];
    assert record[..4] == input[..4] && record[4..6] == input[4..6] && record[6..8] == input[6..8];
    assert record[8..16] == input[8..16] && record[n - 8..] == input[n - 8..n];
    assert record[n - 12..n - 8] == input[n - 12..n - 8] && record[..n - 12] == input[..n - 12];
    assert record[PREFIX..n - SUFFIX] == input[PREFIX..n - SUFFIX];
    Unsealed(h, MANIFEST_MAGIC, record);
    PayloadCanonical(record[PREFIX..n - SUFFIX]);
  }

  // ---------------------------------------------------------------- streams

  /** All records of a stream, whatever their number. */
  function Records(h: Platform, input: seq<byte>): Result<seq<ManifestRecord>, ManifestError>
    decreases |input|
  {
    if input == [] then Success([])
    else
      var r :- DecodedManifest(h, input, DEFAULT_MANIFEST_LIMITS);
      var records :- Records(h, input[FIXED_RECORD_BYTES..]);
      Success([r] + records)
  }

  /** The bounded reader returns those records, unless there are too many of them. */
  lemma {:induction false} BoundedRecords(h: Platform, input: seq<byte>, count: nat)
    requires Records(h, input).Success?
    ensures var l := DEFAULT_MANIFEST_LIMITS;
            var records := Records(h, input).value;
            && |input| == FIXED_RECORD_BYTES * |records|
            && (count + |records| <= l.maxRecords ==> DecodedRecords(h, input, count, l) == Success(records))
            && (count + |records| > l.maxRecords && records != [] ==>
                  DecodedRecords(h, input, count, l)
                  == Failure(ManifestLimitExceeded("manifest record count", if count > l.maxRecords then count + 1 else l.maxRecords + 1, l.maxRecords)))
    decreases |input|
  {
    hide DecodedManifest;
    if input != [] {
      var l := DEFAULT_MANIFEST_LIMITS;
      var r := DecodedManifest(h, input, l).value;
      ManifestCanonical(h, input, l);
      var rest := input[FIXED_RECORD_BYTES..];
      BoundedRecords(h, rest, count + 1);
      assert Records(h, input).value[1..] == Records(h, rest).value;
    }
  }

  lemma {:induction false} RecordsFromBounded(h: Platform, input: seq<byte>, count: nat)
    requires DecodedRecords(h, input, count, DEFAULT_MANIFEST_LIMITS).Success?
    ensures Records(h, input) == DecodedRecords(h, input, count, DEFAULT_MANIFEST_LIMITS)
    decreases |input|
  {
    hide DecodedManifest;
    if input != [] {
      ManifestCanonical(h, input, DEFAULT_MANIFEST_LIMITS);
      RecordsFromBounded(h, input[FIXED_RECORD_BYTES..], count + 1);
    }
  }

  /** Appending one encoded record to a decodable stream appends exactly that record. */
  lemma {:induction false} AppendRecord(h: Platform, input: seq<byte>, r: ManifestRecord)
    requires Records(h, input).Success?
    requires EncodedManifest(h, r, DEFAULT_MANIFEST_LIMITS).Success?
    ensures Records(h, input + EncodedManifest(h, r, DEFAULT_MANIFEST_LIMITS).value)
         == Success(Records(h, input).value + [r])
    decreases |input|
  {
    hide DecodedManifest, EncodedManifest;
    var l := DEFAULT_MANIFEST_LIMITS;
    var wire := EncodedManifest(h, r, l).value;
    if input == [] {
      ManifestRoundTrip(h, r, l, []);
      assert wire + [] == wire && input + wire == wire;
      WireSize(h, r);
      assert wire[FIXED_RECORD_BYTES..] == [];
      assert Records(h, wire).value == [r] + [] == [] + [r];
    } else {
      var first := DecodedManifest(h, input, l).value;
      ManifestCanonical(h, input, l);
      var head, rest := input[..FIXED_RECORD_BYTES], input[FIXED_RECORD_BYTES..];
      assert input + wire == head + (rest + wire);
      ManifestRoundTrip(h, first, l, rest + wire);
      assert (input + wire)[FIXED_RECORD_BYTES..] == rest + wire;
      AppendRecord(h, rest, r);
      assert [first] + (Records(h, rest).value + [r]) == [first] + Records(h, rest).value + [r];
    }
  }

  /** A stream of records ends with the encoding of the last one. */
  lemma {:induction false} EndsWithHead(h: Platform, input: seq<byte>)
    requires Records(h, input).Success? && Records(h, input).value != []
    ensures |input| >= FIXED_RECORD_BYTES
    ensures var records := Records(h, input).value;
            EncodedManifest(h, records[|records| - 1], DEFAULT_MANIFEST_LIMITS) == Success(input[|input| - FIXED_RECORD_BYTES..])
    decreases |input|
  {
    hide DecodedManifest, EncodedManifest;
    ManifestCanonical(h, input, DEFAULT_MANIFEST_LIMITS);
    var rest := input[FIXED_RECORD_BYTES..];
    var records := Records(h, input).value;
    assert records[1..] == Records(h, rest).value;
    if rest == [] {
      assert input[..FIXED_RECORD_BYTES] == input[|input| - FIXED_RECORD_BYTES..];
    } else {
      NonemptyRecords(h, rest);
      EndsWithHead(h, rest);
      assert rest[|rest| - FIXED_RECORD_BYTES..] == input[|input| - FIXED_RECORD_BYTES..];
    }
  }

  lemma NonemptyRecords(h: Platform, input: seq<byte>)
    requires Records(h, input).Success? && input != []
    ensures Records(h, input).value != []
  {
    hide DecodedManifest;
  }

  lemma WireSize(h: Platform, r: ManifestRecord)
    requires EncodedManifest(h, r, DEFAULT_MANIFEST_LIMITS).Success?
    ensures |EncodedManifest(h, r, DEFAULT_MANIFEST_LIMITS).value| == FIXED_RECORD_BYTES
  {
  }

  lemma {:induction false} RecordsChecked(h: Platform, input: seq<byte>)
    requires Records(h, input).Success?
    ensures forall i :: 0 <= i < |Records(h, input).value| ==>
              FieldsChecked(Records(h, input).value[i]).Success?
              && Records(h, input).value[i].digest == ManifestDigest(h, Records(h, input).value[i])
    decreases |input|
  {
    hide ManifestDigest, ParsedManifest, Value;
    if input != [] {
      ManifestCanonical(h, input, DEFAULT_MANIFEST_LIMITS);
      RecordsChecked(h, input[FIXED_RECORD_BYTES..]);
      var records := Records(h, input).value;
      assert records[1..] == Records(h, input[FIXED_RECORD_BYTES..]).value;
      forall i | 0 <= i < |records|
        ensures FieldsChecked(records[i]).Success? && records[i].digest == ManifestDigest(h, records[i])
      {
        if i > 0 { assert records[i] == records[1..][i - 1]; }
      }
    }
  }

  // ---------------------------------------------------------------- chain

  lemma {:induction false} LinksIff(h: Platform, records: seq<ManifestRecord>, room: seq<byte>)
    ensures LinksChecked(h, records, room).Success? <==>
            forall i :: 0 < i < |records| ==> LinkChecked(h, records[i - 1], records[i], room).Success?
  {
    hide LinkChecked;
    if |records| >= 2 {
      LinksIff(h, records[1..], room);
      if LinksChecked(h, records, room).Success? {
        forall i | 0 < i < |records| ensures LinkChecked(h, records[i - 1], records[i], room).Success? {
          if i > 1 { assert records[1..][i - 2] == records[i - 1] && records[1..][i - 1] == records[i]; }
        }
      }
      if forall i :: 0 < i < |records| ==> LinkChecked(h, records[i - 1], records[i], room).Success? {
        assert LinkChecked(h, records[1 - 1], records[1], room).Success?;
        forall i | 0 < i < |records[1..]| ensures LinkChecked(h, records[1..][i - 1], records[1..][i], room).Success? {
          assert LinkChecked(h, records[(i + 1) - 1], records[i + 1], room).Success?;
        }
      }
    }
  }

  /** Extending a valid chain by one linked record keeps it valid. */
  lemma ExtendChain(h: Platform, records: seq<ManifestRecord>, r: ManifestRecord, room: seq<byte>)
    requires ValidatedChain(h, records, room).Success?
    ensures ValidatedChain(h, records + [r], room).Success?
       <==> LinkChecked(h, records[|records| - 1], r, room).Success?
    ensures ValidatedChain(h, records + [r], room).Success? ==> ValidatedChain(h, records + [r], room).value == r
  {
    hide LinkChecked;
    LinksIff(h, records, room);
    LinksIff(h, records + [r], room);
    var longer := records + [r];
    var n := |records|;
    if LinkChecked(h, records[n - 1], r, room).Success? {
      forall i | 0 < i < |longer| ensures LinkChecked(h, longer[i - 1], longer[i], room).Success? {
        if i < n { assert longer[i - 1] == records[i - 1] && longer[i] == records[i]; }
      }
    }
    if ValidatedChain(h, longer, room).Success? {
      assert LinkChecked(h, longer[n - 1], longer[n], room).Success?;
    }
  }

  /** In a valid chain, record i has revision i. */
  lemma {:induction false} ChainRevisions(h: Platform, records: seq<ManifestRecord>, room: seq<byte>, i: nat)
    requires ValidatedChain(h, records, room).Success? && i < |records|
    ensures records[i].revision == i
    ensures i > 0 ==> records[i].previousRecordDigest == records[i - 1].digest
  {
    LinksIff(h, records, room);
    if i > 0 {
      ChainRevisions(h, records, room, i - 1);
      assert LinkChecked(h, records[i - 1], records[i], room).Success?;
    }
  }

  lemma FieldsInjective(a: ManifestRecord, b: ManifestRecord)
    requires ManifestPreimage(a) == ManifestPreimage(b) && a.digest == b.digest
    ensures a == b
  {
    hide BigEndian, Value, Span;
    assert ManifestFields(a) == ManifestPreimage(a)[|MANIFEST_DOMAIN|..];
    assert ManifestFields(b) == ManifestPreimage(b)[|MANIFEST_DOMAIN|..];
    Regrouped(a);
    Regrouped(b);
    PayloadRoundTrip(a);
    PayloadRoundTrip(b);
  }

  lemma Regrouped(r: ManifestRecord)
    ensures ManifestPayload(r) == ManifestFields(r) + r.digest
  {
    hide BigEndian;
  }

  /** Two different records of the chains hash to the same digest. */
  ghost predicate Collision(h: Platform, a: seq<ManifestRecord>, b: seq<ManifestRecord>) {
    exists i, j :: 0 <= i < |a| && 0 <= j < |b| && ManifestPreimage(a[i]) != ManifestPreimage(b[j])
                   && ManifestDigest(h, a[i]) == ManifestDigest(h, b[j])
  }

  lemma {:induction false} SamePast(h: Platform, a: seq<ManifestRecord>, b: seq<ManifestRecord>, room: seq<byte>, n: nat, m: nat)
    requires ValidatedChain(h, a, room).Success? && ValidatedChain(h, b, room).Success?
    requires forall i :: 0 <= i < |a| ==> a[i].digest == ManifestDigest(h, a[i])
    requires forall i :: 0 <= i < |b| ==> b[i].digest == ManifestDigest(h, b[i])
    requires n < |a| && m < |b| && a[n].digest == b[m].digest
    requires !Collision(h, a, b)
    ensures n == m && a[..n + 1] == b[..m + 1]
  {
    hide ManifestPreimage, ValidatedChain, ManifestDigest;
    assert ManifestPreimage(a[n]) == ManifestPreimage(b[m]);
    FieldsInjective(a[n], b[m]);
    ChainRevisions(h, a, room, n);
    ChainRevisions(h, b, room, m);
    if n > 0 {
      SamePast(h, a, b, room, n - 1, m - 1);
      assert a[..n + 1] == a[..n] + [a[n]] && b[..m + 1] == b[..m] + [b[m]];
    }
  }

  /** The head digest fixes the whole chain, or the two streams exhibit a hash collision. */
  lemma HeadDeterminesHistory(h: Platform, x: seq<byte>, y: seq<byte>, room: seq<byte>)
    requires Records(h, x).Success? && ValidatedChain(h, Records(h, x).value, room).Success?
    requires Records(h, y).Success? && ValidatedChain(h, Records(h, y).value, room).Success?
    requires ValidatedChain(h, Records(h, x).value, room).value.digest == ValidatedChain(h, Records(h, y).value, room).value.digest
    ensures Records(h, x) == Records(h, y) || Collision(h, Records(h, x).value, Records(h, y).value)
  {
    hide LinksChecked, LinkChecked, ManifestDigest, ManifestPreimage, FieldsChecked, Records;
    var a, b := Records(h, x).value, Records(h, y).value;
    RecordsChecked(h, x);
    RecordsChecked(h, y);
    if !Collision(h, a, b) {
      SamePast(h, a, b, room, |a| - 1, |b| - 1);
      assert a[..|a|] == a && b[..|b|] == b;
    }
  }
}
