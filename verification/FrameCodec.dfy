/** The frame codec as the gateway runs it: an output buffer, a moving cursor and loops over tables. */
module FrameCodec {
  import opened Wrappers
  import opened Bytes
  import opened Envelope
  import opened Frame
  import opened Buffers
  import opened FrameLayout

  method EncodeWithLimits(h: Platform, f: DeltaFrame, l: FrameLimits) returns (r: Result<seq<byte>, FrameError>)
    ensures r == Encoded(h, f, l)
    ensures r.Success? <==> Fits(f, l)
    ensures r.Success? ==> FrameAt(h, r.value, f)
  {
    hide Wire, BigEndian, Table, Flatten, FrameAt, Fits;
    EncodedLaidOut(h, f, l);
    if f.producer.id == [] { return Failure(Invalid("producer ID is empty")); }
    var _ :- Enforce("producer ID bytes", |f.producer.id|, l.maxProducerIdBytes);
    if f.updates == [] { return Failure(Invalid("frame contains no updates")); }
    var _ :- Enforce("update count", |f.updates|, l.maxUpdates);
    if |f.producer.id| >= TWO_16 { return Failure(Invalid("producer ID is too long")); }
    if |f.updates| >= TWO_32 { return Failure(Invalid("too many updates")); }
    var lengths: seq<nat> := [];
    for i := 0 to |f.updates|
      invariant |lengths| == i
      invariant forall j :: 0 <= j < i ==> lengths[j] == |f.updates[j]| < TWO_32
    {
      if |f.updates[i]| >= TWO_32 { return Failure(Invalid("update is too large")); }
      lengths := lengths + [|f.updates[i]|];
    }
    assert lengths == Lengths(f.updates);

    var updatesLength := 0;
    for i := 0 to |f.updates|
      invariant updatesLength + TotalLength(f.updates[i..]) == TotalLength(f.updates)
      invariant FirstOversized(f.updates, l.maxUpdateBytes) == FirstOversized(f.updates[i..], l.maxUpdateBytes)
    {
      assert f.updates[i..][1..] == f.updates[i + 1..];
      var _ :- Enforce("individual update bytes", |f.updates[i]|, l.maxUpdateBytes);
      updatesLength := updatesLength + |f.updates[i]|;
    }
    var _ :- Enforce("aggregate update bytes", updatesLength, l.maxUpdatesBytes);
    var total := PREFIX + 2 + |f.producer.id| + (8 + 8 + 8 + 4) + 4 * |lengths| + updatesLength + FIXED_SUFFIX;
    if total >= TWO_64 { return Failure(LengthOverflow); }
    var _ :- Enforce("frame bytes", total, l.maxFrameBytes);
    var output := WriteFrame(h, f, lengths, total);
    r := Success(output);
  }

  method WriteFrame(h: Platform, f: DeltaFrame, lengths: seq<nat>, total: nat) returns (output: seq<byte>)
    requires lengths == Lengths(f.updates) && total == FrameLength(f)
    ensures output == Wire(h, f)
  {
    output := MAGIC;
    output := output + BigEndian(VERSION, 2);
    output := output + BigEndian(0, 2);
    output := output + BigEndian(total, 8);
    var payload := WritePayload(f, lengths);
    output := output + payload;
    FlattenFacts(f.updates);
    assert PREFIX + |payload| + SUFFIX == total;
    assert output == Checksummed(MAGIC, payload);
    var crc := h.crc32(output);
    output := output + BigEndian(crc, 4);
    output := output + BigEndian(total, 8);
  }

  method WritePayload(f: DeltaFrame, lengths: seq<nat>) returns (output: seq<byte>)
    requires lengths == Lengths(f.updates)
    ensures output == Payload(f)
  {
    hide BigEndian, Table, Flatten;
    output := BigEndian(|f.producer.id|, 2);
    output := output + f.producer.id;
    output := output + BigEndian(f.producer.epoch, 8);
    output := output + BigEndian(f.producer.sequence, 8);
    output := output + f.batchId;
    output := output + BigEndian(|f.updates|, 4);
    output := AppendTable(output, lengths);
    output := AppendChunks(output, f.updates);
    output := output + f.digest;
  }

  /** The big-endian integer at the cursor. */
  function IntAt(input: seq<byte>, cursor: nat, width: nat): Result<nat, FrameError> {
    if cursor + width <= |input| then Success(Value(input[cursor..cursor + width])) else Failure(Truncated)
  }

  lemma CursorInt(input: seq<byte>, cursor: nat, width: nat)
    requires cursor <= |input|
    ensures TakeInt(input[cursor..], width, Truncated)
         == if cursor + width <= |input|
            then Success((Value(input[cursor..cursor + width]), input[cursor + width..])) else Failure(Truncated)
  {
    if cursor + width <= |input| {
      assert input[cursor..][..width] == input[cursor..cursor + width];
      assert input[cursor..][width..] == input[cursor + width..];
    }
  }

  lemma CursorTake(input: seq<byte>, cursor: nat, n: nat)
    requires cursor <= |input|
    ensures Take(input[cursor..], n, Truncated)
         == if cursor + n <= |input| then Success((input[cursor..cursor + n], input[cursor + n..])) else Failure(Truncated)
  {
    if cursor + n <= |input| {
      assert input[cursor..][..n] == input[cursor..cursor + n];
      assert input[cursor..][n..] == input[cursor + n..];
    }
  }

  method DecodeOneWithLimits(h: Platform, input: seq<byte>, l: FrameLimits) returns (r: Result<(DeltaFrame, nat), FrameError>)
    ensures r == Decoded(h, input, l)
    ensures ReadsFrame(h, input, l, r)
  {
    hide ParsedPayload, Value, ReadsFrame;
    DecodedReads(h, input, l);
    if |input| < PREFIX + FIXED_SUFFIX { return Failure(Truncated); }
    if input[..4] != MAGIC { return Failure(Invalid("bad frame magic")); }
    var cursor := 4;
    var version := Value(input[cursor..cursor + 2]);
    cursor := cursor + 2;
    if version != VERSION { return Failure(UnsupportedVersion(version)); }
    var flags := Value(input[cursor..cursor + 2]);
    cursor := cursor + 2;
    if flags != 0 { return Failure(Invalid("unsupported frame flags")); }
    var total := Value(input[cursor..cursor + 8]);
    cursor := cursor + 8;
    if total < PREFIX + FIXED_SUFFIX { return Failure(Truncated); }
    var _ :- Enforce("frame bytes", total, l.maxFrameBytes);
    if |input| < total { return Failure(Truncated); }
    var frame := input[..total];
    var trailer := Value(frame[total - 8..]);
    assert frame[total - 8..] == input[total - 8..total];
    if trailer != total { return Failure(Invalid("frame length trailer mismatch")); }
    var crcStart := total - 12;
    var expected := Value(frame[crcStart..crcStart + 4]);
    assert frame[crcStart..crcStart + 4] == input[total - 12..total - 8];
    assert frame[..crcStart] == input[..total - 12];
    if h.crc32(frame[..crcStart]) != expected { return Failure(ChecksumMismatch); }
    assert frame[cursor..] == input[PREFIX..total];
    var f :- DecodePayload(h, frame, cursor, l);
    r := Success((f, total));
  }

  /** Reads the fields after the fixed prefix by moving the cursor through the whole frame. */
  method DecodePayload(h: Platform, frame: seq<byte>, start: nat, l: FrameLimits) returns (r: Result<DeltaFrame, FrameError>)
    requires start <= |frame|
    ensures r == ParsedPayload(h, frame[start..], l)
  {
    hide Value, BigEndian, ParsedUpdates, UpdateDigest, Span, Take, TakeInt;
    var cursor := start;
    CursorInt(frame, cursor, 2);
    var idLength :- IntAt(frame, cursor, 2);
    cursor := cursor + 2;
    var _ :- Enforce("producer ID bytes", idLength, l.maxProducerIdBytes);
    CursorTake(frame, cursor, idLength);
    if cursor + idLength > |frame| { return Failure(Truncated); }
    var id := frame[cursor..cursor + idLength];
    cursor := cursor + idLength;
    if !h.utf8(id) { return Failure(Invalid("producer ID is not UTF-8")); }
    if id == [] { return Failure(Invalid("producer ID is empty")); }
    CursorInt(frame, cursor, 8);
    var epoch :- IntAt(frame, cursor, 8);
    cursor := cursor + 8;
    CursorInt(frame, cursor, 8);
    var sequence :- IntAt(frame, cursor, 8);
    cursor := cursor + 8;
    CursorTake(frame, cursor, 8);
    if cursor + 8 > |frame| { return Failure(Truncated); }
    var batchId := frame[cursor..cursor + 8];
    cursor := cursor + 8;
    CursorInt(frame, cursor, 4);
    var count :- IntAt(frame, cursor, 4);
    cursor := cursor + 4;
    if count == 0 { return Failure(Invalid("frame contains no updates")); }
    var _ :- Enforce("update count", count, l.maxUpdates);
    SpanValues();
    r := DecodeUpdates(h, ProducerTuple(id, epoch, sequence), batchId, count, frame, cursor, l);
  }

  method DecodeUpdates(h: Platform, producer: ProducerTuple, batchId: BatchId, count: nat, frame: seq<byte>, start: nat, l: FrameLimits)
    returns (r: Result<DeltaFrame, FrameError>)
    requires start <= |frame|
    ensures r == ParsedUpdates(h, producer, batchId, count, frame[start..], l)
  {
    hide Value, BigEndian, UpdateDigest, ReadTable, Split, Sum;
    ghost var rest := frame[start..];
    var cursor := start;
    if |frame| < FIXED_SUFFIX { return Failure(Truncated); }
    var payloadEnd := |frame| - 12 - 32;
    if cursor + 4 * count > payloadEnd { return Failure(Truncated); }
    var tableEnd := cursor + 4 * count;
    var read, updatesLength := ReadLengths(frame, cursor, count, LengthCheck(l), Truncated);
    var lengths :- read;
    cursor := tableEnd;
    ghost var payload := rest[4 * count..|rest| - FIXED_SUFFIX];
    assert payload == frame[tableEnd..payloadEnd];
    if updatesLength != payloadEnd - tableEnd { return Failure(Invalid("update lengths do not consume payload")); }
    var updates := CutChunks(frame, cursor, payloadEnd, lengths);
    var digest := frame[payloadEnd..payloadEnd + 32];
    assert digest == rest[|rest| - FIXED_SUFFIX..|rest| - 12];
    if digest != UpdateDigest(h, updates) { return Failure(DigestMismatch); }
    r := Success(DeltaFrame(producer, batchId, updates, digest));
  }

  method DecodeExact(h: Platform, input: seq<byte>, l: FrameLimits) returns (r: Result<DeltaFrame, FrameError>)
    ensures r == DecodedExact(h, input, l)
  {
    hide ReadsFrame;
    var one :- DecodeOneWithLimits(h, input, l);
    if one.1 != |input| { return Failure(Invalid("trailing bytes after frame")); }
    r := Success(one.0);
  }

  method DecodeAllWithLimits(h: Platform, stream: seq<byte>, l: FrameLimits) returns (r: Result<seq<DeltaFrame>, FrameError>)
    ensures r == DecodedStream(h, stream, l)
    ensures ReadsFrames(h, stream, l, r)
  {
    hide Decoded, ReadsFrame, ReadsFrames;
    StreamReads(h, stream, l);
    var _ :- Enforce("stream bytes", |stream|, l.maxStreamBytes);
    var input := stream;
    var frames: seq<DeltaFrame> := [];
    var offset := 0;
    assert forall more: seq<DeltaFrame> :: [] + more == more;
    while input != []
      invariant DecodedFrames(h, stream, 0, l)
             == match DecodedFrames(h, input, offset, l)
                case Failure(e) => Failure(e)
                case Success(more) => Success(frames + more)
      decreases |input|
    {
      var one := DecodeOneWithLimits(h, input, l);
      if one.Failure? { return Failure(AtOffset(offset, one.error)); }
      ghost var before := frames;
      frames := frames + [one.value.0];
      assert forall more: seq<DeltaFrame> :: before + ([one.value.0] + more) == frames + more;
      input := input[one.value.1..];
      offset := offset + one.value.1;
    }
    assert frames + [] == frames;
    r := Success(frames);
  }
}
