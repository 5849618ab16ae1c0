/** The frame codec is a bijection between fitting frames and accepted byte strings. */
module FrameTheorems {
  import opened Wrappers
  import opened Bytes
  import opened Envelope
  import opened Frame

  lemma {:induction false} LimitsAccept(updates: seq<seq<byte>>, sum: nat, l: FrameLimits)
    requires forall i :: 0 <= i < |updates| ==> |updates[i]| <= l.maxUpdateBytes
    requires sum + TotalLength(updates) <= l.maxUpdatesBytes
    ensures Accepted(Lengths(updates), sum, LengthCheck(l))
  {
    if updates != [] {
      assert Lengths(updates)[1..] == Lengths(updates[1..]);
      LimitsAccept(updates[1..], sum + |updates[0]|, l);
    }
  }

  lemma {:induction false} AcceptedLimits(lengths: seq<nat>, sum: nat, l: FrameLimits)
    requires Accepted(lengths, sum, LengthCheck(l))
    requires sum <= l.maxUpdatesBytes
    ensures forall i :: 0 <= i < |lengths| ==> lengths[i] <= l.maxUpdateBytes
    ensures sum + Sum(lengths) <= l.maxUpdatesBytes
  {
    if lengths != [] {
      AcceptedLimits(lengths[1..], sum + lengths[0], l);
      forall i | 0 <= i < |lengths| ensures lengths[i] <= l.maxUpdateBytes {
        if i > 0 { assert lengths[i] == lengths[1..][i - 1]; }
      }
    }
  }

  lemma WireLength(h: Platform, f: DeltaFrame)
    ensures PREFIX + |Payload(f)| + SUFFIX == FrameLength(f) == |Wire(h, f)|
  {
    FlattenFacts(f.updates);
  }

  lemma UpdatesRoundTrip(h: Platform, f: DeltaFrame, l: FrameLimits, trailer: seq<byte>)
    requires Fits(f, l) && |trailer| == 12
    ensures ParsedUpdates(h, f.producer, f.batchId, |f.updates|,
              Table(Lengths(f.updates)) + (Flatten(f.updates) + f.digest) + trailer, l)
         == if f.digest == UpdateDigest(h, f.updates) then Success(f) else Failure(DigestMismatch)
  {
    hide BigEndian, Table, Flatten, Sum, TotalLength, Accepted, UpdateDigest, ReadTable, Split;
    var table, flat := Table(Lengths(f.updates)), Flatten(f.updates);
    var rest := table + (flat + f.digest) + trailer;
    var count := |f.updates|;
    FlattenFacts(f.updates);
    LimitsAccept(f.updates, 0, l);
    assert rest == table + (flat + f.digest + trailer);
    ReadTableOfTable(Lengths(f.updates), flat + f.digest + trailer, 0, LengthCheck(l), Truncated);
    assert rest[4 * count..|rest| - FIXED_SUFFIX] == flat;
    assert rest[|rest| - FIXED_SUFFIX..|rest| - 12] == f.digest;
    SplitOfFlatten(f.updates);
  }

  /** Prepending a field to what follows leaves the trailer last. */
  lemma Regroup(a: seq<byte>, b: seq<byte>, c: seq<byte>)
    ensures a + b + c == a + (b + c)
  {
  }

  /** What reading a well-formed frame gives: the frame, or what is wrong with its identifier or digest. */
  function Judged(h: Platform, f: DeltaFrame): Result<DeltaFrame, FrameError> {
    if !h.utf8(f.producer.id) then Failure(Invalid("producer ID is not UTF-8"))
    else if f.digest != UpdateDigest(h, f.updates) then Failure(DigestMismatch)
    else Success(f)
  }

  lemma PayloadRoundTrip(h: Platform, f: DeltaFrame, l: FrameLimits, trailer: seq<byte>)
    requires Fits(f, l) && |trailer| == 12
    ensures ParsedPayload(h, Payload(f) + trailer, l) == Judged(h, f)
  {
    hide BigEndian, Table, Flatten, TotalLength, UpdateDigest, ParsedUpdates;
    SpanValues();
    var p := f.producer;
    var r6 := Table(Lengths(f.updates)) + (Flatten(f.updates) + f.digest);
    var r5 := BigEndian(|f.updates|, 4) + r6;
    var r4 := f.batchId + r5;
    var r3 := BigEndian(p.sequence, 8) + r4;
    var r2 := BigEndian(p.epoch, 8) + r3;
    var r1 := p.id + r2;
    Regroup(BigEndian(|p.id|, 2), r1, trailer);
    TakeIntPrefix(|p.id|, 2, r1 + trailer, Truncated);
    Regroup(p.id, r2, trailer);
    TakePrefix(p.id, r2 + trailer, Truncated);
    Regroup(BigEndian(p.epoch, 8), r3, trailer);
    TakeIntPrefix(p.epoch, 8, r3 + trailer, Truncated);
    Regroup(BigEndian(p.sequence, 8), r4, trailer);
    TakeIntPrefix(p.sequence, 8, r4 + trailer, Truncated);
    Regroup(f.batchId, r5, trailer);
    TakePrefix(f.batchId, r5 + trailer, Truncated);
    Regroup(BigEndian(|f.updates|, 4), r6, trailer);
    TakeIntPrefix(|f.updates|, 4, r6 + trailer, Truncated);
    UpdatesRoundTrip(h, f, l, trailer);
  }

  /** Decoding what the encoder wrote, whatever bytes follow: it looks at identifier and digest, the encoder does not. */
  lemma EncodedThenJudged(h: Platform, f: DeltaFrame, l: FrameLimits, suffix: seq<byte>)
    requires Encoded(h, f, l).Success?
    ensures Decoded(h, Encoded(h, f, l).value + suffix, l)
         == match Judged(h, f)
            case Success(_) => Success((f, |Encoded(h, f, l).value|))
            case Failure(e) => Failure(e)
  {
    hide ParsedPayload, Encoded, Payload, Sealed, Checksummed, Value, BigEndian, UpdateDigest;
    EncodedIffFits(h, f, l);
    WireLength(h, f);
    SealedFields(h, MAGIC, Payload(f), suffix);
    var input, total := Wire(h, f) + suffix, FrameLength(f);
    var trailer := input[total - SUFFIX..total];
    assert input[PREFIX..total] == Payload(f) + trailer;
    PayloadRoundTrip(h, f, l, trailer);
  }

  /** Decoding inverts encoding, whatever bytes follow. */
  lemma FrameRoundTrip(h: Platform, f: DeltaFrame, l: FrameLimits, suffix: seq<byte>)
    requires Built(h, f)
    requires Encoded(h, f, l).Success?
    ensures Decoded(h, Encoded(h, f, l).value + suffix, l) == Success((f, |Encoded(h, f, l).value|))
  {
    hide Encoded, Decoded, UpdateDigest;
    EncodedThenJudged(h, f, l, suffix);
  }

  lemma UpdatesCanonical(h: Platform, producer: ProducerTuple, batchId: BatchId, count: nat, rest: seq<byte>, l: FrameLimits)
    requires ParsedUpdates(h, producer, batchId, count, rest, l).Success?
    ensures |rest| >= FIXED_SUFFIX
    ensures var f := ParsedUpdates(h, producer, batchId, count, rest, l).value;
            && f.producer == producer && f.batchId == batchId && |f.updates| == count
            && rest[..|rest| - 12] == Table(Lengths(f.updates)) + (Flatten(f.updates) + f.digest)
            && f.digest == UpdateDigest(h, f.updates)
            && (forall i :: 0 <= i < |f.updates| ==> |f.updates[i]| <= l.maxUpdateBytes && |f.updates[i]| < TWO_32)
            && TotalLength(f.updates) <= l.maxUpdatesBytes
  {
    hide BigEndian, Table, Flatten, Sum, TotalLength, Accepted, UpdateDigest, ReadTable, Split;
    TableOfReadTable(rest, count, 0, LengthCheck(l), Truncated);
    var lengths := ReadTable(rest, count, 0, LengthCheck(l), Truncated).value;
    var payload := rest[4 * count..|rest| - FIXED_SUFFIX];
    FlattenOfSplit(payload, lengths);
    AcceptedLimits(lengths, 0, l);
    var f := ParsedUpdates(h, producer, batchId, count, rest, l).value;
    FlattenFacts(f.updates);
    forall i | 0 <= i < count ensures |f.updates[i]| == lengths[i] {
      assert Lengths(f.updates)[i] == lengths[i];
    }
    assert rest[..|rest| - 12] == rest[..4 * count] + (payload + f.digest);
  }

  lemma PayloadCanonical(h: Platform, rest: seq<byte>, l: FrameLimits)
    requires ParsedPayload(h, rest, l).Success?
    ensures |rest| >= 12
    ensures var f := ParsedPayload(h, rest, l).value;
            && rest[..|rest| - 12] == Payload(f)
            && Built(h, f)
            && (FrameLength(f) <= l.maxFrameBytes ==> Fits(f, l))
  {
    hide BigEndian, Value, Table, Flatten, TotalLength, UpdateDigest, ParsedUpdates, Take, TakeInt, Span;
    SpanValues();
    var f := ParsedPayload(h, rest, l).value;
    var (idLength, r1) := TakeInt(rest, 2, Truncated).value;
    var (id, r2) := Take(r1, idLength, Truncated).value;
    var (epoch, r3) := TakeInt(r2, 8, Truncated).value;
    var (sequence, r4) := TakeInt(r3, 8, Truncated).value;
    var (batchId, r5) := Take(r4, 8, Truncated).value;
    var (count, r6) := TakeInt(r5, 4, Truncated).value;
    UpdatesCanonical(h, ProducerTuple(id, epoch, sequence), batchId, count, r6, l);
    Chop(BigEndian(count, 4), r6);
    Chop(batchId, r5);
    Chop(BigEndian(sequence, 8), r4);
    Chop(BigEndian(epoch, 8), r3);
    Chop(id, r2);
    Chop(BigEndian(idLength, 2), r1);
  }

  lemma Chop(a: seq<byte>, b: seq<byte>)
    requires |b| >= 12
    ensures (a + b)[..|a + b| - 12] == a + b[..|b| - 12]
  {
  }

  /** Every accepted input prefix is the encoding of the frame it decodes to. */
  lemma FrameCanonical(h: Platform, input: seq<byte>, l: FrameLimits)
    requires Decoded(h, input, l).Success?
    ensures var (f, consumed) := Decoded(h, input, l).value;
            && consumed <= |input|
            && Built(h, f)
            && Encoded(h, f, l) == Success(input[..consumed])
  {
    hide ParsedPayload, Encoded, Payload, Sealed, Checksummed, Value, BigEndian;
    var (f, total) := Decoded(h, input, l).value;
    var record := input[..total];
    assert record[..4] == input[..4] && record[4..6] == input[4..6] && record[6..8] == input[6..8];
    assert record[8..16] == input[8..16] && record[total - 8..] == input[total - 8..total];
    assert record[total - 12..total - 8] == input[total - 12..total - 8] && record[..total - 12] == input[..total - 12];
    Unsealed(h, MAGIC, record);
    var rest := input[PREFIX..total];
    PayloadCanonical(h, rest, l);
    assert record[PREFIX..total - SUFFIX] == rest[..|rest| - 12];
    WireLength(h, f);
    EncodedIffFits(h, f, l);
  }

  /**
   Encoding does not look at the digest, decoding does: a frame that encodes comes back exactly if
   it is as NewFrame builds it.
   */
  lemma RoundTripIffBuilt(h: Platform, f: DeltaFrame, l: FrameLimits, suffix: seq<byte>)
    requires Encoded(h, f, l).Success?
    ensures Decoded(h, Encoded(h, f, l).value + suffix, l) == Success((f, |Encoded(h, f, l).value|)) <==> Built(h, f)
  {
    hide Encoded, Decoded, UpdateDigest;
    EncodedThenJudged(h, f, l, suffix);
  }

  // ---------------------------------------------------------------- streams

  predicate Storable(h: Platform, f: DeltaFrame, l: FrameLimits) {
    Built(h, f) && Encoded(h, f, l).Success?
  }

  predicate AllStorable(h: Platform, frames: seq<DeltaFrame>, l: FrameLimits) {
    forall i :: 0 <= i < |frames| ==> Storable(h, frames[i], l)
  }

  lemma {:induction false} StreamAppend(h: Platform, a: seq<DeltaFrame>, b: seq<DeltaFrame>)
    ensures Stream(h, a + b) == Stream(h, a) + Stream(h, b)
  {
    hide Wire;
    if a == [] {
      assert a + b == b;
    } else {
      assert (a + b)[1..] == a[1..] + b;
      StreamAppend(h, a[1..], b);
    }
  }

  function Prepend(frames: seq<DeltaFrame>, r: Result<seq<DeltaFrame>, FrameError>): Result<seq<DeltaFrame>, FrameError> {
    match r
    case Success(more) => Success(frames + more)
    case Failure(e) => Failure(e)
  }

  lemma PrependTwice(a: seq<DeltaFrame>, b: seq<DeltaFrame>, r: Result<seq<DeltaFrame>, FrameError>)
    ensures Prepend([], r) == r
    ensures Prepend(a, Prepend(b, r)) == Prepend(a + b, r)
  {
    if r.Success? {
      assert [] + r.value == r.value;
      assert a + (b + r.value) == a + b + r.value;
    }
  }

  /** One whole frame at the front of a stream is read off first. */
  lemma FrameThenRest(h: Platform, f: DeltaFrame, rest: seq<byte>, offset: nat, l: FrameLimits)
    requires Storable(h, f, l)
    ensures |Wire(h, f)| > 0
    ensures DecodedFrames(h, Wire(h, f) + rest, offset, l)
         == Prepend([f], DecodedFrames(h, rest, offset + |Wire(h, f)|, l))
  {
    hide Wire, Decoded, Built, Encoded;
    EncodedIffFits(h, f, l);
    FrameRoundTrip(h, f, l, rest);
    WireLength(h, f);
    var input := Wire(h, f) + rest;
    assert input[|Wire(h, f)|..] == rest;
  }

  /** Whole frames at the front of a stream are read off one by one; what follows decides the rest. */
  lemma {:induction false} FramesThenTail(h: Platform, frames: seq<DeltaFrame>, tail: seq<byte>, offset: nat, l: FrameLimits)
    requires AllStorable(h, frames, l)
    ensures DecodedFrames(h, Stream(h, frames) + tail, offset, l)
         == Prepend(frames, DecodedFrames(h, tail, offset + |Stream(h, frames)|, l))
  {
    hide Wire, DecodedFrames, Storable, Prepend;
    var after := DecodedFrames(h, tail, offset + |Stream(h, frames)|, l);
    if frames == [] {
      assert Stream(h, frames) + tail == tail;
      PrependTwice([], [], after);
    } else {
      var first, rest := Wire(h, frames[0]), Stream(h, frames[1..]);
      FrameThenRest(h, frames[0], rest + tail, offset, l);
      assert Stream(h, frames) + tail == first + (rest + tail);
      FramesThenTail(h, frames[1..], tail, offset + |first|, l);
      PrependTwice([frames[0]], frames[1..], after);
      assert [frames[0]] + frames[1..] == frames;
    }
  }

  /** Decoding a stream inverts laying storable frames end to end. */
  lemma StreamRoundTrip(h: Platform, frames: seq<DeltaFrame>, l: FrameLimits)
    requires AllStorable(h, frames, l)
    requires |Stream(h, frames)| <= l.maxStreamBytes
    ensures DecodedStream(h, Stream(h, frames), l) == Success(frames)
  {
    hide Wire, Decoded, Built, Encoded;
    FramesThenTail(h, frames, [], 0, l);
    assert Stream(h, frames) + [] == Stream(h, frames);
    assert frames + [] == frames;
  }

  /** A decoded stream is exactly its frames laid end to end. */
  lemma {:induction false} StreamCanonical(h: Platform, input: seq<byte>, offset: nat, l: FrameLimits)
    requires DecodedFrames(h, input, offset, l).Success?
    ensures var frames := DecodedFrames(h, input, offset, l).value;
            AllStorable(h, frames, l) && input == Stream(h, frames)
    decreases |input|
  {
    hide Wire, Decoded, Built, Encoded;
    if input != [] {
      var (frame, consumed) := Decoded(h, input, l).value;
      FrameCanonical(h, input, l);
      EncodedIffFits(h, frame, l);
      StreamCanonical(h, input[consumed..], offset + consumed, l);
      var frames := DecodedFrames(h, input, offset, l).value;
      assert frames[1..] == DecodedFrames(h, input[consumed..], offset + consumed, l).value;
      assert input == input[..consumed] + input[consumed..];
    }
  }

  /** The first o bytes are whole frames and what follows them does not decode. */
  ghost predicate DamagedAt(h: Platform, input: seq<byte>, o: nat, e: FrameError, l: FrameLimits) {
    && o < |input|
    && Decoded(h, input[o..], l) == Failure(e)
    && exists frames: seq<DeltaFrame> :: AllStorable(h, frames, l) && input[..o] == Stream(h, frames)
  }

  lemma {:induction false} DamageFound(h: Platform, input: seq<byte>, offset: nat, l: FrameLimits)
    requires DecodedFrames(h, input, offset, l).Failure?
    ensures var error := DecodedFrames(h, input, offset, l).error;
            error.AtOffset? && error.offset >= offset && DamagedAt(h, input, error.offset - offset, error.source, l)
    decreases |input|
  {
    hide Wire, Decoded, Built, Encoded;
    match Decoded(h, input, l)
    case Failure(e) =>
      assert input[0..] == input && input[..0] == Stream(h, []) && AllStorable(h, [], l);
    case Success((frame, consumed)) =>
      FrameCanonical(h, input, l);
      EncodedIffFits(h, frame, l);
      var rest := input[consumed..];
      DamageFound(h, rest, offset + consumed, l);
      var error := DecodedFrames(h, input, offset, l).error;
      var o := error.offset - offset - consumed;
      var frames: seq<DeltaFrame> :| AllStorable(h, frames, l) && rest[..o] == Stream(h, frames);
      var all := [frame] + frames;
      assert all[1..] == frames && Stream(h, all) == Wire(h, frame) + Stream(h, frames);
      assert input[..consumed + o] == input[..consumed] + rest[..o];
      assert input[consumed + o..] == rest[o..];
      assert AllStorable(h, all, l);
  }

  /** A stream within its limit fails at o with e exactly when o bytes of whole frames are followed by e. */
  lemma DamageLocalised(h: Platform, input: seq<byte>, o: nat, e: FrameError, l: FrameLimits)
    requires |input| <= l.maxStreamBytes
    ensures DecodedStream(h, input, l) == Failure(AtOffset(o, e)) <==> DamagedAt(h, input, o, e, l)
    ensures DecodedStream(h, input, l).Failure? ==> DecodedStream(h, input, l).error.AtOffset?
  {
    hide Wire, Decoded, Built, Encoded;
    if DecodedStream(h, input, l).Failure? {
      DamageFound(h, input, 0, l);
    }
    if DamagedAt(h, input, o, e, l) {
      var frames: seq<DeltaFrame> :| AllStorable(h, frames, l) && input[..o] == Stream(h, frames);
      assert input == Stream(h, frames) + input[o..];
      FramesThenTail(h, frames, input[o..], 0, l);
    }
  }

  /** A proper prefix of an encoded frame is always reported as truncated. */
  lemma TornFrame(h: Platform, f: DeltaFrame, l: FrameLimits, n: nat)
    requires Storable(h, f, l) && n < |Wire(h, f)|
    ensures Decoded(h, Wire(h, f)[..n], l) == Failure(Truncated)
  {
    hide ParsedPayload, Payload, Sealed, Checksummed, Value, BigEndian;
    EncodedIffFits(h, f, l);
    WireLength(h, f);
    SealedFields(h, MAGIC, Payload(f), []);
    var wire, torn := Wire(h, f), Wire(h, f)[..n];
    assert wire + [] == wire;
    if n >= PREFIX + FIXED_SUFFIX {
      assert torn[..4] == wire[..4] && torn[4..6] == wire[4..6] && torn[6..8] == wire[6..8] && torn[8..16] == wire[8..16];
    }
  }

  /** A stream whose last frame is torn names the end of the last whole frame. */
  lemma TornStream(h: Platform, frames: seq<DeltaFrame>, last: DeltaFrame, l: FrameLimits, n: nat)
    requires AllStorable(h, frames, l) && Storable(h, last, l) && 0 < n < |Wire(h, last)|
    requires |Stream(h, frames)| + n <= l.maxStreamBytes
    ensures DecodedStream(h, Stream(h, frames) + Wire(h, last)[..n], l)
         == Failure(AtOffset(|Stream(h, frames)|, Truncated))
  {
    hide Wire, Decoded, Built, Encoded;
    TornFrame(h, last, l, n);
    FramesThenTail(h, frames, Wire(h, last)[..n], 0, l);
  }

  /** Appending one encoded frame to a decodable stream appends exactly that frame. */
  lemma AppendFrame(h: Platform, input: seq<byte>, f: DeltaFrame, l: FrameLimits)
    requires DecodedFrames(h, input, 0, l).Success?
    requires Storable(h, f, l)
    ensures DecodedFrames(h, input + Encoded(h, f, l).value, 0, l)
         == Success(DecodedFrames(h, input, 0, l).value + [f])
  {
    hide Wire, Decoded, Built, Encoded;
    var frames := DecodedFrames(h, input, 0, l).value;
    StreamCanonical(h, input, 0, l);
    EncodedIffFits(h, f, l);
    var wire := Encoded(h, f, l).value;
    FramesThenTail(h, frames, wire, 0, l);
    FramesThenTail(h, [f], [], |input|, l);
    assert Stream(h, [f]) + [] == wire;
    assert [f] + [] == [f];
  }
}