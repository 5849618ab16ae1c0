/** The bytes of a delta frame, offset by offset. */
module FrameLayout {
  import opened Wrappers
  import opened Bytes
  import opened Envelope
  import opened Layout
  import opened Frame
  import opened FrameTheorems

  predicate FrameAt(h: Platform, s: seq<byte>, f: DeltaFrame) {
    var n, c := |f.producer.id|, |f.updates|;
    && |s| == 90 + n + 4 * c + Before(f.updates, c)
    && Enveloped(h, s, [0x51, 0x4C, 0x47, 0x44])
    && PayloadAt(s, f)
  }

  /** How long the frame is. */
  function Size(f: DeltaFrame): nat {
    90 + |f.producer.id| + 4 * |f.updates| + Before(f.updates, |f.updates|)
  }

  /** The bytes that end at the offset are this frame's. */
  predicate FrameEndsAt(h: Platform, s: seq<byte>, end: nat, f: DeltaFrame) {
    Size(f) <= end <= |s| && FrameAt(h, s[end - Size(f)..end], f)
  }

  /** Where the first i frames end. */
  function End(frames: seq<DeltaFrame>, i: nat): nat
    requires i <= |frames|
  {
    if i == 0 then 0 else End(frames, i - 1) + Size(frames[i - 1])
  }

  /** Genuine frames that fit, one right after the other. */
  predicate FramesAt(h: Platform, s: seq<byte>, frames: seq<DeltaFrame>, l: FrameLimits) {
    && |s| == End(frames, |frames|)
    && forall i :: 0 <= i < |frames| ==> FrameEndsAt(h, s, End(frames, i + 1), frames[i]) && Built(h, frames[i]) && Fits(frames[i], l)
  }

  /** Identifier length, identifier, epoch, sequence, batch, count, lengths, updates, digest. */
  predicate PayloadAt(s: seq<byte>, f: DeltaFrame) {
    var n, c := |f.producer.id|, |f.updates|;
    && U16At(s, 16, n)
    && BytesAt(s, 18, f.producer.id)
    && U64At(s, 18 + n, f.producer.epoch)
    && U64At(s, 26 + n, f.producer.sequence)
    && BytesAt(s, 34 + n, f.batchId)
    && U32At(s, 42 + n, c)
    && LengthsAt(s, 46 + n, f.updates)
    && ChunksAt(s, 46 + n + 4 * c, f.updates)
    && BytesAt(s, 46 + n + 4 * c + Before(f.updates, c), f.digest)
  }

  /** The widths of the length fields hold the lengths. */
  predicate Narrowed(f: DeltaFrame) {
    |f.producer.id| < TWO_16 && |f.updates| < TWO_32 && Narrow(f.updates) && FrameLength(f) < TWO_64
  }

  lemma PayloadLaid(s: seq<byte>, f: DeltaFrame)
    requires Narrowed(f) && |s| == FrameLength(f)
    ensures BytesAt(s, 16, Payload(f)) <==> PayloadAt(s, f)
  {
    hide BigEndian, U16At, U32At, U64At, BytesAt, LengthsAt, ChunksAt, Table, Flatten, TotalLength;
    var p, n := f.producer, |f.producer.id|;
    var r6 := Table(Lengths(f.updates)) + (Flatten(f.updates) + f.digest);
    var r5 := BigEndian(|f.updates|, 4) + r6;
    var r4 := f.batchId + r5;
    var r3 := BigEndian(p.sequence, 8) + r4;
    var r2 := BigEndian(p.epoch, 8) + r3;
    var r1 := p.id + r2;
    Joined(s, 16, BigEndian(n, 2), r1);
    Joined(s, 18, p.id, r2);
    Joined(s, 18 + n, BigEndian(p.epoch, 8), r3);
    Joined(s, 26 + n, BigEndian(p.sequence, 8), r4);
    Joined(s, 34 + n, f.batchId, r5);
    Joined(s, 42 + n, BigEndian(|f.updates|, 4), r6);
    Laid2(s, 16, n);
    Laid8(s, 18 + n, p.epoch);
    Laid8(s, 26 + n, p.sequence);
    Laid4(s, 42 + n, |f.updates|);
    BlobsLaid(s, 46 + n, [], f.updates, f.digest);
    assert [] + (Flatten(f.updates) + f.digest) == Flatten(f.updates) + f.digest;
    NothingLaid(s, 46 + n + 4 * |f.updates|);
  }

  lemma NothingLaid(s: seq<byte>, at: nat)
    requires at <= |s|
    ensures BytesAt(s, at, [])
  {
  }

  lemma LengthAgrees(f: DeltaFrame)
    ensures FrameLength(f) == 90 + |f.producer.id| + 4 * |f.updates| + Before(f.updates, |f.updates|)
  {
    BeforeAll(f.updates);
  }

  /** The encoder writes exactly the bytes laid out above. */
  lemma WireIff(h: Platform, s: seq<byte>, f: DeltaFrame)
    requires Narrowed(f)
    ensures s == Wire(h, f) <==> FrameAt(h, s, f)
  {
    hide Enveloped, PayloadAt, Sealed, Payload, BytesAt;
    WireLength(h, f);
    LengthAgrees(f);
    if |s| == FrameLength(f) {
      SealedIff(h, MAGIC, Payload(f), s);
      PayloadLaid(s, f);
    }
  }

  lemma FitsNarrowed(f: DeltaFrame, l: FrameLimits)
    requires Fits(f, l)
    ensures Narrowed(f)
  {
  }

  /** What the encoder returns is the layout of the frame. */
  lemma EncodedLaidOut(h: Platform, f: DeltaFrame, l: FrameLimits)
    ensures Encoded(h, f, l).Success? <==> Fits(f, l)
    ensures Encoded(h, f, l).Success? ==> FrameAt(h, Encoded(h, f, l).value, f)
  {
    hide Encoded, Wire, FrameAt, Fits, Narrowed;
    EncodedIffFits(h, f, l);
    if Fits(f, l) {
      FitsNarrowed(f, l);
      WireIff(h, Wire(h, f), f);
    }
  }

  /** Decoding accepts a prefix as a frame exactly if the prefix is that frame's layout, and the frame is genuine and fits. */
  lemma DecodedIff(h: Platform, input: seq<byte>, f: DeltaFrame, n: nat, l: FrameLimits)
    ensures Decoded(h, input, l) == Success((f, n))
       <==> n <= |input| && FrameAt(h, input[..n], f) && Built(h, f) && Fits(f, l)
  {
    hide Decoded, Encoded, Wire, FrameAt, Built, Fits, Narrowed;
    if Decoded(h, input, l) == Success((f, n)) {
      FrameCanonical(h, input, l);
      EncodedIffFits(h, f, l);
      FitsNarrowed(f, l);
      WireIff(h, input[..n], f);
    }
    if n <= |input| && FrameAt(h, input[..n], f) && Built(h, f) && Fits(f, l) {
      FitsNarrowed(f, l);
      WireIff(h, input[..n], f);
      EncodedIffFits(h, f, l);
      FrameRoundTrip(h, f, l, input[n..]);
      assert input == input[..n] + input[n..];
    }
  }

  /** The answer is a frame exactly if a prefix is its layout, and the frame is genuine and fits; then it is that frame. */
  ghost predicate ReadsFrame(h: Platform, input: seq<byte>, l: FrameLimits, r: Result<(DeltaFrame, nat), FrameError>) {
    forall f, n: nat :: r == Success((f, n)) <==> n <= |input| && FrameAt(h, input[..n], f) && Built(h, f) && Fits(f, l)
  }

  lemma DecodedReads(h: Platform, input: seq<byte>, l: FrameLimits)
    ensures ReadsFrame(h, input, l, Decoded(h, input, l))
  {
    hide Decoded, FrameAt, Built, Fits;
    forall f, n: nat
      ensures Decoded(h, input, l) == Success((f, n)) <==> n <= |input| && FrameAt(h, input[..n], f) && Built(h, f) && Fits(f, l)
    {
      DecodedIff(h, input, f, n, l);
    }
  }

  /** What is refused, in the order of the checks, told from the bytes at fixed offsets alone. */
  lemma RefusedByEnvelope(h: Platform, input: seq<byte>, version: nat, flags: nat, total: nat, l: FrameLimits)
    requires |input| >= 60 ==> U16At(input, 4, version) && U16At(input, 6, flags) && U64At(input, 8, total)
    ensures var r := Decoded(h, input, l);
            if |input| < 60 then r == Failure(Truncated)
            else if input[..4] != [0x51, 0x4C, 0x47, 0x44] then r == Failure(Invalid("bad frame magic"))
            else if version != 1 then r == Failure(UnsupportedVersion(version))
            else if flags != 0 then r == Failure(Invalid("unsupported frame flags"))
            else if total < 60 then r == Failure(Truncated)
            else if total > l.maxFrameBytes then r == Failure(LimitExceeded("frame bytes", total, l.maxFrameBytes))
            else if |input| < total then r == Failure(Truncated)
            else if !U64At(input, total - 8, total) then r == Failure(Invalid("frame length trailer mismatch"))
            else !U32At(input, total - 12, h.crc32(input[..total - 12])) ==> r == Failure(ChecksumMismatch)
  {
    hide BigEndian, Value, U16At, U32At, U64At, ParsedPayload;
    if |input| >= 60 {
      At2(input, 4, version);
      At2(input, 6, flags);
      At8(input, 8, total);
      if 60 <= total <= |input| {
        At8(input, total - 8, total);
        At4(input, total - 12, h.crc32(input[..total - 12]));
      }
    }
  }

  /** A frame laid out well within the limits is refused exactly for a false identifier or digest. */
  lemma RefusedByContent(h: Platform, input: seq<byte>, f: DeltaFrame, n: nat, l: FrameLimits)
    requires n <= |input| && FrameAt(h, input[..n], f) && Fits(f, l)
    ensures !h.utf8(f.producer.id) ==> Decoded(h, input, l) == Failure(Invalid("producer ID is not UTF-8"))
    ensures h.utf8(f.producer.id) && f.digest != UpdateDigest(h, f.updates) ==> Decoded(h, input, l) == Failure(DigestMismatch)
  {
    hide Decoded, Encoded, Wire, FrameAt, Fits, Narrowed, UpdateDigest;
    FitsNarrowed(f, l);
    WireIff(h, input[..n], f);
    EncodedIffFits(h, f, l);
    EncodedThenJudged(h, f, l, input[n..]);
    assert input == input[..n] + input[n..];
  }

  // ---------------------------------------------------------------- streams

  lemma {:induction false} EndRest(frames: seq<DeltaFrame>, i: nat)
    requires 0 < i <= |frames|
    ensures End(frames, i) == Size(frames[0]) + End(frames[1..], i - 1)
  {
    if i > 1 {
      EndRest(frames, i - 1);
    }
  }

  /** A frame ends where it does in what follows the first n bytes. */
  lemma EndsAfter(h: Platform, s: seq<byte>, n: nat, end: nat, f: DeltaFrame)
    requires n + Size(f) <= end <= |s|
    ensures FrameEndsAt(h, s, end, f) <==> FrameEndsAt(h, s[n..], end - n, f)
  {
    hide FrameAt;
    assert s[n..][end - n - Size(f)..end - n] == s[end - Size(f)..end];
  }

  lemma {:induction false} EndGrows(frames: seq<DeltaFrame>, i: nat, j: nat)
    requires i <= j <= |frames|
    ensures End(frames, i) <= End(frames, j)
  {
    if i < j {
      EndGrows(frames, i, j - 1);
    }
  }

  lemma FramesRest(h: Platform, s: seq<byte>, frames: seq<DeltaFrame>, l: FrameLimits)
    requires frames != []
    ensures var n := Size(frames[0]);
            FramesAt(h, s, frames, l) <==>
            n <= |s| && FrameAt(h, s[..n], frames[0]) && Built(h, frames[0]) && Fits(frames[0], l) && FramesAt(h, s[n..], frames[1..], l)
  {
    hide FrameAt, Built, Fits, Size, FrameEndsAt, End;
    var n, rest := Size(frames[0]), frames[1..];
    EndRest(frames, |frames|);
    EndGrows(frames, 1, |frames|);
    EndRest(frames, 1);
    NoEnd(rest);
    FirstFrame(h, s, frames[0]);
    if n <= |s| {
      forall i | 0 < i < |frames| && End(frames, i + 1) <= |s|
        ensures FrameEndsAt(h, s, End(frames, i + 1), frames[i]) <==> FrameEndsAt(h, s[n..], End(rest, i), rest[i - 1])
      {
        EndRest(frames, i + 1);
        LastPart(rest, i);
        EndsAfter(h, s, n, End(frames, i + 1), frames[i]);
      }
      if FramesAt(h, s, frames, l) {
        assert FrameEndsAt(h, s, End(frames, 0 + 1), frames[0]);
        forall i | 0 <= i < |rest| ensures FrameEndsAt(h, s[n..], End(rest, i + 1), rest[i]) && Built(h, rest[i]) && Fits(rest[i], l) {
          assert rest[i] == frames[i + 1];
          EndGrows(frames, i + 2, |frames|);
        }
      }
      if FrameAt(h, s[..n], frames[0]) && Built(h, frames[0]) && Fits(frames[0], l) && FramesAt(h, s[n..], rest, l) {
        forall i | 0 <= i < |frames| ensures FrameEndsAt(h, s, End(frames, i + 1), frames[i]) && Built(h, frames[i]) && Fits(frames[i], l) {
          if i > 0 {
            assert rest[i - 1] == frames[i];
            EndGrows(frames, i + 1, |frames|);
          }
        }
      }
    }
  }

  lemma NoEnd(frames: seq<DeltaFrame>)
    ensures End(frames, 0) == 0
  {
  }

  lemma LastPart(frames: seq<DeltaFrame>, i: nat)
    requires 0 < i <= |frames|
    ensures Size(frames[i - 1]) <= End(frames, i)
  {
  }

  lemma FirstFrame(h: Platform, s: seq<byte>, f: DeltaFrame)
    ensures FrameEndsAt(h, s, Size(f), f) <==> Size(f) <= |s| && FrameAt(h, s[..Size(f)], f)
  {
    hide FrameAt;
    if Size(f) <= |s| { assert s[0..Size(f)] == s[..Size(f)]; }
  }

  /** A stream decodes to exactly the genuine, fitting frames that lie in it one right after the other. */
  lemma {:induction false} DecodedFramesIff(h: Platform, input: seq<byte>, offset: nat, frames: seq<DeltaFrame>, l: FrameLimits)
    ensures DecodedFrames(h, input, offset, l) == Success(frames) <==> FramesAt(h, input, frames, l)
    decreases |input|
  {
    hide Decoded, FrameAt, Built, Fits, Size, FramesAt;
    NothingAt(h, input, frames, l);
    if input != [] && frames != [] {
      var n := Size(frames[0]);
      FramesRest(h, input, frames, l);
      SizePositive(frames[0]);
      if n <= |input| {
        DecodedIff(h, input, frames[0], n, l);
        DecodedFramesIff(h, input[n..], offset + n, frames[1..], l);
      }
      if Decoded(h, input, l).Success? && Decoded(h, input, l).value.0 == frames[0] {
        DecodedIff(h, input, frames[0], Decoded(h, input, l).value.1, l);
        AtIsSize(h, input[..Decoded(h, input, l).value.1], frames[0]);
      }
      if DecodedFrames(h, input, offset, l) == Success(frames) {
        assert [frames[0]] + frames[1..] == frames;
        assert frames[1..] == DecodedFrames(h, input[n..], offset + n, l).value;
      }
      if FramesAt(h, input, frames, l) {
        assert [frames[0]] + frames[1..] == frames;
      }
    }
  }

  lemma SizePositive(f: DeltaFrame)
    ensures Size(f) > 0
  {
  }

  lemma AtIsSize(h: Platform, s: seq<byte>, f: DeltaFrame)
    requires FrameAt(h, s, f)
    ensures |s| == Size(f)
  {
  }

  lemma {:induction false} NothingAt(h: Platform, input: seq<byte>, frames: seq<DeltaFrame>, l: FrameLimits)
    ensures input == [] || frames == [] ==>
              (FramesAt(h, input, frames, l) <==> input == [] && frames == [])
    ensures input == [] ==> DecodedFrames(h, input, 0, l) == Success([])
    ensures input != [] && DecodedFrames(h, input, 0, l).Success? ==> DecodedFrames(h, input, 0, l).value != []
  {
    hide Decoded, FrameAt, Built, Fits;
    if frames != [] {
      EndRest(frames, |frames|);
    }
  }

  lemma DecodedStreamIff(h: Platform, input: seq<byte>, frames: seq<DeltaFrame>, l: FrameLimits)
    ensures DecodedStream(h, input, l) == Success(frames) <==> |input| <= l.maxStreamBytes && FramesAt(h, input, frames, l)
  {
    hide DecodedFrames, FramesAt;
    DecodedFramesIff(h, input, 0, frames, l);
  }

  /** The answer is a sequence of frames exactly if the stream is within its limit and consists of them; then it is that one. */
  ghost predicate ReadsFrames(h: Platform, stream: seq<byte>, l: FrameLimits, r: Result<seq<DeltaFrame>, FrameError>) {
    forall frames :: r == Success(frames) <==> |stream| <= l.maxStreamBytes && FramesAt(h, stream, frames, l)
  }

  lemma StreamReads(h: Platform, stream: seq<byte>, l: FrameLimits)
    ensures ReadsFrames(h, stream, l, DecodedStream(h, stream, l))
  {
    hide DecodedStream, FramesAt;
    forall frames ensures DecodedStream(h, stream, l) == Success(frames) <==> |stream| <= l.maxStreamBytes && FramesAt(h, stream, frames, l) {
      DecodedStreamIff(h, stream, frames, l);
    }
  }
}
