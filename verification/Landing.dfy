/** One frame landing in the active delta stream: what changes, and that the invariant survives. */
module Landing {
  import opened Bytes
  import opened Envelope
  import opened Frame
  import opened FrameTheorems
  import opened Loro
  import opened Store
  import opened Gateway
  import opened Manifest
  import opened ManifestTheorems
  import opened Protocol
  import opened RoomState
  import Checkpoint

  lemma {:induction false} SnapshotRuleWeakens(lib: Library, updates: seq<seq<byte>>)
    ensures EachAllowed(lib, updates, false).Success? ==> EachAllowed(lib, updates, true).Success?
  {
    if updates != [] {
      SnapshotRuleWeakens(lib, updates[1..]);
    }
  }

  /** A frame admissible after everything before it keeps the whole stream admissible. */
  lemma {:induction false} AllowedAppend(lib: Library, frames: seq<DeltaFrame>, f: DeltaFrame, empty: bool)
    requires FramesAllowed(lib, frames, empty).Success?
    requires BlobsAllowed(lib, f.updates, empty && frames == []).Success?
    ensures FramesAllowed(lib, frames + [f], empty).Success?
  {
    hide EachAllowed;
    if frames == [] {
      assert [] + [f] == [f];
    } else {
      assert (frames + [f])[1..] == frames[1..] + [f];
      AllowedAppend(lib, frames[1..], f, false);
    }
  }

  lemma AllowedNonempty(lib: Library, frames: seq<DeltaFrame>)
    requires FramesAllowed(lib, frames, true).Success?
    ensures frames != [] ==> AllUpdates(frames) != []
  {
    hide EachAllowed;
  }

  lemma DecodableAppend(lib: Library, a: seq<seq<byte>>, b: seq<seq<byte>>)
    requires Decodable(lib, a) && Decodable(lib, b)
    ensures Decodable(lib, a + b)
  {
  }

  /** The append that may go to the active stream next. */
  ghost predicate Admissible(g: Gateway, d: Durable, p: PendingAppend) {
    && Prepared(g, p)
    && p.target == DeltaStream(Active(g, d))
    && BlobsAllowed(g.lib, p.frame.updates, Frames(g, d, Active(g, d)) == []).Success?
    && Decodable(g.lib, p.frame.updates)
  }

  lemma LandedFrames(g: Gateway, d: Durable, p: PendingAppend, d': Durable)
    requires Sound(g, d) && Admissible(g, d, p) && Landed(d, p.target, p.producer, p.bytes, d')
    ensures var G := Active(g, d);
            && Chain(g, d') == Chain(g, d)
            && DecodedFrames(g.h, Content(d', DeltaStream(G)), 0, g.frameLimits).Success?
            && Frames(g, d', G) == Frames(g, d, G) + [p.frame]
            && (forall j: nat :: j != G ==> Frames(g, d', j) == Frames(g, d, j))
            && (forall s :: s != p.target ==> Content(d', s) == Content(d, s))
            && (forall s, id :: NextSequence(d', s, id)
                  == if s == p.target && id == p.producer.id then p.producer.sequence + 1 else NextSequence(d, s, id))
            && d'.streams.Keys == d.streams.Keys
            && d'.producers[(p.target, p.producer.id)].nextOffset == |Content(d', p.target)|
            && Content(d', p.target) == Content(d, p.target) + p.bytes
  {
    hide DecodedFrames, Records, Encoded, UpdateDigest;
    var G := Active(g, d);
    assert DeltaSound(g, d, G);
    AppendFrame(g.h, Content(d, p.target), p.frame, g.frameLimits);
  }

  lemma LandedDelta(g: Gateway, d: Durable, p: PendingAppend, d': Durable)
    requires Sound(g, d) && Admissible(g, d, p) && Landed(d, p.target, p.producer, p.bytes, d')
    ensures DeltaSound(g, d', Active(g, d))
  {
    hide DecodedFrames, Records, Encoded, NewFrame, BlobsAllowed, FramesAllowed, Sequences, AllUpdates, Decodable, Chain, Frames;
    var G := Active(g, d);
    var frames := Frames(g, d, G);
    LandedFrames(g, d, p, d');
    assert DeltaSound(g, d, G);
    AllowedAppend(g.lib, frames, p.frame, true);
    AllUpdatesAppend(frames, [p.frame]);
    assert AllUpdates([p.frame]) == p.frame.updates by { OneFrame(p.frame); }
    DecodableAppend(g.lib, AllUpdates(frames), p.frame.updates);
    assert p.frame.producer == p.producer by { FrameProducer(g, p); }
    forall id ensures Sequences(Frames(g, d', G), id) == UpTo(NextSequence(d', DeltaStream(G), id)) {
      SequencesAppend(frames, p.frame, id);
      if id == p.producer.id {
        assert NextSequence(d, DeltaStream(G), id) == p.producer.sequence;
        assert UpTo(p.producer.sequence) + [p.producer.sequence] == UpTo(p.producer.sequence + 1);
      }
    }
  }

  lemma OneFrame(f: DeltaFrame)
    ensures AllUpdates([f]) == f.updates
  {
    assert AllUpdates([f]) == f.updates + [];
  }

  lemma FrameProducer(g: Gateway, p: PendingAppend)
    requires Prepared(g, p)
    ensures p.frame.producer == p.producer
  {
  }

  /** The landed frame adds its operations to the active generation and to nothing else. */
  lemma LandedSound(g: Gateway, d: Durable, p: PendingAppend, d': Durable)
    requires Sound(g, d) && Admissible(g, d, p) && Landed(d, p.target, p.producer, p.bytes, d')
    ensures Sound(g, d')
    ensures (Exact(g, d) ==> Exact(g, d')) && (TrueEnds(g, d) ==> TrueEnds(g, d'))
    ensures BaseOps(g, d') == BaseOps(g, d)
    ensures DeltaOps(g, d', Active(g, d)) == DeltaOps(g, d, Active(g, d)) + Ops(g.lib, p.frame.updates)
    ensures Chain(g, d') == Chain(g, d)
  {
    hide DecodedFrames, Records, FramesAllowed, Checkpoint.Decoded, ValidatedChain, VerifiesCheckpoint, DocOf,
         Decodable, AllUpdates, Sequences, BlobsAllowed, Encoded, NewFrame, EveryUpdate, Ops;
    var G := Active(g, d);
    LandedFrames(g, d, p, d');
    LandedDelta(g, d, p, d');
    forall j: nat ensures DeltaSound(g, d', j) {
      assert DeltaSound(g, d, j);
      if j != G {
        assert forall id :: NextSequence(d', DeltaStream(j), id) == NextSequence(d, DeltaStream(j), id);
      }
    }
    forall i | 0 <= i < G ensures CheckpointSound(g, d', i) {
      assert CheckpointSound(g, d, i);
    }
    AllUpdatesAppend(Frames(g, d, G), [p.frame]);
    OneFrame(p.frame);
    OpsAppend(g.lib, AllUpdates(Frames(g, d, G)), p.frame.updates);
    if Exact(g, d) {
      forall i | 0 <= i < G ensures ExactAt(g, d', i) {
        assert ExactAt(g, d, i);
        SameUpdates(g, d, d', i + 1);
      }
    }
    if TrueEnds(g, d) {
      forall i | 0 <= i < G ensures TrueEnd(g, d', i) {
        assert TrueEnd(g, d, i);
      }
    }
  }

  // ---------------------------------------------------------------- recognising the last frame

  /** Two encodings that end the same string are the same: each ends with its own length. */
  lemma SameTail(h: Platform, content: seq<byte>, f: DeltaFrame, e: DeltaFrame, l: FrameLimits)
    requires Storable(h, f, l) && Storable(h, e, l)
    requires |Wire(h, f)| <= |content| && content[|content| - |Wire(h, f)|..] == Wire(h, f)
    requires |Wire(h, e)| <= |content| && content[|content| - |Wire(h, e)|..] == Wire(h, e)
    ensures f == e
  {
    hide Payload, Checksummed, BigEndian, Encoded, Decoded;
    Trailer(h, f, l);
    Trailer(h, e, l);
    assert Wire(h, f)[|Wire(h, f)| - 8..] == content[|content| - 8..] == Wire(h, e)[|Wire(h, e)| - 8..];
    FrameRoundTrip(h, f, l, []);
    FrameRoundTrip(h, e, l, []);
    EncodedIffFits(h, f, l);
    EncodedIffFits(h, e, l);
  }

  /** The last eight bytes of an encoded frame are its length. */
  lemma Trailer(h: Platform, f: DeltaFrame, l: FrameLimits)
    requires Storable(h, f, l)
    ensures |Wire(h, f)| >= 8 && Value(Wire(h, f)[|Wire(h, f)| - 8..]) == |Wire(h, f)|
  {
    hide Payload, Checksummed, BigEndian, Encoded;
    EncodedIffFits(h, f, l);
    WireLength(h, f);
    SpanValues();
    var trailer := BigEndian(|Wire(h, f)|, 8);
    ValueOfBigEndian(|Wire(h, f)|, 8);
    assert Wire(h, f)[|Wire(h, f)| - 8..] == trailer;
  }

  /** If a stream of whole frames ends with the bytes of this append, its last frame is the append's. */
  lemma LastFrame(g: Gateway, d: Durable, j: nat, p: PendingAppend)
    requires DeltaSound(g, d, j) && Prepared(g, p)
    requires |p.bytes| <= |Content(d, DeltaStream(j))|
    requires Content(d, DeltaStream(j))[|Content(d, DeltaStream(j))| - |p.bytes|..] == p.bytes
    ensures Frames(g, d, j) != [] && Frames(g, d, j)[|Frames(g, d, j)| - 1] == p.frame
  {
    hide Wire, DecodedFrames, Encoded, FramesAllowed, Sequences, AllUpdates, Decodable, UpdateDigest;
    var frames, content := Frames(g, d, j), Content(d, DeltaStream(j));
    StreamCanonical(g.h, content, 0, g.frameLimits);
    EncodedIffFits(g.h, p.frame, g.frameLimits);
    WireLength(g.h, p.frame);
    assert content == Stream(g.h, frames);
    if frames == [] {
      assert false;
    } else {
      var last := frames[|frames| - 1];
      assert frames == frames[..|frames| - 1] + [last];
      StreamAppend(g.h, frames[..|frames| - 1], [last]);
      assert Stream(g.h, [last]) == Wire(g.h, last) + [];
      assert content[|content| - |Wire(g.h, last)|..] == Wire(g.h, last);
      SameTail(g.h, content, p.frame, last, g.frameLimits);
    }
  }
}
