/** How a live actor's memory relates to what is stored, and what resolving one append does to that. */
module ActorInvariant {
  import opened Wrappers
  import opened Bytes
  import opened Frame
  import opened Loro
  import opened Store
  import opened Gateway
  import opened ManifestTheorems
  import opened Protocol
  import opened RoomState
  import opened Landing

  /** An actor that may still write. */
  predicate Live(a: Actor) {
    a.lifecycle.Ready? || a.blocked.Some?
  }

  /** A frame with the actor's current tuple is stored although the actor has not taken it over. */
  predicate Orphaned(d: Durable, a: Actor) {
    NextSequence(d, a.stream, a.producerId) == a.sequence + 1
  }

  /** The frames of the active stream that the actor has taken over. */
  function Known(g: Gateway, d: Durable, a: Actor): seq<DeltaFrame> {
    var frames := Frames(g, d, a.generation);
    if Orphaned(d, a) && frames != [] then frames[..|frames| - 1] else frames
  }

  function KnownOps(g: Gateway, d: Durable, a: Actor): set<OpId> {
    BaseOps(g, d) + Ops(g.lib, AllUpdates(Known(g, d, a)))
  }

  /** The actor writes to the active stream, under its own producer, which wrote last and is at most one frame ahead. */
  ghost predicate Positioned(g: Gateway, d: Durable, a: Actor) {
    && a.generation == Active(g, d) && a.stream == DeltaStream(a.generation) && a.stream in d.streams
    && a.producerId == g.names.delta(a.boot, a.generation)
    && (NextSequence(d, a.stream, a.producerId) == a.sequence || Orphaned(d, a))
    && ((a.stream, a.producerId) in d.producers ==>
          d.producers[(a.stream, a.producerId)].nextOffset == |Content(d, a.stream)|)
  }

  /** Every operation the actor's document holds, applied or pending. */
  function Held(doc: Doc): set<OpId> {
    doc.applied + doc.pending
  }

  /** Frames taken over leave a trace in the history. */
  predicate Noticed(g: Gateway, d: Durable, a: Actor) {
    Known(g, d, a) != [] ==> a.history != []
  }

  /** The append carries the actor's current tuple and was validated against the actor's document. */
  ghost predicate Issued(g: Gateway, a: Actor, p: PendingAppend) {
    && p.target == a.stream && p.producer == ProducerTuple(a.producerId, 0, a.sequence) && a.sequence + 1 < TWO_64
    && Prepared(g, p)
    && BlobsAllowed(g.lib, p.frame.updates, a.history == []).Success?
    && Decodable(g.lib, p.frame.updates)
  }

  /** The actor's place in the store and the coherence of its memory, whatever operations it holds. */
  ghost predicate Anchored(g: Gateway, d: Durable, a: Actor) {
    && Positioned(g, d, a)
    && Noticed(g, d, a)
    && Represents(g.lib, a.doc, a.history, Held(a.doc))
    && (a.blocked.Some? ==> Issued(g, a, a.blocked.value))
    && (a.lifecycle.Ready? ==> a.blocked.None? && a.endOffset == |Stream(g.h, Known(g, d, a))|)
  }

  /** The document holds exactly the checkpoint's operations and those of the frames taken over. */
  ghost predicate InStep(g: Gateway, d: Durable, a: Actor) {
    Anchored(g, d, a) && Held(a.doc) == KnownOps(g, d, a)
  }

  lemma RepresentsHeld(lib: Library, doc: Doc, history: seq<seq<byte>>, ops: set<OpId>)
    requires Represents(lib, doc, history, ops)
    ensures Held(doc) == ops
  {
    hide DocOf;
    DocHolds(lib, ops);
  }

  /** An unacknowledged frame is always the blocked append's own. */
  ghost predicate Tracked(g: Gateway, d: Durable, a: Actor) {
    && (a.lifecycle.Ready? ==> !Orphaned(d, a))
    && (a.blocked.Some? && Orphaned(d, a) ==>
          Frames(g, d, a.generation) != []
          && Frames(g, d, a.generation)[|Frames(g, d, a.generation)| - 1] == a.blocked.value.frame)
  }

  lemma {:induction false} NoFramesNoSequences(frames: seq<DeltaFrame>, id: seq<byte>)
    requires Sequences(frames, id) != []
    ensures frames != []
  {
  }

  lemma OrphanIsStored(g: Gateway, d: Durable, a: Actor)
    requires DeltaSound(g, d, a.generation) && Positioned(g, d, a) && Orphaned(d, a)
    ensures Frames(g, d, a.generation) != []
  {
    hide DecodedFrames, FramesAllowed, AllUpdates, Decodable, Frames;
    NoFramesNoSequences(Frames(g, d, a.generation), a.producerId);
  }

  /** An issued append that the store can still take may be the next frame of the active stream. */
  lemma IssuedIsAdmissible(g: Gateway, d: Durable, a: Actor, p: PendingAppend)
    requires Positioned(g, d, a) && Noticed(g, d, a) && Issued(g, a, p) && !Orphaned(d, a)
    ensures Admissible(g, d, p)
  {
    hide DecodedFrames, Records, Prepared, Represents, AllUpdates, Ops, Decodable, Chain, BaseOps;
    SnapshotRuleWeakens(g.lib, p.frame.updates);
  }

  /** What resolving an issued append leaves behind. */
  lemma AppendResolved(g: Gateway, orderly: bool, d: Durable, a: Actor, p: PendingAppend, d': Durable,
                       r: Result<DurableAppend, AppendFailure>)
    requires Sound(g, d) && Positioned(g, d, a) && Noticed(g, d, a) && Issued(g, a, p)
    requires Resolved(g, orderly, d, p, d', r)
    ensures Sound(g, d') && (Exact(g, d) ==> Exact(g, d')) && (TrueEnds(g, d) ==> TrueEnds(g, d'))
    ensures Chain(g, d') == Chain(g, d) && BaseOps(g, d') == BaseOps(g, d)
    ensures forall s :: s != p.target ==> Content(d', s) == Content(d, s)
    ensures forall s, id :: s != p.target ==> NextSequence(d', s, id) == NextSequence(d, s, id)
    ensures d'.streams.Keys == d.streams.Keys
    ensures Positioned(g, d', a) && Known(g, d', a) == Known(g, d, a)
    ensures d' != d ==> !Orphaned(d, a) && Orphaned(d', a) && Frames(g, d', a.generation) == Known(g, d, a) + [p.frame]
    ensures r.Success? ==>
              && Orphaned(d', a) && Frames(g, d', a.generation) == Known(g, d, a) + [p.frame]
              && r.value.nextOffset == |Content(d', a.stream)|
    ensures r.Failure? && r.error.DefinitelyRejected? && Steady(g, orderly) ==> d' == d
    ensures d' == d || Content(d', p.target) == Content(d, p.target) + p.bytes
  {
    hide DecodedFrames, Records, FramesAllowed, Represents, AllUpdates, Ops, Decodable, BlobsAllowed, Encoded, NewFrame,
         Sequences, CheckpointOps, ManifestSound, CheckpointSound, Exact, Chain, Frames, Sound, BaseOps, Resolved, TrueEnds;
    ResolvedSettles(g, orderly, d, p, d', r);
    var G := a.generation;
    if d' != d {
      IssuedIsAdmissible(g, d, a, p);
      LandedFrames(g, d, p, d');
      LandedSound(g, d, p, d');
      FrameProducer(g, p);
    } else if r.Success? {
      SoundDelta(g, d, G);
      OrphanIsStored(g, d, a);
      LastFrame(g, d, G, p);
      var frames := Frames(g, d, G);
      assert frames == frames[..|frames| - 1] + [frames[|frames| - 1]];
    }
  }

  lemma SoundDelta(g: Gateway, d: Durable, j: nat)
    requires Sound(g, d)
    ensures DeltaSound(g, d, j)
  {
    hide DeltaSound, ManifestSound, CheckpointSound;
  }
}
