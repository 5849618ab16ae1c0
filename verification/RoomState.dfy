/** What the stored bytes of a room mean, and the invariant that every step of its gateway keeps. */
module RoomState {
  import opened Wrappers
  import opened Bytes
  import opened Frame
  import opened Loro
  import opened Store
  import opened Gateway
  import opened Manifest
  import opened ManifestTheorems
  import opened Protocol
  import Checkpoint

  /** The frames stored for one generation. */
  function Frames(g: Gateway, d: Durable, j: nat): seq<DeltaFrame> {
    match DecodedFrames(g.h, Content(d, DeltaStream(j)), 0, g.frameLimits)
    case Success(frames) => frames
    case Failure(_) => []
  }

  /** The manifest's records. */
  function Chain(g: Gateway, d: Durable): seq<ManifestRecord> {
    match Records(g.h, Content(d, ManifestStream))
    case Success(records) => records
    case Failure(_) => []
  }

  /** The active generation: every published record sealed one. */
  function Active(g: Gateway, d: Durable): nat {
    |Chain(g, d)|
  }

  /** Every update committed to the first n generations, in order. */
  function EveryUpdate(g: Gateway, d: Durable, n: nat): seq<seq<byte>> {
    if n == 0 then [] else EveryUpdate(g, d, n - 1) + AllUpdates(Frames(g, d, n - 1))
  }

  function DeltaOps(g: Gateway, d: Durable, j: nat): set<OpId> {
    Ops(g.lib, AllUpdates(Frames(g, d, j)))
  }

  function StoredCheckpoint(g: Gateway, d: Durable, j: nat): Result<Checkpoint.CheckpointRecord, Checkpoint.CheckpointError> {
    Checkpoint.Decoded(g.h, Content(d, CheckpointStream(j)), Checkpoint.DEFAULT_LIMITS)
  }

  /** The operations a stored checkpoint carries, applied and pending. */
  function CheckpointOps(g: Gateway, d: Durable, j: nat): set<OpId> {
    match StoredCheckpoint(g, d, j)
    case Success(c) => BlobOps(g.lib, c.snapshot) + Ops(g.lib, c.pendingUpdates)
    case Failure(_) => {}
  }

  /** What the head of the manifest names as the start of the active generation. */
  function BaseOps(g: Gateway, d: Durable): set<OpId> {
    if Active(g, d) == 0 then {} else CheckpointOps(g, d, Active(g, d) - 1)
  }

  /** What a restart would find. */
  function RecoveredOps(g: Gateway, d: Durable): set<OpId> {
    BaseOps(g, d) + DeltaOps(g, d, Active(g, d))
  }

  // ---------------------------------------------------------------- producers

  /** The sequence numbers of one producer's frames, in stream order. */
  function Sequences(frames: seq<DeltaFrame>, id: seq<byte>): seq<nat> {
    if frames == [] then []
    else
      var rest := Sequences(frames[1..], id);
      if frames[0].producer.id == id then [frames[0].producer.sequence] + rest else rest
  }

  function UpTo(n: nat): seq<nat> {
    seq(n, i => i)
  }

  /** The sequence number the store expects next from a producer. */
  function NextSequence(d: Durable, s: StreamKey, id: seq<byte>): nat {
    if (s, id) in d.producers then d.producers[(s, id)].sequence + 1 else 0
  }

  lemma {:induction false} SequencesAppend(frames: seq<DeltaFrame>, f: DeltaFrame, id: seq<byte>)
    ensures Sequences(frames + [f], id)
         == Sequences(frames, id) + if f.producer.id == id then [f.producer.sequence] else []
  {
    if frames == [] {
      assert [] + [f] == [f];
    } else {
      assert (frames + [f])[1..] == frames[1..] + [f];
      SequencesAppend(frames[1..], f, id);
    }
  }

  // ---------------------------------------------------------------- invariant

  ghost predicate ManifestSound(g: Gateway, d: Durable) {
    && Records(g.h, Content(d, ManifestStream)).Success?
    && (Chain(g, d) != [] ==> ValidatedChain(g.h, Chain(g, d), g.room).Success?)
    && forall i :: 0 <= i < Active(g, d) ==> Numbered(Chain(g, d)[i], i)
  }

  /** Record i of a manifest seals generation i and opens generation i + 1. */
  predicate Numbered(r: ManifestRecord, i: nat) {
    r.revision == i && r.checkpointGeneration == i && r.activeDeltaGeneration == i + 1
  }

  /** The checkpoint of a sealed generation is stored whole, is the one the manifest names, and can be loaded. */
  ghost predicate CheckpointSound(g: Gateway, d: Durable, i: nat)
    requires i < Active(g, d)
  {
    && CheckpointStream(i) in d.streams && Content(d, CheckpointStream(i)) != []
    && VerifiesCheckpoint(g.h, Chain(g, d)[i], Content(d, CheckpointStream(i)))
    && StoredCheckpoint(g, d, i).Success?
    && var c := StoredCheckpoint(g, d, i).value;
    && c.roomHash == Checkpoint.RoomHash(g.h, g.room)
    && c.checkpointGeneration == i && c.sourceDeltaGeneration == i && i + 1 < TWO_64
    && g.lib.ops(c.snapshot).Some? && DocOf(g.lib, BlobOps(g.lib, c.snapshot)).pending == {}
    && Decodable(g.lib, c.pendingUpdates)
  }

  /** A delta stream holds whole, admissible frames, and each producer's frames are numbered without gap or repeat. */
  ghost predicate DeltaSound(g: Gateway, d: Durable, j: nat) {
    && DecodedFrames(g.h, Content(d, DeltaStream(j)), 0, g.frameLimits).Success?
    && FramesAllowed(g.lib, Frames(g, d, j), true).Success?
    && Decodable(g.lib, AllUpdates(Frames(g, d, j)))
    && forall id :: Sequences(Frames(g, d, j), id) == UpTo(NextSequence(d, DeltaStream(j), id))
  }

  ghost predicate Sound(g: Gateway, d: Durable) {
    && ManifestSound(g, d)
    && (forall i :: 0 <= i < Active(g, d) ==> CheckpointSound(g, d, i))
    && (forall j: nat :: DeltaSound(g, d, j))
    && (forall j: nat :: j > Active(g, d) ==> Content(d, DeltaStream(j)) == [])
    && (Active(g, d) > 0 ==> DeltaStream(Active(g, d)) in d.streams)
  }

  /** Every checkpoint carries exactly what all frames up to its generation carry, and names its stream's full length. */
  ghost predicate Exact(g: Gateway, d: Durable) {
    forall i :: 0 <= i < Active(g, d) ==> ExactAt(g, d, i)
  }

  ghost predicate ExactAt(g: Gateway, d: Durable, i: nat) {
    && CheckpointOps(g, d, i) == Ops(g.lib, EveryUpdate(g, d, i + 1))
    && TrueEnd(g, d, i)
  }

  /** Every checkpoint names the full length of the stream it sealed. */
  ghost predicate TrueEnds(g: Gateway, d: Durable) {
    forall i :: 0 <= i < Active(g, d) ==> TrueEnd(g, d, i)
  }

  predicate TrueEnd(g: Gateway, d: Durable, i: nat) {
    && StoredCheckpoint(g, d, i).Success?
    && StoredCheckpoint(g, d, i).value.sourceDeltaEndOffset == |Content(d, DeltaStream(i))|
  }

  /** An empty store. */
  const NOTHING: Durable := Durable(map[], map[])

  lemma EmptyIsSound(g: Gateway)
    ensures Sound(g, NOTHING) && Exact(g, NOTHING) && TrueEnds(g, NOTHING) && Active(g, NOTHING) == 0
  {
    assert forall j: nat :: Frames(g, NOTHING, j) == [];
    assert forall j: nat, id :: Sequences(Frames(g, NOTHING, j), id) == UpTo(NextSequence(NOTHING, DeltaStream(j), id));
    assert Chain(g, NOTHING) == [];
  }

  // ---------------------------------------------------------------- what depends on what

  /** Nothing a room's state means depends on more than its manifest, checkpoints and delta streams. */
  lemma {:induction false} SameUpdates(g: Gateway, d: Durable, d': Durable, n: nat)
    requires forall j: nat :: j < n ==> Content(d', DeltaStream(j)) == Content(d, DeltaStream(j))
    ensures EveryUpdate(g, d', n) == EveryUpdate(g, d, n)
  {
    hide DecodedFrames;
    if n > 0 {
      SameUpdates(g, d, d', n - 1);
    }
  }

  /** Same bytes in every stream and same producers: same meaning. */
  ghost predicate Equivalent(d: Durable, d': Durable) {
    && (forall s :: Content(d', s) == Content(d, s))
    && d.streams.Keys <= d'.streams.Keys
    && d'.producers == d.producers
  }

  lemma EquivalentSound(g: Gateway, d: Durable, d': Durable)
    requires Sound(g, d) && Equivalent(d, d')
    ensures Sound(g, d')
    ensures Chain(g, d') == Chain(g, d) && RecoveredOps(g, d') == RecoveredOps(g, d)
    ensures forall j: nat :: Frames(g, d', j) == Frames(g, d, j)
    ensures (Exact(g, d) ==> Exact(g, d')) && (TrueEnds(g, d) ==> TrueEnds(g, d'))
  {
    hide DecodedFrames, Records, ValidatedChain, FramesAllowed, Checkpoint.Decoded, DocOf, VerifiesCheckpoint, Decodable, AllUpdates, Sequences, EveryUpdate;
    forall j: nat ensures DeltaSound(g, d', j) {
      assert DeltaSound(g, d, j);
    }
    forall i | 0 <= i < Active(g, d') ensures CheckpointSound(g, d', i) {
      assert CheckpointSound(g, d, i);
    }
    if Exact(g, d) {
      forall i | 0 <= i < Active(g, d') ensures ExactAt(g, d', i) {
        assert ExactAt(g, d, i);
        SameUpdates(g, d, d', i + 1);
      }
    }
    if TrueEnds(g, d) {
      forall i | 0 <= i < Active(g, d) ensures TrueEnd(g, d', i) {
        assert TrueEnd(g, d, i);
      }
    }
  }
}
