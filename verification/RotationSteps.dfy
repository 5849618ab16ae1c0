/** Rotation keeps the invariants and the document, wherever it stops. */
module RotationSteps {
  import opened Wrappers
  import opened Bytes
  import opened Frame
  import opened FrameTheorems
  import opened Loro
  import opened Store
  import opened Gateway
  import opened Manifest
  import opened ManifestTheorems
  import opened CheckpointStore
  import opened ManifestStore
  import opened Rotation
  import opened Protocol
  import opened RoomState
  import opened ActorInvariant
  import opened ActorSteps
  import opened RecoveryTheorems
  import Checkpoint
  import CheckpointBuilder

  /** The manifest grew by this record, numbered next. */
  lemma ManifestGrows(g: Gateway, d: Durable, endOffset: U64, doc: Doc, history: seq<seq<byte>>, record: ManifestRecord, d': Durable)
    requires Sound(g, d) && Active(g, d) < TWO_64
    requires Published(g, d, Active(g, d), endOffset, doc, history, record, d')
    ensures Chain(g, d') == Chain(g, d) + [record]
    ensures ManifestSound(g, d')
    ensures VerifiesCheckpoint(g.h, record, Content(d', CheckpointStream(Active(g, d))))
  {
    hide Records, ValidatedChain, EncodedManifest, NewManifestRecord, CheckpointBytes, CheckpointBuilder.Built, DeltaSound, CheckpointSound;
    var G := Active(g, d);
    AppendRecord(g.h, Content(d, ManifestStream), record);
    NewRecordFields(g, record.revision, record.previousRecordDigest, G, d'.streams[CheckpointStream(G)], G + 1);
    var longer := Chain(g, d) + [record];
    ChainRevisions(g.h, longer, g.room, G);
    assert Chain(g, d') == longer;
    forall i | 0 <= i < Active(g, d') ensures Numbered(Chain(g, d')[i], i) {
      if i < G {
        assert Numbered(Chain(g, d)[i], i);
      }
    }
  }

  /** The stored checkpoint is what the builder made of the live document: its snapshot and the outstanding updates. */
  lemma CheckpointHolds(g: Gateway, d: Durable, a: Actor, ops: set<OpId>, record: ManifestRecord, d': Durable)
    requires WellConfigured(g) && Represents(g.lib, a.doc, a.history, ops)
    requires Published(g, d, a.generation, a.endOffset, a.doc, a.history, record, d')
    ensures var c := StoredCheckpoint(g, d', a.generation);
            && Content(d', CheckpointStream(a.generation)) != []
            && c.Success?
            && CheckpointBuilder.Built(g.h, g.lib, g.room, a.generation, a.generation, a.endOffset, a.doc, a.history) == Success(c.value)
            && c.value.roomHash == Checkpoint.RoomHash(g.h, g.room)
            && c.value.checkpointGeneration == a.generation && c.value.sourceDeltaGeneration == a.generation
            && c.value.sourceDeltaEndOffset == a.endOffset
            && g.lib.ops(c.value.snapshot).Some? && DocOf(g.lib, BlobOps(g.lib, c.value.snapshot)).pending == {}
            && Decodable(g.lib, c.value.pendingUpdates)
    ensures CheckpointOps(g, d', a.generation) == ops
    ensures Represents(g.lib, a.doc, StoredCheckpoint(g, d', a.generation).value.pendingUpdates, ops)
  {
    hide Records, ValidatedChain, EncodedManifest, NewManifestRecord, CheckpointBuilder.Built, Settle, Chain, Ops,
         Checkpoint.Encoded, Checkpoint.Decoded, Publishable, CheckpointBuilder.Outstanding, CheckpointBuilder.Restored,
         Checkpoint.CheckpointDigest;
    var G := a.generation;
    CheckpointBuilder.RetentionExact(g.h, g.lib, g.room, G, G, a.endOffset, a.doc, a.history, ops);
    var c := CheckpointBuilder.Built(g.h, g.lib, g.room, G, G, a.endOffset, a.doc, a.history).value;
    Checkpoint.CheckpointRoundTrip(g.h, c, Checkpoint.DEFAULT_LIMITS);
    Checkpoint.EncodedIffFits(g.h, c, Checkpoint.DEFAULT_LIMITS);
    Checkpoint.WireLength(g.h, c);
    SnapshotIsComplete(g.lib, ops);
  }

  lemma RotationKeepsDeltas(g: Gateway, d: Durable, d': Durable, generation: nat)
    requires SameElsewhere(d, d', generation) && forall j: nat :: DeltaSound(g, d, j)
    ensures forall j: nat :: DeltaSound(g, d', j) && Frames(g, d', j) == Frames(g, d, j)
    ensures forall j: nat, id :: NextSequence(d', DeltaStream(j), id) == NextSequence(d, DeltaStream(j), id)
  {
    hide DecodedFrames, FramesAllowed, Decodable, AllUpdates, Sequences;
    forall j: nat ensures DeltaSound(g, d', j) && Frames(g, d', j) == Frames(g, d, j) {
      assert DeltaSound(g, d, j);
    }
  }

  lemma KeepCheckpoints(g: Gateway, d: Durable, d': Durable)
    requires Sound(g, d) && SameElsewhere(d, d', Active(g, d))
    requires Chain(g, d) <= Chain(g, d')
    ensures forall i :: 0 <= i < Active(g, d) ==> CheckpointSound(g, d', i) && StoredCheckpoint(g, d', i) == StoredCheckpoint(g, d, i)
  {
    hide Records, Checkpoint.Decoded, VerifiesCheckpoint, DocOf, Decodable, DeltaSound, ManifestSound;
    forall i | 0 <= i < Active(g, d) ensures CheckpointSound(g, d', i) && StoredCheckpoint(g, d', i) == StoredCheckpoint(g, d, i) {
      assert CheckpointSound(g, d, i);
      assert Chain(g, d')[i] == Chain(g, d)[i];
    }
  }

  /** A rotation that did not reach the manifest changed nothing that recovery looks at. */
  lemma UnpublishedKeeps(g: Gateway, d: Durable, d': Durable)
    requires Sound(g, d) && SameElsewhere(d, d', Active(g, d))
    requires Content(d', ManifestStream) == Content(d, ManifestStream)
    ensures Sound(g, d') && (Exact(g, d) ==> Exact(g, d')) && (TrueEnds(g, d) ==> TrueEnds(g, d'))
    ensures Chain(g, d') == Chain(g, d) && RecoveredOps(g, d') == RecoveredOps(g, d)
  {
    hide Records, DeltaSound, CheckpointSound, Frames, StoredCheckpoint, ValidatedChain, EveryUpdate;
    RotationKeepsDeltas(g, d, d', Active(g, d));
    KeepCheckpoints(g, d, d');
    if Exact(g, d) {
      forall i | 0 <= i < Active(g, d') ensures ExactAt(g, d', i) {
        assert ExactAt(g, d, i);
        SameUpdates(g, d, d', i + 1);
      }
    }
    if TrueEnds(g, d) {
      forall i | 0 <= i < Active(g, d') ensures TrueEnd(g, d', i) {
        assert TrueEnd(g, d, i);
      }
    }
  }

  /** A published rotation makes what the actor's document carries the base of the next, empty generation. */
  lemma PublishedKeeps(g: Gateway, d: Durable, a: Actor, ops: set<OpId>, record: ManifestRecord, d': Durable)
    requires WellConfigured(g) && Sound(g, d) && a.generation == Active(g, d) && Represents(g.lib, a.doc, a.history, ops)
    requires SameElsewhere(d, d', a.generation)
    requires Published(g, d, a.generation, a.endOffset, a.doc, a.history, record, d')
    ensures Sound(g, d') && Chain(g, d') == Chain(g, d) + [record]
    ensures Frames(g, d', Active(g, d')) == [] && DeltaStream(Active(g, d')) in d'.streams
    ensures BaseOps(g, d') == ops == RecoveredOps(g, d')
    ensures forall id :: NextSequence(d', DeltaStream(Active(g, d')), id) == 0
    ensures Exact(g, d') <==> Exact(g, d) && ops == RecoveredOps(g, d) && a.endOffset == |Content(d, DeltaStream(a.generation))|
    ensures TrueEnds(g, d') <==> TrueEnds(g, d) && a.endOffset == |Content(d, DeltaStream(a.generation))|
    ensures StoredCheckpoint(g, d', a.generation).Success?
    ensures StoredCheckpoint(g, d', a.generation).value.sourceDeltaEndOffset == a.endOffset
  {
    hide Records, DeltaSound, Frames, StoredCheckpoint, ValidatedChain, EveryUpdate, VerifiesCheckpoint, Represents, CheckpointOps,
         NewManifestRecord, CheckpointBytes, CheckpointBuilder.Built, RecoveredOps, DocOf, Decodable, Publishable, RecordBytes, Sequences, Exact, TrueEnds;
    var G := a.generation;
    ManifestGrows(g, d, a.endOffset, a.doc, a.history, record, d');
    CheckpointHolds(g, d, a, ops, record, d');
    RotationKeepsDeltas(g, d, d', G);
    KeepCheckpoints(g, d, d');
    NothingStored(g, d', G + 1);
    assert CheckpointSound(g, d', G);
    NothingMore(g, d');
    ExactlyExtended(g, d, d');
    EndsExtended(g, d, d');
  }

  lemma EndsExtended(g: Gateway, d: Durable, d': Durable)
    requires Active(g, d') == Active(g, d) + 1
    requires forall j: nat :: Content(d', DeltaStream(j)) == Content(d, DeltaStream(j))
    requires forall i :: 0 <= i < Active(g, d) ==> StoredCheckpoint(g, d', i) == StoredCheckpoint(g, d, i)
    ensures TrueEnds(g, d') <==> TrueEnds(g, d) && TrueEnd(g, d', Active(g, d))
  {
    hide Chain, StoredCheckpoint;
    assert forall i :: 0 <= i < Active(g, d) ==> (TrueEnd(g, d', i) <==> TrueEnd(g, d, i));
    if TrueEnds(g, d') {
      forall i | 0 <= i < Active(g, d) ensures TrueEnd(g, d, i) {
        assert TrueEnd(g, d', i);
      }
    }
    if TrueEnds(g, d) && TrueEnd(g, d', Active(g, d)) {
      forall i | 0 <= i < Active(g, d') ensures TrueEnd(g, d', i) {
        assert i < Active(g, d) ==> TrueEnd(g, d, i);
      }
    }
  }

  /** One more exact checkpoint. */
  lemma ExactlyExtended(g: Gateway, d: Durable, d': Durable)
    requires Active(g, d') == Active(g, d) + 1
    requires forall j: nat :: Content(d', DeltaStream(j)) == Content(d, DeltaStream(j))
    requires forall i :: 0 <= i < Active(g, d) ==> StoredCheckpoint(g, d', i) == StoredCheckpoint(g, d, i)
    requires StoredCheckpoint(g, d', Active(g, d)).Success?
    ensures Exact(g, d') <==>
              && Exact(g, d)
              && CheckpointOps(g, d', Active(g, d)) == RecoveredOps(g, d)
              && StoredCheckpoint(g, d', Active(g, d)).value.sourceDeltaEndOffset == |Content(d, DeltaStream(Active(g, d)))|
  {
    hide Chain, StoredCheckpoint, EveryUpdate, RecoveredOps;
    var G := Active(g, d);
    forall n: nat ensures EveryUpdate(g, d', n) == EveryUpdate(g, d, n) {
      SameUpdates(g, d, d', n);
    }
    assert forall i :: 0 <= i < G ==> (ExactAt(g, d', i) <==> ExactAt(g, d, i));
    assert Exact(g, d') <==> Exact(g, d) && ExactAt(g, d', G) by {
      if Exact(g, d) && ExactAt(g, d', G) {
        forall i | 0 <= i < Active(g, d') ensures ExactAt(g, d', i) {
          assert i < G ==> ExactAt(g, d, i);
        }
      }
      if Exact(g, d') {
        forall i | 0 <= i < G ensures ExactAt(g, d, i) {
          assert ExactAt(g, d', i);
        }
      }
    }
    if Exact(g, d) {
      RecoveredIsEverything(g, d);
    }
  }

  lemma NothingMore(g: Gateway, d: Durable)
    requires Frames(g, d, Active(g, d)) == []
    ensures RecoveredOps(g, d) == BaseOps(g, d)
  {
    hide Frames, BaseOps, Chain;
  }

  lemma NothingStored(g: Gateway, d: Durable, j: nat)
    requires DeltaSound(g, d, j) && Content(d, DeltaStream(j)) == []
    ensures Frames(g, d, j) == []
    ensures forall id :: NextSequence(d, DeltaStream(j), id) == 0
  {
    hide FramesAllowed, Decodable, AllUpdates;
    forall id ensures NextSequence(d, DeltaStream(j), id) == 0 {
      assert |UpTo(NextSequence(d, DeltaStream(j), id))| == |Sequences([], id)|;
    }
  }

  /** Streams of sealed generations are as they were. */
  ghost predicate SealedSame(d: Durable, d': Durable, n: nat) {
    forall j: nat :: j < n ==>
      Content(d', DeltaStream(j)) == Content(d, DeltaStream(j)) && Content(d', CheckpointStream(j)) == Content(d, CheckpointStream(j))
  }

  lemma LastAdds(h: Platform, frames: seq<DeltaFrame>)
    requires frames != []
    ensures |Stream(h, frames[..|frames| - 1])| < |Stream(h, frames)|
  {
    hide Wire;
    var last := frames[|frames| - 1];
    assert frames == frames[..|frames| - 1] + [last];
    StreamAppend(h, frames[..|frames| - 1], [last]);
    WireLength(h, last);
    assert Stream(h, [last]) == Wire(h, last) + [];
  }

  /** What the actor recorded as the end of its stream is the end, unless an orphan follows. */
  lemma EndOffsetTrue(g: Gateway, d: Durable, a: Actor)
    requires Sound(g, d) && a.lifecycle.Ready? && Anchored(g, d, a)
    ensures a.endOffset == |Content(d, DeltaStream(a.generation))| <==> !Orphaned(d, a)
  {
    hide Frames, Stream, Sound, Noticed, Represents, Issued, DeltaSound, Chain, Orphaned;
    AnchoredParts(g, d, a);
    DeltasSound(g, d, a.generation);
    ContentIsStream(g, d, a.generation);
    if Orphaned(d, a) {
      OrphanIsStored(g, d, a);
      LastAdds(g.h, Frames(g, d, a.generation));
    }
  }

  /** The manifest grew by one record that seals the actor's generation with the actor's document. */
  ghost predicate Advanced(g: Gateway, d: Durable, a: Actor, d': Durable) {
    && a.lifecycle.Ready? && a.generation == Active(g, d)
    && Active(g, d') == Active(g, d) + 1 && Chain(g, d) <= Chain(g, d')
    && RecoveredOps(g, d') == Held(a.doc)
    && (Exact(g, d') <==> Exact(g, d) && Held(a.doc) == RecoveredOps(g, d) && !Orphaned(d, a))
    && (TrueEnds(g, d') <==> TrueEnds(g, d) && !Orphaned(d, a))
    && StoredCheckpoint(g, d', a.generation).Success?
    && StoredCheckpoint(g, d', a.generation).value.sourceDeltaEndOffset == a.endOffset
  }

  /** Nothing that recovery looks at changed. */
  ghost predicate Stayed(g: Gateway, d: Durable, d': Durable) {
    && Chain(g, d') == Chain(g, d) && RecoveredOps(g, d') == RecoveredOps(g, d)
    && (Exact(g, d) ==> Exact(g, d')) && (TrueEnds(g, d) ==> TrueEnds(g, d'))
  }

  /**
   Wherever a rotation stops, storage and actor stay sound and no delta stream changes; either
   nothing recovery looks at changed, or the actor's document became the next generation's base.
   */
  lemma RotateKeeps(g: Gateway, d: Durable, a: Actor, d': Durable, a': Actor, rotated: bool)
    requires WellConfigured(g) && Sound(g, d) && (Live(a) ==> Anchored(g, d, a))
    requires RotateStep(g, d, a, d', a', rotated)
    ensures Sound(g, d') && SealedSame(d, d', Active(g, d))
    ensures forall j: nat :: Content(d', DeltaStream(j)) == Content(d, DeltaStream(j))
    ensures forall j: nat :: Content(d, CheckpointStream(j)) != [] || j > Active(g, d) ==>
              Content(d', CheckpointStream(j)) == Content(d, CheckpointStream(j))
    ensures if Active(g, d') == Active(g, d) then Stayed(g, d, d') && !rotated else Advanced(g, d, a, d')
    ensures Live(a') ==> Live(a) && a'.doc == a.doc && Anchored(g, d', a')
    ensures Live(a') ==> KnownOps(g, d', a') == if rotated then Held(a.doc) else KnownOps(g, d, a)
    ensures Live(a') && Tracked(g, d, a) ==> Tracked(g, d', a')
    ensures rotated ==> Live(a')
  {
    hide Records, DeltaSound, CheckpointOps, KnownOps, Frames, StoredCheckpoint, Sound, Exact, TrueEnds, Published, Chain, Issued, RecoveredOps,
         BaseOps, Stream, Represents, Held, Noticed;
    if a.lifecycle.Ready? && a.blocked.None? {
      var r: Result<RotationResult, RotationError> :| Rotates(g, d, a.generation, a.endOffset, a.doc, a.history, d', r)
        && rotated == r.Success?
        && a' == if r.Success? then AfterRotation(g, a, r.value) else a.(lifecycle := Unavailable);
      AnchoredParts(g, d, a);
      EndOffsetTrue(g, d, a);
      if r.Success? {
        PublishedKeeps(g, d, a, Held(a.doc), r.value.manifest, d');
        SwitchedOver(g, d, a, Held(a.doc), r.value, d');
      } else if Content(d', ManifestStream) == Content(d, ManifestStream) {
        UnpublishedKeeps(g, d, d');
      } else {
        var record :| Published(g, d, a.generation, a.endOffset, a.doc, a.history, record, d');
        PublishedKeeps(g, d, a, Held(a.doc), record, d');
      }
    }
  }

  lemma SwitchedOver(g: Gateway, d: Durable, a: Actor, ops: set<OpId>, r: RotationResult, d': Durable)
    requires WellConfigured(g) && Sound(g, d) && a.generation == Active(g, d) && Represents(g.lib, a.doc, a.history, ops)
    requires a.blocked.None? && SameElsewhere(d, d', a.generation)
    requires Published(g, d, a.generation, a.endOffset, a.doc, a.history, r.manifest, d')
    requires r.nextGeneration == a.generation + 1 && r.retainedHistory == r.checkpoint.pendingUpdates
    requires CheckpointBuilder.Built(g.h, g.lib, g.room, a.generation, a.generation, a.endOffset, a.doc, a.history) == Success(r.checkpoint)
    ensures var a' := AfterRotation(g, a, r);
            Anchored(g, d', a') && KnownOps(g, d', a') == ops && !Orphaned(d', a')
  {
    hide Records, DeltaSound, CheckpointOps, Frames, StoredCheckpoint, Sound, Exact, TrueEnds, Published, Chain, Issued, RecoveredOps, BaseOps,
         DocOf, Decodable, CheckpointBuilder.Built, SameElsewhere, CheckpointSound, Represents, Held;
    PublishedKeeps(g, d, a, ops, r.manifest, d');
    CheckpointHolds(g, d, a, ops, r.manifest, d');
    RepresentsHeld(g.lib, a.doc, a.history, ops);
    var a' := AfterRotation(g, a, r);
    assert Positioned(g, d', a');
    assert Known(g, d', a') == [];
    assert KnownOps(g, d', a') == BaseOps(g, d');
  }

  /** A rotation reaches the manifest only over a checkpoint stream that was empty or holds exactly what it would write. */
  lemma AdvanceNeedsCheckpoint(g: Gateway, d: Durable, a: Actor, d': Durable, a': Actor, rotated: bool)
    requires RotateStep(g, d, a, d', a', rotated) && Content(d', ManifestStream) != Content(d, ManifestStream)
    ensures var built := CheckpointBuilder.Built(g.h, g.lib, g.room, a.generation, a.generation, a.endOffset, a.doc, a.history);
            && built.Success? && CheckpointBytes(g, built.value).Success?
            && (Content(d, CheckpointStream(a.generation)) == []
                || Content(d, CheckpointStream(a.generation)) == CheckpointBytes(g, built.value).value)
  {
    hide CheckpointBuilder.Built, CheckpointBytes, Publishable, RecordBytes, NewManifestRecord;
  }
}
