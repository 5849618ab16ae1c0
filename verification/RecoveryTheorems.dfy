/** Recovery never reports corruption on data this gateway wrote, and finds exactly what was committed. */
module RecoveryTheorems {
  import opened Wrappers
  import opened Bytes
  import opened Frame
  import opened Loro
  import opened Store
  import opened Gateway
  import opened Manifest
  import opened ManifestTheorems
  import opened Protocol
  import opened Recovery
  import opened RoomState
  import Checkpoint
  import Landing

  predicate ManifestWithinLimits(g: Gateway, d: Durable) {
    Active(g, d) <= DEFAULT_MANIFEST_LIMITS.maxRecords
  }

  predicate DeltaWithinLimits(g: Gateway, d: Durable, j: nat) {
    |Content(d, DeltaStream(j))| <= g.frameLimits.maxStreamBytes
  }

  /** Nothing is lost by the limits readers enforce: they are the only reason a sound room fails to recover. */
  predicate LimitError(e: RecoveryError) {
    match e
    case ManifestFailed(m) => m.ManifestLimitExceeded?
    case FrameFailed(f) => f.LimitExceeded?
    case _ => false
  }

  lemma HeadFound(g: Gateway, d: Durable)
    requires Sound(g, d)
    ensures Active(g, d) == 0 <==> Content(d, ManifestStream) == []
    ensures Active(g, d) > 0 ==>
              if ManifestWithinLimits(g, d) then ManifestHead(g, Content(d, ManifestStream)) == Success(Chain(g, d)[Active(g, d) - 1])
              else ManifestHead(g, Content(d, ManifestStream)).Failure? && LimitError(ManifestHead(g, Content(d, ManifestStream)).error)
  {
    hide LinksChecked, DecodedManifest;
    BoundedRecords(g.h, Content(d, ManifestStream), 0);
  }

  lemma CheckpointFound(g: Gateway, d: Durable)
    requires Sound(g, d) && Active(g, d) > 0
    ensures var head := Chain(g, d)[Active(g, d) - 1];
            && StreamBytes(d, CheckpointStream(head.checkpointGeneration)) == Success(Content(d, CheckpointStream(Active(g, d) - 1)))
            && StoredCheckpoint(g, d, Active(g, d) - 1).Success?
            && CheckpointFor(g, head, Content(d, CheckpointStream(Active(g, d) - 1))) == Success(StoredCheckpoint(g, d, Active(g, d) - 1).value)
  {
    hide Records, Checkpoint.Decoded, VerifiesCheckpoint, DocOf, Decodable, ValidatedChain;
    var i := Active(g, d) - 1;
    assert CheckpointSound(g, d, i);
    assert Numbered(Chain(g, d)[i], i);
  }

  /** Importing a batch of decodable updates into the document of s. */
  lemma ImportedIsUnion(g: Gateway, s: set<OpId>, updates: seq<seq<byte>>)
    requires Decodable(g.lib, updates)
    ensures Imported(g, DocOf(g.lib, s), updates) == Success(DocOf(g.lib, s + Ops(g.lib, updates)))
  {
    hide Settle;
    ImportIsUnion(g.lib, s, Ops(g.lib, updates));
    if updates == [] {
      assert s + {} == s;
    }
  }

  lemma CheckpointLoads(g: Gateway, d: Durable, i: nat)
    requires i < Active(g, d) && CheckpointSound(g, d, i)
    ensures CheckpointDoc(g, StoredCheckpoint(g, d, i).value) == Success(DocOf(g.lib, CheckpointOps(g, d, i)))
  {
    hide Checkpoint.Decoded, DocOf, Decodable, Ops, VerifiesCheckpoint;
    var c := StoredCheckpoint(g, d, i).value;
    ImportedIsUnion(g, BlobOps(g.lib, c.snapshot), c.pendingUpdates);
  }

  /** What the active stream holds is found unless it outgrew the reader's limit. */
  lemma FramesFound(g: Gateway, d: Durable, j: nat)
    requires DeltaSound(g, d, j)
    ensures DeltaFrames(g, Content(d, DeltaStream(j)))
         == if DeltaWithinLimits(g, d, j) then Success(Frames(g, d, j))
            else Failure(FrameFailed(LimitExceeded("stream bytes", |Content(d, DeltaStream(j))|, g.frameLimits.maxStreamBytes)))
  {
    hide DecodedFrames, FramesAllowed, Decodable, Sequences;
  }

  /** The history recovery returns carries every operation the document still waits on. */
  lemma HistoryCovers(g: Gateway, d: Durable, i: nat, active: seq<seq<byte>>)
    requires i < Active(g, d) && CheckpointSound(g, d, i) && Decodable(g.lib, active)
    ensures var ops := CheckpointOps(g, d, i) + Ops(g.lib, active);
            Represents(g.lib, DocOf(g.lib, ops), StoredCheckpoint(g, d, i).value.pendingUpdates + active, ops)
  {
    hide Settle, Ops, Checkpoint.Decoded, VerifiesCheckpoint;
    var c := StoredCheckpoint(g, d, i).value;
    var snapshot := BlobOps(g.lib, c.snapshot);
    var ops := CheckpointOps(g, d, i) + Ops(g.lib, active);
    OpsAppend(g.lib, c.pendingUpdates, active);
    Landing.DecodableAppend(g.lib, c.pendingUpdates, active);
    AppliedIsCausalClosure(g.lib, snapshot);
    AppliedIsCausalClosure(g.lib, ops);
    AppliedMonotone(g.lib, snapshot, ops);
  }

  /**
   A sound room recovers if and only if manifest and active stream are within the readers' limits,
   and then to the document of everything the checkpoint and the active stream carry.
   */
  lemma RecoveryExact(g: Gateway, d: Durable)
    requires Sound(g, d)
    ensures Active(g, d) == 0 ==> Recovered(g, d) == Success(None)
    ensures Active(g, d) > 0 ==> (Recovered(g, d).Success? <==> ManifestWithinLimits(g, d) && DeltaWithinLimits(g, d, Active(g, d)))
    ensures Recovered(g, d).Failure? ==> LimitError(Recovered(g, d).error)
    ensures Active(g, d) > 0 && Recovered(g, d).Success? ==>
              && Recovered(g, d).value.Some?
              && var r := Recovered(g, d).value.value;
              && r.doc == DocOf(g.lib, RecoveredOps(g, d))
              && r.checkpointGeneration == Active(g, d) - 1
              && r.activeDeltaGeneration == Active(g, d)
              && r.activeDeltaEndOffset == |Content(d, DeltaStream(Active(g, d)))|
              && Represents(g.lib, r.doc, r.history, RecoveredOps(g, d))
              && (Frames(g, d, Active(g, d)) != [] ==> r.history != [])
  {
    hide Settle, DecodedFrames, Records, Checkpoint.Decoded, Sequences, FramesAllowed, ManifestHead, CheckpointFor, CheckpointDoc,
         DeltaFrames, Imported, Ops, DocOf, Decodable, Represents, AllUpdates, CheckpointOps;
    HeadFound(g, d);
    if Active(g, d) > 0 {
      var n := Active(g, d);
      CheckpointFound(g, d);
      assert CheckpointSound(g, d, n - 1);
      CheckpointLoads(g, d, n - 1);
      assert Numbered(Chain(g, d)[n - 1], n - 1);
      assert DeltaSound(g, d, n);
      FramesFound(g, d, n);
      ImportedIsUnion(g, CheckpointOps(g, d, n - 1), AllUpdates(Frames(g, d, n)));
      HistoryCovers(g, d, n - 1, AllUpdates(Frames(g, d, n)));
      Landing.AllowedNonempty(g.lib, Frames(g, d, n));
    }
  }

  /** Reloading one sound stream from nothing gives its frames' updates and the document of their operations. */
  lemma LoadExact(g: Gateway, d: Durable, j: nat)
    requires DeltaSound(g, d, j)
    ensures Loaded(g, Content(d, DeltaStream(j))).Success? <==> DeltaWithinLimits(g, d, j)
    ensures DeltaWithinLimits(g, d, j) ==>
              Loaded(g, Content(d, DeltaStream(j))) == Success((AllUpdates(Frames(g, d, j)), DocOf(g.lib, DeltaOps(g, d, j))))
  {
    hide DecodedFrames, FramesAllowed, Sequences, AllUpdates, DocOf, Decodable, Replayed;
    ReplayIsDocOf(g.lib, AllUpdates(Frames(g, d, j)));
  }

  /** Replaying every committed update, generation by generation. */
  lemma {:induction false} EveryUpdateDecodes(g: Gateway, d: Durable, n: nat)
    requires Sound(g, d)
    ensures Decodable(g.lib, EveryUpdate(g, d, n))
    ensures Replayed(g.lib, EveryUpdate(g, d, n)) == Success(DocOf(g.lib, Ops(g.lib, EveryUpdate(g, d, n))))
  {
    hide DecodedFrames, FramesAllowed, Sequences, AllUpdates, DocOf, Frames, ManifestSound, CheckpointSound, Replayed;
    if n > 0 {
      EveryUpdateDecodes(g, d, n - 1);
      assert DeltaSound(g, d, n - 1);
      Landing.DecodableAppend(g.lib, EveryUpdate(g, d, n - 1), AllUpdates(Frames(g, d, n - 1)));
    }
    ReplayIsDocOf(g.lib, EveryUpdate(g, d, n));
  }

  /** With exact checkpoints, what a restart finds is everything ever committed. */
  lemma RecoveredIsEverything(g: Gateway, d: Durable)
    requires Exact(g, d)
    ensures RecoveredOps(g, d) == Ops(g.lib, EveryUpdate(g, d, Active(g, d) + 1))
  {
    hide Frames, Records, AllUpdates, StoredCheckpoint, Chain, CheckpointOps;
    var n := Active(g, d);
    OpsAppend(g.lib, EveryUpdate(g, d, n), AllUpdates(Frames(g, d, n)));
    if n > 0 {
      assert ExactAt(g, d, n - 1);
    }
  }

  lemma RestartedExact(g: Gateway, d: Durable)
    requires Sound(g, d)
    ensures Restarted(g, d).Success? <==> ManifestWithinLimits(g, d) && DeltaWithinLimits(g, d, Active(g, d))
    ensures Restarted(g, d).Success? ==> Restarted(g, d).value == DocOf(g.lib, RecoveredOps(g, d))
  {
    hide DecodedFrames, DocOf, Frames, Recovered, Loaded, Records, Represents, Sound, AllUpdates, CheckpointOps, Ops;
    RecoveryExact(g, d);
    if Active(g, d) == 0 {
      DeltasSound(g, d, 0);
      LoadExact(g, d, 0);
      assert {} + DeltaOps(g, d, 0) == DeltaOps(g, d, 0);
    }
  }

  /** With exact checkpoints, a restart finds the document that replaying every frame ever committed gives. */
  lemma RecoveryIsFullReplay(g: Gateway, d: Durable)
    requires Sound(g, d) && Exact(g, d)
    requires ManifestWithinLimits(g, d) && DeltaWithinLimits(g, d, Active(g, d))
    ensures Restarted(g, d).Success?
    ensures Replayed(g.lib, EveryUpdate(g, d, Active(g, d) + 1)) == Success(Restarted(g, d).value)
  {
    hide Sound, Exact, Restarted, Replayed, DocOf, Frames, AllUpdates, EveryUpdate;
    RestartedExact(g, d);
    RecoveredIsEverything(g, d);
    EveryUpdateDecodes(g, d, Active(g, d) + 1);
  }

  lemma DeltasSound(g: Gateway, d: Durable, j: nat)
    requires Sound(g, d)
    ensures DeltaSound(g, d, j)
  {
    hide DeltaSound, ManifestSound, CheckpointSound;
  }
}
