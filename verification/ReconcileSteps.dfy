/**
 Reconciling a blocked append. The retry settles the append correctly in every generation, but it
 reloads the room from the active delta stream alone (src/actor.rs:909-913), so after a rotation
 the document is right exactly when that stream repeats everything the checkpoint carries.
 */
module ReconcileSteps {
  import opened Wrappers
  import opened Frame
  import opened Loro
  import opened Store
  import opened Gateway
  import opened ManifestTheorems
  import opened Protocol
  import opened RoomState
  import opened Landing
  import opened ActorInvariant
  import opened ActorSteps
  import opened RecoveryTheorems

  /** The active stream, with the blocked append, repeats everything the checkpoint carries. */
  predicate ReconcileSafe(g: Gateway, d: Durable, p: PendingAppend) {
    BaseOps(g, d) <= DeltaOps(g, d, Active(g, d)) + Ops(g.lib, p.frame.updates)
  }

  lemma GenerationZeroIsSafe(g: Gateway, d: Durable, p: PendingAppend)
    requires Active(g, d) == 0
    ensures ReconcileSafe(g, d, p)
  {
  }

  /** Once the append is stored, the active generation carries what it did before and the append's operations. */
  lemma StoredOps(g: Gateway, d: Durable, a: Actor, p: PendingAppend, d': Durable)
    requires a.generation == Active(g, d) && Chain(g, d') == Chain(g, d) && BaseOps(g, d') == BaseOps(g, d)
    requires d' != d ==> !Orphaned(d, a)
    requires Frames(g, d', a.generation) == Known(g, d, a) + [p.frame]
    ensures DeltaOps(g, d', Active(g, d)) == DeltaOps(g, d, Active(g, d)) + Ops(g.lib, p.frame.updates)
    ensures RecoveredOps(g, d') == RecoveredOps(g, d) + Ops(g.lib, p.frame.updates) == KnownOps(g, d, a) + Ops(g.lib, p.frame.updates)
  {
    hide Frames, Records, AllUpdates, BaseOps, Chain, Ops, Orphaned;
    AddFrame(g, Known(g, d, a), p.frame);
  }

  /**
   A retry keeps storage and actor sound. If it resolves, the document holds what the active stream
   carries and nothing else; the frames taken over gain the append's operations either way.
   */
  lemma RetryKeeps(g: Gateway, orderly: bool, d: Durable, a: Actor, d': Durable, a': Actor, resolved: bool)
    requires Sound(g, d) && (Live(a) ==> Anchored(g, d, a))
    requires RetryStep(g, orderly, d, a, d', a', resolved)
    ensures OnlyAppended(g, d, d')
    ensures Live(a') <==> Live(a)
    ensures Live(a') ==> Anchored(g, d', a')
    ensures Live(a') && !resolved ==> Held(a'.doc) == Held(a.doc) && KnownOps(g, d', a') == KnownOps(g, d, a)
    ensures resolved ==>
              && a.blocked.Some? && a'.blocked.None? && Live(a') && !Orphaned(d', a')
              && a'.doc == DocOf(g.lib, DeltaOps(g, d', Active(g, d)))
              && Held(a'.doc) == DeltaOps(g, d', Active(g, d))
              && KnownOps(g, d', a') == KnownOps(g, d, a) + Ops(g.lib, a.blocked.value.frame.updates) == RecoveredOps(g, d')
              && (Held(a'.doc) == KnownOps(g, d', a') <==> ReconcileSafe(g, d, a.blocked.value))
    ensures !resolved && a.blocked.Some? ==> a'.blocked.Some?
    ensures Live(a') && Steady(g, orderly) && Tracked(g, d, a) ==> Tracked(g, d', a')
  {
    hide DecodedFrames, Records, Represents, AllUpdates, Ops, Decodable, Sound, Exact, TrueEnds, Chain, Frames, Loaded, Issued, Held, DocOf,
         Resolved, BaseOps, Prepared, NewFrame, EachAllowed, Positioned, Noticed, KnownOps, RecoveredOps, DeltaOps, Stream, ReconcileSafe;
    if a.blocked.Some? {
      var p := a.blocked.value;
      var r: Result<DurableAppend, AppendFailure> :| Resolved(g, orderly, d, p, d', r) && Settles(g, a, p, r, d', a', resolved);
      AnchoredParts(g, d, a);
      AppendResolved(g, orderly, d, a, p, d', r);
      RecoveredGrows(g, d, a, p, d');
      if resolved {
        Reloaded(g, d, a, p, d', a');
      } else {
        Untaken(g, d, a, d', a');
        IssuedBySame(g, a, p, a');
      }
    } else {
      Unchanged(g, d);
    }
  }

  lemma IssuedBySame(g: Gateway, a: Actor, p: PendingAppend, a': Actor)
    requires Issued(g, a, p) && SameMemory(a, a')
    ensures Issued(g, a', p)
  {
    hide Prepared, BlobsAllowed, Decodable;
  }

  /** The reloaded document: right exactly when the stream repeats what the checkpoint carries. */
  lemma ReconcileExact(g: Gateway, orderly: bool, d: Durable, a: Actor, d': Durable, a': Actor)
    requires Sound(g, d) && Anchored(g, d, a)
    requires RetryStep(g, orderly, d, a, d', a', true)
    ensures a'.doc == DocOf(g.lib, DeltaOps(g, d', Active(g, d')))
    ensures a'.doc == DocOf(g.lib, RecoveredOps(g, d')) <==> ReconcileSafe(g, d, a.blocked.value)
  {
    hide RetryStep, Anchored, Sound, Exact, TrueEnds, Chain, DeltaOps, RecoveredOps, KnownOps, DocOf, ReconcileSafe, Tracked;
    RetryKeeps(g, orderly, d, a, d', a', true);
    DocHolds(g.lib, RecoveredOps(g, d'));
  }

  lemma ReloadedDoc(g: Gateway, d': Durable, a: Actor, p: PendingAppend, a': Actor)
    requires Sound(g, d') && a.stream == DeltaStream(a.generation) && a.stream in d'.streams
    requires ReloadedFrom(g, a, p, d', a')
    ensures a'.history == AllUpdates(Frames(g, d', a.generation))
    ensures a'.doc == DocOf(g.lib, DeltaOps(g, d', a.generation))
    ensures Represents(g.lib, a'.doc, a'.history, DeltaOps(g, d', a.generation))
    ensures Held(a'.doc) == DeltaOps(g, d', a.generation)
  {
    hide Sound, Loaded, DeltaSound, AllUpdates, Frames, DocOf, Ops, Decodable;
    DeltasSound(g, d', a.generation);
    LoadExact(g, d', a.generation);
    LoadedDecodes(g, d', a.generation);
    DocHolds(g.lib, DeltaOps(g, d', a.generation));
  }

  lemma Reloaded(g: Gateway, d: Durable, a: Actor, p: PendingAppend, d': Durable, a': Actor)
    requires Sound(g, d') && Positioned(g, d', a) && Orphaned(d', a) && Issued(g, a, p)
    requires Chain(g, d') == Chain(g, d) && BaseOps(g, d') == BaseOps(g, d)
    requires d' != d ==> !Orphaned(d, a)
    requires Frames(g, d', a.generation) == Known(g, d, a) + [p.frame]
    requires ReloadedFrom(g, a, p, d', a')
    ensures !Orphaned(d', a') && Live(a') && Anchored(g, d', a')
    ensures a'.doc == DocOf(g.lib, DeltaOps(g, d', Active(g, d))) && Held(a'.doc) == DeltaOps(g, d', Active(g, d))
    ensures KnownOps(g, d', a') == KnownOps(g, d, a) + Ops(g.lib, p.frame.updates) == RecoveredOps(g, d')
    ensures Held(a'.doc) == KnownOps(g, d', a') <==> ReconcileSafe(g, d, p)
  {
    hide DecodedFrames, Records, AllUpdates, Ops, Sound, Chain, Frames, Loaded, DocOf, Represents, Held,
         BaseOps, Prepared, NewFrame, EachAllowed, Stream, Decodable;
    StoredOps(g, d, a, p, d');
    ReloadedDoc(g, d', a, p, a');
    assert Known(g, d', a') == Frames(g, d', a.generation);
    DeltasSound(g, d', a.generation);
    ContentIsStream(g, d', a.generation);
    LoadedHistory(g, d', a.generation);
    var base, delta := BaseOps(g, d'), DeltaOps(g, d', a.generation);
    assert KnownOps(g, d', a') == base + delta;
    assert base + delta == delta <==> base <= delta;
  }

  lemma LoadedDecodes(g: Gateway, d: Durable, j: nat)
    requires DeltaSound(g, d, j)
    ensures Decodable(g.lib, AllUpdates(Frames(g, d, j)))
  {
    hide DecodedFrames, Frames, Sequences, AllUpdates, Decodable, FramesAllowed;
  }

  lemma LoadedHistory(g: Gateway, d: Durable, j: nat)
    requires DeltaSound(g, d, j) && Frames(g, d, j) != []
    ensures AllUpdates(Frames(g, d, j)) != []
  {
    hide DecodedFrames, Frames, Sequences, AllUpdates, Decodable;
    AllowedNonempty(g.lib, Frames(g, d, j));
  }
}
