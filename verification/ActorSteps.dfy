/** Every command of the room actor keeps the invariants, whatever the store does meanwhile. */
module ActorSteps {
  import opened Wrappers
  import opened Bytes
  import opened Frame
  import opened FrameTheorems
  import opened Loro
  import opened Store
  import opened Gateway
  import opened ManifestTheorems
  import opened Protocol
  import opened RoomState
  import opened Landing
  import opened ActorInvariant
  import opened Updates
  import FrameLayout

  /** The active stream is exactly its frames laid end to end. */
  lemma ContentIsStream(g: Gateway, d: Durable, j: nat)
    requires DeltaSound(g, d, j)
    ensures Content(d, DeltaStream(j)) == Stream(g.h, Frames(g, d, j))
  {
    hide Wire, DecodedFrames, FramesAllowed, Decodable, Sequences, AllUpdates;
    StreamCanonical(g.h, Content(d, DeltaStream(j)), 0, g.frameLimits);
  }

  lemma KnownIsRecovered(g: Gateway, d: Durable, a: Actor)
    requires a.generation == Active(g, d)
    ensures KnownOps(g, d, a) <= RecoveredOps(g, d)
    ensures !Orphaned(d, a) ==> KnownOps(g, d, a) == RecoveredOps(g, d)
  {
    hide Frames, Records, AllUpdates, BaseOps, Chain, Orphaned;
    var frames := Frames(g, d, a.generation);
    if Orphaned(d, a) && frames != [] {
      var known, last := frames[..|frames| - 1], frames[|frames| - 1..];
      assert frames == known + last;
      AllUpdatesAppend(known, last);
      OpsAppend(g.lib, AllUpdates(known), AllUpdates(last));
    }
  }

  lemma AddFrame(g: Gateway, frames: seq<DeltaFrame>, f: DeltaFrame)
    ensures AllUpdates(frames + [f]) == AllUpdates(frames) + f.updates
    ensures Ops(g.lib, AllUpdates(frames + [f])) == Ops(g.lib, AllUpdates(frames)) + Ops(g.lib, f.updates)
  {
    AllUpdatesAppend(frames, [f]);
    OneFrame(f);
    OpsAppend(g.lib, AllUpdates(frames), f.updates);
  }

  // ---------------------------------------------------------------- update

  /** What is prepared for the store was validated, and its candidate holds the new operations as well. */
  lemma PreparedUpdate(g: Gateway, a: Actor, batchId: BatchId, updates: seq<seq<byte>>)
    requires WellConfigured(g) && a.producerId == g.names.delta(a.boot, a.generation)
    requires Represents(g.lib, a.doc, a.history, Held(a.doc))
    requires Prepare(g, a, batchId, updates).Success?
    ensures var (candidate, p) := Prepare(g, a, batchId, updates).value;
            && Issued(g, a, p) && p.frame.updates == updates
            && candidate == DocOf(g.lib, Held(a.doc) + Ops(g.lib, updates))
            && Represents(g.lib, candidate, a.history + updates, Held(a.doc) + Ops(g.lib, updates))
  {
    hide Candidate, Encoded, BlobsAllowed, Held, DocOf, Decodable, Represents, Ops, UpdateDigest;
    CandidateIsFullReplay(g.lib, a.doc, a.history, updates, Held(a.doc));
  }

  /** The actor after an acknowledged append has taken over the appended frame. */
  lemma Acknowledged(g: Gateway, d: Durable, a: Actor, p: PendingAppend, d': Durable, a': Actor)
    requires Sound(g, d') && Positioned(g, d', a) && Chain(g, d') == Chain(g, d) && BaseOps(g, d') == BaseOps(g, d)
    requires a.generation == Active(g, d)
    requires Orphaned(d', a) && Frames(g, d', a.generation) == Known(g, d, a) + [p.frame] && p.frame.updates != []
    requires a.sequence + 1 < TWO_64
    requires a' == a.(sequence := a.sequence + 1, endOffset := |Content(d', a.stream)|, history := a.history + p.frame.updates,
                      doc := a'.doc, blocked := None, lifecycle := Ready)
    requires Represents(g.lib, a'.doc, a'.history, Held(a'.doc))
    ensures Anchored(g, d', a') && !Orphaned(d', a')
    ensures KnownOps(g, d', a') == KnownOps(g, d, a) + Ops(g.lib, p.frame.updates)
  {
    hide DecodedFrames, Records, Represents, AllUpdates, Ops, DocOf, Decodable, Sound, Chain, BaseOps, Frames, NewFrame, Issued, Held;
    AddFrame(g, Known(g, d, a), p.frame);
    SoundDelta(g, d', a.generation);
    ContentIsStream(g, d', a.generation);
    assert Known(g, d', a') == Frames(g, d', a.generation);
    assert |a.history + p.frame.updates| >= |p.frame.updates|;
  }

  /** Same memory, same frames taken over. */
  ghost predicate SameMemory(a: Actor, a': Actor) {
    a' == a.(blocked := a'.blocked, lifecycle := a'.lifecycle, endOffset := a'.endOffset)
  }

  /** A step that takes no frame over changes nothing about what the actor knows. */
  lemma Untaken(g: Gateway, d: Durable, a: Actor, d': Durable, a': Actor)
    requires Noticed(g, d, a) && Positioned(g, d', a) && SameMemory(a, a')
    requires Known(g, d', a) == Known(g, d, a) && BaseOps(g, d') == BaseOps(g, d)
    ensures Positioned(g, d', a') && Noticed(g, d', a') && KnownOps(g, d', a') == KnownOps(g, d, a)
    ensures Orphaned(d', a') == Orphaned(d', a)
    ensures Known(g, d', a') == Known(g, d, a)
  {
    hide Frames, AllUpdates, Ops, BaseOps, Chain;
  }

  /** The active delta stream may have grown; everything else stored is as it was. */
  ghost predicate OnlyAppended(g: Gateway, d: Durable, d': Durable) {
    && Sound(g, d') && (Exact(g, d) ==> Exact(g, d')) && (TrueEnds(g, d) ==> TrueEnds(g, d'))
    && Chain(g, d') == Chain(g, d)
    && (forall s :: s != DeltaStream(Active(g, d)) ==> Content(d', s) == Content(d, s))
    && Content(d, DeltaStream(Active(g, d))) <= Content(d', DeltaStream(Active(g, d)))
    && RecoveredOps(g, d) <= RecoveredOps(g, d')
  }

  /** An update keeps storage and actor sound; on acknowledgement both document and taken-over frames gain its operations. */
  lemma UpdateKeeps(g: Gateway, orderly: bool, d: Durable, a: Actor, joined: bool, batchId: BatchId, updates: seq<seq<byte>>,
                    d': Durable, a': Actor, status: Status)
    requires WellConfigured(g) && Sound(g, d) && (Live(a) ==> Anchored(g, d, a))
    requires UpdateStep(g, orderly, d, a, joined, batchId, updates, d', a', status)
    ensures OnlyAppended(g, d, d')
    ensures Live(a') <==> Live(a)
    ensures status.AckOk? ==> Live(a')
    ensures Live(a') ==> Anchored(g, d', a')
    ensures Live(a') ==>
              var acks := if status.AckOk? then Ops(g.lib, updates) else {};
              Held(a'.doc) == Held(a.doc) + acks && KnownOps(g, d', a') == KnownOps(g, d, a) + acks
    ensures Live(a') && Steady(g, orderly) && Tracked(g, d, a) ==> Tracked(g, d', a')
  {
    hide Sound, Exact, TrueEnds, Chain, Prepare, Resolved, Anchored, Tracked, KnownOps, RecoveredOps, Held;
    if a.lifecycle.Ready? && a.blocked.None? && joined && Prepare(g, a, batchId, updates).Success? {
      var (candidate, p) := Prepare(g, a, batchId, updates).value;
      AnchoredParts(g, d, a);
      PreparedUpdate(g, a, batchId, updates);
      var r :| Resolved(g, orderly, d, p, d', r) && (a', status) == AfterAppend(a, candidate, p, r);
      UpdateResolved(g, orderly, d, a, candidate, p, d', a', status, r);
    } else {
      Unchanged(g, d);
    }
  }

  /** The frame of an acknowledged batch, as the client sent it, is the last of the active stream, right after those taken over. */
  lemma AcknowledgedFrame(g: Gateway, orderly: bool, d: Durable, a: Actor, joined: bool, batchId: BatchId, updates: seq<seq<byte>>,
                          d': Durable, a': Actor, status: Status)
    requires WellConfigured(g) && Sound(g, d) && Live(a) && Anchored(g, d, a)
    requires UpdateStep(g, orderly, d, a, joined, batchId, updates, d', a', status)
    ensures status.AckOk? || d' != d ==> Frames(g, d', a.generation) == Known(g, d, a) + [FrameOf(g, a, batchId, updates)]
    ensures status.AckOk? ==> a'.endOffset == |Content(d', a.stream)|
  {
    hide Sound, Prepare, Resolved, Anchored, Frames, Known, KnownOps, Issued, UpdateDigest, NewFrame, Importable, Candidate, Fits, FrameLayout.FrameAt,
         Represents, Held, DocOf, Noticed, Positioned, Ops;
    if a.lifecycle.Ready? && a.blocked.None? && joined && Prepare(g, a, batchId, updates).Success? {
      var (candidate, p) := Prepare(g, a, batchId, updates).value;
      AnchoredParts(g, d, a);
      PreparedUpdate(g, a, batchId, updates);
      PreparedFrame(g, a, batchId, updates);
      var r :| Resolved(g, orderly, d, p, d', r) && (a', status) == AfterAppend(a, candidate, p, r);
      AppendedLast(g, orderly, d, a, p, d', r);
    }
  }

  lemma AppendedLast(g: Gateway, orderly: bool, d: Durable, a: Actor, p: PendingAppend, d': Durable, r: Result<DurableAppend, AppendFailure>)
    requires Sound(g, d) && Positioned(g, d, a) && Noticed(g, d, a) && Issued(g, a, p)
    requires Resolved(g, orderly, d, p, d', r)
    ensures r.Success? || d' != d ==> Frames(g, d', a.generation) == Known(g, d, a) + [p.frame]
    ensures r.Success? ==> r.value.nextOffset == |Content(d', a.stream)|
  {
    hide *;
    AppendResolved(g, orderly, d, a, p, d', r);
  }

  lemma Unchanged(g: Gateway, d: Durable)
    requires Sound(g, d)
    ensures OnlyAppended(g, d, d)
  {
    hide Sound, Exact, TrueEnds, Chain, RecoveredOps;
  }

  lemma AnchoredParts(g: Gateway, d: Durable, a: Actor)
    requires Anchored(g, d, a)
    ensures Positioned(g, d, a) && Noticed(g, d, a) && Represents(g.lib, a.doc, a.history, Held(a.doc))
    ensures a.blocked.Some? ==> Issued(g, a, a.blocked.value)
    ensures a.lifecycle.Ready? ==> a.blocked.None?
    ensures a.generation == Active(g, d) && a.stream == DeltaStream(Active(g, d)) && a.producerId == g.names.delta(a.boot, a.generation)
  {
    hide Represents, Issued, Noticed, Known;
  }

  lemma UpdateResolved(g: Gateway, orderly: bool, d: Durable, a: Actor, candidate: Doc, p: PendingAppend,
                       d': Durable, a': Actor, status: Status, r: Result<DurableAppend, AppendFailure>)
    requires Sound(g, d) && a.lifecycle.Ready? && Anchored(g, d, a) && Issued(g, a, p)
    requires Represents(g.lib, candidate, a.history + p.frame.updates, Held(a.doc) + Ops(g.lib, p.frame.updates))
    requires Resolved(g, orderly, d, p, d', r) && (a', status) == AfterAppend(a, candidate, p, r)
    ensures OnlyAppended(g, d, d')
    ensures Live(a') && Anchored(g, d', a')
    ensures var acks := if status.AckOk? then Ops(g.lib, p.frame.updates) else {};
            Held(a'.doc) == Held(a.doc) + acks && KnownOps(g, d', a') == KnownOps(g, d, a) + acks
    ensures Steady(g, orderly) && Tracked(g, d, a) ==> Tracked(g, d', a')
  {
    hide DecodedFrames, Records, Represents, AllUpdates, Ops, DocOf, Decodable, Sound, Exact, TrueEnds, Chain, Frames, Held,
         Resolved, BaseOps, Prepared, NewFrame, EachAllowed, Positioned, Noticed, KnownOps, RecoveredOps, Stream;
    AnchoredParts(g, d, a);
    AppendResolved(g, orderly, d, a, p, d', r);
    RecoveredGrows(g, d, a, p, d');
    if r.Success? {
      RepresentsHeld(g.lib, candidate, a.history + p.frame.updates, Held(a.doc) + Ops(g.lib, p.frame.updates));
      Acknowledged(g, d, a, p, d', a');
    } else {
      Untaken(g, d, a, d', a');
    }
  }

  /** Landing a frame adds its operations to what a restart finds. */
  lemma RecoveredGrows(g: Gateway, d: Durable, a: Actor, p: PendingAppend, d': Durable)
    requires a.generation == Active(g, d) && Chain(g, d') == Chain(g, d) && BaseOps(g, d') == BaseOps(g, d)
    requires d' != d ==> !Orphaned(d, a) && Frames(g, d', a.generation) == Known(g, d, a) + [p.frame]
    ensures RecoveredOps(g, d) <= RecoveredOps(g, d')
  {
    hide Frames, Records, AllUpdates, BaseOps, Chain, Orphaned, Ops;
    if d' != d {
      AddFrame(g, Known(g, d, a), p.frame);
    }
  }
}
