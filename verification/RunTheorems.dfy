/**
 What holds at every moment of every run, whatever the store, the operator and crashes do, and
 exactly which rotations endanger acknowledged updates or the equality with full replay.
 */
module RunTheorems {
  import opened Wrappers
  import opened Bytes
  import opened Frame
  import opened FrameTheorems
  import opened Loro
  import opened Store
  import opened Gateway
  import opened Manifest
  import opened ManifestTheorems
  import opened Protocol
  import opened Recovery
  import opened RoomState
  import opened ActorInvariant
  import opened ActorSteps
  import opened ReconcileSteps
  import opened RotationSteps
  import opened RecoveryTheorems
  import opened Runs
  import Landing

  // ---------------------------------------------------------------- no false corruption

  /** A restart fails only when manifest or active stream outgrew the readers' limits. */
  lemma NoFalseCorruption(g: Gateway, orderly: bool, run: seq<System>, events: seq<Event>, i: nat)
    requires WellConfigured(g) && Run(g, orderly, run, events) && i < |run|
    ensures Restarted(g, run[i].durable).Success?
       <==> ManifestWithinLimits(g, run[i].durable) && DeltaWithinLimits(g, run[i].durable, Active(g, run[i].durable))
    ensures Recovered(g, run[i].durable).Failure? ==> LimitError(Recovered(g, run[i].durable).error)
  {
    hide Run, Restarted, Sound, RecoveredOps, TrueEnds, Anchored, Tracked, Recovered, Represents;
    RunKeeps(g, orderly, run, events, i);
    RestartedExact(g, run[i].durable);
    RecoveryExact(g, run[i].durable);
  }

  /** Record i of the manifest seals generation i, in a valid chain, and verifies a fully stored, loadable checkpoint. */
  lemma ManifestAlwaysSound(g: Gateway, orderly: bool, run: seq<System>, events: seq<Event>, i: nat, k: nat)
    requires WellConfigured(g) && Run(g, orderly, run, events) && i < |run| && k < Active(g, run[i].durable)
    ensures ValidatedChain(g.h, Chain(g, run[i].durable), g.room).Success?
    ensures Numbered(Chain(g, run[i].durable)[k], k)
    ensures CheckpointStream(k) in run[i].durable.streams
    ensures VerifiesCheckpoint(g.h, Chain(g, run[i].durable)[k], Content(run[i].durable, CheckpointStream(k)))
    ensures StoredCheckpoint(g, run[i].durable, k).Success?
    ensures CheckpointDoc(g, StoredCheckpoint(g, run[i].durable, k).value) == Success(DocOf(g.lib, CheckpointOps(g, run[i].durable, k)))
  {
    hide Run, Records, RecoveredOps, Anchored, Tracked, DeltaSound, TrueEnds, LinksChecked, CheckpointDoc, VerifiesCheckpoint, DocOf, CheckpointOps;
    RunKeeps(g, orderly, run, events, i);
    assert CheckpointSound(g, run[i].durable, k);
    CheckpointLoads(g, run[i].durable, k);
  }

  // ---------------------------------------------------------------- sealed generations

  lemma ExtendsItself(g: Gateway, d: Durable)
    ensures Extends(g, d, d)
  {
    hide Chain;
  }

  lemma ExtendsTwice(g: Gateway, d0: Durable, d1: Durable, d2: Durable)
    requires Extends(g, d0, d1) && Extends(g, d1, d2)
    ensures Extends(g, d0, d2)
  {
    hide Chain;
  }

  /** Later moments extend earlier ones: the manifest grows, and neither sealed streams nor written checkpoints change. */
  lemma {:induction false} SealedForever(g: Gateway, orderly: bool, run: seq<System>, events: seq<Event>, i: nat, j: nat)
    requires WellConfigured(g) && Run(g, orderly, run, events) && i <= j < |run|
    ensures Extends(g, run[i].durable, run[j].durable)
    decreases j
  {
    hide Run, Extends, Advanced, Chain, RecoveredOps, Exact;
    if i < j {
      SealedForever(g, orderly, run, events, i, j - 1);
      RunLength(g, orderly, run, events);
      RunEffect(g, orderly, run, events, j - 1);
      ExtendsTwice(g, run[i].durable, run[j - 1].durable, run[j].durable);
    } else {
      ExtendsItself(g, run[i].durable);
    }
  }

  lemma RunLength(g: Gateway, orderly: bool, run: seq<System>, events: seq<Event>)
    requires Run(g, orderly, run, events)
    ensures |run| == |events| + 1 && run[0] == BLANK
  {
    hide Next;
  }

  /** If refusals are final, every checkpoint states the final length of the stream it sealed, forever. */
  lemma SealedLengths(g: Gateway, orderly: bool, run: seq<System>, events: seq<Event>, i: nat, j: nat, generation: nat)
    requires WellConfigured(g) && Run(g, orderly, run, events) && i <= j < |run| && generation < Active(g, run[i].durable)
    ensures Content(run[j].durable, DeltaStream(generation)) == Content(run[i].durable, DeltaStream(generation))
    ensures StoredCheckpoint(g, run[j].durable, generation) == StoredCheckpoint(g, run[i].durable, generation)
    ensures Steady(g, orderly) ==> TrueEnd(g, run[j].durable, generation)
  {
    hide Run, Sound, RecoveredOps, Anchored, Tracked, Chain;
    SealedForever(g, orderly, run, events, i, j);
    RunKeeps(g, orderly, run, events, j);
    if Steady(g, orderly) {
      assert TrueEnd(g, run[j].durable, generation);
    }
  }

  // ---------------------------------------------------------------- exactly once

  /** Every producer's frames carry 0, 1, 2, ... in order; if refusals are final, a ready room's own carry every number it has used and no other. */
  lemma ExactlyOnce(g: Gateway, orderly: bool, run: seq<System>, events: seq<Event>, i: nat)
    requires WellConfigured(g) && Run(g, orderly, run, events) && i < |run|
    ensures forall j: nat, id :: Sequences(Frames(g, run[i].durable, j), id) == UpTo(NextSequence(run[i].durable, DeltaStream(j), id))
    ensures Steady(g, orderly) && run[i].actor.Some? && run[i].actor.value.lifecycle.Ready? ==>
              var a := run[i].actor.value;
              a.blocked.None? && Sequences(Frames(g, run[i].durable, a.generation), a.producerId) == UpTo(a.sequence)
  {
    hide Run, Records, RecoveredOps, Chain, TrueEnds, Frames, FramesAllowed, Sequences, UpTo, Decodable, Represents, Issued, Stream, DecodedFrames, Noticed;
    RunKeeps(g, orderly, run, events, i);
    forall j: nat, id
      ensures Sequences(Frames(g, run[i].durable, j), id) == UpTo(NextSequence(run[i].durable, DeltaStream(j), id))
    {
      assert DeltaSound(g, run[i].durable, j);
    }
  }

  /** Every append the room issues is its producer's next one, or is stored already byte for byte. */
  lemma IssuedOnce(g: Gateway, d: Durable, a: Actor, p: PendingAppend)
    requires Sound(g, d) && Anchored(g, d, a) && Tracked(g, d, a) && Issued(g, a, p)
    requires a.lifecycle.Ready? || a.blocked == Some(p)
    ensures Expected(d, p.target, p.producer) || Recorded(d, p.target, p.producer)
    ensures Recorded(d, p.target, p.producer) ==>
              && a.blocked == Some(p)
              && |p.bytes| <= |Content(d, p.target)|
              && Content(d, p.target)[|Content(d, p.target)| - |p.bytes|..] == p.bytes
  {
    hide Records, DeltaSound, Chain, Frames, Represents, Noticed, Encoded, NewFrame, Stream, Sound;
    if Recorded(d, p.target, p.producer) {
      var frames := Frames(g, d, a.generation);
      DeltasSound(g, d, a.generation);
      ContentIsStream(g, d, a.generation);
      EndsWithLast(g, frames, p);
    }
  }

  lemma EndsWithLast(g: Gateway, frames: seq<DeltaFrame>, p: PendingAppend)
    requires frames != [] && frames[|frames| - 1] == p.frame && Prepared(g, p)
    ensures |p.bytes| <= |Stream(g.h, frames)|
    ensures Stream(g.h, frames)[|Stream(g.h, frames)| - |p.bytes|..] == p.bytes
  {
    hide Wire, Encoded, UpdateDigest;
    assert frames == frames[..|frames| - 1] + [p.frame];
    StreamAppend(g.h, frames[..|frames| - 1], [p.frame]);
    EncodedIffFits(g.h, p.frame, g.frameLimits);
    assert Stream(g.h, [p.frame]) == p.bytes + [];
  }

  // ---------------------------------------------------------------- rotation

  /** Whenever the manifest advances, in this rotation or any later one, a restart finds exactly what the rotating actor's document held. */
  lemma RotationPublishesDocument(g: Gateway, orderly: bool, run: seq<System>, events: seq<Event>, k: nat)
    requires WellConfigured(g) && Run(g, orderly, run, events) && k < |events|
    requires Publishes(g, run[k], run[k + 1])
    ensures run[k].actor.Some? && Active(g, run[k + 1].durable) == Active(g, run[k].durable) + 1
    ensures RecoveredOps(g, run[k + 1].durable) == Held(run[k].actor.value.doc)
  {
    hide Run, Sound, RecoveredOps, Exact, TrueEnds, Chain, Extends, Held, StoredCheckpoint, Orphaned;
    RunEffect(g, orderly, run, events, k);
  }

  /**
   Wherever a rotation stops, a restart finds the old generation or the new one complete, with the
   same document; the new one starts with an empty stream and a checkpoint the manifest verifies.
   */
  lemma CrashConsistentRotation(g: Gateway, d: Durable, a: Actor, d': Durable, a': Actor, rotated: bool)
    requires WellConfigured(g) && Sound(g, d) && InStep(g, d, a) && a.lifecycle.Ready? && !Orphaned(d, a)
    requires RotateStep(g, d, a, d', a', rotated)
    requires ManifestWithinLimits(g, d') && DeltaWithinLimits(g, d, Active(g, d))
    ensures Active(g, d') == Active(g, d) || Active(g, d') == Active(g, d) + 1
    ensures Restarted(g, d') == Restarted(g, d) == Success(a.doc)
    ensures Active(g, d') == Active(g, d) ==> Chain(g, d') == Chain(g, d) && !rotated
    ensures Active(g, d') > Active(g, d) ==>
              && Chain(g, d) <= Chain(g, d')
              && Content(d', DeltaStream(Active(g, d'))) == []
              && CheckpointSound(g, d', Active(g, d))
    ensures rotated ==> Active(g, d') == Active(g, d) + 1 && a'.doc == a.doc
  {
    hide Records, RecoveredOps, KnownOps, DeltaSound, Exact, TrueEnds, Chain, Frames, Restarted, BaseOps, Issued, Stream, Ops, DocOf, Decodable, Held,
         CheckpointSound, ManifestSound, RotateStep, StoredCheckpoint, Noticed;
    AnchoredParts(g, d, a);
    RotateKeeps(g, d, a, d', a', rotated);
    KnownIsRecovered(g, d, a);
    RestartedExact(g, d);
    RestartedExact(g, d');
    RecoveredDoc(g, d, a);
    if Active(g, d') != Active(g, d) {
      assert Content(d', DeltaStream(Active(g, d'))) == Content(d, DeltaStream(Active(g, d'))) == [];
    }
  }

  lemma RecoveredDoc(g: Gateway, d: Durable, a: Actor)
    requires Represents(g.lib, a.doc, a.history, Held(a.doc))
    ensures a.doc == DocOf(g.lib, Held(a.doc))
  {
    hide DocOf, Held, Ops, Decodable;
  }

  /**
   A rotation of an actor in step keeps bounded recovery equal to full replay exactly when no stored
   frame was refused to the actor.
   */
  lemma RotationExactIffNoOrphan(g: Gateway, d: Durable, a: Actor, d': Durable, a': Actor)
    requires WellConfigured(g) && Sound(g, d) && Exact(g, d) && Live(a) && InStep(g, d, a)
    requires RotateStep(g, d, a, d', a', true)
    ensures Exact(g, d') <==> !Orphaned(d, a)
  {
    hide RotateStep, Sound, Exact, TrueEnds, Anchored, Orphaned, Chain, RecoveredOps, KnownOps, Held, StoredCheckpoint;
    RotateKeeps(g, d, a, d', a', true);
    AnchoredParts(g, d, a);
    KnownIsRecovered(g, d, a);
  }

  /**
   Rotating after a reconciliation keeps what a restart finds exactly when the reconciliation was
   safe. Otherwise the operations only the old checkpoint carried are gone.
   */
  lemma RotationAfterReconcile(g: Gateway, orderly: bool, d: Durable, a: Actor, d1: Durable, a1: Actor, d2: Durable, a2: Actor)
    requires WellConfigured(g) && Sound(g, d) && Anchored(g, d, a)
    requires RetryStep(g, orderly, d, a, d1, a1, true)
    requires RotateStep(g, d1, a1, d2, a2, true)
    ensures RecoveredOps(g, d2) == DeltaOps(g, d1, Active(g, d))
    ensures RecoveredOps(g, d2) == RecoveredOps(g, d1) <==> ReconcileSafe(g, d, a.blocked.value)
  {
    hide RetryStep, RotateStep, Sound, Exact, TrueEnds, Anchored, Chain, RecoveredOps, KnownOps, Held, DeltaOps, StoredCheckpoint, Tracked,
         Orphaned, ReconcileSafe, DocOf, Extends;
    RetryKeeps(g, orderly, d, a, d1, a1, true);
    RotateKeeps(g, d1, a1, d2, a2, true);
  }

  // ---------------------------------------------------------------- acknowledged updates

  lemma {:induction false} AcknowledgedGrows(g: Gateway, orderly: bool, run: seq<System>, events: seq<Event>, i: nat, j: nat)
    requires WellConfigured(g) && Run(g, orderly, run, events) && i <= j < |run|
    ensures run[i].acked <= run[j].acked
    decreases j
  {
    hide Run, Extends, Advanced, Chain, RecoveredOps, Exact;
    if i < j {
      AcknowledgedGrows(g, orderly, run, events, i, j - 1);
      RunLength(g, orderly, run, events);
      RunEffect(g, orderly, run, events, j - 1);
    }
  }

  /** At this moment a restart finds everything acknowledged. */
  ghost predicate AckedStored(g: Gateway, s: System) {
    s.acked <= RecoveredOps(g, s.durable)
  }

  /** If this event advances the manifest, the actor that rotates holds everything acknowledged. */
  ghost predicate AckedHeld(g: Gateway, s: System, s': System) {
    Publishes(g, s, s') ==> s.actor.Some? && s.acked <= Held(s.actor.value.doc)
  }

  /**
   Acknowledged updates stay recoverable up to moment i exactly if every rotation before it that
   reached the manifest was made by an actor whose document held all of them.
   */
  lemma {:induction false} AcknowledgedKeptExactly(g: Gateway, orderly: bool, run: seq<System>, events: seq<Event>, i: nat)
    requires WellConfigured(g) && Run(g, orderly, run, events) && i < |run|
    ensures (forall k: nat :: k <= i ==> AckedStored(g, run[k]))
       <==> (forall k: nat :: k < i ==> AckedHeld(g, run[k], run[k + 1]))
  {
    hide Run, Extends, Chain, RecoveredOps, Exact, TrueEnds, Held, StoredCheckpoint, Orphaned;
    RunLength(g, orderly, run, events);
    if i == 0 {
      assert AckedStored(g, run[0]);
    } else {
      AcknowledgedKeptExactly(g, orderly, run, events, i - 1);
      RunEffect(g, orderly, run, events, i - 1);
      assert AckedStored(g, run[i - 1]) ==> (AckedStored(g, run[i]) <==> AckedHeld(g, run[i - 1], run[i]));
      if forall k: nat :: k <= i ==> AckedStored(g, run[k]) {
        forall k: nat | k < i ensures AckedHeld(g, run[k], run[k + 1]) {
          assert k == i - 1 ==> AckedStored(g, run[i - 1]) && AckedStored(g, run[i]);
        }
      }
      if forall k: nat :: k < i ==> AckedHeld(g, run[k], run[k + 1]) {
        assert AckedHeld(g, run[i - 1], run[i - 1 + 1]);
      }
    }
  }

  /** What was acknowledged by moment i is in the document a restart at any later moment j finds. */
  lemma AcknowledgedNeverLost(g: Gateway, orderly: bool, run: seq<System>, events: seq<Event>, i: nat, j: nat)
    requires WellConfigured(g) && Run(g, orderly, run, events) && i <= j < |run|
    requires forall k: nat :: k < j ==> AckedHeld(g, run[k], run[k + 1])
    ensures Restarted(g, run[j].durable).Success? ==> run[i].acked <= Held(Restarted(g, run[j].durable).value)
  {
    hide Run, Restarted, Sound, RecoveredOps, TrueEnds, Anchored, Tracked, AckedHeld;
    RunKeeps(g, orderly, run, events, j);
    AcknowledgedGrows(g, orderly, run, events, i, j);
    AcknowledgedKeptExactly(g, orderly, run, events, j);
    RestartedExact(g, run[j].durable);
    DocHolds(g.lib, RecoveredOps(g, run[j].durable));
  }

  // ---------------------------------------------------------------- full replay

  /** If this event advances the manifest, the actor that rotates holds exactly what a restart would have found. */
  ghost predicate AllHeld(g: Gateway, s: System, s': System) {
    Publishes(g, s, s') ==> s.actor.Some? && Held(s.actor.value.doc) == RecoveredOps(g, s.durable)
  }

  lemma ReadyHasNoOrphan(g: Gateway, orderly: bool, s: System)
    requires Invariant(g, orderly, s) && Steady(g, orderly) && s.actor.Some? && s.actor.value.lifecycle.Ready?
    ensures !Orphaned(s.durable, s.actor.value)
  {
    hide Sound, Anchored, TrueEnds, Frames;
  }

  /**
   If refusals are final, the checkpoints are exact up to moment i exactly if every rotation before
   it that reached the manifest was made by an actor that held what a restart would have found.
   */
  lemma {:induction false} ExactKeptExactly(g: Gateway, orderly: bool, run: seq<System>, events: seq<Event>, i: nat)
    requires WellConfigured(g) && Run(g, orderly, run, events) && i < |run| && Steady(g, orderly)
    ensures (forall k: nat :: k <= i ==> Exact(g, run[k].durable))
       <==> (forall k: nat :: k < i ==> AllHeld(g, run[k], run[k + 1]))
  {
    hide Run, Extends, Chain, RecoveredOps, Exact, TrueEnds, Held, StoredCheckpoint, Orphaned, Invariant;
    RunLength(g, orderly, run, events);
    if i == 0 {
      EmptyIsSound(g);
    } else {
      ExactKeptExactly(g, orderly, run, events, i - 1);
      RunEffect(g, orderly, run, events, i - 1);
      RunKeeps(g, orderly, run, events, i - 1);
      if Publishes(g, run[i - 1], run[i]) {
        ReadyHasNoOrphan(g, orderly, run[i - 1]);
      }
      assert Exact(g, run[i - 1].durable) ==> (Exact(g, run[i].durable) <==> AllHeld(g, run[i - 1], run[i]));
      if forall k: nat :: k <= i ==> Exact(g, run[k].durable) {
        forall k: nat | k < i ensures AllHeld(g, run[k], run[k + 1]) {
          assert k == i - 1 ==> Exact(g, run[i - 1].durable) && Exact(g, run[i].durable);
        }
      }
      if forall k: nat :: k < i ==> AllHeld(g, run[k], run[k + 1]) {
        assert AllHeld(g, run[i - 1], run[i - 1 + 1]);
      }
    }
  }

  /**
   Bounded recovery refines full replay: a restart within the limits finds exactly the document that
   importing every frame of every generation gives.
   */
  lemma BoundedRecoveryIsFullReplay(g: Gateway, orderly: bool, run: seq<System>, events: seq<Event>, i: nat)
    requires WellConfigured(g) && Run(g, orderly, run, events) && i < |run| && Steady(g, orderly)
    requires forall k: nat :: k < i ==> AllHeld(g, run[k], run[k + 1])
    requires ManifestWithinLimits(g, run[i].durable) && DeltaWithinLimits(g, run[i].durable, Active(g, run[i].durable))
    ensures Restarted(g, run[i].durable).Success?
    ensures Replayed(g.lib, EveryUpdate(g, run[i].durable, Active(g, run[i].durable) + 1)) == Success(Restarted(g, run[i].durable).value)
  {
    hide Run, Restarted, Sound, RecoveredOps, Exact, TrueEnds, Anchored, Tracked, AllHeld;
    RunKeeps(g, orderly, run, events, i);
    ExactKeptExactly(g, orderly, run, events, i);
    RecoveryIsFullReplay(g, run[i].durable);
  }

  lemma ReplayOrFailure(lib: Library, all: seq<seq<byte>>, updates: seq<seq<byte>>)
    requires Decodable(lib, all)
    ensures Replayed(lib, all + updates)
         == if Decodable(lib, updates) then Success(DocOf(lib, Ops(lib, all + updates))) else Failure("import failed")
  {
    hide Settle, Ops;
    if Decodable(lib, updates) {
      Landing.DecodableAppend(lib, all, updates);
      ReplayIsDocOf(lib, all + updates);
    } else {
      var k :| 0 <= k < |updates| && lib.ops(updates[k]).None?;
      assert (all + updates)[|all| + k] == updates[k];
    }
  }
}
