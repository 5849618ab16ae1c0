/**
 Whole runs of one room: starts, commands, and crashes between any two store calls. A crash may
 fall anywhere inside a command; the stored bytes are then whatever that command had done so far,
 and neither an acknowledgement nor a change of memory survives.
 */
module Runs {
  import opened Wrappers
  import opened Bytes
  import opened Frame
  import opened Loro
  import opened Store
  import opened Gateway
  import opened ManifestTheorems
  import opened Protocol
  import opened Recovery
  import opened RoomState
  import opened ActorInvariant
  import opened ActorSteps
  import opened ReconcileSteps
  import opened RotationSteps
  import opened RecoveryTheorems
  import Landing

  datatype Command = Update(joined: bool, batchId: BatchId, updates: seq<seq<byte>>) | Rotate | Retry

  datatype Event = Start(boot: nat) | Perform(command: Command) | CrashDuring(command: Command) | Crash

  /** The stored room, the gateway's actor if it is running, and every operation acknowledged so far. */
  datatype System = System(durable: Durable, actor: Option<Actor>, acked: set<OpId>)

  const BLANK: System := System(NOTHING, None, {})

  /** One command of a running actor, with the operations it acknowledges. */
  ghost predicate Acts(g: Gateway, orderly: bool, d: Durable, a: Actor, c: Command, d': Durable, a': Actor, acks: set<OpId>) {
    match c
    case Update(joined, batchId, updates) =>
      exists status: Status :: UpdateStep(g, orderly, d, a, joined, batchId, updates, d', a', status)
        && acks == if status.AckOk? then Ops(g.lib, updates) else {}
    case Rotate => acks == {} && exists rotated: bool :: RotateStep(g, d, a, d', a', rotated)
    case Retry => acks == {} && exists resolved: bool :: RetryStep(g, orderly, d, a, d', a', resolved)
  }

  /** Boot identities are never reused. */
  ghost predicate Fresh(g: Gateway, d: Durable, boot: nat) {
    forall j: nat :: (DeltaStream(j), g.names.delta(boot, j)) !in d.producers
  }

  ghost predicate Next(g: Gateway, orderly: bool, s: System, e: Event, s': System) {
    match e
    case Start(boot) =>
      && s.actor.None? && s'.actor.Some? && Fresh(g, s.durable, boot)
      && StartStep(g, s.durable, boot, s'.durable, s'.actor.value)
      && s'.acked == s.acked
    case Perform(c) =>
      && s.actor.Some? && s'.actor.Some?
      && exists acks: set<OpId> :: Acts(g, orderly, s.durable, s.actor.value, c, s'.durable, s'.actor.value, acks) && s'.acked == s.acked + acks
    case CrashDuring(c) =>
      && s.actor.Some? && s'.actor.None?
      && (exists a', acks: set<OpId> :: Acts(g, orderly, s.durable, s.actor.value, c, s'.durable, a', acks))
      && s'.acked == s.acked
    case Crash => s' == s.(actor := None)
  }

  /** A run from an empty store. */
  ghost predicate Run(g: Gateway, orderly: bool, run: seq<System>, events: seq<Event>) {
    && |run| == |events| + 1 && run[0] == BLANK
    && forall i :: 0 <= i < |events| ==> Next(g, orderly, run[i], events[i], run[i + 1])
  }

  // ---------------------------------------------------------------- invariant

  ghost predicate Alive(s: System) {
    s.actor.Some? && Live(s.actor.value)
  }

  /** Storage is sound and a live actor is anchored in it; if refusals are final, lengths and orphans are accounted for. */
  ghost predicate Invariant(g: Gateway, orderly: bool, s: System) {
    && Sound(g, s.durable)
    && (Alive(s) ==> Anchored(g, s.durable, s.actor.value))
    && (Steady(g, orderly) ==> TrueEnds(g, s.durable) && (Alive(s) ==> Tracked(g, s.durable, s.actor.value)))
  }

  /** Later storage extends earlier storage: the manifest grows, what it seals and what is written once stays as it was. */
  ghost predicate Extends(g: Gateway, d: Durable, d': Durable) {
    && Chain(g, d) <= Chain(g, d') && SealedSame(d, d', Active(g, d))
    && (forall j: nat :: Content(d, CheckpointStream(j)) != [] ==> Content(d', CheckpointStream(j)) == Content(d, CheckpointStream(j)))
    && (forall j: nat :: Content(d, DeltaStream(j)) <= Content(d', DeltaStream(j)))
  }

  ghost predicate Publishes(g: Gateway, s: System, s': System) {
    Active(g, s'.durable) != Active(g, s.durable)
  }

  /** What one event does to storage and to what was acknowledged. */
  ghost predicate Effect(g: Gateway, s: System, s': System) {
    && Extends(g, s.durable, s'.durable)
    && s.acked <= s'.acked
    && if Publishes(g, s, s') then
         s.actor.Some? && Live(s.actor.value) && Advanced(g, s.durable, s.actor.value, s'.durable) && s'.acked == s.acked
       else
         && Chain(g, s'.durable) == Chain(g, s.durable)
         && RecoveredOps(g, s.durable) <= RecoveredOps(g, s'.durable)
         && s'.acked <= s.acked + RecoveredOps(g, s'.durable)
         && (Exact(g, s.durable) ==> Exact(g, s'.durable))
  }

  lemma StartKeeps(g: Gateway, d: Durable, boot: nat, d': Durable, a': Actor)
    requires WellConfigured(g) && Sound(g, d) && Fresh(g, d, boot) && StartStep(g, d, boot, d', a')
    ensures Sound(g, d') && Equivalent(d, d') && Chain(g, d') == Chain(g, d) && RecoveredOps(g, d') == RecoveredOps(g, d)
    ensures (Exact(g, d) ==> Exact(g, d')) && (TrueEnds(g, d) ==> TrueEnds(g, d'))
    ensures Live(a') ==>
              a'.lifecycle.Ready? && Anchored(g, d', a') && !Orphaned(d', a')
              && Held(a'.doc) == KnownOps(g, d', a') == RecoveredOps(g, d')
  {
    hide Sound, Exact, TrueEnds, Records, Recovered, Loaded, Frames, RecoveredOps, Represents, DocOf, KnownOps, BaseOps, AllUpdates, Ops, Stream, Held;
    EquivalentSound(g, d, d');
    if a'.lifecycle.Ready? {
      var n := Active(g, d);
      RecoveryExact(g, d);
      DeltasSound(g, d', n);
      ContentIsStream(g, d', n);
      if n == 0 {
        LoadExact(g, d', 0);
        LoadedRepresents(g, d');
      } else {
        ActiveExists(g, d);
      }
      RepresentsHeld(g.lib, a'.doc, a'.history, RecoveredOps(g, d'));
      assert Positioned(g, d', a');
      assert Known(g, d', a') == Frames(g, d', n);
      KnownIsRecovered(g, d', a');
    }
  }

  lemma ActiveExists(g: Gateway, d: Durable)
    requires Sound(g, d) && Active(g, d) > 0
    ensures DeltaStream(Active(g, d)) in d.streams
  {
    hide DeltaSound, ManifestSound, CheckpointSound;
  }

  lemma LoadedRepresents(g: Gateway, d: Durable)
    requires Sound(g, d) && Active(g, d) == 0
    ensures var updates := AllUpdates(Frames(g, d, 0));
            && Represents(g.lib, DocOf(g.lib, DeltaOps(g, d, 0)), updates, RecoveredOps(g, d))
            && (Frames(g, d, 0) != [] ==> updates != [])
  {
    hide Sound, Frames, DocOf, AllUpdates, Ops, DecodedFrames, Sequences, Decodable, Records;
    DeltasSound(g, d, 0);
    DocHolds(g.lib, DeltaOps(g, d, 0));
    assert {} + DeltaOps(g, d, 0) == DeltaOps(g, d, 0);
    Landing.AllowedNonempty(g.lib, Frames(g, d, 0));
  }

  lemma KnownBelowRecovered(g: Gateway, d: Durable, a: Actor)
    requires Live(a) ==> Anchored(g, d, a)
    ensures Live(a) ==> KnownOps(g, d, a) <= RecoveredOps(g, d)
  {
    hide KnownOps, RecoveredOps, Chain, Noticed, Represents, Issued, Frames;
    if Live(a) {
      AnchoredParts(g, d, a);
      KnownIsRecovered(g, d, a);
    }
  }

  lemma AppendedExtends(g: Gateway, d: Durable, d': Durable)
    requires OnlyAppended(g, d, d')
    ensures Extends(g, d, d')
  {
    hide Sound, Exact, TrueEnds, Chain, RecoveredOps;
  }

  lemma RotatedExtends(g: Gateway, d: Durable, d': Durable)
    requires Chain(g, d) <= Chain(g, d') && SealedSame(d, d', Active(g, d))
    requires forall j: nat :: Content(d', DeltaStream(j)) == Content(d, DeltaStream(j))
    requires forall j: nat :: Content(d, CheckpointStream(j)) != [] || j > Active(g, d) ==>
               Content(d', CheckpointStream(j)) == Content(d, CheckpointStream(j))
    ensures Extends(g, d, d')
  {
    hide Chain;
  }

  /** Appending only publishes nothing and loses nothing. */
  lemma AppendedEffect(g: Gateway, s: System, s': System)
    requires OnlyAppended(g, s.durable, s'.durable)
    requires s.acked <= s'.acked <= s.acked + RecoveredOps(g, s'.durable)
    ensures Effect(g, s, s')
  {
    hide Sound, Exact, TrueEnds, Chain, RecoveredOps, Extends, Advanced;
    AppendedExtends(g, s.durable, s'.durable);
  }

  /** One command keeps the invariant and has only the stated effects. */
  lemma ActKeeps(g: Gateway, orderly: bool, s: System, c: Command, d': Durable, a': Actor, acks: set<OpId>)
    requires WellConfigured(g) && Invariant(g, orderly, s) && s.actor.Some?
    requires Acts(g, orderly, s.durable, s.actor.value, c, d', a', acks)
    ensures Invariant(g, orderly, System(d', Some(a'), s.acked + acks))
    ensures Effect(g, s, System(d', Some(a'), s.acked + acks))
  {
    hide Effect, UpdateStep, RotateStep, RetryStep, Invariant;
    match c
    case Update(joined, batchId, updates) => UpdateActs(g, orderly, s, joined, batchId, updates, d', a', acks);
    case Rotate => RotateActs(g, orderly, s, d', a');
    case Retry => RetryActs(g, orderly, s, d', a');
  }

  lemma UpdateActs(g: Gateway, orderly: bool, s: System, joined: bool, batchId: BatchId, updates: seq<seq<byte>>,
                   d': Durable, a': Actor, acks: set<OpId>)
    requires WellConfigured(g) && Invariant(g, orderly, s) && s.actor.Some?
    requires Acts(g, orderly, s.durable, s.actor.value, Update(joined, batchId, updates), d', a', acks)
    ensures Invariant(g, orderly, System(d', Some(a'), s.acked + acks))
    ensures Effect(g, s, System(d', Some(a'), s.acked + acks))
  {
    hide Sound, Exact, TrueEnds, RecoveredOps, KnownOps, Anchored, UpdateStep, Ops, Chain, Held, Effect, Tracked;
    var d, a := s.durable, s.actor.value;
    var status: Status :| UpdateStep(g, orderly, d, a, joined, batchId, updates, d', a', status)
      && acks == if status.AckOk? then Ops(g.lib, updates) else {};
    UpdateKeeps(g, orderly, d, a, joined, batchId, updates, d', a', status);
    KnownBelowRecovered(g, d', a');
    AppendedEffect(g, s, System(d', Some(a'), s.acked + acks));
  }

  lemma RetryActs(g: Gateway, orderly: bool, s: System, d': Durable, a': Actor)
    requires WellConfigured(g) && Invariant(g, orderly, s) && s.actor.Some?
    requires Acts(g, orderly, s.durable, s.actor.value, Retry, d', a', {})
    ensures Invariant(g, orderly, System(d', Some(a'), s.acked + {}))
    ensures Effect(g, s, System(d', Some(a'), s.acked + {}))
  {
    hide Sound, Exact, TrueEnds, RecoveredOps, KnownOps, Anchored, RetryStep, Ops, Chain, Held, Effect, Tracked, DeltaOps, ReconcileSafe, Orphaned;
    var d, a := s.durable, s.actor.value;
    var resolved: bool :| RetryStep(g, orderly, d, a, d', a', resolved);
    RetryKeeps(g, orderly, d, a, d', a', resolved);
    AppendedEffect(g, s, System(d', Some(a'), s.acked + {}));
  }

  lemma RotateActs(g: Gateway, orderly: bool, s: System, d': Durable, a': Actor)
    requires WellConfigured(g) && Invariant(g, orderly, s) && s.actor.Some?
    requires Acts(g, orderly, s.durable, s.actor.value, Rotate, d', a', {})
    ensures Invariant(g, orderly, System(d', Some(a'), s.acked + {}))
    ensures Effect(g, s, System(d', Some(a'), s.acked + {}))
  {
    hide Sound, Exact, TrueEnds, RecoveredOps, KnownOps, Anchored, RotateStep, Ops, Chain, Held, Extends, SealedSame, StoredCheckpoint, Frames;
    var d, a := s.durable, s.actor.value;
    var rotated: bool :| RotateStep(g, d, a, d', a', rotated);
    RotateKeeps(g, d, a, d', a', rotated);
    RotatedExtends(g, d, d');
  }

  lemma EquivalentExtends(g: Gateway, d: Durable, d': Durable)
    requires Equivalent(d, d') && Chain(g, d') == Chain(g, d)
    ensures Extends(g, d, d')
  {
    hide Chain;
  }

  /** Every event keeps the invariant and has only the effects stated above. */
  lemma EventKeeps(g: Gateway, orderly: bool, s: System, e: Event, s': System)
    requires WellConfigured(g) && Invariant(g, orderly, s)
    requires Next(g, orderly, s, e, s')
    ensures Invariant(g, orderly, s') && Effect(g, s, s')
  {
    hide Sound, Exact, TrueEnds, Records, RecoveredOps, KnownOps, Anchored, UpdateStep, RotateStep, RetryStep, Ops, Chain, Orphaned, Frames, Held, Acts, StartStep,
         Extends, Advanced;
    match e
    case Start(boot) =>
      StartKeeps(g, s.durable, boot, s'.durable, s'.actor.value);
      EquivalentExtends(g, s.durable, s'.durable);
    case Perform(c) =>
      var acks: set<OpId> :| Acts(g, orderly, s.durable, s.actor.value, c, s'.durable, s'.actor.value, acks) && s'.acked == s.acked + acks;
      ActKeeps(g, orderly, s, c, s'.durable, s'.actor.value, acks);
    case CrashDuring(c) =>
      var a', acks: set<OpId> :| Acts(g, orderly, s.durable, s.actor.value, c, s'.durable, a', acks);
      ActKeeps(g, orderly, s, c, s'.durable, a', acks);
    case Crash =>
      SameAsBefore(s.durable);
      EquivalentExtends(g, s.durable, s.durable);
  }

  lemma SameAsBefore(d: Durable)
    ensures Equivalent(d, d)
  {
  }

  /** The invariant holds at every moment of every run. */
  lemma {:induction false} RunKeeps(g: Gateway, orderly: bool, run: seq<System>, events: seq<Event>, i: nat)
    requires WellConfigured(g) && Run(g, orderly, run, events) && i < |run|
    ensures Invariant(g, orderly, run[i])
  {
    hide Invariant, Next;
    if i == 0 {
      BlankInvariant(g, orderly);
    } else {
      RunKeeps(g, orderly, run, events, i - 1);
      EventKeeps(g, orderly, run[i - 1], events[i - 1], run[i]);
    }
  }

  lemma BlankInvariant(g: Gateway, orderly: bool)
    ensures Invariant(g, orderly, BLANK)
  {
    hide Sound, Exact, TrueEnds;
    EmptyIsSound(g);
  }

  lemma RunEffect(g: Gateway, orderly: bool, run: seq<System>, events: seq<Event>, i: nat)
    requires WellConfigured(g) && Run(g, orderly, run, events) && i < |events|
    ensures Effect(g, run[i], run[i + 1])
  {
    hide Invariant, Next, Effect;
    RunKeeps(g, orderly, run, events, i);
    EventKeeps(g, orderly, run[i], events[i], run[i + 1]);
  }
}
