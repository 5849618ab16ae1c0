/**
 Runs in which a blocked append is reconciled only where reloading the active stream loses nothing.
 In these a live actor's document is exactly what is committed, so every rotation holds everything.
 */
module CarefulRuns {
  import opened Wrappers
  import opened Bytes
  import opened Frame
  import opened Loro
  import opened Gateway
  import opened Protocol
  import opened RoomState
  import opened ActorInvariant
  import opened ActorSteps
  import opened ReconcileSteps
  import opened RotationSteps
  import opened RecoveryTheorems
  import opened Runs
  import opened RunTheorems

  /** A retry that resolves does so where the active stream repeats what the checkpoint carries. */
  predicate Careful(g: Gateway, s: System, e: Event, s': System) {
    e == Perform(Retry) && s.actor.Some? && s.actor.value.blocked.Some? && s'.actor.Some? && s'.actor.value.blocked.None? ==>
      ReconcileSafe(g, s.durable, s.actor.value.blocked.value)
  }

  ghost predicate CarefulRun(g: Gateway, orderly: bool, run: seq<System>, events: seq<Event>) {
    && Run(g, orderly, run, events)
    && forall i :: 0 <= i < |events| ==> Careful(g, run[i], events[i], run[i + 1])
  }

  /** Everything acknowledged is stored, and a live actor's document is exactly what it took over, all of it included. */
  ghost predicate Faithful(g: Gateway, s: System) {
    && s.acked <= RecoveredOps(g, s.durable)
    && (Alive(s) ==> var a := s.actor.value; Held(a.doc) == KnownOps(g, s.durable, a) && s.acked <= Held(a.doc))
  }

  lemma FaithfulAct(g: Gateway, orderly: bool, s: System, c: Command, s': System, acks: set<OpId>)
    requires WellConfigured(g) && Invariant(g, orderly, s) && Faithful(g, s) && s.actor.Some? && s'.actor.Some?
    requires Acts(g, orderly, s.durable, s.actor.value, c, s'.durable, s'.actor.value, acks) && s'.acked == s.acked + acks
    requires Careful(g, s, Perform(c), s')
    ensures Alive(s') ==> Held(s'.actor.value.doc) == KnownOps(g, s'.durable, s'.actor.value) && s'.acked <= Held(s'.actor.value.doc)
  {
    hide OnlyAppended, RecoveredOps, KnownOps, Anchored, UpdateStep, RotateStep, RetryStep, Ops, Held, Tracked, DeltaOps, Orphaned, Stayed, Advanced,
         SealedSame, Sound, TrueEnds, ReconcileSafe, DocOf;
    var d, a, d', a' := s.durable, s.actor.value, s'.durable, s'.actor.value;
    match c
    case Update(joined, batchId, updates) =>
      var status: Status :| UpdateStep(g, orderly, d, a, joined, batchId, updates, d', a', status)
        && acks == if status.AckOk? then Ops(g.lib, updates) else {};
      UpdateKeeps(g, orderly, d, a, joined, batchId, updates, d', a', status);
    case Rotate =>
      var rotated: bool :| RotateStep(g, d, a, d', a', rotated);
      RotateKeeps(g, d, a, d', a', rotated);
    case Retry =>
      var resolved: bool :| RetryStep(g, orderly, d, a, d', a', resolved);
      RetryKeeps(g, orderly, d, a, d', a', resolved);
  }

  /** Careful events keep storage and memory faithful, and every rotation among them holds everything. */
  lemma CarefulEventKeeps(g: Gateway, orderly: bool, s: System, e: Event, s': System)
    requires WellConfigured(g) && Invariant(g, orderly, s) && Faithful(g, s)
    requires Next(g, orderly, s, e, s') && Careful(g, s, e, s')
    ensures Faithful(g, s')
    ensures AckedHeld(g, s, s')
    ensures Steady(g, orderly) ==> AllHeld(g, s, s')
  {
    hide RecoveredOps, KnownOps, Anchored, Held, Acts, StartStep, Extends, Exact, Sound, TrueEnds, Chain, Orphaned, StoredCheckpoint, Careful, Equivalent;
    EventKeeps(g, orderly, s, e, s');
    if Publishes(g, s, s') {
      WholeDocument(g, orderly, s);
    }
    match e
    case Start(boot) =>
      StartKeeps(g, s.durable, boot, s'.durable, s'.actor.value);
    case Perform(c) =>
      var acks: set<OpId> :| Acts(g, orderly, s.durable, s.actor.value, c, s'.durable, s'.actor.value, acks) && s'.acked == s.acked + acks;
      FaithfulAct(g, orderly, s, c, s', acks);
    case CrashDuring(_) =>
    case Crash =>
  }

  /** If refusals are final, a faithful ready actor holds exactly what a restart would find. */
  lemma WholeDocument(g: Gateway, orderly: bool, s: System)
    requires Invariant(g, orderly, s) && Faithful(g, s) && s.actor.Some? && s.actor.value.lifecycle.Ready?
    ensures s.acked <= Held(s.actor.value.doc)
    ensures Steady(g, orderly) ==> Held(s.actor.value.doc) == RecoveredOps(g, s.durable)
  {
    hide RecoveredOps, KnownOps, Held, Sound, TrueEnds, Orphaned, Chain, Frames;
    AnchoredParts(g, s.durable, s.actor.value);
    KnownIsRecovered(g, s.durable, s.actor.value);
  }

  /** Careful runs are faithful throughout and meet the exact conditions of the run theorems. */
  lemma {:induction false} CarefulRunKeeps(g: Gateway, orderly: bool, run: seq<System>, events: seq<Event>, i: nat)
    requires WellConfigured(g) && CarefulRun(g, orderly, run, events) && i < |run|
    ensures Faithful(g, run[i])
    ensures forall k: nat :: k < i ==> AckedHeld(g, run[k], run[k + 1]) && (Steady(g, orderly) ==> AllHeld(g, run[k], run[k + 1]))
  {
    hide Next, Careful, Faithful, Invariant, AckedHeld, AllHeld, Steady;
    if i == 0 {
      BlankFaithful(g);
    } else {
      CarefulRunKeeps(g, orderly, run, events, i - 1);
      RunKeeps(g, orderly, run, events, i - 1);
      CarefulEventKeeps(g, orderly, run[i - 1], events[i - 1], run[i]);
    }
  }

  lemma BlankFaithful(g: Gateway)
    ensures Faithful(g, BLANK)
  {
    hide RecoveredOps;
  }

  /** If refusals are final, the document of a ready room of any generation is the full replay of everything committed. */
  lemma ReadyIsFullReplay(g: Gateway, orderly: bool, run: seq<System>, events: seq<Event>, i: nat)
    requires WellConfigured(g) && CarefulRun(g, orderly, run, events) && i < |run| && Steady(g, orderly)
    requires run[i].actor.Some? && run[i].actor.value.lifecycle.Ready?
    ensures Held(run[i].actor.value.doc) == Ops(g.lib, EveryUpdate(g, run[i].durable, Active(g, run[i].durable) + 1))
    ensures Replayed(g.lib, EveryUpdate(g, run[i].durable, Active(g, run[i].durable) + 1)) == Success(run[i].actor.value.doc)
  {
    hide Run, Careful, Sound, RecoveredOps, Exact, TrueEnds, KnownOps, Positioned, Issued, Stream, Replayed, EveryUpdate, Chain, Ops, DocOf, Decodable,
         Orphaned, Held, AllHeld, AckedHeld, Frames;
    var d, a := run[i].durable, run[i].actor.value;
    RunKeeps(g, orderly, run, events, i);
    CarefulRunKeeps(g, orderly, run, events, i);
    WholeDocument(g, orderly, run[i]);
    ExactKeptExactly(g, orderly, run, events, i);
    RecoveredIsEverything(g, d);
    EveryUpdateDecodes(g, d, Active(g, d) + 1);
    RecoveredDoc(g, d, a);
  }

  /** The document validated for a new batch is the full replay of everything committed and the batch. */
  lemma CandidateIsReplayOfAll(g: Gateway, orderly: bool, run: seq<System>, events: seq<Event>, i: nat, updates: seq<seq<byte>>)
    requires WellConfigured(g) && CarefulRun(g, orderly, run, events) && i < |run| && Steady(g, orderly)
    requires run[i].actor.Some? && run[i].actor.value.lifecycle.Ready?
    ensures var (d, a) := (run[i].durable, run[i].actor.value);
            Candidate(g.lib, a.doc, a.history, updates) == Replayed(g.lib, EveryUpdate(g, d, Active(g, d) + 1) + updates)
  {
    hide CarefulRun, Sound, RecoveredOps, Exact, TrueEnds, KnownOps, Positioned, Issued, Stream, Replayed, EveryUpdate, Chain, Ops, DocOf, Decodable,
         Orphaned, Candidate, Represents, Held, Run, Noticed;
    var d, a := run[i].durable, run[i].actor.value;
    var all := EveryUpdate(g, d, Active(g, d) + 1);
    CarefulIsRun(g, orderly, run, events);
    RunKeeps(g, orderly, run, events, i);
    ReadyIsFullReplay(g, orderly, run, events, i);
    EveryUpdateDecodes(g, d, Active(g, d) + 1);
    CandidateIsFullReplay(g.lib, a.doc, a.history, updates, Held(a.doc));
    OpsAppend(g.lib, all, updates);
    ReplayOrFailure(g.lib, all, updates);
  }

  lemma CarefulIsRun(g: Gateway, orderly: bool, run: seq<System>, events: seq<Event>)
    requires CarefulRun(g, orderly, run, events)
    ensures Run(g, orderly, run, events)
  {
    hide Run;
  }

  /** A run that retries only in generation 0 is careful. */
  lemma GenerationZeroRetriesAreCareful(g: Gateway, orderly: bool, run: seq<System>, events: seq<Event>)
    requires Run(g, orderly, run, events)
    requires forall i :: 0 <= i < |events| && events[i] == Perform(Retry) ==> Active(g, run[i].durable) == 0
    ensures CarefulRun(g, orderly, run, events)
  {
    hide Next, ReconcileSafe, Chain;
    forall i | 0 <= i < |events| ensures Careful(g, run[i], events[i], run[i + 1]) {
      if events[i] == Perform(Retry) && run[i].actor.Some? && run[i].actor.value.blocked.Some? {
        GenerationZeroIsSafe(g, run[i].durable, run[i].actor.value.blocked.value);
      }
    }
  }
}
