/** The actor's command loop (src/actor.rs:419-466): the running code keeps the invariant of all runs. */
module ActorLoop {
  import opened Wrappers
  import opened Loro
  import opened Gateway
  import opened Protocol
  import opened RoomActors
  import opened Runs
  import opened RunTheorems
  import opened CarefulRuns
  import Rotation
  import Startup
  import Updates

  /** The stored room and the running actor, as one moment of a run. */
  ghost function Moment(actor: RoomActor, acked: set<OpId>): System
    reads actor, actor.store
  {
    System(actor.store.durable, Some(actor.View()), acked)
  }

  /**
   Recovers, then serves commands in order, and keeps the invariant of all runs. `acked` collects
   what was acknowledged; `careful` says whether every reconciliation on the way was safe, and if so
   the room stays faithful to it.
   */
  method Serve(actor: RoomActor, commands: seq<Command>, ghost before: set<OpId>)
    returns (ghost acked: set<OpId>, ghost careful: bool)
    requires WellConfigured(actor.g) && actor.View() == NewActor(actor.g, actor.boot)
    requires Invariant(actor.g, actor.store.orderly, System(actor.store.durable, None, before))
    requires Fresh(actor.g, actor.store.durable, actor.boot)
    modifies actor, actor.store
    ensures before <= acked
    ensures Invariant(actor.g, actor.store.orderly, Moment(actor, acked))
    ensures careful && Faithful(actor.g, System(old(actor.store.durable), None, before)) ==> Faithful(actor.g, Moment(actor, acked))
  {
    hide Invariant, StartStep, UpdateStep, RotateStep, RetryStep, Startup.Outcome, Startup.RetryOutcome, Updates.UpdateOutcome, Rotation.Tolerable, Fresh, Ops, Faithful, Effect, Careful, AckedHeld, AllHeld;
    ghost var s := System(actor.store.durable, None, before);
    ghost var faithful := Faithful(actor.g, s);
    actor.Start();
    acked, careful := before, true;
    Served(actor.g, actor.store.orderly, s, Start(actor.boot), Moment(actor, acked));
    for i := 0 to |commands|
      invariant before <= acked
      invariant Invariant(actor.g, actor.store.orderly, Moment(actor, acked))
      invariant careful && faithful ==> Faithful(actor.g, Moment(actor, acked))
    {
      ghost var now := Moment(actor, acked);
      ghost var acks: set<OpId> := {};
      match commands[i] {
        case Update(joined, batchId, updates) =>
          var status := actor.Update(joined, batchId, updates);
          acks := if status.AckOk? then Ops(actor.g.lib, updates) else {};
        case Rotate =>
          var rotated := actor.RotateGeneration();
        case Retry =>
          var resolved := actor.RetryPending();
      }
      assert Acts(actor.g, actor.store.orderly, now.durable, now.actor.value, commands[i], actor.store.durable, actor.View(), acks);
      acked := acked + acks;
      careful := careful && Careful(actor.g, now, Perform(commands[i]), Moment(actor, acked));
      Served(actor.g, actor.store.orderly, now, Perform(commands[i]), Moment(actor, acked));
    }
  }

  /** One event of the loop. */
  lemma Served(g: Gateway, orderly: bool, s: System, e: Event, s': System)
    requires WellConfigured(g) && Invariant(g, orderly, s) && Next(g, orderly, s, e, s')
    ensures Invariant(g, orderly, s')
    ensures Faithful(g, s) && (e.Perform? ==> Careful(g, s, e, s')) ==> Faithful(g, s')
  {
    hide Invariant, Next, Faithful, Effect, AckedHeld, AllHeld;
    EventKeeps(g, orderly, s, e, s');
    if Faithful(g, s) && (e.Perform? ==> Careful(g, s, e, s')) {
      CarefulEventKeeps(g, orderly, s, e, s');
    }
  }
}
