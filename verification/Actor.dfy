/** The room actor as the gateway runs it: fields updated in place, one command at a time (src/actor.rs). */
module RoomActors {
  import opened Wrappers
  import opened Bytes
  import opened Frame
  import opened Loro
  import opened Store
  import opened Gateway
  import opened Rotation
  import opened Recovery
  import opened Protocol
  import opened Startup
  import opened Updates
  import FrameCodec
  import FrameLayout

  datatype InitializationFailure = InitializationFailure(state: Lifecycle, message: string)

  function StoreInitializationFailure(e: StoreError): InitializationFailure {
    InitializationFailure(if e.Integrity? then Corrupt else Unavailable, "store failure during recovery")
  }

  function ManifestRecoveryFailure(e: RecoveryError): InitializationFailure {
    match e
    case StoreFailed(Integrity(_)) => InitializationFailure(Corrupt, "manifest recovery failed")
    case StoreFailed(_) => InitializationFailure(Unavailable, "manifest recovery failed")
    case _ => InitializationFailure(Corrupt, "manifest recovery failed")
  }

  class RoomActor {
    const g: Gateway
    const store: Store
    const boot: nat
    var stream: StreamKey
    var generation: U64
    var endOffset: U64
    var producerId: seq<byte>
    var sequence: U64
    var doc: Doc
    var history: seq<seq<byte>>
    var blocked: Option<PendingAppend>
    var lifecycle: Lifecycle

    function View(): Actor
      reads this
    {
      Actor(boot, stream, generation, endOffset, producerId, sequence, doc, history, blocked, lifecycle)
    }

    constructor (g: Gateway, store: Store, boot: nat)
      ensures this.g == g && this.store == store && View() == NewActor(g, boot)
    {
      this.g := g;
      this.store := store;
      this.boot := boot;
      stream := DeltaStream(0);
      generation := 0;
      endOffset := 0;
      producerId := g.names.delta(boot, 0);
      sequence := 0;
      doc := EMPTY;
      history := [];
      blocked := None;
      lifecycle := Recovering;
    }

    /** Initialisation followed by the first lifecycle transition. */
    method Start()
      requires View() == NewActor(g, boot)
      modifies this, store
      ensures StartStep(g, old(store.durable), boot, store.durable, View())
      ensures Outcome(g, old(store.durable), old(store.faults), lifecycle)
    {
      hide Recovered, Loaded, StartedUnder, Outcome;
      var failure := Initialize();
      match failure {
        case None => lifecycle := Ready;
        case Some(f) => lifecycle := f.state;
      }
    }

    method Initialize() returns (failure: Option<InitializationFailure>)
      requires View() == NewActor(g, boot)
      modifies this, store
      ensures var d, d' := old(store.durable), store.durable;
              && (d' == d || d' == Ensured(d, ManifestStream) || d' == Ensured(Ensured(d, ManifestStream), DeltaStream(0)))
              && blocked.None?
              && (failure.Some? ==> failure.value.state.Corrupt? || failure.value.state.Unavailable?)
              && (failure.None? ==> StartStep(g, d, boot, d', View().(lifecycle := Ready)))
      ensures LeftIn(StartedUnder(g, old(store.durable), old(store.faults)), if failure.None? then Ready else failure.value.state)
      ensures Outcome(g, old(store.durable), old(store.faults), if failure.None? then Ready else failure.value.state)
    {
      hide Recovered, Loaded, ManifestHead, RecoveredUnder, Outcome, Clear;
      OutcomeHolds(g, store.durable, store.faults, LifecycleOf(StartedUnder(g, store.durable, store.faults)));
      var recovered := RecoverFromManifest(g, store);
      if recovered.Failure? { return Some(ManifestRecoveryFailure(recovered.error)); }
      match recovered.value {
        case Some(r) =>
          stream := DeltaStream(r.activeDeltaGeneration);
          generation := r.activeDeltaGeneration;
          endOffset := r.activeDeltaEndOffset;
          producerId := g.names.delta(boot, generation);
          sequence := 0;
          history := r.history;
          doc := r.doc;
        case None =>
          var ensured := store.EnsureStream(stream);
          if ensured.Failure? { return Some(StoreInitializationFailure(ensured.error)); }
          ghost var script := store.faults;
          var loaded := LoadFromStore();
          ReloadAgrees(g, store.durable, script, stream, if loaded.Success? then Ready else loaded.error.state);
          if loaded.Failure? { return Some(loaded.error); }
          history := loaded.value.0;
          doc := loaded.value.1;
      }
      failure := None;
    }

    method LoadFromStore() returns (r: Result<(seq<seq<byte>>, Doc), InitializationFailure>)
      modifies this`endOffset, store
      ensures store.durable == old(store.durable)
      ensures r.Success? ==> stream in store.durable.streams && endOffset == |store.durable.streams[stream]|
                             && Loaded(g, store.durable.streams[stream]) == Success(r.value)
      ensures r.Failure? ==> r.error.state.Corrupt? || r.error.state.Unavailable?
      ensures ReloadOutcome(g, store.durable, NextOf(old(store.faults)), stream, if r.Success? then Ready else r.error.state)
      ensures store.faults == RestOf(old(store.faults))
    {
      hide DecodedStream, EachAllowed, Settle, FrameLayout.ReadsFrames;
      var read := store.ReadAll(stream);
      if read.Failure? { return Failure(StoreInitializationFailure(read.error)); }
      var bytes := read.value;
      endOffset := |bytes|;
      var decoded := FrameCodec.DecodeAllWithLimits(g.h, bytes, g.frameLimits);
      if decoded.Failure? { return Failure(InitializationFailure(Corrupt, "delta stream does not decode")); }
      var frames := decoded.value;
      var loaded: seq<seq<byte>> := [];
      for i := 0 to |frames|
        invariant loaded + AllUpdates(frames[i..]) == AllUpdates(frames)
        invariant FramesAllowed(g.lib, frames, true) == FramesAllowed(g.lib, frames[i..], loaded == [])
      {
        assert frames[i..][1..] == frames[i + 1..];
        var allowed := BlobsAllowed(g.lib, frames[i].updates, loaded == []);
        if allowed.Failure? { return Failure(InitializationFailure(Corrupt, allowed.error)); }
        ghost var before := loaded;
        loaded := loaded + frames[i].updates;
        assert before + AllUpdates(frames[i..]) == loaded + AllUpdates(frames[i + 1..]);
      }
      assert loaded == AllUpdates(frames);
      var replayed := Replayed(g.lib, loaded);
      if replayed.Failure? { return Failure(InitializationFailure(Corrupt, replayed.error)); }
      r := Success((loaded, replayed.value));
    }

    /** One client batch, from the command loop's lifecycle check to the acknowledgement. */
    method Update(joined: bool, batchId: BatchId, updates: seq<seq<byte>>) returns (status: Status)
      modifies this, store
      ensures UpdateStep(g, store.orderly, old(store.durable), old(View()), joined, batchId, updates,
                         store.durable, View(), status)
      ensures UpdateOutcome(g, store.orderly, old(store.durable), old(store.faults), old(View()), joined, batchId, updates,
                            store.durable, View(), status)
      ensures old(lifecycle.Ready? && blocked.None?) && joined && Prepare(g, old(View()), batchId, updates).Success? ==>
                var (candidate, p) := Prepare(g, old(View()), batchId, updates).value;
                var (d', rest, r) := Attempted(g, store.orderly, old(store.durable), old(store.faults), p, g.ambiguousRetries);
                store.durable == d' && store.faults == rest && (View(), status) == AfterAppend(old(View()), candidate, p, r)
      ensures Losses(old(store.faults)) && |old(store.faults)| <= g.ambiguousRetries && g.h.utf8(old(producerId)) ==>
                (status.AckOk? <==>
                   && old(lifecycle.Ready? && blocked.None?) && joined && Prepare(g, old(View()), batchId, updates).Success?
                   && Appendable(old(store.durable), Prepare(g, old(View()), batchId, updates).value.1))
    {
      hide FrameLayout.FrameAt, Fits, UpdateOutcome, Resolved, Candidate, BlobsAllowed, Encoded, NewFrame, Attempted, AfterDelivery, Appendable, Losses;
      NotServed(g, store.orderly, store.durable, store.faults, View(), joined, batchId, updates);
      if lifecycle.Recovering? || lifecycle.Corrupt? || lifecycle.Unavailable? { return Unknown; }
      if !joined { return DeniedStatus; }
      if !lifecycle.Ready? || blocked.Some? { return RateLimitedStatus; }
      if Prepare(g, View(), batchId, updates).Success? {
        PreparedOutcome(g, store.orderly, store.durable, store.faults, View(), batchId, updates);
      } else {
        NotPrepared(g, store.orderly, store.durable, store.faults, View(), batchId, updates);
      }
      var allowed := BlobsAllowed(g.lib, updates, history == []);
      if allowed.Failure? { return InvalidUpdate; }
      var candidate := Candidate(g.lib, doc, history, updates);
      if candidate.Failure? { return InvalidUpdate; }
      if sequence + 1 >= TWO_64 { return AppError; }
      var producer := ProducerTuple(producerId, 0, sequence);
      var frame := NewFrame(g.h, producer, batchId, updates);
      FrameFields(g, producer, batchId, updates);
      var bytes := FrameCodec.EncodeWithLimits(g.h, frame, g.frameLimits);
      if bytes.Failure? { return PayloadTooLargeStatus; }
      var pending := PendingAppend(stream, producer, frame, bytes.value);
      var outcome := ResolveAppend(pending);
      match outcome {
        case Success(proof) =>
          sequence := sequence + 1;
          endOffset := proof.nextOffset;
          history := history + updates;
          doc := candidate.value;
          lifecycle := Ready;
          status := AckOk;
        case Failure(DefinitelyRejected(kind, _)) =>
          status := RejectionStatus(kind);
        case Failure(OutcomeUnknown(_)) =>
          blocked := Some(pending);
          lifecycle := AppendAmbiguous;
          status := Unknown;
      }
      assert (View(), status) == AfterAppend(old(View()), candidate.value, pending, outcome);
    }

    lemma FrameFields(g: Gateway, producer: ProducerTuple, batchId: BatchId, updates: seq<seq<byte>>)
      ensures NewFrame(g.h, producer, batchId, updates).updates == updates
      ensures NewFrame(g.h, producer, batchId, updates).batchId == batchId
    {
    }

    /** Reads the range that ends at the duplicate's offset and compares it with the pending frame. */
    method ProveDuplicate(pending: PendingAppend, nextOffset: U64) returns (r: Result<(), StoreError>)
      modifies store
      ensures store.durable == old(store.durable) && store.appends == old(store.appends)
      ensures store.faults == if nextOffset < |pending.bytes| then old(store.faults) else RestOf(old(store.faults))
      ensures r == ProvedDuplicate(g, store.durable, NextOf(old(store.faults)), pending, nextOffset)
    {
      hide DuplicateVerified;
      if nextOffset < |pending.bytes| {
        return Failure(Integrity("duplicate next offset is smaller than retry frame"));
      }
      var start := nextOffset - |pending.bytes|;
      var stored :- store.ReadRange(pending.target, start, |pending.bytes|);
      r := DuplicateVerified(g, pending, stored);
    }

    /** Appends until the outcome is known, retrying ambiguity with the identical tuple and bytes. */
    method ResolveAppend(pending: PendingAppend) returns (r: Result<DurableAppend, AppendFailure>)
      modifies store
      ensures (store.durable, store.faults, r)
           == Attempted(g, store.orderly, old(store.durable), old(store.faults), pending, g.ambiguousRetries)
      ensures Resolved(g, store.orderly, old(store.durable), pending, store.durable, r)
      ensures store.appends <= old(store.appends) + g.ambiguousRetries + 1
      ensures Losses(old(store.faults)) && |old(store.faults)| <= g.ambiguousRetries && Prepared(g, pending) ==>
                store.durable == AfterDelivery(old(store.durable), pending) && (r.Success? <==> Appendable(old(store.durable), pending))
    {
      hide ProvedDuplicate, Answered, Prepared, AfterDelivery, Appendable, Losses;
      ghost var d, script := store.durable, store.faults;
      if Losses(script) && |script| <= g.ambiguousRetries && Prepared(g, pending) {
        SurvivesLostCalls(g, store.orderly, d, script, pending, g.ambiguousRetries);
      }
      var attempts := 0;
      while true
        invariant 0 <= attempts <= g.ambiguousRetries
        invariant store.appends == old(store.appends) + attempts
        invariant Attempted(g, store.orderly, d, script, pending, g.ambiguousRetries)
               == Attempted(g, store.orderly, store.durable, store.faults, pending, g.ambiguousRetries - attempts)
        decreases g.ambiguousRetries - attempts
      {
        var outcome := store.Append(pending.target, pending.producer, pending.bytes);
        match outcome {
          case Success(Committed(nextOffset)) =>
            r := Success(DurablyCommitted(nextOffset));
            assert ResolvedBy(g, store.orderly, d, script, pending, store.durable, r);
            return;
          case Success(Duplicate(nextOffset)) =>
            var verified := ProveDuplicate(pending, nextOffset);
            r := if verified.Failure? then Failure(OutcomeUnknown(verified.error)) else Success(DurablyVerified(nextOffset));
            assert ResolvedBy(g, store.orderly, d, script, pending, store.durable, r);
            return;
          case Failure(Ambiguous(message)) =>
            if attempts >= g.ambiguousRetries {
              r := Failure(OutcomeUnknown(Ambiguous(message)));
              assert ResolvedBy(g, store.orderly, d, script, pending, store.durable, r);
              return;
            }
            attempts := attempts + 1;
          case Failure(Rejected(kind, message)) =>
            r := Failure(DefinitelyRejected(kind, message));
            assert ResolvedBy(g, store.orderly, d, script, pending, store.durable, r);
            return;
          case Failure(Integrity(message)) =>
            r := Failure(OutcomeUnknown(Integrity(message)));
            assert ResolvedBy(g, store.orderly, d, script, pending, store.durable, r);
            return;
        }
      }
    }

    /** Retries the blocked append; on success the room's state is reloaded from the active stream. */
    method RetryPending() returns (resolved: bool)
      modifies this, store
      ensures RetryStep(g, store.orderly, old(store.durable), old(View()), store.durable, View(), resolved)
      ensures old(blocked.Some?) ==> RetryOutcome(g, store.orderly, old(store.durable), old(store.faults), old(View()), old(blocked).value,
                                                  store.durable, View(), resolved)
      ensures Losses(old(store.faults)) && |old(store.faults)| <= g.ambiguousRetries && old(blocked.Some?) && Prepared(g, old(blocked).value) ==>
                var p, d' := old(blocked).value, AfterDelivery(old(store.durable), old(blocked).value);
                stream in d'.streams ==>
                  (resolved <==> Appendable(old(store.durable), p) && Loaded(g, d'.streams[stream]).Success? && p.producer.sequence + 1 < TWO_64)
    {
      hide Resolved, Loaded, Appendable, AfterDelivery, Prepared, Attempted, Losses;
      if blocked.None? { return false; }
      var pending := blocked.value;
      if Losses(store.faults) && |store.faults| <= g.ambiguousRetries && Prepared(g, pending) {
        SurvivesLostCalls(g, store.orderly, store.durable, store.faults, pending, g.ambiguousRetries);
      }
      blocked := None;
      var outcome := ResolveAppend(pending);
      match outcome {
        case Success(proof) =>
          var loaded := LoadFromStore();
          if loaded.Failure? {
            blocked := Some(pending);
            lifecycle := loaded.error.state;
            return false;
          }
          if pending.producer.sequence + 1 >= TWO_64 {
            blocked := Some(pending);
            lifecycle := Unavailable;
            return false;
          }
          sequence := pending.producer.sequence + 1;
          history := loaded.value.0;
          doc := loaded.value.1;
          lifecycle := Ready;
          resolved := true;
          assert View() == Reconciled(old(View()), pending, store.durable.streams[stream], history, doc);
        case Failure(DefinitelyRejected(_, _)) =>
          blocked := Some(pending);
          lifecycle := Unavailable;
          resolved := false;
        case Failure(OutcomeUnknown(_)) =>
          blocked := Some(pending);
          lifecycle := AppendAmbiguous;
          resolved := false;
      }
    }

    /** Rotates to the next generation and switches the actor over only after the manifest is published. */
    method RotateGeneration() returns (rotated: bool)
      modifies this, store
      ensures RotateStep(g, old(store.durable), old(View()), store.durable, View(), rotated)
      ensures Tolerable(old(store.faults), old(Content(store.durable, CheckpointStream(generation))) == [], g.ambiguousRetries) ==>
                (rotated <==> old(lifecycle.Ready? && blocked.None?) && old(Rotatable(g, store.durable, generation, endOffset, doc, history)))
    {
      hide Rotates, Rotatable, Tolerable;
      if !lifecycle.Ready? || blocked.Some? { return false; }
      var outcome := RotateRoom(g, store, generation, endOffset, doc, history);
      if outcome.Failure? {
        lifecycle := Unavailable;
        return false;
      }
      stream := DeltaStream(outcome.value.nextGeneration);
      generation := outcome.value.nextGeneration;
      endOffset := 0;
      producerId := g.names.delta(boot, generation);
      sequence := 0;
      history := outcome.value.retainedHistory;
      lifecycle := Ready;
      rotated := true;
    }
  }
}
