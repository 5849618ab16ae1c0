/** Which failed start leaves a room corrupt and which unavailable: from the fault script and the stored bytes. */
module Startup {
  import opened Wrappers
  import opened Bytes
  import opened Store
  import opened Gateway
  import opened Recovery
  import opened Protocol
  import opened Manifest
  import opened Frame
  import opened Loro
  import Checkpoint

  /** A start goes through, meets a store call that fails, or reads bytes that make no room. */
  datatype Startup = Started | CallFailed(error: StoreError) | BadBytes

  /** Starting against a script of faults, call by call. */
  function StartedUnder(g: Gateway, d: Durable, faults: seq<Fault>): Startup {
    var (d', rest, recovered) := RecoveredUnder(g, d, faults);
    match recovered
    case Failure(StoreFailed(e)) => CallFailed(e)
    case Failure(_) => BadBytes
    case Success(Some(_)) => Started
    case Success(None) => ReplayedUnder(g, d', rest)
  }

  /** The full replay of a room without a manifest. */
  function ReplayedUnder(g: Gateway, d: Durable, faults: seq<Fault>): Startup {
    var (d', ensured) := EnsureAnswered(d, NextOf(faults), DeltaStream(0));
    if ensured.Failure? then CallFailed(ensured.error)
    else ReloadedUnder(g, d', RestOf(faults), DeltaStream(0))
  }

  /** Reading and replaying one delta stream. */
  function ReloadedUnder(g: Gateway, d: Durable, faults: seq<Fault>, s: StreamKey): Startup {
    match WholeRead(d, NextOf(faults), s)
    case Failure(e) => CallFailed(e)
    case Success(bytes) => if Loaded(g, bytes).Success? then Started else BadBytes
  }

  /** What the room is after such a start. */
  predicate LeftIn(s: Startup, l: Lifecycle) {
    match s
    case Started => l.Ready?
    case BadBytes => l.Corrupt?
    case CallFailed(e) => if e.Integrity? then l.Corrupt? else l.Unavailable?
  }

  function LifecycleOf(s: Startup): (l: Lifecycle)
    ensures LeftIn(s, l)
  {
    match s
    case Started => Ready
    case BadBytes => Corrupt
    case CallFailed(e) => if e.Integrity? then Corrupt else Unavailable
  }

  // ---------------------------------------------------------------- the same, without following the calls

  /** The first call that is not delivered is number i. */
  predicate FirstFault(faults: seq<Fault>, i: nat) {
    Clear(faults, i) && i < |faults| && !faults[i].Deliver?
  }

  /** The store reports damage; every other failure says only that the call did not go through. */
  predicate ReportsDamage(f: Fault) {
    (f.LoseRequest? || f.LoseReply?) && f.error.Integrity?
  }

  /** There is a manifest, and its records do not decode or do not form a chain. */
  predicate BadManifest(g: Gateway, d: Durable) {
    Content(d, ManifestStream) != [] && ManifestHead(g, Content(d, ManifestStream)).Failure?
  }

  /** There is a valid manifest whose checkpoint stream satisfies the condition. */
  predicate CheckpointOf(g: Gateway, d: Durable, missing: bool) {
    && Content(d, ManifestStream) != []
    && var head := ManifestHead(g, Content(d, ManifestStream));
    && head.Success?
    && if missing then CheckpointStream(head.value.checkpointGeneration) !in d.streams
       else
         && CheckpointStream(head.value.checkpointGeneration) in d.streams
         && CheckpointLoaded(g, head.value, d.streams[CheckpointStream(head.value.checkpointGeneration)]).Failure?
  }

  /** The manifest is valid and names a loadable checkpoint, but its delta stream does not exist. */
  predicate DeltaMissing(g: Gateway, d: Durable) {
    && Content(d, ManifestStream) != []
    && var head := ManifestHead(g, Content(d, ManifestStream));
    && head.Success?
    && CheckpointStream(head.value.checkpointGeneration) in d.streams
    && CheckpointLoaded(g, head.value, d.streams[CheckpointStream(head.value.checkpointGeneration)]).Success?
    && DeltaStream(head.value.activeDeltaGeneration) !in d.streams
  }

  /** The bytes read before call i are already no room. */
  predicate SpoiltBefore(g: Gateway, d: Durable, i: nat) {
    (i >= 2 && BadManifest(g, d)) || (i >= 3 && CheckpointOf(g, d, false))
  }

  /**
   How a start leaves the room. With its four calls delivered it is ready exactly if a restart
   succeeds, unavailable exactly if a stream the manifest leads to is missing, and else corrupt. If one
   of the four fails first, the room is corrupt exactly if the bytes read before are bad or the store
   reports damage, and unavailable otherwise, a missing checkpoint stream included.
   */
  ghost predicate Outcome(g: Gateway, d: Durable, faults: seq<Fault>, l: Lifecycle) {
    && (Clear(faults, 4) ==>
          && (l.Ready? <==> Restarted(g, d).Success?)
          && (l.Unavailable? <==> CheckpointOf(g, d, true) || DeltaMissing(g, d)))
    && (forall i {:trigger FirstFault(faults, i)} :: 0 <= i < 4 && FirstFault(faults, i) ==>
          (l.Corrupt? <==> SpoiltBefore(g, d, i) || (ReportsDamage(faults[i]) && !(i == 3 && CheckpointOf(g, d, true)))))
    && (Clear(faults, 4) || exists i :: 0 <= i < 4 && FirstFault(faults, i))
    && (!Clear(faults, 4) ==> !l.Ready?)
    && (l.Ready? || l.Corrupt? || l.Unavailable?)
  }

  lemma {:induction false} SomeFirstFault(faults: seq<Fault>, n: nat)
    ensures Clear(faults, n) || exists i :: 0 <= i < n && FirstFault(faults, i)
  {
    if n > 0 {
      SomeFirstFault(faults, n - 1);
      if Clear(faults, n - 1) && !Clear(faults, n) {
        assert FirstFault(faults, n - 1);
      }
    }
  }

  /** Reading the bytes never blames the store. */
  lemma BytesNotStore(g: Gateway, d: Durable)
    ensures var head := ManifestHead(g, Content(d, ManifestStream));
            && (head.Failure? ==> !head.error.StoreFailed?)
            && (head.Success? ==> forall bytes ::
                  var checkpoint := CheckpointLoaded(g, head.value, bytes); checkpoint.Failure? ==> !checkpoint.error.StoreFailed?)
            && (head.Success? ==> forall checkpoint, base, bytes ::
                  var applied := DeltaApplied(g, head.value, checkpoint, base, bytes); applied.Failure? ==> !applied.error.StoreFailed?)
  {
    hide DecodedManifestStream, ValidatedChain, Checkpoint.Decoded, VerifiesCheckpoint, FromSnapshot, ImportBatch, DecodedStream;
  }

  lemma OutcomeDelivered(g: Gateway, d: Durable, faults: seq<Fault>, l: Lifecycle)
    requires LeftIn(StartedUnder(g, d, faults), l) && Clear(faults, 4)
    ensures l.Ready? <==> Restarted(g, d).Success?
    ensures l.Unavailable? <==> CheckpointOf(g, d, true) || DeltaMissing(g, d)
  {
    hide ManifestHead, CheckpointLoaded, DeltaApplied, Recovered, Loaded;
    BytesNotStore(g, d);
    var f1, f2, f3 := RestOf(faults), RestOf(RestOf(faults)), RestOf(RestOf(RestOf(faults)));
    assert NextOf(faults).Deliver? && NextOf(f1).Deliver? && NextOf(f2).Deliver? && NextOf(f3).Deliver?;
    UnderAgrees(g, d, faults);
  }

  lemma OutcomeFaulty(g: Gateway, d: Durable, faults: seq<Fault>, l: Lifecycle, i: nat)
    requires LeftIn(StartedUnder(g, d, faults), l) && i < 4 && FirstFault(faults, i)
    ensures !l.Ready?
    ensures l.Corrupt? <==> SpoiltBefore(g, d, i) || (ReportsDamage(faults[i]) && !(i == 3 && CheckpointOf(g, d, true)))
  {
    hide ManifestHead, CheckpointLoaded, DeltaApplied, Recovered, Loaded;
    BytesNotStore(g, d);
    var f1, f2, f3 := RestOf(faults), RestOf(RestOf(faults)), RestOf(RestOf(RestOf(faults)));
    assert i > 0 ==> NextOf(faults).Deliver?;
    assert i > 1 ==> NextOf(f1).Deliver?;
    assert i > 2 ==> NextOf(f2).Deliver?;
    assert i == 3 ==> faults[3..][0] == faults[3];
  }

  /** A start that ends as its calls say ends as the script and the stored bytes say. */
  lemma OutcomeHolds(g: Gateway, d: Durable, faults: seq<Fault>, l: Lifecycle)
    requires LeftIn(StartedUnder(g, d, faults), l)
    ensures Outcome(g, d, faults, l)
  {
    hide StartedUnder, SpoiltBefore, CheckpointOf, DeltaMissing, Restarted, Clear;
    SomeFirstFault(faults, 4);
    if Clear(faults, 4) {
      OutcomeDelivered(g, d, faults, l);
    }
    forall i | 0 <= i < 4 && FirstFault(faults, i)
      ensures !l.Ready?
      ensures l.Corrupt? <==> SpoiltBefore(g, d, i) || (ReportsDamage(faults[i]) && !(i == 3 && CheckpointOf(g, d, true)))
    {
      OutcomeFaulty(g, d, faults, l, i);
    }
  }

  /** A room that a restart could read is corrupt after a start only if the store reported damage. */
  lemma ReadableStart(g: Gateway, d: Durable, faults: seq<Fault>, l: Lifecycle)
    requires Outcome(g, d, faults, l) && Restarted(g, d).Success?
    ensures l.Ready? <==> Clear(faults, 4)
    ensures forall i :: 0 <= i < 4 && FirstFault(faults, i) ==> (l.Corrupt? <==> ReportsDamage(faults[i]))
  {
    hide ManifestHead, CheckpointFor, CheckpointDoc, DeltaFrames, Imported, Loaded, Clear;
  }

  // ---------------------------------------------------------------- reconciling a blocked append

  /** How reading and replaying a delta stream leaves the room, the fault of the one call given. */
  predicate ReloadOutcome(g: Gateway, d: Durable, fault: Fault, s: StreamKey, l: Lifecycle) {
    if !fault.Deliver? then (if ReportsDamage(fault) then l.Corrupt? else l.Unavailable?)
    else if s !in d.streams then l.Unavailable?
    else if Loaded(g, d.streams[s]).Failure? then l.Corrupt?
    else l.Ready?
  }

  lemma ReloadAgrees(g: Gateway, d: Durable, faults: seq<Fault>, s: StreamKey, l: Lifecycle)
    ensures ReloadOutcome(g, d, NextOf(faults), s, l) <==> LeftIn(ReloadedUnder(g, d, faults, s), l)
  {
    hide Loaded;
  }

  /**
   How retrying a blocked append leaves the room: a refusal makes it unavailable, an unknown outcome
   leaves it ambiguous; a proved append is followed by a reload, whose own read and bytes decide, and
   by the next sequence, which must exist. The append stays blocked in all cases but the last.
   */
  ghost predicate RetryOutcome(g: Gateway, orderly: bool, d: Durable, faults: seq<Fault>, a: Actor, p: PendingAppend,
                               d': Durable, a': Actor, resolved: bool) {
    var (after, rest, r) := Attempted(g, orderly, d, faults, p, g.ambiguousRetries);
    && d' == after
    && resolved == a'.lifecycle.Ready? == a'.blocked.None?
    && (!resolved ==> a'.blocked == Some(p))
    && match r
       case Failure(DefinitelyRejected(_, _)) => a'.lifecycle.Unavailable?
       case Failure(OutcomeUnknown(_)) => a'.lifecycle.AppendAmbiguous?
       case Success(_) =>
         if NextOf(rest).Deliver? && a.stream in d'.streams && Loaded(g, d'.streams[a.stream]).Success? && p.producer.sequence + 1 >= TWO_64
         then a'.lifecycle.Unavailable?
         else ReloadOutcome(g, d', NextOf(rest), a.stream, a'.lifecycle)
  }
}
