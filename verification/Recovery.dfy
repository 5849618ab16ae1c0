/** Bounded recovery: manifest, then checkpoint, then the active delta (src/recovery.rs). */
module Recovery {
  import opened Wrappers
  import opened Bytes
  import opened Frame
  import opened Loro
  import opened Store
  import opened Gateway
  import opened Manifest
  import Checkpoint
  import CheckpointCodec
  import CheckpointLayout
  import FrameLayout
  import ManifestLayout
  import FrameCodec
  import ManifestCodec

  datatype ManifestRecovery = ManifestRecovery(
    doc: Doc,
    history: seq<seq<byte>>,
    checkpointGeneration: U64,
    activeDeltaGeneration: U64,
    activeDeltaEndOffset: U64
  )

  datatype RecoveryError =
    | StoreFailed(store: StoreError)
    | ManifestFailed(manifest: ManifestError)
    | CheckpointFailed(checkpoint: Checkpoint.CheckpointError)
    | FrameFailed(frame: FrameError)
    | MissingCheckpoint(generation: nat)
    | CheckpointManifestMismatch
    | WrongCheckpointRoom
    | CheckpointGenerationMismatch(expectedGeneration: nat, actualGeneration: nat)
    | CheckpointSourceMismatch(checkpointGeneration: nat, sourceDeltaGeneration: nat)
    | ActiveDeltaGenerationMismatch(expectedActive: nat, actualActive: nat)
    | GenerationOverflow
    | LoroFailed(message: string)

  function LinkValidated(g: Gateway, checkpointGeneration: nat, activeDeltaGeneration: nat, c: Checkpoint.CheckpointRecord): Result<(), RecoveryError> {
    if c.roomHash != Checkpoint.RoomHash(g.h, g.room) then Failure(WrongCheckpointRoom) else
    if c.checkpointGeneration != checkpointGeneration then
      Failure(CheckpointGenerationMismatch(checkpointGeneration, c.checkpointGeneration)) else
    if c.sourceDeltaGeneration != c.checkpointGeneration then
      Failure(CheckpointSourceMismatch(c.checkpointGeneration, c.sourceDeltaGeneration)) else
    if c.checkpointGeneration + 1 >= TWO_64 then Failure(GenerationOverflow) else
    if activeDeltaGeneration != c.checkpointGeneration + 1 then
      Failure(ActiveDeltaGenerationMismatch(c.checkpointGeneration + 1, activeDeltaGeneration)) else
    Success(())
  }

  function StreamBytes(d: Durable, s: StreamKey): Result<Stored, RecoveryError> {
    if s in d.streams then Success(d.streams[s]) else Failure(StoreFailed(Rejected(NotFound, "no such stream")))
  }

  function ManifestHead(g: Gateway, manifest: seq<byte>): Result<ManifestRecord, RecoveryError> {
    match DecodedManifestStream(g.h, manifest, DEFAULT_MANIFEST_LIMITS)
    case Failure(e) => Failure(ManifestFailed(e))
    case Success(records) =>
      match ValidatedChain(g.h, records, g.room)
      case Failure(e) => Failure(ManifestFailed(e))
      case Success(latest) => Success(latest)
  }

  function CheckpointFor(g: Gateway, latest: ManifestRecord, bytes: seq<byte>): Result<Checkpoint.CheckpointRecord, RecoveryError> {
    if bytes == [] then Failure(MissingCheckpoint(latest.checkpointGeneration)) else
    if !VerifiesCheckpoint(g.h, latest, bytes) then Failure(CheckpointManifestMismatch) else
    match Checkpoint.Decoded(g.h, bytes, Checkpoint.DEFAULT_LIMITS)
    case Failure(e) => Failure(CheckpointFailed(e))
    case Success(c) =>
      var _ :- LinkValidated(g, latest.checkpointGeneration, latest.activeDeltaGeneration, c);
      Success(c)
  }

  /** Imports a batch if there is anything in it. */
  function Imported(g: Gateway, doc: Doc, updates: seq<seq<byte>>): Result<Doc, RecoveryError> {
    if updates == [] then Success(doc)
    else
      match ImportBatch(g.lib, doc, updates)
      case Failure(e) => Failure(LoroFailed(e))
      case Success(d) => Success(d)
  }

  function CheckpointDoc(g: Gateway, c: Checkpoint.CheckpointRecord): Result<Doc, RecoveryError> {
    match FromSnapshot(g.lib, c.snapshot)
    case Failure(e) => Failure(LoroFailed(e))
    case Success(base) => Imported(g, base, c.pendingUpdates)
  }

  function DeltaFrames(g: Gateway, bytes: seq<byte>): Result<seq<DeltaFrame>, RecoveryError> {
    match DecodedStream(g.h, bytes, g.frameLimits)
    case Failure(e) => Failure(FrameFailed(e))
    case Success(frames) => Success(frames)
  }

  /** What recovery finds in the store when every read is delivered; None asks for full replay. */
  function Recovered(g: Gateway, d: Durable): Result<Option<ManifestRecovery>, RecoveryError> {
    if Content(d, ManifestStream) == [] then Success(None) else
    var latest :- ManifestHead(g, Content(d, ManifestStream));
    var checkpointBytes :- StreamBytes(d, CheckpointStream(latest.checkpointGeneration));
    var checkpoint :- CheckpointFor(g, latest, checkpointBytes);
    var base :- CheckpointDoc(g, checkpoint);
    var deltaBytes :- StreamBytes(d, DeltaStream(latest.activeDeltaGeneration));
    var frames :- DeltaFrames(g, deltaBytes);
    var doc :- Imported(g, base, AllUpdates(frames));
    Success(Some(ManifestRecovery(doc, checkpoint.pendingUpdates + AllUpdates(frames), latest.checkpointGeneration,
                                  latest.activeDeltaGeneration, |deltaBytes|)))
  }

  /** The document, history and position found behind a valid manifest head, read by read. */
  function RecoveredBehind(g: Gateway, d: Durable, faults: seq<Fault>, latest: ManifestRecord):
      (seq<Fault>, Result<Option<ManifestRecovery>, RecoveryError>) {
    match WholeRead(d, NextOf(faults), CheckpointStream(latest.checkpointGeneration))
    case Failure(e) => (RestOf(faults), Failure(StoreFailed(e)))
    case Success(checkpointBytes) =>
      match CheckpointLoaded(g, latest, checkpointBytes)
      case Failure(e) => (RestOf(faults), Failure(e))
      case Success((checkpoint, base)) =>
        match WholeRead(d, NextOf(RestOf(faults)), DeltaStream(latest.activeDeltaGeneration))
        case Failure(e) => (RestOf(RestOf(faults)), Failure(StoreFailed(e)))
        case Success(deltaBytes) => (RestOf(RestOf(faults)), DeltaApplied(g, latest, checkpoint, base, deltaBytes))
  }

  function CheckpointLoaded(g: Gateway, latest: ManifestRecord, bytes: seq<byte>): Result<(Checkpoint.CheckpointRecord, Doc), RecoveryError> {
    var checkpoint :- CheckpointFor(g, latest, bytes);
    var base :- CheckpointDoc(g, checkpoint);
    Success((checkpoint, base))
  }

  function DeltaApplied(g: Gateway, latest: ManifestRecord, checkpoint: Checkpoint.CheckpointRecord, base: Doc, bytes: Stored):
      Result<Option<ManifestRecovery>, RecoveryError> {
    var frames :- DeltaFrames(g, bytes);
    var doc :- Imported(g, base, AllUpdates(frames));
    Success(Some(ManifestRecovery(doc, checkpoint.pendingUpdates + AllUpdates(frames), latest.checkpointGeneration,
                                  latest.activeDeltaGeneration, |bytes|)))
  }

  /** Recovery against a script of faults: the store, the script that is left and the answer. */
  function RecoveredUnder(g: Gateway, d: Durable, faults: seq<Fault>): (Durable, seq<Fault>, Result<Option<ManifestRecovery>, RecoveryError>) {
    var (d', ensured) := EnsureAnswered(d, NextOf(faults), ManifestStream);
    var rest := RestOf(faults);
    if ensured.Failure? then (d', rest, Failure(StoreFailed(ensured.error)))
    else
      match WholeRead(d', NextOf(rest), ManifestStream)
      case Failure(e) => (d', RestOf(rest), Failure(StoreFailed(e)))
      case Success(manifest) =>
        if manifest == [] then (d', RestOf(rest), Success(None))
        else
          match ManifestHead(g, manifest)
          case Failure(e) => (d', RestOf(rest), Failure(e))
          case Success(latest) =>
            var (left, r) := RecoveredBehind(g, d', RestOf(rest), latest);
            (d', left, r)
  }

  /** Whatever the script, an answer that is not a failed call is the answer of the stored bytes. */
  lemma UnderAgrees(g: Gateway, d: Durable, faults: seq<Fault>)
    ensures var (d', left, r) := RecoveredUnder(g, d, faults);
            && (d' == d || d' == Ensured(d, ManifestStream))
            && (r.Success? ==> d' == Ensured(d, ManifestStream))
            && (r.Success? || !r.error.StoreFailed? ==> r == Recovered(g, d))
            && (Clear(faults, 4) ==> r == Recovered(g, d) && d' == Ensured(d, ManifestStream))
            && (r == Success(None) ==> left == RestOf(RestOf(faults)))
  {
    hide ManifestHead, CheckpointFor, CheckpointDoc, DeltaFrames, Imported;
  }

  method RecoverFromManifest(g: Gateway, store: Store) returns (r: Result<Option<ManifestRecovery>, RecoveryError>)
    modifies store
    ensures store.durable == old(store.durable) || store.durable == Ensured(old(store.durable), ManifestStream)
    ensures r.Success? ==> store.durable == Ensured(old(store.durable), ManifestStream) && r == Recovered(g, old(store.durable))
    ensures r.Failure? ==> r.error.StoreFailed? || r == Recovered(g, old(store.durable))
    ensures (store.durable, store.faults, r) == RecoveredUnder(g, old(store.durable), old(store.faults))
    ensures Clear(old(store.faults), 4) ==> r == Recovered(g, old(store.durable)) && store.durable == Ensured(old(store.durable), ManifestStream)
    ensures r == Success(None) ==> store.faults == RestOf(RestOf(old(store.faults)))
  {
    hide ManifestHead, CheckpointFor, CheckpointDoc, DeltaFrames, ImportBatch, Recovered, Clear, Ensures;
    UnderAgrees(g, store.durable, store.faults);
    var ensured := store.EnsureStream(ManifestStream);
    if ensured.Failure? { return Failure(StoreFailed(ensured.error)); }
    var manifest := store.ReadAll(ManifestStream);
    if manifest.Failure? { return Failure(StoreFailed(manifest.error)); }
    if manifest.value == [] { return Success(None); }
    var latest :- ReadHead(g, manifest.value);
    var checkpointBytes := store.ReadAll(CheckpointStream(latest.checkpointGeneration));
    if checkpointBytes.Failure? { return Failure(StoreFailed(checkpointBytes.error)); }
    var checkpoint :- ReadCheckpoint(g, latest, checkpointBytes.value);
    var doc :- CheckpointDoc(g, checkpoint);
    var deltaBytes := store.ReadAll(DeltaStream(latest.activeDeltaGeneration));
    if deltaBytes.Failure? { return Failure(StoreFailed(deltaBytes.error)); }
    var frames :- ReadFrames(g, deltaBytes.value);
    var history := checkpoint.pendingUpdates;
    for i := 0 to |frames|
      invariant history + AllUpdates(frames[i..]) == checkpoint.pendingUpdates + AllUpdates(frames)
    {
      assert frames[i..][1..] == frames[i + 1..];
      ghost var before := history;
      history := history + frames[i].updates;
      assert before + AllUpdates(frames[i..]) == history + AllUpdates(frames[i + 1..]);
    }
    assert history == checkpoint.pendingUpdates + AllUpdates(frames);
    var active := history[|checkpoint.pendingUpdates|..];
    assert active == AllUpdates(frames);
    if active != [] {
      var imported :- Imported(g, doc, active);
      doc := imported;
    }
    r := Success(Some(ManifestRecovery(doc, history, latest.checkpointGeneration, latest.activeDeltaGeneration, |deltaBytes.value|)));
  }

  method ReadHead(g: Gateway, manifest: seq<byte>) returns (r: Result<ManifestRecord, RecoveryError>)
    ensures r == ManifestHead(g, manifest)
  {
    hide DecodedRecords, LinksChecked, ManifestLayout.ReadsRecords;
    var records := ManifestCodec.DecodeManifestStream(g.h, manifest, DEFAULT_MANIFEST_LIMITS);
    if records.Failure? { return Failure(ManifestFailed(records.error)); }
    var latest := ValidatedChain(g.h, records.value, g.room);
    r := if latest.Failure? then Failure(ManifestFailed(latest.error)) else Success(latest.value);
  }

  method ReadCheckpoint(g: Gateway, latest: ManifestRecord, bytes: seq<byte>) returns (r: Result<Checkpoint.CheckpointRecord, RecoveryError>)
    ensures r == CheckpointFor(g, latest, bytes)
  {
    hide Checkpoint.Decoded, VerifiesCheckpoint, CheckpointLayout.ReadsRecord;
    if bytes == [] { return Failure(MissingCheckpoint(latest.checkpointGeneration)); }
    if !VerifiesCheckpoint(g.h, latest, bytes) { return Failure(CheckpointManifestMismatch); }
    var decoded := CheckpointCodec.DecodeExact(g.h, bytes, Checkpoint.DEFAULT_LIMITS);
    if decoded.Failure? { return Failure(CheckpointFailed(decoded.error)); }
    var _ :- LinkValidated(g, latest.checkpointGeneration, latest.activeDeltaGeneration, decoded.value);
    r := Success(decoded.value);
  }

  method ReadFrames(g: Gateway, bytes: seq<byte>) returns (r: Result<seq<DeltaFrame>, RecoveryError>)
    ensures r == DeltaFrames(g, bytes)
  {
    hide DecodedFrames, FrameLayout.ReadsFrames;
    var frames := FrameCodec.DecodeAllWithLimits(g.h, bytes, g.frameLimits);
    r := if frames.Failure? then Failure(FrameFailed(frames.error)) else Success(frames.value);
  }
}
