/** Building a checkpoint from a live document: which raw updates must be kept (src/checkpoint.rs:464-515). */
module CheckpointBuilder {
  import opened Wrappers
  import opened Bytes
  import opened Checkpoint
  import opened Loro

  datatype BuildError =
    | SnapshotRestore(message: string)
    | HistoryImport(message: string)
    | Validation(message: string)

  /** Whether importing the blob into a document restored from the snapshot leaves some of it pending. */
  function ProbePending(lib: Library, snapshot: seq<byte>, blob: seq<byte>): Result<bool, BuildError> {
    match FromSnapshot(lib, snapshot)
    case Failure(e) => Failure(SnapshotRestore(e))
    case Success(probe) =>
      match ImportBatch(lib, probe, [blob])
      case Failure(e) => Failure(HistoryImport(e))
      case Success(d) => Success(d.pending * BlobOps(lib, blob) != {})
  }

  function Retained(lib: Library, snapshot: seq<byte>, history: seq<seq<byte>>): Result<seq<seq<byte>>, BuildError> {
    if history == [] then Success([])
    else
      var pending :- ProbePending(lib, snapshot, history[0]);
      var rest :- Retained(lib, snapshot, history[1..]);
      Success(if pending then [history[0]] + rest else rest)
  }

  /** Snapshot, then the given raw updates. */
  function Restored(lib: Library, snapshot: seq<byte>, pending: seq<seq<byte>>): Result<Doc, BuildError> {
    match FromSnapshot(lib, snapshot)
    case Failure(e) => Failure(SnapshotRestore(e))
    case Success(base) =>
      if pending == [] then Success(base)
      else
        match ImportBatch(lib, base, pending)
        case Failure(e) => Failure(HistoryImport(e))
        case Success(d) => Success(d)
  }

  function Built(h: Platform, lib: Library, room: seq<byte>, checkpointGeneration: U64, sourceDeltaGeneration: U64,
                 sourceDeltaEndOffset: U64, doc: Doc, history: seq<seq<byte>>): Result<CheckpointRecord, BuildError> {
    var snapshot := lib.snapshotOf(doc.applied);
    var pending :- Retained(lib, snapshot, history);
    var recovered :- Restored(lib, snapshot, pending);
    if recovered.applied != doc.applied then
      Failure(Validation("snapshot plus retained updates does not reconstruct the live document"))
    else
      Success(NewRecord(h, room, checkpointGeneration, sourceDeltaGeneration, sourceDeltaEndOffset, snapshot, pending))
  }

  method BuildCheckpointRecord(h: Platform, lib: Library, room: seq<byte>, checkpointGeneration: U64, sourceDeltaGeneration: U64,
                               sourceDeltaEndOffset: U64, doc: Doc, history: seq<seq<byte>>)
    returns (r: Result<CheckpointRecord, BuildError>)
    ensures r == Built(h, lib, room, checkpointGeneration, sourceDeltaGeneration, sourceDeltaEndOffset, doc, history)
  {
    hide Settle;
    var snapshot := lib.snapshotOf(doc.applied);
    var pending: seq<seq<byte>> := [];
    assert history[0..] == history && forall rest: seq<seq<byte>> :: [] + rest == rest;
    for i := 0 to |history|
      invariant Retained(lib, snapshot, history)
             == match Retained(lib, snapshot, history[i..])
                case Failure(e) => Failure(e)
                case Success(rest) => Success(pending + rest)
    {
      assert history[i..][1..] == history[i + 1..];
      var probe := FromSnapshot(lib, snapshot);
      if probe.Failure? { return Failure(SnapshotRestore(probe.error)); }
      var status := ImportBatch(lib, probe.value, [history[i]]);
      if status.Failure? { return Failure(HistoryImport(status.error)); }
      if status.value.pending * BlobOps(lib, history[i]) != {} {
        ghost var before := pending;
        pending := pending + [history[i]];
        assert forall rest: seq<seq<byte>> :: before + ([history[i]] + rest) == pending + rest;
      }
    }
    assert pending + [] == pending;
    var recovered := FromSnapshot(lib, snapshot);
    if recovered.Failure? { return Failure(SnapshotRestore(recovered.error)); }
    var rebuilt := recovered.value;
    if pending != [] {
      var imported := ImportBatch(lib, rebuilt, pending);
      if imported.Failure? { return Failure(HistoryImport(imported.error)); }
      rebuilt := imported.value;
    }
    if rebuilt.applied != doc.applied {
      return Failure(Validation("snapshot plus retained updates does not reconstruct the live document"));
    }
    r := Success(NewRecord(h, room, checkpointGeneration, sourceDeltaGeneration, sourceDeltaEndOffset, snapshot, pending));
  }

  // ---------------------------------------------------------------- retention is exact

  /** The blobs that carry an operation outside the applied set, in order. */
  function Outstanding(lib: Library, applied: set<OpId>, history: seq<seq<byte>>): (r: seq<seq<byte>>)
    ensures forall i :: 0 <= i < |r| ==> r[i] in history && !(BlobOps(lib, r[i]) <= applied)
  {
    if history == [] then []
    else
      var rest := Outstanding(lib, applied, history[1..]);
      if BlobOps(lib, history[0]) <= applied then rest else [history[0]] + rest
  }

  lemma {:induction false} OutstandingOps(lib: Library, applied: set<OpId>, history: seq<seq<byte>>)
    ensures Ops(lib, history) - applied <= Ops(lib, Outstanding(lib, applied, history)) <= Ops(lib, history)
  {
    if history != [] {
      OutstandingOps(lib, applied, history[1..]);
      OpsAppend(lib, [history[0]], Outstanding(lib, applied, history[1..]));
      assert Ops(lib, [history[0]]) == BlobOps(lib, history[0]);
    }
  }

  /** A probed blob is left pending exactly when it carries something the snapshot does not. */
  lemma ProbeExact(lib: Library, ops: set<OpId>, blob: seq<byte>)
    requires Lawful(lib) && lib.ops(blob).Some? && BlobOps(lib, blob) <= ops
    ensures var a := DocOf(lib, ops).applied;
            ProbePending(lib, lib.snapshotOf(a), blob) == Success(!(BlobOps(lib, blob) <= a))
  {
    hide Settle;
    var a, b := DocOf(lib, ops).applied, BlobOps(lib, blob);
    SnapshotIsComplete(lib, ops);
    ImportIsUnion(lib, a, b);
    assert Ops(lib, [blob]) == b;
    AppliedIsCausalClosure(lib, ops);
    AppliedIsCausalClosure(lib, a + b);
    AppliedMonotone(lib, a, a + b);
    AppliedMonotone(lib, a + b, ops);
    var d := DocOf(lib, a + b);
    if o :| o in b && o !in a {
      assert o in d.pending * b;
    }
  }

  lemma {:induction false} RetainedIsOutstanding(lib: Library, ops: set<OpId>, history: seq<seq<byte>>)
    requires Lawful(lib) && Decodable(lib, history) && Ops(lib, history) <= ops
    ensures var a := DocOf(lib, ops).applied;
            Retained(lib, lib.snapshotOf(a), history) == Success(Outstanding(lib, a, history))
  {
    hide Settle, ProbePending, DocOf;
    if history != [] {
      ProbeExact(lib, ops, history[0]);
      assert Decodable(lib, history[1..]);
      RetainedIsOutstanding(lib, ops, history[1..]);
    }
  }

  /** Snapshot plus outstanding blobs rebuild the document. */
  lemma OutstandingRestores(lib: Library, doc: Doc, history: seq<seq<byte>>, ops: set<OpId>)
    requires Lawful(lib) && Represents(lib, doc, history, ops)
    ensures var kept := Outstanding(lib, doc.applied, history);
            && Decodable(lib, kept)
            && doc.applied + Ops(lib, kept) == ops
            && Restored(lib, lib.snapshotOf(doc.applied), kept) == Success(doc)
  {
    hide Settle, Outstanding;
    var kept := Outstanding(lib, doc.applied, history);
    OutstandingOps(lib, doc.applied, history);
    AppliedIsCausalClosure(lib, ops);
    SnapshotIsComplete(lib, ops);
    forall i | 0 <= i < |kept| ensures lib.ops(kept[i]).Some? {
      var j :| 0 <= j < |history| && history[j] == kept[i];
    }
    if kept == [] {
      assert ops == doc.applied;
    } else {
      ImportIsUnion(lib, doc.applied, Ops(lib, kept));
    }
  }

  /**
   The builder never fails on a live document whose history covers its pending operations: it
   keeps exactly the outstanding blobs, and they rebuild applied and pending operations alike.
   */
  lemma RetentionExact(h: Platform, lib: Library, room: seq<byte>, checkpointGeneration: U64, sourceDeltaGeneration: U64,
                       sourceDeltaEndOffset: U64, doc: Doc, history: seq<seq<byte>>, ops: set<OpId>)
    requires Lawful(lib) && Represents(lib, doc, history, ops)
    ensures var kept := Outstanding(lib, doc.applied, history);
            && Built(h, lib, room, checkpointGeneration, sourceDeltaGeneration, sourceDeltaEndOffset, doc, history)
               == Success(NewRecord(h, room, checkpointGeneration, sourceDeltaGeneration, sourceDeltaEndOffset,
                                    lib.snapshotOf(doc.applied), kept))
            && Restored(lib, lib.snapshotOf(doc.applied), kept) == Success(doc)
            && Represents(lib, doc, kept, ops)
            && doc.applied + Ops(lib, kept) == ops
  {
    hide Settle, Outstanding, Retained, Restored, DocOf, NewRecord;
    assert doc.applied == DocOf(lib, ops).applied;
    RetainedIsOutstanding(lib, ops, history);
    OutstandingRestores(lib, doc, history, ops);
    AppliedIsCausalClosure(lib, ops);
  }
}
