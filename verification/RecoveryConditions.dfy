/** When recovery succeeds on arbitrary stored bytes, and with what: every check it makes, and no other. */
module RecoveryConditions {
  import opened Wrappers
  import opened Bytes
  import opened Frame
  import opened FrameLayout
  import opened Loro
  import opened Store
  import opened Gateway
  import opened Manifest
  import opened ManifestLayout
  import opened Protocol
  import opened Recovery
  import opened Updates
  import Checkpoint
  import CheckpointLayout
  import RecoveryTheorems

  /** The manifest is a chain of this room's records, 65536 at most and in 16 MiB. */
  predicate ManifestGood(g: Gateway, manifest: seq<byte>, records: seq<ManifestRecord>) {
    && records != [] && |records| <= 65_536 && |manifest| <= 16_777_216
    && RecordsAt(g.h, manifest, records) && Linked(g.h, records, g.room)
  }

  /** The checkpoint is the one the record names, byte for byte, belongs to this room and generation, and loads. */
  predicate CheckpointGood(g: Gateway, head: ManifestRecord, bytes: seq<byte>, c: Checkpoint.CheckpointRecord) {
    && |bytes| == head.checkpointStreamEndOffset && CheckpointBytesDigest(g.h, bytes) == head.checkpointRecordDigest
    && CheckpointLayout.RecordAt(g.h, bytes, c) && Checkpoint.Fits(g.h, c, Checkpoint.DEFAULT_LIMITS)
    && c.roomHash == g.h.sha256(g.room)
    && c.checkpointGeneration == c.sourceDeltaGeneration == head.checkpointGeneration
    && head.activeDeltaGeneration == c.checkpointGeneration + 1
    && g.lib.ops(c.snapshot).Some? && Decodable(g.lib, c.pendingUpdates)
  }

  /** The active stream is whole frames within the limit, and their updates decode. */
  predicate DeltaGood(g: Gateway, bytes: seq<byte>, frames: seq<DeltaFrame>) {
    && |bytes| <= g.frameLimits.maxStreamBytes
    && FramesAt(g.h, bytes, frames, g.frameLimits)
    && Decodable(g.lib, AllUpdates(frames))
  }

  /** The room these three say there is: the document of all their operations, and the history behind it. */
  function Room(g: Gateway, head: ManifestRecord, c: Checkpoint.CheckpointRecord, frames: seq<DeltaFrame>, end: U64): ManifestRecovery {
    ManifestRecovery(DocOf(g.lib, BlobOps(g.lib, c.snapshot) + Ops(g.lib, c.pendingUpdates) + Ops(g.lib, AllUpdates(frames))),
                     c.pendingUpdates + AllUpdates(frames), head.checkpointGeneration, head.activeDeltaGeneration, end)
  }

  /** The length of the stream the last record opens. */
  function ActiveEnd(d: Durable, records: seq<ManifestRecord>): U64
    requires records != []
  {
    |Content(d, DeltaStream(records[|records| - 1].activeDeltaGeneration))|
  }

  /** These records, this checkpoint and these frames are stored, and all of them are good. */
  predicate Recoverable(g: Gateway, d: Durable, records: seq<ManifestRecord>, c: Checkpoint.CheckpointRecord, frames: seq<DeltaFrame>) {
    && ManifestGood(g, Content(d, ManifestStream), records)
    && var head := records[|records| - 1];
    && CheckpointStream(head.checkpointGeneration) in d.streams
    && CheckpointGood(g, head, d.streams[CheckpointStream(head.checkpointGeneration)], c)
    && DeltaStream(head.activeDeltaGeneration) in d.streams
    && DeltaGood(g, d.streams[DeltaStream(head.activeDeltaGeneration)], frames)
  }

  lemma HeadIff(g: Gateway, manifest: seq<byte>, records: seq<ManifestRecord>)
    ensures ManifestGood(g, manifest, records) ==> ManifestHead(g, manifest) == Success(records[|records| - 1])
    ensures ManifestHead(g, manifest).Success? && DecodedManifestStream(g.h, manifest, DEFAULT_MANIFEST_LIMITS) == Success(records) ==>
              ManifestGood(g, manifest, records) && ManifestHead(g, manifest).value == records[|records| - 1]
    ensures ManifestHead(g, manifest).Success? ==> DecodedManifestStream(g.h, manifest, DEFAULT_MANIFEST_LIMITS).Success?
  {
    hide DecodedManifestStream, ValidatedChain, RecordsAt, Linked;
    ManifestStreamIff(g.h, manifest, records, DEFAULT_MANIFEST_LIMITS);
    ChainIff(g.h, records, g.room);
  }

  lemma CheckpointIff(g: Gateway, head: ManifestRecord, bytes: seq<byte>, c: Checkpoint.CheckpointRecord)
    ensures CheckpointGood(g, head, bytes, c) <==>
            CheckpointFor(g, head, bytes) == Success(c) && CheckpointDoc(g, c).Success?
    ensures CheckpointGood(g, head, bytes, c) ==>
              CheckpointDoc(g, c) == Success(DocOf(g.lib, BlobOps(g.lib, c.snapshot) + Ops(g.lib, c.pendingUpdates)))
  {
    hide Checkpoint.Decoded, CheckpointLayout.RecordAt, Checkpoint.Fits, CheckpointBytesDigest, Settle, Ops, Decodable, ImportOps;
    CheckpointLayout.DecodedIff(g.h, bytes, c, Checkpoint.DEFAULT_LIMITS);
    NotEmpty(g.h, bytes, c);
    if g.lib.ops(c.snapshot).Some? && Decodable(g.lib, c.pendingUpdates) {
      RecoveryTheorems.ImportedIsUnion(g, BlobOps(g.lib, c.snapshot), c.pendingUpdates);
    }
    NothingUndecodable(g.lib, c.pendingUpdates);
  }

  lemma NothingUndecodable(lib: Library, blobs: seq<seq<byte>>)
    ensures blobs == [] ==> Decodable(lib, blobs)
  {
  }

  lemma NotEmpty(h: Platform, bytes: seq<byte>, c: Checkpoint.CheckpointRecord)
    ensures CheckpointLayout.RecordAt(h, bytes, c) ==> bytes != []
  {
  }

  lemma DeltaIff(g: Gateway, base: set<OpId>, bytes: seq<byte>, frames: seq<DeltaFrame>)
    ensures DeltaGood(g, bytes, frames) <==>
            DeltaFrames(g, bytes) == Success(frames) && Imported(g, DocOf(g.lib, base), AllUpdates(frames)).Success?
    ensures DeltaGood(g, bytes, frames) ==>
              Imported(g, DocOf(g.lib, base), AllUpdates(frames)) == Success(DocOf(g.lib, base + Ops(g.lib, AllUpdates(frames))))
  {
    hide DecodedStream, FramesAt, Settle, Ops, Decodable, ImportOps, AllUpdates;
    DecodedStreamIff(g.h, bytes, frames, g.frameLimits);
    if Decodable(g.lib, AllUpdates(frames)) {
      RecoveryTheorems.ImportedIsUnion(g, base, AllUpdates(frames));
    }
    NothingUndecodable(g.lib, AllUpdates(frames));
  }

  lemma Sufficient(g: Gateway, d: Durable, records: seq<ManifestRecord>, c: Checkpoint.CheckpointRecord, frames: seq<DeltaFrame>)
    requires Recoverable(g, d, records, c, frames)
    ensures var head := records[|records| - 1];
            Recovered(g, d) == Success(Some(Room(g, head, c, frames, ActiveEnd(d, records))))
  {
    hide ManifestHead, CheckpointFor, CheckpointDoc, DeltaFrames, Imported, CheckpointGood, DeltaGood, RecordsAt, Linked, DocOf, Ops, AllUpdates;
    var head := records[|records| - 1];
    NoManifest(g, records);
    HeadIff(g, Content(d, ManifestStream), records);
    CheckpointIff(g, head, d.streams[CheckpointStream(head.checkpointGeneration)], c);
    DeltaIff(g, BlobOps(g.lib, c.snapshot) + Ops(g.lib, c.pendingUpdates), d.streams[DeltaStream(head.activeDeltaGeneration)], frames);
  }

  lemma NoManifest(g: Gateway, records: seq<ManifestRecord>)
    ensures !ManifestGood(g, [], records)
  {
    hide Linked;
  }

  lemma Necessary(g: Gateway, d: Durable) returns (records: seq<ManifestRecord>, c: Checkpoint.CheckpointRecord, frames: seq<DeltaFrame>)
    requires Recovered(g, d).Success? && Recovered(g, d).value.Some?
    ensures Recoverable(g, d, records, c, frames)
  {
    hide ManifestHead, CheckpointFor, CheckpointDoc, DeltaFrames, Imported, CheckpointGood, DeltaGood, RecordsAt, Linked, DocOf, Ops, AllUpdates,
         DecodedManifestStream;
    var head := ManifestHead(g, Content(d, ManifestStream)).value;
    HeadIff(g, Content(d, ManifestStream), []);
    records := DecodedManifestStream(g.h, Content(d, ManifestStream), DEFAULT_MANIFEST_LIMITS).value;
    HeadIff(g, Content(d, ManifestStream), records);
    c := CheckpointFor(g, head, d.streams[CheckpointStream(head.checkpointGeneration)]).value;
    CheckpointIff(g, head, d.streams[CheckpointStream(head.checkpointGeneration)], c);
    frames := DeltaFrames(g, d.streams[DeltaStream(head.activeDeltaGeneration)]).value;
    DeltaIff(g, BlobOps(g.lib, c.snapshot) + Ops(g.lib, c.pendingUpdates), d.streams[DeltaStream(head.activeDeltaGeneration)], frames);
  }

  /**
   Whatever is stored, recovery succeeds with a room exactly if good records, a good checkpoint and good
   frames are stored, and then it is the room they say there is; it asks for full replay exactly if the
   manifest is empty.
   */
  lemma RecoveredIff(g: Gateway, d: Durable, room: ManifestRecovery)
    ensures Recovered(g, d) == Success(Some(room)) <==>
            exists records: seq<ManifestRecord>, c, frames :: Recoverable(g, d, records, c, frames)
              && room == Room(g, records[|records| - 1], c, frames, ActiveEnd(d, records))
    ensures Recovered(g, d) == Success(None) <==> Content(d, ManifestStream) == []
  {
    hide Recovered, Recoverable, Room;
    if Recovered(g, d).Success? && Recovered(g, d).value.Some? {
      var records, c, frames := Necessary(g, d);
      RecoverableHead(g, d, records, c, frames);
      Sufficient(g, d, records, c, frames);
    }
    forall records: seq<ManifestRecord>, c, frames | Recoverable(g, d, records, c, frames)
      ensures records != [] && DeltaStream(records[|records| - 1].activeDeltaGeneration) in d.streams
      ensures Recovered(g, d)
           == Success(Some(Room(g, records[|records| - 1], c, frames, ActiveEnd(d, records))))
    {
      RecoverableHead(g, d, records, c, frames);
      Sufficient(g, d, records, c, frames);
    }
    ReplayIff(g, d);
  }

  lemma RecoverableHead(g: Gateway, d: Durable, records: seq<ManifestRecord>, c: Checkpoint.CheckpointRecord, frames: seq<DeltaFrame>)
    requires Recoverable(g, d, records, c, frames)
    ensures records != [] && DeltaStream(records[|records| - 1].activeDeltaGeneration) in d.streams
  {
    hide ManifestHead, CheckpointGood, DeltaGood, RecordsAt, Linked;
  }

  lemma ReplayIff(g: Gateway, d: Durable)
    ensures Recovered(g, d) == Success(None) <==> Content(d, ManifestStream) == []
  {
    hide ManifestHead, CheckpointFor, CheckpointDoc, DeltaFrames, Imported;
  }

  // ---------------------------------------------------------------- full replay

  /** Frames that a room could have taken in this order: the first may be one snapshot, every other is updates. */
  predicate Replayable(g: Gateway, frames: seq<DeltaFrame>) {
    && (forall i :: 0 <= i < |frames| ==> Importable(g.lib, frames[i].updates, i == 0))
    && Decodable(g.lib, AllUpdates(frames))
  }

  lemma {:induction false} FramesAllowedIff(lib: Library, frames: seq<DeltaFrame>, empty: bool)
    ensures FramesAllowed(lib, frames, empty).Success? <==>
            forall i :: 0 <= i < |frames| ==> Importable(lib, frames[i].updates, empty && i == 0)
  {
    hide BlobsAllowed, Importable;
    if frames != [] {
      BlobsAllowedIff(lib, frames[0].updates, empty);
      ImportableNonempty(lib, frames[0].updates, empty);
      var rest := frames[1..];
      if Importable(lib, frames[0].updates, empty) {
        FramesAllowedIff(lib, rest, false);
        if FramesAllowed(lib, rest, false).Success? {
          forall i | 0 <= i < |frames| ensures Importable(lib, frames[i].updates, empty && i == 0) {
            if i > 0 { assert Importable(lib, rest[i - 1].updates, false && i - 1 == 0); }
          }
        }
        if forall i :: 0 <= i < |frames| ==> Importable(lib, frames[i].updates, empty && i == 0) {
          forall i | 0 <= i < |rest| ensures Importable(lib, rest[i].updates, false && i == 0) {
            assert Importable(lib, frames[i + 1].updates, empty && i + 1 == 0);
          }
        }
      } else {
        assert !Importable(lib, frames[0].updates, empty && 0 == 0);
      }
    }
  }

  lemma ImportableNonempty(lib: Library, updates: seq<seq<byte>>, blank: bool)
    ensures Importable(lib, updates, blank) ==> updates != []
  {
  }

  /** Replaying a whole stream succeeds exactly on replayable frames, with their updates and the document of all their operations. */
  lemma LoadedIff(g: Gateway, bytes: seq<byte>, history: seq<seq<byte>>, doc: Doc)
    ensures Loaded(g, bytes) == Success((history, doc)) <==>
            exists frames :: DeltaGood(g, bytes, frames) && Replayable(g, frames)
              && history == AllUpdates(frames) && doc == DocOf(g.lib, Ops(g.lib, AllUpdates(frames)))
  {
    hide DecodedStream, FramesAt, FramesAllowed, Importable, Replayed, DocOf, Ops, Decodable, AllUpdates;
    if Loaded(g, bytes).Success? {
      var frames := DecodedStream(g.h, bytes, g.frameLimits).value;
      LoadedFrames(g, bytes, frames);
    }
    forall frames | DeltaGood(g, bytes, frames) && Replayable(g, frames)
      ensures Loaded(g, bytes) == Success((AllUpdates(frames), DocOf(g.lib, Ops(g.lib, AllUpdates(frames)))))
    {
      LoadedFrames(g, bytes, frames);
    }
  }

  lemma LoadedFrames(g: Gateway, bytes: seq<byte>, frames: seq<DeltaFrame>)
    ensures DeltaGood(g, bytes, frames) && Replayable(g, frames) <==>
            DecodedStream(g.h, bytes, g.frameLimits) == Success(frames) && Loaded(g, bytes).Success?
    ensures DeltaGood(g, bytes, frames) && Replayable(g, frames) ==>
              Loaded(g, bytes) == Success((AllUpdates(frames), DocOf(g.lib, Ops(g.lib, AllUpdates(frames)))))
  {
    hide DecodedStream, FramesAt, FramesAllowed, Importable, DocOf, Ops, Decodable, AllUpdates, Replayed;
    DecodedStreamIff(g.h, bytes, frames, g.frameLimits);
    FramesAllowedIff(g.lib, frames, true);
    ReplayedIff(g, AllUpdates(frames));
  }

  lemma ReplayedIff(g: Gateway, updates: seq<seq<byte>>)
    ensures Replayed(g.lib, updates).Success? <==> Decodable(g.lib, updates)
    ensures Decodable(g.lib, updates) ==> Replayed(g.lib, updates) == Success(DocOf(g.lib, Ops(g.lib, updates)))
  {
    hide Settle, Ops;
    if Decodable(g.lib, updates) {
      ReplayIsDocOf(g.lib, updates);
    }
  }
}
