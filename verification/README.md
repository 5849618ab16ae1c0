# Quorum-Loro gateway: a verified model

The gateway keeps each room's Loro document in an append-only store with producer deduplication.
This project models that durable protocol and proves what it promises about whole runs.

- **Bounded recovery.** A restart reads manifest, checkpoint and active delta stream, and must find
  the document that replaying every frame ever committed would give.
- **Acknowledgements.** What was acknowledged is in the document of every later restart.
- **Crashes.** A crash may fall between any two store calls of any command.

Supporting parts are proved too: the three binary codecs, exact appends, checkpoint retention, the
manifest chain, the fragment table, the windowed reads and the varint reader.

## How it is built

| layer | files |
|---|---|
| bytes and codecs | `Wrappers`, `Bytes`, `Envelope`, `Buffers`, `Frame`, `FrameCodec`, `FrameTheorems`, `Checkpoint`, `CheckpointCodec`, `Manifest`, `ManifestTheorems`, `ManifestCodec` |
| what lies where | `Layout`, `FrameLayout`, `CheckpointLayout`, `ManifestLayout` (records by offset), `Digests` (what is hashed) |
| documents | `Loro`, `CheckpointBuilder` |
| store and its clients | `Store`, `ExactAppend`, `Gateway`, `CheckpointStore`, `ManifestStore`, `Rotation`, `Recovery` |
| the room actor | `Protocol` (commands as relations), `Updates` and `Startup` (their outcomes), `Actor` (the class), `ActorLoop` (the command loop) |
| invariants | `RoomState`, `Landing`, `RecoveryTheorems`, `RecoveryConditions`, `ActorInvariant`, `ActorSteps`, `ReconcileSteps`, `RotationSteps` |
| runs | `Runs`, `RunTheorems` (every run), `CarefulRuns`, `Refusals`, `Progress` |
| runs that go wrong | `Example`, `SmallRoom` (a concrete gateway), `LossExample`, `Leftovers`, `Outgrown` |
| client side | `Fragments`, `Reassembly`, `Connection`, `WindowedReads`, `ProtocolReader` |

Code that updates things in place is a class or a method with loops, and its contract ties it to a
function or a relation. The theorems are about those functions and relations, so they hold of the
methods; `ActorLoop.Serve` closes the circle by calling the actor's own methods and keeping the
invariant from which every run theorem follows.

**Bytes.** The codecs are functions with an encoder's or decoder's order of steps. Independently of
them, the layout modules say which integer, with which weights, and which bytes lie at which offset,
and every encoder and decoder is proved to agree with that in both directions. The digests are tied
in the same way to the exact bytes that are hashed.

**Store.** `Store.Store` holds `map<stream, bytes>` and, per stream and producer, the last sequence
with the offset after it. A script of faults decides call by call whether a request or its reply is
lost, or the call refused; the outcome of an append, and of the room's retry loop around it, is a
function of that script. `orderly` says whether a committed tuple is answered with Duplicate
before any refusal, as the in-source fakes do (src/manifest_store.rs:239-283,
src/exact_append.rs:181-213). Refusals are final (`Protocol.Steady`) over an orderly store, and over
any store if the room is configured without retries. An absent stream reads as a NotFound rejection.

**Crashes.** A crash inside a command is a script whose remaining calls all fail, then a restart.
`Runs.Next` has it as `CrashDuring(command)`: the stored bytes are whatever the command had done so
far, no acknowledgement is sent and the actor's memory is gone.

**Loro.** A blob carries a set of operations, an operation has dependencies, and a document is what
is applied together with what is pending. `Loro.AppliedIsCausalClosure` shows that the applied part
is the least causally closed set. A snapshot exports the applied part. These semantics are those of
tests/checkpoint_semantics.rs:25-119 and 201-294. The encoding is any that satisfies `Loro.Lawful`;
`Example` gives one that does.

**Assumptions.** Machine words are 64 bits (`usize` is `u64`). SHA-256, CRC-32 and the UTF-8 test
are arbitrary functions; nothing is assumed about collisions, and where they matter the theorem
concludes with a concrete collision as the alternative. An ambiguous append has landed or not when
the call returns. One gateway writes a room, and boot identities are never reused. Stream and
producer names (src/names.rs) are keys made of room, kind, generation and boot: the originals are
hashes or strings of exactly these, used only for equality.

## Where the code limits the claims

- Reconciling an ambiguous append reloads only the active delta stream (src/actor.rs:909-913), while
  docs/DESIGN.md:48 promises a full reload. In generation 0 this is the same. Later it is right
  exactly when the active stream repeats what the checkpoint carries
  (`ReconcileSteps.ReconcileExact`). The loss comes with a later rotation, which publishes what the
  rotating actor holds (`RunTheorems.RotationPublishesDocument`): acknowledged updates stay
  recoverable exactly if every rotation that reaches the manifest is made by an actor that holds
  them (`RunTheorems.AcknowledgedKeptExactly`), and checkpoints stay exact likewise
  (`RunTheorems.ExactKeptExactly`). Runs that retry only in generation 0 meet both conditions
  (`CarefulRuns.GenerationZeroRetriesAreCareful`). `LossExample.AcknowledgedCanBeLost` is a complete
  run that loses an acknowledged update.
- A refusal after a lost reply leaves a stored frame the room does not know (src/actor.rs:829-838).
  For every update this can happen exactly if the store may refuse a committed tuple and the room
  retries at all (`Refusals.RefusalFinalExactly`); `Refusals.UpdateStoredThenRefused` takes the
  running code there with a script of two faults. Acknowledged updates are safe even then. Equality
  with full replay is lost at the next rotation exactly if such a frame exists
  (`RunTheorems.RotationExactIffNoOrphan`).
- docs/BOUNDED_RECOVERY.md:261 says a checkpoint left by a failed rotation can be reused. A rotation
  reaches the manifest only if the checkpoint stream was empty or holds exactly the bytes it would
  write (`RotationSteps.AdvanceNeedsCheckpoint`). Once the delta stream has grown past a leftover,
  the room never leaves its generation again (`Leftovers.StuckForever`);
  `Leftovers.LeftoverBlocks` is a run that gets there with one crash.
- Appends do not check the reader's stream limit, and publishing checks the record count only of
  what is already there. A restart succeeds if and only if both limits hold
  (`RunTheorems.NoFalseCorruption`), and an update can be acknowledged that breaks the first
  (`Outgrown.AcknowledgedThenRestarted`, with the run `Outgrown.AcknowledgedThenUnreadable`).
- `DeltaFrame::encode` does not check the digest. A frame that encodes comes back exactly if it is
  as `DeltaFrame::new` builds it (`FrameTheorems.RoundTripIffBuilt`).
- docs/BOUNDED_RECOVERY.md:174-194 describes automatic rotation; the code has only the explicit
  request, and so has the model.

## Model

| member | source | states |
|---|---|---|
| RunTheorems.AcknowledgedKeptExactly | src/actor.rs:811-828 | in every run, everything acknowledged is recoverable at every moment up to i if and only if every rotation before i that reached the manifest was made by an actor whose document held all of it |
| RunTheorems.AcknowledgedNeverLost | src/actor.rs:811-828 | under that condition everything acknowledged by moment i is in the document a restart finds at any later moment j, crashes and a refusing store included |
| RunTheorems.ExactKeptExactly | src/rotation.rs:45-52 | if refusals are final, every checkpoint carries exactly what all frames up to it carry, and states its stream's length, if and only if every rotation that reached the manifest was made by an actor holding what a restart would have found |
| RunTheorems.BoundedRecoveryIsFullReplay | src/recovery.rs:32-119 | under that condition, a restart within the limits finds exactly the document of importing every frame of every generation in order |
| RunTheorems.NoFalseCorruption | src/recovery.rs:46-118 | at every moment of every run a restart succeeds if and only if manifest record count and active stream length are within the readers' limits; the only possible errors are limit errors |
| RunTheorems.ManifestAlwaysSound | src/manifest.rs:283-335 | at every moment of every run the manifest is a valid chain in which record k has revision k, seals generation k, opens k + 1, and verifies a fully stored checkpoint that loads |
| RunTheorems.SealedForever | src/actor.rs:851-896 | in every run later moments extend the manifest, change no stream of a sealed generation and no written checkpoint, and only append to delta streams |
| RunTheorems.SealedLengths | src/rotation.rs:45-52 | in every run a sealed stream and its checkpoint never change; if refusals are final, the checkpoint states the stream's length |
| RunTheorems.ExactlyOnce | src/actor.rs:780-847 | in every run each producer's frames in each delta stream carry 0, 1, 2, ... without gap or repeat; if refusals are final, a ready room's own are exactly those below its next sequence |
| RunTheorems.IssuedOnce | src/actor.rs:953-1044 | every append issued is the producer's next tuple, or a retry whose bytes already end the stream; never a gap |
| RunTheorems.RotationPublishesDocument | src/rotation.rs:32-97 | whenever the manifest advances, however long after whatever retries, a restart then finds exactly what the rotating actor's document held, applied and pending |
| RunTheorems.CrashConsistentRotation | src/rotation.rs:41-97 | wherever a rotation stops, a restart finds the old or the new generation with the same document; a new one has an empty stream and a stored checkpoint that the manifest verifies |
| RunTheorems.RotationExactIffNoOrphan | src/rotation.rs:45-52 | a rotation of an actor in step keeps every checkpoint exact if and only if no stored frame is unknown to the actor |
| RunTheorems.RotationAfterReconcile | src/actor.rs:898-951 | rotating right after a reconciliation publishes the active stream's operations, which is what was recoverable if and only if the stream repeated the checkpoint's operations |
| CarefulRuns.CarefulRunKeeps | src/actor.rs:898-951 | if every retry that resolves does so where nothing is lost, a live actor holds exactly what it took over and everything acknowledged, and every rotation meets both exact conditions |
| CarefulRuns.GenerationZeroRetriesAreCareful | src/actor.rs:904-913 | a run that retries only in generation 0 is such a run |
| CarefulRuns.ReadyIsFullReplay | src/actor.rs:754-779 | in such a run with final refusals the document of a ready room of any generation is the full replay of everything committed |
| CarefulRuns.CandidateIsReplayOfAll | src/actor.rs:1140-1170 | the candidate built from snapshot, retained history and new updates equals replaying everything committed and the new updates, errors included |
| Runs.RunKeeps | src/actor.rs:418-466 | storage is sound and a live actor anchored in it at every moment of every run, by induction over its events |
| Runs.EventKeeps | src/actor.rs:418-466 | every start, command, crash inside a command and plain crash keeps the invariant, extends storage, and either loses nothing or publishes the rotating actor's document |
| Runs.StartKeeps | src/actor.rs:468-530 | a started actor that is ready holds exactly what is stored, through the manifest or by full replay |
| Refusals.NackMeansNotStored | src/actor.rs:829-838 | if refusals are final a negative acknowledgement leaves store and actor unchanged |
| Refusals.RefusalFinalExactly | src/actor.rs:1031-1040 | for every update the store could commit: it can be stored and yet be reported as refused if and only if the store may refuse a committed tuple and the room retries |
| Refusals.RefusedYetStored | src/actor.rs:1031-1035 | with at least one retry, losing one reply and refusing the next attempt stores the frame, reports it rate limited, and leaves it unknown to the room |
| Refusals.UpdateStoredThenRefused | src/actor.rs:719-849 | the update method itself, given that script of faults, does so |
| Protocol.AttemptedSettles | src/actor.rs:953-1044 | whatever the script of faults, the retry loop stores the frame at most once, succeeds only if the range holds it, and a refusal is final over an orderly store or without retries |
| Protocol.DeliveredSucceeds | src/actor.rs:953-1044 | with every call delivered an encoded append succeeds if and only if its tuple is next or its bytes are there already |
| Protocol.DuplicateProofExact | src/actor.rs:1047-1077 | for an encoded frame the duplicate proof succeeds if and only if the stored range is the pending bytes; tuple and field checks add nothing |
| ReconcileSteps.ReconcileExact | src/actor.rs:908-930 | the reloaded document is that of the active stream, and equals the recovered document if and only if the stream repeats what the checkpoint carries |
| ReconcileSteps.RetryKeeps | src/actor.rs:898-951 | every retry keeps storage and actor sound; a resolved one leaves the actor with what the active stream carries, which is what it took over if and only if the reconciliation is safe |
| LossExample.AcknowledgedCanBeLost | src/actor.rs:908-930 | a concrete run from an empty, orderly store ends with an acknowledged operation missing from the recovered document |
| Leftovers.StuckForever | src/checkpoint_store.rs:43-47 | if refusals are final, a room whose delta stream outgrew a leftover checkpoint stays in its generation for the rest of every run |
| Leftovers.StuckRefusesRotation | src/actor.rs:851-896 | in such a room every rotation fails before the manifest, whatever the store does |
| Leftovers.LeftoverBlocks | src/rotation.rs:45-65 | an update, a crash right after the checkpoint is written, a restart and an update lead there |
| Outgrown.AcknowledgedThenRestarted | src/frame.rs:289-298 | every update the store can take may be acknowledged, and a restart then succeeds if and only if the stream stayed within the reader's limit and the manifest within its own |
| Outgrown.AcknowledgedThenUnreadable | src/actor.rs:790-811 | a run of a start and one acknowledged update after which no restart succeeds |
| ActorSteps.UpdateKeeps | src/actor.rs:719-849 | an update keeps storage and actor sound under every outcome of its append; on acknowledgement the document holds exactly the new operations more |
| ActorInvariant.AppendResolved | src/actor.rs:953-1044 | resolving an append stores at most that frame; success means the active stream is the frames taken over plus this one, whether committed or proved a duplicate |
| Landing.LandedSound | src/actor.rs:797-811 | one landed frame keeps the storage invariant and adds its operations to the active generation only |
| Landing.LastFrame | src/actor.rs:1052-1064 | a stream of whole frames that ends with an encoded frame's bytes has that frame as its last |
| RotationSteps.RotateKeeps | src/actor.rs:851-896 | wherever it stops, a rotation keeps storage and actor sound and changes no delta stream and no written checkpoint; either nothing recovery looks at changed, or a restart finds what the actor held |
| RotationSteps.AdvanceNeedsCheckpoint | src/checkpoint_store.rs:40-60 | a rotation reaches the manifest only over a checkpoint stream that was empty or holds exactly the bytes it would write |
| RotationSteps.PublishedKeeps | src/rotation.rs:45-97 | a published rotation makes the actor's operations, applied and pending, the base of the next, empty generation, numbered next in the manifest |
| RotationSteps.ManifestGrows | src/rotation.rs:99-136 | record i of the manifest keeps revision i, checkpoint generation i and active generation i + 1 |
| RecoveryTheorems.RecoveryExact | src/recovery.rs:32-158 | a sound room recovers if and only if within the limits, to the document of checkpoint and active stream, with a history that covers everything pending |
| RecoveryTheorems.LoadExact | src/actor.rs:532-578 | reloading a sound stream succeeds if and only if it is within the limit, and gives its frames' updates and their document |
| RecoveryTheorems.RecoveryIsFullReplay | src/recovery.rs:32-119 | with exact checkpoints a restart equals replaying every generation |
| RoomState.EmptyIsSound | src/actor.rs:373-416 | the invariant holds of an empty store |
| ActorLoop.Serve | src/actor.rs:418-466 | the actor's methods, driven in a loop by any commands, keep the invariant of all runs, and keep everything acknowledged if every reconciliation on the way is safe |
| Progress.RotationSucceeds | src/rotation.rs:32-97 | a ready room whose checkpoint fits and whose checkpoint stream is empty can rotate |
| Progress.RetryResolves | src/actor.rs:898-951 | a blocked append that landed can be proved a duplicate and reconciled |
| RoomActors.RoomActor.Start | src/actor.rs:420-424 | ready only with what recovery or full replay says; with its four calls delivered, ready exactly if a restart succeeds, unavailable exactly if a stream the manifest leads to is missing, else corrupt; if a call fails first, corrupt exactly if the bytes read before are bad or the store reports damage, else unavailable |
| RoomActors.RoomActor.Initialize | src/actor.rs:468-530 | the start relation with nothing written but empty streams, or a failure whose state follows from fault script and stored bytes as for Start |
| RoomActors.RoomActor.LoadFromStore | src/actor.rs:532-578 | the loop over the frames returns the function of the stored bytes; it fails as corrupt exactly if the store reports damage or the bytes are bad, else as unavailable |
| Startup.OutcomeHolds | src/actor.rs:1079-1101 | a start whose calls end as the code says ends as fault script and stored bytes say, for every script and any bytes |
| Startup.ReadableStart | src/actor.rs:468-530 | a room that a restart can read is ready exactly if all four calls are delivered, and corrupt exactly if the first failure reports damage |
| RoomActors.RoomActor.Update | src/actor.rs:719-849 | refusals in the code's order; otherwise at most the frame with the client's batch id and updates, under the actor's producer, epoch 0 and sequence, is appended: acknowledged, it ends at the new end offset byte for byte; unknown, the blocked append is that frame; refused, the kind decides the status; acknowledged exactly if prepared and the store can take it or has it, lost calls up to the retries included |
| Updates.PreparedOutcome | src/actor.rs:780-847 | for every script, a batch that reaches the store ends with its own frame stored or not, kept or acknowledged, and with the status of its outcome |
| Updates.NotPrepared | src/actor.rs:736-799 | a batch that is not importable, does not import, exhausts the sequence or does not fit is refused in this order and changes nothing |
| Updates.BlobsAllowedIff | src/actor.rs:1107-1136 | accepted are exactly non-empty batches of non-empty update blobs, or one snapshot alone in an empty room |
| ActorSteps.AcknowledgedFrame | src/actor.rs:780-828 | in a sound room the frame of an acknowledged batch, with its batch id and updates, is the last that decodes from the active stream, right after those taken over |
| RoomActors.RoomActor.ResolveAppend | src/actor.rs:953-1044 | success only on proof that the bytes are stored under the tuple, stored at most once, with at most retries + 1 appends; the outcome is the function of store and fault script; up to so many lost calls as retries do not matter |
| Protocol.SurvivesLostCalls | src/actor.rs:953-1044 | if at most so many calls are lost as there are retries, an encoded append succeeds exactly if it is next or there already, and is stored if it can be |
| Protocol.OneTooMany | src/actor.rs:1031-1034 | one lost call more leaves the outcome unknown with that loss as its reason |
| RoomActors.RoomActor.RetryPending | src/actor.rs:898-951 | the retry relation: settled and reloaded, or still blocked; a refusal leaves the room unavailable, an unknown outcome ambiguous, a failed reload corrupt or unavailable by its own read and bytes; resolved exactly if the append goes through and the stream loads, lost calls up to the retries included |
| RoomActors.RoomActor.RotateGeneration | src/actor.rs:851-896 | the rotation relation: switched over only after publication, else unavailable; rotated exactly if the room is ready and can rotate, also under the lost appends a rotation gets over |
| Store.Store.Append | src/manifest_store.rs:239-283 | duplicate, gap and commit rules under any fault; committed means landed at the stated end offset; a delivered append has exactly one outcome |
| ExactAppend.AppendExactWithRetry | src/exact_append.rs:12-49 | success only if the range ending at the returned offset is the body, stored at most once with at most retries + 1 appends; if up to that many calls are lost and nothing else happens, it succeeds exactly if the tuple is next or its bytes are there already, with one append more than were lost; if more are lost it reports the last loss |
| ExactAppend.SurvivesLosses | src/exact_append.rs:25-47 | for every script of at most so many lost requests and replies as there are retries: success exactly if the body is next or there already, the stored bytes, the number of appends, and a duplicate reported exactly if it was there before or only a reply was lost |
| ExactAppend.TooManyLosses | src/exact_append.rs:35-47 | one loss more than retries ends with that loss after retries + 1 appends, with the body stored exactly if a reply was among the losses and it could be |
| ExactAppend.LossesAreRetried | src/exact_append.rs:35-45 | lost calls are retried one for one: what follows is the rest of the script with so many retries fewer |
| ExactAppend.OtherFailuresAreFinal | src/exact_append.rs:46-47 | damage and refusals are never retried, whatever came before |
| ExactAppend.VerifyDuplicateBytes | src/exact_append.rs:51-81 | success only if the stored range equals the expected bytes, and exactly then if the read is delivered |
| CheckpointStore.PersistCheckpoint | src/checkpoint_store.rs:20-92 | a written checkpoint stream never changes; success means it holds exactly the encoded record; another room, generation or other bytes are refused as such; it succeeds exactly if the record can be stored or is stored, even if up to so many appends are lost as there are retries |
| ManifestStore.PublishManifestRecord | src/manifest_store.rs:23-125 | the stream grows by exactly one record that continues a valid chain, or not at all; a head that is the record already is reported existing and left alone; it succeeds exactly in these two cases, even if up to so many appends are lost as there are retries |
| ManifestStore.Position | src/manifest_store.rs:43-86 | a record is at the head already, or next after a readable chain, and exactly then accepted; otherwise its revision or predecessor is named as what is wrong |
| Rotation.RotateRoom | src/rotation.rs:32-97 | old manifest, or one new record whose checkpoint is stored whole and whose next delta stream exists and is empty, wherever it stops; it succeeds exactly if checkpoint, next stream and manifest can all be written, also if up to so many appends of the checkpoint or of the manifest record are lost as there are retries |
| Rotation.PublishCompletes | src/rotation.rs:65-97 | once checkpoint and next stream are in place, any outcome of publishing leaves a complete record or none |
| Rotation.ContinuesChain | src/manifest_store.rs:82-95 | the record a rotation builds always extends the stored chain, so publishing can refuse it only for the store's reasons |
| Rotation.NextManifestPosition | src/rotation.rs:99-136 | revision and predecessor continue the chain, and only if the manifest agrees on the active generation |
| Recovery.RecoverFromManifest | src/recovery.rs:32-119 | the recovery function of stored bytes and fault script; an answer that is not a failed call is that of the stored bytes alone |
| RecoveryConditions.RecoveredIff | src/recovery.rs:32-158 | on any stored bytes: recovery finds a room if and only if a valid chain, the checkpoint it names and verifies, and whole decodable frames are stored, and then the room of all their operations; it asks for full replay if and only if the manifest is empty |
| RecoveryConditions.LoadedIff | src/actor.rs:532-578 | on any bytes: full replay succeeds if and only if they are whole frames within the limit whose batches a room could have taken in that order, with their updates and the document of all operations |
| CheckpointBuilder.RetentionExact | src/checkpoint.rs:464-515 | the builder cannot fail on a live document whose history covers what is pending; it keeps exactly the blobs with an operation outside the snapshot, and they rebuild applied and pending operations |
| CheckpointBuilder.RetainedIsOutstanding | src/checkpoint.rs:478-489 | probing blob by blob finds exactly the blobs that are not contained in the snapshot |
| CheckpointBuilder.BuildCheckpointRecord | src/checkpoint.rs:464-515 | the loop over the history returns the function the retention theorem is about |
| Loro.AppliedIsCausalClosure | tests/checkpoint_semantics.rs:25-119 | applied operations are the least causally closed set, the rest is pending |
| Loro.ImportIsUnion | tests/checkpoint_semantics.rs:201-294 | importing into the document of s gives the document of s and the imported operations, in any order |
| Loro.CandidateIsFullReplay | src/actor.rs:1140-1170 | snapshot, history and new updates give the document of all operations, and the new history still covers what is pending |
| FrameTheorems.FrameRoundTrip | src/frame.rs:65-282 | decoding an encoded frame with any bytes after it returns the frame and its length |
| FrameTheorems.FrameCanonical | src/frame.rs:158-282 | every accepted prefix is the encoding of the decoded frame |
| FrameTheorems.RoundTripIffBuilt | src/frame.rs:65-144 | a frame that encodes decodes to itself if and only if its producer id is text and its digest is that of its updates |
| FrameTheorems.StreamRoundTrip | src/frame.rs:289-311 | decoding inverts laying frames end to end |
| FrameTheorems.DamageLocalised | src/frame.rs:289-311 | decoding fails at o with e if and only if o bytes of whole frames are followed by bytes that fail with e |
| FrameTheorems.TornStream | src/frame.rs:162-185 | a torn last frame is reported as truncated at the end of the last whole frame |
| FrameTheorems.AppendFrame | src/frame.rs:289-311 | appending an encoded frame to a decodable stream appends exactly that frame |
| Frame.EncodedIffFits | src/frame.rs:65-110 | the encoder accepts exactly the frames that fit the limits |
| Bytes.BigEndianDigits | src/frame.rs:119-143 | byte i of a width-byte integer is its digit of weight 256 to the power width - 1 - i: the most significant byte comes first |
| FrameLayout.DecodedIff | src/frame.rs:158-282 | a prefix decodes to a frame if and only if it is that frame's layout, said by offset, and the frame is genuine and fits |
| FrameLayout.DecodedStreamIff | src/frame.rs:289-311 | a stream decodes to frames if and only if it is within its limit and consists of them |
| FrameLayout.RefusedByEnvelope | src/frame.rs:158-200 | which error a wrong magic, version, flags, length, trailer or checksum gives, and in which order, from the bytes at their offsets |
| FrameLayout.RefusedByContent | src/frame.rs:202-267 | a well laid out frame within the limits is refused for an identifier that is not text, else for a false digest |
| FrameTheorems.EncodedThenJudged | src/frame.rs:65-282 | decoding what the encoder wrote gives the frame, or names the identifier or digest the encoder did not look at |
| Digests.UpdateDigestBinds | src/frame.rs:324-341 | the digest is the hash of domain text, count and each update with its length, by offset; equal digests mean equal updates or two different such strings with one hash |
| FrameCodec.EncodeWithLimits | src/frame.rs:65-144 | the encoder accepts exactly the frames that fit, and the bytes it fills its buffer with are the frame's layout: magic at 0, the bytes 0 1 0 0 at 4, length at 8, then each field at its offset, most significant byte first, checksum and length at the end; errors and their order are those of the encoding function |
| FrameCodec.DecodeOneWithLimits | src/frame.rs:158-282 | the cursor-driven decoder returns a frame and its length if and only if that prefix is the frame's layout and the frame is genuine and fits; errors are those of the decoding function |
| FrameCodec.DecodeAllWithLimits | src/frame.rs:289-311 | the shrinking loop returns frames if and only if the stream is within its limit and consists of exactly these frames, each ending where the next begins; errors carry the offset |
| Checkpoint.CheckpointRoundTrip | src/checkpoint.rs:75-331 | decoding inverts encoding |
| Checkpoint.CheckpointCanonical | src/checkpoint.rs:178-331 | an accepted checkpoint stream is the encoding of its record |
| Checkpoint.EncodedIffFits | src/checkpoint.rs:75-176 | the encoder accepts exactly the records that fit and carry the right digest |
| CheckpointLayout.DecodedIff | src/checkpoint.rs:178-331 | an input decodes to a record if and only if it is that record's layout, said by offset, and the record fits |
| CheckpointLayout.RefusedByEnvelope | src/checkpoint.rs:178-233 | which error wrong fixed fields, trailing bytes or a wrong checksum give, and in which order |
| CheckpointLayout.RefusedByDigest | src/checkpoint.rs:234-331 | a well laid out record within the limits is refused for a false digest |
| Digests.CheckpointDigestBinds | src/checkpoint.rs:363-388 | the digest is the hash of exactly snapshot and pending updates with their lengths; equal digests mean equal content or a concrete collision |
| CheckpointCodec.EncodeWithLimits | src/checkpoint.rs:75-176 | the encoder accepts exactly the records that fit and carry the right digest, and its bytes are the record's layout by offset |
| CheckpointCodec.DecodeExact | src/checkpoint.rs:178-331 | the decoder returns a record if and only if the whole input is its layout and it fits; errors are those of the decoding function |
| ManifestTheorems.ManifestRoundTrip | src/manifest.rs:95-257 | decoding an encoded record with any bytes after it returns the record |
| ManifestTheorems.ManifestCanonical | src/manifest.rs:150-257 | every accepted input starts with the encoding of the decoded record |
| ManifestTheorems.BoundedRecords | src/manifest.rs:260-281 | the bounded reader returns all records, or the limit error exactly when there are too many |
| ManifestTheorems.EndsWithHead | src/manifest_store.rs:58-63 | a stream of records ends with the encoding of its head, so recognising an existing head never fails on the bytes |
| ManifestTheorems.ExtendChain | src/manifest.rs:283-335 | one more record keeps a chain valid if and only if it links to the head |
| ManifestTheorems.ChainRevisions | src/manifest.rs:283-335 | record i of a valid chain has revision i and names its predecessor's digest |
| ManifestTheorems.HeadDeterminesHistory | src/manifest.rs:423-442 | two valid streams of a room whose heads have equal digests are equal record by record, or exhibit a hash collision |
| ManifestLayout.ManifestDecodedIff | src/manifest.rs:150-257 | an input decodes to a record if and only if its first 188 bytes are that record's layout and the record passes the field checks and its digest |
| ManifestLayout.RefusedByEnvelope | src/manifest.rs:150-203 | which error wrong fixed fields or a wrong checksum give, and in which order |
| ManifestLayout.RefusedByContent | src/manifest.rs:205-257 | a well laid out record is refused for impossible fields, else for a false digest |
| ManifestLayout.ManifestStreamIff | src/manifest.rs:260-281 | a stream decodes to records if and only if it is within the limits and consists of them |
| ManifestLayout.ChainIff | src/manifest.rs:283-335 | a chain is valid if and only if every record is the room's, numbered from zero, names its predecessor's digest, and generations rise; its head is the last record |
| Digests.ManifestDigestBinds | src/manifest.rs:423-442 | the digest is the hash of all fields but itself; equal digests mean equal fields or a concrete collision |
| Digests.StoredDigestBinds | src/manifest.rs:415-421 | the checkpoint digest in a manifest is the hash of the stored bytes and their length; equal digests mean equal bytes or a concrete collision |
| Digests.DomainsSeparate | src/manifest.rs:415-442 | no string is hashed for two of the four purposes |
| ManifestCodec.EncodeWithLimits | src/manifest.rs:95-138 | the encoder accepts exactly the records with consecutive generations, a predecessor unless first, an end offset and the right digest, and its 188 bytes are the record's layout by offset |
| ManifestCodec.DecodeOne | src/manifest.rs:150-257 | the decoder returns a record if and only if the first 188 bytes are its layout and it passes the same conditions; errors are those of the decoding function |
| ManifestCodec.DecodeManifestStream | src/manifest.rs:260-281 | the loop returns records if and only if the stream is within the limits and consists of exactly these, one every 188 bytes |
| Reassembly.FragmentsRejoin | src/server.rs:317-440 | after the header, the sender's fragments in any order, with repeats of header and fragments and other traffic before the deadline, dispatch exactly the original update once if all arrive and nothing otherwise |
| Reassembly.AnyOrder | src/server.rs:338-440 | the same from any partly filled batch, with what the batch then holds |
| Reassembly.SendUpdate | src/actor.rs:1227-1265 | short updates travel whole; long ones as a header with count and size and then pieces of 240 KiB with their indices, the last one as long as is left |
| Reassembly.ChunksRejoin | src/actor.rs:1243-1257 | the chunks are non-empty, at most the fragment size, as many as announced, and join to the update |
| Fragments.StepKeeps | src/server.rs:228-446 | after every message each batch's counters say what its slots hold, a slot is empty, and counts and sizes are within the limits |
| Fragments.BufferedIsBounded | src/server.rs:286-301 | whatever a client sends, the buffered fragment bytes stay within the connection's limit |
| Connections.Connection.HandleHeader | src/server.rs:228-316 | a batch is opened exactly if count, size, batches and bytes are within the limits and the key is new, with so many empty slots and its deadline; dropped exactly if its header is repeated with another size or count; every status said by its cause |
| Connections.Connection.HandleFragment | src/server.rs:317-440 | slot by slot: an update is passed on exactly if this fragment fills the last slot and all slots add up to the announced size, and then it is the slots in order; any other total, a slot repeated with other bytes or too many bytes is InvalidUpdate and drops the batch; nothing else is dropped |
| Fragments.FragmentOutcomeHolds | src/server.rs:317-440 | in every sound table the step's counters decide as the slots themselves do |
| Connections.Connection.HandleJoin | src/server.rs:186-210 | joining a Loro room adds it and touches no batch |
| Connections.Connection.HandleLeave | src/server.rs:441-446 | leaving a joined room drops exactly its batches |
| Connections.Connection.ExpireFragments | src/server.rs:472-490 | exactly the overdue batches are dropped and each is answered once |
| WindowedReads.Reader.ReadExactWindow | src/ursula.rs:338-366 | the first answer that is not a temporary failure, after at most retries + 1 requests, all earlier ones temporary; accepted are exactly the proper answers |
| WindowedReads.CheckedIff | src/ursula.rs:367-411 | accepted are exactly the answers that end right after a body no longer than asked for; a failed request keeps its error, anything else is damage |
| WindowedReads.Reader.ReadAllObserved | src/ursula.rs:457-487 | terminates against any server; against a truthful one over a growing stream the result is the whole stream at the last request; over a fixed stream and a server that never fails more than retries times in a row it succeeds if and only if the stream is within the limit |
| WindowedReads.Reader.ReadRange | src/ursula.rs:489-520 | terminates against any server; success is exactly the requested bytes, and happens with such a server if and only if the range is stored |
| WindowedReads.Reader.Progress | src/ursula.rs:393-411 | what one checked window adds to the bytes collected so far |
| ProtocolReader.Reader.Uleb128 | src/protocol.rs:169-188 | a value exactly if at most ten bytes are its digits to the base 128, lowest first, and it has 64 bits; truncated exactly when fewer than ten continuation bytes are all there is, overflow otherwise; no bit is lost to the shift |
| ProtocolReader.MeaningDigits | src/protocol.rs:169-188 | what an input encodes in n bytes is v if and only if its first n bytes carry the base-128 digits of v, all but the last with the top bit set |
| ProtocolReader.Reader.Take | src/protocol.rs:148-158 | the next bytes and the moved cursor, or truncated and an unmoved one |
| ProtocolReader.Reader.VarBytes | src/protocol.rs:164-167 | a length and exactly that many bytes, or exactly the reason why not |
| ProtocolReader.MinimalRoundTrip | src/protocol.rs:169-188 | reading the minimal encoding of any 64-bit value returns it and stops right after it |
| ProtocolReader.MinimalIsShortest | src/protocol.rs:169-188 | no encoding is shorter than the minimal one, and only that one is as short |
| ProtocolReader.NextByte | src/protocol.rs:173-186 | what each further byte settles: the value, an overflow, or seven more exact bits |

## Left out

- Rotation.RotateRoom: does not say that a rotation succeeds eventually. A checkpoint left by an earlier attempt with other bytes makes every later rotation of that generation fail; success is characterised for lost appends of the checkpoint or of the manifest record up to the retries, all other calls delivered.
- Store.Store.Append: an ambiguous append that lands after the call has returned is outside the repository's scope and not modelled; neither are stale reads.
- ExactAppend.AppendExactWithRetry: a rejection does not say "not stored", because the read that verifies a duplicate can itself be rejected.
- RoomActors.RoomActor.Update: whether the connection has joined is a parameter; the peer table, the fan-out to other peers and the acknowledgement message are not modelled beyond the status.
- CheckpointBuilder.BuildCheckpointRecord: exporting a snapshot cannot fail in the model, and documents are compared by their applied operations instead of values and version vectors.
- WindowedReads.Reader.ReadExactWindow: one request is one logical read; redirects, delays between retries and the reading of the body chunk by chunk are transport.
- Connections.Connection.ExpireFragments: the time is a parameter.
- HTTP and WebSocket transport, status classification, URL checks and safe-retry back-off: plumbing without a hard property.
- Joining a room and exporting the missing part of a document to a peer: the library's version vectors are not modelled.
- The merge of concurrent values, blob metadata and snapshot encoding of Loro: the library's own.
- The arithmetic of SHA-256 and CRC-32, and how well they detect errors.
- The formatting of stream and producer names.
- The message-type dispatch of the protocol pre-check: a sequence of calls to the reader.
- Several gateways writing one room, fencing, manifest compaction and deletion of old generations: outside the repository's stated scope.
- Status reporting, metrics, tracing, benchmarks and scripts.
