/** What the four record digests hash, offset by offset, and that each fixes everything it covers. */
module Digests {
  import opened Bytes
  import opened Layout
  import F = Frame
  import C = Checkpoint
  import opened Manifest

  /** The characters of the text and a zero byte start the string. */
  predicate Headed(s: seq<byte>, text: string) {
    && |s| > |text|
    && (forall i :: 0 <= i < |text| ==> s[i] == text[i] as int)
    && s[|text|] == 0
  }

  /** A chunk with its length before it. */
  predicate EntryAt(s: seq<byte>, at: nat, chunk: seq<byte>) {
    U64At(s, at, |chunk|) && BytesAt(s, at + 8, chunk)
  }

  predicate EntriesAt(s: seq<byte>, at: nat, chunks: seq<seq<byte>>) {
    forall i :: 0 <= i < |chunks| ==> EntryAt(s, at + 8 * i + Before(chunks, i), chunks[i])
  }

  /** The bytes hashed for a frame's updates. */
  predicate UpdatesAt(s: seq<byte>, updates: seq<seq<byte>>) {
    && |s| == 31 + 8 * |updates| + Before(updates, |updates|)
    && Headed(s, "quorum-loro-updates-v1")
    && U64At(s, 23, |updates|)
    && EntriesAt(s, 31, updates)
  }

  /** The bytes hashed for a checkpoint's content. */
  predicate ContentAt(s: seq<byte>, snapshot: seq<byte>, pending: seq<seq<byte>>) {
    && |s| == 42 + |snapshot| + 8 * |pending| + Before(pending, |pending|)
    && Headed(s, "quorum-loro-checkpoint-v1")
    && EntryAt(s, 26, snapshot)
    && U64At(s, 34 + |snapshot|, |pending|)
    && EntriesAt(s, 42 + |snapshot|, pending)
  }

  /** The bytes hashed for a whole stored checkpoint. */
  predicate StoredAt(s: seq<byte>, bytes: seq<byte>) {
    |s| == 41 + |bytes| && Headed(s, "quorum-loro-checkpoint-record-v1") && EntryAt(s, 33, bytes)
  }

  /** The bytes hashed for a manifest record: every field but the digest itself. */
  predicate FieldsAt(s: seq<byte>, r: ManifestRecord) {
    && |s| == 152
    && Headed(s, "quorum-loro-manifest-v1")
    && BytesAt(s, 24, r.roomHash)
    && U64At(s, 56, r.revision)
    && BytesAt(s, 64, r.previousRecordDigest)
    && U64At(s, 96, r.checkpointGeneration)
    && U64At(s, 104, r.checkpointStreamEndOffset)
    && BytesAt(s, 112, r.checkpointRecordDigest)
    && U64At(s, 144, r.activeDeltaGeneration)
  }

  /** Every length has its 64 bits. */
  predicate Countable(chunks: seq<seq<byte>>) {
    |chunks| < TWO_64 && forall i :: 0 <= i < |chunks| ==> |chunks[i]| < TWO_64
  }

  // ---------------------------------------------------------------- layout of the preimages

  lemma EntriesRest(s: seq<byte>, at: nat, chunks: seq<seq<byte>>)
    requires chunks != []
    ensures EntriesAt(s, at, chunks) <==> EntryAt(s, at, chunks[0]) && EntriesAt(s, at + 8 + |chunks[0]|, chunks[1..])
  {
    hide EntryAt;
    var next := at + 8 + |chunks[0]|;
    if EntriesAt(s, at, chunks) {
      assert EntryAt(s, at + 8 * 0 + Before(chunks, 0), chunks[0]);
      forall i | 0 <= i < |chunks[1..]| ensures EntryAt(s, next + 8 * i + Before(chunks[1..], i), chunks[1..][i]) {
        BeforeRest(chunks, i + 1);
        assert EntryAt(s, at + 8 * (i + 1) + Before(chunks, i + 1), chunks[i + 1]);
      }
    }
    if EntryAt(s, at, chunks[0]) && EntriesAt(s, next, chunks[1..]) {
      forall i | 0 <= i < |chunks| ensures EntryAt(s, at + 8 * i + Before(chunks, i), chunks[i]) {
        if i > 0 {
          BeforeRest(chunks, i);
          assert EntryAt(s, next + 8 * (i - 1) + Before(chunks[1..], i - 1), chunks[1..][i - 1]);
        }
      }
    }
  }

  lemma EntryLaid(s: seq<byte>, at: nat, chunk: seq<byte>)
    requires |chunk| < TWO_64
    ensures BytesAt(s, at, BigEndian(|chunk|, 8) + chunk) <==> EntryAt(s, at, chunk)
  {
    hide BigEndian, BytesAt, U64At;
    Joined(s, at, BigEndian(|chunk|, 8), chunk);
    Laid8(s, at, |chunk|);
  }

  lemma {:induction false} EntriesLaid(s: seq<byte>, at: nat, chunks: seq<seq<byte>>)
    requires at <= |s| && Countable(chunks)
    ensures BytesAt(s, at, Listed(chunks)) <==> EntriesAt(s, at, chunks)
    decreases |chunks|
  {
    hide BigEndian, EntriesAt, EntryAt;
    if chunks == [] {
      NoEntries(s, at);
    } else {
      var entry := BigEndian(|chunks[0]|, 8) + chunks[0];
      EntriesRest(s, at, chunks);
      EntryLaid(s, at, chunks[0]);
      Joined(s, at, entry, Listed(chunks[1..]));
      if at + |entry| <= |s| {
        EntriesLaid(s, at + |entry|, chunks[1..]);
      }
    }
  }

  lemma NoEntries(s: seq<byte>, at: nat)
    ensures EntriesAt(s, at, [])
  {
  }

  lemma {:induction false} ListedLength(chunks: seq<seq<byte>>)
    ensures |Listed(chunks)| == 8 * |chunks| + Before(chunks, |chunks|)
  {
    if chunks != [] {
      BeforeRest(chunks, |chunks|);
      ListedLength(chunks[1..]);
    }
  }

  predicate Spelled(domain: seq<byte>, text: string) {
    && |domain| == |text| + 1 && domain[|text|] == 0
    && forall i :: 0 <= i < |text| ==> domain[i] == text[i] as int
  }

  lemma HeadedIff(s: seq<byte>, domain: seq<byte>, text: string)
    requires Spelled(domain, text)
    ensures BytesAt(s, 0, domain) <==> Headed(s, text)
  {
    if BytesAt(s, 0, domain) {
      forall i | 0 <= i <= |text| ensures s[i] == domain[i] {
        assert s[0..|domain|][i] == domain[i];
      }
    }
    if Headed(s, text) {
      assert s[0..|domain|] == domain;
    }
  }

  lemma Domains()
    ensures Spelled(F.DIGEST_DOMAIN, "quorum-loro-updates-v1")
    ensures Spelled(C.DIGEST_DOMAIN, "quorum-loro-checkpoint-v1")
    ensures Spelled(CHECKPOINT_DOMAIN, "quorum-loro-checkpoint-record-v1")
    ensures Spelled(MANIFEST_DOMAIN, "quorum-loro-manifest-v1")
  {
    hide Spelled;
    UpdatesDomain();
    ContentDomain();
    StoredDomain();
    FieldsDomain();
  }

  lemma UpdatesDomain()
    ensures Spelled(F.DIGEST_DOMAIN, "quorum-loro-updates-v1")
  {
  }

  lemma ContentDomain()
    ensures Spelled(C.DIGEST_DOMAIN, "quorum-loro-checkpoint-v1")
  {
  }

  lemma StoredDomain()
    ensures Spelled(CHECKPOINT_DOMAIN, "quorum-loro-checkpoint-record-v1")
  {
  }

  lemma FieldsDomain()
    ensures Spelled(MANIFEST_DOMAIN, "quorum-loro-manifest-v1")
  {
  }

  lemma UpdatesIff(s: seq<byte>, updates: seq<seq<byte>>)
    requires Countable(updates)
    ensures s == F.UpdatePreimage(updates) <==> UpdatesAt(s, updates)
  {
    hide BigEndian, BytesAt, EntriesAt, U64At, Listed, Countable, Headed;
    Domains();
    var list := BigEndian(|updates|, 8) + Listed(updates);
    ListedLength(updates);
    WholePiece(s, F.UpdatePreimage(updates));
    if |s| == |F.UpdatePreimage(updates)| {
      Joined(s, 0, F.DIGEST_DOMAIN, list);
      HeadedIff(s, F.DIGEST_DOMAIN, "quorum-loro-updates-v1");
      Joined(s, 23, BigEndian(|updates|, 8), Listed(updates));
      CountLaid(s, 23, updates);
    }
  }

  lemma CountLaid(s: seq<byte>, at: nat, chunks: seq<seq<byte>>)
    requires Countable(chunks) && at + 8 <= |s|
    ensures BytesAt(s, at, BigEndian(|chunks|, 8)) <==> U64At(s, at, |chunks|)
    ensures BytesAt(s, at + 8, Listed(chunks)) <==> EntriesAt(s, at + 8, chunks)
  {
    hide BigEndian, BytesAt, EntriesAt, U64At, Listed;
    Laid8(s, at, |chunks|);
    EntriesLaid(s, at + 8, chunks);
  }

  lemma ContentIff(s: seq<byte>, snapshot: seq<byte>, pending: seq<seq<byte>>)
    requires |snapshot| < TWO_64 && Countable(pending)
    ensures s == C.CheckpointPreimage(snapshot, pending) <==> ContentAt(s, snapshot, pending)
  {
    hide BigEndian, BytesAt, EntriesAt, EntryAt, U64At, Listed, Countable, Headed;
    Domains();
    var list := BigEndian(|pending|, 8) + Listed(pending);
    var size := BigEndian(|snapshot|, 8);
    ListedLength(pending);
    WholePiece(s, C.CheckpointPreimage(snapshot, pending));
    if |s| == |C.CheckpointPreimage(snapshot, pending)| {
      Joined(s, 0, C.DIGEST_DOMAIN, size + (snapshot + list));
      HeadedIff(s, C.DIGEST_DOMAIN, "quorum-loro-checkpoint-v1");
      assert size + (snapshot + list) == (size + snapshot) + list;
      Joined(s, 26, size + snapshot, list);
      EntryLaid(s, 26, snapshot);
      Joined(s, 34 + |snapshot|, BigEndian(|pending|, 8), Listed(pending));
      CountLaid(s, 34 + |snapshot|, pending);
    }
  }

  lemma StoredIff(s: seq<byte>, bytes: seq<byte>)
    requires |bytes| < TWO_64
    ensures s == CheckpointBytesPreimage(bytes) <==> StoredAt(s, bytes)
  {
    hide BigEndian, BytesAt, EntryAt, Headed;
    Domains();
    WholePiece(s, CheckpointBytesPreimage(bytes));
    if |s| == |CheckpointBytesPreimage(bytes)| {
      Joined(s, 0, CHECKPOINT_DOMAIN, BigEndian(|bytes|, 8) + bytes);
      HeadedIff(s, CHECKPOINT_DOMAIN, "quorum-loro-checkpoint-record-v1");
      EntryLaid(s, 33, bytes);
    }
  }

  lemma FieldsIff(s: seq<byte>, r: ManifestRecord)
    ensures s == ManifestPreimage(r) <==> FieldsAt(s, r)
  {
    hide BigEndian, BytesAt, U64At, Headed;
    Domains();
    WholePiece(s, ManifestPreimage(r));
    if |s| == 152 {
      var r6 := BigEndian(r.activeDeltaGeneration, 8);
      var r5 := r.checkpointRecordDigest + r6;
      var r4 := BigEndian(r.checkpointStreamEndOffset, 8) + r5;
      var r3 := BigEndian(r.checkpointGeneration, 8) + r4;
      var r2 := r.previousRecordDigest + r3;
      var r1 := BigEndian(r.revision, 8) + r2;
      Joined(s, 0, MANIFEST_DOMAIN, ManifestFields(r));
      HeadedIff(s, MANIFEST_DOMAIN, "quorum-loro-manifest-v1");
      Joined(s, 24, r.roomHash, r1);
      Joined(s, 56, BigEndian(r.revision, 8), r2);
      Joined(s, 64, r.previousRecordDigest, r3);
      Joined(s, 96, BigEndian(r.checkpointGeneration, 8), r4);
      Joined(s, 104, BigEndian(r.checkpointStreamEndOffset, 8), r5);
      Joined(s, 112, r.checkpointRecordDigest, r6);
      Laid8(s, 56, r.revision);
      Laid8(s, 96, r.checkpointGeneration);
      Laid8(s, 104, r.checkpointStreamEndOffset);
      Laid8(s, 144, r.activeDeltaGeneration);
    }
  }

  // ---------------------------------------------------------------- what the digests fix

  /** One string is not the list of two different sequences of chunks. */
  lemma {:induction false} EntriesSame(s: seq<byte>, at: nat, a: seq<seq<byte>>, b: seq<seq<byte>>)
    requires |a| == |b| && EntriesAt(s, at, a) && EntriesAt(s, at, b)
    ensures a == b
    decreases |a|
  {
    hide EntriesAt;
    if a != [] {
      EntriesRest(s, at, a);
      EntriesRest(s, at, b);
      assert a[0] == b[0];
      EntriesSame(s, at + 8 + |a[0]|, a[1..], b[1..]);
      assert a == [a[0]] + a[1..] && b == [b[0]] + b[1..];
    }
  }

  /** Two different strings with the same hash. */
  predicate Collide(h: Platform, s: seq<byte>, t: seq<byte>) {
    s != t && h.sha256(s) == h.sha256(t)
  }

  /** The digest of a frame is the hash of the bytes above, and fixes the updates unless the hash collides. */
  lemma UpdateDigestBinds(h: Platform, a: seq<seq<byte>>, b: seq<seq<byte>>)
    requires Countable(a) && Countable(b)
    ensures forall s :: UpdatesAt(s, a) ==> F.UpdateDigest(h, a) == h.sha256(s)
    ensures F.UpdateDigest(h, a) == F.UpdateDigest(h, b) ==>
              a == b || exists s, t :: UpdatesAt(s, a) && UpdatesAt(t, b) && Collide(h, s, t)
  {
    hide F.UpdatePreimage, EntriesAt, Headed;
    forall s | UpdatesAt(s, a) ensures F.UpdateDigest(h, a) == h.sha256(s) {
      UpdatesIff(s, a);
    }
    var s, t := F.UpdatePreimage(a), F.UpdatePreimage(b);
    UpdatesIff(s, a);
    UpdatesIff(t, b);
    if s == t {
      EntriesSame(s, 31, a, b);
    } else if h.sha256(s) == h.sha256(t) {
      assert Collide(h, s, t);
    }
  }

  /** Likewise for a checkpoint's snapshot and pending updates. */
  lemma CheckpointDigestBinds(h: Platform, snapshot: seq<byte>, a: seq<seq<byte>>, other: seq<byte>, b: seq<seq<byte>>)
    requires |snapshot| < TWO_64 && |other| < TWO_64 && Countable(a) && Countable(b)
    ensures forall s :: ContentAt(s, snapshot, a) ==> C.CheckpointDigest(h, snapshot, a) == h.sha256(s)
    ensures C.CheckpointDigest(h, snapshot, a) == C.CheckpointDigest(h, other, b) ==>
              || (snapshot == other && a == b)
              || exists s, t :: ContentAt(s, snapshot, a) && ContentAt(t, other, b) && Collide(h, s, t)
  {
    hide C.CheckpointPreimage, EntriesAt, Headed;
    forall s | ContentAt(s, snapshot, a) ensures C.CheckpointDigest(h, snapshot, a) == h.sha256(s) {
      ContentIff(s, snapshot, a);
    }
    var s, t := C.CheckpointPreimage(snapshot, a), C.CheckpointPreimage(other, b);
    ContentIff(s, snapshot, a);
    ContentIff(t, other, b);
    if s == t {
      assert snapshot == other;
      EntriesSame(s, 42 + |snapshot|, a, b);
    } else if h.sha256(s) == h.sha256(t) {
      assert Collide(h, s, t);
    }
  }

  /** Likewise for the bytes of a stored checkpoint. */
  lemma StoredDigestBinds(h: Platform, a: seq<byte>, b: seq<byte>)
    requires |a| < TWO_64 && |b| < TWO_64
    ensures forall s :: StoredAt(s, a) ==> CheckpointBytesDigest(h, a) == h.sha256(s)
    ensures CheckpointBytesDigest(h, a) == CheckpointBytesDigest(h, b) ==>
              a == b || exists s, t :: StoredAt(s, a) && StoredAt(t, b) && Collide(h, s, t)
  {
    hide CheckpointBytesPreimage, Headed;
    forall s | StoredAt(s, a) ensures CheckpointBytesDigest(h, a) == h.sha256(s) {
      StoredIff(s, a);
    }
    var s, t := CheckpointBytesPreimage(a), CheckpointBytesPreimage(b);
    StoredIff(s, a);
    StoredIff(t, b);
    if s != t && h.sha256(s) == h.sha256(t) {
      assert Collide(h, s, t);
    }
  }

  /** Likewise for a manifest record, all of whose fields count. */
  lemma ManifestDigestBinds(h: Platform, a: ManifestRecord, b: ManifestRecord)
    ensures forall s :: FieldsAt(s, a) ==> ManifestDigest(h, a) == h.sha256(s)
    ensures ManifestDigest(h, a) == ManifestDigest(h, b) ==>
              a == b.(digest := a.digest) || exists s, t :: FieldsAt(s, a) && FieldsAt(t, b) && Collide(h, s, t)
  {
    hide ManifestPreimage, Headed;
    forall s | FieldsAt(s, a) ensures ManifestDigest(h, a) == h.sha256(s) {
      FieldsIff(s, a);
    }
    var s, t := ManifestPreimage(a), ManifestPreimage(b);
    FieldsIff(s, a);
    FieldsIff(t, b);
    if s != t && h.sha256(s) == h.sha256(t) {
      assert Collide(h, s, t);
    }
  }

  /** No string is hashed for two purposes. */
  lemma DomainsSeparate(s: seq<byte>, updates: seq<seq<byte>>, snapshot: seq<byte>, pending: seq<seq<byte>>, bytes: seq<byte>, r: ManifestRecord)
    ensures !(UpdatesAt(s, updates) && ContentAt(s, snapshot, pending))
    ensures !(UpdatesAt(s, updates) && StoredAt(s, bytes))
    ensures !(UpdatesAt(s, updates) && FieldsAt(s, r))
    ensures !(ContentAt(s, snapshot, pending) && StoredAt(s, bytes))
    ensures !(ContentAt(s, snapshot, pending) && FieldsAt(s, r))
    ensures !(StoredAt(s, bytes) && FieldsAt(s, r))
  {
    hide EntriesAt, EntryAt, U64At, BytesAt;
    assert "quorum-loro-updates-v1"[12] == 'u' && "quorum-loro-manifest-v1"[12] == 'm';
    assert "quorum-loro-checkpoint-v1"[12] == 'c' && "quorum-loro-checkpoint-record-v1"[12] == 'c';
    assert "quorum-loro-checkpoint-v1"[23] == 'v' && "quorum-loro-checkpoint-record-v1"[23] == 'r';
  }
}
