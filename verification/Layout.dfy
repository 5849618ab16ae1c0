/** What lies where in a byte string, said by offset and without reference to any encoder. */
module Layout {
  import opened Bytes
  import opened Envelope

  /** These bytes start at the offset. */
  predicate BytesAt(s: seq<byte>, at: nat, piece: seq<byte>) {
    at + |piece| <= |s| && s[at..at + |piece|] == piece
  }

  /** The bytes taken by the first i chunks. */
  function Before(chunks: seq<seq<byte>>, i: nat): nat
    requires i <= |chunks|
  {
    if i == 0 then 0 else Before(chunks, i - 1) + |chunks[i - 1]|
  }

  /** A table of 32-bit lengths, one for each chunk. */
  predicate LengthsAt(s: seq<byte>, at: nat, chunks: seq<seq<byte>>) {
    forall i {:trigger chunks[i]} :: 0 <= i < |chunks| ==> U32At(s, at + 4 * i, |chunks[i]|)
  }

  /** The chunks, one right after the other. */
  predicate ChunksAt(s: seq<byte>, at: nat, chunks: seq<seq<byte>>) {
    forall i :: 0 <= i < |chunks| ==> BytesAt(s, at + Before(chunks, i), chunks[i])
  }

  lemma {:induction false} BeforeRest(chunks: seq<seq<byte>>, i: nat)
    requires 0 < i <= |chunks|
    ensures Before(chunks, i) == |chunks[0]| + Before(chunks[1..], i - 1)
  {
    if i > 1 {
      BeforeRest(chunks, i - 1);
    }
  }

  lemma {:induction false} BeforeAll(chunks: seq<seq<byte>>)
    ensures Before(chunks, |chunks|) == TotalLength(chunks)
  {
    if chunks != [] {
      BeforeRest(chunks, |chunks|);
      BeforeAll(chunks[1..]);
    }
  }

  lemma LengthsRest(s: seq<byte>, at: nat, chunks: seq<seq<byte>>)
    requires chunks != []
    ensures LengthsAt(s, at, chunks) <==> U32At(s, at, |chunks[0]|) && LengthsAt(s, at + 4, chunks[1..])
  {
    hide U32At;
    if LengthsAt(s, at, chunks) {
      forall i | 0 <= i < |chunks[1..]| ensures U32At(s, at + 4 + 4 * i, |chunks[1..][i]|) {
        assert chunks[1..][i] == chunks[i + 1];
      }
    }
    if U32At(s, at, |chunks[0]|) && LengthsAt(s, at + 4, chunks[1..]) {
      forall i | 0 <= i < |chunks| ensures U32At(s, at + 4 * i, |chunks[i]|) {
        if i > 0 {
          assert chunks[i] == chunks[1..][i - 1];
        }
      }
    }
  }

  /** A table encoded from the lengths lies at the offset exactly if every length does. */
  lemma {:induction false} TableLaid(s: seq<byte>, at: nat, chunks: seq<seq<byte>>)
    requires at + 4 * |chunks| <= |s|
    requires forall i :: 0 <= i < |chunks| ==> |chunks[i]| < TWO_32
    ensures s[at..at + 4 * |chunks|] == Table(Lengths(chunks)) <==> LengthsAt(s, at, chunks)
    decreases |chunks|
  {
    hide BigEndian, U32At, LengthsAt;
    if chunks == [] {
      NoLengths(s, at);
    } else {
      At4(s, at, |chunks[0]|);
      LengthsRest(s, at, chunks);
      TableLaid(s, at + 4, chunks[1..]);
      assert Lengths(chunks)[1..] == Lengths(chunks[1..]);
      var table := s[at..at + 4 * |chunks|];
      assert table[..4] == s[at..at + 4] && table[4..] == s[at + 4..at + 4 + 4 * |chunks[1..]|];
      assert table == table[..4] + table[4..];
      var t := Table(Lengths(chunks));
      assert t[..4] == BigEndian(|chunks[0]|, 4) && t[4..] == Table(Lengths(chunks[1..]));
    }
  }

  lemma NoLengths(s: seq<byte>, at: nat)
    ensures LengthsAt(s, at, []) && ChunksAt(s, at, [])
  {
  }

  lemma ChunksRest(s: seq<byte>, at: nat, chunks: seq<seq<byte>>)
    requires chunks != []
    ensures ChunksAt(s, at, chunks) <==> BytesAt(s, at, chunks[0]) && ChunksAt(s, at + |chunks[0]|, chunks[1..])
  {
    hide BytesAt;
    if ChunksAt(s, at, chunks) {
      assert BytesAt(s, at + Before(chunks, 0), chunks[0]);
      forall i | 0 <= i < |chunks[1..]| ensures BytesAt(s, at + |chunks[0]| + Before(chunks[1..], i), chunks[1..][i]) {
        BeforeRest(chunks, i + 1);
        assert BytesAt(s, at + Before(chunks, i + 1), chunks[i + 1]);
      }
    }
    if BytesAt(s, at, chunks[0]) && ChunksAt(s, at + |chunks[0]|, chunks[1..]) {
      forall i | 0 <= i < |chunks| ensures BytesAt(s, at + Before(chunks, i), chunks[i]) {
        if i > 0 {
          BeforeRest(chunks, i);
          assert BytesAt(s, at + |chunks[0]| + Before(chunks[1..], i - 1), chunks[1..][i - 1]);
        }
      }
    }
  }

  /** The joined chunks lie at the offset exactly if every chunk lies at its own. */
  lemma {:induction false} ChunksLaid(s: seq<byte>, at: nat, chunks: seq<seq<byte>>)
    requires at <= |s|
    ensures BytesAt(s, at, Flatten(chunks)) <==> ChunksAt(s, at, chunks)
    decreases |chunks|
  {
    hide ChunksAt;
    if chunks == [] {
      NoLengths(s, at);
    } else {
      ChunksRest(s, at, chunks);
      var first, rest := chunks[0], Flatten(chunks[1..]);
      if at + |first| <= |s| {
        ChunksLaid(s, at + |first|, chunks[1..]);
        if BytesAt(s, at, first + rest) {
          assert s[at..at + |first|] == s[at..at + |first + rest|][..|first|];
          assert s[at + |first|..at + |first| + |rest|] == s[at..at + |first + rest|][|first|..];
        }
        if BytesAt(s, at, first) && BytesAt(s, at + |first|, rest) {
          assert s[at..at + |first + rest|] == s[at..at + |first|] + s[at + |first|..at + |first| + |rest|];
        }
      }
    }
  }

  /** Two neighbouring pieces are one piece. */
  lemma Joined(s: seq<byte>, at: nat, a: seq<byte>, b: seq<byte>)
    ensures BytesAt(s, at, a + b) <==> BytesAt(s, at, a) && BytesAt(s, at + |a|, b)
  {
    if BytesAt(s, at, a + b) {
      assert s[at..at + |a|] == s[at..at + |a + b|][..|a|];
      assert s[at + |a|..at + |a| + |b|] == s[at..at + |a + b|][|a|..];
    }
    if BytesAt(s, at, a) && BytesAt(s, at + |a|, b) {
      assert s[at..at + |a + b|] == s[at..at + |a|] + s[at + |a|..at + |a| + |b|];
    }
  }

  /** The integer's encoding lies at the offset exactly if the integer does. */
  lemma Laid2(s: seq<byte>, at: nat, n: nat)
    requires n < TWO_16
    ensures BytesAt(s, at, BigEndian(n, 2)) <==> U16At(s, at, n)
  {
    hide BigEndian;
    if at + 2 <= |s| { At2(s, at, n); }
  }

  lemma Laid4(s: seq<byte>, at: nat, n: nat)
    requires n < TWO_32
    ensures BytesAt(s, at, BigEndian(n, 4)) <==> U32At(s, at, n)
  {
    hide BigEndian;
    if at + 4 <= |s| { At4(s, at, n); }
  }

  lemma Laid8(s: seq<byte>, at: nat, n: nat)
    requires n < TWO_64
    ensures BytesAt(s, at, BigEndian(n, 8)) <==> U64At(s, at, n)
  {
    hide BigEndian;
    if at + 8 <= |s| { At8(s, at, n); }
  }

  /**
   What every record starts and ends with: magic, the bytes 0 1 0 0 for version and flags, the total
   length; the checksum of everything before it, and the total length again.
   */
  predicate Enveloped(h: Platform, s: seq<byte>, magic: seq<byte>) {
    && |s| >= 28
    && BytesAt(s, 0, magic)
    && s[4..8] == [0, 1, 0, 0]
    && U64At(s, 8, |s|)
    && U32At(s, |s| - 12, h.crc32(s[..|s| - 12]))
    && U64At(s, |s| - 8, |s|)
  }

  /** A whole string is one piece that starts at its beginning and is as long as it. */
  lemma WholePiece(s: seq<byte>, piece: seq<byte>)
    ensures s == piece <==> |s| == |piece| && BytesAt(s, 0, piece)
  {
  }

  lemma VersionAndFlags(s: seq<byte>)
    requires |s| >= 8
    ensures U16At(s, 4, 1) && U16At(s, 6, 0) <==> s[4..8] == [0, 1, 0, 0]
  {
    assert s[4..8] == [s[4], s[5], s[6], s[7]];
  }

  /** A sealed record is exactly its envelope around its payload. */
  lemma SealedIff(h: Platform, magic: Magic, payload: seq<byte>, s: seq<byte>)
    requires |s| == PREFIX + |payload| + SUFFIX < TWO_64
    ensures s == Sealed(h, magic, payload) <==> Enveloped(h, s, magic) && BytesAt(s, 16, payload)
  {
    hide BigEndian, U16At, U32At, U64At, BytesAt;
    var n := |s|;
    var body := Checksummed(magic, payload);
    var crc, trailer := BigEndian(h.crc32(body), 4), BigEndian(n, 8);
    WholePiece(s, Sealed(h, magic, payload));
    Joined(s, 0, body, crc + trailer);
    Joined(s, n - 12, crc, trailer);
    Laid4(s, n - 12, h.crc32(body));
    Laid8(s, n - 8, n);
    var r3 := BigEndian(n, 8) + payload;
    var r2 := BigEndian(0, 2) + r3;
    var r1 := BigEndian(VERSION, 2) + r2;
    Joined(s, 0, magic, r1);
    Joined(s, 4, BigEndian(VERSION, 2), r2);
    Joined(s, 6, BigEndian(0, 2), r3);
    Joined(s, 8, BigEndian(n, 8), payload);
    Laid2(s, 4, VERSION);
    Laid2(s, 6, 0);
    Laid8(s, 8, n);
    VersionAndFlags(s);
    PieceAt(s, 0, body);
    assert s[0..n - 12] == s[..n - 12];
  }

  lemma PieceAt(s: seq<byte>, at: nat, piece: seq<byte>)
    requires at + |piece| <= |s|
    ensures BytesAt(s, at, piece) <==> s[at..at + |piece|] == piece
  {
  }

  /** A length table, what lies between, and the chunks it describes with a digest after them. */
  lemma BlobsLaid(s: seq<byte>, at: nat, between: seq<byte>, chunks: seq<seq<byte>>, digest: Digest)
    requires forall i :: 0 <= i < |chunks| ==> |chunks[i]| < TWO_32
    requires at + 4 * |chunks| + |between| + TotalLength(chunks) + 32 <= |s|
    ensures var c := |chunks|;
            (BytesAt(s, at, Table(Lengths(chunks)) + (between + (Flatten(chunks) + digest))) <==>
             && LengthsAt(s, at, chunks)
             && BytesAt(s, at + 4 * c, between)
             && ChunksAt(s, at + 4 * c + |between|, chunks)
             && BytesAt(s, at + 4 * c + |between| + Before(chunks, c), digest))
  {
    hide LengthsAt, ChunksAt, BytesAt, Table, Flatten, TotalLength, Lengths, Before;
    var table, flat, c := Table(Lengths(chunks)), Flatten(chunks), |chunks|;
    FlattenFacts(chunks);
    BeforeAll(chunks);
    Joined(s, at, table, between + (flat + digest));
    Joined(s, at + 4 * c, between, flat + digest);
    Joined(s, at + 4 * c + |between|, flat, digest);
    TableLaid(s, at, chunks);
    PieceAt(s, at, table);
    ChunksLaid(s, at + 4 * c + |between|, chunks);
  }
}
