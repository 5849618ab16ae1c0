/**
 The envelope shared by the three record kinds: magic, version, flags and total length before
 the payload; checksum and the total length again after it.
 */
module Envelope {
  import opened Bytes

  const VERSION: nat := 1
  const PREFIX: nat := 4 + 2 + 2 + 8
  const SUFFIX: nat := 4 + 8

  type Magic = s: seq<byte> | |s| == 4 witness seq(4, _ => 0)

  function Checksummed(magic: Magic, payload: seq<byte>): (r: seq<byte>)
    ensures |r| == PREFIX + |payload|
  {
    magic + (BigEndian(VERSION, 2) + (BigEndian(0, 2) + (BigEndian(PREFIX + |payload| + SUFFIX, 8) + payload)))
  }

  function Sealed(h: Platform, magic: Magic, payload: seq<byte>): (r: seq<byte>)
    ensures |r| == PREFIX + |payload| + SUFFIX
  {
    var body := Checksummed(magic, payload);
    body + (BigEndian(h.crc32(body), 4) + BigEndian(PREFIX + |payload| + SUFFIX, 8))
  }

  /** Steps over one field of a longer string. */
  lemma Field(s: seq<byte>, at: nat, field: seq<byte>, rest: seq<byte>)
    requires at <= |s| && s[at..] == field + rest
    ensures at + |field| <= |s|
    ensures s[at..at + |field|] == field && s[at + |field|..] == rest
  {
    assert s[at..at + |field|] == s[at..][..|field|];
    assert s[at + |field|..] == s[at..][|field|..];
  }

  lemma HeadFields(magic: Magic, payload: seq<byte>, suffix: seq<byte>)
    requires PREFIX + |payload| + SUFFIX < TWO_64
    ensures var input := Checksummed(magic, payload) + suffix;
            && input[..4] == magic
            && Value(input[4..6]) == VERSION
            && Value(input[6..8]) == 0
            && Value(input[8..16]) == PREFIX + |payload| + SUFFIX
            && input[PREFIX..PREFIX + |payload|] == payload
  {
    hide BigEndian, Value;
    SpanValues();
    var total := PREFIX + |payload| + SUFFIX;
    var input := Checksummed(magic, payload) + suffix;
    var r4 := payload + suffix;
    var r3 := BigEndian(total, 8) + r4;
    var r2 := BigEndian(0, 2) + r3;
    var r1 := BigEndian(VERSION, 2) + r2;
    assert input == magic + r1;
    Field(input, 0, magic, r1);
    Field(input, 4, BigEndian(VERSION, 2), r2);
    Field(input, 6, BigEndian(0, 2), r3);
    Field(input, 8, BigEndian(total, 8), r4);
    Field(input, PREFIX, payload, suffix);
    ValueOfBigEndian(VERSION, 2);
    ValueOfBigEndian(0, 2);
    ValueOfBigEndian(total, 8);
  }

  /** Where every field of a sealed record sits, whatever follows it. */
  lemma SealedFields(h: Platform, magic: Magic, payload: seq<byte>, suffix: seq<byte>)
    requires PREFIX + |payload| + SUFFIX < TWO_64
    ensures var input := Sealed(h, magic, payload) + suffix;
            var total := PREFIX + |payload| + SUFFIX;
            && input[..4] == magic
            && Value(input[4..6]) == VERSION
            && Value(input[6..8]) == 0
            && Value(input[8..16]) == total
            && input[PREFIX..total - SUFFIX] == payload
            && Value(input[total - 8..total]) == total
            && input[..total - 12] == Checksummed(magic, payload)
            && Value(input[total - 12..total - 8]) == h.crc32(input[..total - 12])
  {
    hide BigEndian, Value;
    SpanValues();
    var total := PREFIX + |payload| + SUFFIX;
    var body := Checksummed(magic, payload);
    var crc, trailer := BigEndian(h.crc32(body), 4), BigEndian(total, 8);
    var input := Sealed(h, magic, payload) + suffix;
    assert input == body + (crc + trailer + suffix);
    HeadFields(magic, payload, crc + trailer + suffix);
    ValueOfBigEndian(total, 8);
    ValueOfBigEndian(h.crc32(body), 4);
    assert input[..total - 12] == body;
    assert input[total - 12..total - 8] == crc;
    assert input[total - 8..total] == trailer;
  }

  lemma Cut(s: seq<byte>, from: nat, to: nat)
    requires from <= to <= |s|
    ensures s[from..] == s[from..to] + s[to..]
  {
  }

  /** An input whose fields check out is a sealed record. */
  lemma Unsealed(h: Platform, magic: Magic, input: seq<byte>)
    requires |input| >= PREFIX + SUFFIX
    requires input[..4] == magic && Value(input[4..6]) == VERSION && Value(input[6..8]) == 0
    requires Value(input[8..16]) == |input|
    requires Value(input[|input| - 8..]) == |input|
    requires Value(input[|input| - 12..|input| - 8]) == h.crc32(input[..|input| - 12])
    ensures input == Sealed(h, magic, input[PREFIX..|input| - SUFFIX])
  {
    hide BigEndian, Value;
    var n := |input|;
    var payload := input[PREFIX..n - SUFFIX];
    BigEndianOfValue(input[4..6]);
    BigEndianOfValue(input[6..8]);
    BigEndianOfValue(input[8..16]);
    BigEndianOfValue(input[n - 12..n - 8]);
    BigEndianOfValue(input[n - 8..]);
    var body := input[..n - 12];
    Cut(body, 8, 16);
    Cut(body, 6, 8);
    Cut(body, 4, 6);
    Cut(body, 0, 4);
    assert body[4..6] == input[4..6] && body[6..8] == input[6..8] && body[8..16] == input[8..16];
    assert body[16..] == payload && body == body[0..];
    Cut(input, n - 12, n - 8);
    assert input == body + input[n - 12..];
    assert PREFIX + |payload| + SUFFIX == n;
    assert body == Checksummed(magic, payload);
    assert input[n - 12..n - 8] == BigEndian(h.crc32(body), 4);
  }
}
