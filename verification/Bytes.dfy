/** Bytes, fixed-width big-endian integers and the length tables used by all three record codecs. */
module Bytes {
  import opened Wrappers

  type byte = n: nat | n < 0x100

  const TWO_16: nat := 0x1_0000
  const TWO_32: nat := 0x1_0000_0000
  const TWO_64: nat := 0x1_0000_0000_0000_0000

  type U32 = n: nat | n < TWO_32
  type U64 = n: nat | n < TWO_64

  type Digest = s: seq<byte> | |s| == 32 witness seq(32, _ => 0)
  type BatchId = s: seq<byte> | |s| == 8 witness seq(8, _ => 0)

  /** Library code whose arithmetic is not modelled: any function of the right width will do. */
  datatype Platform = Platform(
    crc32: seq<byte> -> U32,
    sha256: seq<byte> -> Digest,
    utf8: seq<byte> -> bool
  )

  /** 256 to the power width: one more than the largest value of that many bytes. */
  function Span(width: nat): (r: nat)
    ensures r >= 1
  {
    if width == 0 then 1 else 256 * Span(width - 1)
  }

  lemma SpanValues()
    ensures Span(2) == TWO_16 && Span(4) == TWO_32 && Span(8) == TWO_64
  {
    assert Span(4) == 65536 * Span(2);
    assert Span(6) == 65536 * Span(4);
    assert Span(8) == 65536 * Span(6);
  }

  /** The low `width` bytes of n, most significant first. */
  function BigEndian(n: nat, width: nat): (r: seq<byte>)
    ensures |r| == width
  {
    if width == 0 then [] else BigEndian(n / 256, width - 1) + [n % 256]
  }

  function Value(s: seq<byte>): nat {
    if s == [] then 0 else 256 * Value(s[..|s| - 1]) + s[|s| - 1]
  }

  lemma {:induction false} ValueOfBigEndian(n: nat, width: nat)
    requires n < Span(width)
    ensures Value(BigEndian(n, width)) == n
  {
    if width > 0 {
      ValueOfBigEndian(n / 256, width - 1);
      var s := BigEndian(n, width);
      assert s[..|s| - 1] == BigEndian(n / 256, width - 1);
    }
  }

  lemma {:induction false} BigEndianOfValue(s: seq<byte>)
    ensures Value(s) < Span(|s|)
    ensures BigEndian(Value(s), |s|) == s
  {
    if s != [] {
      BigEndianOfValue(s[..|s| - 1]);
      assert s == s[..|s| - 1] + [s[|s| - 1]];
    }
  }

  lemma DivideTwice(n: nat, a: nat, b: nat)
    requires a > 0 && b > 0
    ensures a * b > 0 && (n / a) / b == n / (a * b)
  {
    var q, r := n / a, n % a;
    var q', r' := q / b, q % b;
    assert n == a * q + r && q == b * q' + r';
    assert a * q == a * (b * q') + a * r' == (a * b) * q' + a * r' by { Spread(a, b, q', r'); }
    assert 0 <= a * r' + r < a * b by { Within(a, b, r', r); }
    Quotient(n, a * b, q', a * r' + r);
  }

  lemma Spread(a: nat, b: nat, q: nat, r: nat)
    ensures a * (b * q + r) == a * (b * q) + a * r == (a * b) * q + a * r
  {
  }

  lemma Within(a: nat, b: nat, x: nat, y: nat)
    requires x < b && y < a
    ensures 0 <= a * x + y < a * b
  {
    assert a * x + a == a * (x + 1) <= a * b;
  }

  lemma Quotient(n: nat, m: nat, q: nat, r: nat)
    requires m > 0 && r < m && n == m * q + r
    ensures n / m == q
  {
    var k := n / m;
    assert n == m * k + n % m;
    if k < q {
      MultiplyBelow(m, k, q);
    } else if q < k {
      MultiplyBelow(m, q, k);
    }
  }

  lemma MultiplyBelow(m: nat, x: nat, y: nat)
    requires x < y
    ensures m * x + m <= m * y
  {
    MultiplySum(m, x, y - x);
    AtLeast(m, y - x);
  }

  lemma MultiplySum(m: nat, x: nat, y: nat)
    ensures m * (x + y) == m * x + m * y
  {
  }

  lemma {:induction false} AtLeast(m: nat, x: nat)
    requires x > 0
    ensures m * x >= m
  {
    if x > 1 {
      AtLeast(m, x - 1);
      MultiplySum(m, x - 1, 1);
    }
  }

  /** The most significant byte comes first: byte i is the digit of weight 256 to the power width - 1 - i. */
  lemma {:induction false} BigEndianDigits(n: nat, width: nat, i: nat)
    requires i < width
    ensures BigEndian(n, width)[i] == n / Span(width - 1 - i) % 256
  {
    if i < width - 1 {
      BigEndianDigits(n / 256, width - 1, i);
      DivideTwice(n, 256, Span(width - 2 - i));
    } else {
      assert n / Span(0) == n;
    }
  }

  /** The unsigned integer stored at an offset, most significant byte first. */
  predicate U16At(s: seq<byte>, at: nat, n: nat) {
    at + 2 <= |s| && n == s[at] as int * 0x100 + s[at + 1]
  }

  predicate U32At(s: seq<byte>, at: nat, n: nat) {
    at + 4 <= |s| && n == s[at] as int * 0x100_0000 + s[at + 1] as int * 0x1_0000 + s[at + 2] as int * 0x100 + s[at + 3]
  }

  predicate U64At(s: seq<byte>, at: nat, n: nat) {
    && at + 8 <= |s|
    && n == s[at] as int * 0x100_0000_0000_0000 + s[at + 1] as int * 0x1_0000_0000_0000 + s[at + 2] as int * 0x100_0000_0000 + s[at + 3] as int * 0x1_0000_0000
          + s[at + 4] as int * 0x100_0000 + s[at + 5] as int * 0x1_0000 + s[at + 6] as int * 0x100 + s[at + 7]
  }

  lemma Value2(s: seq<byte>)
    requires |s| == 2
    ensures Value(s) == s[0] as int * 0x100 + s[1]
  {
    assert s[..1][..0] == [];
    assert Value(s[..1]) == s[0];
  }

  lemma Value4(s: seq<byte>)
    requires |s| == 4
    ensures Value(s) == s[0] as int * 0x100_0000 + s[1] as int * 0x1_0000 + s[2] as int * 0x100 + s[3]
  {
    Value2(s[..2]);
    assert s[..3][..2] == s[..2];
    assert Value(s[..3]) == 256 * Value(s[..2]) + s[2];
  }

  lemma Value8(s: seq<byte>)
    requires |s| == 8
    ensures U64At(s, 0, Value(s))
  {
    Value4(s[..4]);
    assert s[..5][..4] == s[..4] && s[..6][..5] == s[..5] && s[..7][..6] == s[..6];
    assert Value(s[..5]) == 256 * Value(s[..4]) + s[4];
    assert Value(s[..6]) == 256 * Value(s[..5]) + s[5];
    assert Value(s[..7]) == 256 * Value(s[..6]) + s[6];
  }

  lemma At2(s: seq<byte>, at: nat, n: nat)
    requires at + 2 <= |s|
    ensures U16At(s, at, n) <==> Value(s[at..at + 2]) == n
    ensures n < TWO_16 ==> (U16At(s, at, n) <==> s[at..at + 2] == BigEndian(n, 2))
  {
    hide BigEndian, Value, Span;
    SpanValues();
    Value2(s[at..at + 2]);
    BigEndianOfValue(s[at..at + 2]);
    if n < TWO_16 { ValueOfBigEndian(n, 2); }
  }

  lemma At4(s: seq<byte>, at: nat, n: nat)
    requires at + 4 <= |s|
    ensures U32At(s, at, n) <==> Value(s[at..at + 4]) == n
    ensures n < TWO_32 ==> (U32At(s, at, n) <==> s[at..at + 4] == BigEndian(n, 4))
  {
    hide BigEndian, Value, Span;
    SpanValues();
    Value4(s[at..at + 4]);
    BigEndianOfValue(s[at..at + 4]);
    if n < TWO_32 { ValueOfBigEndian(n, 4); }
  }

  lemma At8(s: seq<byte>, at: nat, n: nat)
    requires at + 8 <= |s|
    ensures U64At(s, at, n) <==> Value(s[at..at + 8]) == n
    ensures n < TWO_64 ==> (U64At(s, at, n) <==> s[at..at + 8] == BigEndian(n, 8))
  {
    hide BigEndian, Value, Span;
    SpanValues();
    Value8(s[at..at + 8]);
    BigEndianOfValue(s[at..at + 8]);
    if n < TWO_64 { ValueOfBigEndian(n, 8); }
  }

  /** Splits the next n bytes off; `short` is the error for an input that ends early. */
  function Take<E>(input: seq<byte>, n: nat, short: E): (r: Result<(seq<byte>, seq<byte>), E>)
    ensures r.Success? <==> n <= |input|
    ensures r.Success? ==> |r.value.0| == n && input == r.value.0 + r.value.1
  {
    if n <= |input| then Success((input[..n], input[n..])) else Failure(short)
  }

  function TakeInt<E>(input: seq<byte>, width: nat, short: E): (r: Result<(nat, seq<byte>), E>)
    ensures r.Success? <==> width <= |input|
    ensures r.Success? ==> r.value.0 < Span(width) && input == BigEndian(r.value.0, width) + r.value.1
  {
    if width <= |input| then
      BigEndianOfValue(input[..width]);
      Success((Value(input[..width]), input[width..]))
    else Failure(short)
  }

  lemma TakePrefix<E>(head: seq<byte>, tail: seq<byte>, short: E)
    ensures Take(head + tail, |head|, short) == Success((head, tail))
  {
    assert (head + tail)[..|head|] == head;
    assert (head + tail)[|head|..] == tail;
  }

  lemma TakeIntPrefix<E>(n: nat, width: nat, tail: seq<byte>, short: E)
    requires n < Span(width)
    ensures TakeInt(BigEndian(n, width) + tail, width, short) == Success((n, tail))
  {
    ValueOfBigEndian(n, width);
    assert (BigEndian(n, width) + tail)[..width] == BigEndian(n, width);
    assert (BigEndian(n, width) + tail)[width..] == tail;
  }

  /** All chunks, one after the other. */
  function Flatten(chunks: seq<seq<byte>>): seq<byte> {
    if chunks == [] then [] else chunks[0] + Flatten(chunks[1..])
  }

  /** All chunks, each after its length. */
  function Listed(chunks: seq<seq<byte>>): seq<byte> {
    if chunks == [] then [] else BigEndian(|chunks[0]|, 8) + chunks[0] + Listed(chunks[1..])
  }

  function TotalLength(chunks: seq<seq<byte>>): nat {
    if chunks == [] then 0 else |chunks[0]| + TotalLength(chunks[1..])
  }

  function Lengths(chunks: seq<seq<byte>>): (r: seq<nat>)
    ensures |r| == |chunks|
    ensures forall i :: 0 <= i < |r| ==> r[i] == |chunks[i]|
  {
    seq(|chunks|, i requires 0 <= i < |chunks| => |chunks[i]|)
  }

  function Sum(lengths: seq<nat>): nat {
    if lengths == [] then 0 else lengths[0] + Sum(lengths[1..])
  }

  /** The lengths as 32-bit big-endian integers. */
  function Table(lengths: seq<nat>): (r: seq<byte>)
    ensures |r| == 4 * |lengths|
  {
    if lengths == [] then [] else BigEndian(lengths[0], 4) + Table(lengths[1..])
  }

  lemma {:induction false} FlattenFacts(chunks: seq<seq<byte>>)
    ensures |Flatten(chunks)| == TotalLength(chunks)
    ensures TotalLength(chunks) == Sum(Lengths(chunks))
  {
    if chunks != [] {
      FlattenFacts(chunks[1..]);
      assert Lengths(chunks)[1..] == Lengths(chunks[1..]);
    }
  }

  lemma {:induction false} FlattenAppend(a: seq<seq<byte>>, b: seq<seq<byte>>)
    ensures Flatten(a + b) == Flatten(a) + Flatten(b)
    ensures TotalLength(a + b) == TotalLength(a) + TotalLength(b)
  {
    if a == [] {
      assert a + b == b;
    } else {
      assert (a + b)[1..] == a[1..] + b;
      FlattenAppend(a[1..], b);
    }
  }

  lemma {:induction false} TableAppend(a: seq<nat>, b: seq<nat>)
    ensures Table(a + b) == Table(a) + Table(b)
    ensures Sum(a + b) == Sum(a) + Sum(b)
  {
    if a == [] {
      assert a + b == b;
    } else {
      assert (a + b)[1..] == a[1..] + b;
      TableAppend(a[1..], b);
    }
  }

  /** Reads a length table, asking `check(length, running sum)` for each entry's error. */
  function ReadTable<E>(input: seq<byte>, count: nat, sum: nat, check: (nat, nat) -> Option<E>, short: E): (r: Result<seq<nat>, E>)
    ensures r.Success? ==> |r.value| == count && 4 * count <= |input|
  {
    if count == 0 then Success([])
    else if |input| < 4 then Failure(short)
    else
      var length := Value(input[..4]);
      match check(length, sum + length)
      case Some(e) => Failure(e)
      case None =>
        var rest :- ReadTable(input[4..], count - 1, sum + length, check, short);
        Success([length] + rest)
  }

  /** Every entry passes the check. */
  predicate Accepted<E>(lengths: seq<nat>, sum: nat, check: (nat, nat) -> Option<E>) {
    lengths == [] || (check(lengths[0], sum + lengths[0]).None? && Accepted(lengths[1..], sum + lengths[0], check))
  }

  lemma {:induction false} ReadTableOfTable<E>(lengths: seq<nat>, tail: seq<byte>, sum: nat, check: (nat, nat) -> Option<E>, short: E)
    requires forall i :: 0 <= i < |lengths| ==> lengths[i] < TWO_32
    requires Accepted(lengths, sum, check)
    ensures ReadTable(Table(lengths) + tail, |lengths|, sum, check, short) == Success(lengths)
  {
    hide BigEndian, Value, Span;
    if lengths != [] {
      SpanValues();
      ValueOfBigEndian(lengths[0], 4);
      var input := Table(lengths) + tail;
      assert input[..4] == BigEndian(lengths[0], 4);
      assert input[4..] == Table(lengths[1..]) + tail;
      ReadTableOfTable(lengths[1..], tail, sum + lengths[0], check, short);
      assert lengths == [lengths[0]] + lengths[1..];
    }
  }

  lemma {:induction false} TableOfReadTable<E>(input: seq<byte>, count: nat, sum: nat, check: (nat, nat) -> Option<E>, short: E)
    requires ReadTable(input, count, sum, check, short).Success?
    ensures var lengths := ReadTable(input, count, sum, check, short).value;
            && input[..4 * count] == Table(lengths)
            && Accepted(lengths, sum, check)
            && forall i :: 0 <= i < |lengths| ==> lengths[i] < TWO_32
  {
    hide BigEndian, Value, Span;
    if count > 0 {
      SpanValues();
      var length := Value(input[..4]);
      BigEndianOfValue(input[..4]);
      TableOfReadTable(input[4..], count - 1, sum + length, check, short);
      assert input[..4 * count] == input[..4] + input[4..][..4 * (count - 1)];
      var lengths := ReadTable(input, count, sum, check, short).value;
      assert lengths[1..] == ReadTable(input[4..], count - 1, sum + length, check, short).value;
    }
  }

  /** Cuts the payload into chunks of the given lengths. */
  function Split(payload: seq<byte>, lengths: seq<nat>): (r: seq<seq<byte>>)
    requires Sum(lengths) == |payload|
    ensures |r| == |lengths|
  {
    if lengths == [] then [] else [payload[..lengths[0]]] + Split(payload[lengths[0]..], lengths[1..])
  }

  lemma {:induction false} SplitOfFlatten(chunks: seq<seq<byte>>)
    ensures Sum(Lengths(chunks)) == |Flatten(chunks)|
    ensures Split(Flatten(chunks), Lengths(chunks)) == chunks
  {
    FlattenFacts(chunks);
    if chunks != [] {
      var payload := Flatten(chunks);
      assert Lengths(chunks)[1..] == Lengths(chunks[1..]);
      assert payload[..|chunks[0]|] == chunks[0];
      assert payload[|chunks[0]|..] == Flatten(chunks[1..]);
      SplitOfFlatten(chunks[1..]);
    }
  }

  lemma {:induction false} FlattenOfSplit(payload: seq<byte>, lengths: seq<nat>)
    requires Sum(lengths) == |payload|
    ensures Flatten(Split(payload, lengths)) == payload
    ensures Lengths(Split(payload, lengths)) == lengths
  {
    if lengths != [] {
      FlattenOfSplit(payload[lengths[0]..], lengths[1..]);
      var chunks := Split(payload, lengths);
      assert chunks[1..] == Split(payload[lengths[0]..], lengths[1..]);
      assert payload == payload[..lengths[0]] + payload[lengths[0]..];
      assert Lengths(chunks) == [lengths[0]] + Lengths(chunks[1..]);
    }
  }
}
