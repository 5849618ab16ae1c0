/** The loops all three codecs run over their output buffers and length tables. */
module Buffers {
  import opened Wrappers
  import opened Bytes

  method AppendTable(head: seq<byte>, lengths: seq<nat>) returns (output: seq<byte>)
    ensures output == head + Table(lengths)
  {
    hide BigEndian;
    output := head;
    for i := 0 to |lengths|
      invariant output + Table(lengths[i..]) == head + Table(lengths)
    {
      assert lengths[i..][1..] == lengths[i + 1..];
      ghost var before := output;
      output := output + BigEndian(lengths[i], 4);
      assert before + Table(lengths[i..]) == output + Table(lengths[i + 1..]);
    }
    assert output + [] == output;
  }

  method AppendChunks(head: seq<byte>, chunks: seq<seq<byte>>) returns (output: seq<byte>)
    ensures output == head + Flatten(chunks)
  {
    output := head;
    for i := 0 to |chunks|
      invariant output + Flatten(chunks[i..]) == head + Flatten(chunks)
    {
      assert chunks[i..][1..] == chunks[i + 1..];
      ghost var before := output;
      output := output + chunks[i];
      assert before + Flatten(chunks[i..]) == output + Flatten(chunks[i + 1..]);
    }
    assert output + [] == output;
  }

  function Prepend<E>(front: seq<nat>, r: Result<seq<nat>, E>): Result<seq<nat>, E> {
    match r
    case Failure(e) => Failure(e)
    case Success(more) => Success(front + more)
  }

  lemma PrependOne<E>(front: seq<nat>, n: nat, r: Result<seq<nat>, E>)
    ensures Prepend([], r) == r
    ensures Prepend(front, Prepend([n], r)) == Prepend(front + [n], r)
  {
    if r.Success? {
      assert [] + r.value == r.value;
      assert front + ([n] + r.value) == front + [n] + r.value;
    }
  }

  /** Reads `count` lengths at the cursor, with a running sum, stopping at the first refused entry. */
  method ReadLengths<E>(input: seq<byte>, start: nat, count: nat, check: (nat, nat) -> Option<E>, short: E)
    returns (r: Result<seq<nat>, E>, sum: nat)
    requires start <= |input|
    ensures r == ReadTable(input[start..], count, 0, check, short)
    ensures r.Success? ==> sum == Sum(r.value)
  {
    hide Value;
    ghost var whole := ReadTable(input[start..], count, 0, check, short);
    var cursor := start;
    var lengths: seq<nat> := [];
    sum := 0;
    PrependOne([], 0, whole);
    for i := 0 to count
      invariant cursor == start + 4 * i <= |input| && |lengths| == i && sum == Sum(lengths)
      invariant whole == Prepend(lengths, ReadTable(input[cursor..], count - i, sum, check, short))
    {
      if cursor + 4 > |input| { return Failure(short), sum; }
      var length := Value(input[cursor..cursor + 4]);
      assert input[cursor..][..4] == input[cursor..cursor + 4] && input[cursor..][4..] == input[cursor + 4..];
      var refused := check(length, sum + length);
      if refused.Some? { return Failure(refused.value), sum; }
      ghost var rest := ReadTable(input[cursor + 4..], count - i - 1, sum + length, check, short);
      assert ReadTable(input[cursor..], count - i, sum, check, short) == Prepend([length], rest);
      PrependOne(lengths, length, rest);
      TableAppend(lengths, [length]);
      assert Sum([length]) == length;
      cursor := cursor + 4;
      sum := sum + length;
      lengths := lengths + [length];
    }
    assert lengths + [] == lengths;
    r := Success(lengths);
  }

  method CutChunks(input: seq<byte>, start: nat, end: nat, lengths: seq<nat>) returns (chunks: seq<seq<byte>>)
    requires start <= end <= |input| && Sum(lengths) == end - start
    ensures chunks == Split(input[start..end], lengths)
  {
    var cursor := start;
    chunks := [];
    for i := 0 to |lengths|
      invariant start <= cursor <= end && cursor + Sum(lengths[i..]) == end
      invariant chunks + Split(input[cursor..end], lengths[i..]) == Split(input[start..end], lengths)
    {
      assert lengths[i..][1..] == lengths[i + 1..];
      ghost var rest, before := input[cursor..end], chunks;
      var chunk := input[cursor..cursor + lengths[i]];
      assert rest[..lengths[i]] == chunk && rest[lengths[i]..] == input[cursor + lengths[i]..end];
      cursor := cursor + lengths[i];
      chunks := chunks + [chunk];
      assert before + ([chunk] + Split(input[cursor..end], lengths[i + 1..]))
          == chunks + Split(input[cursor..end], lengths[i + 1..]);
    }
    assert chunks + [] == chunks;
  }
}
