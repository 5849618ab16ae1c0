/** Splitting an update into fragments and putting it together again undo each other. */
module Reassembly {
  import opened Wrappers
  import opened Bytes
  import opened Fragments

  /** The update cut into pieces of FRAGMENT_SIZE bytes, the last one possibly shorter. */
  function Chunks(update: seq<byte>): seq<seq<byte>> {
    if update == [] then []
    else if |update| <= FRAGMENT_SIZE then [update]
    else [update[..FRAGMENT_SIZE]] + Chunks(update[FRAGMENT_SIZE..])
  }

  lemma {:induction false} ChunksRejoin(update: seq<byte>)
    ensures Flatten(Chunks(update)) == update
    ensures TotalLength(Chunks(update)) == |update|
    ensures |Chunks(update)| == (|update| + FRAGMENT_SIZE - 1) / FRAGMENT_SIZE
    ensures forall i :: 0 <= i < |Chunks(update)| ==> 0 < |Chunks(update)[i]| <= FRAGMENT_SIZE
  {
    if |update| > FRAGMENT_SIZE {
      ChunksRejoin(update[FRAGMENT_SIZE..]);
      assert update == update[..FRAGMENT_SIZE] + update[FRAGMENT_SIZE..];
    } else if update != [] {
      assert Chunks(update)[1..] == [];
      assert update + [] == update;
    }
  }

  /** Piece i of n: 240 KiB from i times 240 KiB on, the last one as long as is left. */
  predicate Piece(update: seq<byte>, i: nat, n: nat, piece: seq<byte>) {
    && 245_760 * i < |update|
    && if i + 1 < n then 245_760 * (i + 1) <= |update| && piece == update[245_760 * i..245_760 * (i + 1)]
       else piece == update[245_760 * i..]
  }

  /** Chunk i starts at i times 240 KiB and is that long, unless it is the last. */
  lemma {:induction false} ChunkBounds(update: seq<byte>, i: nat)
    requires i < |Chunks(update)|
    ensures Piece(update, i, |Chunks(update)|, Chunks(update)[i])
  {
    if |update| > FRAGMENT_SIZE && i > 0 {
      var rest := update[FRAGMENT_SIZE..];
      ChunkBounds(rest, i - 1);
      assert Chunks(update)[i] == Chunks(rest)[i - 1];
    }
    ChunksRejoin(update);
  }

  // ---------------------------------------------------------------- the sender

  datatype Outgoing =
    | DocUpdate(updates: seq<seq<byte>>)
    | FragmentHeader(fragmentCount: nat, totalSizeBytes: nat)
    | DocUpdateFragment(index: nat, fragment: seq<byte>)

  /** A header with count and size, then piece after piece of 240 KiB with its index, the last one as long as is left. */
  predicate CutAt(update: seq<byte>, sent: seq<Outgoing>) {
    && |sent| > 1 && sent[0] == FragmentHeader(|sent| - 1, |update|)
    && 245_760 * (|sent| - 2) < |update| <= 245_760 * (|sent| - 1)
    && forall j :: 0 < j < |sent| ==>
         sent[j].DocUpdateFragment? && sent[j].index == j - 1 && Piece(update, j - 1, |sent| - 1, sent[j].fragment)
  }

  lemma ChunksCut(update: seq<byte>, sent: seq<Outgoing>)
    requires |update| > FRAGMENT_SIZE && |sent| == 1 + |Chunks(update)|
    requires sent[0] == FragmentHeader(|Chunks(update)|, |update|)
    requires forall i :: 0 <= i < |Chunks(update)| ==> sent[1 + i] == DocUpdateFragment(i, Chunks(update)[i])
    ensures CutAt(update, sent)
  {
    hide Chunks, Piece;
    ChunksRejoin(update);
    forall j | 0 < j < |sent|
      ensures sent[j].DocUpdateFragment? && sent[j].index == j - 1 && Piece(update, j - 1, |sent| - 1, sent[j].fragment)
    {
      ChunkBounds(update, j - 1);
      assert sent[1 + (j - 1)] == sent[j];
    }
  }

  /** A short update travels whole; a long one as a header and its chunks in order. */
  method SendUpdate(update: seq<byte>) returns (sent: seq<Outgoing>)
    ensures |update| <= FRAGMENT_SIZE ==> sent == [DocUpdate([update])]
    ensures |update| > FRAGMENT_SIZE ==>
              && |sent| == 1 + |Chunks(update)|
              && sent[0] == FragmentHeader(|Chunks(update)|, |update|)
              && forall i :: 0 <= i < |Chunks(update)| ==> sent[1 + i] == DocUpdateFragment(i, Chunks(update)[i])
    ensures |update| > 245_760 ==> |sent| == 1 + (|update| + 245_759) / 245_760 && CutAt(update, sent)
  {
    hide CutAt;
    if |update| <= FRAGMENT_SIZE { return [DocUpdate([update])]; }
    var count := (|update| + FRAGMENT_SIZE - 1) / FRAGMENT_SIZE;
    ChunksRejoin(update);
    sent := [FragmentHeader(count, |update|)];
    var rest, index: nat := update, 0;
    while rest != []
      invariant index + |Chunks(rest)| == |Chunks(update)| && Chunks(update)[index..] == Chunks(rest)
      invariant |sent| == 1 + index && sent[0] == FragmentHeader(count, |update|)
      invariant forall i :: 0 <= i < index ==> sent[1 + i] == DocUpdateFragment(i, Chunks(update)[i])
      decreases |rest|
    {
      var size := if |rest| < FRAGMENT_SIZE then |rest| else FRAGMENT_SIZE;
      assert Chunks(rest)[0] == rest[..size] && Chunks(rest)[1..] == Chunks(rest[size..]);
      assert Chunks(update)[index] == Chunks(rest)[0] && Chunks(update)[index + 1..] == Chunks(update)[index..][1..];
      sent := sent + [DocUpdateFragment(index, rest[..size])];
      rest, index := rest[size..], index + 1;
    }
    ChunksCut(update, sent);
  }

  // ---------------------------------------------------------------- slots

  /** Every filled slot holds the right part. */
  predicate Matches(chunks: seq<Option<seq<byte>>>, parts: seq<seq<byte>>) {
    |chunks| == |parts| && forall i :: 0 <= i < |chunks| ==> chunks[i].Some? ==> chunks[i].value == parts[i]
  }

  lemma {:induction false} MatchingBytes(chunks: seq<Option<seq<byte>>>, parts: seq<seq<byte>>)
    requires Matches(chunks, parts)
    ensures FilledBytes(chunks) <= TotalLength(parts)
  {
    if chunks != [] {
      MatchingBytes(chunks[1..], parts[1..]);
    }
  }

  // ---------------------------------------------------------------- the receiver

  /** A batch that has received exactly the parts in `have`, and not all of them. */
  ghost predicate Partial(b: Batch, parts: seq<seq<byte>>, have: set<nat>) {
    && b.totalSize == TotalLength(parts)
    && |b.chunks| == |parts|
    && (forall i: nat :: i < |parts| ==> b.chunks[i] == if i in have then Some(parts[i]) else None)
    && b.received == Filled(b.chunks) < |b.chunks|
    && b.receivedBytes == FilledBytes(b.chunks)
  }

  predicate Covers(have: set<nat>, n: nat) {
    forall i: nat :: i < n ==> i in have
  }

  /** Messages that leave this batch alone, repeat its header while it is open, or deliver one of its parts. */
  predicate Friendly(m: Message, key: FragmentKey, parts: seq<seq<byte>>, deadline: nat, open: bool) {
    match m
    case Header(loro, k, count, totalSize, _) =>
      k == key ==> !loro || (open && count == |parts| && totalSize == TotalLength(parts))
    case Fragment(loro, k, i, fragment) => k == key ==> loro && i < |parts| && fragment == parts[i]
    case Join(_, _) => true
    case Leave(loro, room) => loro ==> room != key.room
    case Expire(now) => now < deadline
  }

  predicate Delivers(m: Message, key: FragmentKey) {
    m.Fragment? && m.key == key
  }

  function Delivered(messages: seq<Message>, key: FragmentKey): set<nat> {
    if messages == [] then {}
    else (if Delivers(messages[0], key) then {messages[0].index} else {}) + Delivered(messages[1..], key)
  }

  /** Every message is friendly; the batch, with the parts in `have`, is open until none is missing. */
  predicate AllFriendly(messages: seq<Message>, key: FragmentKey, parts: seq<seq<byte>>, deadline: nat, have: set<nat>) {
    messages == []
    || (Friendly(messages[0], key, parts, deadline, !Covers(have, |parts|))
        && AllFriendly(messages[1..], key, parts, deadline, have + Delivered([messages[0]], key)))
  }

  lemma DeliveredOne(m: Message, key: FragmentKey)
    ensures Delivered([m], key) == if Delivers(m, key) then {m.index} else {}
  {
    assert [m][1..] == [];
  }

  /** The updates dispatched for one batch, in order. */
  ghost function Dispatches(c: Config, s: State, messages: seq<Message>, key: FragmentKey): seq<seq<byte>>
    decreases |messages|
  {
    if messages == [] then []
    else
      var (s', r) := Step(c, s, messages[0]);
      (if Delivers(messages[0], key) && r.Dispatched? then [r.update] else []) + Dispatches(c, s', messages[1..], key)
  }

  /** A message about something else changes neither the batch nor the membership. */
  lemma OthersLeaveAlone(c: Config, s: State, m: Message, key: FragmentKey, parts: seq<seq<byte>>, deadline: nat)
    requires Friendly(m, key, parts, deadline, key in s.table) && !Delivers(m, key)
    requires key.room in s.joined
    requires key in s.table ==>
               && s.table[key].deadline == deadline
               && s.table[key].totalSize == TotalLength(parts) && |s.table[key].chunks| == |parts|
    ensures var s' := Step(c, s, m).0;
            && key.room in s'.joined
            && (key in s'.table <==> key in s.table)
            && (key in s.table ==> s'.table[key] == s.table[key])
  {
    hide Reserved, Completed, TotalLength;
  }

  /** Delivering one part fills its slot, repeats it harmlessly, or completes the batch. */
  lemma DeliverOne(c: Config, s: State, m: Message, key: FragmentKey, parts: seq<seq<byte>>, have: set<nat>)
    requires key.room in s.joined && key in s.table && Partial(s.table[key], parts, have)
    requires Friendly(m, key, parts, s.table[key].deadline, true) && Delivers(m, key)
    ensures var (s', r) := Step(c, s, m);
            && s'.joined == s.joined
            && if Covers(have + {m.index}, |parts|) then r == Dispatched(Flatten(parts)) && key !in s'.table
               else r == Silent && key in s'.table && Partial(s'.table[key], parts, have + {m.index})
                    && s'.table[key].deadline == s.table[key].deadline
  {
    hide Flatten, TotalLength, FilledBytes, Filled;
    var b, i := s.table[key], m.index;
    FilledAll(b.chunks);
    FlattenFacts(parts);
    if b.chunks[i].None? {
      var filled := b.chunks[i := Some(parts[i])];
      FillOne(b.chunks, i, parts[i]);
      assert Matches(filled, parts);
      MatchingBytes(filled, parts);
      FilledAll(filled);
      FillsMore(b, parts, have, i);
      if Covers(have + {i}, |parts|) {
        AssembledFlat(filled, parts);
      }
    } else {
      assert have + {i} == have;
      PartFits(parts, i);
      var hole :| 0 <= hole < |b.chunks| && b.chunks[hole].None?;
      assert hole !in have;
    }
  }

  lemma {:induction false} PartFits(parts: seq<seq<byte>>, i: nat)
    requires i < |parts|
    ensures |parts[i]| <= TotalLength(parts)
  {
    if i > 0 {
      PartFits(parts[1..], i - 1);
    }
  }

  lemma FillsMore(b: Batch, parts: seq<seq<byte>>, have: set<nat>, i: nat)
    requires Partial(b, parts, have) && i < |parts|
    ensures var filled := b.chunks[i := Some(parts[i])];
            && (forall k: nat :: k < |parts| ==> filled[k] == if k in have + {i} then Some(parts[k]) else None)
            && (Covers(have + {i}, |parts|) <==> forall k :: 0 <= k < |filled| ==> filled[k].Some?)
  {
    hide Filled, FilledBytes, TotalLength;
    var filled := b.chunks[i := Some(parts[i])];
    if forall k :: 0 <= k < |filled| ==> filled[k].Some? {
      forall k: nat | k < |parts| ensures k in have + {i} {
        assert filled[k].Some?;
      }
    }
  }

  /** Once a batch is gone, late repeats dispatch nothing. */
  lemma {:induction false} LateRepeats(c: Config, s: State, messages: seq<Message>, key: FragmentKey, parts: seq<seq<byte>>, deadline: nat,
                                       have: set<nat>)
    requires key.room in s.joined && key !in s.table && Covers(have, |parts|) && AllFriendly(messages, key, parts, deadline, have)
    ensures Dispatches(c, s, messages, key) == [] && key !in After(c, s, messages).table
    decreases |messages|
  {
    hide OnHeader, Friendly;
    if messages != [] {
      var s' := Step(c, s, messages[0]).0;
      if !Delivers(messages[0], key) {
        OthersLeaveAlone(c, s, messages[0], key, parts, deadline);
      }
      LateRepeats(c, s', messages[1..], key, parts, deadline, have + Delivered([messages[0]], key));
    }
  }

  /** Parts delivered in any order, with repeats and other traffic in between, dispatch their join once, exactly when none is missing. */
  lemma {:induction false} AnyOrder(c: Config, s: State, messages: seq<Message>, key: FragmentKey, parts: seq<seq<byte>>, have: set<nat>)
    requires key.room in s.joined && key in s.table && Partial(s.table[key], parts, have)
    requires AllFriendly(messages, key, parts, s.table[key].deadline, have)
    ensures var got := have + Delivered(messages, key);
            var last := After(c, s, messages);
            if Covers(got, |parts|) then Dispatches(c, s, messages, key) == [Flatten(parts)] && key !in last.table
            else Dispatches(c, s, messages, key) == [] && key in last.table && Partial(last.table[key], parts, got)
    decreases |messages|
  {
    hide Step, Friendly, Partial, Flatten;
    if messages == [] {
      assert have + {} == have;
      NotYetCovered(s.table[key], parts, have);
    } else {
      var m, deadline := messages[0], s.table[key].deadline;
      var s' := Step(c, s, m).0;
      NotYetCovered(s.table[key], parts, have);
      PartialSizes(s.table[key], parts, have);
      DeliveredOne(m, key);
      if !Delivers(m, key) {
        assert have + {} == have;
        OthersLeaveAlone(c, s, m, key, parts, deadline);
        AnyOrder(c, s', messages[1..], key, parts, have);
        assert Delivered(messages, key) == Delivered(messages[1..], key);
        assert Dispatches(c, s, messages, key) == [] + Dispatches(c, s', messages[1..], key);
      } else {
        DeliverOne(c, s, m, key, parts, have);
        assert have + {m.index} + Delivered(messages[1..], key) == have + Delivered(messages, key);
        if Covers(have + {m.index}, |parts|) {
          LateRepeats(c, s', messages[1..], key, parts, deadline, have + {m.index});
        } else {
          AnyOrder(c, s', messages[1..], key, parts, have + {m.index});
        }
      }
    }
  }

  lemma PartialSizes(b: Batch, parts: seq<seq<byte>>, have: set<nat>)
    requires Partial(b, parts, have)
    ensures b.totalSize == TotalLength(parts) && |b.chunks| == |parts|
  {
    hide Filled, FilledBytes, TotalLength;
  }

  lemma NotYetCovered(b: Batch, parts: seq<seq<byte>>, have: set<nat>)
    requires Partial(b, parts, have)
    ensures !Covers(have, |parts|)
  {
    hide FilledBytes, TotalLength;
    FilledAll(b.chunks);
    var hole :| 0 <= hole < |b.chunks| && b.chunks[hole].None?;
    assert hole !in have;
  }

  /** The table has room for this update. */
  ghost predicate Admits(c: Config, s: State, key: FragmentKey, update: seq<byte>) {
    && key.room in s.joined && key !in s.table
    && 0 < |update| <= c.maxReassembledBytes && |Chunks(update)| <= c.maxFragmentsPerBatch
    && |s.table| < c.maxFragmentBatches && Reserved(s.table) + |update| <= c.maxFragmentBytesPerConnection
  }

  /**
   After the header, the sender's fragments in any order, with repeats of either and other traffic
   in between and before the deadline, dispatch exactly the original update, once, if every one of
   them arrives, and nothing otherwise.
   */
  lemma FragmentsRejoin(c: Config, s: State, update: seq<byte>, key: FragmentKey, now: nat, messages: seq<Message>)
    requires Admits(c, s, key, update)
    requires AllFriendly(messages, key, Chunks(update), now + c.fragmentTimeout, {})
    ensures var header := Header(true, key, |Chunks(update)|, |update|, now);
            && Step(c, s, header).1 == Silent
            && Dispatches(c, s, [header] + messages, key)
               == if Covers(Delivered(messages, key), |Chunks(update)|) then [update] else []
  {
    hide Chunks, Friendly, AllFriendly, Flatten, TotalLength, Reserved, Delivered, Filled, FilledBytes;
    ChunksRejoin(update);
    var parts := Chunks(update);
    var header := Header(true, key, |parts|, |update|, now);
    var s' := Step(c, s, header).0;
    NothingFilled(|parts|);
    assert Partial(s'.table[key], parts, {});
    AnyOrder(c, s', messages, key, parts, {});
    assert {} + Delivered(messages, key) == Delivered(messages, key);
    var all := [header] + messages;
    assert all[1..] == messages;
    assert Dispatches(c, s, all, key) == [] + Dispatches(c, s', messages, key);
  }
}
