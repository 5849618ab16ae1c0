/**
 Fragmented updates: how the gateway splits a long update (src/actor.rs:1227-1265) and how a
 connection puts one together again (src/server.rs:228-447, 472-490).
 */
module Fragments {
  import opened Wrappers
  import opened Bytes
  import opened Layout

  type Room = seq<byte>

  const FRAGMENT_SIZE: nat := 240 * 1024

  datatype Config = Config(
    maxFragmentBatches: nat,
    maxFragmentsPerBatch: U64,
    maxReassembledBytes: U64,
    maxFragmentBytesPerConnection: U64,
    fragmentTimeout: nat
  )

  datatype FragmentKey = FragmentKey(room: Room, batchId: BatchId)

  datatype Batch = Batch(totalSize: U64, chunks: seq<Option<seq<byte>>>, received: nat, receivedBytes: U64, deadline: nat)

  type Table = map<FragmentKey, Batch>

  datatype Status = PermissionDenied | PayloadTooLarge | InvalidUpdate | RateLimited | FragmentTimeout

  /** What a message makes the connection do: nothing, answer the sender, or pass a whole update to the room. */
  datatype Reaction = Silent | Acked(status: Status) | Dispatched(update: seq<byte>)

  datatype Message =
    | Header(loro: bool, key: FragmentKey, count: U64, totalSize: U64, now: nat)
    | Fragment(loro: bool, key: FragmentKey, index: U64, fragment: seq<byte>)
    | Join(loro: bool, room: Room)
    | Leave(loro: bool, room: Room)
    | Expire(now: nat)

  datatype State = State(joined: set<Room>, table: Table)

  // ---------------------------------------------------------------- sums over the table

  /** Total size of the batches under the given keys. */
  ghost function SizeOf(keys: set<FragmentKey>, t: Table): nat
    requires keys <= t.Keys
  {
    if keys == {} then 0
    else
      var k :| k in keys;
      t[k].totalSize + SizeOf(keys - {k}, t)
  }

  ghost function Reserved(t: Table): nat {
    SizeOf(t.Keys, t)
  }

  lemma {:induction false} SizeOfWithout(keys: set<FragmentKey>, t: Table, k: FragmentKey)
    requires keys <= t.Keys && k in keys
    ensures SizeOf(keys, t) == t[k].totalSize + SizeOf(keys - {k}, t)
    decreases keys
  {
    var m :| m in keys && SizeOf(keys, t) == t[m].totalSize + SizeOf(keys - {m}, t);
    if m != k {
      SizeOfWithout(keys - {m}, t, k);
      SizeOfWithout(keys - {k}, t, m);
      assert keys - {m} - {k} == keys - {k} - {m};
    }
  }

  /** Only the total sizes under the keys matter. */
  lemma {:induction false} SizeOfSame(keys: set<FragmentKey>, t: Table, t': Table)
    requires keys <= t.Keys && keys <= t'.Keys
    requires forall k :: k in keys ==> t'[k].totalSize == t[k].totalSize
    ensures SizeOf(keys, t') == SizeOf(keys, t)
    decreases keys
  {
    if keys != {} {
      var k :| k in keys;
      SizeOfSame(keys - {k}, t, t');
      SizeOfWithout(keys, t, k);
      SizeOfWithout(keys, t', k);
    }
  }

  lemma {:induction false} SizeOfSubset(keys: set<FragmentKey>, more: set<FragmentKey>, t: Table)
    requires keys <= more <= t.Keys
    ensures SizeOf(keys, t) <= SizeOf(more, t)
    decreases more
  {
    if k :| k in more && k !in keys {
      SizeOfWithout(more, t, k);
      SizeOfSubset(keys, more - {k}, t);
    } else {
      assert keys == more;
    }
  }

  // ---------------------------------------------------------------- what each message does

  /** All slots joined; None while one is empty. */
  function Assembled(chunks: seq<Option<seq<byte>>>): Option<seq<byte>> {
    if chunks == [] then Some([])
    else if chunks[0].None? then None
    else
      match Assembled(chunks[1..])
      case None => None
      case Some(rest) => Some(chunks[0].value + rest)
  }

  function EmptySlots(count: nat): (r: seq<Option<seq<byte>>>)
    ensures |r| == count
  {
    seq(count, _ => None)
  }

  ghost function OnHeader(c: Config, t: Table, key: FragmentKey, count: U64, totalSize: U64, now: nat): (Table, Reaction) {
    if count == 0 || count > c.maxFragmentsPerBatch || totalSize == 0 || totalSize > c.maxReassembledBytes then
      (t, Acked(PayloadTooLarge))
    else if key in t then
      if t[key].totalSize == totalSize && |t[key].chunks| == count then (t, Silent) else (t - {key}, Acked(InvalidUpdate))
    else if |t| >= c.maxFragmentBatches then (t, Acked(RateLimited))
    else if Reserved(t) + totalSize > c.maxFragmentBytesPerConnection then (t, Acked(PayloadTooLarge))
    else (t[key := Batch(totalSize, EmptySlots(count), 0, 0, now + c.fragmentTimeout)], Silent)
  }

  function OnFragment(t: Table, key: FragmentKey, index: U64, fragment: seq<byte>): (Table, Reaction) {
    if key !in t then (t, Acked(FragmentTimeout)) else
    var b := t[key];
    if index >= |b.chunks| then (t, Acked(InvalidUpdate))
    else if |fragment| >= TWO_64 then (t - {key}, Acked(PayloadTooLarge))
    else if b.chunks[index].Some? then
      if b.chunks[index].value != fragment then (t - {key}, Acked(InvalidUpdate)) else (t, Silent)
    else if b.receivedBytes + |fragment| >= TWO_64 then (t - {key}, Acked(PayloadTooLarge))
    else if b.receivedBytes + |fragment| > b.totalSize then (t - {key}, Acked(InvalidUpdate))
    else
      var chunks := b.chunks[index := Some(fragment)];
      if b.received + 1 == |chunks| then (t - {key}, Completed(chunks, b.totalSize))
      else (t[key := b.(chunks := chunks, received := b.received + 1, receivedBytes := b.receivedBytes + |fragment|)], Silent)
  }

  function Completed(chunks: seq<Option<seq<byte>>>, totalSize: nat): Reaction {
    match Assembled(chunks)
    case None => Silent
    case Some(update) => if |update| != totalSize then Acked(InvalidUpdate) else Dispatched(update)
  }

  function Expired(t: Table, now: nat): set<FragmentKey> {
    set k | k in t && t[k].deadline <= now
  }

  function InRoom(t: Table, room: Room): set<FragmentKey> {
    set k | k in t && k.room == room
  }

  /** One message; expiry answers every expired batch, which is a list of its own (see Connection.ExpireFragments). */
  ghost function Step(c: Config, s: State, m: Message): (State, Reaction) {
    match m
    case Header(loro, key, count, totalSize, now) =>
      if !loro || key.room !in s.joined then (s, Acked(PermissionDenied))
      else var (t, r) := OnHeader(c, s.table, key, count, totalSize, now); (s.(table := t), r)
    case Fragment(loro, key, index, fragment) =>
      if !loro || key.room !in s.joined then (s, Acked(PermissionDenied))
      else var (t, r) := OnFragment(s.table, key, index, fragment); (s.(table := t), r)
    case Join(loro, room) => (if loro then s.(joined := s.joined + {room}) else s, Silent)
    case Leave(loro, room) =>
      if loro && room in s.joined then (State(s.joined - {room}, s.table - InRoom(s.table, room)), Silent) else (s, Silent)
    case Expire(now) => (s.(table := s.table - Expired(s.table, now)), Silent)
  }

  // ---------------------------------------------------------------- table invariant

  function Filled(chunks: seq<Option<seq<byte>>>): nat {
    if chunks == [] then 0 else (if chunks[0].Some? then 1 else 0) + Filled(chunks[1..])
  }

  function FilledBytes(chunks: seq<Option<seq<byte>>>): nat {
    if chunks == [] then 0 else (if chunks[0].Some? then |chunks[0].value| else 0) + FilledBytes(chunks[1..])
  }

  /** The counters say what the slots hold, at least one slot is empty, and nothing exceeds the announced size. */
  predicate BatchSound(c: Config, b: Batch) {
    && b.received == Filled(b.chunks) < |b.chunks| <= c.maxFragmentsPerBatch
    && b.receivedBytes == FilledBytes(b.chunks) <= b.totalSize
    && 0 < b.totalSize <= c.maxReassembledBytes
  }

  ghost predicate TableSound(c: Config, t: Table) {
    && |t| <= c.maxFragmentBatches
    && Reserved(t) <= c.maxFragmentBytesPerConnection
    && forall k :: k in t ==> BatchSound(c, t[k])
  }

  lemma {:induction false} NothingFilled(count: nat)
    ensures Filled(EmptySlots(count)) == 0 && FilledBytes(EmptySlots(count)) == 0
  {
    if count > 0 {
      assert EmptySlots(count)[1..] == EmptySlots(count - 1);
      NothingFilled(count - 1);
    }
  }

  lemma {:induction false} FillOne(chunks: seq<Option<seq<byte>>>, i: nat, fragment: seq<byte>)
    requires i < |chunks| && chunks[i].None?
    ensures var filled := chunks[i := Some(fragment)];
            Filled(filled) == Filled(chunks) + 1 && FilledBytes(filled) == FilledBytes(chunks) + |fragment|
  {
    var filled := chunks[i := Some(fragment)];
    if i == 0 {
      assert filled[1..] == chunks[1..];
    } else {
      assert filled[1..] == chunks[1..][i - 1 := Some(fragment)];
      FillOne(chunks[1..], i - 1, fragment);
    }
  }

  lemma {:induction false} FilledAll(chunks: seq<Option<seq<byte>>>)
    ensures Filled(chunks) <= |chunks|
    ensures Filled(chunks) == |chunks| <==> forall i :: 0 <= i < |chunks| ==> chunks[i].Some?
  {
    if chunks != [] {
      FilledAll(chunks[1..]);
      assert chunks == [chunks[0]] + chunks[1..];
    }
  }

  /** Dropping batches keeps the table sound. */
  lemma DropKeeps(c: Config, t: Table, gone: set<FragmentKey>)
    requires TableSound(c, t)
    ensures TableSound(c, t - gone)
  {
    hide BatchSound;
    var rest := t - gone;
    assert rest.Keys == t.Keys - gone;
    SizeOfSame(rest.Keys, t, rest);
    SizeOfSubset(rest.Keys, t.Keys, t);
    SmallerSet(rest.Keys, t.Keys);
    assert |rest| == |rest.Keys| && |t| == |t.Keys|;
  }

  lemma {:induction false} SmallerSet<T>(a: set<T>, b: set<T>)
    requires a <= b
    ensures |a| <= |b|
  {
    if a != {} {
      var x :| x in a;
      SmallerSet(a - {x}, b - {x});
    }
  }

  lemma InsertKeeps(c: Config, t: Table, key: FragmentKey, b: Batch)
    requires TableSound(c, t) && BatchSound(c, b) && key !in t
    requires |t| < c.maxFragmentBatches && Reserved(t) + b.totalSize <= c.maxFragmentBytesPerConnection
    ensures TableSound(c, t[key := b])
  {
    hide BatchSound, SizeOf;
    var t' := t[key := b];
    assert t'.Keys == t.Keys + {key} && t'.Keys - {key} == t.Keys;
    SizeOfSame(t.Keys, t, t');
    SizeOfWithout(t'.Keys, t', key);
    assert |t'| == |t'.Keys| == |t.Keys| + 1;
  }

  lemma HeaderKeeps(c: Config, t: Table, key: FragmentKey, count: U64, totalSize: U64, now: nat)
    requires TableSound(c, t)
    ensures TableSound(c, OnHeader(c, t, key, count, totalSize, now).0)
  {
    hide TableSound, Reserved;
    DropKeeps(c, t, {key});
    var t' := OnHeader(c, t, key, count, totalSize, now).0;
    if key !in t && key in t' {
      NothingFilled(count);
      InsertKeeps(c, t, key, t'[key]);
    }
  }

  lemma ReplaceKeeps(c: Config, t: Table, key: FragmentKey, b: Batch)
    requires TableSound(c, t) && key in t && BatchSound(c, b) && b.totalSize == t[key].totalSize
    ensures TableSound(c, t[key := b])
  {
    hide BatchSound, SizeOf;
    var t' := t[key := b];
    assert t'.Keys == t.Keys;
    SizeOfSame(t.Keys, t, t');
    assert |t'| == |t'.Keys| == |t.Keys| == |t|;
  }

  lemma FragmentKeeps(c: Config, t: Table, key: FragmentKey, index: U64, fragment: seq<byte>)
    requires TableSound(c, t)
    ensures TableSound(c, OnFragment(t, key, index, fragment).0)
  {
    hide TableSound, Completed;
    DropKeeps(c, t, {key});
    var t' := OnFragment(t, key, index, fragment).0;
    if key in t && key in t' && t' != t {
      BatchIsSound(c, t, key);
      FillOne(t[key].chunks, index, fragment);
      FilledAll(t'[key].chunks);
      ReplaceKeeps(c, t, key, t'[key]);
    }
  }

  lemma BatchIsSound(c: Config, t: Table, key: FragmentKey)
    requires TableSound(c, t) && key in t
    ensures BatchSound(c, t[key])
  {
  }

  /** The table invariant survives every message. */
  lemma StepKeeps(c: Config, s: State, m: Message)
    requires TableSound(c, s.table)
    ensures TableSound(c, Step(c, s, m).0.table)
  {
    hide TableSound, OnHeader, OnFragment;
    match m
    case Header(_, key, count, totalSize, now) => HeaderKeeps(c, s.table, key, count, totalSize, now);
    case Fragment(_, key, index, fragment) => FragmentKeeps(c, s.table, key, index, fragment);
    case Join(_, _) =>
    case Leave(_, room) => DropKeeps(c, s.table, InRoom(s.table, room));
    case Expire(now) => DropKeeps(c, s.table, Expired(s.table, now));
  }

  // ---------------------------------------------------------------- outcomes, slot by slot

  /** A new batch: the announced size, so many empty slots, and a deadline. */
  predicate Opened(b: Batch, count: nat, totalSize: nat, deadline: nat) {
    && b.totalSize == totalSize && b.deadline == deadline
    && |b.chunks| == count && forall i :: 0 <= i < count ==> b.chunks[i].None?
  }

  /**
   What a header of a joined room does to the table. A batch is opened exactly if count and size are
   within the limits, the key is new and both batches and bytes leave room for it; an open batch is
   dropped exactly if the header repeats its key with another size or count; nothing else changes.
   */
  ghost predicate HeaderOutcome(c: Config, t: Table, key: FragmentKey, count: U64, totalSize: U64, now: nat, t': Table, r: Reaction) {
    var allowed := 0 < count <= c.maxFragmentsPerBatch && 0 < totalSize <= c.maxReassembledBytes;
    && t' - {key} == t - {key}
    && (key !in t && key in t' <==>
          allowed && key !in t && |t| < c.maxFragmentBatches && Reserved(t) + totalSize <= c.maxFragmentBytesPerConnection)
    && (key !in t && key in t' ==> r == Silent && Opened(t'[key], count, totalSize, now + c.fragmentTimeout))
    && (key in t && key in t' ==> t'[key] == t[key])
    && (key in t && key !in t' <==> allowed && key in t && !(t[key].totalSize == totalSize && |t[key].chunks| == count))
    && (r == Acked(InvalidUpdate) <==> key in t && key !in t')
    && (r == Acked(RateLimited) <==> allowed && key !in t && |t| >= c.maxFragmentBatches)
    && (r == Acked(PayloadTooLarge) <==>
          !allowed || (key !in t && |t| < c.maxFragmentBatches && Reserved(t) + totalSize > c.maxFragmentBytesPerConnection))
    && (r == Silent || r == Acked(InvalidUpdate) || r == Acked(RateLimited) || r == Acked(PayloadTooLarge))
  }

  lemma HeaderOutcomeHolds(c: Config, t: Table, key: FragmentKey, count: U64, totalSize: U64, now: nat)
    ensures var (t', r) := OnHeader(c, t, key, count, totalSize, now); HeaderOutcome(c, t, key, count, totalSize, now, t', r)
  {
    hide Reserved;
  }

  /** Every slot but this one is filled. */
  predicate OthersFilled(b: Batch, index: nat) {
    index < |b.chunks| && forall i :: 0 <= i < |b.chunks| && i != index ==> b.chunks[i].Some?
  }

  /** The slots of a batch whose last fragment this is. */
  function Parts(b: Batch, index: nat, fragment: seq<byte>): (parts: seq<seq<byte>>)
    requires OthersFilled(b, index)
    ensures |parts| == |b.chunks|
  {
    seq(|b.chunks|, i requires 0 <= i < |b.chunks| => if i == index then fragment else b.chunks[i].value)
  }

  /**
   The last fragment of a batch: the batch is dropped, and the update passed on is all slots in order
   and as long as announced; slots that add up to any other length are refused.
   */
  predicate Finished(b: Batch, index: nat, fragment: seq<byte>, r: Reaction)
    requires OthersFilled(b, index)
  {
    var parts := Parts(b, index, fragment);
    if Before(parts, |parts|) == b.totalSize then
      r.Dispatched? && |r.update| == b.totalSize && ChunksAt(r.update, 0, parts)
    else r == Acked(InvalidUpdate)
  }

  /** What a fragment of a joined room does to the table, slot by slot. */
  predicate FragmentOutcome(t: Table, key: FragmentKey, index: nat, fragment: seq<byte>, t': Table, r: Reaction) {
    if key !in t then t' == t && r == Acked(FragmentTimeout)
    else
      var b := t[key];
      if index >= |b.chunks| then t' == t && r == Acked(InvalidUpdate)
      else if |fragment| >= TWO_64 then t' == t - {key} && r == Acked(PayloadTooLarge)
      else if b.chunks[index] == Some(fragment) then t' == t && r == Silent
      else if b.chunks[index].Some? then t' == t - {key} && r == Acked(InvalidUpdate)
      else if FilledBytes(b.chunks) + |fragment| > b.totalSize then
        t' == t - {key} && r == Acked(if FilledBytes(b.chunks) + |fragment| < TWO_64 then InvalidUpdate else PayloadTooLarge)
      else if OthersFilled(b, index) then t' == t - {key} && Finished(b, index, fragment, r)
      else
        && t'.Keys == t.Keys && t' - {key} == t - {key} && r == Silent
        && t'[key].chunks == b.chunks[index := Some(fragment)]
        && t'[key].totalSize == b.totalSize && t'[key].deadline == b.deadline
  }

  /** The counter reaches the number of slots with this fragment exactly if every other slot is filled. */
  lemma LastSlot(b: Batch, index: nat, fragment: seq<byte>)
    requires index < |b.chunks| && b.chunks[index].None?
    ensures Filled(b.chunks) + 1 == |b.chunks| <==> OthersFilled(b, index)
  {
    hide Filled;
    var filled := b.chunks[index := Some(fragment)];
    FillOne(b.chunks, index, fragment);
    FilledAll(filled);
    if OthersFilled(b, index) {
      forall i | 0 <= i < |filled| ensures filled[i].Some? { }
    }
    if forall i :: 0 <= i < |filled| ==> filled[i].Some? {
      forall i | 0 <= i < |b.chunks| && i != index ensures b.chunks[i].Some? {
        assert filled[i] == b.chunks[i];
      }
    }
  }

  lemma {:induction false} AssembledFlat(chunks: seq<Option<seq<byte>>>, parts: seq<seq<byte>>)
    requires |parts| == |chunks| && forall i :: 0 <= i < |chunks| ==> chunks[i] == Some(parts[i])
    ensures Assembled(chunks) == Some(Flatten(parts))
  {
    if chunks != [] {
      AssembledFlat(chunks[1..], parts[1..]);
    }
  }

  lemma CompletedFinishes(b: Batch, index: nat, fragment: seq<byte>)
    requires OthersFilled(b, index)
    ensures Finished(b, index, fragment, Completed(b.chunks[index := Some(fragment)], b.totalSize))
  {
    var parts := Parts(b, index, fragment);
    AssembledFlat(b.chunks[index := Some(fragment)], parts);
    FlattenFacts(parts);
    BeforeAll(parts);
    ChunksLaid(Flatten(parts), 0, parts);
  }

  /** In a sound table the fragment step does what its slots say. */
  lemma FragmentOutcomeHolds(c: Config, t: Table, key: FragmentKey, index: U64, fragment: seq<byte>)
    requires TableSound(c, t)
    ensures var (t', r) := OnFragment(t, key, index, fragment); FragmentOutcome(t, key, index, fragment, t', r)
  {
    hide TableSound, Completed, Finished, Filled, FilledBytes, OthersFilled;
    if key in t && index < |t[key].chunks| && t[key].chunks[index].None? {
      BatchIsSound(c, t, key);
      LastSlot(t[key], index, fragment);
      if OthersFilled(t[key], index) {
        CompletedFinishes(t[key], index, fragment);
      }
    }
  }

  ghost function After(c: Config, s: State, messages: seq<Message>): State
    decreases |messages|
  {
    if messages == [] then s else After(c, Step(c, s, messages[0]).0, messages[1..])
  }

  ghost function BytesUnder(keys: set<FragmentKey>, t: Table): nat
    requires keys <= t.Keys
    decreases keys
  {
    if keys == {} then 0
    else
      var k :| k in keys;
      FilledBytes(t[k].chunks) + BytesUnder(keys - {k}, t)
  }

  /** All the fragment bytes a connection holds. */
  ghost function Buffered(t: Table): nat {
    BytesUnder(t.Keys, t)
  }

  lemma {:induction false} BytesBelowSizes(c: Config, keys: set<FragmentKey>, t: Table)
    requires keys <= t.Keys && forall k :: k in keys ==> BatchSound(c, t[k])
    ensures BytesUnder(keys, t) <= SizeOf(keys, t)
    decreases keys
  {
    if keys != {} {
      var k :| k in keys && BytesUnder(keys, t) == FilledBytes(t[k].chunks) + BytesUnder(keys - {k}, t);
      SizeOfWithout(keys, t, k);
      BytesBelowSizes(c, keys - {k}, t);
    }
  }

  /** Whatever a client sends, the table stays sound and the buffered bytes stay within the connection's limit. */
  lemma {:induction false} BufferedIsBounded(c: Config, s: State, messages: seq<Message>)
    requires TableSound(c, s.table)
    ensures TableSound(c, After(c, s, messages).table)
    ensures Buffered(After(c, s, messages).table) <= c.maxFragmentBytesPerConnection
    decreases |messages|
  {
    hide Step, BatchSound;
    if messages == [] {
      BytesBelowSizes(c, s.table.Keys, s.table);
    } else {
      StepKeeps(c, s, messages[0]);
      BufferedIsBounded(c, Step(c, s, messages[0]).0, messages[1..]);
    }
  }
}
