/** One client connection's fragment table, updated in place (src/server.rs:176-490). */
module Connections {
  import opened Wrappers
  import opened Bytes
  import opened Fragments

  class FragmentBatch {
    const totalSize: U64
    const chunks: array<Option<seq<byte>>>
    const deadline: nat
    var received: nat
    var receivedBytes: U64

    constructor (totalSize: U64, count: nat, deadline: nat)
      ensures fresh(chunks) && View() == Batch(totalSize, EmptySlots(count), 0, 0, deadline)
    {
      this.totalSize := totalSize;
      this.deadline := deadline;
      chunks := new Option<seq<byte>>[count](_ => None);
      received := 0;
      receivedBytes := 0;
      new;
      assert chunks[..] == EmptySlots(count);
    }

    function View(): Batch
      reads this, chunks
    {
      Batch(totalSize, chunks[..], received, receivedBytes, deadline)
    }

    /** Fills one slot. */
    method Fill(index: nat, fragment: seq<byte>, receivedBytes: U64)
      requires index < chunks.Length
      modifies this, chunks
      ensures var b := old(View());
              View() == b.(chunks := b.chunks[index := Some(fragment)], received := b.received + 1, receivedBytes := receivedBytes)
    {
      chunks[index] := Some(fragment);
      received := received + 1;
      this.receivedBytes := receivedBytes;
    }
  }

  class Connection {
    const config: Config
    var joined: set<Room>
    var fragments: map<FragmentKey, FragmentBatch>
    /** What the batches hold, and the objects they are made of. */
    ghost var contents: Table
    ghost var repr: set<object>

    constructor (config: Config)
      ensures this.config == config && Valid() && State() == Fragments.State({}, map[]) && fresh(repr)
    {
      this.config := config;
      joined := {};
      fragments := map[];
      contents := map[];
      repr := {};
      new;
      NothingReserved(contents);
    }

    ghost function State(): Fragments.State
      reads this
    {
      Fragments.State(joined, contents)
    }

    /** `contents` is what the batches hold, and no two batches share storage. */
    ghost predicate Linked()
      reads `fragments, `contents, `repr, repr
    {
      && this !in repr
      && contents.Keys == fragments.Keys
      && (forall k :: k in fragments ==>
            fragments[k] in repr && fragments[k].chunks in repr && fragments[k].View() == contents[k])
      && (forall j, k :: j in fragments && k in fragments && j != k ==>
            fragments[j] != fragments[k] && fragments[j].chunks != fragments[k].chunks)
    }

    /** Moreover the table is sound: counters, slots and limits. */
    ghost predicate Valid()
      reads this, repr
    {
      Linked() && TableSound(config, contents)
    }

    lemma SameKeys()
      requires Linked()
      ensures contents.Keys == fragments.Keys && this !in repr
    {
    }

    lemma Facts(key: FragmentKey)
      requires Linked()
      ensures contents.Keys == fragments.Keys && |contents| == |fragments|
      ensures key in contents <==> key in fragments
      ensures key in fragments ==>
                fragments[key] in repr && fragments[key].chunks in repr && fragments[key].View() == contents[key]
    {
      assert |contents| == |contents.Keys| && |fragments| == |fragments.Keys|;
    }

    method Insert(key: FragmentKey, totalSize: U64, count: nat, deadline: nat)
      requires Linked() && key !in fragments
      modifies this`fragments, this`contents, this`repr
      ensures Linked() && fresh(repr - old(repr))
      ensures contents == old(contents)[key := Batch(totalSize, EmptySlots(count), 0, 0, deadline)]
    {
      var batch := new FragmentBatch(totalSize, count, deadline);
      fragments := fragments[key := batch];
      contents := contents[key := batch.View()];
      repr := repr + {batch, batch.chunks};
    }

    method Remove(keys: set<FragmentKey>)
      requires Linked()
      modifies this`fragments, this`contents
      ensures Linked() && contents == old(contents) - keys
    {
      fragments := fragments - keys;
      contents := contents - keys;
    }

    /** Fills one empty slot of one batch. */
    method Fill(key: FragmentKey, index: nat, fragment: seq<byte>, receivedBytes: U64)
      requires Linked() && key in fragments && index < fragments[key].chunks.Length
      modifies this`contents, fragments[key], fragments[key].chunks
      ensures Linked()
      ensures var b := old(contents[key]);
              && index < |b.chunks|
              && contents == old(contents)[key :=
                   b.(chunks := b.chunks[index := Some(fragment)], received := b.received + 1, receivedBytes := receivedBytes)]
    {
      var batch := fragments[key];
      batch.Fill(index, fragment, receivedBytes);
      contents := contents[key := batch.View()];
    }

    /** Sums the announced sizes in map order; None on overflow. */
    method ReservedBytes() returns (sum: Option<U64>)
      requires Linked()
      ensures sum == if Reserved(contents) < TWO_64 then Some(Reserved(contents)) else None
    {
      hide SizeOf;
      ghost var t := contents;
      var rest := fragments.Keys;
      sum := Some(0);
      assert SizeOf({}, t) == 0 by { NothingReserved(t); }
      assert t.Keys - rest == {};
      while rest != {}
        invariant rest <= t.Keys == fragments.Keys
        invariant sum == if SizeOf(t.Keys - rest, t) < TWO_64 then Some(SizeOf(t.Keys - rest, t)) else None
        decreases |rest|
      {
        var k :| k in rest;
        ghost var done := t.Keys - (rest - {k});
        SizeOfWithout(done, t, k);
        assert done - {k} == t.Keys - rest;
        assert fragments[k].View() == t[k];
        var size: nat := fragments[k].totalSize;
        if sum.Some? {
          var next: nat := sum.value + size;
          sum := if next < TWO_64 then Some(next) else None;
        }
        rest := rest - {k};
      }
      assert t.Keys - rest == t.Keys;
    }

    method HandleHeader(loro: bool, key: FragmentKey, count: U64, totalSize: U64, now: nat) returns (r: Reaction)
      requires Valid()
      modifies this`fragments, this`contents, this`repr
      ensures Valid() && fresh(repr - old(repr))
      ensures (State(), r) == Step(config, old(State()), Header(loro, key, count, totalSize, now))
      ensures joined == old(joined)
      ensures if loro && key.room in joined then HeaderOutcome(config, old(contents), key, count, totalSize, now, contents, r)
              else r == Acked(PermissionDenied) && contents == old(contents)
    {
      hide Reserved, Linked, TableSound, HeaderOutcome;
      Facts(key);
      StepKeeps(config, State(), Header(loro, key, count, totalSize, now));
      HeaderOutcomeHolds(config, contents, key, count, totalSize, now);
      if !loro || key.room !in joined { return Acked(PermissionDenied); }
      if count == 0 || count > config.maxFragmentsPerBatch || totalSize == 0 || totalSize > config.maxReassembledBytes {
        return Acked(PayloadTooLarge);
      }
      if key in fragments {
        if fragments[key].totalSize == totalSize && fragments[key].chunks.Length == count { return Silent; }
        Remove({key});
        return Acked(InvalidUpdate);
      }
      if |fragments| >= config.maxFragmentBatches { return Acked(RateLimited); }
      var reserved := ReservedBytes();
      if reserved.None? || reserved.value + totalSize > config.maxFragmentBytesPerConnection {
        return Acked(PayloadTooLarge);
      }
      Insert(key, totalSize, count, now + config.fragmentTimeout);
      r := Silent;
    }

    method HandleFragment(loro: bool, key: FragmentKey, index: U64, fragment: seq<byte>) returns (r: Reaction)
      requires Valid()
      modifies this`fragments, this`contents, repr
      ensures Valid()
      ensures (State(), r) == Step(config, old(State()), Fragment(loro, key, index, fragment))
      ensures joined == old(joined)
      ensures if loro && key.room in joined then FragmentOutcome(old(contents), key, index, fragment, contents, r)
              else r == Acked(PermissionDenied) && contents == old(contents)
    {
      hide Linked, Completed, TableSound, FragmentOutcome;
      Facts(key);
      StepKeeps(config, State(), Fragment(loro, key, index, fragment));
      FragmentOutcomeHolds(config, contents, key, index, fragment);
      if !loro || key.room !in joined { return Acked(PermissionDenied); }
      if key !in fragments { return Acked(FragmentTimeout); }
      var batch := fragments[key];
      if index >= batch.chunks.Length { return Acked(InvalidUpdate); }
      if |fragment| >= TWO_64 {
        Remove({key});
        return Acked(PayloadTooLarge);
      }
      if batch.chunks[index].Some? {
        if batch.chunks[index].value != fragment {
          Remove({key});
          return Acked(InvalidUpdate);
        }
        return Silent;
      }
      var receivedBytes: nat := batch.receivedBytes + |fragment|;
      if receivedBytes >= TWO_64 {
        Remove({key});
        return Acked(PayloadTooLarge);
      }
      if receivedBytes > batch.totalSize {
        Remove({key});
        return Acked(InvalidUpdate);
      }
      r := Take(key, index, fragment, receivedBytes);
    }

    /** Stores one new fragment and finishes the batch if that was its last one. */
    method Take(key: FragmentKey, index: nat, fragment: seq<byte>, receivedBytes: U64) returns (r: Reaction)
      requires Linked() && key in fragments && index < fragments[key].chunks.Length
      modifies this`fragments, this`contents, fragments[key], fragments[key].chunks
      ensures Linked() && joined == old(joined)
      ensures var b := old(contents[key]);
              && index < |b.chunks|
              && var chunks := b.chunks[index := Some(fragment)];
              if b.received + 1 == |chunks| then contents == old(contents) - {key} && r == Completed(chunks, b.totalSize)
              else r == Silent
                   && contents == old(contents)[key := b.(chunks := chunks, received := b.received + 1, receivedBytes := receivedBytes)]
    {
      hide Linked, Completed;
      Facts(key);
      var batch := fragments[key];
      Fill(key, index, fragment, receivedBytes);
      Facts(key);
      ghost var stored := contents[key];
      assert batch.View() == stored;
      if batch.received == batch.chunks.Length {
        r := Complete(batch);
        ReplaceThenDrop(old(contents), key, stored);
        Remove({key});
      } else {
        r := Silent;
      }
    }

    /** Joins the slots of a finished batch. */
    method Complete(batch: FragmentBatch) returns (r: Reaction)
      ensures r == Completed(batch.chunks[..], batch.totalSize)
    {
      var update: seq<byte> := [];
      var slots := batch.chunks[..];
      assert slots[0..] == slots && forall rest: seq<byte> :: [] + rest == rest;
      for i := 0 to batch.chunks.Length
        invariant Assembled(slots) == match Assembled(slots[i..])
                                      case None => None
                                      case Some(rest) => Some(update + rest)
      {
        assert slots[i..][1..] == slots[i + 1..];
        var chunk := batch.chunks[i];
        if chunk.None? { return Silent; }
        ghost var joinedSoFar := update;
        update := update + chunk.value;
        assert forall rest: seq<byte> :: joinedSoFar + (chunk.value + rest) == update + rest;
      }
      assert update + [] == update;
      r := if |update| != batch.totalSize then Acked(InvalidUpdate) else Dispatched(update);
    }

    method HandleJoin(loro: bool, room: Room)
      requires Valid()
      modifies this`joined
      ensures Valid()
      ensures State() == Step(config, old(State()), Join(loro, room)).0
      ensures contents == old(contents) && joined == old(joined) + if loro then {room} else {}
    {
      if loro {
        joined := joined + {room};
      }
    }

    method HandleLeave(loro: bool, room: Room)
      requires Valid()
      modifies this`joined, this`fragments, this`contents
      ensures Valid()
      ensures State() == Step(config, old(State()), Leave(loro, room)).0
      ensures var leaves := loro && room in old(joined);
              && joined == old(joined) - (if leaves then {room} else {})
              && (forall k :: k in contents <==> k in old(contents) && !(leaves && k.room == room))
              && (forall k :: k in contents ==> contents[k] == old(contents)[k])
    {
      hide Linked, TableSound;
      SameKeys();
      StepKeeps(config, State(), Leave(loro, room));
      if loro && room in joined {
        joined := joined - {room};
        var left := set k | k in fragments && k.room == room;
        assert left == InRoom(contents, room);
        Remove(left);
      }
    }

    /** Drops every batch whose deadline has passed and tells the sender of each, once. */
    method ExpireFragments(now: nat) returns (timedOut: seq<FragmentKey>)
      requires Valid()
      modifies this`fragments, this`contents
      ensures Valid()
      ensures State() == Step(config, old(State()), Expire(now)).0
      ensures multiset(timedOut) == multiset(Expired(old(contents), now))
      ensures joined == old(joined)
      ensures ExactlyExpired(old(contents), now, contents, timedOut)
    {
      hide Linked, Expired, TableSound, ExactlyExpired;
      DropKeeps(config, contents, Expired(contents, now));
      ghost var t := contents;
      var expired := OverdueKeys(now);
      timedOut := DropEach(expired);
      ExpiredOnce(t, now, timedOut);
    }

    /** Drops the batches one by one, answering each. */
    method DropEach(expired: set<FragmentKey>) returns (timedOut: seq<FragmentKey>)
      requires Linked()
      modifies this`fragments, this`contents
      ensures Linked() && contents == old(contents) - expired
      ensures multiset(timedOut) == multiset(expired)
    {
      hide Linked;
      ghost var t := contents;
      timedOut := [];
      var rest := expired;
      assert t - {} == t && expired - rest == {};
      while rest != {}
        invariant rest <= expired && multiset(timedOut) == multiset(expired - rest)
        invariant Linked() && contents == t - (expired - rest)
        decreases |rest|
      {
        var key :| key in rest;
        Remove({key});
        DropOne(t, expired - rest, key);
        assert expired - (rest - {key}) == expired - rest + {key};
        timedOut := timedOut + [key];
        rest := rest - {key};
      }
      assert expired - rest == expired;
    }

    method OverdueKeys(now: nat) returns (expired: set<FragmentKey>)
      requires Linked()
      ensures expired == Expired(contents, now)
    {
      expired := set k | k in fragments && fragments[k].deadline <= now;
      assert forall k :: k in fragments ==> fragments[k].View() == contents[k];
    }
  }

  lemma ReplaceThenDrop(t: Table, key: FragmentKey, b: Batch)
    ensures t[key := b] - {key} == t - {key}
  {
  }

  lemma DropOne(t: Table, gone: set<FragmentKey>, key: FragmentKey)
    ensures t - gone - {key} == t - (gone + {key})
  {
  }

  /** The overdue batches are gone and listed once each; the others are as they were. */
  ghost predicate ExactlyExpired(t: Table, now: nat, t': Table, timedOut: seq<FragmentKey>) {
    && (forall k :: k in t' <==> k in t && t[k].deadline > now)
    && (forall k :: k in t' ==> t'[k] == t[k])
    && (forall k :: k in t && t[k].deadline <= now ==> multiset(timedOut)[k] == 1)
    && |timedOut| == |t| - |t'|
  }

  lemma ExpiredOnce(t: Table, now: nat, timedOut: seq<FragmentKey>)
    requires multiset(timedOut) == multiset(Expired(t, now))
    ensures ExactlyExpired(t, now, t - Expired(t, now), timedOut)
  {
    var gone := Expired(t, now);
    forall k | k in t && t[k].deadline <= now ensures multiset(timedOut)[k] == 1 {
      assert k in gone;
    }
    assert |multiset(timedOut)| == |timedOut| && |multiset(gone)| == |gone|;
    assert (t - gone).Keys == t.Keys - gone && gone <= t.Keys;
    assert |t - gone| == |(t - gone).Keys| && |t| == |t.Keys|;
    Apart(t.Keys, gone);
  }

  lemma Apart<T>(all: set<T>, gone: set<T>)
    requires gone <= all
    ensures |all - gone| == |all| - |gone|
  {
    assert all == (all - gone) + gone;
  }

  lemma NothingReserved(t: Table)
    ensures SizeOf({}, t) == 0
  {
  }
}
