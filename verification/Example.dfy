/** A concrete gateway: a library whose blobs spell out their operations, and constant hashes. */
module Example {
  import opened Wrappers
  import opened Bytes
  import opened Frame
  import opened Loro
  import opened Gateway

  function Unary(n: nat): seq<byte> {
    if n == 0 then [0] else [1] + Unary(n - 1)
  }

  function TakeUnary(s: seq<byte>): (r: Option<(nat, seq<byte>)>)
    ensures r.Some? ==> |r.value.1| < |s|
  {
    if s == [] then None
    else if s[0] == 0 then Some((0, s[1..]))
    else if s[0] != 1 then None
    else
      match TakeUnary(s[1..])
      case None => None
      case Some((n, rest)) => Some((n + 1, rest))
  }

  /** Every operation in unary, then an end mark. */
  ghost function Spelled(s: set<OpId>): seq<byte> {
    if s == {} then [2]
    else
      var o :| o in s;
      Unary(o.peer) + (Unary(o.counter) + Spelled(s - {o}))
  }

  function Read(b: seq<byte>): Option<set<OpId>>
    decreases |b|
  {
    if b == [2] then Some({})
    else
      match TakeUnary(b)
      case None => None
      case Some((peer, rest)) =>
        match TakeUnary(rest)
        case None => None
        case Some((counter, tail)) =>
          match Read(tail)
          case None => None
          case Some(more) => Some({OpId(peer, counter)} + more)
  }

  lemma {:induction false} UnaryReads(n: nat, tail: seq<byte>)
    ensures TakeUnary(Unary(n) + tail) == Some((n, tail))
    ensures Unary(n)[0] != 2
  {
    var s := Unary(n) + tail;
    if n > 0 {
      UnaryReads(n - 1, tail);
      assert s[1..] == Unary(n - 1) + tail;
    } else {
      assert s[1..] == tail;
    }
  }

  lemma {:induction false} SpelledReads(s: set<OpId>)
    ensures Read(Spelled(s)) == Some(s) && Spelled(s) != []
    decreases s
  {
    if s != {} {
      var o :| o in s && Spelled(s) == Unary(o.peer) + (Unary(o.counter) + Spelled(s - {o}));
      SpelledReads(s - {o});
      UnaryReads(o.peer, Unary(o.counter) + Spelled(s - {o}));
      UnaryReads(o.counter, Spelled(s - {o}));
      assert Spelled(s)[0] == Unary(o.peer)[0];
      assert {o} + (s - {o}) == s;
    }
  }

  ghost const LIBRARY: Library := Library(_ => {}, b => Read(b), _ => Some(Updates), s => Spelled(s))

  const ONES: Digest :=
    [1, 1, 1, 1, 1, 1, 1, 1, 1, 1, 1, 1, 1, 1, 1, 1, 1, 1, 1, 1, 1, 1, 1, 1, 1, 1, 1, 1, 1, 1, 1, 1]

  const PLATFORM: Platform := Platform(_ => 0, _ => ONES, _ => true)

  const NAMES: Names := Names([1], (_: nat) => [2], (boot: nat, _: nat) => [3] + Unary(boot))

  const WIDE: U64 := TWO_64 - 1

  /** A gateway with generous limits, except for the longest stream it reads back. */
  ghost function RoomWith(maxStreamBytes: U64): Gateway {
    Gateway(PLATFORM, LIBRARY, [7], NAMES, FrameLimits(WIDE, WIDE, WIDE, WIDE, WIDE, maxStreamBytes), 3)
  }

  ghost predicate Small(g: Gateway) {
    g == RoomWith(g.frameLimits.maxStreamBytes)
  }

  lemma SmallIsWellConfigured(g: Gateway)
    requires Small(g)
    ensures WellConfigured(g)
  {
    forall s: set<OpId> ensures LIBRARY.snapshotOf(s) != [] && LIBRARY.ops(LIBRARY.snapshotOf(s)) == Some(s) {
      SpelledReads(s);
    }
  }

  const FIRST: OpId := OpId(0, 0)
  const SECOND: OpId := OpId(1, 0)

  /** The blobs that carry one operation each. */
  lemma OneOperation(o: OpId)
    requires o == FIRST || o == SECOND
    ensures 0 < |Spelled({o})| <= 4 && Read(Spelled({o})) == Some({o})
  {
    SpelledReads({o});
    var p :| p in {o} && Spelled({o}) == Unary(p.peer) + (Unary(p.counter) + Spelled({o} - {p}));
    assert {o} - {p} == {};
    assert Unary(0) == [0];
    assert Unary(1) == [1] + Unary(0);
  }

  /** Without dependencies everything is applied. */
  lemma AllApplied(ops: set<OpId>)
    ensures DocOf(LIBRARY, ops) == Doc(ops, {})
  {
    hide Settle;
    AppliedIsCausalClosure(LIBRARY, ops);
    var d := DocOf(LIBRARY, ops);
    assert forall o :: o in ops ==> LIBRARY.deps(o) <= d.applied;
  }
}
