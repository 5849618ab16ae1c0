/**
 The append-only store at its trait contract (src/ursula.rs:54-76): streams of bytes, and per
 stream and producer the last committed sequence with the offset after it. A script of faults
 decides, call by call, whether a request or its reply is lost or refused. A crash of the
 gateway is a script whose remaining calls all fail, followed by a restart.
 */
module Store {
  import opened Wrappers
  import opened Bytes
  import opened Frame

  /** One room's streams; the generation is part of the name, so names are never reused. */
  datatype StreamKey = ManifestStream | CheckpointStream(generation: nat) | DeltaStream(generation: nat)

  /** Offsets into a stream are 64 bits wide. */
  type Stored = s: seq<byte> | |s| < TWO_64 witness []

  datatype Mark = Mark(sequence: nat, nextOffset: U64)

  datatype Durable = Durable(
    streams: map<StreamKey, Stored>,
    producers: map<(StreamKey, seq<byte>), Mark>
  )

  datatype AppendOutcome = Committed(nextOffset: U64) | Duplicate(nextOffset: U64)

  datatype RejectionKind =
    Invalid | PermissionDenied | NotFound | Conflict | PayloadTooLarge | RateLimited | Unsupported | Other

  datatype StoreError =
    | Ambiguous(message: string)
    | Rejected(kind: RejectionKind, message: string)
    | Integrity(message: string)

  function Content(d: Durable, s: StreamKey): Stored {
    if s in d.streams then d.streams[s] else []
  }

  function Ensured(d: Durable, s: StreamKey): Durable {
    if s in d.streams then d else d.(streams := d.streams[s := []])
  }

  /** The tuple was committed before: the answer to it is Duplicate. */
  predicate Recorded(d: Durable, s: StreamKey, p: ProducerTuple) {
    (s, p.id) in d.producers && p.sequence <= d.producers[(s, p.id)].sequence
  }

  /** The tuple is the producer's next one. */
  predicate Expected(d: Durable, s: StreamKey, p: ProducerTuple) {
    p.sequence == if (s, p.id) in d.producers then d.producers[(s, p.id)].sequence + 1 else 0
  }

  predicate CanCommit(d: Durable, s: StreamKey, p: ProducerTuple, body: seq<byte>) {
    s in d.streams && Expected(d, s, p) && |d.streams[s]| + |body| < TWO_64
  }

  function Commit(d: Durable, s: StreamKey, p: ProducerTuple, body: seq<byte>): Durable
    requires s in d.streams && |d.streams[s]| + |body| < TWO_64
  {
    var bytes := d.streams[s] + body;
    Durable(d.streams[s := bytes], d.producers[(s, p.id) := Mark(p.sequence, |bytes|)])
  }

  ghost predicate Landed(d: Durable, s: StreamKey, p: ProducerTuple, body: seq<byte>, d': Durable) {
    CanCommit(d, s, p, body) && d' == Commit(d, s, p, body)
  }

  /**
   What one append may do. A committed tuple is answered before anything else when the store is
   orderly; otherwise even a committed tuple may be refused.
   */
  ghost predicate Appends(orderly: bool, d: Durable, s: StreamKey, p: ProducerTuple, body: seq<byte>, d': Durable,
                          r: Result<AppendOutcome, StoreError>) {
    && (d' == d || Landed(d, s, p, body, d'))
    && match r
       case Success(Committed(n)) => Landed(d, s, p, body, d') && n == |Content(d', s)|
       case Success(Duplicate(n)) => d' == d && Recorded(d, s, p) && n == d.producers[(s, p.id)].nextOffset
       case Failure(e) => e.Rejected? ==> d' == d && (orderly ==> !Recorded(d, s, p))
  }

  /** What an append does when request and reply are delivered. */
  function Delivered(d: Durable, s: StreamKey, p: ProducerTuple, body: seq<byte>): (Durable, Result<AppendOutcome, StoreError>) {
    if Recorded(d, s, p) then (d, Success(Duplicate(d.producers[(s, p.id)].nextOffset)))
    else if s !in d.streams then (d, Failure(Rejected(NotFound, "no such stream")))
    else if !Expected(d, s, p) then (d, Failure(Rejected(Conflict, "producer sequence gap")))
    else if |d.streams[s]| + |body| >= TWO_64 then (d, Failure(Rejected(PayloadTooLarge, "stream length does not fit u64")))
    else (Commit(d, s, p, body), Success(Committed(|d.streams[s]| + |body|)))
  }

  ghost predicate Ensures(d: Durable, s: StreamKey, d': Durable, r: Result<(), StoreError>) {
    && (d' == d || d' == Ensured(d, s))
    && (r.Success? ==> d' == Ensured(d, s))
  }

  /** What the environment does to one call; a lost request or reply surfaces as `error`. */
  datatype Fault =
    | Deliver
    | LoseRequest(error: StoreError)
    | LoseReply(error: StoreError)
    | Refuse(kind: RejectionKind)

  /** The fault that meets the next call; a refusal that arrives as a lost reply is a refusal. */
  function NextOf(faults: seq<Fault>): (f: Fault)
    ensures f.LoseReply? ==> !f.error.Rejected?
  {
    if faults == [] then Deliver
    else if faults[0].LoseReply? && faults[0].error.Rejected? then Refuse(faults[0].error.kind)
    else faults[0]
  }

  function RestOf(faults: seq<Fault>): seq<Fault> {
    if faults == [] then [] else faults[1..]
  }

  /** What one append does under one fault. */
  function Answered(orderly: bool, d: Durable, fault: Fault, s: StreamKey, p: ProducerTuple, body: seq<byte>):
      (Durable, Result<AppendOutcome, StoreError>) {
    if fault.LoseRequest? && !fault.error.Rejected? then (d, Failure(fault.error))
    else if fault.Refuse? && !orderly then (d, Failure(Rejected(fault.kind, "refused")))
    else if Recorded(d, s, p) then
      (d, if fault.LoseReply? then Failure(fault.error) else Success(Duplicate(d.producers[(s, p.id)].nextOffset)))
    else if fault.Refuse? then (d, Failure(Rejected(fault.kind, "refused")))
    else if fault.LoseRequest? then (d, Failure(fault.error))
    else
      var (d', r) := Delivered(d, s, p, body);
      (d', if fault.LoseReply? then Failure(fault.error) else r)
  }

  /** What making sure that a stream exists does under one fault. */
  function EnsureAnswered(d: Durable, fault: Fault, s: StreamKey): (Durable, Result<(), StoreError>) {
    match fault
    case Deliver => (Ensured(d, s), Success(()))
    case LoseRequest(e) => (d, Failure(e))
    case LoseReply(e) => (Ensured(d, s), Failure(e))
    case Refuse(kind) => (d, Failure(Rejected(kind, "refused")))
  }

  /** What reading a whole stream gives under one fault. */
  function WholeRead(d: Durable, fault: Fault, s: StreamKey): Result<Stored, StoreError> {
    match fault
    case Deliver => if s in d.streams then Success(d.streams[s]) else Failure(Rejected(NotFound, "no such stream"))
    case LoseRequest(e) => Failure(e)
    case LoseReply(e) => Failure(e)
    case Refuse(kind) => Failure(Rejected(kind, "refused"))
  }

  /** What reading a range gives under one fault. */
  function RangeRead(d: Durable, fault: Fault, s: StreamKey, offset: nat, length: nat): (r: Result<seq<byte>, StoreError>)
    ensures r.Success? ==> offset + length <= |Content(d, s)| && r.value == Content(d, s)[offset..offset + length]
  {
    if fault.Refuse? then Failure(Rejected(fault.kind, "refused"))
    else if !fault.Deliver? then Failure(fault.error)
    else if s !in d.streams then Failure(Rejected(NotFound, "no such stream"))
    else if offset + length > |d.streams[s]| then Failure(Integrity("committed range ended early"))
    else Success(d.streams[s][offset..offset + length])
  }

  /** The next n calls are delivered. */
  predicate Clear(faults: seq<Fault>, n: nat) {
    forall i :: 0 <= i < n && i < |faults| ==> faults[i].Deliver?
  }

  /** Each of these calls loses its request or its reply without a word on the outcome. */
  predicate Losses(faults: seq<Fault>) {
    forall i :: 0 <= i < |faults| ==> (faults[i].LoseRequest? || faults[i].LoseReply?) && faults[i].error.Ambiguous?
  }

  /** The next n calls are delivered, up to k calls after them are lost, and everything later is delivered. */
  predicate Slips(faults: seq<Fault>, n: nat, k: nat) {
    Clear(faults, n) && (|faults| > n ==> Losses(faults[n..]) && |faults| <= n + k)
  }

  lemma OneDelivered(faults: seq<Fault>, n: nat, k: nat)
    ensures Clear(faults, n + 1) ==> NextOf(faults).Deliver? && Clear(RestOf(faults), n)
    ensures Slips(faults, n + 1, k) ==> NextOf(faults).Deliver? && Slips(RestOf(faults), n, k)
  {
    if Slips(faults, n + 1, k) && |faults| > n + 1 {
      assert faults[n + 1..] == RestOf(faults)[n..];
    }
  }

  /** The first n faults of the script have met their calls. */
  predicate Consumed(before: seq<Fault>, after: seq<Fault>, n: nat) {
    after == if n <= |before| then before[n..] else []
  }

  /** After two delivered calls the rest of the script is what the third call and those after it meet. */
  lemma TwoDelivered(faults: seq<Fault>, k: nat)
    ensures Clear(faults, 2) ==> NextOf(faults).Deliver? && NextOf(RestOf(faults)).Deliver?
    ensures Slips(faults, 2, k) ==> Clear(faults, 2) && Losses(RestOf(RestOf(faults))) && |RestOf(RestOf(faults))| <= k
    ensures Clear(faults, 3) ==> Clear(faults, 2) && NextOf(RestOf(RestOf(faults))).Deliver?
    ensures Consumed(faults, RestOf(RestOf(faults)), 2) && Consumed(faults, RestOf(RestOf(RestOf(faults))), 3)
  {
  }

  class Store {
    var durable: Durable
    var faults: seq<Fault>
    const orderly: bool
    ghost var appends: nat

    constructor (durable: Durable, faults: seq<Fault>, orderly: bool)
      ensures this.durable == durable && this.faults == faults && this.orderly == orderly && appends == 0
    {
      this.durable := durable;
      this.faults := faults;
      this.orderly := orderly;
      appends := 0;
    }

    method NextFault() returns (f: Fault)
      modifies this`faults
      ensures f == NextOf(old(faults)) && faults == RestOf(old(faults))
    {
      f := Deliver;
      if faults != [] {
        f := faults[0];
        faults := faults[1..];
      }
      if f.LoseReply? && f.error.Rejected? {
        f := Refuse(f.error.kind);
      }
    }

    method EnsureStream(s: StreamKey) returns (r: Result<(), StoreError>)
      modifies this
      ensures Ensures(old(durable), s, durable, r)
      ensures appends == old(appends)
      ensures (durable, r) == EnsureAnswered(old(durable), NextOf(old(faults)), s) && faults == RestOf(old(faults))
    {
      var fault := NextFault();
      if fault.Refuse? { return Failure(Rejected(fault.kind, "refused")); }
      if fault.LoseRequest? { return Failure(fault.error); }
      if s !in durable.streams {
        durable := durable.(streams := durable.streams[s := []]);
      }
      r := if fault.LoseReply? then Failure(fault.error) else Success(());
    }

    method ReadAll(s: StreamKey) returns (r: Result<Stored, StoreError>)
      modifies this
      ensures durable == old(durable) && appends == old(appends)
      ensures r.Success? ==> s in durable.streams && r.value == durable.streams[s]
      ensures r == WholeRead(durable, NextOf(old(faults)), s) && faults == RestOf(old(faults))
    {
      var fault := NextFault();
      if fault.Refuse? { return Failure(Rejected(fault.kind, "refused")); }
      if !fault.Deliver? { return Failure(fault.error); }
      if s !in durable.streams { return Failure(Rejected(NotFound, "no such stream")); }
      r := Success(durable.streams[s]);
    }

    method ReadRange(s: StreamKey, offset: nat, length: nat) returns (r: Result<seq<byte>, StoreError>)
      modifies this
      ensures durable == old(durable) && appends == old(appends)
      ensures r == RangeRead(durable, NextOf(old(faults)), s, offset, length) && faults == RestOf(old(faults))
    {
      var fault := NextFault();
      if fault.Refuse? { return Failure(Rejected(fault.kind, "refused")); }
      if !fault.Deliver? { return Failure(fault.error); }
      if s !in durable.streams { return Failure(Rejected(NotFound, "no such stream")); }
      if offset + length > |durable.streams[s]| { return Failure(Integrity("committed range ended early")); }
      r := Success(durable.streams[s][offset..offset + length]);
    }

    method Append(s: StreamKey, p: ProducerTuple, body: seq<byte>) returns (r: Result<AppendOutcome, StoreError>)
      modifies this
      ensures Appends(orderly, old(durable), s, p, body, durable, r)
      ensures appends == old(appends) + 1
      ensures (durable, r) == Answered(orderly, old(durable), NextOf(old(faults)), s, p, body) && faults == RestOf(old(faults))
    {
      appends := appends + 1;
      var fault := NextFault();
      if fault.LoseRequest? && !fault.error.Rejected? { return Failure(fault.error); }
      if fault.Refuse? && !orderly { return Failure(Rejected(fault.kind, "refused")); }
      var key := (s, p.id);
      if key in durable.producers && p.sequence <= durable.producers[key].sequence {
        if fault.LoseReply? { return Failure(fault.error); }
        return Success(Duplicate(durable.producers[key].nextOffset));
      }
      if fault.Refuse? { return Failure(Rejected(fault.kind, "refused")); }
      if fault.LoseRequest? { return Failure(fault.error); }
      var next := if key in durable.producers then durable.producers[key].sequence + 1 else 0;
      if s !in durable.streams {
        r := Failure(Rejected(NotFound, "no such stream"));
      } else if p.sequence != next {
        r := Failure(Rejected(Conflict, "producer sequence gap"));
      } else if |durable.streams[s]| + |body| >= TWO_64 {
        r := Failure(Rejected(PayloadTooLarge, "stream length does not fit u64"));
      } else {
        var bytes := durable.streams[s] + body;
        durable := Durable(durable.streams[s := bytes], durable.producers[key := Mark(p.sequence, |bytes|)]);
        r := Success(Committed(|bytes|));
      }
      if fault.LoseReply? { r := Failure(fault.error); }
    }
  }
}
