/**
 Reading a stream through bounded windows (src/ursula.rs:338-520). The server is any function of
 the request's number, offset and size; it may answer with anything.
 */
module WindowedReads {
  import opened Wrappers
  import opened Bytes
  import opened Store

  /** One answer as it comes off the wire: a failed request, or an offset header and a body. */
  datatype Response =
    | Failed(error: StoreError)
    | Answered(nextOffset: Option<U64>, upToDate: bool, body: seq<byte>)

  datatype Window = Window(body: seq<byte>, nextOffset: U64, upToDate: bool)

  /** The checks one answer must pass. */
  function Checked(response: Response, offset: U64, maxBytes: nat): (r: Result<Window, StoreError>)
    ensures r.Success? ==> r.value.nextOffset == offset + |r.value.body| && |r.value.body| <= maxBytes
  {
    match response
    case Failed(e) => Failure(e)
    case Answered(None, _, _) => Failure(Integrity("missing or invalid next offset"))
    case Answered(Some(nextOffset), upToDate, body) =>
      if |body| > maxBytes then Failure(Integrity("response body exceeds requested maximum"))
      else if offset + |body| >= TWO_64 then Failure(Integrity("read offset overflow"))
      else if nextOffset != offset + |body| then Failure(Integrity("read offset mismatch"))
      else Success(Window(body, nextOffset, upToDate))
  }

  predicate Retryable(e: StoreError) {
    e.Ambiguous? || (e.Rejected? && e.kind.RateLimited?)
  }

  /** An answer that says where it ends: right after its body, which is no longer than asked for. */
  predicate Proper(response: Response, offset: nat, maxBytes: nat) {
    response.Answered? && response.nextOffset == Some(offset + |response.body|) && |response.body| <= maxBytes
  }

  /** A failure that says nothing about the stream: no outcome, or too many requests. */
  predicate Temporary(response: Response) {
    response.Failed? && (response.error.Ambiguous? || (response.error.Rejected? && response.error.kind == RateLimited))
  }

  /** Exactly the proper answers are accepted, as they are; a failed request keeps its error, anything else is damage. */
  lemma CheckedIff(response: Response, offset: U64, maxBytes: nat)
    ensures var r := Checked(response, offset, maxBytes);
            && (r.Success? <==> Proper(response, offset, maxBytes))
            && (r.Success? ==> r.value == Window(response.body, offset + |response.body|, response.upToDate))
            && (response.Failed? ==> r == Failure(response.error))
            && (r.Failure? && !response.Failed? ==> r.error.Integrity?)
            && (Temporary(response) <==> r.Failure? && Retryable(r.error))
  {
  }

  /** Every accepted window is a slice of what is stored, what is stored only grows, and "up to date" means the end. */
  ghost predicate Truthful(server: (nat, U64, nat) -> Response, stored: nat -> seq<byte>) {
    && (forall m: nat, n: nat :: m <= n ==> stored(m) <= stored(n))
    && forall n: nat, offset: U64, maxBytes: nat :: TrueSlice(Checked(server(n, offset, maxBytes), offset, maxBytes), offset, stored(n))
  }

  predicate TrueSlice(r: Result<Window, StoreError>, offset: nat, content: seq<byte>) {
    r.Success? ==>
      && offset + |r.value.body| <= |content|
      && content[offset..offset + |r.value.body|] == r.value.body
      && (r.value.upToDate ==> offset + |r.value.body| == |content|)
  }

  /**
   A server that fails a request within the stream only temporarily, and never more than `retries`
   times in a row; what it does answer is proper, and not empty until the end is reached.
   */
  ghost predicate Reliable(server: (nat, U64, nat) -> Response, content: seq<byte>, retries: nat) {
    forall n: nat, offset: U64, maxBytes: nat {:trigger server(n, offset, maxBytes)} :: offset <= |content| && maxBytes > 0 ==>
      && (Temporary(server(n, offset, maxBytes)) || AnswersFrom(server(n, offset, maxBytes), offset, maxBytes, |content|))
      && SomeAnswer(server, n, retries, offset, maxBytes)
  }

  predicate AnswersFrom(response: Response, offset: nat, maxBytes: nat, end: nat) {
    Proper(response, offset, maxBytes) && (response.body == [] ==> offset == end && response.upToDate)
  }

  predicate SomeAnswer(server: (nat, U64, nat) -> Response, n: nat, retries: nat, offset: U64, maxBytes: nat) {
    exists k {:trigger server(k, offset, maxBytes)} :: n <= k <= n + retries && !Temporary(server(k, offset, maxBytes))
  }

  lemma Slices(server: (nat, U64, nat) -> Response, stored: nat -> seq<byte>, n: nat, offset: U64, maxBytes: nat)
    requires Truthful(server, stored)
    ensures TrueSlice(Checked(server(n, offset, maxBytes), offset, maxBytes), offset, stored(n))
  {
  }

  class Reader {
    const server: (nat, U64, nat) -> Response
    const safeRetries: nat
    const readChunkBytes: nat
    const maxStreamBytes: nat
    var requests: nat

    constructor (server: (nat, U64, nat) -> Response, safeRetries: nat, readChunkBytes: nat, maxStreamBytes: nat)
      requires readChunkBytes > 0 && maxStreamBytes > 0
      ensures this.server == server && this.safeRetries == safeRetries && this.readChunkBytes == readChunkBytes
      ensures this.maxStreamBytes == maxStreamBytes && requests == 0
    {
      this.server := server;
      this.safeRetries := safeRetries;
      this.readChunkBytes := readChunkBytes;
      this.maxStreamBytes := maxStreamBytes;
      requests := 0;
    }

    method ReadExactWindowOnce(offset: U64, maxBytes: nat) returns (r: Result<Window, StoreError>)
      modifies this`requests
      ensures requests == old(requests) + 1
      ensures r == Checked(server(old(requests), offset, maxBytes), offset, maxBytes)
      ensures var response := server(old(requests), offset, maxBytes);
              if Proper(response, offset, maxBytes) then
                r == Success(Window(response.body, offset + |response.body|, response.upToDate))
              else if response.Failed? then r == Failure(response.error)
              else r.Failure? && r.error.Integrity?
    {
      var response := server(requests, offset, maxBytes);
      requests := requests + 1;
      if response.Failed? { return Failure(response.error); }
      if response.nextOffset.None? { return Failure(Integrity("missing or invalid next offset")); }
      if |response.body| > maxBytes { return Failure(Integrity("response body exceeds requested maximum")); }
      var expectedNext: nat := offset + |response.body|;
      if expectedNext >= TWO_64 { return Failure(Integrity("read offset overflow")); }
      if response.nextOffset.value != expectedNext { return Failure(Integrity("read offset mismatch")); }
      r := Success(Window(response.body, expectedNext, response.upToDate));
    }

    /** The first answer that is not worth retrying, after at most safeRetries + 1 requests. */
    method ReadExactWindow(offset: U64, maxBytes: nat) returns (r: Result<Window, StoreError>)
      modifies this`requests
      ensures old(requests) < requests <= old(requests) + safeRetries + 1
      ensures r == Checked(server(requests - 1, offset, maxBytes), offset, maxBytes)
      ensures forall n: nat :: old(requests) <= n < requests - 1 ==> Temporary(server(n, offset, maxBytes))
      ensures Temporary(server(requests - 1, offset, maxBytes)) ==> requests == old(requests) + safeRetries + 1
    {
      hide Checked, Retryable, Temporary, Proper;
      var attempt := 0;
      while true
        invariant 0 <= attempt <= safeRetries && requests == old(requests) + attempt
        invariant forall n: nat :: old(requests) <= n < requests ==> Temporary(server(n, offset, maxBytes))
        decreases safeRetries - attempt
      {
        CheckedIff(server(requests, offset, maxBytes), offset, maxBytes);
        r := ReadExactWindowOnce(offset, maxBytes);
        if r.Success? || !Retryable(r.error) || attempt == safeRetries { return; }
        attempt := attempt + 1;
      }
    }

    /** The last safeRetries + 1 requests all failed temporarily. */
    predicate Exhausted(n: nat, offset: U64, maxBytes: nat) {
      n >= safeRetries && forall k: nat :: n - safeRetries <= k <= n ==> Temporary(server(k, offset, maxBytes))
    }

    /** Which a reliable server never does. */
    lemma NotExhausted(content: seq<byte>, n: nat, offset: U64, maxBytes: nat)
      requires Reliable(server, content, safeRetries) && offset <= |content| && maxBytes > 0
      requires Temporary(server(n, offset, maxBytes)) ==> Exhausted(n, offset, maxBytes)
      ensures AnswersFrom(server(n, offset, maxBytes), offset, maxBytes, |content|)
    {
      hide Temporary, AnswersFrom;
      var last := server(n, offset, maxBytes);
      if n >= safeRetries {
        var first := server(n - safeRetries, offset, maxBytes);
        assert SomeAnswer(server, n - safeRetries, safeRetries, offset, maxBytes);
      }
    }

    /** Reads windows from the start until one reaches the end. */
    method ReadAllObserved() returns (r: Result<seq<byte>, StoreError>, ghost last: nat)
      requires readChunkBytes > 0
      modifies this`requests
      ensures r.Success? ==> |r.value| <= maxStreamBytes && |r.value| < TWO_64
      ensures old(requests) <= last < requests
      ensures forall stored: nat -> seq<byte> :: Truthful(server, stored) && r.Success? ==> r.value == stored(last)
      ensures forall content: seq<byte> :: Truthful(server, _ => content) && Reliable(server, content, safeRetries) && |content| < TWO_64 ==>
                (r.Success? <==> |content| <= maxStreamBytes)
    {
      hide Checked, TrueSlice, Truthful, Reliable, Temporary;
      var output: seq<byte> := [];
      var offset: U64 := 0;
      last := requests;
      while true
        invariant offset == |output| <= maxStreamBytes
        invariant old(requests) <= last <= requests && (output != [] ==> last < requests)
        invariant forall stored: nat -> seq<byte> :: Truthful(server, stored) ==> output == [] || output <= stored(last)
        decreases maxStreamBytes - |output|
      {
        ghost var before := last;
        var window := ReadExactWindow(offset, readChunkBytes);
        last := requests - 1;
        ghost var fetched := Checked(server(last, offset, readChunkBytes), offset, readChunkBytes);
        Progress(before, last, offset, output, readChunkBytes);
        if window.Failure? { return Failure(window.error), last; }
        var body, nextOffset, upToDate := window.value.body, window.value.nextOffset, window.value.upToDate;
        if nextOffset < offset || (nextOffset == offset && !upToDate) {
          return Failure(Integrity("read made no offset progress")), last;
        }
        if |output| + |body| > maxStreamBytes { return Failure(Integrity("stream exceeds configured limit")), last; }
        output := output + body;
        offset := nextOffset;
        if upToDate {
          return Success(output), last;
        }
      }
    }

    /** What one more answer says about a truthful server, and about a reliable one. */
    lemma Progress(before: nat, n: nat, offset: U64, output: seq<byte>, maxBytes: nat)
      requires before <= n && offset == |output| && maxBytes > 0
      requires Temporary(server(n, offset, maxBytes)) ==> Exhausted(n, offset, maxBytes)
      requires forall stored: nat -> seq<byte> :: Truthful(server, stored) ==> output == [] || output <= stored(before)
      ensures var r := Checked(server(n, offset, maxBytes), offset, maxBytes);
              && (r.Success? ==> r.value.nextOffset == offset + |r.value.body| && |r.value.body| <= maxBytes)
              && (forall stored: nat -> seq<byte> :: Truthful(server, stored) && r.Success? ==>
                    output + r.value.body <= stored(n)
                    && (r.value.upToDate ==> output + r.value.body == stored(n)))
              && (forall content: seq<byte> :: Truthful(server, _ => content) && Reliable(server, content, safeRetries) && |content| < TWO_64 ==>
                    r.Success? && (r.value.body == [] ==> r.value.upToDate) && |output| + |r.value.body| <= |content|)
    {
      hide Reliable, Temporary, Exhausted, Proper;
      var r := Checked(server(n, offset, maxBytes), offset, maxBytes);
      forall stored: nat -> seq<byte> | Truthful(server, stored) && r.Success?
        ensures output + r.value.body <= stored(n) && (r.value.upToDate ==> output + r.value.body == stored(n))
      {
        Slices(server, stored, n, offset, maxBytes);
        assert output <= stored(n) by { assert stored(before) <= stored(n); }
      }
      forall content: seq<byte> | Truthful(server, _ => content) && Reliable(server, content, safeRetries) && |content| < TWO_64
        ensures r.Success? && (r.value.body == [] ==> r.value.upToDate) && |output| + |r.value.body| <= |content|
      {
        Slices(server, _ => content, n, offset, maxBytes);
        AnsweredWithin(content, n, offset, maxBytes);
      }
    }

    /** Reads windows until exactly the requested bytes are there. */
    method ReadRange(offset: U64, length: nat) returns (r: Result<seq<byte>, StoreError>, ghost last: nat)
      modifies this`requests
      ensures r.Success? ==> |r.value| == length
      ensures length == 0 ==> r == Success([]) && requests == old(requests)
      ensures length > 0 ==> old(requests) <= last < requests
      ensures forall stored: nat -> seq<byte> :: Truthful(server, stored) && r.Success? && length > 0 ==>
                offset + length <= |stored(last)| && r.value == stored(last)[offset..offset + length]
      ensures forall content: seq<byte> :: Truthful(server, _ => content) && Reliable(server, content, safeRetries) && |content| < TWO_64 && offset <= |content| ==>
                (r.Success? <==> offset + length <= |content|)
    {
      hide Checked, TrueSlice, Truthful, Reliable, Temporary;
      last := requests;
      if length == 0 { return Success([]), last; }
      var output: seq<byte> := [];
      var next: U64 := offset;
      while |output| < length
        invariant next == offset + |output| && |output| <= length
        invariant old(requests) <= last <= requests && (output != [] ==> last < requests)
        invariant forall stored: nat -> seq<byte> :: Truthful(server, stored) ==> output == [] || SliceAt(output, stored(last), offset)
        decreases length - |output|
      {
        var remaining := length - |output|;
        ghost var before := last;
        var window := ReadExactWindow(next, remaining);
        last := requests - 1;
        RangeProgress(before, last, offset, output, remaining);
        if window.Failure? { return Failure(window.error), last; }
        var body, returnedNext := window.value.body, window.value.nextOffset;
        if returnedNext <= next || body == [] {
          return Failure(Integrity("committed range ended before expected frame length")), last;
        }
        output := output + body;
        next := returnedNext;
      }
      if |output| != length {
        return Failure(Integrity("committed range exceeded expected frame length")), last;
      }
      r := Success(output);
    }

    lemma RangeProgress(before: nat, n: nat, offset: U64, output: seq<byte>, maxBytes: nat)
      requires before <= n && maxBytes > 0 && offset + |output| < TWO_64
      requires Temporary(server(n, offset + |output|, maxBytes)) ==> Exhausted(n, offset + |output|, maxBytes)
      requires forall stored: nat -> seq<byte> :: Truthful(server, stored) ==> output == [] || SliceAt(output, stored(before), offset)
      ensures var r := Checked(server(n, offset + |output|, maxBytes), offset + |output|, maxBytes);
              && (r.Success? ==> r.value.nextOffset == offset + |output| + |r.value.body| && |r.value.body| <= maxBytes)
              && (forall stored: nat -> seq<byte> :: Truthful(server, stored) && r.Success? && r.value.body != [] ==>
                    SliceAt(output + r.value.body, stored(n), offset))
              && (forall content: seq<byte> :: Truthful(server, _ => content) && Reliable(server, content, safeRetries) && |content| < TWO_64
                                               && offset <= |content| ==>
                    r.Success? && (r.value.body == [] ==> offset + |output| == |content|))
    {
      hide Reliable, Temporary, Exhausted, Proper;
      var at := offset + |output|;
      var r := Checked(server(n, at, maxBytes), at, maxBytes);
      forall stored: nat -> seq<byte> | Truthful(server, stored) && r.Success? && r.value.body != []
        ensures SliceAt(output + r.value.body, stored(n), offset)
      {
        Slices(server, stored, n, at, maxBytes);
        assert stored(before) <= stored(n);
      }
      forall content: seq<byte> | Truthful(server, _ => content) && Reliable(server, content, safeRetries) && |content| < TWO_64 && offset <= |content|
        ensures r.Success? && (r.value.body == [] ==> at == |content|)
      {
        assert output == [] || SliceAt(output, content, offset);
        AnsweredWithin(content, n, at, maxBytes);
      }
    }

    /** A reliable server's last answer within the stream is accepted, and empty only at the end. */
    lemma AnsweredWithin(content: seq<byte>, n: nat, at: U64, maxBytes: nat)
      requires Reliable(server, content, safeRetries) && at <= |content| && maxBytes > 0
      requires Temporary(server(n, at, maxBytes)) ==> Exhausted(n, at, maxBytes)
      ensures var r := Checked(server(n, at, maxBytes), at, maxBytes);
              r.Success? && (r.value.body == [] ==> at == |content| && r.value.upToDate)
    {
      hide Reliable, Temporary, Exhausted, Checked;
      NotExhausted(content, n, at, maxBytes);
      CheckedIff(server(n, at, maxBytes), at, maxBytes);
    }
  }

  predicate SliceAt(piece: seq<byte>, content: seq<byte>, offset: nat) {
    offset + |piece| <= |content| && content[offset..offset + |piece|] == piece
  }
}
