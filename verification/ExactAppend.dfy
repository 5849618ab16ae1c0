/** Appending one body exactly once, across ambiguous outcomes (src/exact_append.rs). */
module ExactAppend {
  import opened Wrappers
  import opened Bytes
  import opened Frame
  import opened Store

  datatype ExactAppendOutcome = ExactlyCommitted(nextOffset: U64) | VerifiedDuplicate(nextOffset: U64)

  /** The bytes that end at the offset are these. */
  predicate SliceIs(content: seq<byte>, next: nat, body: seq<byte>) {
    |body| <= next <= |content| && content[next - |body|..next] == body
  }

  /** The tuple is on record and the range that ends at its offset is the body. */
  ghost predicate Holds(d: Durable, s: StreamKey, p: ProducerTuple, body: seq<byte>, next: nat) {
    && Recorded(d, s, p)
    && d.producers[(s, p.id)].nextOffset == next
    && SliceIs(Content(d, s), next, body)
  }

  /** What any number of retries of one append may do to the store. */
  ghost predicate Settled(d: Durable, s: StreamKey, p: ProducerTuple, body: seq<byte>, d': Durable,
                          r: Result<ExactAppendOutcome, StoreError>) {
    && (d' == d || Landed(d, s, p, body, d'))
    && (r.Success? ==>
          && Holds(d', s, p, body, r.value.nextOffset)
          && (r.value.ExactlyCommitted? ==> Landed(d, s, p, body, d') && r.value.nextOffset == |Content(d', s)|))
  }

  /** The body can be appended under this tuple, or is stored under it already. */
  ghost predicate CanHold(d: Durable, s: StreamKey, p: ProducerTuple, body: seq<byte>) {
    || CanCommit(d, s, p, body)
    || (Recorded(d, s, p) && Holds(d, s, p, body, d.producers[(s, p.id)].nextOffset))
  }

  /** The store after it has the body, if it can have it. */
  function Kept(d: Durable, s: StreamKey, p: ProducerTuple, body: seq<byte>): Durable {
    if CanCommit(d, s, p, body) then Commit(d, s, p, body) else d
  }

  lemma CommitHolds(d: Durable, s: StreamKey, p: ProducerTuple, body: seq<byte>)
    requires CanCommit(d, s, p, body)
    ensures var d' := Commit(d, s, p, body);
            Recorded(d', s, p) && !Expected(d', s, p) && Holds(d', s, p, body, |Content(d', s)|)
  {
  }

  /** What comparing the range that ends at an offset with the expected bytes gives under one fault. */
  function Verified(d: Durable, fault: Fault, s: StreamKey, nextOffset: nat, expected: seq<byte>): Result<(), StoreError> {
    if nextOffset < |expected| then Failure(Integrity("duplicate next offset is smaller than exact append body"))
    else
      var stored :- RangeRead(d, fault, s, nextOffset - |expected|, |expected|);
      if |stored| != |expected| then Failure(Integrity("duplicate exact append length mismatch"))
      else if stored != expected then Failure(Integrity("duplicate producer tuple is bound to different bytes"))
      else Success(())
  }

  method VerifyDuplicateBytes(store: Store, s: StreamKey, nextOffset: nat, expected: seq<byte>) returns (r: Result<(), StoreError>)
    modifies store
    ensures store.durable == old(store.durable) && store.appends == old(store.appends)
    ensures store.faults == if nextOffset < |expected| then old(store.faults) else RestOf(old(store.faults))
    ensures r == Verified(store.durable, NextOf(old(store.faults)), s, nextOffset, expected)
    ensures r.Success? ==> SliceIs(Content(store.durable, s), nextOffset, expected)
    ensures NextOf(old(store.faults)).Deliver? && expected != [] ==> (r.Success? <==> SliceIs(Content(store.durable, s), nextOffset, expected))
  {
    if nextOffset < |expected| {
      return Failure(Integrity("duplicate next offset is smaller than exact append body"));
    }
    var start := nextOffset - |expected|;
    var stored :- store.ReadRange(s, start, |expected|);
    if |stored| != |expected| { return Failure(Integrity("duplicate exact append length mismatch")); }
    if stored != expected { return Failure(Integrity("duplicate producer tuple is bound to different bytes")); }
    r := Success(());
  }

  /** What is left of a run of appends: the store, the script, the number of appends and the answer. */
  datatype ExactEnd = ExactEnd(durable: Durable, faults: seq<Fault>, appends: nat, answer: Result<ExactAppendOutcome, StoreError>)

  /** Appending against a script of faults, with `left` retries after this attempt. */
  function ExactAttempted(orderly: bool, d: Durable, faults: seq<Fault>, s: StreamKey, p: ProducerTuple, body: seq<byte>, left: nat): ExactEnd
    decreases left
  {
    var (d', outcome) := Answered(orderly, d, NextOf(faults), s, p, body);
    var rest := RestOf(faults);
    match outcome
    case Success(Committed(n)) => ExactEnd(d', rest, 1, Success(ExactlyCommitted(n)))
    case Success(Duplicate(n)) =>
      ExactEnd(d', if n < |body| then rest else RestOf(rest), 1,
              match Verified(d', NextOf(rest), s, n, body)
              case Success(_) => Success(VerifiedDuplicate(n))
              case Failure(e) => Failure(e))
    case Failure(e) =>
      if e.Ambiguous? && left > 0 then
        var later := ExactAttempted(orderly, d', rest, s, p, body, left - 1);
        later.(appends := later.appends + 1)
      else ExactEnd(d', rest, 1, Failure(e))
  }

  // ---------------------------------------------------------------- what the script decides

  /** Some call among these lost only its reply, so that an append that can land has landed. */
  predicate SomeReplyLost(faults: seq<Fault>) {
    exists i :: 0 <= i < |faults| && faults[i].LoseReply?
  }

  /** The store after lost calls: the body is there if it can be and one of them lost only its reply. */
  function AfterLosses(d: Durable, lost: seq<Fault>, s: StreamKey, p: ProducerTuple, body: seq<byte>): Durable {
    if SomeReplyLost(lost) then Kept(d, s, p, body) else d
  }

  lemma LostOnce(orderly: bool, d: Durable, fault: Fault, s: StreamKey, p: ProducerTuple, body: seq<byte>)
    requires (fault.LoseRequest? || fault.LoseReply?) && fault.error.Ambiguous?
    ensures Answered(orderly, d, fault, s, p, body)
         == (if fault.LoseReply? then Kept(d, s, p, body) else d, Failure(fault.error))
  {
  }

  lemma KeptTwice(d: Durable, s: StreamKey, p: ProducerTuple, body: seq<byte>)
    ensures Kept(Kept(d, s, p, body), s, p, body) == Kept(d, s, p, body)
    ensures CanHold(Kept(d, s, p, body), s, p, body) <==> CanHold(d, s, p, body)
  {
    if CanCommit(d, s, p, body) { CommitHolds(d, s, p, body); }
  }

  /** Lost calls are retried one for one: the outcome is that of the rest of the script with so many retries fewer. */
  lemma {:induction false} LossesAreRetried(orderly: bool, d: Durable, lost: seq<Fault>, rest: seq<Fault>, s: StreamKey,
                                            p: ProducerTuple, body: seq<byte>, left: nat)
    requires Losses(lost) && |lost| <= left
    ensures var later := ExactAttempted(orderly, AfterLosses(d, lost, s, p, body), rest, s, p, body, left - |lost|);
            ExactAttempted(orderly, d, lost + rest, s, p, body, left) == later.(appends := later.appends + |lost|)
    decreases |lost|
  {
    hide Answered, Verified, CanCommit;
    if lost == [] {
      assert lost + rest == rest;
    } else {
      var faults := lost + rest;
      assert NextOf(faults) == lost[0] && RestOf(faults) == lost[1..] + rest;
      assert Losses(lost[1..]);
      LostOnce(orderly, d, lost[0], s, p, body);
      var d' := if lost[0].LoseReply? then Kept(d, s, p, body) else d;
      LossesAreRetried(orderly, d', lost[1..], rest, s, p, body, left - 1);
      KeptTwice(d, s, p, body);
      AfterFirstLoss(d, lost, s, p, body);
    }
  }

  lemma AfterFirstLoss(d: Durable, lost: seq<Fault>, s: StreamKey, p: ProducerTuple, body: seq<byte>)
    requires lost != []
    ensures AfterLosses(if lost[0].LoseReply? then Kept(d, s, p, body) else d, lost[1..], s, p, body)
         == AfterLosses(d, lost, s, p, body)
  {
    hide CanCommit;
    KeptTwice(d, s, p, body);
    if SomeReplyLost(lost) && !lost[0].LoseReply? {
      var i :| 0 <= i < |lost| && lost[i].LoseReply?;
      assert lost[1..][i - 1].LoseReply?;
    }
    if SomeReplyLost(lost[1..]) {
      var i :| 0 <= i < |lost[1..]| && lost[1..][i].LoseReply?;
      assert lost[i + 1].LoseReply?;
    }
  }

  /** With nothing left in the script, one append decides. */
  lemma DeliveredDecides(orderly: bool, d: Durable, s: StreamKey, p: ProducerTuple, body: seq<byte>, left: nat)
    requires body != []
    ensures var end := ExactAttempted(orderly, d, [], s, p, body, left);
            && end.durable == Kept(d, s, p, body) && end.faults == [] && end.appends == 1
            && (end.answer.Success? <==> CanHold(d, s, p, body))
            && (end.answer.Success? ==> (end.answer.value.ExactlyCommitted? <==> CanCommit(d, s, p, body)))
  {
    hide Verified;
    var end := ExactAttempted(orderly, d, [], s, p, body, left);
    if CanCommit(d, s, p, body) {
      CommitHolds(d, s, p, body);
      assert !Recorded(d, s, p) && end.answer.Success?;
    } else if Recorded(d, s, p) {
      VerifiedIff(d, s, d.producers[(s, p.id)].nextOffset, body);
    }
  }

  lemma VerifiedIff(d: Durable, s: StreamKey, nextOffset: nat, body: seq<byte>)
    requires body != []
    ensures Verified(d, Deliver, s, nextOffset, body).Success? <==> SliceIs(Content(d, s), nextOffset, body)
  {
  }

  /**
   Up to `left` lost calls, then nothing: success exactly if the body is next or there already, the
   body stored if it can be, one append more than were lost, and a fresh commit reported exactly if
   every lost call lost its request.
   */
  lemma SurvivesLosses(orderly: bool, d: Durable, lost: seq<Fault>, s: StreamKey, p: ProducerTuple, body: seq<byte>, left: nat)
    requires Losses(lost) && |lost| <= left && body != []
    ensures var end := ExactAttempted(orderly, d, lost, s, p, body, left);
            && end.durable == Kept(d, s, p, body) && end.faults == [] && end.appends == |lost| + 1
            && (end.answer.Success? <==> CanHold(d, s, p, body))
            && (end.answer.Success? ==> (end.answer.value.ExactlyCommitted? <==> CanCommit(d, s, p, body) && !SomeReplyLost(lost)))
  {
    hide ExactAttempted, CanHold, CanCommit;
    LossesAreRetried(orderly, d, lost, [], s, p, body, left);
    assert lost + [] == lost;
    DeliveredDecides(orderly, AfterLosses(d, lost, s, p, body), s, p, body, left - |lost|);
    KeptTwice(d, s, p, body);
    KeptIsRecorded(d, s, p, body);
  }

  lemma KeptIsRecorded(d: Durable, s: StreamKey, p: ProducerTuple, body: seq<byte>)
    ensures !CanCommit(Kept(d, s, p, body), s, p, body)
  {
    if CanCommit(d, s, p, body) { CommitHolds(d, s, p, body); }
  }

  /** One loss too many is reported as what it is, after `left + 1` appends. */
  lemma TooManyLosses(orderly: bool, d: Durable, lost: seq<Fault>, s: StreamKey, p: ProducerTuple, body: seq<byte>, left: nat)
    requires Losses(lost) && |lost| > left
    ensures ExactAttempted(orderly, d, lost, s, p, body, left)
         == ExactEnd(AfterLosses(d, lost[..left + 1], s, p, body), lost[left + 1..], left + 1, Failure(lost[left].error))
  {
    hide Answered, Kept, SomeReplyLost;
    var spent, last := lost[..left], lost[left];
    var d' := AfterLosses(d, spent, s, p, body);
    assert lost == spent + lost[left..] && lost[left..][1..] == lost[left + 1..];
    LossesAreRetried(orderly, d, spent, lost[left..], s, p, body, left);
    LostOnce(orderly, d', last, s, p, body);
    OneMoreLoss(d, lost[..left + 1], s, p, body);
    assert lost[..left + 1][..left] == spent;
  }

  lemma OneMoreLoss(d: Durable, lost: seq<Fault>, s: StreamKey, p: ProducerTuple, body: seq<byte>)
    requires lost != []
    ensures var n := |lost| - 1;
            var before := AfterLosses(d, lost[..n], s, p, body);
            AfterLosses(d, lost, s, p, body) == if lost[n].LoseReply? then Kept(before, s, p, body) else before
  {
    hide CanCommit;
    KeptTwice(d, s, p, body);
    var n := |lost| - 1;
    if SomeReplyLost(lost) && !lost[n].LoseReply? {
      var i :| 0 <= i < |lost| && lost[i].LoseReply?;
      assert lost[..n][i].LoseReply?;
    }
    if SomeReplyLost(lost[..n]) {
      var i :| 0 <= i < |lost[..n]| && lost[..n][i].LoseReply?;
      assert lost[i].LoseReply?;
    }
  }

  /**
   If all that happens to the calls is that up to `retries` of them are lost, the append succeeds
   exactly if the body is next or there already; if more are lost it gives up after `retries + 1`.
   Either way nothing but this body was stored, and stored if it can be whenever only a reply was lost.
   */
  ghost predicate LossTolerant(d: Durable, faults: seq<Fault>, s: StreamKey, p: ProducerTuple, body: seq<byte>, retries: nat,
                               d': Durable, appends: int, r: Result<ExactAppendOutcome, StoreError>) {
    Losses(faults) ==>
      if |faults| <= retries then
        && (r.Success? <==> CanHold(d, s, p, body))
        && (r.Success? ==> (r.value.ExactlyCommitted? <==> CanCommit(d, s, p, body) && !SomeReplyLost(faults)))
        && d' == Kept(d, s, p, body) && appends == |faults| + 1
      else
        && r == Failure(faults[retries].error)
        && d' == AfterLosses(d, faults[..retries + 1], s, p, body) && appends == retries + 1
  }

  lemma ExactTolerates(orderly: bool, d: Durable, faults: seq<Fault>, s: StreamKey, p: ProducerTuple, body: seq<byte>, retries: nat)
    ensures var end := ExactAttempted(orderly, d, faults, s, p, body, retries);
            body != [] ==> LossTolerant(d, faults, s, p, body, retries, end.durable, end.appends, end.answer)
  {
    hide ExactAttempted, CanHold, Kept, CanCommit, AfterLosses;
    if body != [] && Losses(faults) {
      if |faults| <= retries {
        SurvivesLosses(orderly, d, faults, s, p, body, retries);
      } else {
        TooManyLosses(orderly, d, faults, s, p, body, retries);
      }
    }
  }

  /** At worst a tolerable number of losses, or at least the first call delivered. */
  predicate Light(faults: seq<Fault>, retries: nat) {
    (Losses(faults) && |faults| <= retries) || NextOf(faults).Deliver?
  }

  /** Under such a script a body that can be stored is stored and reported stored. */
  lemma LightScript(orderly: bool, d: Durable, faults: seq<Fault>, s: StreamKey, p: ProducerTuple, body: seq<byte>, retries: nat)
    requires Light(faults, retries) && body != []
    ensures var end := ExactAttempted(orderly, d, faults, s, p, body, retries);
            && end.durable == Kept(d, s, p, body)
            && (CanCommit(d, s, p, body) ==> end.answer.Success?)
            && (NextOf(faults).Deliver? && CanCommit(d, s, p, body) ==> end.faults == RestOf(faults))
            && (Losses(faults) && |faults| <= retries ==> end.faults == [])
  {
    hide Verified;
    if Losses(faults) && |faults| <= retries {
      SurvivesLosses(orderly, d, faults, s, p, body, retries);
    }
  }

  /** Any other failure of a call is final, whatever retries are left. */
  lemma OtherFailuresAreFinal(orderly: bool, d: Durable, lost: seq<Fault>, fault: Fault, s: StreamKey, p: ProducerTuple,
                              body: seq<byte>, left: nat)
    requires Losses(lost) && |lost| <= left
    requires fault.LoseRequest? || fault.LoseReply? ==> fault.error.Integrity?
    requires fault.Refuse? ==> !orderly || !Recorded(AfterLosses(d, lost, s, p, body), s, p)
    requires !fault.Deliver?
    ensures var end := ExactAttempted(orderly, d, lost + [fault], s, p, body, left);
            && end.appends == |lost| + 1
            && end.answer == Failure(if fault.Refuse? then Rejected(fault.kind, "refused") else fault.error)
  {
    LossesAreRetried(orderly, d, lost, [fault], s, p, body, left);
  }

  /** Retries an ambiguous append; succeeds only on proof that the body is stored, and stores it at most once. */
  method AppendExactWithRetry(store: Store, s: StreamKey, producer: ProducerTuple, body: seq<byte>, maxAmbiguousRetries: nat)
    returns (r: Result<ExactAppendOutcome, StoreError>)
    modifies store
    ensures body != [] ==> Settled(old(store.durable), s, producer, body, store.durable, r)
    ensures body == [] ==> r == Failure(Integrity("exact append body is empty")) && store.durable == old(store.durable)
                           && store.faults == old(store.faults) && store.appends == old(store.appends)
    ensures old(store.appends) <= store.appends <= old(store.appends) + maxAmbiguousRetries + 1
    ensures body != [] ==>
              ExactEnd(store.durable, store.faults, store.appends - old(store.appends), r)
              == ExactAttempted(store.orderly, old(store.durable), old(store.faults), s, producer, body, maxAmbiguousRetries)
    ensures body != [] ==> LossTolerant(old(store.durable), old(store.faults), s, producer, body, maxAmbiguousRetries,
                                        store.durable, store.appends - old(store.appends), r)
  {
    hide Answered, Verified, Settled, LossTolerant, Appends;
    if body == [] { return Failure(Integrity("exact append body is empty")); }
    ghost var d, script, before := store.durable, store.faults, store.appends;
    ExactSettles(store.orderly, d, script, s, producer, body, maxAmbiguousRetries);
    ExactTolerates(store.orderly, d, script, s, producer, body, maxAmbiguousRetries);
    var retries := 0;
    while true
      invariant 0 <= retries <= maxAmbiguousRetries
      invariant store.appends == before + retries
      invariant var end := ExactAttempted(store.orderly, store.durable, store.faults, s, producer, body, maxAmbiguousRetries - retries);
                ExactAttempted(store.orderly, d, script, s, producer, body, maxAmbiguousRetries)
                == end.(appends := end.appends + retries)
      decreases maxAmbiguousRetries - retries
    {
      var outcome := store.Append(s, producer, body);
      if outcome.Success? {
        match outcome.value {
          case Committed(nextOffset) =>
            r := Success(ExactlyCommitted(nextOffset));
          case Duplicate(nextOffset) =>
            var verified := VerifyDuplicateBytes(store, s, nextOffset, body);
            r := if verified.Failure? then Failure(verified.error) else Success(VerifiedDuplicate(nextOffset));
        }
        break;
      } else if outcome.error.Ambiguous? && retries < maxAmbiguousRetries {
        retries := retries + 1;
      } else {
        r := Failure(outcome.error);
        break;
      }
    }
    assert ExactEnd(store.durable, store.faults, store.appends - before, r)
        == ExactAttempted(store.orderly, d, script, s, producer, body, maxAmbiguousRetries);
  }

  /** An append that must end right after what is there succeeds exactly by landing. */
  lemma AtTheEnd(orderly: bool, d: Durable, faults: seq<Fault>, s: StreamKey, p: ProducerTuple, body: seq<byte>, retries: nat)
    requires body != []
    ensures var end := ExactAttempted(orderly, d, faults, s, p, body, retries);
            && (end.durable == d || Landed(d, s, p, body, end.durable))
            && (end.answer.Success? && end.answer.value.nextOffset == |Content(d, s)| + |body| ==> Landed(d, s, p, body, end.durable))
            && (end.answer.Success? && end.durable != d ==> end.answer.value.nextOffset == |Content(d, s)| + |body|)
            && (Light(faults, retries) && CanCommit(d, s, p, body) ==> end.answer.Success? && end.durable != d)
            && (NextOf(faults).Deliver? && CanCommit(d, s, p, body) ==> end.faults == RestOf(faults))
            && (Losses(faults) && |faults| <= retries ==> end.faults == [])
  {
    hide ExactAttempted, Light, Losses;
    ExactSettles(orderly, d, faults, s, p, body, retries);
    if CanCommit(d, s, p, body) { CommitHolds(d, s, p, body); }
    if Light(faults, retries) {
      LightScript(orderly, d, faults, s, p, body, retries);
    } else {
      NotLight(faults, retries);
    }
  }

  /** Into an empty stream: success exactly by this body landing, which leaves nothing else there. */
  lemma IntoEmpty(orderly: bool, d: Durable, faults: seq<Fault>, s: StreamKey, p: ProducerTuple, body: seq<byte>, retries: nat)
    requires Content(d, s) == [] && body != []
    ensures var end := ExactAttempted(orderly, d, faults, s, p, body, retries);
            && (end.durable == d || Landed(d, s, p, body, end.durable))
            && (end.answer.Success? ==> Landed(d, s, p, body, end.durable) && end.answer.value.nextOffset == |body|
                                        && s in end.durable.streams && end.durable.streams[s] == body)
            && (Light(faults, retries) ==> (end.answer.Success? <==> CanCommit(d, s, p, body)))
            && (NextOf(faults).Deliver? && CanCommit(d, s, p, body) ==> end.faults == RestOf(faults))
            && (Losses(faults) && |faults| <= retries ==> end.faults == [])
  {
    hide ExactAttempted, Light, Losses;
    ExactSettles(orderly, d, faults, s, p, body, retries);
    AtTheEnd(orderly, d, faults, s, p, body, retries);
    assert [] + body == body;
  }

  lemma LightAfterTwo(faults: seq<Fault>, retries: nat)
    ensures Slips(faults, 2, retries) || Clear(faults, 3) ==> Light(RestOf(RestOf(faults)), retries)
  {
    hide Slips, Clear, Losses;
    TwoDelivered(faults, retries);
  }

  lemma NotLight(faults: seq<Fault>, retries: nat)
    requires !Light(faults, retries)
    ensures !NextOf(faults).Deliver? && !(Losses(faults) && |faults| <= retries)
  {
  }

  lemma VerifiedHolds(d: Durable, fault: Fault, s: StreamKey, nextOffset: nat, body: seq<byte>)
    requires Verified(d, fault, s, nextOffset, body).Success?
    ensures SliceIs(Content(d, s), nextOffset, body)
  {
  }

  /** What one append's answer says, and that a body cannot land twice. */
  lemma AnswerMeans(orderly: bool, d: Durable, fault: Fault, s: StreamKey, p: ProducerTuple, body: seq<byte>)
    requires fault.LoseReply? ==> !fault.error.Rejected?
    ensures var (d', outcome) := Answered(orderly, d, fault, s, p, body);
            && (d' == d || Landed(d, s, p, body, d'))
            && (Landed(d, s, p, body, d') ==> !CanCommit(d', s, p, body))
            && match outcome
               case Success(Committed(n)) => Landed(d, s, p, body, d') && n == |Content(d', s)| && Holds(d', s, p, body, n)
               case Success(Duplicate(n)) => d' == d && Recorded(d, s, p) && d.producers[(s, p.id)].nextOffset == n
               case Failure(e) => e.Rejected? ==> d' == d && (orderly ==> !Recorded(d, s, p))
  {
    if CanCommit(d, s, p, body) { CommitHolds(d, s, p, body); }
  }

  /** Whatever the script: stored at most once, and success only on proof. */
  lemma {:induction false} ExactSettles(orderly: bool, d: Durable, faults: seq<Fault>, s: StreamKey, p: ProducerTuple,
                                        body: seq<byte>, left: nat)
    ensures var end := ExactAttempted(orderly, d, faults, s, p, body, left);
            Settled(d, s, p, body, end.durable, end.answer) && 1 <= end.appends <= left + 1
    decreases left
  {
    hide Verified, Answered, Recorded, CanCommit, SliceIs;
    var (d', outcome) := Answered(orderly, d, NextOf(faults), s, p, body);
    AnswerMeans(orderly, d, NextOf(faults), s, p, body);
    match outcome
    case Success(Committed(n)) =>
    case Success(Duplicate(n)) =>
      if Verified(d', NextOf(RestOf(faults)), s, n, body).Success? {
        VerifiedHolds(d', NextOf(RestOf(faults)), s, n, body);
      }
    case Failure(e) =>
      if e.Ambiguous? && left > 0 {
        ExactSettles(orderly, d', RestOf(faults), s, p, body, left - 1);
      }
  }
}
