/** Bounded retries (ampd/src/asyncutil/future.rs). `attempt(i)` is what the i-th call returns. */
module Retrying {
  import opened Ints
  import opened Outcomes

  /** A policy that allows no attempt at all still makes one. */
  function Attempts(max: u64): nat {
    Max(1, max)
  }

  /** The first success among attempts i..n-1. */
  function FirstSuccess<T>(attempt: nat -> Option<T>, i: nat, n: nat): (r: Option<T>)
    ensures r.Some? <==> exists j :: i <= j < n && attempt(j).Some?
    decreases n - i
  {
    if i >= n then None else if attempt(i).Some? then attempt(i) else FirstSuccess(attempt, i + 1, n)
  }

  /** `with_retry`: calls until the first success, at least once and at most `max` times; without a success
      the last error is returned. */
  method WithRetry<T>(attempt: nat -> Option<T>, max: u64) returns (r: Option<T>, calls: nat)
    ensures r == FirstSuccess(attempt, 0, Attempts(max))
    ensures 1 <= calls <= Attempts(max)
    ensures forall j :: 0 <= j < calls - 1 ==> attempt(j).None?
    ensures r == attempt(calls - 1) && (r.None? ==> calls == if max == 0 then 1 else max)
  {
    var count: u64 := 0;
    calls := 0;
    while true
      invariant count == calls && calls < Attempts(max)
      invariant forall j :: 0 <= j < calls ==> attempt(j).None?
      invariant FirstSuccess(attempt, 0, Attempts(max)) == FirstSuccess(attempt, calls, Attempts(max))
      decreases Attempts(max) - calls
    {
      r := attempt(calls);
      calls := calls + 1;
      if r.Some? { return; }
      count := SaturatingAdd64(count, 1);
      if count >= max { return; }
    }
  }
}

/** The event consumer (ampd/src/event_processor.rs). */
module Consuming {
  import opened Ints
  import opened Outcomes
  import opened BlockStreams
  import MsgQueues
  import opened Retrying

  type Msg = MsgQueues.Any

  datatype Status = Active(event: Event) | TimedOut | Closed | Broken

  /** One round of the loop: what the stream yields, what the handler's attempts on an event return, which
      of the resulting messages the broadcaster takes, and whether the token is cancelled at the end. */
  datatype Round = Round(status: Status, handler: nat -> Option<seq<Msg>>, accepts: nat -> bool, cancelled: bool)

  datatype Outcome = Running | Stopped | StreamError | BroadcastError

  /** Events handled, messages handed to the broadcaster, rounds taken, and how the loop ended. */
  datatype State = State(handled: seq<Event>, sent: seq<Msg>, rounds: nat, outcome: Outcome)

  const START := State([], [], 0, Running)

  /** `should_task_stop` */
  predicate ShouldStop(r: Round) {
    r.status.Closed? || (r.cancelled && (r.status.TimedOut? || (r.status.Active? && r.status.event.BlockEnd?)))
  }

  /** The messages of an event: none if every attempt fails. */
  function Messages(r: Round, max: u64): seq<Msg> {
    FirstSuccess(r.handler, 0, Attempts(max)).GetOr([])
  }

  /** How many messages the broadcaster takes before it first refuses one. */
  function Taken(accepts: nat -> bool, i: nat, n: nat): (k: nat)
    requires i <= n
    ensures i <= k <= n && (forall j :: i <= j < k ==> accepts(j)) && (k < n ==> !accepts(k))
    decreases n - i
  {
    if i == n || !accepts(i) then i else Taken(accepts, i + 1, n)
  }

  /** `handle_event`: a handler that keeps failing is skipped, a refused message ends the loop. */
  function Handled(s: State, r: Round, max: u64): State
    requires r.status.Active?
  {
    var msgs := Messages(r, max);
    var k := Taken(r.accepts, 0, |msgs|);
    State(s.handled + [r.status.event], s.sent + msgs[..k], s.rounds, if k < |msgs| then BroadcastError else s.outcome)
  }

  function Step(s: State, r: Round, max: u64): State {
    if s.outcome != Running then s
    else
      var t := s.(rounds := s.rounds + 1);
      if r.status.Broken? then t.(outcome := StreamError)
      else
        var u := if r.status.Active? then Handled(t, r, max) else t;
        if u.outcome == Running && ShouldStop(r) then u.(outcome := Stopped) else u
  }

  function Run(s: State, rounds: seq<Round>, max: u64): State
    decreases |rounds|
  {
    if |rounds| == 0 then s else Run(Step(s, rounds[0], max), rounds[1..], max)
  }

  // ---------------------------------------------------------------- what a run does

  /** The events the stream yields. */
  function Stream(rounds: seq<Round>): seq<Event>
    decreases |rounds|
  {
    if |rounds| == 0 then []
    else (if rounds[0].status.Active? then [rounds[0].status.event] else []) + Stream(rounds[1..])
  }

  /** All messages of the events the stream yields. */
  function AllMessages(rounds: seq<Round>, max: u64): seq<Msg>
    decreases |rounds|
  {
    if |rounds| == 0 then []
    else (if rounds[0].status.Active? then Messages(rounds[0], max) else []) + AllMessages(rounds[1..], max)
  }

  lemma {:induction false} EndedStays(s: State, rounds: seq<Round>, max: u64)
    requires s.outcome != Running
    ensures Run(s, rounds, max) == s
    decreases |rounds|
  {
    if |rounds| > 0 { EndedStays(s, rounds[1..], max); }
  }

  /** One round at a time from the right. */
  lemma {:induction false} RunSnoc(s: State, rounds: seq<Round>, r: Round, max: u64)
    ensures Run(s, rounds + [r], max) == Step(Run(s, rounds, max), r, max)
    decreases |rounds|
  {
    if |rounds| == 0 {
      assert rounds + [r] == [r];
      assert Run(s, [r], max) == Run(Step(s, r, max), [], max);
    } else {
      assert (rounds + [r])[0] == rounds[0] && (rounds + [r])[1..] == rounds[1..] + [r];
      RunSnoc(Step(s, rounds[0], max), rounds[1..], r, max);
    }
  }

  lemma {:induction false} StreamOne(r: Round, max: u64)
    ensures Stream([r]) == if r.status.Active? then [r.status.event] else []
    ensures AllMessages([r], max) == if r.status.Active? then Messages(r, max) else []
  {
    assert [r][1..] == [];
  }

  lemma {:induction false} StreamConcat(a: seq<Round>, b: seq<Round>)
    ensures Stream(a + b) == Stream(a) + Stream(b)
    decreases |a|
  {
    if |a| == 0 { assert a + b == b; }
    else {
      assert (a + b)[0] == a[0] && (a + b)[1..] == a[1..] + b;
      StreamConcat(a[1..], b);
    }
  }

  lemma {:induction false} MessagesConcat(a: seq<Round>, b: seq<Round>, max: u64)
    ensures AllMessages(a + b, max) == AllMessages(a, max) + AllMessages(b, max)
    decreases |a|
  {
    if |a| == 0 { assert a + b == b; }
    else {
      assert (a + b)[0] == a[0] && (a + b)[1..] == a[1..] + b;
      MessagesConcat(a[1..], b, max);
    }
  }

  lemma {:induction false} StreamSnoc(rounds: seq<Round>, r: Round, max: u64)
    ensures Stream(rounds + [r]) == Stream(rounds) + (if r.status.Active? then [r.status.event] else [])
    ensures AllMessages(rounds + [r], max) ==
              AllMessages(rounds, max) + (if r.status.Active? then Messages(r, max) else [])
  {
    StreamConcat(rounds, [r]);
    MessagesConcat(rounds, [r], max);
    StreamOne(r, max);
  }

  /** How the rounds taken so far determine what has been handled and sent. */
  ghost predicate Faithful(s: State, rounds: seq<Round>, max: u64) {
    && s.rounds <= |rounds|
    && s.handled == Stream(rounds[..s.rounds])
    && (if s.outcome == BroadcastError then s.sent < AllMessages(rounds[..s.rounds], max)
        else s.sent == AllMessages(rounds[..s.rounds], max))
    && (s.outcome == Running ==> s.rounds == |rounds|)
  }

  lemma {:induction false} StepKeepsFaithful(s: State, rounds: seq<Round>, r: Round, max: u64)
    requires Faithful(s, rounds, max)
    ensures Faithful(Step(s, r, max), rounds + [r], max)
  {
    var t := Step(s, r, max);
    if s.outcome != Running {
      assert (rounds + [r])[..s.rounds] == rounds[..s.rounds];
    } else {
      assert rounds[..|rounds|] == rounds && (rounds + [r])[..t.rounds] == rounds + [r];
      StreamSnoc(rounds, r, max);
      if r.status.Active? {
        var msgs := Messages(r, max);
        assert msgs[..|msgs|] == msgs;
      }
    }
  }

  lemma {:induction false} RunIsFaithful(rounds: seq<Round>, max: u64)
    ensures Faithful(Run(START, rounds, max), rounds, max)
    decreases |rounds|
  {
    if |rounds| > 0 {
      var n := |rounds| - 1;
      assert rounds == rounds[..n] + [rounds[n]];
      RunIsFaithful(rounds[..n], max);
      RunSnoc(START, rounds[..n], rounds[n], max);
      StepKeepsFaithful(Run(START, rounds[..n], max), rounds[..n], rounds[n], max);
    }
  }

  /** In every run the handled events are exactly the stream's events of the rounds taken, each handled once
      and in order, and the messages sent are exactly what the handler produced for them, in order; after a
      refused message they are a proper prefix of it. */
  lemma {:induction false} EventsInMessagesOut(rounds: seq<Round>, max: u64)
    ensures var s := Run(START, rounds, max);
            && s.rounds <= |rounds|
            && s.handled == Stream(rounds[..s.rounds])
            && (s.outcome != BroadcastError ==> s.sent == AllMessages(rounds[..s.rounds], max))
            && (s.outcome == BroadcastError ==> s.sent < AllMessages(rounds[..s.rounds], max))
  {
    RunIsFaithful(rounds, max);
  }

  // ---------------------------------------------------------------- when a run ends

  /** A round after which the loop goes on. */
  predicate Passes(r: Round, max: u64) {
    && !r.status.Broken?
    && !ShouldStop(r)
    && (r.status.Active? ==> forall j :: 0 <= j < |Messages(r, max)| ==> r.accepts(j))
  }

  lemma {:induction false} StepPassesIff(s: State, r: Round, max: u64)
    requires s.outcome == Running
    ensures Step(s, r, max).outcome == Running <==> Passes(r, max)
    ensures Step(s, r, max).rounds == s.rounds + 1
    ensures Step(s, r, max).outcome == Stopped <==> (ShouldStop(r) &&
              (r.status.Active? ==> forall j :: 0 <= j < |Messages(r, max)| ==> r.accepts(j)))
  {
  }

  lemma {:induction false} RunsUntil(s: State, rounds: seq<Round>, max: u64)
    requires s.outcome == Running
    ensures var t := Run(s, rounds, max);
            && s.rounds <= t.rounds <= s.rounds + |rounds|
            && (t.outcome == Running <==> forall i :: 0 <= i < |rounds| ==> Passes(rounds[i], max))
            && (t.outcome != Running ==>
                  var n := t.rounds - s.rounds - 1;
                  && 0 <= n < |rounds| && !Passes(rounds[n], max)
                  && (forall i :: 0 <= i < n ==> Passes(rounds[i], max))
                  && (t.outcome == Stopped ==> ShouldStop(rounds[n])))
    decreases |rounds|
  {
    if |rounds| > 0 {
      StepPassesIff(s, rounds[0], max);
      var u := Step(s, rounds[0], max);
      if u.outcome != Running { EndedStays(u, rounds[1..], max); }
      else {
        RunsUntil(u, rounds[1..], max);
        assert forall i :: 1 <= i < |rounds| ==> rounds[i] == rounds[1..][i - 1];
      }
    }
  }

  /** The loop ends in the first round that closes or breaks the stream, in which a message is refused, or
      that is a block end or a timeout under a cancelled token; until then it goes on. */
  lemma {:induction false} EndsExactlyWhen(rounds: seq<Round>, max: u64)
    ensures var t := Run(START, rounds, max);
            && (t.outcome == Running <==> forall i :: 0 <= i < |rounds| ==> Passes(rounds[i], max))
            && (t.outcome != Running ==>
                  && 1 <= t.rounds <= |rounds| && !Passes(rounds[t.rounds - 1], max)
                  && (forall i :: 0 <= i < t.rounds - 1 ==> Passes(rounds[i], max))
                  && (t.outcome == Stopped ==> ShouldStop(rounds[t.rounds - 1])))
  {
    RunsUntil(START, rounds, max);
  }

  /** The loop goes on behind this round, spelled out. */
  predicate GoesOn(r: Round, max: u64) {
    match r.status
    case Broken => false
    case Closed => false
    case TimedOut => !r.cancelled
    case Active(event) =>
      && (forall j :: 0 <= j < |Messages(r, max)| ==> r.accepts(j))
      && !(event.BlockEnd? && r.cancelled)
  }

  /** In every run: the loop takes rounds up to the first one that does not let it go on. A broken stream and a
      refused message are errors; a closed stream, and under a cancelled token a timeout or a block end whose
      messages were all taken, are not. */
  lemma {:induction false} EndsIn(rounds: seq<Round>, max: u64)
    ensures var t := Run(START, rounds, max);
            && t.rounds <= |rounds|
            && (t.outcome == Running <==> forall i :: 0 <= i < |rounds| ==> GoesOn(rounds[i], max))
            && (t.outcome == Running ==> t.rounds == |rounds|)
            && (t.outcome != Running ==>
                  && 1 <= t.rounds && !GoesOn(rounds[t.rounds - 1], max)
                  && (forall i :: 0 <= i < t.rounds - 1 ==> GoesOn(rounds[i], max))
                  && EndsBecause(t.outcome, rounds[t.rounds - 1], max))
    decreases |rounds|
  {
    if |rounds| > 0 {
      var n := |rounds| - 1;
      var front, r := rounds[..n], rounds[n];
      assert rounds == front + [r];
      EndsIn(front, max);
      RunSnoc(START, front, r, max);
      var s := Run(START, front, max);
      assert forall i :: 0 <= i < n ==> rounds[i] == front[i];
      if s.outcome == Running { StepEnds(s, r, max); }
    }
  }

  ghost predicate EndsBecause(outcome: Outcome, r: Round, max: u64) {
    && (outcome == StreamError <==> r.status.Broken?)
    && (outcome == BroadcastError <==> r.status.Active? && exists j :: 0 <= j < |Messages(r, max)| && !r.accepts(j))
    && outcome != Running
  }

  lemma {:induction false} StepEnds(s: State, r: Round, max: u64)
    requires s.outcome == Running
    ensures var t := Step(s, r, max);
            && t.rounds == s.rounds + 1
            && (t.outcome == Running <==> GoesOn(r, max))
            && (t.outcome != Running ==> EndsBecause(t.outcome, r, max))
  {
  }

  /** A refused message ends the loop with everything before it sent, and nothing after it. */
  lemma {:induction false} SentUpToRefused(rounds: seq<Round>, max: u64) returns (k: nat)
    requires Run(START, rounds, max).outcome == BroadcastError
    ensures var t := Run(START, rounds, max);
            && 1 <= t.rounds <= |rounds| && rounds[t.rounds - 1].status.Active?
            && var r := rounds[t.rounds - 1];
            && k < |Messages(r, max)| && !r.accepts(k) && (forall j :: 0 <= j < k ==> r.accepts(j))
            && t.sent == AllMessages(rounds[..t.rounds - 1], max) + Messages(r, max)[..k]
    decreases |rounds|
  {
    var n := |rounds| - 1;
    var front, r := rounds[..n], rounds[n];
    assert rounds == front + [r];
    RunSnoc(START, front, r, max);
    var s := Run(START, front, max);
    if s.outcome == Running {
      RunIsFaithful(front, max);
      assert front[..n] == front;
      k := Taken(r.accepts, 0, |Messages(r, max)|);
      assert Run(START, rounds, max).rounds == n + 1;
    } else {
      k := SentUpToRefused(front, max);
      assert front[..s.rounds - 1] == rounds[..s.rounds - 1];
    }
  }

  /** The messages of a round are those of the first successful attempt; at least one attempt and at most `max` are
      made, and without a success there are no messages. */
  lemma {:induction false} MessagesOfFirstSuccess(r: Round, max: u64, j: nat)
    requires j < if max == 0 then 1 else max
    requires forall i :: 0 <= i < j ==> r.handler(i).None?
    ensures r.handler(j).Some? ==> Messages(r, max) == r.handler(j).value
    ensures r.handler(j).None? && j + 1 == (if max == 0 then 1 else max) ==> Messages(r, max) == []
  {
    SkipsFailures(r.handler, 0, j, Attempts(max));
  }

  lemma {:induction false} SkipsFailures(attempt: nat -> Option<seq<Msg>>, i: nat, j: nat, n: nat)
    requires i <= j < n && forall k :: i <= k < j ==> attempt(k).None?
    ensures FirstSuccess(attempt, i, n) == FirstSuccess(attempt, j, n)
    decreases j - i
  {
    if i < j { SkipsFailures(attempt, i + 1, j, n); }
  }

  // ---------------------------------------------------------------- stopping on block boundaries

  lemma {:induction false} EndsWith(rounds: seq<Round>, r: Round)
    requires r.status.Active?
    ensures var s := Stream(rounds + [r]); s != [] && s[|s| - 1] == r.status.event
  {
    StreamSnoc(rounds, r, 0);
  }

  lemma {:induction false} CutBehindEnd(rounds: seq<Round>, n: nat, rest: seq<Event>)
    requires n < |rounds| && rounds[n].status.Active? && rounds[n].status.event.BlockEnd?
    requires WholeBlocks(Stream(rounds) + rest)
    ensures WholeBlocks(Stream(rounds[..n + 1]))
  {
    var front, back := rounds[..n + 1], rounds[n + 1..];
    EndsWith(rounds[..n], rounds[n]);
    assert front == rounds[..n] + [rounds[n]] && front + back == rounds;
    StreamConcat(front, back);
    assert Stream(front) + (Stream(back) + rest) == Stream(front) + Stream(back) + rest;
    CutAtBlockEnd(Stream(front), Stream(back) + rest);
  }

  /** A consumer that stops because of the token, and neither on a timeout nor on a closed stream, has
      handled whole blocks only, whatever part `rest` of the published blocks it has not received. */
  lemma {:induction false} StopsOnBlockBoundary(rounds: seq<Round>, rest: seq<Event>, max: u64)
    requires Run(START, rounds, max).outcome == Stopped
    requires var n := Run(START, rounds, max).rounds; 0 < n <= |rounds| && rounds[n - 1].status.Active?
    requires WholeBlocks(Stream(rounds) + rest)
    ensures var s := Run(START, rounds, max);
            WholeBlocks(s.handled) && s.handled <= Stream(rounds) && s.sent == AllMessages(rounds[..s.rounds], max)
  {
    var s := Run(START, rounds, max);
    EventsInMessagesOut(rounds, max);
    EndsExactlyWhen(rounds, max);
    CutBehindEnd(rounds, s.rounds - 1, rest);
    StreamConcat(rounds[..s.rounds], rounds[s.rounds..]);
    assert rounds[..s.rounds] + rounds[s.rounds..] == rounds;
  }

  // ---------------------------------------------------------------- the loops themselves

  class Consumer {
    var handled: seq<Event>
    var sent: seq<Msg>
    var rounds: nat

    constructor ()
      ensures Contents(Running) == START
    {
      handled, sent, rounds := [], [], 0;
    }

    function Contents(outcome: Outcome): State
      reads this
    {
      State(handled, sent, rounds, outcome)
    }

    method HandleEvent(r: Round, max: u64) returns (outcome: Outcome)
      requires r.status.Active?
      modifies this`handled, this`sent
      ensures Contents(outcome) == Handled(old(Contents(Running)), r, max)
    {
      var msgs, _ := WithRetry(r.handler, max);
      handled := handled + [r.status.event];
      if msgs.None? { return Running; }
      var all := msgs.value;
      ghost var k := Taken(r.accepts, 0, |all|);
      for i := 0 to |all|
        invariant i <= k && Taken(r.accepts, i, |all|) == k
        invariant handled == old(handled) + [r.status.event] && sent == old(sent) + all[..i]
      {
        if !r.accepts(i) { return BroadcastError; }
        sent := sent + [all[i]];
      }
      return Running;
    }

    method ConsumeEvents(input: seq<Round>, max: u64) returns (outcome: Outcome)
      modifies this
      ensures Contents(outcome) == Run(old(Contents(Running)), input, max)
    {
      ghost var whole := Run(Contents(Running), input, max);
      outcome := Running;
      for i := 0 to |input|
        invariant outcome == Running && Run(Contents(Running), input[i..], max) == whole
      {
        var r := input[i];
        ghost var s := Contents(Running);
        assert input[i..][0] == r && input[i..][1..] == input[i + 1..];
        rounds := rounds + 1;
        if r.status.Broken? { outcome := StreamError; }
        else {
          if r.status.Active? { outcome := HandleEvent(r, max); }
          if outcome == Running && ShouldStop(r) { outcome := Stopped; }
        }
        assert Contents(outcome) == Step(s, r, max);
        if outcome != Running {
          EndedStays(Contents(outcome), input[i + 1..], max);
          return;
        }
      }
    }
  }
}

/** What passes between a consumer and the broadcaster: each message and whether it was acknowledged. */
module ClientCalls {
  import opened Ints
  import MsgQueues
  import BroadcastLoop
  import Consuming

  datatype Ask = Ask(msg: MsgQueues.Any, acknowledged: bool)

  function Acknowledged(asks: seq<Ask>): seq<MsgQueues.Any>
    decreases |asks|
  {
    if |asks| == 0 then [] else (if asks[0].acknowledged then [asks[0].msg] else []) + Acknowledged(asks[1..])
  }

  lemma {:induction false} AcknowledgedConcat(a: seq<Ask>, b: seq<Ask>)
    ensures Acknowledged(a + b) == Acknowledged(a) + Acknowledged(b)
    decreases |a|
  {
    if |a| == 0 { assert a + b == b; }
    else {
      assert (a + b)[0] == a[0] && (a + b)[1..] == a[1..] + b;
      AcknowledgedConcat(a[1..], b);
    }
  }

  // ---------------------------------------------------------------- the consumer's side

  /** The messages taken, in order. */
  function AllTaken(msgs: seq<MsgQueues.Any>): seq<Ask> {
    if msgs == [] then [] else [Ask(msgs[0], true)] + AllTaken(msgs[1..])
  }

  lemma {:induction false} AllTakenAcknowledged(msgs: seq<MsgQueues.Any>)
    ensures Acknowledged(AllTaken(msgs)) == msgs
  {
    if msgs != [] {
      AllTakenAcknowledged(msgs[1..]);
      assert AllTaken(msgs)[1..] == AllTaken(msgs[1..]);
    }
  }

  /** What one round asks the broadcaster: the messages of the event up to and including a refused one. */
  function AsksOf(r: Consuming.Round, max: u64): seq<Ask> {
    if !r.status.Active? then []
    else
      var msgs := Consuming.Messages(r, max);
      var k := Consuming.Taken(r.accepts, 0, |msgs|);
      AllTaken(msgs[..k]) + (if k < |msgs| then [Ask(msgs[k], false)] else [])
  }

  function AsksOfAll(rounds: seq<Consuming.Round>, max: u64): seq<Ask>
    decreases |rounds|
  {
    if |rounds| == 0 then [] else AsksOfAll(rounds[..|rounds| - 1], max) + AsksOf(rounds[|rounds| - 1], max)
  }

  lemma {:induction false} RoundAcknowledged(r: Consuming.Round, max: u64)
    ensures r.status.Active? ==>
              var msgs := Consuming.Messages(r, max);
              Acknowledged(AsksOf(r, max)) == msgs[..Consuming.Taken(r.accepts, 0, |msgs|)]
    ensures !r.status.Active? ==> Acknowledged(AsksOf(r, max)) == []
  {
    if r.status.Active? {
      var msgs := Consuming.Messages(r, max);
      var k := Consuming.Taken(r.accepts, 0, |msgs|);
      var refused := if k < |msgs| then [Ask(msgs[k], false)] else [];
      AllTakenAcknowledged(msgs[..k]);
      AcknowledgedConcat(AllTaken(msgs[..k]), refused);
      assert Acknowledged(refused) == [];
    }
  }

  lemma {:induction false} RoundSent(s: Consuming.State, r: Consuming.Round, max: u64)
    requires s.outcome == Consuming.Running
    ensures Consuming.Step(s, r, max).sent == s.sent + Acknowledged(AsksOf(r, max))
    ensures Consuming.Step(s, r, max).rounds == s.rounds + 1
  {
    RoundAcknowledged(r, max);
    if !r.status.Active? { assert s.sent + [] == s.sent; }
  }

  /** A consumer has sent exactly the messages that were acknowledged to it. */
  lemma {:induction false} SentIsAcknowledged(rounds: seq<Consuming.Round>, max: u64)
    ensures var s := Consuming.Run(Consuming.START, rounds, max);
            && s.rounds <= |rounds|
            && s.sent == Acknowledged(AsksOfAll(rounds[..s.rounds], max))
            && (s.outcome == Consuming.Running ==> s.rounds == |rounds|)
    decreases |rounds|
  {
    if |rounds| > 0 {
      var n := |rounds| - 1;
      var front, r := rounds[..n], rounds[n];
      assert rounds == front + [r];
      SentIsAcknowledged(front, max);
      Consuming.RunSnoc(Consuming.START, front, r, max);
      var s := Consuming.Run(Consuming.START, front, max);
      if s.outcome != Consuming.Running {
        assert rounds[..s.rounds] == front[..s.rounds];
      } else {
        assert front[..n] == front && rounds[..n + 1] == rounds;
        RoundSent(s, r, max);
        AcknowledgedConcat(AsksOfAll(front, max), AsksOf(r, max));
      }
    }
  }

  // ---------------------------------------------------------------- the broadcaster's side

  /** The arrivals and their answers. */
  function Answered(events: seq<BroadcastLoop.Event>): seq<Ask>
    decreases |events|
  {
    if |events| == 0 then []
    else (if events[0].Arrival? then [Ask(events[0].msg, events[0].estimate.Some?)] else []) + Answered(events[1..])
  }

  lemma {:induction false} StepAcks(s: BroadcastLoop.State, event: BroadcastLoop.Event)
    requires s.status.Running? && BroadcastLoop.Step(s, event).status.Running?
    ensures MsgQueues.Messages(BroadcastLoop.Step(s, event).acked) ==
              MsgQueues.Messages(s.acked) + Acknowledged(Answered([event]))
  {
    assert [event][1..] == [];
    if event.Arrival? {
      var ask := Ask(event.msg, event.estimate.Some?);
      assert Answered([event]) == [ask] && [ask][1..] == [];
    }
  }

  /** A loop that still runs has acknowledged exactly the arrivals it answered with Ok. */
  lemma {:induction false} LoopAcks(s: BroadcastLoop.State, events: seq<BroadcastLoop.Event>)
    requires s.status.Running? && BroadcastLoop.Loop(s, events).status.Running?
    ensures MsgQueues.Messages(BroadcastLoop.Loop(s, events).acked) ==
              MsgQueues.Messages(s.acked) + Acknowledged(Answered(events))
    decreases |events|
  {
    if events != [] {
      var t := BroadcastLoop.Step(s, events[0]);
      StepAcks(s, events[0]);
      LoopAcks(t, events[1..]);
      AnsweredCons(events);
      AcknowledgedConcat(Answered([events[0]]), Answered(events[1..]));
    }
  }

  lemma {:induction false} AnsweredCons(events: seq<BroadcastLoop.Event>)
    requires events != []
    ensures Answered(events) == Answered([events[0]]) + Answered(events[1..])
  {
    assert [events[0]][1..] == [];
  }

  // ---------------------------------------------------------------- several clients

  /** An ask and the client that makes it. */
  datatype Tagged = Tagged(client: nat, ask: Ask)

  function Untagged(tagged: seq<Tagged>): seq<Ask> {
    if tagged == [] then [] else [tagged[0].ask] + Untagged(tagged[1..])
  }

  /** One client's asks, in the order in which they are made. */
  function AsksBy(tagged: seq<Tagged>, client: nat): seq<Ask> {
    if tagged == [] then []
    else (if tagged[0].client == client then [tagged[0].ask] else []) + AsksBy(tagged[1..], client)
  }

  /** A message and the client that sent it. */
  datatype Sent = Sent(client: nat, msg: MsgQueues.Any)

  function AcknowledgedTagged(tagged: seq<Tagged>): seq<Sent> {
    if tagged == [] then []
    else
      (if tagged[0].ask.acknowledged then [Sent(tagged[0].client, tagged[0].ask.msg)] else [])
      + AcknowledgedTagged(tagged[1..])
  }

  function SentMessages(sent: seq<Sent>): seq<MsgQueues.Any> {
    if sent == [] then [] else [sent[0].msg] + SentMessages(sent[1..])
  }

  function SentBy(sent: seq<Sent>, client: nat): seq<MsgQueues.Any> {
    if sent == [] then [] else (if sent[0].client == client then [sent[0].msg] else []) + SentBy(sent[1..], client)
  }

  lemma {:induction false} TaggedMessages(tagged: seq<Tagged>)
    ensures SentMessages(AcknowledgedTagged(tagged)) == Acknowledged(Untagged(tagged))
  {
    if tagged != [] {
      TaggedMessages(tagged[1..]);
      assert Untagged(tagged)[1..] == Untagged(tagged[1..]);
      if tagged[0].ask.acknowledged {
        assert AcknowledgedTagged(tagged)[1..] == AcknowledgedTagged(tagged[1..]);
      } else {
        assert AcknowledgedTagged(tagged) == AcknowledgedTagged(tagged[1..]);
      }
    }
  }

  lemma {:induction false} TaggedByClient(tagged: seq<Tagged>, client: nat)
    ensures SentBy(AcknowledgedTagged(tagged), client) == Acknowledged(AsksBy(tagged, client))
  {
    if tagged != [] {
      var first, rest := tagged[0], tagged[1..];
      TaggedByClient(rest, client);
      SentByStep(if first.ask.acknowledged then [Sent(first.client, first.ask.msg)] else [], AcknowledgedTagged(rest), client);
      AcknowledgedConcat(if first.client == client then [first.ask] else [], AsksBy(rest, client));
      assert Acknowledged([first.ask]) == if first.ask.acknowledged then [first.ask.msg] else [];
    }
  }

  lemma {:induction false} SentByStep(first: seq<Sent>, rest: seq<Sent>, client: nat)
    requires |first| <= 1
    ensures SentBy(first + rest, client) ==
              (if first != [] && first[0].client == client then [first[0].msg] else []) + SentBy(rest, client)
  {
    if first == [] { assert first + rest == rest; }
    else { assert (first + rest)[1..] == rest; }
  }
}

/** The publisher, its consumers and the broadcaster they share. */
module BlockPipeline {
  import opened Ints
  import Outcomes
  import Sums
  import MsgQueues
  import BlockStreams
  import ChainEvents
  import Publishing
  import Consuming
  import BroadcastLoop
  import ClientCalls

  /** A consumer: what had been published when it subscribed, and the rounds it takes. */
  datatype Client = Client(missed: seq<BlockStreams.Event>, rounds: seq<Consuming.Round>, max: u64) {
    function Outcome(): Consuming.State {
      Consuming.Run(Consuming.START, rounds, max)
    }

    /** Everything asked of the broadcaster. */
    ghost function Asks(): seq<ClientCalls.Ask> {
      ClientCalls.AsksOfAll(if Outcome().rounds <= |rounds| then rounds[..Outcome().rounds] else rounds, max)
    }
  }

  /** A client has sent exactly what was acknowledged of its asks. */
  lemma {:induction false} ClientSent(c: Client)
    ensures c.Outcome().rounds <= |c.rounds|
    ensures c.Outcome().sent == ClientCalls.Acknowledged(c.Asks())
  {
    ClientCalls.SentIsAcknowledged(c.rounds, c.max);
  }

  /** The broadcaster has answered the asks of all clients, in some interleaving. */
  ghost predicate Interleaves(clients: seq<Client>, tagged: seq<ClientCalls.Tagged>, events: seq<BroadcastLoop.Event>) {
    && ClientCalls.Answered(events) == ClientCalls.Untagged(tagged)
    && forall c :: 0 <= c < |clients| ==> ClientCalls.AsksBy(tagged, c) == clients[c].Asks()
  }

  /** An error-free broadcaster shared by any number of clients delivers an interleaving of what they have sent:
      its batches, one after the other, hold every client's messages in that client's order, each once. */
  lemma {:induction false} BatchesInterleaveClients(
    clients: seq<Client>, tagged: seq<ClientCalls.Tagged>, limit: u64, events: seq<BroadcastLoop.Event>,
    last: BroadcastLoop.Link)
    requires BroadcastLoop.Run(limit, events, last).status.Finished?
    requires Interleaves(clients, tagged, events)
    ensures var sent := ClientCalls.AcknowledgedTagged(tagged);
            && MsgQueues.Messages(Sums.Flatten(BroadcastLoop.Run(limit, events, last).delivered)) ==
                 ClientCalls.SentMessages(sent)
            && forall c :: 0 <= c < |clients| ==> ClientCalls.SentBy(sent, c) == clients[c].Outcome().sent
  {
    BroadcastLoop.LoopNeverFinishes(BroadcastLoop.Initial(limit), events);
    ClientCalls.LoopAcks(BroadcastLoop.Initial(limit), events);
    BroadcastLoop.FinishedDelivers(limit, events, last);
    assert MsgQueues.Messages([]) == [];
    ClientCalls.TaggedMessages(tagged);
    forall c | 0 <= c < |clients|
      ensures ClientCalls.SentBy(ClientCalls.AcknowledgedTagged(tagged), c) == clients[c].Outcome().sent
    {
      ClientCalls.TaggedByClient(tagged, c);
      ClientSent(clients[c]);
    }
  }

  /** The client subscribed between two blocks and receives from then on what the publisher sends. */
  ghost predicate Subscribes(c: Client, sent: seq<BlockStreams.Event>) {
    BlockStreams.WholeBlocks(c.missed) && c.missed + Consuming.Stream(c.rounds) <= sent
  }

  /** The client stopped because of the token, on an event. */
  ghost predicate StopsByToken(c: Client) {
    var s := c.Outcome();
    s.outcome == Consuming.Stopped && 0 < s.rounds <= |c.rounds| && c.rounds[s.rounds - 1].status.Active?
  }

  /** It has handled whole blocks only, and sent everything its handler produced for them. */
  lemma {:induction false} ClientHandlesWholeBlocks(c: Client, start: nat, ticks: seq<Publishing.Tick>)
    requires Subscribes(c, Publishing.Run(Publishing.Begin(start), ticks).sent) && StopsByToken(c)
    ensures var s, sent := c.Outcome(), Publishing.Run(Publishing.Begin(start), ticks).sent;
            && BlockStreams.WholeBlocks(s.handled)
            && c.missed + s.handled <= sent
            && s.sent == Consuming.AllMessages(c.rounds[..s.rounds], c.max)
  {
    Publishing.OnlyWholeBlocks(start, ticks);
    var received, sent := Consuming.Stream(c.rounds), Publishing.Run(Publishing.Begin(start), ticks).sent;
    var rest := sent[|c.missed| + |received|..];
    assert sent == c.missed + (received + rest);
    BlockStreams.ReadConcat(BlockStreams.Reader(true, Outcomes.None), c.missed, received + rest);
    Consuming.StopsOnBlockBoundary(c.rounds, rest, c.max);
  }

  /** The handled events are the chain's: those of the heights from the i-th to the one before the j-th that the
      publisher has handled; the first i it had handled before the client subscribed. */
  ghost predicate HandlesChain(c: Client, visited: seq<nat>, chain: nat -> BlockStreams.BlockResults, i: nat, j: nat) {
    && i <= j <= |visited|
    && c.missed == ChainEvents.Blocks(visited[..i], chain)
    && c.Outcome().handled == ChainEvents.Blocks(visited[i..j], chain)
  }

  ghost predicate HandlesSomeOf(c: Client, visited: seq<nat>, chain: nat -> BlockStreams.BlockResults) {
    exists i, j :: HandlesChain(c, visited, chain, i, j)
  }

  lemma {:induction false} ClientHandlesTheChain(
    c: Client, start: nat, ticks: seq<Publishing.Tick>, chain: nat -> BlockStreams.BlockResults)
    requires Publishing.Shown(ticks, chain)
    requires Subscribes(c, Publishing.Run(Publishing.Begin(start), ticks).sent) && StopsByToken(c)
    ensures HandlesSomeOf(c, Publishing.Run(Publishing.Begin(start), ticks).visited, chain)
  {
    var s := Publishing.Run(Publishing.Begin(start), ticks);
    Publishing.PublishesTheChain(start, ticks, chain);
    ClientHandlesWholeBlocks(c, start, ticks);
    var i, j := ChainEvents.WholePart(c.missed, c.Outcome().handled, s.visited, chain);
    assert HandlesChain(c, s.visited, chain, i, j);
  }

  /** The whole pipeline: consumers that subscribed between blocks, at any time, and stop because of the token
      have handled whole blocks, and these are the chain's; and if the broadcaster they share ends without error,
      its batches are an interleaving of the outputs that the handlers produced for these blocks, each consumer's
      in order. */
  lemma {:induction false} WholeBlocksEndToEnd(
    start: nat, ticks: seq<Publishing.Tick>, chain: nat -> BlockStreams.BlockResults,
    clients: seq<Client>, tagged: seq<ClientCalls.Tagged>,
    limit: u64, events: seq<BroadcastLoop.Event>, last: BroadcastLoop.Link)
    requires forall c :: 0 <= c < |clients| ==>
               Subscribes(clients[c], Publishing.Run(Publishing.Begin(start), ticks).sent) && StopsByToken(clients[c])
    requires Interleaves(clients, tagged, events)
    ensures forall c :: 0 <= c < |clients| ==> BlockStreams.WholeBlocks(clients[c].Outcome().handled)
    ensures Publishing.Shown(ticks, chain) ==>
              forall c :: 0 <= c < |clients| ==>
                HandlesSomeOf(clients[c], Publishing.Run(Publishing.Begin(start), ticks).visited, chain)
    ensures BroadcastLoop.Run(limit, events, last).status.Finished? ==>
              var sent := ClientCalls.AcknowledgedTagged(tagged);
              && MsgQueues.Messages(Sums.Flatten(BroadcastLoop.Run(limit, events, last).delivered)) ==
                   ClientCalls.SentMessages(sent)
              && forall c :: 0 <= c < |clients| ==>
                   && clients[c].Outcome().rounds <= |clients[c].rounds|
                   && ClientCalls.SentBy(sent, c) ==
                        Consuming.AllMessages(clients[c].rounds[..clients[c].Outcome().rounds], clients[c].max)
  {
    forall c | 0 <= c < |clients|
      ensures BlockStreams.WholeBlocks(clients[c].Outcome().handled)
      ensures clients[c].Outcome().rounds <= |clients[c].rounds|
      ensures clients[c].Outcome().sent ==
                Consuming.AllMessages(clients[c].rounds[..clients[c].Outcome().rounds], clients[c].max)
    {
      ClientHandlesWholeBlocks(clients[c], start, ticks);
    }
    if Publishing.Shown(ticks, chain) {
      forall c | 0 <= c < |clients|
        ensures HandlesSomeOf(clients[c], Publishing.Run(Publishing.Begin(start), ticks).visited, chain)
      {
        ClientHandlesTheChain(clients[c], start, ticks, chain);
      }
    }
    if BroadcastLoop.Run(limit, events, last).status.Finished? {
      BatchesInterleaveClients(clients, tagged, limit, events, last);
    }
  }
}
