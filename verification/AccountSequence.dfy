/** The account-sequence cache of the basic broadcaster (ampd/src/broadcaster/mod.rs). */
module AccountSequences {
  import opened Ints
  import opened Outcomes

  /** How far a broadcast gets after the sequence number has been chosen. */
  datatype Delivery = FeeEstimationFails | SigningFails | RpcFails | NotAccepted | Accepted

  /** A call with the chain's answer to the account query; None when the query fails or the account
      is unknown. */
  datatype Call =
    | EstimateFee(answer: Option<u64>, feeFails: bool)
    | Broadcast(answer: Option<u64>, delivery: Delivery)

  /** An accepted transaction, and how many account queries had been answered when it was built. */
  datatype Tx = Tx(sequence: u64, queries: nat)

  datatype Error = QueryAccount | FeeEstimation | TxBuilding | Broadcasting | TxNotAccepted | SequenceExhausted

  datatype State = State(cache: Option<u64>, answers: seq<u64>, accepted: seq<Tx>, panicked: bool)

  const INITIAL := State(None, [], [], false)

  /** `acc_number_and_sequence` for an answered query: the larger of the answer and the cache. */
  function Refresh(s: State, answer: u64): State {
    s.(cache := Some(Max(answer, s.cache.GetOr(0))), answers := s.answers + [answer])
  }

  function Step(s: State, call: Call): State {
    if call.answer.None? then s
    else
      var t := Refresh(s, call.answer.value);
      if call.Broadcast? && call.delivery.Accepted? then Accept(t) else t
  }

  /** An accepted transaction moves the cache one on; at the largest number that panics. */
  function Accept(s: State): State
    requires s.cache.Some?
  {
    var t := s.(accepted := s.accepted + [Tx(s.cache.value, |s.answers|)]);
    if s.cache.value == U64_MAX then t.(panicked := true) else t.(cache := Some(s.cache.value + 1))
  }

  function Run(s: State, calls: seq<Call>): State
    decreases |calls|
  {
    if calls == [] || s.panicked then s else Run(Step(s, calls[0]), calls[1..])
  }

  // ---------------------------------------------------------------- what the cache holds

  /** The largest element, 0 for the empty sequence. */
  function MaxSeq(s: seq<u64>): u64 {
    if s == [] then 0 else Max(s[|s| - 1], MaxSeq(s[..|s| - 1]))
  }

  lemma {:induction false} MaxSeqIsLargest(s: seq<u64>)
    ensures forall k :: 0 <= k < |s| ==> s[k] <= MaxSeq(s)
    ensures s != [] ==> exists k :: 0 <= k < |s| && s[k] == MaxSeq(s)
  {
    if s != [] {
      var init := s[..|s| - 1];
      MaxSeqIsLargest(init);
      assert forall k :: 0 <= k < |init| ==> s[k] == init[k];
      assert MaxSeq([]) == 0;
      if init == [] || MaxSeq(s) == s[|s| - 1] {
        assert s[|s| - 1] == MaxSeq(s);
      } else {
        var k :| 0 <= k < |init| && init[k] == MaxSeq(init);
        assert s[k] == MaxSeq(s);
      }
    }
  }

  /** The smallest number that the first i accepted transactions leave free. */
  function NextFree(accepted: seq<Tx>, i: nat): nat
    requires i <= |accepted|
  {
    if i == 0 then 0 else accepted[i - 1].sequence + 1
  }

  /** The closed form of a number ever used: the largest chain answer so far, unless the previous
      accepted transaction already used it. */
  ghost predicate Explained(answers: seq<u64>, accepted: seq<Tx>, i: nat)
    requires i < |accepted|
  {
    && (if i == 0 then 0 else accepted[i - 1].queries) < accepted[i].queries <= |answers|
    && accepted[i].sequence == Max(MaxSeq(answers[..accepted[i].queries]), NextFree(accepted, i))
  }

  ghost predicate Inv(s: State) {
    && (forall i: nat :: i < |s.accepted| ==> Explained(s.answers, s.accepted, i))
    && (s.cache.None? <==> s.answers == [])
    && (!s.panicked && s.cache.Some? ==>
          s.cache.value == Max(MaxSeq(s.answers), NextFree(s.accepted, |s.accepted|)))
  }

  /** Between a refresh and the next one, the last accepted transaction is older than the last answer. */
  ghost predicate Refreshed(s: State) {
    s.answers != [] && (s.accepted != [] ==> s.accepted[|s.accepted| - 1].queries < |s.answers|)
  }

  lemma RefreshKeeps(s: State, answer: u64)
    requires Inv(s) && !s.panicked
    ensures Inv(Refresh(s, answer)) && Refreshed(Refresh(s, answer))
  {
    var answers := s.answers + [answer];
    assert answers[..|answers| - 1] == s.answers;
    forall i: nat | i < |s.accepted|
      ensures Explained(answers, s.accepted, i)
    {
      assert Explained(s.answers, s.accepted, i);
      var q := s.accepted[i].queries;
      assert answers[..q] == s.answers[..q];
    }
    assert s.accepted != [] ==> Explained(s.answers, s.accepted, |s.accepted| - 1);
  }

  lemma AcceptKeeps(s: State)
    requires Inv(s) && Refreshed(s) && !s.panicked
    ensures Inv(Accept(s))
  {
    assert s.answers[..|s.answers|] == s.answers;
    var t := Accept(s);
    forall i: nat | i < |t.accepted|
      ensures Explained(s.answers, t.accepted, i)
    {
      assert i < |s.accepted| ==> Explained(s.answers, s.accepted, i);
    }
  }

  lemma StepKeeps(s: State, call: Call)
    requires Inv(s) && !s.panicked
    ensures Inv(Step(s, call))
  {
    if call.answer.Some? {
      RefreshKeeps(s, call.answer.value);
      if call.Broadcast? && call.delivery.Accepted? { AcceptKeeps(Refresh(s, call.answer.value)); }
    }
  }

  lemma {:induction false} RunKeeps(s: State, calls: seq<Call>)
    requires Inv(s)
    ensures Inv(Run(s, calls))
    decreases |calls|
  {
    if calls != [] && !s.panicked {
      StepKeeps(s, calls[0]);
      RunKeeps(Step(s, calls[0]), calls[1..]);
    }
  }

  /** No accepted number is below the chain's answer when it was chosen. */
  lemma AcceptedCoversAnswer(calls: seq<Call>, i: nat)
    requires i < |Run(INITIAL, calls).accepted|
    ensures var s := Run(INITIAL, calls);
            && 0 < s.accepted[i].queries <= |s.answers|
            && s.answers[s.accepted[i].queries - 1] <= s.accepted[i].sequence
  {
    RunKeeps(INITIAL, calls);
    var s := Run(INITIAL, calls);
    assert Explained(s.answers, s.accepted, i);
    var seen := s.answers[..s.accepted[i].queries];
    MaxSeqIsLargest(seen);
    assert seen[|seen| - 1] <= MaxSeq(seen);
  }

  /** Over any mix of estimates, failed broadcasts and stale or jumping answers, accepted numbers
      strictly increase. */
  lemma {:induction false} AcceptedStrictlyIncrease(calls: seq<Call>, i: nat, j: nat)
    requires i < j < |Run(INITIAL, calls).accepted|
    ensures Run(INITIAL, calls).accepted[i].sequence < Run(INITIAL, calls).accepted[j].sequence
    decreases j
  {
    RunKeeps(INITIAL, calls);
    var s := Run(INITIAL, calls);
    assert Explained(s.answers, s.accepted, j);
    if i < j - 1 { AcceptedStrictlyIncrease(calls, i, j - 1); }
  }

  /** Two neighbouring accepted numbers are consecutive exactly when no query between the two
      transactions answered above the local value. */
  lemma ContiguousIff(calls: seq<Call>, i: nat)
    requires i + 1 < |Run(INITIAL, calls).accepted|
    ensures var s := Run(INITIAL, calls);
            && s.accepted[i].queries < s.accepted[i + 1].queries <= |s.answers|
            && (s.accepted[i + 1].sequence == s.accepted[i].sequence + 1 <==>
                forall q :: s.accepted[i].queries <= q < s.accepted[i + 1].queries ==>
                  s.answers[q] <= s.accepted[i].sequence + 1)
  {
    RunKeeps(INITIAL, calls);
    var s := Run(INITIAL, calls);
    var a, b := s.accepted[i], s.accepted[i + 1];
    assert Explained(s.answers, s.accepted, i) && Explained(s.answers, s.accepted, i + 1);
    var before, seen := s.answers[..a.queries], s.answers[..b.queries];
    MaxSeqIsLargest(before);
    MaxSeqIsLargest(seen);
    var top :| 0 <= top < |seen| && seen[top] == MaxSeq(seen);
    assert top < a.queries ==> before[top] == seen[top];
    assert forall q :: 0 <= q < b.queries ==> seen[q] == s.answers[q];
  }

  // ---------------------------------------------------------------- the numbers a run uses

  /** The answers of the account queries, by estimates and broadcasts alike, whether or not these succeed. */
  function AnswersOf(calls: seq<Call>): seq<u64> {
    if calls == [] then []
    else
      var last := calls[|calls| - 1];
      AnswersOf(calls[..|calls| - 1]) + (if last.answer.Some? then [last.answer.value] else [])
  }

  /** The numbers of the accepted transactions: the largest answer so far, or the one behind the last number used
      if that is larger. */
  function NumbersOf(calls: seq<Call>): seq<nat> {
    if calls == [] then []
    else
      var before, last := NumbersOf(calls[..|calls| - 1]), calls[|calls| - 1];
      if last.Broadcast? && last.answer.Some? && last.delivery.Accepted? then
        var free := if before == [] then 0 else before[|before| - 1] + 1;
        before + [if MaxSeq(AnswersOf(calls)) >= free then MaxSeq(AnswersOf(calls)) else free]
      else before
  }

  function Sequences(accepted: seq<Tx>): (r: seq<nat>)
    ensures |r| == |accepted| && forall i :: 0 <= i < |r| ==> r[i] == accepted[i].sequence
  {
    seq(|accepted|, i requires 0 <= i < |accepted| => accepted[i].sequence)
  }

  lemma {:induction false} RunSnoc(s: State, calls: seq<Call>, call: Call)
    ensures Run(s, calls + [call]) == if Run(s, calls).panicked then Run(s, calls) else Step(Run(s, calls), call)
    decreases |calls|
  {
    if calls == [] {
      assert calls + [call] == [call] && [call][1..] == [];
    } else if !s.panicked {
      assert (calls + [call])[0] == calls[0] && (calls + [call])[1..] == calls[1..] + [call];
      RunSnoc(Step(s, calls[0]), calls[1..], call);
    }
  }

  /** The number chosen after an answered query. */
  lemma {:induction false} ChosenNumber(s: State, answer: u64)
    requires Inv(s) && !s.panicked
    ensures Refresh(s, answer).cache == Some(Max(MaxSeq(s.answers + [answer]), NextFree(s.accepted, |s.accepted|)))
  {
    assert (s.answers + [answer])[..|s.answers|] == s.answers;
    if s.accepted != [] { assert Explained(s.answers, s.accepted, 0); }
    assert MaxSeq([]) == 0;
  }

  lemma {:induction false} AnswersSnoc(calls: seq<Call>, call: Call)
    ensures AnswersOf(calls + [call]) == AnswersOf(calls) + (if call.answer.Some? then [call.answer.value] else [])
  {
    var all := calls + [call];
    assert all[..|all| - 1] == calls && all[|all| - 1] == call;
  }

  lemma {:induction false} StepAnswers(s: State, call: Call)
    ensures Step(s, call).answers == s.answers + (if call.answer.Some? then [call.answer.value] else [])
  {
    if call.answer.None? { assert s.answers + [] == s.answers; }
  }

  lemma {:induction false} SequencesSnoc(accepted: seq<Tx>, tx: Tx)
    ensures Sequences(accepted + [tx]) == Sequences(accepted) + [tx.sequence]
  {
  }

  lemma {:induction false} NumbersSnoc(calls: seq<Call>, call: Call, accepted: seq<Tx>)
    requires Sequences(accepted) == NumbersOf(calls)
    ensures NumbersOf(calls + [call]) ==
              if call.Broadcast? && call.answer.Some? && call.delivery.Accepted?
              then NumbersOf(calls) + [Max(MaxSeq(AnswersOf(calls + [call])), NextFree(accepted, |accepted|))]
              else NumbersOf(calls)
  {
    var all := calls + [call];
    assert all[..|all| - 1] == calls && all[|all| - 1] == call;
    if accepted != [] { assert Sequences(accepted)[|accepted| - 1] == accepted[|accepted| - 1].sequence; }
  }

  lemma {:induction false} StepNumbers(s: State, calls: seq<Call>, call: Call)
    requires Inv(s) && !s.panicked && s.answers == AnswersOf(calls) && Sequences(s.accepted) == NumbersOf(calls)
    ensures Step(s, call).answers == AnswersOf(calls + [call])
    ensures Sequences(Step(s, call).accepted) == NumbersOf(calls + [call])
  {
    StepAnswers(s, call);
    AnswersSnoc(calls, call);
    NumbersSnoc(calls, call, s.accepted);
    if call.answer.Some? {
      ChosenNumber(s, call.answer.value);
      var t := Refresh(s, call.answer.value);
      SequencesSnoc(s.accepted, Tx(t.cache.value, |t.answers|));
    }
  }

  /** Over every run that does not reach the largest number: the queries answered are those of all calls, and the
      accepted transactions carry the numbers that follow from the answers and from which broadcasts were accepted. */
  lemma {:induction false} RunUsesNumbers(calls: seq<Call>)
    requires !Run(INITIAL, calls).panicked
    ensures Run(INITIAL, calls).answers == AnswersOf(calls)
    ensures Sequences(Run(INITIAL, calls).accepted) == NumbersOf(calls)
    decreases |calls|
  {
    if calls != [] {
      var front, call := calls[..|calls| - 1], calls[|calls| - 1];
      assert calls == front + [call];
      RunSnoc(INITIAL, front, call);
      RunUsesNumbers(front);
      RunKeeps(INITIAL, front);
      StepNumbers(Run(INITIAL, front), front, call);
    }
  }

  /** A run panics exactly when a transaction with the largest number is accepted. */
  lemma {:induction false} PanicsIff(calls: seq<Call>)
    ensures Run(INITIAL, calls).panicked <==> U64_MAX in NumbersOf(calls)
    decreases |calls|
  {
    if calls != [] {
      var front, call := calls[..|calls| - 1], calls[|calls| - 1];
      assert calls == front + [call];
      RunSnoc(INITIAL, front, call);
      PanicsIff(front);
      if Run(INITIAL, front).panicked { assert NumbersOf(front) <= NumbersOf(calls); }
      else { LastPanicsIff(front, call); }
    }
  }

  lemma {:induction false} StepPanicsIff(s: State, call: Call)
    requires Inv(s) && !s.panicked
    ensures Step(s, call).panicked <==>
              && call.Broadcast? && call.answer.Some? && call.delivery.Accepted?
              && Max(MaxSeq(s.answers + [call.answer.value]), NextFree(s.accepted, |s.accepted|)) == U64_MAX
  {
    if call.answer.Some? { ChosenNumber(s, call.answer.value); }
  }

  lemma {:induction false} LastPanicsIff(calls: seq<Call>, call: Call)
    requires !Run(INITIAL, calls).panicked && U64_MAX !in NumbersOf(calls)
    ensures Step(Run(INITIAL, calls), call).panicked <==> U64_MAX in NumbersOf(calls + [call])
  {
    var s := Run(INITIAL, calls);
    RunUsesNumbers(calls);
    RunKeeps(INITIAL, calls);
    StepPanicsIff(s, call);
    AnswersSnoc(calls, call);
    NumbersSnoc(calls, call, s.accepted);
  }

  // ---------------------------------------------------------------- the object

  class BasicBroadcaster {
    var accSequence: Option<u64>
    ghost var model: State

    ghost predicate Valid()
      reads this
    {
      Inv(model) && !model.panicked && accSequence == model.cache
    }

    constructor ()
      ensures Valid() && model == INITIAL
    {
      accSequence := None;
      model := INITIAL;
    }

    method AccNumberAndSequence(answer: Option<u64>) returns (r: Result<u64, Error>)
      requires Valid()
      modifies this
      ensures Valid()
      ensures answer.None? ==> r == Err(QueryAccount) && model == old(model)
      ensures answer.Some? ==> model == Refresh(old(model), answer.value) && r == Ok(model.cache.value)
    {
      if answer.None? {
        return Err(QueryAccount);
      }
      StepKeeps(model, EstimateFee(answer, false));
      model := Refresh(model, answer.value);
      accSequence := Some(Max(answer.value, accSequence.GetOr(0)));
      r := Ok(accSequence.value);
    }

    method Broadcast(answer: Option<u64>, delivery: Delivery) returns (r: Result<u64, Error>)
      requires Valid()
      modifies this
      ensures model == Step(old(model), Call.Broadcast(answer, delivery))
      ensures r.Ok? <==> answer.Some? && delivery.Accepted? && !model.panicked
      ensures r.Ok? ==> model.accepted == old(model.accepted) + [Tx(r.value, |model.answers|)]
      ensures r.Err? && r.error != SequenceExhausted ==> model.accepted == old(model.accepted)
      ensures r.Err? ==> r.error == (if answer.None? then QueryAccount
                                     else match delivery
                                          case FeeEstimationFails => FeeEstimation
                                          case SigningFails => TxBuilding
                                          case RpcFails => Broadcasting
                                          case NotAccepted => TxNotAccepted
                                          case Accepted => SequenceExhausted)
      ensures if model.panicked then r == Err(SequenceExhausted) else Valid()
    {
      StepKeeps(model, Call.Broadcast(answer, delivery));
      r := AccNumberAndSequence(answer);
      if r.Err? {
        return;
      }
      var accSeq := r.value;
      match delivery {
        case FeeEstimationFails => return Err(FeeEstimation);
        case SigningFails => return Err(TxBuilding);
        case RpcFails => return Err(Broadcasting);
        case NotAccepted => return Err(TxNotAccepted);
        case Accepted =>
      }
      model := Step(old(model), Call.Broadcast(answer, delivery));
      if accSeq == U64_MAX {
        return Err(SequenceExhausted);
      }
      accSequence := Some(accSeq + 1);
    }
  }
}
