/** Under which parameters an epoch is paid: those in force at its end (contracts/rewards/src/contract/execute.rs). */
module TallyTerms {
  import opened Ints
  import opened Outcomes
  import opened Epochs
  import opened Tallies
  import opened RewardsContracts
  import opened RewardsTimeline

  /** The call sets the parameters of this epoch of the pool. */
  ghost predicate Resets(s: Store, call: Call, p: PoolId, num: nat) {
    && call.UpdateParams? && call.pool == p && Perform(s, call).Ok?
    && CurrentEpoch(s, p, call.height).Ok? && CurrentEpoch(s, p, call.height).value.num == num
  }

  /** A new tally starts under the pool's parameters, in the current epoch and without counts but its own. */
  ghost predicate StartsTally(s: Store, call: Call, p: PoolId, num: nat, tally: Tally) {
    && call.Record? && call.pool == p && p in s.pools
    && Current(s.pools[p].snapshot, call.height) == Ok(tally.epoch) && tally.epoch.num == num
    && tally.params == s.pools[p].snapshot.params
    && tally.eventCount == 1 && tally.participation == map[call.verifier := 1]
  }

  lemma {:induction false} UpdateTerms(s: Store, call: Call, p: PoolId, num: nat)
    requires Counted(s) && call.UpdateParams? && Perform(s, call).Ok?
    ensures var t := Perform(s, call).value.0;
            && ((p, num) in t.tallies <==> (p, num) in s.tallies)
            && ((p, num) in s.tallies ==>
                  t.tallies[(p, num)] == if Resets(s, call, p, num) then s.tallies[(p, num)].(params := call.params) else s.tallies[(p, num)])
  {
    assert TallyOk(s, call.pool, CurrentEpoch(s, call.pool, call.height).value.num);
  }

  lemma {:induction false} RecordTerms(s: Store, call: Call, p: PoolId, num: nat)
    requires Counted(s) && call.Record? && Perform(s, call).Ok?
    ensures var t := Perform(s, call).value.0;
            && ((p, num) in s.tallies ==>
                  (p, num) in t.tallies && t.tallies[(p, num)].params == s.tallies[(p, num)].params)
            && ((p, num) in t.tallies && (p, num) !in s.tallies ==> StartsTally(s, call, p, num, t.tallies[(p, num)]))
  {
    RecordedTally(s, call.pool, call.event, call.verifier, call.height);
    if (call.event, call.pool) in s.events { EventHasTally(s, (call.event, call.pool)); }
    assert TallyOk(s, call.pool, CurrentEpoch(s, call.pool, call.height).value.num);
  }

  /** One call changes the parameters of a tally exactly when it updates the pool's parameters in the epoch of the
      tally, and a tally that was not there starts under the parameters of the pool. */
  lemma {:induction false} StepTerms(w: World, call: Call, p: PoolId, num: nat)
    requires Counted(w.store)
    ensures var s, t := w.store, Step(w, call).store;
            && ((p, num) in s.tallies ==>
                  && (p, num) in t.tallies
                  && t.tallies[(p, num)].params == if Resets(s, call, p, num) then call.params else s.tallies[(p, num)].params)
            && ((p, num) in t.tallies && (p, num) !in s.tallies ==> StartsTally(s, call, p, num, t.tallies[(p, num)]))
  {
    if Perform(w.store, call).Ok? {
      match call
      case UpdateParams(_, _, _) => UpdateTerms(w.store, call, p, num);
      case Record(_, _, _, _) => RecordTerms(w.store, call, p, num);
      case CreatePool(_, _, _) =>
      case AddRewards(_, _, _) =>
      case Distribute(q, limit, height) => DistributionChanges(w.store, q, limit, height);
    }
  }

  // ---------------------------------------------------------------- the current epoch

  /** A tally belongs to an existing pool and to no later epoch than the current one, and the tally of the current
      epoch has the parameters of the pool. */
  ghost predicate TermsOk(s: Store, p: PoolId, num: nat, height: u64) {
    (p, num) in s.tallies ==>
      && p in s.pools && Current(s.pools[p].snapshot, height).Ok?
      && num <= Current(s.pools[p].snapshot, height).value.num
      && (num == Current(s.pools[p].snapshot, height).value.num ==>
            s.tallies[(p, num)].params == s.pools[p].snapshot.params)
  }

  ghost predicate InForce(w: World) {
    forall p, num :: TermsOk(w.store, p, num, w.height)
  }

  lemma {:induction false} TermsLater(s: Store, p: PoolId, num: nat, height: u64, later: u64)
    requires TermsOk(s, p, num, height) && height <= later && p in s.pools && Settling(s, p, height)
    ensures TermsOk(s, p, num, later)
  {
    CurrentMonotone(s.pools[p].snapshot, height, later);
  }

  lemma {:induction false} UpdateInForce(w: World, call: Call, num: nat)
    requires Timely(w) && w.height <= call.height && call.UpdateParams? && Perform(w.store, call).Ok?
    requires TermsOk(w.store, call.pool, num, call.height)
    ensures TermsOk(Perform(w.store, call).value.0, call.pool, num, call.height)
  {
    var s, p := w.store, call.pool;
    UpdateTerms(s, call, p, num);
    Later(s, p, w.height, call.height);
    UpdateNeverSkipsEpochs(s.pools[p].snapshot, call.params, call.height);
  }

  lemma {:induction false} RecordInForce(w: World, call: Call, num: nat)
    requires Timely(w) && w.height <= call.height && call.Record? && Perform(w.store, call).Ok?
    requires TermsOk(w.store, call.pool, num, call.height)
    ensures TermsOk(Perform(w.store, call).value.0, call.pool, num, call.height)
  {
    RecordTerms(w.store, call, call.pool, num);
  }

  lemma {:induction false} OtherPoolInForce(w: World, call: Call, p: PoolId, num: nat)
    requires Timely(w) && w.height <= call.height && p != call.pool && TermsOk(w.store, p, num, w.height)
    ensures TermsOk(Step(w, call).store, p, num, call.height)
  {
    StepTerms(w, call, p, num);
    StepTouchesOnePool(w, call, p);
    if (p, num) in w.store.tallies { TermsLater(w.store, p, num, w.height, call.height); }
  }

  lemma {:induction false} SamePoolInForce(w: World, call: Call, num: nat)
    requires Timely(w) && w.height <= call.height && TermsOk(w.store, call.pool, num, w.height)
    ensures TermsOk(Step(w, call).store, call.pool, num, call.height)
  {
    var p := call.pool;
    if p in w.store.pools { TermsLater(w.store, p, num, w.height, call.height); }
    if Perform(w.store, call).Ok? {
      match call
      case UpdateParams(_, _, _) => UpdateInForce(w, call, num);
      case Record(_, _, _, _) => RecordInForce(w, call, num);
      case CreatePool(_, _, _) =>
      case AddRewards(_, _, _) =>
      case Distribute(q, limit, height) => DistributionChanges(w.store, q, limit, height);
    }
  }

  lemma {:induction false} RunInForce(w: World, calls: seq<Call>)
    requires Timely(w) && Ordered(w.height, calls) && InForce(w)
    ensures InForce(Run(w, calls))
    decreases |calls|
  {
    if calls != [] {
      var call, t := calls[0], Step(w, calls[0]);
      forall p, num: nat ensures TermsOk(t.store, p, num, t.height) {
        assert TermsOk(w.store, p, num, w.height);
        if p == call.pool { SamePoolInForce(w, call, num); } else { OtherPoolInForce(w, call, p, num); }
      }
      StepKeepsTime(w, call);
      RunInForce(t, calls[1..]);
    }
  }

  /** In every run with heights that do not go back: no epoch after the current one has a tally, and the tally of
      the current epoch has the parameters of the pool. By `StepTerms` only an update in its own epoch changes
      them, so an epoch is paid under the parameters in force when it ended. */
  lemma {:induction false} CurrentTallyHasCurrentTerms(calls: seq<Call>, p: PoolId, num: nat)
    requires Ordered(0, calls)
    ensures TermsOk(Run(START, calls).store, p, num, Run(START, calls).height)
  {
    StartIsTimely();
    RunInForce(START, calls);
  }
}
