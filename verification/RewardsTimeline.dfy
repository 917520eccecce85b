/** Events, epochs and payouts over time: which tallies may still change once an epoch has been paid. */
module RewardsTimeline {
  import opened Ints
  import opened Outcomes
  import opened Epochs
  import opened Tallies
  import opened RewardsContracts

  // ---------------------------------------------------------------- tallies count events

  /** The events of a pool that belong to an epoch. */
  function EventsIn(events: map<(string, PoolId), nat>, p: PoolId, num: nat): set<(string, PoolId)> {
    set k | k in events && k.1 == p && events[k] == num
  }

  ghost predicate TallyOk(s: Store, p: PoolId, num: nat) {
    if (p, num) in s.tallies then
      && s.tallies[(p, num)].epoch.num == num
      && s.tallies[(p, num)].eventCount == Min(|EventsIn(s.events, p, num)|, U64_MAX)
    else
      EventsIn(s.events, p, num) == {}
  }

  /** Every tally counts exactly the events of its epoch; an epoch without a tally has no events. */
  ghost predicate Counted(s: Store) {
    forall p, num :: TallyOk(s, p, num)
  }

  lemma EventHasTally(s: Store, key: (string, PoolId))
    requires Counted(s) && key in s.events
    ensures (key.1, s.events[key]) in s.tallies
  {
    assert TallyOk(s, key.1, s.events[key]);
    assert key in EventsIn(s.events, key.1, s.events[key]);
  }

  lemma NewEvent(events: map<(string, PoolId), nat>, key: (string, PoolId), num: nat, p: PoolId, e: nat)
    requires key !in events
    ensures EventsIn(events[key := num], p, e) ==
              EventsIn(events, p, e) + (if key.1 == p && e == num then {key} else {})
    ensures |EventsIn(events[key := num], p, e)| ==
              |EventsIn(events, p, e)| + (if key.1 == p && e == num then 1 else 0)
  {
    var after := EventsIn(events[key := num], p, e);
    if key.1 == p && e == num {
      assert after == EventsIn(events, p, e) + {key};
    } else {
      assert after == EventsIn(events, p, e) + {};
      assert after == EventsIn(events, p, e);
    }
  }

  /** The tally that a recorded participation changes, and how. */
  lemma RecordedTally(s: Store, p: PoolId, event: string, verifier: Addr, height: u64)
    requires Counted(s) && Recorded(s, p, event, verifier, height).Ok?
    ensures var t := Recorded(s, p, event, verifier, height).value.0;
            var isNew := (event, p) !in s.events;
            && (event, p) in t.events && CurrentEpoch(s, p, height).Ok?
            && (isNew ==> t.events[(event, p)] == CurrentEpoch(s, p, height).value.num)
            && (!isNew ==> t.events == s.events && (p, t.events[(event, p)]) in s.tallies)
            && t.events == s.events[(event, p) := t.events[(event, p)]]
            && (p, t.events[(event, p)]) in t.tallies
            && t == s.(events := t.events, tallies := s.tallies[(p, t.events[(event, p)]) := t.tallies[(p, t.events[(event, p)])]])
  {
    if (event, p) in s.events {
      EventHasTally(s, (event, p));
      assert TallyOk(s, p, s.events[(event, p)]);
    } else {
      assert TallyOk(s, p, CurrentEpoch(s, p, height).value.num);
    }
  }

  lemma RecordedCount(s: Store, p: PoolId, event: string, verifier: Addr, height: u64)
    requires Counted(s) && Recorded(s, p, event, verifier, height).Ok?
    ensures var t := Recorded(s, p, event, verifier, height).value.0;
            (event, p) in t.events && TallyOk(t, p, t.events[(event, p)])
  {
    RecordedTally(s, p, event, verifier, height);
    var num := Recorded(s, p, event, verifier, height).value.0.events[(event, p)];
    assert TallyOk(s, p, num);
    if (event, p) !in s.events { NewEvent(s.events, (event, p), num, p, num); }
  }

  lemma RecordKeepsCount(s: Store, p: PoolId, event: string, verifier: Addr, height: u64)
    requires Counted(s) && Recorded(s, p, event, verifier, height).Ok?
    ensures Counted(Recorded(s, p, event, verifier, height).value.0)
  {
    var t := Recorded(s, p, event, verifier, height).value.0;
    RecordedTally(s, p, event, verifier, height);
    RecordedCount(s, p, event, verifier, height);
    var num := t.events[(event, p)];
    forall q, e: nat ensures TallyOk(t, q, e) {
      assert TallyOk(s, q, e);
      if (q, e) != (p, num) && (event, p) !in s.events { NewEvent(s.events, (event, p), num, q, e); }
    }
  }

  lemma UpdateKeepsCount(s: Store, p: PoolId, params: Params, height: u64)
    requires Counted(s) && Updated(s, p, params, height).Ok?
    ensures Counted(Updated(s, p, params, height).value.0)
  {
    var t := Updated(s, p, params, height).value.0;
    var num := CurrentEpoch(s, p, height).value.num;
    assert TallyOk(s, p, num);
    forall q, e: nat ensures TallyOk(t, q, e) {
      assert TallyOk(s, q, e);
    }
  }

  lemma SameTallies(s: Store, t: Store)
    requires Counted(s) && t.events == s.events && t.tallies == s.tallies
    ensures Counted(t)
  {
    forall q, e: nat ensures TallyOk(t, q, e) {
      assert TallyOk(s, q, e);
    }
  }

  lemma StepKeepsCount(w: World, call: Call)
    requires Counted(w.store)
    ensures Counted(Step(w, call).store)
  {
    if Perform(w.store, call).Ok? {
      match call
      case UpdateParams(p, params, height) => UpdateKeepsCount(w.store, p, params, height);
      case Record(p, event, verifier, height) => RecordKeepsCount(w.store, p, event, verifier, height);
      case CreatePool(_, _, _) => SameTallies(w.store, Step(w, call).store);
      case AddRewards(_, _, _) => SameTallies(w.store, Step(w, call).store);
      case Distribute(p, limit, height) =>
        DistributionChanges(w.store, p, limit, height);
        SameTallies(w.store, Step(w, call).store);
    }
  }

  // ---------------------------------------------------------------- tallies count participation

  function Participation(s: Store, p: PoolId, num: nat, v: Addr): nat {
    if (p, num) in s.tallies && v in s.tallies[(p, num)].participation then s.tallies[(p, num)].participation[v] else 0
  }

  /** A verifier's participation is the number of times it took part in an event of the epoch. */
  ghost predicate VotesOk(w: World, p: PoolId, num: nat, v: Addr) {
    Participation(w.store, p, num, v) == Min(w.ledger.votes[(p, num, v)], U64_MAX)
  }

  ghost predicate Voted(w: World) {
    forall p, num, v :: VotesOk(w, p, num, v)
  }

  lemma RecordedVote(s: Store, p: PoolId, event: string, verifier: Addr, height: u64, q: PoolId, num: nat, v: Addr)
    requires Counted(s) && Recorded(s, p, event, verifier, height).Ok?
    ensures var t := Recorded(s, p, event, verifier, height).value.0;
            (event, p) in t.events &&
            Participation(t, q, num, v) ==
              if (q, num, v) == (p, t.events[(event, p)], verifier)
              then Min(Participation(s, q, num, v) + 1, U64_MAX) else Participation(s, q, num, v)
  {
    RecordedTally(s, p, event, verifier, height);
    if (event, p) in s.events {
      assert TallyOk(s, p, s.events[(event, p)]);
    } else {
      assert TallyOk(s, p, CurrentEpoch(s, p, height).value.num);
    }
  }

  lemma UpdateKeepsVote(s: Store, p: PoolId, params: Params, height: u64, q: PoolId, num: nat, v: Addr)
    requires Counted(s) && Updated(s, p, params, height).Ok?
    ensures Participation(Updated(s, p, params, height).value.0, q, num, v) == Participation(s, q, num, v)
  {
    assert TallyOk(s, p, CurrentEpoch(s, p, height).value.num);
  }

  lemma StepKeepsVote(w: World, call: Call, q: PoolId, num: nat, v: Addr)
    requires Counted(w.store) && VotesOk(w, q, num, v)
    ensures VotesOk(Step(w, call), q, num, v)
  {
    if Perform(w.store, call).Ok? {
      match call
      case UpdateParams(p, params, height) => UpdateKeepsVote(w.store, p, params, height, q, num, v);
      case Record(p, event, verifier, height) => RecordedVote(w.store, p, event, verifier, height, q, num, v);
      case CreatePool(_, _, _) =>
      case AddRewards(_, _, _) =>
      case Distribute(p, limit, height) => DistributionChanges(w.store, p, limit, height);
    }
  }

  lemma {:induction false} RunKeepsVotes(w: World, calls: seq<Call>)
    requires Counted(w.store) && Voted(w)
    ensures Counted(Run(w, calls).store) && Voted(Run(w, calls))
    decreases |calls|
  {
    if calls != [] {
      StepKeepsCount(w, calls[0]);
      forall p, num: nat, v ensures VotesOk(Step(w, calls[0]), p, num, v) {
        assert VotesOk(w, p, num, v);
        StepKeepsVote(w, calls[0], p, num, v);
      }
      RunKeepsVotes(Step(w, calls[0]), calls[1..]);
    }
  }

  /** In every run every tally counts the events first seen in its epoch and, per verifier, the recorded
      participations in these events, both up to the largest 64-bit number. */
  lemma TalliesCount(calls: seq<Call>, p: PoolId, num: nat, v: Addr)
    ensures TallyOk(Run(START, calls).store, p, num) && VotesOk(Run(START, calls), p, num, v)
  {
    StartIsTimely();
    assert Voted(START) by {
      forall q, n: nat, u ensures VotesOk(START, q, n, u) { assert START.ledger.votes[(q, n, u)] == 0; }
    }
    RunKeepsVotes(START, calls);
  }

  // ---------------------------------------------------------------- who is rewarded

  /** In every run: a verifier is rewarded for an epoch exactly when it took part at least once, not more often
      than there are events, and in the required share of them, all counted up to the largest 64-bit number. */
  lemma RewardedIff(calls: seq<Call>, p: PoolId, num: nat, v: Addr)
    requires (p, num) in Run(START, calls).store.tallies
    ensures var w := Run(START, calls);
            var t := w.store.tallies[(p, num)];
            var votes, events := Min(w.ledger.votes[(p, num, v)], U64_MAX), Min(|EventsIn(w.store.events, p, num)|, U64_MAX);
            v in VerifiersToReward(t) <==>
              && 0 < votes <= events
              && (votes as real) / (events as real) >=
                   (t.params.threshold.numerator as real) / (t.params.threshold.denominator as real)
  {
    TalliesCount(calls, p, num, v);
    var w := Run(START, calls);
    var t := w.store.tallies[(p, num)];
    if v in t.participation {
      QualifiesByFraction(t.participation[v], t.eventCount, t.params.threshold);
    }
  }

  /** So taking part more often than there are events forfeits the reward, whatever the share. */
  lemma TooManyVotesForfeit(calls: seq<Call>, p: PoolId, num: nat, v: Addr)
    requires (p, num) in Run(START, calls).store.tallies
    requires var w := Run(START, calls);
             |EventsIn(w.store.events, p, num)| < U64_MAX &&
             |EventsIn(w.store.events, p, num)| < w.ledger.votes[(p, num, v)]
    ensures v !in VerifiersToReward(Run(START, calls).store.tallies[(p, num)])
    ensures v !in RewardsByVerifier(Run(START, calls).store.tallies[(p, num)])
  {
    RewardedIff(calls, p, num, v);
  }

  // ---------------------------------------------------------------- heights that never go back

  ghost predicate Ordered(from: nat, calls: seq<Call>)
    decreases |calls|
  {
    calls == [] || (from <= calls[0].height && Ordered(calls[0].height, calls[1..]))
  }

  /** The last checkpoint is not in the future, and paid epochs are at least two behind the current one. */
  ghost predicate Settling(s: Store, p: PoolId, height: u64)
    requires p in s.pools
  {
    var snapshot := s.pools[p].snapshot;
    && Sound(snapshot)
    && snapshot.createdAt.start <= height
    && Current(snapshot, height).Ok?
    && (p in s.watermarks ==> s.watermarks[p] <= Current(snapshot, height).value.num - 2)
  }

  ghost predicate Timely(w: World) {
    && Books(w)
    && Counted(w.store)
    && (forall p :: p in w.store.pools ==> Settling(w.store, p, w.height))
  }

  lemma Later(s: Store, p: PoolId, height: u64, later: u64)
    requires p in s.pools && Settling(s, p, height) && height <= later
    ensures Settling(s, p, later)
  {
    CurrentMonotone(s.pools[p].snapshot, height, later);
  }

  lemma UpdateSettles(s: Store, p: PoolId, params: Params, height: u64)
    requires p in s.pools && Settling(s, p, height) && Updated(s, p, params, height).Ok?
    ensures p in Updated(s, p, params, height).value.0.pools
    ensures Settling(Updated(s, p, params, height).value.0, p, height)
  {
    UpdateNeverSkipsEpochs(s.pools[p].snapshot, params, height);
  }

  lemma DistributeSettles(s: Store, p: PoolId, limit: Option<u64>, height: u64)
    requires p in s.pools && Settling(s, p, height) && Distributed(s, p, limit, height).Ok?
    ensures p in Distributed(s, p, limit, height).value.0.pools
    ensures Settling(Distributed(s, p, limit, height).value.0, p, height)
  {
    DistributionPaysItsEpochs(s, p, limit, height);
    WindowBounds(s, p, limit, height);
  }

  lemma CreateSettles(w: World, call: Call)
    requires Books(w) && call.CreatePool? && Perform(w.store, call).Ok?
    ensures call.pool in Step(w, call).store.pools
    ensures Settling(Step(w, call).store, call.pool, call.height)
  {
    var p, t := call.pool, Step(w, call);
    assert Untouched(w, p);
    EpochBySteps(t.store.pools[p].snapshot, call.height, 0);
  }

  lemma OthersSettle(w: World, call: Call, p: PoolId)
    requires p in w.store.pools && Settling(w.store, p, w.height) && w.height <= call.height && p != call.pool
    ensures p in Step(w, call).store.pools && Settling(Step(w, call).store, p, call.height)
  {
    Later(w.store, p, w.height, call.height);
    StepTouchesOnePool(w, call, p);
  }

  lemma TargetSettles(w: World, call: Call)
    requires Books(w) && call.pool in Step(w, call).store.pools && w.height <= call.height
    requires call.pool in w.store.pools ==> Settling(w.store, call.pool, w.height)
    ensures Settling(Step(w, call).store, call.pool, call.height)
  {
    var s, p := w.store, call.pool;
    if p in s.pools { Later(s, p, w.height, call.height); }
    if Perform(s, call).Ok? {
      match call
      case CreatePool(_, _, _) => CreateSettles(w, call);
      case UpdateParams(_, params, height) => UpdateSettles(s, p, params, height);
      case AddRewards(_, _, _) =>
      case Record(_, _, _, _) =>
      case Distribute(_, limit, height) => DistributeSettles(s, p, limit, height);
    }
  }

  lemma StepKeepsTime(w: World, call: Call)
    requires Timely(w) && w.height <= call.height
    ensures Timely(Step(w, call))
  {
    StepKeepsBooks(w, call);
    StepKeepsCount(w, call);
    var t := Step(w, call);
    forall p | p in t.store.pools ensures Settling(t.store, p, t.height) {
      if p == call.pool { TargetSettles(w, call); }
      else {
        StepTouchesOnePool(w, call, p);
        OthersSettle(w, call, p);
      }
    }
  }

  lemma {:induction false} RunKeepsTime(w: World, calls: seq<Call>)
    requires Timely(w) && Ordered(w.height, calls)
    ensures Timely(Run(w, calls))
    decreases |calls|
  {
    if calls != [] {
      StepKeepsTime(w, calls[0]);
      RunKeepsTime(Step(w, calls[0]), calls[1..]);
    }
  }

  lemma StartIsTimely()
    ensures Timely(START)
  {
    assert forall p, num :: EventsIn(EMPTY.events, p, num) == {};
  }

  // ---------------------------------------------------------------- paid epochs are closed

  /** The same events counted under the same parameters. */
  predicate SameTerms(s: Store, t: Store, key: (PoolId, nat)) {
    && (key in s.tallies <==> key in t.tallies)
    && (key in s.tallies ==>
          && s.tallies[key].eventCount == t.tallies[key].eventCount
          && s.tallies[key].params == t.tallies[key].params
          && s.tallies[key].epoch == t.tallies[key].epoch)
  }

  ghost predicate Paid(s: Store, p: PoolId, num: nat) {
    p in s.watermarks && num <= s.watermarks[p]
  }

  lemma RecordSparesPaid(s: Store, call: Call, p: PoolId, num: nat)
    requires Counted(s) && call.Record? && Perform(s, call).Ok?
    requires Paid(s, p, num) && p in s.pools && Settling(s, p, call.height)
    ensures SameTerms(s, Perform(s, call).value.0, (p, num))
  {
    RecordedTally(s, call.pool, call.event, call.verifier, call.height);
    if (call.event, call.pool) in s.events { EventHasTally(s, (call.event, call.pool)); }
  }

  lemma UpdateSparesPaid(s: Store, call: Call, p: PoolId, num: nat)
    requires Counted(s) && call.UpdateParams? && Perform(s, call).Ok?
    requires Paid(s, p, num) && p in s.pools && Settling(s, p, call.height)
    ensures SameTerms(s, Perform(s, call).value.0, (p, num))
  {
    assert TallyOk(s, call.pool, CurrentEpoch(s, call.pool, call.height).value.num);
  }

  lemma StepSparesPaid(w: World, call: Call, p: PoolId, num: nat)
    requires Timely(w) && w.height <= call.height && Paid(w.store, p, num)
    ensures SameTerms(w.store, Step(w, call).store, (p, num))
  {
    assert p !in w.store.pools ==> Untouched(w, p);
    Later(w.store, p, w.height, call.height);
    if Perform(w.store, call).Ok? {
      match call
      case UpdateParams(_, _, _) => UpdateSparesPaid(w.store, call, p, num);
      case Record(_, _, _, _) => RecordSparesPaid(w.store, call, p, num);
      case CreatePool(_, _, _) =>
      case AddRewards(_, _, _) =>
      case Distribute(q, limit, height) => DistributionChanges(w.store, q, limit, height);
    }
  }

  lemma StepKeepsPaid(w: World, call: Call, p: PoolId, num: nat)
    requires Paid(w.store, p, num)
    ensures Paid(Step(w, call).store, p, num)
  {
    if p != call.pool { StepTouchesOnePool(w, call, p); }
    else if call.Distribute? && Perform(w.store, call).Ok? {
      DistributionChanges(w.store, p, call.limit, call.height);
      WindowBounds(w.store, p, call.limit, call.height);
    }
  }

  lemma {:induction false} RunSparesPaid(w: World, calls: seq<Call>, p: PoolId, num: nat)
    requires Timely(w) && Ordered(w.height, calls) && Paid(w.store, p, num)
    ensures SameTerms(w.store, Run(w, calls).store, (p, num)) && Paid(Run(w, calls).store, p, num)
    decreases |calls|
  {
    if calls != [] {
      StepKeepsTime(w, calls[0]);
      StepSparesPaid(w, calls[0], p, num);
      StepKeepsPaid(w, calls[0], p, num);
      RunSparesPaid(Step(w, calls[0]), calls[1..], p, num);
    }
  }

  /** Once an epoch has been paid it stays paid, and no later call adds an event to it or changes the
      parameters it was paid under, as long as block heights do not go back. */
  lemma PaidEpochsAreClosed(past: seq<Call>, future: seq<Call>, p: PoolId, num: nat)
    requires Ordered(0, past) && Paid(Run(START, past).store, p, num)
    requires Ordered(Run(START, past).height, future)
    ensures var w := Run(START, past);
            SameTerms(w.store, Run(w, future).store, (p, num)) && Paid(Run(w, future).store, p, num)
  {
    StartIsTimely();
    RunKeepsTime(START, past);
    RunSparesPaid(Run(START, past), future, p, num);
  }

  /** In every run with ordered heights each tally counts exactly the events of its epoch, and an event that
      is first seen now lands in an epoch at least two after every paid one. */
  lemma NewEventsAreUnpaid(past: seq<Call>, p: PoolId, event: string, verifier: Addr, height: u64)
    requires Ordered(0, past) && Run(START, past).height <= height
    ensures var s := Run(START, past).store;
            && Counted(s)
            && (p in s.pools ==>
                  && Recorded(s, p, event, verifier, height).Ok?
                  && var t := Recorded(s, p, event, verifier, height).value.0;
                     && (event, p) in t.events
                     && ((event, p) !in s.events && p in s.watermarks ==>
                           2 <= t.events[(event, p)] && s.watermarks[p] <= t.events[(event, p)] - 2))
  {
    StartIsTimely();
    RunKeepsTime(START, past);
    var s := Run(START, past).store;
    if p in s.pools { Later(s, p, Run(START, past).height, height); }
  }

  // ---------------------------------------------------------------- late votes

  /** A participation in an event of the epoch, seen before. */
  predicate VotesLate(s: Store, call: Call, p: PoolId, num: nat, v: Addr) {
    && call.Record? && call.pool == p && call.verifier == v
    && (call.event, p) in s.events && s.events[(call.event, p)] == num
  }

  lemma RecordVotesIff(s: Store, call: Call, p: PoolId, num: nat, v: Addr)
    requires Counted(s) && call.Record? && Perform(s, call).Ok?
    requires Paid(s, p, num) && p in s.pools && Settling(s, p, call.height)
    ensures Participation(Perform(s, call).value.0, p, num, v) ==
              if VotesLate(s, call, p, num, v) then Min(Participation(s, p, num, v) + 1, U64_MAX)
              else Participation(s, p, num, v)
  {
    RecordedTally(s, call.pool, call.event, call.verifier, call.height);
    RecordedVote(s, call.pool, call.event, call.verifier, call.height, p, num, v);
  }

  lemma StepVotesIff(w: World, call: Call, p: PoolId, num: nat, v: Addr)
    requires Timely(w) && w.height <= call.height && Paid(w.store, p, num)
    ensures var s, t := w.store, Step(w, call).store;
            Participation(t, p, num, v) ==
              if VotesLate(s, call, p, num, v) then Min(Participation(s, p, num, v) + 1, U64_MAX)
              else Participation(s, p, num, v)
  {
    var s := w.store;
    assert p !in s.pools ==> Untouched(w, p);
    Later(s, p, w.height, call.height);
    if Perform(s, call).Ok? {
      match call
      case UpdateParams(q, params, height) => UpdateKeepsVote(s, q, params, height, p, num, v);
      case Record(_, _, _, _) => RecordVotesIff(s, call, p, num, v);
      case CreatePool(_, _, _) =>
      case AddRewards(_, _, _) =>
      case Distribute(q, limit, height) => DistributionChanges(s, q, limit, height);
    }
  }

  /** What a call can still change in the tally of a paid epoch, after any run with heights that do not go back:
      a verifier's participation grows by one, up to the largest 64-bit number, exactly when the verifier votes
      on an event first seen in that epoch. */
  lemma PaidParticipationChangesIff(past: seq<Call>, call: Call, p: PoolId, num: nat, v: Addr)
    requires Ordered(0, past) && Run(START, past).height <= call.height && Paid(Run(START, past).store, p, num)
    ensures var s, t := Run(START, past).store, Step(Run(START, past), call).store;
            Participation(t, p, num, v) ==
              if VotesLate(s, call, p, num, v) then Min(Participation(s, p, num, v) + 1, U64_MAX)
              else Participation(s, p, num, v)
  {
    StartIsTimely();
    RunKeepsTime(START, past);
    StepVotesIff(Run(START, past), call, p, num, v);
  }

  lemma {:induction false} RunKeepsPaid(w: World, calls: seq<Call>, p: PoolId, num: nat)
    requires Paid(w.store, p, num)
    ensures Paid(Run(w, calls).store, p, num)
    decreases |calls|
  {
    if calls != [] {
      StepKeepsPaid(w, calls[0], p, num);
      RunKeepsPaid(Step(w, calls[0]), calls[1..], p, num);
    }
  }

  lemma {:induction false} CumulatedIgnores(s: Store, p: PoolId, from: nat, count: nat, num: nat, tally: Tally)
    requires num < from
    ensures Cumulated(s.(tallies := s.tallies[(p, num) := tally]), p, from, count) == Cumulated(s, p, from, count)
    decreases count
  {
    if count > 0 { CumulatedIgnores(s, p, from, count - 1, num, tally); }
  }

  lemma NextIsUnpaid(s: Store, p: PoolId, num: nat, limit: Option<u64>, height: u64)
    requires Paid(s, p, num) && WindowOf(s, p, limit, height).Ok?
    ensures num < WindowOf(s, p, limit, height).value.from
  {
    WindowBounds(s, p, limit, height);
  }

  /** Such votes are never paid: after any calls that follow the payment of an epoch, what a distribution pays,
      or why it fails, does not depend on that epoch's tally. */
  lemma LateVotesAreNeverPaid(w: World, calls: seq<Call>, p: PoolId, num: nat, tally: Tally, limit: Option<u64>, height: u64)
    requires Paid(w.store, p, num)
    ensures var s := Run(w, calls).store;
            var changed := s.(tallies := s.tallies[(p, num) := tally]);
            var r, c := Distributed(s, p, limit, height), Distributed(changed, p, limit, height);
            && (r.Ok? <==> c.Ok?) && (r.Err? ==> r == c)
            && (r.Ok? ==> c.value.1 == r.value.1 && r.value.1.Payout? && num < r.value.1.from)
  {
    RunKeepsPaid(w, calls, p, num);
    var s := Run(w, calls).store;
    var changed := s.(tallies := s.tallies[(p, num) := tally]);
    assert WindowOf(changed, p, limit, height) == WindowOf(s, p, limit, height);
    if WindowOf(s, p, limit, height).Ok? {
      NextIsUnpaid(s, p, num, limit, height);
      var window := WindowOf(s, p, limit, height).value;
      CumulatedIgnores(s, p, window.from, window.to - window.from + 1, num, tally);
    }
  }
}

/** A run in which a second vote on the same event costs a verifier its reward. */
module RepeatedVote {
  import opened Ints
  import opened Outcomes
  import opened Epochs
  import opened Tallies
  import opened RewardsContracts
  import ZeroLimitRun

  /** A pool with one event and one verifier's votes on it. */
  function Voted(p: PoolId, params: Params, verifier: Addr, event: string, height: u64, votes: u64): Store {
    Store(map[p := Pool(0, Snapshot(params, Epoch(0, height)))],
          map[(p, 0) := Tally(Epoch(0, height), 1, map[verifier := votes], params)], map[(event, p) := 0], map[])
  }

  lemma FirstVote(p: PoolId, params: Params, verifier: Addr, event: string, height: u64)
    ensures var s := Store(map[p := Pool(0, Snapshot(params, Epoch(0, height)))], map[], map[], map[]);
            Recorded(s, p, event, verifier, height) == Ok((Voted(p, params, verifier, event, height, 1), Nothing))
  {
    var s := Store(map[p := Pool(0, Snapshot(params, Epoch(0, height)))], map[], map[], map[]);
    CurrentBySteps(s.pools[p].snapshot, height);
    var t := Recorded(s, p, event, verifier, height).value.0;
    assert t.tallies[(p, 0)].participation == map[verifier := 1];
    assert t.tallies == Voted(p, params, verifier, event, height, 1).tallies;
    assert t.events == map[(event, p) := 0];
  }

  lemma SecondVote(p: PoolId, params: Params, verifier: Addr, event: string, height: u64)
    ensures Recorded(Voted(p, params, verifier, event, height, 1), p, event, verifier, height) ==
              Ok((Voted(p, params, verifier, event, height, 2), Nothing))
  {
    var s := Voted(p, params, verifier, event, height, 1);
    CurrentBySteps(s.pools[p].snapshot, height);
    var t := Recorded(s, p, event, verifier, height).value.0;
    assert t.tallies[(p, 0)].participation == map[verifier := 2];
    assert t.tallies == Voted(p, params, verifier, event, height, 2).tallies;
    assert t.events == s.events;
  }

  /** One vote on the only event of the epoch earns the reward; the same vote once more earns nothing. */
  lemma SecondVoteForfeits(p: PoolId, params: Params, verifier: Addr, event: string, height: u64)
    ensures var once := [CreatePool(p, params, height), Record(p, event, verifier, height)];
            var w1, w2 := Run(START, once), Run(START, once + [Record(p, event, verifier, height)]);
            && (p, 0) in w1.store.tallies && (p, 0) in w2.store.tallies
            && RewardsByVerifier(w1.store.tallies[(p, 0)]) == map[verifier := params.rewardsPerEpoch]
            && RewardsByVerifier(w2.store.tallies[(p, 0)]) == map[]
  {
    var c1, c2 := CreatePool(p, params, height), Record(p, event, verifier, height);
    assert [c1, c2] == [c1] + ([c2] + []) && [c1, c2] + [c2] == [c1] + ([c2] + ([c2] + []));
    var w1 := Step(START, c1);
    var w2 := Step(w1, c2);
    ZeroLimitRun.RunOn(START, c1, [c2] + []);
    ZeroLimitRun.RunOn(START, c1, [c2] + ([c2] + []));
    ZeroLimitRun.RunOn(w1, c2, []);
    ZeroLimitRun.RunOn(w1, c2, [c2] + []);
    ZeroLimitRun.RunOn(w2, c2, []);
    assert w1.store == Store(map[p := Pool(0, Snapshot(params, Epoch(0, height)))], map[], map[], map[]);
    FirstVote(p, params, verifier, event, height);
    SecondVote(p, params, verifier, event, height);
    ZeroLimitRun.OneVoteReward(params, verifier, height);
    NoReward(params, verifier, height);
  }

  lemma NoReward(params: Params, verifier: Addr, height: u64)
    ensures RewardsByVerifier(Tally(Epoch(0, height), 1, map[verifier := 2], params)) == map[]
  {
    assert VerifiersToReward(Tally(Epoch(0, height), 1, map[verifier := 2], params)) == {};
  }
}
