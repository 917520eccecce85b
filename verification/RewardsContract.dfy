/** The rewards contract (contracts/rewards/src/contract/execute.rs) as a state machine over arbitrary
    sequences of calls. A failing or panicking call leaves the store unchanged. */
module RewardsContracts {
  import opened Ints
  import opened Outcomes
  import opened Sums
  import opened Epochs
  import opened Tallies
  import opened RewardMaps

  const DEFAULT_EPOCHS_TO_PROCESS: u64 := 10
  const EPOCH_PAYOUT_DELAY: u64 := 2

  datatype PoolId = PoolId(chainName: string, contract: string)

  datatype Pool = Pool(balance: u128, snapshot: Snapshot)

  /** Tallies by pool and epoch number, the epoch of each event, and the last epoch paid per pool. */
  datatype Store = Store(
    pools: map<PoolId, Pool>,
    tallies: map<(PoolId, nat), Tally>,
    events: map<(string, PoolId), nat>,
    watermarks: map<PoolId, u64>)

  const EMPTY := Store(map[], map[], map[], map[])

  datatype Call =
    | CreatePool(pool: PoolId, params: Params, height: u64)
    | UpdateParams(pool: PoolId, params: Params, height: u64)
    | AddRewards(pool: PoolId, amount: PositiveU128, height: u64)
    | Record(pool: PoolId, event: string, verifier: Addr, height: u64)
    | Distribute(pool: PoolId, limit: Option<u64>, height: u64)

  /** What a call pays out: nothing, or the rewards of a range of epochs and whether more can be paid. */
  datatype Payout = Nothing | Payout(rewards: map<Addr, nat>, from: nat, to: nat, more: bool)

  /** A range of epochs to pay. */
  datatype Window = Window(from: u64, to: u64, more: bool)

  type Outcome = Result<(Store, Payout), Error>

  function CurrentEpoch(s: Store, p: PoolId, height: u64): Result<Epoch, Error> {
    if p !in s.pools then Err(RewardsPoolNotFound) else Current(s.pools[p].snapshot, height)
  }

  function Created(s: Store, p: PoolId, params: Params, height: u64): Outcome {
    if p in s.pools then Err(RewardsPoolAlreadyExists)
    else Ok((s.(pools := s.pools[p := Pool(0, Snapshot(params, Epoch(0, height)))]), Nothing))
  }

  /** The tally of the epoch in which the update happens is re-parameterised as well. */
  function Updated(s: Store, p: PoolId, params: Params, height: u64): Outcome {
    match CurrentEpoch(s, p, height)
    case Err(e) => Err(e)
    case Ok(epoch) =>
      match Update(s.pools[p].snapshot, params, height)
      case Err(e) => Err(e)
      case Ok(snapshot) =>
        var key := (p, epoch.num);
        Ok((s.(pools := s.pools[p := s.pools[p].(snapshot := snapshot)],
               tallies := if key in s.tallies
                          then s.tallies[(p, s.tallies[key].epoch.num) := s.tallies[key].(params := params)]
                          else s.tallies),
            Nothing))
  }

  function Added(s: Store, p: PoolId, amount: PositiveU128): Outcome {
    if p !in s.pools then Err(RewardsPoolNotFound)
    else if s.pools[p].balance + amount > U128_MAX then Err(Overflow)
    else Ok((s.(pools := s.pools[p := s.pools[p].(balance := s.pools[p].balance + amount)]), Nothing))
  }

  /** An event belongs to the epoch in which it was first seen; only a first sighting counts as an event. */
  function Recorded(s: Store, p: PoolId, event: string, verifier: Addr, height: u64): Outcome {
    match CurrentEpoch(s, p, height)
    case Err(e) => Err(e)
    case Ok(epoch) =>
      var isNew := (event, p) !in s.events;
      var num := if isNew then epoch.num else s.events[(event, p)];
      var tally :=
        if (p, num) in s.tallies then s.tallies[(p, num)]
        else Tally(epoch, 0, map[], s.pools[p].snapshot.params);
      var marked := Participated(tally, verifier);
      var counted := if isNew then marked.(eventCount := SaturatingAdd64(marked.eventCount, 1)) else marked;
      Ok((s.(events := s.events[(event, p) := num],
             tallies := s.tallies[(p, counted.epoch.num) := counted]),
          Nothing))
  }

  function Next(s: Store, p: PoolId): u64 {
    if p in s.watermarks then SaturatingAdd64(s.watermarks[p], 1) else 0
  }

  /** The epochs a distribution would process. */
  function Due(from: u64, limit: Option<u64>, epoch: Epoch): Result<Window, Error> {
    var ready := SaturatingSub(epoch.num, EPOCH_PAYOUT_DELAY);
    var to := Min(SaturatingSub(SaturatingAdd64(from, limit.GetOr(DEFAULT_EPOCHS_TO_PROCESS)), 1), ready);
    if to < from || epoch.num < EPOCH_PAYOUT_DELAY then Err(NoRewardsToDistribute)
    else Ok(Window(from, to, to < ready))
  }

  function WindowOf(s: Store, p: PoolId, limit: Option<u64>, height: u64): (r: Result<Window, Error>)
    ensures r.Ok? ==> p in s.pools && r.value.from <= r.value.to
  {
    match CurrentEpoch(s, p, height)
    case Err(e) => Err(e)
    case Ok(epoch) => Due(Next(s, p), limit, epoch)
  }

  /** The rewards of `count` epochs from `from` on, per verifier. */
  function Cumulated(s: Store, p: PoolId, from: nat, count: nat): map<Addr, nat> {
    if count == 0 then map[]
    else
      var before, key := Cumulated(s, p, from, count - 1), (p, from + count - 1);
      if key in s.tallies then Merge(before, RewardsByVerifier(s.tallies[key])) else before
  }

  /** Takes the rewards of the epochs out of the pool (`process_rewards_for_epochs`). */
  ghost function Settled(pool: Pool, rewards: map<Addr, nat>): Result<Pool, Error> {
    if !AllFit(rewards) then Err(Overflow)
    else if SumMap(rewards) > U128_MAX then Err(ExpectPanic)
    else if SumMap(rewards) > pool.balance then Err(PoolBalanceInsufficient)
    else Ok(pool.(balance := pool.balance - SumMap(rewards)))
  }

  ghost function Distributed(s: Store, p: PoolId, limit: Option<u64>, height: u64): Outcome {
    match WindowOf(s, p, limit, height)
    case Err(e) => Err(e)
    case Ok(w) =>
      var rewards := Cumulated(s, p, w.from, w.to - w.from + 1);
      match Settled(s.pools[p], rewards)
      case Err(e) => Err(e)
      case Ok(pool) =>
        Ok((s.(pools := s.pools[p := pool], watermarks := s.watermarks[p := w.to]),
            Payout(rewards, w.from, w.to, w.more)))
  }

  ghost function Perform(s: Store, call: Call): Outcome {
    match call
    case CreatePool(p, params, height) => Created(s, p, params, height)
    case UpdateParams(p, params, height) => Updated(s, p, params, height)
    case AddRewards(p, amount, _) => Added(s, p, amount)
    case Record(p, event, verifier, height) => Recorded(s, p, event, verifier, height)
    case Distribute(p, limit, height) => Distributed(s, p, limit, height)
  }

  // ---------------------------------------------------------------- what one distribution pays

  /** What the epochs pay in total, each by its own tally. */
  ghost function EpochPayouts(s: Store, p: PoolId, from: nat, count: nat): nat {
    if count == 0 then 0
    else
      var key := (p, from + count - 1);
      EpochPayouts(s, p, from, count - 1)
      + (if key in s.tallies then SumMap(RewardsByVerifier(s.tallies[key])) else 0)
  }

  lemma CumulatedStep(s: Store, p: PoolId, from: nat, count: nat)
    requires count > 0
    ensures var key := (p, from + count - 1);
            SumMap(Cumulated(s, p, from, count)) == SumMap(Cumulated(s, p, from, count - 1))
              + (if key in s.tallies then SumMap(RewardsByVerifier(s.tallies[key])) else 0)
  {
    var before, key := Cumulated(s, p, from, count - 1), (p, from + count - 1);
    if key in s.tallies {
      var more := RewardsByVerifier(s.tallies[key]);
      assert Cumulated(s, p, from, count) == Merge(before, more);
      MergeConserves(before, more);
    }
  }

  lemma {:induction false} CumulatedConserves(s: Store, p: PoolId, from: nat, count: nat)
    ensures SumMap(Cumulated(s, p, from, count)) == EpochPayouts(s, p, from, count)
  {
    if count > 0 {
      CumulatedConserves(s, p, from, count - 1);
      CumulatedStep(s, p, from, count);
    }
  }

  /** Processing starts right behind the last paid epoch and stops two epochs before the current one. */
  lemma WindowBounds(s: Store, p: PoolId, limit: Option<u64>, height: u64)
    requires WindowOf(s, p, limit, height).Ok?
    ensures var w := WindowOf(s, p, limit, height).value;
            && p in s.pools && CurrentEpoch(s, p, height).Ok?
            && w.from == Next(s, p)
            && w.from <= w.to <= CurrentEpoch(s, p, height).value.num - 2
  {
  }

  /** What a successful distribution leaves behind. */
  lemma DistributionChanges(s: Store, p: PoolId, limit: Option<u64>, height: u64)
    requires Distributed(s, p, limit, height).Ok?
    ensures WindowOf(s, p, limit, height).Ok?
    ensures var w := WindowOf(s, p, limit, height).value;
            var rewards := Cumulated(s, p, w.from, w.to - w.from + 1);
            && Settled(s.pools[p], rewards).Ok?
            && Distributed(s, p, limit, height).value.1 == Payout(rewards, w.from, w.to, w.more)
            && Distributed(s, p, limit, height).value.0 ==
                 s.(pools := s.pools[p := Settled(s.pools[p], rewards).value], watermarks := s.watermarks[p := w.to])
  {
  }

  /** A distribution takes out of the pool exactly what the tallies of the processed epochs pay. */
  lemma DistributionPaysItsEpochs(s: Store, p: PoolId, limit: Option<u64>, height: u64)
    requires Distributed(s, p, limit, height).Ok?
    ensures WindowOf(s, p, limit, height).Ok?
    ensures var (t, payout) := Distributed(s, p, limit, height).value;
            var w := WindowOf(s, p, limit, height).value;
            && payout.Payout? && payout.from == w.from && payout.to == w.to && payout.more == w.more
            && SumMap(payout.rewards) == EpochPayouts(s, p, w.from, w.to - w.from + 1)
            && p in t.pools && t.pools[p].snapshot == s.pools[p].snapshot
            && t.pools[p].balance + SumMap(payout.rewards) == s.pools[p].balance
            && t == s.(pools := s.pools[p := t.pools[p]], watermarks := s.watermarks[p := w.to])
  {
    DistributionChanges(s, p, limit, height);
    var w := WindowOf(s, p, limit, height).value;
    CumulatedConserves(s, p, w.from, w.to - w.from + 1);
  }

  /** The number of processed epochs respects the caller's limit, except that a limit of zero on a pool
      that was never paid still processes epoch 0; on any other pool a limit of zero is refused. */
  lemma LimitRespectedIff(s: Store, p: PoolId, limit: u64, height: u64)
    requires WindowOf(s, p, Some(limit), height).Ok?
    ensures var w := WindowOf(s, p, Some(limit), height).value;
            w.to - w.from + 1 <= limit <==> !(limit == 0 && p !in s.watermarks)
  {
  }

  lemma TwoEpochsPassed(s: Snapshot, height: u64)
    requires Sound(s) && s.createdAt.start <= height
    ensures Current(s, height).Ok?
    ensures Current(s, height).value.num >= s.createdAt.num + 2 <==>
              height >= s.createdAt.start + 2 * s.params.epochDuration
  {
    var d, passed := s.params.epochDuration, height - s.createdAt.start;
    CurrentBySteps(s, height);
    QuotientBounds(passed, d);
    TimesIsProduct(2, d);
    var q := Quotient(passed, d);
    if q >= 2 { TimesMonotone(2, q, d); } else { TimesMonotone(q, 1, d); }
  }

  /** A limit of zero on a pool that was never paid processes epoch 0 alone, as soon as epoch 2 is current;
      under the pool's first parameters that is from two durations after its creation on. */
  lemma ZeroLimitPaysEpochZero(s: Store, p: PoolId, height: u64)
    requires p in s.pools && p !in s.watermarks
    requires Sound(s.pools[p].snapshot) && s.pools[p].snapshot.createdAt.start <= height
    ensures var snapshot, w := s.pools[p].snapshot, WindowOf(s, p, Some(0), height);
            && Current(snapshot, height).Ok?
            && (w.Ok? <==> Current(snapshot, height).value.num >= 2)
            && (w.Ok? ==> w.value.from == w.value.to == 0)
            && (snapshot.createdAt.num == 0 ==>
                  (w.Ok? <==> height >= snapshot.createdAt.start + 2 * snapshot.params.epochDuration))
  {
    TwoEpochsPassed(s.pools[p].snapshot, height);
  }

  /** The flag of a distribution is right: it is set exactly when another one at the same height, with any
      positive limit, finds epochs to process. */
  lemma MoreIsExact(s: Store, p: PoolId, limit: Option<u64>, again: Option<u64>, height: u64)
    requires Distributed(s, p, limit, height).Ok? && again != Some(0)
    ensures var (t, payout) := Distributed(s, p, limit, height).value;
            payout.Payout? && (payout.more <==> WindowOf(t, p, again, height).Ok?)
  {
    DistributionPaysItsEpochs(s, p, limit, height);
    WindowBounds(s, p, limit, height);
    var (t, payout) := Distributed(s, p, limit, height).value;
    assert CurrentEpoch(t, p, height) == CurrentEpoch(s, p, height);
  }

  // ---------------------------------------------------------------- runs

  /** What has been paid in and out so far, the epochs processed, in order, and how often each verifier has
      taken part in an event of each epoch. */
  datatype Ledger = Ledger(
    deposited: map<PoolId, nat>,
    paid: map<PoolId, nat>,
    processed: map<PoolId, seq<nat>>,
    votes: multiset<(PoolId, nat, Addr)>)

  datatype World = World(store: Store, ledger: Ledger, height: u64)

  /** The epochs from..to in ascending order. */
  function Range(from: nat, to: nat): (r: seq<nat>)
    requires from <= to + 1
    ensures |r| == to + 1 - from && forall i :: 0 <= i < |r| ==> r[i] == from + i
  {
    seq(to + 1 - from, i requires 0 <= i => from + i)
  }

  function PaidEpochs(m: map<PoolId, seq<nat>>, p: PoolId): seq<nat> {
    if p in m then m[p] else []
  }

  ghost function Book(l: Ledger, call: Call, store: Store, payout: Payout): Ledger {
    match call
    case AddRewards(p, amount, _) => l.(deposited := l.deposited[p := Get(l.deposited, p) + amount])
    case Distribute(p, _, _) =>
      if payout.Payout? && payout.from <= payout.to then
        l.(paid := l.paid[p := Get(l.paid, p) + SumMap(payout.rewards)],
           processed := l.processed[p := PaidEpochs(l.processed, p) + Range(payout.from, payout.to)])
      else l
    case Record(p, event, verifier, _) =>
      if (event, p) in store.events then l.(votes := l.votes + multiset{(p, store.events[(event, p)], verifier)}) else l
    case _ => l
  }

  ghost function Step(w: World, call: Call): World {
    match Perform(w.store, call)
    case Err(_) => w.(height := call.height)
    case Ok((store, payout)) => World(store, Book(w.ledger, call, store, payout), call.height)
  }

  ghost function Run(w: World, calls: seq<Call>): World
    decreases |calls|
  {
    if calls == [] then w else Run(Step(w, calls[0]), calls[1..])
  }

  const START := World(EMPTY, Ledger(map[], map[], map[], multiset{}), 0)

  // ---------------------------------------------------------------- accounting

  /** The balance is what came in minus what went out, the epochs up to the watermark have been processed
      once each, in order, and the checkpoint is sound. */
  ghost predicate PoolOk(w: World, p: PoolId)
    requires p in w.store.pools
  {
    && w.store.pools[p].balance + Get(w.ledger.paid, p) == Get(w.ledger.deposited, p)
    && PaidEpochs(w.ledger.processed, p) == (if p in w.store.watermarks then Range(0, w.store.watermarks[p]) else [])
    && (p in w.store.watermarks ==> w.store.watermarks[p] < U64_MAX)
    && Sound(w.store.pools[p].snapshot)
  }

  ghost predicate Untouched(w: World, p: PoolId) {
    p !in w.ledger.deposited && p !in w.ledger.paid && p !in w.ledger.processed && p !in w.store.watermarks
  }

  ghost predicate Books(w: World) {
    forall p :: if p in w.store.pools then PoolOk(w, p) else Untouched(w, p)
  }

  lemma CurrentWhenOk(s: Snapshot, height: u64)
    requires Sound(s) && Current(s, height).Ok?
    ensures s.createdAt.start <= height && Current(s, height).value.num <= height
  {
    EpochBySteps(s, height, 0);
  }

  lemma RangeConcat(from: nat, mid: nat, to: nat)
    requires from <= mid <= to
    ensures Range(from, mid) + Range(mid + 1, to) == Range(from, to)
  {
  }

  lemma DistributeKeepsPool(w: World, call: Call)
    requires call.Distribute? && Perform(w.store, call).Ok?
    requires call.pool in w.store.pools && PoolOk(w, call.pool)
    ensures PoolOk(Step(w, call), call.pool)
  {
    var p, s := call.pool, w.store;
    DistributionPaysItsEpochs(s, p, call.limit, call.height);
    WindowBounds(s, p, call.limit, call.height);
    var (_, payout) := Distributed(s, p, call.limit, call.height).value;
    CurrentWhenOk(s.pools[p].snapshot, call.height);
    if p in s.watermarks {
      RangeConcat(0, s.watermarks[p], payout.to);
    }
  }

  lemma UpdateKeepsPool(w: World, call: Call)
    requires call.UpdateParams? && Perform(w.store, call).Ok?
    requires call.pool in w.store.pools && PoolOk(w, call.pool)
    ensures PoolOk(Step(w, call), call.pool)
  {
    var snapshot := w.store.pools[call.pool].snapshot;
    CurrentWhenOk(snapshot, call.height);
    UpdateNeverSkipsEpochs(snapshot, call.params, call.height);
  }

  lemma StepTouchesOnePool(w: World, call: Call, p: PoolId)
    requires p != call.pool
    ensures var t := Step(w, call);
            && (p in t.store.pools <==> p in w.store.pools)
            && (p in w.store.pools ==> t.store.pools[p] == w.store.pools[p])
            && (p in t.store.watermarks <==> p in w.store.watermarks)
            && (p in w.store.watermarks ==> t.store.watermarks[p] == w.store.watermarks[p])
            && (p in t.ledger.deposited <==> p in w.ledger.deposited)
            && (p in t.ledger.paid <==> p in w.ledger.paid)
            && (p in t.ledger.processed <==> p in w.ledger.processed)
            && Get(t.ledger.deposited, p) == Get(w.ledger.deposited, p)
            && Get(t.ledger.paid, p) == Get(w.ledger.paid, p)
            && PaidEpochs(t.ledger.processed, p) == PaidEpochs(w.ledger.processed, p)
  {
  }

  lemma StepKeepsBooks(w: World, call: Call)
    requires Books(w)
    ensures Books(Step(w, call))
  {
    var t := Step(w, call);
    forall p ensures if p in t.store.pools then PoolOk(t, p) else Untouched(t, p) {
      assert if p in w.store.pools then PoolOk(w, p) else Untouched(w, p);
      if p != call.pool {
        StepTouchesOnePool(w, call, p);
      } else if Perform(w.store, call).Ok? {
        match call
        case CreatePool(_, _, _) =>
        case UpdateParams(_, _, _) => UpdateKeepsPool(w, call);
        case AddRewards(_, _, _) =>
        case Record(_, _, _, _) =>
        case Distribute(_, _, _) => DistributeKeepsPool(w, call);
      }
    }
  }

  lemma {:induction false} RunKeepsBooks(w: World, calls: seq<Call>)
    requires Books(w)
    ensures Books(Run(w, calls))
    decreases |calls|
  {
    if calls != [] {
      StepKeepsBooks(w, calls[0]);
      RunKeepsBooks(Step(w, calls[0]), calls[1..]);
    }
  }

  /** In every run: a pool's balance is its deposits minus its payouts, and every epoch is paid at most once,
      oldest first and without gaps, up to the watermark. */
  lemma BalanceIsDepositsMinusPayouts(calls: seq<Call>, p: PoolId)
    requires p in Run(START, calls).store.pools
    ensures PoolOk(Run(START, calls), p)
    ensures var w := Run(START, calls);
            forall i, j :: 0 <= i < j < |PaidEpochs(w.ledger.processed, p)| ==>
              PaidEpochs(w.ledger.processed, p)[i] < PaidEpochs(w.ledger.processed, p)[j]
  {
    RunKeepsBooks(START, calls);
    assert PoolOk(Run(START, calls), p);
  }

  /** In every run no `expect` of the epoch arithmetic fires: a current epoch can be computed at every height
      from the last checkpoint on, and every parameter update at such a height succeeds unless its end overflows. */
  lemma EpochArithmeticNeverPanics(calls: seq<Call>, p: PoolId, height: u64, params: Params)
    requires p in Run(START, calls).store.pools
    ensures var snapshot := Run(START, calls).store.pools[p].snapshot;
            && Current(snapshot, height) != Err(ExpectPanic)
            && Update(snapshot, params, height) != Err(ExpectPanic)
  {
    RunKeepsBooks(START, calls);
    assert PoolOk(Run(START, calls), p);
    var snapshot := Run(START, calls).store.pools[p].snapshot;
    if snapshot.createdAt.start <= height {
      CurrentBySteps(snapshot, height);
      UpdateNeverSkipsEpochs(snapshot, params, height);
    }
  }
}

/** A run in which a limit of zero pays an epoch. */
module ZeroLimitRun {
  import opened Ints
  import opened Outcomes
  import opened Sums
  import opened Epochs
  import opened Tallies
  import opened RewardMaps
  import opened RewardsContracts

  function OneVote(params: Params, verifier: Addr, height: u64): Tally {
    Tally(Epoch(0, height), 1, map[verifier := 1], params)
  }

  lemma OneVoteReward(params: Params, verifier: Addr, height: u64)
    ensures RewardsByVerifier(OneVote(params, verifier, height)) == map[verifier := params.rewardsPerEpoch]
  {
    var t, reward := OneVote(params, verifier, height), params.rewardsPerEpoch;
    assert VerifiersToReward(t) == {verifier};
    TimesIsProduct(reward, 1);
    QuotientUnique(reward, 1, reward);
  }

  lemma SumOfOne(v: Addr, amount: nat)
    ensures SumMap(map[v := amount]) == amount
  {
    var m := map[v := amount];
    SumOverRemove(m.Keys, m, v);
    assert m.Keys - {v} == {};
  }

  function Funded(p: PoolId, params: Params, verifier: Addr, event: string, height: u64): Store {
    Store(map[p := Pool(params.rewardsPerEpoch, Snapshot(params, Epoch(0, height)))],
          map[(p, 0) := OneVote(params, verifier, height)], map[(event, p) := 0], map[])
  }

  lemma FundedRewards(p: PoolId, params: Params, verifier: Addr, event: string, height: u64)
    ensures Cumulated(Funded(p, params, verifier, event, height), p, 0, 1) == map[verifier := params.rewardsPerEpoch]
  {
    var s := Funded(p, params, verifier, event, height);
    OneVoteReward(params, verifier, height);
    assert Cumulated(s, p, 0, 0) == map[];
    assert Cumulated(s, p, 0, 1) == Merge(map[], map[verifier := params.rewardsPerEpoch]);
  }

  /** The distribution with limit zero pays all of epoch 0's rewards. */
  lemma FundedDistributes(p: PoolId, params: Params, verifier: Addr, event: string, start: u64, height: u64)
    requires height >= start + 2 * params.epochDuration
    ensures var s := Funded(p, params, verifier, event, start);
            var r := Distributed(s, p, Some(0), height);
            && r.Ok? && r.value.1.Payout?
            && r.value.1.rewards == map[verifier := params.rewardsPerEpoch]
            && r.value.1.from == r.value.1.to == 0
            && r.value.0 == s.(pools := map[p := Pool(0, s.pools[p].snapshot)], watermarks := map[p := 0])
  {
    var s := Funded(p, params, verifier, event, start);
    ZeroLimitPaysEpochZero(s, p, height);
    FundedRewards(p, params, verifier, event, start);
    SumOfOne(verifier, params.rewardsPerEpoch);
    assert Settled(s.pools[p], map[verifier := params.rewardsPerEpoch]) == Ok(Pool(0, s.pools[p].snapshot));
  }

  lemma FundedReachable(p: PoolId, params: Params, verifier: Addr, event: string, start: u64)
    ensures var s1 := Created(EMPTY, p, params, start);
            && s1.Ok?
            && var s2 := Added(s1.value.0, p, params.rewardsPerEpoch);
            && s2.Ok?
            && Recorded(s2.value.0, p, event, verifier, start) ==
                 Ok((Funded(p, params, verifier, event, start), Nothing))
  {
    var snapshot := Snapshot(params, Epoch(0, start));
    CurrentBySteps(snapshot, start);
    assert Current(snapshot, start) == Ok(Epoch(0, start));
    var s1 := Created(EMPTY, p, params, start).value.0;
    assert s1 == Store(map[p := Pool(0, snapshot)], map[], map[], map[]);
    var s2 := Added(s1, p, params.rewardsPerEpoch).value.0;
    assert s2 == Store(map[p := Pool(params.rewardsPerEpoch, snapshot)], map[], map[], map[]);
    var t := Recorded(s2, p, event, verifier, start).value.0;
    assert t.tallies[(p, 0)].participation == map[verifier := 1];
    assert t.tallies == map[(p, 0) := OneVote(params, verifier, start)];
    assert t.events == map[(event, p) := 0];
  }

  lemma RunOn(w: World, call: Call, rest: seq<Call>)
    ensures Run(w, [call] + rest) == Run(Step(w, call), rest)
  {
    assert ([call] + rest)[1..] == rest;
  }

  /** Created, funded, one participation, and two epochs later a distribution with limit zero: epoch 0 is
      processed and the pool is paid out. */
  lemma ZeroLimitPaysInARun(p: PoolId, params: Params, verifier: Addr, event: string, start: u64, height: u64)
    requires height >= start + 2 * params.epochDuration
    ensures var w := Run(START, [CreatePool(p, params, start), AddRewards(p, params.rewardsPerEpoch, start),
                                 Record(p, event, verifier, start), Distribute(p, Some(0), height)]);
            && p in w.store.watermarks && w.store.watermarks[p] == 0
            && PaidEpochs(w.ledger.processed, p) == [0]
            && Get(w.ledger.paid, p) == params.rewardsPerEpoch
            && p in w.store.pools && w.store.pools[p].balance == 0
  {
    var c1, c2 := CreatePool(p, params, start), AddRewards(p, params.rewardsPerEpoch, start);
    var c3, c4 := Record(p, event, verifier, start), Distribute(p, Some(0), height);
    assert [c1, c2, c3, c4] == [c1] + ([c2] + ([c3] + ([c4] + [])));
    var w1 := Step(START, c1);
    var w2 := Step(w1, c2);
    var w3 := Step(w2, c3);
    RunOn(START, c1, [c2] + ([c3] + ([c4] + [])));
    RunOn(w1, c2, [c3] + ([c4] + []));
    RunOn(w2, c3, [c4] + []);
    RunOn(w3, c4, []);
    FundedReachable(p, params, verifier, event, start);
    assert w3.store == Funded(p, params, verifier, event, start);
    assert w3.ledger.paid == map[] && w3.ledger.processed == map[];
    FundedDistributes(p, params, verifier, event, start, height);
    SumOfOne(verifier, params.rewardsPerEpoch);
    assert Range(0, 0) == [0];
  }
}

/** The contract's storage and the entry points that update it. */
module RewardsStorage {
  import opened Ints
  import opened Outcomes
  import opened Sums
  import opened Epochs
  import opened Tallies
  import opened RewardMaps
  import opened RewardsContracts

  lemma {:induction false} CumulatedGrows(s: Store, p: PoolId, from: nat, some: nat, count: nat, v: Addr)
    requires some <= count
    ensures Get(Cumulated(s, p, from, some), v) <= Get(Cumulated(s, p, from, count), v)
    decreases count
  {
    if some < count { CumulatedGrows(s, p, from, some, count - 1, v); }
  }

  lemma OverflowStays(s: Store, p: PoolId, from: nat, some: nat, count: nat)
    requires some <= count && !AllFit(Cumulated(s, p, from, some))
    ensures !AllFit(Cumulated(s, p, from, count))
  {
    var m := Cumulated(s, p, from, some);
    var v :| v in m && m[v] > U128_MAX;
    CumulatedGrows(s, p, from, some, count, v);
  }

  /** The sum of all amounts. */
  method Total(m: map<Addr, nat>) returns (sum: nat)
    ensures sum == SumMap(m)
  {
    sum := 0;
    var rest := m.Keys;
    while rest != {}
      invariant rest <= m.Keys
      invariant sum + SumOver(rest, m) == SumMap(m)
    {
      var v :| v in rest;
      SumOverRemove(rest, m, v);
      sum := sum + m[v];
      rest := rest - {v};
    }
  }

  /** One more epoch: its rewards are merged in if it has a tally. */
  method AddEpoch(s: Store, p: PoolId, from: nat, count: nat, sum: map<Addr, nat>) returns (r: Option<map<Addr, nat>>)
    requires sum == Cumulated(s, p, from, count) && AllFit(sum)
    ensures var all := Cumulated(s, p, from, count + 1);
            r == if AllFit(all) then Some(all) else None
  {
    var key := (p, from + count);
    if key !in s.tallies { return Some(sum); }
    r := MergeRewards(sum, RewardsByVerifier(s.tallies[key]));
  }

  /** `cumulate_rewards`: the rewards of the epochs from..to that have a tally, or None on an overflow. */
  method CumulateRewards(s: Store, p: PoolId, from: u64, to: u64) returns (r: Option<map<Addr, nat>>)
    requires from <= to
    ensures var all := Cumulated(s, p, from, to - from + 1);
            r == if AllFit(all) then Some(all) else None
  {
    var sum: map<Addr, nat>, count := map[], 0;
    while count <= to - from
      invariant count <= to - from + 1
      invariant sum == Cumulated(s, p, from, count) && AllFit(sum)
    {
      var next := AddEpoch(s, p, from, count, sum);
      count := count + 1;
      if next.None? {
        OverflowStays(s, p, from, count, to - from + 1);
        return None;
      }
      sum := next.value;
    }
    return Some(sum);
  }

  /** How a call ends: an error leaves the storage as it was. */
  predicate Performs(before: Store, after: Store, outcome: Outcome, e: Option<Error>) {
    match outcome
    case Ok((s, _)) => e == None && after == s
    case Err(error) => e == Some(error) && after == before
  }

  class RewardsContract {
    var pools: map<PoolId, Pool>
    var tallies: map<(PoolId, nat), Tally>
    var events: map<(string, PoolId), nat>
    var watermarks: map<PoolId, u64>

    function Contents(): Store
      reads this
    {
      Store(pools, tallies, events, watermarks)
    }

    constructor ()
      ensures Contents() == EMPTY
    {
      pools, tallies, events, watermarks := map[], map[], map[], map[];
    }

    method CreatePool(p: PoolId, params: Params, height: u64) returns (e: Option<Error>)
      modifies this
      ensures Performs(old(Contents()), Contents(), Created(old(Contents()), p, params, height), e)
    {
      if p in pools { return Some(RewardsPoolAlreadyExists); }
      pools := pools[p := Pool(0, Snapshot(params, Epoch(0, height)))];
      return None;
    }

    method UpdatePoolParams(p: PoolId, params: Params, height: u64) returns (e: Option<Error>)
      modifies this
      ensures Performs(old(Contents()), Contents(), Updated(old(Contents()), p, params, height), e)
    {
      if p !in pools { return Some(RewardsPoolNotFound); }
      var current := Current(pools[p].snapshot, height);
      if current.Err? { return Some(current.error); }
      var updated := Update(pools[p].snapshot, params, height);
      if updated.Err? { return Some(updated.error); }
      pools := pools[p := pools[p].(snapshot := updated.value)];
      var key := (p, current.value.num);
      if key in tallies {
        var tally := tallies[key].(params := params);
        tallies := tallies[(p, tally.epoch.num) := tally];
      }
      return None;
    }

    method AddRewards(p: PoolId, amount: PositiveU128) returns (e: Option<Error>)
      modifies this
      ensures Performs(old(Contents()), Contents(), Added(old(Contents()), p, amount), e)
    {
      if p !in pools { return Some(RewardsPoolNotFound); }
      if pools[p].balance + amount > U128_MAX { return Some(Overflow); }
      pools := pools[p := pools[p].(balance := pools[p].balance + amount)];
      return None;
    }

    method RecordParticipation(p: PoolId, event: string, verifier: Addr, height: u64) returns (e: Option<Error>)
      modifies this
      ensures Performs(old(Contents()), Contents(), Recorded(old(Contents()), p, event, verifier, height), e)
    {
      if p !in pools { return Some(RewardsPoolNotFound); }
      var current := Current(pools[p].snapshot, height);
      if current.Err? { return Some(current.error); }
      var isNew := (event, p) !in events;
      var num := if isNew then current.value.num else events[(event, p)];
      events := events[(event, p) := num];
      var tally :=
        if (p, num) in tallies then tallies[(p, num)]
        else Tally(current.value, 0, map[], pools[p].snapshot.params);
      tally := Participated(tally, verifier);
      if isNew { tally := tally.(eventCount := SaturatingAdd64(tally.eventCount, 1)); }
      tallies := tallies[(p, tally.epoch.num) := tally];
      return None;
    }

    method DistributeRewards(p: PoolId, limit: Option<u64>, height: u64) returns (e: Option<Error>, payout: Payout)
      modifies this
      ensures Performs(old(Contents()), Contents(), Distributed(old(Contents()), p, limit, height), e)
      ensures e == None ==> payout == Distributed(old(Contents()), p, limit, height).value.1
    {
      payout := Nothing;
      if p !in pools { return Some(RewardsPoolNotFound), Nothing; }
      var due := WindowOf(Contents(), p, limit, height);
      if due.Err? { return Some(due.error), Nothing; }
      var from, to := due.value.from, due.value.to;
      var rewards := CumulateRewards(Contents(), p, from, to);
      if rewards.None? { return Some(Overflow), Nothing; }
      var total := Total(rewards.value);
      if total > U128_MAX { return Some(ExpectPanic), Nothing; }
      if total > pools[p].balance { return Some(PoolBalanceInsufficient), Nothing; }
      pools := pools[p := pools[p].(balance := pools[p].balance - total)];
      watermarks := watermarks[p := to];
      return None, Payout(rewards.value, from, to, due.value.more);
    }
  }
}
