/** Which calls of the rewards contract succeed after any run, and what they leave alone
    (contracts/rewards/src/contract/execute.rs). Distributions have a module of their own. */
module RewardsCalls {
  import opened Ints
  import opened Outcomes
  import opened Epochs
  import opened Tallies
  import opened RewardsContracts

  /** The checkpoint of every pool of a run is sound. */
  lemma {:induction false} PoolsAreSound(past: seq<Call>, p: PoolId)
    requires p in Run(START, past).store.pools
    ensures Sound(Run(START, past).store.pools[p].snapshot)
  {
    RunKeepsBooks(START, past);
    assert PoolOk(Run(START, past), p);
  }

  /** A pool can be created once. It starts without a balance, in epoch 0, which begins with its creation. */
  lemma {:induction false} CreatesIff(past: seq<Call>, call: Call)
    requires call.CreatePool?
    ensures var s, p := Run(START, past).store, call.pool;
            var r := Perform(s, call);
            && (r.Ok? <==> p !in s.pools)
            && (r.Err? ==> r.error == RewardsPoolAlreadyExists)
            && (r.Ok? ==>
                  && p in r.value.0.pools && r.value.1 == Nothing
                  && var pool := r.value.0.pools[p];
                  && r.value.0 == s.(pools := s.pools[p := pool])
                  && pool.balance == 0 && pool.snapshot.params == call.params
                  && pool.snapshot.createdAt.num == 0 && pool.snapshot.createdAt.start == call.height)
  {
  }

  /** The n-th epoch of such a pool begins n durations after its creation. */
  lemma {:induction false} FirstEpochs(params: Params, height: u64, later: u64)
    requires height <= later
    ensures var n := (later - height) / params.epochDuration;
            && n <= height + n * params.epochDuration <= later
            && Current(Snapshot(params, Epoch(0, height)), later) == Ok(Epoch(n, height + n * params.epochDuration))
  {
    CurrentIsExact(Snapshot(params, Epoch(0, height)), later);
  }

  /** Rewards can be added to every pool, unless its balance would overflow, at any height. */
  lemma {:induction false} AddsIff(past: seq<Call>, call: Call)
    requires call.AddRewards?
    ensures var s, p := Run(START, past).store, call.pool;
            var r := Perform(s, call);
            && (r.Ok? <==> p in s.pools && s.pools[p].balance + call.amount <= U128_MAX)
            && (r.Err? ==> r.error == if p !in s.pools then RewardsPoolNotFound else Overflow)
            && (r.Ok? ==>
                  && r.value.1 == Nothing
                  && r.value.0 == s.(pools := s.pools[p := Pool(s.pools[p].balance + call.amount, s.pools[p].snapshot)]))
  {
  }

  /** A participation is recorded for every pool at every height from its checkpoint on, whatever the event, the
      verifier and the payments so far; balances, checkpoints and watermarks do not change. */
  lemma {:induction false} RecordsIff(past: seq<Call>, call: Call)
    requires call.Record?
    ensures var s, p := Run(START, past).store, call.pool;
            var r := Perform(s, call);
            && (r.Ok? <==> p in s.pools && s.pools[p].snapshot.createdAt.start <= call.height)
            && (r.Err? ==> r.error == if p !in s.pools then RewardsPoolNotFound else BlockHeightInPast)
            && (r.Ok? ==> r.value.1 == Nothing && r.value.0.pools == s.pools && r.value.0.watermarks == s.watermarks)
  {
    var s, p := Run(START, past).store, call.pool;
    if p in s.pools {
      PoolsAreSound(past, p);
      if s.pools[p].snapshot.createdAt.start <= call.height { CurrentIsExact(s.pools[p].snapshot, call.height); }
    }
  }

  /** Parameters can be updated for every pool at every height from its checkpoint on, unless the current epoch would
      end beyond the largest height; balances, events and watermarks do not change. */
  lemma {:induction false} UpdatesIff(past: seq<Call>, call: Call)
    requires call.UpdateParams?
    ensures var s, p := Run(START, past).store, call.pool;
            var r := Perform(s, call);
            && (p in s.pools && s.pools[p].snapshot.createdAt.start <= call.height ==>
                  Current(s.pools[p].snapshot, call.height).Ok?)
            && (r.Ok? <==>
                  && p in s.pools && s.pools[p].snapshot.createdAt.start <= call.height
                  && Current(s.pools[p].snapshot, call.height).value.start + call.params.epochDuration <= U64_MAX)
            && (r.Err? ==> r.error == if p !in s.pools then RewardsPoolNotFound
                                      else if call.height < s.pools[p].snapshot.createdAt.start then BlockHeightInPast
                                      else Overflow)
            && (r.Ok? ==>
                  && p in r.value.0.pools && r.value.1 == Nothing
                  && r.value.0.pools == s.pools[p := Pool(s.pools[p].balance, r.value.0.pools[p].snapshot)]
                  && r.value.0.pools[p].snapshot.params == call.params
                  && r.value.0.events == s.events && r.value.0.watermarks == s.watermarks)
  {
    var s, p := Run(START, past).store, call.pool;
    if p in s.pools {
      var snapshot := s.pools[p].snapshot;
      PoolsAreSound(past, p);
      if snapshot.createdAt.start <= call.height { UpdateNeverSkipsEpochs(snapshot, call.params, call.height); }
      else { NoEpochInThePast(snapshot, call.params, call.height); }
    }
  }
}
