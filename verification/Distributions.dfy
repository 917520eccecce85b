/** Which epochs a distribution pays, to whom, and what any number of them pay together
    (contracts/rewards/src/contract/execute.rs). */
module Distributions {
  import opened Ints
  import opened Outcomes
  import opened Sums
  import opened Epochs
  import opened Tallies
  import opened RewardMaps
  import opened RewardsContracts

  /** How many epochs the caller asks for; ten, if nothing is said. */
  function Asked(limit: Option<u64>): nat {
    match limit
    case None => 10
    case Some(n) => n
  }

  /** The first epoch that is not paid yet. */
  function FirstUnpaid(s: Store, p: PoolId): nat {
    var paid: nat := if p in s.watermarks then s.watermarks[p] else 0;
    if p in s.watermarks then paid + 1 else 0
  }

  // ---------------------------------------------------------------- one distribution

  /** The pool has a current epoch at this height, and its last paid epoch is not the last number there is. */
  ghost predicate Dated(s: Store, p: PoolId, height: u64) {
    && p in s.pools && Current(s.pools[p].snapshot, height).Ok?
    && (p in s.watermarks ==> s.watermarks[p] < U64_MAX)
  }

  function Num(s: Store, p: PoolId, height: u64): nat
    requires p in s.pools && Current(s.pools[p].snapshot, height).Ok?
  {
    Current(s.pools[p].snapshot, height).value.num
  }

  /** With a positive limit there is something to process exactly when an epoch at least two before the current
      one is unpaid. Then as many epochs as asked for are processed, or as many as there are, from the first
      unpaid one on; and more can be paid exactly when some of them are left. */
  lemma {:induction false} WindowIff(s: Store, p: PoolId, limit: Option<u64>, height: u64)
    requires Dated(s, p, height) && Asked(limit) > 0
    ensures var num, first, r := Num(s, p, height), FirstUnpaid(s, p), WindowOf(s, p, limit, height);
            && (r.Ok? <==> first + 2 <= num)
            && (r.Err? ==> r.error == NoRewardsToDistribute)
            && (r.Ok? ==>
                  && r.value.from == first
                  && r.value.to + 1 == first + (if Asked(limit) <= num - 1 - first then Asked(limit) else num - 1 - first)
                  && (r.value.more <==> first + Asked(limit) < num - 1))
  {
  }

  lemma {:induction false} AmountBound(m: map<Addr, nat>, v: Addr)
    requires v in m
    ensures m[v] <= SumMap(m)
  {
    SumOverRemove(m.Keys, m, v);
  }

  /** Rewards can be taken out of the pool exactly when its balance covers them: then no amount overflows. */
  lemma {:induction false} SettledIff(pool: Pool, rewards: map<Addr, nat>)
    ensures Settled(pool, rewards).Ok? <==> SumMap(rewards) <= pool.balance
    ensures Settled(pool, rewards).Ok? ==> Settled(pool, rewards).value == pool.(balance := pool.balance - SumMap(rewards))
    ensures SumMap(rewards) <= U128_MAX && SumMap(rewards) > pool.balance ==>
              Settled(pool, rewards) == Err(PoolBalanceInsufficient)
    ensures SumMap(rewards) > U128_MAX ==>
              Settled(pool, rewards) ==
                Err(if exists v :: v in rewards && rewards[v] > U128_MAX then Overflow else ExpectPanic)
  {
    if SumMap(rewards) <= U128_MAX {
      forall v | v in rewards ensures rewards[v] <= U128_MAX { AmountBound(rewards, v); }
    }
  }

  /** What the verifier earns in the epoch of the tally: its share, if it is among those to reward. */
  function Share(t: Tally, v: Addr): nat {
    if v in VerifiersToReward(t) then t.params.rewardsPerEpoch / |VerifiersToReward(t)| else 0
  }

  /** What it earns in `count` epochs from `from` on. */
  function Earned(s: Store, p: PoolId, from: nat, count: nat, v: Addr): nat {
    if count == 0 then 0
    else
      var key := (p, from + count - 1);
      Earned(s, p, from, count - 1, v) + (if key in s.tallies then Share(s.tallies[key], v) else 0)
  }

  lemma {:induction false} ShareIsPaid(t: Tally, v: Addr)
    ensures Get(RewardsByVerifier(t), v) == Share(t, v)
  {
    SplitIsFair(t);
    var n, reward := |VerifiersToReward(t)|, t.params.rewardsPerEpoch;
    if v in VerifiersToReward(t) && reward < n {
      QuotientIsDivision(reward, n);
      QuotientUnique(reward, n, 0);
    }
  }

  /** Added up over the epochs, every verifier gets its share of each of them. */
  lemma {:induction false} EveryoneGetsItsShares(s: Store, p: PoolId, from: nat, count: nat, v: Addr)
    ensures Get(Cumulated(s, p, from, count), v) == Earned(s, p, from, count, v)
  {
    if count > 0 {
      EveryoneGetsItsShares(s, p, from, count - 1, v);
      var key := (p, from + count - 1);
      if key in s.tallies { ShareIsPaid(s.tallies[key], v); }
    }
  }

  lemma {:induction false} DistributesWindow(s: Store, p: PoolId, limit: Option<u64>, height: u64, w: Window, count: nat)
    requires WindowOf(s, p, limit, height) == Ok(w) && w.from + count == w.to + 1
    ensures var total, r := EpochPayouts(s, p, w.from, count), Distributed(s, p, limit, height);
            && (r.Ok? <==> total <= s.pools[p].balance)
            && (s.pools[p].balance < total <= U128_MAX ==> r == Err(PoolBalanceInsufficient))
            && (r.Ok? ==>
                  && r.value.0 == s.(pools := s.pools[p := s.pools[p].(balance := s.pools[p].balance - total)],
                                     watermarks := s.watermarks[p := w.to])
                  && r.value.1 == Payout(Cumulated(s, p, w.from, count), w.from, w.to, w.more)
                  && SumMap(r.value.1.rewards) == total)
  {
    CumulatedConserves(s, p, w.from, count);
    SettledIff(s.pools[p], Cumulated(s, p, w.from, count));
  }

  /** A distribution with a positive limit succeeds exactly when an epoch at least two before the current one is
      unpaid and the balance covers what the epochs to process pay. It takes that out of the pool and moves the
      watermark behind them. Nothing else changes. */
  lemma {:induction false} DistributesIff(s: Store, p: PoolId, limit: Option<u64>, height: u64)
    requires Dated(s, p, height) && Asked(limit) > 0
    ensures var num, first, r := Num(s, p, height), FirstUnpaid(s, p), Distributed(s, p, limit, height);
            if first + 2 > num then r == Err(NoRewardsToDistribute)
            else
              var count := if Asked(limit) <= num - 1 - first then Asked(limit) else num - 1 - first;
              var total := EpochPayouts(s, p, first, count);
              && (r.Ok? <==> total <= s.pools[p].balance)
              && (s.pools[p].balance < total <= U128_MAX ==> r == Err(PoolBalanceInsufficient))
              && (r.Ok? ==>
                    && r.value.0 == s.(pools := s.pools[p := s.pools[p].(balance := s.pools[p].balance - total)],
                                       watermarks := s.watermarks[p := first + count - 1])
                    && r.value.1.Payout? && r.value.1.from == first && r.value.1.to == first + count - 1
                    && (r.value.1.more <==> first + Asked(limit) < num - 1)
                    && SumMap(r.value.1.rewards) == total
                    && r.value.1.rewards == Cumulated(s, p, first, count))
  {
    WindowIff(s, p, limit, height);
    var w := WindowOf(s, p, limit, height);
    if w.Ok? { DistributesWindow(s, p, limit, height, w.value, w.value.to - w.value.from + 1); }
  }

  /** Such a distribution pays every verifier its shares of the processed epochs, and nobody else anything. */
  lemma {:induction false} DistributionPaysShares(s: Store, p: PoolId, limit: Option<u64>, height: u64, v: Addr)
    requires Dated(s, p, height) && Asked(limit) > 0 && Distributed(s, p, limit, height).Ok?
    ensures var num, first := Num(s, p, height), FirstUnpaid(s, p);
            var count := if Asked(limit) <= num - 1 - first then Asked(limit) else num - 1 - first;
            && first + 2 <= num
            && Distributed(s, p, limit, height).value.1.Payout?
            && Get(Distributed(s, p, limit, height).value.1.rewards, v) == Earned(s, p, first, count, v)
  {
    DistributesIff(s, p, limit, height);
    var num, first := Num(s, p, height), FirstUnpaid(s, p);
    EveryoneGetsItsShares(s, p, first, if Asked(limit) <= num - 1 - first then Asked(limit) else num - 1 - first, v);
  }

  /** A distribution of a pool that does not exist, or at a height before its checkpoint, is refused as such. */
  lemma {:induction false} UndatedIsRefused(s: Store, p: PoolId, limit: Option<u64>, height: u64)
    ensures p !in s.pools ==> Distributed(s, p, limit, height) == Err(RewardsPoolNotFound)
    ensures p in s.pools && Current(s.pools[p].snapshot, height).Err? ==>
              Distributed(s, p, limit, height) == Err(Current(s.pools[p].snapshot, height).error)
  {
  }

  // ---------------------------------------------------------------- many distributions

  /** Distributions of the pool at this height, with positive limits. */
  ghost predicate Distributions(calls: seq<Call>, p: PoolId, height: u64) {
    forall i :: 0 <= i < |calls| ==>
      calls[i].Distribute? && calls[i].pool == p && calls[i].height == height && Asked(calls[i].limit) > 0
  }

  function AllAsked(calls: seq<Call>): nat {
    if calls == [] then 0 else (if calls[0].Distribute? then Asked(calls[0].limit) else 0) + AllAsked(calls[1..])
  }

  lemma {:induction false} PayoutsAdd(s: Store, p: PoolId, from: nat, a: nat, b: nat)
    ensures EpochPayouts(s, p, from, a + b) == EpochPayouts(s, p, from, a) + EpochPayouts(s, p, from + a, b)
    decreases b
  {
    if b > 0 { PayoutsAdd(s, p, from, a, b - 1); }
  }

  lemma {:induction false} PayoutsByTallies(s: Store, t: Store, p: PoolId, from: nat, count: nat)
    requires s.tallies == t.tallies
    ensures EpochPayouts(s, p, from, count) == EpochPayouts(t, p, from, count)
  {
    if count > 0 { PayoutsByTallies(s, t, p, from, count - 1); }
  }

  /** The balance covers all that is due at this height. */
  ghost predicate Covered(s: Store, p: PoolId, height: u64)
    requires Dated(s, p, height)
  {
    var num, first := Num(s, p, height), FirstUnpaid(s, p);
    first < num ==> EpochPayouts(s, p, first, num - 1 - first) <= s.pools[p].balance
  }

  /** The pool is paid up to, but without, epoch `next`, and `t` differs from `s` in that only. */
  ghost predicate PaidUpTo(s: Store, t: Store, p: PoolId, next: nat)
    requires p in s.pools && FirstUnpaid(s, p) <= next
  {
    && t.tallies == s.tallies && t.events == s.events && p in t.pools
    && FirstUnpaid(t, p) == next
    && t.pools[p].snapshot == s.pools[p].snapshot
    && t.pools[p].balance + EpochPayouts(s, p, FirstUnpaid(s, p), next - FirstUnpaid(s, p)) == s.pools[p].balance
  }

  /** Where `asked` more epochs end: at the first epoch that may not be paid yet, if not before. */
  function Reach(first: nat, asked: nat, num: nat): nat {
    if first + asked <= num - 1 then first + asked else if first <= num - 1 then num - 1 else first
  }

  lemma {:induction false} OnePays(w: World, call: Call, p: PoolId, height: u64)
    requires call.Distribute? && Distributions([call], p, height) && Dated(w.store, p, height) && Covered(w.store, p, height)
    ensures var s, t := w.store, Step(w, call).store;
            PaidUpTo(s, t, p, Reach(FirstUnpaid(s, p), Asked(call.limit), Num(s, p, height)))
  {
    var s, t := w.store, Step(w, call).store;
    var num, first := Num(s, p, height), FirstUnpaid(s, p);
    assert [call][0] == call;
    DistributesIff(s, p, call.limit, height);
    if first + 2 <= num {
      var count := if Asked(call.limit) <= num - 1 - first then Asked(call.limit) else num - 1 - first;
      PayoutsAdd(s, p, first, count, num - 1 - first - count);
    }
  }

  lemma {:induction false} StillCovered(s: Store, t: Store, p: PoolId, next: nat, height: u64)
    requires Dated(s, p, height) && Covered(s, p, height) && FirstUnpaid(s, p) <= next && PaidUpTo(s, t, p, next)
    requires next <= Num(s, p, height) - 1 || next == FirstUnpaid(s, p)
    ensures Dated(t, p, height) && Covered(t, p, height) && Num(t, p, height) == Num(s, p, height)
  {
    var num, first := Num(s, p, height), FirstUnpaid(s, p);
    if next < num {
      PayoutsAdd(s, p, first, next - first, num - 1 - next);
      PayoutsByTallies(s, t, p, next, num - 1 - next);
    }
  }

  lemma {:induction false} PaidFurther(s: Store, t: Store, u: Store, p: PoolId, mid: nat, next: nat)
    requires p in s.pools && FirstUnpaid(s, p) <= mid && PaidUpTo(s, t, p, mid) && mid <= next && PaidUpTo(t, u, p, next)
    ensures PaidUpTo(s, u, p, next)
  {
    PayoutsAdd(s, p, FirstUnpaid(s, p), mid - FirstUnpaid(s, p), next - mid);
    PayoutsByTallies(s, t, p, mid, next - mid);
  }

  lemma {:induction false} ManyPay(w: World, calls: seq<Call>, p: PoolId, height: u64)
    requires Distributions(calls, p, height) && Dated(w.store, p, height) && Covered(w.store, p, height)
    ensures var s, t := w.store, Run(w, calls).store;
            PaidUpTo(s, t, p, Reach(FirstUnpaid(s, p), AllAsked(calls), Num(s, p, height)))
    decreases |calls|
  {
    if calls != [] {
      var s, call, rest := w.store, calls[0], calls[1..];
      var num, first := Num(s, p, height), FirstUnpaid(s, p);
      var mid := Reach(first, Asked(call.limit), num);
      var t := Step(w, call).store;
      OnePays(w, call, p, height);
      StillCovered(s, t, p, mid, height);
      ManyPay(Step(w, call), rest, p, height);
      PaidFurther(s, t, Run(w, calls).store, p, mid, Reach(mid, AllAsked(rest), num));
    }
  }

  /** After any run: distributions with positive limits at one height, whose due epochs the balance covers, pay
      exactly as many epochs as they ask for together, and no more than are due, whatever the single limits are.
      So once they ask for enough, everything up to two epochs before the current one is paid. */
  lemma {:induction false} DistributionsCatchUp(past: seq<Call>, calls: seq<Call>, p: PoolId, height: u64)
    requires p in Run(START, past).store.pools && Current(Run(START, past).store.pools[p].snapshot, height).Ok?
    requires Distributions(calls, p, height)
    ensures Dated(Run(START, past).store, p, height)
    ensures Covered(Run(START, past).store, p, height) ==>
              var s, t := Run(START, past).store, Run(Run(START, past), calls).store;
              var num, first := Num(s, p, height), FirstUnpaid(s, p);
              && PaidUpTo(s, t, p, Reach(first, AllAsked(calls), num))
              && (first + 2 <= num <= first + 1 + AllAsked(calls) ==> p in t.watermarks && t.watermarks[p] == num - 2)
  {
    var w := Run(START, past);
    RunKeepsBooks(START, past);
    assert PoolOk(w, p);
    if Covered(w.store, p, height) { ManyPay(w, calls, p, height); }
  }
}
