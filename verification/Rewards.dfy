/** Participation tallies and the split of an epoch's rewards (contracts/rewards/src/state.rs). */
module Tallies {
  import opened Ints
  import opened Sums
  import opened Epochs

  type Addr = string

  datatype Tally = Tally(epoch: Epoch, eventCount: u64, participation: map<Addr, u64>, params: Params)

  /** `record_participation` on one tally. */
  function Participated(t: Tally, verifier: Addr): Tally {
    var count := if verifier in t.participation then SaturatingAdd64(t.participation[verifier], 1) else 1;
    t.(participation := t.participation[verifier := count])
  }

  /** The participation is a fraction in (0, 1] and reaches the threshold, compared by cross multiplication. */
  predicate Qualifies(count: u64, events: u64, threshold: Threshold) {
    && 0 < count <= events
    && count * threshold.denominator >= threshold.numerator * events
  }

  lemma CrossMultiply(a: real, b: real, c: real, d: real)
    requires b > 0.0 && d > 0.0
    ensures a / b >= c / d <==> a * d >= c * b
  {
    var x, y := a / b, c / d;
    assert a == x * b && c == y * d;
    assert a * d == x * (b * d) && c * b == y * (b * d);
    Scale(x, y, b * d);
  }

  lemma Scale(x: real, y: real, z: real)
    requires z > 0.0
    ensures x >= y <==> x * z >= y * z
  {
  }

  /** The comparison of products is the comparison of the two fractions. */
  lemma QualifiesByFraction(count: u64, events: u64, threshold: Threshold)
    ensures Qualifies(count, events, threshold) <==>
              && 0 < count <= events
              && (count as real) / (events as real) >= (threshold.numerator as real) / (threshold.denominator as real)
  {
    if events > 0 {
      CrossMultiply(count as real, events as real, threshold.numerator as real, threshold.denominator as real);
      ProductAsReal(count, threshold.denominator);
      ProductAsReal(threshold.numerator, events);
    }
  }

  lemma ProductAsReal(a: nat, b: nat)
    ensures (a * b) as real == (a as real) * (b as real)
  {
  }

  function VerifiersToReward(t: Tally): set<Addr> {
    set v | v in t.participation && Qualifies(t.participation[v], t.eventCount, t.params.threshold)
  }

  function RewardPerVerifier(t: Tally): nat {
    var n := |VerifiersToReward(t)|;
    if n == 0 then 0 else Quotient(t.params.rewardsPerEpoch, n)
  }

  /** `rewards_by_verifier` */
  function RewardsByVerifier(t: Tally): map<Addr, nat> {
    if RewardPerVerifier(t) == 0 then map[] else map v | v in VerifiersToReward(t) :: RewardPerVerifier(t)
  }

  lemma {:induction false} SumOfConstant<K>(s: set<K>, m: map<K, nat>, c: nat)
    requires s <= m.Keys && forall k :: k in s ==> m[k] == c
    ensures SumOver(s, m) == Times(|s|, c)
  {
    if s != {} {
      var k :| k in s;
      SumOverRemove(s, m, k);
      SumOfConstant(s - {k}, m, c);
    }
  }

  lemma SplitBySteps(t: Tally)
    ensures var n, r, reward := |VerifiersToReward(t)|, RewardsByVerifier(t), t.params.rewardsPerEpoch;
            && (r == map[] <==> n == 0 || reward < n)
            && (r != map[] ==>
                  && r.Keys == VerifiersToReward(t)
                  && (forall v :: v in r ==> r[v] == Quotient(reward, n))
                  && SumMap(r) == Times(n, Quotient(reward, n))
                  && SumMap(r) <= reward < SumMap(r) + n)
            && SumMap(r) <= reward
  {
    var s := VerifiersToReward(t);
    var n, r, reward := |s|, RewardsByVerifier(t), t.params.rewardsPerEpoch;
    if n > 0 {
      var q := Quotient(reward, n);
      QuotientBounds(reward, n);
      TimesCommute(n, q);
      if q > 0 {
        assert r.Keys == s;
        SumOfConstant(s, r, q);
        var v :| v in s;
        assert v in r;
      }
    }
  }

  /** The split pays each of the n qualifying verifiers the same rounded-down share; together they get at
      most the epoch's rewards, and less than n units are left over. Nobody is paid exactly when nobody
      qualifies or the rewards are fewer than the verifiers. */
  lemma SplitIsFair(t: Tally)
    ensures var n, r, reward := |VerifiersToReward(t)|, RewardsByVerifier(t), t.params.rewardsPerEpoch;
            && (r == map[] <==> n == 0 || reward < n)
            && (r != map[] ==>
                  && r.Keys == VerifiersToReward(t)
                  && (forall v :: v in r ==> r[v] == reward / n)
                  && SumMap(r) == n * (reward / n)
                  && SumMap(r) <= reward < SumMap(r) + n)
            && SumMap(r) <= reward
  {
    SplitBySteps(t);
    var n, reward := |VerifiersToReward(t)|, t.params.rewardsPerEpoch;
    if n > 0 {
      QuotientIsDivision(reward, n);
      TimesIsProduct(n, reward / n);
    }
  }

  lemma {:induction false} TimesZero(k: nat)
    ensures Times(k, 0) == 0
  {
    if k > 0 { TimesZero(k - 1); }
  }

  lemma {:induction false} TimesSucc(k: nat, d: nat)
    ensures Times(k, d + 1) == Times(k, d) + k
  {
    if k > 0 { TimesSucc(k - 1, d); }
  }

  lemma {:induction false} TimesCommute(k: nat, d: nat)
    ensures Times(k, d) == Times(d, k)
  {
    if d == 0 { TimesZero(k); }
    else {
      TimesCommute(k, d - 1);
      TimesSucc(k, d - 1);
    }
  }
}

/** Amounts per verifier, added up over epochs (`merge_rewards`). */
module RewardMaps {
  import opened Ints
  import opened Outcomes
  import opened Sums

  function Get<K>(m: map<K, nat>, k: K): nat {
    if k in m then m[k] else 0
  }

  /** The amounts of both maps, added key by key. */
  function Merge<K>(a: map<K, nat>, b: map<K, nat>): (r: map<K, nat>)
    ensures r.Keys == a.Keys + b.Keys
    ensures forall k :: k in r ==> r[k] == Get(a, k) + Get(b, k)
  {
    map k | k in a.Keys + b.Keys :: Get(a, k) + Get(b, k)
  }

  ghost predicate AllFit<K>(m: map<K, nat>) {
    forall k :: k in m ==> m[k] <= U128_MAX
  }

  lemma {:induction false} MergeSumOver<K>(s: set<K>, a: map<K, nat>, b: map<K, nat>)
    requires s <= a.Keys + b.Keys
    ensures SumOver(s, Merge(a, b)) == SumOver(s * a.Keys, a) + SumOver(s * b.Keys, b)
  {
    if s != {} {
      var k :| k in s;
      var t := s - {k};
      MergeSumOver(t, a, b);
      SumOverRemove(s, Merge(a, b), k);
      SplitOff(s, k, a);
      SplitOff(s, k, b);
    }
  }

  lemma SplitOff<K>(s: set<K>, k: K, m: map<K, nat>)
    requires k in s
    ensures SumOver(s * m.Keys, m) == Get(m, k) + SumOver((s - {k}) * m.Keys, m)
  {
    if k in m {
      SumOverRemove(s * m.Keys, m, k);
      assert s * m.Keys - {k} == (s - {k}) * m.Keys;
    } else {
      assert s * m.Keys == (s - {k}) * m.Keys;
    }
  }

  /** Merging loses nothing and invents nothing. */
  lemma MergeConserves<K>(a: map<K, nat>, b: map<K, nat>)
    ensures SumMap(Merge(a, b)) == SumMap(a) + SumMap(b)
  {
    MergeSumOver(a.Keys + b.Keys, a, b);
    assert (a.Keys + b.Keys) * a.Keys == a.Keys && (a.Keys + b.Keys) * b.Keys == b.Keys;
  }

  /** `merge_rewards`: the second map is folded into the first, entry by entry in any order, with
      checked additions. */
  method MergeRewards<K(==)>(a: map<K, nat>, b: map<K, nat>) returns (r: Option<map<K, nat>>)
    requires AllFit(a)
    ensures r == if AllFit(Merge(a, b)) then Some(Merge(a, b)) else None
  {
    var sum, rest := a, b.Keys;
    while rest != {}
      invariant rest <= b.Keys && AllFit(sum)
      invariant sum.Keys == a.Keys + (b.Keys - rest)
      invariant forall k :: k in sum ==> sum[k] == Get(a, k) + (if k in rest then 0 else Get(b, k))
    {
      var k :| k in rest;
      var amount := (if k in sum then sum[k] else 0) + b[k];
      if amount > U128_MAX {
        assert k in Merge(a, b) && Merge(a, b)[k] == amount;
        return None;
      }
      sum := sum[k := amount];
      rest := rest - {k};
    }
    assert sum == Merge(a, b);
    r := Some(sum);
  }
}
