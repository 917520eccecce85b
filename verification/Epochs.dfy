/** Epoch arithmetic of the rewards contract (contracts/rewards/src/state.rs and contract/execute.rs). */
module Epochs {
  import opened Ints
  import opened Outcomes

  type PositiveU64 = n: u64 | n > 0 witness 1
  type PositiveU128 = n: u128 | n > 0 witness 1

  datatype Fraction = Fraction(numerator: PositiveU64, denominator: PositiveU64)

  /** A fraction in (0, 1]. */
  type Threshold = t: Fraction | t.numerator <= t.denominator witness Fraction(1, 1)

  datatype Params = Params(epochDuration: PositiveU64, rewardsPerEpoch: PositiveU128, threshold: Threshold)

  datatype Epoch = Epoch(num: u64, start: u64)

  /** Parameters together with the epoch in which they came into force. */
  datatype Snapshot = Snapshot(params: Params, createdAt: Epoch)

  datatype Error =
    | BlockHeightInPast
    | Overflow
    | ExpectPanic
    | RewardsPoolNotFound
    | RewardsPoolAlreadyExists
    | NoRewardsToDistribute
    | PoolBalanceInsufficient

  /** `Epoch::current`; a violated `expect` is an ExpectPanic. */
  function Current(s: Snapshot, height: u64): Result<Epoch, Error> {
    var duration, last := s.params.epochDuration, s.createdAt;
    if height < last.start then Err(BlockHeightInPast)
    else
      var elapsed := Quotient(height - last.start, duration);
      var passed := SaturatingMul64(elapsed, duration);
      if last.num + elapsed > U64_MAX || last.start + passed > U64_MAX then Err(ExpectPanic)
      else Ok(Epoch(last.num + elapsed, last.start + passed))
  }

  /** The new checkpoint of `update_pool_params`. */
  function Update(s: Snapshot, params: Params, height: u64): Result<Snapshot, Error> {
    match Current(s, height)
    case Err(e) => Err(e)
    case Ok(epoch) =>
      if epoch.start + params.epochDuration > U64_MAX then Err(Overflow)
      else if epoch.start + params.epochDuration < height then
        if epoch.num == U64_MAX then Err(ExpectPanic)
        else Ok(Snapshot(params, Epoch(epoch.num + 1, height)))
      else Ok(Snapshot(params, epoch))
  }

  // ---------------------------------------------------------------- what the arithmetic relies on

  /** There are never more epochs than blocks. */
  ghost predicate Sound(s: Snapshot) {
    s.createdAt.num <= s.createdAt.start
  }

  /** From a sound checkpoint no `expect` fires and the multiplication never saturates, counted in steps of
      one duration. */
  lemma CurrentBySteps(s: Snapshot, height: u64)
    requires Sound(s) && s.createdAt.start <= height
    ensures var q := Quotient(height - s.createdAt.start, s.params.epochDuration);
            && q <= Times(q, s.params.epochDuration) <= height - s.createdAt.start
            && Current(s, height) == Ok(Epoch(s.createdAt.num + q, s.createdAt.start + Times(q, s.params.epochDuration)))
  {
    var d, passed := s.params.epochDuration, height - s.createdAt.start;
    QuotientBounds(passed, d);
    TimesAtLeast(Quotient(passed, d), d);
  }

  lemma EpochBySteps(s: Snapshot, height: u64, k: nat)
    requires Sound(s) && s.createdAt.start <= height
    ensures Current(s, height).Ok?
    ensures var e, d := Current(s, height).value, s.params.epochDuration;
            && e.start <= height < e.start + d
            && s.createdAt.num <= e.num <= e.start
            && e.start == s.createdAt.start + Times(e.num - s.createdAt.num, d)
            && (k == e.num - s.createdAt.num <==>
                s.createdAt.start + Times(k, d) <= height < s.createdAt.start + Times(k, d) + d)
  {
    var d, passed := s.params.epochDuration, height - s.createdAt.start;
    CurrentBySteps(s, height);
    QuotientBounds(passed, d);
    if Times(k, d) <= passed < Times(k, d) + d { QuotientUnique(passed, d, k); }
  }

  /** From a sound checkpoint no `expect` fires and the multiplication never saturates: the epoch is the
      checkpoint moved on by the whole durations that have passed. */
  lemma CurrentIsExact(s: Snapshot, height: u64)
    requires Sound(s) && s.createdAt.start <= height
    ensures var q := (height - s.createdAt.start) / s.params.epochDuration;
            && s.createdAt.num + q <= s.createdAt.start + q * s.params.epochDuration <= height
            && Current(s, height) == Ok(Epoch(s.createdAt.num + q, s.createdAt.start + q * s.params.epochDuration))
  {
    CurrentBySteps(s, height);
    var d, passed := s.params.epochDuration, height - s.createdAt.start;
    QuotientIsDivision(passed, d);
    TimesIsProduct(passed / d, d);
  }

  /** The current epoch is the k-th after a sound checkpoint exactly when k durations, but not one more,
      have passed; it contains the height, and the checkpoint it would make is sound again. */
  lemma CurrentIsTheEpochContaining(s: Snapshot, height: u64, k: nat)
    requires Sound(s) && s.createdAt.start <= height
    ensures Current(s, height).Ok?
    ensures var e, d := Current(s, height).value, s.params.epochDuration;
            && e.start <= height < e.start + d
            && s.createdAt.num <= e.num <= e.start
            && e.start == s.createdAt.start + (e.num - s.createdAt.num) * d
            && (k == e.num - s.createdAt.num <==>
                s.createdAt.start + k * d <= height < s.createdAt.start + k * d + d)
  {
    EpochBySteps(s, height, k);
    var e, d := Current(s, height).value, s.params.epochDuration;
    TimesIsProduct(k, d);
    TimesIsProduct(e.num - s.createdAt.num, d);
  }

  /** A height before the checkpoint has no epoch and takes no update. */
  lemma NoEpochInThePast(s: Snapshot, params: Params, height: u64)
    requires height < s.createdAt.start
    ensures Current(s, height) == Err(BlockHeightInPast) && Update(s, params, height) == Err(BlockHeightInPast)
  {
  }

  lemma CurrentMonotone(s: Snapshot, h: u64, later: u64)
    requires Sound(s) && s.createdAt.start <= h <= later
    ensures Current(s, h).Ok? && Current(s, later).Ok?
    ensures Current(s, h).value.num <= Current(s, later).value.num
    ensures Current(s, h).value.start <= Current(s, later).value.start
  {
    var d := s.params.epochDuration;
    CurrentBySteps(s, h);
    CurrentBySteps(s, later);
    QuotientMonotone(h - s.createdAt.start, later - s.createdAt.start, d);
    TimesMonotone(Quotient(h - s.createdAt.start, d), Quotient(later - s.createdAt.start, d), d);
  }

  /** Taking the current epoch as the new checkpoint changes no later epoch. */
  lemma RebaseKeepsEpochs(s: Snapshot, h: u64, later: u64)
    requires Sound(s) && s.createdAt.start <= h <= later
    ensures Current(s, h).Ok? && Sound(Snapshot(s.params, Current(s, h).value))
    ensures Current(Snapshot(s.params, Current(s, h).value), later) == Current(s, later)
  {
    var d := s.params.epochDuration;
    EpochBySteps(s, h, 0);
    EpochBySteps(s, later, 0);
    CurrentMonotone(s, h, later);
    var e, f := Current(s, h).value, Current(s, later).value;
    TimesSum(e.num - s.createdAt.num, f.num - e.num, d);
    EpochBySteps(Snapshot(s.params, e), later, f.num - e.num);
  }

  /** A parameter update keeps the checkpoint sound, no `expect` fires, and at the height of the update
      the epoch number stays or moves on by one, never further: by one exactly when the new duration has
      already passed since the epoch began, and then the new epoch begins with the update. */
  lemma UpdateNeverSkipsEpochs(s: Snapshot, params: Params, height: u64)
    requires Sound(s) && s.createdAt.start <= height
    ensures Current(s, height).Ok? && Update(s, params, height) != Err(ExpectPanic)
    ensures Update(s, params, height).Ok? <==>
              Current(s, height).value.start + params.epochDuration <= U64_MAX
    ensures Update(s, params, height).Ok? ==>
              var before, t := Current(s, height).value, Update(s, params, height).value;
              && t.params == params && Sound(t) && t.createdAt.start <= height
              && Current(t, height).Ok?
              && Current(t, height).value.num ==
                   before.num + (if before.start + params.epochDuration <= height then 1 else 0)
              && Current(t, height).value.start == (if before.start + params.epochDuration <= height then height else before.start)
  {
    EpochBySteps(s, height, 0);
    var before, d := Current(s, height).value, params.epochDuration;
    if before.start + d <= U64_MAX {
      var t := Update(s, params, height).value;
      if before.start + d < height {
        EpochBySteps(t, height, 0);
      } else if before.start + d == height {
        EpochBySteps(t, height, 1);
      } else {
        EpochBySteps(t, height, 0);
      }
    }
  }
}
