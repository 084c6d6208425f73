/** The community vote budget: a token bucket in exact units, and the authority-side clamp.
    Bucket levels count sixty-thousandths of a stick, so that milliseconds times the per-minute rate are whole units. */
module VoteBudget {
  import opened Arithmetic

  const WINDOW_MS := 60_000
  const BURST_MINUTES := 10
  const VOTE_COUNT_MAX := 500

  datatype Bucket = Bucket(units: int, updatedAt: int)

  function BurstCap(rate: int): int {
    if rate <= 0 then 0 else rate * BURST_MINUTES * WINDOW_MS
  }

  /** Level of a bucket now: idle time refills it, up to ten minutes' worth. */
  function Level(b: Bucket, now: int, rate: int): int {
    var elapsed := if now >= b.updatedAt then now - b.updatedAt else 0;
    var filled := b.units + elapsed * rate;
    if filled <= BurstCap(rate) then filled else BurstCap(rate)
  }

  /** A bucket that is lower now stays lower, however long both refill. */
  lemma LevelKeepsOrder(a: Bucket, b: Bucket, now: int, later: int, rate: int)
    requires rate > 0 && a.updatedAt <= now <= later && b.updatedAt <= now
    requires Level(a, now, rate) <= Level(b, now, rate)
    ensures Level(a, later, rate) <= Level(b, later, rate)
  {
    assert (later - a.updatedAt) * rate == (now - a.updatedAt) * rate + (later - now) * rate;
    assert (later - b.updatedAt) * rate == (now - b.updatedAt) * rate + (later - now) * rate;
    assert (later - now) * rate >= 0;
  }

  /** Between two instants a bucket gains at most the rate times the time. */
  lemma LevelGrowth(b: Bucket, now: int, later: int, rate: int)
    requires rate > 0 && b.updatedAt <= now <= later
    ensures Level(b, now, rate) <= Level(b, later, rate) <= Level(b, now, rate) + (later - now) * rate
  {
    assert (later - b.updatedAt) * rate == (now - b.updatedAt) * rate + (later - now) * rate;
    assert (later - now) * rate >= 0;
  }

  /** An empty bucket refilled since `since` is never above one that was not yet empty then. */
  lemma EmptyIsLowest(b: Bucket, since: int, now: int, rate: int)
    requires rate > 0 && b.units >= 0 && b.updatedAt <= since <= now
    ensures Level(Bucket(0, since), now, rate) <= Level(b, now, rate)
  {
    ProductGrows(rate, now - since, now - b.updatedAt);
  }

  datatype Clamp = Spend(sticks: nat) | InvalidCount

  /** What the authority takes of a request: at most 500, at most what remains, at most what the bucket allows
      (no bound when the bucket is disabled); zero when nothing can be taken. */
  function ClampVoteSpend(requested: int, remaining: nat, available: Limit): (c: Clamp)
    ensures c.InvalidCount? <==> requested < 1
  {
    if requested < 1 then InvalidCount
    else
      var want := if requested <= VOTE_COUNT_MAX then requested else VOTE_COUNT_MAX;
      var room := if available.Unlimited? then want else if available.sticks >= 0 then available.sticks else 0;
      var least := if want <= remaining then want else remaining;
      Spend(if least <= room then least else room)
  }

  datatype Limit = Unlimited | Sticks(sticks: int)

  predicate Allows(requested: int, remaining: nat, available: Limit, n: int) {
    n <= requested && n <= VOTE_COUNT_MAX && n <= remaining && (available.Sticks? ==> n <= available.sticks)
  }

  /** The clamp is the largest spend that every bound allows; it is zero exactly when no positive spend is allowed. */
  lemma ClampIsLargestAllowed(requested: int, remaining: nat, available: Limit, n: int)
    requires requested >= 1
    ensures var c := ClampVoteSpend(requested, remaining, available).sticks;
            (n >= 1 && Allows(requested, remaining, available, n) ==> n <= c)
            && (c >= 1 ==> Allows(requested, remaining, available, c))
  {
  }

  // ----- daily accounting -----

  datatype Personal = Personal(
    effectiveTokens: nat, tokenPerIncense: nat, earned: nat, used: nat, remaining: int, remainder: nat, toNext: int)

  datatype Fold = Folded(state: Personal) | UsedExceedsEarned | InvalidTokenPerIncense

  /** Fold effective tokens and used sticks into the personal state; refuses a state that spent more than it earned. */
  function DerivePersonal(effectiveTokens: nat, used: nat, tokenPerIncense: nat): (r: Fold)
  {
    if tokenPerIncense == 0 then InvalidTokenPerIncense
    else
      var earned := effectiveTokens / tokenPerIncense;
      if used > earned then UsedExceedsEarned
      else
        var remainder := effectiveTokens % tokenPerIncense;
        Folded(Personal(effectiveTokens, tokenPerIncense, earned, used, earned - used, remainder, tokenPerIncense - remainder))
  }

  /** Three definitions of what is affordable agree: the floor-division fold, the SQL spend guard and the table CHECK. */
  lemma AffordabilityAgrees(claimed: nat, used: nat, tokenPerIncense: nat, spend: nat)
    requires tokenPerIncense > 0
    ensures (used + spend) * tokenPerIncense <= claimed <==> spend <= claimed / tokenPerIncense - used
    ensures used * tokenPerIncense <= claimed <==> DerivePersonal(claimed, used, tokenPerIncense).Folded?
  {
    QuotientReaches(claimed, tokenPerIncense, used + spend);
    QuotientReaches(claimed, tokenPerIncense, used);
  }

  /** Spending moves sticks from remaining to used and touches nothing about tokens. */
  lemma SpendKeepsTokens(claimed: nat, used: nat, tokenPerIncense: nat, spend: nat)
    requires DerivePersonal(claimed, used, tokenPerIncense).Folded?
    requires spend <= DerivePersonal(claimed, used, tokenPerIncense).state.remaining
    ensures var before, after := DerivePersonal(claimed, used, tokenPerIncense), DerivePersonal(claimed, used + spend, tokenPerIncense);
            && after.Folded? && after.state.remaining == before.state.remaining - spend
            && after.state.earned == before.state.earned && after.state.remainder == before.state.remainder
            && after.state.earned * tokenPerIncense + after.state.remainder == claimed
  {
  }
}
