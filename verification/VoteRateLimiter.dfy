/** The in-memory vote limiter: a bounded map of buckets that forgets idle ones and rebuilds them from the last vote. */
module VoteRateLimiter {
  import opened Common
  import opened Ledger
  import opened VoteBudget
  import opened Arithmetic

  datatype Reason = PerInstallation | ActiveKeyCapacity

  datatype Decision = Decision(allowed: bool, reason: Option<Reason>, retryAfterMs: int, available: Limit)

  const ALLOWED_UNLIMITED := Decision(true, None, 0, Unlimited)
  const CAPACITY_REACHED := Decision(false, Some(ActiveKeyCapacity), WINDOW_MS, Sticks(0))

  type Windows = map<InstallationId, Bucket>

  function Evicted(windows: Windows, now: int): Windows {
    map id | id in windows && now - windows[id].updatedAt < WINDOW_MS :: windows[id]
  }

  /** The map after making room for a key it does not hold. */
  function Admitting(windows: Windows, id: InstallationId, maxKeys: nat, now: int): Windows {
    if id !in windows && |windows| >= maxKeys then Evicted(windows, now) else windows
  }

  /** Level of a key: its bucket, or one rebuilt from the last accepted vote, or one minute's worth for a newcomer. */
  function CurrentLevel(windows: Windows, id: InstallationId, now: int, lastVoteAt: Option<int>, rate: int): int {
    if id in windows then Level(windows[id], now, rate)
    else if lastVoteAt.None? then rate * WINDOW_MS
    else Level(Bucket(0, lastVoteAt.value), now, rate)
  }

  /** Milliseconds until the missing units have refilled, rounded up. */
  function RetryAfterMs(units: int, want: int, rate: int): int
    requires rate > 0
  {
    var need := want * WINDOW_MS - units;
    if need <= 0 then 1
    else (need + rate - 1) / rate
  }

  /** Waiting as told is enough for any want the burst cap can hold, and a millisecond less is not. */
  lemma RetryAfterIsExact(b: Bucket, now: int, want: int, rate: int)
    requires rate > 0 && b.updatedAt <= now && 0 <= Level(b, now, rate) < want * WINDOW_MS <= BurstCap(rate)
    ensures var wait := RetryAfterMs(Level(b, now, rate), want, rate);
            && wait >= 1
            && Level(b, now + wait, rate) >= want * WINDOW_MS
            && Level(b, now + wait - 1, rate) < want * WINDOW_MS
  {
    var units := Level(b, now, rate);
    var need := want * WINDOW_MS - units;
    var wait := (need + rate - 1) / rate;
    QuotientReaches(need + rate - 1, rate, 1);
    QuotientReaches(need + rate - 1, rate, wait);
    QuotientReaches(need + rate - 1, rate, wait + 1);
    assert (wait + 1) * rate == wait * rate + rate;
    assert (wait - 1) * rate == wait * rate - rate;
    LevelAfter(b, now, wait, rate);
    LevelAfter(b, now, wait - 1, rate);
  }

  /** A bucket below the cap refills linearly. */
  lemma LevelAfter(b: Bucket, now: int, wait: nat, rate: int)
    requires rate > 0 && b.updatedAt <= now && Level(b, now, rate) < BurstCap(rate)
    ensures Level(b, now + wait, rate) == if Level(b, now, rate) + wait * rate <= BurstCap(rate)
                                          then Level(b, now, rate) + wait * rate else BurstCap(rate)
  {
    assert (now + wait - b.updatedAt) * rate == (now - b.updatedAt) * rate + wait * rate;
  }

  /** An inspect that finds less than a stick counts it as none, so its wait is enough, never short, and longer than needed
      by less than the time the fraction took to refill, plus a millisecond. */
  lemma InspectRetryIsEnough(b: Bucket, now: int, rate: int)
    requires rate > 0 && b.updatedAt <= now && 0 <= Level(b, now, rate) < WINDOW_MS
    ensures var units := Level(b, now, rate);
            var told, needed := RetryAfterMs((units / WINDOW_MS) * WINDOW_MS, 1, rate), RetryAfterMs(units, 1, rate);
            && Level(b, now + told, rate) >= WINDOW_MS
            && told >= needed && (told - needed) * rate < units + rate
  {
    var units := Level(b, now, rate);
    var told, needed := (WINDOW_MS + rate - 1) / rate, (WINDOW_MS - units + rate - 1) / rate;
    RetryAfterIsExact(b, now, 1, rate);
    QuotientReaches(WINDOW_MS + rate - 1, rate, needed);
    QuotientReaches(WINDOW_MS + rate - 1, rate, told);
    QuotientReaches(WINDOW_MS - units + rate - 1, rate, needed);
    QuotientReaches(WINDOW_MS - units + rate - 1, rate, needed + 1);
    assert (needed + 1) * rate == needed * rate + rate;
    assert (told - needed) * rate == told * rate - needed * rate;
    LevelGrowth(b, now + needed, now + told, rate);
  }

  function InspectDecision(windows: Windows, id: InstallationId, now: int, lastVoteAt: Option<int>, rate: int, maxKeys: nat): Decision
    requires rate > 0
  {
    if id !in windows && |windows| >= maxKeys then CAPACITY_REACHED
    else
      var units := CurrentLevel(windows, id, now, lastVoteAt, rate);
      var available := units / WINDOW_MS;
      if available >= 1 then Decision(true, None, 0, Sticks(available))
      else Decision(false, Some(PerInstallation), RetryAfterMs(available * WINDOW_MS, 1, rate), Sticks(available))
  }

  function Wanted(count: int): nat {
    if count >= 1 then count else 0
  }

  function ConsumeDecision(windows: Windows, id: InstallationId, want: nat, now: int, lastVoteAt: Option<int>, rate: int, maxKeys: nat): Decision
    requires rate > 0
  {
    if want < 1 then Decision(true, None, 0, InspectDecision(windows, id, now, None, rate, maxKeys).available)
    else if id !in windows && |windows| >= maxKeys then CAPACITY_REACHED
    else
      var units := CurrentLevel(windows, id, now, lastVoteAt, rate);
      if units < want * WINDOW_MS
      then Decision(false, Some(PerInstallation), RetryAfterMs(units, want, rate), Sticks(units / WINDOW_MS))
      else Decision(true, None, 0, Sticks((units - want * WINDOW_MS) / WINDOW_MS))
  }

  /** The map after a consume, on a map that already made room. */
  function Consumed(windows: Windows, id: InstallationId, want: nat, now: int, lastVoteAt: Option<int>, rate: int, maxKeys: nat): Windows {
    if want < 1 || (id !in windows && |windows| >= maxKeys) then windows
    else
      var units := CurrentLevel(windows, id, now, lastVoteAt, rate);
      if units >= want * WINDOW_MS then windows[id := Bucket(units - want * WINDOW_MS, now)]
      else if id in windows then windows[id := Bucket(units, now)]
      else windows
  }

  class VoteRateLimiter {
    const workUnitsPerMinute: int
    const maxActiveKeys: nat
    var windows: Windows

    predicate Valid()
      reads this
    {
      maxActiveKeys > 0 && |windows| <= maxActiveKeys
    }

    constructor (workUnitsPerMinute: int, maxActiveKeys: nat)
      requires maxActiveKeys > 0
      ensures Valid() && windows == map[]
      ensures this.workUnitsPerMinute == workUnitsPerMinute && this.maxActiveKeys == maxActiveKeys
    {
      this.workUnitsPerMinute, this.maxActiveKeys, windows := workUnitsPerMinute, maxActiveKeys, map[];
    }

    /** Drop every bucket that has been idle for a whole window. */
    method EvictExpired(now: int)
      requires Valid()
      modifies this
      ensures Valid() && windows == Evicted(old(windows), now)
      ensures forall id :: id in windows <==> id in old(windows) && now - old(windows)[id].updatedAt < 60_000
      ensures forall id :: id in windows ==> windows[id] == old(windows)[id]
    {
      var ids := windows.Keys;
      while ids != {}
        invariant ids <= windows.Keys <= old(windows).Keys
        invariant forall id :: id in windows ==> windows[id] == old(windows)[id]
        invariant forall id :: id in old(windows) && id !in ids ==>
                    (id in windows <==> now - old(windows)[id].updatedAt < WINDOW_MS)
        decreases |ids|
      {
        var id :| id in ids;
        if now - windows[id].updatedAt >= WINDOW_MS {
          windows := windows - {id};
        }
        ids := ids - {id};
      }
      assert windows == Evicted(old(windows), now);
      assert windows.Keys <= old(windows).Keys;
      SubsetSize(windows.Keys, old(windows).Keys);
    }

    /** What the key could spend now. Inspecting may make room, but never creates a bucket. */
    method Inspect(id: InstallationId, now: int, lastVoteAt: Option<int>) returns (d: Decision)
      requires Valid()
      modifies this
      ensures Valid()
      ensures workUnitsPerMinute <= 0 ==> d == ALLOWED_UNLIMITED && windows == old(windows)
      ensures workUnitsPerMinute > 0 ==>
                && windows == Admitting(old(windows), id, maxActiveKeys, now)
                && d == InspectDecision(windows, id, now, lastVoteAt, workUnitsPerMinute, maxActiveKeys)
    {
      if workUnitsPerMinute <= 0 {
        return ALLOWED_UNLIMITED;
      }
      if id !in windows {
        if |windows| >= maxActiveKeys {
          EvictExpired(now);
          if |windows| >= maxActiveKeys {
            return CAPACITY_REACHED;
          }
        }
        var available :=
          if lastVoteAt.None? then workUnitsPerMinute
          else Level(Bucket(0, lastVoteAt.value), now, workUnitsPerMinute) / WINDOW_MS;
        assert lastVoteAt.None? ==> (workUnitsPerMinute * WINDOW_MS) / WINDOW_MS == workUnitsPerMinute;
        return Decision(available >= 1, if available >= 1 then None else Some(PerInstallation),
                        if available >= 1 then 0 else RetryAfterMs(available * WINDOW_MS, 1, workUnitsPerMinute),
                        Sticks(available));
      }
      var available := Level(windows[id], now, workUnitsPerMinute) / WINDOW_MS;
      return Decision(available >= 1, if available >= 1 then None else Some(PerInstallation),
                      if available >= 1 then 0 else RetryAfterMs(available * WINDOW_MS, 1, workUnitsPerMinute),
                      Sticks(available));
    }

    /** Take `count` sticks from the key's bucket, creating it if need be. Less than one stick is free: it is answered with
        what a look without the last vote finds. */
    method Consume(id: InstallationId, count: int, now: int, lastVoteAt: Option<int>) returns (d: Decision)
      requires Valid()
      modifies this
      ensures Valid()
      ensures workUnitsPerMinute <= 0 ==> d == ALLOWED_UNLIMITED && windows == old(windows)
      ensures workUnitsPerMinute > 0 ==>
                var admitted := Admitting(old(windows), id, maxActiveKeys, now);
                && d == ConsumeDecision(admitted, id, Wanted(count), now, lastVoteAt, workUnitsPerMinute, maxActiveKeys)
                && windows == Consumed(admitted, id, Wanted(count), now, lastVoteAt, workUnitsPerMinute, maxActiveKeys)
    {
      if workUnitsPerMinute <= 0 {
        return ALLOWED_UNLIMITED;
      }
      if count < 1 {
        var seen := Inspect(id, now, None);
        return Decision(true, None, 0, seen.available);
      }
      if id !in windows && |windows| >= maxActiveKeys {
        EvictExpired(now);
        if |windows| >= maxActiveKeys {
          return CAPACITY_REACHED;
        }
      }
      var units :=
        if id in windows then Level(windows[id], now, workUnitsPerMinute)
        else if lastVoteAt.None? then workUnitsPerMinute * WINDOW_MS
        else Level(Bucket(0, lastVoteAt.value), now, workUnitsPerMinute);
      if units < count * WINDOW_MS {
        if id in windows {
          windows := windows[id := Bucket(units, now)];
        }
        return Decision(false, Some(PerInstallation), RetryAfterMs(units, count, workUnitsPerMinute), Sticks(units / WINDOW_MS));
      }
      windows := windows[id := Bucket(units - count * WINDOW_MS, now)];
      return Decision(true, None, 0, Sticks((units - count * WINDOW_MS) / WINDOW_MS));
    }
  }

  lemma SubsetSize<T>(a: set<T>, b: set<T>)
    requires a <= b
    ensures |a| <= |b|
  {
    if a != {} {
      var x :| x in a;
      SubsetSize(a - {x}, b - {x});
    }
  }

  /** After an inspect that allows, a charge of at most what it offered always succeeds on the same map and clock. */
  lemma ChargeAfterInspect(windows: Windows, id: InstallationId, want: nat, now: int, lastVoteAt: Option<int>, rate: int, maxKeys: nat)
    requires rate > 0
    requires var d := InspectDecision(Admitting(windows, id, maxKeys, now), id, now, lastVoteAt, rate, maxKeys);
             d.allowed && 1 <= want <= d.available.sticks
    ensures var admitted := Admitting(windows, id, maxKeys, now);
            && Admitting(admitted, id, maxKeys, now) == admitted
            && ConsumeDecision(admitted, id, want, now, lastVoteAt, rate, maxKeys).allowed
            && Consumed(admitted, id, want, now, lastVoteAt, rate, maxKeys)
               == admitted[id := Bucket(CurrentLevel(admitted, id, now, lastVoteAt, rate) - want * WINDOW_MS, now)]
  {
    var admitted := Admitting(windows, id, maxKeys, now);
    QuotientReaches(CurrentLevel(admitted, id, now, lastVoteAt, rate), WINDOW_MS, want);
  }

  // ----- runs -----

  /** How the vote handler leaves a request that inspect let through. `createdAt` is the service clock of the receipt. */
  datatype Outcome = Accepted(spent: nat, createdAt: int) | Rejected

  datatype Event =
    | Vote(id: InstallationId, now: int, outcome: Outcome)
    | Throttled(id: InstallationId, now: int)
    | Restart(now: int)

  /** Limiter and vote ledger, beside an ideal bucket per installation that starts full, is charged only by accepted
      votes and is never evicted. */
  datatype World = World(windows: Windows, lastVote: map<InstallationId, int>, ideal: Windows, clock: int)

  function LastVote(w: World, id: InstallationId): Option<int> {
    if id in w.lastVote then Some(w.lastVote[id]) else None
  }

  function Ideal(w: World, id: InstallationId, rate: int): Bucket {
    if id in w.ideal then w.ideal[id] else Bucket(BurstCap(rate), w.clock)
  }

  function Offer(w: World, id: InstallationId, now: int, rate: int, maxKeys: nat): Decision
    requires rate > 0
  {
    InspectDecision(Admitting(w.windows, id, maxKeys, now), id, now, LastVote(w, id), rate, maxKeys)
  }

  /** Time moves forward, and a vote is only served within what inspect offered. */
  predicate Possible(w: World, e: Event, rate: int, maxKeys: nat)
    requires rate > 0
  {
    && e.now >= w.clock
    && (e.Vote? ==> Offer(w, e.id, e.now, rate, maxKeys).allowed)
    && (e.Vote? && e.outcome.Accepted? ==>
          e.outcome.createdAt >= e.now && 1 <= e.outcome.spent <= Offer(w, e.id, e.now, rate, maxKeys).available.sticks)
  }

  function Next(w: World, e: Event, rate: int, maxKeys: nat): World {
    match e
    case Restart(now) => w.(windows := map[], clock := now)
    case Throttled(id, now) => w.(windows := Admitting(w.windows, id, maxKeys, now), clock := now)
    case Vote(id, now, outcome) =>
      var admitted := Admitting(w.windows, id, maxKeys, now);
      if outcome.Rejected? then
        w.(windows := Consumed(admitted, id, 1, now, LastVote(w, id), rate, maxKeys), clock := now)
      else
        World(Consumed(admitted, id, outcome.spent, now, LastVote(w, id), rate, maxKeys),
              w.lastVote[id := outcome.createdAt],
              w.ideal[id := Bucket(Level(Ideal(w, id, rate), now, rate) - outcome.spent * WINDOW_MS, now)],
              outcome.createdAt)
  }

  /** The bucket in use never exceeds the ideal one, now or after any wait. */
  ghost predicate Dominated(w: World, id: InstallationId, rate: int) {
    && 0 <= Ideal(w, id, rate).units <= BurstCap(rate) && Ideal(w, id, rate).updatedAt <= w.clock
    && (id in w.windows ==>
          w.windows[id].updatedAt <= w.clock && Level(w.windows[id], w.clock, rate) <= Level(Ideal(w, id, rate), w.clock, rate))
    && (id in w.lastVote ==> Ideal(w, id, rate).updatedAt <= w.lastVote[id] <= w.clock)
    && (id in w.ideal <==> id in w.lastVote)
  }

  ghost predicate Bounded(w: World, rate: int, maxKeys: nat) {
    |w.windows| <= maxKeys && forall id :: Dominated(w, id, rate)
  }

  lemma RealBelowIdeal(w: World, id: InstallationId, now: int, rate: int)
    requires rate > 0 && Dominated(w, id, rate) && now >= w.clock
    ensures CurrentLevel(w.windows, id, now, LastVote(w, id), rate) <= Level(Ideal(w, id, rate), now, rate)
  {
    if id in w.windows {
      LevelKeepsOrder(w.windows[id], Ideal(w, id, rate), w.clock, now, rate);
    } else if id in w.lastVote {
      EmptyIsLowest(Ideal(w, id, rate), w.lastVote[id], now, rate);
    } else {
      LevelGrowth(Ideal(w, id, rate), w.clock, now, rate);
    }
  }

  /** Forgetting an idle bucket is harmless: what it would be rebuilt to is still below the ideal. */
  lemma StillDominated(w: World, v: World, id: InstallationId, rate: int)
    requires rate > 0 && Dominated(w, id, rate) && v.clock >= w.clock
    requires v.lastVote == w.lastVote && v.ideal == w.ideal
    requires id in v.windows ==> id in w.windows && v.windows[id] == w.windows[id]
    ensures Dominated(v, id, rate)
  {
    if id in v.windows {
      LevelKeepsOrder(w.windows[id], Ideal(w, id, rate), w.clock, v.clock, rate);
    }
  }

  lemma AdmittingShrinks(windows: Windows, id: InstallationId, maxKeys: nat, now: int)
    requires |windows| <= maxKeys
    ensures var admitted := Admitting(windows, id, maxKeys, now);
            && admitted.Keys <= windows.Keys && (forall k :: k in admitted ==> admitted[k] == windows[k])
            && |admitted| <= maxKeys
  {
    SubsetSize(Admitting(windows, id, maxKeys, now).Keys, windows.Keys);
  }

  /** Making room keeps every key below its ideal. */
  lemma AdmittingKeepsBounded(w: World, id: InstallationId, now: int, rate: int, maxKeys: nat)
    requires rate > 0 && Bounded(w, rate, maxKeys) && now >= w.clock
    ensures Bounded(w.(windows := Admitting(w.windows, id, maxKeys, now), clock := now), rate, maxKeys)
  {
    hide Dominated, Admitting;
    var mid := w.(windows := Admitting(w.windows, id, maxKeys, now), clock := now);
    AdmittingShrinks(w.windows, id, maxKeys, now);
    forall k ensures Dominated(mid, k, rate) {
      StillDominated(w, mid, k, rate);
    }
  }

  function Charge(outcome: Outcome): nat {
    if outcome.Rejected? then 1 else outcome.spent
  }

  /** What a served vote does to the world that made room for it. */
  lemma VoteCharges(w: World, e: Event, rate: int, maxKeys: nat)
    requires rate > 0 && Possible(w, e, rate, maxKeys) && e.Vote?
    ensures var admitted := Admitting(w.windows, e.id, maxKeys, e.now);
            var units := CurrentLevel(admitted, e.id, e.now, LastVote(w, e.id), rate);
            var v := Next(w, e, rate, maxKeys);
            && units >= Charge(e.outcome) * WINDOW_MS
            && v.windows == admitted[e.id := Bucket(units - Charge(e.outcome) * WINDOW_MS, e.now)]
            && (e.id in admitted || |admitted| < maxKeys)
            && (e.outcome.Rejected? ==> v.ideal == w.ideal && v.lastVote == w.lastVote && v.clock == e.now)
            && (e.outcome.Accepted? ==>
                  && v.ideal == w.ideal[e.id := Bucket(Level(Ideal(w, e.id, rate), e.now, rate) - e.outcome.spent * WINDOW_MS, e.now)]
                  && v.lastVote == w.lastVote[e.id := e.outcome.createdAt] && v.clock == e.outcome.createdAt)
  {
    hide CurrentLevel, Ideal, Level, Admitting;
    var admitted := Admitting(w.windows, e.id, maxKeys, e.now);
    ChargeAfterInspect(w.windows, e.id, Charge(e.outcome), e.now, LastVote(w, e.id), rate, maxKeys);
    QuotientReaches(CurrentLevel(admitted, e.id, e.now, LastVote(w, e.id), rate), WINDOW_MS, Charge(e.outcome));
  }

  lemma VoteKeepsBounded(w: World, e: Event, rate: int, maxKeys: nat)
    requires rate > 0 && Bounded(w, rate, maxKeys) && Possible(w, e, rate, maxKeys) && e.Vote?
    ensures Bounded(Next(w, e, rate, maxKeys), rate, maxKeys)
  {
    hide Next, Dominated, Admitting, CurrentLevel, InspectDecision;
    var id := e.id;
    var v := Next(w, e, rate, maxKeys);
    var mid := w.(windows := Admitting(w.windows, id, maxKeys, e.now), clock := e.now);
    AdmittingKeepsBounded(w, id, e.now, rate, maxKeys);
    VoteCharges(w, e, rate, maxKeys);
    forall k ensures Dominated(v, k, rate) {
      if k != id {
        OthersStayBelow(mid, v, id, k, rate);
      } else {
        SameIdeal(w, mid, id, e.now, rate);
        ChargedStaysBelow(mid, v, id, Charge(e.outcome), rate, e.outcome.Accepted?);
      }
    }
  }

  lemma SameIdeal(w: World, mid: World, id: InstallationId, now: int, rate: int)
    requires rate > 0 && mid.ideal == w.ideal && w.clock <= now == mid.clock
    ensures Level(Ideal(mid, id, rate), now, rate) == Level(Ideal(w, id, rate), now, rate)
  {
    assert (now - w.clock) * rate >= 0;
  }

  /** A vote leaves the buckets and last votes of others alone. */
  lemma OthersStayBelow(mid: World, v: World, id: InstallationId, k: InstallationId, rate: int)
    requires rate > 0 && Dominated(mid, k, rate) && v.clock >= mid.clock && k != id
    requires k in v.windows <==> k in mid.windows
    requires k in v.windows ==> v.windows[k] == mid.windows[k]
    requires (k in v.lastVote <==> k in mid.lastVote) && (k in v.lastVote ==> v.lastVote[k] == mid.lastVote[k])
    requires (k in v.ideal <==> k in mid.ideal) && (k in v.ideal ==> v.ideal[k] == mid.ideal[k])
    ensures Dominated(v, k, rate)
  {
    if k in v.windows {
      LevelKeepsOrder(mid.windows[k], Ideal(mid, k, rate), mid.clock, v.clock, rate);
    }
  }

  lemma ChargedStaysBelow(mid: World, v: World, id: InstallationId, spent: nat, rate: int, accepted: bool)
    requires rate > 0 && Dominated(mid, id, rate) && v.clock >= mid.clock
    requires var units := CurrentLevel(mid.windows, id, mid.clock, LastVote(mid, id), rate);
             && units >= spent * WINDOW_MS
             && id in v.windows && v.windows[id] == Bucket(units - spent * WINDOW_MS, mid.clock)
    requires if accepted
             then id in v.ideal && v.ideal[id] == Bucket(Level(Ideal(mid, id, rate), mid.clock, rate) - spent * WINDOW_MS, mid.clock)
                  && id in v.lastVote && v.lastVote[id] == v.clock
             else v.ideal == mid.ideal && v.lastVote == mid.lastVote && v.clock == mid.clock
    ensures Dominated(v, id, rate)
  {
    RealBelowIdeal(mid, id, mid.clock, rate);
    if accepted {
      LevelKeepsOrder(v.windows[id], v.ideal[id], mid.clock, v.clock, rate);
    }
  }

  lemma StepKeepsBounded(w: World, e: Event, rate: int, maxKeys: nat)
    requires rate > 0 && Bounded(w, rate, maxKeys) && Possible(w, e, rate, maxKeys)
    ensures Bounded(Next(w, e, rate, maxKeys), rate, maxKeys)
  {
    if e.Vote? {
      VoteKeepsBounded(w, e, rate, maxKeys);
    } else {
      var v := Next(w, e, rate, maxKeys);
      if e.Throttled? {
        AdmittingShrinks(w.windows, e.id, maxKeys, e.now);
      }
      forall k ensures Dominated(v, k, rate) {
        StillDominated(w, v, k, rate);
      }
    }
  }

  function AcceptedBy(events: seq<Event>, id: InstallationId): nat {
    if events == [] then 0
    else
      var e := events[|events| - 1];
      AcceptedBy(events[..|events| - 1], id) + (if e.Vote? && e.id == id && e.outcome.Accepted? then e.outcome.spent else 0)
  }

  function Run(w: World, events: seq<Event>, rate: int, maxKeys: nat): World {
    if events == [] then w
    else Next(Run(w, events[..|events| - 1], rate, maxKeys), events[|events| - 1], rate, maxKeys)
  }

  predicate PossibleRun(w: World, events: seq<Event>, rate: int, maxKeys: nat)
    requires rate > 0
  {
    events == [] ||
    (PossibleRun(w, events[..|events| - 1], rate, maxKeys)
     && Possible(Run(w, events[..|events| - 1], rate, maxKeys), events[|events| - 1], rate, maxKeys))
  }

  /** What an installation was granted, plus what the ideal bucket still holds, is paid for by its start level and the elapsed time. */
  lemma {:induction false} SpendIsPaidFor(w: World, events: seq<Event>, id: InstallationId, rate: int, maxKeys: nat)
    requires rate > 0 && Bounded(w, rate, maxKeys) && PossibleRun(w, events, rate, maxKeys)
    ensures var v := Run(w, events, rate, maxKeys);
            && Bounded(v, rate, maxKeys) && v.clock >= w.clock
            && AcceptedBy(events, id) * WINDOW_MS + Level(Ideal(v, id, rate), v.clock, rate)
               <= Level(Ideal(w, id, rate), w.clock, rate) + (v.clock - w.clock) * rate
    decreases |events|
  {
    if events != [] {
      var front, e := events[..|events| - 1], events[|events| - 1];
      SpendIsPaidFor(w, front, id, rate, maxKeys);
      var u := Run(w, front, rate, maxKeys);
      var v := Next(u, e, rate, maxKeys);
      StepKeepsBounded(u, e, rate, maxKeys);
      assert Dominated(u, id, rate) && Dominated(v, id, rate);
      StepIsPaidFor(u, e, id, rate, maxKeys);
      assert (v.clock - w.clock) * rate == (v.clock - u.clock) * rate + (u.clock - w.clock) * rate;
    }
  }

  lemma StepIsPaidFor(u: World, e: Event, id: InstallationId, rate: int, maxKeys: nat)
    requires rate > 0 && Possible(u, e, rate, maxKeys) && Dominated(u, id, rate)
    ensures var v := Next(u, e, rate, maxKeys);
            var spent := if e.Vote? && e.id == id && e.outcome.Accepted? then e.outcome.spent else 0;
            && v.clock >= u.clock
            && spent * WINDOW_MS + Level(Ideal(v, id, rate), v.clock, rate)
               <= Level(Ideal(u, id, rate), u.clock, rate) + (v.clock - u.clock) * rate
  {
    hide CurrentLevel, Consumed, Admitting, InspectDecision, Level;
    var v := Next(u, e, rate, maxKeys);
    if e.Vote? && e.id == id && e.outcome.Accepted? {
      PaidByOwnVote(Ideal(u, id, rate), e.outcome.spent, u.clock, e.now, v.clock, rate);
    } else if id in u.ideal {
      LevelGrowth(Ideal(u, id, rate), u.clock, v.clock, rate);
    } else {
      FullStaysFull(u.clock, v.clock, rate);
    }
  }

  lemma FullStaysFull(now: int, later: int, rate: int)
    requires rate > 0 && now <= later
    ensures Level(Bucket(BurstCap(rate), later), later, rate)
         <= Level(Bucket(BurstCap(rate), now), now, rate) + (later - now) * rate
  {
    assert (later - now) * rate >= 0;
  }

  lemma PaidByOwnVote(b: Bucket, spent: nat, before: int, now: int, after: int, rate: int)
    requires rate > 0 && b.updatedAt <= before <= now <= after
    ensures spent * WINDOW_MS + Level(Bucket(Level(b, now, rate) - spent * WINDOW_MS, now), after, rate)
         <= Level(b, before, rate) + (after - before) * rate
  {
    LevelGrowth(b, before, now, rate);
    LevelGrowth(Bucket(Level(b, now, rate) - spent * WINDOW_MS, now), now, after, rate);
    assert (after - before) * rate == (after - now) * rate + (now - before) * rate;
  }

  /** Over any stretch of a run, one installation is granted at most the ten-minute burst plus the rate times the
      elapsed time, whatever was evicted, rebuilt, rejected or restarted; and the map keeps its key cap. */
  lemma GrantsStayWithinBudget(w: World, events: seq<Event>, id: InstallationId, rate: int, maxKeys: nat)
    requires rate > 0 && Bounded(w, rate, maxKeys) && PossibleRun(w, events, rate, maxKeys)
    ensures var v := Run(w, events, rate, maxKeys);
            && AcceptedBy(events, id) * WINDOW_MS <= BurstCap(rate) + (v.clock - w.clock) * rate
            && |v.windows| <= maxKeys
  {
    SpendIsPaidFor(w, events, id, rate, maxKeys);
    var v := Run(w, events, rate, maxKeys);
    assert Dominated(v, id, rate);
    LevelGrowth(Bucket(Ideal(v, id, rate).units, Ideal(v, id, rate).updatedAt), Ideal(v, id, rate).updatedAt, v.clock, rate);
  }

  lemma StartIsBounded(now: int, rate: int, maxKeys: nat)
    requires rate > 0
    ensures Bounded(World(map[], map[], map[], now), rate, maxKeys)
  {
  }

  /** From an empty limiter and an empty ledger: at any time each installation holds at most the burst and the refill since. */
  lemma GrantsSinceTheStart(start: int, events: seq<Event>, id: InstallationId, rate: int, maxKeys: nat)
    requires rate > 0 && PossibleRun(World(map[], map[], map[], start), events, rate, maxKeys)
    ensures var v := Run(World(map[], map[], map[], start), events, rate, maxKeys);
            && AcceptedBy(events, id) * WINDOW_MS <= BurstCap(rate) + (v.clock - start) * rate
            && |v.windows| <= maxKeys
  {
    StartIsBounded(start, rate, maxKeys);
    GrantsStayWithinBudget(World(map[], map[], map[], start), events, id, rate, maxKeys);
  }
}
