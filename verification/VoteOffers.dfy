/** What the vote limiter owes an installation: how many sticks it offers in each case, and that waiting is never lost. */
module VoteOffers {
  import opened Common
  import opened Ledger
  import opened VoteBudget
  import opened VoteRateLimiter
  import opened Arithmetic

  function Elapsed(since: int, now: int): nat {
    if now >= since then now - since else 0
  }

  /** Does what was left, refilled for some milliseconds and cut off at ten minutes' worth, hold that many sticks? */
  predicate Holds(n: int, units: int, elapsed: nat, rate: int) {
    n <= 10 * rate && n * 60_000 <= units + elapsed * rate
  }

  /** The decision offers the whole sticks that are there, and lets pass exactly when there is one. */
  ghost predicate OffersAll(d: Decision, units: int, elapsed: nat, rate: int) {
    && d.available.Sticks? && Holds(d.available.sticks, units, elapsed, rate)
    && (forall n :: n > d.available.sticks ==> !Holds(n, units, elapsed, rate))
    && (d.allowed <==> d.available.sticks >= 1) && d.reason == (if d.allowed then None else Some(PerInstallation))
    && (d.allowed ==> d.retryAfterMs == 0)
  }

  lemma LevelHolds(b: Bucket, now: int, rate: int, n: int)
    requires rate > 0
    ensures n <= Level(b, now, rate) / WINDOW_MS <==> Holds(n, b.units, Elapsed(b.updatedAt, now), rate)
  {
    QuotientReaches(Level(b, now, rate), WINDOW_MS, n);
  }

  lemma PassesWithStick(d: Decision, units: int, elapsed: nat, rate: int)
    requires OffersAll(d, units, elapsed, rate)
    ensures d.available.Sticks? && (d.allowed <==> Holds(1, units, elapsed, rate)) && (d.allowed <==> d.available.sticks >= 1)
  {
  }

  // ----- room in the map -----

  /** The keys that were charged within the last minute. */
  function Busy(windows: Windows, now: int): set<InstallationId> {
    set id | id in windows && now - windows[id].updatedAt < 60_000
  }

  /** An unknown key finds room unless as many keys as the map may hold were charged within the last minute. */
  predicate HasRoom(windows: Windows, id: InstallationId, maxKeys: nat, now: int) {
    id in windows || |Busy(windows, now)| < maxKeys
  }

  /** Room is made by forgetting idle keys only, and only when an unknown key finds the map full. */
  lemma RoomExactly(windows: Windows, id: InstallationId, maxKeys: nat, now: int)
    ensures var admitted := Admitting(windows, id, maxKeys, now);
            && (id in admitted || |admitted| < maxKeys <==> HasRoom(windows, id, maxKeys, now))
            && (forall j :: j in admitted <==> j in windows && (j in Busy(windows, now) || id in windows || |windows| < maxKeys))
            && (forall j :: j in admitted ==> admitted[j] == windows[j])
  {
    assert Evicted(windows, now).Keys == Busy(windows, now);
    SubsetSize(Busy(windows, now), windows.Keys);
  }

  // ----- what is offered -----

  /** A look finds the map full exactly without room. With room a newcomer is offered one minute's rate, a forgotten key the
      refill since its last accepted vote, and a held one its rest and the refill since it was charged; the last two up to ten
      minutes' worth. */
  lemma OfferExactly(windows: Windows, id: InstallationId, now: int, last: Option<int>, rate: int, maxKeys: nat)
    requires rate > 0
    ensures var d := InspectDecision(Admitting(windows, id, maxKeys, now), id, now, last, rate, maxKeys);
            if !HasRoom(windows, id, maxKeys, now) then d == Decision(false, Some(ActiveKeyCapacity), 60_000, Sticks(0))
            else if id in windows then OffersAll(d, windows[id].units, Elapsed(windows[id].updatedAt, now), rate)
            else if last.Some? then OffersAll(d, 0, Elapsed(last.value, now), rate)
            else d == Decision(true, None, 0, Sticks(rate))
  {
    hide Admitting, HasRoom, Level, Holds;
    RoomExactly(windows, id, maxKeys, now);
    if id in windows {
      forall n ensures n <= Level(windows[id], now, rate) / WINDOW_MS <==> Holds(n, windows[id].units, Elapsed(windows[id].updatedAt, now), rate) {
        LevelHolds(windows[id], now, rate, n);
      }
    } else if last.Some? {
      forall n ensures n <= Level(Bucket(0, last.value), now, rate) / WINDOW_MS <==> Holds(n, 0, Elapsed(last.value, now), rate) {
        LevelHolds(Bucket(0, last.value), now, rate, n);
      }
    } else {
      assert (rate * WINDOW_MS) / WINDOW_MS == rate;
    }
  }

  /** Whoever is told to wait, and does, is let pass unless others have filled the map. */
  lemma WaitingHelps(windows: Windows, id: InstallationId, now: int, last: Option<int>, rate: int, maxKeys: nat)
    requires rate > 0 && HasRoom(windows, id, maxKeys, now)
    requires id in windows ==> windows[id].updatedAt <= now && windows[id].units >= 0
    requires id !in windows && last.Some? ==> last.value <= now
    ensures var admitted := Admitting(windows, id, maxKeys, now);
            var d := InspectDecision(admitted, id, now, last, rate, maxKeys);
            !d.allowed ==> d.retryAfterMs >= 1 && InspectDecision(admitted, id, now + d.retryAfterMs, last, rate, maxKeys).allowed
  {
    hide Admitting, HasRoom, RetryAfterMs;
    RoomExactly(windows, id, maxKeys, now);
    var admitted := Admitting(windows, id, maxKeys, now);
    var d := InspectDecision(admitted, id, now, last, rate, maxKeys);
    if !d.allowed {
      var b := if id in windows then windows[id] else if last.Some? then Bucket(0, last.value) else Bucket(rate * WINDOW_MS, now);
      EmptyWaits(b, now, rate);
    }
  }

  lemma EmptyWaits(b: Bucket, now: int, rate: int)
    requires rate > 0 && b.updatedAt <= now && b.units >= 0
    ensures Level(b, now, rate) >= 0
    ensures Level(b, now, rate) < WINDOW_MS ==>
              var wait := RetryAfterMs((Level(b, now, rate) / WINDOW_MS) * WINDOW_MS, 1, rate);
              wait >= 1 && Level(b, now + wait, rate) / WINDOW_MS >= 1
  {
    assert (now - b.updatedAt) * rate >= 0;
    if Level(b, now, rate) < WINDOW_MS {
      InspectRetryIsEnough(b, now, rate);
      QuotientReaches(Level(b, now + RetryAfterMs((Level(b, now, rate) / WINDOW_MS) * WINDOW_MS, 1, rate), rate), WINDOW_MS, 1);
      WaitIsPositive(rate);
    }
  }

  lemma WaitIsPositive(rate: int)
    requires rate > 0
    ensures RetryAfterMs(0, 1, rate) >= 1
  {
    QuotientReaches(WINDOW_MS + rate - 1, rate, 1);
  }

  // ----- what a charge takes -----

  /** On a map that made room, a charge succeeds exactly when a look would offer as much, and a look right after it offers exactly
      that much less. A refused one says what a look says, and costs nothing at any later time. No other bucket moves. */
  lemma ChargeExactly(windows: Windows, id: InstallationId, want: nat, now: int, last: Option<int>, rate: int, maxKeys: nat)
    requires rate > 0 && want >= 1 && (id in windows || |windows| < maxKeys)
    requires id in windows ==> windows[id].updatedAt <= now
    ensures var offer := InspectDecision(windows, id, now, last, rate, maxKeys);
            var d := ConsumeDecision(windows, id, want, now, last, rate, maxKeys);
            var after := Consumed(windows, id, want, now, last, rate, maxKeys);
            && offer.available.Sticks? && d.available.Sticks?
            && (d.allowed <==> want <= offer.available.sticks)
            && (d.allowed ==>
                  && d == Decision(true, None, 0, Sticks(offer.available.sticks - want))
                  && after.Keys == windows.Keys + {id}
                  && InspectDecision(after, id, now, last, rate, maxKeys).available == d.available)
            && (!d.allowed ==>
                  && d.reason == Some(PerInstallation) && d.available == offer.available && after.Keys == windows.Keys
                  && forall later :: later >= now ==>
                       InspectDecision(after, id, later, last, rate, maxKeys) == InspectDecision(windows, id, later, last, rate, maxKeys))
            && (forall j :: j in windows && j != id ==> j in after && after[j] == windows[j])
  {
    hide CurrentLevel, Consumed, InspectDecision;
    var units := CurrentLevel(windows, id, now, last, rate);
    QuotientReaches(units, WINDOW_MS, want);
    Looks(windows, id, now, last, rate, maxKeys);
    if units >= want * WINDOW_MS {
      PaidLevel(windows, id, want, now, last, rate, maxKeys);
      Looks(Consumed(windows, id, want, now, last, rate, maxKeys), id, now, last, rate, maxKeys);
      TakeWhole(units, want);
    } else {
      RefusedCostsNothing(windows, id, want, now, last, rate, maxKeys);
    }
  }

  lemma Looks(windows: Windows, id: InstallationId, now: int, last: Option<int>, rate: int, maxKeys: nat)
    requires rate > 0 && (id in windows || |windows| < maxKeys)
    ensures InspectDecision(windows, id, now, last, rate, maxKeys).available == Sticks(CurrentLevel(windows, id, now, last, rate) / WINDOW_MS)
  {
    hide CurrentLevel, RetryAfterMs;
  }

  lemma PaidLevel(windows: Windows, id: InstallationId, want: nat, now: int, last: Option<int>, rate: int, maxKeys: nat)
    requires rate > 0 && want >= 1 && (id in windows || |windows| < maxKeys)
    requires CurrentLevel(windows, id, now, last, rate) >= want * WINDOW_MS
    ensures var after := Consumed(windows, id, want, now, last, rate, maxKeys);
            && after.Keys == windows.Keys + {id} && (forall j :: j in windows && j != id ==> j in after && after[j] == windows[j])
            && CurrentLevel(after, id, now, last, rate) == CurrentLevel(windows, id, now, last, rate) - want * WINDOW_MS
  {
    hide Level, BurstCap;
    var units := CurrentLevel(windows, id, now, last, rate);
    CurrentIsCapped(windows, id, now, last, rate);
    FreshLevel(units - want * WINDOW_MS, now, rate);
    assert Consumed(windows, id, want, now, last, rate, maxKeys) == windows[id := Bucket(units - want * WINDOW_MS, now)];
  }

  lemma CurrentIsCapped(windows: Windows, id: InstallationId, now: int, last: Option<int>, rate: int)
    requires rate > 0
    ensures CurrentLevel(windows, id, now, last, rate) <= BurstCap(rate)
  {
  }

  lemma RefusedCostsNothing(windows: Windows, id: InstallationId, want: nat, now: int, last: Option<int>, rate: int, maxKeys: nat)
    requires rate > 0 && want >= 1 && (id in windows || |windows| < maxKeys) && (id in windows ==> windows[id].updatedAt <= now)
    requires CurrentLevel(windows, id, now, last, rate) < want * WINDOW_MS
    ensures var after := Consumed(windows, id, want, now, last, rate, maxKeys);
            && after.Keys == windows.Keys && (forall j :: j in windows && j != id ==> after[j] == windows[j])
            && forall later :: later >= now ==>
                 InspectDecision(after, id, later, last, rate, maxKeys) == InspectDecision(windows, id, later, last, rate, maxKeys)
  {
    hide Level, RetryAfterMs;
    if id in windows {
      forall later | later >= now ensures Level(Bucket(Level(windows[id], now, rate), now), later, rate) == Level(windows[id], later, rate) {
        Refold(windows[id], now, later, rate);
      }
    }
  }

  lemma TakeWhole(units: int, want: nat)
    ensures (units - want * WINDOW_MS) / WINDOW_MS == units / WINDOW_MS - want
  {
  }

  lemma FreshLevel(units: int, now: int, rate: int)
    requires units <= BurstCap(rate)
    ensures Level(Bucket(units, now), now, rate) == units
  {
  }

  /** A bucket brought up to date refills as it would have. */
  lemma Refold(b: Bucket, now: int, later: int, rate: int)
    requires rate > 0 && b.updatedAt <= now <= later
    ensures Level(Bucket(Level(b, now, rate), now), later, rate) == Level(b, later, rate)
  {
    assert (later - b.updatedAt) * rate == (later - now) * rate + (now - b.updatedAt) * rate;
    assert (later - now) * rate >= 0;
  }

  /** Less than one stick is granted without a charge, and answered with what a look at a stranger finds. */
  lemma FreeCharge(windows: Windows, id: InstallationId, now: int, last: Option<int>, rate: int, maxKeys: nat)
    requires rate > 0
    ensures Consumed(windows, id, 0, now, last, rate, maxKeys) == windows
    ensures ConsumeDecision(windows, id, 0, now, last, rate, maxKeys)
         == Decision(true, None, 0, InspectDecision(windows, id, now, None, rate, maxKeys).available)
  {
  }

  /** The wait a refused charge is told is the least after which it succeeds, for any amount the bucket can ever hold. */
  lemma RefusedWaitIsExact(windows: Windows, id: InstallationId, want: nat, now: int, last: Option<int>, rate: int, maxKeys: nat)
    requires rate > 0 && 1 <= want <= 10 * rate && (id in windows || |windows| < maxKeys)
    requires if id in windows then windows[id].updatedAt <= now && windows[id].units >= 0 else last.Some? && last.value <= now
    ensures var d := ConsumeDecision(windows, id, want, now, last, rate, maxKeys);
            !d.allowed ==>
              && d.retryAfterMs >= 1
              && ConsumeDecision(windows, id, want, now + d.retryAfterMs, last, rate, maxKeys).allowed
              && !ConsumeDecision(windows, id, want, now + d.retryAfterMs - 1, last, rate, maxKeys).allowed
  {
    hide Level, RetryAfterMs;
    var b := if id in windows then windows[id] else Bucket(0, last.value);
    EmptyWaits(b, now, rate);
    if Level(b, now, rate) < want * WINDOW_MS {
      assert want * WINDOW_MS <= BurstCap(rate);
      RetryAfterIsExact(b, now, want, rate);
    }
  }

  // ----- what is owed over a run -----

  /** When an installation was last charged: for an accepted vote when its receipt was stamped, for a refused one when it was asked. */
  function LastCharge(events: seq<Event>, id: InstallationId, since: int): int {
    if events == [] then since
    else
      var e := events[|events| - 1];
      if e.Vote? && e.id == id then (if e.outcome.Accepted? then e.outcome.createdAt else e.now)
      else LastCharge(events[..|events| - 1], id, since)
  }

  /** A held bucket holds at least the refill since the last charge, and a lost one was last voted with before it. */
  ghost predicate Owed(w: World, id: InstallationId, since: int, rate: int) {
    && since <= w.clock
    && (id in w.windows ==>
          && w.windows[id].units >= 0 && w.windows[id].updatedAt <= w.clock
          && Level(Bucket(0, since), w.clock, rate) <= Level(w.windows[id], w.clock, rate))
    && (id in w.lastVote ==> w.lastVote[id] <= since)
  }

  lemma StaysOwed(w: World, v: World, id: InstallationId, since: int, rate: int)
    requires rate > 0 && Owed(w, id, since, rate) && v.clock >= w.clock
    requires id in v.windows ==> id in w.windows && v.windows[id] == w.windows[id]
    requires id in v.lastVote ==> id in w.lastVote && v.lastVote[id] == w.lastVote[id]
    ensures Owed(v, id, since, rate)
  {
    if id in v.windows {
      LevelKeepsOrder(Bucket(0, since), w.windows[id], w.clock, v.clock, rate);
    }
  }

  lemma ChargedIsOwed(w: World, e: Event, rate: int, maxKeys: nat)
    requires rate > 0 && Possible(w, e, rate, maxKeys) && e.Vote? && (e.id in w.lastVote ==> w.lastVote[e.id] <= w.clock)
    ensures Owed(Next(w, e, rate, maxKeys), e.id, if e.outcome.Accepted? then e.outcome.createdAt else e.now, rate)
  {
    hide Next, Admitting, CurrentLevel;
    var v := Next(w, e, rate, maxKeys);
    VoteCharges(w, e, rate, maxKeys);
    assert (v.clock - v.windows[e.id].updatedAt) * rate >= 0;
  }

  lemma StepOwes(w: World, e: Event, id: InstallationId, since: int, rate: int, maxKeys: nat)
    requires rate > 0 && Possible(w, e, rate, maxKeys) && Owed(w, id, since, rate)
    ensures Owed(Next(w, e, rate, maxKeys), id, LastCharge([e], id, since), rate)
  {
    hide Next, Owed, Admitting, CurrentLevel;
    assert [e][..0] == [];
    if e.Vote? && e.id == id {
      OwedVotes(w, id, since, rate);
      ChargedIsOwed(w, e, rate, maxKeys);
    } else {
      OthersStay(w, e, id, rate, maxKeys);
      StaysOwed(w, Next(w, e, rate, maxKeys), id, since, rate);
    }
  }

  lemma OwedVotes(w: World, id: InstallationId, since: int, rate: int)
    requires Owed(w, id, since, rate)
    ensures id in w.lastVote ==> w.lastVote[id] <= w.clock
  {
  }

  lemma OthersStay(w: World, e: Event, id: InstallationId, rate: int, maxKeys: nat)
    requires rate > 0 && Possible(w, e, rate, maxKeys) && !(e.Vote? && e.id == id)
    ensures var v := Next(w, e, rate, maxKeys);
            && v.clock >= w.clock
            && (id in v.windows ==> id in w.windows && v.windows[id] == w.windows[id])
            && (id in v.lastVote ==> id in w.lastVote && v.lastVote[id] == w.lastVote[id])
  {
    hide Evicted, CurrentLevel, InspectDecision;
    RoomExactly(w.windows, if e.Restart? then id else e.id, maxKeys, e.now);
    if e.Vote? {
      VoteCharges(w, e, rate, maxKeys);
    }
  }

  lemma {:induction false} RunOwes(w: World, events: seq<Event>, id: InstallationId, since: int, rate: int, maxKeys: nat)
    requires rate > 0 && PossibleRun(w, events, rate, maxKeys) && Owed(w, id, since, rate)
    ensures Owed(Run(w, events, rate, maxKeys), id, LastCharge(events, id, since), rate)
    decreases |events|
  {
    hide Owed, Next, Possible;
    if events != [] {
      var front, e := events[..|events| - 1], events[|events| - 1];
      RunOwes(w, front, id, since, rate, maxKeys);
      StepOwes(Run(w, front, rate, maxKeys), e, id, LastCharge(front, id, since), rate, maxKeys);
      assert [e][..0] == [];
    }
  }

  /** At any moment of any run, whatever was evicted, rebuilt or restarted: with room, whoever is held in the map or ever had a
      vote accepted is offered at least the refill since the last charge, up to ten minutes' worth; anybody else exactly one
      minute's rate. */
  lemma NeverShort(w: World, events: seq<Event>, id: InstallationId, since: int, now: int, rate: int, maxKeys: nat, n: int)
    requires rate > 0 && PossibleRun(w, events, rate, maxKeys) && Owed(w, id, since, rate)
    requires now >= Run(w, events, rate, maxKeys).clock && HasRoom(Run(w, events, rate, maxKeys).windows, id, maxKeys, now)
    ensures var v := Run(w, events, rate, maxKeys);
            var offer := Offer(v, id, now, rate, maxKeys);
            && offer.available.Sticks?
            && (id in v.windows || id in v.lastVote ==>
                  n <= 10 * rate && n * 60_000 <= (now - LastCharge(events, id, since)) * rate ==> n <= offer.available.sticks)
            && (id !in v.windows && id !in v.lastVote ==> offer == Decision(true, None, 0, Sticks(rate)))
  {
    hide Run, PossibleRun, LastCharge, Admitting, HasRoom, Level, InspectDecision;
    RunOwes(w, events, id, since, rate, maxKeys);
    var v, at := Run(w, events, rate, maxKeys), LastCharge(events, id, since);
    OfferExactly(v.windows, id, now, LastVote(v, id), rate, maxKeys);
    if id in v.windows {
      LevelKeepsOrder(Bucket(0, at), v.windows[id], v.clock, now, rate);
      LevelHolds(Bucket(0, at), now, rate, n);
      LevelHolds(v.windows[id], now, rate, n);
      QuotientsKeepOrder(Level(Bucket(0, at), now, rate), Level(v.windows[id], now, rate));
    } else if id in v.lastVote {
      MoreTimeHolds(now - at, Elapsed(v.lastVote[id], now), rate, n);
    }
  }

  lemma MoreTimeHolds(less: int, more: nat, rate: int, n: int)
    requires rate > 0 && less <= more
    ensures n <= 10 * rate && n * 60_000 <= less * rate ==> Holds(n, 0, more, rate)
  {
    assert (more - less) * rate >= 0;
  }

  lemma QuotientsKeepOrder(a: int, b: int)
    requires a <= b
    ensures a / WINDOW_MS <= b / WINDOW_MS
  {
  }

  /** A bucket that nobody charged or evicted in between is offered in full: its rest, and the refill since it was charged. */
  lemma {:induction false} HeldIsKept(w: World, events: seq<Event>, id: InstallationId, rate: int, maxKeys: nat)
    requires rate > 0 && PossibleRun(w, events, rate, maxKeys) && id in Run(w, events, rate, maxKeys).windows
    requires forall e :: e in events ==> !(e.Vote? && e.id == id)
    ensures id in w.windows && Run(w, events, rate, maxKeys).windows[id] == w.windows[id]
    decreases |events|
  {
    hide Next, Possible;
    if events != [] {
      var front, e := events[..|events| - 1], events[|events| - 1];
      OthersStay(Run(w, front, rate, maxKeys), e, id, rate, maxKeys);
      HeldIsKept(w, front, id, rate, maxKeys);
    }
  }

  lemma HeldIsOffered(w: World, events: seq<Event>, id: InstallationId, now: int, rate: int, maxKeys: nat)
    requires rate > 0 && PossibleRun(w, events, rate, maxKeys) && id in Run(w, events, rate, maxKeys).windows
    requires forall e :: e in events ==> !(e.Vote? && e.id == id)
    ensures id in w.windows
    ensures OffersAll(Offer(Run(w, events, rate, maxKeys), id, now, rate, maxKeys), w.windows[id].units, Elapsed(w.windows[id].updatedAt, now), rate)
  {
    hide Run, PossibleRun, Admitting, InspectDecision, OffersAll;
    HeldIsKept(w, events, id, rate, maxKeys);
    var v := Run(w, events, rate, maxKeys);
    OfferExactly(v.windows, id, now, LastVote(v, id), rate, maxKeys);
  }
}
