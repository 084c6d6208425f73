/** How close two daytime intents of a mode can be created: exactly when another can come within the period, and never
    within five seconds. */
module TimedDumpSpacing {
  import opened Common
  import opened Ledger
  import opened VoteBudget
  import opened TimedDump
  import opened TimedDumpSafety

  /** A daytime intent of the mode, adopted or not. */
  predicate Daytime(w: World, id: RequestId, m: Mode) {
    id in w.prepared && w.prepared[id].mode == m && w.prepared[id].job.kind == Periodic
  }

  /** Some run from here creates a daytime intent of the mode before a time. */
  ghost predicate CanCreateBefore(w: World, m: Mode, until: int) {
    exists steps, id :: PossibleRun(w, steps) && CreatedBefore(w, Run(w, steps), id, m, until)
  }

  predicate CreatedBefore(w: World, after: World, id: RequestId, m: Mode, until: int) {
    id !in w.prepared && Daytime(after, id, m) && after.prepared[id].at < until
  }

  /** What can be read off the service: it waits for nothing, the scheduler has looked at today's case of the mode, today's job
      allows a new one, and clock, period and retry delay all end before the time. */
  predicate Ready(w: World, m: Mode, until: int) {
    && w.awaiting.None? && MayPrepare(w, m)
    && w.key.Some? && w.key.value.mode == m && w.key.value.day == w.today && w.key.value.caseId != ""
    && w.readyAt != 0 && w.clock < until && w.readyAt < until && w.retryAt < until
  }

  // ----- what every reachable state keeps -----

  /** While an answer is awaited, the job it belongs to is unfinished or its key has been left. */
  predicate AwaitOk(w: World) {
    w.awaiting.Some? && w.key.Some? && w.key.value.day == w.today ==>
      var m := w.key.value.mode;
      m in w.memory.state.jobs && w.memory.state.jobs[m].day == w.today && !w.memory.state.jobs[m].done
  }

  predicate DelayOk(w: World) {
    (w.key.Some? ==> w.key.value.day <= w.today) && w.retryAt <= w.clock + RETRY_MS && w.clock >= 0
  }

  predicate Delayed(w: World, id: RequestId)
    requires id in w.prepared
  {
    id in w.adopted || w.readyAt >= w.prepared[id].at + AUTO_DUMP_PERIOD_MS || w.retryAt >= w.prepared[id].at + RETRY_MS
  }

  /** While the wait is on, what was created and not adopted holds the next run off. */
  predicate RetryOk(w: World) {
    w.readyAt != 0 ==> forall id :: id in w.prepared && w.prepared[id].job.kind == Periodic ==> Delayed(w, id)
  }

  predicate Apart(p: Prepared, q: Prepared) {
    p.at >= q.at + RETRY_MS || q.at >= p.at + RETRY_MS
  }

  predicate AllApart(prepared: Intents) {
    forall a, b :: a in prepared && b in prepared && a != b && prepared[a].job.kind == Periodic && prepared[b].job.kind == Periodic ==>
      Apart(prepared[a], prepared[b])
  }

  ghost predicate Spaced(w: World) {
    Invariant(w) && AwaitOk(w) && DelayOk(w) && RetryOk(w) && AllApart(w.prepared)
  }

  lemma StartIsSpaced(today: Day, clock: int)
    requires clock >= 0
    ensures Spaced(Start(today, clock))
  {
    StartHolds(today, clock);
  }

  lemma CreatedByClock(w: World)
    requires Invariant(w)
    ensures forall id :: id in w.prepared ==> w.prepared[id].at <= w.clock
  {
    hide Fit, OnDisk, WaitOk, AnswersOk, SpacingOk, OneClosing;
    assert EnvOk(EnvOf(w));
  }

  // ----- creations -----

  /** A step creates a daytime intent only as a prepare of its mode that is allowed, affordable and past the wait. */
  lemma OnlyPrepares(w: World, step: Step, id: RequestId)
    requires Possible(w, step) && id !in w.prepared && id in Next(w, step).prepared
    ensures step.Prepare? && step.requestId == id && MayPrepare(w, step.mode)
    ensures var p := Next(w, step).prepared[id]; p.mode == step.mode && p.at == step.now && (p.job.kind == Periodic <==> !step.closing)
    ensures !step.closing ==> PeriodicReady(w, step.remaining, step.now)
  {
    hide Completed;
  }

  /** Nothing is unfinished when an intent is made, so it comes a period after everything its mode adopted. */
  lemma CreatedAfterAdopted(w: World, step: Step, id: RequestId, a: RequestId, m: Mode)
    requires Invariant(w) && Possible(w, step) && id !in w.prepared && Daytime(Next(w, step), id, m)
    requires a in w.adopted && Daytime(w, a, m)
    ensures step.Prepare? && step.now >= w.prepared[a].at + AUTO_DUMP_PERIOD_MS
  {
    hide EnvOk, Fit, OnDisk;
    OnlyPrepares(w, step, id);
    assert AdoptedPeriodic(EnvOf(w), a, m);
    assert !Pending(w.memory.state, w.key, a);
  }

  /** A daytime intent is created only when one was ready before any later time. */
  lemma CreatedWhenReady(w: World, step: Step, id: RequestId, m: Mode, until: int)
    requires Possible(w, step) && id !in w.prepared && Daytime(Next(w, step), id, m) && Next(w, step).prepared[id].at < until
    ensures Ready(w, m, until)
  {
    hide MayPrepare, Next;
    OnlyPrepares(w, step, id);
  }

  // ----- what is not ready does not become ready in time -----

  /** Time has run out, or the wait has not begun or ends too late: neither is undone by any step. */
  predicate Late(w: World, until: int) {
    w.readyAt == 0 || w.readyAt >= until || w.clock >= until || w.retryAt >= until
  }

  /** The key is of another mode or date, or the job of its date is not over. */
  predicate Blocked(w: World, m: Mode) {
    || w.key.None? || w.key.value.mode != m || w.key.value.day != w.today || w.key.value.caseId == ""
    || !MayPrepare(w, m)
  }

  lemma StaysLate(w: World, step: Step, until: int)
    requires Possible(w, step) && Late(w, until) && until <= w.clock + AUTO_DUMP_PERIOD_MS && DelayOk(w)
    ensures Late(Next(w, step), until) && Next(w, step).clock >= w.clock
  {
    hide Completed, NewJob, MayPrepare, PeriodicReady, TodaysJob;
  }

  /** A closing job that is completed keeps its date and kind. */
  lemma CompleteStaysBlocked(w: World, now: int, save: SaveOutcome, m: Mode, until: int)
    requires Invariant(w) && Possible(w, Complete(now, save)) && Blocked(w, m) && until <= w.clock + AUTO_DUMP_PERIOD_MS
    ensures Blocked(Next(w, Complete(now, save)), m) || Late(Next(w, Complete(now, save)), until)
  {
    hide EnvOk, Fit, OnDisk, WaitOk, RecordVote, LedgerFor;
    var e := EnvOf(w);
    AnsweredIsPrepared(e, w.awaiting.value);
    FitKnown(e, w.memory);
    if m in w.memory.state.jobs {
      assert IsPrepared(e, m, w.memory.state.jobs[m]);
    }
  }

  lemma PrepareStaysBlocked(w: World, step: Step, m: Mode)
    requires Possible(w, step) && step.Prepare? && Blocked(w, m)
    ensures Blocked(Next(w, step), m)
  {
    hide NewJob, PeriodicReady, Save;
    PersistHolds(w, step.mode, step.requestId, NewJob(w, step.caseId, step.requestId, step.closing, step.remaining), step.now, step.save);
  }

  lemma PersistHolds(w: World, m: Mode, id: RequestId, job: Job, now: int, save: SaveOutcome)
    ensures var after := Persist(w, m, id, job, now, save);
            && after.key == w.key && after.today == w.today && after.memory.state.enabled == w.memory.state.enabled
            && (forall n :: n != m ==> (n in after.memory.state.jobs <==> n in w.memory.state.jobs))
            && (forall n :: n != m && n in w.memory.state.jobs ==> after.memory.state.jobs[n] == w.memory.state.jobs[n])
  {
  }

  lemma OtherStaysBlocked(w: World, step: Step, m: Mode, until: int)
    requires Possible(w, step) && !step.Complete? && !step.Prepare? && Blocked(w, m)
    requires until <= w.clock + AUTO_DUMP_PERIOD_MS && DelayOk(w)
    ensures Blocked(Next(w, step), m) || Late(Next(w, step), until)
  {
    hide CompleteJob, PrepareJob, WellFormedId, Amount, Ids;
  }

  lemma StaysBlocked(w: World, step: Step, m: Mode, until: int)
    requires Invariant(w) && Possible(w, step) && Blocked(w, m) && until <= w.clock + AUTO_DUMP_PERIOD_MS && DelayOk(w)
    ensures Blocked(Next(w, step), m) || Late(Next(w, step), until)
  {
    hide Invariant, Next, Possible, Blocked, Late, DelayOk;
    match step {
      case Complete(now, save) => CompleteStaysBlocked(w, now, save, m, until);
      case Prepare(_, _, _, _, _, _, _) => PrepareStaysBlocked(w, step, m);
      case _ => OtherStaysBlocked(w, step, m, until);
    }
  }

  lemma NotReady(w: World, m: Mode, until: int)
    requires AwaitOk(w)
    ensures Ready(w, m, until) <==> !Late(w, until) && !Blocked(w, m)
  {
  }

  lemma StaysUnready(w: World, step: Step, m: Mode, until: int)
    requires Spaced(w) && Possible(w, step) && !Ready(w, m, until) && until <= w.clock + AUTO_DUMP_PERIOD_MS
    requires AwaitOk(Next(w, step))
    ensures !Ready(Next(w, step), m, until) && until <= Next(w, step).clock + AUTO_DUMP_PERIOD_MS
  {
    hide Invariant, Next, Blocked, Late, Possible, Ready;
    NotReady(w, m, until);
    NotReady(Next(w, step), m, until);
    if Late(w, until) {
      StaysLate(w, step, until);
    } else {
      StaysBlocked(w, step, m, until);
    }
    ClockAdvances(w, step);
  }

  lemma ClockAdvances(w: World, step: Step)
    requires Possible(w, step)
    ensures Next(w, step).clock >= w.clock
  {
    hide Completed, NewJob, MayPrepare, PeriodicReady;
  }

  // ----- every step keeps the distances -----

  lemma AwaitKept(w: World, step: Step)
    requires AwaitOk(w) && DelayOk(w) && Possible(w, step)
    ensures AwaitOk(Next(w, step))
  {
    hide Completed, NewJob, PeriodicReady;
  }

  lemma DelayKept(w: World, step: Step)
    requires DelayOk(w) && Possible(w, step)
    ensures DelayOk(Next(w, step))
  {
    hide Completed, NewJob, MayPrepare, PeriodicReady;
  }

  lemma RetryKept(w: World, step: Step)
    requires Invariant(w) && DelayOk(w) && RetryOk(w) && Possible(w, step)
    ensures RetryOk(Next(w, step))
  {
    hide Invariant, Completed, MayPrepare, PeriodicReady, Delayed;
    CreatedByClock(w);
    var after := Next(w, step);
    if after.readyAt != 0 {
      forall id | id in after.prepared && after.prepared[id].job.kind == Periodic ensures Delayed(after, id) {
        if id in w.prepared {
          KeptDelayed(w, step, id);
        } else {
          NewDelayed(w, step, id);
        }
      }
    }
  }

  lemma KeptDelayed(w: World, step: Step, id: RequestId)
    requires Possible(w, step) && DelayOk(w) && id in w.prepared && w.prepared[id].at <= w.clock && Next(w, step).readyAt != 0
    requires w.readyAt != 0 && w.prepared[id].job.kind == Periodic ==> Delayed(w, id)
    requires w.prepared[id].job.kind == Periodic
    ensures id in Next(w, step).prepared && Delayed(Next(w, step), id)
  {
    hide Completed, NewJob, MayPrepare, PeriodicReady;
  }

  lemma NewDelayed(w: World, step: Step, id: RequestId)
    requires Possible(w, step) && id !in w.prepared && id in Next(w, step).prepared
    ensures Delayed(Next(w, step), id)
  {
    hide Completed, NewJob, MayPrepare, PeriodicReady;
  }

  lemma ApartKept(w: World, step: Step)
    requires Spaced(w) && Possible(w, step)
    ensures AllApart(Next(w, step).prepared)
  {
    hide Invariant, Next, Possible;
    StepRemembers(w, step);
    var after := Next(w, step);
    forall a, b | a in after.prepared && b in after.prepared && a != b
                  && after.prepared[a].job.kind == Periodic && after.prepared[b].job.kind == Periodic
      ensures Apart(after.prepared[a], after.prepared[b])
    {
      if a in w.prepared && b !in w.prepared {
        NewIsApart(w, step, b, a);
      } else if b in w.prepared && a !in w.prepared {
        NewIsApart(w, step, a, b);
      } else if a !in w.prepared {
        OnlyPrepares(w, step, a);
        OnlyPrepares(w, step, b);
      }
    }
  }

  /** A new daytime intent comes at least the retry delay after every other. */
  lemma NewIsApart(w: World, step: Step, id: RequestId, a: RequestId)
    requires Spaced(w) && Possible(w, step) && id !in w.prepared && id in Next(w, step).prepared && a in w.prepared
    requires Next(w, step).prepared[id].job.kind == Periodic && w.prepared[a].job.kind == Periodic
    ensures Next(w, step).prepared[id].at >= w.prepared[a].at + RETRY_MS
  {
    hide EnvOk, Fit, OnDisk, Next, AllApart;
    OnlyPrepares(w, step, id);
    assert Delayed(w, a);
    if a in w.adopted {
      assert AdoptedPeriodic(EnvOf(w), a, w.prepared[a].mode);
      assert !Pending(w.memory.state, w.key, a);
    }
  }

  /** Every step keeps the distances. */
  lemma StepKeepsSpaced(w: World, step: Step)
    requires Spaced(w) && Possible(w, step)
    ensures Spaced(Next(w, step))
  {
    hide Invariant, AwaitOk, DelayOk, RetryOk, AllApart, Next, Possible;
    StepKeepsInvariant(w, step);
    AwaitKept(w, step);
    DelayKept(w, step);
    RetryKept(w, step);
    ApartKept(w, step);
  }

  lemma {:induction false} RunKeepsSpaced(w: World, steps: seq<Step>)
    requires Spaced(w) && PossibleRun(w, steps)
    ensures Spaced(Run(w, steps))
    decreases |steps|
  {
    hide Spaced, Next, Possible;
    if steps != [] {
      StepKeepsSpaced(w, steps[0]);
      RunKeepsSpaced(Next(w, steps[0]), steps[1..]);
    }
  }

  // ----- when the next one can come -----

  /** What is not ready creates nothing of the mode in time, in any run. */
  lemma {:induction false} UnreadyCreatesNothing(w: World, steps: seq<Step>, id: RequestId, m: Mode, until: int)
    requires Spaced(w) && !Ready(w, m, until) && until <= w.clock + AUTO_DUMP_PERIOD_MS && PossibleRun(w, steps)
    ensures !CreatedBefore(w, Run(w, steps), id, m, until)
    decreases |steps|
  {
    hide Spaced, Ready, Next, Possible;
    if steps != [] {
      var next := Next(w, steps[0]);
      StepKeepsSpaced(w, steps[0]);
      SpacedAwaits(next);
      StaysUnready(w, steps[0], m, until);
      UnreadyCreatesNothing(next, steps[1..], id, m, until);
      RunRemembers(next, steps[1..]);
      if id !in w.prepared && id in next.prepared && CreatedBefore(w, Run(w, steps), id, m, until) {
        CreatedWhenReady(w, steps[0], id, m, until);
      }
    }
  }

  lemma SpacedAwaits(w: World)
    requires Spaced(w)
    ensures AwaitOk(w)
  {
  }

  /** When it is ready, preparing as soon as clock, period and retry delay allow creates one in time. */
  lemma ReadyCreates(w: World, m: Mode, until: int, unused: RequestId)
    requires Ready(w, m, until) && WellFormedId(unused) && unused !in w.prepared
    ensures CanCreateBefore(w, m, until)
  {
    hide WellFormedId;
    var now := Max(w.clock, Max(w.readyAt, w.retryAt));
    var step := Prepare(m, w.key.value.caseId, unused, false, VOTE_COUNT_MAX, now, Saved);
    assert PossibleRun(w, [step]) by {
      assert PossibleRun(Next(w, step), []);
    }
    assert Run(w, [step]) == Run(Next(w, step), []);
    assert CreatedBefore(w, Run(w, [step]), unused, m, until);
  }

  /** In every reachable state, as long as an unused id is left: another daytime intent of a mode can be created before a time
      no more than a period away exactly when the service is ready for it. */
  lemma NextIntentExactly(w: World, m: Mode, until: int, unused: RequestId)
    requires Spaced(w) && until <= w.clock + AUTO_DUMP_PERIOD_MS && WellFormedId(unused) && unused !in w.prepared
    ensures CanCreateBefore(w, m, until) <==> Ready(w, m, until)
  {
    hide Spaced, Ready, PossibleRun, Run, CreatedBefore, WellFormedId;
    if Ready(w, m, until) {
      ReadyCreates(w, m, until, unused);
    } else {
      forall steps, id | PossibleRun(w, steps) ensures !CreatedBefore(w, Run(w, steps), id, m, until) {
        UnreadyCreatesNothing(w, steps, id, m, until);
      }
    }
  }

  /** An adopted intent, whether its save succeeded or a restart found it, has the whole period to itself for ever. */
  lemma AdoptedIsAlone(w: World, a: RequestId, m: Mode)
    requires Spaced(w) && a in w.adopted && Daytime(w, a, m)
    ensures !Ready(w, m, w.prepared[a].at + AUTO_DUMP_PERIOD_MS)
  {
    hide EnvOk, Fit, OnDisk;
    assert AdoptedPeriodic(EnvOf(w), a, m);
    if MayPrepare(w, m) && w.key.Some? && w.key.value.mode == m && w.key.value.day == w.today {
      assert !Pending(w.memory.state, w.key, a);
    }
  }

  /** Right after a daytime intent was created: another one of its mode can follow within the period exactly when its save did
      not succeed, whether or not the write landed. */
  lemma FollowedExactly(w: World, step: Step, unused: RequestId)
    requires Spaced(w) && Possible(w, step) && step.Prepare? && step.requestId in Next(w, step).prepared && !step.closing
    requires WellFormedId(unused) && unused !in Next(w, step).prepared
    ensures CanCreateBefore(Next(w, step), step.mode, step.now + AUTO_DUMP_PERIOD_MS) <==> !step.save.Saved?
  {
    hide Invariant, AwaitOk, RetryOk, AllApart, WellFormedId, CanCreateBefore;
    var after := Next(w, step);
    StepKeepsSpaced(w, step);
    OnlyPrepares(w, step, step.requestId);
    NextIntentExactly(after, step.mode, step.now + AUTO_DUMP_PERIOD_MS, unused);
    if step.save.Saved? {
      AdoptedIsAlone(after, step.requestId, step.mode);
    }
  }

  /** Once a restart has found an intent on disk, nothing of its mode follows it within the period. */
  lemma NotAfterAdoption(w: World, a: RequestId, m: Mode, steps: seq<Step>, more: seq<Step>, id: RequestId)
    requires Spaced(w) && Daytime(w, a, m) && PossibleRun(w, steps) && a in Run(w, steps).adopted
    requires PossibleRun(Run(w, steps), more)
    ensures !CreatedBefore(Run(w, steps), Run(Run(w, steps), more), id, m, w.prepared[a].at + AUTO_DUMP_PERIOD_MS)
  {
    hide Spaced, Ready, Next, Possible, CreatedBefore, Invariant;
    RunKeepsSpaced(w, steps);
    RunRemembers(w, steps);
    var reached := Run(w, steps);
    AdoptedIsAlone(reached, a, m);
    SpacedByClock(reached);
    UnreadyCreatesNothing(reached, more, id, m, w.prepared[a].at + AUTO_DUMP_PERIOD_MS);
  }

  lemma SpacedByClock(w: World)
    requires Spaced(w)
    ensures forall id :: id in w.prepared ==> w.prepared[id].at <= w.clock
  {
    hide Invariant;
    CreatedByClock(w);
  }

  /** Over any run, any two daytime intents, of whatever modes and whatever became of their saves, are created at least five
      seconds apart. */
  lemma FiveSecondsApart(w: World, steps: seq<Step>, a: RequestId, b: RequestId)
    requires Spaced(w) && PossibleRun(w, steps) && a != b
    requires var prepared := Run(w, steps).prepared;
             a in prepared && b in prepared && prepared[a].job.kind == Periodic && prepared[b].job.kind == Periodic
    ensures var prepared := Run(w, steps).prepared; Apart(prepared[a], prepared[b])
  {
    hide Run, PossibleRun, Invariant, AwaitOk, RetryOk, DelayOk;
    RunKeepsSpaced(w, steps);
  }

  /** The bound is met: a save fails, and the next intent is created five seconds later. The first is never adopted. */
  lemma FailedSaveMakesAnother(caseId: CaseId, first: RequestId, second: RequestId)
    requires caseId != "" && first != second && WellFormedId(first) && WellFormedId(second)
    ensures var enables, schedule := SetPreferences(true, Up, Saved), Schedule(Online, caseId, false, true, 0);
            var fails := Prepare(Online, caseId, first, false, VOTE_COUNT_MAX, AUTO_DUMP_PERIOD_MS, Failed);
            var again := Schedule(Online, caseId, false, true, AUTO_DUMP_PERIOD_MS);
            var lands := Prepare(Online, caseId, second, false, VOTE_COUNT_MAX, AUTO_DUMP_PERIOD_MS + RETRY_MS, Saved);
            var w := Run(Start(0, 0), [enables, schedule, fails, again, lands]);
            && PossibleRun(Start(0, 0), [enables, schedule, fails, again, lands])
            && first in w.prepared && second in w.prepared && w.prepared[second].at == w.prepared[first].at + RETRY_MS
            && w.adopted == {second}
  {
    hide WellFormedId;
    var enables, schedule := SetPreferences(true, Up, Saved), Schedule(Online, caseId, false, true, 0);
    var fails := Prepare(Online, caseId, first, false, VOTE_COUNT_MAX, AUTO_DUMP_PERIOD_MS, Failed);
    var again := Schedule(Online, caseId, false, true, AUTO_DUMP_PERIOD_MS);
    var lands := Prepare(Online, caseId, second, false, VOTE_COUNT_MAX, AUTO_DUMP_PERIOD_MS + RETRY_MS, Saved);
    var w1 := Next(Start(0, 0), enables);
    var w2 := Next(w1, schedule);
    assert w2.readyAt == AUTO_DUMP_PERIOD_MS && w2.key == Some(Key(Online, 0, caseId)) && w2.memory.state == DEFAULT_DAY_END.(enabled := true);
    var w3 := Next(w2, fails);
    assert w3.memory == w2.memory && w3.readyAt == w2.readyAt && w3.retryAt == AUTO_DUMP_PERIOD_MS + RETRY_MS && w3.key == w2.key;
    var w4 := Next(w3, again);
    assert w4 == w3;
    FiveSteps(Start(0, 0), enables, schedule, fails, again, lands);
  }

  lemma FiveSteps(w: World, a: Step, b: Step, c: Step, d: Step, e: Step)
    ensures Run(w, [a, b, c, d, e]) == Next(Next(Next(Next(Next(w, a), b), c), d), e)
    ensures PossibleRun(w, [a, b, c, d, e]) <==>
              && Possible(w, a) && Possible(Next(w, a), b) && Possible(Next(Next(w, a), b), c)
              && Possible(Next(Next(Next(w, a), b), c), d) && Possible(Next(Next(Next(Next(w, a), b), c), d), e)
  {
    hide *;
    var w1 := Next(w, a);
    var w2 := Next(w1, b);
    var w3 := Next(w2, c);
    var w4 := Next(w3, d);
    FirstStep(w, a, [b, c, d, e]);
    FirstStep(w1, b, [c, d, e]);
    FirstStep(w2, c, [d, e]);
    FirstStep(w3, d, [e]);
    FirstStep(w4, e, []);
    NoSteps(Next(w4, e));
    assert [a] + [b, c, d, e] == [a, b, c, d, e] && [b] + [c, d, e] == [b, c, d, e];
    assert [c] + [d, e] == [c, d, e] && [d] + [e] == [d, e] && [e] + [] == [e];
  }

  lemma FirstStep(w: World, step: Step, rest: seq<Step>)
    ensures Run(w, [step] + rest) == Run(Next(w, step), rest)
    ensures PossibleRun(w, [step] + rest) <==> Possible(w, step) && PossibleRun(Next(w, step), rest)
  {
    hide Next, Possible;
    var steps := [step] + rest;
    assert steps[1..] == rest && steps[0] == step;
  }

  lemma NoSteps(w: World)
    ensures Run(w, []) == w && PossibleRun(w, [])
  {
    hide Next, Possible;
  }
}
