/** Which dump a run of the service prepares, what its settings and waits become, and what that says of everything delivered. */
module TimedDumpIntents {
  import opened Common
  import opened Ledger
  import opened VoteBudget
  import opened TimedDump
  import opened TimedDumpSafety
  import opened TimedDumpSpacing

  // ----- the intent -----

  /** Dumps are on, and today's slot is empty or holds a daytime job that is over. */
  predicate SlotFree(w: World, m: Mode) {
    && w.memory.state.enabled
    && (m in w.memory.state.jobs && w.memory.state.jobs[m].day == w.today ==>
          w.memory.state.jobs[m].done && w.memory.state.jobs[m].kind == Periodic)
  }

  predicate Affords(n: int, remaining: nat) { n <= 500 && n <= remaining }

  /** The intent states the preferences, the date and the case of its moment, and asks for as much as 500 and the balance allow. */
  ghost predicate AsPreferred(w: World, step: Step, p: Prepared)
    requires step.Prepare?
  {
    && p.mode == step.mode && p.at == step.now
    && p.job.direction == w.memory.state.direction && p.job.day == w.today
    && w.key == Some(Key(step.mode, p.job.day, p.job.caseId)) && p.job.requestId == step.requestId && !p.job.done
    && p.job.kind == (if step.closing then Closing else Periodic)
    && Affords(p.job.count, step.remaining) && forall n :: n > p.job.count ==> !Affords(n, step.remaining)
  }

  /** When a run makes an intent at all: into a free slot, in the closing window with a stick left, or by day when the wait is over
      and a full dump is affordable. */
  predicate MakesIntent(w: World, step: Step)
    requires step.Prepare?
  {
    && SlotFree(w, step.mode) && step.remaining >= 1
    && (step.closing || (w.readyAt != 0 && step.now >= w.readyAt && step.remaining >= 500))
  }

  /** A prepare makes an intent exactly then, as preferred. Saved, it stands in its slot in memory and on disk and is adopted; failed,
      memory stays, and the disk may hold it. A prepare that makes none ends the wait, or holds the next run off, or does nothing. */
  lemma IntentExactly(w: World, step: Step)
    requires Possible(w, step) && step.Prepare?
    ensures var after := Next(w, step);
            && (step.requestId in after.prepared <==> MakesIntent(w, step))
            && if MakesIntent(w, step) then
                 var p := after.prepared[step.requestId];
                 && AsPreferred(w, step, p)
                 && after.prepared == w.prepared[step.requestId := p]
                 && var next := Durable(w.memory.state.(jobs := w.memory.state.jobs[step.mode := p.job]), w.memory.counted);
                 after == w.(prepared := after.prepared, clock := step.now,
                             memory := if step.save.Saved? then next else w.memory, disk := if step.save.Failed? then w.disk else next,
                             adopted := if step.save.Saved? then w.adopted + {step.requestId} else w.adopted,
                             retryAt := if step.save.Saved? then w.retryAt else step.now + 5_000)
               else
                 var early := SlotFree(w, step.mode) && !step.closing
                              && (w.readyAt == 0 || step.now < w.readyAt || step.remaining < 500);
                 after == w.(clock := step.now, readyAt := if early then 0 else w.readyAt,
                             retryAt := if SlotFree(w, step.mode) && !early then step.now + 5_000 else w.retryAt)
  {
  }

  /** An intent in a run was made at some step of it, as preferred in the state before that step. */
  lemma {:induction false} MadeAsPreferred(w: World, steps: seq<Step>, id: RequestId) returns (k: nat)
    requires PossibleRun(w, steps) && id !in w.prepared && id in Run(w, steps).prepared
    ensures k < |steps| && steps[k].Prepare? && steps[k].requestId == id
    ensures var before := Run(w, steps[..k]);
            MakesIntent(before, steps[k]) && AsPreferred(before, steps[k], Run(w, steps).prepared[id])
    decreases |steps|
  {
    hide Next, Possible, MakesIntent, AsPreferred;
    assert steps != [];
    var next := Next(w, steps[0]);
    if id in next.prepared {
      k := 0;
      OnlyPrepares(w, steps[0], id);
      IntentExactly(w, steps[0]);
      RunRemembers(next, steps[1..]);
      assert steps[..0] == [];
    } else {
      var l := MadeAsPreferred(next, steps[1..], id);
      k := l + 1;
      assert steps[..k][0] == steps[0] && steps[..k][1..] == steps[1..][..l];
    }
  }

  /** Everything the authority ever answers asks for the direction, the date and the case of the moment it was made. */
  lemma DeliveredAsPreferred(today: Day, clock: int, steps: seq<Step>, id: RequestId) returns (k: nat)
    requires clock >= 0 && PossibleRun(Start(today, clock), steps) && id in Run(Start(today, clock), steps).verdicts
    ensures k < |steps| && steps[k].Prepare? && id in Run(Start(today, clock), steps).prepared
    ensures AsPreferred(Run(Start(today, clock), steps[..k]), steps[k], Run(Start(today, clock), steps).prepared[id])
  {
    hide Run, PossibleRun, Invariant, AsPreferred, MakesIntent;
    StartHolds(today, clock);
    RunKeepsInvariant(Start(today, clock), steps);
    AnsweredWasMade(Run(Start(today, clock), steps), id);
    k := MadeAsPreferred(Start(today, clock), steps, id);
  }

  lemma AnsweredWasMade(w: World, id: RequestId)
    requires Invariant(w) && id in w.verdicts
    ensures id in w.prepared
  {
    hide Fit, OnDisk, WaitOk, SpacingOk, OneClosing, IntentsOk;
    assert EnvOk(EnvOf(w));
  }

  // ----- settings -----

  /** Preferences in memory change by a saved change of them, to what it says, and by a restart, to what is on disk; the disk follows
      whatever is written. No other step touches them. */
  lemma PreferencesExactly(w: World, step: Step)
    ensures var after := Next(w, step);
            && Preferences(after.memory.state) == (if step.Restart? then Preferences(w.disk.state)
                                                   else if step.SetPreferences? && step.save.Saved? then Chosen(step)
                                                   else Preferences(w.memory.state))
            && (Preferences(after.disk.state) == Preferences(w.disk.state) || Preferences(after.disk.state) == Preferences(w.memory.state)
                || (step.SetPreferences? && Preferences(after.disk.state) == Chosen(step)))
            && (step.SetPreferences? && !step.save.Failed? ==> Preferences(after.disk.state) == Chosen(step))
  {
  }

  function Chosen(step: Step): (bool, Direction)
    requires step.SetPreferences?
  {
    (step.enabled, step.direction)
  }

  function Preferences(s: State): (bool, Direction) { (s.enabled, s.direction) }

  // ----- waits -----

  /** A look of the scheduler remembers what it looked at; a new key clears both waits; by day, with a free slot, an affordable dump
      starts the wait unless it runs, and an unaffordable one ends it. With dumps off it does nothing. */
  lemma ScheduleExactly(w: World, step: Step)
    requires step.Schedule?
    ensures var after, key := Next(w, step), Some(Key(step.mode, w.today, step.caseId));
            var waiting := if w.key == key then w.readyAt else 0;
            if !w.memory.state.enabled then after == w.(clock := step.now)
            else after == w.(clock := step.now, key := key, retryAt := if w.key == key then w.retryAt else 0,
                             readyAt := if step.closing || !SlotFree(w, step.mode) then waiting
                                        else if !step.affordable then 0
                                        else if waiting != 0 then waiting
                                        else step.now + 600_000)
  {
  }

  /** The first dump of a key can be made exactly ten minutes after the look that found it affordable, and not before. */
  lemma FirstPeriodIsExact(w: World, step: Step, unused: RequestId)
    requires Spaced(w) && Possible(w, step) && step.Schedule? && !step.closing && step.affordable && SlotFree(w, step.mode)
    requires w.readyAt == 0 || w.key != Some(Key(step.mode, w.today, step.caseId))
    requires step.caseId != "" && WellFormedId(unused) && unused !in w.prepared
    ensures !CanCreateBefore(Next(w, step), step.mode, step.now + 600_000)
    ensures CanCreateBefore(Next(w, step), step.mode, step.now + 600_001)
  {
    hide Spaced, Possible, Next, CanCreateBefore, WellFormedId;
    var after := Next(w, step);
    ScheduleExactly(w, step);
    StepKeepsSpaced(w, step);
    DelaysEnd(w);
    NextIntentExactly(after, step.mode, step.now + 600_000, unused);
    ScheduledIsIdle(w, step);
    ReadyCreates(after, step.mode, step.now + 600_001, unused);
  }

  lemma ScheduledIsIdle(w: World, step: Step)
    requires step.Schedule? && Possible(w, step)
    ensures w.awaiting.None? && step.now >= w.clock
  {
  }

  lemma DelaysEnd(w: World)
    requires Spaced(w)
    ensures w.retryAt <= w.clock + 5_000 && w.clock >= 0
  {
  }

  /** After a dump that was completed and saved the next one of its mode can be made exactly ten minutes later, and not before. */
  lemma NextPeriodIsExact(w: World, now: int, unused: RequestId)
    requires Spaced(w) && Possible(w, Complete(now, Saved)) && w.memory.state.enabled && WellFormedId(unused) && unused !in w.prepared
    requires w.awaiting.value in w.prepared
    requires var p := w.prepared[w.awaiting.value];
             && p.job.kind == Periodic && p.job.day == w.today && w.key == Some(Key(p.mode, w.today, p.job.caseId)) && p.job.caseId != ""
             && p.mode in w.memory.state.jobs && w.memory.state.jobs[p.mode].requestId == p.job.requestId
    ensures var after, m := Next(w, Complete(now, Saved)), w.prepared[w.awaiting.value].mode;
            !CanCreateBefore(after, m, now + 600_000) && CanCreateBefore(after, m, now + 600_001)
  {
    hide Spaced, Next, CanCreateBefore, WellFormedId;
    var after, m := Next(w, Complete(now, Saved)), w.prepared[w.awaiting.value].mode;
    StepKeepsSpaced(w, Complete(now, Saved));
    DelaysEnd(w);
    CompletionFrees(w, now);
    NextIntentExactly(after, m, now + 600_000, unused);
    ReadyCreates(after, m, now + 600_001, unused);
  }

  lemma CompletionFrees(w: World, now: int)
    requires Spaced(w) && Possible(w, Complete(now, Saved)) && w.awaiting.value in w.prepared && w.memory.state.enabled
    requires var p := w.prepared[w.awaiting.value];
             && p.job.kind == Periodic && p.job.day == w.today
             && p.mode in w.memory.state.jobs && w.memory.state.jobs[p.mode].requestId == p.job.requestId
    ensures var after, m := Next(w, Complete(now, Saved)), w.prepared[w.awaiting.value].mode;
            && SlotFree(after, m) && after.readyAt == now + 600_000 && after.clock == now >= w.clock && after.retryAt == w.retryAt
            && after.awaiting.None? && after.key == w.key && after.today == w.today && after.prepared == w.prepared
  {
    hide EnvOk, OnDisk, WaitOk, BooksOk, ClosingsHeld, CandidatesOk, RecordVote, LedgerFor, AwaitOk, DelayOk, RetryOk, AllApart;
    AnsweredIsPrepared(EnvOf(w), w.awaiting.value);
    assert JobsKnown(EnvOf(w), w.memory.state);
    assert IsPrepared(EnvOf(w), w.prepared[w.awaiting.value].mode, w.memory.state.jobs[w.prepared[w.awaiting.value].mode]);
  }

  /** A run that fails, before or after the authority answered, is over, changes nothing in memory, and keeps the next one off for
      five seconds. A restart knows what is on disk and waits for nothing. */
  lemma FailuresExactly(w: World, step: Step)
    requires Possible(w, step)
    ensures step.FailRun? ==> Next(w, step) == w.(awaiting := None, retryAt := step.now + 5_000, clock := step.now)
    ensures step.Complete? && !step.save.Saved? && w.awaiting.value in w.prepared ==>
              Next(w, step) == w.(awaiting := None, retryAt := step.now + 5_000, clock := step.now, disk := Next(w, step).disk)
              && (step.save.Failed? ==> Next(w, step).disk == w.disk)
    ensures step.Restart? ==>
              var after := Next(w, step);
              && after == w.(memory := w.disk, key := None, readyAt := 0, retryAt := 0, awaiting := None, adopted := after.adopted)
              && forall id :: id in after.adopted <==> id in w.adopted || exists m :: m in w.disk.state.jobs && w.disk.state.jobs[m].requestId == id
    ensures step.SwitchMode? ==> Next(w, step) == w.(key := None, readyAt := 0)
  {
  }
}
