/** The timed-dump service object. Where the service awaits the authority or its store, a method ends or takes the outcome;
    every method makes exactly one step of the protocol. */
module DayEndService {
  import opened Common
  import opened Ledger
  import opened VoteBudget
  import opened TimedDump
  import opened TimedDumpSafety

  class DayEndService {
    var state: State
    /** What the persistence port holds. */
    var stored: State
    var periodicReadyAt: int
    var scheduleKey: Option<Key>
    /** Is the authority still the one the scheduler last looked at? */
    var sameAuthority: bool
    var retryAt: int
    /** The job a run is waiting for an answer to. */
    var running: Option<(Mode, Job)>

    ghost var counted: seq<RequestId>
    ghost var countedInStore: seq<RequestId>
    ghost var today: Day
    ghost var clock: int
    ghost var prepared: Intents
    ghost var adopted: set<RequestId>
    ghost var sent: set<RequestId>
    ghost var verdicts: Verdicts

    ghost function View(): World
      reads this
    {
      World(Durable(stored, countedInStore), Durable(state, counted), if sameAuthority then scheduleKey else None, periodicReadyAt, retryAt,
            if running.Some? then Some(running.value.1.requestId) else None, today, clock, prepared, adopted, sent, verdicts)
    }

    ghost predicate Valid()
      reads this
    {
      Invariant(View())
      && (running.Some? ==> IsPrepared(EnvOf(View()), running.value.0, running.value.1) && !running.value.1.done)
    }

    constructor (today: Day, clock: int)
      requires clock >= 0
      ensures Valid() && View() == Start(today, clock)
    {
      state, stored, periodicReadyAt, scheduleKey, sameAuthority, retryAt, running :=
        DEFAULT_DAY_END, DEFAULT_DAY_END, 0, None, true, 0, None;
      counted, countedInStore, this.today, this.clock, prepared, adopted, sent, verdicts := [], [], today, clock, map[], {}, {}, map[];
      new;
      StartHolds(today, clock);
    }

    /** Write first; adopt only what was written without an error. A change of `enabled` restarts the periodic wait. */
    method Save(next: State, ghost nextCounted: seq<RequestId>, outcome: SaveOutcome) returns (saved: bool)
      modifies this`state, this`stored, this`periodicReadyAt, this`counted, this`countedInStore
      ensures View() == TimedDump.Save(old(View()), Durable(next, nextCounted), outcome)
      ensures saved <==> outcome.Saved?
    {
      if !outcome.Failed? {
        stored, countedInStore := next, nextCounted;
      }
      if !outcome.Saved? { return false; }
      if state.enabled != next.enabled {
        periodicReadyAt := 0;
      }
      state, counted := next, nextCounted;
      saved := true;
    }

    method UpdateSchedule(mode: Mode, date: Day, caseId: CaseId, closing: bool, affordable: bool, now: int)
      requires Valid() && running.None? && now >= clock && date == today
      modifies this
      ensures Valid()
      ensures View() == Next(old(View()), Schedule(mode, caseId, closing, affordable, now))
    {
      hide Invariant, IsPrepared, Scheduled;
      StepKeepsInvariant(View(), Schedule(mode, caseId, closing, affordable, now));
      clock := now;
      if state.enabled {
        SetWaits(Key(mode, date, caseId), closing, affordable, now);
      }
      ScheduledLater(old(View()), Key(mode, date, caseId), closing, affordable, now);
    }

    /** A new key or authority clears both waits; an affordable dump starts the periodic one. */
    method SetWaits(key: Key, closing: bool, affordable: bool, now: int)
      requires state.enabled
      modifies this`scheduleKey, this`sameAuthority, this`periodicReadyAt, this`retryAt
      ensures View() == Scheduled(old(View()), key, closing, affordable, now)
    {
      ghost var before := View();
      if scheduleKey != Some(key) || !sameAuthority {
        scheduleKey, sameAuthority, periodicReadyAt, retryAt := Some(key), true, 0, 0;
      }
      var job := if key.mode in state.jobs && state.jobs[key.mode].day == key.day then Some(state.jobs[key.mode]) else None;
      if !closing && (job.None? || job.value.kind == Periodic) {
        if job.Some? && !job.value.done {
          // the unfinished job is repeated without a wait
        } else if affordable {
          if periodicReadyAt == 0 {
            periodicReadyAt := now + AUTO_DUMP_PERIOD_MS;
          }
        } else {
          periodicReadyAt := 0;
        }
      }
      assert View() == before.(key := Some(key), readyAt := periodicReadyAt, retryAt := retryAt);
    }

    /** Another authority takes over. */
    method Use()
      requires Valid()
      modifies this`periodicReadyAt, this`sameAuthority
      ensures Valid() && View() == Next(old(View()), SwitchMode)
    {
      StepKeepsInvariant(View(), SwitchMode);
      periodicReadyAt, sameAuthority := 0, false;
    }

    /** The first half of a run: decide on today's job and persist a new one before anything is sent. */
    method PrepareRun(mode: Mode, date: Day, caseId: CaseId, requestId: RequestId, closing: bool, remaining: nat, now: int, outcome: SaveOutcome)
      requires Valid() && date == today
      requires Possible(View(), Prepare(mode, caseId, requestId, closing, remaining, now, outcome))
      modifies this
      ensures Valid()
      ensures View() == Next(old(View()), Prepare(mode, caseId, requestId, closing, remaining, now, outcome))
    {
      hide Invariant, Persist, IsPrepared, WellFormedId;
      StepKeepsInvariant(View(), Prepare(mode, caseId, requestId, closing, remaining, now, outcome));
      clock := now;
      if !state.enabled { return; }
      var isToday := mode in state.jobs && state.jobs[mode].day == date;
      if isToday && state.jobs[mode].done && state.jobs[mode].kind != Periodic { return; }
      if isToday && !state.jobs[mode].done { return; }
      if !closing && (periodicReadyAt == 0 || now < periodicReadyAt || remaining < VOTE_COUNT_MAX) {
        periodicReadyAt := 0;
        return;
      }
      var count := if remaining <= VOTE_COUNT_MAX then remaining else VOTE_COUNT_MAX;
      if count < 1 {
        retryAt := now + RETRY_MS;
        return;
      }
      var job := Job(date, caseId, requestId, state.direction, count, false, if closing then Closing else Periodic);
      PersistKeepsTime(old(View()), mode, requestId, job, now, outcome);
      PersistIntent(mode, requestId, job, now, outcome);
    }

    /** The exact intent goes to the store before anything is sent. */
    method PersistIntent(mode: Mode, requestId: RequestId, job: Job, now: int, outcome: SaveOutcome)
      modifies this`state, this`stored, this`periodicReadyAt, this`retryAt, this`counted, this`countedInStore, this`prepared, this`adopted
      ensures View() == Persist(old(View()), mode, requestId, job, now, outcome)
    {
      prepared := prepared[requestId := Prepared(mode, job, now)];
      var saved := Save(state.(jobs := state.jobs[mode := job]), counted, outcome);
      if saved {
        adopted := adopted + {requestId};
      } else {
        retryAt := now + RETRY_MS;
      }
    }

    /** The second half: hand today's unfinished job to the authority, exactly as persisted. */
    method SendRun(mode: Mode, closing: bool) returns (job: Job)
      requires Valid() && Possible(View(), Send(mode, closing))
      modifies this
      ensures Valid() && View() == Next(old(View()), Send(mode, closing))
      ensures running == Some((mode, job)) && mode in stored.jobs && stored.jobs[mode].(done := false) == job
    {
      hide Invariant;
      PersistedBeforeSent(View(), mode, closing);
      StepKeepsInvariant(View(), Send(mode, closing));
      MemoryKnown(View());
      job := state.jobs[mode];
      running := Some((mode, job));
      sent := sent + {job.requestId};
    }

    /** The authority answered: mark the job done and count what it accepted, unless that already happened. */
    method RecordOutcome(answer: Verdict, now: int, outcome: SaveOutcome)
      requires Valid() && running.Some? && now >= clock
      requires running.value.1.requestId in verdicts && answer == verdicts[running.value.1.requestId]
      modifies this
      ensures Valid() && View() == Next(old(View()), Complete(now, outcome))
      ensures outcome.Saved? ==> forall m :: m in state.jobs && state.jobs[m].requestId == old(running).value.1.requestId ==> state.jobs[m].done
    {
      hide Invariant, Completed, Ids, IsPrepared, JobsKnown, TimedDump.Save;
      StepKeepsInvariant(View(), Complete(now, outcome));
      MemoryKnown(View());
      KnownModes(EnvOf(View()), state);
      RunningIsPrepared(EnvOf(View()), running.value.0, running.value.1);
      SaveKeepsTime(View().(awaiting := None), Completed(View().memory, running.value.0, running.value.1, Amount(answer)), outcome, now);
      SaveAdopts(View().(awaiting := None), Completed(View().memory, running.value.0, running.value.1, Amount(answer)), outcome);
      clock := now;
      var mode, job := running.value.0, running.value.1;
      running := None;
      var next, nextCounted := CountedOnce(mode, job, Amount(answer));
      CompletedMarksDone(state, counted, mode, job, Amount(answer));
      var saved := Save(next, nextCounted, outcome);
      if !saved {
        retryAt := now + RETRY_MS;
      } else if job.kind == Periodic {
        periodicReadyAt := now + AUTO_DUMP_PERIOD_MS;
      }
    }

    /** The change to save: none when another writer already completed or replaced the job. */
    method CountedOnce(mode: Mode, job: Job, accepted: nat) returns (next: State, ghost nextCounted: seq<RequestId>)
      ensures Durable(next, nextCounted) == Completed(Durable(state, counted), mode, job, accepted)
    {
      hide RecordVote, LedgerFor;
      next, nextCounted := state, counted;
      if mode in state.jobs && state.jobs[mode].requestId == job.requestId && !state.jobs[mode].done {
        var ledger := LedgerFor(state, mode, job.day);
        next := state.(jobs := state.jobs[mode := job.(done := true)],
                       incense := state.incense[mode := RecordVote(ledger, job.direction, accepted)]);
        nextCounted := counted + [job.requestId];
      }
    }

    /** A run that throws, before or after it sent: the next one waits. */
    method RunFailed(now: int)
      requires Valid() && now >= clock
      modifies this`running, this`retryAt, this`clock
      ensures Valid() && View() == Next(old(View()), FailRun(now))
    {
      hide Invariant, IsPrepared;
      StepKeepsInvariant(View(), FailRun(now));
      running, retryAt, clock := None, now + RETRY_MS, now;
    }

    method SetDayEndPreferences(enabled: bool, direction: Direction, outcome: SaveOutcome)
      requires Valid()
      modifies this
      ensures Valid() && View() == Next(old(View()), SetPreferences(enabled, direction, outcome))
    {
      hide Invariant;
      StepKeepsInvariant(View(), SetPreferences(enabled, direction, outcome));
      var saved := Save(state.(enabled := enabled, direction := direction), counted, outcome);
    }

    /** A new process attaches to the same store. */
    method AttachDayEndPersistence()
      requires Valid()
      modifies this
      ensures Valid() && View() == Next(old(View()), Restart)
    {
      hide Invariant, IsPrepared, Ids;
      StepKeepsInvariant(View(), Restart);
      WaitForNothing();
      state, counted, adopted := stored, countedInStore, adopted + Ids(stored);
    }

    method WaitForNothing()
      modifies this`scheduleKey, this`sameAuthority, this`periodicReadyAt, this`retryAt, this`running
      ensures View() == old(View()).(key := None, readyAt := 0, retryAt := 0, awaiting := None) && running.None?
    {
      scheduleKey, sameAuthority, periodicReadyAt, retryAt, running := None, true, 0, 0, None;
    }
  }

  lemma ScheduledLater(w: World, key: Key, closing: bool, affordable: bool, now: int)
    ensures Scheduled(w.(clock := now), key, closing, affordable, now) == Scheduled(w, key, closing, affordable, now).(clock := now)
    ensures !w.memory.state.enabled ==> Scheduled(w, key, closing, affordable, now) == w
  {
  }

  /** Saving does not look at the time. */
  lemma SaveKeepsTime(w: World, next: Durable, outcome: SaveOutcome, now: int)
    ensures TimedDump.Save(w.(clock := now), next, outcome) == TimedDump.Save(w, next, outcome).(clock := now)
  {
  }

  lemma PersistKeepsTime(w: World, mode: Mode, requestId: RequestId, job: Job, now: int, outcome: SaveOutcome)
    ensures Persist(w.(clock := now), mode, requestId, job, now, outcome)
         == Persist(w, mode, requestId, job, now, outcome).(clock := now)
  {
  }

  lemma CompletedMarksDone(s: State, counted: seq<RequestId>, mode: Mode, job: Job, accepted: nat)
    requires forall m :: m in s.jobs && s.jobs[m].requestId == job.requestId ==> m == mode
    ensures var after := Completed(Durable(s, counted), mode, job, accepted).state;
            forall m :: m in after.jobs && after.jobs[m].requestId == job.requestId ==> after.jobs[m].done
  {
  }

  lemma SaveAdopts(w: World, next: Durable, outcome: SaveOutcome)
    ensures TimedDump.Save(w, next, outcome).memory == if outcome.Saved? then next else w.memory
  {
  }

  /** The job under way is the intent prepared under its id. */
  lemma RunningIsPrepared(e: Env, mode: Mode, job: Job)
    requires IsPrepared(e, mode, job) && !job.done
    ensures job.requestId in e.prepared && e.prepared[job.requestId].mode == mode && e.prepared[job.requestId].job == job
  {
  }

  /** An id stands in one slot only, that of its mode. */
  lemma KnownModes(e: Env, s: State)
    requires JobsKnown(e, s)
    ensures forall m :: m in s.jobs ==> s.jobs[m].requestId in e.prepared && e.prepared[s.jobs[m].requestId].mode == m
  {
  }
}
