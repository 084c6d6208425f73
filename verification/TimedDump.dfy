/** The timed-dump protocol as a state machine: a host with durable state that can fail and crash, requests that can be
    lost, repeated or delivered late, and an authority that answers a request id once and for all. */
module TimedDump {
  import opened Common
  import opened Ledger
  import opened VoteBudget

  datatype Mode = Online | LocalMode

  /** A job without a kind is a receipt of an older version, which only ever made closing dumps. */
  datatype Kind = Periodic | Closing | LegacyClosing

  datatype Job = Job(day: Day, caseId: CaseId, requestId: RequestId, direction: Direction, count: nat, done: bool, kind: Kind)

  /** Accepted timed sticks of one mode: for life, and for the date of the last completed job. */
  datatype TimedLedger = TimedLedger(day: Day, lifetimeUp: nat, lifetimeDown: nat, todayUp: nat, todayDown: nat)

  datatype State = State(enabled: bool, direction: Direction, jobs: map<Mode, Job>, incense: map<Mode, TimedLedger>)

  const DEFAULT_DAY_END := State(false, Up, map[], map[])

  /** ten minutes: 500 sticks at 50 a minute */
  const AUTO_DUMP_PERIOD_MS := 600_000

  /** How long a failed run keeps the next one from starting. */
  const RETRY_MS := 5_000

  // ----- the host's ledger -----

  function Rolled(l: TimedLedger): TimedLedger { l.(todayUp := 0, todayDown := 0) }

  function RecordVote(l: TimedLedger, direction: Direction, accepted: nat): TimedLedger {
    match direction
    case Up => l.(lifetimeUp := l.lifetimeUp + accepted, todayUp := l.todayUp + accepted)
    case Down => l.(lifetimeDown := l.lifetimeDown + accepted, todayDown := l.todayDown + accepted)
  }

  function LedgerFor(s: State, mode: Mode, day: Day): TimedLedger {
    if mode !in s.incense then TimedLedger(day, 0, 0, 0, 0)
    else if s.incense[mode].day == day then s.incense[mode]
    else Rolled(s.incense[mode]).(day := day)
  }

  /** The change a completed job makes, unless another writer already completed or replaced it. */
  function CompletedState(s: State, mode: Mode, job: Job, accepted: nat): State {
    if mode !in s.jobs || s.jobs[mode].requestId != job.requestId || s.jobs[mode].done then s
    else s.(jobs := s.jobs[mode := job.(done := true)],
            incense := s.incense[mode := RecordVote(LedgerFor(s, mode, job.day), job.direction, accepted)])
  }

  // ----- the world -----

  predicate IdChar(c: char) {
    'A' <= c <= 'Z' || 'a' <= c <= 'z' || '0' <= c <= '9' || c == '.' || c == '_' || c == ':' || c == '-'
  }

  /** What the validators ask of a request id; random UUIDs are among these. */
  predicate WellFormedId(id: RequestId) {
    8 <= |id| <= 128 && forall c :: c in id ==> IdChar(c)
  }

  datatype Verdict = Accepted(amount: nat) | Rejected

  /** An intent as it was created. */
  datatype Prepared = Prepared(mode: Mode, job: Job, at: int)

  /** A state with the ids it has counted, in the order they were marked done. The ids are not stored by the program. */
  datatype Durable = Durable(state: State, counted: seq<RequestId>)

  /** The ids in the slots of a state. */
  function Ids(s: State): set<RequestId> { set m | m in s.jobs :: s.jobs[m].requestId }

  datatype Key = Key(mode: Mode, day: Day, caseId: CaseId)

  /** `key` is what the scheduler last looked at, none since the authority changed; no run starts before `retryAt`.
      `adopted` are the intents the host ever took for its own: their save succeeded, or they were found on disk. */
  datatype World = World(
    disk: Durable, memory: Durable,
    key: Option<Key>, readyAt: int, retryAt: int,
    awaiting: Option<RequestId>,
    today: Day, clock: int,
    prepared: map<RequestId, Prepared>, adopted: set<RequestId>, sent: set<RequestId>, verdicts: map<RequestId, Verdict>)

  function Start(today: Day, clock: int): World {
    World(Durable(DEFAULT_DAY_END, []), Durable(DEFAULT_DAY_END, []), None, 0, 0, None, today, clock, map[], {}, {}, map[])
  }

  /** A save either happens, fails, or fails after the write landed. A crash during a save is one of the last two and a restart. */
  datatype SaveOutcome = Saved | Failed | FailedButLanded

  datatype Step =
    | Schedule(mode: Mode, caseId: CaseId, closing: bool, affordable: bool, now: int)
    | SwitchMode
    | Prepare(mode: Mode, caseId: CaseId, requestId: RequestId, closing: bool, remaining: nat, now: int, save: SaveOutcome)
    | Send(mode: Mode, closing: bool)
    | Deliver(requestId: RequestId, verdict: Verdict)
    | Complete(now: int, save: SaveOutcome)
    | FailRun(now: int)
    | SetPreferences(enabled: bool, direction: Direction, save: SaveOutcome)
    | NewDay(day: Day)
    | Restart

  /** `save`: the change is applied to memory's state, written, and adopted only when the write succeeded. A change of
      `enabled` restarts the periodic wait. */
  function Save(w: World, next: Durable, save: SaveOutcome): World {
    match save
    case Saved => w.(disk := next, memory := next, readyAt := if next.state.enabled != w.memory.state.enabled then 0 else w.readyAt)
    case Failed => w
    case FailedButLanded => w.(disk := next)
  }

  /** `updateSchedule`, as far as it touches the waits: a new key clears both. Nothing is scheduled while dumps are disabled. */
  function Scheduled(w: World, key: Key, closing: bool, affordable: bool, now: int): World {
    if !w.memory.state.enabled then w
    else
      var ready := if w.key == Some(key) then w.readyAt else 0;
      var job := if key.mode in w.memory.state.jobs && w.memory.state.jobs[key.mode].day == key.day
                 then Some(w.memory.state.jobs[key.mode]) else None;
      var next :=
        if closing || (job.Some? && job.value.kind != Periodic) || (job.Some? && !job.value.done) then ready
        else if !affordable then 0
        else if ready == 0 then now + AUTO_DUMP_PERIOD_MS
        else ready;
      w.(key := Some(key), readyAt := next, retryAt := if w.key == Some(key) then w.retryAt else 0)
  }

  function TodaysJob(w: World, mode: Mode): Option<Job> {
    if mode in w.memory.state.jobs && w.memory.state.jobs[mode].day == w.today then Some(w.memory.state.jobs[mode]) else None
  }

  /** A new intent is made only while dumps are enabled and when today's job allows one: a finished closing ends the day, an
      unfinished job is repeated. */
  predicate MayPrepare(w: World, mode: Mode) {
    var job := TodaysJob(w, mode);
    w.memory.state.enabled && (job.None? || (job.value.done && job.value.kind == Periodic))
  }

  predicate PeriodicReady(w: World, remaining: nat, now: int) {
    w.readyAt != 0 && now >= w.readyAt && remaining >= VOTE_COUNT_MAX
  }

  function NewJob(w: World, caseId: CaseId, requestId: RequestId, closing: bool, remaining: nat): Job {
    Job(w.today, caseId, requestId, w.memory.state.direction, if remaining <= VOTE_COUNT_MAX then remaining else VOTE_COUNT_MAX,
        false, if closing then Closing else Periodic)
  }

  /** A new intent is saved before anything is sent; a save that fails ends the run. */
  function Persist(w: World, mode: Mode, requestId: RequestId, job: Job, now: int, save: SaveOutcome): World {
    var s := w.memory.state;
    var saved := Save(w.(prepared := w.prepared[requestId := Prepared(mode, job, now)]),
                      Durable(s.(jobs := s.jobs[mode := job]), w.memory.counted), save);
    if save.Saved? then saved.(adopted := saved.adopted + {requestId}) else saved.(retryAt := now + RETRY_MS)
  }

  function PrepareJob(w: World, mode: Mode, caseId: CaseId, requestId: RequestId, closing: bool, remaining: nat, now: int, save: SaveOutcome): World {
    if !MayPrepare(w, mode) then w
    else if !closing && !PeriodicReady(w, remaining, now) then w.(readyAt := 0)
    else if remaining < 1 then w.(retryAt := now + RETRY_MS)
    else Persist(w, mode, requestId, NewJob(w, caseId, requestId, closing, remaining), now, save)
  }

  function Amount(v: Verdict): nat { if v.Accepted? then v.amount else 0 }

  /** The state after a completion, with the id it counted. */
  function Completed(d: Durable, mode: Mode, job: Job, accepted: nat): Durable {
    var counts := mode in d.state.jobs && d.state.jobs[mode].requestId == job.requestId && !d.state.jobs[mode].done;
    Durable(CompletedState(d.state, mode, job, accepted), if counts then d.counted + [job.requestId] else d.counted)
  }

  /** Record the receipt of the answered job. A failed save leaves it unfinished, to be sent again under the same id. */
  function CompleteJob(w: World, now: int, save: SaveOutcome): World {
    if w.awaiting.None? || w.awaiting.value !in w.prepared || w.awaiting.value !in w.verdicts then w
    else
      var p := w.prepared[w.awaiting.value];
      var saved := Save(w.(awaiting := None), Completed(w.memory, p.mode, p.job, Amount(w.verdicts[w.awaiting.value])), save);
      if !save.Saved? then saved.(retryAt := now + RETRY_MS)
      else if p.job.kind == Periodic then saved.(readyAt := now + AUTO_DUMP_PERIOD_MS)
      else saved
  }

  /** A new process knows what is stored and waits for nothing. */
  function Restarted(w: World): World {
    World(w.disk, w.disk, None, 0, 0, None, w.today, w.clock, w.prepared, w.adopted + Ids(w.disk.state), w.sent, w.verdicts)
  }

  function Next(w: World, step: Step): World {
    match step
    case Schedule(mode, caseId, closing, affordable, now) => Scheduled(w, Key(mode, w.today, caseId), closing, affordable, now).(clock := now)
    case SwitchMode => w.(key := None, readyAt := 0)
    case Prepare(mode, caseId, requestId, closing, remaining, now, save) =>
      PrepareJob(w, mode, caseId, requestId, closing, remaining, now, save).(clock := now)
    case Send(mode, _) =>
      if mode !in w.memory.state.jobs then w
      else
        var id := w.memory.state.jobs[mode].requestId;
        w.(sent := w.sent + {id}, awaiting := Some(id))
    case Deliver(id, verdict) => if id in w.verdicts then w else w.(verdicts := w.verdicts[id := verdict])
    case Complete(now, save) => CompleteJob(w, now, save).(clock := now)
    case FailRun(now) => w.(awaiting := None, retryAt := now + RETRY_MS, clock := now)
    case SetPreferences(enabled, direction, save) =>
      Save(w, Durable(w.memory.state.(enabled := enabled, direction := direction), w.memory.counted), save)
    case NewDay(day) => w.(today := day)
    case Restart => Restarted(w)
  }

  /** Clocks and dates do not go back; request ids are fresh and well formed, and cases have ids; one run is under way at a
      time, started by a timer that waits for `retryAt`, under the key the scheduler last saw; only what was sent is delivered,
      and no more is accepted than was asked for. */
  predicate Possible(w: World, step: Step) {
    match step
    case Schedule(_, _, _, _, now) => w.awaiting.None? && now >= w.clock
    case SwitchMode => true
    case Prepare(mode, caseId, requestId, _, _, now, _) =>
      w.awaiting.None? && now >= w.clock && now >= w.retryAt && requestId !in w.prepared && w.key == Some(Key(mode, w.today, caseId))
      && WellFormedId(requestId) && caseId != ""
    case Send(mode, closing) =>
      && w.awaiting.None? && w.clock >= w.retryAt && w.memory.state.enabled && w.key.Some? && w.key.value.mode == mode && w.key.value.day == w.today
      && TodaysJob(w, mode).Some? && !TodaysJob(w, mode).value.done
      && (TodaysJob(w, mode).value.kind == Periodic || closing)
    case Deliver(id, verdict) => id in w.sent && id in w.prepared && Amount(verdict) <= w.prepared[id].job.count
    case Complete(now, _) => now >= w.clock && w.awaiting.Some? && w.awaiting.value in w.verdicts
    case FailRun(now) => now >= w.clock
    case SetPreferences(_, _, _) => true
    case NewDay(day) => day >= w.today
    case Restart => true
  }
}
