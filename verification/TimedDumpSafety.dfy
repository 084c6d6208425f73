/** What every reachable state of the timed-dump protocol keeps: intents are persisted before they are sent, the ledger
    counts each finished id once, a date sends one closing id, and periodic intents keep their distance. */
module TimedDumpSafety {
  import opened Common
  import opened Ledger
  import opened VoteBudget
  import opened TimedDump

  type Intents = map<RequestId, Prepared>
  type Verdicts = map<RequestId, Verdict>

  /** The world around the host's states: what was created, adopted, sent and answered, and how late it is. */
  datatype Env = Env(prepared: Intents, adopted: set<RequestId>, sent: set<RequestId>, verdicts: Verdicts, today: Day, clock: int)

  function EnvOf(w: World): Env { Env(w.prepared, w.adopted, w.sent, w.verdicts, w.today, w.clock) }

  // ----- what was created, adopted, sent and answered -----

  ghost predicate IntentsOk(prepared: Intents, today: Day, clock: int) {
    forall id :: id in prepared ==>
      && prepared[id].job.requestId == id && !prepared[id].job.done && prepared[id].job.day <= today && prepared[id].at <= clock
      && 1 <= prepared[id].job.count <= VOTE_COUNT_MAX && WellFormedId(id) && prepared[id].job.caseId != ""
  }

  ghost predicate AnswersOk(prepared: Intents, adopted: set<RequestId>, sent: set<RequestId>, verdicts: Verdicts) {
    && adopted <= prepared.Keys && sent <= adopted && verdicts.Keys <= sent
    && (forall id :: id in verdicts && id in prepared ==> Amount(verdicts[id]) <= prepared[id].job.count)
  }

  ghost predicate AdoptedPeriodic(e: Env, id: RequestId, mode: Mode) {
    id in e.adopted && id in e.prepared && e.prepared[id].mode == mode && e.prepared[id].job.kind == Periodic
  }

  predicate After(p: Prepared, q: Prepared) { p.at >= q.at + AUTO_DUMP_PERIOD_MS }

  /** Any two periodic intents of a mode that were adopted were created at least a period apart. */
  ghost predicate SpacingOk(e: Env) {
    forall m, a, b :: AdoptedPeriodic(e, a, m) && AdoptedPeriodic(e, b, m) && a != b ==>
      After(e.prepared[a], e.prepared[b]) || After(e.prepared[b], e.prepared[a])
  }

  ghost predicate AdoptedClosing(e: Env, id: RequestId) {
    id in e.adopted && id in e.prepared && e.prepared[id].job.kind != Periodic
  }

  predicate SameDump(p: Prepared, q: Prepared) { p.mode == q.mode && p.job.day == q.job.day }

  /** A mode adopts at most one closing id for a date. */
  ghost predicate OneClosing(e: Env) {
    forall a, b :: AdoptedClosing(e, a) && AdoptedClosing(e, b) && SameDump(e.prepared[a], e.prepared[b]) ==> a == b
  }

  ghost predicate EnvOk(e: Env) {
    && IntentsOk(e.prepared, e.today, e.clock) && AnswersOk(e.prepared, e.adopted, e.sent, e.verdicts) && e.clock >= 0
    && SpacingOk(e) && OneClosing(e)
  }

  // ----- what a state of the host owes them -----

  /** The job in a slot is a prepared intent of that mode, except that it may be done. */
  ghost predicate IsPrepared(e: Env, mode: Mode, job: Job) {
    && job.requestId in e.prepared && job.day <= e.today
    && e.prepared[job.requestId] == Prepared(mode, job.(done := false), e.prepared[job.requestId].at)
  }

  ghost predicate JobsKnown(e: Env, s: State) {
    forall m :: m in s.jobs ==> IsPrepared(e, m, s.jobs[m])
  }

  type Pick = Prepared -> bool

  function OnMode(mode: Mode, direction: Direction): Pick {
    (p: Prepared) => p.mode == mode && p.job.direction == direction
  }

  function OnModeAndDay(mode: Mode, direction: Direction, day: Day): Pick {
    (p: Prepared) => p.mode == mode && p.job.direction == direction && p.job.day == day
  }

  /** Sum of what the authority accepted for the counted ids that a filter picks. */
  function Sum(counted: seq<RequestId>, prepared: Intents, verdicts: Verdicts, pick: Pick): nat {
    if counted == [] then 0
    else
      var id := counted[|counted| - 1];
      Sum(counted[..|counted| - 1], prepared, verdicts, pick)
      + (if id in prepared && id in verdicts && pick(prepared[id]) then Amount(verdicts[id]) else 0)
  }

  predicate Distinct(ids: seq<RequestId>) {
    forall i, j :: 0 <= i < j < |ids| ==> ids[i] != ids[j]
  }

  /** Counted ids were answered, each counted once; a slot's job is counted exactly when it is done. */
  ghost predicate CountedOk(d: Durable, prepared: Intents, verdicts: Verdicts) {
    && Distinct(d.counted)
    && (forall id :: id in d.counted ==> id in prepared && id in verdicts)
    && (forall m :: m in d.state.jobs ==> (d.state.jobs[m].done <==> d.state.jobs[m].requestId in d.counted))
  }

  /** The ledger of a mode is exactly the sum over the ids counted for it, for life and for its date. */
  ghost predicate LedgerOk(d: Durable, prepared: Intents, verdicts: Verdicts, m: Mode) {
    if m !in d.state.incense then forall id :: id in d.counted && id in prepared ==> prepared[id].mode != m
    else SumsOk(d.state.incense[m], d.counted, prepared, verdicts, m) && m in d.state.jobs && d.state.incense[m].day <= d.state.jobs[m].day
  }

  ghost predicate SumsOk(l: TimedLedger, counted: seq<RequestId>, prepared: Intents, verdicts: Verdicts, m: Mode) {
    && l.lifetimeUp == Sum(counted, prepared, verdicts, OnMode(m, Up))
    && l.lifetimeDown == Sum(counted, prepared, verdicts, OnMode(m, Down))
    && l.todayUp == Sum(counted, prepared, verdicts, OnModeAndDay(m, Up, l.day))
    && l.todayDown == Sum(counted, prepared, verdicts, OnModeAndDay(m, Down, l.day))
    && (forall id :: id in counted && id in prepared && prepared[id].mode == m ==> prepared[id].job.day <= l.day)
  }

  ghost predicate BooksOk(e: Env, d: Durable) {
    CountedOk(d, e.prepared, e.verdicts) && forall m :: LedgerOk(d, e.prepared, e.verdicts, m)
  }

  /** A closing id that was adopted stands in its slot until a later date takes the slot. */
  ghost predicate ClosingHeld(s: State, p: Prepared) {
    p.mode in s.jobs && (s.jobs[p.mode].day > p.job.day || s.jobs[p.mode].requestId == p.job.requestId)
  }

  ghost predicate ClosingsHeld(e: Env, s: State) {
    forall id :: AdoptedClosing(e, id) ==> ClosingHeld(s, e.prepared[id])
  }

  /** An unfinished periodic job was made a period after every other one that was adopted. */
  ghost predicate CandidateOk(e: Env, s: State, mode: Mode) {
    mode in s.jobs && !s.jobs[mode].done && s.jobs[mode].kind == Periodic && s.jobs[mode].requestId in e.prepared ==>
      forall id :: AdoptedPeriodic(e, id, mode) && id != s.jobs[mode].requestId ==> After(e.prepared[s.jobs[mode].requestId], e.prepared[id])
  }

  ghost predicate CandidatesOk(e: Env, s: State) {
    forall m :: CandidateOk(e, s, m)
  }

  ghost predicate Fit(e: Env, d: Durable) {
    JobsKnown(e, d.state) && BooksOk(e, d) && ClosingsHeld(e, d.state) && CandidatesOk(e, d.state)
  }

  /** An unfinished job in memory is on disk under the same id, or belongs to a date that is over for its slot. */
  ghost predicate OnDisk(disk: State, memory: State) {
    forall m :: m in memory.jobs && !memory.jobs[m].done ==>
      m in disk.jobs && (disk.jobs[m].requestId == memory.jobs[m].requestId || disk.jobs[m].day > memory.jobs[m].day)
  }

  /** The job is unfinished, and of the mode and date the scheduler is waiting for. */
  ghost predicate Pending(s: State, key: Option<Key>, id: RequestId) {
    && key.Some? && key.value.mode in s.jobs
    && var job := s.jobs[key.value.mode]; job.requestId == id && !job.done && job.day == key.value.day
  }

  /** When the wait is running, it ends a period after every periodic intent that was adopted, other than an unfinished one. */
  ghost predicate WaitOk(e: Env, s: State, key: Option<Key>, readyAt: int) {
    readyAt != 0 ==>
      forall id, m :: AdoptedPeriodic(e, id, m) && !Pending(s, key, id) ==> readyAt >= e.prepared[id].at + AUTO_DUMP_PERIOD_MS
  }

  ghost predicate Invariant(w: World) {
    var e := EnvOf(w);
    && EnvOk(e) && Fit(e, w.disk) && Fit(e, w.memory) && OnDisk(w.disk.state, w.memory.state)
    && WaitOk(e, w.memory.state, w.key, w.readyAt) && (w.awaiting.Some? ==> w.awaiting.value in w.sent)
    && Ids(w.memory.state) <= w.adopted
  }

  lemma StartHolds(today: Day, clock: int)
    requires clock >= 0
    ensures Invariant(Start(today, clock))
  {
  }

  // ----- sums -----

  /** New intents, and new verdicts of uncounted ids, do not change a sum. */
  lemma {:induction false} SumFrame(counted: seq<RequestId>, prepared: Intents, verdicts: Verdicts, later: Intents, answered: Verdicts, pick: Pick)
    requires forall id :: id in counted ==> id in prepared && id in verdicts
    requires Grown(prepared, verdicts, later, answered)
    ensures Sum(counted, later, answered, pick) == Sum(counted, prepared, verdicts, pick)
  {
    if counted != [] {
      SumFrame(counted[..|counted| - 1], prepared, verdicts, later, answered, pick);
    }
  }

  lemma SumAppend(counted: seq<RequestId>, id: RequestId, prepared: Intents, verdicts: Verdicts, pick: Pick)
    ensures Sum(counted + [id], prepared, verdicts, pick)
         == Sum(counted, prepared, verdicts, pick)
            + (if id in prepared && id in verdicts && pick(prepared[id]) then Amount(verdicts[id]) else 0)
  {
    assert (counted + [id])[..|counted|] == counted;
  }

  lemma {:induction false} SumNone(counted: seq<RequestId>, prepared: Intents, verdicts: Verdicts, pick: Pick)
    requires forall id :: id in counted && id in prepared ==> !pick(prepared[id])
    ensures Sum(counted, prepared, verdicts, pick) == 0
  {
    if counted != [] {
      SumNone(counted[..|counted| - 1], prepared, verdicts, pick);
    }
  }

  ghost predicate Grown(prepared: Intents, verdicts: Verdicts, later: Intents, answered: Verdicts) {
    && (forall id :: id in prepared ==> id in later && later[id] == prepared[id])
    && (forall id :: id in verdicts ==> id in answered && answered[id] == verdicts[id])
  }

  lemma SumsFrame(l: TimedLedger, counted: seq<RequestId>, e: Env, later: Env, m: Mode)
    requires SumsOk(l, counted, e.prepared, e.verdicts, m) && Grown(e.prepared, e.verdicts, later.prepared, later.verdicts)
    requires forall id :: id in counted ==> id in e.prepared && id in e.verdicts
    ensures SumsOk(l, counted, later.prepared, later.verdicts, m)
  {
    SumFrame(counted, e.prepared, e.verdicts, later.prepared, later.verdicts, OnMode(m, Up));
    SumFrame(counted, e.prepared, e.verdicts, later.prepared, later.verdicts, OnMode(m, Down));
    SumFrame(counted, e.prepared, e.verdicts, later.prepared, later.verdicts, OnModeAndDay(m, Up, l.day));
    SumFrame(counted, e.prepared, e.verdicts, later.prepared, later.verdicts, OnModeAndDay(m, Down, l.day));
  }

  lemma BooksFrame(d: Durable, e: Env, later: Env)
    requires BooksOk(e, d) && Grown(e.prepared, e.verdicts, later.prepared, later.verdicts)
    ensures BooksOk(later, d)
  {
    hide SumsOk;
    forall m ensures LedgerOk(d, later.prepared, later.verdicts, m) {
      assert LedgerOk(d, e.prepared, e.verdicts, m);
      if m in d.state.incense {
        SumsFrame(d.state.incense[m], d.counted, e, later, m);
      }
    }
  }

  // ----- completing a job -----

  /** Marking a job done adds its amount, once, to the right side of the right mode, and to today when it is today's. */
  lemma SumsAfterCompletion(s: State, counted: seq<RequestId>, e: Env, m: Mode, job: Job, accepted: nat)
    requires (m in s.incense ==> SumsOk(s.incense[m], counted, e.prepared, e.verdicts, m) && s.incense[m].day <= job.day)
    requires m !in s.incense ==> forall id :: id in counted && id in e.prepared ==> e.prepared[id].mode != m
    requires job.requestId in e.prepared && job.requestId in e.verdicts && accepted == Amount(e.verdicts[job.requestId])
    requires e.prepared[job.requestId].mode == m && e.prepared[job.requestId].job.direction == job.direction
    requires e.prepared[job.requestId].job.day == job.day
    ensures SumsOk(RecordVote(LedgerFor(s, m, job.day), job.direction, accepted), counted + [job.requestId], e.prepared, e.verdicts, m)
  {
    var id := job.requestId;
    var before := LedgerFor(s, m, job.day);
    LedgerBefore(s, counted, e, m, job.day);
    SumAppend(counted, id, e.prepared, e.verdicts, OnMode(m, Up));
    SumAppend(counted, id, e.prepared, e.verdicts, OnMode(m, Down));
    SumAppend(counted, id, e.prepared, e.verdicts, OnModeAndDay(m, Up, job.day));
    SumAppend(counted, id, e.prepared, e.verdicts, OnModeAndDay(m, Down, job.day));
  }

  /** Rolling to a new date keeps the lifetime sums and starts the date's sums at zero. */
  lemma LedgerBefore(s: State, counted: seq<RequestId>, e: Env, m: Mode, day: Day)
    requires (m in s.incense ==> SumsOk(s.incense[m], counted, e.prepared, e.verdicts, m) && s.incense[m].day <= day)
    requires m !in s.incense ==> forall id :: id in counted && id in e.prepared ==> e.prepared[id].mode != m
    ensures SumsOk(LedgerFor(s, m, day), counted, e.prepared, e.verdicts, m) && LedgerFor(s, m, day).day == day
  {
    if m !in s.incense {
      SumNone(counted, e.prepared, e.verdicts, OnMode(m, Up));
      SumNone(counted, e.prepared, e.verdicts, OnMode(m, Down));
    }
    if m !in s.incense || s.incense[m].day != day {
      SumNone(counted, e.prepared, e.verdicts, OnModeAndDay(m, Up, day));
      SumNone(counted, e.prepared, e.verdicts, OnModeAndDay(m, Down, day));
    }
  }

  /** The sums of the other mode do not see the new id. */
  lemma OtherMode(l: TimedLedger, counted: seq<RequestId>, e: Env, m: Mode, id: RequestId)
    requires SumsOk(l, counted, e.prepared, e.verdicts, m) && id in e.prepared && e.prepared[id].mode != m
    ensures SumsOk(l, counted + [id], e.prepared, e.verdicts, m)
  {
    SumAppend(counted, id, e.prepared, e.verdicts, OnMode(m, Up));
    SumAppend(counted, id, e.prepared, e.verdicts, OnMode(m, Down));
    SumAppend(counted, id, e.prepared, e.verdicts, OnModeAndDay(m, Up, l.day));
    SumAppend(counted, id, e.prepared, e.verdicts, OnModeAndDay(m, Down, l.day));
  }

  lemma CompletedBooks(e: Env, d: Durable, m: Mode, job: Job)
    requires BooksOk(e, d) && JobsKnown(e, d.state)
    requires IsPrepared(e, m, job) && !job.done && job.requestId in e.verdicts
    ensures BooksOk(e, Completed(d, m, job, Amount(e.verdicts[job.requestId])))
  {
    hide SumsOk;
    var accepted := Amount(e.verdicts[job.requestId]);
    var after := Completed(d, m, job, accepted);
    if m in d.state.jobs && d.state.jobs[m].requestId == job.requestId && !d.state.jobs[m].done {
      assert IsPrepared(e, m, d.state.jobs[m]);
      assert LedgerOk(d, e.prepared, e.verdicts, m);
      SumsAfterCompletion(d.state, d.counted, e, m, job, accepted);
      forall n ensures LedgerOk(after, e.prepared, e.verdicts, n) {
        assert LedgerOk(d, e.prepared, e.verdicts, n);
        if n != m && n in d.state.incense {
          OtherMode(d.state.incense[n], d.counted, e, n, job.requestId);
        }
      }
      forall n | n in after.state.jobs ensures after.state.jobs[n].done <==> after.state.jobs[n].requestId in after.counted {
        if n != m {
          assert IsPrepared(e, n, d.state.jobs[n]);
        }
      }
    }
  }

  lemma CompletedIds(d: Durable, m: Mode, job: Job, accepted: nat)
    ensures Ids(Completed(d, m, job, accepted).state) == Ids(d.state)
  {
    hide LedgerFor, RecordVote;
    var before, after := d.state.jobs, Completed(d, m, job, accepted).state.jobs;
    assert after.Keys == before.Keys && forall n :: n in before ==> after[n].requestId == before[n].requestId;
  }

  lemma CompletedFits(e: Env, d: Durable, m: Mode, job: Job)
    requires Fit(e, d) && IsPrepared(e, m, job) && !job.done && job.requestId in e.verdicts
    ensures var after := Completed(d, m, job, Amount(e.verdicts[job.requestId]));
            Fit(e, after) && OnDisk(after.state, d.state) && OnDisk(after.state, after.state) && Ids(after.state) == Ids(d.state)
  {
    hide BooksOk, LedgerFor, RecordVote, Ids;
    CompletedBooks(e, d, m, job);
    CompletedIds(d, m, job, Amount(e.verdicts[job.requestId]));
    var after := Completed(d, m, job, Amount(e.verdicts[job.requestId]));
    if m in d.state.jobs {
      assert IsPrepared(e, m, d.state.jobs[m]);
    }
    forall n ensures CandidateOk(e, after.state, n) {
      assert CandidateOk(e, d.state, n);
    }
  }

  /** Nothing but the preferences changed. */
  lemma PreferencesFit(e: Env, d: Durable, enabled: bool, direction: Direction)
    requires Fit(e, d)
    ensures var after := Durable(d.state.(enabled := enabled, direction := direction), d.counted);
            Fit(e, after) && OnDisk(after.state, d.state) && OnDisk(after.state, after.state) && Ids(after.state) == Ids(d.state)
  {
    hide SumsOk;
    var after := Durable(d.state.(enabled := enabled, direction := direction), d.counted);
    forall m ensures LedgerOk(after, e.prepared, e.verdicts, m) && CandidateOk(e, after.state, m) {
      assert LedgerOk(d, e.prepared, e.verdicts, m) && CandidateOk(e, d.state, m);
    }
  }

  // ----- the world moves on -----

  /** More intents, sends and verdicts, a later clock and date: nothing adopted meanwhile. */
  ghost predicate Later(e: Env, later: Env) {
    && Grown(e.prepared, e.verdicts, later.prepared, later.verdicts) && later.adopted == e.adopted && e.sent <= later.sent
    && e.today <= later.today && e.clock <= later.clock
  }

  lemma FitLater(e: Env, later: Env, d: Durable)
    requires Fit(e, d) && Later(e, later) && e.adopted <= e.prepared.Keys
    ensures Fit(later, d)
  {
    hide BooksOk;
    BooksFrame(d, e, later);
    forall m ensures CandidateOk(later, d.state, m) {
      assert CandidateOk(e, d.state, m);
      if m in d.state.jobs {
        assert IsPrepared(e, m, d.state.jobs[m]);
      }
    }
    forall m | m in d.state.jobs ensures IsPrepared(later, m, d.state.jobs[m]) {
      assert IsPrepared(e, m, d.state.jobs[m]);
    }
  }

  lemma EnvLater(e: Env, later: Env)
    requires EnvOk(e) && Later(e, later)
    requires IntentsOk(later.prepared, later.today, later.clock) && AnswersOk(later.prepared, later.adopted, later.sent, later.verdicts)
    ensures EnvOk(later)
  {
    assert e.adopted <= e.prepared.Keys;
    forall m, a, b | AdoptedPeriodic(later, a, m) && AdoptedPeriodic(later, b, m) && a != b
      ensures After(later.prepared[a], later.prepared[b]) || After(later.prepared[b], later.prepared[a])
    {
      assert AdoptedPeriodic(e, a, m) && AdoptedPeriodic(e, b, m);
    }
    forall a, b | AdoptedClosing(later, a) && AdoptedClosing(later, b) && SameDump(later.prepared[a], later.prepared[b]) ensures a == b {
      assert AdoptedClosing(e, a) && AdoptedClosing(e, b);
    }
  }

  lemma WaitLater(e: Env, later: Env, s: State, key: Option<Key>, readyAt: int)
    requires WaitOk(e, s, key, readyAt) && Later(e, later) && e.adopted <= e.prepared.Keys
    ensures WaitOk(later, s, key, readyAt)
  {
    if readyAt != 0 {
      forall id, m | AdoptedPeriodic(later, id, m) && !Pending(s, key, id) ensures readyAt >= later.prepared[id].at + AUTO_DUMP_PERIOD_MS {
        assert AdoptedPeriodic(e, id, m);
      }
    }
  }

  /** A wait that starts now, or does not run, is long enough whatever was adopted before. */
  lemma FreshWait(e: Env, s: State, key: Option<Key>, readyAt: int)
    requires IntentsOk(e.prepared, e.today, e.clock) && (readyAt == 0 || readyAt >= e.clock + AUTO_DUMP_PERIOD_MS)
    ensures WaitOk(e, s, key, readyAt)
  {
  }

  // ----- saving -----

  lemma SaveKeeps(w: World, next: Durable, save: SaveOutcome)
    requires Invariant(w) && Fit(EnvOf(w), next)
    requires OnDisk(next.state, w.memory.state) && OnDisk(next.state, next.state)
    requires WaitOk(EnvOf(w), next.state, w.key, w.readyAt) && Ids(next.state) <= w.adopted
    ensures Invariant(Save(w, next, save))
  {
    hide EnvOk, Fit, OnDisk, Ids;
    assert EnvOf(Save(w, next, save)) == EnvOf(w);
  }

  /** The invariant does not speak of the retry delay. */
  lemma DelayKeeps(w: World, retryAt: int)
    requires Invariant(w)
    ensures Invariant(w.(retryAt := retryAt))
  {
    hide EnvOk, Fit, OnDisk, WaitOk;
    assert EnvOf(w.(retryAt := retryAt)) == EnvOf(w);
  }

  // ----- preparing -----

  lemma NewIntent(e: Env, id: RequestId, p: Prepared, now: int)
    requires EnvOk(e) && id !in e.prepared && now >= e.clock
    requires p.at == now && p.job.requestId == id && !p.job.done && p.job.day <= e.today && 1 <= p.job.count <= VOTE_COUNT_MAX
    requires WellFormedId(id) && p.job.caseId != ""
    ensures var later := e.(prepared := e.prepared[id := p], clock := now); EnvOk(later) && Later(e, later)
  {
    var later := e.(prepared := e.prepared[id := p], clock := now);
    EnvLater(e, later);
  }

  /** Putting a fresh job into a slot whose day allows one. */
  lemma PreparedBooks(e: Env, d: Durable, m: Mode, job: Job, p: Prepared)
    requires BooksOk(e, d) && JobsKnown(e, d.state) && job.requestId !in e.prepared && !job.done && job.day == e.today
    ensures var later := e.(prepared := e.prepared[job.requestId := p]);
            BooksOk(later, Durable(d.state.(jobs := d.state.jobs[m := job]), d.counted))
  {
    hide SumsOk;
    var later := e.(prepared := e.prepared[job.requestId := p]);
    BooksFrame(d, e, later);
    var after := Durable(d.state.(jobs := d.state.jobs[m := job]), d.counted);
    forall n ensures LedgerOk(after, later.prepared, later.verdicts, n) {
      assert LedgerOk(d, later.prepared, later.verdicts, n);
      if n in d.state.jobs {
        assert IsPrepared(e, n, d.state.jobs[n]);
      }
    }
  }

  /** No adopted closing id loses its slot to the fresh job. */
  lemma PreparedKeepsClosings(e: Env, s: State, m: Mode, job: Job)
    requires IntentsOk(e.prepared, e.today, e.clock) && ClosingsHeld(e, s) && JobsKnown(e, s) && job.day == e.today
    requires m in s.jobs && s.jobs[m].day == e.today ==> s.jobs[m].kind == Periodic
    ensures ClosingsHeld(e, s.(jobs := s.jobs[m := job]))
  {
    forall id | AdoptedClosing(e, id) ensures ClosingHeld(s.(jobs := s.jobs[m := job]), e.prepared[id]) {
      assert ClosingHeld(s, e.prepared[id]);
      if e.prepared[id].mode == m {
        assert IsPrepared(e, m, s.jobs[m]);
      }
    }
  }

  /** The fresh job comes a period after everything that was adopted, because the wait is over and nothing is unfinished. */
  lemma PreparedIsSpaced(e: Env, s: State, m: Mode, job: Job, key: Option<Key>, readyAt: int)
    requires WaitOk(e, s, key, readyAt) && readyAt != 0 && job.requestId in e.prepared && readyAt <= e.prepared[job.requestId].at
    requires key.Some? && key.value.mode == m && key.value.day == e.today
    requires m in s.jobs && s.jobs[m].day == e.today ==> s.jobs[m].done
    ensures CandidateOk(e, s.(jobs := s.jobs[m := job]), m)
  {
    forall id | AdoptedPeriodic(e, id, m) ensures After(e.prepared[job.requestId], e.prepared[id]) {
      assert !Pending(s, key, id);
    }
  }

  lemma PreparedFits(w: World, mode: Mode, caseId: CaseId, id: RequestId, closing: bool, remaining: nat, now: int)
    requires Invariant(w) && id !in w.prepared && now >= w.clock && w.key == Some(Key(mode, w.today, caseId)) && remaining >= 1
    requires MayPrepare(w, mode) && (closing || PeriodicReady(w, remaining, now)) && WellFormedId(id) && caseId != ""
    ensures var job := NewJob(w, caseId, id, closing, remaining);
            var later := EnvOf(w).(prepared := w.prepared[id := Prepared(mode, job, now)], clock := now);
            var next := w.memory.state.(jobs := w.memory.state.jobs[mode := job]);
            && EnvOk(later) && Later(EnvOf(w), later) && Fit(later, Durable(next, w.memory.counted))
            && OnDisk(next, w.memory.state) && OnDisk(next, next) && WaitOk(later, next, w.key, w.readyAt)
  {
    hide BooksOk, JobsKnown, ClosingsHeld, CandidatesOk, EnvOk, Later, WaitOk, OnDisk;
    var job := NewJob(w, caseId, id, closing, remaining);
    var p := Prepared(mode, job, now);
    var e, later := EnvOf(w), EnvOf(w).(prepared := w.prepared[id := p], clock := now);
    var s := w.memory.state;
    NewIntent(e, id, p, now);
    AdoptedArePrepared(e);
    FitLater(e, later, w.memory);
    PreparedBooks(e, w.memory, mode, job, p);
    BooksLater(e.(prepared := e.prepared[id := p]), later, Durable(s.(jobs := s.jobs[mode := job]), w.memory.counted));
    PreparedKnown(later, s, mode, job, now);
    IntentsHold(later);
    PreparedKeepsClosings(later, s, mode, job);
    WaitLater(e, later, s, w.key, w.readyAt);
    PreparedCandidates(later, s, mode, job, w.key, w.readyAt);
    PreparedWait(later, s, mode, job, w.key, w.readyAt);
    PreparedOnDisk(e, s, mode, job);
  }

  lemma IntentsHold(e: Env)
    requires EnvOk(e)
    ensures IntentsOk(e.prepared, e.today, e.clock)
  {
  }

  lemma BooksLater(e: Env, later: Env, d: Durable)
    requires BooksOk(e, d) && later.prepared == e.prepared && later.verdicts == e.verdicts
    ensures BooksOk(later, d)
  {
  }

  lemma PreparedKnown(e: Env, s: State, m: Mode, job: Job, now: int)
    requires JobsKnown(e, s) && job.requestId in e.prepared && e.prepared[job.requestId] == Prepared(m, job, now)
    requires !job.done && job.day <= e.today
    ensures JobsKnown(e, s.(jobs := s.jobs[m := job]))
  {
    forall n | n in s.jobs ensures IsPrepared(e, n, s.jobs[n]) {
    }
  }

  lemma PreparedCandidates(e: Env, s: State, m: Mode, job: Job, key: Option<Key>, readyAt: int)
    requires CandidatesOk(e, s) && WaitOk(e, s, key, readyAt) && job.requestId in e.prepared
    requires key.Some? && key.value.mode == m && key.value.day == e.today
    requires m in s.jobs && s.jobs[m].day == e.today ==> s.jobs[m].done
    requires job.kind == Periodic ==> readyAt != 0 && readyAt <= e.prepared[job.requestId].at
    ensures CandidatesOk(e, s.(jobs := s.jobs[m := job]))
  {
    var next := s.(jobs := s.jobs[m := job]);
    if job.kind == Periodic {
      PreparedIsSpaced(e, s, m, job, key, readyAt);
    }
    forall n ensures CandidateOk(e, next, n) {
      assert CandidateOk(e, s, n);
    }
  }

  lemma PreparedOnDisk(e: Env, s: State, m: Mode, job: Job)
    requires JobsKnown(e, s) && job.day == e.today && !job.done
    requires m in s.jobs && s.jobs[m].day == e.today ==> s.jobs[m].done
    ensures var next := s.(jobs := s.jobs[m := job]); OnDisk(next, s) && OnDisk(next, next)
  {
    if m in s.jobs {
      assert IsPrepared(e, m, s.jobs[m]);
    }
  }

  lemma AdoptedArePrepared(e: Env)
    requires EnvOk(e)
    ensures e.adopted <= e.prepared.Keys
  {
  }

  lemma PreparedWait(e: Env, s: State, m: Mode, job: Job, key: Option<Key>, readyAt: int)
    requires WaitOk(e, s, key, readyAt) && key.Some? && key.value.mode == m && key.value.day == e.today
    requires m in s.jobs && s.jobs[m].day == e.today ==> s.jobs[m].done
    ensures WaitOk(e, s.(jobs := s.jobs[m := job]), key, readyAt)
  {
    if readyAt != 0 {
      forall id, n | AdoptedPeriodic(e, id, n) ensures readyAt >= e.prepared[id].at + AUTO_DUMP_PERIOD_MS {
        assert !Pending(s, key, id);
      }
    }
  }

  /** The invariant of a world seen through its environment, which is all a clock or date changes. */
  lemma MovesOn(w: World, after: World)
    requires Invariant(w) && Later(EnvOf(w), EnvOf(after)) && EnvOk(EnvOf(after))
    requires after.disk == w.disk && after.memory == w.memory && (after.awaiting.Some? ==> after.awaiting.value in after.sent)
    requires WaitOk(EnvOf(after), after.memory.state, after.key, after.readyAt)
    ensures Invariant(after)
  {
    hide EnvOk, Fit, OnDisk, WaitOk;
    AdoptedArePrepared(EnvOf(w));
    FitLater(EnvOf(w), EnvOf(after), w.disk);
    FitLater(EnvOf(w), EnvOf(after), w.memory);
  }

  lemma ClockLater(e: Env, now: int, today: Day)
    requires EnvOk(e) && now >= e.clock && today >= e.today
    ensures var later := e.(clock := now, today := today); EnvOk(later) && Later(e, later)
  {
    EnvLater(e, e.(clock := now, today := today));
  }

  /** A prepare that makes no intent at most ends the wait. */
  lemma RefusedPrepareKeeps(w: World, now: int, readyAt: int)
    requires Invariant(w) && now >= w.clock && (readyAt == 0 || readyAt == w.readyAt)
    ensures Invariant(w.(readyAt := readyAt, clock := now))
  {
    hide EnvOk, Fit, OnDisk, WaitOk, Later;
    var e, after := EnvOf(w), w.(readyAt := readyAt, clock := now);
    ClockLater(e, now, w.today);
    AdoptedArePrepared(e);
    WaitLater(e, EnvOf(after), w.memory.state, w.key, w.readyAt);
    NoWait(EnvOf(after), w.memory.state, w.key);
    MovesOn(w, after);
  }

  lemma PersistKeeps(w: World, mode: Mode, caseId: CaseId, id: RequestId, closing: bool, remaining: nat, now: int, save: SaveOutcome)
    requires Invariant(w) && id !in w.prepared && now >= w.clock && w.key == Some(Key(mode, w.today, caseId))
    requires WellFormedId(id) && caseId != ""
    requires MayPrepare(w, mode) && remaining >= 1 && (closing || PeriodicReady(w, remaining, now))
    ensures Invariant(Persist(w, mode, id, NewJob(w, caseId, id, closing, remaining), now, save).(clock := now))
  {
    hide EnvOk, Fit, OnDisk, WaitOk, Later, MayPrepare, PeriodicReady;
    var e := EnvOf(w);
    PreparedFits(w, mode, caseId, id, closing, remaining, now);
    var job := NewJob(w, caseId, id, closing, remaining);
    var s := w.memory.state;
    var moved := w.(prepared := w.prepared[id := Prepared(mode, job, now)], clock := now);
    AdoptedArePrepared(e);
    WaitLater(e, EnvOf(moved), s, w.key, w.readyAt);
    MovesOn(w, moved);
    var next := Durable(s.(jobs := s.jobs[mode := job]), w.memory.counted);
    if save.Saved? {
      AdoptKeeps(moved, next, mode);
    } else {
      SaveUnadopted(moved, next, save);
      DelayKeeps(Save(moved, next, save), now + RETRY_MS);
    }
  }

  lemma PrepareKeeps(w: World, mode: Mode, caseId: CaseId, id: RequestId, closing: bool, remaining: nat, now: int, save: SaveOutcome)
    requires Invariant(w) && id !in w.prepared && now >= w.clock && w.key == Some(Key(mode, w.today, caseId))
    requires WellFormedId(id) && caseId != ""
    ensures Invariant(PrepareJob(w, mode, caseId, id, closing, remaining, now, save).(clock := now))
  {
    hide Invariant, MayPrepare, PeriodicReady, Persist, NewJob, WellFormedId;
    RefusedPrepareKeeps(w, now, w.readyAt);
    RefusedPrepareKeeps(w, now, 0);
    DelayKeeps(w.(clock := now), now + RETRY_MS);
    if MayPrepare(w, mode) && remaining >= 1 && (closing || PeriodicReady(w, remaining, now)) {
      PersistKeeps(w, mode, caseId, id, closing, remaining, now, save);
    }
  }

  lemma NoWait(e: Env, s: State, key: Option<Key>)
    ensures WaitOk(e, s, key, 0)
  {
  }

  // ----- adopting -----

  ghost predicate Unfinished(e: Env, s: State, m: Mode) {
    m in s.jobs && !s.jobs[m].done && IsPrepared(e, m, s.jobs[m])
  }

  /** An unfinished job that is taken up is the only closing of its date, and a period after every other periodic intent. */
  lemma AdoptEnv(e: Env, s: State, m: Mode)
    requires EnvOk(e) && Unfinished(e, s, m) && ClosingsHeld(e, s) && CandidateOk(e, s, m)
    ensures EnvOk(e.(adopted := e.adopted + {s.jobs[m].requestId}))
  {
    var id := s.jobs[m].requestId;
    var later := e.(adopted := e.adopted + {id});
    forall n, a, b | AdoptedPeriodic(later, a, n) && AdoptedPeriodic(later, b, n) && a != b
      ensures After(later.prepared[a], later.prepared[b]) || After(later.prepared[b], later.prepared[a])
    {
      assert a != id ==> AdoptedPeriodic(e, a, n);
      assert b != id ==> AdoptedPeriodic(e, b, n);
    }
    forall a, b | AdoptedClosing(later, a) && AdoptedClosing(later, b) && SameDump(later.prepared[a], later.prepared[b]) ensures a == b {
      if a != id {
        assert AdoptedClosing(e, a) && ClosingHeld(s, e.prepared[a]);
      }
      if b != id {
        assert AdoptedClosing(e, b) && ClosingHeld(s, e.prepared[b]);
      }
    }
  }

  lemma AdoptFits(e: Env, d: Durable, m: Mode)
    requires Fit(e, d) && m in d.state.jobs && !d.state.jobs[m].done
    ensures Fit(e.(adopted := e.adopted + {d.state.jobs[m].requestId}), d)
  {
    hide LedgerOk, CountedOk;
    var id := d.state.jobs[m].requestId;
    var later := e.(adopted := e.adopted + {id});
    assert IsPrepared(e, m, d.state.jobs[m]);
    forall n | n in d.state.jobs ensures IsPrepared(later, n, d.state.jobs[n]) {
      assert IsPrepared(e, n, d.state.jobs[n]);
    }
    forall a | AdoptedClosing(later, a) ensures ClosingHeld(d.state, later.prepared[a]) {
      if a != id {
        assert AdoptedClosing(e, a);
      }
    }
    forall n ensures CandidateOk(later, d.state, n) {
      assert CandidateOk(e, d.state, n);
      forall a | AdoptedPeriodic(later, a, n) && a != id ensures AdoptedPeriodic(e, a, n) {
      }
    }
  }

  lemma AdoptWait(e: Env, s: State, m: Mode, key: Option<Key>, readyAt: int)
    requires WaitOk(e, s, key, readyAt) && Unfinished(e, s, m)
    requires key.Some? && key.value.mode == m && key.value.day == s.jobs[m].day
    ensures WaitOk(e.(adopted := e.adopted + {s.jobs[m].requestId}), s, key, readyAt)
  {
    var later := e.(adopted := e.adopted + {s.jobs[m].requestId});
    if readyAt != 0 {
      forall id, n | AdoptedPeriodic(later, id, n) && !Pending(s, key, id) ensures readyAt >= later.prepared[id].at + AUTO_DUMP_PERIOD_MS {
        assert AdoptedPeriodic(e, id, n);
      }
    }
  }

  /** A saved intent is adopted: it stands in its slot, in memory and on disk. */
  lemma AdoptKeeps(w: World, next: Durable, m: Mode)
    requires Invariant(w) && Fit(EnvOf(w), next) && OnDisk(next.state, next.state) && WaitOk(EnvOf(w), next.state, w.key, w.readyAt)
    requires m in next.state.jobs && !next.state.jobs[m].done && next.state == w.memory.state.(jobs := w.memory.state.jobs[m := next.state.jobs[m]])
    requires w.key.Some? && w.key.value.mode == m && w.key.value.day == next.state.jobs[m].day
    ensures Invariant(Save(w, next, Saved).(adopted := w.adopted + {next.state.jobs[m].requestId}))
  {
    hide OnDisk, BooksOk, WaitOk;
    var e := EnvOf(w);
    var id := next.state.jobs[m].requestId;
    assert IsPrepared(e, m, next.state.jobs[m]);
    assert CandidateOk(e, next.state, m);
    AdoptEnv(e, next.state, m);
    AdoptFits(e, next, m);
    AdoptWait(e, next.state, m, w.key, w.readyAt);
    assert EnvOf(Save(w, next, Saved).(adopted := w.adopted + {id})) == e.(adopted := e.adopted + {id});
    assert Ids(next.state) <= Ids(w.memory.state) + {id};
  }

  /** Taking up a slot found on disk; a finished one was adopted before. */
  function AdoptSlot(e: Env, s: State, m: Mode): Env {
    if m in s.jobs then e.(adopted := e.adopted + {s.jobs[m].requestId}) else e
  }

  lemma AdoptSlotKeeps(e: Env, d: Durable, m: Mode)
    requires EnvOk(e) && Fit(e, d)
    ensures EnvOk(AdoptSlot(e, d.state, m)) && Fit(AdoptSlot(e, d.state, m), d)
  {
    if m in d.state.jobs {
      assert IsPrepared(e, m, d.state.jobs[m]);
      if d.state.jobs[m].done {
        FinishedIsAdopted(e, d, m);
        assert AdoptSlot(e, d.state, m) == e;
      } else {
        assert CandidateOk(e, d.state, m);
        AdoptEnv(e, d.state, m);
        AdoptFits(e, d, m);
      }
    }
  }

  lemma FinishedIsAdopted(e: Env, d: Durable, m: Mode)
    requires EnvOk(e) && Fit(e, d) && m in d.state.jobs && d.state.jobs[m].done
    ensures e.adopted + {d.state.jobs[m].requestId} == e.adopted
  {
    hide LedgerOk;
    assert CountedOk(d, e.prepared, e.verdicts);
  }

  // ----- sending -----

  /** What goes out was adopted. */
  lemma SendKeeps(w: World, mode: Mode, closing: bool)
    requires Invariant(w) && Possible(w, Send(mode, closing))
    ensures Invariant(Next(w, Send(mode, closing)))
  {
    hide Fit, OnDisk, WaitOk, SpacingOk, OneClosing;
    var id := w.memory.state.jobs[mode].requestId;
    assert id in Ids(w.memory.state);
    var after := Next(w, Send(mode, closing));
    var e := EnvOf(w);
    assert EnvOf(after) == e.(sent := e.sent + {id});
    EnvLater(e, EnvOf(after));
    AdoptedArePrepared(e);
    WaitLater(e, EnvOf(after), w.memory.state, w.key, w.readyAt);
    MovesOn(w, after);
  }

  // ----- answers -----

  lemma DeliverKeeps(w: World, id: RequestId, verdict: Verdict)
    requires Invariant(w) && Possible(w, Deliver(id, verdict))
    ensures Invariant(Next(w, Deliver(id, verdict)))
  {
    hide Fit, WaitOk, OnDisk, SpacingOk, OneClosing;
    var after := Next(w, Deliver(id, verdict));
    var e := EnvOf(w);
    EnvLater(e, EnvOf(after));
    AdoptedArePrepared(e);
    WaitLater(e, EnvOf(after), w.memory.state, w.key, w.readyAt);
    MovesOn(w, after);
  }

  lemma CompleteKeeps(w: World, now: int, save: SaveOutcome)
    requires Invariant(w) && Possible(w, Complete(now, save))
    ensures Invariant(Next(w, Complete(now, save)))
  {
    hide EnvOk, Fit, OnDisk, WaitOk, Later, Completed;
    var e := EnvOf(w);
    var id := w.awaiting.value;
    AdoptedArePrepared(e);
    AnsweredIsPrepared(e, id);
    var p := w.prepared[id];
    var next := Completed(w.memory, p.mode, p.job, Amount(w.verdicts[id]));
    CompletedFits(e, w.memory, p.mode, p.job);
    FitKnown(e, w.memory);
    CompletedWait(e, w.memory, p.mode, p.job, Amount(w.verdicts[id]), w.key, w.readyAt, now);
    var quiet := w.(awaiting := None);
    assert EnvOf(quiet) == e;
    assert Invariant(quiet);
    if !save.Saved? {
      SaveUnadopted(quiet, next, save);
      RefusedPrepareKeeps(Save(quiet, next, save), now, w.readyAt);
      DelayKeeps(Save(quiet, next, save).(clock := now), now + RETRY_MS);
    } else if p.job.kind == Periodic {
      NoWait(e, w.memory.state, w.key);
      NoWait(e, next.state, w.key);
      assert EnvOf(quiet.(readyAt := 0)) == e;
      SaveKeeps(quiet.(readyAt := 0), next, save);
      PeriodRestarts(Save(quiet.(readyAt := 0), next, save), now);
    } else {
      SaveKeeps(quiet, next, save);
      RefusedPrepareKeeps(Save(quiet, next, save), now, Save(quiet, next, save).readyAt);
    }
  }

  lemma PeriodRestarts(w: World, now: int)
    requires Invariant(w) && now >= w.clock
    ensures Invariant(w.(readyAt := now + AUTO_DUMP_PERIOD_MS, clock := now))
  {
    hide EnvOk, Fit, OnDisk, WaitOk, Later;
    var e, after := EnvOf(w), w.(readyAt := now + AUTO_DUMP_PERIOD_MS, clock := now);
    ClockLater(e, now, w.today);
    AdoptedArePrepared(e);
    IntentsHold(EnvOf(after));
    FreshWait(EnvOf(after), w.memory.state, w.key, now + AUTO_DUMP_PERIOD_MS);
    MovesOn(w, after);
  }

  lemma FitKnown(e: Env, d: Durable)
    requires Fit(e, d)
    ensures JobsKnown(e, d.state)
  {
  }

  lemma MemoryKnown(w: World)
    requires Invariant(w)
    ensures JobsKnown(EnvOf(w), w.memory.state)
  {
    FitKnown(EnvOf(w), w.memory);
  }

  lemma SaveUnadopted(w: World, next: Durable, save: SaveOutcome)
    requires Invariant(w) && Fit(EnvOf(w), next) && OnDisk(next.state, w.memory.state) && !save.Saved?
    ensures Invariant(Save(w, next, save))
  {
    hide EnvOk, Fit, OnDisk, WaitOk;
    assert EnvOf(Save(w, next, save)) == EnvOf(w);
  }

  lemma AnsweredIsPrepared(e: Env, id: RequestId)
    requires EnvOk(e) && id in e.verdicts
    ensures id in e.prepared && IsPrepared(e, e.prepared[id].mode, e.prepared[id].job) && !e.prepared[id].job.done
    ensures e.prepared[id].job.requestId == id
  {
  }

  lemma CompletedWait(e: Env, d: Durable, m: Mode, job: Job, accepted: nat, key: Option<Key>, readyAt: int, now: int)
    requires EnvOk(e) && JobsKnown(e, d.state) && WaitOk(e, d.state, key, readyAt) && IsPrepared(e, m, job)
    ensures job.kind != Periodic ==> WaitOk(e, Completed(d, m, job, accepted).state, key, readyAt)
  {
    var after := Completed(d, m, job, accepted).state;
    if job.kind != Periodic && readyAt != 0 {
      forall id, n | AdoptedPeriodic(e, id, n) && !Pending(after, key, id) ensures readyAt >= e.prepared[id].at + AUTO_DUMP_PERIOD_MS {
        assert !Pending(d.state, key, id);
      }
    }
  }

  // ----- the remaining steps -----

  lemma ScheduleKeeps(w: World, key: Key, closing: bool, affordable: bool, now: int)
    requires Invariant(w) && now >= w.clock
    ensures Invariant(Scheduled(w, key, closing, affordable, now).(clock := now))
  {
    hide EnvOk, Fit, OnDisk, WaitOk, Later;
    var e := EnvOf(w);
    var after := Scheduled(w, key, closing, affordable, now).(clock := now);
    var later := e.(clock := now);
    ClockLater(e, now, w.today);
    AdoptedArePrepared(e);
    IntentsHold(later);
    WaitLater(e, later, w.memory.state, w.key, w.readyAt);
    if after.readyAt == 0 || after.readyAt == now + AUTO_DUMP_PERIOD_MS {
      FreshWait(later, w.memory.state, after.key, after.readyAt);
    }
    assert EnvOf(after) == later;
    MovesOn(w, after);
  }

  lemma PreferencesKeep(w: World, enabled: bool, direction: Direction, save: SaveOutcome)
    requires Invariant(w)
    ensures Invariant(Next(w, SetPreferences(enabled, direction, save)))
  {
    hide EnvOk, Fit, OnDisk;
    var next := Durable(w.memory.state.(enabled := enabled, direction := direction), w.memory.counted);
    PreferencesFit(EnvOf(w), w.memory, enabled, direction);
    SameJobsWait(EnvOf(w), w.memory.state, next.state, w.key, w.readyAt);
    SaveKeeps(w, next, save);
  }

  lemma SameJobsWait(e: Env, s: State, t: State, key: Option<Key>, readyAt: int)
    requires WaitOk(e, s, key, readyAt) && t.jobs == s.jobs
    ensures WaitOk(e, t, key, readyAt)
  {
    if readyAt != 0 {
      forall id, m | AdoptedPeriodic(e, id, m) && !Pending(t, key, id) ensures readyAt >= e.prepared[id].at + AUTO_DUMP_PERIOD_MS {
        assert !Pending(s, key, id);
      }
    }
  }

  lemma RestartKeeps(w: World)
    requires Invariant(w)
    ensures Invariant(Next(w, Restart))
  {
    hide EnvOk, Fit;
    var e, s := EnvOf(w), w.disk.state;
    AdoptSlotKeeps(e, w.disk, Online);
    AdoptSlotKeeps(AdoptSlot(e, s, Online), w.disk, LocalMode);
    TwoSlots(e, s);
    assert EnvOf(Next(w, Restart)) == AdoptSlot(AdoptSlot(e, s, Online), s, LocalMode);
  }

  lemma TwoSlots(e: Env, s: State)
    ensures AdoptSlot(AdoptSlot(e, s, Online), s, LocalMode) == e.(adopted := e.adopted + Ids(s))
  {
    forall id | id in Ids(s) ensures id in AdoptSlot(AdoptSlot(e, s, Online), s, LocalMode).adopted {
      var m :| m in s.jobs && s.jobs[m].requestId == id;
      assert m == Online || m == LocalMode;
    }
    assert AdoptSlot(AdoptSlot(e, s, Online), s, LocalMode).adopted == e.adopted + Ids(s);
  }

  lemma NewDayKeeps(w: World, day: Day)
    requires Invariant(w) && day >= w.today
    ensures Invariant(Next(w, NewDay(day)))
  {
    hide EnvOk, Fit, OnDisk, WaitOk, Later;
    var e := EnvOf(w);
    ClockLater(e, w.clock, day);
    AdoptedArePrepared(e);
    WaitLater(e, e.(today := day), w.memory.state, w.key, w.readyAt);
    assert EnvOf(Next(w, NewDay(day))) == e.(today := day);
    MovesOn(w, Next(w, NewDay(day)));
  }

  lemma StepKeepsInvariant(w: World, step: Step)
    requires Invariant(w) && Possible(w, step)
    ensures Invariant(Next(w, step))
  {
    match step
    case Schedule(mode, caseId, closing, affordable, now) => ScheduleKeeps(w, Key(mode, w.today, caseId), closing, affordable, now);
    case SwitchMode => NoWait(EnvOf(w), w.memory.state, None); SameEnv(w, w.(key := None, readyAt := 0));
    case Prepare(mode, caseId, id, closing, remaining, now, save) => PrepareKeeps(w, mode, caseId, id, closing, remaining, now, save);
    case Send(mode, closing) => SendKeeps(w, mode, closing);
    case Deliver(id, verdict) => DeliverKeeps(w, id, verdict);
    case Complete(now, save) => CompleteKeeps(w, now, save);
    case FailRun(now) =>
      SameEnv(w, w.(awaiting := None));
      RefusedPrepareKeeps(w.(awaiting := None), now, w.readyAt);
      DelayKeeps(w.(awaiting := None, clock := now), now + RETRY_MS);
    case SetPreferences(enabled, direction, save) => PreferencesKeep(w, enabled, direction, save);
    case NewDay(day) => NewDayKeeps(w, day);
    case Restart => RestartKeeps(w);
  }

  lemma SameEnv(w: World, after: World)
    requires Invariant(w) && after == w.(key := after.key, readyAt := after.readyAt, awaiting := after.awaiting)
    requires WaitOk(EnvOf(w), w.memory.state, after.key, after.readyAt) && (after.awaiting.Some? ==> after.awaiting == w.awaiting)
    ensures Invariant(after)
  {
    hide EnvOk, Fit, OnDisk, WaitOk;
    assert EnvOf(after) == EnvOf(w);
  }

  // ----- whole runs -----

  function Run(w: World, steps: seq<Step>): World
    decreases |steps|
  {
    if steps == [] then w else Run(Next(w, steps[0]), steps[1..])
  }

  predicate PossibleRun(w: World, steps: seq<Step>)
    decreases |steps|
  {
    steps == [] || (Possible(w, steps[0]) && PossibleRun(Next(w, steps[0]), steps[1..]))
  }

  lemma {:induction false} RunKeepsInvariant(w: World, steps: seq<Step>)
    requires Invariant(w) && PossibleRun(w, steps)
    ensures Invariant(Run(w, steps))
    decreases |steps|
  {
    hide Invariant, Next, Possible;
    if steps != [] {
      StepKeepsInvariant(w, steps[0]);
      RunKeepsInvariant(Next(w, steps[0]), steps[1..]);
    }
  }

  /** Intents, and answers to them, are never changed. */
  ghost predicate Remembers(w: World, after: World) {
    Grown(w.prepared, w.verdicts, after.prepared, after.verdicts) && w.sent <= after.sent && w.adopted <= after.adopted
  }

  lemma StepRemembers(w: World, step: Step)
    requires Possible(w, step)
    ensures Remembers(w, Next(w, step))
  {
    hide Completed, NewJob, MayPrepare, PeriodicReady;
  }

  lemma {:induction false} RunRemembers(w: World, steps: seq<Step>)
    requires PossibleRun(w, steps)
    ensures Remembers(w, Run(w, steps))
    decreases |steps|
  {
    hide Next, Possible;
    if steps != [] {
      StepRemembers(w, steps[0]);
      RunRemembers(Next(w, steps[0]), steps[1..]);
    }
  }

  /** The host's books at any moment of any run from any state that keeps the invariant - an empty store, or what an earlier
      process left in it - in memory and on disk alike: a mode's ledger is the sum of what the authority
      accepted for exactly the ids marked done, each once - and the authority never changes its answer to an id. */
  lemma ExactlyOnce(start: World, steps: seq<Step>, more: seq<Step>, m: Mode, onDisk: bool)
    requires Invariant(start) && PossibleRun(start, steps) && PossibleRun(Run(start, steps), more)
    ensures var w := Run(start, steps);
            var later := Run(w, more);
            var d := if onDisk then w.disk else w.memory;
            && Distinct(d.counted)
            && (m in d.state.jobs ==> (d.state.jobs[m].done <==> d.state.jobs[m].requestId in d.counted))
            && (forall id :: id in d.counted ==> id in w.sent && id in w.verdicts && id in later.verdicts && later.verdicts[id] == w.verdicts[id])
            && (m in d.state.incense ==>
                  && d.state.incense[m].lifetimeUp == Sum(d.counted, w.prepared, w.verdicts, OnMode(m, Up))
                  && d.state.incense[m].lifetimeDown == Sum(d.counted, w.prepared, w.verdicts, OnMode(m, Down)))
            && (m !in d.state.incense ==> forall id :: id in d.counted ==> id in w.prepared && w.prepared[id].mode != m)
  {
    hide Run, PossibleRun, Sum;
    RunKeepsInvariant(start, steps);
    var w := Run(start, steps);
    RunRemembers(w, more);
    assert LedgerOk(if onDisk then w.disk else w.memory, w.prepared, w.verdicts, m);
  }

  /** Over any run a mode adopts at most one closing id for a date, and two periodic intents it adopted were created at least
      ten minutes apart - through restarts, mode switches, new cases, lost replies and failed saves. Only adopted intents are
      sent. */
  lemma DumpsAreRationed(start: World, steps: seq<Step>, a: RequestId, b: RequestId)
    requires Invariant(start) && PossibleRun(start, steps)
    requires var w := Run(start, steps);
             a in w.adopted && b in w.adopted && a != b && (a in w.prepared && b in w.prepared ==> w.prepared[a].mode == w.prepared[b].mode)
    ensures var w := Run(start, steps);
            && a in w.prepared && b in w.prepared && w.sent <= w.adopted
            && var p, q := w.prepared[a], w.prepared[b];
            && (p.job.kind != Periodic && q.job.kind != Periodic ==> p.job.day != q.job.day)
            && (p.job.kind == Periodic && q.job.kind == Periodic ==>
                  p.at - q.at >= AUTO_DUMP_PERIOD_MS || q.at - p.at >= AUTO_DUMP_PERIOD_MS)
  {
    hide Run, PossibleRun, Fit, OnDisk, WaitOk, IntentsOk;
    RunKeepsInvariant(start, steps);
    var w := Run(start, steps);
    var e := EnvOf(w);
    assert EnvOk(e);
    if w.prepared[a].job.kind == Periodic && w.prepared[b].job.kind == Periodic {
      assert AdoptedPeriodic(e, a, w.prepared[a].mode) && AdoptedPeriodic(e, b, w.prepared[a].mode);
    } else if w.prepared[a].job.kind != Periodic && w.prepared[b].job.kind != Periodic {
      assert AdoptedClosing(e, a) && AdoptedClosing(e, b);
    }
  }

  /** Whatever is sent is on disk at that moment, under the same id and with the same case, direction, count and date. */
  lemma PersistedBeforeSent(w: World, mode: Mode, closing: bool)
    requires Invariant(w) && Possible(w, Send(mode, closing))
    ensures var job := w.memory.state.jobs[mode];
            mode in w.disk.state.jobs && w.disk.state.jobs[mode].(done := false) == job
  {
    hide BooksOk, ClosingsHeld, CandidatesOk, EnvOk, WaitOk;
    var e := EnvOf(w);
    assert IsPrepared(e, mode, w.memory.state.jobs[mode]);
    assert mode in w.disk.state.jobs && IsPrepared(e, mode, w.disk.state.jobs[mode]);
  }
}
