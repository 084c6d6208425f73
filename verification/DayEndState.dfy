/** The stored form of the timed-dump state, and the validator that reads it back. */
module DayEndState {
  import opened Common
  import opened Ledger
  import opened VoteBudget
  import opened TimedDump
  import opened TimedDumpSafety

  /** Stored values before validation: shapes are known, texts and numbers are not. */
  datatype RawJob = RawJob(day: Day, caseId: string, requestId: string, voteType: string, count: int, done: bool, kind: Option<string>)

  datatype RawLedger = RawLedger(day: Day, lifetimeUp: int, lifetimeDown: int, todayUp: int, todayDown: int)

  datatype Raw = Raw(enabled: bool, voteType: string, cadenceVersion: Option<int>, jobs: map<Mode, RawJob>, incense: Option<map<Mode, RawLedger>>)

  predicate VoteType(s: string) { s == "up" || s == "down" }

  predicate JobValid(j: RawJob) {
    && j.caseId != "" && WellFormedId(j.requestId) && VoteType(j.voteType) && 1 <= j.count <= VOTE_COUNT_MAX
    && (j.kind.Some? ==> j.kind.value == "periodic" || j.kind.value == "closing")
  }

  predicate LedgerValid(l: RawLedger) {
    && IsCount(l.lifetimeUp) && IsCount(l.lifetimeDown) && IsCount(l.todayUp) && IsCount(l.todayDown)
    && l.todayUp <= l.lifetimeUp && l.todayDown <= l.lifetimeDown
  }

  predicate Valid(raw: Raw) {
    && (raw.cadenceVersion.Some? ==> raw.cadenceVersion.value == 1) && VoteType(raw.voteType)
    && (forall m :: m in raw.jobs ==> JobValid(raw.jobs[m]))
    && (raw.incense.Some? ==> forall m :: m in raw.incense.value ==> LedgerValid(raw.incense.value[m]))
  }

  /** Automatic voting stays on only for a state of the current cadence. */
  function Normalized(raw: Raw): Raw {
    raw.(enabled := raw.cadenceVersion == Some(1) && raw.enabled, cadenceVersion := Some(1))
  }

  const MODES: seq<Mode> := [Online, LocalMode]

  /** `parseDayEndState`: preferences first, then the two slots, then the two ledgers, each copied once it is valid. */
  method ParseDayEndState(raw: Raw) returns (parsed: Option<Raw>)
    ensures parsed == if Valid(raw) then Some(Normalized(raw)) else None
    ensures parsed.Some? ==> parsed.value == raw.(enabled := parsed.value.enabled, cadenceVersion := Some(1))
    ensures parsed.Some? ==> (parsed.value.enabled <==> raw.enabled && raw.cadenceVersion == Some(1))
  {
    if (raw.cadenceVersion.Some? && raw.cadenceVersion.value != 1) || !VoteType(raw.voteType) { return None; }
    var jobs: map<Mode, RawJob> := map[];
    for k := 0 to |MODES|
      invariant forall m :: m in jobs <==> m in raw.jobs && m in MODES[..k]
      invariant forall m :: m in jobs ==> jobs[m] == raw.jobs[m] && JobValid(jobs[m])
    {
      if MODES[k] in raw.jobs {
        if !JobValid(raw.jobs[MODES[k]]) { return None; }
        jobs := jobs[MODES[k] := raw.jobs[MODES[k]]];
      }
    }
    AllModes(raw.jobs, jobs);
    var incense: map<Mode, RawLedger> := map[];
    if raw.incense.Some? {
      for k := 0 to |MODES|
        invariant forall m :: m in incense <==> m in raw.incense.value && m in MODES[..k]
        invariant forall m :: m in incense ==> incense[m] == raw.incense.value[m] && LedgerValid(incense[m])
      {
        if MODES[k] in raw.incense.value {
          if !LedgerValid(raw.incense.value[MODES[k]]) { return None; }
          incense := incense[MODES[k] := raw.incense.value[MODES[k]]];
        }
      }
      AllModes(raw.incense.value, incense);
    }
    parsed := Some(Raw(raw.cadenceVersion == Some(1) && raw.enabled, raw.voteType, Some(1), jobs,
                       if raw.incense.Some? then Some(incense) else None));
  }

  lemma AllModes<T>(raw: map<Mode, T>, copied: map<Mode, T>)
    requires forall m :: m in copied <==> m in raw && m in MODES[..|MODES|]
    requires forall m :: m in copied ==> copied[m] == raw[m]
    ensures copied == raw
  {
    forall m: Mode ensures m in MODES[..|MODES|] {
      assert MODES[0] == Online && MODES[1] == LocalMode;
      match m
      case Online => assert MODES[..|MODES|][0] == m;
      case LocalMode => assert MODES[..|MODES|][1] == m;
    }
  }

  // ----- writing -----

  function PrintDirection(d: Direction): string { if d == Up then "up" else "down" }

  function PrintKind(k: Kind): Option<string> {
    match k
    case Periodic => Some("periodic")
    case Closing => Some("closing")
    case LegacyClosing => None
  }

  function PrintJob(j: Job): RawJob {
    RawJob(j.day, j.caseId, j.requestId, PrintDirection(j.direction), j.count, j.done, PrintKind(j.kind))
  }

  function PrintLedger(l: TimedLedger): RawLedger { RawLedger(l.day, l.lifetimeUp, l.lifetimeDown, l.todayUp, l.todayDown) }

  function Print(s: State): Raw {
    Raw(s.enabled, PrintDirection(s.direction), Some(1), map m | m in s.jobs :: PrintJob(s.jobs[m]),
        if s.incense == map[] then None else Some(map m | m in s.incense :: PrintLedger(s.incense[m])))
  }

  predicate SafeLedgers(s: State) {
    forall m :: m in s.incense ==> IsCount(s.incense[m].lifetimeUp) && IsCount(s.incense[m].lifetimeDown)
  }

  lemma {:induction false} DaySumWithinLife(counted: seq<RequestId>, prepared: Intents, verdicts: Verdicts, m: Mode, direction: Direction, day: Day)
    ensures Sum(counted, prepared, verdicts, OnModeAndDay(m, direction, day)) <= Sum(counted, prepared, verdicts, OnMode(m, direction))
  {
    if counted != [] {
      DaySumWithinLife(counted[..|counted| - 1], prepared, verdicts, m, direction, day);
    }
  }

  lemma JobPasses(e: Env, s: State, m: Mode)
    requires JobsKnown(e, s) && IntentsOk(e.prepared, e.today, e.clock) && m in s.jobs
    ensures JobValid(PrintJob(s.jobs[m]))
  {
    assert IsPrepared(e, m, s.jobs[m]);
  }

  lemma LedgerPasses(e: Env, d: Durable, m: Mode)
    requires BooksOk(e, d) && m in d.state.incense
    ensures LedgerValid(PrintLedger(d.state.incense[m]))
       <==> IsCount(d.state.incense[m].lifetimeUp) && IsCount(d.state.incense[m].lifetimeDown)
  {
    hide CountedOk, Sum;
    assert LedgerOk(d, e.prepared, e.verdicts, m);
    DaySumWithinLife(d.counted, e.prepared, e.verdicts, m, Up, d.state.incense[m].day);
    DaySumWithinLife(d.counted, e.prepared, e.verdicts, m, Down, d.state.incense[m].day);
  }

  /** Every state the service holds or stores, in any run, is read back as the same state exactly when its lifetime counts are
      safe integers. */
  lemma StoredIsReread(w: World, onDisk: bool)
    requires Invariant(w)
    ensures var s := (if onDisk then w.disk else w.memory).state;
            && Normalized(Print(s)) == Print(s)
            && (Valid(Print(s)) <==> SafeLedgers(s))
  {
    hide EnvOk, BooksOk, ClosingsHeld, CandidatesOk, WaitOk, OnDisk, PrintJob, PrintLedger, JobValid, LedgerValid, IsCount, WellFormedId, JobsKnown;
    var d := if onDisk then w.disk else w.memory;
    var e := EnvOf(w);
    IntentsHold(e);
    forall m | m in d.state.jobs ensures JobValid(PrintJob(d.state.jobs[m])) {
      JobPasses(e, d.state, m);
    }
    forall m | m in d.state.incense
      ensures LedgerValid(PrintLedger(d.state.incense[m]))
         <==> IsCount(d.state.incense[m].lifetimeUp) && IsCount(d.state.incense[m].lifetimeDown)
    {
      LedgerPasses(e, d, m);
    }
    PrintedLedgers(d.state);
  }

  lemma PrintedLedgers(s: State)
    ensures var raw := Print(s);
            && (forall m :: m in s.incense ==> raw.incense.Some? && m in raw.incense.value && raw.incense.value[m] == PrintLedger(s.incense[m]))
            && (raw.incense.Some? ==> raw.incense.value.Keys == s.incense.Keys)
  {
    hide PrintJob, PrintLedger;
    if s.incense != map[] {
      assert exists m :: m in s.incense;
    }
  }

  /** Printing loses nothing. */
  lemma PrintIsInjective(s: State, t: State)
    requires Print(s) == Print(t)
    ensures s == t
  {
    hide PrintDirection, PrintKind;
    SameText(s.direction, t.direction);
    assert Print(s).jobs.Keys == s.jobs.Keys && Print(t).jobs.Keys == t.jobs.Keys;
    forall m | m in s.jobs ensures m in t.jobs && s.jobs[m] == t.jobs[m] {
      assert Print(s).jobs[m] == PrintJob(s.jobs[m]) && Print(t).jobs[m] == PrintJob(t.jobs[m]);
      SameText(s.jobs[m].direction, t.jobs[m].direction);
      SameKind(s.jobs[m].kind, t.jobs[m].kind);
    }
    PrintedLedgers(s);
    PrintedLedgers(t);
    forall m | m in s.incense ensures m in t.incense && s.incense[m] == t.incense[m] {
    }
    forall m | m in t.incense ensures m in s.incense {
    }
    assert s.jobs == t.jobs;
    assert s.incense == t.incense;
  }

  lemma SameText(a: Direction, b: Direction)
    requires PrintDirection(a) == PrintDirection(b)
    ensures a == b
  {
    assert |PrintDirection(Up)| != |PrintDirection(Down)|;
  }

  lemma SameKind(a: Kind, b: Kind)
    requires PrintKind(a) == PrintKind(b)
    ensures a == b
  {
    assert |PrintKind(Periodic).value| != |PrintKind(Closing).value|;
  }

  // ----- reading -----

  function ReadJob(j: RawJob): Job
    requires JobValid(j)
  {
    Job(j.day, j.caseId, j.requestId, if j.voteType == "up" then Up else Down, j.count, j.done,
        if j.kind.None? then LegacyClosing else if j.kind.value == "periodic" then Periodic else Closing)
  }

  function ReadLedger(l: RawLedger): TimedLedger
    requires LedgerValid(l)
  {
    TimedLedger(l.day, l.lifetimeUp, l.lifetimeDown, l.todayUp, l.todayDown)
  }

  function Read(raw: Raw): State
    requires Valid(raw)
  {
    State(raw.enabled, if raw.voteType == "up" then Up else Down, map m | m in raw.jobs :: ReadJob(raw.jobs[m]),
          if raw.incense.None? then map[] else map m | m in raw.incense.value :: ReadLedger(raw.incense.value[m]))
  }

  /** A state whose jobs could be sent and whose ledgers could have been counted. */
  predicate Storable(s: State) {
    && (forall m :: m in s.jobs ==>
          s.jobs[m].caseId != "" && WellFormedId(s.jobs[m].requestId) && 1 <= s.jobs[m].count <= 500)
    && (forall m :: m in s.incense ==>
          var l := s.incense[m];
          l.todayUp <= l.lifetimeUp <= MAX_SAFE_INTEGER && l.todayDown <= l.lifetimeDown <= MAX_SAFE_INTEGER)
  }

  /** The same stored form; an empty ledger map says no more than none. */
  predicate SameStored(a: Raw, b: Raw) {
    a == b || (a.incense == Some(map[]) && a.(incense := None) == b)
  }

  /** Some storable state is stored like this. */
  ghost predicate IsStored(raw: Raw) {
    exists s :: Storable(s) && SameStored(raw, Print(s))
  }

  /** The validator accepts exactly what, brought to the current cadence, is the stored form of a storable state. */
  lemma AcceptedExactly(raw: Raw)
    ensures Valid(raw) <==> (raw.cadenceVersion == None || raw.cadenceVersion == Some(1)) && IsStored(Normalized(raw))
  {
    if Valid(raw) {
      ReadIsStorable(Normalized(raw));
      ReadPrints(Normalized(raw));
    }
    if s :| Storable(s) && SameStored(Normalized(raw), Print(s)) {
      StorableIsValid(s);
    }
  }

  lemma ReadIsStorable(raw: Raw)
    requires Valid(raw)
    ensures Storable(Read(raw))
  {
    hide WellFormedId;
  }

  lemma ReadPrints(raw: Raw)
    requires Valid(raw) && raw.cadenceVersion == Some(1)
    ensures SameStored(raw, Print(Read(raw)))
  {
    hide WellFormedId;
    forall m | m in raw.jobs ensures PrintJob(ReadJob(raw.jobs[m])) == raw.jobs[m] {
      assert JobValid(raw.jobs[m]);
    }
    assert Print(Read(raw)).jobs == raw.jobs;
    if raw.incense.Some? && raw.incense.value != map[] {
      var m :| m in raw.incense.value;
      assert m in Read(raw).incense;
      assert Print(Read(raw)).incense.value == raw.incense.value;
    }
  }

  lemma StorableIsValid(s: State)
    requires Storable(s)
    ensures Valid(Print(s))
  {
    hide WellFormedId;
    PrintedLedgers(s);
  }
}
