/** Settled-request crediting: one durable cursor per session, exact weighted day totals. */
module UsageLedger {
  import opened Common
  import opened Arithmetic
  import opened IncenseWeight

  /** Persisted per-session mark. The cursor and its fence exist together; offsets only compare within one format. */
  datatype Watermark = Watermark(
    inputHwm: nat, outputHwm: nat,
    settledOffset: Option<nat>, baselineOffset: Option<nat>, sessionFormat: Option<nat>)

  datatype DailyUsage = DailyUsage(inputTokens: nat, outputTokens: nat, weightCarry: nat)

  const EMPTY_DAILY_USAGE := DailyUsage(0, 0, 0)

  datatype Request = Request(
    startOffset: nat, endOffset: nat, endedAt: int, model: string, inputTokens: nat, outputTokens: nat)

  datatype Batch = Batch(sessionFormat: Option<nat>, throughOffset: nat, requests: seq<Request>)

  datatype Origin = Live(firstLiveSeq: nat) | Catchup

  function Or(o: Option<nat>, default: nat): nat {
    if o.Some? then o.value else default
  }

  function Format(mark: Watermark): nat { Or(mark.sessionFormat, 0) }

  /** What the batch validator admits: requests in strictly rising end offsets, none past the batch's end. */
  predicate WellFormedBatch(batch: Batch) {
    && (forall i :: 0 <= i < |batch.requests| ==>
          batch.requests[i].startOffset <= batch.requests[i].endOffset <= batch.throughOffset && batch.requests[i].endOffset > 0)
    && (forall i, j :: 0 <= i < j < |batch.requests| ==> batch.requests[i].endOffset < batch.requests[j].endOffset)
  }

  // ----- merging marks -----

  function MaxOffset(a: Option<nat>, b: Option<nat>): Option<nat> {
    if a.None? then b else if b.None? then a else Some(Max(a.value, b.value))
  }

  function MinOffset(a: Option<nat>, b: Option<nat>): Option<nat> {
    if a.None? then b else if b.None? then a else Some(Min(a.value, b.value))
  }

  /** Only marks of the newest format have a say about the cursor. */
  function Cursor(mark: Watermark, format: nat): Option<nat> {
    if mark.settledOffset.Some? && Format(mark) == format then mark.settledOffset else None
  }

  function Fence(mark: Watermark, format: nat): Option<nat> {
    if mark.settledOffset.Some? && Format(mark) == format then Some(Or(mark.baselineOffset, 0)) else None
  }

  function MergeWatermark(left: Watermark, right: Watermark): Watermark {
    var format := Max(Format(left), Format(right));
    var settled := MaxOffset(Cursor(left, format), Cursor(right, format));
    Watermark(
      Max(left.inputHwm, right.inputHwm), Max(left.outputHwm, right.outputHwm),
      settled,
      MinOffset(Fence(left, format), Fence(right, format)),
      if settled.None? || format == 0 then None else Some(format))
  }

  /** Cursor and fence together, a format only beside a cursor, and format 0 written as absent. */
  predicate WellFormedMark(mark: Watermark) {
    && (mark.settledOffset.Some? <==> mark.baselineOffset.Some?)
    && (mark.sessionFormat.Some? ==> mark.settledOffset.Some? && mark.sessionFormat.value > 0)
  }

  /** On well-formed marks the merge is a semilattice, and well-formed is exactly what idempotence needs. */
  lemma MergeIsSemilattice(a: Watermark, b: Watermark, c: Watermark)
    ensures WellFormedMark(MergeWatermark(a, b))
    ensures MergeWatermark(a, b) == MergeWatermark(b, a)
    ensures MergeWatermark(a, a) == a <==> WellFormedMark(a)
    ensures WellFormedMark(a) && WellFormedMark(b) && WellFormedMark(c) ==>
              MergeWatermark(MergeWatermark(a, b), c) == MergeWatermark(a, MergeWatermark(b, c))
  {
  }

  /** Does a mark have a cursor of that format? */
  predicate Speaks(mark: Watermark, format: nat) {
    mark.settledOffset.Some? && Format(mark) == format
  }

  /** No high-water mark falls, and among the cursors of the newest format the furthest is kept, with the lowest fence; marks of
      older formats have no say, and without a cursor of the newest one there is none. */
  lemma MergeTakes(a: Watermark, b: Watermark)
    ensures var m, newest := MergeWatermark(a, b), Max(Format(a), Format(b));
            && a.inputHwm <= m.inputHwm && b.inputHwm <= m.inputHwm && (m.inputHwm == a.inputHwm || m.inputHwm == b.inputHwm)
            && a.outputHwm <= m.outputHwm && b.outputHwm <= m.outputHwm && (m.outputHwm == a.outputHwm || m.outputHwm == b.outputHwm)
            && (m.settledOffset.Some? <==> Speaks(a, newest) || Speaks(b, newest))
            && (m.settledOffset.None? ==> m == Watermark(m.inputHwm, m.outputHwm, None, None, None))
            && (m.settledOffset.Some? ==>
                  && m.baselineOffset.Some? && Format(m) == newest
                  && (forall x :: x in {a, b} && Speaks(x, newest) ==>
                        x.settledOffset.value <= m.settledOffset.value && m.baselineOffset.value <= Or(x.baselineOffset, 0))
                  && (exists x :: x in {a, b} && Speaks(x, newest) && x.settledOffset == m.settledOffset)
                  && (exists x :: x in {a, b} && Speaks(x, newest) && m.baselineOffset.value == Or(x.baselineOffset, 0)))
  {
    var m, newest := MergeWatermark(a, b), Max(Format(a), Format(b));
    if m.settledOffset.Some? {
      assert (Speaks(a, newest) && a.settledOffset == m.settledOffset) || (Speaks(b, newest) && b.settledOffset == m.settledOffset);
      assert (Speaks(a, newest) && m.baselineOffset.value == Or(a.baselineOffset, 0))
             || (Speaks(b, newest) && m.baselineOffset.value == Or(b.baselineOffset, 0));
    }
  }

  // ----- crediting -----

  function Credit(record: DailyUsage, deltaInput: nat, deltaOutput: nat, model: string): (r: DailyUsage)
  {
    var s := ScaleTokens(deltaInput + deltaOutput, WeightForModel(model), record.weightCarry);
    var split := SplitScaled(s.scaled, deltaInput, deltaOutput);
    SplitAddsUp(s.scaled, deltaInput, deltaOutput);
    DailyUsage(record.inputTokens + split.input, record.outputTokens + split.output, s.carry)
  }

  /** A day's worth in ten-thousandths of a token: what is credited plus what is carried. */
  function Worth(record: DailyUsage): nat {
    SCALE * (record.inputTokens + record.outputTokens) + record.weightCarry
  }

  function RequestWorth(r: Request): nat {
    (r.inputTokens + r.outputTokens) * WeightForModel(r.model)
  }

  function CreditRequest(record: DailyUsage, r: Request): DailyUsage {
    Credit(record, r.inputTokens, r.outputTokens, r.model)
  }

  /** Input gets its share of what a request gains, rounded down, and output the rest. */
  predicate InputShare(input: int, gained: int, r: Request) {
    var raw := r.inputTokens + r.outputTokens;
    input * raw <= gained * r.inputTokens && (raw > 0 ==> gained * r.inputTokens < (input + 1) * raw)
  }

  /** One request adds exactly its weighted size and leaves less than one token in the carry; from a carry below one
      token it never credits more tokens than the request used. */
  lemma CreditIsExact(record: DailyUsage, r: Request)
    requires record.weightCarry < SCALE || r.inputTokens + r.outputTokens > 0
    ensures var after := CreditRequest(record, r);
            && Worth(after) == Worth(record) + RequestWorth(r)
            && after.weightCarry < SCALE
            && after.inputTokens >= record.inputTokens && after.outputTokens >= record.outputTokens
            && (record.weightCarry < SCALE ==>
                  after.inputTokens + after.outputTokens
                  <= record.inputTokens + record.outputTokens + r.inputTokens + r.outputTokens)
            && var gained := after.inputTokens + after.outputTokens - record.inputTokens - record.outputTokens;
               InputShare(after.inputTokens - record.inputTokens, gained, r)
  {
    var raw := r.inputTokens + r.outputTokens;
    var s := ScaleTokens(raw, WeightForModel(r.model), record.weightCarry);
    ScaleIsExact(raw, WeightForModel(r.model), record.weightCarry);
    if record.weightCarry < SCALE {
      NeverAboveRaw(raw, WeightForModel(r.model), record.weightCarry);
    }
    SplitAddsUp(s.scaled, r.inputTokens, r.outputTokens);
  }

  function CreditAll(record: DailyUsage, requests: seq<Request>): DailyUsage
    decreases |requests|
  {
    if requests == [] then record
    else CreditRequest(CreditAll(record, requests[..|requests| - 1]), requests[|requests| - 1])
  }

  function TotalWorth(requests: seq<Request>): nat {
    if requests == [] then 0 else TotalWorth(requests[..|requests| - 1]) + RequestWorth(requests[|requests| - 1])
  }

  lemma {:induction false} CreditAllIsExact(record: DailyUsage, requests: seq<Request>)
    requires record.weightCarry < SCALE
    ensures var after := CreditAll(record, requests);
            Worth(after) == Worth(record) + TotalWorth(requests) && after.weightCarry < SCALE
    decreases |requests|
  {
    if requests != [] {
      var front := requests[..|requests| - 1];
      CreditAllIsExact(record, front);
      CreditIsExact(CreditAll(record, front), requests[|requests| - 1]);
    }
  }

  lemma {:induction false} TotalWorthRemove(requests: seq<Request>, i: nat)
    requires i < |requests|
    ensures TotalWorth(requests) == TotalWorth(requests[..i] + requests[i + 1..]) + RequestWorth(requests[i])
    decreases |requests|
  {
    var n := |requests| - 1;
    if i == n {
      assert requests[..i] + requests[i + 1..] == requests[..n];
    } else {
      TotalWorthRemove(requests[..n], i);
      var without := requests[..i] + requests[i + 1..];
      assert without[..n - 1] == requests[..n][..i] + requests[..n][i + 1..];
      assert without[n - 1] == requests[n];
    }
  }

  lemma {:induction false} TotalWorthIgnoresOrder(a: seq<Request>, b: seq<Request>)
    requires multiset(a) == multiset(b)
    ensures TotalWorth(a) == TotalWorth(b)
    decreases |a|
  {
    if a == [] {
      assert b == [] by { assert |multiset(b)| == |b|; }
    } else {
      var i := MatchLast(a, b);
      TotalWorthIgnoresOrder(a[..|a| - 1], b[..i] + b[i + 1..]);
      TotalWorthRemove(b, i);
    }
  }

  lemma MatchLast(a: seq<Request>, b: seq<Request>) returns (i: nat)
    requires a != [] && multiset(a) == multiset(b)
    ensures i < |b| && b[i] == a[|a| - 1]
    ensures multiset(a[..|a| - 1]) == multiset(b[..i] + b[i + 1..])
  {
    var last := a[|a| - 1];
    assert last in multiset(a);
    assert last in b;
    i :| 0 <= i < |b| && b[i] == last;
    RemovesOne(a, |a| - 1);
    RemovesOne(b, i);
    assert a[..|a| - 1] + a[|a| - 1 + 1..] == a[..|a| - 1];
  }

  lemma RemovesOne(a: seq<Request>, i: nat)
    requires i < |a|
    ensures multiset(a[..i] + a[i + 1..]) == multiset(a) - multiset{a[i]}
  {
    assert a == a[..i] + [a[i]] + a[i + 1..];
  }

  /** A fresh day holds the floor of the weighted sum of everything credited to it, in whatever order it arrived. */
  lemma DayTotalIsFloorOfSum(a: seq<Request>, b: seq<Request>)
    requires multiset(a) == multiset(b)
    ensures var day := CreditAll(EMPTY_DAILY_USAGE, a);
            && day.inputTokens + day.outputTokens == TotalWorth(a) / SCALE
            && day.weightCarry == TotalWorth(a) % SCALE
    ensures var x, y := CreditAll(EMPTY_DAILY_USAGE, a), CreditAll(EMPTY_DAILY_USAGE, b);
            x.inputTokens + x.outputTokens == y.inputTokens + y.outputTokens && x.weightCarry == y.weightCarry
  {
    CreditAllIsExact(EMPTY_DAILY_USAGE, a);
    CreditAllIsExact(EMPTY_DAILY_USAGE, b);
    TotalWorthIgnoresOrder(a, b);
    FloorAndRest(CreditAll(EMPTY_DAILY_USAGE, a), TotalWorth(a));
    FloorAndRest(CreditAll(EMPTY_DAILY_USAGE, b), TotalWorth(b));
  }

  lemma FloorAndRest(day: DailyUsage, worth: nat)
    requires Worth(day) == worth && day.weightCarry < SCALE
    ensures day.inputTokens + day.outputTokens == worth / SCALE && day.weightCarry == worth % SCALE
  {
  }

  // ----- settling batches -----

  predicate FormatChanged(previous: Option<Watermark>, batch: Batch) {
    previous.Some? && Format(previous.value) != Or(batch.sessionFormat, 0)
  }

  /** Requests that started at or below this offset are history and are never credited. */
  function FenceOf(previous: Option<Watermark>, batch: Batch, origin: Origin): nat {
    if FormatChanged(previous, batch) then batch.throughOffset
    else if previous.Some? && previous.value.baselineOffset.Some? then previous.value.baselineOffset.value
    else if previous.Some? || origin.Catchup? then batch.throughOffset
    else origin.firstLiveSeq
  }

  /** Requests that ended at or below this offset are settled already. */
  function CursorOf(previous: Option<Watermark>, batch: Batch, origin: Origin): nat {
    if !FormatChanged(previous, batch) && previous.Some? && previous.value.settledOffset.Some?
    then previous.value.settledOffset.value
    else FenceOf(previous, batch, origin)
  }

  predicate Creditable(r: Request, previous: Option<Watermark>, batch: Batch, origin: Origin, date: string, dateOf: int -> string) {
    && r.endOffset > CursorOf(previous, batch, origin)
    && r.startOffset > FenceOf(previous, batch, origin)
    && (origin.Catchup? ==> dateOf(r.endedAt) == date)
  }

  /** The first n requests of a batch that are credited, in order. */
  function Credited(previous: Option<Watermark>, batch: Batch, origin: Origin, date: string, dateOf: int -> string, n: nat): (credited: seq<Request>)
    requires n <= |batch.requests|
    ensures forall r :: r in credited ==>
              r in batch.requests[..n] && Creditable(r, previous, batch, origin, date, dateOf)
    ensures forall r :: r in batch.requests[..n] && Creditable(r, previous, batch, origin, date, dateOf) ==> r in credited
  {
    if n == 0 then []
    else
      var r := batch.requests[n - 1];
      var before := Credited(previous, batch, origin, date, dateOf, n - 1);
      assert batch.requests[..n] == batch.requests[..n - 1] + [r];
      if Creditable(r, previous, batch, origin, date, dateOf) then before + [r] else before
  }

  function AllCredited(previous: Option<Watermark>, batch: Batch, origin: Origin, date: string, dateOf: int -> string): seq<Request> {
    Credited(previous, batch, origin, date, dateOf, |batch.requests|)
  }

  function SumInput(requests: seq<Request>): nat {
    if requests == [] then 0 else SumInput(requests[..|requests| - 1]) + requests[|requests| - 1].inputTokens
  }

  function SumOutput(requests: seq<Request>): nat {
    if requests == [] then 0 else SumOutput(requests[..|requests| - 1]) + requests[|requests| - 1].outputTokens
  }

  function SettledMark(previous: Option<Watermark>, batch: Batch, origin: Origin, date: string, dateOf: int -> string): Watermark {
    var credited := AllCredited(previous, batch, origin, date, dateOf);
    Watermark(
      (if previous.Some? then previous.value.inputHwm else 0) + SumInput(credited),
      (if previous.Some? then previous.value.outputHwm else 0) + SumOutput(credited),
      Some(Max(CursorOf(previous, batch, origin), batch.throughOffset)),
      Some(FenceOf(previous, batch, origin)),
      batch.sessionFormat)
  }

  lemma EmptyStart(previous: Option<Watermark>, record: DailyUsage, batch: Batch, origin: Origin, date: string, dateOf: int -> string)
    ensures Credited(previous, batch, origin, date, dateOf, 0) == []
    ensures CreditAll(record, []) == record && SumInput([]) == 0 && SumOutput([]) == 0
  {
  }

  lemma NextRequest(previous: Option<Watermark>, batch: Batch, origin: Origin, date: string, dateOf: int -> string, n: nat)
    requires n < |batch.requests|
    ensures Credited(previous, batch, origin, date, dateOf, n + 1)
         == Credited(previous, batch, origin, date, dateOf, n)
            + (if Creditable(batch.requests[n], previous, batch, origin, date, dateOf) then [batch.requests[n]] else [])
  {
  }

  lemma ExtendByOne(record: DailyUsage, credited: seq<Request>, r: Request)
    ensures CreditAll(record, credited + [r]) == CreditRequest(CreditAll(record, credited), r)
    ensures SumInput(credited + [r]) == SumInput(credited) + r.inputTokens
    ensures SumOutput(credited + [r]) == SumOutput(credited) + r.outputTokens
  {
    assert (credited + [r])[..|credited|] == credited;
  }

  /** The requests of a batch that end past a cursor and start past a fence, in order. */
  function Past(requests: seq<Request>, cursor: nat, fence: nat): seq<Request> {
    if requests == [] then []
    else
      var r := requests[|requests| - 1];
      Past(requests[..|requests| - 1], cursor, fence) + (if r.endOffset > cursor && r.startOffset > fence then [r] else [])
  }

  /** Those of them that ended on a date. */
  function EndedOn(requests: seq<Request>, date: string, dateOf: int -> string): seq<Request> {
    if requests == [] then []
    else
      var r := requests[|requests| - 1];
      EndedOn(requests[..|requests| - 1], date, dateOf) + (if dateOf(r.endedAt) == date then [r] else [])
  }

  /** Where a batch goes on from: the mark's cursor in an unchanged format, otherwise the fence it sets. */
  function StartsFrom(previous: Option<Watermark>, batch: Batch, fence: nat): nat {
    if previous.Some? && previous.value.settledOffset.Some? && Format(previous.value) == Or(batch.sessionFormat, 0)
    then previous.value.settledOffset.value else fence
  }

  /** What a batch credits: past cursor and fence, and after a catch-up only what ended on the date. */
  function Due(previous: Option<Watermark>, batch: Batch, origin: Origin, date: string, dateOf: int -> string, fence: nat): seq<Request> {
    var ahead := Past(batch.requests, StartsFrom(previous, batch, fence), fence);
    if origin.Catchup? then EndedOn(ahead, date, dateOf) else ahead
  }

  lemma {:induction false} CreditedAreDue(previous: Option<Watermark>, batch: Batch, origin: Origin, date: string, dateOf: int -> string, n: nat)
    requires n <= |batch.requests|
    ensures var ahead := Past(batch.requests[..n], CursorOf(previous, batch, origin), FenceOf(previous, batch, origin));
            Credited(previous, batch, origin, date, dateOf, n) == if origin.Catchup? then EndedOn(ahead, date, dateOf) else ahead
  {
    hide CursorOf, FenceOf, Past, EndedOn, Credited;
    var cursor, fence := CursorOf(previous, batch, origin), FenceOf(previous, batch, origin);
    if n == 0 {
      NothingDue(cursor, fence, date, dateOf);
      EmptyStart(previous, EMPTY_DAILY_USAGE, batch, origin, date, dateOf);
    } else {
      var r := batch.requests[n - 1];
      assert batch.requests[..n] == batch.requests[..n - 1] + [r];
      CreditedAreDue(previous, batch, origin, date, dateOf, n - 1);
      NextRequest(previous, batch, origin, date, dateOf, n - 1);
      var before := Past(batch.requests[..n - 1], cursor, fence);
      OneMoreDue(batch.requests[..n - 1], r, cursor, fence);
      OneMoreEnded(before, r, date, dateOf);
      assert before + [] == before && EndedOn(before, date, dateOf) + [] == EndedOn(before, date, dateOf);
    }
  }

  lemma NothingDue(cursor: nat, fence: nat, date: string, dateOf: int -> string)
    ensures Past([], cursor, fence) == [] && EndedOn([], date, dateOf) == []
  {
  }

  lemma OneMoreDue(requests: seq<Request>, r: Request, cursor: nat, fence: nat)
    ensures Past(requests + [r], cursor, fence)
         == Past(requests, cursor, fence) + (if r.endOffset > cursor && r.startOffset > fence then [r] else [])
  {
    assert (requests + [r])[..|requests|] == requests;
  }

  lemma OneMoreEnded(requests: seq<Request>, r: Request, date: string, dateOf: int -> string)
    ensures EndedOn(requests + [r], date, dateOf) == EndedOn(requests, date, dateOf) + (if dateOf(r.endedAt) == date then [r] else [])
  {
    assert (requests + [r])[..|requests|] == requests;
  }

  /** The fence a batch leaves: the one it found in its format, the first live offset without a mark, otherwise its own end. */
  predicate FenceIs(previous: Option<Watermark>, batch: Batch, origin: Origin, fence: nat) {
    if previous.None? then fence == (if origin.Live? then origin.firstLiveSeq else batch.throughOffset)
    else if Format(previous.value) == Or(batch.sessionFormat, 0) && previous.value.baselineOffset.Some?
    then fence == previous.value.baselineOffset.value
    else fence == batch.throughOffset
  }

  /** Everything a batch does, stated on the requests themselves: the marks rise by the tokens of what is due, the cursor to the end
      of the batch, and the day's worth by the weighted size of what is due. */
  lemma SettlesExactly(previous: Option<Watermark>, record: DailyUsage, batch: Batch, origin: Origin, date: string, dateOf: int -> string)
    ensures var after := SettledMark(previous, batch, origin, date, dateOf);
            && after.baselineOffset.Some? && FenceIs(previous, batch, origin, after.baselineOffset.value)
            && var due := Due(previous, batch, origin, date, dateOf, after.baselineOffset.value);
            && AllCredited(previous, batch, origin, date, dateOf) == due
            && after.inputHwm == (if previous.Some? then previous.value.inputHwm else 0) + SumInput(due)
            && after.outputHwm == (if previous.Some? then previous.value.outputHwm else 0) + SumOutput(due)
            && after.settledOffset == Some(Max(StartsFrom(previous, batch, after.baselineOffset.value), batch.throughOffset))
            && after.sessionFormat == batch.sessionFormat
            && (record.weightCarry < SCALE ==>
                  Worth(CreditAll(record, AllCredited(previous, batch, origin, date, dateOf))) == Worth(record) + TotalWorth(due))
  {
    hide Credited, CreditAll, Past, EndedOn;
    CreditedAreDue(previous, batch, origin, date, dateOf, |batch.requests|);
    assert batch.requests[..|batch.requests|] == batch.requests;
    if record.weightCarry < SCALE {
      CreditAllIsExact(record, AllCredited(previous, batch, origin, date, dateOf));
    }
  }

  method CreditSettledUsageBatch(previous: Option<Watermark>, record: DailyUsage, batch: Batch, origin: Origin,
                                 date: string, dateOf: int -> string)
    returns (watermark: Watermark, updated: DailyUsage)
    ensures watermark == SettledMark(previous, batch, origin, date, dateOf)
    ensures updated == CreditAll(record, AllCredited(previous, batch, origin, date, dateOf))
    ensures watermark.baselineOffset.Some? && FenceIs(previous, batch, origin, watermark.baselineOffset.value)
    ensures var due := Due(previous, batch, origin, date, dateOf, watermark.baselineOffset.value);
            record.weightCarry < SCALE ==> Worth(updated) == Worth(record) + TotalWorth(due)
  {
    hide FenceOf, CursorOf, Credit, Credited, CreditAll, SumInput, SumOutput, Due;
    SettlesExactly(previous, record, batch, origin, date, dateOf);
    var baselineOffset := FenceOf(previous, batch, origin);
    var settledOffset := CursorOf(previous, batch, origin);
    var inputHwm := if previous.Some? then previous.value.inputHwm else 0;
    var outputHwm := if previous.Some? then previous.value.outputHwm else 0;
    updated := record;
    ghost var credited := [];
    EmptyStart(previous, record, batch, origin, date, dateOf);
    for i := 0 to |batch.requests|
      invariant credited == Credited(previous, batch, origin, date, dateOf, i)
      invariant updated == CreditAll(record, credited)
      invariant inputHwm == (if previous.Some? then previous.value.inputHwm else 0) + SumInput(credited)
      invariant outputHwm == (if previous.Some? then previous.value.outputHwm else 0) + SumOutput(credited)
    {
      var request := batch.requests[i];
      NextRequest(previous, batch, origin, date, dateOf, i);
      if request.endOffset <= settledOffset || request.startOffset <= baselineOffset {
        continue;
      }
      if origin.Catchup? && dateOf(request.endedAt) != date {
        continue;
      }
      inputHwm := inputHwm + request.inputTokens;
      outputHwm := outputHwm + request.outputTokens;
      updated := Credit(updated, request.inputTokens, request.outputTokens, request.model);
      ExtendByOne(record, credited, request);
      credited := credited + [request];
    }
    watermark := Watermark(inputHwm, outputHwm, Some(Max(settledOffset, batch.throughOffset)),
                           Some(baselineOffset), batch.sessionFormat);
  }

  // ----- at most once, over a session's whole life -----

  /** One credited request of a session: offsets identify requests within a format. */
  datatype Entry = Entry(format: nat, endOffset: nat)

  /** A session in memory and in the store: its mark, everything its totals have been credited with, and the largest
      offset delivered for each format. A restart keeps what is stored. */
  datatype Session = Session(
    mark: Option<Watermark>, log: seq<Entry>,
    stored: Option<Watermark>, storedLog: seq<Entry>,
    attached: bool, seen: map<nat, nat>)

  datatype Event =
    | Settle(batch: Batch, origin: Origin, date: string)
    | Cumulative(origin: Origin, inputTokens: nat, outputTokens: nat)
    | Hydrate
    | Restart

  const FRESH := Session(None, [], None, [], false, map[])

  /** The legacy fold raises the high-water marks; when one of them moves, the new mark has no cursor. */
  function FoldMark(previous: Option<Watermark>, origin: Origin, inputTokens: nat, outputTokens: nat): Option<Watermark> {
    if previous.None? && origin == Live(0) && inputTokens == 0 && outputTokens == 0 then None
    else if previous.None? then Some(Watermark(inputTokens, outputTokens, None, None, None))
    else if inputTokens <= previous.value.inputHwm && outputTokens <= previous.value.outputHwm then previous
    else Some(Watermark(Max(previous.value.inputHwm, inputTokens), Max(previous.value.outputHwm, outputTokens), None, None, None))
  }

  /** Neither high-water mark falls, and each is the larger of what was known and observed. The cursor survives exactly an
      observation that moves none; the very first mark has none. */
  lemma FoldKeepsMarks(previous: Option<Watermark>, origin: Origin, inputTokens: nat, outputTokens: nat)
    ensures var after := FoldMark(previous, origin, inputTokens, outputTokens);
            && (after.None? <==> previous.None? && origin == Live(0) && inputTokens + outputTokens == 0)
            && (after.Some? ==>
                  var known := if previous.Some? then previous.value else Watermark(0, 0, None, None, None);
                  && known.inputHwm <= after.value.inputHwm && inputTokens <= after.value.inputHwm && after.value.inputHwm in {known.inputHwm, inputTokens}
                  && known.outputHwm <= after.value.outputHwm && outputTokens <= after.value.outputHwm
                  && after.value.outputHwm in {known.outputHwm, outputTokens}
                  && var moves := inputTokens > known.inputHwm || outputTokens > known.outputHwm;
                  after.value == if moves then Watermark(after.value.inputHwm, after.value.outputHwm, None, None, None) else known)
  {
  }

  function HydratedMark(mark: Option<Watermark>, stored: Option<Watermark>): Option<Watermark> {
    if mark.None? then stored
    else if stored.None? then mark
    else Some(MergeWatermark(mark.value, stored.value))
  }

  function Entries(format: nat, requests: seq<Request>): seq<Entry> {
    seq(|requests|, i requires 0 <= i < |requests| => Entry(format, requests[i].endOffset))
  }

  function BatchFormat(batch: Batch): nat { Or(batch.sessionFormat, 0) }

  function Seen(seen: map<nat, nat>, format: nat): nat {
    if format in seen then seen[format] else 0
  }

  /** Every change of an attached session is put in the store. */
  function Put(s: Session): Session {
    if s.attached then s.(stored := s.mark, storedLog := s.log) else s
  }

  function Settled(s: Session, batch: Batch, origin: Origin, date: string, dateOf: int -> string): Session {
    var format := BatchFormat(batch);
    s.(mark := Some(SettledMark(s.mark, batch, origin, date, dateOf)),
       log := s.log + Entries(format, AllCredited(s.mark, batch, origin, date, dateOf)),
       seen := s.seen[format := Max(Seen(s.seen, format), batch.throughOffset)])
  }

  function Apply(s: Session, event: Event, dateOf: int -> string): Session {
    match event
    case Settle(batch, origin, date) => Put(Settled(s, batch, origin, date, dateOf))
    case Cumulative(origin, inputTokens, outputTokens) => Put(s.(mark := FoldMark(s.mark, origin, inputTokens, outputTokens)))
    case Hydrate => Put(s.(mark := HydratedMark(s.mark, s.stored), attached := true))
    case Restart => s.(mark := None, log := s.storedLog, attached := false)
  }

  predicate AtOrBelow(log: seq<Entry>, format: nat, offset: nat) {
    forall e :: e in log && e.format == format ==> e.endOffset <= offset
  }

  predicate HasCursor(mark: Option<Watermark>) {
    mark.Some? && mark.value.settledOffset.Some?
  }

  /** The mark's cursor, when there is one, lies at or above everything credited in its format. */
  predicate Covers(mark: Option<Watermark>, log: seq<Entry>) {
    HasCursor(mark) ==> AtOrBelow(log, Format(mark.value), mark.value.settledOffset.value)
  }

  predicate NoDuplicates(log: seq<Entry>) {
    forall i, j :: 0 <= i < j < |log| ==> log[i] != log[j]
  }

  predicate Delivered(log: seq<Entry>, seen: map<nat, nat>) {
    forall e :: e in log ==> e.endOffset <= Seen(seen, e.format)
  }

  predicate Sound(s: Session) {
    && NoDuplicates(s.log) && Delivered(s.log, s.seen)
    && Covers(s.mark, s.log) && Covers(s.stored, s.storedLog)
    && s.storedLog <= s.log
    && (s.attached ==> s.stored == s.mark && s.storedLog == s.log)
    && (s.mark.None? ==> s.log == s.storedLog)
  }

  /** Does the batch go on from the cursor the mark holds? */
  predicate Continues(mark: Option<Watermark>, batch: Batch) {
    HasCursor(mark) && !FormatChanged(mark, batch)
  }

  /** What the caller has to know before an event: the offsets delivered so far and the marks. A batch that does not go on
      from the mark's cursor starts at or above every offset delivered in its format. A stored mark adopted over a mark
      in memory is not of a newer format than its cursor, or has itself reached every offset delivered in its format. */
  predicate Orderly(s: Session, event: Event) {
    match event
    case Settle(batch, origin, _) =>
      && WellFormedBatch(batch)
      && (Continues(s.mark, batch) || Seen(s.seen, BatchFormat(batch)) <= CursorOf(s.mark, batch, origin))
    case Hydrate =>
      || s.attached || s.mark.None? || !HasCursor(s.stored)
      || (HasCursor(s.mark) && Format(s.stored.value) <= Format(s.mark.value))
      || Seen(s.seen, Format(s.stored.value)) <= s.stored.value.settledOffset.value
    case Cumulative(_, _, _) => true
    case Restart => true
  }

  lemma {:induction false} CreditedRising(previous: Option<Watermark>, batch: Batch, origin: Origin, date: string, dateOf: int -> string, n: nat)
    requires WellFormedBatch(batch) && n <= |batch.requests|
    ensures Rising(Credited(previous, batch, origin, date, dateOf, n))
  {
    if n > 0 {
      var before := Credited(previous, batch, origin, date, dateOf, n - 1);
      CreditedRising(previous, batch, origin, date, dateOf, n - 1);
      forall i | 0 <= i < |before| ensures before[i].endOffset < batch.requests[n - 1].endOffset {
        assert before[i] in batch.requests[..n - 1];
      }
    }
  }

  predicate Rising(requests: seq<Request>) {
    forall i, j :: 0 <= i < j < |requests| ==> requests[i].endOffset < requests[j].endOffset
  }

  lemma AppendDistinct(log: seq<Entry>, added: seq<Entry>)
    requires NoDuplicates(log) && NoDuplicates(added)
    requires forall e, f :: e in log && f in added ==> e != f
    ensures NoDuplicates(log + added)
  {
    var all := log + added;
    forall i, j | 0 <= i < j < |all| ensures all[i] != all[j] {
      if i < |log| <= j {
        assert all[i] in log && all[j] in added;
      }
    }
  }

  predicate Between(added: seq<Entry>, format: nat, low: nat, high: nat) {
    forall e :: e in added ==> e.format == format && low < e.endOffset <= high
  }

  /** What a batch credits lies above the cursor, within the batch, each request once. */
  lemma CreditedLieBetween(previous: Option<Watermark>, batch: Batch, origin: Origin, date: string, dateOf: int -> string)
    requires WellFormedBatch(batch)
    ensures var added := Entries(BatchFormat(batch), AllCredited(previous, batch, origin, date, dateOf));
            && NoDuplicates(added)
            && Between(added, BatchFormat(batch), CursorOf(previous, batch, origin), batch.throughOffset)
  {
    CreditedRising(previous, batch, origin, date, dateOf, |batch.requests|);
    var credited := AllCredited(previous, batch, origin, date, dateOf);
    var added := Entries(BatchFormat(batch), credited);
    forall e | e in added
      ensures e.format == BatchFormat(batch) && CursorOf(previous, batch, origin) < e.endOffset <= batch.throughOffset
    {
      var i :| 0 <= i < |added| && added[i] == e;
      assert credited[i] in batch.requests[..|batch.requests|];
    }
    forall i, j | 0 <= i < j < |added| ensures added[i] != added[j] {
      assert credited[i].endOffset < credited[j].endOffset;
    }
  }

  lemma SettledIsSound(s: Session, batch: Batch, origin: Origin, date: string, dateOf: int -> string)
    requires Sound(s) && Orderly(s, Settle(batch, origin, date))
    ensures var after := Settled(s, batch, origin, date, dateOf);
            NoDuplicates(after.log) && Delivered(after.log, after.seen) && Covers(after.mark, after.log) && s.log <= after.log
  {
    hide AllCredited, CursorOf, FenceOf, SumInput, SumOutput;
    var format, cursor := BatchFormat(batch), CursorOf(s.mark, batch, origin);
    CreditedLieBetween(s.mark, batch, origin, date, dateOf);
    CursorReachesLog(s, batch, origin, date);
    AppendDistinct(s.log, Entries(format, AllCredited(s.mark, batch, origin, date, dateOf)));
  }

  lemma CursorReachesLog(s: Session, batch: Batch, origin: Origin, date: string)
    requires Sound(s) && Orderly(s, Settle(batch, origin, date))
    ensures AtOrBelow(s.log, BatchFormat(batch), CursorOf(s.mark, batch, origin))
  {
    if Continues(s.mark, batch) {
      assert Covers(s.mark, s.log);
    }
  }

  lemma HydratedCovers(s: Session)
    requires Sound(s) && Orderly(s, Hydrate)
    ensures Covers(HydratedMark(s.mark, s.stored), s.log)
  {
    if HasCursor(s.mark) && HasCursor(s.stored) {
      var format := Max(Format(s.mark.value), Format(s.stored.value));
      if Format(s.mark.value) < format && !s.attached {
        assert AtOrBelow(s.log, format, s.stored.value.settledOffset.value);
      }
    }
  }

  /** One event keeps the cursor above the history and credits nothing a second time. */
  lemma StepKeepsSound(s: Session, event: Event, dateOf: int -> string)
    requires Sound(s) && Orderly(s, event)
    ensures Sound(Apply(s, event, dateOf))
  {
    hide AllCredited, SettledMark, CursorOf, FenceOf, NoDuplicates, Delivered;
    match event {
      case Settle(batch, origin, date) => SettledIsSound(s, batch, origin, date, dateOf);
      case Hydrate => HydratedCovers(s);
      case Cumulative(_, _, _) =>
      case Restart => PrefixKeeps(s.log, s.storedLog, s.seen);
    }
  }

  lemma PrefixKeeps(log: seq<Entry>, prefix: seq<Entry>, seen: map<nat, nat>)
    requires NoDuplicates(log) && Delivered(log, seen) && prefix <= log
    ensures NoDuplicates(prefix) && Delivered(prefix, seen)
  {
    assert forall i :: 0 <= i < |prefix| ==> prefix[i] == log[i];
  }

  function Run(s: Session, events: seq<Event>, dateOf: int -> string): Session {
    if events == [] then s else Apply(Run(s, events[..|events| - 1], dateOf), events[|events| - 1], dateOf)
  }

  predicate RunOrderly(s: Session, events: seq<Event>, dateOf: int -> string) {
    events == [] ||
    (RunOrderly(s, events[..|events| - 1], dateOf) && Orderly(Run(s, events[..|events| - 1], dateOf), events[|events| - 1]))
  }

  /** Over any run of overlapping batches, hydrations, restarts, format changes and legacy observations whose offsets
      are orderly, no request is credited twice. */
  lemma {:induction false} CreditedAtMostOnce(s: Session, events: seq<Event>, dateOf: int -> string)
    requires Sound(s) && RunOrderly(s, events, dateOf)
    ensures NoDuplicates(Run(s, events, dateOf).log) && Sound(Run(s, events, dateOf))
    decreases |events|
  {
    if events != [] {
      var front := events[..|events| - 1];
      CreditedAtMostOnce(s, front, dateOf);
      StepKeepsSound(Run(s, front, dateOf), events[|events| - 1], dateOf);
    }
  }

  // ----- the same from the inputs alone -----

  /** The largest offset delivered for each format. */
  function Offsets(events: seq<Event>): map<nat, nat> {
    if events == [] then map[]
    else
      var before, last := Offsets(events[..|events| - 1]), events[|events| - 1];
      if last.Settle?
      then before[BatchFormat(last.batch) := Max(Seen(before, BatchFormat(last.batch)), last.batch.throughOffset)]
      else before
  }

  /** Is a store attached after these events? */
  predicate Attached(events: seq<Event>) {
    events != [] &&
    var last := events[|events| - 1];
    last.Hydrate? || (!last.Restart? && Attached(events[..|events| - 1]))
  }

  /** Has the running process delivered no batch yet? */
  predicate NoBatchYet(events: seq<Event>) {
    events == [] ||
    var last := events[|events| - 1];
    last.Restart? || (!last.Settle? && NoBatchYet(events[..|events| - 1]))
  }

  /** No format that was left comes back, and within its format the batch ends no earlier than those before it. */
  predicate Follows(seen: map<nat, nat>, batch: Batch) {
    && (forall f :: f in seen ==> f <= BatchFormat(batch))
    && Seen(seen, BatchFormat(batch)) <= batch.throughOffset
  }

  /** A session log that only grows and migrates upwards: every process starts with a catch-up, and legacy observations
      come only while a store is attached. */
  predicate Grows(earlier: seq<Event>, event: Event) {
    match event
    case Settle(batch, origin, _) =>
      WellFormedBatch(batch) && Follows(Offsets(earlier), batch) && (NoBatchYet(earlier) ==> origin.Catchup?)
    case Cumulative(_, _, _) => Attached(earlier)
    case Hydrate => true
    case Restart => true
  }

  predicate Growing(events: seq<Event>) {
    events == [] || (Growing(events[..|events| - 1]) && Grows(events[..|events| - 1], events[|events| - 1]))
  }

  /** The mark's cursor is of a delivered format, and a mark without one has no fence either. */
  predicate Known(mark: Option<Watermark>, seen: map<nat, nat>) {
    mark.Some? ==> if HasCursor(mark) then Format(mark.value) in seen else mark.value.baselineOffset.None?
  }

  predicate Newest(mark: Option<Watermark>, seen: map<nat, nat>) {
    HasCursor(mark) && forall f :: f in seen ==> f <= Format(mark.value)
  }

  /** What the inputs of a growing run say about the state it reaches. */
  predicate Tracked(s: Session, events: seq<Event>) {
    && s.seen == Offsets(events)
    && (s.attached <==> Attached(events))
    && (s.mark.None? ==> NoBatchYet(events))
    && Known(s.mark, s.seen) && Known(s.stored, s.seen)
    && (!s.attached && s.mark.Some? ==> Newest(s.mark, s.seen))
  }

  lemma GrowsIsOrderly(s: Session, earlier: seq<Event>, event: Event)
    requires Sound(s) && Tracked(s, earlier) && Grows(earlier, event)
    ensures Orderly(s, event)
  {
    hide Sound, Offsets, Attached, NoBatchYet;
  }

  /** What one event does to the inputs' account of a run. */
  lemma InputsStep(earlier: seq<Event>, event: Event)
    ensures var events := earlier + [event];
            && Attached(events) == (event.Hydrate? || (!event.Restart? && Attached(earlier)))
            && NoBatchYet(events) == (event.Restart? || (!event.Settle? && NoBatchYet(earlier)))
            && Offsets(events) == if event.Settle?
                                  then Offsets(earlier)[BatchFormat(event.batch) :=
                                         Max(Seen(Offsets(earlier), BatchFormat(event.batch)), event.batch.throughOffset)]
                                  else Offsets(earlier)
  {
    var events := earlier + [event];
    assert events[..|events| - 1] == earlier && events[|events| - 1] == event;
  }

  lemma SettleKeepsTracked(s: Session, earlier: seq<Event>, event: Event, dateOf: int -> string)
    requires Tracked(s, earlier) && Grows(earlier, event) && event.Settle?
    ensures Tracked(Apply(s, event, dateOf), earlier + [event])
  {
    hide AllCredited, CursorOf, FenceOf, WellFormedBatch, SumInput, SumOutput, Offsets, Attached, NoBatchYet;
    InputsStep(earlier, event);
  }

  lemma StepKeepsTracked(s: Session, earlier: seq<Event>, event: Event, dateOf: int -> string)
    requires Sound(s) && Tracked(s, earlier) && Grows(earlier, event)
    ensures Tracked(Apply(s, event, dateOf), earlier + [event])
  {
    if event.Settle? {
      SettleKeepsTracked(s, earlier, event, dateOf);
    } else {
      hide Settled, Offsets, Attached, NoBatchYet, Delivered, NoDuplicates, Covers;
      InputsStep(earlier, event);
    }
  }

  /** A growing session is orderly, so none of its requests is ever credited twice. */
  lemma {:induction false} GrowingCreditsOnce(events: seq<Event>, dateOf: int -> string)
    requires Growing(events)
    ensures RunOrderly(FRESH, events, dateOf) && Sound(Run(FRESH, events, dateOf))
    ensures Tracked(Run(FRESH, events, dateOf), events)
    ensures NoDuplicates(Run(FRESH, events, dateOf).log)
    decreases |events|
  {
    if events != [] {
      var front, last := events[..|events| - 1], events[|events| - 1];
      GrowingCreditsOnce(front, dateOf);
      var s := Run(FRESH, front, dateOf);
      GrowsIsOrderly(s, front, last);
      StepKeepsSound(s, last, dateOf);
      StepKeepsTracked(s, front, last, dateOf);
      assert front + [last] == events;
    }
  }

  /** The cursor of one format never falls, whether a batch or a stored mark moves it. */
  lemma CursorNeverFalls(s: Session, event: Event, dateOf: int -> string)
    requires HasCursor(s.mark) && (event.Settle? || event.Hydrate?)
    requires s.stored.Some? ==> WellFormedMark(s.stored.value)
    ensures var after := Apply(s, event, dateOf).mark.value;
            Format(after) == Format(s.mark.value) ==>
              after.settledOffset.Some? && after.settledOffset.value >= s.mark.value.settledOffset.value
  {
    hide AllCredited, SumInput, SumOutput;
  }

  // ----- exactly when a request can be credited again -----

  /** Some batch of the entry's format credits it now. */
  ghost predicate CanCredit(mark: Option<Watermark>, e: Entry, origin: Origin, date: string, dateOf: int -> string) {
    exists batch :: Credits(mark, e, batch, origin, date, dateOf)
  }

  ghost predicate Credits(mark: Option<Watermark>, e: Entry, batch: Batch, origin: Origin, date: string, dateOf: int -> string) {
    && WellFormedBatch(batch) && BatchFormat(batch) == e.format
    && e in Entries(e.format, AllCredited(mark, batch, origin, date, dateOf))
  }

  /** Only a fenced mark of the same format, or no mark and a live batch, leaves anything to credit. */
  predicate Reaches(mark: Option<Watermark>, e: Entry, origin: Origin) {
    match mark
    case None => origin.Live? && origin.firstLiveSeq < e.endOffset
    case Some(m) =>
      && Format(m) == e.format && m.baselineOffset.Some? && m.baselineOffset.value < e.endOffset
      && (m.settledOffset.Some? ==> m.settledOffset.value < e.endOffset)
  }

  /** A catch-up credits only what ended on its date, a live batch whatever it brings. */
  ghost predicate DateReachable(origin: Origin, date: string, dateOf: int -> string) {
    origin.Catchup? ==> exists instant :: dateOf(instant) == date
  }

  /** From any mark and any origin, a batch can credit an entry exactly when fence and cursor of its own format lie below it, and for
      a catch-up when any instant falls on the date; after a format change, a lost cursor or a first catch-up nothing can be. */
  lemma CreditableExactly(mark: Option<Watermark>, e: Entry, origin: Origin, date: string, dateOf: int -> string)
    ensures CanCredit(mark, e, origin, date, dateOf) <==> Reaches(mark, e, origin) && DateReachable(origin, date, dateOf)
  {
    hide AllCredited;
    if Reaches(mark, e, origin) && DateReachable(origin, date, dateOf) {
      if instant :| dateOf(instant) == date {
        ReachedIsCredited(mark, e, origin, date, dateOf, instant);
      } else {
        ReachedIsCredited(mark, e, origin, date, dateOf, 0);
      }
    }
    if batch :| Credits(mark, e, batch, origin, date, dateOf) {
      CreditsReaches(mark, e, batch, origin, date, dateOf);
    }
  }

  lemma ReachedIsCredited(mark: Option<Watermark>, e: Entry, origin: Origin, date: string, dateOf: int -> string, instant: int)
    requires Reaches(mark, e, origin) && (origin.Catchup? ==> dateOf(instant) == date)
    ensures CanCredit(mark, e, origin, date, dateOf)
  {
    hide AllCredited;
    var r := Request(e.endOffset, e.endOffset, instant, "", 1, 0);
    var batch := Batch(if e.format == 0 then None else Some(e.format), e.endOffset, [r]);
    OneRequest(mark, batch, origin, date, dateOf);
    assert Entries(e.format, [r])[0] == e;
    assert Credits(mark, e, batch, origin, date, dateOf);
  }

  lemma CreditsReaches(mark: Option<Watermark>, e: Entry, batch: Batch, origin: Origin, date: string, dateOf: int -> string)
    requires Credits(mark, e, batch, origin, date, dateOf)
    ensures Reaches(mark, e, origin) && DateReachable(origin, date, dateOf)
  {
    var credited := AllCredited(mark, batch, origin, date, dateOf);
    var i :| 0 <= i < |credited| && Entries(e.format, credited)[i] == e;
    assert credited[i] in batch.requests[..|batch.requests|];
    assert origin.Catchup? ==> dateOf(credited[i].endedAt) == date;
  }

  /** The batch makes some credited request creditable again. */
  ghost predicate Reopens(s: Session, batch: Batch, origin: Origin, date: string, dateOf: int -> string) {
    exists e :: e in s.log && e.format == BatchFormat(batch)
             && CanCredit(Settled(s, batch, origin, date, dateOf).mark, e, origin, date, dateOf)
  }

  /** A batch that starts its format anew, by a format change or after a lost cursor, reopens credited requests exactly
      when one of them ends past the batch. */
  lemma ReopensExactly(s: Session, batch: Batch, origin: Origin, date: string, dateOf: int -> string)
    requires s.mark.Some? && (FormatChanged(s.mark, batch) || s.mark.value.baselineOffset.None?)
    requires s.mark.value.settledOffset.Some? ==> s.mark.value.baselineOffset.Some?
    ensures Reopens(s, batch, origin, date, dateOf) <==>
              !AtOrBelow(s.log, BatchFormat(batch), batch.throughOffset) && DateReachable(origin, date, dateOf)
  {
    hide AllCredited, SumInput, SumOutput, CanCredit, DateReachable;
    var mark := Settled(s, batch, origin, date, dateOf).mark;
    forall e | e in s.log && e.format == BatchFormat(batch)
      ensures CanCredit(mark, e, origin, date, dateOf) <==> batch.throughOffset < e.endOffset && DateReachable(origin, date, dateOf)
    {
      CreditableExactly(mark, e, origin, date, dateOf);
    }
  }

  // ----- exactly which events expose what was credited -----

  /** The mark lets some credited request be credited again. */
  ghost predicate Exposed(mark: Option<Watermark>, log: seq<Entry>) {
    exists e :: e in log && Exposes(mark, e)
  }

  predicate Exposes(mark: Option<Watermark>, e: Entry) {
    mark.Some? && Reaches(mark, e, Catchup)
  }

  /** Cursor and fence together or neither, and a format only beside them, in memory and in the store. */
  predicate Fenced(s: Session) {
    Paired(s.mark) && Paired(s.stored)
  }

  predicate Paired(mark: Option<Watermark>) {
    mark.Some? ==>
      && (mark.value.settledOffset.Some? <==> mark.value.baselineOffset.Some?)
      && (mark.value.sessionFormat.Some? ==> mark.value.settledOffset.Some?)
  }

  lemma StepKeepsFenced(s: Session, event: Event, dateOf: int -> string)
    requires Fenced(s)
    ensures Fenced(Apply(s, event, dateOf))
  {
    hide AllCredited, SumInput, SumOutput, CursorOf, FenceOf;
  }

  /** An entry of the stored mark's format lies beyond what the store has settled, and memory has no cursor of that format or
      a newer one to say so. */
  predicate StoreBehind(mark: Option<Watermark>, stored: Option<Watermark>, e: Entry) {
    && mark.Some? && (HasCursor(mark) && stored.Some? ==> Format(mark.value) < Format(stored.value))
    && Exposes(stored, e)
  }

  /** Which events make a credited request creditable again. */
  ghost predicate Reexposes(s: Session, event: Event) {
    match event
    case Settle(batch, origin, _) =>
      && !Continues(s.mark, batch)
      && !AtOrBelow(s.log, BatchFormat(batch), Max(CursorOf(s.mark, batch, origin), batch.throughOffset))
    case Hydrate => exists e :: e in s.log && StoreBehind(s.mark, s.stored, e)
    case Cumulative(_, _, _) => false
    case Restart => false
  }

  /** Exposed is just what lets a batch credit again, whatever its origin, on a date that has an instant. */
  lemma ExposedCredits(mark: Option<Watermark>, e: Entry, origin: Origin, date: string, dateOf: int -> string)
    requires mark.Some?
    ensures CanCredit(mark, e, origin, date, dateOf) <==> Exposes(mark, e) && DateReachable(origin, date, dateOf)
  {
    CreditableExactly(mark, e, origin, date, dateOf);
  }

  /** A mark that covers the history exposes none of it. */
  lemma CoveredIsUnexposed(mark: Option<Watermark>, log: seq<Entry>)
    requires Covers(mark, log) && Paired(mark)
    ensures !Exposed(mark, log)
  {
  }

  lemma HydrateExposesExactly(s: Session)
    requires Sound(s) && Fenced(s)
    ensures Exposed(HydratedMark(s.mark, s.stored), s.log) <==> exists e :: e in s.log && StoreBehind(s.mark, s.stored, e)
  {
    hide NoDuplicates, Delivered;
    forall e | e in s.log ensures Exposes(HydratedMark(s.mark, s.stored), e) <==> StoreBehind(s.mark, s.stored, e) {
      HydrateExposesEntry(s, e);
    }
  }

  lemma HydrateExposesEntry(s: Session, e: Entry)
    requires Sound(s) && Fenced(s) && e in s.log
    ensures Exposes(HydratedMark(s.mark, s.stored), e) <==> StoreBehind(s.mark, s.stored, e)
  {
    hide NoDuplicates, Delivered;
  }

  lemma SettleExposesExactly(s: Session, batch: Batch, origin: Origin, date: string, dateOf: int -> string)
    requires Sound(s) && Fenced(s) && WellFormedBatch(batch)
    ensures var after := Settled(s, batch, origin, date, dateOf);
            Exposed(after.mark, after.log) <==> Reexposes(s, Settle(batch, origin, date))
  {
    hide AllCredited, SumInput, SumOutput, NoDuplicates, Delivered, CursorOf, FenceOf;
    var after := Settled(s, batch, origin, date, dateOf);
    var format, cursor := BatchFormat(batch), CursorOf(s.mark, batch, origin);
    CreditedLieBetween(s.mark, batch, origin, date, dateOf);
    StartIsFence(s, batch, origin);
    forall e | e in after.log
      ensures Exposes(after.mark, e) <==>
                !Continues(s.mark, batch) && e in s.log && e.format == format && Max(cursor, batch.throughOffset) < e.endOffset
    {
      if e !in s.log {
        assert e in Entries(format, AllCredited(s.mark, batch, origin, date, dateOf));
      }
    }
  }

  lemma StartIsFence(s: Session, batch: Batch, origin: Origin)
    requires Sound(s) && Fenced(s)
    ensures !Continues(s.mark, batch) ==> FenceOf(s.mark, batch, origin) == CursorOf(s.mark, batch, origin)
    ensures Continues(s.mark, batch) ==> AtOrBelow(s.log, BatchFormat(batch), CursorOf(s.mark, batch, origin))
  {
    hide NoDuplicates, Delivered;
    if Continues(s.mark, batch) {
      assert Covers(s.mark, s.log);
    }
  }

  lemma FoldExposesNothing(s: Session, origin: Origin, inputTokens: nat, outputTokens: nat)
    requires Sound(s) && Fenced(s)
    ensures !Exposed(FoldMark(s.mark, origin, inputTokens, outputTokens), s.log)
  {
    hide NoDuplicates, Delivered;
    CoveredIsUnexposed(FoldMark(s.mark, origin, inputTokens, outputTokens), s.log);
  }

  lemma NoMarkExposesNothing(s: Session)
    ensures !Exposed(None, s.storedLog)
  {
  }

  /** From every sound session, an event makes a credited request creditable again exactly when it is a batch that starts its
      format anew with a request ending past it, or a hydration whose stored mark lies behind a request of its format that
      memory no longer covers. No other event does. */
  lemma ExposedExactly(s: Session, event: Event, dateOf: int -> string)
    requires Sound(s) && Fenced(s) && (event.Settle? ==> WellFormedBatch(event.batch))
    ensures var after := Apply(s, event, dateOf); Exposed(after.mark, after.log) <==> Reexposes(s, event)
  {
    hide Settled, Exposed, Fenced, NoDuplicates, Delivered, Covers;
    match event {
      case Settle(batch, origin, date) => SettleExposesExactly(s, batch, origin, date, dateOf);
      case Hydrate => HydrateExposesExactly(s);
      case Cumulative(origin, inputTokens, outputTokens) => FoldExposesNothing(s, origin, inputTokens, outputTokens);
      case Restart => NoMarkExposesNothing(s);
    }
  }

  lemma OneRequest(previous: Option<Watermark>, batch: Batch, origin: Origin, date: string, dateOf: int -> string)
    requires |batch.requests| == 1
    ensures AllCredited(previous, batch, origin, date, dateOf)
         == if Creditable(batch.requests[0], previous, batch, origin, date, dateOf) then batch.requests else []
  {
    NextRequest(previous, batch, origin, date, dateOf, 0);
  }

  lemma NoRequests(previous: Option<Watermark>, batch: Batch, origin: Origin, date: string, dateOf: int -> string)
    requires batch.requests == []
    ensures AllCredited(previous, batch, origin, date, dateOf) == []
  {
  }

  const TEN := Settle(Batch(Some(1), 10, [Request(5, 10, 0, "deepseek-pro", 1, 0)]), Live(0), "")
  const FOUR := Settle(Batch(Some(1), 4, []), Live(0), "")

  const FIVE := Settle(Batch(Some(2), 5, []), Catchup, "")
  const LATER := Settle(Batch(Some(2), 10, [Request(6, 10, 0, "deepseek-pro", 1, 0)]), Live(0), "")

  /** A settled step that credits nothing, or its one request. */
  lemma SmallSettle(s: Session, batch: Batch, origin: Origin, dateOf: int -> string)
    requires |batch.requests| <= 1
    ensures var after := Apply(s, Settle(batch, origin, ""), dateOf);
            var credits := batch.requests != [] && Creditable(batch.requests[0], s.mark, batch, origin, "", dateOf);
            && after.log == s.log + (if credits then [Entry(BatchFormat(batch), batch.requests[0].endOffset)] else [])
            && after.mark.Some? && after.attached == s.attached
            && after.stored == (if s.attached then after.mark else s.stored)
            && after.storedLog == (if s.attached then after.log else s.storedLog)
            && after.mark.value.settledOffset == Some(Max(CursorOf(s.mark, batch, origin), batch.throughOffset))
            && after.mark.value.baselineOffset == Some(FenceOf(s.mark, batch, origin))
            && after.mark.value.sessionFormat == batch.sessionFormat
            && after.mark.value.inputHwm == (if s.mark.Some? then s.mark.value.inputHwm else 0) + (if credits then batch.requests[0].inputTokens else 0)
            && after.mark.value.outputHwm == (if s.mark.Some? then s.mark.value.outputHwm else 0) + (if credits then batch.requests[0].outputTokens else 0)
  {
    hide AllCredited, CursorOf, FenceOf, Creditable, SumInput, SumOutput, CreditAll, CreditRequest;
    EmptyStart(s.mark, EMPTY_DAILY_USAGE, batch, origin, "", dateOf);
    if batch.requests == [] {
      NoRequests(s.mark, batch, origin, "", dateOf);
    } else {
      OneRequest(s.mark, batch, origin, "", dateOf);
      assert batch.requests == [] + [batch.requests[0]];
      ExtendByOne(EMPTY_DAILY_USAGE, [], batch.requests[0]);
    }
  }

  /** Credited once through offset 10, the cursor lost in the middle, started again at offset 4: the first batch is
      credited a second time. Leaving the format loses the cursor, and so does a legacy observation that moves a mark. */
  lemma StartingEarlierCreditsTwice(middle: Event, dateOf: int -> string)
    requires middle == Settle(Batch(Some(2), 3, []), Live(0), "") || middle == Cumulative(Live(0), 2, 0)
    ensures !NoDuplicates(Run(FRESH, [TEN, middle, FOUR, TEN], dateOf).log)
  {
    hide Apply, Run;
    var s1 := Apply(FRESH, TEN, dateOf);
    SmallSettle(FRESH, TEN.batch, TEN.origin, dateOf);
    var s2 := Apply(s1, middle, dateOf);
    LosesCursor(s1, middle, dateOf);
    var s3 := Apply(s2, FOUR, dateOf);
    SmallSettle(s2, FOUR.batch, FOUR.origin, dateOf);
    var s4 := Apply(s3, TEN, dateOf);
    SmallSettle(s3, TEN.batch, TEN.origin, dateOf);
    assert s4.log[0] == s4.log[1] == Entry(1, 10);
    FourSteps(FRESH, TEN, middle, FOUR, TEN, dateOf);
  }

  lemma LosesCursor(s: Session, middle: Event, dateOf: int -> string)
    requires s.mark.Some? && s.mark.value.inputHwm == 1 && s.mark.value.sessionFormat == Some(1) && !s.attached
    requires middle == Settle(Batch(Some(2), 3, []), Live(0), "") || middle == Cumulative(Live(0), 2, 0)
    ensures var after := Apply(s, middle, dateOf);
            && after.log == s.log && after.mark.Some? && !after.attached
            && (Format(after.mark.value) == 2 || (after.mark.value.settledOffset.None? && after.mark.value.baselineOffset.None?))
  {
    if middle.Settle? {
      SmallSettle(s, middle.batch, middle.origin, dateOf);
    }
  }

  lemma {:induction false} RunSplits(s: Session, xs: seq<Event>, ys: seq<Event>, dateOf: int -> string)
    ensures Run(s, xs + ys, dateOf) == Run(Run(s, xs, dateOf), ys, dateOf)
    decreases |ys|
  {
    hide Apply;
    if ys == [] {
      assert xs + ys == xs;
    } else {
      var front := ys[..|ys| - 1];
      RunSplits(s, xs, front, dateOf);
      assert (xs + ys)[..|xs + ys| - 1] == xs + front;
    }
  }

  /** A stored mark behind memory: settled through 5, restarted, caught up, credited through 10, and the cursor in memory lost
      to a legacy observation before the store is attached. The batch that follows goes on from the stored cursor. */
  lemma HydratingBehindCreditsTwice(dateOf: int -> string)
    ensures !NoDuplicates(Run(FRESH, [Hydrate, FIVE, Restart, FIVE, LATER, Cumulative(Live(0), 2, 0), Hydrate, LATER], dateOf).log)
  {
    hide Apply, Run;
    var observed := Cumulative(Live(0), 2, 0);
    var s4 := Apply(Apply(Apply(Apply(FRESH, Hydrate, dateOf), FIVE, dateOf), Restart, dateOf), FIVE, dateOf);
    SettledThroughFive(dateOf);
    var s5 := Apply(s4, LATER, dateOf);
    SmallSettle(s4, LATER.batch, LATER.origin, dateOf);
    var s7 := Apply(Apply(s5, observed, dateOf), Hydrate, dateOf);
    StoredTakesOver(s5, dateOf);
    var s8 := Apply(s7, LATER, dateOf);
    SmallSettle(s7, LATER.batch, LATER.origin, dateOf);
    assert s8.log[0] == s8.log[1] == Entry(2, 10);
    var xs, ys := [Hydrate, FIVE, Restart, FIVE], [LATER, observed, Hydrate, LATER];
    RunSplits(FRESH, xs, ys, dateOf);
    assert xs + ys == [Hydrate, FIVE, Restart, FIVE, LATER, observed, Hydrate, LATER];
    FourSteps(FRESH, Hydrate, FIVE, Restart, FIVE, dateOf);
    FourSteps(s4, LATER, observed, Hydrate, LATER, dateOf);
  }

  const AT_FIVE := Some(Watermark(0, 0, Some(5), Some(5), Some(2)))

  lemma SettledThroughFive(dateOf: int -> string)
    ensures var s := Apply(Apply(Apply(Apply(FRESH, Hydrate, dateOf), FIVE, dateOf), Restart, dateOf), FIVE, dateOf);
            s.mark == AT_FIVE && s.stored == AT_FIVE && s.log == [] && s.storedLog == [] && !s.attached
  {
    var s1 := Apply(FRESH, Hydrate, dateOf);
    SmallSettle(s1, FIVE.batch, FIVE.origin, dateOf);
    var s3 := Apply(Apply(s1, FIVE, dateOf), Restart, dateOf);
    SmallSettle(s3, FIVE.batch, FIVE.origin, dateOf);
  }

  lemma StoredTakesOver(s: Session, dateOf: int -> string)
    requires s.mark.Some? && s.mark.value.inputHwm == 1 && s.stored == AT_FIVE && !s.attached
    ensures var after := Apply(Apply(s, Cumulative(Live(0), 2, 0), dateOf), Hydrate, dateOf);
            && after.log == s.log && after.mark.Some? && after.mark.value.settledOffset == Some(5)
            && after.mark.value.baselineOffset == Some(5) && after.mark.value.sessionFormat == Some(2)
  {
  }

  lemma FourSteps(s: Session, a: Event, b: Event, c: Event, d: Event, dateOf: int -> string)
    ensures Run(s, [a, b, c, d], dateOf) == Apply(Apply(Apply(Apply(s, a, dateOf), b, dateOf), c, dateOf), d, dateOf)
  {
    assert [a][..0] == [] && [a, b][..1] == [a] && [a, b, c][..2] == [a, b] && [a, b, c, d][..3] == [a, b, c];
    assert Run(s, [a], dateOf) == Apply(s, a, dateOf);
    assert Run(s, [a, b], dateOf) == Apply(Run(s, [a], dateOf), b, dateOf);
    assert Run(s, [a, b, c], dateOf) == Apply(Run(s, [a, b], dateOf), c, dateOf);
  }
}
