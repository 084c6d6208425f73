/** The host's observation state: session marks and day totals in memory, written behind to a store. */
module UsageProjection {
  import opened Common
  import opened UsageLedger
  import opened IncenseWeight

  type SessionId = string
  type Day = string

  function RecordFor(daily: map<Day, DailyUsage>, date: Day): DailyUsage {
    if date in daily then daily[date] else EMPTY_DAILY_USAGE
  }

  function MergedMark(current: map<SessionId, Watermark>, persisted: map<SessionId, Watermark>, id: SessionId): Watermark
    requires id in current || id in persisted
  {
    if id !in current then persisted[id]
    else if id !in persisted then current[id]
    else MergeWatermark(current[id], persisted[id])
  }

  function MarkOf(marks: map<SessionId, Watermark>, id: SessionId): Option<Watermark> {
    if id in marks then Some(marks[id]) else None
  }

  /** Each session is hydrated as its own ledger is. */
  lemma MergedMarkIsHydrated(current: map<SessionId, Watermark>, persisted: map<SessionId, Watermark>, id: SessionId)
    requires id in current || id in persisted
    ensures HydratedMark(MarkOf(current, id), MarkOf(persisted, id)) == Some(MergedMark(current, persisted, id))
  {
  }

  /** Overlapping day records take the larger of each field. */
  function MergeUsage(current: DailyUsage, persisted: DailyUsage): DailyUsage {
    DailyUsage(
      Max(current.inputTokens, persisted.inputTokens),
      Max(current.outputTokens, persisted.outputTokens),
      Max(current.weightCarry, persisted.weightCarry))
  }

  function MergedDay(current: map<Day, DailyUsage>, persisted: map<Day, DailyUsage>, date: Day): DailyUsage
    requires date in current || date in persisted
  {
    if date !in current then persisted[date]
    else if date !in persisted then current[date]
    else MergeUsage(current[date], persisted[date])
  }

  predicate AtLeast(a: DailyUsage, b: DailyUsage) {
    a.inputTokens >= b.inputTokens && a.outputTokens >= b.outputTokens && a.weightCarry >= b.weightCarry
  }

  /** Merging loses nothing of a day, and makes nothing up: no field falls below memory or store, and each is one of theirs. */
  lemma MergedDayKeeps(current: map<Day, DailyUsage>, persisted: map<Day, DailyUsage>, date: Day)
    requires date in current || date in persisted
    ensures var m := MergedDay(current, persisted, date);
            var a, b := RecordFor(current, date), RecordFor(persisted, date);
            && AtLeast(m, a) && AtLeast(m, b)
            && m.inputTokens in {a.inputTokens, b.inputTokens} && m.outputTokens in {a.outputTokens, b.outputTokens}
            && m.weightCarry in {a.weightCarry, b.weightCarry}
  {
  }

  /** Every persisted day has been merged into what was in memory, except those left. */
  predicate DaysMerged(now: map<Day, DailyUsage>, was: map<Day, DailyUsage>, days: map<Day, DailyUsage>, left: set<Day>) {
    && now.Keys == was.Keys + (days.Keys - left)
    && (forall d :: d in left && d in was ==> now[d] == was[d])
    && (forall d :: d in now && d !in left ==> now[d] == MergedDay(was, days, d))
  }

  /** The same of marks. */
  predicate MarksMerged(now: map<SessionId, Watermark>, was: map<SessionId, Watermark>, marks: map<SessionId, Watermark>, left: set<SessionId>) {
    && now.Keys == was.Keys + (marks.Keys - left)
    && (forall id :: id in left && id in was ==> now[id] == was[id])
    && (forall id :: id in now && id !in left ==> now[id] == MergedMark(was, marks, id))
  }

  lemma MarkMerged(now: map<SessionId, Watermark>, was: map<SessionId, Watermark>, marks: map<SessionId, Watermark>, left: set<SessionId>, id: SessionId)
    requires MarksMerged(now, was, marks, left) && id in left && left <= marks.Keys
    ensures var mark := if id !in now then marks[id] else MergeWatermark(now[id], marks[id]);
            MarksMerged(now[id := mark], was, marks, left - {id})
  {
    hide MergeWatermark;
  }

  lemma MarksBounds(was: map<SessionId, Watermark>, now: map<SessionId, Watermark>, marks: map<SessionId, Watermark>)
    ensures MarksMerged(was, was, marks, marks.Keys)
    ensures MarksMerged(now, was, marks, {}) ==>
              now.Keys == was.Keys + marks.Keys && forall id :: id in now ==> now[id] == MergedMark(was, marks, id)
  {
    hide MergeWatermark;
  }

  lemma NoneMerged(was: map<Day, DailyUsage>, days: map<Day, DailyUsage>)
    ensures DaysMerged(was, was, days, days.Keys)
  {
  }

  lemma DayMerged(now: map<Day, DailyUsage>, was: map<Day, DailyUsage>, days: map<Day, DailyUsage>, left: set<Day>, date: Day)
    requires DaysMerged(now, was, days, left) && date in left && left <= days.Keys
    ensures var record := if date !in now then days[date] else MergeUsage(now[date], days[date]);
            DaysMerged(now[date := record], was, days, left - {date})
  {
    hide MergeUsage;
    var record := if date !in now then days[date] else MergeUsage(now[date], days[date]);
    assert date in now <==> date in was;
    assert record == MergedDay(was, days, date);
    assert now[date := record].Keys == was.Keys + (days.Keys - (left - {date}));
  }

  lemma AllMerged(now: map<Day, DailyUsage>, was: map<Day, DailyUsage>, days: map<Day, DailyUsage>)
    requires DaysMerged(now, was, days, {})
    ensures now.Keys == was.Keys + days.Keys
    ensures forall d :: d in now ==> now[d] == MergedDay(was, days, d)
  {
  }

  /** The day whose local label differs from the authoritative one, poured into the authoritative bucket. */
  function AlignedRecord(dest: DailyUsage, source: DailyUsage): DailyUsage {
    if dest.inputTokens == 0 && dest.outputTokens == 0 then source
    else DailyUsage(dest.inputTokens + source.inputTokens, dest.outputTokens + source.outputTokens,
                    dest.weightCarry + source.weightCarry)
  }

  /** Moving a bucket loses nothing except a carry left in a destination that holds no whole token yet. */
  lemma AlignConserves(dest: DailyUsage, source: DailyUsage)
    ensures Worth(AlignedRecord(dest, source)) == Worth(dest) + Worth(source)
       <==> dest.inputTokens + dest.outputTokens > 0 || dest.weightCarry == 0
    ensures var after := AlignedRecord(dest, source);
            && after.inputTokens == dest.inputTokens + source.inputTokens && after.outputTokens == dest.outputTokens + source.outputTokens
            && source.weightCarry <= after.weightCarry <= dest.weightCarry + source.weightCarry
  {
  }

  class UsageProjection {
    var watermarks: map<SessionId, Watermark>
    var daily: map<Day, DailyUsage>
    var attached: bool
    var storedMarks: map<SessionId, Watermark>
    var storedDaily: map<Day, DailyUsage>

    /** Once a store is attached it mirrors memory exactly. */
    predicate Mirrored()
      reads this
    {
      attached ==> storedMarks == watermarks && storedDaily == daily
    }

    constructor ()
      ensures Mirrored() && !attached && watermarks == map[] && daily == map[]
    {
      watermarks, daily, attached, storedMarks, storedDaily := map[], map[], false, map[], map[];
    }

    /** Adopt persisted state by merging into whatever was observed before the store arrived. */
    method Hydrate(marks: map<SessionId, Watermark>, days: map<Day, DailyUsage>)
      modifies this
      ensures Mirrored() && attached
      ensures watermarks.Keys == old(watermarks).Keys + marks.Keys
      ensures forall id :: id in watermarks ==> watermarks[id] == MergedMark(old(watermarks), marks, id)
      ensures forall id :: id in watermarks ==> HydratedMark(MarkOf(old(watermarks), id), MarkOf(marks, id)) == Some(watermarks[id])
      ensures daily.Keys == old(daily).Keys + days.Keys
      ensures forall d :: d in daily ==> daily[d] == MergedDay(old(daily), days, d)
      ensures forall d :: d in daily ==> AtLeast(daily[d], RecordFor(old(daily), d)) && AtLeast(daily[d], RecordFor(days, d))
    {
      hide MergedMark, MergedDay, AtLeast, RecordFor, HydratedMark, MarkOf;
      ghost var before, marksBefore := daily, watermarks;
      attached, storedMarks, storedDaily := true, marks, days;
      MergeMarks(marks);
      MergeDays(days);
      forall d | d in daily ensures AtLeast(daily[d], RecordFor(before, d)) && AtLeast(daily[d], RecordFor(days, d)) {
        MergedDayKeeps(before, days, d);
      }
      forall id | id in watermarks ensures HydratedMark(MarkOf(marksBefore, id), MarkOf(marks, id)) == Some(watermarks[id]) {
        MergedMarkIsHydrated(marksBefore, marks, id);
      }
      storedMarks := storedMarks + watermarks;
      storedDaily := storedDaily + daily;
    }

    method MergeMarks(marks: map<SessionId, Watermark>)
      modifies this`watermarks
      ensures watermarks.Keys == old(watermarks).Keys + marks.Keys
      ensures forall id :: id in watermarks ==> watermarks[id] == MergedMark(old(watermarks), marks, id)
    {
      hide MarksMerged, MergedMark, MergeWatermark;
      var ids := marks.Keys;
      MarksBounds(watermarks, watermarks, marks);
      while ids != {}
        invariant ids <= marks.Keys
        invariant MarksMerged(watermarks, old(watermarks), marks, ids)
        decreases |ids|
      {
        var id :| id in ids;
        MarkMerged(watermarks, old(watermarks), marks, ids, id);
        watermarks := watermarks[id := if id !in watermarks then marks[id] else MergeWatermark(watermarks[id], marks[id])];
        ids := ids - {id};
      }
      MarksBounds(old(watermarks), watermarks, marks);
    }

    method MergeDays(days: map<Day, DailyUsage>)
      modifies this`daily
      ensures daily.Keys == old(daily).Keys + days.Keys
      ensures forall d :: d in daily ==> daily[d] == MergedDay(old(daily), days, d)
    {
      hide DaysMerged, MergedDay;
      var dates := days.Keys;
      NoneMerged(daily, days);
      while dates != {}
        invariant dates <= days.Keys
        invariant DaysMerged(daily, old(daily), days, dates)
        decreases |dates|
      {
        var date :| date in dates;
        DayMerged(daily, old(daily), days, dates, date);
        daily := daily[date := if date !in daily then days[date] else MergeUsage(daily[date], days[date])];
        dates := dates - {date};
      }
      AllMerged(daily, old(daily), days);
    }

    /** Fold one settled batch into a session's cursor and a day's total. */
    method ObserveSettled(sessionId: SessionId, batch: Batch, origin: Origin, date: Day, dateOf: int -> Day)
      returns (grew: bool)
      requires Mirrored()
      modifies this
      ensures Mirrored() && attached == old(attached)
      ensures var previous := if sessionId in old(watermarks) then Some(old(watermarks)[sessionId]) else None;
              var credited := AllCredited(previous, batch, origin, date, dateOf);
              && watermarks == old(watermarks)[sessionId := SettledMark(previous, batch, origin, date, dateOf)]
              && grew == (credited != [])
              && daily == if grew then old(daily)[date := CreditAll(RecordFor(old(daily), date), credited)] else old(daily)
      ensures var previous := if sessionId in old(watermarks) then Some(old(watermarks)[sessionId]) else None;
              && watermarks[sessionId].baselineOffset.Some?
              && var due := Due(previous, batch, origin, date, dateOf, watermarks[sessionId].baselineOffset.value);
                 RecordFor(old(daily), date).weightCarry < SCALE ==>
                   Worth(RecordFor(daily, date)) == Worth(RecordFor(old(daily), date)) + TotalWorth(due)
    {
      hide SettledMark, Due;
      var previous := if sessionId in watermarks then Some(watermarks[sessionId]) else None;
      var day := RecordFor(daily, date);
      SettlesExactly(previous, day, batch, origin, date, dateOf);
      var watermark, record := CreditSettledUsageBatch(previous, day, batch, origin, date, dateOf);
      watermarks := watermarks[sessionId := watermark];
      if attached {
        storedMarks := storedMarks[sessionId := watermark];
      }
      if AllCredited(previous, batch, origin, date, dateOf) == [] {
        return false;
      }
      daily := daily[date := record];
      if attached {
        storedDaily := storedDaily[date := record];
      }
      return true;
    }

    /** Relabel the host's own day to the authoritative business date when time zones disagree. */
    method AlignDailyBucket(authoritative: Day, local: Day)
      requires Mirrored()
      modifies this
      ensures Mirrored() && attached == old(attached) && watermarks == old(watermarks)
      ensures daily == if local == authoritative || local !in old(daily) then old(daily)
                       else old(daily)[authoritative := AlignedRecord(RecordFor(old(daily), authoritative), old(daily)[local])] - {local}
    {
      if local == authoritative || local !in daily {
        return;
      }
      var source, dest := daily[local], RecordFor(daily, authoritative);
      var merged := AlignedRecord(dest, source);
      daily := daily[authoritative := merged];
      daily := daily - {local};
      if attached {
        storedDaily := storedDaily[authoritative := merged];
        storedDaily := storedDaily - {local};
      }
    }

    /** Forget the day totals and keep every cursor, so nothing already settled can be credited again. */
    method DiscardDailyTotals()
      requires Mirrored()
      modifies this
      ensures Mirrored() && attached == old(attached)
      ensures watermarks == old(watermarks) && daily == map[]
    {
      var dates := daily.Keys;
      daily := map[];
      if attached {
        storedDaily := storedDaily - dates;
      }
    }

    /** Input plus output for one business date. */
    function EffectiveTokensFor(date: Day): nat
      reads this
    {
      RecordFor(daily, date).inputTokens + RecordFor(daily, date).outputTokens
    }
  }
}
