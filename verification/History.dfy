/** The archive cache of a host: the history wire format, its validation, and merging deltas into the cache. */
module History {
  import opened Common
  import opened Ledger
  import opened Database
  import Sealing = Archive
  import Liangzi
  import opened VoteResponse

  /** What `deriveArchiveResult` makes of raw counts. */
  datatype Derived = Derived(up: int, down: int, voters: int, total: int, upRatio: Ratio, downRatio: Ratio, state: Liangzi.State)

  /** A cached row: a day under its date, a week or month under its first day. `covers` counts cases or days; `end` is the
      last day. */
  datatype Entry = Entry(key: Day, end: Day, covers: int, version: int, result: Derived)

  datatype Cache = Cache(version: int, today: Day, stale: bool, days: seq<Entry>, weeks: seq<Entry>, months: seq<Entry>, openWeek: int, openMonth: int)

  datatype WireRow = WireRow(key: Day, end: Day, covers: int, up: int, down: int, voters: int, version: int)

  datatype Wire = Wire(version: int, today: Day, full: bool, stale: bool, days: seq<WireRow>, weeks: seq<WireRow>, months: seq<WireRow>,
                       openWeek: int, openMonth: int)

  // ----- validation -----

  function DeriveArchiveResult(up: int, down: int, voters: int, policy: Liangzi.Policy): Parsed<Derived> {
    if !IsCount(up) || !IsCount(down) || !IsCount(voters) then Refused("invalid_vote_count")
    else if voters > up + down then Refused("invalid_vote_count")
    else
      var state := Liangzi.DeriveState(up, down, policy);
      if !state.Ok? then Refused("policy")
      else Ok(Derived(up, down, voters, up + down, RatioOf(up, up + down), RatioOf(down, up + down), state.value))
  }

  /** A row's bounds against the calendar: a day is its own span, a week an ISO week, a month a calendar month. */
  function ParseRow(w: WireRow, envelope: int, period: Day -> Sealing.Span, policy: Liangzi.Policy): Parsed<Entry> {
    if period(w.key) != Sealing.Span(w.key, w.end) then Refused("bounds")
    else if !IsCount(w.covers) || w.covers == 0 then Refused("covers")
    else if !IsCount(w.version) || w.version == 0 || w.version > envelope then Refused("archive_version")
    else
      match DeriveArchiveResult(w.up, w.down, w.voters, policy)
      case Refused(field) => Refused(field)
      case Ok(result) => Ok(Entry(w.key, w.end, w.covers, w.version, result))
  }

  function ParseRows(rows: seq<WireRow>, envelope: int, period: Day -> Sealing.Span, policy: Liangzi.Policy): Parsed<seq<Entry>> {
    if rows == [] then Ok([])
    else
      match ParseRow(rows[0], envelope, period, policy)
      case Refused(field) => Refused(field)
      case Ok(entry) =>
        match ParseRows(rows[1..], envelope, period, policy)
        case Refused(field) => Refused(field)
        case Ok(rest) => Ok([entry] + rest)
  }

  predicate Unique(entries: seq<Entry>) {
    forall i, j :: 0 <= i < j < |entries| ==> entries[i].key != entries[j].key
  }

  /** `ensureUnique`: one pass with a set of the keys seen so far. */
  method EnsureUnique(entries: seq<Entry>) returns (unique: bool)
    ensures unique <==> Unique(entries)
  {
    var seen: set<Day> := {};
    for k := 0 to |entries|
      invariant Unique(entries[..k])
      invariant forall d :: d in seen <==> exists i :: 0 <= i < k && entries[i].key == d
    {
      if entries[k].key in seen {
        var i :| 0 <= i < k && entries[i].key == entries[k].key;
        return false;
      }
      seen := seen + {entries[k].key};
    }
    assert entries[..|entries|] == entries;
    unique := true;
  }

  function DaySpan(d: Day): Sealing.Span { Sealing.Span(d, d) }

  function Parse(w: Wire, periods: Sealing.Periods, policy: Liangzi.Policy): Parsed<(Cache, bool)> {
    if !IsCount(w.version) then Refused("archive_version")
    else
      match (ParseRows(w.days, w.version, DaySpan, policy), ParseRows(w.weeks, w.version, periods.week, policy),
             ParseRows(w.months, w.version, periods.month, policy))
      case (Ok(days), Ok(weeks), Ok(months)) =>
        if !Unique(days) || !Unique(weeks) || !Unique(months) then Refused("duplicate archive key")
        else if !IsCount(w.openWeek) || !IsCount(w.openMonth) then Refused("open_unique_voters")
        else Ok((Cache(w.version, w.today, w.stale, days, weeks, months, w.openWeek, w.openMonth), w.full))
      case (_, _, _) => Refused("rows")
  }

  // ----- printing -----

  function PrintRow(e: Entry): WireRow { WireRow(e.key, e.end, e.covers, e.result.up, e.result.down, e.result.voters, e.version) }

  function PrintRows(entries: seq<Entry>): seq<WireRow> {
    if entries == [] then [] else [PrintRow(entries[0])] + PrintRows(entries[1..])
  }

  function Print(c: Cache, full: bool): Wire {
    Wire(c.version, c.today, full, c.stale, PrintRows(c.days), PrintRows(c.weeks), PrintRows(c.months), c.openWeek, c.openMonth)
  }

  /** A row whose derived values are those of its counts, within the calendar and the envelope. */
  predicate EntryOk(e: Entry, envelope: int, period: Day -> Sealing.Span, policy: Liangzi.Policy) {
    && period(e.key) == Sealing.Span(e.key, e.end) && 1 <= e.covers <= MAX_SAFE_INTEGER && 1 <= e.version <= envelope
    && DeriveArchiveResult(e.result.up, e.result.down, e.result.voters, policy) == Ok(e.result)
  }

  predicate EntriesOk(entries: seq<Entry>, envelope: int, period: Day -> Sealing.Span, policy: Liangzi.Policy) {
    Unique(entries) && forall e :: e in entries ==> EntryOk(e, envelope, period, policy)
  }

  predicate WellFormed(c: Cache, periods: Sealing.Periods, policy: Liangzi.Policy) {
    && IsCount(c.version) && IsCount(c.openWeek) && IsCount(c.openMonth)
    && EntriesOk(c.days, c.version, DaySpan, policy)
    && EntriesOk(c.weeks, c.version, periods.week, policy) && EntriesOk(c.months, c.version, periods.month, policy)
  }

  lemma {:induction false} RowsRoundTrip(entries: seq<Entry>, envelope: int, period: Day -> Sealing.Span, policy: Liangzi.Policy)
    requires IsCount(envelope) && forall e :: e in entries ==> EntryOk(e, envelope, period, policy)
    ensures ParseRows(PrintRows(entries), envelope, period, policy) == Ok(entries)
  {
    hide DeriveArchiveResult;
    if entries != [] {
      assert EntryOk(entries[0], envelope, period, policy);
      RowsRoundTrip(entries[1..], envelope, period, policy);
      assert PrintRows(entries)[1..] == PrintRows(entries[1..]);
      assert entries == [entries[0]] + entries[1..];
    }
  }

  /** Parsing what was printed from a well-formed archive gives the archive back. */
  lemma PrintParse(c: Cache, full: bool, periods: Sealing.Periods, policy: Liangzi.Policy)
    requires WellFormed(c, periods, policy)
    ensures Parse(Print(c, full), periods, policy) == Ok((c, full))
  {
    hide EntryOk, PrintRows, ParseRows, Unique;
    RowsRoundTrip(c.days, c.version, DaySpan, policy);
    RowsRoundTrip(c.weeks, c.version, periods.week, policy);
    RowsRoundTrip(c.months, c.version, periods.month, policy);
  }

  lemma {:induction false} ParsedRowsOk(rows: seq<WireRow>, envelope: int, period: Day -> Sealing.Span, policy: Liangzi.Policy)
    requires ParseRows(rows, envelope, period, policy).Ok?
    ensures var entries := ParseRows(rows, envelope, period, policy).value;
            && PrintRows(entries) == rows
            && forall e :: e in entries ==> EntryOk(e, envelope, period, policy)
  {
    if rows != [] {
      ParsedRowsOk(rows[1..], envelope, period, policy);
      var entries := ParseRows(rows, envelope, period, policy).value;
      assert entries[1..] == ParseRows(rows[1..], envelope, period, policy).value;
      assert rows == [rows[0]] + rows[1..];
    }
  }

  /** And whatever parses is well formed, and prints back to exactly what was parsed: percentages and states cannot disagree
      with the counts they came with. */
  lemma ParsePrint(w: Wire, periods: Sealing.Periods, policy: Liangzi.Policy)
    requires Parse(w, periods, policy).Ok?
    ensures var (c, full) := Parse(w, periods, policy).value; WellFormed(c, periods, policy) && Print(c, full) == w
  {
    hide EntryOk, PrintRows, ParseRows, Unique;
    ParsedRowsOk(w.days, w.version, DaySpan, policy);
    ParsedRowsOk(w.weeks, w.version, periods.week, policy);
    ParsedRowsOk(w.months, w.version, periods.month, policy);
  }

  // ----- what is accepted -----

  /** Derived values exist exactly for safe counts with no more voters than sticks, and are those of the counts. */
  lemma DerivesExactly(up: int, down: int, voters: int, policy: Liangzi.Policy)
    requires Liangzi.ValidPolicy(policy)
    ensures var r := DeriveArchiveResult(up, down, voters, policy);
            && (r.Ok? <==> IsCount(up) && IsCount(down) && 0 <= voters <= up + down && voters <= MAX_SAFE_INTEGER)
            && (r.Ok? ==>
                  && r.value.up == up && r.value.down == down && r.value.voters == voters && r.value.total == up + down
                  && Liangzi.DeriveState(up, down, policy) == Liangzi.Ok(r.value.state)
                  && (up + down == 0 ==> r.value.upRatio == Null && r.value.downRatio == Null)
                  && (up + down > 0 ==>
                        && r.value.upRatio.Of? && r.value.upRatio.value * (up + down) as real == up as real
                        && r.value.downRatio.Of? && r.value.downRatio.value * (up + down) as real == down as real))
  {
    if up >= 0 && down >= 0 {
      StateExists(up, down, policy);
    }
  }

  /** A row within the calendar and the envelope, about something, with counts that can be. */
  predicate RowAccepted(w: WireRow, envelope: int, period: Day -> Sealing.Span) {
    && period(w.key).start == w.key && period(w.key).end == w.end
    && 1 <= w.covers <= MAX_SAFE_INTEGER && 1 <= w.version <= envelope
    && IsCount(w.up) && IsCount(w.down) && 0 <= w.voters <= w.up + w.down && w.voters <= MAX_SAFE_INTEGER
  }

  predicate RowsAccepted(rows: seq<WireRow>, envelope: int, period: Day -> Sealing.Span) {
    && (forall w :: w in rows ==> RowAccepted(w, envelope, period))
    && (forall i, j :: 0 <= i < j < |rows| ==> rows[i].key != rows[j].key)
  }

  lemma RowParses(w: WireRow, envelope: int, period: Day -> Sealing.Span, policy: Liangzi.Policy)
    requires Liangzi.ValidPolicy(policy) && IsCount(envelope)
    ensures ParseRow(w, envelope, period, policy).Ok? <==> RowAccepted(w, envelope, period)
    ensures ParseRow(w, envelope, period, policy).Ok? ==> ParseRow(w, envelope, period, policy).value.key == w.key
  {
    hide DeriveArchiveResult;
    DerivesExactly(w.up, w.down, w.voters, policy);
  }

  lemma {:induction false} RowsParse(rows: seq<WireRow>, envelope: int, period: Day -> Sealing.Span, policy: Liangzi.Policy)
    requires Liangzi.ValidPolicy(policy) && IsCount(envelope)
    ensures ParseRows(rows, envelope, period, policy).Ok? <==> forall w :: w in rows ==> RowAccepted(w, envelope, period)
    ensures ParseRows(rows, envelope, period, policy).Ok? ==>
              var entries := ParseRows(rows, envelope, period, policy).value;
              |entries| == |rows| && forall i :: 0 <= i < |rows| ==> entries[i].key == rows[i].key
    decreases |rows|
  {
    hide ParseRow, RowAccepted;
    if rows != [] {
      RowParses(rows[0], envelope, period, policy);
      RowsParse(rows[1..], envelope, period, policy);
      assert forall w :: w in rows <==> w == rows[0] || w in rows[1..];
    }
  }

  /** An archive is accepted exactly when its version and open counts are safe, every row is, and no table repeats a key. */
  lemma ParsesExactly(w: Wire, periods: Sealing.Periods, policy: Liangzi.Policy)
    requires Liangzi.ValidPolicy(policy)
    ensures Parse(w, periods, policy).Ok? <==>
              && IsCount(w.version) && IsCount(w.openWeek) && IsCount(w.openMonth)
              && RowsAccepted(w.days, w.version, DaySpan) && RowsAccepted(w.weeks, w.version, periods.week)
              && RowsAccepted(w.months, w.version, periods.month)
  {
    hide ParseRows, RowAccepted;
    if IsCount(w.version) {
      RowsParse(w.days, w.version, DaySpan, policy);
      RowsParse(w.weeks, w.version, periods.week, policy);
      RowsParse(w.months, w.version, periods.month, policy);
    }
  }

  // ----- merging -----

  function ByKey(entries: seq<Entry>): map<Day, Entry> {
    if entries == [] then map[] else ByKey(entries[..|entries| - 1])[entries[|entries| - 1].key := entries[|entries| - 1]]
  }

  predicate Ascending(entries: seq<Entry>) {
    forall i, j :: 0 <= i < j < |entries| ==> entries[i].key < entries[j].key
  }

  lemma {:induction false} ByKeyHolds(entries: seq<Entry>, d: Day)
    ensures d in ByKey(entries) ==> ByKey(entries)[d] in entries && ByKey(entries)[d].key == d
    ensures (exists e :: e in entries && e.key == d) ==> d in ByKey(entries)
  {
    if entries != [] {
      var front, last := entries[..|entries| - 1], entries[|entries| - 1];
      assert entries == front + [last];
      ByKeyHolds(front, d);
    }
  }

  lemma {:induction false} ByKeyAt(entries: seq<Entry>, k: nat)
    requires Ascending(entries) && k < |entries|
    ensures entries[k].key in ByKey(entries) && ByKey(entries)[entries[k].key] == entries[k]
    decreases |entries|
  {
    if k < |entries| - 1 {
      ByKeyAt(entries[..|entries| - 1], k);
    }
  }

  /** Rows in date order are determined by what they hold. */
  lemma {:induction false} AscendingIsUnique(a: seq<Entry>, b: seq<Entry>)
    requires Ascending(a) && Ascending(b) && ByKey(a) == ByKey(b)
    ensures a == b
    decreases |a|
  {
    hide ByKey, Ascending;
    EmptyByKey(a);
    EmptyByKey(b);
    if a != [] && b != [] {
      var x, y := a[|a| - 1], b[|b| - 1];
      ByKeyAt(a, |a| - 1);
      ByKeyAt(b, |b| - 1);
      ByKeyHolds(a, y.key);
      ByKeyHolds(b, x.key);
      LastIsLargest(a, y.key);
      LastIsLargest(b, x.key);
      var front, rest := a[..|a| - 1], b[..|b| - 1];
      DropLast(a);
      DropLast(b);
      AscendingIsUnique(front, rest);
      assert a == front + [x] && b == rest + [y];
    }
  }

  lemma EmptyByKey(entries: seq<Entry>)
    ensures ByKey(entries) == map[] <==> entries == []
  {
    if entries != [] {
      assert entries[|entries| - 1].key in ByKey(entries);
    }
  }

  lemma LastIsLargest(entries: seq<Entry>, d: Day)
    requires Ascending(entries) && entries != [] && d in ByKey(entries)
    ensures d <= entries[|entries| - 1].key
  {
    ByKeyHolds(entries, d);
  }

  lemma DropLast(entries: seq<Entry>)
    requires Ascending(entries) && entries != []
    ensures ByKey(entries[..|entries| - 1]) == ByKey(entries) - {entries[|entries| - 1].key} && Ascending(entries[..|entries| - 1])
  {
    var front, last := entries[..|entries| - 1], entries[|entries| - 1];
    if last.key in ByKey(front) {
      ByKeyHolds(front, last.key);
    }
    assert ByKey(front) == ByKey(front)[last.key := last] - {last.key};
  }

  method LeastKey(keys: set<Day>) returns (least: Day)
    requires keys != {}
    ensures least in keys && forall d :: d in keys ==> least <= d
  {
    SomeInt(keys);
    least :| least in keys;
    var left := keys - {least};
    while left != {}
      invariant left <= keys && least in keys
      invariant forall d :: d in keys ==> d in left || least <= d
      decreases |left|
    {
      SomeInt(left);
      var d :| d in left;
      if d < least { least := d; }
      left := left - {d};
    }
  }

  /** `replaceByKey` and the sort after it: later rows replace earlier ones of the same key, in date order. */
  method ReplaceByKey(current: seq<Entry>, incoming: seq<Entry>) returns (merged: seq<Entry>)
    ensures Ascending(merged) && ByKey(merged) == ByKey(current) + ByKey(incoming)
  {
    var values: map<Day, Entry> := map[];
    for k := 0 to |current|
      invariant values == ByKey(current[..k])
    {
      values := values[current[k].key := current[k]];
      assert current[..k + 1][..k] == current[..k];
    }
    assert current[..|current|] == current;
    for k := 0 to |incoming|
      invariant values == ByKey(current) + ByKey(incoming[..k])
    {
      values := values[incoming[k].key := incoming[k]];
      assert incoming[..k + 1][..k] == incoming[..k];
    }
    assert incoming[..|incoming|] == incoming;
    forall d | d in values ensures values[d].key == d {
      ByKeyHolds(current, d);
      ByKeyHolds(incoming, d);
    }
    merged := SortByKey(values);
  }

  /** Some keys are left; the rows of all others are sorted, below them. */
  predicate Sorting(values: map<Day, Entry>, left: set<Day>, sorted: seq<Entry>) {
    && left <= values.Keys && Ascending(sorted) && ByKey(sorted) == values - left
    && (forall e, d :: e in sorted && d in left ==> e.key < d)
  }

  lemma SortStarts(values: map<Day, Entry>)
    ensures Sorting(values, values.Keys, [])
  {
  }

  lemma SortStep(values: map<Day, Entry>, left: set<Day>, sorted: seq<Entry>, d: Day)
    requires Sorting(values, left, sorted) && d in left && values[d].key == d && forall e :: e in left ==> d <= e
    ensures Sorting(values, left - {d}, sorted + [values[d]])
  {
    var next := sorted + [values[d]];
    assert next[..|sorted|] == sorted;
    assert (values - left)[d := values[d]] == values - (left - {d});
    forall e, f | e in next && f in left - {d} ensures e.key < f {
    }
    assert Ascending(next) by {
      forall i, j | 0 <= i < j < |next| ensures next[i].key < next[j].key {
        assert next[i] == sorted[i] && next[i] in sorted;
      }
    }
  }

  lemma SortEnds(values: map<Day, Entry>, sorted: seq<Entry>)
    requires Sorting(values, {}, sorted)
    ensures Ascending(sorted) && ByKey(sorted) == values
  {
    assert values - {} == values;
  }

  method SortByKey(values: map<Day, Entry>) returns (sorted: seq<Entry>)
    requires forall d :: d in values ==> values[d].key == d
    ensures Ascending(sorted) && ByKey(sorted) == values
  {
    hide Sorting, Ascending, ByKey;
    sorted := [];
    var left := values.Keys;
    SortStarts(values);
    while left != {}
      invariant left <= values.Keys && Sorting(values, left, sorted)
      decreases |left|
    {
      var d := LeastKey(left);
      SortStep(values, left, sorted, d);
      sorted := sorted + [values[d]];
      left := left - {d};
    }
    SortEnds(values, sorted);
  }

  /** `mergeHistoryArchive`: a full archive replaces the cache; an older delta is ignored; a newer one is merged row by row. */
  method MergeHistoryArchive(current: Option<Cache>, incoming: Cache, full: bool) returns (merged: Cache)
    ensures current.None? || full ==> merged == incoming
    ensures current.Some? && !full && incoming.version < current.value.version ==> merged == current.value
    ensures current.Some? && !full && incoming.version >= current.value.version ==>
              && merged == incoming.(days := merged.days, weeks := merged.weeks, months := merged.months)
              && Ascending(merged.days) && ByKey(merged.days) == ByKey(current.value.days) + ByKey(incoming.days)
              && Ascending(merged.weeks) && ByKey(merged.weeks) == ByKey(current.value.weeks) + ByKey(incoming.weeks)
              && Ascending(merged.months) && ByKey(merged.months) == ByKey(current.value.months) + ByKey(incoming.months)
  {
    hide ByKey, Ascending;
    if current.None? || full { return incoming; }
    if incoming.version < current.value.version { return current.value; }
    var days := ReplaceByKey(current.value.days, incoming.days);
    var weeks := ReplaceByKey(current.value.weeks, incoming.weeks);
    var months := ReplaceByKey(current.value.months, incoming.months);
    merged := incoming.(days := days, weeks := weeks, months := months);
  }
}
