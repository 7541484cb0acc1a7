/**
  Which dates to fetch from Google (api/hub/services/sync/windows.py), over the
  proleptic Gregorian calendar that `datetime.date` implements: years 1 to 9999.
*/
module Windows {
  import opened Prelude

  const REPORTING_LAG_DAYS := 3
  const RESTATEMENT_WINDOW_DAYS := 5
  const BACKFILL_MONTHS := 16

  // ---- the calendar -------------------------------------------------------

  predicate Leap(year: int) {
    year % 4 == 0 && (year % 100 != 0 || year % 400 == 0)
  }

  function DaysIn(year: int, month: int): (days: nat)
    ensures month == 2 ==>
      days == if year % 4 == 0 && (year % 100 != 0 || year % 400 == 0) then 29 else 28
    ensures month in {1, 3, 5, 7, 8, 10, 12} ==> days == 31
    ensures month in {4, 6, 9, 11} ==> days == 30
    ensures 28 <= days <= 31
  {
    if month == 2 then (if Leap(year) then 29 else 28)
    else if month in {4, 6, 9, 11} then 30
    else 31
  }

  datatype Date = Date(year: int, month: int, day: int) {
    ghost predicate Valid() {
      1 <= year <= 9999 && 1 <= month <= 12 && 1 <= day <= DaysIn(year, month)
    }

    predicate SameMonth(other: Date) {
      year == other.year && month == other.month
    }

    /** The order of `datetime.date`: by year, then month, then day. */
    predicate Before(other: Date) {
      year < other.year || (year == other.year && (month < other.month || (month == other.month && day < other.day)))
    }

    /** Days since 0000-12-31, as `toordinal` counts them. */
    function Ordinal(): int
      requires Valid()
    {
      DaysBeforeMonth(year, month) + day
    }
  }

  const FIRST := Date(1, 1, 1)
  const LAST := Date(9999, 12, 31)

  /** Days before the first of this month since the calendar began. */
  function DaysBeforeMonth(year: int, month: int): (days: nat)
    requires 1 <= year && 1 <= month <= 12
    decreases year, month
  {
    if month > 1 then DaysBeforeMonth(year, month - 1) + DaysIn(year, month - 1)
    else if year > 1 then DaysBeforeMonth(year - 1, 12) + DaysIn(year - 1, 12)
    else 0
  }

  /** The day after, or `None` past 9999-12-31. */
  function DayAfter(d: Date): (next: Option<Date>)
    requires d.Valid()
    ensures next.Some? ==> next.value.Valid()
    ensures next.None? <==> d == LAST
  {
    if d.day < DaysIn(d.year, d.month) then Some(Date(d.year, d.month, d.day + 1))
    else if d.month < 12 then Some(Date(d.year, d.month + 1, 1))
    else if d.year < 9999 then Some(Date(d.year + 1, 1, 1))
    else None
  }

  lemma DayAfterOrdinal(d: Date)
    requires d.Valid() && d != LAST
    ensures DayAfter(d).value.Ordinal() == d.Ordinal() + 1
  {
  }

  lemma {:induction false} MonthsInOrder(y1: int, m1: int, y2: int, m2: int)
    requires 1 <= y1 && 1 <= m1 <= 12 && 1 <= y2 && 1 <= m2 <= 12
    requires y1 < y2 || (y1 == y2 && m1 < m2)
    ensures DaysBeforeMonth(y1, m1) + DaysIn(y1, m1) <= DaysBeforeMonth(y2, m2)
    decreases y2, m2
  {
    var y, m := if m2 > 1 then y2 else y2 - 1, if m2 > 1 then m2 - 1 else 12;
    if (y1, m1) != (y, m) {
      MonthsInOrder(y1, m1, y, m);
    }
  }

  /** Ordinals order dates exactly as the calendar does, and tell them apart. */
  lemma OrdinalsInOrder(a: Date, b: Date)
    requires a.Valid() && b.Valid()
    ensures a.Before(b) <==> a.Ordinal() < b.Ordinal()
    ensures a == b <==> a.Ordinal() == b.Ordinal()
  {
    if a.SameMonth(b) {
    } else if a.Before(b) {
      MonthsInOrder(a.year, a.month, b.year, b.month);
    } else {
      MonthsInOrder(b.year, b.month, a.year, a.month);
    }
  }

  /** The recursive count agrees with the closed form of the Gregorian rule. */
  lemma {:induction false} DaysBeforeYear(year: int)
    requires 1 <= year
    ensures DaysBeforeMonth(year, 1) == 365 * (year - 1) + LeapDays(year - 1)
    decreases year
  {
    if year > 1 {
      DaysBeforeYear(year - 1);
      DaysInYear(year - 1);
      assert DaysBeforeMonth(year, 1) == DaysBeforeMonth(year - 1, 12) + 31;
      hide DaysBeforeMonth, LeapDays;
      LeapDaysStep(year - 1);
    }
  }

  ghost function LeapDays(years: nat): int {
    years / 4 - years / 100 + years / 400
  }

  lemma LeapDaysStep(year: int)
    requires 1 <= year
    ensures LeapDays(year) == LeapDays(year - 1) + if Leap(year) then 1 else 0
  {
    Every4(year);
    Every100(year);
    Every400(year);
    FourHundredthsAreFourths(year);
  }

  lemma Every4(year: int)
    ensures year / 4 - (year - 1) / 4 == if year % 4 == 0 then 1 else 0
  {
  }

  lemma Every100(year: int)
    ensures year / 100 - (year - 1) / 100 == if year % 100 == 0 then 1 else 0
  {
  }

  lemma Every400(year: int)
    ensures year / 400 - (year - 1) / 400 == if year % 400 == 0 then 1 else 0
  {
  }

  lemma FourHundredthsAreFourths(year: int)
    ensures year % 400 == 0 ==> year % 100 == 0
    ensures year % 100 == 0 ==> year % 4 == 0
  {
  }

  lemma DaysInYear(year: int)
    requires 1 <= year
    ensures DaysBeforeMonth(year, 12) + 31 == DaysBeforeMonth(year, 1) + if Leap(year) then 366 else 365
  {
    assert DaysBeforeMonth(year, 4) == DaysBeforeMonth(year, 1) + 31 + DaysIn(year, 2) + 31 by {
      assert DaysBeforeMonth(year, 2) == DaysBeforeMonth(year, 1) + 31;
      assert DaysBeforeMonth(year, 3) == DaysBeforeMonth(year, 2) + DaysIn(year, 2);
    }
    assert DaysBeforeMonth(year, 8) == DaysBeforeMonth(year, 4) + 122 by {
      assert DaysBeforeMonth(year, 5) == DaysBeforeMonth(year, 4) + 30;
      assert DaysBeforeMonth(year, 6) == DaysBeforeMonth(year, 5) + 31;
      assert DaysBeforeMonth(year, 7) == DaysBeforeMonth(year, 6) + 30;
    }
    assert DaysBeforeMonth(year, 12) == DaysBeforeMonth(year, 8) + 122 by {
      assert DaysBeforeMonth(year, 9) == DaysBeforeMonth(year, 8) + 31;
      assert DaysBeforeMonth(year, 10) == DaysBeforeMonth(year, 9) + 30;
      assert DaysBeforeMonth(year, 11) == DaysBeforeMonth(year, 10) + 31;
    }
  }

  // ---- splitting a window into months -------------------------------------

  datatype DateWindow = DateWindow(start: Date, end: Date) {
    /** What `__post_init__` lets through. */
    ghost predicate Valid() {
      start.Valid() && end.Valid() && !end.Before(start)
    }

    ghost function Days(): int
      requires Valid()
    {
      end.Ordinal() - start.Ordinal() + 1
    }
  }

  ghost function TotalDays(chunks: seq<DateWindow>): int
    requires forall i :: 0 <= i < |chunks| ==> chunks[i].Valid()
  {
    if chunks == [] then 0 else TotalDays(chunks[..|chunks| - 1]) + chunks[|chunks| - 1].Days()
  }

  /** Each chunk is a non-empty stretch of one month, and each begins the day after the one before it ends. */
  ghost predicate Chunked(start: Date, chunks: seq<DateWindow>) {
    && (forall i :: 0 <= i < |chunks| ==> chunks[i].Valid() && chunks[i].start.SameMonth(chunks[i].end))
    && (forall i :: 0 <= i < |chunks| - 1 ==> DayAfter(chunks[i].end) == Some(chunks[i + 1].start))
    && (chunks != [] ==> chunks[0].start == start)
  }

  /** Only the first chunk may begin, and only the last may end, inside a month. */
  ghost predicate WholeMonthsInside(chunks: seq<DateWindow>) {
    && (forall i :: 0 < i < |chunks| ==> chunks[i].start.day == 1)
    && (forall i :: 0 <= i < |chunks| - 1 ==> chunks[i].end.day == DaysIn(chunks[i].end.year, chunks[i].end.month))
  }

  ghost predicate Partition(window: DateWindow, chunks: seq<DateWindow>) {
    && chunks != []
    && Chunked(window.start, chunks)
    && WholeMonthsInside(chunks)
    && chunks[|chunks| - 1].end == window.end
  }

  ghost predicate InLastMonth(d: Date) {
    d.year == 9999 && d.month == 12
  }

  /** The first of the month after this one. */
  ghost function MonthAfter(d: Date): (first: Date)
    requires d.Valid() && !InLastMonth(d)
    ensures first.Valid()
  {
    if d.month == 12 then Date(d.year + 1, 1, 1) else Date(d.year, d.month + 1, 1)
  }

  function MonthEnd(d: Date): (end: Date)
    requires d.Valid()
    ensures end.Valid() && end.SameMonth(d) && !end.Before(d)
    ensures !InLastMonth(d) ==> DayAfter(end) == Some(MonthAfter(d))
  {
    Date(d.year, d.month, DaysIn(d.year, d.month))
  }

  /** Everything the loop knows: `chunks` run from the window's start up to `cursor`. */
  ghost predicate SplitUpTo(window: DateWindow, chunks: seq<DateWindow>, cursor: Date) {
    && cursor.Valid() && Chunked(window.start, chunks) && WholeMonthsInside(chunks)
    && if chunks == [] then cursor == window.start
       else
         var end := chunks[|chunks| - 1].end;
         && DayAfter(end) == Some(cursor) && !InLastMonth(end)
         && (end == window.end || (cursor.day == 1 && end == MonthEnd(end) && !window.end.Before(cursor)))
  }

  lemma DayAfterIsLater(d: Date, e: Date)
    requires d.Valid() && e.Valid() && d != LAST
    ensures d.Before(DayAfter(d).value)
    ensures d.Before(e) ==> !e.Before(DayAfter(d).value)
  {
  }

  lemma SplitOneMore(window: DateWindow, chunks: seq<DateWindow>, cursor: Date, chunkEnd: Date)
    requires window.Valid() && SplitUpTo(window, chunks, cursor)
    requires !window.end.Before(cursor) && !InLastMonth(cursor)
    requires chunkEnd == if window.end.Before(MonthEnd(cursor)) then window.end else MonthEnd(cursor)
    ensures DayAfter(chunkEnd).Some?
    ensures SplitUpTo(window, chunks + [DateWindow(cursor, chunkEnd)], DayAfter(chunkEnd).value)
  {
    var more := chunks + [DateWindow(cursor, chunkEnd)];
    assert chunkEnd.Valid() && chunkEnd.SameMonth(cursor) && !chunkEnd.Before(cursor);
    DayAfterIsLater(chunkEnd, window.end);
    if chunks != [] {
      var end := chunks[|chunks| - 1].end;
      DayAfterIsLater(end, window.end);
      assert end != window.end;
    }
    hide DaysIn, DayAfter;
    assert forall i :: 0 <= i < |chunks| ==> more[i] == chunks[i];
    assert more[|more| - 1].end == chunkEnd;
  }

  /** `None` stands for the exception that `date(10000, 1, 1)` raises. */
  method MonthChunks(window: DateWindow) returns (result: Option<seq<DateWindow>>)
    requires window.Valid()
    ensures result.None? <==> InLastMonth(window.end)
    ensures result.Some? ==> Partition(window, result.value)
  {
    hide DaysIn, DayAfter, WholeMonthsInside, Chunked;
    var chunks: seq<DateWindow> := [];
    var cursor := window.start;
    NothingSplitYet(window);
    while !window.end.Before(cursor)
      invariant SplitUpTo(window, chunks, cursor)
      decreases 12 * (10000 - cursor.year) - cursor.month, 31 - cursor.day
    {
      if cursor.month == 12 && cursor.year == 9999 {
        return None;
      }
      var nextMonth := if cursor.month == 12 then Date(cursor.year + 1, 1, 1) else Date(cursor.year, cursor.month + 1, 1);
      var dayBefore := MonthEnd(cursor);
      assert DayAfter(dayBefore) == Some(nextMonth);
      var chunkEnd := if window.end.Before(dayBefore) then window.end else dayBefore;
      SplitOneMore(window, chunks, cursor, chunkEnd);
      chunks := chunks + [DateWindow(cursor, chunkEnd)];
      CursorMoves(cursor, chunkEnd);
      cursor := DayAfter(chunkEnd).value;
    }
    result := Some(chunks);
  }

  lemma NothingSplitYet(window: DateWindow)
    requires window.Valid()
    ensures SplitUpTo(window, [], window.start)
  {
  }

  lemma CursorMoves(cursor: Date, chunkEnd: Date)
    requires cursor.Valid() && chunkEnd.Valid() && chunkEnd.SameMonth(cursor) && !chunkEnd.Before(cursor)
    requires DayAfter(chunkEnd).Some?
    ensures var next := DayAfter(chunkEnd).value;
      next.year > cursor.year || (next.year == cursor.year && next.month > cursor.month)
      || (next.SameMonth(cursor) && next.day > cursor.day)
  {
  }

  /** The chunks of a window account for every one of its days. */
  lemma {:induction false} ChunksSumUp(start: Date, chunks: seq<DateWindow>)
    requires start.Valid() && chunks != [] && Chunked(start, chunks)
    ensures TotalDays(chunks) == chunks[|chunks| - 1].end.Ordinal() - start.Ordinal() + 1
  {
    var init, last := chunks[..|chunks| - 1], chunks[|chunks| - 1];
    if init == [] {
      assert TotalDays(init) == 0;
    } else {
      ChunksSumUp(start, init);
      DayAfterOrdinal(init[|init| - 1].end);
    }
  }

  lemma PartitionSumsUp(window: DateWindow, chunks: seq<DateWindow>)
    requires window.Valid() && Partition(window, chunks)
    ensures TotalDays(chunks) == window.Days()
  {
    ChunksSumUp(window.start, chunks);
  }

  ghost predicate Holds(chunk: DateWindow, day: Date) {
    !day.Before(chunk.start) && !chunk.end.Before(day)
  }

  /** Days are covered once and only once: a day is in the window exactly when it is in one chunk. */
  lemma {:induction false} EachDayInOneChunk(window: DateWindow, chunks: seq<DateWindow>, day: Date)
    requires window.Valid() && day.Valid() && Partition(window, chunks)
    ensures Holds(window, day) <==> exists i :: 0 <= i < |chunks| && Holds(chunks[i], day)
    ensures forall i, j :: 0 <= i < j < |chunks| ==> !(Holds(chunks[i], day) && Holds(chunks[j], day))
  {
    forall i, j | 0 <= i < j < |chunks|
      ensures !(Holds(chunks[i], day) && Holds(chunks[j], day))
    {
      ChunkBefore(window.start, chunks, i, j);
      OrdinalsInOrder(chunks[i].end, day);
      OrdinalsInOrder(day, chunks[j].start);
    }
    if Holds(window, day) {
      var i := ChunkOf(window.start, chunks, day);
    }
    forall i | 0 <= i < |chunks| && Holds(chunks[i], day)
      ensures Holds(window, day)
    {
      ChunkInside(window, chunks, i);
      OrdinalsInOrder(day, chunks[i].start);
      OrdinalsInOrder(chunks[i].end, day);
      OrdinalsInOrder(day, window.start);
      OrdinalsInOrder(window.end, day);
    }
  }

  lemma {:induction false} ChunkOf(start: Date, chunks: seq<DateWindow>, day: Date) returns (i: nat)
    requires start.Valid() && day.Valid() && chunks != [] && Chunked(start, chunks)
    requires !day.Before(start) && !chunks[|chunks| - 1].end.Before(day)
    ensures i < |chunks| && Holds(chunks[i], day)
  {
    i := |chunks| - 1;
    if day.Before(chunks[i].start) {
      var init := chunks[..i];
      DayAfterOrdinal(init[i - 1].end);
      OrdinalsInOrder(day, chunks[i].start);
      OrdinalsInOrder(init[i - 1].end, day);
      i := ChunkOf(start, init, day);
    }
  }

  lemma {:induction false} ChunkBefore(start: Date, chunks: seq<DateWindow>, i: nat, j: nat)
    requires i < j < |chunks| && Chunked(start, chunks)
    ensures chunks[i].Valid() && chunks[j].Valid() && chunks[i].end.Ordinal() < chunks[j].start.Ordinal()
    decreases j
  {
    assert chunks[i].Valid() && chunks[j].Valid() && chunks[j - 1].Valid();
    DayAfterOrdinal(chunks[j - 1].end);
    if i < j - 1 {
      ChunkBefore(start, chunks, i, j - 1);
      OrdinalsInOrder(chunks[j - 1].end, chunks[j - 1].start);
    }
  }

  lemma ChunkInside(window: DateWindow, chunks: seq<DateWindow>, i: nat)
    requires window.Valid() && Partition(window, chunks) && i < |chunks|
    ensures chunks[i].Valid()
    ensures window.start.Ordinal() <= chunks[i].start.Ordinal() && chunks[i].end.Ordinal() <= window.end.Ordinal()
  {
    var last := |chunks| - 1;
    assert chunks[i].Valid() && chunks[0].Valid() && chunks[last].Valid();
    OrdinalsInOrder(chunks[0].end, chunks[0].start);
    OrdinalsInOrder(chunks[last].end, chunks[last].start);
    if i > 0 { ChunkBefore(window.start, chunks, 0, i); }
    if i < last { ChunkBefore(window.start, chunks, i, last); }
  }

  /** The split is determined: two lists of chunks that partition one window are the same list. */
  lemma {:induction false} PartitionIsUnique(window: DateWindow, a: seq<DateWindow>, b: seq<DateWindow>)
    requires window.Valid() && Partition(window, a) && Partition(window, b)
    ensures a == b
  {
    if |a| <= |b| {
      SamePrefix(window, a, b, |a|);
      PrefixIsWhole(window, a, b);
    } else {
      SamePrefix(window, a, b, |b|);
      PrefixIsWhole(window, b, a);
    }
  }

  lemma PrefixIsWhole(window: DateWindow, a: seq<DateWindow>, b: seq<DateWindow>)
    requires window.Valid() && Partition(window, a) && Partition(window, b)
    requires |a| <= |b| && forall i :: 0 <= i < |a| ==> a[i] == b[i]
    ensures a == b
  {
    var last := b[|b| - 1];
    ChunkInside(window, b, |b| - 1);
    OrdinalsInOrder(last.end, last.start);
    assert b[|a| - 1].end == window.end;
    if |a| < |b| {
      ChunkBefore(window.start, b, |a| - 1, |b| - 1);
    }
  }

  lemma {:induction false} SamePrefix(window: DateWindow, a: seq<DateWindow>, b: seq<DateWindow>, n: nat)
    requires window.Valid() && Partition(window, a) && Partition(window, b)
    requires n <= |a| && n <= |b|
    ensures forall i :: 0 <= i < n ==> a[i] == b[i]
  {
    if n > 0 {
      SamePrefix(window, a, b, n - 1);
      var k := n - 1;
      assert a[k].start == b[k].start by {
        if k > 0 { assert a[k - 1] == b[k - 1]; }
      }
      SameEnd(window, a, b, k);
    }
  }

  lemma SameEnd(window: DateWindow, a: seq<DateWindow>, b: seq<DateWindow>, k: nat)
    requires window.Valid() && Partition(window, a) && Partition(window, b)
    requires k < |a| && k < |b| && a[k].start == b[k].start
    ensures a[k].end == b[k].end
  {
    assert a[k].end.SameMonth(b[k].end);
    ChunkInside(window, a, k);
    ChunkInside(window, b, k);
    OrdinalsInOrder(a[k].end, window.end);
    OrdinalsInOrder(b[k].end, window.end);
    OrdinalsInOrder(window.end, a[k].end);
    OrdinalsInOrder(window.end, b[k].end);
  }

  // ---- the other windows --------------------------------------------------

  /** The date with this ordinal. */
  function FromOrdinal(n: int): (d: Date)
    requires 1 <= n <= LAST.Ordinal()
    ensures d.Valid() && d.Ordinal() == n
  {
    if n == 1 then FIRST
    else
      var previous := FromOrdinal(n - 1);
      DayAfterOrdinal(previous);
      DayAfter(previous).value
  }

  /** `today - timedelta(days=...)`; `None` stands for the `OverflowError` before year 1. */
  function Back(d: Date, days: nat): (r: Option<Date>)
    requires d.Valid()
    ensures r.Some? <==> d.Ordinal() > days
    ensures r.Some? ==> r.value.Valid() && r.value.Ordinal() == d.Ordinal() - days
  {
    OrdinalsInOrder(LAST, d);
    if d.Ordinal() > days then Some(FromOrdinal(d.Ordinal() - days)) else None
  }

  function LatestAvailable(today: Date): Option<Date>
    requires today.Valid()
  {
    Back(today, REPORTING_LAG_DAYS)
  }

  function Ending(end: Option<Date>, daysBefore: nat): (w: Option<DateWindow>)
    requires end.Some? ==> end.value.Valid()
    ensures w.Some? ==> w.value.Valid() && w.value.Days() == daysBefore + 1 && end == Some(w.value.end)
    ensures w.Some? <==> end.Some? && end.value.Ordinal() > daysBefore
  {
    if end.None? then None
    else match Back(end.value, daysBefore)
      case None => None
      case Some(start) =>
        OrdinalsInOrder(end.value, start);
        Some(DateWindow(start, end.value))
  }

  /** Thirty days a month and one more, up to the newest day that has data; none when that starts before year 1. */
  function BackfillWindow(today: Date, months: nat): (w: Option<DateWindow>)
    requires today.Valid()
    ensures w.Some? <==> today.Ordinal() > 3 + months * 30
    ensures w.Some? ==>
      && w.value.Valid() && w.value.Days() == months * 30 + 1
      && w.value.end.Ordinal() == today.Ordinal() - 3
  {
    Ending(LatestAvailable(today), months * 30)
  }

  function IncrementalWindow(today: Date, days: nat): (w: Option<DateWindow>)
    requires today.Valid() && days > 0
    ensures w.Some? <==> today.Ordinal() > 3 + days - 1
    ensures w.Some? ==>
      && w.value.Valid() && w.value.Days() == days
      && w.value.end.Ordinal() == today.Ordinal() - 3
  {
    Ending(LatestAvailable(today), days - 1)
  }

  ghost predicate Between(day: Date, first: Date, last: Date) {
    !day.Before(first) && !last.Before(day)
  }

  /** Every day from the start of the first window to the end of the last is in one of them. */
  ghost predicate Unbroken(windows: seq<DateWindow>) {
    windows != [] ==>
      forall day: Date :: day.Valid() && Between(day, windows[0].start, windows[|windows| - 1].end) ==>
        exists i :: 0 <= i < |windows| && Holds(windows[i], day)
  }

  /** `windows` are the incremental windows of runs on `todays`, oldest first. */
  ghost predicate NightlyWindows(todays: seq<Date>, days: nat, windows: seq<DateWindow>) {
    && days > 0 && |windows| == |todays|
    && (forall k :: 0 <= k < |todays| ==> todays[k].Valid() && IncrementalWindow(todays[k], days) == Some(windows[k]))
    && (forall k, l :: 0 <= k < l < |todays| ==> todays[k].Ordinal() <= todays[l].Ordinal())
  }

  lemma WindowOrdinals(todays: seq<Date>, days: nat, windows: seq<DateWindow>, k: nat)
    requires NightlyWindows(todays, days, windows) && k < |windows|
    ensures windows[k].Valid()
    ensures windows[k].end.Ordinal() == todays[k].Ordinal() - REPORTING_LAG_DAYS
    ensures windows[k].start.Ordinal() == todays[k].Ordinal() - REPORTING_LAG_DAYS - days + 1
  {
    assert IncrementalWindow(todays[k], days) == Some(windows[k]);
  }

  lemma HoldsByOrdinal(w: DateWindow, day: Date)
    requires w.start.Valid() && w.end.Valid() && day.Valid()
    ensures Holds(w, day) <==> w.start.Ordinal() <= day.Ordinal() <= w.end.Ordinal()
  {
    OrdinalsInOrder(day, w.start);
    OrdinalsInOrder(w.end, day);
  }

  lemma {:induction false} SomeWindowHolds(todays: seq<Date>, days: nat, windows: seq<DateWindow>, day: Date) returns (i: nat)
    requires NightlyWindows(todays, days, windows) && windows != [] && day.Valid()
    requires forall k :: 0 <= k < |todays| - 1 ==> todays[k + 1].Ordinal() - todays[k].Ordinal() <= days
    requires windows[0].Valid() && windows[|windows| - 1].Valid()
    requires windows[0].start.Ordinal() <= day.Ordinal() <= windows[|windows| - 1].end.Ordinal()
    ensures i < |windows| && Holds(windows[i], day)
  {
    hide IncrementalWindow;
    i := |windows| - 1;
    WindowOrdinals(todays, days, windows, i);
    HoldsByOrdinal(windows[i], day);
    if !Holds(windows[i], day) {
      WindowOrdinals(todays, days, windows, i - 1);
      i := SomeWindowHolds(todays[..i], days, windows[..i], day);
    }
  }

  /**
    The nightly windows leave no day unfetched exactly when no two consecutive
    runs are further apart than the window is long: five days, as shipped.
  */
  lemma {:induction false} UnbrokenExactlyWhenClose(todays: seq<Date>, days: nat, windows: seq<DateWindow>)
    requires NightlyWindows(todays, days, windows)
    ensures Unbroken(windows) <==>
      forall k :: 0 <= k < |todays| - 1 ==> todays[k + 1].Ordinal() - todays[k].Ordinal() <= days
  {
    hide IncrementalWindow;
    if windows != [] {
      WindowOrdinals(todays, days, windows, 0);
      WindowOrdinals(todays, days, windows, |windows| - 1);
    }
    if forall k :: 0 <= k < |todays| - 1 ==> todays[k + 1].Ordinal() - todays[k].Ordinal() <= days {
      forall day: Date | windows != [] && day.Valid() && Between(day, windows[0].start, windows[|windows| - 1].end)
        ensures exists i :: 0 <= i < |windows| && Holds(windows[i], day)
      {
        OrdinalsInOrder(day, windows[0].start);
        OrdinalsInOrder(windows[|windows| - 1].end, day);
        var i := SomeWindowHolds(todays, days, windows, day);
      }
    }
    forall k | 0 <= k < |todays| - 1 && todays[k + 1].Ordinal() - todays[k].Ordinal() > days
      ensures !Unbroken(windows)
    {
      GapIsMissed(todays, days, windows, k);
    }
  }

  lemma OrdinalBounds(d: Date)
    requires d.Valid()
    ensures 1 <= d.Ordinal() <= LAST.Ordinal()
  {
    OrdinalsInOrder(LAST, d);
  }

  lemma GapIsMissed(todays: seq<Date>, days: nat, windows: seq<DateWindow>, k: nat)
    requires NightlyWindows(todays, days, windows) && k < |todays| - 1
    requires todays[k].Valid() && todays[k + 1].Valid() && todays[k + 1].Ordinal() - todays[k].Ordinal() > days
    ensures !Unbroken(windows)
  {
    hide IncrementalWindow;
    WindowOrdinals(todays, days, windows, k);
    OrdinalBounds(todays[k + 1]);
    var day := FromOrdinal(windows[k].end.Ordinal() + 1);
    GapIsInside(todays, days, windows, k, day);
    forall i | 0 <= i < |windows|
      ensures !Holds(windows[i], day)
    {
      GapIsOutside(todays, days, windows, k, i, day);
    }
  }

  lemma GapIsInside(todays: seq<Date>, days: nat, windows: seq<DateWindow>, k: nat, day: Date)
    requires NightlyWindows(todays, days, windows) && k < |todays| - 1
    requires todays[k].Valid() && todays[k + 1].Valid() && todays[k + 1].Ordinal() - todays[k].Ordinal() > days
    requires day.Valid() && day.Ordinal() == todays[k].Ordinal() - REPORTING_LAG_DAYS + 1
    ensures Between(day, windows[0].start, windows[|windows| - 1].end)
  {
    hide IncrementalWindow;
    var last := |windows| - 1;
    WindowOrdinals(todays, days, windows, 0);
    WindowOrdinals(todays, days, windows, last);
    assert todays[0].Ordinal() <= todays[k].Ordinal() && todays[k + 1].Ordinal() <= todays[last].Ordinal();
    OrdinalsInOrder(day, windows[0].start);
    OrdinalsInOrder(windows[last].end, day);
  }

  lemma GapIsOutside(todays: seq<Date>, days: nat, windows: seq<DateWindow>, k: nat, i: nat, day: Date)
    requires NightlyWindows(todays, days, windows) && k < |todays| - 1 && i < |windows|
    requires todays[k].Valid() && todays[k + 1].Valid() && todays[k + 1].Ordinal() - todays[k].Ordinal() > days
    requires day.Valid() && day.Ordinal() == todays[k].Ordinal() - REPORTING_LAG_DAYS + 1
    ensures !Holds(windows[i], day)
  {
    hide IncrementalWindow;
    WindowOrdinals(todays, days, windows, i);
    HoldsByOrdinal(windows[i], day);
    if i <= k {
      assert todays[i].Ordinal() <= todays[k].Ordinal();
    } else {
      assert todays[k + 1].Ordinal() <= todays[i].Ordinal();
    }
  }
}
