/** The statistics service of the second backend generation: overall and
    per-deck counters plus review counts per day over the last 7 and 30
    days. The counters and the per-day counts come from SQL queries, which
    are inputs here; the model covers the day windows and their bounds, and
    how sparse per-day rows become a dense window. */
module Stats {

  import opened Common

  /** One row of the per-day query: the instant the day starts at (as the
      driver returns it) and the count. */
  datatype DayRow = DayRow(day: Instant, count: int)

  datatype DailyCount = DailyCount(day: Day, count: int)

  /** No two rows fall on the same calendar day. */
  predicate DistinctDays(rows: seq<DayRow>) {
    forall i, j :: 0 <= i < j < |rows| ==> DayOf(rows[i].day) != DayOf(rows[j].day)
  }

  predicate HasDay(rows: seq<DayRow>, d: Day) {
    exists i :: 0 <= i < |rows| && DayOf(rows[i].day) == d
  }

  /** The count of the (last) row on day d, or 0 when there is none. */
  function CountOn(rows: seq<DayRow>, d: Day): (n: int)
    ensures !HasDay(rows, d) ==> n == 0
    decreases |rows|
  {
    if rows == [] then 0
    else if DayOf(rows[|rows| - 1].day) == d then rows[|rows| - 1].count
    else CountOn(rows[..|rows| - 1], d)
  }

  /** Collectors.toMap(day, count): the rows as a map from day to count,
      or IllegalStateException when two rows fall on the same day. */
  function DayCounts(rows: seq<DayRow>): (r: Result<map<Day, int>>)
    ensures r.Ok? <==> DistinctDays(rows)
    ensures r.Err? ==> r.error == IllegalState
    ensures r.Ok? ==> forall d :: d in r.value <==> HasDay(rows, d)
    ensures r.Ok? ==> forall d :: d in r.value ==> r.value[d] == CountOn(rows, d)
    decreases |rows|
  {
    if rows == [] then Ok(map[])
    else
      var init := rows[..|rows| - 1];
      var last := rows[|rows| - 1];
      var r := DayCounts(init);
      DayCountsStep(rows);
      if r.Err? then r
      else if DayOf(last.day) in r.value then Err(IllegalState)
      else Ok(r.value[DayOf(last.day) := last.count])
  }

  /** How distinctness and day membership of the rows follow from those of
      all rows but the last. */
  lemma {:induction false} DayCountsStep(rows: seq<DayRow>)
    requires rows != []
    ensures var init := rows[..|rows| - 1];
            DistinctDays(rows) <==> DistinctDays(init) && !HasDay(init, DayOf(rows[|rows| - 1].day))
    ensures forall d :: HasDay(rows, d) <==> HasDay(rows[..|rows| - 1], d) || d == DayOf(rows[|rows| - 1].day)
  {
    var init := rows[..|rows| - 1];
    var n := |rows| - 1;
    if DistinctDays(rows) {
      forall i | 0 <= i < |init|
        ensures DayOf(init[i].day) != DayOf(rows[n].day)
      {
        assert init[i] == rows[i];
      }
    }
    if !DistinctDays(rows) && DistinctDays(init) {
      var i, j :| 0 <= i < j < |rows| && DayOf(rows[i].day) == DayOf(rows[j].day);
      assert j == n;
      assert init[i] == rows[i];
    }
    forall d | HasDay(rows, d)
      ensures HasDay(init, d) || d == DayOf(rows[n].day)
    {
      var i :| 0 <= i < |rows| && DayOf(rows[i].day) == d;
      if i < n {
        assert init[i] == rows[i];
      }
    }
    forall d | HasDay(init, d)
      ensures HasDay(rows, d)
    {
      var i :| 0 <= i < |init| && DayOf(init[i].day) == d;
      assert rows[i] == init[i];
    }
    assert HasDay(rows, DayOf(rows[n].day));
  }

  /** The dense window of the given number of days that ends today, in
      ascending order, each day with its count in raw or 0. */
  function Dense(now: Instant, window: nat, raw: map<Day, int>): (w: seq<DailyCount>)
    ensures |w| == window
    ensures forall i :: 0 <= i < window ==> w[i].day == DayOf(now) - (window - 1) + i
    ensures forall i :: 0 <= i < window ==> w[i].count == if w[i].day in raw then raw[w[i].day] else 0
  {
    var end := DayOf(now);
    var start := end - (window - 1);
    seq(window, i => var day := start + i; DailyCount(day, if day in raw then raw[day] else 0))
  }

  /** fillDaily, over rows whose day and count have been read: the window
      of the given number of days that ends today, in ascending order, each
      day with its queried count or 0. A duplicate day among the rows makes
      the collector throw. */
  function FillDaily(now: Instant, window: nat, rows: seq<DayRow>): (r: Result<seq<DailyCount>>)
    ensures r.Err? <==> !DistinctDays(rows)
    ensures r.Err? ==> r.error == IllegalState
    ensures r.Ok? ==> |r.value| == window
    ensures r.Ok? ==> forall i :: 0 <= i < window ==> r.value[i].day == DayOf(now) - (window - 1) + i
    ensures r.Ok? ==> forall i :: 0 <= i < window ==> r.value[i].count == CountOn(rows, r.value[i].day)
  {
    var raw := DayCounts(rows);
    if raw.Err? then Err(raw.error) else Ok(Dense(now, window, raw.value))
  }

  // ---------------------------------------------------------------------
  // fillDaily as written: the casts of the native query's Object[] rows
  // ---------------------------------------------------------------------

  /** The Java class of the day column of a native-query row. */
  datatype DayCell = TimestampDay(instant: Instant) | OffsetDateTimeDay(instant: Instant)

  /** The Java class of the count column: BigInteger or Long, depending on
      the driver and the ORM. */
  datatype CountCell = BigIntegerCount(n: int) | LongCount(n: int)

  datatype RawRow = RawRow(day: DayCell, count: CountCell)

  /** The casts (java.sql.Timestamp) r[0] and (BigInteger) r[1] succeed. */
  predicate CastsHold(r: RawRow) {
    r.day.TimestampDay? && r.count.BigIntegerCount?
  }

  /** A row read as its instant and count, whatever the classes. */
  function ReadRow(r: RawRow): DayRow {
    DayRow(r.day.instant, r.count.n)
  }

  function ReadRows(rows: seq<RawRow>): (r: seq<DayRow>)
    ensures |r| == |rows| && forall i :: 0 <= i < |rows| ==> r[i] == ReadRow(rows[i])
  {
    seq(|rows|, i requires 0 <= i < |rows| => ReadRow(rows[i]))
  }

  /** Collectors.toMap with the two casts, row by row in stream order: each
      row's day is cast, then its count, then it is added to the map, so
      the first failing row decides the exception. When every cast holds,
      this is the collector over the rows as read. */
  function CollectAsWritten(rows: seq<RawRow>): (r: Result<map<Day, int>>)
    ensures r == Err(ClassCast) ==> exists i :: 0 <= i < |rows| && !CastsHold(rows[i])
    ensures r.Err? ==> r.error == ClassCast || r.error == IllegalState
    ensures (forall i :: 0 <= i < |rows| ==> CastsHold(rows[i])) ==> r == DayCounts(ReadRows(rows))
    ensures (exists i :: 0 <= i < |rows| && !CastsHold(rows[i])) ==> r.Err?
    decreases |rows|
  {
    if rows == [] then Ok(map[])
    else
      var init := rows[..|rows| - 1];
      var last := rows[|rows| - 1];
      var r := CollectAsWritten(init);
      assert ReadRows(rows)[..|rows| - 1] == ReadRows(init);
      assert forall i :: 0 <= i < |init| ==> init[i] == rows[i];
      if r.Err? then r
      else if !CastsHold(last) then Err(ClassCast)
      else if DayOf(last.day.instant) in r.value then Err(IllegalState)
      else Ok(r.value[DayOf(last.day.instant) := last.count.n])
  }

  /** fillDaily as written, over the Object[] rows of the native query. */
  function FillDailyAsWritten(now: Instant, window: nat, rows: seq<RawRow>): (r: Result<seq<DailyCount>>)
    ensures (forall i :: 0 <= i < |rows| ==> CastsHold(rows[i])) ==> r == FillDaily(now, window, ReadRows(rows))
    ensures (exists i :: 0 <= i < |rows| && !CastsHold(rows[i])) ==> r.Err?
  {
    var raw := CollectAsWritten(rows);
    if raw.Err? then Err(raw.error) else Ok(Dense(now, window, raw.value))
  }

  /** A count that comes back as Long, as count(*) does under Hibernate 6,
      fails the (BigInteger) cast: any window with a row throws, where
      reading the count as a Number gives the window. */
  lemma {:induction false} LongCountFailsCast(now: Instant, window: nat, t: Instant, n: int)
    ensures FillDailyAsWritten(now, window, [RawRow(TimestampDay(t), LongCount(n))]) == Err(ClassCast)
    ensures FillDaily(now, window, [DayRow(t, n)]).Ok?
  {
    assert [RawRow(TimestampDay(t), LongCount(n))][..0] == [];
  }

  /** The window is consecutive and ascending, and its last day is today. */
  lemma {:induction false} WindowEndsToday(now: Instant, window: nat, rows: seq<DayRow>)
    requires FillDaily(now, window, rows).Ok? && window >= 1
    ensures var w := FillDaily(now, window, rows).value;
            && w[window - 1].day == DayOf(now)
            && forall i :: 0 <= i < window - 1 ==> w[i + 1].day == w[i].day + 1
  {
  }

  /** The lower bound a per-day query receives: the start of the day that is
      `back` days before now. */
  function Since(now: Instant, back: int): (s: Instant)
    ensures s == StartOfDay(DayOf(now) - back)
  {
    DayOfPlusDays(now, -back);
    StartOfDay(DayOf(PlusDays(now, -back)))
  }

  /** The query of a window starts exactly at the window's first day: with
      a bound of minusDays(6) for 7 days and minusDays(29) for 30, the first
      day of the dense window is the day the query starts on. */
  lemma {:induction false} QueryStartsAtWindow(now: Instant, window: nat, rows: seq<DayRow>)
    requires window >= 1 && FillDaily(now, window, rows).Ok?
    ensures StartOfDay(FillDaily(now, window, rows).value[0].day) == Since(now, window - 1)
  {
  }

  /** The results of the overview's SQL queries. */
  datatype QueryResults = QueryResults(
    totalDecks: int, totalCards: int, dueToday: int, reviewedToday: int,
    daily7: seq<DayRow>, daily30: seq<DayRow>)

  datatype OverviewDto = OverviewDto(
    totalDecks: int, totalCards: int, dueToday: int, reviewedToday: int,
    last7: seq<DailyCount>, last30: seq<DailyCount>)

  datatype DeckOverviewDto = DeckOverviewDto(
    deckId: DeckId, totalCards: int, dueToday: int, reviewedToday: int,
    last7: seq<DailyCount>, last30: seq<DailyCount>)

  /** overview: the counters as queried, and the 7- and 30-day windows. */
  function Overview(now: Instant, q: QueryResults): (r: Result<OverviewDto>)
    ensures r.Err? <==> !DistinctDays(q.daily7) || !DistinctDays(q.daily30)
    ensures r.Ok? ==> && r.value.totalDecks == q.totalDecks && r.value.totalCards == q.totalCards
                      && r.value.dueToday == q.dueToday && r.value.reviewedToday == q.reviewedToday
                      && Ok(r.value.last7) == FillDaily(now, 7, q.daily7)
                      && Ok(r.value.last30) == FillDaily(now, 30, q.daily30)
  {
    var last7 := FillDaily(now, 7, q.daily7);
    var last30 := FillDaily(now, 30, q.daily30);
    if last7.Err? then Err(last7.error)
    else if last30.Err? then Err(last30.error)
    else Ok(OverviewDto(q.totalDecks, q.totalCards, q.dueToday, q.reviewedToday, last7.value, last30.value))
  }

  /** deckOverview: an unknown deck is an error before anything is computed;
      otherwise the deck's counters and windows. */
  function DeckOverview(decks: set<DeckId>, deck: DeckId, now: Instant, q: QueryResults): (r: Result<DeckOverviewDto>)
    ensures deck !in decks ==> r == Err(NoSuchElement)
    ensures deck in decks ==> (r.Err? <==> !DistinctDays(q.daily7) || !DistinctDays(q.daily30))
    ensures r.Ok? ==> && r.value.deckId == deck && r.value.totalCards == q.totalCards
                      && r.value.dueToday == q.dueToday && r.value.reviewedToday == q.reviewedToday
                      && Ok(r.value.last7) == FillDaily(now, 7, q.daily7)
                      && Ok(r.value.last30) == FillDaily(now, 30, q.daily30)
  {
    if deck !in decks then Err(NoSuchElement)
    else
      var last7 := FillDaily(now, 7, q.daily7);
      var last30 := FillDaily(now, 30, q.daily30);
      if last7.Err? then Err(last7.error)
      else if last30.Err? then Err(last30.error)
      else Ok(DeckOverviewDto(deck, q.totalCards, q.dueToday, q.reviewedToday, last7.value, last30.value))
  }
}
