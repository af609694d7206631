/** What the grid `genCalendarData` returns looks like: every day of the window
    once and in order, months in chronological blocks, a whole number of weeks per
    block, each day under the title of its weekday, and the fields of each day. */
module GridProperties {
  import opened Wrappers
  import opened Dates
  import opened Text
  import opened MonthRuns
  import opened HelperCalendar

  /** Within an ordered selection a day is marked exactly when the selection covers it. */
  lemma StatusMarksSelection(day: int, startChoose: Option<Date>, endChoose: Option<Date>)
    requires Ordered(startChoose, endChoose)
    ensures StatusOf(day, startChoose, endChoose) != NotChosen <==> InSelection(day, startChoose, endChoose)
  {
  }

  /** The fields of a day cell: its date, whether it lies in the available window,
      whether it is today, the colour of its weekday and its selection status. */
  lemma DayCellFields(d: Date, setup: Setup)
    ensures var p := DayPropsOf(d, setup);
      && p.date == d
      && (p.available <==>
            Ordinal(setup.windows.availableStartDate) <= Ordinal(d) <= Ordinal(setup.windows.availableEndDate))
      && (p.isToday <==> d == setup.today)
      && (p.dayTitleColor == Red <==> Weekday(d) == SUN)
      && (p.dayTitleColor == Green <==> Weekday(d) == SAT)
      && p.status == StatusOf(Ordinal(d), setup.startChoose, setup.endChoose)
  {
    if Ordinal(d) == Ordinal(setup.today) {
      OrdinalInjective(d, setup.today);
    }
  }

  /** The dates of the day cells of `items`, in order. */
  function DayDates(items: seq<Item>): (r: seq<Date>)
    ensures |r| <= |items|
  {
    if items == [] then []
    else DayDates(items[..|items| - 1]) + (if Last(items).DayItem? then [Last(items).props.date] else [])
  }

  lemma {:induction false} DayDatesAppend(a: seq<Item>, b: seq<Item>)
    ensures DayDates(a + b) == DayDates(a) + DayDates(b)
  {
    if b != [] {
      var ab := a + b;
      assert ab[..|ab| - 1] == a + b[..|b| - 1];
      assert Last(ab) == Last(b);
      DayDatesAppend(a, b[..|b| - 1]);
    } else {
      assert a + b == a;
    }
  }

  lemma {:induction false} DayDatesOfBlanks(n: nat)
    ensures DayDates(Blanks(n)) == []
  {
    if n > 0 {
      assert Blanks(n)[..n - 1] == Blanks(n - 1);
      DayDatesOfBlanks(n - 1);
    }
  }

  lemma {:induction false} DayDatesOfDayItems(g: seq<Date>, setup: Setup)
    ensures DayDates(DayItems(g, setup)) == g
  {
    if g != [] {
      var items := DayItems(g, setup);
      assert items[..|items| - 1] == DayItems(g[..|g| - 1], setup);
      DayDatesOfDayItems(g[..|g| - 1], setup);
      assert g == g[..|g| - 1] + [Last(g)];
    }
  }

  lemma DayDatesOfHeaders(first: Date, setup: Setup)
    requires ValidSetup(setup)
    ensures DayDates(Headers(first, setup)) == []
  {
    var h := Headers(first, setup);
    forall k | 0 <= k < |h|
      ensures !h[k].DayItem?
    {
      var top := [MonthHeader(first, setup.monthNames)] + seq(6, _ => MonthItem(None));
      assert h == top + WeekHeader(setup.dayNames, setup.startDayOfWeek);
      if k == 0 {
        assert h[k] == MonthHeader(first, setup.monthNames);
      } else if k < 7 {
        assert h[k] == top[k] == MonthItem(None);
      } else {
        var w := WeekHeader(setup.dayNames, setup.startDayOfWeek);
        assert h[k] == w[k - 7];
        assert w[k - 7] == WeekdayTitle((setup.startDayOfWeek + k - 7) % 7, setup.dayNames);
      }
    }
    forall i | 0 <= i <= |h|
      ensures DayDates(h[..i]) == []
    {
      DayDatesOfHeaderPrefix(h, i);
    }
    assert h[..|h|] == h;
  }

  lemma {:induction false} DayDatesOfHeaderPrefix(h: seq<Item>, i: nat)
    requires i <= |h| && forall k :: 0 <= k < |h| ==> !h[k].DayItem?
    ensures DayDates(h[..i]) == []
  {
    if i > 0 {
      assert h[..i][..i - 1] == h[..i - 1];
      DayDatesOfHeaderPrefix(h, i - 1);
    }
  }

  /** A month block holds the days of its run, in order, and no other day. */
  lemma DayDatesOfBlock(g: seq<Date>, setup: Setup)
    requires ValidSetup(setup) && |g| > 0
    ensures DayDates(Block(g, setup)) == g
  {
    var h, lb, items := Headers(g[0], setup), Blanks(Lead(g[0], setup.startDayOfWeek)), DayItems(g, setup);
    var tb := Blanks(Trail(|Collected(g, setup)|));
    BlockParts(g, setup);
    var front := h + lb;
    DayDatesOfHeaders(g[0], setup);
    DayDatesOfBlanks(|lb|);
    DayDatesAppend(h, lb);
    assert DayDates(front) == [];
    DayDatesOfDayItems(g, setup);
    DayDatesAppend(front, items);
    assert DayDates(front + items) == g;
    DayDatesOfBlanks(|tb|);
    DayDatesAppend(front + items, tb);
  }

  lemma {:induction false} DayDatesOfBlocks(gs: seq<seq<Date>>, setup: Setup)
    requires ValidSetup(setup) && NonEmptyRuns(gs)
    ensures DayDates(Blocks(gs, setup)) == Flatten(gs)
  {
    if gs != [] {
      var init := gs[..|gs| - 1];
      assert NonEmptyRuns(init);
      DayDatesOfBlocks(init, setup);
      DayDatesOfBlock(Last(gs), setup);
      DayDatesAppend(Blocks(init, setup), Block(Last(gs), setup));
    }
  }

  /** The `i`-th day walked is numbered `i` after the start. */
  lemma WalkOrdinals(start: Date, n: nat)
    ensures forall i :: 0 <= i < n ==> Ordinal(Walk(start, n)[i]) == Ordinal(start) + i
  {
    forall i | 0 <= i < n
      ensures Ordinal(Walk(start, n)[i]) == Ordinal(start) + i
    {
      WalkAt(start, n, i);
      AddDaysOrdinal(start, i);
    }
  }

  /** The walk meets exactly the days numbered from the start's on, `n` of them. */
  lemma WalkCovers(start: Date, n: nat, d: Date)
    ensures d in Walk(start, n) <==> Ordinal(start) <= Ordinal(d) < Ordinal(start) + n
  {
    WalkOrdinals(start, n);
    if Ordinal(start) <= Ordinal(d) < Ordinal(start) + n {
      var i := Ordinal(d) - Ordinal(start);
      OrdinalInjective(Walk(start, n)[i], d);
    }
  }

  /** Every day of the window `[startDate, endDate]` has exactly one day cell in the
      grid, and the day cells come in increasing date order. */
  lemma GridDays(setup: Setup)
    requires ValidSetup(setup)
    ensures var w := setup.windows;
      var ds := DayDates(Grid(setup));
      && ds == Walk(w.startDate, DayCount(w))
      && (forall i, j :: 0 <= i < j < |ds| ==> Ordinal(ds[i]) < Ordinal(ds[j]))
      && (forall d: Date :: d in ds <==> Ordinal(w.startDate) <= Ordinal(d) <= Ordinal(w.endDate))
  {
    var w := setup.windows;
    var n := DayCount(w);
    assert DayDates(Grid(setup)) == Walk(w.startDate, n) by {
      DayDatesOfBlocks(WindowRuns(w), setup);
      GroupsFlatten(Walk(w.startDate, n));
    }
    WalkOrdinals(w.startDate, n);
    forall d: Date
      ensures d in Walk(w.startDate, n) <==> Ordinal(w.startDate) <= Ordinal(d) <= Ordinal(w.endDate)
    {
      WalkCovers(w.startDate, n, d);
    }
  }

  /** The month blocks follow the months of the window in order: each run is one
      month of consecutive days, a month never comes back, and the runs put
      together are the walk. */
  lemma GridMonthRuns(setup: Setup)
    requires ValidSetup(setup)
    ensures var w := setup.windows;
      var gs := WindowRuns(w);
      && Grid(setup) == Blocks(gs, setup)
      && AreMonthRuns(gs) && AreConsecutiveRuns(gs) && HaveIncreasingMonths(gs)
      && Flatten(gs) == Walk(w.startDate, DayCount(w))
  {
    var w := setup.windows;
    GroupsAreMonthRuns(Walk(w.startDate, DayCount(w)));
    WalkGroupsConsecutive(w.startDate, DayCount(w));
    WalkGroupsIncreasing(w.startDate, DayCount(w));
    GroupsFlatten(Walk(w.startDate, DayCount(w)));
  }

  lemma {:induction false} BlocksWholeWeeks(gs: seq<seq<Date>>, setup: Setup)
    requires ValidSetup(setup) && NonEmptyRuns(gs)
    ensures |Blocks(gs, setup)| % 7 == 0
  {
    if gs != [] {
      var init := gs[..|gs| - 1];
      BlocksLength(gs, setup);
      BlocksWholeWeeks(init, setup);
      var front, block := |Blocks(init, setup)|, |Block(Last(gs), setup)|;
      assert front % 7 == 0 && block % 7 == 0;
      WeekShift(front, block);
    }
  }

  /** The blocks of all runs are those of all runs but the last, then the last one's. */
  lemma BlocksLength(gs: seq<seq<Date>>, setup: Setup)
    requires ValidSetup(setup) && NonEmptyRuns(gs) && gs != []
    ensures NonEmptyRuns(gs[..|gs| - 1])
    ensures |Blocks(gs, setup)| == |Blocks(gs[..|gs| - 1], setup)| + |Block(Last(gs), setup)|
  {
    var init := gs[..|gs| - 1];
    forall j | 0 <= j < |init| ensures |init[j]| > 0 {
      assert init[j] == gs[j];
    }
  }

  /** The grid fills whole rows of seven cells. */
  lemma GridWholeWeeks(setup: Setup)
    requires ValidSetup(setup)
    ensures |Grid(setup)| % 7 == 0
  {
    BlocksWholeWeeks(WindowRuns(setup.windows), setup);
  }

  /** The header rows of a block: the titled month cell `"<month name>-<year>"`, six
      untitled month cells, then the weekday titles from the first day of the week. */
  lemma BlockHeaders(g: seq<Date>, setup: Setup)
    requires ValidSetup(setup) && |g| > 0
    ensures var b := Block(g, setup);
      var sdow := setup.startDayOfWeek;
      && b[0] == MonthItem(Some(MonthTitle(MonthKey(g[0].year, g[0].month),
                                           setup.monthNames[g[0].month - 1] + "-" + NatToString(g[0].year))))
      && (forall i :: 1 <= i < 7 ==> b[i] == MonthItem(None))
      && (forall i :: 7 <= i < 14 ==>
            b[i] == WeekdayTitle((sdow + i - 7) % 7, setup.dayNames))
  {
  }

  /** The weekday of the `k`-th day of a run of consecutive days. */
  lemma WeekdayInRun(g: seq<Date>, k: nat)
    requires IsConsecutive(g) && k < |g|
    ensures Weekday(g[k]) == (Weekday(g[0]) + k) % 7
  {
    ModAdd(Ordinal(g[0]) + 1, k);
  }

  /** The column of a day: `lead` blanks put the first day of the run in the column
      of its weekday, so the `k`-th day, after the 14 header cells, lands in the
      column of its own weekday. */
  lemma ColumnOfDay(w0: int, sdow: int, lead: int, k: nat)
    requires 0 <= w0 < 7 && 0 <= sdow < 7 && lead == (w0 - sdow) % 7
    ensures (sdow + (14 + lead + k) % 7) % 7 == (w0 + k) % 7
  {
    var q := (14 + lead + k) / 7;
    assert (14 + lead + k) % 7 == 14 + lead + k - 7 * q;
    var p := if w0 >= sdow then 0 else 1;
    assert lead == w0 - sdow + 7 * p;
    assert sdow + (14 + lead + k) % 7 == (w0 + k) + 7 * (2 + p - q);
    ModShift(w0 + k, 2 + p - q);
  }

  /** Shifting by whole weeks keeps the column. */
  lemma WeekShift(o: int, q: int)
    requires o % 7 == 0
    ensures (o + q) % 7 == q % 7
  {
    ModShift(q, o / 7);
  }

  /** A block laid out: the 14 header cells, `lead` blanks, the days of the run,
      then the trailing blanks. */
  lemma BlockParts(g: seq<Date>, setup: Setup)
    requires ValidSetup(setup) && |g| > 0
    ensures var c := Collected(g, setup);
      Block(g, setup) == Headers(g[0], setup) + Blanks(Lead(g[0], setup.startDayOfWeek))
        + DayItems(g, setup) + Blanks(Trail(|c|))
  {
  }

  /** In a block the header rows are followed by `lead` blanks. */
  lemma BlockLeadBlanks(g: seq<Date>, setup: Setup)
    requires ValidSetup(setup) && |g| > 0
    ensures var b := Block(g, setup);
      var lead := Lead(g[0], setup.startDayOfWeek);
      14 + lead <= |b| && forall i :: 14 <= i < 14 + lead ==> b[i] == BlankItem
  {
    var b := Block(g, setup);
    var lb := Blanks(Lead(g[0], setup.startDayOfWeek));
    var rest := DayItems(g, setup) + Blanks(Trail(|Collected(g, setup)|));
    BlockParts(g, setup);
    assert b == Headers(g[0], setup) + (lb + rest);
    forall i | 14 <= i < 14 + |lb|
      ensures b[i] == BlankItem
    {
      assert b[i] == lb[i - 14];
    }
  }

  /** In a block the `k`-th day of the run is at position `14 + lead + k`. */
  lemma BlockDayAt(g: seq<Date>, setup: Setup, k: nat)
    requires ValidSetup(setup) && k < |g|
    ensures var b := Block(g, setup);
      var p := 14 + Lead(g[0], setup.startDayOfWeek) + k;
      p < |b| && b[p] == DayItem(DayPropsOf(g[k], setup))
  {
    var b := Block(g, setup);
    var front := Headers(g[0], setup) + Blanks(Lead(g[0], setup.startDayOfWeek));
    var items := DayItems(g, setup);
    BlockParts(g, setup);
    assert b == front + items + Blanks(Trail(|Collected(g, setup)|));
    DayItemsAt(g, setup, k);
    assert b[|front| + k] == items[k];
  }

  /** In a block the days of the run are followed by blanks only. */
  lemma BlockTrailBlanks(g: seq<Date>, setup: Setup)
    requires ValidSetup(setup) && |g| > 0
    ensures var b := Block(g, setup);
      forall i :: 14 + Lead(g[0], setup.startDayOfWeek) + |g| <= i < |b| ==> b[i] == BlankItem
  {
    var b := Block(g, setup);
    var front := Headers(g[0], setup) + Blanks(Lead(g[0], setup.startDayOfWeek)) + DayItems(g, setup);
    var tb := Blanks(Trail(|Collected(g, setup)|));
    BlockParts(g, setup);
    assert b == front + tb;
    forall i | |front| <= i < |b|
      ensures b[i] == BlankItem
    {
      assert b[i] == tb[i - |front|];
    }
  }

  /** The weekday title in the column of the `k`-th day of a run of consecutive days
      names that day's own weekday. */
  lemma BlockColumnTitle(g: seq<Date>, setup: Setup, k: nat)
    requires ValidSetup(setup) && IsConsecutive(g) && k < |g|
    ensures var b := Block(g, setup);
      var p := 14 + Lead(g[0], setup.startDayOfWeek) + k;
      && 14 <= |b|
      && b[7 + p % 7] == WeekdayTitle(Weekday(g[k]), setup.dayNames)
  {
    var sdow := setup.startDayOfWeek;
    var lead := Lead(g[0], sdow);
    var x := (14 + lead + k) % 7;
    WeekdayInRun(g, k);
    ColumnOfDay(Weekday(g[0]), sdow, lead, k);
    HeaderColumn(g[0], setup, x);
    var h := Headers(g[0], setup);
    assert Block(g, setup) == h + Section(g, setup);
    assert Block(g, setup)[7 + x] == h[7 + x];
  }

  /** The header cell in column `x` of the weekday row titles day `(startDayOfWeek + x) % 7`. */
  lemma HeaderColumn(first: Date, setup: Setup, x: int)
    requires ValidSetup(setup) && 0 <= x < 7
    ensures var wd := (setup.startDayOfWeek + x) % 7;
      Headers(first, setup)[7 + x] == WeekdayTitle(wd, setup.dayNames)
  {
    assert Headers(first, setup)[7 + x] == WeekHeader(setup.dayNames, setup.startDayOfWeek)[x];
  }

  lemma {:induction false} BlocksPrefix(gs: seq<seq<Date>>, setup: Setup, j: nat)
    requires ValidSetup(setup) && NonEmptyRuns(gs) && j <= |gs|
    ensures NonEmptyRuns(gs[..j]) && Blocks(gs[..j], setup) <= Blocks(gs, setup)
  {
    if j < |gs| {
      var init := gs[..|gs| - 1];
      assert NonEmptyRuns(init);
      BlocksPrefix(init, setup, j);
      assert init[..j] == gs[..j];
    } else {
      assert gs[..j] == gs;
    }
  }

  /** Block `j` of a sequence of blocks starts at a multiple of seven, the first
      column, and holds the `k`-th day of its run at offset `q`. */
  lemma BlocksDayAt(gs: seq<seq<Date>>, setup: Setup, j: nat, k: nat)
    requires ValidSetup(setup) && NonEmptyRuns(gs) && j < |gs| && k < |gs[j]|
    ensures var all := Blocks(gs, setup);
      var o := |Blocks(gs[..j], setup)|;
      var q := 14 + Lead(gs[j][0], setup.startDayOfWeek) + k;
      && o % 7 == 0
      && o + q < |all| && all[o + q] == DayItem(DayPropsOf(gs[j][k], setup))
  {
    BlocksStep(gs, setup, j);
    BlocksPrefix(gs, setup, j + 1);
    BlocksWholeWeeks(gs[..j], setup);
    BlockDayAt(gs[j], setup, k);
    var q := 14 + Lead(gs[j][0], setup.startDayOfWeek) + k;
    InPrefix(Blocks(gs[..j], setup), Block(gs[j], setup), Blocks(gs, setup), q);
  }

  /** A cell of the last part of a prefix is the cell at the same place of the whole. */
  lemma InPrefix<T>(a: seq<T>, b: seq<T>, all: seq<T>, x: nat)
    requires a + b <= all && x < |b|
    ensures |a| + x < |all| && all[|a| + x] == b[x]
  {
    assert (a + b)[|a| + x] == b[x];
  }

}
