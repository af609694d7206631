/** The grid builder (`genCalendarData`) and the date helpers around it. Dates are
    whole days (see `Dates`); the key that `toLocaleDateString` gives a day is
    modelled by its `Ordinal`. `today` (`new Date()` in the source) is a parameter. */
module HelperCalendar {
  import opened Wrappers
  import opened Dates
  import opened Text
  import opened MonthRuns

  /** `DayOfWeek`: the numbering of `getDay`. */
  const SUN := 0
  const MON := 1
  const TUE := 2
  const WED := 3
  const THU := 4
  const FRI := 5
  const SAT := 6

  /** `getDay`'s numbering pinned to the calendar: 0001-01-01 was a Monday,
      2000-02-29 a Tuesday, and the first week of 2022 ran from Saturday to Friday. */
  lemma WeekdayAnchors()
    ensures Weekday(CalendarDate(1, 1, 1)) == MON
    ensures Weekday(CalendarDate(2000, 2, 29)) == TUE
    ensures Weekday(CalendarDate(2022, 1, 1)) == SAT
    ensures Weekday(CalendarDate(2022, 1, 2)) == SUN
    ensures Weekday(CalendarDate(2022, 1, 3)) == MON
    ensures Weekday(CalendarDate(2022, 1, 4)) == TUE
    ensures Weekday(CalendarDate(2022, 1, 5)) == WED
    ensures Weekday(CalendarDate(2022, 1, 6)) == THU
    ensures Weekday(CalendarDate(2022, 1, 7)) == FRI
  {
    DaysBeforeYearClosed(2000);
    assert DaysBeforeYear(2000) == 730119;
    DaysBeforeYearClosed(2022);
    assert DaysBeforeYear(2022) == 738155;
  }

  /** The default labels and options of `genCalendarData`. */
  const MONTH_NAMES_DEFAULT: seq<string> := ["January", "February", "March", "April", "May", "June",
    "July", "August", "September", "October", "November", "December"]
  const DAY_NAMES_DEFAULT: seq<string> := ["Sun", "Mon", "Tue", "Wed", "Thu", "Fri", "Sat"]
  const MAX_MONTHS_DEFAULT := 3
  const START_DAY_OF_WEEK_DEFAULT := MON

  datatype DayStatus =
    | NotChosen           // 'NONE'
    | SingleChosen        // 'SINGLE_CHOSEN'
    | RangeBeginChosen    // 'RANGE_BEGIN_CHOSEN'
    | RangeMiddleChosen   // 'RANGE_MIDDLE_CHOSEN'
    | RangeEndChosen      // 'RANGE_END_CHOSEN'

  datatype Color = Red | Green | Black

  /** `getDayTitleColor`: green for Saturday, red for Sunday, black otherwise. */
  function DayTitleColor(dayOfWeek: int): (r: Color)
    ensures r == Red <==> dayOfWeek == SUN
    ensures r == Green <==> dayOfWeek == SAT
  {
    if dayOfWeek == SAT then Green else if dayOfWeek == SUN then Red else Black
  }

  datatype DayProps = DayProps(date: Date, available: bool, dayTitleColor: Color, isToday: bool, status: DayStatus)

  datatype MonthTitle = MonthTitle(monthOfYear: string, monthTitle: string)

  /** One cell of the flat list the grid builder returns. */
  datatype Item =
    | MonthItem(title: Option<MonthTitle>)                  // { type: 'month', … }
    | DayOfWeekItem(dayTitleColor: Color, dayTitle: string)  // { type: 'dayOfWeek', … }
    | BlankItem                                               // {}
    | DayItem(props: DayProps)                                // a day

  /** The status the walk gives the day numbered `day` for the selection
      (`startChoose`, `endChoose`): the source's chain of tests, where a later
      assignment overrides an earlier one. */
  function StatusOf(day: int, startChoose: Option<Date>, endChoose: Option<Date>): (r: DayStatus)
    // no selection: nothing is marked
    ensures startChoose.None? && endChoose.None? ==> r == NotChosen
    // one end only: that day alone is marked single
    ensures startChoose.Some? && endChoose.None? ==>
      r == if day == Ordinal(startChoose.value) then SingleChosen else NotChosen
    ensures startChoose.None? && endChoose.Some? ==>
      r == if day == Ordinal(endChoose.value) then SingleChosen else NotChosen
    // both ends on one day: that day is marked single
    ensures startChoose.Some? && endChoose.Some? && startChoose.value == endChoose.value ==>
      r == if day == Ordinal(startChoose.value) then SingleChosen else NotChosen
    // two different ends: begin, end, and the days strictly between
    ensures startChoose.Some? && endChoose.Some? && Ordinal(startChoose.value) != Ordinal(endChoose.value) ==>
      var s, e := Ordinal(startChoose.value), Ordinal(endChoose.value);
      r == if day == s then RangeBeginChosen
           else if day == e then RangeEndChosen
           else if s < day < e then RangeMiddleChosen
           else NotChosen
  {
    if startChoose.Some? then
      var s := Ordinal(startChoose.value);
      if endChoose.Some? then
        var e := Ordinal(endChoose.value);
        if s == e then
          (if day == s then SingleChosen else NotChosen)
        else
          var st1 := if s < day < e then RangeMiddleChosen else NotChosen;
          var st2 := if day == s then RangeBeginChosen else st1;
          if day == e then RangeEndChosen else st2
      else if day == s then SingleChosen
      else NotChosen
    else if endChoose.Some? then
      (if day == Ordinal(endChoose.value) then SingleChosen else NotChosen)
    else NotChosen
  }

  /** A selection whose end, when both ends are present, is not before its start. */
  predicate Ordered(startChoose: Option<Date>, endChoose: Option<Date>) {
    startChoose.Some? && endChoose.Some? ==> Ordinal(startChoose.value) <= Ordinal(endChoose.value)
  }

  /** The days a selection covers: the closed interval between two ends, or the one
      end present, or nothing. */
  predicate InSelection(day: int, startChoose: Option<Date>, endChoose: Option<Date>) {
    match (startChoose, endChoose)
    case (Some(s), Some(e)) => Ordinal(s) <= day <= Ordinal(e)
    case (Some(s), None) => day == Ordinal(s)
    case (None, Some(e)) => day == Ordinal(e)
    case (None, None) => false
  }

  /** The `n` consecutive numbers from `lo`. */
  function Interval(lo: int, n: nat): (r: seq<int>)
    ensures |r| == n && forall i :: 0 <= i < n ==> r[i] == lo + i
  {
    seq(n, i => lo + i)
  }

  lemma IntervalMembers(lo: int, n: nat)
    ensures forall k :: k in Interval(lo, n) <==> lo <= k < lo + n
  {
    var keys := Interval(lo, n);
    forall k | lo <= k < lo + n
      ensures k in keys
    {
      assert keys[k - lo] == k;
    }
  }

  lemma IntervalSnoc(lo: int, n: nat)
    ensures Interval(lo, n + 1) == Interval(lo, n) + [lo + n]
  {
  }

  /** `getDateInRange` as a value: the keys from start to end inclusive, the key of
      the one end given, or `undefined`. */
  function RangeKeys(startDate: Option<Date>, endDate: Option<Date>): (r: Option<seq<int>>)
    ensures r.None? <==> startDate.None? && endDate.None?
    ensures startDate.Some? && endDate.Some? ==>
      && (forall k :: k in r.value <==> Ordinal(startDate.value) <= k <= Ordinal(endDate.value))
      && (forall i :: 0 <= i < |r.value| ==> r.value[i] == Ordinal(startDate.value) + i)
    ensures startDate.Some? && endDate.None? ==> r == Some([Ordinal(startDate.value)])
    ensures startDate.None? && endDate.Some? ==> r == Some([Ordinal(endDate.value)])
  {
    match (startDate, endDate)
    case (Some(s), Some(e)) =>
      var n := if Ordinal(e) >= Ordinal(s) then Ordinal(e) - Ordinal(s) + 1 else 0;
      IntervalMembers(Ordinal(s), n);
      Some(Interval(Ordinal(s), n))
    case (Some(s), None) => Some([Ordinal(s)])
    case (None, Some(e)) => Some([Ordinal(e)])
    case (None, None) => None
  }

  /** `getDateInRange`: walks from the start day to the end day collecting keys. */
  method GetDateInRange(startDate: Option<Date>, endDate: Option<Date>) returns (r: Option<seq<int>>)
    ensures r == RangeKeys(startDate, endDate)
  {
    if startDate.Some? {
      if endDate.Some? {
        var s, e := startDate.value, endDate.value;
        var a: seq<int> := [];
        var d := s;
        ghost var k: nat := 0;
        while Ordinal(d) <= Ordinal(e)
          invariant Ordinal(d) == Ordinal(s) + k
          invariant k <= if Ordinal(e) >= Ordinal(s) then Ordinal(e) - Ordinal(s) + 1 else 0
          invariant a == Interval(Ordinal(s), k)
          decreases Ordinal(e) - Ordinal(d)
        {
          IntervalSnoc(Ordinal(s), k);
          a := a + [Ordinal(d)];
          NextDayOrdinal(d);
          d := NextDay(d);
          k := k + 1;
        }
        return Some(a);
      }
      return Some([Ordinal(startDate.value)]);
    }
    if endDate.Some? {
      return Some([Ordinal(endDate.value)]);
    }
    return None;
  }

  /** The four dates `genCalendarData` settles before walking. */
  datatype Windows = Windows(startDate: Date, endDate: Date, availableStartDate: Date, availableEndDate: Date)

  predicate IsLastDayOfMonth(d: Date) {
    NextDay(d).day == 1
  }

  /** Window resolution of `genCalendarData`. */
  function ResolveWindows(today: Date, fullDateRange: Option<(Date, Date)>,
                          availableDateRange: Option<(Date, Date)>, maxMonths: int): (w: Windows)
    requires availableDateRange.None? ==> today.month + maxMonths >= 2
    ensures fullDateRange.Some? ==> (w.startDate, w.endDate) == fullDateRange.value
    ensures fullDateRange.None? ==> w.startDate.day == 1 && SameMonth(w.startDate, today)
    ensures fullDateRange.None? && availableDateRange.Some? ==>
      IsLastDayOfMonth(w.endDate) && SameMonth(w.endDate, availableDateRange.value.1)
    ensures fullDateRange.None? && availableDateRange.None? ==> w.endDate == w.availableEndDate
    ensures availableDateRange.Some? ==>
      (w.availableStartDate, w.availableEndDate) == availableDateRange.value
    ensures availableDateRange.None? ==>
      && w.availableStartDate == today
      && IsLastDayOfMonth(w.availableEndDate)
      && MonthIndex(w.availableEndDate) == MonthIndex(today) + maxMonths - 1
  {
    if fullDateRange.Some? then
      var (startDate, endDate) := fullDateRange.value;
      if availableDateRange.Some? then
        var (availableStartDate, availableEndDate) := availableDateRange.value;
        Windows(startDate, endDate, availableStartDate, availableEndDate)
      else
        Windows(startDate, endDate, today, LastDateOfNextMonth(today, maxMonths))
    else
      var startDate := FirstDayOfMonth(today);
      if availableDateRange.Some? then
        var (availableStartDate, availableEndDate) := availableDateRange.value;
        var endDate := LastDateOfMonth(availableEndDate.year, availableEndDate.month - 1);
        Windows(startDate, endDate, availableStartDate, availableEndDate)
      else
        var availableEndDate := LastDateOfNextMonth(today, maxMonths);
        Windows(startDate, availableEndDate, today, availableEndDate)
  }

  /** Everything the cells depend on once the windows are settled. */
  datatype Setup = Setup(
    startChoose: Option<Date>, endChoose: Option<Date>, windows: Windows, today: Date,
    monthNames: seq<string>, dayNames: seq<string>, startDayOfWeek: int)

  predicate ValidSetup(setup: Setup) {
    |setup.monthNames| == 12 && |setup.dayNames| == 7 && 0 <= setup.startDayOfWeek < 7
  }

  /** Number of days from the window's start to its end, inclusive. */
  function DayCount(w: Windows): nat {
    if Ordinal(w.endDate) >= Ordinal(w.startDate) then Ordinal(w.endDate) - Ordinal(w.startDate) + 1 else 0
  }

  /** The fields the walk gives the cell of day `d`. */
  function DayPropsOf(d: Date, setup: Setup): DayProps {
    var w := setup.windows;
    DayProps(
      d,
      Ordinal(w.availableStartDate) <= Ordinal(d) <= Ordinal(w.availableEndDate),
      DayTitleColor(Weekday(d)),
      Ordinal(d) == Ordinal(setup.today),
      StatusOf(Ordinal(d), setup.startChoose, setup.endChoose))
  }

  function DayItems(g: seq<Date>, setup: Setup): (r: seq<Item>)
    ensures |r| == |g|
  {
    if g == [] then [] else DayItems(g[..|g| - 1], setup) + [DayItem(DayPropsOf(Last(g), setup))]
  }

  lemma {:induction false} DayItemsAt(g: seq<Date>, setup: Setup, k: nat)
    requires k < |g|
    ensures DayItems(g, setup)[k] == DayItem(DayPropsOf(g[k], setup))
  {
    if k < |g| - 1 {
      DayItemsAt(g[..|g| - 1], setup, k);
    }
  }

  function Blanks(n: nat): (r: seq<Item>)
    ensures |r| == n && forall i :: 0 <= i < n ==> r[i] == BlankItem
  {
    seq(n, _ => BlankItem)
  }

  /** Blanks before the first day of a month: its weekday counted from the first
      day of the week. */
  function Lead(first: Date, startDayOfWeek: int): (r: int)
    ensures 0 <= r < 7
    ensures r == (Weekday(first) - startDayOfWeek) % 7
  {
    LeadIsOffset(Weekday(first), startDayOfWeek);
    (Weekday(first) + (7 - startDayOfWeek % 7) % 7) % 7
  }

  lemma LeadIsOffset(w: int, sdow: int)
    ensures (w + (7 - sdow % 7) % 7) % 7 == (w - sdow) % 7
  {
    var q := sdow / 7;
    var k := if sdow % 7 == 0 then q else q + 1;
    assert w + (7 - sdow % 7) % 7 == (w - sdow) + 7 * k;
    ModShift(w - sdow, k);
  }

  lemma ModShift(a: int, k: int)
    ensures (a + 7 * k) % 7 == a % 7
  {
    var q := a / 7;
    assert a + 7 * k == 7 * (q + k) + a % 7;
  }

  /** Blanks that complete the last week of a month section of length `len`. */
  function Trail(len: int): (r: int)
    ensures 0 <= r < 7 && (len + r) % 7 == 0
  {
    (7 - len % 7) % 7
  }

  /** The month's entry in the dictionary after the walk: leading blanks, then its days. */
  function Collected(g: seq<Date>, setup: Setup): seq<Item>
    requires |g| > 0
  {
    Blanks(Lead(g[0], setup.startDayOfWeek)) + DayItems(g, setup)
  }

  /** An entry completed with blanks to a whole number of weeks. */
  function Pad(c: seq<Item>): (r: seq<Item>)
    ensures |r| % 7 == 0 && |c| <= |r| <= |c| + 6
    ensures r[..|c|] == c && forall i :: |c| <= i < |r| ==> r[i] == BlankItem
  {
    c + Blanks(Trail(|c|))
  }

  /** The entry of a month after the padding pass. */
  function Section(g: seq<Date>, setup: Setup): seq<Item>
    requires |g| > 0
  {
    Pad(Collected(g, setup))
  }

  /** The titled month cell: the month's identifier and `"<name>-<year>"`. */
  function MonthHeader(first: Date, monthNames: seq<string>): Item
    requires |monthNames| == 12
  {
    MonthItem(Some(MonthTitle(MonthKey(first.year, first.month),
                              monthNames[first.month - 1] + "-" + NatToString(first.year))))
  }

  /** The title cell of weekday `dayOfWeek`: its short name, in its colour. */
  function WeekdayTitle(dayOfWeek: int, dayNames: seq<string>): (r: Item)
    requires |dayNames| == 7 && 0 <= dayOfWeek < 7
    ensures r.DayOfWeekItem? && r.dayTitle == dayNames[dayOfWeek]
    ensures r.dayTitleColor == Red <==> dayOfWeek == SUN
    ensures r.dayTitleColor == Green <==> dayOfWeek == SAT
  {
    DayOfWeekItem(DayTitleColor(dayOfWeek), dayNames[dayOfWeek])
  }

  /** The seven weekday title cells the emission pass pushes: the `i`-th titles the
      day `(startDayOfWeek + i) % 7` in `getDay` numbering. */
  function WeekHeader(dayNames: seq<string>, startDayOfWeek: int): (r: seq<Item>)
    requires |dayNames| == 7
    ensures |r| == 7
  {
    seq(7, i requires 0 <= i < 7 => WeekdayTitle((startDayOfWeek + i) % 7, dayNames))
  }

  /** The 14 header cells of a month: the titled month cell, six untitled ones,
      then the seven weekday titles starting at the first day of the week. */
  function Headers(first: Date, setup: Setup): (r: seq<Item>)
    requires ValidSetup(setup)
    ensures |r| == 14
  {
    [MonthHeader(first, setup.monthNames)] + seq(6, _ => MonthItem(None))
      + WeekHeader(setup.dayNames, setup.startDayOfWeek)
  }

  function Block(g: seq<Date>, setup: Setup): (r: seq<Item>)
    requires ValidSetup(setup) && |g| > 0
    ensures |r| % 7 == 0
  {
    var h, c := Headers(g[0], setup), Section(g, setup);
    ModShift(|c|, 2);
    h + c
  }

  predicate NonEmptyRuns(gs: seq<seq<Date>>) {
    forall j :: 0 <= j < |gs| ==> |gs[j]| > 0
  }

  function Blocks(gs: seq<seq<Date>>, setup: Setup): seq<Item>
    requires ValidSetup(setup) && NonEmptyRuns(gs)
  {
    if gs == [] then [] else Blocks(gs[..|gs| - 1], setup) + Block(Last(gs), setup)
  }

  /** The month runs of the visible window. */
  function WindowRuns(w: Windows): (gs: seq<seq<Date>>)
    ensures NonEmptyRuns(gs)
  {
    var gs: seq<seq<Date>> := Groups(Walk(w.startDate, DayCount(w)));
    GroupsAreMonthRuns(Walk(w.startDate, DayCount(w)));
    assert forall j :: 0 <= j < |gs| ==> IsMonthRun(gs[j]);
    gs
  }

  /** The grid: one block per month run of the visible window, in order. */
  function Grid(setup: Setup): seq<Item>
    requires ValidSetup(setup)
  {
    Blocks(WindowRuns(setup.windows), setup)
  }

  /** `md` holds `vals[j]` under `keys[j]`, and no other key. */
  predicate Holds<K, V(==)>(md: map<K, V>, keys: seq<K>, vals: seq<V>) {
    && |keys| == |vals|
    && (forall j :: 0 <= j < |keys| ==> keys[j] in md && md[keys[j]] == vals[j])
    && (forall k :: k in md ==> k in keys)
  }

  predicate Distinct<K(==)>(keys: seq<K>) {
    forall j, j' :: 0 <= j < j' < |keys| ==> keys[j] != keys[j']
  }

  /** Appending `x` to the entry of the last key. */
  lemma HoldsAppendLast<K, V>(md: map<K, seq<V>>, keys: seq<K>, vals: seq<seq<V>>, x: V)
    requires Holds(md, keys, vals) && Distinct(keys) && |keys| > 0
    ensures var l := |keys| - 1;
      Holds(md[keys[l] := md[keys[l]] + [x]], keys, vals[..l] + [vals[l] + [x]])
  {
    var l := |keys| - 1;
    var md' := md[keys[l] := md[keys[l]] + [x]];
    var vals' := vals[..l] + [vals[l] + [x]];
    forall j | 0 <= j < |keys|
      ensures keys[j] in md' && md'[keys[j]] == vals'[j]
    {
      if j < l {
        assert keys[j] != keys[l];
      }
    }
  }

  /** Adding an entry under a key not yet present. */
  lemma HoldsAddNew<K, V>(md: map<K, V>, keys: seq<K>, vals: seq<V>, k: K, v: V)
    requires Holds(md, keys, vals) && k !in md
    ensures Holds(md[k := v], keys + [k], vals + [v])
  {
    forall j | 0 <= j < |keys|
      ensures keys[j] != k
    {
      assert keys[j] in md;
    }
  }

  /** The month identifiers of the runs `gs`. */
  function RunKeys(gs: seq<seq<Date>>): (r: seq<string>)
    requires NonEmptyRuns(gs)
    ensures |r| == |gs|
  {
    seq(|gs|, j requires 0 <= j < |gs| => MonthKey(gs[j][0].year, gs[j][0].month))
  }

  /** The dictionary entries after the walk, one per run. */
  function Entries(gs: seq<seq<Date>>, setup: Setup): (r: seq<seq<Item>>)
    requires NonEmptyRuns(gs)
    ensures |r| == |gs|
  {
    seq(|gs|, j requires 0 <= j < |gs| => Collected(gs[j], setup))
  }

  /** The dictionary `monthDay` and the order of its keys after walking the runs
      `gs`: one entry per run, keyed by the run's month identifier, holding the
      run's leading blanks and days. */
  ghost predicate CollectedState(monthDay: map<string, seq<Item>>, keys: seq<string>,
                                 gs: seq<seq<Date>>, setup: Setup)
  {
    NonEmptyRuns(gs) && keys == RunKeys(gs) && Holds(monthDay, keys, Entries(gs, setup))
  }

  /** Months of a walk have distinct identifiers. */
  lemma WalkKeysDistinct(start: Date, n: nat)
    ensures NonEmptyRuns(Groups(Walk(start, n))) && Distinct(RunKeys(Groups(Walk(start, n))))
  {
    var gs: seq<seq<Date>> := Groups(Walk(start, n));
    GroupsAreMonthRuns(Walk(start, n));
    assert NonEmptyRuns(gs);
    var keys := RunKeys(gs);
    WalkGroupsIncreasing(start, n);
    forall j, j' | 0 <= j < j' < |keys|
      ensures keys[j] != keys[j']
    {
      if keys[j] == keys[j'] {
        MonthKeyInjective(gs[j][0].year, gs[j][0].month, gs[j'][0].year, gs[j'][0].month);
      }
    }
  }

  lemma CollectedSnoc(g: seq<Date>, d: Date, setup: Setup)
    requires |g| > 0
    ensures Collected(g + [d], setup) == Collected(g, setup) + [DayItem(DayPropsOf(d, setup))]
  {
    var g' := g + [d];
    assert g'[..|g'| - 1] == g;
  }

  /** Extending the last run by `d` extends its entry by the cell of `d` and keeps
      the identifiers. */
  lemma RunsAppendLast(gs: seq<seq<Date>>, setup: Setup, d: Date)
    requires NonEmptyRuns(gs) && |gs| > 0
    ensures var l := |gs| - 1;
      var gs': seq<seq<Date>> := gs[..l] + [gs[l] + [d]];
      && NonEmptyRuns(gs')
      && RunKeys(gs') == RunKeys(gs)
      && Entries(gs', setup) == Entries(gs, setup)[..l] + [Entries(gs, setup)[l] + [DayItem(DayPropsOf(d, setup))]]
  {
    var l := |gs| - 1;
    var gs': seq<seq<Date>> := gs[..l] + [gs[l] + [d]];
    assert NonEmptyRuns(gs');
    CollectedSnoc(gs[l], d, setup);
    var e, e' := Entries(gs, setup), Entries(gs', setup);
    var expected := e[..l] + [e[l] + [DayItem(DayPropsOf(d, setup))]];
    forall j | 0 <= j < |gs'|
      ensures e'[j] == expected[j]
      ensures RunKeys(gs')[j] == RunKeys(gs)[j]
    {
      if j < l {
        assert gs'[j] == gs[j];
      } else {
        assert gs'[j] == gs[l] + [d];
      }
      assert gs'[j][0] == gs[j][0];
    }
    assert e' == expected;
    assert RunKeys(gs') == RunKeys(gs);
  }

  /** Adding a run `[d]` adds its entry and its identifier. */
  lemma RunsAddNew(gs: seq<seq<Date>>, setup: Setup, d: Date)
    requires NonEmptyRuns(gs)
    ensures var gs' := gs + [[d]];
      && NonEmptyRuns(gs')
      && RunKeys(gs') == RunKeys(gs) + [MonthKey(d.year, d.month)]
      && Entries(gs', setup) == Entries(gs, setup) + [Blanks(Lead(d, setup.startDayOfWeek)) + [DayItem(DayPropsOf(d, setup))]]
  {
    var gs' := gs + [[d]];
    assert NonEmptyRuns(gs');
    assert [d][..0] == [];
    assert DayItems([d], setup) == [DayItem(DayPropsOf(d, setup))];
    assert Entries(gs', setup)[|gs|] == Blanks(Lead(d, setup.startDayOfWeek)) + [DayItem(DayPropsOf(d, setup))];
    assert RunKeys(gs') == RunKeys(gs) + [MonthKey(d.year, d.month)];
  }

  /** Adding a day to the entry of the last run. */
  lemma CollectIntoLast(monthDay: map<string, seq<Item>>, keys: seq<string>, gs: seq<seq<Date>>,
                        setup: Setup, d: Date)
    requires CollectedState(monthDay, keys, gs, setup)
    requires |gs| > 0 && MonthKey(d.year, d.month) == Last(keys) && Distinct(keys)
    ensures var key := Last(keys);
      CollectedState(monthDay[key := monthDay[key] + [DayItem(DayPropsOf(d, setup))]],
                     keys, gs[..|gs| - 1] + [Last(gs) + [d]], setup)
  {
    HoldsAppendLast(monthDay, keys, Entries(gs, setup), DayItem(DayPropsOf(d, setup)));
    RunsAppendLast(gs, setup, d);
  }

  /** Opening the entry of a new run. */
  lemma CollectNewRun(monthDay: map<string, seq<Item>>, keys: seq<string>, gs: seq<seq<Date>>,
                      setup: Setup, d: Date)
    requires CollectedState(monthDay, keys, gs, setup)
    requires MonthKey(d.year, d.month) !in monthDay
    ensures var key := MonthKey(d.year, d.month);
      CollectedState(monthDay[key := Blanks(Lead(d, setup.startDayOfWeek)) + [DayItem(DayPropsOf(d, setup))]],
                     keys + [key], gs + [[d]], setup)
  {
    var key := MonthKey(d.year, d.month);
    var c := Blanks(Lead(d, setup.startDayOfWeek)) + [DayItem(DayPropsOf(d, setup))];
    HoldsAddNew(monthDay, keys, Entries(gs, setup), key, c);
    RunsAddNew(gs, setup, d);
  }

  /** In the walk, a day sharing the last run's month has that run's identifier. */
  lemma WalkKeySameMonth(start: Date, n: nat)
    requires |Groups(Walk(start, n))| > 0
    requires SameMonth(Last(Last(Groups(Walk(start, n)))), AddDays(start, n))
    ensures NonEmptyRuns(Groups(Walk(start, n)))
    ensures MonthKey(AddDays(start, n).year, AddDays(start, n).month) == Last(RunKeys(Groups(Walk(start, n))))
  {
    var d := AddDays(start, n);
    var gs0: seq<seq<Date>> := Groups(Walk(start, n));
    var l := |gs0| - 1;
    GroupsAreMonthRuns(Walk(start, n));
    assert IsMonthRun(gs0[l]);
    assert NonEmptyRuns(gs0);
    assert SameMonth(gs0[l][0], d);
    SameMonthFields(gs0[l][0], d);
  }

  /** In the walk, a day of another month than the last run's has an identifier no
      run has yet: the walk never returns to a month. */
  lemma WalkKeyFresh(start: Date, n: nat)
    requires !(|Groups(Walk(start, n))| > 0 && SameMonth(Last(Last(Groups(Walk(start, n)))), AddDays(start, n)))
    ensures NonEmptyRuns(Groups(Walk(start, n)))
    ensures MonthKey(AddDays(start, n).year, AddDays(start, n).month) !in RunKeys(Groups(Walk(start, n)))
  {
    var d := AddDays(start, n);
    var gs0: seq<seq<Date>> := Groups(Walk(start, n));
    GroupsAreMonthRuns(Walk(start, n));
    assert NonEmptyRuns(gs0);
    var keys := RunKeys(gs0);
    if MonthKey(d.year, d.month) in keys {
      var j :| 0 <= j < |keys| && keys[j] == MonthKey(d.year, d.month);
      var l := |gs0| - 1;
      MonthKeyInjective(gs0[j][0].year, gs0[j][0].month, d.year, d.month);
      NewRunLaterMonth(start, n);
      if j < l {
        WalkGroupsIncreasing(start, n);
      }
    }
  }

  /** Replacing the entry of one key of a dictionary whose keys are distinct. */
  lemma HoldsUpdateAt<K, V>(md: map<K, V>, keys: seq<K>, vals: seq<V>, i: nat, v: V)
    requires Holds(md, keys, vals) && Distinct(keys) && i < |keys|
    ensures Holds(md[keys[i] := v], keys, vals[i := v])
  {
    var md' := md[keys[i] := v];
    forall j | 0 <= j < |keys|
      ensures keys[j] in md' && md'[keys[j]] == vals[i := v][j]
    {
      if j != i {
        assert keys[j] != keys[i];
      }
    }
  }

  /** The entries `es` while the padding pass is at index `i`: padded before `i`,
      untouched from `i` on. */
  function PartlyPadded(es: seq<seq<Item>>, i: nat): (r: seq<seq<Item>>)
    ensures |r| == |es|
  {
    seq(|es|, j requires 0 <= j < |es| => if j < i then Pad(es[j]) else es[j])
  }

  /** Padding the entry of key `i` advances the padding pass. */
  lemma PadStep(monthDay: map<string, seq<Item>>, keys: seq<string>, es: seq<seq<Item>>, i: nat)
    requires i < |es| && Distinct(keys)
    requires Holds(monthDay, keys, PartlyPadded(es, i))
    ensures keys[i] in monthDay
    ensures Holds(monthDay[keys[i] := Pad(monthDay[keys[i]])], keys, PartlyPadded(es, i + 1))
  {
    var mixed := PartlyPadded(es, i);
    HoldsUpdateAt(monthDay, keys, mixed, i, Pad(es[i]));
    assert PartlyPadded(es, i + 1) == mixed[i := Pad(es[i])];
  }

  /** Padding every entry of the walk gives each run's section. */
  lemma PaddedEntries(gs: seq<seq<Date>>, setup: Setup, j: nat)
    requires NonEmptyRuns(gs) && j < |gs|
    ensures PartlyPadded(Entries(gs, setup), |gs|)[j] == Section(gs[j], setup)
  {
  }

  lemma BlocksStep(gs: seq<seq<Date>>, setup: Setup, i: nat)
    requires ValidSetup(setup) && NonEmptyRuns(gs) && i < |gs|
    ensures NonEmptyRuns(gs[..i]) && NonEmptyRuns(gs[..i + 1])
    ensures Blocks(gs[..i + 1], setup) == Blocks(gs[..i], setup) + Block(gs[i], setup)
  {
    assert gs[..i + 1][..i] == gs[..i];
  }

  lemma UpdateTwice<K, V>(m: map<K, seq<V>>, k: K, first: seq<V>, more: seq<V>)
    ensures m[k := first][k := m[k := first][k] + more] == m[k := first + more]
  {
  }

  /** The dictionary and key order after recording the day `d`: its cell is appended
      to the entry of its month, which is first created with the month's leading
      blanks (and its identifier appended to the key order) when it does not exist. */
  predicate Recorded(monthDay0: map<string, seq<Item>>, keys0: seq<string>, d: Date, setup: Setup,
                     monthDay: map<string, seq<Item>>, keys: seq<string>)
  {
    var key := MonthKey(d.year, d.month);
    var item := DayItem(DayPropsOf(d, setup));
    if key in monthDay0 then
      monthDay == monthDay0[key := monthDay0[key] + [item]] && keys == keys0
    else
      monthDay == monthDay0[key := Blanks(Lead(d, setup.startDayOfWeek)) + [item]] && keys == keys0 + [key]
  }

  /** One step of the walk: recording the day after the first `n` extends the
      dictionary of the first `n` days' runs to that of the first `n + 1`. */
  lemma WalkStep(monthDay0: map<string, seq<Item>>, keys0: seq<string>, start: Date, n: nat, setup: Setup,
                 monthDay: map<string, seq<Item>>, keys: seq<string>)
    requires CollectedState(monthDay0, keys0, Groups(Walk(start, n)), setup)
    requires Recorded(monthDay0, keys0, AddDays(start, n), setup, monthDay, keys)
    ensures CollectedState(monthDay, keys, Groups(Walk(start, n + 1)), setup)
  {
    var d := AddDays(start, n);
    var gs0: seq<seq<Date>> := Groups(Walk(start, n));
    GroupsStep(start, n);
    if |gs0| > 0 && SameMonth(Last(Last(gs0)), d) {
      WalkKeySameMonth(start, n);
      WalkKeysDistinct(start, n);
      assert keys0[|keys0| - 1] in monthDay0;
      CollectIntoLast(monthDay0, keys0, gs0, setup, d);
    } else {
      WalkKeyFresh(start, n);
      CollectNewRun(monthDay0, keys0, gs0, setup, d);
    }
  }

  /** One pass of the walk's loop body: the cell of `curDate` is appended to the
      entry of its month, which is first created with the month's leading blanks
      when it does not exist yet. */
  method RecordDay(monthDay0: map<string, seq<Item>>, keys0: seq<string>, curDate: Date, setup: Setup)
    returns (monthDay: map<string, seq<Item>>, keys: seq<string>)
    ensures Recorded(monthDay0, keys0, curDate, setup, monthDay, keys)
  {
    monthDay, keys := monthDay0, keys0;
    var identifier := MonthKey(curDate.year, curDate.month);
    if identifier !in monthDay {
      monthDay := monthDay[identifier := Blanks(Lead(curDate, setup.startDayOfWeek))];
      keys := keys + [identifier];
    }
    var day := DayPropsOf(curDate, setup);
    monthDay := monthDay[identifier := monthDay[identifier] + [DayItem(day)]];
    if identifier !in monthDay0 {
      UpdateTwice(monthDay0, identifier, Blanks(Lead(curDate, setup.startDayOfWeek)), [DayItem(day)]);
    }
  }

  /** The walk of `genCalendarData`: from the window's first day to its last, each
      day's cell is appended to the entry of its month, an entry being created with
      the month's leading blanks when the month is first met. */
  method CollectDays(setup: Setup) returns (monthDay: map<string, seq<Item>>, keys: seq<string>)
    requires ValidSetup(setup)
    ensures CollectedState(monthDay, keys, WindowRuns(setup.windows), setup)
    ensures Distinct(keys)
  {
    var w := setup.windows;
    var startDate, endDate := w.startDate, w.endDate;
    monthDay := map[];
    keys := [];
    var curDate := startDate;
    ghost var n: nat := 0;
    while Ordinal(curDate) <= Ordinal(endDate)
      invariant n <= DayCount(w) && curDate == AddDays(startDate, n)
      invariant Ordinal(curDate) == Ordinal(startDate) + n
      invariant CollectedState(monthDay, keys, Groups(Walk(startDate, n)), setup)
      decreases Ordinal(endDate) - Ordinal(curDate)
    {
      ghost var monthDay0, keys0 := monthDay, keys;
      monthDay, keys := RecordDay(monthDay, keys, curDate, setup);
      WalkStep(monthDay0, keys0, startDate, n, setup, monthDay, keys);
      NextDayOrdinal(curDate);
      curDate := NextDay(curDate);
      n := n + 1;
    }
    assert n == DayCount(w);
    WalkKeysDistinct(startDate, n);
  }

  /** The padding pass of `genCalendarData`: every entry, in key order, is completed
      with blanks to a whole number of weeks. */
  method PadMonths(monthDay0: map<string, seq<Item>>, keys: seq<string>, ghost es: seq<seq<Item>>)
    returns (monthDay: map<string, seq<Item>>)
    requires Holds(monthDay0, keys, es) && Distinct(keys)
    ensures Holds(monthDay, keys, PartlyPadded(es, |es|))
  {
    monthDay := monthDay0;
    var i := 0;
    assert PartlyPadded(es, 0) == es;
    while i < |keys|
      invariant i <= |keys|
      invariant Holds(monthDay, keys, PartlyPadded(es, i))
    {
      var key := keys[i];
      PadStep(monthDay, keys, es, i);
      var len := |monthDay[key]|;
      monthDay := monthDay[key := monthDay[key] + Blanks(Trail(len))];
      i := i + 1;
    }
  }

  /** The header title the emission pass derives from a month identifier: the
      identifier is split at `-`, the month part parsed to pick the month's name,
      and the year part appended after a `-`. */
  function KeyTitle(key: string, monthNames: seq<string>): string
    requires |monthNames| == 12
    requires |Split(key, '-')| >= 2 && AllDigits(Split(key, '-')[1])
    requires 1 <= ParseDigits(Split(key, '-')[1]) <= 12
  {
    var parts := Split(key, '-');
    var year, month := parts[0], parts[1];
    monthNames[ParseDigits(month) - 1] + "-" + year
  }

  /** The title derived from the identifier of a month is that month's name, a
      `-`, and its year. */
  lemma KeyTitleOfMonthKey(year: nat, month: nat, monthNames: seq<string>)
    requires |monthNames| == 12 && 1 <= month <= 12
    ensures |Split(MonthKey(year, month), '-')| >= 2 && AllDigits(Split(MonthKey(year, month), '-')[1])
    ensures 1 <= ParseDigits(Split(MonthKey(year, month), '-')[1]) <= 12
    ensures KeyTitle(MonthKey(year, month), monthNames) == monthNames[month - 1] + "-" + NatToString(year)
  {
    MonthKeyRoundTrip(year, month);
  }

  /** The headers of a month, with its title derived from the month's identifier. */
  lemma HeadersFromKey(first: Date, setup: Setup, key: string)
    requires ValidSetup(setup) && key == MonthKey(first.year, first.month)
    ensures |Split(key, '-')| >= 2 && AllDigits(Split(key, '-')[1])
    ensures 1 <= ParseDigits(Split(key, '-')[1]) <= 12
    ensures Headers(first, setup)
      == [MonthItem(Some(MonthTitle(key, KeyTitle(key, setup.monthNames))))]
         + seq(6, _ => MonthItem(None)) + WeekHeader(setup.dayNames, setup.startDayOfWeek)
  {
    KeyTitleOfMonthKey(first.year, first.month, setup.monthNames);
  }

  /** The block of run `idx` is the month cell titled from its identifier, the six
      untitled cells, the weekday titles and the padded entry stored under it. */
  lemma EmitStep(monthDay: map<string, seq<Item>>, keys: seq<string>, gs: seq<seq<Date>>, setup: Setup, idx: nat)
    requires ValidSetup(setup) && NonEmptyRuns(gs) && idx < |gs|
    requires keys == RunKeys(gs) && Holds(monthDay, keys, PartlyPadded(Entries(gs, setup), |gs|))
    ensures keys[idx] in monthDay
    ensures |Split(keys[idx], '-')| >= 2 && AllDigits(Split(keys[idx], '-')[1])
    ensures 1 <= ParseDigits(Split(keys[idx], '-')[1]) <= 12
    ensures Block(gs[idx], setup)
      == [MonthItem(Some(MonthTitle(keys[idx], KeyTitle(keys[idx], setup.monthNames))))]
         + seq(6, _ => MonthItem(None)) + WeekHeader(setup.dayNames, setup.startDayOfWeek)
         + monthDay[keys[idx]]
  {
    HeadersFromKey(gs[idx][0], setup, keys[idx]);
    PaddedEntries(gs, setup, idx);
    assert monthDay[keys[idx]] == Section(gs[idx], setup);
  }

  /** The emission pass of `genCalendarData`: per key, in order, the month title
      recovered from the key, six untitled month cells, the seven weekday titles
      from the first day of the week on, then the month's entry. */
  method EmitMonths(monthDay: map<string, seq<Item>>, keys: seq<string>, ghost gs: seq<seq<Date>>,
                    setup: Setup)
    returns (arrDate: seq<Item>)
    requires ValidSetup(setup) && NonEmptyRuns(gs)
    requires keys == RunKeys(gs) && Holds(monthDay, keys, PartlyPadded(Entries(gs, setup), |gs|))
    ensures arrDate == Blocks(gs, setup)
  {
    var monthNames, dayNames, startDayOfWeek := setup.monthNames, setup.dayNames, setup.startDayOfWeek;
    arrDate := [];
    var idx := 0;
    while idx < |keys|
      invariant idx <= |keys| && NonEmptyRuns(gs[..idx])
      invariant arrDate == Blocks(gs[..idx], setup)
    {
      var key := keys[idx];
      EmitStep(monthDay, keys, gs, setup, idx);
      var monthTitle := KeyTitle(key, monthNames);
      var titleCell := MonthItem(Some(MonthTitle(key, monthTitle)));
      var untitledCells := seq(6, _ => MonthItem(None));
      var weekTitles := WeekHeader(dayNames, startDayOfWeek);
      arrDate := arrDate + ([titleCell] + untitledCells + weekTitles + monthDay[key]);
      BlocksStep(gs, setup, idx);
      idx := idx + 1;
    }
    assert gs[..|keys|] == gs;
  }

  /** `genCalendarData`. The current day `today` is a parameter, and so are the
      options the source defaults (see `DefaultArguments`). The result is the grid
      of the resolved windows. */
  method GenCalendarData(startDateChoose: Option<Date>, endDateChoose: Option<Date>,
                         fullDateRange: Option<(Date, Date)>, availableDateRange: Option<(Date, Date)>,
                         monthNames: seq<string>, maxMonths: int, dayNames: seq<string>,
                         startDayOfWeek: int, today: Date)
    returns (arrDate: seq<Item>)
    requires |monthNames| == 12 && |dayNames| == 7 && 0 <= startDayOfWeek < 7
    requires availableDateRange.None? ==> today.month + maxMonths >= 2
    ensures var w := ResolveWindows(today, fullDateRange, availableDateRange, maxMonths);
      arrDate == Grid(Setup(startDateChoose, endDateChoose, w, today, monthNames, dayNames, startDayOfWeek))
  {
    var w := ResolveWindows(today, fullDateRange, availableDateRange, maxMonths);
    var setup := Setup(startDateChoose, endDateChoose, w, today, monthNames, dayNames, startDayOfWeek);
    var monthDay, keys := CollectDays(setup);
    monthDay := PadMonths(monthDay, keys, Entries(WindowRuns(w), setup));
    arrDate := EmitMonths(monthDay, keys, WindowRuns(w), setup);
  }

  /** The default arguments of `genCalendarData` (English names, three months,
      weeks from Monday) meet its requirements for every `today`, and without
      windows they show the three months from today's: the visible window runs from
      the first of today's month to the last day of the month two months on, and
      the available window from today to that same day. */
  lemma DefaultArguments(today: Date)
    ensures |MONTH_NAMES_DEFAULT| == 12 && |DAY_NAMES_DEFAULT| == 7
    ensures 0 <= START_DAY_OF_WEEK_DEFAULT < 7 && today.month + MAX_MONTHS_DEFAULT >= 2
    ensures var w := ResolveWindows(today, None, None, MAX_MONTHS_DEFAULT);
      && w.startDate == FirstDayOfMonth(today)
      && w.availableStartDate == today
      && w.endDate == w.availableEndDate
      && IsLastDayOfMonth(w.endDate)
      && MonthIndex(w.endDate) == MonthIndex(today) + 2
  {
    var w := ResolveWindows(today, None, None, MAX_MONTHS_DEFAULT);
    SameMonthFields(w.startDate, today);
  }
}
