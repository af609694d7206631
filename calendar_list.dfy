/** The selection controller of the calendar list: the chosen start and end days,
    the stored run of selected day keys, and the registry of mounted day cells,
    keyed by the day each cell shows. Taps, `chooseRangeDate` and
    `chooseAvailableDate` change the selection and restyle the registered cells.
    Keys (`toLocaleDateString` in the source) are day ordinals. */
module CalendarList {
  import opened Wrappers
  import opened Dates
  import opened MonthRuns
  import opened HelperCalendar

  /** `modePress`: one day per tap, or a range built from successive taps. */
  datatype ModePress = Single | Multiple

  /** A selection `(startDateChoose, endDateChoose)`. */
  type Selection = (Option<Date>, Option<Date>)

  /** The handle a mounted day cell hands to the list: its day and the two pieces
      of state the list may change. */
  class DayContent {
    const date: Date
    var status: DayStatus
    var available: bool

    /** A cell mounted with the fields the grid gave its day. */
    constructor (props: DayProps)
      ensures date == props.date && status == props.status && available == props.available
    {
      date := props.date;
      status := props.status;
      available := props.available;
    }

    /** `changeStatus`. */
    method ChangeStatus(dayStatus: DayStatus)
      modifies this
      ensures status == dayStatus && available == old(available)
    {
      status := dayStatus;
    }

    /** `changeAvailable`. */
    method ChangeAvailable(dayAvailable: bool)
      modifies this
      ensures available == dayAvailable && status == old(status)
    {
      available := dayAvailable;
    }
  }

  /** The selection as the list's body leaves it on every render: an end given
      without a start becomes the start, and there is no end. */
  function Normalised(startDate: Option<Date>, endDate: Option<Date>): (r: Selection)
    ensures r.1.Some? ==> r.0.Some?
    ensures r.0.Some? || r.1.Some? <==> startDate.Some? || endDate.Some?
    ensures startDate.Some? ==> r == (startDate, endDate)
    ensures startDate.None? ==> r == (endDate, None)
  {
    if startDate.None? && endDate.Some? then (endDate, None) else (startDate, endDate)
  }

  /** Normalising changes no day's status in the grid: the grid, built from the
      selection as given, agrees with the controller's normalised selection. */
  lemma NormalisedKeepsStatus(day: int, startDate: Option<Date>, endDate: Option<Date>)
    ensures var (s, e) := Normalised(startDate, endDate);
      StatusOf(day, s, e) == StatusOf(day, startDate, endDate)
      && RangeKeys(s, e) == RangeKeys(startDate, endDate)
  {
  }

  /** `recalculateStartEndDates` as a function of the selection and the tapped day. */
  function Recalculated(startChoose: Option<Date>, endChoose: Option<Date>, date: Date): Selection {
    if startChoose.Some? then
      if endChoose.Some? then (Some(date), None)
      else if Ordinal(date) < Ordinal(startChoose.value) then (Some(date), startChoose)
      else if Ordinal(date) == Ordinal(startChoose.value) then (Some(date), Some(date))
      else (startChoose, Some(date))
    else (Some(date), endChoose)
  }

  /** The selection a tap on `date` leaves in mode `mode`. */
  function Tap(mode: ModePress, startChoose: Option<Date>, endChoose: Option<Date>, date: Date): Selection {
    if mode == Multiple then Recalculated(startChoose, endChoose, date) else (Some(date), Some(date))
  }

  /** The selections taps can build from a normalised one: an end only with a
      start, and not before it. */
  predicate WellFormed(startChoose: Option<Date>, endChoose: Option<Date>) {
    (endChoose.Some? ==> startChoose.Some?) && Ordered(startChoose, endChoose)
  }

  /** In single mode a tap selects exactly the tapped day, whatever was selected. */
  lemma SingleTap(startChoose: Option<Date>, endChoose: Option<Date>, date: Date)
    ensures var (s, e) := Tap(Single, startChoose, endChoose, date);
      s == Some(date) && e == Some(date)
      && forall day :: InSelection(day, s, e) <==> day == Ordinal(date)
  {
  }

  /** In multiple mode a tap on a complete range starts a new one at the tapped day. */
  lemma TapRestartsRange(startChoose: Option<Date>, endChoose: Option<Date>, date: Date)
    requires startChoose.Some? && endChoose.Some?
    ensures Tap(Multiple, startChoose, endChoose, date) == (Some(date), None)
  {
  }

  /** In multiple mode a tap with only a start closes the range on the side of the
      tapped day: before the start it becomes the new start, after it the end, and
      on it the range is that one day. */
  lemma TapClosesRange(start: Date, date: Date)
    ensures var (s, e) := Tap(Multiple, Some(start), None, date);
      && s.Some? && e.Some?
      && Ordinal(s.value) == Min(Ordinal(start), Ordinal(date))
      && Ordinal(e.value) == Max(Ordinal(start), Ordinal(date))
      && {s.value, e.value} == {start, date}
  {
    if Ordinal(date) == Ordinal(start) {
      OrdinalInjective(date, start);
    }
  }

  function Min(a: int, b: int): int { if a <= b then a else b }
  function Max(a: int, b: int): int { if a <= b then b else a }

  /** In multiple mode a tap with no start sets the start and keeps the end. After
      `chooseRangeDate(undefined, e)` a tap after `e` therefore inverts the
      selection, unless the list renders in between: `Rerender` first moves `e` to
      the start, and the tap then closes a range (`TapClosesRange`). */
  lemma TapWithoutStart(endChoose: Option<Date>, date: Date)
    ensures Tap(Multiple, None, endChoose, date) == (Some(date), endChoose)
    ensures endChoose.Some? && Ordinal(endChoose.value) < Ordinal(date) ==>
      !Ordered(Tap(Multiple, None, endChoose, date).0, Tap(Multiple, None, endChoose, date).1)
  {
  }

  /** From a well-formed selection every tap leaves a well-formed selection that
      covers the tapped day. */
  lemma TapKeepsWellFormed(mode: ModePress, startChoose: Option<Date>, endChoose: Option<Date>, date: Date)
    requires WellFormed(startChoose, endChoose)
    ensures var (s, e) := Tap(mode, startChoose, endChoose, date);
      WellFormed(s, e) && InSelection(Ordinal(date), s, e)
  {
  }

  /** Two taps in multiple mode from no selection select the days between them. */
  lemma TwoTaps(a: Date, b: Date)
    ensures var (s1, e1) := Tap(Multiple, None, None, a);
      var (s, e) := Tap(Multiple, s1, e1, b);
      forall day :: InSelection(day, s, e) <==> Min(Ordinal(a), Ordinal(b)) <= day <= Max(Ordinal(a), Ordinal(b))
  {
    assert Tap(Multiple, None, None, a) == (Some(a), None);
    TapClosesRange(a, b);
  }

  /** The status the redraw gives day `day` of the run `run`: the only day single,
      otherwise the first begin, the last end and the others middle. */
  function MarkOf(run: seq<int>, day: int): (r: DayStatus)
    requires day in run
    ensures r != NotChosen
    ensures r == SingleChosen <==> |run| == 1
    ensures |run| > 1 ==> (r == RangeBeginChosen <==> day == run[0])
    ensures |run| > 1 && day != run[0] && day == run[|run| - 1] ==> r == RangeEndChosen
    ensures |run| > 1 && day != run[0] && day != run[|run| - 1] ==> r == RangeMiddleChosen
  {
    if |run| == 1 then SingleChosen
    else if day == run[0] then RangeBeginChosen
    else if day == run[|run| - 1] then RangeEndChosen
    else RangeMiddleChosen
  }

  /** For an ordered selection the redraw marks each day of the run with the status
      the grid gives it, and the grid marks no day outside the run. */
  lemma RunMarksMatchStatus(startChoose: Option<Date>, endChoose: Option<Date>)
    requires Ordered(startChoose, endChoose)
    ensures var run := RangeKeys(startChoose, endChoose);
      && (run.Some? ==> forall day :: day in run.value ==>
            MarkOf(run.value, day) == StatusOf(day, startChoose, endChoose))
      && forall day :: (run.None? || day !in run.value) ==> StatusOf(day, startChoose, endChoose) == NotChosen
  {
    var run := RangeKeys(startChoose, endChoose);
    if startChoose.Some? && endChoose.Some? {
      var s, e := Ordinal(startChoose.value), Ordinal(endChoose.value);
      if s == e {
        OrdinalInjective(startChoose.value, endChoose.value);
      }
      assert |run.value| == e - s + 1 by {
        IntervalMembers(s, e - s + 1);
      }
    }
  }

  /** A selection whose end is before its start: the grid marks its two ends while
      the run `getDateInRange` gives it, and so the redraw, marks nothing. */
  lemma InvertedSelection(s: Date, e: Date)
    requires Ordinal(e) < Ordinal(s)
    ensures RangeKeys(Some(s), Some(e)) == Some([])
    ensures StatusOf(Ordinal(s), Some(s), Some(e)) == RangeBeginChosen
    ensures StatusOf(Ordinal(e), Some(s), Some(e)) == RangeEndChosen
  {
  }

  /** The day keys of a run are distinct. */
  lemma RangeKeysDistinct(startChoose: Option<Date>, endChoose: Option<Date>)
    ensures var run := RangeKeys(startChoose, endChoose);
      run.Some? ==> forall i, j :: 0 <= i < j < |run.value| ==> run.value[i] != run.value[j]
  {
  }

  /** The status a registered cell has after the redraw: its mark if the new run
      holds its day, none if only the old run held it, else what it had. */
  function Redrawn(oldRun: Option<seq<int>>, newRun: Option<seq<int>>, day: int, status: DayStatus): DayStatus {
    if newRun.Some? && day in newRun.value then MarkOf(newRun.value, day)
    else if oldRun.Some? && day in oldRun.value then NotChosen
    else status
  }

  /** After a redraw for an ordered selection, a cell whose day is outside the old
      run and was unmarked, or whose day the old run held, has the grid's status. */
  lemma RedrawnMatchesGrid(oldRun: Option<seq<int>>, startChoose: Option<Date>, endChoose: Option<Date>,
                           day: int, status: DayStatus)
    requires Ordered(startChoose, endChoose)
    requires (oldRun.Some? && day in oldRun.value) || status == NotChosen
    ensures Redrawn(oldRun, RangeKeys(startChoose, endChoose), day, status) == StatusOf(day, startChoose, endChoose)
  {
    RunMarksMatchStatus(startChoose, endChoose);
    RangeKeysDistinct(startChoose, endChoose);
  }

  /** A cell mounted from the grid shows the status of the controller's
      normalised selection; when that selection is ordered, the cell is marked
      only if its day is in the stored run, so filing it keeps the registry clear
      outside the run and coherent with the grid. */
  lemma MountedCellFitsSelection(d: Date, setup: Setup)
    requires Ordered(Normalised(setup.startChoose, setup.endChoose).0, Normalised(setup.startChoose, setup.endChoose).1)
    ensures var (s, e) := Normalised(setup.startChoose, setup.endChoose);
      var p := DayPropsOf(d, setup);
      && p.status == StatusOf(Ordinal(d), s, e)
      && (p.status == NotChosen || (RangeKeys(s, e).Some? && Ordinal(d) in RangeKeys(s, e).value))
  {
    var (s, e) := Normalised(setup.startChoose, setup.endChoose);
    NormalisedKeepsStatus(Ordinal(d), setup.startChoose, setup.endChoose);
    RunMarksMatchStatus(s, e);
  }

  /** With both ends given, `chooseAvailableDate` makes a cell available exactly as
      the grid does for that available window. */
  lemma AvailableMatchesGrid(d: Date, setup: Setup)
    ensures var w := setup.windows;
      var run := RangeKeys(Some(w.availableStartDate), Some(w.availableEndDate));
      (Ordinal(d) in run.value) == DayPropsOf(d, setup).available
  {
  }

  /** The list: its selection, the stored run, the registry of mounted cells, the
      grid it renders, and the log of the selections reported to `onSelectionDate`. */
  class CalendarList {
    const modePress: ModePress
    const calendarData: seq<Item>
    var startDateChoose: Option<Date>
    var endDateChoose: Option<Date>
    var arrDateInRange: Option<seq<int>>
    var objRefDate: map<int, DayContent>
    /** The keys of `objRefDate` in the order they were first filed, which is the
        order `Object.keys` lists them in. */
    var objRefDateKeys: seq<int>
    ghost var selections: seq<Selection>

    /** Every registered cell is filed under the key of its own day, and the key
        order lists exactly the registered keys. */
    ghost predicate Registered()
      reads this
    {
      && (forall k :: k in objRefDate ==> Ordinal(objRefDate[k].date) == k)
      && (forall k :: k in objRefDateKeys <==> k in objRefDate)
    }

    /** The stored run is the run of the selection, and the selection is the last
        one reported, up to the normalisation a render applies. */
    ghost predicate Valid()
      reads this
    {
      && Registered()
      && arrDateInRange == RangeKeys(startDateChoose, endDateChoose)
      && |selections| > 0
      && Normalised(Last(selections).0, Last(selections).1) == Normalised(startDateChoose, endDateChoose)
    }

    function Cells(): set<DayContent>
      reads this
    {
      objRefDate.Values
    }

    /** No registered cell outside the stored run is marked. */
    predicate OutsideRunClear()
      reads this, Cells()
    {
      forall k :: k in objRefDate && (arrDateInRange.None? || k !in arrDateInRange.value) ==>
        objRefDate[k].status == NotChosen
    }

    /** Every registered cell shows the status the grid gives its day for the
        current selection. */
    predicate Coherent()
      reads this, Cells()
    {
      forall k :: k in objRefDate ==> objRefDate[k].status == StatusOf(k, startDateChoose, endDateChoose)
    }

    /** Mounting the list: the grid built from the props, the selection normalised,
        its run stored, no cell registered yet and the selection reported once. */
    constructor (startDate: Option<Date>, endDate: Option<Date>,
                 fullDateRange: Option<(Date, Date)>, availableDateRange: Option<(Date, Date)>,
                 monthNames: seq<string>, maxMonths: int, dayNames: seq<string>,
                 startDayOfWeek: int, modePress: ModePress, today: Date)
      requires |monthNames| == 12 && |dayNames| == 7 && 0 <= startDayOfWeek < 7
      requires availableDateRange.None? ==> today.month + maxMonths >= 2
      ensures this.modePress == modePress
      ensures var w := ResolveWindows(today, fullDateRange, availableDateRange, maxMonths);
        calendarData == Grid(Setup(startDate, endDate, w, today, monthNames, dayNames, startDayOfWeek))
      ensures (startDateChoose, endDateChoose) == Normalised(startDate, endDate)
      ensures objRefDate == map[] && objRefDateKeys == [] && selections == [(startDateChoose, endDateChoose)]
      ensures Valid() && OutsideRunClear()
    {
      this.modePress := modePress;
      var arrDate := GenCalendarData(startDate, endDate, fullDateRange, availableDateRange,
                                     monthNames, maxMonths, dayNames, startDayOfWeek, today);
      calendarData := arrDate;
      var s, e := startDate, endDate;
      if s.None? && e.Some? {
        s, e := e, None;
      }
      startDateChoose, endDateChoose := s, e;
      selections := [(s, e)];
      var run := GetDateInRange(s, e);
      arrDateInRange := run;
      objRefDate := map[];
      objRefDateKeys := [];
    }

    /** A render of the list after it mounted: the body normalises the selection
        again, and touches neither the stored run, nor the cells, nor the log. */
    method Rerender()
      requires Valid()
      modifies this
      ensures (startDateChoose, endDateChoose) == Normalised(old(startDateChoose), old(endDateChoose))
      ensures arrDateInRange == old(arrDateInRange) && selections == old(selections)
      ensures objRefDate == old(objRefDate) && objRefDateKeys == old(objRefDateKeys)
      ensures Valid()
      ensures endDateChoose.Some? ==> startDateChoose.Some?
      ensures Ordered(old(startDateChoose), old(endDateChoose)) ==> WellFormed(startDateChoose, endDateChoose)
      ensures old(OutsideRunClear()) ==> OutsideRunClear()
      ensures old(Coherent()) ==> Coherent()
    {
      if startDateChoose.None? && endDateChoose.Some? {
        startDateChoose := endDateChoose;
        endDateChoose := None;
      }
      forall k {
        NormalisedKeepsStatus(k, old(startDateChoose), old(endDateChoose));
      }
    }

    /** `initArrRefDate`: files a mounted cell under the key of its day, replacing
        any cell filed there before. */
    method InitArrRefDate(dayContent: DayContent)
      requires Valid()
      modifies this
      ensures objRefDate == old(objRefDate)[Ordinal(dayContent.date) := dayContent]
      ensures objRefDateKeys == if Ordinal(dayContent.date) in old(objRefDate) then old(objRefDateKeys)
                                else old(objRefDateKeys) + [Ordinal(dayContent.date)]
      ensures startDateChoose == old(startDateChoose) && endDateChoose == old(endDateChoose)
      ensures arrDateInRange == old(arrDateInRange) && selections == old(selections)
      ensures Valid()
      ensures (&& old(OutsideRunClear())
               && (|| dayContent.status == NotChosen
                   || (arrDateInRange.Some? && Ordinal(dayContent.date) in arrDateInRange.value)))
              ==> OutsideRunClear()
      ensures (&& old(Coherent())
               && dayContent.status == StatusOf(Ordinal(dayContent.date), startDateChoose, endDateChoose))
              ==> Coherent()
    {
      var key := Ordinal(dayContent.date);
      if key !in objRefDate {
        objRefDateKeys := objRefDateKeys + [key];
      }
      objRefDate := objRefDate[key := dayContent];
    }

    /** `recalculateStartEndDates`. */
    method RecalculateStartEndDates(date: Date)
      modifies this
      ensures (startDateChoose, endDateChoose) == Recalculated(old(startDateChoose), old(endDateChoose), date)
      ensures arrDateInRange == old(arrDateInRange) && objRefDate == old(objRefDate) && objRefDateKeys == old(objRefDateKeys)
      ensures selections == old(selections)
    {
      if startDateChoose.Some? {
        if endDateChoose.Some? {
          startDateChoose := Some(date);
          endDateChoose := None;
        } else if Ordinal(date) < Ordinal(startDateChoose.value) {
          endDateChoose := startDateChoose;
          startDateChoose := Some(date);
        } else if Ordinal(date) == Ordinal(startDateChoose.value) {
          endDateChoose := Some(date);
          startDateChoose := Some(date);
        } else {
          endDateChoose := Some(date);
        }
      } else if endDateChoose.Some? {
        startDateChoose := Some(date);
      } else {
        startDateChoose := Some(date);
      }
    }

    /** The first loop of `drawArrDayInRange`: every registered cell of the stored
        run is unmarked. */
    method ClearStoredRun()
      requires Registered()
      modifies Cells()
      ensures forall k :: k in objRefDate ==>
        && objRefDate[k].status ==
             (if arrDateInRange.Some? && k in arrDateInRange.value then NotChosen else old(objRefDate[k].status))
        && objRefDate[k].available == old(objRefDate[k].available)
    {
      if arrDateInRange.Some? {
        var run := arrDateInRange.value;
        var index := 0;
        while index < |run|
          invariant 0 <= index <= |run|
          invariant forall k :: k in objRefDate ==>
            && objRefDate[k].status == (if k in run[..index] then NotChosen else old(objRefDate[k].status))
            && objRefDate[k].available == old(objRefDate[k].available)
        {
          var keyRefDate := run[index];
          if keyRefDate in objRefDate {
            objRefDate[keyRefDate].ChangeStatus(NotChosen);
          }
          assert run[..index + 1] == run[..index] + [keyRefDate];
          index := index + 1;
        }
        assert run[..|run|] == run;
      }
    }

    /** The second loop of `drawArrDayInRange`: every registered cell of the stored
        run gets its mark. */
    method MarkStoredRun()
      requires Registered()
      requires arrDateInRange.Some? ==> forall i, j :: 0 <= i < j < |arrDateInRange.value| ==>
        arrDateInRange.value[i] != arrDateInRange.value[j]
      modifies Cells()
      ensures forall k :: k in objRefDate ==>
        && objRefDate[k].status ==
             (if arrDateInRange.Some? && k in arrDateInRange.value then MarkOf(arrDateInRange.value, k)
              else old(objRefDate[k].status))
        && objRefDate[k].available == old(objRefDate[k].available)
    {
      if arrDateInRange.Some? {
        var run := arrDateInRange.value;
        if |run| == 1 {
          assert forall k :: k in run <==> k == run[0];
          if run[0] in objRefDate {
            objRefDate[run[0]].ChangeStatus(SingleChosen);
          }
        } else {
          var index := 0;
          while index < |run|
            invariant 0 <= index <= |run|
            invariant forall k :: k in objRefDate ==>
              && objRefDate[k].status == (if k in run[..index] then MarkOf(run, k) else old(objRefDate[k].status))
              && objRefDate[k].available == old(objRefDate[k].available)
          {
            var keyRefDate := run[index];
            if keyRefDate in objRefDate {
              if index == 0 {
                objRefDate[keyRefDate].ChangeStatus(RangeBeginChosen);
              } else if index == |run| - 1 {
                objRefDate[keyRefDate].ChangeStatus(RangeEndChosen);
              } else {
                objRefDate[keyRefDate].ChangeStatus(RangeMiddleChosen);
              }
            }
            assert run[..index + 1] == run[..index] + [keyRefDate];
            index := index + 1;
          }
          assert run[..|run|] == run;
        }
      }
    }

    /** `drawArrDayInRange`: unmarks the cells of the stored run, stores the run of
        the selection, marks its cells and reports the selection. */
    method DrawArrDayInRange()
      requires Registered()
      modifies this, Cells()
      ensures startDateChoose == old(startDateChoose) && endDateChoose == old(endDateChoose)
      ensures objRefDate == old(objRefDate) && objRefDateKeys == old(objRefDateKeys)
      ensures selections == old(selections) + [(startDateChoose, endDateChoose)]
      ensures Valid()
      ensures forall k :: k in objRefDate ==>
        && objRefDate[k].status == Redrawn(old(arrDateInRange), arrDateInRange, k, old(objRefDate[k].status))
        && objRefDate[k].available == old(objRefDate[k].available)
      ensures old(OutsideRunClear()) ==> OutsideRunClear()
      ensures old(OutsideRunClear()) && Ordered(startDateChoose, endDateChoose) ==> Coherent()
    {
      ghost var oldRun := arrDateInRange;
      ClearStoredRun();
      label Cleared:
      arrDateInRange := GetDateInRange(startDateChoose, endDateChoose);
      RangeKeysDistinct(startDateChoose, endDateChoose);
      MarkStoredRun();
      selections := selections + [(startDateChoose, endDateChoose)];
      if old(OutsideRunClear()) && Ordered(startDateChoose, endDateChoose) {
        forall k | k in objRefDate
          ensures objRefDate[k].status == StatusOf(k, startDateChoose, endDateChoose)
        {
          RedrawnMatchesGrid(oldRun, startDateChoose, endDateChoose, k, old(objRefDate[k].status));
        }
      }
    }

    /** `onPressDay`, reached only from a registered cell that is available. */
    method OnPressDay(date: Date)
      requires Valid()
      requires Ordinal(date) in objRefDate && objRefDate[Ordinal(date)].available
      modifies this, Cells()
      ensures (startDateChoose, endDateChoose) == Tap(modePress, old(startDateChoose), old(endDateChoose), date)
      ensures objRefDate == old(objRefDate) && objRefDateKeys == old(objRefDateKeys)
      ensures selections == old(selections) + [(startDateChoose, endDateChoose)]
      ensures Valid()
      ensures forall k :: k in objRefDate ==>
        && objRefDate[k].status == Redrawn(old(arrDateInRange), arrDateInRange, k, old(objRefDate[k].status))
        && objRefDate[k].available == old(objRefDate[k].available)
      ensures old(OutsideRunClear()) ==> OutsideRunClear()
      ensures WellFormed(old(startDateChoose), old(endDateChoose)) ==>
        WellFormed(startDateChoose, endDateChoose) && InSelection(Ordinal(date), startDateChoose, endDateChoose)
      ensures old(OutsideRunClear()) && WellFormed(old(startDateChoose), old(endDateChoose)) ==> Coherent()
    {
      if modePress == Multiple {
        RecalculateStartEndDates(date);
      } else {
        startDateChoose := Some(date);
        endDateChoose := Some(date);
      }
      if WellFormed(old(startDateChoose), old(endDateChoose)) {
        TapKeepsWellFormed(modePress, old(startDateChoose), old(endDateChoose), date);
      }
      DrawArrDayInRange();
    }

    /** `chooseRangeDate`: takes the given selection as it is, without normalising,
        and redraws. */
    method ChooseRangeDate(startDateParam: Option<Date>, endDateParam: Option<Date>)
      requires Valid()
      modifies this, Cells()
      ensures startDateChoose == startDateParam && endDateChoose == endDateParam
      ensures objRefDate == old(objRefDate) && objRefDateKeys == old(objRefDateKeys)
      ensures selections == old(selections) + [(startDateParam, endDateParam)]
      ensures Valid()
      ensures forall k :: k in objRefDate ==>
        && objRefDate[k].status == Redrawn(old(arrDateInRange), arrDateInRange, k, old(objRefDate[k].status))
        && objRefDate[k].available == old(objRefDate[k].available)
      ensures old(OutsideRunClear()) ==> OutsideRunClear()
      ensures old(OutsideRunClear()) && Ordered(startDateParam, endDateParam) ==> Coherent()
    {
      startDateChoose := startDateParam;
      endDateChoose := endDateParam;
      DrawArrDayInRange();
    }

    /** `chooseAvailableDate`: with a window given, each registered cell becomes
        available exactly when its day is in the window's run; with none, nothing
        changes. */
    method ChooseAvailableDate(availableStartDate: Option<Date>, availableEndDate: Option<Date>)
      requires Valid()
      modifies Cells()
      ensures Valid()
      ensures forall k :: k in objRefDate ==>
        && objRefDate[k].status == old(objRefDate[k].status)
        && objRefDate[k].available ==
             match RangeKeys(availableStartDate, availableEndDate)
             case Some(run) => k in run
             case None => old(objRefDate[k].available)
    {
      var arrDateAvailable := GetDateInRange(availableStartDate, availableEndDate);
      if arrDateAvailable.Some? {
        var run := arrDateAvailable.value;
        var index := 0;
        while index < |objRefDateKeys|
          invariant 0 <= index <= |objRefDateKeys|
          invariant forall k :: k in objRefDate ==>
            && objRefDate[k].status == old(objRefDate[k].status)
            && objRefDate[k].available ==
                 (if k in objRefDateKeys[..index] then k in run else old(objRefDate[k].available))
        {
          var key := objRefDateKeys[index];
          objRefDate[key].ChangeAvailable(key in run);
          assert objRefDateKeys[..index + 1] == objRefDateKeys[..index] + [key];
          index := index + 1;
        }
        assert objRefDateKeys[..|objRefDateKeys|] == objRefDateKeys;
      }
    }
  }
}
