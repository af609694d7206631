/** The day walk of the grid builder and its grouping into months: the days from
    the window's start, one after another, cut into maximal runs of days of the
    same month, in the order the months are first met. */
module MonthRuns {
  import opened Dates

  /** The first `n` days from `start`: the values `curDate` takes in the walk. */
  function Walk(start: Date, n: nat): (r: seq<Date>)
    ensures |r| == n
  {
    if n == 0 then [] else Walk(start, n - 1) + [AddDays(start, n - 1)]
  }

  /** The `i`-th day walked is `i` days after the start. */
  lemma {:induction false} WalkAt(start: Date, n: nat, i: nat)
    requires i < n
    ensures Walk(start, n)[i] == AddDays(start, i)
  {
    if i < n - 1 {
      WalkAt(start, n - 1, i);
    }
  }

  lemma WalkSnoc(start: Date, n: nat)
    ensures Walk(start, n + 1) == Walk(start, n) + [AddDays(start, n)]
    ensures Walk(start, n + 1)[..n] == Walk(start, n)
  {
  }

  function Last<T>(s: seq<T>): T
    requires |s| > 0
  {
    s[|s| - 1]
  }

  /** Concatenation of the runs, in order. */
  function Flatten<T>(gs: seq<seq<T>>): seq<T> {
    if gs == [] then [] else Flatten(gs[..|gs| - 1]) + Last(gs)
  }

  /** A non-empty run of days of one month. */
  predicate IsMonthRun(g: seq<Date>) {
    |g| > 0 && forall k :: 0 <= k < |g| ==> SameMonth(g[k], g[0])
  }

  /** A run of consecutive days. */
  predicate IsConsecutive(g: seq<Date>) {
    |g| > 0 && forall k :: 0 <= k < |g| ==> Ordinal(g[k]) == Ordinal(g[0]) + k
  }

  /** Cut `ds` into maximal runs of days of one month. */
  function Groups(ds: seq<Date>): (gs: seq<seq<Date>>)
    ensures |gs| == 0 <==> |ds| == 0
    ensures |ds| > 0 ==> |Last(gs)| > 0 && Last(Last(gs)) == Last(ds)
  {
    if ds == [] then []
    else
      var gs: seq<seq<Date>> := Groups(ds[..|ds| - 1]);
      var d := Last(ds);
      if |gs| > 0 && SameMonth(Last(Last(gs)), d) then gs[..|gs| - 1] + [Last(gs) + [d]]
      else gs + [[d]]
  }

  /** The runs put back together give the days again, in order. */
  lemma {:induction false} GroupsFlatten(ds: seq<Date>)
    ensures Flatten(Groups(ds)) == ds
  {
    if ds != [] {
      var init := ds[..|ds| - 1];
      var d := Last(ds);
      GroupsFlatten(init);
      var gs0: seq<seq<Date>> := Groups(init);
      var gs: seq<seq<Date>> := Groups(ds);
      assert ds == init + [d];
      if |gs0| > 0 && SameMonth(Last(Last(gs0)), d) {
        assert gs[..|gs| - 1] == gs0[..|gs0| - 1];
        assert Flatten(gs0) == Flatten(gs0[..|gs0| - 1]) + Last(gs0);
      } else {
        assert gs[..|gs| - 1] == gs0;
      }
    }
  }

  /** Every run holds days of a single month, and neighbouring runs hold different months. */
  predicate AreMonthRuns(gs: seq<seq<Date>>) {
    && (forall j :: 0 <= j < |gs| ==> IsMonthRun(gs[j]))
    && (forall j :: 0 < j < |gs| ==>
          IsMonthRun(gs[j - 1]) && IsMonthRun(gs[j]) ==> !SameMonth(Last(gs[j - 1]), gs[j][0]))
  }

  lemma {:induction false} GroupsAreMonthRuns(ds: seq<Date>)
    ensures AreMonthRuns(Groups(ds))
  {
    if ds != [] {
      var init := ds[..|ds| - 1];
      var d := Last(ds);
      GroupsAreMonthRuns(init);
      var gs0: seq<seq<Date>> := Groups(init);
      var gs: seq<seq<Date>> := Groups(ds);
      if |gs0| > 0 && SameMonth(Last(Last(gs0)), d) {
        var l := |gs0| - 1;
        assert gs == gs0[..l] + [gs0[l] + [d]];
        assert IsMonthRun(gs0[l]);
        assert IsMonthRun(gs[l]);
      } else {
        assert gs == gs0 + [[d]];
      }
    }
  }

  predicate AreConsecutiveRuns(gs: seq<seq<Date>>) {
    forall j :: 0 <= j < |gs| ==> IsConsecutive(gs[j])
  }

  /** The months of the runs strictly increase. */
  predicate HaveIncreasingMonths(gs: seq<seq<Date>>) {
    forall j, j' :: 0 <= j < j' < |gs| && |gs[j]| > 0 && |gs[j']| > 0 ==>
      MonthIndex(gs[j][0]) < MonthIndex(gs[j'][0])
  }


  /** The day walked after `n` days joins the last month's run when it shares its
      month, and otherwise opens a run of its own. */
  lemma GroupsStep(start: Date, n: nat)
    ensures var d := AddDays(start, n);
      var gs0: seq<seq<Date>> := Groups(Walk(start, n));
      if |gs0| > 0 && SameMonth(Last(Last(gs0)), d) then
        Groups(Walk(start, n + 1)) == gs0[..|gs0| - 1] + [Last(gs0) + [d]]
      else
        Groups(Walk(start, n + 1)) == gs0 + [[d]]
  {
    WalkSnoc(start, n);
    var ds := Walk(start, n + 1);
    assert ds[..|ds| - 1] == Walk(start, n);
  }

  /** The last day of the first `n` days walked, and the day after it. */
  lemma WalkLastDay(start: Date, n: nat)
    requires n > 0
    ensures |Groups(Walk(start, n))| > 0
    ensures Last(Last(Groups(Walk(start, n)))) == AddDays(start, n - 1)
    ensures AddDays(start, n) == NextDay(AddDays(start, n - 1))
    ensures Ordinal(AddDays(start, n)) == Ordinal(AddDays(start, n - 1)) + 1
  {
    WalkSnoc(start, n - 1);
    NextDayOrdinal(AddDays(start, n - 1));
  }

  lemma ConsecutiveAppendLast(gs: seq<seq<Date>>, d: Date)
    requires AreConsecutiveRuns(gs) && |gs| > 0 && |Last(gs)| > 0
    requires Ordinal(d) == Ordinal(Last(Last(gs))) + 1
    ensures AreConsecutiveRuns(gs[..|gs| - 1] + [Last(gs) + [d]])
  {
    var l := |gs| - 1;
    var g := gs[l] + [d];
    assert IsConsecutive(gs[l]);
    assert IsConsecutive(g);
    var gs' := gs[..l] + [g];
    forall j | 0 <= j < |gs'|
      ensures IsConsecutive(gs'[j])
    {
      if j < l {
        assert gs'[j] == gs[j];
      }
    }
  }

  lemma ConsecutiveAddNew(gs: seq<seq<Date>>, d: Date)
    requires AreConsecutiveRuns(gs)
    ensures AreConsecutiveRuns(gs + [[d]])
  {
    var gs' := gs + [[d]];
    assert IsConsecutive([d]);
    forall j | 0 <= j < |gs'|
      ensures IsConsecutive(gs'[j])
    {
      if j < |gs| {
        assert gs'[j] == gs[j];
      }
    }
  }

  lemma IncreasingAppendLast(gs: seq<seq<Date>>, d: Date)
    requires HaveIncreasingMonths(gs) && |gs| > 0 && |Last(gs)| > 0
    ensures HaveIncreasingMonths(gs[..|gs| - 1] + [Last(gs) + [d]])
  {
    var l := |gs| - 1;
    var gs' := gs[..l] + [gs[l] + [d]];
    forall j | 0 <= j < |gs'|
      ensures |gs'[j]| > 0 ==> |gs[j]| > 0 && gs'[j][0] == gs[j][0]
    {
    }
  }

  lemma IncreasingAddNew(gs: seq<seq<Date>>, d: Date)
    requires HaveIncreasingMonths(gs) && |gs| > 0 && |Last(gs)| > 0
    requires MonthIndex(Last(gs)[0]) < MonthIndex(d)
    ensures HaveIncreasingMonths(gs + [[d]])
  {
    var gs' := gs + [[d]];
    forall j, j' | 0 <= j < j' < |gs'| && |gs'[j]| > 0 && |gs'[j']| > 0
      ensures MonthIndex(gs'[j][0]) < MonthIndex(gs'[j'][0])
    {
      if j' == |gs| && j < |gs| - 1 {
        assert MonthIndex(gs[j][0]) < MonthIndex(gs[|gs| - 1][0]);
      }
    }
  }

  /** Each run of a walk holds consecutive days. */
  lemma {:induction false} WalkGroupsConsecutive(start: Date, n: nat)
    ensures AreConsecutiveRuns(Groups(Walk(start, n)))
  {
    if n > 0 {
      WalkGroupsConsecutive(start, n - 1);
      GroupsStep(start, n - 1);
      var gs0: seq<seq<Date>> := Groups(Walk(start, n - 1));
      var d := AddDays(start, n - 1);
      if |gs0| > 0 && SameMonth(Last(Last(gs0)), d) {
        WalkLastDay(start, n - 1);
        ConsecutiveAppendLast(gs0, d);
      } else {
        ConsecutiveAddNew(gs0, d);
      }
    }
  }

  /** A day of the walk that does not join the last run's month opens a later month. */
  lemma NewRunLaterMonth(start: Date, n: nat)
    requires |Groups(Walk(start, n))| > 0
    requires !SameMonth(Last(Last(Groups(Walk(start, n)))), AddDays(start, n))
    ensures |Last(Groups(Walk(start, n)))| > 0
    ensures MonthIndex(Last(Groups(Walk(start, n)))[0]) < MonthIndex(AddDays(start, n))
  {
    var gs := Groups(Walk(start, n));
    var last := Last(Last(gs));
    WalkLastDay(start, n);
    GroupsAreMonthRuns(Walk(start, n));
    assert IsMonthRun(gs[|gs| - 1]);
    assert SameMonth(Last(gs)[|Last(gs)| - 1], Last(gs)[0]);
    assert AddDays(start, n) == NextDay(last);
  }

  /** The months of the runs of a walk strictly increase: a month, once left, is
      never met again. */
  lemma {:induction false} WalkGroupsIncreasing(start: Date, n: nat)
    ensures HaveIncreasingMonths(Groups(Walk(start, n)))
  {
    if n > 0 {
      WalkGroupsIncreasing(start, n - 1);
      GroupsStep(start, n - 1);
      var gs0: seq<seq<Date>> := Groups(Walk(start, n - 1));
      var d := AddDays(start, n - 1);
      if |gs0| > 0 && SameMonth(Last(Last(gs0)), d) {
        IncreasingAppendLast(gs0, d);
      } else if |gs0| > 0 {
        NewRunLaterMonth(start, n - 1);
        IncreasingAddNew(gs0, d);
      }
    }
  }
}
