/** The monthly activity report: for one calendar year, how many beamtime
    requests and how many allocations were created in each month, for the
    months that saw any. Records are represented by their `created_at`
    timestamps. */
module Report {
  import opened Outcomes
  import opened Models
  import opened Schemas

  /** The report window: midnight on January 1 up to 23:59:59 on December 31,
      both ends included (a timestamp later within that last second is out). */
  function WindowStart(year: int): DateTime { DateTime(Date(year, 1, 1), 0) }
  function WindowEnd(year: int): DateTime { DateTime(Date(year, 12, 31), 86399 * 1000000) }

  /** The years a `datetime` can hold (`MINYEAR` to `MAXYEAR`); building the
      window for any other year raises `ValueError`. */
  predicate YearInRange(year: int) {
    1 <= year <= 9999
  }

  predicate InWindow(t: DateTime, year: int) {
    Between(t, WindowStart(year), WindowEnd(year))
  }

  /** The grouping key of a timestamp (`strftime("%Y-%m")`). */
  function KeyOf(t: DateTime): MonthKey { MonthKey(t.date.year, t.date.month) }

  /** A timestamp falls in the window exactly when it lies in the year and is
      not in the fraction of a second after 23:59:59 on December 31. */
  lemma WindowIsYear(t: DateTime, year: int)
    requires ValidDateTime(t)
    ensures InWindow(t, year) <==>
      t.date.year == year && !(t.date.month == 12 && t.date.day == 31 && t.micros > 86399 * 1000000)
  {
  }

  /** Whatever the timestamp, the window only admits keys of that year's
      twelve months. */
  lemma WindowKey(t: DateTime, year: int)
    requires InWindow(t, year)
    ensures KeyOf(t).year == year && 1 <= KeyOf(t).month <= 12
  {
  }

  /** The number of timestamps in the window. */
  function InWindowCount(ts: seq<DateTime>, year: int): nat
  {
    if ts == [] then 0
    else InWindowCount(ts[..|ts| - 1], year) + (if InWindow(ts[|ts| - 1], year) then 1 else 0)
  }

  /** The number of timestamps in the window that fall in the month `key`. */
  function Tally(ts: seq<DateTime>, year: int, key: MonthKey): nat
  {
    if ts == [] then 0
    else
      var t := ts[|ts| - 1];
      Tally(ts[..|ts| - 1], year, key) + (if InWindow(t, year) && KeyOf(t) == key then 1 else 0)
  }

  /** The report's row for month `m`, if that month saw any activity. */
  function RowFor(reqs: seq<DateTime>, allocs: seq<DateTime>, year: int, m: int): (row: seq<MonthlyReportItem>)
    ensures |row| <= 1
    ensures forall i :: 0 <= i < |row| ==> row[i].month == MonthKey(year, m)
  {
    var key := MonthKey(year, m);
    var rc := Tally(reqs, year, key);
    var ac := Tally(allocs, year, key);
    if rc + ac > 0 then [MonthlyReportItem(key, rc, ac)] else []
  }

  /** The rows for the months before `m`, in month order. */
  function RowsBefore(reqs: seq<DateTime>, allocs: seq<DateTime>, year: int, m: int): seq<MonthlyReportItem>
    decreases m
  {
    if m <= 1 then [] else RowsBefore(reqs, allocs, year, m - 1) + RowFor(reqs, allocs, year, m - 1)
  }

  /** The report: one row per month of the year that saw activity. */
  function ReportRows(reqs: seq<DateTime>, allocs: seq<DateTime>, year: int): seq<MonthlyReportItem>
  {
    RowsBefore(reqs, allocs, year, 13)
  }

  /** The per-month counters (the `defaultdict` values). */
  datatype Counts = Counts(requests: nat, allocations: nat)

  /** Builds the report as the handler does: counts each request in the window
      under its month, then each allocation, then lists the months in key
      order. All keys belong to `year`, so key order is month order. */
  method MonthlyReport(reqs: seq<DateTime>, allocs: seq<DateTime>, year: int)
    returns (r: Result<seq<MonthlyReportItem>>)
    ensures !YearInRange(year) ==> r == Err(OutOfRange)
    ensures YearInRange(year) ==> r == Ok(ReportRows(reqs, allocs, year))
  {
    if !YearInRange(year) {
      return Err(OutOfRange);
    }
    var report := CountRequests(reqs, year);
    report := CountAllocations(report, reqs, allocs, year);
    var rows: seq<MonthlyReportItem> := [];
    for m := 1 to 13
      invariant rows == RowsBefore(reqs, allocs, year, m)
    {
      var key := MonthKey(year, m);
      if key in report {
        rows := rows + [MonthlyReportItem(key, report[key].requests, report[key].allocations)];
      }
    }
    r := Ok(rows);
  }

  method CountRequests(reqs: seq<DateTime>, year: int) returns (report: map<MonthKey, Counts>)
    ensures forall k :: k in report <==> Tally(reqs, year, k) > 0
    ensures forall k :: k in report ==> report[k] == Counts(Tally(reqs, year, k), 0)
    ensures forall k :: k in report ==> k.year == year && 1 <= k.month <= 12
  {
    report := map[];
    for i := 0 to |reqs|
      invariant forall k :: k in report <==> Tally(reqs[..i], year, k) > 0
      invariant forall k :: k in report ==> report[k] == Counts(Tally(reqs[..i], year, k), 0)
    {
      TallyStep(reqs, i, year);
      var t := reqs[i];
      if InWindow(t, year) {
        var key := KeyOf(t);
        var c := if key in report then report[key] else Counts(0, 0);
        report := report[key := c.(requests := c.requests + 1)];
      }
    }
    assert reqs[..|reqs|] == reqs;
    forall k | k in report ensures k.year == year && 1 <= k.month <= 12 {
      TallyKey(reqs, year, k);
    }
  }

  method CountAllocations(report0: map<MonthKey, Counts>, reqs: seq<DateTime>, allocs: seq<DateTime>, year: int) returns (report: map<MonthKey, Counts>)
    requires forall k :: k in report0 <==> Tally(reqs, year, k) > 0
    requires forall k :: k in report0 ==> report0[k] == Counts(Tally(reqs, year, k), 0)
    ensures forall k :: k in report <==> Tally(reqs, year, k) > 0 || Tally(allocs, year, k) > 0
    ensures forall k :: k in report ==> report[k] == Counts(Tally(reqs, year, k), Tally(allocs, year, k))
    ensures forall k :: k in report ==> k.year == year && 1 <= k.month <= 12
  {
    report := report0;
    for j := 0 to |allocs|
      invariant forall k :: k in report <==> Tally(reqs, year, k) > 0 || Tally(allocs[..j], year, k) > 0
      invariant forall k :: k in report ==> report[k] == Counts(Tally(reqs, year, k), Tally(allocs[..j], year, k))
    {
      TallyStep(allocs, j, year);
      var t := allocs[j];
      if InWindow(t, year) {
        var key := KeyOf(t);
        var c := if key in report then report[key] else Counts(0, 0);
        report := report[key := c.(allocations := c.allocations + 1)];
      }
    }
    assert allocs[..|allocs|] == allocs;
    forall k | k in report ensures k.year == year && 1 <= k.month <= 12 {
      if Tally(reqs, year, k) > 0 {
        TallyKey(reqs, year, k);
      } else {
        TallyKey(allocs, year, k);
      }
    }
  }

  /** A month with a positive tally is one of the twelve months of the year. */
  lemma {:induction false} TallyKey(ts: seq<DateTime>, year: int, key: MonthKey)
    requires Tally(ts, year, key) > 0
    ensures key.year == year && 1 <= key.month <= 12
  {
    var t := ts[|ts| - 1];
    if InWindow(t, year) && KeyOf(t) == key {
      WindowKey(t, year);
    } else {
      TallyKey(ts[..|ts| - 1], year, key);
    }
  }

  /** Extending a prefix by one timestamp adds it to its own month's tally. */
  lemma TallyStep(ts: seq<DateTime>, i: int, year: int)
    requires 0 <= i < |ts|
    ensures forall k ::
      Tally(ts[..i + 1], year, k) == Tally(ts[..i], year, k) + (if InWindow(ts[i], year) && KeyOf(ts[i]) == k then 1 else 0)
  {
    assert ts[..i + 1][..i] == ts[..i];
  }

  // ---- properties of the report ----

  /** The rows' months strictly increase. */
  ghost predicate MonthsIncrease(rows: seq<MonthlyReportItem>) {
    forall i, j :: 0 <= i < j < |rows| ==> rows[i].month.month < rows[j].month.month
  }

  /** Month keys strictly increase down the report, and all lie in `year`. */
  lemma {:induction false} ReportSorted(reqs: seq<DateTime>, allocs: seq<DateTime>, year: int)
    ensures forall row :: row in ReportRows(reqs, allocs, year) ==> row.month.year == year && 1 <= row.month.month <= 12
    ensures MonthsIncrease(ReportRows(reqs, allocs, year))
  {
    RowsBeforeShape(reqs, allocs, year, 13);
  }

  lemma {:induction false} RowsBeforeShape(reqs: seq<DateTime>, allocs: seq<DateTime>, year: int, m: int)
    ensures forall row :: row in RowsBefore(reqs, allocs, year, m) ==> row.month.year == year && 1 <= row.month.month < m
    ensures MonthsIncrease(RowsBefore(reqs, allocs, year, m))
    decreases m
  {
    if m > 1 {
      RowsBeforeShape(reqs, allocs, year, m - 1);
      var prev := RowsBefore(reqs, allocs, year, m - 1);
      var last := RowFor(reqs, allocs, year, m - 1);
      var rows := prev + last;
      assert rows == RowsBefore(reqs, allocs, year, m);
      forall i | 0 <= i < |rows|
        ensures rows[i].month.year == year && 1 <= rows[i].month.month < m
      {
        if i < |prev| { assert rows[i] == prev[i] && prev[i] in prev; } else { assert rows[i] == last[i - |prev|]; }
      }
      forall i, j | 0 <= i < j < |rows|
        ensures rows[i].month.month < rows[j].month.month
      {
        assert rows[i] == prev[i] && prev[i] in prev;
        if j < |prev| { assert rows[j] == prev[j]; } else { assert rows[j] == last[j - |prev|]; }
      }
    }
  }

  /** A month of the year has a row exactly when something was created in
      it, and that row carries the month's two counts. */
  lemma ReportRowsAreMonths(reqs: seq<DateTime>, allocs: seq<DateTime>, year: int, m: int)
    requires 1 <= m <= 12
    ensures (exists row :: row in ReportRows(reqs, allocs, year) && row.month == MonthKey(year, m))
        <==> Tally(reqs, year, MonthKey(year, m)) + Tally(allocs, year, MonthKey(year, m)) > 0
    ensures forall row :: row in ReportRows(reqs, allocs, year) && row.month == MonthKey(year, m) ==>
        row.requestCount == Tally(reqs, year, row.month) && row.allocationCount == Tally(allocs, year, row.month)
  {
    RowsBeforeMonths(reqs, allocs, year, 13, m);
  }

  lemma {:induction false} RowsBeforeMonths(reqs: seq<DateTime>, allocs: seq<DateTime>, year: int, n: int, m: int)
    requires 1 <= m
    ensures (exists row :: row in RowsBefore(reqs, allocs, year, n) && row.month == MonthKey(year, m))
        <==> m < n && Tally(reqs, year, MonthKey(year, m)) + Tally(allocs, year, MonthKey(year, m)) > 0
    ensures forall row :: row in RowsBefore(reqs, allocs, year, n) && row.month == MonthKey(year, m) ==>
        row.requestCount == Tally(reqs, year, row.month) && row.allocationCount == Tally(allocs, year, row.month)
    decreases n
  {
    if n > 1 {
      RowsBeforeMonths(reqs, allocs, year, n - 1, m);
      var prev := RowsBefore(reqs, allocs, year, n - 1);
      var last := RowFor(reqs, allocs, year, n - 1);
      assert RowsBefore(reqs, allocs, year, n) == prev + last;
      assert forall row :: row in prev + last <==> row in prev || row in last;
      if m == n - 1 && last != [] {
        assert last[0] in last;
      }
    }
  }

  /** Every row records at least one request or allocation. */
  lemma ReportRowsNonEmpty(reqs: seq<DateTime>, allocs: seq<DateTime>, year: int)
    ensures forall row :: row in ReportRows(reqs, allocs, year) ==> row.requestCount + row.allocationCount >= 1
  {
    RowsBeforeNonEmpty(reqs, allocs, year, 13);
  }

  lemma {:induction false} RowsBeforeNonEmpty(reqs: seq<DateTime>, allocs: seq<DateTime>, year: int, m: int)
    ensures forall row :: row in RowsBefore(reqs, allocs, year, m) ==> row.requestCount + row.allocationCount >= 1
    decreases m
  {
    if m > 1 {
      RowsBeforeNonEmpty(reqs, allocs, year, m - 1);
    }
  }

  /** Sum of the request counts (or of the allocation counts) of some rows. */
  function SumRequests(rows: seq<MonthlyReportItem>): nat {
    if rows == [] then 0 else SumRequests(rows[..|rows| - 1]) + rows[|rows| - 1].requestCount
  }

  function SumAllocations(rows: seq<MonthlyReportItem>): nat {
    if rows == [] then 0 else SumAllocations(rows[..|rows| - 1]) + rows[|rows| - 1].allocationCount
  }

  /** The request counts add up to the number of requests created in the
      window, and the allocation counts to the number of allocations. */
  lemma ReportTotals(reqs: seq<DateTime>, allocs: seq<DateTime>, year: int)
    ensures SumRequests(ReportRows(reqs, allocs, year)) == InWindowCount(reqs, year)
    ensures SumAllocations(ReportRows(reqs, allocs, year)) == InWindowCount(allocs, year)
  {
    RowsBeforeSums(reqs, allocs, year, 13);
    MonthsPartition(reqs, year);
    MonthsPartition(allocs, year);
  }

  /** The tallies of the months before `m`, added up. */
  function TallyBefore(ts: seq<DateTime>, year: int, m: int): nat
    decreases m
  {
    if m <= 1 then 0 else TallyBefore(ts, year, m - 1) + Tally(ts, year, MonthKey(year, m - 1))
  }

  lemma {:induction false} RowsBeforeSums(reqs: seq<DateTime>, allocs: seq<DateTime>, year: int, m: int)
    ensures SumRequests(RowsBefore(reqs, allocs, year, m)) == TallyBefore(reqs, year, m)
    ensures SumAllocations(RowsBefore(reqs, allocs, year, m)) == TallyBefore(allocs, year, m)
    decreases m
  {
    if m > 1 {
      RowsBeforeSums(reqs, allocs, year, m - 1);
      var prev := RowsBefore(reqs, allocs, year, m - 1);
      var key := MonthKey(year, m - 1);
      var rc, ac := Tally(reqs, year, key), Tally(allocs, year, key);
      assert RowsBefore(reqs, allocs, year, m) == prev + RowFor(reqs, allocs, year, m - 1);
      assert TallyBefore(reqs, year, m) == TallyBefore(reqs, year, m - 1) + rc;
      assert TallyBefore(allocs, year, m) == TallyBefore(allocs, year, m - 1) + ac;
      if rc + ac > 0 {
        var item := MonthlyReportItem(key, rc, ac);
        assert RowFor(reqs, allocs, year, m - 1) == [item];
        SumsAppend(prev, item);
      } else {
        assert RowFor(reqs, allocs, year, m - 1) == [];
        assert prev + [] == prev;
      }
    }
  }

  /** Appending a row adds its counts to the sums. */
  lemma SumsAppend(rows: seq<MonthlyReportItem>, row: MonthlyReportItem)
    ensures SumRequests(rows + [row]) == SumRequests(rows) + row.requestCount
    ensures SumAllocations(rows + [row]) == SumAllocations(rows) + row.allocationCount
  {
    assert (rows + [row])[..|rows|] == rows;
  }

  /** Each timestamp in the window is tallied under exactly one of the twelve
      months, so the monthly tallies add up to the window count. */
  lemma {:induction false} MonthsPartition(ts: seq<DateTime>, year: int)
    ensures TallyBefore(ts, year, 13) == InWindowCount(ts, year)
    decreases |ts|
  {
    if ts != [] {
      var init := ts[..|ts| - 1];
      var t := ts[|ts| - 1];
      MonthsPartition(init, year);
      TallyBeforeStep(ts, year, 13);
    }
  }

  /** Adding the last timestamp adds one to the months before `m` when it is in
      the window under one of them. */
  lemma {:induction false} TallyBeforeStep(ts: seq<DateTime>, year: int, m: int)
    requires ts != []
    ensures var t := ts[|ts| - 1];
      TallyBefore(ts, year, m) == TallyBefore(ts[..|ts| - 1], year, m)
        + (if InWindow(t, year) && t.date.month < m then 1 else 0)
    decreases m
  {
    if m > 1 {
      TallyBeforeStep(ts, year, m - 1);
    }
  }

  /** The window count is positive exactly when some timestamp is in the
      window. */
  lemma {:induction false} InWindowCountPositive(ts: seq<DateTime>, year: int)
    ensures InWindowCount(ts, year) > 0 <==> exists t :: t in ts && InWindow(t, year)
    decreases |ts|
  {
    if ts != [] {
      var init := ts[..|ts| - 1];
      InWindowCountPositive(init, year);
      assert ts == init + [ts[|ts| - 1]];
      assert forall t :: t in ts <==> t in init || t == ts[|ts| - 1];
    }
  }

  /** The report is empty exactly when neither a request nor an allocation
      was created in the window. */
  lemma ReportEmpty(reqs: seq<DateTime>, allocs: seq<DateTime>, year: int)
    ensures ReportRows(reqs, allocs, year) == [] <==>
      InWindowCount(reqs, year) == 0 && InWindowCount(allocs, year) == 0
  {
    var rows := ReportRows(reqs, allocs, year);
    ReportTotals(reqs, allocs, year);
    if rows != [] {
      ReportRowsNonEmpty(reqs, allocs, year);
      var last := rows[|rows| - 1];
      assert last in rows;
      assert SumRequests(rows) >= last.requestCount;
      assert SumAllocations(rows) >= last.allocationCount;
    }
  }
}
