/** app/reports/page.tsx, lines 270-317: the report shown. The days as a
    table sorted by date, the totals, the customer-type chart without its
    empty slices, the packages by visitors and the five best-selling pantry
    items. */
module ReportView {

  import opened Base
  import opened ItemsSummary
  import opened Reports

  // ------------------------------------------------------------ the days

  /** A row of `mergedList`. */
  datatype DayRow = DayRow(date: Day, timesheet: real, pantry: real, exclusive: real, flexi: real, checkIns: int, total: real)

  /** Lines 272-280: a day's columns and their total. */
  function RowOf(grouped: map<Day, DayTotals>, d: Day): (r: DayRow)
    ensures r.date == d
    ensures r.total == r.timesheet + r.pantry + r.exclusive + r.flexi
  {
    var t := Lookup(grouped, d);
    DayRow(d, t.timesheet, t.pantry, t.exclusive, t.flexi, t.checkIns, t.timesheet + t.pantry + t.exclusive + t.flexi)
  }

  function DayRows(grouped: map<Day, DayTotals>, days: seq<Day>): (r: seq<DayRow>)
    ensures |r| == |days| && forall i :: 0 <= i < |days| ==> r[i] == RowOf(grouped, days[i])
  {
    if days == [] then [] else DayRows(grouped, days[..|days| - 1]) + [RowOf(grouped, days[|days| - 1])]
  }

  function TotalOf(rows: seq<DayRow>): real
  {
    if rows == [] then 0.0 else rows[0].total + TotalOf(rows[1..])
  }

  function CheckInsOf(rows: seq<DayRow>): int
  {
    if rows == [] then 0 else rows[0].checkIns + CheckInsOf(rows[1..])
  }

  predicate ByDateOrder(rows: seq<DayRow>)
  {
    forall i, j :: 0 <= i < j < |rows| ==> rows[i].date <= rows[j].date
  }

  /** Puts `row` before the first row not earlier than it. */
  function InsertByDate(row: DayRow, rows: seq<DayRow>): (r: seq<DayRow>)
    ensures multiset(r) == multiset(rows) + multiset{row}
    ensures TotalOf(r) == row.total + TotalOf(rows) && CheckInsOf(r) == row.checkIns + CheckInsOf(rows)
    ensures ByDateOrder(rows) ==> ByDateOrder(r)
  {
    if rows == [] then [row]
    else if row.date <= rows[0].date then [row] + rows
    else
      var rest := InsertByDate(row, rows[1..]);
      assert rows == [rows[0]] + rows[1..];
      DateHead(rows[0], row, rows[1..], rest);
      [rows[0]] + rest
  }

  lemma DateHead(head: DayRow, x: DayRow, tail: seq<DayRow>, rest: seq<DayRow>)
    requires multiset(rest) == multiset(tail) + multiset{x}
    requires head.date <= x.date
    requires ByDateOrder(tail) ==> ByDateOrder(rest)
    ensures ByDateOrder([head] + tail) ==> ByDateOrder([head] + rest)
  {
    if ByDateOrder([head] + tail) {
      assert ByDateOrder(tail) by {
        forall i, j | 0 <= i < j < |tail| ensures tail[i].date <= tail[j].date {
          assert tail[i] == ([head] + tail)[i + 1] && tail[j] == ([head] + tail)[j + 1];
        }
      }
      forall y | y in rest ensures head.date <= y.date {
        assert ([head] + tail)[0] == head;
        assert y in multiset(rest);
        if y != x {
          assert y in multiset(tail);
          assert y in tail;
          var j :| 0 <= j < |tail| && tail[j] == y;
          assert ([head] + tail)[j + 1] == y;
        }
      }
      var l := [head] + rest;
      forall i, j | 0 <= i < j < |l| ensures l[i].date <= l[j].date {
        if i == 0 {
          assert l[j] == rest[j - 1];
          assert l[j] in rest;
        } else {
          assert l[i] == rest[i - 1] && l[j] == rest[j - 1];
        }
      }
    }
  }

  /** The sort of line 281: by date, earliest first. */
  function SortByDate(rows: seq<DayRow>): (r: seq<DayRow>)
    ensures multiset(r) == multiset(rows)
    ensures ByDateOrder(r)
    ensures TotalOf(r) == TotalOf(rows) && CheckInsOf(r) == CheckInsOf(rows)
  {
    if rows == [] then []
    else
      assert rows == [rows[0]] + rows[1..];
      InsertByDate(rows[0], SortByDate(rows[1..]))
  }

  // ------------------------------------------------------------ charts

  /** A slice of a chart: a name and its number. */
  datatype Entry = Entry(name: string, value: int)

  /** Lines 284-290: the five customer types, dropping those with nothing. */
  function DemographicSlices(demo: Demographics): seq<Entry>
  {
    Positive([Entry("Student", demo.student), Entry("Examinee", demo.examinee), Entry("Regular", demo.regular),
              Entry("Exclusive", demo.exclusive), Entry("Flexi Member", demo.flexi)])
  }

  /** `filter((d) => d.value > 0)`. */
  function Positive(entries: seq<Entry>): (r: seq<Entry>)
    ensures |r| <= |entries|
    ensures forall e :: e in r <==> e in entries && e.value > 0
  {
    if entries == [] then [] else Kept(entries[0]) + Positive(entries[1..])
  }

  /** What the filter keeps of one entry. */
  function Kept(e: Entry): seq<Entry>
  {
    if e.value > 0 then [e] else []
  }

  /** `filter` works entry by entry and keeps the order. */
  lemma {:induction false} PositiveAppend(a: seq<Entry>, b: seq<Entry>)
    ensures Positive(a + b) == Positive(a) + Positive(b)
  {
    if a != [] {
      TailOfConcat(a, b);
      assert Positive(a + b) == Kept(a[0]) + Positive(a[1..] + b);
      PositiveAppend(a[1..], b);
      AppendAssoc(Kept(a[0]), Positive(a[1..]), Positive(b));
    } else {
      assert a + b == b;
    }
  }

  lemma PositiveOne(e: Entry)
    ensures Positive([e]) == if e.value > 0 then [e] else []
  {
    assert [e][1..] == [];
  }

  /** The entries of a count dictionary, in key order. */
  function EntriesOf(c: Counts): (r: seq<Entry>)
    ensures |r| == |c.order|
    ensures forall i :: 0 <= i < |r| ==> r[i] == Entry(c.order[i], Get(c, c.order[i]))
  {
    EntriesUnder(c.counts, c.order)
  }

  function EntriesUnder(m: map<string, int>, keys: seq<string>): (r: seq<Entry>)
    ensures |r| == |keys|
    ensures forall i :: 0 <= i < |r| ==> r[i] == Entry(keys[i], if keys[i] in m then m[keys[i]] else 0)
  {
    if keys == [] then []
    else
      var k := keys[|keys| - 1];
      EntriesUnder(m, keys[..|keys| - 1]) + [Entry(k, if k in m then m[k] else 0)]
  }

  function ValueSum(entries: seq<Entry>): int
  {
    if entries == [] then 0 else entries[0].value + ValueSum(entries[1..])
  }

  predicate Descending(entries: seq<Entry>)
  {
    forall i, j :: 0 <= i < j < |entries| ==> entries[i].value >= entries[j].value
  }

  /** Puts `x` before the first entry it is not below. */
  function InsertByValue(x: Entry, entries: seq<Entry>): (r: seq<Entry>)
    ensures multiset(r) == multiset(entries) + multiset{x}
    ensures ValueSum(r) == x.value + ValueSum(entries)
    ensures Descending(entries) ==> Descending(r)
  {
    if entries == [] then [x]
    else if x.value >= entries[0].value then [x] + entries
    else
      var rest := InsertByValue(x, entries[1..]);
      assert entries == [entries[0]] + entries[1..];
      ValueHead(entries[0], x, entries[1..], rest);
      [entries[0]] + rest
  }

  lemma ValueHead(head: Entry, x: Entry, tail: seq<Entry>, rest: seq<Entry>)
    requires multiset(rest) == multiset(tail) + multiset{x}
    requires head.value > x.value
    requires Descending(tail) ==> Descending(rest)
    ensures Descending([head] + tail) ==> Descending([head] + rest)
  {
    if Descending([head] + tail) {
      assert Descending(tail) by {
        forall i, j | 0 <= i < j < |tail| ensures tail[i].value >= tail[j].value {
          assert tail[i] == ([head] + tail)[i + 1] && tail[j] == ([head] + tail)[j + 1];
        }
      }
      forall y | y in rest ensures head.value >= y.value {
        assert ([head] + tail)[0] == head;
        assert y in multiset(rest);
        if y != x {
          assert y in multiset(tail);
          assert y in tail;
          var j :| 0 <= j < |tail| && tail[j] == y;
          assert ([head] + tail)[j + 1] == y;
        }
      }
      var l := [head] + rest;
      forall i, j | 0 <= i < j < |l| ensures l[i].value >= l[j].value {
        if i == 0 {
          assert l[j] == rest[j - 1];
          assert l[j] in rest;
        } else {
          assert l[i] == rest[i - 1] && l[j] == rest[j - 1];
        }
      }
    }
  }

  /** No two entries share a name. */
  predicate DistinctNames(entries: seq<Entry>)
  {
    forall i, j :: 0 <= i < j < |entries| ==> entries[i].name != entries[j].name
  }

  /** Inserting an entry under a new name keeps the names distinct. */
  lemma {:induction false} InsertKeepsNames(x: Entry, entries: seq<Entry>)
    requires DistinctNames(entries)
    requires forall e :: e in entries ==> e.name != x.name
    ensures DistinctNames(InsertByValue(x, entries))
  {
    if entries != [] && x.value < entries[0].value {
      var rest := InsertByValue(x, entries[1..]);
      InsertKeepsNames(x, entries[1..]);
      HeadNotInserted(x, entries);
      ConsKeepsNames(entries[0], rest);
      assert InsertByValue(x, entries) == [entries[0]] + rest;
    }
  }

  /** The head of entries with distinct names is not under the name of
      any entry of the tail with a new entry inserted. */
  lemma HeadNotInserted(x: Entry, entries: seq<Entry>)
    requires entries != [] && DistinctNames(entries)
    requires forall e :: e in entries ==> e.name != x.name
    ensures forall e :: e in InsertByValue(x, entries[1..]) ==> e.name != entries[0].name
  {
    forall e | e in InsertByValue(x, entries[1..])
      ensures e.name != entries[0].name
    {
      assert e in multiset(entries[1..]) + multiset{x};
      if e != x {
        var k :| 0 <= k < |entries[1..]| && entries[1..][k] == e;
        assert entries[k + 1] == e;
      }
    }
  }

  /** An entry in front of entries under other names keeps the names
      distinct. */
  lemma ConsKeepsNames(h: Entry, rest: seq<Entry>)
    requires DistinctNames(rest)
    requires forall e :: e in rest ==> e.name != h.name
    ensures DistinctNames([h] + rest)
  {
    var r := [h] + rest;
    forall i, j | 0 <= i < j < |r|
      ensures r[i].name != r[j].name
    {
      assert r[j] == rest[j - 1];
      if i > 0 {
        assert r[i] == rest[i - 1];
      }
    }
  }

  /** Sorting entries with distinct names keeps them distinct. */
  lemma {:induction false} SortKeepsNames(entries: seq<Entry>)
    requires DistinctNames(entries)
    ensures DistinctNames(SortByValue(entries))
  {
    if entries != [] {
      var tail := entries[1..];
      SortKeepsNames(tail);
      forall e | e in SortByValue(tail)
        ensures e.name != entries[0].name
      {
        assert e in multiset(tail);
        var k :| 0 <= k < |tail| && tail[k] == e;
        assert entries[k + 1] == e;
      }
      InsertKeepsNames(entries[0], SortByValue(tail));
    }
  }

  /** The sorted entries of listed counts hold each key once. */
  lemma SortedNamesDistinct(c: Counts)
    requires Listed(c)
    ensures DistinctNames(SortByValue(EntriesOf(c)))
  {
    SortKeepsNames(EntriesOf(c));
  }

  /** The sorts of lines 299 and 304: largest first. */
  function SortByValue(entries: seq<Entry>): (r: seq<Entry>)
    ensures multiset(r) == multiset(entries)
    ensures Descending(r)
    ensures ValueSum(r) == ValueSum(entries)
  {
    if entries == [] then []
    else
      assert entries == [entries[0]] + entries[1..];
      InsertByValue(entries[0], SortByValue(entries[1..]))
  }

  /** `slice(0, n)`. */
  function Take(entries: seq<Entry>, n: nat): (r: seq<Entry>)
    ensures |r| <= n && |r| <= |entries| && r == entries[..|r|]
    ensures |entries| >= n ==> |r| == n
    ensures |entries| < n ==> r == entries
  {
    if |entries| <= n then entries else entries[..n]
  }

  // ------------------------------------------------------------ the report

  /** What the page shows. */
  datatype Report = Report(
    daily: seq<DayRow>,
    timesheetTotal: real, pantryTotal: real, exclusiveTotal: real, flexiTotal: real, grandTotal: real,
    totalCheckIns: int,
    demographics: seq<Entry>,
    packageStats: seq<Entry>,
    totalPackagesSold: int,
    bestSellers: seq<Entry>)

  const BestSellerCount: nat := 5

  /** Lines 271-281: the daily table. */
  function Daily(acc: Acc): seq<DayRow>
  {
    SortByDate(DayRows(acc.grouped, acc.days))
  }

  /** Lines 293-299: the packages by number of bookings, largest first. */
  function PackageChart(c: Counts): seq<Entry>
  {
    SortByValue(EntriesOf(c))
  }

  /** Lines 302-305: the five items sold most, largest first. */
  function BestSellers(c: Counts): seq<Entry>
  {
    Take(SortByValue(EntriesOf(c)), BestSellerCount)
  }

  /** Lines 271-317 on the accumulated state. */
  function Finish(acc: Acc): Report
  {
    Report(
      Daily(acc),
      acc.tTotal, acc.pTotal, acc.eTotal, acc.fTotal, acc.tTotal + acc.pTotal + acc.eTotal + acc.fTotal,
      acc.checkInCount,
      DemographicSlices(acc.demo),
      PackageChart(acc.pkgCounts),
      acc.pkgTotalCount,
      BestSellers(acc.itemCounts))
  }

  /** The rows in the order the page visits them. */
  function AllRows(timesheet: seq<Row>, exclusive: seq<Row>, flexiSales: seq<Row>, flexiLogs: seq<Row>,
                   pantry: seq<Row>): seq<Row>
  {
    timesheet + exclusive + flexiSales + flexiLogs + pantry
  }

  /** The report of rows processed in the given order. */
  function ReportOf(rows: seq<Row>): Report
  {
    Finish(Fold(Start(), rows))
  }

  /** The report of the fetched rows. */
  function BuildReport(timesheet: seq<Row>, exclusive: seq<Row>, flexiSales: seq<Row>, flexiLogs: seq<Row>,
                       pantry: seq<Row>): Report
  {
    ReportOf(AllRows(timesheet, exclusive, flexiSales, flexiLogs, pantry))
  }

  /** The processing part of `fetchData`: the five loops, then the
      formatting. */
  method Process(timesheet: seq<Row>, exclusive: seq<Row>, flexiSales: seq<Row>, flexiLogs: seq<Row>,
                 pantry: seq<Row>) returns (report: Report)
    ensures report == BuildReport(timesheet, exclusive, flexiSales, flexiLogs, pantry)
  {
    var acc := new Accumulator();
    acc.AddAll(timesheet);
    acc.AddAll(exclusive);
    FoldConcat(Start(), timesheet, exclusive);
    acc.AddAll(flexiSales);
    FoldConcat(Start(), timesheet + exclusive, flexiSales);
    acc.AddAll(flexiLogs);
    FoldConcat(Start(), timesheet + exclusive + flexiSales, flexiLogs);
    acc.AddAll(pantry);
    FoldConcat(Start(), timesheet + exclusive + flexiSales + flexiLogs, pantry);
    report := Finish(acc.State());
  }

  // ------------------------------------------------------------ properties

  lemma {:induction false} DayRowsSums(grouped: map<Day, DayTotals>, days: seq<Day>)
    ensures TotalOf(DayRows(grouped, days)) == DaySum(grouped, days, TotalColumn)
    ensures CheckInsOf(DayRows(grouped, days)) as real == DaySum(grouped, days, CheckInsColumn)
  {
    if days != [] {
      var init := days[..|days| - 1];
      DayRowsSums(grouped, init);
      SumsConcat(DayRows(grouped, init), [RowOf(grouped, days[|days| - 1])]);
    }
  }

  lemma {:induction false} SumsConcat(a: seq<DayRow>, b: seq<DayRow>)
    ensures TotalOf(a + b) == TotalOf(a) + TotalOf(b)
    ensures CheckInsOf(a + b) == CheckInsOf(a) + CheckInsOf(b)
  {
    if a == [] {
      assert a + b == b;
    } else {
      TailOfConcat(a, b);
      SumsConcat(a[1..], b);
    }
  }

  /** The grand total is the sum of the daily totals and the check-ins
      the sum of the daily check-ins. */
  lemma TotalsAgree(acc: Acc)
    requires DaySum(acc.grouped, acc.days, TotalColumn) == AccValue(acc, TotalColumn)
    requires DaySum(acc.grouped, acc.days, CheckInsColumn) == AccValue(acc, CheckInsColumn)
    ensures acc.tTotal + acc.pTotal + acc.eTotal + acc.fTotal == TotalOf(Daily(acc))
    ensures acc.checkInCount == CheckInsOf(Daily(acc))
  {
    DayRowsSums(acc.grouped, acc.days);
  }

  /** Each day once, earliest first. */
  lemma DailyAscending(acc: Acc)
    requires DistinctDays(acc.days)
    ensures var daily := Daily(acc);
            forall i, j :: 0 <= i < j < |daily| ==> daily[i].date < daily[j].date
  {
    var rows := DayRows(acc.grouped, acc.days);
    assert forall i, j :: 0 <= i < j < |rows| ==> rows[i].date != rows[j].date;
    SortedStrictly(rows, Daily(acc));
  }

  /** Sorting rows whose dates differ orders them strictly. */
  lemma SortedStrictly(rows: seq<DayRow>, sorted: seq<DayRow>)
    requires forall i, j :: 0 <= i < j < |rows| ==> rows[i].date != rows[j].date
    requires multiset(sorted) == multiset(rows) && ByDateOrder(sorted)
    ensures forall i, j :: 0 <= i < j < |sorted| ==> sorted[i].date < sorted[j].date
  {
    forall i, j | 0 <= i < j < |sorted| ensures sorted[i].date < sorted[j].date {
      assert sorted[i] in multiset(rows) && sorted[j] in multiset(rows);
      var k :| 0 <= k < |rows| && rows[k] == sorted[i];
      if sorted[i].date == sorted[j].date {
        var l :| 0 <= l < |rows| && rows[l] == sorted[j];
        assert k == l;
        assert multiset(sorted)[sorted[i]] >= 2 by {
          assert sorted == sorted[..j] + sorted[j..];
          assert sorted[i] in multiset(sorted[..j]) by { assert sorted[..j][i] == sorted[i]; }
          assert sorted[j] in multiset(sorted[j..]) by { assert sorted[j..][0] == sorted[j]; }
        }
        SingleRow(rows, k);
      }
    }
  }

  /** A row for every day that has any row and for no other; each row's
      total is the sum of its four columns. */
  lemma DailyCovers(acc: Acc)
    requires forall d :: d in acc.grouped <==> d in acc.days
    ensures var daily := Daily(acc);
            && (forall d :: d in acc.grouped <==> exists i :: 0 <= i < |daily| && daily[i].date == d)
            && (forall i :: 0 <= i < |daily| ==>
                  daily[i] == RowOf(acc.grouped, daily[i].date)
                  && daily[i].total == daily[i].timesheet + daily[i].pantry + daily[i].exclusive + daily[i].flexi)
  {
    var rows := DayRows(acc.grouped, acc.days);
    var daily := Daily(acc);
    forall i | 0 <= i < |daily|
      ensures daily[i] == RowOf(acc.grouped, daily[i].date) && daily[i].date in acc.days
    {
      assert daily[i] in multiset(rows);
      var k :| 0 <= k < |rows| && rows[k] == daily[i];
    }
    forall d | d in acc.grouped ensures exists i :: 0 <= i < |daily| && daily[i].date == d {
      var k :| 0 <= k < |acc.days| && acc.days[k] == d;
      assert rows[k] in multiset(daily);
      var i :| 0 <= i < |daily| && daily[i] == rows[k];
    }
  }

  /** A row whose date is listed once occurs once. */
  lemma SingleRow(rows: seq<DayRow>, k: int)
    requires 0 <= k < |rows|
    requires forall i, j :: 0 <= i < j < |rows| ==> rows[i].date != rows[j].date
    ensures multiset(rows)[rows[k]] == 1
  {
    assert rows == rows[..k] + [rows[k]] + rows[k + 1..];
    assert forall i :: 0 <= i < k ==> rows[..k][i] != rows[k];
    assert forall i :: k < i < |rows| ==> rows[i] != rows[k];
    assert rows[k] !in rows[..k];
    assert rows[k] !in rows[k + 1..];
  }

  // ------------------------------------------------------------ the report's theorems

  lemma {:induction false} ValueSumConcat(a: seq<Entry>, b: seq<Entry>)
    ensures ValueSum(a + b) == ValueSum(a) + ValueSum(b)
  {
    if a == [] {
      assert a + b == b;
    } else {
      TailOfConcat(a, b);
      ValueSumConcat(a[1..], b);
    }
  }

  /** The entries of a count dictionary add up to the sum of its counts. */
  lemma {:induction false} EntriesSum(m: map<string, int>, keys: seq<string>)
    ensures ValueSum(EntriesUnder(m, keys)) == SumKeys(m, keys)
  {
    if keys != [] {
      var k := keys[|keys| - 1];
      EntriesSum(m, keys[..|keys| - 1]);
      ValueSumConcat(EntriesUnder(m, keys[..|keys| - 1]), [Entry(k, if k in m then m[k] else 0)]);
    }
  }

  /** The four running totals are the sums of what each row brings to
      them, and their sum is the sum of the rows' revenue. */
  lemma StreamSums(rows: seq<Row>)
    ensures var acc := Fold(Start(), rows);
            && acc.tTotal == RowsSum(rows, TimesheetColumn)
            && acc.pTotal == RowsSum(rows, PantryColumn)
            && acc.eTotal == RowsSum(rows, ExclusiveColumn)
            && acc.fTotal == RowsSum(rows, FlexiColumn)
            && acc.tTotal + acc.pTotal + acc.eTotal + acc.fTotal == RowsSum(rows, TotalColumn)
  {
    var start := Start();
    var acc := Fold(start, rows);
    assert start.tTotal == start.pTotal == start.eTotal == start.fTotal == 0.0;
    FoldColumns(start, rows, TimesheetColumn);
    assert acc.tTotal == RowsSum(rows, TimesheetColumn);
    FoldColumns(start, rows, PantryColumn);
    assert acc.pTotal == RowsSum(rows, PantryColumn);
    FoldColumns(start, rows, ExclusiveColumn);
    assert acc.eTotal == RowsSum(rows, ExclusiveColumn);
    FoldColumns(start, rows, FlexiColumn);
    assert acc.fTotal == RowsSum(rows, FlexiColumn);
    FoldColumns(start, rows, TotalColumn);
  }

  /** The four stream totals are the sums of what each row brings and
      the grand total is their sum. */
  lemma ReportTotals(rows: seq<Row>)
    ensures var r := ReportOf(rows);
            && r.timesheetTotal == RowsSum(rows, TimesheetColumn)
            && r.pantryTotal == RowsSum(rows, PantryColumn)
            && r.exclusiveTotal == RowsSum(rows, ExclusiveColumn)
            && r.flexiTotal == RowsSum(rows, FlexiColumn)
            && r.grandTotal == RowsSum(rows, TotalColumn)
  {
    var acc := Fold(Start(), rows);
    var r := ReportOf(rows);
    assert r == Finish(acc);
    assert r.timesheetTotal == acc.tTotal && r.pantryTotal == acc.pTotal && r.exclusiveTotal == acc.eTotal
        && r.flexiTotal == acc.fTotal && r.grandTotal == acc.tTotal + acc.pTotal + acc.eTotal + acc.fTotal;
    StreamSums(rows);
  }

  /** The check-ins are the bookings plus the exclusive guests plus the
      Flexi visits. */
  lemma ReportCheckIns(rows: seq<Row>)
    ensures ReportOf(rows).totalCheckIns == RowCount(rows, Visits) + RowCount(rows, Guests) + RowCount(rows, Logs)
  {
    FoldCounters(Start(), rows);
  }

  /** The grand total is the sum of the daily totals, the check-ins the
      sum of the daily check-ins. */
  lemma ReportDailyTotals(rows: seq<Row>)
    ensures var r := ReportOf(rows);
            r.grandTotal == TotalOf(r.daily) && r.totalCheckIns == CheckInsOf(r.daily)
  {
    var acc := Fold(Start(), rows);
    FoldDaysSummed(rows);
    TotalsAgree(acc);
    assert ReportOf(rows) == Finish(acc);
  }

  /** The grand total and the check-ins of the accumulated state are their
      columns summed over the days. */
  lemma FoldDaysSummed(rows: seq<Row>)
    ensures var acc := Fold(Start(), rows);
            && DaySum(acc.grouped, acc.days, TotalColumn) == AccValue(acc, TotalColumn)
            && DaySum(acc.grouped, acc.days, CheckInsColumn) == AccValue(acc, CheckInsColumn)
  {
    StartSound();
    FoldSound(Start(), rows);
  }

  /** The days of an accumulator that has seen some rows are the days of
      those rows. */
  lemma {:induction false} FoldRowDays(rows: seq<Row>, d: Day)
    ensures d in Fold(Start(), rows).grouped <==> exists k :: 0 <= k < |rows| && rows[k].day == d
  {
    FoldDays(Start(), rows, d);
  }

  /** One row per day on which any row falls, earliest first, each row
      holding that day's accumulated columns and their sum. */
  lemma ReportDaily(rows: seq<Row>)
    ensures var daily := ReportOf(rows).daily;
            && (forall i, j :: 0 <= i < j < |daily| ==> daily[i].date < daily[j].date)
            && (forall d :: d in Fold(Start(), rows).grouped <==> exists i :: 0 <= i < |daily| && daily[i].date == d)
            && (forall d :: d in Fold(Start(), rows).grouped <==> exists k :: 0 <= k < |rows| && rows[k].day == d)
            && (forall i :: 0 <= i < |daily| ==>
                  daily[i] == RowOf(Fold(Start(), rows).grouped, daily[i].date)
                  && daily[i].total == daily[i].timesheet + daily[i].pantry + daily[i].exclusive + daily[i].flexi)
  {
    ReportDailyRows(rows);
    forall d ensures d in Fold(Start(), rows).grouped <==> exists k :: 0 <= k < |rows| && rows[k].day == d {
      FoldRowDays(rows, d);
    }
  }

  lemma ReportDailyRows(rows: seq<Row>)
    ensures var daily := ReportOf(rows).daily;
            && (forall i, j :: 0 <= i < j < |daily| ==> daily[i].date < daily[j].date)
            && (forall d :: d in Fold(Start(), rows).grouped <==> exists i :: 0 <= i < |daily| && daily[i].date == d)
            && (forall i :: 0 <= i < |daily| ==>
                  daily[i] == RowOf(Fold(Start(), rows).grouped, daily[i].date)
                  && daily[i].total == daily[i].timesheet + daily[i].pantry + daily[i].exclusive + daily[i].flexi)
  {
    var acc := Fold(Start(), rows);
    FoldDaysListed(rows);
    FinishDaily(acc);
    assert ReportOf(rows) == Finish(acc);
  }

  lemma FinishDaily(acc: Acc)
    requires (forall d :: d in acc.grouped <==> d in acc.days) && DistinctDays(acc.days)
    ensures var daily := Finish(acc).daily;
            && (forall i, j :: 0 <= i < j < |daily| ==> daily[i].date < daily[j].date)
            && (forall d :: d in acc.grouped <==> exists i :: 0 <= i < |daily| && daily[i].date == d)
            && (forall i :: 0 <= i < |daily| ==>
                  daily[i] == RowOf(acc.grouped, daily[i].date)
                  && daily[i].total == daily[i].timesheet + daily[i].pantry + daily[i].exclusive + daily[i].flexi)
  {
    var daily := Daily(acc);
    assert Finish(acc).daily == daily;
    DailyAscending(acc);
    DailyCovers(acc);
  }

  /** The days of the accumulated state are listed once each. */
  lemma FoldDaysListed(rows: seq<Row>)
    ensures var acc := Fold(Start(), rows);
            (forall d :: d in acc.grouped <==> d in acc.days) && DistinctDays(acc.days)
  {
    StartSound();
    FoldSound(Start(), rows);
  }

  /** The package chart of counts: largest first, each entry the count
      under its name, every key present, the entries adding up to the
      sum of the counts. */
  lemma ChartOfCounts(c: Counts)
    requires Listed(c)
    ensures var stats := PackageChart(c);
            && Descending(stats)
            && (forall e :: e in stats ==> e.name in c.counts && e.value == Get(c, e.name))
            && (forall name :: name in c.counts ==> exists e :: e in stats && e.name == name)
            && DistinctNames(stats)
            && ValueSum(stats) == CountSum(c)
  {
    var stats := PackageChart(c);
    SortedNamesDistinct(c);
    EntriesSum(c.counts, c.order);
    SortedEntries(c);
    forall name | name in c.counts ensures exists e :: e in stats && e.name == name {
      assert Entry(name, Get(c, name)) in stats;
    }
  }

  /** The counts sorted by value hold exactly one entry per key, with the
      count under it. */
  lemma SortedEntries(c: Counts)
    requires Listed(c)
    ensures var sorted := SortByValue(EntriesOf(c));
            && (forall e :: e in sorted ==> e.name in c.counts && e.value == Get(c, e.name))
            && (forall name :: name in c.counts ==> Entry(name, Get(c, name)) in sorted)
  {
    var entries := EntriesOf(c);
    var sorted := SortByValue(entries);
    forall e | e in sorted ensures e.name in c.counts && e.value == Get(c, e.name) {
      SortedEntry(c, e);
    }
    forall name | name in c.counts ensures Entry(name, Get(c, name)) in sorted {
      KeySorted(c, name);
    }
  }

  lemma SortedEntry(c: Counts, e: Entry)
    requires Listed(c) && e in SortByValue(EntriesOf(c))
    ensures e.name in c.counts && e.value == Get(c, e.name)
  {
    assert e in multiset(EntriesOf(c));
  }

  lemma KeySorted(c: Counts, name: string)
    requires Listed(c) && name in c.counts
    ensures Entry(name, Get(c, name)) in SortByValue(EntriesOf(c))
  {
    var entries := EntriesOf(c);
    var i :| 0 <= i < |c.order| && c.order[i] == name;
    assert entries[i] in multiset(SortByValue(entries));
  }

  /** The package counts of some rows: each name's count is the number of
      bookings under it, every booked name is a key, and the
      counts add up to the packages sold, which is the number of
      bookings. */
  lemma PackagesCounted(rows: seq<Row>)
    ensures var acc := Fold(Start(), rows);
            && Listed(acc.pkgCounts)
            && (forall name :: Get(acc.pkgCounts, name) == CountOf(Packages(rows), name))
            && (forall k :: 0 <= k < |Packages(rows)| ==> Packages(rows)[k].name in acc.pkgCounts.counts)
            && CountSum(acc.pkgCounts) == acc.pkgTotalCount == RowCount(rows, Visits)
  {
    StartSound();
    FoldSound(Start(), rows);
    FoldCounters(Start(), rows);
    FoldCounts(Start(), rows);
    forall name ensures Get(Fold(Start(), rows).pkgCounts, name) == CountOf(Packages(rows), name) {
      AddItemsCounts(NoCounts(), Packages(rows), name);
    }
    forall k | 0 <= k < |Packages(rows)| ensures Packages(rows)[k].name in Fold(Start(), rows).pkgCounts.counts {
      AddItemsCounts(NoCounts(), Packages(rows), Packages(rows)[k].name);
    }
  }

  /** The package chart: one entry per package name, largest first, each
      with the number of bookings under that name; the entries add up to
      the packages sold, which is the number of bookings. */
  lemma ReportPackages(rows: seq<Row>)
    ensures var r := ReportOf(rows);
            && Descending(r.packageStats)
            && (forall i, j :: 0 <= i < j < |r.packageStats| ==> r.packageStats[i].name != r.packageStats[j].name)
            && (forall e :: e in r.packageStats ==> e.value == CountOf(Packages(rows), e.name))
            && (forall k :: 0 <= k < |Packages(rows)| ==>
                  exists e :: e in r.packageStats && e.name == Packages(rows)[k].name)
            && r.totalPackagesSold == RowCount(rows, Visits) == ValueSum(r.packageStats)
  {
    var acc := Fold(Start(), rows);
    var r := ReportOf(rows);
    assert r == Finish(acc);
    assert r.packageStats == PackageChart(acc.pkgCounts) && r.totalPackagesSold == acc.pkgTotalCount;
    PackagesCounted(rows);
    ChartOfCounts(acc.pkgCounts);
  }

  /** The best sellers of counts: five, or every key when there are fewer,
      largest first, each entry
      the count under its name, and no key left out counted more than a
      listed one. */
  lemma TopOfCounts(c: Counts)
    requires Listed(c)
    ensures var best := BestSellers(c);
            && |best| == Min(BestSellerCount, |c.order|)
            && Descending(best)
            && DistinctNames(best)
            && (forall e :: e in best ==> e.name in c.counts && e.value == Get(c, e.name))
            && (forall name, e :: name in c.counts && e in best && Unlisted(best, name) ==> Get(c, name) <= e.value)
  {
    var sorted := SortByValue(EntriesOf(c));
    BestNamesAreKeys(c);
    assert |sorted| == |c.order| by {
      assert |multiset(sorted)| == |multiset(EntriesOf(c))|;
    }
    assert BestSellers(c) == Take(sorted, BestSellerCount);
    TopEntries(sorted, BestSellerCount);
    SortedEntries(c);
  }

  /** The first `n` of a list sorted largest first: still sorted, taken
      from the list, and no entry left out under another name is above a
      taken one. */
  lemma TopEntries(sorted: seq<Entry>, n: nat)
    requires Descending(sorted)
    ensures var best := Take(sorted, n);
            && Descending(best)
            && (forall e :: e in best ==> e in sorted)
            && (forall x, e :: x in sorted && e in best && Unlisted(best, x.name) ==> x.value <= e.value)
  {
    var best := Take(sorted, n);
    forall x, e | x in sorted && e in best && Unlisted(best, x.name) ensures x.value <= e.value {
      var p :| 0 <= p < |sorted| && sorted[p] == x;
      var q :| 0 <= q < |best| && best[q] == e;
      assert |best| <= p;
      assert sorted[q] == e;
    }
  }

  /** No entry of `entries` is under `name`. */
  predicate Unlisted(entries: seq<Entry>, name: string)
  {
    forall e :: e in entries ==> e.name != name
  }

  /** The item counts of some rows: each name's count is the quantity
      sold under it over all pantry summaries, and every sold name is a
      key. */
  lemma ItemsCounted(rows: seq<Row>)
    ensures var acc := Fold(Start(), rows);
            && Listed(acc.itemCounts)
            && (forall name :: Get(acc.itemCounts, name) == CountOf(PantryItems(rows), name))
            && (forall k :: 0 <= k < |PantryItems(rows)| ==> PantryItems(rows)[k].name in acc.itemCounts.counts)
            && (forall name :: name in acc.itemCounts.counts ==>
                  exists k :: 0 <= k < |PantryItems(rows)| && PantryItems(rows)[k].name == name)
  {
    StartSound();
    FoldSound(Start(), rows);
    FoldCounts(Start(), rows);
    forall name ensures Get(Fold(Start(), rows).itemCounts, name) == CountOf(PantryItems(rows), name) {
      AddItemsCounts(NoCounts(), PantryItems(rows), name);
    }
    forall k | 0 <= k < |PantryItems(rows)| ensures PantryItems(rows)[k].name in Fold(Start(), rows).itemCounts.counts {
      AddItemsCounts(NoCounts(), PantryItems(rows), PantryItems(rows)[k].name);
    }
    forall name | name in Fold(Start(), rows).itemCounts.counts
      ensures exists k :: 0 <= k < |PantryItems(rows)| && PantryItems(rows)[k].name == name
    {
      AddItemsCounts(NoCounts(), PantryItems(rows), name);
    }
  }

  /** The best sellers: five, or every item name sold when fewer were,
      largest first, each with the
      quantity sold under that name over all pantry summaries, and no item
      left out sold more than any listed one. */
  lemma ReportBestSellers(rows: seq<Row>)
    ensures var best := ReportOf(rows).bestSellers;
            var items := PantryItems(rows);
            && |best| == Min(BestSellerCount, |Fold(Start(), rows).itemCounts.order|)
            && Descending(best)
            && (forall i, j :: 0 <= i < j < |best| ==> best[i].name != best[j].name)
            && (forall e :: e in best ==> exists k :: 0 <= k < |items| && items[k].name == e.name)
            && (forall e :: e in best ==> e.value == CountOf(items, e.name))
            && (forall k, e :: 0 <= k < |items| && e in best && Unlisted(best, items[k].name) ==>
                  CountOf(items, items[k].name) <= e.value)
  {
    var acc := Fold(Start(), rows);
    var r := ReportOf(rows);
    assert r == Finish(acc);
    assert r.bestSellers == BestSellers(acc.itemCounts);
    ItemsCounted(rows);
    TopOfCounts(acc.itemCounts);
    BestSellersSold(rows);
  }

  /** The best sellers name items that were sold, each once. */
  lemma BestSellersSold(rows: seq<Row>)
    ensures var best := BestSellers(Fold(Start(), rows).itemCounts);
            var items := PantryItems(rows);
            && DistinctNames(best)
            && (forall e :: e in best ==> exists k :: 0 <= k < |items| && items[k].name == e.name)
  {
    var c := Fold(Start(), rows).itemCounts;
    StartSound();
    FoldSound(Start(), rows);
    FoldCounts(Start(), rows);
    BestNamesAreKeys(c);
    forall e | e in BestSellers(c)
      ensures exists k :: 0 <= k < |PantryItems(rows)| && PantryItems(rows)[k].name == e.name
    {
      AddItemsCounts(NoCounts(), PantryItems(rows), e.name);
    }
  }

  /** The best sellers of listed counts are keys, each listed once. */
  lemma BestNamesAreKeys(c: Counts)
    requires Listed(c)
    ensures DistinctNames(BestSellers(c))
    ensures forall e :: e in BestSellers(c) ==> e.name in c.counts
  {
    var sorted := SortByValue(EntriesOf(c));
    SortedNamesDistinct(c);
    SortedEntries(c);
    assert BestSellers(c) == Take(sorted, BestSellerCount);
  }

  lemma SlicesShown(demo: Demographics)
    ensures var shown := DemographicSlices(demo);
            && (forall e :: e in shown ==> e.value > 0)
            && (demo.student > 0 <==> Entry("Student", demo.student) in shown)
            && (demo.examinee > 0 <==> Entry("Examinee", demo.examinee) in shown)
            && (demo.regular > 0 <==> Entry("Regular", demo.regular) in shown)
            && (demo.exclusive > 0 <==> Entry("Exclusive", demo.exclusive) in shown)
            && (demo.flexi > 0 <==> Entry("Flexi Member", demo.flexi) in shown)
  {
    var slices := [Entry("Student", demo.student), Entry("Examinee", demo.examinee), Entry("Regular", demo.regular),
                   Entry("Exclusive", demo.exclusive), Entry("Flexi Member", demo.flexi)];
    assert DemographicSlices(demo) == Positive(slices);
    PositiveKeeps(slices, 0);
    PositiveKeeps(slices, 1);
    PositiveKeeps(slices, 2);
    PositiveKeeps(slices, 3);
    PositiveKeeps(slices, 4);
  }

  /** An entry is kept by the filter exactly when its value is positive. */
  lemma PositiveKeeps(entries: seq<Entry>, i: int)
    requires 0 <= i < |entries|
    ensures entries[i] in Positive(entries) <==> entries[i].value > 0
  {
    assert entries[i] in entries;
  }

  /** The customer chart: only types with someone in them; Student,
      Examinee and Regular together are the bookings, Exclusive the
      exclusive guests and Flexi Member the membership sales. */
  lemma ReportDemographics(rows: seq<Row>)
    ensures var r := ReportOf(rows);
            var demo := Fold(Start(), rows).demo;
            && (forall e :: e in r.demographics ==> e.value > 0)
            && demo.student + demo.examinee + demo.regular == RowCount(rows, Visits)
            && (RowCount(rows, Guests) > 0 <==> Entry("Exclusive", RowCount(rows, Guests)) in r.demographics)
            && (RowCount(rows, Memberships) > 0 <==> Entry("Flexi Member", RowCount(rows, Memberships)) in r.demographics)
  {
    FoldCounters(Start(), rows);
    SlicesShown(Fold(Start(), rows).demo);
    assert ReportOf(rows).demographics == DemographicSlices(Fold(Start(), rows).demo);
  }

  /** The three booking slices of the customer chart: Student counts the
      bookings flagged student, Examinee those flagged board examinee and
      not student, Regular the others, each shown exactly when it is
      positive. */
  lemma ReportCustomerTypes(rows: seq<Row>)
    ensures var r := ReportOf(rows);
            && (RowCount(rows, Students) > 0 <==> Entry("Student", RowCount(rows, Students)) in r.demographics)
            && (RowCount(rows, Examinees) > 0 <==> Entry("Examinee", RowCount(rows, Examinees)) in r.demographics)
            && (RowCount(rows, Regulars) > 0 <==> Entry("Regular", RowCount(rows, Regulars)) in r.demographics)
  {
    FoldCustomerTypes(Start(), rows);
    SlicesShown(Fold(Start(), rows).demo);
    assert ReportOf(rows).demographics == DemographicSlices(Fold(Start(), rows).demo);
  }

  /** The page's grand total is the revenue of the five sources added up,
      whatever the order in which they are visited within the sum. */
  lemma BuildReportRows(timesheet: seq<Row>, exclusive: seq<Row>, flexiSales: seq<Row>, flexiLogs: seq<Row>,
                        pantry: seq<Row>)
    ensures BuildReport(timesheet, exclusive, flexiSales, flexiLogs, pantry).grandTotal
         == RowsSum(timesheet, TotalColumn) + RowsSum(exclusive, TotalColumn) + RowsSum(flexiSales, TotalColumn)
            + RowsSum(flexiLogs, TotalColumn) + RowsSum(pantry, TotalColumn)
  {
    var all := AllRows(timesheet, exclusive, flexiSales, flexiLogs, pantry);
    ReportTotals(all);
    RowsSumConcat(timesheet, exclusive, TotalColumn);
    RowsSumConcat(timesheet + exclusive, flexiSales, TotalColumn);
    RowsSumConcat(timesheet + exclusive + flexiSales, flexiLogs, TotalColumn);
    RowsSumConcat(timesheet + exclusive + flexiSales + flexiLogs, pantry, TotalColumn);
  }

  lemma {:induction false} RowsSumConcat(a: seq<Row>, b: seq<Row>, c: Column)
    ensures RowsSum(a + b, c) == RowsSum(a, c) + RowsSum(b, c)
  {
    if b != [] {
      assert (a + b)[..|a + b| - 1] == a + b[..|b| - 1];
      RowsSumConcat(a, b[..|b| - 1], c);
    } else {
      assert a + b == a;
    }
  }
}
